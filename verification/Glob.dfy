/** What a gitattributes pattern means, independently of how it is matched.

A pattern is read into a small syntax tree, and a tree matches a text by a
relation over splits of the text. Nothing here backtracks, skips ahead or gives
up early: those belong to the matcher in Wildmatch.dfy, which is proved to
decide exactly this relation.
*/
module Glob {
  import opened Bytes

  const STAR: Byte := '*' as int
  const QUESTION: Byte := '?' as int
  const BACKSLASH: Byte := '\\' as int
  const OPEN: Byte := '[' as int
  const CLOSE: Byte := ']' as int
  const BANG: Byte := '!' as int
  const CARET: Byte := '^' as int
  const COLON: Byte := ':' as int

  /** The named classes `[:name:]` may use. */
  datatype ClassName =
    | Alnum | Alpha | Blank | Cntrl | Digit | Graph
    | Lower | Print | Punct | Space | Upper | Xdigit

  /** One member of a bracket expression. */
  datatype Item =
    | Single(c: Byte)
    | Range(lo: Byte, hi: Byte)
    | Named(name: ClassName)

  /** The set of bytes one single-character element of a pattern accepts. */
  datatype CharSet =
    | Exactly(c: Byte)
    | Any(slashToo: bool)
    | Bracket(negated: bool, items: seq<Item>, slashToo: bool)

  /** A pattern. `Star` covers any run of bytes, of non-slash bytes unless it
      spans. `Dirs` is a leading-component double star with its slash: any run of whole
      directories, or none. `Never` is a malformed rest, which nothing matches. */
  datatype Glob =
    | End
    | One(chars: CharSet, rest: Glob)
    | Star(spans: bool, rest: Glob)
    | Dirs(rest: Glob)
    | Never

  // ---- Characters ---------------------------------------------------------

  predicate IsDigit(c: Byte) { '0' as int <= c <= '9' as int }
  predicate IsLower(c: Byte) { 'a' as int <= c <= 'z' as int }
  predicate IsUpper(c: Byte) { 'A' as int <= c <= 'Z' as int }
  predicate IsAlpha(c: Byte) { IsLower(c) || IsUpper(c) }
  predicate IsAlnum(c: Byte) { IsAlpha(c) || IsDigit(c) }
  predicate IsGraphic(c: Byte) { 33 <= c <= 126 }
  predicate IsControl(c: Byte) { c < 32 || c == 127 }

  predicate InClass(c: Byte, name: ClassName) {
    match name
    case Alnum => IsAlnum(c)
    case Alpha => IsAlpha(c)
    case Blank => c == 32 || c == 9
    case Cntrl => IsControl(c)
    case Digit => IsDigit(c)
    case Graph => IsGraphic(c)
    case Lower => IsLower(c)
    case Print => 32 <= c <= 126
    case Punct => IsGraphic(c) && !IsAlnum(c)
    case Space => 9 <= c <= 13 || c == 32
    case Upper => IsUpper(c)
    case Xdigit => IsDigit(c) || 'a' as int <= c <= 'f' as int || 'A' as int <= c <= 'F' as int
  }

  predicate InItem(c: Byte, item: Item) {
    match item
    case Single(d) => c == d
    case Range(lo, hi) => lo <= c <= hi
    case Named(name) => InClass(c, name)
  }

  predicate InItems(c: Byte, items: seq<Item>) {
    exists k :: 0 <= k < |items| && InItem(c, items[k])
  }

  predicate In(c: Byte, chars: CharSet) {
    match chars
    case Exactly(d) => c == d
    case Any(slashToo) => slashToo || c != SLASH
    case Bracket(negated, items, slashToo) =>
      InItems(c, items) != negated && (slashToo || c != SLASH)
  }

  // ---- Meaning ------------------------------------------------------------

  /** No `/` in `t[i..j]`. */
  ghost predicate NoSlash(t: seq<Byte>, i: nat, j: nat)
    requires j <= |t|
  {
    forall k :: i <= k < j ==> t[k] != SLASH
  }

  /** `g` matches exactly the bytes of `t` from `i` on. */
  ghost predicate Matches(g: Glob, t: seq<Byte>, i: nat)
    requires i <= |t|
    decreases g
  {
    match g
    case End => i == |t|
    case One(chars, rest) => i < |t| && In(t[i], chars) && Matches(rest, t, i + 1)
    case Star(spans, rest) =>
      exists j: nat :: i <= j <= |t| && (spans || NoSlash(t, i, j)) && Matches(rest, t, j)
    case Dirs(rest) =>
      || Matches(rest, t, i)
      || (exists j: nat :: i <= j < |t| && t[j] == SLASH && Matches(rest, t, j + 1))
    case Never => false
  }

  // ---- Syntax -------------------------------------------------------------

  function Spelling(name: ClassName): seq<Byte> {
    match name
    case Alnum => ToBytes("alnum")
    case Alpha => ToBytes("alpha")
    case Blank => ToBytes("blank")
    case Cntrl => ToBytes("cntrl")
    case Digit => ToBytes("digit")
    case Graph => ToBytes("graph")
    case Lower => ToBytes("lower")
    case Print => ToBytes("print")
    case Punct => ToBytes("punct")
    case Space => ToBytes("space")
    case Upper => ToBytes("upper")
    case Xdigit => ToBytes("xdigit")
  }

  const CLASSES: seq<ClassName> :=
    [Alnum, Alpha, Blank, Cntrl, Digit, Graph, Lower, Print, Punct, Space, Upper, Xdigit]

  /** The first of `classes` spelled `name`, if any is. */
  function ClassOf(name: seq<Byte>, classes: seq<ClassName>): Option<ClassName> {
    if classes == [] then None
    else if name == Spelling(classes[0]) then Some(classes[0])
    else ClassOf(name, classes[1..])
  }

  /** The first `c` in `p` at or after `i`, or `|p|`. */
  function Find(p: seq<Byte>, i: nat, c: Byte): (j: nat)
    requires i <= |p|
    ensures i <= j <= |p|
    ensures j < |p| ==> p[j] == c
    ensures forall k :: i <= k < j ==> p[k] != c
    decreases |p| - i
  {
    if i == |p| || p[i] == c then i else Find(p, i + 1, c)
  }

  /** Where the class name that starts at `i` stops: a `]`, a NUL or the end. */
  function FindClose(p: seq<Byte>, i: nat): (j: nat)
    requires i <= |p|
    ensures i <= j <= |p|
    decreases |p| - i
  {
    if i == |p| || p[i] == CLOSE || p[i] == 0 then i else FindClose(p, i + 1)
  }

  /** The member at the head of `p`, after a member that ended in `prev`: the
      member, its length, and the byte a `-` after it would start a range from
      (0 for none). */
  datatype ItemAt = BadItem | ItemAt(item: Item, len: nat, end: Byte)

  function ReadItem(p: seq<Byte>, prev: Byte): (r: ItemAt)
    requires p != []
    ensures r.ItemAt? ==> 1 <= r.len <= |p|
  {
    if p[0] == BACKSLASH then
      if |p| == 1 || p[1] == 0 then BadItem else ItemAt(Single(p[1]), 2, p[1])
    else if p[0] == DASH && prev != 0 && 1 < |p| && p[1] != 0 && p[1] != CLOSE then
      if p[1] != BACKSLASH then ItemAt(Range(prev, p[1]), 2, 0)
      else if |p| == 2 || p[2] == 0 then BadItem
      else ItemAt(Range(prev, p[2]), 3, 0)
    else if p[0] == OPEN && 1 < |p| && p[1] == COLON then ReadNamed(p)
    else ItemAt(Single(p[0]), 1, p[0])
  }

  /** A member that opens with `[:`: a named class if `:]` closes it, and otherwise
      just the bracket. */
  function ReadNamed(p: seq<Byte>): (r: ItemAt)
    requires 1 < |p|
    ensures r.ItemAt? ==> 1 <= r.len <= |p|
  {
    var end := FindClose(p, 2);
    if end == |p| || p[end] == 0 then BadItem
    else if 2 < end && p[end - 1] == COLON then
      var name := ClassOf(p[2..end - 1], CLASSES);
      if name.Some? then ItemAt(Named(name.value), end + 1, 0) else BadItem
    else ItemAt(Single(OPEN), 1, OPEN)
  }

  /** The members at the head of `p`, and their length with the `]` that closes
      them. The first is read whatever it is, so a leading `]` is a member. A NUL
      ends the pattern. */
  datatype Members = BadMembers | Members(items: seq<Item>, len: nat)

  function ReadMembers(p: seq<Byte>, prev: Byte): (r: Members)
    ensures r.Members? ==> 1 < r.len <= |p| && p[r.len - 1] == CLOSE
    decreases |p|
  {
    if p == [] || p[0] == 0 then BadMembers
    else
      var one := ReadItem(p, prev);
      if one.BadItem? then BadMembers
      else if one.len < |p| && p[one.len] == CLOSE then Members([one.item], one.len + 1)
      else
        var rest := ReadMembers(p[one.len..], one.end);
        if rest.BadMembers? then BadMembers else Members([one.item] + rest.items, one.len + rest.len)
  }

  /** Where the run of stars starting at the head of `p` ends. */
  function StarRun(p: seq<Byte>): (n: nat)
    ensures n <= |p|
    ensures forall k :: 0 <= k < n ==> p[k] == STAR
    ensures n < |p| ==> p[n] != STAR
  {
    if p == [] || p[0] != STAR then 0 else 1 + StarRun(p[1..])
  }

  /** Does `p` begin a new path component, or is it empty? */
  predicate AtBoundary(p: seq<Byte>) {
    || p == []
    || p[0] == SLASH
    || (1 < |p| && p[0] == BACKSLASH && p[1] == SLASH)
  }

  predicate Negates(p: seq<Byte>) {
    1 < |p| && (p[1] == BANG || p[1] == CARET)
  }

  /** The single-character element at the head of `p`, and its length. */
  datatype Element = BadElement | Element(chars: CharSet, len: nat)

  function ReadElement(p: seq<Byte>, pathname: bool): (r: Element)
    requires p != [] && p[0] != STAR
    ensures r.Element? ==> 1 <= r.len <= |p|
    ensures r.Element? && p[r.len - 1] == SLASH ==> r.chars == Exactly(SLASH)
    ensures r.Element? && pathname ==> r.chars.Exactly? || !r.chars.slashToo
  {
    if p[0] == BACKSLASH then
      if |p| == 1 then BadElement else Element(Exactly(p[1]), 2)
    else if p[0] == QUESTION then Element(Any(!pathname), 1)
    else if p[0] == OPEN then
      var start := if Negates(p) then 2 else 1;
      var m := ReadMembers(p[start..], 0);
      if m.BadMembers? then BadElement
      else Element(Bracket(Negates(p), m.items, !pathname), start + m.len)
    else Element(Exactly(p[0]), 1)
  }

  /** Read a pattern. `opens` says that it starts a path component, so that a
      double star at its head stands alone. With `pathname`, only such a double
      star crosses a `/`. */
  function Parse(p: seq<Byte>, opens: bool, pathname: bool): Glob
    decreases |p|
  {
    if p == [] then End
    else if p[0] == STAR then
      var n := StarRun(p);
      if !pathname then Star(true, Parse(p[n..], false, pathname))
      else if n == 1 || !opens || !AtBoundary(p[n..]) then Star(false, Parse(p[n..], false, pathname))
      else if n < |p| && p[n] == SLASH then Dirs(Parse(p[n + 1..], true, pathname))
      else Star(true, Parse(p[n..], false, pathname))
    else
      var e := ReadElement(p, pathname);
      if e.BadElement? then Never
      else One(e.chars, Parse(p[e.len..], p[e.len - 1] == SLASH, pathname))
  }
}
