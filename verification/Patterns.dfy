/** What patterns say of whole texts, in terms of the texts alone: the literal parts, the
stars between them, and the single-byte elements. */
module Patterns {
  import opened Bytes
  import opened Glob
  import opened Wildmatch

  /** The pattern matches all of the text. */
  ghost predicate Says(p: seq<Byte>, pathname: bool, t: seq<Byte>) {
    Matches(Parse(p, true, pathname), t, 0)
  }

  /** What starts a component after `d` has been read. */
  predicate Opens(d: seq<Byte>, opens: bool) { if d == [] then opens else d[|d| - 1] == SLASH }

  predicate StartsAt(d: seq<Byte>, t: seq<Byte>, i: nat) { i + |d| <= |t| && t[i..i + |d|] == d }

  /** The pattern `rest` with those very bytes before it. */
  ghost function After(d: seq<Byte>, rest: Glob): Glob {
    if d == [] then rest else One(Exactly(d[0]), After(d[1..], rest))
  }

  lemma {:induction false} AfterMatches(d: seq<Byte>, rest: Glob, t: seq<Byte>, i: nat)
    requires i <= |t|
    ensures Matches(After(d, rest), t, i) <==> StartsAt(d, t, i) && Matches(rest, t, i + |d|)
    decreases |d|
  {
    if d != [] && i < |t| {
      AfterMatches(d[1..], rest, t, i + 1);
      StartsCons(d, t, i);
    }
  }

  lemma {:induction false} ParseAfter(d: seq<Byte>, q: seq<Byte>, opens: bool, pathname: bool)
    requires Literal(d)
    ensures Parse(d + q, opens, pathname) == After(d, Parse(q, Opens(d, opens), pathname))
    decreases |d|
  {
    if d == [] {
      assert d + q == q;
    } else {
      ParsePlain(d[0], d[1..] + q, opens, pathname);
      assert d + q == [d[0]] + (d[1..] + q);
      ParseAfter(d[1..], q, d[0] == SLASH, pathname);
    }
  }

  lemma ParsePlain(c: Byte, q: seq<Byte>, opens: bool, pathname: bool)
    requires !IsGlobSpecial(c)
    ensures Parse([c] + q, opens, pathname) == One(Exactly(c), Parse(q, c == SLASH, pathname))
  {
    assert ([c] + q)[1..] == q;
  }

  /** Plain bytes in front of a pattern are just those bytes in front of the text. */
  lemma LiteralFirst(d: seq<Byte>, q: seq<Byte>, opens: bool, pathname: bool, t: seq<Byte>, i: nat)
    requires Literal(d) && i <= |t|
    ensures Matches(Parse(d + q, opens, pathname), t, i) <==>
              StartsAt(d, t, i) && Matches(Parse(q, Opens(d, opens), pathname), t, i + |d|)
  {
    ParseAfter(d, q, opens, pathname);
    AfterMatches(d, Parse(q, Opens(d, opens), pathname), t, i);
  }

  /** `rest` is some plain bytes, and nothing after them. */
  ghost predicate Ends(rest: Glob, e: seq<Byte>, t: seq<Byte>) {
    forall j: nat {:trigger Matches(rest, t, j)} :: j <= |t| ==> (Matches(rest, t, j) <==> t[j..] == e)
  }

  lemma LiteralEnds(e: seq<Byte>, opens: bool, pathname: bool, t: seq<Byte>)
    requires Literal(e)
    ensures Ends(Parse(e, opens, pathname), e, t)
  {
    forall j: nat | j <= |t| ensures Matches(Parse(e, opens, pathname), t, j) <==> t[j..] == e {
      LiteralMatches(e, opens, pathname, t, j);
    }
  }

  lemma StartsCons(d: seq<Byte>, t: seq<Byte>, i: nat)
    requires d != [] && i < |t|
    ensures StartsAt(d, t, i) <==> t[i] == d[0] && StartsAt(d[1..], t, i + 1)
  {
    if i + |d| <= |t| {
      assert t[i..i + |d|] == [t[i]] + t[i + 1..i + |d|];
      assert d == [d[0]] + d[1..];
    }
  }

  // ---- Double stars -------------------------------------------------------

  const STARS: seq<Byte> := [STAR, STAR]

  /** A double star and what it is followed by. */
  lemma ParseStars(q: seq<Byte>, opens: bool)
    requires q == [] || q[0] != STAR
    ensures Parse(STARS + q, opens, true) ==
              if opens && q == [] then Star(true, End)
              else if opens && q[0] == SLASH then Dirs(Parse(q[1..], true, true))
              else if opens && 1 < |q| && q[0] == BACKSLASH && q[1] == SLASH then Star(true, Parse(q, false, true))
              else Star(false, Parse(q, false, true))
  {
    var p := STARS + q;
    StarRunIs(p, 2);
    assert p[2..] == q;
    assert q != [] ==> p[3..] == q[1..];
  }

  /** Last in the pattern, after a slash: everything below that directory. */
  lemma TrailingStars(d: seq<Byte>, t: seq<Byte>)
    requires Literal(d)
    ensures Says(d + [SLASH] + STARS, true, t) <==> d + [SLASH] <= t
  {
    var dir := d + [SLASH];
    ParseStars([], true);
    assert STARS + [] == STARS;
    LiteralFirst(dir, STARS, true, true, t, 0);
    if StartsAt(dir, t, 0) { assert Matches(End, t, |t|); }
  }

  /** Any number of whole directories, or none. */
  ghost predicate Directories(m: seq<Byte>) { m == [] || m[|m| - 1] == SLASH }

  /** `t` is `d`, then something, then `e`. */
  ghost predicate Between(t: seq<Byte>, d: seq<Byte>, m: seq<Byte>, e: seq<Byte>) { t == d + m + e }

  lemma DirsThen(e: seq<Byte>, t: seq<Byte>, i: nat)
    requires Literal(e) && i <= |t|
    ensures Matches(Dirs(Parse(e, true, true)), t, i) <==> exists m :: Directories(m) && t[i..] == m + e
  {
    LiteralEnds(e, true, true, t);
    DirsBefore(Parse(e, true, true), e, t, i);
  }

  lemma DirsBefore(rest: Glob, e: seq<Byte>, t: seq<Byte>, i: nat)
    requires Ends(rest, e, t) && i <= |t|
    ensures Matches(Dirs(rest), t, i) <==> exists m :: Directories(m) && t[i..] == m + e
  {
    if Matches(rest, t, i) {
      assert Directories([]) && t[i..] == [] + e;
    } else if k: nat :| i <= k < |t| && t[k] == SLASH && Matches(rest, t, k + 1) {
      DirsSkip(t, i, k);
    }
    if m :| Directories(m) && t[i..] == m + e { DirsTake(rest, m, e, t, i); }
  }

  lemma DirsSkip(t: seq<Byte>, i: nat, k: nat)
    requires i <= k < |t| && t[k] == SLASH
    ensures Directories(t[i..k + 1]) && t[i..] == t[i..k + 1] + t[k + 1..]
  {
  }

  lemma DirsTake(rest: Glob, m: seq<Byte>, e: seq<Byte>, t: seq<Byte>, i: nat)
    requires Ends(rest, e, t) && i <= |t| && Directories(m) && t[i..] == m + e
    ensures Matches(Dirs(rest), t, i)
  {
    var j := i + |m|;
    assert t[j..] == t[i..][|m|..] == e;
    assert Matches(rest, t, j);
    if m != [] { assert t[j - 1] == t[i..][|m| - 1]; }
  }

  /** First in the pattern, before a slash: the rest below any directory. */
  lemma LeadingStars(e: seq<Byte>, t: seq<Byte>)
    requires Literal(e)
    ensures Says(STARS + [SLASH] + e, true, t) <==> exists m :: Directories(m) && t == m + e
  {
    assert STARS + [SLASH] + e == STARS + ([SLASH] + e);
    ParseStars([SLASH] + e, true);
    assert ([SLASH] + e)[1..] == e;
    DirsThen(e, t, 0);
    assert t[0..] == t;
  }

  /** Between slashes: any directories, or none, between the two parts. */
  lemma MiddleStars(d: seq<Byte>, e: seq<Byte>, t: seq<Byte>)
    requires Literal(d) && Literal(e)
    ensures Says(d + [SLASH] + STARS + [SLASH] + e, true, t) <==>
              exists m :: Directories(m) && Between(t, d + [SLASH], m, e)
  {
    var dir, q := d + [SLASH], STARS + ([SLASH] + e);
    assert d + [SLASH] + STARS + [SLASH] + e == dir + q;
    LiteralFirst(dir, q, true, true, t, 0);
    ParseStars([SLASH] + e, true);
    assert ([SLASH] + e)[1..] == e;
    if StartsAt(dir, t, 0) { DirsThen(e, t, |dir|); }
    AfterPrefix(dir, e, t);
  }

  lemma AfterPrefix(d: seq<Byte>, e: seq<Byte>, t: seq<Byte>)
    ensures (StartsAt(d, t, 0) && exists m :: Directories(m) && t[|d|..] == m + e) <==>
              exists m :: Directories(m) && Between(t, d, m, e)
  {
    if StartsAt(d, t, 0) {
      assert t == t[0..|d|] + t[|d|..];
      if m :| Directories(m) && t[|d|..] == m + e { assert Between(t, d, m, e); }
    }
    if m :| Directories(m) && Between(t, d, m, e) {
      assert t[0..|d|] == d && t[|d|..] == m + e;
    }
  }

  /** Beside anything else it is a single star: it stays within a component. */
  lemma InnerStars(d: seq<Byte>, e: seq<Byte>, t: seq<Byte>)
    requires Literal(d) && Literal(e)
    requires (d != [] && d[|d| - 1] != SLASH) || (e != [] && e[0] != SLASH)
    ensures Says(d + STARS + e, true, t) <==> exists m :: SLASH !in m && Between(t, d, m, e)
  {
    assert d + STARS + e == d + (STARS + e);
    LiteralFirst(d, STARS + e, true, true, t, 0);
    ParseStars(e, Opens(d, true));
    StarBetween(d, e, t, false, true);
  }

  /** Against a bare name any run of stars stands for anything. */
  lemma StarsInNames(d: seq<Byte>, e: seq<Byte>, t: seq<Byte>)
    requires Literal(d) && Literal(e)
    ensures Says(d + STARS + e, false, t) <==> exists m :: Between(t, d, m, e)
  {
    assert d + STARS + e == d + (STARS + e);
    LiteralFirst(d, STARS + e, true, false, t, 0);
    StarRunIs(STARS + e, 2);
    assert (STARS + e)[2..] == e;
    StarBetween(d, e, t, true, false);
  }

  /** What a star between plain parts means. */
  lemma StarBetween(d: seq<Byte>, e: seq<Byte>, t: seq<Byte>, spans: bool, pathname: bool)
    requires Literal(e)
    ensures StartsAt(d, t, 0) && Matches(Star(spans, Parse(e, false, pathname)), t, |d|) <==>
              exists m :: (spans || SLASH !in m) && Between(t, d, m, e)
  {
    var rest := Parse(e, false, pathname);
    LiteralEnds(e, false, pathname, t);
    if StartsAt(d, t, 0) && Matches(Star(spans, rest), t, |d|) {
      var m := StarFills(rest, d, e, t, spans);
    }
    if m :| (spans || SLASH !in m) && Between(t, d, m, e) { StarTakes(rest, d, m, e, t, spans); }
  }

  lemma StarFills(rest: Glob, d: seq<Byte>, e: seq<Byte>, t: seq<Byte>, spans: bool) returns (m: seq<Byte>)
    requires Ends(rest, e, t) && StartsAt(d, t, 0) && Matches(Star(spans, rest), t, |d|)
    ensures (spans || SLASH !in m) && Between(t, d, m, e)
  {
    var j: nat :| |d| <= j <= |t| && (spans || NoSlash(t, |d|, j)) && Matches(rest, t, j);
    m := t[|d|..j];
    Cut(d, e, t, j);
    if !spans { NoneIn(t, |d|, j); }
  }

  lemma Cut(d: seq<Byte>, e: seq<Byte>, t: seq<Byte>, j: nat)
    requires StartsAt(d, t, 0) && |d| <= j <= |t| && t[j..] == e
    ensures Between(t, d, t[|d|..j], e)
  {
    assert t == t[0..|d|] + t[|d|..j] + t[j..];
  }

  lemma NoneIn(t: seq<Byte>, i: nat, j: nat)
    requires i <= j <= |t| && NoSlash(t, i, j)
    ensures SLASH !in t[i..j]
  {
  }

  lemma StarTakes(rest: Glob, d: seq<Byte>, m: seq<Byte>, e: seq<Byte>, t: seq<Byte>, spans: bool)
    requires Ends(rest, e, t) && (spans || SLASH !in m) && Between(t, d, m, e)
    ensures StartsAt(d, t, 0) && Matches(Star(spans, rest), t, |d|)
  {
    var j := |d| + |m|;
    assert t[0..|d|] == d && t[j..] == e;
    assert Matches(rest, t, j);
    assert forall k :: |d| <= k < j ==> t[k] == m[k - |d|];
  }

  // ---- Single stars and single bytes --------------------------------------

  /** Against a path a star stands for anything within a component; against a bare name
      for anything. */
  lemma SingleStar(d: seq<Byte>, e: seq<Byte>, t: seq<Byte>, pathname: bool)
    requires Literal(d) && Literal(e)
    ensures Says(d + [STAR] + e, pathname, t) <==> exists m :: (pathname ==> SLASH !in m) && Between(t, d, m, e)
  {
    assert d + [STAR] + e == d + ([STAR] + e);
    LiteralFirst(d, [STAR] + e, true, pathname, t, 0);
    StarRunIs([STAR] + e, 1);
    assert ([STAR] + e)[1..] == e;
    StarBetween(d, e, t, !pathname, pathname);
  }

  lemma OneByte(p: seq<Byte>, pathname: bool, t: seq<Byte>)
    requires p != [] && p[0] != STAR && ReadElement(p, pathname).Element? && ReadElement(p, pathname).len == |p|
    ensures Says(p, pathname, t) <==> |t| == 1 && In(t[0], ReadElement(p, pathname).chars)
  {
    var e := ReadElement(p, pathname);
    assert p[|p|..] == [];
    ParseElement(p, true, pathname);
    assert Parse(p, true, pathname) == One(e.chars, End);
    OneThenEnd(e.chars, t);
  }

  lemma OneThenEnd(chars: CharSet, t: seq<Byte>)
    ensures Matches(One(chars, End), t, 0) <==> |t| == 1 && In(t[0], chars)
  {
    if |t| > 0 { assert Matches(End, t, 1) <==> |t| == 1; }
  }

  /** Any one byte, but no slash in a path. */
  lemma QuestionMark(pathname: bool, t: seq<Byte>)
    ensures Says([QUESTION], pathname, t) <==> |t| == 1 && (pathname ==> t[0] != SLASH)
  {
    OneByte([QUESTION], pathname, t);
  }

  /** A backslash takes what follows as it is. */
  lemma EscapedByte(c: Byte, pathname: bool, t: seq<Byte>)
    ensures Says([BACKSLASH, c], pathname, t) <==> t == [c]
  {
    OneByte([BACKSLASH, c], pathname, t);
  }

  /** Bytes with no meaning of their own in brackets. */
  predicate PlainMember(c: Byte) {
    c != 0 && c != BACKSLASH && c != DASH && c != OPEN && c != CLOSE && c != BANG && c != CARET
  }

  /** One of two bytes in brackets; after a `!` or a `^`, neither of them. */
  lemma BracketOfTwo(a: Byte, b: Byte, pathname: bool, t: seq<Byte>)
    requires PlainMember(a) && PlainMember(b)
    ensures Says([OPEN, a, b, CLOSE], pathname, t) <==> |t| == 1 && t[0] in {a, b} && (pathname ==> t[0] != SLASH)
    ensures forall n :: n in {BANG, CARET} ==>
              (Says([OPEN, n, a, b, CLOSE], pathname, t) <==>
                 |t| == 1 && t[0] !in {a, b} && (pathname ==> t[0] != SLASH))
  {
    TwoMembers(a, b);
    var p := [OPEN, a, b, CLOSE];
    assert p[1..] == [a, b, CLOSE];
    OneByte(p, pathname, t);
    if |t| == 1 { InTwo(t[0], Single(a), Single(b)); }
    forall n | n in {BANG, CARET}
      ensures Says([OPEN, n, a, b, CLOSE], pathname, t) <==>
                |t| == 1 && t[0] !in {a, b} && (pathname ==> t[0] != SLASH)
    {
      var q := [OPEN, n, a, b, CLOSE];
      assert q[2..] == [a, b, CLOSE];
      OneByte(q, pathname, t);
    }
  }

  lemma TwoMembers(a: Byte, b: Byte)
    requires PlainMember(a) && PlainMember(b)
    ensures ReadMembers([a, b, CLOSE], 0) == Members([Single(a), Single(b)], 3)
  {
    assert [a, b, CLOSE][1..] == [b, CLOSE];
    assert ReadItem([b, CLOSE], a) == ItemAt(Single(b), 1, b);
    assert ReadMembers([b, CLOSE], a) == Members([Single(b)], 2);
    assert [Single(a)] + [Single(b)] == [Single(a), Single(b)];
  }

  lemma InTwo(c: Byte, x: Item, y: Item)
    ensures InItems(c, [x, y]) <==> InItem(c, x) || InItem(c, y)
  {
    assert [x] + [y] == [x, y] && [y] + [] == [y];
    InItemsCons(c, x, [y]);
    InItemsCons(c, y, []);
  }

  /** A range holds its ends and what is between them; one written backwards only its
      first end. */
  lemma BracketRange(lo: Byte, hi: Byte, pathname: bool, t: seq<Byte>)
    requires PlainMember(lo) && PlainMember(hi)
    ensures Says([OPEN, lo, DASH, hi, CLOSE], pathname, t) <==>
              |t| == 1 && (lo <= t[0] <= hi || t[0] == lo) && (pathname ==> t[0] != SLASH)
  {
    var p := [OPEN, lo, DASH, hi, CLOSE];
    assert p[1..] == [lo, DASH, hi, CLOSE];
    RangeMembers(lo, hi);
    OneByte(p, pathname, t);
    if |t| == 1 { InTwo(t[0], Single(lo), Range(lo, hi)); }
  }

  lemma RangeMembers(lo: Byte, hi: Byte)
    requires PlainMember(lo) && PlainMember(hi)
    ensures ReadMembers([lo, DASH, hi, CLOSE], 0) == Members([Single(lo), Range(lo, hi)], 4)
  {
    assert [lo, DASH, hi, CLOSE][1..] == [DASH, hi, CLOSE];
    assert ReadItem([DASH, hi, CLOSE], lo) == ItemAt(Range(lo, hi), 2, 0);
    assert ReadMembers([DASH, hi, CLOSE], lo) == Members([Range(lo, hi)], 3);
    assert [Single(lo)] + [Range(lo, hi)] == [Single(lo), Range(lo, hi)];
  }

  // ---- Named classes ------------------------------------------------------

  /** The byte is one of the letters of that text. */
  predicate OneOf(c: Byte, s: string) { exists k :: 0 <= k < |s| && s[k] as int == c }

  const DIGITS: string := "0123456789"
  const LOWER: string := "abcdefghijklmnopqrstuvwxyz"
  const UPPER: string := "ABCDEFGHIJKLMNOPQRSTUVWXYZ"

  /** A run of characters in order, each the next after the one before. */
  predicate Consecutive(s: string) { forall k :: 0 < k < |s| ==> s[k] as int == s[0] as int + k }

  lemma OneOfRun(c: Byte, s: string)
    requires s != "" && Consecutive(s)
    ensures OneOf(c, s) <==> s[0] as int <= c < s[0] as int + |s|
  {
    if s[0] as int <= c < s[0] as int + |s| {
      var k := c - s[0] as int;
      assert s[k] as int == c;
    }
  }

  /** The classes whose members can be written down, by their members. */
  lemma ClassesAre(c: Byte)
    ensures InClass(c, Digit) <==> OneOf(c, DIGITS)
    ensures InClass(c, Lower) <==> OneOf(c, LOWER)
    ensures InClass(c, Upper) <==> OneOf(c, UPPER)
    ensures InClass(c, Alpha) <==> OneOf(c, LOWER) || OneOf(c, UPPER)
    ensures InClass(c, Alnum) <==> OneOf(c, LOWER) || OneOf(c, UPPER) || OneOf(c, DIGITS)
    ensures InClass(c, Xdigit) <==> OneOf(c, DIGITS) || OneOf(c, "abcdef") || OneOf(c, "ABCDEF")
    ensures InClass(c, Blank) <==> OneOf(c, " \t")
  {
    OneOfRun(c, DIGITS);
    OneOfRun(c, LOWER);
    OneOfRun(c, UPPER);
    OneOfRun(c, "abcdef");
    OneOfRun(c, "ABCDEF");
    BlankIs(c);
  }

  lemma BlankIs(c: Byte)
    ensures InClass(c, Blank) <==> OneOf(c, " \t")
  {
    var s := " \t";
    assert s[0] as int == 32 && s[1] as int == 9;
  }

  /** And the rest by those: every byte of seven bits is a control or is printed, and what
      is printed is the blank, a letter or digit, or a mark. */
  lemma ClassesDivide(c: Byte)
    ensures c < 0x80 <==> InClass(c, Cntrl) || InClass(c, Print)
    ensures !(InClass(c, Cntrl) && InClass(c, Print))
    ensures InClass(c, Print) <==> c == ' ' as int || InClass(c, Graph)
    ensures InClass(c, Graph) <==> InClass(c, Alnum) || InClass(c, Punct)
    ensures !(InClass(c, Alnum) && InClass(c, Punct)) && !InClass(' ' as int, Graph)
    ensures OneOf(c, "\t\n\r") ==> InClass(c, Space) && InClass(c, Cntrl)
    ensures InClass(c, Space) <==> c == ' ' as int || '\t' as int <= c <= '\r' as int
  {
  }

  /** The marks, written out. */
  lemma PunctIs(c: Byte)
    ensures InClass(c, Punct) <==>
              OneOf(c, "!\"#$%&'()*+,-./") || OneOf(c, ":;<=>?@") || OneOf(c, "[\\]^_`") || OneOf(c, "{|}~")
  {
    OneOfRun(c, "!\"#$%&'()*+,-./");
    OneOfRun(c, ":;<=>?@");
    OneOfRun(c, "[\\]^_`");
    OneOfRun(c, "{|}~");
  }

  /** The first and third letters of a class's name, which tell it from the others. */
  function Initials(name: ClassName): (int, int) {
    match name
    case Alnum => ('a' as int, 'n' as int)
    case Alpha => ('a' as int, 'p' as int)
    case Blank => ('b' as int, 'a' as int)
    case Cntrl => ('c' as int, 't' as int)
    case Digit => ('d' as int, 'g' as int)
    case Graph => ('g' as int, 'a' as int)
    case Lower => ('l' as int, 'w' as int)
    case Print => ('p' as int, 'i' as int)
    case Punct => ('p' as int, 'n' as int)
    case Space => ('s' as int, 'a' as int)
    case Upper => ('u' as int, 'p' as int)
    case Xdigit => ('x' as int, 'i' as int)
  }

  lemma InitialsOf(name: ClassName)
    ensures |Spelling(name)| >= 5 && (Spelling(name)[0], Spelling(name)[2]) == Initials(name)
  {
    match name
    case Alnum => assert ToBytes("alnum")[0] == 'a' as int && ToBytes("alnum")[2] == 'n' as int;
    case Alpha => assert ToBytes("alpha")[0] == 'a' as int && ToBytes("alpha")[2] == 'p' as int;
    case Blank => assert ToBytes("blank")[0] == 'b' as int && ToBytes("blank")[2] == 'a' as int;
    case Cntrl => assert ToBytes("cntrl")[0] == 'c' as int && ToBytes("cntrl")[2] == 't' as int;
    case Digit => assert ToBytes("digit")[0] == 'd' as int && ToBytes("digit")[2] == 'g' as int;
    case Graph => assert ToBytes("graph")[0] == 'g' as int && ToBytes("graph")[2] == 'a' as int;
    case Lower => assert ToBytes("lower")[0] == 'l' as int && ToBytes("lower")[2] == 'w' as int;
    case Print => assert ToBytes("print")[0] == 'p' as int && ToBytes("print")[2] == 'i' as int;
    case Punct => assert ToBytes("punct")[0] == 'p' as int && ToBytes("punct")[2] == 'n' as int;
    case Space => assert ToBytes("space")[0] == 's' as int && ToBytes("space")[2] == 'a' as int;
    case Upper => assert ToBytes("upper")[0] == 'u' as int && ToBytes("upper")[2] == 'p' as int;
    case Xdigit => assert ToBytes("xdigit")[0] == 'x' as int && ToBytes("xdigit")[2] == 'i' as int;
  }

  lemma SpellingsDiffer(a: ClassName, b: ClassName)
    ensures Spelling(a) == Spelling(b) ==> a == b
  {
    InitialsOf(a);
    InitialsOf(b);
    InitialsDiffer(a, b);
  }

  lemma InitialsDiffer(a: ClassName, b: ClassName)
    ensures Initials(a) == Initials(b) ==> a == b
  {
  }

  lemma {:induction false} ClassOfIs(name: ClassName, classes: seq<ClassName>)
    requires name in classes
    ensures ClassOf(Spelling(name), classes) == Some(name)
  {
    if classes[0] != name {
      SpellingsDiffer(name, classes[0]);
      assert classes == [classes[0]] + classes[1..];
      ClassOfIs(name, classes[1..]);
    }
  }

  lemma AllListed(name: ClassName)
    ensures name in CLASSES
  {
    match name
    case Alnum => assert CLASSES[0] == name;
    case Alpha => assert CLASSES[1] == name;
    case Blank => assert CLASSES[2] == name;
    case Cntrl => assert CLASSES[3] == name;
    case Digit => assert CLASSES[4] == name;
    case Graph => assert CLASSES[5] == name;
    case Lower => assert CLASSES[6] == name;
    case Print => assert CLASSES[7] == name;
    case Punct => assert CLASSES[8] == name;
    case Space => assert CLASSES[9] == name;
    case Upper => assert CLASSES[10] == name;
    case Xdigit => assert CLASSES[11] == name;
  }

  /** What each name in brackets stands for. */
  lemma ClassNames(name: ClassName)
    ensures match name
            case Alnum => ClassOf(ToBytes("alnum"), CLASSES) == Some(name)
            case Alpha => ClassOf(ToBytes("alpha"), CLASSES) == Some(name)
            case Blank => ClassOf(ToBytes("blank"), CLASSES) == Some(name)
            case Cntrl => ClassOf(ToBytes("cntrl"), CLASSES) == Some(name)
            case Digit => ClassOf(ToBytes("digit"), CLASSES) == Some(name)
            case Graph => ClassOf(ToBytes("graph"), CLASSES) == Some(name)
            case Lower => ClassOf(ToBytes("lower"), CLASSES) == Some(name)
            case Print => ClassOf(ToBytes("print"), CLASSES) == Some(name)
            case Punct => ClassOf(ToBytes("punct"), CLASSES) == Some(name)
            case Space => ClassOf(ToBytes("space"), CLASSES) == Some(name)
            case Upper => ClassOf(ToBytes("upper"), CLASSES) == Some(name)
            case Xdigit => ClassOf(ToBytes("xdigit"), CLASSES) == Some(name)
  {
    AllListed(name);
    ClassOfIs(name, CLASSES);
  }

  /** A class by its name, in brackets of its own. */
  lemma ClassInBrackets(text: seq<Byte>, name: ClassName, pathname: bool, t: seq<Byte>)
    requires ClassOf(text, CLASSES) == Some(name) && CLOSE !in text && 0 !in text && text != []
    ensures Says([OPEN, OPEN, COLON] + text + [COLON, CLOSE, CLOSE], pathname, t) <==>
              |t| == 1 && InClass(t[0], name) && (pathname ==> t[0] != SLASH)
  {
    var p := [OPEN, OPEN, COLON] + text + [COLON, CLOSE, CLOSE];
    var q := [OPEN, COLON] + text + [COLON, CLOSE, CLOSE];
    assert p[1..] == q;
    ClassMember(q, text, name);
    OneByte(p, pathname, t);
    if |t| == 1 { InOne(t[0], Named(name)); }
  }

  lemma InOne(c: Byte, x: Item)
    ensures InItems(c, [x]) <==> InItem(c, x)
  {
    assert [x] + [] == [x];
    InItemsCons(c, x, []);
  }

  lemma ClassMember(q: seq<Byte>, text: seq<Byte>, name: ClassName)
    requires q == [OPEN, COLON] + text + [COLON, CLOSE, CLOSE] && CLOSE !in text && 0 !in text && text != []
    requires ClassOf(text, CLASSES) == Some(name)
    ensures ReadMembers(q, 0) == Members([Named(name)], |text| + 5)
  {
    ClassEnds(q, text);
    NamedMember(q, |text| + 3, text, name);
  }

  lemma ClassEnds(q: seq<Byte>, text: seq<Byte>)
    requires q == [OPEN, COLON] + text + [COLON, CLOSE, CLOSE] && CLOSE !in text && 0 !in text
    ensures FindClose(q, 2) == |text| + 3 && q[2..|text| + 2] == text && q[|text| + 2] == COLON
    ensures |q| == |text| + 5 && q[0] == OPEN && q[1] == COLON && q[|text| + 3] == CLOSE && q[|text| + 4] == CLOSE
  {
    FirstClose(q, 2, |text| + 3);
  }

  /** A member that reads as a name between colons is that name's class. */
  lemma NamedMember(q: seq<Byte>, end: nat, text: seq<Byte>, name: ClassName)
    requires 2 < end && end + 1 < |q| && q[0] == OPEN && q[1] == COLON && q[end - 1] == COLON
    requires q[end] == CLOSE && q[end + 1] == CLOSE
    requires FindClose(q, 2) == end && q[2..end - 1] == text && ClassOf(text, CLASSES) == Some(name)
    ensures ReadMembers(q, 0) == Members([Named(name)], end + 2)
  {
    assert ReadItem(q, 0) == ItemAt(Named(name), end + 1, 0);
    OneMember(q, ItemAt(Named(name), end + 1, 0));
  }

  lemma OneMember(q: seq<Byte>, one: ItemAt)
    requires q != [] && q[0] != 0 && one.ItemAt? && ReadItem(q, 0) == one && one.len < |q| && q[one.len] == CLOSE
    ensures ReadMembers(q, 0) == Members([one.item], one.len + 1)
  {
  }

  lemma {:induction false} FirstClose(q: seq<Byte>, i: nat, end: nat)
    requires i <= end < |q| && q[end] == CLOSE && forall k :: i <= k < end ==> q[k] != CLOSE && q[k] != 0
    ensures FindClose(q, i) == end
    decreases end - i
  {
    if i < end { FirstClose(q, i + 1, end); }
  }
}
