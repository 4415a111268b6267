/** The pieces a route's URL is made of: percent-encoded components and paths,
numbers, and the line anchor. Each is read back from what it is written as. */
module UrlText {
  import opened Bytes

  const PERCENT: Byte := '%' as int
  const HASH: Byte := '#' as int
  const QUERY: Byte := '?' as int
  const AMP: Byte := '&' as int

  // ---- Components ---------------------------------------------------------

  /** The bytes that are never written as themselves. */
  predicate Escaped(b: Byte) {
    b == PERCENT || b == HASH || b == QUERY || b == AMP || b == SLASH || b <= 0x20 || b == 0x7f
  }

  /** A control character of two bytes. */
  predicate WideControl(s: seq<Byte>) {
    |s| > 1 && s[0] == 0xc2 && 0x80 <= s[1] <= 0x9f
  }

  function UpperHex(n: nat): Byte
    requires n < 16
  {
    if n < 10 then '0' as int + n else 'A' as int + n - 10
  }

  function Escape(b: Byte): seq<Byte> { [PERCENT, UpperHex(b / 16), UpperHex(b % 16)] }

  /** How many bytes the character at the head of `s` has, as far as it matters here. */
  function Width(s: seq<Byte>): (w: nat)
    requires s != []
    ensures 1 <= w <= |s|
  {
    if WideControl(s) then 2 else 1
  }

  /** What the character at the head of `s` is written as. */
  function Piece(s: seq<Byte>): seq<Byte>
    requires s != []
  {
    if WideControl(s) then Escape(s[0]) + Escape(s[1]) else if Escaped(s[0]) then Escape(s[0]) else [s[0]]
  }

  function EncodeComponent(s: seq<Byte>): seq<Byte> {
    if s == [] then [] else Piece(s) + EncodeComponent(s[Width(s)..])
  }

  method Encode(s: seq<Byte>) returns (out: seq<Byte>)
    ensures out == EncodeComponent(s)
  {
    out := [];
    var rest := s;
    while rest != []
      invariant out + EncodeComponent(rest) == EncodeComponent(s)
      decreases |rest|
    {
      assert out + EncodeComponent(rest) == (out + Piece(rest)) + EncodeComponent(rest[Width(rest)..]);
      if WideControl(rest) {
        out := out + (Escape(rest[0]) + Escape(rest[1]));
      } else if Escaped(rest[0]) {
        out := out + Escape(rest[0]);
      } else {
        out := out + [rest[0]];
      }
      rest := rest[Width(rest)..];
    }
  }

  /** An escape at the head of `s`: the byte it stands for. */
  function Unescape(s: seq<Byte>): (r: Option<Byte>)
    ensures r.Some? ==> |s| > 2
  {
    if |s| > 2 && s[0] == PERCENT && HexValue(s[1]).Some? && HexValue(s[2]).Some?
    then Some(HexValue(s[1]).value * 16 + HexValue(s[2]).value) else None
  }

  function DecodeComponent(s: seq<Byte>): seq<Byte> {
    if s == [] then []
    else if Unescape(s).Some? then [Unescape(s).value] + DecodeComponent(s[3..])
    else [s[0]] + DecodeComponent(s[1..])
  }

  method Decode(s: seq<Byte>) returns (out: seq<Byte>)
    ensures out == DecodeComponent(s)
  {
    out := [];
    var i := 0;
    while i < |s|
      invariant 0 <= i <= |s| && out + DecodeComponent(s[i..]) == DecodeComponent(s)
      decreases |s| - i
    {
      var byte := Unescape(s[i..]);
      DecodeOne(out, s, i);
      if byte.Some? {
        out := out + [byte.value];
        i := i + 3;
      } else {
        out := out + [s[i]];
        i := i + 1;
      }
    }
  }

  lemma DecodeOne(out: seq<Byte>, s: seq<Byte>, i: nat)
    requires i < |s|
    ensures var b := Unescape(s[i..]);
            out + DecodeComponent(s[i..]) ==
            if b.Some? then out + [b.value] + DecodeComponent(s[i + 3..])
            else out + [s[i]] + DecodeComponent(s[i + 1..])
  {
    var rest := s[i..];
    assert rest[1..] == s[i + 1..] && (|rest| > 2 ==> rest[3..] == s[i + 3..]);
  }

  lemma EscapeRead(b: Byte, tail: seq<Byte>)
    ensures Unescape(Escape(b) + tail) == Some(b) && (Escape(b) + tail)[3..] == tail
  {
    NibbleRead(b / 16);
    NibbleRead(b % 16);
  }

  lemma NibbleRead(n: nat)
    requires n < 16
    ensures HexValue(UpperHex(n)) == Some(n)
  {
  }

  /** A component encoded is decoded to itself, whatever it holds. */
  lemma {:induction false} ComponentRead(s: seq<Byte>)
    ensures DecodeComponent(EncodeComponent(s)) == s
    decreases |s|
  {
    if s != [] {
      var w := Width(s);
      ComponentRead(s[w..]);
      PieceDecodes(s, EncodeComponent(s[w..]));
      assert s == s[..w] + s[w..];
    }
  }

  lemma PieceDecodes(s: seq<Byte>, tail: seq<Byte>)
    requires s != []
    ensures DecodeComponent(Piece(s) + tail) == s[..Width(s)] + DecodeComponent(tail)
  {
    if WideControl(s) {
      assert Piece(s) + tail == Escape(s[0]) + (Escape(s[1]) + tail);
      EscapeDecodes(s[0], Escape(s[1]) + tail);
      EscapeDecodes(s[1], tail);
    } else if Escaped(s[0]) {
      EscapeDecodes(s[0], tail);
    } else {
      PlainDecodes(s[0], tail);
    }
  }

  lemma EscapeDecodes(b: Byte, tail: seq<Byte>)
    ensures DecodeComponent(Escape(b) + tail) == [b] + DecodeComponent(tail)
  {
    EscapeRead(b, tail);
  }

  lemma PlainDecodes(b: Byte, tail: seq<Byte>)
    requires b != PERCENT
    ensures DecodeComponent([b] + tail) == [b] + DecodeComponent(tail)
  {
    assert ([b] + tail)[1..] == tail;
  }

  /** No syntax of the route is left in an encoded component. */
  lemma {:induction false} ComponentPlain(s: seq<Byte>, b: Byte)
    requires b == HASH || b == QUERY || b == AMP || b == SLASH
    ensures b !in EncodeComponent(s)
    decreases |s|
  {
    if s != [] {
      ComponentPlain(s[Width(s)..], b);
      EscapePlain(s[0], b);
      if WideControl(s) { EscapePlain(s[1], b); }
    }
  }

  lemma EscapePlain(c: Byte, b: Byte)
    requires b == HASH || b == QUERY || b == AMP || b == SLASH
    ensures b !in Escape(c)
  {
    assert b != UpperHex(c / 16) && b != UpperHex(c % 16);
  }

  // ---- Splitting ----------------------------------------------------------

  /** The parts between one byte, of which there is always at least one. */
  function Split(s: seq<Byte>, b: Byte): (parts: seq<seq<Byte>>)
    ensures parts != []
  {
    if s == [] then [[]]
    else
      var rest := Split(s[1..], b);
      if s[0] == b then [[]] + rest else [[s[0]] + rest[0]] + rest[1..]
  }

  function Join(parts: seq<seq<Byte>>, b: Byte): seq<Byte> {
    if parts == [] then [] else if |parts| == 1 then parts[0] else parts[0] + [b] + Join(parts[1..], b)
  }

  lemma {:induction false} JoinSplit(s: seq<Byte>, b: Byte)
    ensures Join(Split(s, b), b) == s
  {
    if s != [] {
      JoinSplit(s[1..], b);
      var rest := Split(s[1..], b);
      var parts := Split(s, b);
      assert s == [s[0]] + s[1..];
      if s[0] == b {
        assert parts[1..] == rest;
      } else {
        assert parts[1..] == rest[1..];
      }
    }
  }

  lemma {:induction false} SplitPlain(s: seq<Byte>, b: Byte)
    requires b !in s
    ensures Split(s, b) == [s]
  {
    if s != [] {
      SplitPlain(s[1..], b);
      assert s == [s[0]] + s[1..];
    }
  }

  lemma {:induction false} SplitAt(head: seq<Byte>, b: Byte, tail: seq<Byte>)
    requires b !in head
    ensures Split(head + [b] + tail, b) == [head] + Split(tail, b)
  {
    var s := head + [b] + tail;
    if head == [] {
      assert s[1..] == tail;
    } else {
      assert s[1..] == head[1..] + [b] + tail;
      SplitAt(head[1..], b, tail);
      assert head == [head[0]] + head[1..];
    }
  }

  lemma {:induction false} SplitJoin(parts: seq<seq<Byte>>, b: Byte)
    requires parts != [] && forall k :: 0 <= k < |parts| ==> b !in parts[k]
    ensures Split(Join(parts, b), b) == parts
  {
    if |parts| == 1 {
      SplitPlain(parts[0], b);
    } else {
      SplitJoin(parts[1..], b);
      SplitAt(parts[0], b, Join(parts[1..], b));
      assert parts == [parts[0]] + parts[1..];
    }
  }

  function EncodeAll(parts: seq<seq<Byte>>): (r: seq<seq<Byte>>)
    ensures |r| == |parts|
  {
    seq(|parts|, k requires 0 <= k < |parts| => EncodeComponent(parts[k]))
  }

  function DecodeAll(parts: seq<seq<Byte>>): seq<seq<Byte>> {
    seq(|parts|, k requires 0 <= k < |parts| => DecodeComponent(parts[k]))
  }

  /** A path keeps its separators, and no other slash. */
  function EncodePath(path: seq<Byte>): seq<Byte> { Join(EncodeAll(Split(path, SLASH)), SLASH) }

  function DecodePath(path: seq<Byte>): seq<Byte> { Join(DecodeAll(Split(path, SLASH)), SLASH) }

  /** A path encoded is decoded to itself. */
  lemma PathRead(path: seq<Byte>)
    ensures DecodePath(EncodePath(path)) == path
  {
    var parts := Split(path, SLASH);
    forall k | 0 <= k < |parts| ensures SLASH !in EncodeAll(parts)[k] && DecodeAll(EncodeAll(parts))[k] == parts[k] {
      ComponentPlain(parts[k], SLASH);
      ComponentRead(parts[k]);
    }
    SplitJoin(EncodeAll(parts), SLASH);
    assert DecodeAll(EncodeAll(parts)) == parts;
    JoinSplit(path, SLASH);
  }

  lemma {:induction false} JoinPlain(parts: seq<seq<Byte>>, sep: Byte, b: Byte)
    requires b != sep && forall k :: 0 <= k < |parts| ==> b !in parts[k]
    ensures b !in Join(parts, sep)
  {
    if |parts| > 1 { JoinPlain(parts[1..], sep, b); }
  }

  /** An encoded path has no syntax of the route but its separators, and starts with one
      only if the path does. */
  lemma PathPlain(path: seq<Byte>, b: Byte)
    requires b == HASH || b == QUERY || b == AMP
    ensures b !in EncodePath(path)
  {
    var parts := Split(path, SLASH);
    forall k | 0 <= k < |parts| ensures b !in EncodeAll(parts)[k] {
      ComponentPlain(parts[k], b);
    }
    JoinPlain(EncodeAll(parts), SLASH, b);
  }

  lemma PathStarts(path: seq<Byte>)
    requires path == [] || path[0] != SLASH
    ensures EncodePath(path) == [] || EncodePath(path)[0] != SLASH
    ensures path != [] ==> EncodePath(path) != []
  {
    var parts := Split(path, SLASH);
    if path != [] {
      assert parts[0][0] == path[0];
      EncodeStarts(parts[0]);
      ComponentPlain(parts[0], SLASH);
      assert EncodeAll(parts)[0] == EncodeComponent(parts[0]);
    }
  }

  lemma EncodeStarts(s: seq<Byte>)
    requires s != []
    ensures EncodeComponent(s) != []
  {
  }

  // ---- Numbers ------------------------------------------------------------

  function Decimal(n: nat): (r: seq<Byte>)
    ensures |r| > 0
  {
    (if n < 10 then [] else Decimal(n / 10)) + ['0' as int + n % 10]
  }

  predicate Digits(s: seq<Byte>) {
    forall k :: 0 <= k < |s| ==> '0' as int <= s[k] <= '9' as int
  }

  function Number(s: seq<Byte>): nat
    requires Digits(s)
  {
    if s == [] then 0 else Number(s[..|s| - 1]) * 10 + (s[|s| - 1] - '0' as int)
  }

  lemma NumberPush(s: seq<Byte>, d: nat)
    requires Digits(s) && d < 10
    ensures Digits(s + ['0' as int + d]) && Number(s + ['0' as int + d]) == Number(s) * 10 + d
  {
    assert (s + ['0' as int + d])[..|s|] == s;
  }

  lemma {:induction false} DecimalDigits(n: nat)
    ensures Digits(Decimal(n))
  {
    if n >= 10 { DecimalDigits(n / 10); }
  }

  lemma {:induction false} DecimalRead(n: nat)
    ensures Digits(Decimal(n)) && Number(Decimal(n)) == n
  {
    DecimalDigits(n);
    if n < 10 {
      NumberPush([], n);
    } else {
      DecimalRead(n / 10);
      DecimalPush(Decimal(n / 10), n);
    }
  }

  lemma DecimalPush(front: seq<Byte>, n: nat)
    requires Digits(front) && Number(front) == n / 10
    ensures Number(front + ['0' as int + n % 10]) == n
  {
    NumberPush(front, n % 10);
  }

  /** A number as a program reads one: digits, with a plus sign before them perhaps,
      that fit in a word. */
  function ParseNumber(s: seq<Byte>): Option<nat> {
    var digits := if s != [] && s[0] == '+' as int then s[1..] else s;
    if digits == [] || !Digits(digits) || Number(digits) >= WORD then None else Some(Number(digits))
  }

  lemma NumberRead(n: nat)
    requires n < WORD
    ensures ParseNumber(Decimal(n)) == Some(n)
  {
    DecimalRead(n);
  }

  // ---- Line anchors -------------------------------------------------------

  datatype LineRange = LineRange(start: nat, end: nat)

  function Spanning(a: nat, b: nat): LineRange {
    if a <= b then LineRange(a, b) else LineRange(b, a)
  }

  const LOWER_N: Byte := 'n' as int
  const UPPER_L: Byte := 'L' as int

  function Anchor(r: LineRange): seq<Byte> {
    AnchorText(Decimal(r.start), Decimal(r.end), r.start == r.end)
  }

  function LineNumber(s: seq<Byte>): Option<nat> {
    if s == [] || !Digits(s) || Number(s) >= WORD || Number(s) == 0 then None else Some(Number(s))
  }

  /** Where `-` and then `mark` first are. */
  function Separator(s: seq<Byte>, mark: Byte): (r: Option<nat>)
    ensures r.Some? ==> r.value + 2 <= |s|
  {
    if |s| < 2 then None
    else if s[0] == DASH && s[1] == mark then Some(0)
    else
      var rest := Separator(s[1..], mark);
      if rest.None? then None else Some(rest.value + 1)
  }

  function ParseAnchor(s: seq<Byte>): Option<LineRange> {
    if |s| < 2 || s[0] != HASH || (s[1] != LOWER_N && s[1] != UPPER_L) then None
    else
      var body, at := s[2..], Separator(s[2..], s[1]);
      if at.None? then
        var n := LineNumber(body);
        if n.None? then None else Some(LineRange(n.value, n.value))
      else
        var a, b := LineNumber(body[..at.value]), LineNumber(body[at.value + 2..]);
        if a.None? || b.None? then None else Some(Spanning(a.value, b.value))
  }

  /** Where `b` last is. */
  function Last(s: seq<Byte>, b: Byte): (r: Option<nat>)
    ensures r.Some? ==> r.value < |s|
  {
    if s == [] then None else if s[|s| - 1] == b then Some(|s| - 1) else Last(s[..|s| - 1], b)
  }

  /** The last `#` after the first byte, if a character starts there. */
  function SplitLineAnchor(hash: seq<Byte>): (seq<Byte>, Option<LineRange>) {
    if hash == [] || (|hash| > 1 && 0x80 <= hash[1] <= 0xbf) then (hash, None)
    else
      var at := Last(hash[1..], HASH);
      if at.None? then (hash, None)
      else
        var i := at.value + 1;
        var range := ParseAnchor(hash[i..]);
        if range.None? then (hash, None) else (hash[..i], range)
  }

  lemma {:induction false} SeparatorAfter(digits: seq<Byte>, mark: Byte, tail: seq<Byte>)
    requires Digits(digits)
    ensures Separator(digits, mark) == None
    ensures Separator(digits + [DASH, mark] + tail, mark) == Some(|digits|)
  {
    if digits != [] {
      SeparatorAfter(digits[1..], mark, tail);
      assert (digits + [DASH, mark] + tail)[1..] == digits[1..] + [DASH, mark] + tail;
    }
  }

  function AnchorText(first: seq<Byte>, last: seq<Byte>, one: bool): seq<Byte> {
    [HASH, LOWER_N] + first + if one then [] else [DASH, LOWER_N] + last
  }

  lemma AnchorTextRead(first: seq<Byte>, last: seq<Byte>, one: bool)
    requires LineNumber(first).Some? && LineNumber(last).Some?
    ensures var a, b := LineNumber(first).value, LineNumber(last).value;
            ParseAnchor(AnchorText(first, last, one)) == Some(if one then LineRange(a, a) else Spanning(a, b))
  {
    SeparatorAfter(first, LOWER_N, last);
    var text := AnchorText(first, last, one);
    if one {
      assert text[2..] == first;
    } else {
      var body := first + [DASH, LOWER_N] + last;
      assert text[2..] == body;
      assert body[..|first|] == first && body[|first| + 2..] == last;
    }
  }

  lemma LineRead(n: nat)
    requires 1 <= n < WORD
    ensures LineNumber(Decimal(n)) == Some(n)
  {
    DecimalRead(n);
  }

  /** A range's anchor is read back. */
  lemma AnchorRead(r: LineRange)
    requires 1 <= r.start <= r.end < WORD
    ensures ParseAnchor(Anchor(r)) == Some(r)
  {
    LineRead(r.start);
    LineRead(r.end);
    AnchorTextRead(Decimal(r.start), Decimal(r.end), r.start == r.end);
  }

  lemma {:induction false} LastIs(head: seq<Byte>, b: Byte, tail: seq<Byte>)
    requires b !in tail
    ensures Last(head + [b] + tail, b) == Some(|head|)
  {
    var s := head + [b] + tail;
    if tail != [] {
      assert s[|s| - 1] == tail[|tail| - 1];
      assert s[..|s| - 1] == head + [b] + tail[..|tail| - 1];
      LastIs(head, b, tail[..|tail| - 1]);
    }
  }

  lemma {:induction false} LastNone(s: seq<Byte>, b: Byte)
    requires b !in s
    ensures Last(s, b) == None
  {
    if s != [] { LastNone(s[..|s| - 1], b); }
  }

  /** The anchor comes off a route's URL, and the URL without one is left whole. */
  lemma AnchorSplits(rest: seq<Byte>, r: LineRange)
    requires rest != [] && rest[0] < 0x80 && HASH !in rest && 1 <= r.start <= r.end < WORD
    ensures SplitLineAnchor([HASH] + rest + Anchor(r)) == ([HASH] + rest, Some(r))
    ensures SplitLineAnchor([HASH] + rest) == ([HASH] + rest, None)
  {
    var hash := [HASH] + rest + Anchor(r);
    var tail := Anchor(r)[1..];
    AnchorPlain(r);
    assert hash[1..] == rest + [HASH] + tail;
    LastIs(rest, HASH, tail);
    assert hash[|rest| + 1..] == Anchor(r) && hash[..|rest| + 1] == [HASH] + rest;
    AnchorRead(r);
    assert ([HASH] + rest)[1..] == rest;
    LastNone(rest, HASH);
  }

  lemma AnchorPlain(r: LineRange)
    ensures HASH !in Anchor(r)[1..]
  {
    DecimalRead(r.start);
    DecimalRead(r.end);
    TextPlain(Decimal(r.start), Decimal(r.end), r.start == r.end);
  }

  lemma TextPlain(first: seq<Byte>, last: seq<Byte>, one: bool)
    requires Digits(first) && Digits(last)
    ensures HASH !in AnchorText(first, last, one)[1..]
  {
  }
}
