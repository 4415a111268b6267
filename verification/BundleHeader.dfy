/** Bundle headers, as lines of text: what is written of refs is what is read, and the
reader's place in the file is then where the pack is. */
module BundleHeader {
  import opened Bytes
  import opened Pack

  const NEWLINE: Byte := '\n' as int
  const SPACE: Byte := ' ' as int
  const MINUS: Byte := '-' as int
  const AT: Byte := '@' as int

  const SIGNATURE: seq<Byte> := ToBytes("# v2 git bundle")

  datatype BundleRef = BundleRef(name: seq<Byte>, id: ObjectId)
  datatype BundleHeader = BundleHeader(version: nat, refs: seq<BundleRef>, prerequisites: seq<ObjectId>,
                                       packOffset: nat)

  // ---- Ids in hex ---------------------------------------------------------

  function HexDigit(n: nat): Byte
    requires n < 16
  {
    if n < 10 then '0' as int + n else 'a' as int + n - 10
  }

  function Hex(s: seq<Byte>): (r: seq<Byte>)
    ensures |r| == 2 * |s|
  {
    if s == [] then [] else [HexDigit(s[0] / 16), HexDigit(s[0] % 16)] + Hex(s[1..])
  }

  function Unhex(s: seq<Byte>): (r: Option<seq<Byte>>)
    ensures r.Some? ==> |s| == 2 * |r.value|
  {
    if s == [] then Some([])
    else if |s| == 1 then None
    else
      var hi, lo, rest := HexValue(s[0]), HexValue(s[1]), Unhex(s[2..]);
      if hi.None? || lo.None? || rest.None? || hi.value > 15 || lo.value > 15 then None
      else Some([hi.value * 16 + lo.value] + rest.value)
  }

  function FromHex(s: seq<Byte>): Option<ObjectId> {
    if |s| != 40 then None
    else
      var r := Unhex(s);
      if r.None? then None else Some(r.value)
  }

  lemma DigitRead(n: nat)
    requires n < 16
    ensures HexValue(HexDigit(n)) == Some(n)
  {
  }

  lemma {:induction false} HexRead(s: seq<Byte>)
    ensures Unhex(Hex(s)) == Some(s)
  {
    if s != [] {
      HexRead(s[1..]);
      DigitRead(s[0] / 16);
      DigitRead(s[0] % 16);
      assert Hex(s)[2..] == Hex(s[1..]);
      assert s == [s[0]] + s[1..];
    }
  }

  lemma {:induction false} HexPlain(s: seq<Byte>, b: Byte)
    requires b == SPACE || b == NEWLINE || b == MINUS
    ensures b !in Hex(s)
  {
    if s != [] { HexPlain(s[1..], b); }
  }

  // ---- Lines --------------------------------------------------------------

  /** Where a byte first is. */
  function Position(bytes: seq<Byte>, b: Byte): (r: Option<nat>)
    ensures r.Some? ==> r.value < |bytes|
  {
    if bytes == [] then None
    else if bytes[0] == b then Some(0)
    else
      var r := Position(bytes[1..], b);
      if r.None? then None else Some(r.value + 1)
  }

  lemma {:induction false} PositionIs(before: seq<Byte>, b: Byte, after: seq<Byte>)
    requires b !in before
    ensures Position(before + [b] + after, b) == Some(|before|)
  {
    if before == [] {
      assert (before + [b] + after)[0] == b;
    } else {
      assert (before + [b] + after)[1..] == before[1..] + [b] + after;
      PositionIs(before[1..], b, after);
    }
  }

  /** The bytes up to the first newline, and those past it. */
  function SplitLine(bytes: seq<Byte>): Option<(seq<Byte>, seq<Byte>)> {
    var end := Position(bytes, NEWLINE);
    if end.None? then None else Some((bytes[..end.value], bytes[end.value + 1..]))
  }

  /** Forty hex digits as an id, and the rest of the line if a space parts them. */
  function ReadId(line: seq<Byte>): Option<(ObjectId, Option<seq<Byte>>)> {
    var space := Position(line, SPACE);
    var id := FromHex(if space.Some? then line[..space.value] else line);
    if id.None? then None
    else if space.Some? && space.value + 1 < |line| then Some((id.value, Some(line[space.value + 1..])))
    else Some((id.value, None))
  }

  datatype Line = End | Capability | Prerequisite(id: ObjectId) | Ref(ref: BundleRef)

  /** What one line says, or nothing if it may not be there. */
  function ReadLine(c: Codec, version: nat, line: seq<Byte>): Option<Line> {
    if line == [] then Some(End)
    else if version == 3 && line[0] == AT then
      if IsText(line[1..], "object-format=sha1") then Some(Capability) else None
    else if line[0] == MINUS then
      var r := ReadId(line[1..]);
      if r.None? then None else Some(Prerequisite(r.value.0))
    else
      var r := ReadId(line);
      if r.None? || r.value.1.None? || !c.utf8(r.value.1.value) then None
      else Some(Ref(BundleRef(r.value.1.value, r.value.0)))
  }

  type LineReader = seq<Byte> -> Option<Line>

  function Reader(c: Codec, version: nat): LineReader {
    line => ReadLine(c, version, line)
  }

  /** What the lines from here on say, and the bytes after the blank one. */
  datatype Lines = Lines(refs: seq<BundleRef>, prerequisites: seq<ObjectId>, pack: seq<Byte>)

  function ReadLines(read: LineReader, bytes: seq<Byte>): (r: Option<Lines>)
    ensures r.Some? ==> |r.value.pack| <= |bytes|
    decreases |bytes|
  {
    var split := SplitLine(bytes);
    if split.None? then None
    else
      var line := read(split.value.0);
      if line.None? then None
      else if line.value.End? then Some(Lines([], [], split.value.1))
      else With(line.value, ReadLines(read, split.value.1))
  }

  function Before(line: Line, rest: Lines): Lines {
    match line
    case Prerequisite(id) => rest.(prerequisites := [id] + rest.prerequisites)
    case Ref(ref) => rest.(refs := [ref] + rest.refs)
    case _ => rest
  }

  function With(line: Line, rest: Option<Lines>): Option<Lines> {
    if rest.None? then None else Some(Before(line, rest.value))
  }

  function Version(signature: seq<Byte>): Option<nat> {
    if IsText(signature, "# v2 git bundle") then Some(2)
    else if IsText(signature, "# v3 git bundle") then Some(3)
    else None
  }

  function BundleHeaderOf(c: Codec, bundle: seq<Byte>): (r: Option<BundleHeader>)
    ensures r.Some? ==> r.value.packOffset <= |bundle|
  {
    HeaderVia(Formats(c), bundle)
  }

  /** A signature's version, and how the lines under it read. */
  type Format = seq<Byte> -> Option<(nat, LineReader)>

  function Formats(c: Codec): Format {
    (signature: seq<Byte>) =>
      var v := Version(signature);
      if v.None? then None else Some((v.value, Reader(c, v.value)))
  }

  function HeaderVia(formats: Format, bundle: seq<Byte>): (r: Option<BundleHeader>)
    ensures r.Some? ==> r.value.packOffset <= |bundle|
  {
    var split := SplitLine(bundle);
    if split.None? || formats(split.value.0).None? then None
    else
      var (version, read) := formats(split.value.0).value;
      Assemble(version, |bundle|, ReadLines(read, split.value.1))
  }

  function Assemble(version: nat, length: nat, lines: Option<Lines>): (r: Option<BundleHeader>)
    ensures r.Some? ==> r.value.packOffset <= length
  {
    if lines.None? || |lines.value.pack| > length then None
    else Some(BundleHeader(version, lines.value.refs, lines.value.prerequisites, length - |lines.value.pack|))
  }

  function After(refs: seq<BundleRef>, prerequisites: seq<ObjectId>, rest: Option<Lines>): Option<Lines> {
    if rest.None? then None
    else Some(Lines(refs + rest.value.refs, prerequisites + rest.value.prerequisites, rest.value.pack))
  }

  lemma AfterNothing(rest: Option<Lines>)
    ensures After([], [], rest) == rest
  {
    if rest.Some? {
      assert [] + rest.value.refs == rest.value.refs;
      assert [] + rest.value.prerequisites == rest.value.prerequisites;
    }
  }

  lemma AfterEnd(refs: seq<BundleRef>, prerequisites: seq<ObjectId>, pack: seq<Byte>)
    ensures After(refs, prerequisites, Some(Lines([], [], pack))) == Some(Lines(refs, prerequisites, pack))
  {
    assert refs + [] == refs && prerequisites + [] == prerequisites;
  }

  lemma AfterLine(refs: seq<BundleRef>, prerequisites: seq<ObjectId>, line: Line, rest: Option<Lines>)
    ensures After(refs, prerequisites, With(line, rest)) ==
            After(if line.Ref? then refs + [line.ref] else refs,
                  if line.Prerequisite? then prerequisites + [line.id] else prerequisites, rest)
  {
    if rest.Some? {
      if line.Ref? { assert refs + ([line.ref] + rest.value.refs) == refs + [line.ref] + rest.value.refs; }
      if line.Prerequisite? {
        assert prerequisites + ([line.id] + rest.value.prerequisites) ==
                 prerequisites + [line.id] + rest.value.prerequisites;
      }
    }
  }

  method ReadHeader(c: Codec, bundle: seq<Byte>) returns (r: Option<BundleHeader>)
    ensures r == BundleHeaderOf(c, bundle)
  {
    var split := SplitLine(bundle);
    if split.None? || Version(split.value.0).None? {
      return None;
    }
    var version := Version(split.value.0).value;
    var lines := CollectLines(Reader(c, version), split.value.1);
    r := Assemble(version, |bundle|, lines);
  }

  method CollectLines(read: LineReader, bytes: seq<Byte>) returns (r: Option<Lines>)
    ensures r == ReadLines(read, bytes)
  {
    var rest, refs: seq<BundleRef>, prerequisites: seq<ObjectId> := bytes, [], [];
    AfterNothing(ReadLines(read, bytes));
    while true
      invariant ReadLines(read, bytes) == After(refs, prerequisites, ReadLines(read, rest))
      decreases |rest|
    {
      var split := SplitLine(rest);
      if split.None? {
        return None;
      }
      var line := read(split.value.0);
      rest := split.value.1;
      if line.None? {
        return None;
      }
      AfterLine(refs, prerequisites, line.value, ReadLines(read, rest));
      match line.value {
        case End =>
          AfterEnd(refs, prerequisites, rest);
          return Some(Lines(refs, prerequisites, rest));
        case Capability =>
        case Prerequisite(id) =>
          prerequisites := prerequisites + [id];
        case Ref(ref) =>
          refs := refs + [ref];
      }
    }
  }

  // ---- Writing ------------------------------------------------------------

  predicate ValidName(name: seq<Byte>) {
    name != [] && SPACE !in name && NEWLINE !in name
  }

  function RefLine(r: BundleRef): seq<Byte> {
    Hex(r.id) + [SPACE] + r.name + [NEWLINE]
  }

  function RefLines(refs: seq<BundleRef>): seq<Byte> {
    if refs == [] then [] else RefLines(refs[..|refs| - 1]) + RefLine(refs[|refs| - 1])
  }

  function HeaderText(signature: seq<Byte>, refs: seq<BundleRef>): seq<Byte> {
    signature + [NEWLINE] + RefLines(refs) + [NEWLINE]
  }

  function HeaderBytes(refs: seq<BundleRef>): seq<Byte> {
    HeaderText(SIGNATURE, refs)
  }

  /** The header's lines, or nothing if a name would be read back as another line. */
  method WriteHeader(refs: seq<BundleRef>) returns (r: Option<seq<Byte>>)
    ensures r == if refs != [] && (forall ref :: ref in refs ==> ValidName(ref.name)) then Some(HeaderBytes(refs))
                 else None
  {
    if refs == [] {
      return None;
    }
    var out := SIGNATURE + [NEWLINE];
    for i := 0 to |refs|
      invariant out == SIGNATURE + [NEWLINE] + RefLines(refs[..i])
      invariant forall ref :: ref in refs[..i] ==> ValidName(ref.name)
    {
      if !ValidName(refs[i].name) {
        return None;
      }
      assert refs[..i + 1][..i] == refs[..i];
      out := out + RefLine(refs[i]);
    }
    assert refs[..|refs|] == refs;
    r := Some(out + [NEWLINE]);
  }

  lemma SignatureIsLine()
    ensures NEWLINE !in SIGNATURE && Version(SIGNATURE) == Some(2)
  {
  }

  lemma SplitLineIs(line: seq<Byte>, rest: seq<Byte>)
    requires NEWLINE !in line
    ensures SplitLine(line + [NEWLINE] + rest) == Some((line, rest))
  {
    PositionIs(line, NEWLINE, rest);
    var bytes := line + [NEWLINE] + rest;
    assert bytes[..|line|] == line && bytes[|line| + 1..] == rest;
  }

  function RefText(r: BundleRef): seq<Byte> {
    Hex(r.id) + [SPACE] + r.name
  }

  /** A ref line written is read back. */
  lemma RefTextRead(c: Codec, r: BundleRef)
    requires ValidName(r.name) && c.utf8(r.name)
    ensures NEWLINE !in RefText(r) && Reader(c, 2)(RefText(r)) == Some(Ref(r))
  {
    var hex := Hex(r.id);
    var line := RefText(r);
    HexRead(r.id);
    HexPlain(r.id, SPACE);
    HexPlain(r.id, NEWLINE);
    HexPlain(r.id, MINUS);
    PositionIs(hex, SPACE, r.name);
    assert line[..|hex|] == hex && line[|hex| + 1..] == r.name;
    assert line[0] == hex[0];
  }

  /** The lines for `refs` are read as just that. */
  ghost predicate Reads(read: LineReader, refs: seq<BundleRef>) {
    && read([]) == Some(End)
    && forall r :: r in refs ==> NEWLINE !in RefText(r) && read(RefText(r)) == Some(Ref(r))
  }

  lemma {:induction false} RefLinesRead(read: LineReader, refs: seq<BundleRef>, rest: seq<Byte>)
    requires Reads(read, refs)
    ensures ReadLines(read, RefLines(refs) + rest) == After(refs, [], ReadLines(read, rest))
    decreases |refs|
  {
    if refs == [] {
      assert RefLines(refs) + rest == rest;
      AfterNothing(ReadLines(read, rest));
    } else {
      var before, last := refs[..|refs| - 1], refs[|refs| - 1];
      assert RefLines(refs) + rest == RefLines(before) + (RefLine(last) + rest);
      RefLinesRead(read, before, RefLine(last) + rest);
      SplitLineIs(RefText(last), rest);
      AfterLine(before, [], Ref(last), ReadLines(read, rest));
      assert refs == before + [last];
    }
  }

  lemma BlankLineRead(read: LineReader, pack: seq<Byte>)
    requires read([]) == Some(End)
    ensures ReadLines(read, [NEWLINE] + pack) == Some(Lines([], [], pack))
  {
    var none: seq<Byte> := [];
    assert [NEWLINE] + pack == none + [NEWLINE] + pack;
    SplitLineIs(none, pack);
  }

  lemma LinesRead(read: LineReader, refs: seq<BundleRef>, pack: seq<Byte>)
    requires Reads(read, refs)
    ensures ReadLines(read, RefLines(refs) + ([NEWLINE] + pack)) == Some(Lines(refs, [], pack))
  {
    RefLinesRead(read, refs, [NEWLINE] + pack);
    BlankLineRead(read, pack);
    AfterEnd(refs, [], pack);
  }

  lemma Regroup(a: seq<Byte>, b: seq<Byte>, c: seq<Byte>)
    ensures a + [NEWLINE] + b + [NEWLINE] + c == a + [NEWLINE] + (b + ([NEWLINE] + c))
    ensures |a| + 1 + |b + ([NEWLINE] + c)| - |c| == |a + [NEWLINE] + b + [NEWLINE]|
  {
  }

  lemma TextRead(formats: Format, signature: seq<Byte>, version: nat, read: LineReader, refs: seq<BundleRef>,
                 pack: seq<Byte>)
    requires NEWLINE !in signature && formats(signature) == Some((version, read)) && Reads(read, refs)
    ensures HeaderVia(formats, HeaderText(signature, refs) + pack) ==
            Some(BundleHeader(version, refs, [], |HeaderText(signature, refs)|))
  {
    var rest := RefLines(refs) + ([NEWLINE] + pack);
    Regroup(signature, RefLines(refs), pack);
    SplitLineIs(signature, rest);
    LinesRead(read, refs, pack);
  }

  /** A header written is read back: the same refs, and the pack just after it. */
  lemma WrittenHeaderRead(c: Codec, refs: seq<BundleRef>, pack: seq<Byte>)
    requires forall ref :: ref in refs ==> ValidName(ref.name) && c.utf8(ref.name)
    ensures BundleHeaderOf(c, HeaderBytes(refs) + pack) == Some(BundleHeader(2, refs, [], |HeaderBytes(refs)|))
  {
    forall r | r in refs ensures NEWLINE !in RefText(r) && Reader(c, 2)(RefText(r)) == Some(Ref(r)) {
      RefTextRead(c, r);
    }
    SignatureIsLine();
    TextRead(Formats(c), SIGNATURE, 2, Reader(c, 2), refs, pack);
  }
}
