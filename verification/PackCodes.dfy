/** A packed object's first bytes, taken as bits: which code is which type, how far a run
of groups goes and what number it is, and where a base's name is. */
module PackCodes {
  import opened Bytes
  import opened PackFormat
  import opened Pack
  import opened BundleWriter

  /** The first `n` bytes are a run: each but the last has its top bit set. */
  predicate Run(buf: seq<Byte>, n: nat) {
    0 < n <= |buf| && buf[n - 1] < 128 && forall k :: 0 <= k < n - 1 ==> buf[k] >= 128
  }

  /** Bits 4 to 6. */
  function Code(byte: Byte): nat { byte / 16 % 8 }

  // ---- Runs ---------------------------------------------------------------

  function RunOf(buf: seq<Byte>): Option<nat> {
    if buf == [] then None
    else if buf[0] < 128 then Some(1)
    else if RunOf(buf[1..]).None? then None else Some(RunOf(buf[1..]).value + 1)
  }

  lemma {:induction false} RunOfIs(buf: seq<Byte>, n: nat)
    ensures Run(buf, n) <==> RunOf(buf) == Some(n)
  {
    if buf != [] && buf[0] >= 128 {
      var rest := buf[1..];
      assert forall k :: 0 <= k < |rest| ==> rest[k] == buf[k + 1];
      if n > 0 {
        RunOfIs(rest, n - 1);
        RunShorter(buf, rest, n);
      }
    } else if buf != [] && n > 1 {
      assert 0 <= 0 < n - 1;
    }
  }

  lemma RunShorter(buf: seq<Byte>, rest: seq<Byte>, n: nat)
    requires buf != [] && buf[0] >= 128 && rest == buf[1..] && n > 0
    ensures Run(buf, n) <==> Run(rest, n - 1)
  {
    assert forall k :: 0 <= k < |rest| ==> rest[k] == buf[k + 1];
    if Run(rest, n - 1) {
      forall k | 0 <= k < n - 1 ensures buf[k] >= 128 {
        if k > 0 { assert rest[k - 1] == buf[k]; }
      }
    }
  }

  lemma {:induction false} SizeRun(buf: seq<Byte>, shift: nat, size: nat)
    ensures var r := SizeRest(buf, shift, size);
            if r.None? then RunOf(buf).None? else RunOf(buf) == Some(r.value.0)
    decreases |buf|
  {
    if buf != [] { SizeRun(buf[1..], shift + 7, SizeStep(size, buf[0], shift)); }
  }

  lemma {:induction false} DistanceRun(buf: seq<Byte>, carry: nat)
    ensures var r := DistanceRest(buf, carry);
            if r.None? then RunOf(buf).None? else RunOf(buf) == Some(r.value.0)
    decreases |buf|
  {
    if buf != [] { DistanceRun(buf[1..], (DistanceStep(carry, buf[0]) + 1) % WORD); }
  }

  lemma FirstRun(buf: seq<Byte>)
    ensures var r := TypeAndSize(buf);
            && (r.Some? <==> RunOf(buf).Some? && Code(buf[0]) in {1, 2, 3, 4, 6, 7})
            && (r.Some? ==> RunOf(buf) == Some(r.value.0) && r.value.1 == Code(buf[0]))
  {
    if buf != [] { SizeRun(buf[1..], 4, buf[0] % 16); }
  }

  // ---- What is read -------------------------------------------------------

  /** Is there a header to read, whose first run is `n` long? */
  ghost predicate HasHeader(buf: seq<Byte>, n: nat) {
    && Run(buf, n) && Code(buf[0]) in {1, 2, 3, 4, 6, 7}
    && (Code(buf[0]) == 6 ==> exists m: nat :: Run(buf[n..], m))
    && (Code(buf[0]) == 7 ==> n + 20 <= |buf|)
  }

  lemma HeadersAre(buf: seq<Byte>)
    ensures HeaderOf(buf).Some? <==> exists n: nat :: HasHeader(buf, n)
  {
    FirstRun(buf);
    if HeaderOf(buf).Some? {
      var n := TypeAndSize(buf).value.0;
      RunOfIs(buf, n);
      DistanceRun(buf[n..], 0);
      if Code(buf[0]) == 6 { RunOfIs(buf[n..], DistanceRest(buf[n..], 0).value.0); }
      assert HasHeader(buf, n);
    }
    forall n: nat | HasHeader(buf, n) ensures HeaderOf(buf).Some? {
      HeaderThere(buf, n);
    }
  }

  lemma HeaderThere(buf: seq<Byte>, n: nat)
    requires HasHeader(buf, n)
    ensures HeaderOf(buf).Some?
  {
    FirstRun(buf);
    RunOfIs(buf, n);
    DistanceRun(buf[n..], 0);
    if Code(buf[0]) == 6 {
      var m: nat :| Run(buf[n..], m);
      RunOfIs(buf[n..], m);
    }
  }

  /** What each code says: 1 to 4 are a commit, a tree, a blob and a tag, 6 a delta on the
      object a distance back, 7 one on the object whose 20 bytes of name come next. */
  lemma CodesRead(buf: seq<Byte>, n: nat)
    requires HeaderOf(buf).Some? && Run(buf, n)
    ensures var h := HeaderOf(buf).value;
            && Code(buf[0]) in {1, 2, 3, 4, 6, 7}
            && (Code(buf[0]) == 1 ==> h.kind == Whole(Commit))
            && (Code(buf[0]) == 2 ==> h.kind == Whole(Tree))
            && (Code(buf[0]) == 3 ==> h.kind == Whole(Blob))
            && (Code(buf[0]) == 4 ==> h.kind == Whole(Tag))
            && (Code(buf[0]) == 6 ==> h.kind.OffsetDelta?)
            && (Code(buf[0]) == 7 ==> n + 20 <= |buf| && h.kind == RefDelta(buf[n..n + 20]) && h.len == n + 20)
            && (Code(buf[0]) < 6 ==> h.len == n)
  {
    FirstRun(buf);
    RunOfIs(buf, n);
  }

  /** The distance is the second run's number, counted as git does. */
  lemma DistanceIs(buf: seq<Byte>, n: nat, m: nat)
    requires HeaderOf(buf).Some? && Run(buf, n) && Code(buf[0]) == 6 && Run(buf[n..], m)
    ensures HeaderOf(buf).value.len == n + m
    ensures HeaderOf(buf).value.kind == OffsetDelta((Carry(buf[n..n + m - 1]) * 128 + buf[n + m - 1]) % WORD)
  {
    FirstRun(buf);
    RunOfIs(buf, n);
    var second := buf[n..];
    var front, last := second[..m - 1], second[m - 1];
    ReadIsNumber(front, last, second[m..]);
    assert second == front + [last] + second[m..];
    assert front == buf[n..n + m - 1];
  }

  /** The number of a run's groups of seven bits, the least first. */
  function LeastFirst(groups: seq<Byte>): nat {
    if groups == [] then 0 else groups[0] % 128 + 128 * LeastFirst(groups[1..])
  }

  /** The size is four bits of the first byte and above them the rest of the run, least
      first, to the width of a word. */
  lemma SizeIs(buf: seq<Byte>, n: nat)
    requires HeaderOf(buf).Some? && Run(buf, n) && n <= 10
    ensures HeaderOf(buf).value.size == (buf[0] % 16 + 16 * LeastFirst(buf[1..n])) % WORD
  {
    FirstRun(buf);
    RunOfIs(buf, n);
    if n > 1 {
      var rest := buf[1..];
      RunShorter(buf, rest, n);
      Pow2Constants();
      SizeSums(rest, n - 1, 4, buf[0] % 16);
      assert rest[..n - 1] == buf[1..n];
    } else {
      SmallWraps(buf[0] % 16);
    }
  }

  lemma {:induction false} SizeSums(buf: seq<Byte>, n: nat, shift: nat, size: nat)
    requires Run(buf, n) && shift + 7 * (n - 1) < 64
    ensures SizeRest(buf, shift, size).Some?
    ensures SizeRest(buf, shift, size).value.1 == (size + LeastFirst(buf[..n]) * Pow2(shift)) % WORD
    decreases n
  {
    var rest, high := buf[1..], LeastFirst(buf[..n][1..]);
    if n > 1 {
      RunShorter(buf, rest, n);
      SizeSums(rest, n - 1, shift + 7, SizeStep(size, buf[0], shift));
      assert buf[..n][1..] == rest[..n - 1];
    } else {
      assert buf[..1][1..] == [];
      SmallWraps(SizeStep(size, buf[0], shift));
    }
    StepSums(size, buf[0], shift, high);
  }

  /** A step adds its group where the ones above it leave room. */
  lemma StepSums(size: nat, byte: Byte, shift: nat, high: nat)
    requires shift < 64
    ensures (SizeStep(size, byte, shift) + high * Pow2(shift + 7)) % WORD ==
            (size + (byte % 128 + 128 * high) * Pow2(shift)) % WORD
  {
    var low := byte % 128 * Pow2(shift);
    Wraps(low, 0, size);
    Wraps(size + low, 0, high * Pow2(shift + 7));
    Join(byte % 128, high, shift);
  }

  lemma Join(low: nat, high: nat, shift: nat)
    ensures low * Pow2(shift) + high * Pow2(shift + 7) == (low + 128 * high) * Pow2(shift)
  {
    Pow2Splits(7, shift);
    Pow2Constants();
    var p := Pow2(shift);
    assert high * (128 * p) == 128 * high * p;
    assert (low + 128 * high) * p == low * p + 128 * high * p;
  }

  /** Four bytes are a number with the first the most significant. */
  lemma WordIs(a: Byte, b: Byte, c: Byte, d: Byte)
    ensures FromBE32([a, b, c, d]) == ((a * 256 + b) * 256 + c) * 256 + d
  {
  }

  // ---- What is written ----------------------------------------------------

  /** A record's first byte has its type's code, or a delta's, whatever the type. */
  lemma CodesWritten(c: Codec, t: ObjectType, stored: seq<Byte>, distance: Option<nat>)
    ensures var record := Record(c, t, stored, distance);
            && record != []
            && Code(record[0]) == if distance.Some? then 6
                                  else match t case Commit => 1 case Tree => 2 case Blob => 3 case Tag => 4
  {
    var bits := if distance.Some? then OFS_DELTA else TypeBits(t);
    LeadByte(bits, |stored| % 16);
    assert Record(c, t, stored, distance)[0] == PackHeader(bits, |stored|)[0];
  }

  /** An undamaged pack begins with its four letters and version 2, and says in four bytes
      how many objects it holds. */
  lemma PackStarts(c: Codec, pack: seq<Byte>)
    requires Verified(c, pack)
    ensures |pack| >= 32 && pack[..4] == ToBytes("PACK") && pack[4..8] == [0, 0, 0, 2]
    ensures CountOf(pack) == (((pack[8] as int) * 256 + pack[9]) * 256 + pack[10]) * 256 + pack[11]
  {
    var version := pack[4..8];
    WordIs(version[0], version[1], version[2], version[3]);
    assert version == [version[0], version[1], version[2], version[3]];
    assert pack[8..12] == [pack[8], pack[9], pack[10], pack[11]];
    WordIs(pack[8], pack[9], pack[10], pack[11]);
  }
}
