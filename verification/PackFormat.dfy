/** A packed object's header: its type and size in one variable-length integer, and
for a delta how far back its base is in another. Both are read back exactly, and
a distance has only one encoding. */
module PackFormat {
  import opened Bytes

  /** Sizes and distances are machine words: arithmetic on them wraps. */
  datatype ObjectType = Commit | Tree | Blob | Tag

  const OFS_DELTA: Byte := 6
  const REF_DELTA: Byte := 7

  function TypeBits(t: ObjectType): Byte {
    match t
    case Commit => 1
    case Tree => 2
    case Blob => 3
    case Tag => 4
  }

  datatype PackKind = Whole(objectType: ObjectType) | OffsetDelta(distance: nat) | RefDelta(base: ObjectId)

  function Pow2(n: nat): (p: nat)
    ensures p > 0
  {
    if n == 0 then 1 else 2 * Pow2(n - 1)
  }

  /** A word shifted left, with the machine's masked shift count. */
  function Shl(bits: nat, shift: nat): nat {
    bits * Pow2(shift % 64) % WORD
  }

  // ---- Type and size ------------------------------------------------------

  /** A group of bits that is next to go, and what is still to come after it. */
  function Groups(byte: Byte, rest: nat): (r: seq<Byte>)
    requires byte < 128
    ensures |r| > 0
    decreases rest
  {
    if rest == 0 then [byte] else [byte + 128] + Groups(rest % 128, rest / 128)
  }

  function PackHeader(bits: Byte, size: nat): seq<Byte>
    requires bits < 8
  {
    Groups(bits * 16 + size % 16, size / 16)
  }

  method WritePackHeader(out: seq<Byte>, bits: Byte, size: nat) returns (out': seq<Byte>)
    requires bits < 8
    ensures out' == out + PackHeader(bits, size)
  {
    out' := out;
    var byte: Byte := bits * 16 + size % 16;
    var rest: nat := size / 16;
    while rest > 0
      invariant byte < 128 && out' + Groups(byte, rest) == out + PackHeader(bits, size)
    {
      assert out' + Groups(byte, rest) == (out' + [byte + 128]) + Groups(rest % 128, rest / 128);
      out' := out' + [byte + 128];
      byte := rest % 128;
      rest := rest / 128;
    }
    out' := out' + [byte];
  }

  function SizeStep(size: nat, byte: Byte, shift: nat): nat {
    (size + Shl(byte % 128, shift)) % WORD
  }

  /** The rest of a size: how many bytes it takes and the value, or nothing if the
      bytes run out first. */
  function SizeRest(buf: seq<Byte>, shift: nat, size: nat): Option<(nat, nat)> {
    if buf == [] then None
    else
      var size' := SizeStep(size, buf[0], shift);
      if buf[0] < 128 then Some((1, size')) else Further(SizeRest(buf[1..], shift + 7, size'), 1)
  }

  function Further(r: Option<(nat, nat)>, n: nat): Option<(nat, nat)> {
    if r.None? then None else Some((r.value.0 + n, r.value.1))
  }

  predicate Known(bits: int) { 1 <= bits <= 4 || 6 <= bits <= 7 }

  /** The bytes read, the type's bits, and the size. */
  function TypeAndSize(buf: seq<Byte>): Option<(nat, Byte, nat)> {
    if buf == [] || !Known(buf[0] / 16 % 8) then None
    else
      var size := buf[0] % 16;
      if buf[0] < 128 then Some((1, buf[0] / 16 % 8, size))
      else
        var r := SizeRest(buf[1..], 4, size);
        if r.None? then None else Some((r.value.0 + 1, buf[0] / 16 % 8, r.value.1))
  }

  method ReadTypeAndSize(buf: seq<Byte>) returns (r: Option<(nat, Byte, nat)>)
    ensures r == TypeAndSize(buf)
  {
    var pos: nat, bits: Byte, size: nat, done := 0, 0, 0, false;
    while pos < |buf| && !done
      invariant pos <= |buf| && (done ==> pos > 0)
      invariant pos == 0 ==> size == 0
      invariant pos > 0 ==> Known(buf[0] / 16 % 8) && bits == buf[0] / 16 % 8
      invariant pos > 0 && done ==> TypeAndSize(buf) == Some((pos, bits, size))
      invariant pos > 0 && !done ==>
                  && buf[0] >= 128
                  && SizeRest(buf[1..], 4, buf[0] % 16) ==
                     Further(SizeRest(buf[pos..], 4 + 7 * (pos - 1), size), pos - 1)
      decreases |buf| - pos
    {
      done := buf[pos] < 128;
      if pos == 0 {
        bits := buf[0] / 16 % 8;
        if !Known(bits) {
          return None;
        }
        size := buf[0] % 16;
      } else {
        assert buf[pos..][1..] == buf[pos + 1..];
        size := SizeStep(size, buf[pos], 4 + 7 * (pos - 1));
      }
      pos := pos + 1;
    }
    r := if done then Some((pos, bits, size)) else None;
  }

  lemma {:induction false} Pow2Splits(a: nat, b: nat)
    ensures Pow2(a + b) == Pow2(a) * Pow2(b)
  {
    if a > 0 { Pow2Splits(a - 1, b); }
  }

  lemma Pow2Constants()
    ensures Pow2(4) == 16 && Pow2(7) == 128 && Pow2(64) == WORD
  {
    assert Pow2(8) == 256;
    Pow2Splits(8, 8);
    Pow2Splits(16, 16);
    Pow2Splits(32, 32);
  }

  lemma TimesMono(a: nat, b: nat, p: nat)
    requires a <= b
    ensures a * p <= b * p
  {
    assert (b - a) * p >= 0;
  }

  lemma ShiftSmall(rest: nat, shift: nat)
    requires rest > 0 && rest * Pow2(shift) < WORD
    ensures shift < 64
  {
    if shift >= 64 {
      Pow2Constants();
      Pow2Splits(64, shift - 64);
      TimesMono(1, Pow2(shift - 64), WORD);
      TimesMono(1, rest, Pow2(shift));
    }
  }

  lemma ShlIs(b: nat, shift: nat, x: nat)
    requires shift < 64 && x == b * Pow2(shift) && x < WORD
    ensures Shl(b, shift) == x
  {
    SmallWraps(x);
  }

  lemma StepIs(size: nat, byte: Byte, shift: nat, x: nat)
    requires Shl(byte % 128, shift) == x && size + x < WORD
    ensures SizeStep(size, byte, shift) == size + x
  {
    SmallWraps(size + x);
  }

  /** A group that fits is added where it belongs: its shift is under 64 bits. */
  lemma StepFits(rest: nat, shift: nat, size: nat, byte: Byte)
    requires rest > 0 && size + rest * Pow2(shift) < WORD && byte % 128 == rest % 128
    ensures SizeStep(size, byte, shift) == size + rest % 128 * Pow2(shift)
  {
    ShiftSmall(rest, shift);
    TimesMono(byte % 128, rest, Pow2(shift));
    ShlIs(byte % 128, shift, byte % 128 * Pow2(shift));
    StepIs(size, byte, shift, byte % 128 * Pow2(shift));
  }

  lemma SmallWraps(d: nat)
    requires d < WORD
    ensures d % WORD == d
  {
  }

  lemma NextGroup(rest: nat, shift: nat)
    ensures rest % 128 * Pow2(shift) + rest / 128 * Pow2(shift + 7) == rest * Pow2(shift)
  {
    Pow2Splits(7, shift);
    Pow2Constants();
    Rejoin(rest, Pow2(shift));
  }

  lemma Rejoin(rest: nat, p: nat)
    ensures rest % 128 * p + rest / 128 * (128 * p) == rest * p
  {
    var q, r := rest / 128, rest % 128;
    assert rest == r + q * 128;
    assert q * 128 * p == q * (128 * p);
    assert (r + q * 128) * p == r * p + q * 128 * p;
  }

  /** Groups written are read back, if the value fits in a word. */
  lemma {:induction false} GroupsRead(rest: nat, shift: nat, size: nat, tail: seq<Byte>)
    requires rest > 0 && size + rest * Pow2(shift) < WORD
    ensures var bytes := Groups(rest % 128, rest / 128);
            SizeRest(bytes + tail, shift, size) == Some((|bytes|, size + rest * Pow2(shift)))
    decreases rest
  {
    var bytes := Groups(rest % 128, rest / 128);
    StepFits(rest, shift, size, (bytes + tail)[0]);
    NextGroup(rest, shift);
    if rest / 128 > 0 {
      var more := Groups(rest / 128 % 128, rest / 128 / 128);
      assert bytes + tail == [rest % 128 + 128] + (more + tail);
      GroupsRead(rest / 128, shift + 7, SizeStep(size, bytes[0], shift), tail);
      assert (bytes + tail)[1..] == more + tail;
    }
  }

  /** A type and four bits of size fit one byte and come out of it again, whatever its
      top bit. */
  lemma LeadByte(bits: Byte, low: nat)
    requires bits < 8 && low < 16
    ensures var x := bits * 16 + low;
            && x < 128 && x / 16 % 8 == bits && x % 16 == low
            && (x + 128) / 16 % 8 == bits && (x + 128) % 16 == low
  {
  }

  /** A header written is read back, whatever follows it. */
  lemma HeaderRead(bits: Byte, size: nat, tail: seq<Byte>)
    requires Known(bits) && size < WORD
    ensures TypeAndSize(PackHeader(bits, size) + tail) == Some((|PackHeader(bits, size)|, bits, size))
  {
    var bytes := PackHeader(bits, size);
    LeadByte(bits, size % 16);
    assert (bytes + tail)[0] == bytes[0];
    if size / 16 > 0 {
      Pow2Constants();
      assert (bytes + tail)[1..] == Groups(size / 16 % 128, size / 16 / 128) + tail;
      GroupsRead(size / 16, 4, size % 16, tail);
    }
  }

  // ---- Distance -----------------------------------------------------------

  /** The groups before the last: each counts from one, so none is wasted. */
  function Front(n: nat): seq<Byte> {
    if n == 0 then [] else Front((n - 1) / 128) + [128 + (n - 1) % 128]
  }

  function Distance(d: nat): seq<Byte> {
    Front(d / 128) + [d % 128]
  }

  /** What is left of a distance is less than this while there is room for so many
      groups more. */
  function Limit(room: nat): nat {
    if room == 0 then 2 else Limit(room - 1) * 128
  }

  lemma LimitOfTen()
    ensures Limit(9) == WORD
  {
    assert Limit(3) == 0x40_0000;
    assert Limit(6) == 0x800_0000_0000;
  }

  lemma FitsNext(d: nat, room: nat)
    requires d < Limit(room)
    ensures d / 128 > 0 ==> room > 0 && d / 128 - 1 < Limit(room - 1)
  {
  }

  lemma FrontNext(d: nat, was: seq<Byte>)
    ensures Front(d + 1) + was == Front(d / 128) + ([128 + d % 128] + was)
  {
    assert Front(d + 1) == Front(d / 128) + [128 + d % 128];
  }

  /** Written from its last byte back, in a buffer of ten bytes, which is enough. */
  method WriteBaseDistance(out: seq<Byte>, distance: nat) returns (out': seq<Byte>)
    requires distance < WORD
    ensures out' == out + Distance(distance) && |Distance(distance)| <= 10
  {
    var buf := new Byte[10];
    var pos: nat, d: nat := 9, distance;
    buf[pos] := d % 128;
    LimitOfTen();
    assert buf[pos..] == [d % 128];
    while true
      invariant 0 <= pos <= 9 && d < Limit(pos)
      invariant Front(d / 128) + buf[pos..] == Distance(distance)
      decreases d
    {
      FitsNext(d, pos);
      d := d / 128;
      if d == 0 {
        break;
      }
      ghost var was := buf[pos..];
      d := d - 1;
      pos := pos - 1;
      buf[pos] := 128 + d % 128;
      assert buf[pos..] == [128 + d % 128] + was;
      FrontNext(d, was);
    }
    out' := out + buf[pos..];
  }

  function DistanceStep(carry: nat, byte: Byte): nat {
    (carry * 128 % WORD + byte % 128) % WORD
  }

  /** A distance's groups, `carry` being one more than what the ones before say. */
  function DistanceRest(buf: seq<Byte>, carry: nat): Option<(nat, nat)> {
    if buf == [] then None
    else
      var offset := DistanceStep(carry, buf[0]);
      if buf[0] < 128 then Some((1, offset)) else Further(DistanceRest(buf[1..], (offset + 1) % WORD), 1)
  }

  method ReadDistance(buf: seq<Byte>) returns (r: Option<(nat, nat)>)
    ensures r == DistanceRest(buf, 0)
  {
    var i, offset, done := 0, 0, false;
    while i < |buf| && !done
      invariant i <= |buf| && (done ==> DistanceRest(buf, 0) == Some((i, offset)))
      invariant !done ==>
                  DistanceRest(buf, 0) == Further(DistanceRest(buf[i..], if i == 0 then 0 else (offset + 1) % WORD), i)
      invariant i == 0 ==> offset == 0
      decreases |buf| - i
    {
      assert buf[i..][1..] == buf[i + 1..];
      done := buf[i] < 128;
      if i != 0 {
        offset := (offset + 1) % WORD;
      }
      offset := DistanceStep(offset, buf[i]);
      i := i + 1;
    }
    r := if done then Some((i, offset)) else None;
  }

  /** What a run of continued groups leaves to carry, as a number. */
  function Carry(front: seq<Byte>): nat {
    if front == [] then 0
    else Carry(front[..|front| - 1]) * 128 + front[|front| - 1] % 128 + 1
  }

  predicate Continued(front: seq<Byte>) {
    forall k :: 0 <= k < |front| ==> front[k] >= 128
  }

  lemma {:induction false} FrontIsOnly(front: seq<Byte>)
    requires Continued(front)
    ensures front == Front(Carry(front))
  {
    if front != [] { FrontIsOnly(front[..|front| - 1]); }
  }

  /** Each distance has one encoding: any whole run of groups is the one written for
      the number it stands for. */
  lemma OneEncoding(front: seq<Byte>, last: Byte)
    requires Continued(front) && last < 128
    ensures front + [last] == Distance(Carry(front) * 128 + last)
  {
    FrontIsOnly(front);
    Quotient(Carry(front), last);
  }

  lemma Quotient(n: nat, last: Byte)
    requires last < 128
    ensures (n * 128 + last) / 128 == n && (n * 128 + last) % 128 == last
  {
  }

  /** And what is read is that number, to the width of a word. */
  lemma ReadIsNumber(front: seq<Byte>, last: Byte, tail: seq<Byte>)
    requires Continued(front) && last < 128
    ensures DistanceRest(front + [last] + tail, 0) == Some((|front| + 1, (Carry(front) * 128 + last) % WORD))
  {
    FrontCarries(front, [last] + tail);
    assert front + [last] + tail == front + ([last] + tail);
    assert ([last] + tail)[0] == last;
    StepWraps(Carry(front), last);
  }

  lemma StepWraps(c: nat, byte: Byte)
    ensures DistanceStep(c % WORD, byte) == (c * 128 + byte % 128) % WORD
    ensures (DistanceStep(c % WORD, byte) + 1) % WORD == (c * 128 + byte % 128 + 1) % WORD
  {
    TimesWraps(c, byte % 128);
    OneMore(c * 128 + byte % 128);
  }

  lemma TimesWraps(c: nat, b: nat)
    ensures ((c % WORD) * 128 % WORD + b) % WORD == (c * 128 + b) % WORD
  {
    var q, r := c / WORD, c % WORD;
    assert c * 128 == r * 128 + (q * 128) * WORD;
    Wraps(r * 128, q * 128, b);
  }

  lemma OneMore(n: nat)
    ensures (n % WORD + 1) % WORD == (n + 1) % WORD
  {
    Wraps(n, 0, 1);
  }

  lemma Wraps(a: nat, k: nat, b: nat)
    ensures (a + k * WORD + b) % WORD == (a + b) % WORD == (a % WORD + b) % WORD
  {
    assert a + k * WORD + b == (a + b) + k * WORD;
    ModPlus(a + b, k);
    assert a + b == (a % WORD + b) + (a / WORD) * WORD;
    ModPlus(a % WORD + b, a / WORD);
  }

  lemma {:induction false} ModPlus(a: nat, k: nat)
    ensures (a + k * WORD) % WORD == a % WORD
  {
    if k > 0 {
      ModPlus(a, k - 1);
      assert a + k * WORD == (a + (k - 1) * WORD) + WORD;
    }
  }

  lemma {:induction false} FrontCarries(front: seq<Byte>, tail: seq<Byte>)
    requires Continued(front) && tail != []
    ensures DistanceRest(front + tail, 0) == Further(DistanceRest(tail, Carry(front) % WORD), |front|)
    decreases |front|
  {
    if front == [] {
      assert front + tail == tail;
    } else {
      var before, last := front[..|front| - 1], front[|front| - 1];
      assert front + tail == before + ([last] + tail);
      FrontCarries(before, [last] + tail);
      assert ([last] + tail)[1..] == tail && ([last] + tail)[0] == last;
      StepWraps(Carry(before), last);
    }
  }

  lemma {:induction false} CarryOfFront(n: nat)
    ensures Continued(Front(n)) && Carry(Front(n)) == n
    decreases n
  {
    if n > 0 {
      CarryOfFront((n - 1) / 128);
      assert Front(n)[..|Front(n)| - 1] == Front((n - 1) / 128);
    }
  }

  /** A distance written is read back, whatever follows it. */
  lemma DistanceRead(d: nat, tail: seq<Byte>)
    requires d < WORD
    ensures DistanceRest(Distance(d) + tail, 0) == Some((|Distance(d)|, d))
  {
    CarryOfFront(d / 128);
    ReadIsNumber(Front(d / 128), d % 128, tail);
    assert Carry(Front(d / 128)) * 128 + d % 128 == d;
    SmallWraps(d);
  }

  // ---- The whole header ---------------------------------------------------

  function TypeOf(bits: Byte): ObjectType {
    if bits == 1 then Commit else if bits == 2 then Tree else if bits == 3 then Blob else Tag
  }

  datatype Header = Header(kind: PackKind, size: nat, len: nat)

  /** What the bytes at an object's offset say of it. */
  function HeaderOf(buf: seq<Byte>): (r: Option<Header>)
  {
    var first := TypeAndSize(buf);
    if first.None? || first.value.0 > |buf| then None
    else
      var (pos, bits, size) := first.value;
      if bits == OFS_DELTA then
        var second := DistanceRest(buf[pos..], 0);
        if second.None? then None else Some(Header(OffsetDelta(second.value.1), size, pos + second.value.0))
      else if bits == REF_DELTA then
        if pos + 20 > |buf| then None else Some(Header(RefDelta(buf[pos..pos + 20]), size, pos + 20))
      else Some(Header(Whole(TypeOf(bits)), size, pos))
  }

  lemma {:induction false} SizeWithin(buf: seq<Byte>, shift: nat, size: nat)
    ensures SizeRest(buf, shift, size).Some? ==> 1 <= SizeRest(buf, shift, size).value.0 <= |buf|
    decreases buf
  {
    if buf != [] { SizeWithin(buf[1..], shift + 7, SizeStep(size, buf[0], shift)); }
  }

  lemma {:induction false} DistanceWithin(buf: seq<Byte>, carry: nat)
    ensures DistanceRest(buf, carry).Some? ==> 1 <= DistanceRest(buf, carry).value.0 <= |buf|
    decreases buf
  {
    if buf != [] { DistanceWithin(buf[1..], (DistanceStep(carry, buf[0]) + 1) % WORD); }
  }

  /** A header is within the bytes it was read from, and never empty. */
  lemma HeaderWithin(buf: seq<Byte>)
    ensures TypeAndSize(buf).Some? ==> TypeAndSize(buf).value.0 <= |buf|
    ensures HeaderOf(buf).Some? ==> 1 <= HeaderOf(buf).value.len <= |buf|
  {
    var first := TypeAndSize(buf);
    if first.Some? {
      if buf[0] >= 128 { SizeWithin(buf[1..], 4, buf[0] % 16); }
      DistanceWithin(buf[first.value.0..], 0);
    }
  }

  method ParseObjectHeader(buf: seq<Byte>) returns (r: Option<Header>)
    ensures r == HeaderOf(buf)
    ensures r.Some? ==> 1 <= r.value.len <= |buf|
  {
    HeaderWithin(buf);
    var first := ReadTypeAndSize(buf);
    if first.None? {
      return None;
    }
    var (pos, bits, size) := first.value;
    if bits == OFS_DELTA {
      var second := ReadDistance(buf[pos..]);
      if second.None? {
        return None;
      }
      r := Some(Header(OffsetDelta(second.value.1), size, pos + second.value.0));
    } else if bits == REF_DELTA {
      if pos + 20 > |buf| {
        return None;
      }
      r := Some(Header(RefDelta(buf[pos..pos + 20]), size, pos + 20));
    } else {
      r := Some(Header(Whole(TypeOf(bits)), size, pos));
    }
  }

  /** A whole object's header, read back. */
  lemma BaseHeaderRead(t: ObjectType, size: nat, tail: seq<Byte>)
    requires size < WORD
    ensures var bytes := PackHeader(TypeBits(t), size);
            HeaderOf(bytes + tail) == Some(Header(Whole(t), size, |bytes|))
  {
    HeaderRead(TypeBits(t), size, tail);
  }

  /** A delta's header, read back. */
  lemma DeltaHeaderRead(size: nat, distance: nat, tail: seq<Byte>)
    requires size < WORD && distance < WORD
    ensures var bytes := PackHeader(OFS_DELTA, size) + Distance(distance);
            HeaderOf(bytes + tail) == Some(Header(OffsetDelta(distance), size, |bytes|))
  {
    var head := PackHeader(OFS_DELTA, size);
    assert head + Distance(distance) + tail == head + (Distance(distance) + tail);
    HeaderRead(OFS_DELTA, size, Distance(distance) + tail);
    assert (head + (Distance(distance) + tail))[|head|..] == Distance(distance) + tail;
    DistanceRead(distance, tail);
  }
}
