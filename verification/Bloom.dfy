/** Changed-path filters: a query may say "maybe" of a path that did not change, but
never "no" of one that did. */
module Bloom {
  import opened Bytes

  datatype Settings = Settings(hashVersion: nat, numHashes: nat, bitsPerEntry: nat)

  const SEED0: nat := 0x293a_e76f
  const SEED1: nat := 0x7e64_6e2c

  /** The seeded hash, which is not part of this model: seed, path, and whether bytes
      are sign-extended. */
  type Hasher = (nat, seq<Byte>, bool) -> nat

  /** Bit `k` of a byte, counted from the least. */
  predicate HasBit(b: nat, k: nat) {
    if k == 0 then b % 2 == 1 else HasBit(b / 2, k - 1)
  }

  function SetBit(b: nat, k: nat): nat {
    if k == 0 then b - b % 2 + 1 else 2 * SetBit(b / 2, k - 1) + b % 2
  }

  lemma {:induction false} SetHas(b: nat, k: nat, j: nat)
    ensures HasBit(SetBit(b, k), j) <==> j == k || HasBit(b, j)
  {
    if k > 0 && j > 0 { SetHas(b / 2, k - 1, j - 1); }
  }

  lemma {:induction false} SetWithin(b: nat, k: nat, limit: nat)
    requires k < limit && b < Size(limit)
    ensures SetBit(b, k) < Size(limit)
  {
    if k > 0 { SetWithin(b / 2, k - 1, limit - 1); }
  }

  function Size(bits: nat): nat { if bits == 0 then 1 else 2 * Size(bits - 1) }

  /** Bit `bit` of a filter. */
  predicate Has(filter: seq<Byte>, bit: nat) {
    bit / 8 < |filter| && HasBit(filter[bit / 8], bit % 8)
  }

  /** The bit a path's `i`-th probe is of. Hashes are 32 bits wide. */
  function Probe(h: Hasher, s: Settings, path: seq<Byte>, i: nat, modulus: nat): nat
    requires modulus > 0
  {
    var signs := s.hashVersion == 1;
    (h(SEED0, path, signs) + i * h(SEED1, path, signs) % WORD32) % WORD32 % modulus
  }

  /** Every probe of the path finds its bit set; an empty filter rules nothing out. */
  ghost predicate Maybe(h: Hasher, s: Settings, filter: seq<Byte>, path: seq<Byte>) {
    filter != [] ==> forall i: nat :: i < s.numHashes ==> Has(filter, Probe(h, s, path, i, 8 * |filter|))
  }

  method PathMaybeChanged(h: Hasher, filter: seq<Byte>, s: Settings, path: seq<Byte>) returns (r: bool)
    ensures r <==> Maybe(h, s, filter, path)
  {
    var modulus := |filter| * 8;
    if modulus == 0 {
      return true;
    }
    for i := 0 to s.numHashes
      invariant forall j: nat :: j < i ==> Has(filter, Probe(h, s, path, j, 8 * |filter|))
    {
      var bit := Probe(h, s, path, i, modulus);
      if !HasBit(filter[bit / 8], bit % 8) {
        return false;
      }
    }
    r := true;
  }

  // ---- What a filter is written from --------------------------------------

  function Set(filter: seq<Byte>, bit: nat): (r: seq<Byte>)
    ensures |r| == |filter|
  {
    if bit / 8 < |filter| && SetBit(filter[bit / 8], bit % 8) < 256
    then filter[bit / 8 := SetBit(filter[bit / 8], bit % 8)] else filter
  }

  /** The filter with the first `n` probes of a path added. */
  function Insert(h: Hasher, s: Settings, filter: seq<Byte>, path: seq<Byte>, n: nat): (r: seq<Byte>)
    ensures |r| == |filter|
  {
    if n == 0 || filter == [] then filter
    else Set(Insert(h, s, filter, path, n - 1), Probe(h, s, path, n - 1, 8 * |filter|))
  }

  /** The filter of `size` bytes for those paths. */
  function FilterOf(h: Hasher, s: Settings, paths: seq<seq<Byte>>, size: nat): (r: seq<Byte>)
    ensures |r| == size
  {
    if paths == [] then seq(size, _ => 0)
    else Insert(h, s, FilterOf(h, s, paths[..|paths| - 1], size), paths[|paths| - 1], s.numHashes)
  }

  /** Every bit of `a` is a bit of `b`. */
  ghost predicate Within(a: seq<Byte>, b: seq<Byte>) {
    |a| == |b| && forall bit: nat :: Has(a, bit) ==> Has(b, bit)
  }

  lemma SetAdds(filter: seq<Byte>, bit: nat)
    requires bit < 8 * |filter|
    ensures forall other: nat :: Has(Set(filter, bit), other) <==> other == bit || Has(filter, other)
  {
    assert Size(8) == 256;
    SetWithin(filter[bit / 8], bit % 8, 8);
    forall other: nat ensures Has(Set(filter, bit), other) <==> other == bit || Has(filter, other) {
      SetHas(filter[bit / 8], bit % 8, other % 8);
    }
  }

  /** Inserting a path sets its probes, and unsets nothing. */
  lemma {:induction false} InsertAdds(h: Hasher, s: Settings, filter: seq<Byte>, path: seq<Byte>, n: nat)
    requires filter != []
    ensures Within(filter, Insert(h, s, filter, path, n))
    ensures forall i: nat :: i < n ==> Has(Insert(h, s, filter, path, n), Probe(h, s, path, i, 8 * |filter|))
  {
    if n > 0 {
      InsertAdds(h, s, filter, path, n - 1);
      SetAdds(Insert(h, s, filter, path, n - 1), Probe(h, s, path, n - 1, 8 * |filter|));
    }
  }

  lemma {:induction false} FilterHas(h: Hasher, s: Settings, paths: seq<seq<Byte>>, size: nat, k: nat)
    requires size > 0 && k < |paths|
    ensures Maybe(h, s, FilterOf(h, s, paths, size), paths[k])
  {
    var n := |paths| - 1;
    var before := FilterOf(h, s, paths[..n], size);
    InsertAdds(h, s, before, paths[n], s.numHashes);
    if k < n {
      assert paths[..n][k] == paths[k];
      FilterHas(h, s, paths[..n], size, k);
    }
  }

  /** A filter holding at least the bits of every path changed never rules one out. */
  lemma NoFalseNegatives(h: Hasher, s: Settings, paths: seq<seq<Byte>>, filter: seq<Byte>, path: seq<Byte>)
    requires path in paths && Within(FilterOf(h, s, paths, |filter|), filter)
    ensures Maybe(h, s, filter, path)
  {
    if filter != [] {
      var k :| 0 <= k < |paths| && paths[k] == path;
      FilterHas(h, s, paths, |filter|, k);
    }
  }
}
