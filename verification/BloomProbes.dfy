/** Which bits of a filter a query looks at, said without the filter's own functions. */
module BloomProbes {
  import opened Bytes
  import opened Bloom

  const MASKS: seq<nat> := [1, 2, 4, 8, 16, 32, 64, 128]

  lemma HasBitIs(b: nat, k: nat)
    requires k < 8
    ensures HasBit(b, k) <==> b / MASKS[k] % 2 == 1
  {
    if k > 0 {
      HasBitIs(b / 2, k - 1);
      Halves(b);
      assert k in {1, 2, 3, 4, 5, 6, 7};
    }
  }

  lemma Halves(b: nat)
    ensures b / 2 / 2 == b / 4 && b / 2 / 4 == b / 8 && b / 2 / 8 == b / 16
    ensures b / 2 / 16 == b / 32 && b / 2 / 32 == b / 64 && b / 2 / 64 == b / 128
  {
  }

  lemma WrapSum(a: nat, b: nat)
    ensures (a % WORD32 + b) % WORD32 == (a + b) % WORD32 == (a + b % WORD32) % WORD32
  {
  }

  lemma NextHash(first: nat, more: nat, i: nat)
    ensures (first + (i + 1) * more) % WORD32 == ((first + i * more) % WORD32 + more) % WORD32
  {
    WrapSum(first + i * more, more);
    assert (i + 1) * more == i * more + more;
  }

  lemma ProbeIs(h: Hasher, s: Settings, path: seq<Byte>, i: nat, modulus: nat)
    requires modulus > 0
    ensures Probe(h, s, path, i, modulus) ==
            (h(0x293a_e76f, path, s.hashVersion == 1) + i * h(0x7e64_6e2c, path, s.hashVersion == 1))
            % WORD32 % modulus
  {
    WrapSum(h(SEED0, path, s.hashVersion == 1), i * h(SEED1, path, s.hashVersion == 1));
  }

  /** `n` sums, each one step on from the one before. */
  ghost function Sums(first: nat, more: nat, n: nat): (r: seq<nat>)
    requires first < WORD32
    ensures |r| == n && forall i :: 0 <= i < n ==> r[i] == (first + i * more) % WORD32
  {
    seq(n, i requires 0 <= i < n => (first + i * more) % WORD32)
  }

  lemma SumsStep(first: nat, more: nat, n: nat)
    requires first < WORD32
    ensures var r := Sums(first, more, n);
            && (n > 0 ==> r[0] == first)
            && forall i :: 0 < i < n ==> r[i] == (r[i - 1] + more) % WORD32
  {
    forall i | 0 < i < n ensures Sums(first, more, n)[i] == (Sums(first, more, n)[i - 1] + more) % WORD32 {
      NextHash(first, more, i - 1);
    }
  }

  /** The first hash is of one seed, and each next one is the one before with the hash of
      the other seed added, at 32 bits. What is looked at is their remainders. */
  lemma ProbesAre(h: Hasher, s: Settings, path: seq<Byte>, n: nat, modulus: nat)
    returns (hashes: seq<nat>)
    requires modulus > 0 && h(0x293a_e76f, path, s.hashVersion == 1) < 0x1_0000_0000
    ensures |hashes| == n && (n > 0 ==> hashes[0] == h(0x293a_e76f, path, s.hashVersion == 1))
    ensures forall i :: 0 < i < n ==>
              hashes[i] == (hashes[i - 1] + h(0x7e64_6e2c, path, s.hashVersion == 1)) % 0x1_0000_0000
    ensures forall i :: 0 <= i < n ==> Probe(h, s, path, i, modulus) == hashes[i] % modulus
  {
    var first, more := h(0x293a_e76f, path, s.hashVersion == 1), h(0x7e64_6e2c, path, s.hashVersion == 1);
    hashes := Sums(first, more, n);
    SumsStep(first, more, n);
    forall i | 0 <= i < n ensures Probe(h, s, path, i, modulus) == hashes[i] % modulus {
      ProbeIs(h, s, path, i, modulus);
    }
  }

  /** A query says "maybe" just when every hash's bit is set, counted through the filter
      from the least bit of its first byte. */
  lemma MaybeIs(h: Hasher, s: Settings, filter: seq<Byte>, path: seq<Byte>, hashes: seq<nat>)
    requires filter != [] && |hashes| == s.numHashes
    requires forall i :: 0 <= i < |hashes| ==> Probe(h, s, path, i, 8 * |filter|) == hashes[i] % (8 * |filter|)
    ensures Maybe(h, s, filter, path) <==>
              forall i :: 0 <= i < |hashes| ==> BitAt(filter, hashes[i] % (8 * |filter|))
  {
    forall i | 0 <= i < |hashes|
      ensures Has(filter, Probe(h, s, path, i, 8 * |filter|)) <==> BitAt(filter, hashes[i] % (8 * |filter|))
    {
      var bit := hashes[i] % (8 * |filter|);
      HasBitIs(filter[bit / 8], bit % 8);
    }
  }

  predicate BitAt(filter: seq<Byte>, bit: nat)
    requires bit < 8 * |filter|
  {
    filter[bit / 8] / MASKS[bit % 8] % 2 == 1
  }
}
