/** What may be kept as a delta, in numbers: how much room a base is given, what replaces
what, and which objects are offered as bases. */
module DeltaRules {
  import opened Bytes
  import opened PackFormat
  import opened Pack
  import opened Deltas
  import opened BundleWriter

  /** A delta that is written is at most fifty deep, and the deeper its base the smaller it
      is: half of what its object has over 40 bytes, scaled by the depth left. */
  lemma DeltasAreSmall(c: Codec, log: seq<Placed>, p: Placed)
    requires Follows(c, log, p) && p.base.Some?
    ensures p.base.value < |log|
    ensures var base, size := log[p.base.value], |p.content.body|;
            && p.depth == base.depth + 1 <= 50
            && 50 * |p.stored| <= (if size <= 40 then 0 else (size - 40) / 2) * (50 - base.depth)
  {
  }

  /** A base is tried only if it is of the object's type and under fifty deep, leaves the
      object less to add than it has room for, and is not over 32 times its size. */
  lemma TriedIf(c: Codec, best: Option<Delta>, base: Base, objectType: ObjectType, body: seq<Byte>)
    requires Usable(best) && Yield(c, best, base, objectType, body).Some?
    ensures base.objectType == objectType && base.depth < 50 && |base.body| < 32 * (|body| + 1)
    ensures var room := if best.None? then (if |body| <= 40 then 0 else (|body| - 40) / 2) * (50 - base.depth) / 50
                        else |best.value.data| * (50 - base.depth) / (51 - best.value.depth);
            |body| - |base.body| < room && Yield(c, best, base, objectType, body) == c.delta(base.body, body, room)
  {
  }

  lemma ScaledDown(m: nat, y: nat, x: nat)
    requires 0 < x && y <= x
    ensures Scaled(m, y, x) <= m
  {
    var q := Scaled(m, y, x);
    TimesMono(y, x, m);
    assert q * x <= m * y;
    Cancel(q, m, x);
  }

  /** Only a smaller delta takes the place of one whose chain is no longer. */
  lemma DeeperIsSmaller(c: Codec, best: Option<Delta>, base: Base, objectType: ObjectType, body: seq<Byte>)
    requires Honest(c) && Usable(best) && best.Some? && base.depth + 1 >= best.value.depth
    requires Offer(c, best, base, objectType, body) != best
    ensures |Offer(c, best, base, objectType, body).value.data| < |best.value.data|
  {
    var budget := Budget(best, |body|, base.depth);
    ScaledDown(|best.value.data|, MAX_DEPTH - base.depth, MAX_DEPTH - best.value.depth + 1);
    assert Rebuilds(c, base.body, body, budget);
  }

  // ---- The window ---------------------------------------------------------

  function Bodies(bases: seq<Base>): nat {
    if bases == [] then 0 else Bodies(bases[..|bases| - 1]) + |bases[|bases| - 1].body|
  }

  /** At most 32 objects, of 64 MiB in all unless there is only one. */
  predicate Fits(bases: seq<Base>) {
    |bases| <= 32 && (|bases| <= 1 || Bodies(bases) <= 0x400_0000)
  }

  lemma {:induction false} HeftIs(bases: seq<Base>)
    ensures Heft(bases) == Bodies(bases)
  {
    if bases != [] {
      HeftIs(bases[..|bases| - 1]);
      HeftPush(bases[..|bases| - 1], bases[|bases| - 1]);
      assert bases[..|bases| - 1] + [bases[|bases| - 1]] == bases;
    }
  }

  lemma {:induction false} HeftPush(bases: seq<Base>, last: Base)
    ensures Heft(bases + [last]) == Heft(bases) + |last.body|
  {
    if bases == [] {
      assert ([] + [last])[1..] == [];
    } else {
      HeftPush(bases[1..], last);
      assert (bases + [last])[1..] == bases[1..] + [last];
    }
  }

  lemma {:induction false} TrimmedIs(bases: seq<Base>) returns (j: nat)
    ensures j <= |bases| && Trimmed(bases) == bases[j..] && Fits(bases[j..])
    ensures (bases != [] ==> j < |bases|) && (j > 0 ==> !Fits(bases[j - 1..]))
  {
    HeftIs(bases);
    j := 0;
    if |bases| > 32 || (Heft(bases) > 0x400_0000 && |bases| > 1) {
      j := TrimmedIs(bases[1..]);
      assert bases[1..][j..] == bases[j + 1..];
      if j > 0 { assert bases[1..][j - 1..] == bases[j..]; }
      j := j + 1;
      assert bases[0..] == bases;
    }
  }

  ghost function AllBases(log: seq<Placed>): (r: seq<Base>)
    ensures |r| == |log|
  {
    seq(|log|, k requires 0 <= k < |log| => BaseIn(log[k]))
  }

  lemma FitsLess(bases: seq<Base>, last: Base)
    requires Fits(bases + [last])
    ensures Fits(bases)
  {
    assert (bases + [last])[..|bases|] == bases;
  }

  /** Is `window` the longest run of the last of `all` that fits, from the `k`-th on? */
  predicate Longest(all: seq<Base>, window: seq<Base>, k: nat) {
    && k <= |all| && window == all[k..] && Fits(window)
    && (all != [] ==> window != []) && (k > 0 ==> !Fits(all[k - 1..]))
  }

  lemma OneMore(front: seq<Base>, window: seq<Base>, last: Base, k: nat) returns (k': nat)
    requires Longest(front, window, k)
    ensures Longest(front + [last], Trimmed(window + [last]), k')
  {
    var j := TrimmedIs(window + [last]);
    LongestNext(front, window, last, k, j);
    k' := k + j;
  }

  lemma LongestNext(front: seq<Base>, window: seq<Base>, last: Base, k: nat, j: nat)
    requires Longest(front, window, k) && j < |window| + 1 && Fits((window + [last])[j..])
    requires j > 0 ==> !Fits((window + [last])[j - 1..])
    ensures Longest(front + [last], (window + [last])[j..], k + j)
  {
    Suffixes(front + [last], window + [last], k, j);
    if j == 0 && k > 0 { StillTooMuch(front, last, k); }
  }

  lemma StillTooMuch(front: seq<Base>, last: Base, k: nat)
    requires 0 < k <= |front| && !Fits(front[k - 1..])
    ensures !Fits((front + [last])[k - 1..])
  {
    assert (front + [last])[k - 1..] == front[k - 1..] + [last];
    if Fits((front + [last])[k - 1..]) { FitsLess(front[k - 1..], last); }
  }

  lemma Suffixes(all: seq<Base>, more: seq<Base>, k: nat, j: nat)
    requires k <= |all| && more == all[k..] && j <= |more|
    ensures more[j..] == all[k + j..] && (j > 0 ==> more[j - 1..] == all[k + j - 1..])
  {
  }

  lemma AllBasesNext(log: seq<Placed>)
    requires log != []
    ensures AllBases(log) == AllBases(log[..|log| - 1]) + [BaseIn(log[|log| - 1])]
  {
  }

  /** What an object is offered is the longest run of the last objects that fits. */
  lemma {:induction false} RecentIs(log: seq<Placed>) returns (k: nat)
    ensures Longest(AllBases(log), Recent(log), k)
  {
    if log == [] {
      k := 0;
    } else {
      var front := log[..|log| - 1];
      k := RecentIs(front);
      k := OneMore(AllBases(front), Recent(front), BaseIn(log[|log| - 1]), k);
      AllBasesNext(log);
    }
  }
}
