/** Choosing a delta for an object: candidates are tried newest first, each against a
budget that tightens with the best so far and with the candidate's own depth. */
module Deltas {
  import opened Bytes
  import opened PackFormat
  import opened Pack

  const MAX_DEPTH: nat := 50

  /** What a delta may be taken against, and how many deltas deep it is itself. */
  datatype Base = Base(offset: nat, depth: nat, objectType: ObjectType, body: seq<Byte>)

  datatype Delta = Delta(data: seq<Byte>, baseOffset: nat, depth: nat)

  function Less(a: nat, b: nat): nat { if a < b then 0 else a - b }

  /** The most a first delta may take: nothing at all for an object of up to 40 bytes. */
  function FirstBudget(size: nat): nat { Less(size, 40) / 2 }

  function Scaled(m: nat, y: nat, x: nat): nat
    requires x > 0
  {
    assert m * y >= 0;
    m * y / x
  }

  function Budget(best: Option<Delta>, size: nat, depth: nat): nat
    requires depth < MAX_DEPTH && (best.Some? ==> best.value.depth <= MAX_DEPTH)
  {
    var (most, ref) := if best.None? then (FirstBudget(size), 1) else (|best.value.data|, best.value.depth);
    Scaled(most, MAX_DEPTH - depth, MAX_DEPTH - ref + 1)
  }

  /** Whether a base may be tried at all, under a budget. */
  predicate Worthwhile(base: Base, size: nat, budget: nat) {
    && budget > 0
    && Less(size, |base.body|) < budget
    && size >= |base.body| / 32
  }

  predicate Usable(best: Option<Delta>) { best.Some? ==> 1 <= best.value.depth <= MAX_DEPTH }

  predicate Eligible(base: Base, objectType: ObjectType) {
    base.objectType == objectType && base.depth < MAX_DEPTH
  }

  /** The delta a base yields within the budget, if any. */
  function Yield(c: Codec, best: Option<Delta>, base: Base, objectType: ObjectType, body: seq<Byte>): Option<seq<Byte>>
    requires Usable(best)
  {
    if !Eligible(base, objectType) then None
    else
      var budget := Budget(best, |body|, base.depth);
      if !Worthwhile(base, |body|, budget) || !c.indexable(base.body) then None
      else c.delta(base.body, body, budget)
  }

  /** Size decides, and depth only between equals. */
  predicate NoBetter(best: Option<Delta>, data: seq<Byte>, depth: nat) {
    best.Some? && |data| == |best.value.data| && depth >= best.value.depth
  }

  function Offer(c: Codec, best: Option<Delta>, base: Base, objectType: ObjectType, body: seq<Byte>): (r: Option<Delta>)
    requires Usable(best)
    ensures Usable(r)
  {
    var data := Yield(c, best, base, objectType, body);
    if data.None? || NoBetter(best, data.value, base.depth + 1) then best
    else Some(Delta(data.value, base.offset, base.depth + 1))
  }

  /** The best of the bases from the `i`-th on, the newest being last. */
  function BestFrom(c: Codec, bases: seq<Base>, i: nat, objectType: ObjectType, body: seq<Byte>): (r: Option<Delta>)
    requires i <= |bases|
    ensures Usable(r)
    decreases |bases| - i
  {
    if i == |bases| then None
    else Offer(c, BestFrom(c, bases, i + 1, objectType, body), bases[i], objectType, body)
  }

  // ---- What is kept -------------------------------------------------------

  /** What a kept delta costs: no more than the first budget, scaled by how much depth
      its base leaves. */
  predicate Thrifty(size: nat, target: nat, baseDepth: nat) {
    baseDepth < MAX_DEPTH && MAX_DEPTH * size <= FirstBudget(target) * (MAX_DEPTH - baseDepth)
  }

  /** `d` is a delta for the object against that base. */
  ghost predicate Against(c: Codec, d: Delta, base: Base, objectType: ObjectType, body: seq<Byte>) {
    && d.baseOffset == base.offset && d.depth == base.depth + 1 <= MAX_DEPTH
    && base.objectType == objectType
    && c.apply(d.data, base.body) == Some(body)
    && Thrifty(|d.data|, |body|, base.depth)
  }

  lemma DivAtMost(x: nat, a: nat, b: nat)
    requires b > 0 && x <= a / b
    ensures x * b <= a
  {
    assert a / b * b <= a;
    assert x * b <= a / b * b;
  }

  lemma TimesStrict(a: nat, b: nat, k: nat)
    requires k > 0 && a < b
    ensures a * k < b * k
  {
    assert (b - a) * k > 0;
  }

  lemma Cancel(a: nat, b: nat, k: nat)
    requires k > 0 && a * k <= b * k
    ensures a <= b
  {
    if a > b { TimesStrict(b, a, k); }
  }

  /** A delta in budget is thrifty, whether it is the first or replaces one that was:
      a replacement may be larger, but by no more than its shallower base allows. */
  lemma BudgetIsThrifty(best: Option<Delta>, size: nat, target: nat, depth: nat, bestBase: nat)
    requires depth < MAX_DEPTH
    requires best.Some? ==>
               best.value.depth == bestBase + 1 <= MAX_DEPTH && Thrifty(|best.value.data|, target, bestBase)
    requires size <= Budget(best, target, depth)
    ensures Thrifty(size, target, depth)
  {
    if best.None? {
      DivAtMost(size, FirstBudget(target) * (MAX_DEPTH - depth), MAX_DEPTH);
    } else {
      Replaces(size, |best.value.data|, FirstBudget(target), MAX_DEPTH - depth, MAX_DEPTH - bestBase);
    }
  }

  /** From `m*y/x` on, where `50 m` is within `f x`. */
  lemma Replaces(size: nat, m: nat, f: nat, y: nat, x: nat)
    requires x > 0 && size <= Scaled(m, y, x) && MAX_DEPTH * m <= f * x
    ensures MAX_DEPTH * size <= f * y
  {
    DivAtMost(size, m * y, x);
    TimesMono(MAX_DEPTH * m, f * x, y);
    Reorder(size, m, f, y, x);
    Cancel(MAX_DEPTH * size, f * y, x);
  }

  lemma Reorder(size: nat, m: nat, f: nat, y: nat, x: nat)
    requires size * x <= m * y && MAX_DEPTH * m * y <= f * x * y
    ensures MAX_DEPTH * size * x <= f * y * x
  {
    assert f * x * y == f * (x * y) == f * y * x;
    assert MAX_DEPTH * m * y == MAX_DEPTH * (m * y) && MAX_DEPTH * size * x == MAX_DEPTH * (size * x);
  }

  /** Whatever is kept is against one of the bases. */
  lemma {:induction false} BestIsAgainst(c: Codec, bases: seq<Base>, i: nat, objectType: ObjectType, body: seq<Byte>)
    returns (k: nat)
    requires i <= |bases| && Honest(c) && BestFrom(c, bases, i, objectType, body).Some?
    ensures i <= k < |bases| && Against(c, BestFrom(c, bases, i, objectType, body).value, bases[k], objectType, body)
    decreases |bases| - i
  {
    var best := BestFrom(c, bases, i + 1, objectType, body);
    var data := Yield(c, best, bases[i], objectType, body);
    var bestBase := 0;
    if best.Some? {
      k := BestIsAgainst(c, bases, i + 1, objectType, body);
      bestBase := bases[k].depth;
    }
    if data.Some? && !NoBetter(best, data.value, bases[i].depth + 1) {
      k := i;
      var budget := Budget(best, |body|, bases[i].depth);
      assert Rebuilds(c, bases[i].body, body, budget);
      BudgetIsThrifty(best, |data.value|, |body|, bases[i].depth, bestBase);
    }
  }

  /** Nothing is kept exactly when no base yields a delta within the first budget. */
  lemma {:induction false} NothingKept(c: Codec, bases: seq<Base>, i: nat, objectType: ObjectType, body: seq<Byte>)
    requires i <= |bases|
    ensures BestFrom(c, bases, i, objectType, body).None? <==>
            forall k :: i <= k < |bases| ==> Yield(c, None, bases[k], objectType, body).None?
    decreases |bases| - i
  {
    if i < |bases| { NothingKept(c, bases, i + 1, objectType, body); }
  }

  /** A kept delta is smaller than half the object, so a delta is never stored that
      saves nothing. */
  lemma ThriftyIsSmall(size: nat, target: nat, baseDepth: nat)
    requires Thrifty(size, target, baseDepth)
    ensures 2 * size <= Less(target, 40)
  {
    assert FirstBudget(target) * (MAX_DEPTH - baseDepth) <= FirstBudget(target) * MAX_DEPTH;
  }
}
