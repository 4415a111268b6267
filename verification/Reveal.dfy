/** Slots resolve in any order; what is shown at any time is a matter of the resolved
prefix alone. */
module Reveal {
  import opened Bytes

  /** How many slots from the first on have resolved. */
  function Prefix<T>(values: seq<Option<Option<T>>>): (n: nat)
    ensures n <= |values|
    ensures forall i :: 0 <= i < n ==> values[i].Some?
    ensures n < |values| ==> values[n].None?
  {
    if values == [] || values[0].None? then 0 else 1 + Prefix(values[1..])
  }

  /** What the first `n` slots have to show, in order, each with its index. */
  function Shown<T>(values: seq<Option<Option<T>>>, n: nat): seq<(nat, T)>
    requires n <= |values| && forall i :: 0 <= i < n ==> values[i].Some?
  {
    if n == 0 then []
    else Shown(values, n - 1) + if values[n - 1].value.Some? then [(n - 1, values[n - 1].value.value)] else []
  }

  lemma {:induction false} ShownSame<T>(a: seq<Option<Option<T>>>, b: seq<Option<Option<T>>>, n: nat)
    requires n <= |a| && n <= |b| && forall i :: 0 <= i < n ==> a[i].Some? && a[i] == b[i]
    ensures Shown(a, n) == Shown(b, n)
  {
    if n > 0 { ShownSame(a, b, n - 1); }
  }

  lemma {:induction false} PrefixIs<T>(values: seq<Option<Option<T>>>, n: nat)
    requires n <= |values| && (forall i :: 0 <= i < n ==> values[i].Some?) && (n < |values| ==> values[n].None?)
    ensures Prefix(values) == n
  {
    if n > 0 { PrefixIs(values[1..], n - 1); }
  }

  /** Every value shown is one that resolved, and each that resolved to something is
      shown once its turn has come, once. */
  lemma {:induction false} ShownIs<T>(values: seq<Option<Option<T>>>, n: nat)
    requires n <= |values| && forall i :: 0 <= i < n ==> values[i].Some?
    ensures forall i, v :: (i, v) in Shown(values, n) <==> 0 <= i < n && values[i] == Some(Some(v))
    ensures forall j, k :: 0 <= j < k < |Shown(values, n)| ==> Shown(values, n)[j].0 < Shown(values, n)[k].0
  {
    if n > 0 {
      ShownIs(values, n - 1);
      var before := Shown(values, n - 1);
      forall j | 0 <= j < |before| ensures before[j].0 < n - 1 {
        var (i, v) := before[j];
        assert (i, v) in before;
      }
    }
  }

  class InOrder<T> {
    /** A slot is empty until it resolves, to a value or to nothing. */
    var slots: seq<Option<Option<T>>>
    /** The length of the prefix already dealt with. */
    var next: nat
    /** What has been shown, and what each slot last resolved to before its release. */
    var shown: seq<(nat, T)>
    ghost var values: seq<Option<Option<T>>>

    /** What has been shown is just what the longest resolved prefix has to show. */
    ghost predicate Valid()
      reads this
    {
      && |slots| == |values| && next == Prefix(values) && shown == Shown(values, next)
      && (forall i :: next <= i < |slots| ==> slots[i] == values[i])
    }

    constructor (len: nat)
      ensures Valid() && |slots| == len && shown == [] && forall i :: 0 <= i < len ==> values[i].None?
    {
      slots := seq(len, _ => None);
      values := seq(len, _ => None);
      next, shown := 0, [];
    }

    /** A slot resolves. Afterwards the whole of the resolved prefix has been dealt with. */
    method Resolve(i: nat, value: Option<T>)
      requires Valid() && i < |slots|
      modifies this
      ensures Valid() && values == if i < old(next) then old(values) else old(values)[i := Some(value)]
      ensures old(shown) <= shown
    {
      slots := slots[i := Some(value)];
      values := if i < next then values else values[i := Some(value)];
      ShownSame(old(values), values, next);
      while next < |slots| && slots[next].Some?
        invariant next <= |slots| == |values| && forall k :: 0 <= k < next ==> values[k].Some?
        invariant shown == Shown(values, next) && old(shown) <= shown
        invariant values == if i < old(next) then old(values) else old(values)[i := Some(value)]
        invariant forall k :: next <= k < |slots| ==> slots[k] == values[k]
        decreases |slots| - next
      {
        var due := slots[next].value;
        slots := slots[next := None];
        if due.Some? {
          shown := shown + [(next, due.value)];
        }
        next := next + 1;
      }
      PrefixIs(values, next);
    }
  }
}
