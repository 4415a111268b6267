/** Which commit a line is blamed on, defined without a scoreboard: follow the line
from each commit to the first parent that had it. Every order of the queue, and
every set of sound filters, gives this one answer. */
module Attribution {
  import opened Bytes
  import opened Blame

  /** Commit `p` can be read, tree and all, and has the file, of kind `kind`. */
  predicate Has<T>(w: World<T>, kind: Kind, p: nat) {
    p in w.parents && p in w.trees && p in w.copies && w.copies[p].kind == kind
  }

  /** The first of the first `n` parents that has the very same blob. */
  function SameTo<T>(w: World<T>, kind: Kind, c: nat, n: nat): (r: Option<nat>)
    requires c in w.parents && n <= |w.parents[c]| && c in w.copies
    ensures r.Some? ==> r.value < n
  {
    if n == 0 then None
    else
      var prev := SameTo(w, kind, c, n - 1);
      var p := w.parents[c][n - 1];
      if prev.Some? then prev else if Has(w, kind, p) && w.copies[p].blob == w.copies[c].blob then Some(n - 1) else None
  }

  /** The first of the first `n` parents that had line `s`, and where. */
  function TakerTo<T>(w: World<T>, kind: Kind, c: nat, s: int, n: nat): (r: Option<(nat, int)>)
    requires c in w.parents && n <= |w.parents[c]| && c in w.copies
    ensures r.Some? ==> r.value.0 in w.parents[c]
  {
    if n == 0 then None
    else
      var prev := TakerTo(w, kind, c, s, n - 1);
      var p := w.parents[c][n - 1];
      if prev.Some? || !Has(w, kind, p) then prev
      else
        var f := Goes(w, w.copies[p].blob, w.copies[c].blob, s);
        if f.Pass? then Some((p, f.line)) else None
  }

  /** Where line `s` of commit `c` came from, if not from `c` itself. */
  function CameFrom<T>(w: World<T>, kind: Kind, c: nat, s: int): (r: Option<(nat, int)>)
    ensures r.Some? ==> c in w.parents && r.value.0 in w.parents[c]
  {
    if c !in w.parents || c !in w.copies then None
    else
      var same := SameTo(w, kind, c, |w.parents[c]|);
      if same.Some? then Some((w.parents[c][same.value], s)) else TakerTo(w, kind, c, s, |w.parents[c]|)
  }

  /** The commit and the line of its copy that line `s` of commit `c` is blamed on. */
  ghost function BlamedOn<T>(w: World<T>, kind: Kind, c: nat, s: int): (nat, int)
    decreases w.rank(c)
  {
    var next := CameFrom(w, kind, c, s);
    if next.Some? && w.rank(next.value.0) < w.rank(c) then BlamedOn(w, kind, next.value.0, next.value.1) else (c, s)
  }

  /** What a line's place in the scoreboard comes to. */
  ghost function Comes<T>(w: World<T>, kind: Kind, origins: seq<Origin>, at: Owner): (nat, int)
    requires at.origin < |origins|
  {
    if at.Settled? then (origins[at.origin].commit, at.line) else BlamedOn(w, kind, origins[at.origin].commit, at.line)
  }

  // ---- Each turn keeps it -------------------------------------------------

  /** A parent looked up has an origin exactly when it has the file. */
  lemma TriedIsHas<T>(w: World<T>, origins: seq<Origin>, byCommit: map<nat, seq<nat>>, o: nat, k: nat)
    requires FiltersReadable(w) && Shape(w, origins, byCommit) && o < |origins|
    requires var c := origins[o].commit; k < |w.parents[c]| && Tried(w, byCommit, c, k)
    ensures var p := w.parents[origins[o].commit][k]; p in byCommit <==> Has(w, origins[0].copy.kind, p)
  {
    var p := w.parents[origins[o].commit][k];
    if p in byCommit { assert origins[byCommit[p][0]].commit == p; }
  }

  /** Up to the first parent with the same blob, the scoreboard's view is the
      definition's. */
  lemma {:induction false} SameToIs<T>(w: World<T>, origins: seq<Origin>, byCommit: map<nat, seq<nat>>, o: nat, n: nat)
    requires FiltersReadable(w) && Shape(w, origins, byCommit) && o < |origins|
    requires var c := origins[o].commit; n <= |w.parents[c]| && Complete(w, byCommit, c)
    ensures var r := SameTo(w, origins[0].copy.kind, origins[o].commit, n);
            if r.Some? then FirstSame(w, byCommit, origins[o].commit, r.value)
            else forall j: nat :: j < n ==> !SameBlob(w, byCommit, origins[o].commit, j)
  {
    if n > 0 {
      SameToIs(w, origins, byCommit, o, n - 1);
      if SameTo(w, origins[0].copy.kind, origins[o].commit, n - 1).None? {
        TriedIsHas(w, origins, byCommit, o, n - 1);
      }
    }
  }

  lemma {:induction false} TakerToIs<T(!new)>(w: World<T>, origins: seq<Origin>, byCommit: map<nat, seq<nat>>, o: nat,
                                              s: int, n: nat)
    requires Sound(w) && FiltersReadable(w) && Shape(w, origins, byCommit) && o < |origins|
    requires var c := origins[o].commit; n <= |w.parents[c]| && Complete(w, byCommit, c)
    requires forall j: nat :: !SameBlob(w, byCommit, origins[o].commit, j)
    ensures var r := TakerTo(w, origins[0].copy.kind, origins[o].commit, s, n);
            var at := FirstTaker(w, byCommit, origins[o].commit, o, s, n);
            if r.Some? then
              r.value.0 in byCommit && at == Pending(byCommit[r.value.0][0], r.value.1) && at != Pending(o, s)
            else at == Pending(o, s)
  {
    if n > 0 {
      var c := origins[o].commit;
      TakerToIs(w, origins, byCommit, o, s, n - 1);
      TriedIsHas(w, origins, byCommit, o, n - 1);
      var p := w.parents[c][n - 1];
      assert w.rank(p) < w.rank(c);
      if p in byCommit { assert origins[byCommit[p][0]].commit == p; }
    }
  }

  /** Handing lines on leaves what each comes to as it was; and a line still with `o`
      is blamed on it. */
  lemma TurnKeeps<T(!new)>(w: World<T>, origins: seq<Origin>, byCommit: map<nat, seq<nat>>, o: nat,
                     before: seq<Owner>, after: seq<Owner>, l: nat)
    requires Sound(w) && FiltersReadable(w) && Shape(w, origins, byCommit) && o < |origins|
    requires HandedOn(w, byCommit, origins[o].commit, o, before, after)
    requires l < |before| && before[l].origin < |origins|
    ensures after[l].origin < |origins|
    ensures Comes(w, origins[0].copy.kind, origins, after[l]) == Comes(w, origins[0].copy.kind, origins, before[l])
    ensures after[l].Pending? && after[l].origin == o ==>
              Comes(w, origins[0].copy.kind, origins, after[l]) == (origins[o].commit, after[l].line)
  {
    var c := origins[o].commit;
    var n := |w.parents[c]|;
    var kind := origins[0].copy.kind;
    SameToIs(w, origins, byCommit, o, n);
    var same := SameTo(w, kind, c, n);
    if same.Some? {
      var p := w.parents[c][same.value];
      assert w.rank(p) < w.rank(c);
      assert origins[byCommit[p][0]].commit == p;
    } else if before[l].Pending? && before[l].origin == o {
      TakerToIs(w, origins, byCommit, o, before[l].line, n);
      var r := TakerTo(w, kind, c, before[l].line, n);
      if r.Some? {
        assert w.rank(r.value.0) < w.rank(c);
        assert origins[byCommit[r.value.0][0]].commit == r.value.0;
      }
    } else if before[l].Pending? {
      assert after[l] == before[l];
    }
  }

  /** What each line comes to is as it was. */
  ghost predicate Keeps<T>(w: World<T>, kind: Kind, origins: seq<Origin>, owner: seq<Owner>,
                           origins': seq<Origin>, owner': seq<Owner>)
  {
    && |owner| == |owner'|
    && (FiltersReadable(w) ==> forall l :: 0 <= l < |owner| ==>
          KeepsLine(w, kind, origins, owner[l], origins', owner'[l]))
  }

  ghost predicate KeepsLine<T>(w: World<T>, kind: Kind, origins: seq<Origin>, at: Owner, origins': seq<Origin>,
                               at': Owner) {
    at.origin < |origins| && at'.origin < |origins'| && Comes(w, kind, origins', at') == Comes(w, kind, origins, at)
  }

  lemma KeepsTrans<T>(w: World<T>, kind: Kind, origins: seq<Origin>, owner: seq<Owner>, origins1: seq<Origin>,
                      owner1: seq<Owner>,
                      origins2: seq<Origin>, owner2: seq<Owner>)
    requires Keeps(w, kind, origins, owner, origins1, owner1) && Keeps(w, kind, origins1, owner1, origins2, owner2)
    ensures Keeps(w, kind, origins, owner, origins2, owner2)
  {
    if FiltersReadable(w) {
      forall l | 0 <= l < |owner| ensures KeepsLine(w, kind, origins, owner[l], origins2, owner2[l]) {
        assert KeepsLine(w, kind, origins, owner[l], origins1, owner1[l]);
        assert KeepsLine(w, kind, origins1, owner1[l], origins2, owner2[l]);
      }
    }
  }

  /** The commits and copies of the origins there were are as they were. */
  ghost predicate SameOrigins(a: seq<Origin>, b: seq<Origin>) {
    |a| <= |b| && forall i :: 0 <= i < |a| ==> b[i].commit == a[i].commit && b[i].copy == a[i].copy
  }

  /** A whole turn: `o`'s lines are handed on, and those left settle on it. */
  lemma TurnAttributes<T(!new)>(w: World<T>, was: seq<Origin>, origins: seq<Origin>, byCommit: map<nat, seq<nat>>,
                                o: nat,
                                before: seq<Owner>, after: seq<Owner>, now: seq<Origin>, kind: Kind)
    requires Sound(w) && Shape(w, origins, byCommit) && o < |origins| && kind == origins[0].copy.kind
    requires HandedOn(w, byCommit, origins[o].commit, o, before, after)
    requires forall l :: 0 <= l < |before| ==> before[l].origin < |was|
    requires SameOrigins(was, origins) && SameOrigins(origins, now)
    ensures Keeps(w, kind, was, before, now, Settle(after, o))
  {
    if FiltersReadable(w) {
      forall l | 0 <= l < |before| ensures KeepsLine(w, kind, was, before[l], now, Settle(after, o)[l]) {
        TurnKeeps(w, origins, byCommit, o, before, after, l);
      }
    }
  }

  // ---- Filters ------------------------------------------------------------

  /** The same history, with no filters. */
  function Unfiltered<T>(w: World<T>): World<T> { w.(ruledOut := {}) }

  lemma {:induction false} SameUnfiltered<T>(w: World<T>, kind: Kind, c: nat, n: nat)
    requires c in w.parents && n <= |w.parents[c]| && c in w.copies
    ensures SameTo(Unfiltered(w), kind, c, n) == SameTo(w, kind, c, n)
  {
    if n > 0 { SameUnfiltered(w, kind, c, n - 1); }
  }

  lemma {:induction false} TakerUnfiltered<T>(w: World<T>, kind: Kind, c: nat, s: int, n: nat)
    requires c in w.parents && n <= |w.parents[c]| && c in w.copies
    ensures TakerTo(Unfiltered(w), kind, c, s, n) == TakerTo(w, kind, c, s, n)
  {
    if n > 0 { TakerUnfiltered(w, kind, c, s, n - 1); }
  }

  /** Filters never change who is blamed. */
  lemma {:induction false} BlamedUnfiltered<T>(w: World<T>, kind: Kind, c: nat, s: int)
    ensures BlamedOn(Unfiltered(w), kind, c, s) == BlamedOn(w, kind, c, s)
    decreases w.rank(c)
  {
    if c in w.parents && c in w.copies {
      SameUnfiltered(w, kind, c, |w.parents[c]|);
      TakerUnfiltered(w, kind, c, s, |w.parents[c]|);
    }
    var next := CameFrom(w, kind, c, s);
    if next.Some? && w.rank(next.value.0) < w.rank(c) { BlamedUnfiltered(w, kind, next.value.0, next.value.1); }
  }
}
