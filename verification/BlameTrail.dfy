/** Where a line goes at each commit, and that the commit blamed is where it stops. */
module BlameTrail {
  import opened Bytes
  import opened BlameLines
  import opened Blame
  import opened Attribution

  /** The `k`-th parent can be read and has the file, the same kind of file. */
  predicate HadAt<T>(w: World<T>, kind: Kind, c: nat, k: nat) {
    && c in w.parents && k < |w.parents[c]|
    && (var p := w.parents[c][k]; p in w.parents && p in w.trees && p in w.copies && w.copies[p].kind == kind)
  }

  /** It has the very same bytes. */
  predicate SameAt<T>(w: World<T>, kind: Kind, c: nat, k: nat)
    requires c in w.copies
  {
    HadAt(w, kind, c, k) && w.copies[w.parents[c][k]].blob == w.copies[c].blob
  }

  /** Comparing the two copies puts line `s` at line `t` of the parent's. */
  predicate TakesAt<T>(w: World<T>, kind: Kind, c: nat, k: nat, s: int, t: int)
    requires c in w.copies
  {
    && HadAt(w, kind, c, k)
    && (var p, b := w.copies[w.parents[c][k]].blob, w.copies[c].blob;
        p in w.blobs && b in w.blobs && w.hunks(p, b).Some? && FateOf(w.hunks(p, b).value, 0, s) == Pass(t))
  }

  /** A line goes whole to the first parent with the same bytes. Where there is none it goes
      to the first parent that had it, at the place it had there. */
  ghost predicate GoesTo<T>(w: World<T>, kind: Kind, c: nat, s: int, p: nat, t: int) {
    c in w.parents && c in w.copies &&
    exists k: nat :: k < |w.parents[c]| && w.parents[c][k] == p && GoesBy(w, kind, c, s, k, t)
  }

  ghost predicate GoesBy<T>(w: World<T>, kind: Kind, c: nat, s: int, k: nat, t: int)
    requires c in w.copies
  {
    || (SameAt(w, kind, c, k) && t == s && forall j: nat :: j < k ==> !SameAt(w, kind, c, j))
    || (TakesAt(w, kind, c, k, s, t) && (forall j: nat :: !SameAt(w, kind, c, j)) &&
        forall j: nat, u: int :: j < k ==> !TakesAt(w, kind, c, j, s, u))
  }

  lemma {:induction false} FirstSameIs<T>(w: World<T>, kind: Kind, c: nat, n: nat)
    requires c in w.parents && n <= |w.parents[c]| && c in w.copies
    ensures var r := SameTo(w, kind, c, n);
            if r.Some? then SameAt(w, kind, c, r.value) && forall j: nat :: j < r.value ==> !SameAt(w, kind, c, j)
            else forall j: nat :: j < n ==> !SameAt(w, kind, c, j)
  {
    if n > 0 { FirstSameIs(w, kind, c, n - 1); }
  }

  lemma {:induction false} FirstTakerIs<T>(w: World<T>, kind: Kind, c: nat, s: int, n: nat) returns (k: nat)
    requires c in w.parents && n <= |w.parents[c]| && c in w.copies
    ensures var r := TakerTo(w, kind, c, s, n);
            if r.Some? then
              && k < n && w.parents[c][k] == r.value.0 && TakesAt(w, kind, c, k, s, r.value.1)
              && forall j: nat, u: int :: j < k ==> !TakesAt(w, kind, c, j, s, u)
            else forall j: nat, u: int :: j < n ==> !TakesAt(w, kind, c, j, s, u)
  {
    k := 0;
    if n > 0 {
      k := FirstTakerIs(w, kind, c, s, n - 1);
      if TakerTo(w, kind, c, s, n - 1).None? { k := n - 1; }
    }
  }

  /** A line goes one way at most, and to where it came from. */
  lemma CameFromIs<T>(w: World<T>, kind: Kind, c: nat, s: int, p: nat, t: int)
    ensures CameFrom(w, kind, c, s) == Some((p, t)) <==> GoesTo(w, kind, c, s, p, t)
  {
    if c in w.parents && c in w.copies {
      var n := |w.parents[c]|;
      FirstSameIs(w, kind, c, n);
      var k := FirstTakerIs(w, kind, c, s, n);
      var came := CameFrom(w, kind, c, s);
      if SameTo(w, kind, c, n).Some? { k := SameTo(w, kind, c, n).value; }
      if came.Some? { assert GoesBy(w, kind, c, s, k, came.value.1); }
      if i: nat :| i < n && w.parents[c][i] == p && GoesBy(w, kind, c, s, i, t) {
        OneWay(w, kind, c, s, i, t, k, came);
      }
    }
  }

  lemma OneWay<T>(w: World<T>, kind: Kind, c: nat, s: int, i: nat, t: int, k: nat, came: Option<(nat, int)>)
    requires c in w.parents && c in w.copies && i < |w.parents[c]| && GoesBy(w, kind, c, s, i, t)
    requires if came.Some?
             then k < |w.parents[c]| && w.parents[c][k] == came.value.0 && GoesBy(w, kind, c, s, k, came.value.1)
             else forall j: nat, u: int :: !GoesBy(w, kind, c, s, j, u)
    ensures came == Some((w.parents[c][i], t))
  {
  }

  // ---- Trails -------------------------------------------------------------

  /** A commit and a line of its copy, and where that goes, and so on. */
  ghost predicate Follows<T>(w: World<T>, kind: Kind, t: seq<(nat, int)>) {
    forall i :: 0 < i < |t| ==> GoesTo(w, kind, t[i - 1].0, t[i - 1].1, t[i].0, t[i].1)
  }

  ghost predicate Stops<T>(w: World<T>, kind: Kind, c: nat, s: int) {
    forall p, t :: !GoesTo(w, kind, c, s, p, t)
  }

  ghost predicate Leads<T>(w: World<T>, kind: Kind, from: (nat, int), to: (nat, int), t: seq<(nat, int)>) {
    t != [] && t[0] == from && t[|t| - 1] == to && Follows(w, kind, t) && Stops(w, kind, to.0, to.1)
  }

  /** The line is followed to where it stops. */
  lemma {:induction false} TrailOf<T(!new)>(w: World<T>, kind: Kind, c: nat, s: int) returns (t: seq<(nat, int)>)
    requires Sound(w)
    ensures Leads(w, kind, (c, s), BlamedOn(w, kind, c, s), t)
    decreases w.rank(c)
  {
    var next := CameFrom(w, kind, c, s);
    t := [(c, s)];
    if next.Some? {
      var (p, u) := next.value;
      CameFromIs(w, kind, c, s, p, u);
      var more := TrailOf(w, kind, p, u);
      t := t + more;
    } else {
      forall p, u ensures !GoesTo(w, kind, c, s, p, u) { CameFromIs(w, kind, c, s, p, u); }
    }
  }

  lemma {:induction false} TrailEnds<T(!new)>(w: World<T>, kind: Kind, from: (nat, int), to: (nat, int),
                                              t: seq<(nat, int)>)
    requires Sound(w) && Leads(w, kind, from, to, t)
    ensures BlamedOn(w, kind, from.0, from.1) == to
    decreases |t|
  {
    if |t| > 1 {
      CameFromIs(w, kind, from.0, from.1, t[1].0, t[1].1);
      assert t[1..][0] == t[1] && Follows(w, kind, t[1..]);
      TrailEnds(w, kind, t[1], to, t[1..]);
    } else {
      var next := CameFrom(w, kind, from.0, from.1);
      if next.Some? { CameFromIs(w, kind, from.0, from.1, next.value.0, next.value.1); }
    }
  }

  /** The commit blamed is the one that the line, followed parent by parent, stops at. */
  lemma BlamedIs<T(!new)>(w: World<T>, kind: Kind, c: nat, s: int, to: (nat, int))
    requires Sound(w)
    ensures BlamedOn(w, kind, c, s) == to <==> exists t :: Leads(w, kind, (c, s), to, t)
  {
    var t := TrailOf(w, kind, c, s);
    if t' :| Leads(w, kind, (c, s), to, t') { TrailEnds(w, kind, (c, s), to, t'); }
  }
}
