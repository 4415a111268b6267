/** The blame scoreboard: lines are handed from commits to parents, in whatever
order the queue gives, until each is settled on a commit. */
module Blame {
  import opened Bytes
  import opened BlameLines

  /** What sits at the blamed path: which blob, and whether a file or a symlink. */
  datatype Kind = File | Symlink
  datatype Copy = Copy(blob: nat, kind: Kind)

  /** The history as the walk can read it. A commit absent from `parents` has
      unreadable metadata; one absent from `copies` has no file at the path.
      `ruledOut` holds the commits whose filter rules the path out against their
      first parent. */
  datatype World<!T> = World(
    parents: map<nat, seq<nat>>,
    copies: map<nat, Copy>,
    trees: set<nat>,
    blobs: set<nat>,
    ruledOut: set<nat>,
    text: nat -> seq<T>,
    hunks: (nat, nat) -> Option<seq<Hunk>>,
    ghost rank: nat -> nat)

  /** What the walk relies on: an acyclic history, filters without false
      negatives, and diffs that are consistent with both sides. */
  ghost predicate Sound<T(!new)>(w: World<T>) {
    && (forall c, k :: c in w.parents && 0 <= k < |w.parents[c]| ==> w.rank(w.parents[c][k]) < w.rank(c))
    && (forall c :: c in w.parents && c in w.ruledOut && c in w.copies && w.parents[c] != [] ==>
          w.parents[c][0] in w.copies && w.copies[w.parents[c][0]] == w.copies[c])
    && (forall a, b :: w.hunks(a, b).Some? ==> ValidHunks(w.hunks(a, b).value, 0, 0, w.text(a), w.text(b)))
    && (forall a :: |w.text(a)| <= ISIZE_MAX)
  }

  /** No filter vouches for a parent whose tree cannot be read. With no filters at
      all, nothing is asked of the history. */
  ghost predicate FiltersReadable<T>(w: World<T>) {
    forall c :: c in w.parents && c in w.ruledOut && c in w.copies && w.parents[c] != [] ==> w.parents[c][0] in w.trees
  }

  /** A commit's copy of the file, with the runs now pinned on that commit. */
  datatype Origin = Origin(commit: nat, copy: Copy, suspects: seq<Entry>)

  /** Where a line of the blamed file stands: suspected of, or settled on, a line
      of an origin's copy. */
  datatype Owner = Pending(origin: nat, line: int) | Settled(origin: nat, line: int)

  // ---- The state, line by line --------------------------------------------

  /** One origin per commit, each holding sorted runs of its own, and all of the same
      kind. Only a filter can bring in a commit whose tree cannot be read. */
  ghost predicate Shape<T>(w: World<T>, origins: seq<Origin>, byCommit: map<nat, seq<nat>>) {
    && (forall i :: 0 <= i < |origins| ==>
          && origins[i].commit in byCommit && byCommit[origins[i].commit] == [i]
          && origins[i].commit in w.copies && w.copies[origins[i].commit] == origins[i].copy
          && origins[i].commit in w.parents && origins[i].copy.kind == origins[0].copy.kind
          && (FiltersReadable(w) ==> origins[i].commit in w.trees)
          && Sorted(origins[i].suspects) && From(origins[i].suspects, i, 0))
    && (forall c :: c in byCommit ==>
          |byCommit[c]| == 1 && byCommit[c][0] < |origins| && origins[byCommit[c][0]].commit == c)
  }

  /** The runs held by the origins and by `settled` are together exactly the lines
      of the file, each once, where `owner` says it stands. */
  ghost predicate Tracks(origins: seq<Origin>, settled: seq<Entry>, owner: seq<Owner>) {
    && (forall l :: 0 <= l < |owner| ==> owner[l].origin < |origins|)
    && (forall i, l, s {:trigger Count(origins[i].suspects, i, l, s)} :: 0 <= i < |origins| ==>
          Count(origins[i].suspects, i, l, s) == Bit(0 <= l < |owner| && owner[l] == Pending(i, s)))
    && (forall i, l, s {:trigger Count(settled, i, l, s)} ::
          Count(settled, i, l, s) == Bit(0 <= l < |owner| && owner[l] == Settled(i, s)))
    && (forall k :: 0 <= k < |settled| ==> settled[k].num > 0)
  }

  /** Wherever a line stands, the text there is the line's own. */
  ghost predicate SameText<T>(w: World<T>, origins: seq<Origin>, owner: seq<Owner>, file: seq<T>) {
    && |owner| == |file|
    && forall l :: 0 <= l < |owner| ==>
         && owner[l].origin < |origins|
         && 0 <= owner[l].line < |w.text(origins[owner[l].origin].copy.blob)|
         && w.text(origins[owner[l].origin].copy.blob)[owner[l].line] == file[l]
  }

  /** Every origin holding lines is queued, or is the one being processed. */
  ghost predicate Queued(origins: seq<Origin>, queue: seq<nat>, doing: int) {
    forall i :: 0 <= i < |origins| && origins[i].suspects != [] ==> origins[i].commit in queue || i == doing
  }

  /** Can the file's copy in `parent` be found for `o`? */
  predicate Findable<T>(w: World<T>, parent: nat, o: Origin, first: bool) {
    && parent in w.parents && parent in w.copies && w.copies[parent].kind == o.copy.kind
    && (parent in w.trees || (first && o.commit in w.ruledOut))
  }

  /** What comparing blobs `p` and `b` says of line `s` of `b`; nothing can be said
      when either cannot be read. */
  function Goes<T>(w: World<T>, p: nat, b: nat, s: int): Fate {
    if p in w.blobs && b in w.blobs && w.hunks(p, b).Some? then FateOf(w.hunks(p, b).value, 0, s) else Keep
  }

  /** Line `s` of `o` is `o`'s own doing: no parent's copy that could be found is
      the same blob, and each puts the line inside a changed hunk. */
  ghost predicate Guilty<T>(w: World<T>, o: Origin, s: int) {
    o.commit in w.parents ==>
      forall k :: 0 <= k < |w.parents[o.commit]| ==>
        var p := w.parents[o.commit][k];
        Findable(w, p, o, k == 0) ==>
          w.copies[p].blob != o.copy.blob && Goes(w, w.copies[p].blob, o.copy.blob, s) == Keep
  }

  ghost predicate AllGuilty<T>(w: World<T>, origins: seq<Origin>, owner: seq<Owner>) {
    forall l :: 0 <= l < |owner| && owner[l].Settled? && owner[l].origin < |origins| ==>
      Guilty(w, origins[owner[l].origin], owner[l].line)
  }

  // ---- Handing lines on, line by line -------------------------------------

  /** All of `o`'s lines go to `p`, where they are. */
  ghost function HandWhole(owner: seq<Owner>, o: nat, p: nat): (r: seq<Owner>)
    ensures |r| == |owner|
    ensures forall l :: 0 <= l < |r| ==>
              r[l] == if owner[l].Pending? && owner[l].origin == o then Pending(p, owner[l].line) else owner[l]
  {
    seq(|owner|, l requires 0 <= l < |owner| =>
      if owner[l].Pending? && owner[l].origin == o then Pending(p, owner[l].line) else owner[l])
  }

  /** Where a line of `o` stands once `p` has been asked. */
  ghost function Asked<T>(w: World<T>, origins: seq<Origin>, o: nat, p: nat, line: int): Owner
    requires o < |origins| && p < |origins|
  {
    var f := Goes(w, origins[p].copy.blob, origins[o].copy.blob, line);
    if f.Pass? then Pending(p, f.line) else Pending(o, line)
  }

  ghost function HandParent<T>(w: World<T>, origins: seq<Origin>, owner: seq<Owner>, o: nat, p: nat): (r: seq<Owner>)
    requires o < |origins| && p < |origins|
    ensures |r| == |owner|
    ensures forall l :: 0 <= l < |r| ==>
              r[l] == if owner[l].Pending? && owner[l].origin == o then Asked(w, origins, o, p, owner[l].line)
                      else owner[l]
  {
    seq(|owner|, l requires 0 <= l < |owner| =>
      if owner[l].Pending? && owner[l].origin == o then Asked(w, origins, o, p, owner[l].line) else owner[l])
  }

  /** Parent `k` of `commit` has an origin, with the very same blob. */
  ghost predicate SameBlob<T>(w: World<T>, byCommit: map<nat, seq<nat>>, commit: nat, k: nat) {
    && commit in w.parents && k < |w.parents[commit]|
    && var p := w.parents[commit][k];
       p in byCommit && p in w.copies && commit in w.copies && w.copies[p].blob == w.copies[commit].blob
  }

  ghost predicate FirstSame<T>(w: World<T>, byCommit: map<nat, seq<nat>>, commit: nat, k: nat) {
    SameBlob(w, byCommit, commit, k) && forall j: nat :: j < k ==> !SameBlob(w, byCommit, commit, j)
  }

  /** Where a line of `o`, the origin of `commit`, stands once the first `n` parents
      have been asked in order: with the first whose copy has the line, or still
      with `o`. */
  ghost function FirstTaker<T>(w: World<T>, byCommit: map<nat, seq<nat>>, commit: nat, o: nat, line: int,
                               n: nat): Owner {
    if n == 0 || commit !in w.parents || commit !in w.copies || n > |w.parents[commit]| then Pending(o, line)
    else
      var prev := FirstTaker(w, byCommit, commit, o, line, n - 1);
      var p := w.parents[commit][n - 1];
      if prev != Pending(o, line) || p !in byCommit || byCommit[p] == [] || p !in w.copies then prev
      else
        var f := Goes(w, w.copies[p].blob, w.copies[commit].blob, line);
        if f.Pass? then Pending(byCommit[p][0], f.line) else prev
  }

  /** Every parent up to the first with the same blob has been looked up. */
  ghost predicate Complete<T>(w: World<T>, byCommit: map<nat, seq<nat>>, commit: nat) {
    commit in w.parents && commit in w.copies ==>
      forall k: nat :: k < |w.parents[commit]| && (forall j: nat :: j < k ==> !SameBlob(w, byCommit, commit, j)) ==>
        Tried(w, byCommit, commit, k)
  }

  ghost predicate Tried<T>(w: World<T>, byCommit: map<nat, seq<nat>>, commit: nat, k: nat)
    requires commit in w.parents && commit in w.copies && k < |w.parents[commit]|
  {
    var p := w.parents[commit][k];
    p in byCommit || !Findable(w, p, Origin(commit, w.copies[commit], []), k == 0)
  }

  /** What processing the origin `o` of `commit` does to each line: all of its lines
      to the first parent with the same blob, or else each to the first parent
      whose copy has it. No other line moves. */
  ghost predicate HandedOn<T>(w: World<T>, byCommit: map<nat, seq<nat>>, commit: nat, o: nat,
                              before: seq<Owner>, after: seq<Owner>)
  {
    && |after| == |before| && Complete(w, byCommit, commit)
    && (forall k: nat :: FirstSame(w, byCommit, commit, k) && byCommit[w.parents[commit][k]] != [] ==>
          after == HandWhole(before, o, byCommit[w.parents[commit][k]][0]))
    && ((forall k: nat :: !SameBlob(w, byCommit, commit, k)) ==> TakenUpTo(w, byCommit, commit, o, before, after,
                                                 if commit in w.parents then |w.parents[commit]| else 0))
  }

  /** The first `n` parents have been asked for every line of `o`. */
  ghost predicate TakenUpTo<T>(w: World<T>, byCommit: map<nat, seq<nat>>, commit: nat, o: nat,
                               before: seq<Owner>, after: seq<Owner>, n: nat)
  {
    && |after| == |before|
    && forall l :: 0 <= l < |before| ==>
         after[l] == if before[l].Pending? && before[l].origin == o
                     then FirstTaker(w, byCommit, commit, o, before[l].line, n) else before[l]
  }

  /** What no parent would take settles on `o`. */
  ghost function Settle(owner: seq<Owner>, o: nat): (r: seq<Owner>)
    ensures |r| == |owner|
    ensures forall l :: 0 <= l < |r| ==>
              r[l] == if owner[l].Pending? && owner[l].origin == o then Settled(o, owner[l].line) else owner[l]
  {
    seq(|owner|, l requires 0 <= l < |owner| =>
      if owner[l].Pending? && owner[l].origin == o then Settled(o, owner[l].line) else owner[l])
  }

  // ---- Lemmas about the runs ----------------------------------------------

  lemma CountOther(es: seq<Entry>, o: nat, lo: nat)
    requires From(es, o, lo)
    ensures forall i, l, s {:trigger Count(es, i, l, s)} :: i != o ==> Count(es, i, l, s) == 0
  {
    forall i, l, s | i != o ensures Count(es, i, l, s) == 0 { CountZero(es, i, l, s); }
  }

  /** An origin with runs has a line pending on it. */
  lemma HasLine(origins: seq<Origin>, settled: seq<Entry>, owner: seq<Owner>, i: nat) returns (l: nat)
    requires Tracks(origins, settled, owner) && i < |origins| && origins[i].suspects != []
    requires From(origins[i].suspects, i, 0)
    ensures l < |owner| && owner[l].Pending? && owner[l].origin == i
  {
    var e := origins[i].suspects[0];
    CountOnce(origins[i].suspects, 0, i, e.lno, e.sLno);
    l := e.lno;
  }

  /** ... and one without has none. */
  lemma NoLine(origins: seq<Origin>, settled: seq<Entry>, owner: seq<Owner>, i: nat)
    requires Tracks(origins, settled, owner) && i < |origins| && origins[i].suspects == []
    ensures forall l :: 0 <= l < |owner| && owner[l].Pending? ==> owner[l].origin != i
  {
    forall l | 0 <= l < |owner| && owner[l].Pending? ensures owner[l].origin != i {
      assert Count(origins[i].suspects, i, l, owner[l].line) == 0;
    }
  }

  lemma SuspectsInRange<T>(w: World<T>, origins: seq<Origin>, settled: seq<Entry>, owner: seq<Owner>, file: seq<T>,
                           i: nat)
    requires Tracks(origins, settled, owner) && SameText(w, origins, owner, file) && i < |origins|
    requires From(origins[i].suspects, i, 0)
    ensures forall k :: 0 <= k < |origins[i].suspects| ==>
              origins[i].suspects[k].sLno + origins[i].suspects[k].num <= |w.text(origins[i].copy.blob)|
  {
    forall k | 0 <= k < |origins[i].suspects|
      ensures origins[i].suspects[k].sLno + origins[i].suspects[k].num <= |w.text(origins[i].copy.blob)|
    {
      var e := origins[i].suspects[k];
      CountOnce(origins[i].suspects, k, i, e.lno + e.num - 1, e.sLno + e.num - 1);
    }
  }

  /** Handing lines from `o` to `p` changes nothing for anyone else. */
  lemma TracksHand(origins: seq<Origin>, origins': seq<Origin>, settled: seq<Entry>,
                   owner: seq<Owner>, owner': seq<Owner>, o: nat, p: nat)
    requires Tracks(origins, settled, owner)
    requires o < |origins| && p < |origins| && o != p && |origins'| == |origins| && |owner'| == |owner|
    requires forall i :: 0 <= i < |origins| && i != o && i != p ==> origins'[i] == origins[i]
    requires forall l :: 0 <= l < |owner| ==>
               if owner[l].Pending? && owner[l].origin == o then owner'[l].Pending? && owner'[l].origin in {o, p}
               else owner'[l] == owner[l]
    requires forall l, s {:trigger Count(origins'[o].suspects, o, l, s)} ::
               Count(origins'[o].suspects, o, l, s) == Bit(0 <= l < |owner'| && owner'[l] == Pending(o, s))
    requires forall l, s {:trigger Count(origins'[p].suspects, p, l, s)} ::
               Count(origins'[p].suspects, p, l, s) == Bit(0 <= l < |owner'| && owner'[l] == Pending(p, s))
    ensures Tracks(origins', settled, owner')
  {
    forall i, l, s | 0 <= i < |origins|
      ensures Count(origins'[i].suspects, i, l, s) == Bit(0 <= l < |owner'| && owner'[l] == Pending(i, s))
    {
      if i != o && i != p {
        assert Count(origins[i].suspects, i, l, s) == Bit(0 <= l < |owner| && owner[l] == Pending(i, s));
      }
    }
  }

  /** Line by line, a diff passes on exactly the lines it does not keep. */
  lemma HandParentCounts<T(!new)>(w: World<T>, origins: seq<Origin>, settled: seq<Entry>, owner: seq<Owner>,
                                  file: seq<T>,
                                  o: nat, p: nat, hunks: seq<Hunk>)
    requires Sound(w) && Tracks(origins, settled, owner) && SameText(w, origins, owner, file)
    requires o < |origins| && p < |origins| && o != p
    requires origins[p].copy.blob in w.blobs && origins[o].copy.blob in w.blobs
    requires w.hunks(origins[p].copy.blob, origins[o].copy.blob) == Some(hunks)
    ensures var owner' := HandParent(w, origins, owner, o, p);
            && (forall l, x ::
                  Bit(0 <= l < |owner| && owner'[l] == Pending(p, x)) ==
                  Count(origins[p].suspects, p, l, x) + Passing(hunks, 0, origins[o].suspects, o, l, x))
            && (forall l, s ::
                  Bit(0 <= l < |owner| && owner'[l] == Pending(o, s)) ==
                      Keeping(hunks, 0, origins[o].suspects, o, l, s))
  {
    var before, after := w.text(origins[p].copy.blob), w.text(origins[o].copy.blob);
    var src := origins[o].suspects;
    var owner' := HandParent(w, origins, owner, o, p);
    forall l, x
      ensures Bit(0 <= l < |owner| && owner'[l] == Pending(p, x)) ==
              Count(origins[p].suspects, p, l, x) + Passing(hunks, 0, src, o, l, x)
    {
      var h := Heir(hunks, 0, x);
      assert h.Pass? ==> Count(src, o, l, h.line) == Bit(0 <= l < |owner| && owner[l] == Pending(o, h.line));
      assert Count(origins[p].suspects, p, l, x) == Bit(0 <= l < |owner| && owner[l] == Pending(p, x));
      if 0 <= l < |owner| && owner[l].Pending? && owner[l].origin == o {
        var s := owner[l].line;
        FateFrom(hunks, 0, 0, before, after, s);
        if x >= 0 {
          FateHeir(hunks, 0, 0, before, after, s, x);
        } else {
          HeirBelow(hunks, 0, 0, before, after, x);
        }
      }
    }
    forall l, s
      ensures Bit(0 <= l < |owner| && owner'[l] == Pending(o, s)) == Keeping(hunks, 0, src, o, l, s)
    {
      assert Count(src, o, l, s) == Bit(0 <= l < |owner| && owner[l] == Pending(o, s));
    }
  }

  lemma HandParentText<T(!new)>(w: World<T>, origins: seq<Origin>, owner: seq<Owner>, file: seq<T>, o: nat, p: nat)
    requires Sound(w) && SameText(w, origins, owner, file) && o < |origins| && p < |origins|
    ensures SameText(w, origins, HandParent(w, origins, owner, o, p), file)
  {
    var a, b := origins[p].copy.blob, origins[o].copy.blob;
    forall l | 0 <= l < |owner| && owner[l].Pending? && owner[l].origin == o
      ensures var f := Goes(w, a, b, owner[l].line);
              f.Pass? ==> 0 <= f.line < |w.text(a)| && w.text(a)[f.line] == file[l]
    {
      if a in w.blobs && b in w.blobs && w.hunks(a, b).Some? {
        FateKeepsText(w.hunks(a, b).value, 0, 0, w.text(a), w.text(b), owner[l].line);
      }
    }
  }

  // ---- Termination --------------------------------------------------------

  /** A line weighs more the further it may still have to go. */
  ghost function Weight<T>(w: World<T>, origins: seq<Origin>, x: Owner): nat {
    if x.Pending? && x.origin < |origins| then w.rank(origins[x.origin].commit) + 1 else 0
  }

  ghost function Total<T>(w: World<T>, origins: seq<Origin>, owner: seq<Owner>): nat {
    if owner == [] then 0 else Weight(w, origins, owner[0]) + Total(w, origins, owner[1..])
  }

  lemma {:induction false} TotalDown<T>(w: World<T>, os: seq<Origin>, os': seq<Origin>, a: seq<Owner>, b: seq<Owner>)
    requires |a| == |b|
    requires forall l :: 0 <= l < |a| ==> Weight(w, os', b[l]) <= Weight(w, os, a[l])
    ensures Total(w, os', b) <= Total(w, os, a)
    ensures (exists l :: 0 <= l < |a| && Weight(w, os', b[l]) < Weight(w, os, a[l])) ==>
              Total(w, os', b) < Total(w, os, a)
  {
    if a != [] {
      assert forall l :: 0 <= l < |a| - 1 ==> a[1..][l] == a[l + 1] && b[1..][l] == b[l + 1];
      TotalDown(w, os, os', a[1..], b[1..]);
      if l :| 0 <= l < |a| && Weight(w, os', b[l]) < Weight(w, os, a[l]) && l > 0 {
        assert Weight(w, os', b[1..][l - 1]) < Weight(w, os, a[1..][l - 1]);
      }
    }
  }

  // ---- Groups -------------------------------------------------------------

  /** Lines from one commit, in a row in the file and in that commit's copy. */
  datatype Group = Group(commit: nat, start: nat, num: nat, origStart: nat, parent: Option<nat>)

  function Insert(e: Entry, es: seq<Entry>): seq<Entry> {
    if es == [] || e.lno < es[0].lno then [e] + es else [es[0]] + Insert(e, es[1..])
  }

  /** The runs by line, those that tie in their given order. */
  function SortByLno(es: seq<Entry>): seq<Entry> {
    if es == [] then [] else Insert(es[|es| - 1], SortByLno(es[..|es| - 1]))
  }

  ghost predicate InOrder(es: seq<Entry>) {
    forall i, j :: 0 <= i < j < |es| ==> es[i].lno <= es[j].lno
  }

  lemma {:induction false} InsertKeeps(e: Entry, es: seq<Entry>, o: nat, l: int, s: int)
    ensures Count(Insert(e, es), o, l, s) == One(e, o, l, s) + Count(es, o, l, s)
    ensures forall x :: x in Insert(e, es) <==> x == e || x in es
    ensures InOrder(es) ==> InOrder(Insert(e, es))
  {
    if es == [] || e.lno < es[0].lno {
      assert ([e] + es)[1..] == es;
    } else {
      InsertKeeps(e, es[1..], o, l, s);
      var r := Insert(e, es[1..]);
      assert ([es[0]] + r)[1..] == r;
      if InOrder(es) {
        forall j | 0 <= j < |r| ensures es[0].lno <= r[j].lno { assert r[j] in r; }
      }
    }
  }

  lemma {:induction false} SortKeeps(es: seq<Entry>, o: nat, l: int, s: int)
    ensures Count(SortByLno(es), o, l, s) == Count(es, o, l, s)
    ensures InOrder(SortByLno(es))
    ensures forall x :: x in SortByLno(es) <==> x in es
  {
    if es != [] {
      var n := |es| - 1;
      SortKeeps(es[..n], o, l, s);
      InsertKeeps(es[n], SortByLno(es[..n]), o, l, s);
      CountAppend(es[..n], [es[n]], o, l, s);
      assert es[..n] + [es[n]] == es;
      assert Count([es[n]], o, l, s) == One(es[n], o, l, s) + Count([], o, l, s);
    }
  }

  /** Settled runs never overlap, so in order each ends before the next begins. */
  lemma SettledApart(origins: seq<Origin>, settled: seq<Entry>, owner: seq<Owner>)
    requires Tracks(origins, settled, owner)
    ensures Apart(SortByLno(settled))
  {
    var es := SortByLno(settled);
    SortKeeps(settled, 0, 0, 0);
    forall i, j | 0 <= i < j < |es| ensures es[i].lno + es[i].num <= es[j].lno {
      if es[j].lno < es[i].lno + es[i].num {
        var l := es[j].lno;
        assert es[j] in es && es[i].lno <= l;
        var a := SettledLine(origins, settled, owner, i, l);
        var b := SettledLine(origins, settled, owner, j, l);
        CountTwice(es, i, j, es[j].suspect, l, b);
        SortKeeps(settled, es[j].suspect, l, b);
      }
    }
  }

  ghost predicate Apart(es: seq<Entry>) {
    forall i, j :: 0 <= i < j < |es| ==> es[i].lno + es[i].num <= es[j].lno
  }

  lemma SettledLine(origins: seq<Origin>, settled: seq<Entry>, owner: seq<Owner>, i: nat, l: nat) returns (s: int)
    requires Tracks(origins, settled, owner)
    requires var es := SortByLno(settled); i < |es| && es[i].lno <= l < es[i].lno + es[i].num
    ensures var e := SortByLno(settled)[i];
            s == e.sLno + (l - e.lno) && l < |owner| && owner[l] == Settled(e.suspect, s) && Holds(e, e.suspect, l, s)
  {
    var es := SortByLno(settled);
    s := es[i].sLno + (l - es[i].lno);
    CountOnce(es, i, es[i].suspect, l, s);
    SortKeeps(settled, es[i].suspect, l, s);
  }

  /** Two groups that should have been one. */
  predicate Joins(a: Group, b: Group) {
    a.commit == b.commit && a.start + a.num == b.start && a.origStart + a.num == b.origStart
  }

  /** The groups are in order, apart, and as long as they can be. */
  ghost predicate WellGrouped(groups: seq<Group>) {
    && (forall j :: 0 <= j < |groups| ==> groups[j].num > 0)
    && (forall i, j :: 0 <= i < j < |groups| ==> groups[i].start + groups[i].num <= groups[j].start)
    && (forall j :: 0 <= j < |groups| - 1 ==> !Joins(groups[j], groups[j + 1]))
  }

  predicate Spans(g: Group, l: int) {
    g.start <= l < g.start + g.num
  }

  /** If `g` covers line `l`, that line is settled there. */
  ghost predicate Truly(g: Group, l: int, origins: seq<Origin>, owner: seq<Owner>) {
    Spans(g, l) ==>
      && 0 <= l < |owner| && owner[l].Settled? && owner[l].origin < |origins|
      && origins[owner[l].origin].commit == g.commit && owner[l].line == g.origStart + (l - g.start)
  }

  /** The groups say of every line exactly what has been settled of it. */
  ghost predicate Reports(groups: seq<Group>, origins: seq<Origin>, owner: seq<Owner>) {
    && (forall j, l :: 0 <= j < |groups| ==> Truly(groups[j], l, origins, owner))
    && (forall l :: 0 <= l < |owner| && owner[l].Settled? ==> Covered(groups, l))
  }

  ghost predicate Covered(groups: seq<Group>, l: int) {
    exists j :: 0 <= j < |groups| && Spans(groups[j], l)
  }

  /** When every line is settled the groups tile the file, first line to last. */
  lemma GroupsTile(groups: seq<Group>, origins: seq<Origin>, owner: seq<Owner>)
    requires WellGrouped(groups) && Reports(groups, origins, owner) && owner != []
    requires forall l :: 0 <= l < |owner| ==> owner[l].Settled? && owner[l].origin < |origins|
    ensures groups != [] && groups[0].start == 0
    ensures groups[|groups| - 1].start + groups[|groups| - 1].num == |owner|
    ensures forall j :: 0 <= j < |groups| - 1 ==> groups[j].start + groups[j].num == groups[j + 1].start
  {
    var n := |groups|;
    var first := Covering(groups, origins, owner, 0);
    forall j | 0 <= j < n - 1 ensures groups[j].start + groups[j].num == groups[j + 1].start {
      var l := groups[j].start + groups[j].num;
      assert Spans(groups[j + 1], groups[j + 1].start) && Truly(groups[j + 1], groups[j + 1].start, origins, owner);
      var k := Covering(groups, origins, owner, l);
    }
    var g := groups[n - 1];
    var end := g.start + g.num;
    assert Spans(g, end - 1) && Truly(g, end - 1, origins, owner);
    if end < |owner| {
      var k := Covering(groups, origins, owner, end);
    }
  }

  lemma Covering(groups: seq<Group>, origins: seq<Origin>, owner: seq<Owner>, l: nat) returns (j: nat)
    requires Reports(groups, origins, owner) && l < |owner| && owner[l].Settled?
    ensures j < |groups| && Spans(groups[j], l)
  {
    j :| 0 <= j < |groups| && Spans(groups[j], l);
  }
}
