/** The scoreboard object: its queue, its origins, and the main loop. */
module Scoreboard {
  import opened Bytes
  import opened BlameLines
  import opened Blame
  import opened Attribution

  class Scoreboard<T(!new)> {
    const w: World<T>
    var origins: seq<Origin>
    var byCommit: map<nat, seq<nat>>
    /** Commits to take turns, perhaps one more than once. Any may be the next. */
    var queue: seq<nat>
    var settled: seq<Entry>
    /** The file being blamed, and where each of its lines stands. */
    ghost var file: seq<T>
    ghost var owner: seq<Owner>

    ghost function State(): Board<T>
      reads this
    {
      Board(origins, byCommit, queue, settled, owner, file)
    }

    ghost predicate Busy(doing: int)
      reads this
    {
      Consistent(w, State(), doing)
    }

    ghost predicate Valid()
      reads this
    {
      Busy(-1)
    }

    constructor (world: World<T>)
      ensures w == world && origins == [] && byCommit == map[] && queue == [] && settled == []
    {
      w := world;
      origins, byCommit, queue, settled := [], map[], [], [];
      file, owner := [], [];
    }

    /** Every line starts out pinned on `head`, where it is in `head`'s copy. Fails just
        when that copy cannot be had. */
    method Setup(head: nat) returns (r: Result<nat>)
      requires Sound(w) && origins == [] && byCommit == map[] && queue == [] && settled == []
      modifies this
      ensures r.Err? <==> head !in w.parents || head !in w.trees || head !in w.copies || w.copies[head].blob !in w.blobs
      ensures r.Err? ==> r.error in {NotAFile, Unreadable}
      ensures r.Ok? ==> file == w.text(w.copies[head].blob) && r.value == |file|
      ensures r.Ok? && r.value > 0 ==> Valid() && Started(w, head, origins, owner)
      ensures r.Ok? && r.value == 0 ==> settled == [] && |owner| == 0
    {
      if head !in w.parents {
        return Err(Unreadable);
      }
      if head !in w.trees || head !in w.copies {
        return Err(NotAFile);
      }
      var origin := MakeOrigin(head, w.copies[head]);
      if w.copies[head].blob !in w.blobs {
        return Err(Unreadable);
      }
      var n := |w.text(w.copies[head].blob)|;
      origins := origins[origin := origins[origin].(suspects := [Entry(0, n, 0, origin)])];
      queue := queue + [head];
      file := w.text(w.copies[head].blob);
      owner := seq(n, l requires 0 <= l < n => Pending(0, l));
      SetupConsistent(w, head, owner);
      assert origins == [Origin(head, w.copies[head], [Entry(0, n, 0, 0)])];
      r := Ok(n);
    }

    /** Turns are given until nobody is queued, whoever comes first. It ends with every
        line settled, none of them twice, and each where the history alone puts it.
        Only a failing diff stops it early. */
    method AssignBlame(ghost kind: Kind) returns (ok: bool)
      requires Valid() && OfKind(origins, kind)
      modifies this
      ensures !ok ==> CanFail(w)
      ensures file == old(file)
      ensures ok ==> Valid() && forall l :: 0 <= l < |owner| ==> owner[l].Settled?
      ensures ok ==> StaysSettled(old(owner), owner) && Keeps(w, kind, old(origins), old(owner), origins, owner)
    {
      KeepsSame(w, kind, State());
      while queue != []
        invariant Valid() && OfKind(origins, kind) && file == old(file)
        invariant StaysSettled(old(owner), owner) && Keeps(w, kind, old(origins), old(owner), origins, owner)
        decreases Total(w, origins, owner), |queue|
      {
        ghost var origins1, owner1 := origins, owner;
        ok := ExamineOne(kind);
        if !ok {
          return;
        }
        KeepsTrans(w, kind, old(origins), old(owner), origins1, owner1, origins, owner);
      }
      AllSettled(w, State());
      ok := true;
    }

    /** Take any commit off the queue and give it its turn, unless it has nothing left
        to do. */
    method ExamineOne(ghost kind: Kind) returns (ok: bool)
      requires Valid() && OfKind(origins, kind) && queue != []
      modifies this
      ensures !ok ==> CanFail(w)
      ensures file == old(file)
      ensures ok ==> Valid() && OfKind(origins, kind)
      ensures ok ==> StaysSettled(old(owner), owner) && Keeps(w, kind, old(origins), old(owner), origins, owner)
      ensures ok ==> Total(w, origins, owner) < Total(w, old(origins), old(owner))
                     || (Total(w, origins, owner) == Total(w, old(origins), old(owner)) && |queue| < |old(queue)|)
    {
      var k :| 0 <= k < |queue|;
      var commit := queue[k];
      PopKeeps(w, State(), k);
      KeepsSame(w, kind, State());
      ghost var rest := State().(queue := queue[..k] + queue[k + 1..]);
      queue := queue[..k] + queue[k + 1..];
      assert State() == rest;
      var origin := UnfinishedOrigin(commit);
      ok := true;
      if origin.Some? {
        ok := Turn(origin.value, kind);
      }
    }

    /** One commit's turn. */
    method Turn(origin: nat, ghost kind: Kind) returns (ok: bool)
      requires Busy(origin) && origin < |origins| && origins[origin].suspects != [] && OfKind(origins, kind)
      modifies this
      ensures !ok ==> CanFail(w)
      ensures file == old(file)
      ensures ok ==> Valid() && StaysSettled(old(owner), owner) && OfKind(origins, kind)
      ensures ok ==> Total(w, origins, owner) < Total(w, old(origins), old(owner))
      ensures ok ==> Keeps(w, kind, old(origins), old(owner), origins, owner)
    {
      ghost var l := PendingLine(w, State(), origin);
      ok := PassBlame(origin);
      if ok {
        PassedDown(w, State(), old(owner), origin);
        TurnEnds(w, old(origins), origins, old(owner), owner, origin, l);
        FinishTurn(origin, kind, old(origins), old(owner));
      }
    }

    method FinishTurn(origin: nat, ghost kind: Kind, ghost was: seq<Origin>, ghost before: seq<Owner>)
      requires Busy(origin) && origin < |origins| && LeftGuilty(w, origins, owner, origin) && OfKind(origins, kind)
      requires SameOrigins(was, origins) && HandedOn(w, byCommit, origins[origin].commit, origin, before, owner)
      requires forall l :: 0 <= l < |before| ==> before[l].origin < |was|
      requires StaysSettled(before, Settle(owner, origin))
      modifies this`origins, this`settled, this`owner
      ensures Valid() && OfKind(origins, kind) && owner == Settle(old(owner), origin)
      ensures StaysSettled(before, owner) && Keeps(w, kind, was, before, origins, owner)
      ensures Total(w, origins, owner) == Total(w, old(origins), owner)
    {
      SettleRest(origin);
      TurnAttributes(w, was, old(origins), byCommit, origin, before, old(owner), origins, kind);
    }

    /** The lines still pending on `origin` settle on it; no other line is touched. */
    method SettleRest(origin: nat)
      requires Busy(origin) && origin < |origins| && LeftGuilty(w, origins, owner, origin)
      modifies this`origins, this`settled, this`owner
      ensures Valid() && owner == Settle(old(owner), origin)
      ensures old(settled) <= settled && SameOrigins(old(origins), origins) && |origins| == |old(origins)|
      ensures Total(w, origins, owner) == Total(w, old(origins), owner)
    {
      var remaining := origins[origin].suspects;
      SettleKeeps(w, State(), origin);
      RestSame(w, State(), origin);
      ghost var b := RestSettled(State(), origin);
      origins := origins[origin := origins[origin].(suspects := [])];
      settled := settled + remaining;
      owner := Settle(owner, origin);
      assert State() == b;
    }

    /** The settled lines, each in one group, and as few groups as that can be. */
    method Groups() returns (groups: seq<Group>)
      requires Valid()
      ensures WellGrouped(groups) && Reports(groups, origins, owner)
      ensures forall j :: 0 <= j < |groups| ==> groups[j].parent == FirstParent(w, groups[j].commit)
    {
      var entries := SortByLno(settled);
      SettledApart(origins, settled, owner);
      SortedProper(origins, settled, owner);
      groups := [];
      for i := 0 to |entries|
        invariant WellGrouped(groups)
        invariant groups != [] ==> i > 0 && End(groups[|groups| - 1]) == entries[i - 1].lno + entries[i - 1].num
        invariant forall j, l :: 0 <= j < |groups| ==> Truly(groups[j], l, origins, owner)
        invariant forall k, l {:trigger Within(entries[k], l)} :: 0 <= k < i && Within(entries[k], l) ==>
                    Covered(groups, l)
        invariant forall j :: 0 <= j < |groups| ==> groups[j].parent == FirstParent(w, groups[j].commit)
        invariant i > 0 ==> groups != []
      {
        groups := AddRun(groups, entries[i]);
      }
      SettledCovered(origins, settled, owner, groups);
    }

    /** One more run: part of the last group if it goes on from it on both sides. */
    method AddRun(groups: seq<Group>, e: Entry) returns (groups': seq<Group>)
      requires WellGrouped(groups) && e.num > 0 && e.suspect < |origins| && RunTrue(e, owner)
      requires groups != [] ==> End(groups[|groups| - 1]) <= e.lno
      requires forall j, l :: 0 <= j < |groups| ==> Truly(groups[j], l, origins, owner)
      requires forall j :: 0 <= j < |groups| ==> groups[j].parent == FirstParent(w, groups[j].commit)
      ensures WellGrouped(groups') && groups' != [] && End(groups'[|groups'| - 1]) == e.lno + e.num
      ensures forall j, l :: 0 <= j < |groups'| ==> Truly(groups'[j], l, origins, owner)
      ensures forall j :: 0 <= j < |groups'| ==> groups'[j].parent == FirstParent(w, groups'[j].commit)
      ensures forall l :: Within(e, l) || Covered(groups, l) ==> Covered(groups', l)
    {
      var commit := origins[e.suspect].commit;
      var n := |groups|;
      var next := Group(commit, e.lno, e.num, e.sLno, FirstParent(w, commit));
      if n > 0 && Joins(groups[n - 1], next) {
        var longer := groups[n - 1].(num := groups[n - 1].num + e.num);
        groups' := groups[n - 1 := longer];
        LastGrows(groups, longer, e, origins, owner);
        LongerGrouped(groups, longer);
      } else {
        groups' := groups + [next];
        NewGroup(groups, next, e, origins, owner);
        MoreGrouped(groups, next);
      }
    }

    /** One origin more: that of `commit`. */
    method MakeOrigin(commit: nat, copy: Copy) returns (id: nat)
      requires commit !in byCommit
      modifies this`origins, this`byCommit
      ensures id == |old(origins)| && origins == old(origins) + [Origin(commit, copy, [])]
      ensures byCommit == old(byCommit)[commit := [id]]
    {
      id := |origins|;
      origins := origins + [Origin(commit, copy, [])];
      byCommit := byCommit[commit := [id]];
    }

    /** The commit's origin, if any line is pinned on it. */
    method UnfinishedOrigin(commit: nat) returns (r: Option<nat>)
      requires Shape(w, origins, byCommit)
      ensures r == if commit in byCommit && origins[byCommit[commit][0]].suspects != []
                   then Some(byCommit[commit][0]) else None
    {
      if commit !in byCommit {
        return None;
      }
      for k := 0 to |byCommit[commit]|
        invariant forall j :: 0 <= j < k ==> origins[byCommit[commit][j]].suspects == []
      {
        if origins[byCommit[commit][k]].suspects != [] {
          return Some(byCommit[commit][k]);
        }
      }
      r := None;
    }

    /** The origin for the file in `parent`: the one already made, or else a new
        one if the file is there and of the same kind. The filter only saves the
        look at the parent's tree. */
    method FindOrigin(parent: nat, origin: nat, first: bool) returns (r: Option<nat>)
      requires Sound(w) && Shape(w, origins, byCommit) && origin < |origins|
      requires first ==> origins[origin].commit in w.parents && w.parents[origins[origin].commit] != []
                         && w.parents[origins[origin].commit][0] == parent
      modifies this`origins, this`byCommit
      ensures Shape(w, origins, byCommit)
      ensures old(origins) <= origins
      ensures forall i :: |old(origins)| <= i < |origins| ==> origins[i].suspects == []
      ensures parent in old(byCommit) ==> origins == old(origins) && r == Some(byCommit[parent][0])
      ensures parent !in old(byCommit) ==>
                (r.Some? <==> Findable(w, parent, old(origins)[origin], first))
      ensures byCommit == if parent in old(byCommit) || r.None? then old(byCommit)
                          else old(byCommit)[parent := [r.value]]
      ensures r.Some? ==> r.value < |origins| && origins[r.value].commit == parent
                          && parent in w.copies && origins[r.value].copy == w.copies[parent]
    {
      if parent in byCommit {
        return Some(byCommit[parent][0]);
      }
      var o := origins[origin];
      var ruledOut := first && o.commit in w.ruledOut;
      if parent !in w.parents {
        return None;
      }
      var copy;
      if ruledOut {
        copy := o.copy;
      } else {
        if parent !in w.trees || parent !in w.copies {
          return None;
        }
        copy := w.copies[parent];
        if copy.kind != o.copy.kind {
          return None;
        }
      }
      ShapeMore(w, origins, byCommit, parent);
      var id := MakeOrigin(parent, copy);
      r := Some(id);
    }

    /** `porigin` holds these runs too, still in order. Its commit joins the queue just if
        it held none before. */
    method QueueBlames(porigin: nat, sorted: seq<Entry>)
      requires Shape(w, origins, byCommit) && porigin < |origins|
      requires Sorted(sorted) && From(sorted, porigin, 0)
      modifies this`origins, this`queue
      ensures Shape(w, origins, byCommit)
      ensures |origins| == |old(origins)|
      ensures forall i :: 0 <= i < |origins| && i != porigin ==> origins[i] == old(origins)[i]
      ensures origins[porigin] ==
              old(origins)[porigin].(suspects := Merge(old(origins)[porigin].suspects, sorted))
      ensures queue == if old(origins)[porigin].suspects != [] then old(queue)
                       else old(queue) + [origins[porigin].commit]
    {
      MergeSorted(origins[porigin].suspects, sorted, porigin, 0);
      if origins[porigin].suspects != [] {
        var existing := origins[porigin].suspects;
        var merged := BlameMerge(existing, sorted);
        origins := origins[porigin := origins[porigin].(suspects := merged)];
        return;
      }
      var commit := origins[porigin].commit;
      var waiting := UnfinishedOrigin(commit);
      origins := origins[porigin := origins[porigin].(suspects := sorted)];
      if waiting.None? {
        queue := queue + [commit];
      }
    }

    /** Leave `kept` on `o` and give `passed` to `p`; the lines then stand as `stand`. */
    method HandOver(o: nat, p: nat, passed: seq<Entry>, kept: seq<Entry>, ghost stand: seq<Owner>)
      requires Shape(w, origins, byCommit) && o < |origins| && p < |origins| && o != p
      requires Sorted(passed) && From(passed, p, 0) && Sorted(kept) && From(kept, o, 0)
      modifies this`origins, this`queue, this`owner
      ensures Shape(w, origins, byCommit)
      ensures Handed(old(State()), State(), o, p, passed, kept) && owner == stand
    {
      ShapeSet(w, origins, byCommit, o, kept);
      ghost var b := State();
      origins := origins[o := origins[o].(suspects := kept)];
      ghost var left := origins;
      QueueBlames(p, passed);
      owner := stand;
      LeftThenGiven(b, State(), left, o, p, passed, kept);
    }

    /** All that is pending on `origin` becomes pending on `porigin`, line for line. */
    method PassWholeBlame(origin: nat, porigin: nat)
      requires Busy(origin) && origin < |origins| && porigin < |origins| && origin != porigin
      requires origins[origin].copy.blob == origins[porigin].copy.blob
      modifies this
      ensures Busy(origin) && file == old(file) && byCommit == old(byCommit)
      ensures SameOrigins(old(origins), origins)
      ensures owner == HandWhole(old(owner), origin, porigin)
    {
      ghost var b := State();
      var moved := Rebase(origins[origin].suspects, 0, porigin, 0, origin);
      RebasedSorted(origins[origin].suspects, 0, 0, porigin, origin);
      HandOver(origin, porigin, moved, [], HandWhole(owner, origin, porigin));
      HandedSame(b, State(), origin, porigin, moved, []);
      HandedWhole(w, b, State(), origin, porigin, moved);
    }

    /** A pending line of `target` moves to where the diff has it in `parent`, if it has
        it. None moves if either copy cannot be read, and it fails only with the diff. */
    method PassBlameToParent(target: nat, parent: nat, ghost k: nat) returns (ok: bool)
      requires Busy(target) && target < |origins| && parent < |origins| && target != parent
      requires IsParent(w, origins, target, parent, k)
      modifies this
      ensures !ok ==> CanFail(w)
      ensures file == old(file) && byCommit == old(byCommit) && SameOrigins(old(origins), origins)
      ensures ok ==> Busy(target) && owner == HandParent(w, old(origins), old(owner), target, parent)
    {
      NothingAsked(w, origins, settled, owner, target, parent);
      var p, b := origins[parent].copy.blob, origins[target].copy.blob;
      if origins[target].suspects == [] || p !in w.blobs || b !in w.blobs {
        return true;
      }
      var diff := w.hunks(p, b);
      if diff.None? {
        assert DiffFails(w, origins[target].commit, k);
        return false;
      }
      DivideBlame(target, parent, diff.value);
      ok := true;
    }

    /** Divide `target`'s lines as the hunks say. */
    method DivideBlame(target: nat, parent: nat, hunks: seq<Hunk>)
      requires Busy(target) && target < |origins| && parent < |origins| && target != parent
      requires origins[parent].copy.blob in w.blobs && origins[target].copy.blob in w.blobs
      requires w.hunks(origins[parent].copy.blob, origins[target].copy.blob) == Some(hunks)
      modifies this
      ensures file == old(file) && byCommit == old(byCommit) && SameOrigins(old(origins), origins)
      ensures Busy(target) && owner == HandParent(w, old(origins), old(owner), target, parent)
    {
      ghost var b := State();
      var passed, kept := DivideSuspects(target, parent, hunks);
      HandOver(target, parent, passed, kept, HandParent(w, origins, owner, target, parent));
      HandedSame(b, State(), target, parent, passed, kept);
      HandedParent(w, b, State(), target, parent, hunks, passed, kept);
    }

    /** The runs of `target` the hunks pass on to `parent`, and those they keep. */
    method DivideSuspects(target: nat, parent: nat, hunks: seq<Hunk>) returns (passed: seq<Entry>, kept: seq<Entry>)
      requires Busy(target) && target < |origins| && parent < |origins|
      requires w.hunks(origins[parent].copy.blob, origins[target].copy.blob) == Some(hunks)
      ensures Sorted(passed) && From(passed, parent, 0) && Sorted(kept) && From(kept, target, 0)
      ensures forall l, x :: Count(passed, parent, l, x) == Passing(hunks, 0, origins[target].suspects, target, l, x)
      ensures forall l, s :: Count(kept, target, l, s) == Keeping(hunks, 0, origins[target].suspects, target, l, s)
    {
      SuspectsInRange(w, origins, settled, owner, file, target);
      passed, kept := Divide(origins[target].suspects, hunks, parent, target,
                             w.text(origins[parent].copy.blob), w.text(origins[target].copy.blob));
    }

    /** Parent `i` is found or ruled out. With `origin`'s own blob it is the answer; with
        a blob that is already in `goats` it is not asked again. */
    method LookUp(origin: nat, i: nat, goats: seq<Option<nat>>)
      returns (same: Option<nat>, goats': seq<Option<nat>>)
      requires Busy(origin) && LookedUp(w, origins, byCommit, origin, goats, i)
      requires i < |w.parents[origins[origin].commit]|
      modifies this`origins, this`byCommit
      ensures Busy(origin) && SameOrigins(old(origins), origins)
      ensures same.Some? ==>
                && goats' == goats && LookedUp(w, origins, byCommit, origin, goats, i)
                && same.value < |origins| && origins[same.value].copy.blob == origins[origin].copy.blob
                && origins[same.value].commit == w.parents[origins[origin].commit][i]
      ensures same.None? ==> LookedUp(w, origins, byCommit, origin, goats', i + 1)
    {
      var porigin := FindParent(origin, i, goats);
      GoatsInRange(w, origins, byCommit, origin, goats, i);
      same, goats' := None, goats + [None];
      if porigin.Some? {
        var blob := origins[porigin.value].copy.blob;
        if blob == origins[origin].copy.blob {
          return porigin, goats;
        }
        var seen := exists j :: 0 <= j < i && goats[j].Some? && origins[goats[j].value].copy.blob == blob;
        if !seen {
          goats' := goats + [porigin];
        }
        assert seen ==> Holding(origins, goats, blob);
      }
      LookedUpNext(w, origins, byCommit, origin, goats, i, porigin, goats');
    }

    /** Parent `i` of `origin`, leaving what was found of the earlier ones. */
    method FindParent(origin: nat, i: nat, ghost goats: seq<Option<nat>>) returns (r: Option<nat>)
      requires Busy(origin) && LookedUp(w, origins, byCommit, origin, goats, i)
      requires i < |w.parents[origins[origin].commit]|
      modifies this`origins, this`byCommit
      ensures Busy(origin) && SameOrigins(old(origins), origins)
      ensures LookedUp(w, origins, byCommit, origin, goats, i)
      ensures var p := w.parents[origins[origin].commit][i];
              if p in byCommit then r == Some(byCommit[p][0]) && r.value < |origins| && origins[r.value].commit == p
              else r.None? && !Findable(w, p, origins[origin], i == 0)
    {
      ghost var b := State();
      r := FindOrigin(w.parents[origins[origin].commit][i], origin, i == 0);
      Grown(w, b, State(), origin);
      GrownSame(b.origins, origins);
      LookedUpKept(w, old(origins), old(byCommit), origins, byCommit, origin, goats, i, r);
    }

    /** Each of `origin`'s lines goes to the first parent that had it. For those left, no
        parent that can be found had them. */
    method PassBlame(origin: nat) returns (ok: bool)
      requires Busy(origin) && origin < |origins|
      modifies this
      ensures !ok ==> CanFail(w)
      ensures file == old(file) && SameOrigins(old(origins), origins)
      ensures ok ==> Busy(origin)
      ensures ok ==> HandedOn(w, byCommit, origins[origin].commit, origin, old(owner), owner)
      ensures ok ==> LeftGuilty(w, origins, owner, origin)
    {
      var commit := origins[origin].commit;
      NoParents(w, origins, byCommit, owner, origin);
      if commit !in w.parents || w.parents[commit] == [] {
        return true;
      }
      ok := PassToParents(origin);
    }

    method PassToParents(origin: nat) returns (ok: bool)
      requires Busy(origin) && origin < |origins| && origins[origin].commit in w.parents
      modifies this
      ensures !ok ==> CanFail(w)
      ensures file == old(file) && SameOrigins(old(origins), origins)
      ensures ok ==> Busy(origin)
      ensures ok ==> HandedOn(w, byCommit, origins[origin].commit, origin, old(owner), owner)
      ensures ok ==> LeftGuilty(w, origins, owner, origin)
    {
      var same, i, goats := LookUpParents(origin);
      if same.Some? {
        PassToSame(origin, same.value, goats, i);
        ok := true;
      } else {
        ok := PassToScapegoats(origin, goats);
      }
    }

    /** Parents are looked up in order until one has the same blob or none is left. */
    method LookUpParents(origin: nat) returns (same: Option<nat>, i: nat, goats: seq<Option<nat>>)
      requires Busy(origin) && origin < |origins| && origins[origin].commit in w.parents
      modifies this`origins, this`byCommit
      ensures Busy(origin) && SameOrigins(old(origins), origins)
      ensures LookedUp(w, origins, byCommit, origin, goats, i)
      ensures same.Some? ==>
                && i < |w.parents[origins[origin].commit]| && same.value < |origins|
                && origins[same.value].copy.blob == origins[origin].copy.blob
                && origins[same.value].commit == w.parents[origins[origin].commit][i]
      ensures same.None? ==> i == |w.parents[origins[origin].commit]|
    {
      goats, i := [], 0;
      while i < |w.parents[origins[origin].commit]|
        invariant Busy(origin) && SameOrigins(old(origins), origins)
        invariant LookedUp(w, origins, byCommit, origin, goats, i)
        decreases |w.parents[origins[origin].commit]| - i
      {
        same, goats := LookUp(origin, i, goats);
        if same.Some? {
          return;
        }
        i := i + 1;
      }
      same := None;
    }

    /** Parent `i`, with origin `porigin`, holds the same blob. */
    method PassToSame(origin: nat, porigin: nat, ghost goats: seq<Option<nat>>, ghost i: nat)
      requires Busy(origin) && LookedUp(w, origins, byCommit, origin, goats, i) && porigin < |origins|
      requires i < |w.parents[origins[origin].commit]|
      requires origins[porigin].commit == w.parents[origins[origin].commit][i]
      requires origins[porigin].copy.blob == origins[origin].copy.blob
      modifies this
      ensures file == old(file) && byCommit == old(byCommit) && SameOrigins(old(origins), origins)
      ensures Busy(origin) && HandedOn(w, byCommit, origins[origin].commit, origin, old(owner), owner)
      ensures LeftGuilty(w, origins, owner, origin)
    {
      ParentIsOther(w, State(), origin, porigin, i);
      PassWholeBlame(origin, porigin);
      LookedUpSame(w, old(origins), origins, byCommit, origin, goats, i);
      Moved(w, State(), origin, goats, i, porigin, old(owner));
    }

    method PassToScapegoats(origin: nat, goats: seq<Option<nat>>) returns (ok: bool)
      requires Busy(origin) && origin < |origins| && origins[origin].commit in w.parents
      requires LookedUp(w, origins, byCommit, origin, goats, |w.parents[origins[origin].commit]|)
      modifies this
      ensures !ok ==> CanFail(w)
      ensures file == old(file) && SameOrigins(old(origins), origins)
      ensures ok ==> Busy(origin)
      ensures ok ==> HandedOn(w, byCommit, origins[origin].commit, origin, old(owner), owner)
      ensures ok ==> LeftGuilty(w, origins, owner, origin)
    {
      ok := AskParents(origin, goats);
      if ok {
        Answered(w, State(), origin, goats, old(owner));
      }
    }

    /** Diff against each of the parents in turn, until no line is left. */
    method AskParents(origin: nat, goats: seq<Option<nat>>) returns (ok: bool)
      requires Busy(origin) && origin < |origins| && origins[origin].commit in w.parents
      requires LookedUp(w, origins, byCommit, origin, goats, |w.parents[origins[origin].commit]|)
      modifies this
      ensures !ok ==> CanFail(w)
      ensures file == old(file) && byCommit == old(byCommit) && SameOrigins(old(origins), origins)
      ensures ok ==> Busy(origin) && LookedUp(w, origins, byCommit, origin, goats, |goats|)
      ensures ok ==> TakenUpTo(w, byCommit, origins[origin].commit, origin, old(owner), owner, |goats|)
    {
      ghost var commit := origins[origin].commit;
      ok := true;
      var i := 0;
      while i < |goats|
        invariant 0 <= i <= |goats| == |w.parents[commit]|
        invariant ok && Busy(origin) && file == old(file) && byCommit == old(byCommit)
        invariant SameOrigins(old(origins), origins) && origins[origin].commit == commit
        invariant LookedUp(w, origins, byCommit, origin, goats, |goats|)
        invariant TakenUpTo(w, byCommit, commit, origin, old(owner), owner, i)
      {
        ok := AskParent(origin, goats, i, old(owner));
        if !ok {
          return;
        }
        i := i + 1;
        NoneLeft(w, State(), origin, old(owner), i);
        if origins[origin].suspects == [] {
          return;
        }
      }
    }

    method AskParent(origin: nat, goats: seq<Option<nat>>, i: nat, ghost first: seq<Owner>) returns (ok: bool)
      requires Busy(origin) && origin < |origins| && origins[origin].commit in w.parents
      requires LookedUp(w, origins, byCommit, origin, goats, |w.parents[origins[origin].commit]|) && i < |goats|
      requires TakenUpTo(w, byCommit, origins[origin].commit, origin, first, owner, i)
      modifies this
      ensures !ok ==> CanFail(w)
      ensures file == old(file) && byCommit == old(byCommit) && SameOrigins(old(origins), origins)
      ensures ok ==> Busy(origin) && LookedUp(w, origins, byCommit, origin, goats, |goats|)
      ensures ok ==> TakenUpTo(w, byCommit, origins[origin].commit, origin, first, owner, i + 1)
    {
      ok := true;
      if goats[i].Some? {
        LookedUpAt(w, origins, byCommit, origin, goats, i);
        ok := PassBlameToParent(origin, goats[i].value, i);
        LookedUpSame(w, old(origins), origins, byCommit, origin, goats, |goats|);
      }
      if ok {
        TakenNext(w, old(origins), byCommit, origin, goats, i, first, old(owner), owner);
      }
    }
  }

  /** The scoreboard's fields, as they are together. */
  datatype Board<+T> = Board(
    origins: seq<Origin>, byCommit: map<nat, seq<nat>>, queue: seq<nat>,
    settled: seq<Entry>, owner: seq<Owner>, file: seq<T>)

  ghost predicate Consistent<T(!new)>(w: World<T>, b: Board<T>, doing: int)
  {
    && Sound(w)
    && Shape(w, b.origins, b.byCommit)
    && Tracks(b.origins, b.settled, b.owner)
    && SameText(w, b.origins, b.owner, b.file)
    && AllGuilty(w, b.origins, b.owner)
    && Queued(b.origins, b.queue, doing)
  }

  datatype BlameError = NotAFile | Unreadable | DiffFailed
  datatype Result<+T> = Ok(value: T) | Err(error: BlameError)

  function FirstParent<T>(w: World<T>, commit: nat): Option<nat> {
    if commit in w.parents && w.parents[commit] != [] then Some(w.parents[commit][0]) else None
  }

  function End(g: Group): nat { g.start + g.num }

  predicate Within(e: Entry, l: int) { e.lno <= l < e.lno + e.num }

  /** The run's lines are settled as it says. */
  ghost predicate RunTrue(e: Entry, owner: seq<Owner>) {
    forall l :: Within(e, l) ==> l < |owner| && owner[l] == Settled(e.suspect, e.sLno + (l - e.lno))
  }

  /** Lines that were settled are where they were. */
  ghost predicate StaysSettled(before: seq<Owner>, after: seq<Owner>) {
    |before| == |after| && forall l :: 0 <= l < |before| && before[l].Settled? ==> after[l] == before[l]
  }

  lemma SetupTracks(o: Origin, owner: seq<Owner>, n: nat)
    requires o.suspects == [Entry(0, n, 0, 0)]
    requires |owner| == n && forall l :: 0 <= l < n ==> owner[l] == Pending(0, l)
    ensures Tracks([o], [], owner)
  {
    forall l, s ensures Count(o.suspects, 0, l, s) == Bit(0 <= l < n && owner[l] == Pending(0, s)) {
      assert Count(o.suspects, 0, l, s) == One(o.suspects[0], 0, l, s) + Count(o.suspects[1..], 0, l, s);
    }
  }

  lemma SetupConsistent<T(!new)>(w: World<T>, head: nat, owner: seq<Owner>)
    requires Sound(w) && head in w.copies && head in w.parents && head in w.trees
    requires var n := |w.text(w.copies[head].blob)|;
             |owner| == n && forall l :: 0 <= l < n ==> owner[l] == Pending(0, l)
    ensures var text := w.text(w.copies[head].blob);
            |text| > 0 ==>
              Consistent(w, Board([Origin(head, w.copies[head], [Entry(0, |text|, 0, 0)])],
                                  map[head := [0]], [head], [], owner, text), -1)
  {
    var n := |w.text(w.copies[head].blob)|;
    if n > 0 { SetupTracks(Origin(head, w.copies[head], [Entry(0, n, 0, 0)]), owner, n); }
  }

  /** Every line is pinned on `head`, where it is. */
  ghost predicate Started<T>(w: World<T>, head: nat, origins: seq<Origin>, owner: seq<Owner>) {
    && head in w.copies && |origins| == 1 && origins[0].commit == head && origins[0].copy == w.copies[head]
    && forall l :: 0 <= l < |owner| ==> owner[l] == Pending(0, l)
  }

  ghost predicate OfKind(origins: seq<Origin>, kind: Kind) {
    origins != [] ==> origins[0].copy.kind == kind
  }

  lemma KeepsSame<T(!new)>(w: World<T>, kind: Kind, b: Board<T>)
    requires Consistent(w, b, -1)
    ensures Keeps(w, kind, b.origins, b.owner, b.origins, b.owner)
  {
    forall l | 0 <= l < |b.owner| ensures KeepsLine(w, kind, b.origins, b.owner[l], b.origins, b.owner[l]) {
    }
  }

  lemma PopKeeps<T(!new)>(w: World<T>, b: Board<T>, k: nat)
    requires Consistent(w, b, -1) && k < |b.queue|
    ensures var rest, c := b.queue[..k] + b.queue[k + 1..], b.queue[k];
            && (c in b.byCommit ==> b.byCommit[c] != [] && b.byCommit[c][0] < |b.origins|)
            && (c in b.byCommit && b.origins[b.byCommit[c][0]].suspects != [] ==>
                  Consistent(w, b.(queue := rest), b.byCommit[c][0]))
            && (c !in b.byCommit || b.origins[b.byCommit[c][0]].suspects == [] ==>
                  Consistent(w, b.(queue := rest), -1))
  {
    var rest, c := b.queue[..k] + b.queue[k + 1..], b.queue[k];
    forall i | 0 <= i < |b.origins| && b.origins[i].suspects != []
      ensures b.origins[i].commit in rest || (c in b.byCommit && b.byCommit[c] == [i])
    {
      if b.origins[i].commit != c {
        var j :| 0 <= j < |b.queue| && b.queue[j] == b.origins[i].commit;
        assert rest[if j < k then j else j - 1] == b.queue[j];
      }
    }
  }

  lemma AllSettled<T(!new)>(w: World<T>, b: Board<T>)
    requires Consistent(w, b, -1) && b.queue == []
    ensures forall l :: 0 <= l < |b.owner| ==> b.owner[l].Settled?
  {
    forall l | 0 <= l < |b.owner| ensures b.owner[l].Settled? {
      if b.owner[l].Pending? { NoLine(b.origins, b.settled, b.owner, b.owner[l].origin); }
    }
  }

  lemma PendingLine<T(!new)>(w: World<T>, b: Board<T>, o: nat) returns (l: nat)
    requires Consistent(w, b, o)
    requires o < |b.origins| && b.origins[o].suspects != []
    ensures l < |b.owner| && b.owner[l].Pending? && b.owner[l].origin == o
    ensures forall k :: 0 <= k < |b.owner| ==> b.owner[k].origin < |b.origins|
  {
    l := HasLine(b.origins, b.settled, b.owner, o);
  }

  lemma PassedDown<T(!new)>(w: World<T>, b: Board<T>, before: seq<Owner>, o: nat)
    requires Consistent(w, b, o) && o < |b.origins|
    requires HandedOn(w, b.byCommit, b.origins[o].commit, o, before, b.owner)
    ensures GoesDown(w, b.origins, before, b.owner, o)
    ensures StaysSettled(before, Settle(b.owner, o))
  {
    HandedDown(w, b.origins, b.byCommit, before, b.owner, o);
  }

  /** The board once what is left on `o` has settled there. */
  ghost function RestSettled<T>(b: Board<T>, o: nat): Board<T>
    requires o < |b.origins|
  {
    b.(origins := b.origins[o := b.origins[o].(suspects := [])],
       settled := b.settled + b.origins[o].suspects, owner := Settle(b.owner, o))
  }

  lemma SettleKeeps<T(!new)>(w: World<T>, b: Board<T>, o: nat)
    requires Consistent(w, b, o)
    requires o < |b.origins| && LeftGuilty(w, b.origins, b.owner, o)
    ensures Consistent(w, RestSettled(b, o), -1)
  {
    ShapeSet(w, b.origins, b.byCommit, o, []);
    SettleTracks(b.origins, b.settled, b.owner, o);
    SettleGuilty(w, b.origins, RestSettled(b, o).origins, b.owner, o);
    SettleText(w, b, o);
    SettleQueued(b, o);
  }

  lemma SettleText<T>(w: World<T>, b: Board<T>, o: nat)
    requires o < |b.origins| && SameText(w, b.origins, b.owner, b.file)
    ensures var b' := RestSettled(b, o); SameText(w, b'.origins, b'.owner, b'.file)
  {
  }

  lemma SettleQueued<T>(b: Board<T>, o: nat)
    requires o < |b.origins| && Queued(b.origins, b.queue, o)
    ensures var b' := RestSettled(b, o); Queued(b'.origins, b'.queue, -1)
  {
  }

  lemma RestSame<T>(w: World<T>, b: Board<T>, o: nat)
    requires o < |b.origins|
    ensures var b' := RestSettled(b, o);
            SameOrigins(b.origins, b'.origins) && Total(w, b'.origins, b'.owner) == Total(w, b.origins, b'.owner)
  {
    TotalSame(w, b.origins, RestSettled(b, o).origins, Settle(b.owner, o));
  }

  lemma SettleGuilty<T>(w: World<T>, origins: seq<Origin>, after: seq<Origin>, owner: seq<Owner>, o: nat)
    requires AllGuilty(w, origins, owner) && LeftGuilty(w, origins, owner, o)
    requires SameOrigins(origins, after) && |after| == |origins|
    ensures AllGuilty(w, after, Settle(owner, o))
  {
    var owner' := Settle(owner, o);
    forall l | 0 <= l < |owner'| && owner'[l].Settled? && owner'[l].origin < |after|
      ensures Guilty(w, after[owner'[l].origin], owner'[l].line)
    {
      assert Guilty(w, origins[owner'[l].origin], owner'[l].line);
      GuiltyKept(w, origins[owner'[l].origin], after[owner'[l].origin], owner'[l].line);
    }
  }

  /** With no line to ask about, or nothing to compare, no line moves. */
  lemma NothingAsked<T>(w: World<T>, origins: seq<Origin>, settled: seq<Entry>, owner: seq<Owner>, target: nat,
                        parent: nat)
    requires Tracks(origins, settled, owner) && target < |origins| && parent < |origins|
    ensures origins[target].suspects == [] || origins[parent].copy.blob !in w.blobs
            || origins[target].copy.blob !in w.blobs ==>
              HandParent(w, origins, owner, target, parent) == owner
  {
    if origins[target].suspects == [] { NoLine(origins, settled, owner, target); }
  }

  lemma SettleTracks(origins: seq<Origin>, settled: seq<Entry>, owner: seq<Owner>, o: nat)
    requires Tracks(origins, settled, owner) && o < |origins| && From(origins[o].suspects, o, 0)
    ensures Tracks(origins[o := origins[o].(suspects := [])], settled + origins[o].suspects, Settle(owner, o))
  {
    var after, settled', owner' :=
      origins[o := origins[o].(suspects := [])], settled + origins[o].suspects, Settle(owner, o);
    CountOther(origins[o].suspects, o, 0);
    CountsAppend(settled, origins[o].suspects);
    forall i, l, s | 0 <= i < |after|
      ensures Count(after[i].suspects, i, l, s) == Bit(0 <= l < |owner'| && owner'[l] == Pending(i, s))
    {
      if i != o { assert Count(origins[i].suspects, i, l, s) == Bit(0 <= l < |owner| && owner[l] == Pending(i, s)); }
    }
    forall i, l, s
      ensures Count(settled', i, l, s) == Bit(0 <= l < |owner'| && owner'[l] == Settled(i, s))
    {
      assert Count(settled, i, l, s) == Bit(0 <= l < |owner| && owner[l] == Settled(i, s));
      if i == o {
        assert Count(origins[o].suspects, o, l, s) == Bit(0 <= l < |owner| && owner[l] == Pending(o, s));
      }
    }
  }

  lemma TotalSame<T>(w: World<T>, a: seq<Origin>, b: seq<Origin>, owner: seq<Owner>)
    requires |a| == |b| && SameOrigins(a, b)
    ensures Total(w, a, owner) == Total(w, b, owner)
  {
    TotalDown(w, a, b, owner, owner);
    TotalDown(w, b, a, owner, owner);
  }

  lemma SortedProper(origins: seq<Origin>, settled: seq<Entry>, owner: seq<Owner>)
    requires Tracks(origins, settled, owner)
    ensures forall k :: 0 <= k < |SortByLno(settled)| ==>
              var e := SortByLno(settled)[k]; e.num > 0 && e.suspect < |origins| && RunTrue(e, owner)
  {
    var es := SortByLno(settled);
    SortKeeps(settled, 0, 0, 0);
    forall k | 0 <= k < |es| ensures es[k].num > 0 && es[k].suspect < |origins| && RunTrue(es[k], owner) {
      assert es[k] in es && es[k] in settled;
      forall l | Within(es[k], l)
        ensures l < |owner| && owner[l] == Settled(es[k].suspect, es[k].sLno + (l - es[k].lno)) {
        var s := SettledLine(origins, settled, owner, k, l);
      }
      assert Within(es[k], es[k].lno);
    }
  }

  lemma SettledCovered(origins: seq<Origin>, settled: seq<Entry>, owner: seq<Owner>, groups: seq<Group>)
    requires Tracks(origins, settled, owner)
    requires forall k, l {:trigger Within(SortByLno(settled)[k], l)} ::
               0 <= k < |SortByLno(settled)| && Within(SortByLno(settled)[k], l) ==>
               Covered(groups, l)
    ensures forall l :: 0 <= l < |owner| && owner[l].Settled? ==> Covered(groups, l)
  {
    var es := SortByLno(settled);
    forall l | 0 <= l < |owner| && owner[l].Settled?
      ensures Covered(groups, l)
    {
      var o, s := owner[l].origin, owner[l].line;
      SortKeeps(settled, o, l, s);
      CountSome(es, o, l, s);
      var k :| 0 <= k < |es| && Holds(es[k], o, l, s);
      assert Within(es[k], l);
    }
  }

  lemma LastGrows(groups: seq<Group>, longer: Group, e: Entry, origins: seq<Origin>, owner: seq<Owner>)
    requires groups != [] && e.suspect < |origins| && RunTrue(e, owner)
    requires var last := groups[|groups| - 1];
             && longer == last.(num := last.num + e.num) && last.commit == origins[e.suspect].commit
             && End(last) == e.lno && last.origStart + last.num == e.sLno
    requires forall j, l :: 0 <= j < |groups| ==> Truly(groups[j], l, origins, owner)
    ensures var groups' := groups[|groups| - 1 := longer];
            && (forall j, l :: 0 <= j < |groups'| ==> Truly(groups'[j], l, origins, owner))
            && (forall l :: Within(e, l) || Covered(groups, l) ==> Covered(groups', l))
  {
    var n := |groups|;
    var groups' := groups[n - 1 := longer];
    forall l ensures Truly(longer, l, origins, owner) {
      assert Truly(groups[n - 1], l, origins, owner);
      assert Spans(longer, l) ==> Spans(groups[n - 1], l) || Within(e, l);
    }
    forall l | Within(e, l) || Covered(groups, l) ensures Covered(groups', l) {
      if Within(e, l) {
        assert Spans(groups'[n - 1], l);
      } else {
        var j :| 0 <= j < n && Spans(groups[j], l);
        assert Spans(groups'[j], l);
      }
    }
  }

  lemma LongerGrouped(groups: seq<Group>, longer: Group)
    requires WellGrouped(groups) && groups != []
    requires var last := groups[|groups| - 1];
             longer.num >= last.num && longer == last.(num := longer.num)
    ensures WellGrouped(groups[|groups| - 1 := longer])
  {
  }

  lemma MoreGrouped(groups: seq<Group>, next: Group)
    requires WellGrouped(groups) && next.num > 0
    requires groups != [] ==> End(groups[|groups| - 1]) <= next.start && !Joins(groups[|groups| - 1], next)
    ensures WellGrouped(groups + [next])
  {
    var all := groups + [next];
    forall i | 0 <= i < |groups| ensures all[i].start + all[i].num <= next.start {
      if i < |groups| - 1 { assert groups[i].start + groups[i].num <= groups[|groups| - 1].start; }
    }
  }

  lemma NewGroup(groups: seq<Group>, next: Group, e: Entry, origins: seq<Origin>, owner: seq<Owner>)
    requires e.suspect < |origins| && RunTrue(e, owner)
    requires next.commit == origins[e.suspect].commit && next.start == e.lno && next.num == e.num
             && next.origStart == e.sLno
    requires forall j, l :: 0 <= j < |groups| ==> Truly(groups[j], l, origins, owner)
    ensures var groups' := groups + [next];
            && (forall j, l :: 0 <= j < |groups'| ==> Truly(groups'[j], l, origins, owner))
            && (forall l :: Within(e, l) || Covered(groups, l) ==> Covered(groups', l))
  {
    var groups' := groups + [next];
    forall l ensures Truly(next, l, origins, owner) {
      assert Spans(next, l) ==> Within(e, l);
    }
    forall l | Within(e, l) || Covered(groups, l) ensures Covered(groups', l) {
      if Within(e, l) {
        assert Spans(groups'[|groups|], l);
      } else {
        var j :| 0 <= j < |groups| && Spans(groups[j], l);
        assert Spans(groups'[j], l);
      }
    }
  }

  /** What one commit's turn may do: its lines go to origins of lower rank, or
      stay; nobody else's move. */
  ghost predicate GoesDown<T>(w: World<T>, origins: seq<Origin>, before: seq<Owner>, after: seq<Owner>, o: nat) {
    && o < |origins| && |after| == |before|
    && forall l :: 0 <= l < |before| ==>
         if before[l].Pending? && before[l].origin == o then
           after[l].Pending? && after[l].origin < |origins| &&
           (after[l] == before[l] || w.rank(origins[after[l].origin].commit) < w.rank(origins[o].commit))
         else after[l] == before[l]
  }

  lemma {:induction false} TakerLower<T(!new)>(w: World<T>, origins: seq<Origin>, byCommit: map<nat, seq<nat>>,
                                               o: nat, line: int, n: nat)
    requires Sound(w) && Shape(w, origins, byCommit) && o < |origins|
    ensures var t := FirstTaker(w, byCommit, origins[o].commit, o, line, n);
            && t.Pending? && t.origin < |origins|
            && (t == Pending(o, line) || w.rank(origins[t.origin].commit) < w.rank(origins[o].commit))
  {
    var c := origins[o].commit;
    if n > 0 && c in w.parents && n <= |w.parents[c]| {
      TakerLower(w, origins, byCommit, o, line, n - 1);
      assert w.rank(w.parents[c][n - 1]) < w.rank(c);
    }
  }

  lemma HandedDown<T(!new)>(w: World<T>, origins: seq<Origin>, byCommit: map<nat, seq<nat>>,
                            before: seq<Owner>, after: seq<Owner>, o: nat)
    requires Sound(w) && Shape(w, origins, byCommit) && o < |origins|
    requires HandedOn(w, byCommit, origins[o].commit, o, before, after)
    ensures GoesDown(w, origins, before, after, o)
  {
    var c := origins[o].commit;
    if k: nat :| SameBlob(w, byCommit, c, k) {
      var j := LeastSame(w, byCommit, c, k);
      assert w.rank(w.parents[c][j]) < w.rank(c);
    } else {
      forall l | 0 <= l < |before| && before[l].Pending? && before[l].origin == o
        ensures after[l].Pending? && after[l].origin < |origins|
        ensures after[l] == before[l] || w.rank(origins[after[l].origin].commit) < w.rank(c)
      {
        TakerLower(w, origins, byCommit, o, before[l].line, if c in w.parents then |w.parents[c]| else 0);
      }
    }
  }

  lemma {:induction false} LeastSame<T>(w: World<T>, byCommit: map<nat, seq<nat>>, c: nat, k: nat) returns (j: nat)
    requires SameBlob(w, byCommit, c, k)
    ensures FirstSame(w, byCommit, c, j)
    decreases k
  {
    if i: nat :| i < k && SameBlob(w, byCommit, c, i) {
      j := LeastSame(w, byCommit, c, i);
    } else {
      j := k;
    }
  }

  /** A turn that had lines to deal with brings the total down. */
  lemma TurnEnds<T(!new)>(w: World<T>, origins: seq<Origin>, after: seq<Origin>, owner: seq<Owner>, passed: seq<Owner>,
                          o: nat, l: nat)
    requires SameOrigins(origins, after) && GoesDown(w, after, owner, passed, o)
    requires o < |origins| && (forall k :: 0 <= k < |owner| ==> owner[k].origin < |origins|)
    requires l < |owner| && owner[l].Pending? && owner[l].origin == o
    ensures Total(w, after, Settle(passed, o)) < Total(w, origins, owner)
  {
    assert Weight(w, after, Settle(passed, o)[l]) < Weight(w, origins, owner[l]);
    TotalDown(w, origins, after, owner, Settle(passed, o));
  }

  /** Whatever is left on `o` is `o`'s own doing. */
  ghost predicate LeftGuilty<T>(w: World<T>, origins: seq<Origin>, owner: seq<Owner>, o: nat) {
    o < |origins| &&
    forall l :: 0 <= l < |owner| && owner[l].Pending? && owner[l].origin == o ==>
      Guilty(w, origins[o], owner[l].line)
  }

  /** The first `n` parents of `o` have been looked up. Each that was found differs
      from `o` and is in `goats`, itself or as an earlier one with its blob. */
  ghost predicate LookedUp<T>(w: World<T>, origins: seq<Origin>, byCommit: map<nat, seq<nat>>,
                           o: nat, goats: seq<Option<nat>>, n: nat)
  {
    && o < |origins| && origins[o].commit in w.parents
    && var parents := w.parents[origins[o].commit];
       && n <= |parents| && |goats| == n
       && forall k :: 0 <= k < n ==> LookedUpOne(w, origins, byCommit, o, parents, goats, k)
  }

  ghost predicate LookedUpOne<T>(w: World<T>, origins: seq<Origin>, byCommit: map<nat, seq<nat>>,
                              o: nat, parents: seq<nat>, goats: seq<Option<nat>>, k: nat)
    requires k < |parents| && k < |goats| && o < |origins|
  {
    if parents[k] in byCommit then
      && parents[k] in w.copies && w.copies[parents[k]].blob != origins[o].copy.blob
      && (goats[k].Some? ==> byCommit[parents[k]] == [goats[k].value])
      && exists j :: 0 <= j <= k && goats[j].Some? && parents[j] in byCommit && parents[j] in w.copies
                     && w.copies[parents[j]].blob == w.copies[parents[k]].blob
    else
      goats[k].None? && !Findable(w, parents[k], origins[o], k == 0)
  }

  lemma Grown<T(!new)>(w: World<T>, b: Board<T>, b': Board<T>, doing: int)
    requires Consistent(w, b, doing) && b' == b.(origins := b'.origins, byCommit := b'.byCommit)
    requires Shape(w, b'.origins, b'.byCommit) && b.origins <= b'.origins
    requires forall i :: |b.origins| <= i < |b'.origins| ==> b'.origins[i].suspects == []
    ensures Consistent(w, b', doing)
  {
    GrownTracks(b.origins, b'.origins, b.settled, b.owner);
    GuiltyStill(w, b.origins, b'.origins, b.owner, b.owner);
  }

  lemma GrownSame(origins: seq<Origin>, after: seq<Origin>)
    requires origins <= after
    ensures SameOrigins(origins, after)
  {
  }

  lemma GrownTracks(origins: seq<Origin>, after: seq<Origin>, settled: seq<Entry>, owner: seq<Owner>)
    requires Tracks(origins, settled, owner) && origins <= after
    requires forall i :: |origins| <= i < |after| ==> after[i].suspects == []
    ensures Tracks(after, settled, owner)
  {
    forall i, l, s | 0 <= i < |after|
      ensures Count(after[i].suspects, i, l, s) == Bit(0 <= l < |owner| && owner[l] == Pending(i, s))
    {
      if i < |origins| {
        assert Count(origins[i].suspects, i, l, s) == Bit(0 <= l < |owner| && owner[l] == Pending(i, s));
      }
    }
  }

  /** Looking up one more parent leaves the earlier answers standing. */
  lemma LookedUpKept<T(!new)>(
    w: World<T>, before: seq<Origin>, byBefore: map<nat, seq<nat>>, after: seq<Origin>, byCommit: map<nat, seq<nat>>,
    o: nat, goats: seq<Option<nat>>, n: nat, found: Option<nat>)
    requires LookedUp(w, before, byBefore, o, goats, n) && before <= after
    requires n < |w.parents[before[o].commit]|
    requires var p := w.parents[before[o].commit][n];
             && (p in byBefore ==> byCommit == byBefore)
             && (p !in byBefore ==> (found.Some? <==> Findable(w, p, before[o], n == 0)))
             && (p !in byBefore ==> byCommit == if found.Some? then byBefore[p := [found.value]] else byBefore)
    ensures LookedUp(w, after, byCommit, o, goats, n)
  {
    var parents := w.parents[before[o].commit];
    forall k | 0 <= k < n ensures LookedUpOne(w, after, byCommit, o, parents, goats, k) {
      assert LookedUpOne(w, before, byBefore, o, parents, goats, k);
    }
  }

  /** One of `goats` holds `blob`. */
  ghost predicate Holding(origins: seq<Origin>, goats: seq<Option<nat>>, blob: nat) {
    exists j :: 0 <= j < |goats| && goats[j].Some? && goats[j].value < |origins|
                && origins[goats[j].value].copy.blob == blob
  }

  lemma GoatsInRange<T>(w: World<T>, origins: seq<Origin>, byCommit: map<nat, seq<nat>>,
                        o: nat, goats: seq<Option<nat>>, n: nat)
    requires Shape(w, origins, byCommit) && LookedUp(w, origins, byCommit, o, goats, n)
    ensures forall j :: 0 <= j < n && goats[j].Some? ==> goats[j].value < |origins|
  {
    forall j | 0 <= j < n && goats[j].Some? ensures goats[j].value < |origins| {
      assert LookedUpOne(w, origins, byCommit, o, w.parents[origins[o].commit], goats, j);
    }
  }

  lemma ParentIsOther<T(!new)>(w: World<T>, b: Board<T>, o: nat, p: nat, i: nat)
    requires Consistent(w, b, o) && o < |b.origins| && p < |b.origins|
    requires b.origins[o].commit in w.parents && i < |w.parents[b.origins[o].commit]|
    requires b.origins[p].commit == w.parents[b.origins[o].commit][i]
    ensures o != p
  {
    assert w.rank(w.parents[b.origins[o].commit][i]) < w.rank(b.origins[o].commit);
  }

  lemma NoneLeft<T(!new)>(w: World<T>, b: Board<T>, o: nat, first: seq<Owner>, n: nat)
    requires Consistent(w, b, o)
    requires o < |b.origins|
    requires b.origins[o].commit in w.parents && n <= |w.parents[b.origins[o].commit]|
    requires TakenUpTo(w, b.byCommit, b.origins[o].commit, o, first, b.owner, n)
    ensures b.origins[o].suspects == [] ==>
              TakenUpTo(w, b.byCommit, b.origins[o].commit, o, first, b.owner, |w.parents[b.origins[o].commit]|)
  {
    if b.origins[o].suspects == [] {
      NoLine(b.origins, b.settled, b.owner, o);
      TakenAll(w, b.origins, b.byCommit, o, first, b.owner, n);
    }
  }

  lemma LookedUpNext<T>(w: World<T>, origins: seq<Origin>, byCommit: map<nat, seq<nat>>, o: nat,
                        goats: seq<Option<nat>>, n: nat, found: Option<nat>, goats': seq<Option<nat>>)
    requires Shape(w, origins, byCommit) && LookedUp(w, origins, byCommit, o, goats, n)
    requires n < |w.parents[origins[o].commit]| && |goats'| == n + 1 && goats' == goats + [goats'[n]]
    requires var p := w.parents[origins[o].commit][n];
             if p in byCommit then
               && found == Some(byCommit[p][0]) && origins[found.value].copy.blob != origins[o].copy.blob
               && (goats'[n] == found || (goats'[n].None? && Holding(origins, goats, origins[found.value].copy.blob)))
             else goats'[n].None? && !Findable(w, p, origins[o], n == 0)
    ensures LookedUp(w, origins, byCommit, o, goats', n + 1)
  {
    var parents := w.parents[origins[o].commit];
    assert forall k :: 0 <= k < n ==> goats'[k] == goats[k];
    forall k | 0 <= k < n ensures LookedUpOne(w, origins, byCommit, o, parents, goats', k) {
      assert LookedUpOne(w, origins, byCommit, o, parents, goats, k);
    }
    if parents[n] in byCommit && goats'[n].None? {
      var j :| 0 <= j < |goats| && goats[j].Some? && goats[j].value < |origins|
               && origins[goats[j].value].copy.blob == origins[found.value].copy.blob;
      assert LookedUpOne(w, origins, byCommit, o, parents, goats, j);
      assert w.copies[parents[j]].blob == w.copies[parents[n]].blob;
    }
  }

  /** `p` is the origin of parent `k` of `o`'s commit, with another blob. */
  ghost predicate IsParent<T>(w: World<T>, origins: seq<Origin>, o: nat, p: nat, k: nat)
    requires o < |origins| && p < |origins|
  {
    && origins[o].commit in w.parents && k < |w.parents[origins[o].commit]|
    && origins[p].commit == w.parents[origins[o].commit][k] && origins[p].copy.blob != origins[o].copy.blob
  }

  lemma LookedUpAt<T(!new)>(w: World<T>, origins: seq<Origin>, byCommit: map<nat, seq<nat>>,
                            o: nat, goats: seq<Option<nat>>, i: nat)
    requires Sound(w) && Shape(w, origins, byCommit)
    requires LookedUp(w, origins, byCommit, o, goats, |goats|) && i < |goats| && goats[i].Some?
    ensures goats[i].value < |origins| && goats[i].value != o && IsParent(w, origins, o, goats[i].value, i)
  {
    var c := origins[o].commit;
    assert LookedUpOne(w, origins, byCommit, o, w.parents[c], goats, i);
    assert w.rank(w.parents[c][i]) < w.rank(c);
  }

  lemma LookedUpSame<T>(w: World<T>, before: seq<Origin>, after: seq<Origin>, byCommit: map<nat, seq<nat>>,
                     o: nat, goats: seq<Option<nat>>, n: nat)
    requires LookedUp(w, before, byCommit, o, goats, n) && SameOrigins(before, after)
    ensures LookedUp(w, after, byCommit, o, goats, n)
  {
    var parents := w.parents[before[o].commit];
    forall k | 0 <= k < n ensures LookedUpOne(w, after, byCommit, o, parents, goats, k) {
      assert LookedUpOne(w, before, byCommit, o, parents, goats, k);
    }
  }

  lemma {:induction false} TakerStays<T>(w: World<T>, byCommit: map<nat, seq<nat>>, c: nat, o: nat, line: int,
                                         n: nat, m: nat)
    requires c in w.parents && c in w.copies && n <= m <= |w.parents[c]|
    requires FirstTaker(w, byCommit, c, o, line, n) != Pending(o, line)
    ensures FirstTaker(w, byCommit, c, o, line, m) == FirstTaker(w, byCommit, c, o, line, n)
    decreases m
  {
    if n < m { TakerStays(w, byCommit, c, o, line, n, m - 1); }
  }

  /** A line that has been taken is with another origin, and stays there. */
  lemma TakerElsewhere<T(!new)>(w: World<T>, origins: seq<Origin>, byCommit: map<nat, seq<nat>>,
                                o: nat, line: int, n: nat, m: nat)
    requires Sound(w) && Shape(w, origins, byCommit) && o < |origins| && n <= m
    requires origins[o].commit in w.parents && m <= |w.parents[origins[o].commit]|
    ensures var t := FirstTaker(w, byCommit, origins[o].commit, o, line, n);
            && t.Pending? && (t == Pending(o, line) || t.origin != o)
            && (t != Pending(o, line) ==> FirstTaker(w, byCommit, origins[o].commit, o, line, m) == t)
  {
    TakerLower(w, origins, byCommit, o, line, n);
    if FirstTaker(w, byCommit, origins[o].commit, o, line, n) != Pending(o, line) {
      TakerStays(w, byCommit, origins[o].commit, o, line, n, m);
    }
  }

  /** A line nobody has taken lies inside a changed hunk of every parent asked. */
  lemma TakerKept<T(!new)>(w: World<T>, origins: seq<Origin>, byCommit: map<nat, seq<nat>>,
                                              o: nat, line: int, n: nat, j: nat)
    requires Sound(w) && Shape(w, origins, byCommit) && o < |origins| && j < n
    requires origins[o].commit in w.parents && n <= |w.parents[origins[o].commit]|
    requires FirstTaker(w, byCommit, origins[o].commit, o, line, n) == Pending(o, line)
    requires w.parents[origins[o].commit][j] in byCommit
    ensures var p := w.parents[origins[o].commit][j];
            p in w.copies && Goes(w, w.copies[p].blob, origins[o].copy.blob, line) == Keep
  {
    var c := origins[o].commit;
    var p := w.parents[c][j];
    if FirstTaker(w, byCommit, c, o, line, j + 1) != Pending(o, line) { TakerStays(w, byCommit, c, o, line, j + 1, n); }
    assert w.rank(p) < w.rank(c);
    assert byCommit[p] != [] && origins[byCommit[p][0]].commit == p;
  }

  lemma TakenNext<T(!new)>(w: World<T>, origins: seq<Origin>, byCommit: map<nat, seq<nat>>, o: nat,
                           goats: seq<Option<nat>>, i: nat, first: seq<Owner>, was: seq<Owner>, now: seq<Owner>)
    requires Sound(w) && Shape(w, origins, byCommit)
    requires o < |origins| && origins[o].commit in w.parents
    requires LookedUp(w, origins, byCommit, o, goats, |w.parents[origins[o].commit]|) && i < |goats|
    requires TakenUpTo(w, byCommit, origins[o].commit, o, first, was, i)
    requires goats[i].Some? ==> goats[i].value < |origins| && now == HandParent(w, origins, was, o, goats[i].value)
    requires goats[i].None? ==> now == was
    ensures TakenUpTo(w, byCommit, origins[o].commit, o, first, now, i + 1)
  {
    var c := origins[o].commit;
    var parents := w.parents[c];
    assert LookedUpOne(w, origins, byCommit, o, parents, goats, i);
    forall l | 0 <= l < |first| && first[l].Pending? && first[l].origin == o
      ensures now[l] == FirstTaker(w, byCommit, c, o, first[l].line, i + 1)
    {
      TakenOne(w, origins, byCommit, o, goats, i, first[l].line, was[l], now[l]);
    }
  }

  /** The same, of one line. */
  lemma TakenOne<T(!new)>(w: World<T>, origins: seq<Origin>, byCommit: map<nat, seq<nat>>, o: nat,
                          goats: seq<Option<nat>>, i: nat, s: int, was: Owner, now: Owner)
    requires Sound(w) && Shape(w, origins, byCommit)
    requires o < |origins| && origins[o].commit in w.parents && i < |goats| == |w.parents[origins[o].commit]|
    requires LookedUpOne(w, origins, byCommit, o, w.parents[origins[o].commit], goats, i)
    requires was == FirstTaker(w, byCommit, origins[o].commit, o, s, i)
    requires goats[i].Some? ==> goats[i].value < |origins|
    requires now == if goats[i].Some? && was.Pending? && was.origin == o
                    then Asked(w, origins, o, goats[i].value, was.line) else was
    ensures now == FirstTaker(w, byCommit, origins[o].commit, o, s, i + 1)
  {
    var parents := w.parents[origins[o].commit];
    TakerElsewhere(w, origins, byCommit, o, s, i, i);
    if was == Pending(o, s) && parents[i] in byCommit && goats[i].None? {
      var j :| 0 <= j <= i && goats[j].Some? && parents[j] in byCommit && parents[j] in w.copies
               && w.copies[parents[j]].blob == w.copies[parents[i]].blob;
      TakerKept(w, origins, byCommit, o, s, i, j);
    }
  }

  lemma TakenAll<T(!new)>(w: World<T>, origins: seq<Origin>, byCommit: map<nat, seq<nat>>, o: nat,
                          first: seq<Owner>, owner: seq<Owner>, n: nat)
    requires Sound(w) && Shape(w, origins, byCommit)
    requires o < |origins| && origins[o].commit in w.parents && n <= |w.parents[origins[o].commit]|
    requires TakenUpTo(w, byCommit, origins[o].commit, o, first, owner, n)
    requires forall l :: 0 <= l < |owner| && owner[l].Pending? ==> owner[l].origin != o
    ensures TakenUpTo(w, byCommit, origins[o].commit, o, first, owner, |w.parents[origins[o].commit]|)
  {
    forall l | 0 <= l < |first| && first[l].Pending? && first[l].origin == o
      ensures owner[l] == FirstTaker(w, byCommit, origins[o].commit, o, first[l].line, |w.parents[origins[o].commit]|)
    {
      TakerElsewhere(w, origins, byCommit, o, first[l].line, n, |w.parents[origins[o].commit]|);
    }
  }

  /** Once every parent has been asked. */
  lemma AllTaken<T(!new)>(w: World<T>, origins: seq<Origin>, byCommit: map<nat, seq<nat>>, o: nat,
                          goats: seq<Option<nat>>, first: seq<Owner>, owner: seq<Owner>)
    requires Sound(w) && Shape(w, origins, byCommit)
    requires o < |origins| && origins[o].commit in w.parents
    requires LookedUp(w, origins, byCommit, o, goats, |w.parents[origins[o].commit]|)
    requires TakenUpTo(w, byCommit, origins[o].commit, o, first, owner, |w.parents[origins[o].commit]|)
    ensures HandedOn(w, byCommit, origins[o].commit, o, first, owner)
    ensures LeftGuilty(w, origins, owner, o)
  {
    var c := origins[o].commit;
    var parents := w.parents[c];
    forall k: nat | k < |parents| ensures !SameBlob(w, byCommit, c, k) {
      assert LookedUpOne(w, origins, byCommit, o, parents, goats, k);
    }
    LookedUpTried(w, origins, byCommit, o, goats, |parents|);
    forall l | 0 <= l < |owner| && owner[l].Pending? && owner[l].origin == o
      ensures Guilty(w, origins[o], owner[l].line)
    {
      TakerElsewhere(w, origins, byCommit, o, first[l].line, |parents|, |parents|);
      forall k | 0 <= k < |parents| && Findable(w, parents[k], origins[o], k == 0)
        ensures w.copies[parents[k]].blob != origins[o].copy.blob
        ensures Goes(w, w.copies[parents[k]].blob, origins[o].copy.blob, owner[l].line) == Keep
      {
        assert LookedUpOne(w, origins, byCommit, o, parents, goats, k);
        TakerKept(w, origins, byCommit, o, owner[l].line, |parents|, k);
      }
    }
  }

  lemma Answered<T(!new)>(w: World<T>, b: Board<T>, o: nat, goats: seq<Option<nat>>, first: seq<Owner>)
    requires Consistent(w, b, o)
    requires LookedUp(w, b.origins, b.byCommit, o, goats, |goats|)
    requires |goats| == |w.parents[b.origins[o].commit]|
    requires TakenUpTo(w, b.byCommit, b.origins[o].commit, o, first, b.owner, |goats|)
    ensures HandedOn(w, b.byCommit, b.origins[o].commit, o, first, b.owner)
    ensures LeftGuilty(w, b.origins, b.owner, o)
  {
    AllTaken(w, b.origins, b.byCommit, o, goats, first, b.owner);
  }

  lemma LookedUpTried<T>(w: World<T>, origins: seq<Origin>, byCommit: map<nat, seq<nat>>, o: nat,
                         goats: seq<Option<nat>>, n: nat)
    requires Shape(w, origins, byCommit) && LookedUp(w, origins, byCommit, o, goats, n)
    ensures forall k: nat :: k < n ==> Tried(w, byCommit, origins[o].commit, k)
  {
    forall k: nat | k < n ensures Tried(w, byCommit, origins[o].commit, k) {
      assert LookedUpOne(w, origins, byCommit, o, w.parents[origins[o].commit], goats, k);
    }
  }

  /** A root, or a commit that cannot be read, keeps its lines. */
  lemma NoParents<T>(w: World<T>, origins: seq<Origin>, byCommit: map<nat, seq<nat>>, owner: seq<Owner>, o: nat)
    requires o < |origins|
    ensures origins[o].commit !in w.parents || w.parents[origins[o].commit] == [] ==>
              && HandedOn(w, byCommit, origins[o].commit, o, owner, owner)
              && LeftGuilty(w, origins, owner, o)
  {
  }

  /** When parent `i` turns out to hold the same blob. */
  lemma WholeHandedOn<T(!new)>(w: World<T>, origins: seq<Origin>, byCommit: map<nat, seq<nat>>, o: nat,
                               goats: seq<Option<nat>>, i: nat, p: nat, first: seq<Owner>, owner: seq<Owner>)
    requires Sound(w) && Shape(w, origins, byCommit)
    requires LookedUp(w, origins, byCommit, o, goats, i) && i < |w.parents[origins[o].commit]|
    requires p < |origins| && p != o && origins[p].commit == w.parents[origins[o].commit][i]
    requires origins[p].copy.blob == origins[o].copy.blob && owner == HandWhole(first, o, p)
    ensures HandedOn(w, byCommit, origins[o].commit, o, first, owner)
    ensures LeftGuilty(w, origins, owner, o)
  {
    var c := origins[o].commit;
    var parents := w.parents[c];
    forall k: nat | k < i ensures !SameBlob(w, byCommit, c, k) {
      assert LookedUpOne(w, origins, byCommit, o, parents, goats, k);
    }
    LookedUpTried(w, origins, byCommit, o, goats, i);
    assert SameBlob(w, byCommit, c, i);
    assert forall k: nat :: FirstSame(w, byCommit, c, k) ==> k == i;
  }

  lemma Moved<T(!new)>(w: World<T>, b: Board<T>, o: nat, goats: seq<Option<nat>>,
                       i: nat, p: nat, first: seq<Owner>)
    requires Consistent(w, b, o)
    requires LookedUp(w, b.origins, b.byCommit, o, goats, i) && i < |w.parents[b.origins[o].commit]|
    requires p < |b.origins| && b.origins[p].commit == w.parents[b.origins[o].commit][i]
    requires b.origins[p].copy.blob == b.origins[o].copy.blob && b.owner == HandWhole(first, o, p)
    ensures HandedOn(w, b.byCommit, b.origins[o].commit, o, first, b.owner)
    ensures LeftGuilty(w, b.origins, b.owner, o)
  {
    ParentIsOther(w, b, o, p, i);
    WholeHandedOn(w, b.origins, b.byCommit, o, goats, i, p, first, b.owner);
  }

  /** A parent's copy and a commit's own can both be read, but not compared. */
  predicate DiffFails<T>(w: World<T>, c: nat, k: nat) {
    && c in w.parents && k < |w.parents[c]| && c in w.copies
    && var p := w.parents[c][k];
       && p in w.parents && p in w.copies && w.copies[p].kind == w.copies[c].kind
       && w.copies[p].blob in w.blobs && w.copies[c].blob in w.blobs && w.copies[p].blob != w.copies[c].blob
       && w.hunks(w.copies[p].blob, w.copies[c].blob).None?
  }

  ghost predicate CanFail<T>(w: World<T>) {
    exists c, k :: DiffFails(w, c, k)
  }

  lemma ShapeMore<T>(w: World<T>, origins: seq<Origin>, byCommit: map<nat, seq<nat>>, commit: nat)
    requires Shape(w, origins, byCommit) && origins != [] && commit !in byCommit
    requires commit in w.parents && commit in w.copies && w.copies[commit].kind == origins[0].copy.kind
    requires FiltersReadable(w) ==> commit in w.trees
    ensures Shape(w, origins + [Origin(commit, w.copies[commit], [])], byCommit[commit := [|origins|]])
  {
  }

  /** `b'` is `b` with `o` left holding `kept` and `p` given `passed` too, queued if it
      held nothing. Where the lines stand is not said. */
  ghost predicate Handed<T>(b: Board<T>, b': Board<T>, o: nat, p: nat, passed: seq<Entry>, kept: seq<Entry>) {
    && b'.byCommit == b.byCommit && b'.settled == b.settled && b'.file == b.file
    && o < |b.origins| && p < |b.origins| && o != p && |b'.origins| == |b.origins|
    && (forall i :: 0 <= i < |b.origins| && i != o && i != p ==> b'.origins[i] == b.origins[i])
    && b'.origins[o] == b.origins[o].(suspects := kept)
    && b'.origins[p] == b.origins[p].(suspects := Merge(b.origins[p].suspects, passed))
    && b'.queue == if b.origins[p].suspects != [] then b.queue else b.queue + [b.origins[p].commit]
  }

  lemma ShapeSet<T>(w: World<T>, origins: seq<Origin>, byCommit: map<nat, seq<nat>>, i: nat, es: seq<Entry>)
    requires Shape(w, origins, byCommit) && i < |origins| && Sorted(es) && From(es, i, 0)
    ensures Shape(w, origins[i := origins[i].(suspects := es)], byCommit)
  {
  }

  lemma LeftThenGiven<T>(b: Board<T>, b': Board<T>, left: seq<Origin>, o: nat, p: nat, passed: seq<Entry>,
                         kept: seq<Entry>)
    requires b' == b.(origins := b'.origins, queue := b'.queue, owner := b'.owner)
    requires o < |b.origins| && p < |b.origins| && o != p && left == b.origins[o := b.origins[o].(suspects := kept)]
    requires |b'.origins| == |left| && forall i :: 0 <= i < |left| && i != p ==> b'.origins[i] == left[i]
    requires b'.origins[p] == left[p].(suspects := Merge(left[p].suspects, passed))
    requires b'.queue == if left[p].suspects != [] then b.queue else b.queue + [b'.origins[p].commit]
    ensures Handed(b, b', o, p, passed, kept)
  {
  }

  lemma HandedSame<T>(b: Board<T>, b': Board<T>, o: nat, p: nat, passed: seq<Entry>, kept: seq<Entry>)
    requires Handed(b, b', o, p, passed, kept)
    ensures SameOrigins(b.origins, b'.origins) && |b.origins| == |b'.origins|
    ensures Queued(b.origins, b.queue, o) ==> Queued(b'.origins, b'.queue, o)
  {
  }

  lemma GuiltyStill<T>(w: World<T>, origins: seq<Origin>, after: seq<Origin>, owner: seq<Owner>, owner': seq<Owner>)
    requires AllGuilty(w, origins, owner) && SameOrigins(origins, after) && |owner'| == |owner|
    requires forall l :: 0 <= l < |owner| ==> owner[l].origin < |origins|
    requires forall l :: 0 <= l < |owner| && owner'[l].Settled? ==> owner'[l] == owner[l]
    ensures AllGuilty(w, after, owner')
  {
    forall l | 0 <= l < |owner'| && owner'[l].Settled? && owner'[l].origin < |after|
      ensures Guilty(w, after[owner'[l].origin], owner'[l].line)
    {
      GuiltyKept(w, origins[owner[l].origin], after[owner[l].origin], owner[l].line);
    }
  }

  /** Everything but the count of runs follows from where each line stands. */
  lemma HandedRest<T(!new)>(w: World<T>, b: Board<T>, b': Board<T>, o: nat, p: nat, passed: seq<Entry>,
                            kept: seq<Entry>)
    requires Consistent(w, b, o) && Handed(b, b', o, p, passed, kept) && Shape(w, b'.origins, b'.byCommit)
    requires SameText(w, b.origins, b'.owner, b.file) && Tracks(b'.origins, b.settled, b'.owner)
    requires forall l :: 0 <= l < |b.owner| && b'.owner[l].Settled? ==> b'.owner[l] == b.owner[l]
    ensures Consistent(w, b', o)
  {
    HandedSame(b, b', o, p, passed, kept);
    GuiltyStill(w, b.origins, b'.origins, b.owner, b'.owner);
  }

  lemma GuiltyKept<T>(w: World<T>, o: Origin, o': Origin, s: int)
    requires Guilty(w, o, s) && o'.commit == o.commit && o'.copy == o.copy
    ensures Guilty(w, o', s)
  {
    if o.commit in w.parents {
      forall k | 0 <= k < |w.parents[o.commit]| && Findable(w, w.parents[o.commit][k], o', k == 0)
        ensures w.copies[w.parents[o.commit][k]].blob != o.copy.blob
        ensures Goes(w, w.copies[w.parents[o.commit][k]].blob, o.copy.blob, s) == Keep
      {
        assert Findable(w, w.parents[o.commit][k], o, k == 0);
      }
    }
  }

  lemma HandedParent<T(!new)>(w: World<T>, b: Board<T>, b': Board<T>, o: nat, p: nat, hunks: seq<Hunk>,
                              passed: seq<Entry>, kept: seq<Entry>)
    requires Consistent(w, b, o) && Handed(b, b', o, p, passed, kept) && Shape(w, b'.origins, b'.byCommit)
    requires b.origins[p].copy.blob in w.blobs && b.origins[o].copy.blob in w.blobs
    requires w.hunks(b.origins[p].copy.blob, b.origins[o].copy.blob) == Some(hunks)
    requires forall l, x :: Count(passed, p, l, x) == Passing(hunks, 0, b.origins[o].suspects, o, l, x)
    requires forall l, s :: Count(kept, o, l, s) == Keeping(hunks, 0, b.origins[o].suspects, o, l, s)
    requires b'.owner == HandParent(w, b.origins, b.owner, o, p)
    ensures Consistent(w, b', o)
  {
    HandParentText(w, b.origins, b.owner, b.file, o, p);
    HandedParentTracks(w, b, b', o, p, hunks, passed, kept);
    HandedRest(w, b, b', o, p, passed, kept);
  }

  lemma HandedParentTracks<T(!new)>(w: World<T>, b: Board<T>, b': Board<T>, o: nat, p: nat, hunks: seq<Hunk>,
                                    passed: seq<Entry>, kept: seq<Entry>)
    requires Sound(w) && Tracks(b.origins, b.settled, b.owner) && SameText(w, b.origins, b.owner, b.file)
    requires Handed(b, b', o, p, passed, kept)
    requires b.origins[p].copy.blob in w.blobs && b.origins[o].copy.blob in w.blobs
    requires w.hunks(b.origins[p].copy.blob, b.origins[o].copy.blob) == Some(hunks)
    requires forall l, x :: Count(passed, p, l, x) == Passing(hunks, 0, b.origins[o].suspects, o, l, x)
    requires forall l, s :: Count(kept, o, l, s) == Keeping(hunks, 0, b.origins[o].suspects, o, l, s)
    requires b'.owner == HandParent(w, b.origins, b.owner, o, p)
    ensures Tracks(b'.origins, b.settled, b'.owner)
  {
    HandParentCounts(w, b.origins, b.settled, b.owner, b.file, o, p, hunks);
    HandedTracks(b.origins, b'.origins, b.settled, b.owner, b'.owner, o, p, passed);
  }

  lemma HandedTracks(before: seq<Origin>, after: seq<Origin>, settled: seq<Entry>,
                     owner: seq<Owner>, owner': seq<Owner>, o: nat, p: nat, passed: seq<Entry>)
    requires Tracks(before, settled, owner)
    requires o < |before| && p < |before| && o != p && |after| == |before| && |owner'| == |owner|
    requires forall i :: 0 <= i < |before| && i != o && i != p ==> after[i] == before[i]
    requires after[p] == before[p].(suspects := Merge(before[p].suspects, passed))
    requires forall l :: 0 <= l < |owner| ==>
               if owner[l].Pending? && owner[l].origin == o then owner'[l].Pending? && owner'[l].origin in {o, p}
               else owner'[l] == owner[l]
    requires forall l, s ::
               Count(after[o].suspects, o, l, s) == Bit(0 <= l < |owner'| && owner'[l] == Pending(o, s))
    requires forall l, x ::
               Bit(0 <= l < |owner'| && owner'[l] == Pending(p, x)) ==
               Count(before[p].suspects, p, l, x) + Count(passed, p, l, x)
    ensures Tracks(after, settled, owner')
  {
    forall l, x
      ensures Count(after[p].suspects, p, l, x) == Bit(0 <= l < |owner'| && owner'[l] == Pending(p, x))
    {
      MergeCounts(before[p].suspects, passed, p, l, x);
    }
    TracksHand(before, after, settled, owner, owner', o, p);
  }

  lemma HandedWhole<T(!new)>(w: World<T>, b: Board<T>, b': Board<T>, o: nat, p: nat, moved: seq<Entry>)
    requires Consistent(w, b, o) && Handed(b, b', o, p, moved, []) && Shape(w, b'.origins, b'.byCommit)
    requires b.origins[p].copy.blob == b.origins[o].copy.blob
    requires forall l, x :: Count(moved, p, l, x) == Count(b.origins[o].suspects, o, l, x - 0)
    requires b'.owner == HandWhole(b.owner, o, p)
    ensures Consistent(w, b', o)
  {
    HandedWholeTracks(b.origins, b.settled, b.owner, b'.origins, o, p, moved);
    HandedRest(w, b, b', o, p, moved, []);
  }

  lemma HandedWholeTracks(before: seq<Origin>, settled: seq<Entry>, owner: seq<Owner>, after: seq<Origin>,
                          o: nat, p: nat, moved: seq<Entry>)
    requires Tracks(before, settled, owner)
    requires o < |before| && p < |before| && o != p && |after| == |before|
    requires forall i :: 0 <= i < |before| && i != o && i != p ==> after[i] == before[i]
    requires after[o] == before[o].(suspects := [])
             && after[p] == before[p].(suspects := Merge(before[p].suspects, moved))
    requires forall l, x :: Count(moved, p, l, x) == Count(before[o].suspects, o, l, x - 0)
    ensures Tracks(after, settled, HandWhole(owner, o, p))
  {
    var owner' := HandWhole(owner, o, p);
    forall l, x
      ensures Bit(0 <= l < |owner'| && owner'[l] == Pending(p, x)) ==
              Count(before[p].suspects, p, l, x) + Count(moved, p, l, x)
    {
      assert Count(moved, p, l, x) == Count(before[o].suspects, o, l, x - 0);
      assert Count(before[p].suspects, p, l, x) == Bit(0 <= l < |owner| && owner[l] == Pending(p, x));
      assert Count(before[o].suspects, o, l, x) == Bit(0 <= l < |owner| && owner[l] == Pending(o, x));
    }
    HandedTracks(before, after, settled, owner, owner', o, p, moved);
  }

  lemma {:induction false} RebasedSorted(es: seq<Entry>, offset: int, lo: nat, parent: nat, o: nat)
    requires 0 <= lo + offset && From(es, o, lo) && Sorted(es)
    ensures Sorted(Rebased(es, offset, lo, parent)) && From(Rebased(es, offset, lo, parent), parent, 0)
  {
  }

  // ---- The whole blame ----------------------------------------------------

  /** The groups cover the file from its first line to its last, once. */
  ghost predicate Tiles(groups: seq<Group>, n: nat) {
    if n == 0 then groups == []
    else
      && groups != [] && groups[0].start == 0 && End(groups[|groups| - 1]) == n
      && (forall j :: 0 <= j < |groups| ==> groups[j].num > 0)
      && (forall j :: 0 <= j < |groups| - 1 ==>
            End(groups[j]) == groups[j + 1].start && !Joins(groups[j], groups[j + 1]))
  }

  /** If `g` covers line `l` of `file`, then its commit's copy has the same text at
      the line it names, and no parent's copy accounts for it. */
  ghost predicate Blames<T(!new)>(w: World<T>, g: Group, l: int, file: seq<T>) {
    Spans(g, l) && 0 <= l < |file| ==>
      var s := g.origStart + (l - g.start);
      && g.commit in w.copies
      && s < |w.text(w.copies[g.commit].blob)| && w.text(w.copies[g.commit].blob)[s] == file[l]
      && Guilty(w, Origin(g.commit, w.copies[g.commit], []), s)
  }

  lemma GroupBlames<T(!new)>(w: World<T>, b: Board<T>, groups: seq<Group>)
    requires Consistent(w, b, -1) && Reports(groups, b.origins, b.owner)
    ensures forall j, l :: 0 <= j < |groups| ==> Blames(w, groups[j], l, b.file)
  {
    forall j, l | 0 <= j < |groups| && Spans(groups[j], l) && 0 <= l < |b.file|
      ensures Blames(w, groups[j], l, b.file)
    {
      assert Truly(groups[j], l, b.origins, b.owner);
      var o := b.origins[b.owner[l].origin];
      GuiltyKept(w, o, Origin(o.commit, o.copy, []), b.owner[l].line);
    }
  }

  lemma AllTile<T(!new)>(w: World<T>, b: Board<T>, groups: seq<Group>)
    requires Consistent(w, b, -1) && b.file != []
    requires WellGrouped(groups) && Reports(groups, b.origins, b.owner)
    requires forall l :: 0 <= l < |b.owner| ==> b.owner[l].Settled?
    ensures Tiles(groups, |b.file|)
  {
    GroupsTile(groups, b.origins, b.owner);
  }

  /** If `g` covers line `l`, it names the commit and line the history alone says. */
  ghost predicate Attributes<T>(w: World<T>, head: nat, g: Group, l: int) {
    Spans(g, l) ==>
      head in w.copies && (g.commit, g.origStart + (l - g.start)) == BlamedOn(w, w.copies[head].kind, head, l)
  }

  lemma GroupsAttribute<T>(w: World<T>, head: nat, origins0: seq<Origin>, owner0: seq<Owner>,
                           origins: seq<Origin>, owner: seq<Owner>, groups: seq<Group>)
    requires Started(w, head, origins0, owner0) && Keeps(w, w.copies[head].kind, origins0, owner0, origins, owner)
    requires Reports(groups, origins, owner)
    ensures FiltersReadable(w) ==> forall j, l :: 0 <= j < |groups| ==> Attributes(w, head, groups[j], l)
  {
    if FiltersReadable(w) {
      forall j, l | 0 <= j < |groups| && Spans(groups[j], l) ensures Attributes(w, head, groups[j], l) {
        assert Truly(groups[j], l, origins, owner);
        assert KeepsLine(w, w.copies[head].kind, origins0, owner0[l], origins, owner[l]);
      }
    }
  }

  /** Groups that tile the file, are as long as they can be, and say the same of every
      line are the same groups. */
  lemma {:induction false} SameGroups<T>(w: World<T>, head: nat, a: seq<Group>, b: seq<Group>, n: nat, k: nat)
    requires Tiles(a, n) && Tiles(b, n) && k <= |a|
    requires forall j, l :: 0 <= j < |a| ==> Attributes(w, head, a[j], l)
    requires forall j, l :: 0 <= j < |b| ==> Attributes(w, head, b[j], l)
    requires forall j :: 0 <= j < |a| ==> a[j].parent == FirstParent(w, a[j].commit)
    requires forall j :: 0 <= j < |b| ==> b[j].parent == FirstParent(w, b[j].commit)
    ensures k <= |b| && a[..k] == b[..k]
  {
    if k > 0 {
      SameGroups(w, head, a, b, n, k - 1);
      SameNext(w, head, a, b, n, k - 1);
    }
  }

  /** Two such lists alike so far go on alike. */
  lemma SameNext<T>(w: World<T>, head: nat, a: seq<Group>, b: seq<Group>, n: nat, k: nat)
    requires Tiles(a, n) && Tiles(b, n) && k < |a| && k <= |b| && a[..k] == b[..k]
    requires forall j, l :: 0 <= j < |a| ==> Attributes(w, head, a[j], l)
    requires forall j, l :: 0 <= j < |b| ==> Attributes(w, head, b[j], l)
    requires forall j :: 0 <= j < |a| ==> a[j].parent == FirstParent(w, a[j].commit)
    requires forall j :: 0 <= j < |b| ==> b[j].parent == FirstParent(w, b[j].commit)
    ensures k < |b| && a[k] == b[k]
  {
    MoreLeft(a, b, n, k);
    StartsAt(a, n, k);
    StartsAt(b, n, k);
    assert k > 0 ==> a[k - 1] == a[..k][k - 1] == b[..k][k - 1] == b[k - 1];
    var l := a[k].start;
    assert Attributes(w, head, a[k], l) && Attributes(w, head, b[k], l);
    Shorter(w, head, a, b, n, k);
    Shorter(w, head, b, a, n, k);
  }

  lemma MoreLeft(a: seq<Group>, b: seq<Group>, n: nat, k: nat)
    requires Tiles(a, n) && Tiles(b, n) && k < |a| && k <= |b| && a[..k] == b[..k]
    ensures k < |b|
  {
    EndsWithin(a, n, k);
    if k > 0 { assert a[k - 1] == a[..k][k - 1] == b[..k][k - 1]; }
  }

  lemma StartsAt(a: seq<Group>, n: nat, k: nat)
    requires Tiles(a, n) && k < |a|
    ensures a[k].start == if k == 0 then 0 else End(a[k - 1])
  {
  }

  /** A group cannot stop short of another that starts with it. */
  lemma Shorter<T>(w: World<T>, head: nat, a: seq<Group>, b: seq<Group>, n: nat, k: nat)
    requires Tiles(a, n) && Tiles(b, n) && k < |a| && k < |b|
    requires a[k].start == b[k].start && a[k].commit == b[k].commit && a[k].origStart == b[k].origStart
    requires forall j, l :: 0 <= j < |a| ==> Attributes(w, head, a[j], l)
    requires forall j, l :: 0 <= j < |b| ==> Attributes(w, head, b[j], l)
    ensures a[k].num >= b[k].num
  {
    if a[k].num < b[k].num {
      var l := End(a[k]);
      EndsWithin(b, n, k);
      if k + 1 < |a| {
        assert Attributes(w, head, a[k + 1], l) && Attributes(w, head, b[k], l);
        assert Joins(a[k], a[k + 1]);
      }
    }
  }

  lemma {:induction false} EndsWithin(b: seq<Group>, n: nat, k: nat)
    requires Tiles(b, n) && k < |b|
    ensures End(b[k]) <= n
    decreases |b| - k
  {
    if k + 1 < |b| { EndsWithin(b, n, k + 1); }
  }

  /** Blame with filters and blame that looks at every parent's tree report the same
      groups. */
  lemma FiltersChangeNothing<T>(w: World<T>, head: nat, a: seq<Group>, b: seq<Group>, n: nat)
    requires Tiles(a, n) && Tiles(b, n)
    requires forall j, l :: 0 <= j < |a| ==> Attributes(w, head, a[j], l)
    requires forall j, l :: 0 <= j < |b| ==> Attributes(Unfiltered(w), head, b[j], l)
    requires forall j :: 0 <= j < |a| ==> a[j].parent == FirstParent(w, a[j].commit)
    requires forall j :: 0 <= j < |b| ==> b[j].parent == FirstParent(Unfiltered(w), b[j].commit)
    ensures a == b
  {
    forall j, l | 0 <= j < |b| ensures Attributes(w, head, b[j], l) {
      assert Attributes(Unfiltered(w), head, b[j], l);
      if head in w.copies { BlamedUnfiltered(w, w.copies[head].kind, head, l); }
    }
    SameGroups(w, head, a, b, n, |a|);
    SameGroups(w, head, b, a, n, |b|);
  }

  /** They can differ where a filter vouches for a parent whose tree cannot be read:
      the filter lets the search go on through it, and without the filter the search
      stops before it. */
  lemma FilterSeesFurther<T(!new)>(w: World<T>, head: nat, parent: nat, a: seq<Group>, b: seq<Group>)
    requires Sound(w) && head in w.parents && head in w.copies && head in w.ruledOut && w.parents[head] == [parent]
    requires parent in w.parents && parent !in w.trees
    requires var file := w.text(w.copies[head].blob);
             && file != [] && Tiles(a, |file|) && Tiles(b, |file|)
             && (forall j, l :: 0 <= j < |a| ==> Blames(w, a[j], l, file))
             && (forall j, l :: 0 <= j < |b| ==> Attributes(Unfiltered(w), head, b[j], l))
    ensures a[0].commit != head && b[0].commit == head
  {
    var file := w.text(w.copies[head].blob);
    EndsWithin(a, |file|, 0);
    assert Blames(w, a[0], 0, file) && Attributes(Unfiltered(w), head, b[0], 0);
    if a[0].commit == head {
      assert Findable(w, parent, Origin(head, w.copies[head], []), true);
    }
    NotFollowed(Unfiltered(w), w.copies[head].kind, head, 0);
  }

  /** So where only the head's filter is in question, the two agree just if its parent's
      tree can be read. What is required of the groups is what blame ensures. */
  lemma FiltersMatter<T(!new)>(w: World<T>, head: nat, parent: nat, a: seq<Group>, b: seq<Group>)
    requires Sound(w) && head in w.parents && head in w.copies && head in w.ruledOut && w.parents[head] == [parent]
    requires parent in w.parents && FiltersReadable(w.(ruledOut := w.ruledOut - {head}))
    requires var file := w.text(w.copies[head].blob);
             && file != [] && Tiles(a, |file|) && Tiles(b, |file|)
             && (forall j, l :: 0 <= j < |a| ==> Blames(w, a[j], l, file))
    requires FiltersReadable(w) ==> forall j, l :: 0 <= j < |a| ==> Attributes(w, head, a[j], l)
    requires forall j, l :: 0 <= j < |b| ==> Attributes(Unfiltered(w), head, b[j], l)
    requires forall j :: 0 <= j < |a| ==> a[j].parent == FirstParent(w, a[j].commit)
    requires forall j :: 0 <= j < |b| ==> b[j].parent == FirstParent(Unfiltered(w), b[j].commit)
    ensures a == b <==> parent in w.trees
  {
    if parent in w.trees {
      assert FiltersReadable(w);
      FiltersChangeNothing(w, head, a, b, |w.text(w.copies[head].blob)|);
    } else {
      FilterSeesFurther(w, head, parent, a, b);
    }
  }

  /** A line is not followed to parents that cannot be read. */
  lemma {:induction false} NotFollowed<T>(w: World<T>, kind: Kind, c: nat, s: int)
    requires c in w.parents && c in w.copies
    requires forall k :: 0 <= k < |w.parents[c]| ==> !Has(w, kind, w.parents[c][k])
    ensures BlamedOn(w, kind, c, s) == (c, s)
  {
    NoneHas(w, kind, c, s, |w.parents[c]|);
  }

  lemma {:induction false} NoneHas<T>(w: World<T>, kind: Kind, c: nat, s: int, n: nat)
    requires c in w.parents && c in w.copies && n <= |w.parents[c]|
    requires forall k :: 0 <= k < |w.parents[c]| ==> !Has(w, kind, w.parents[c][k])
    ensures SameTo(w, kind, c, n).None? && TakerTo(w, kind, c, s, n).None?
  {
    if n > 0 { NoneHas(w, kind, c, s, n - 1); }
  }

  /** Blame the file as of `head`. */
  method BlameFile<T(!new)>(w: World<T>, head: nat) returns (r: Result<seq<Group>>)
    requires Sound(w)
    ensures r.Ok? ==>
              && head in w.copies && Tiles(r.value, |w.text(w.copies[head].blob)|)
              && (forall j, l :: 0 <= j < |r.value| ==> Blames(w, r.value[j], l, w.text(w.copies[head].blob)))
              && (forall j :: 0 <= j < |r.value| ==>
                    if r.value[j].commit in w.parents && |w.parents[r.value[j].commit]| > 0
                    then r.value[j].parent == Some(w.parents[r.value[j].commit][0])
                    else r.value[j].parent == None)
    ensures r.Ok? && FiltersReadable(w) ==> forall j, l :: 0 <= j < |r.value| ==> Attributes(w, head, r.value[j], l)
    ensures r.Err? && r.error != DiffFailed <==>
            head !in w.parents || head !in w.trees || head !in w.copies || w.copies[head].blob !in w.blobs
    ensures r == Err(DiffFailed) ==> CanFail(w)
  {
    var sb := new Scoreboard(w);
    var n := sb.Setup(head);
    if n.Err? {
      return Err(n.error);
    }
    if n.value == 0 {
      return Ok([]);
    }
    ghost var origins, owner := sb.origins, sb.owner;
    var ok := sb.AssignBlame(w.copies[head].kind);
    if !ok {
      return Err(DiffFailed);
    }
    var groups := sb.Groups();
    GroupBlames(w, sb.State(), groups);
    AllTile(w, sb.State(), groups);
    GroupsAttribute(w, head, origins, owner, sb.origins, sb.owner, groups);
    r := Ok(groups);
  }

  /** Such a history: commit 1 leaves its parent's file as it was, as its filter says,
      and the parent's tree cannot be read. */
  function HiddenParent(): (w: World<char>)
    ensures Sound(w) && !FiltersReadable(w)
  {
    var copy := Copy(7, File);
    World(map[0 := [], 1 := [0]], map[0 := copy, 1 := copy], {1}, {7}, {1}, b => "x", (a, b) => None, (c: nat) => c)
  }

  lemma NothingToCompare()
    ensures !CanFail(HiddenParent()) && !CanFail(Unfiltered(HiddenParent()))
  {
    var w := HiddenParent();
    forall c, k ensures !DiffFails(w, c, k) && !DiffFails(Unfiltered(w), c, k) {
    }
  }

  method WithAndWithout() returns (filtered: Result<seq<Group>>, plain: Result<seq<Group>>)
    ensures filtered.Ok? && plain.Ok? && filtered.value != plain.value
  {
    var w := HiddenParent();
    NothingToCompare();
    filtered := BlameFile(w, 1);
    plain := BlameFile(Unfiltered(w), 1);
    FilterSeesFurther(w, 1, 0, filtered.value, plain.value);
  }
}
