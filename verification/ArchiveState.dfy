/** The archive walk's state as values: what its frames, slots and pools hold, and
how each step keeps them in agreement with the listing they will become. */
module ArchiveState {
  import opened Bytes
  import opened Wildmatch
  import opened Attributes
  import opened Archive

  const MAX_IN_FLIGHT: nat := 48
  const MAX_TREES_IN_FLIGHT: nat := 48

  /** A directory still to be read, and the frame its nodes go in. */
  datatype Pending = Pending(frame: nat, path: seq<Byte>, attrs: Stack)

  /** An archive entry to be: what it holds is looked up by the frame or slot it names. */
  datatype Node =
    | Dir(path: seq<Byte>, frame: nat)
    | FileNode(path: seq<Byte>, executable: bool, slot: nat)
    | LinkNode(path: seq<Byte>, slot: nat)

  datatype Error = FetchFailed | WrongType | TooLarge

  /** What a frame is for: the contents of a directory, or nothing for a gitlink. */
  datatype Job = Read(tree: Object, path: seq<Byte>, attrs: Stack) | Nothing
  datatype Status = Waiting | Reading | Done

  /** The walk's plan: each frame's job and how far it is, each slot's blob, and
      the frame each belongs in. */
  datatype Plan = Plan(jobs: seq<Job>, status: seq<Status>, parentOf: seq<nat>,
                       slots: seq<Object>, homeOf: seq<nat>)

  // ---- Agreement ----------------------------------------------------------

  ghost predicate Shape(p: Plan, frames: seq<seq<Node>>, fetched: seq<Option<seq<Byte>>>) {
    && |frames| == |p.jobs| == |p.status| == |p.parentOf| > 0
    && |fetched| == |p.slots| == |p.homeOf|
    && (forall x :: 0 < x < |p.jobs| ==> p.parentOf[x] < x)
    && (forall s :: 0 <= s < |p.homeOf| ==> p.homeOf[s] < |p.jobs|)
  }

  /** Node `n` of frame `f` stands for the entry `e`. */
  ghost predicate NodeFor(n: Node, e: TreeEntry, prefix: seq<Byte>, inner: Stack, f: nat, p: Plan) {
    && n.path == Join(prefix, e.name)
    && match n
       case Dir(path, c) =>
         && IsDir(e.kind) && 0 < c < |p.jobs| && c < |p.parentOf| && p.parentOf[c] == f
         && p.jobs[c] == if e.kind == Subtree then Read(e.target, path, inner) else Nothing
       case FileNode(_, x, s) =>
         && e.kind == (if x then Executable else BlobFile)
         && s < |p.slots| && s < |p.homeOf| && p.slots[s] == e.target && p.homeOf[s] == f
       case LinkNode(_, s) =>
         && e.kind == Symlink
         && s < |p.slots| && s < |p.homeOf| && p.slots[s] == e.target && p.homeOf[s] == f
  }

  predicate SameRef(a: Node, b: Node) {
    if a.Dir? then b.Dir? && a.frame == b.frame else !b.Dir? && a.slot == b.slot
  }

  /** `nodes` stands for the first of the kept entries, each by a frame or slot of
      its own. */
  ghost predicate NodesFor(nodes: seq<Node>, kept: seq<TreeEntry>, prefix: seq<Byte>, inner: Stack, f: nat, p: Plan) {
    && |nodes| <= |kept|
    && (forall k :: 0 <= k < |nodes| ==> NodeFor(nodes[k], kept[k], prefix, inner, f, p))
    && (forall j, k :: 0 <= j < k < |nodes| ==> !SameRef(nodes[j], nodes[k]))
  }

  ghost predicate NamesFrame(nodes: seq<Node>, c: nat) {
    exists k :: 0 <= k < |nodes| && nodes[k].Dir? && nodes[k].frame == c
  }

  ghost predicate NamesSlot(nodes: seq<Node>, s: nat) {
    exists k :: 0 <= k < |nodes| && !nodes[k].Dir? && nodes[k].slot == s
  }

  /** Every frame and slot that belongs in frame `f` is named by one of its nodes. */
  ghost predicate AllNamed(p: Plan, f: nat, nodes: seq<Node>) {
    && (forall c :: 0 < c < |p.parentOf| && p.parentOf[c] == f ==> NamesFrame(nodes, c))
    && (forall s :: 0 <= s < |p.homeOf| && p.homeOf[s] == f ==> NamesSlot(nodes, s))
  }

  lemma NamedDir(p: Plan, f: nat, nodes: seq<Node>, job: Job, node: Node)
    requires AllNamed(p, f, nodes) && node.Dir? && node.frame == |p.parentOf|
    ensures AllNamed(AddDir(p, job, f), f, nodes + [node])
  {
    var all := nodes + [node];
    assert all[|nodes|] == node;
    forall c | NamesFrame(nodes, c) ensures NamesFrame(all, c) {
      var k :| 0 <= k < |nodes| && nodes[k].Dir? && nodes[k].frame == c;
      assert all[k] == nodes[k];
    }
    forall s | NamesSlot(nodes, s) ensures NamesSlot(all, s) {
      var k :| 0 <= k < |nodes| && !nodes[k].Dir? && nodes[k].slot == s;
      assert all[k] == nodes[k];
    }
  }

  lemma NamedSlot(p: Plan, f: nat, nodes: seq<Node>, o: Object, node: Node)
    requires AllNamed(p, f, nodes) && !node.Dir? && node.slot == |p.homeOf|
    ensures AllNamed(AddSlot(p, o, f), f, nodes + [node])
  {
    var all := nodes + [node];
    assert all[|nodes|] == node;
    forall c | NamesFrame(nodes, c) ensures NamesFrame(all, c) {
      var k :| 0 <= k < |nodes| && nodes[k].Dir? && nodes[k].frame == c;
      assert all[k] == nodes[k];
    }
    forall s | NamesSlot(nodes, s) ensures NamesSlot(all, s) {
      var k :| 0 <= k < |nodes| && !nodes[k].Dir? && nodes[k].slot == s;
      assert all[k] == nodes[k];
    }
  }

  ghost predicate FrameOK(parse: Parser, p: Plan, frames: seq<seq<Node>>, f: nat)
    requires f < |p.jobs| && f < |p.status| && f < |frames|
  {
    && (p.status[f] != Reading ==> AllNamed(p, f, frames[f]))
    && match p.jobs[f]
       case Nothing => p.status[f] == Done && frames[f] == []
       case Read(tree, path, attrs) =>
         if p.status[f] == Done then
           && tree.Tree?
           && |frames[f]| == |KeptAll(parse, tree, path, attrs)|
           && NodesFor(frames[f], KeptAll(parse, tree, path, attrs), path, Inner(parse, tree, path, attrs), f, p)
         else frames[f] == []
  }

  ghost predicate FramesOK(parse: Parser, p: Plan, frames: seq<seq<Node>>, reading: int)
    requires |p.jobs| == |p.status| == |frames|
  {
    && (forall f :: 0 <= f < |frames| ==> FrameOK(parse, p, frames, f))
    && (forall f :: 0 <= f < |p.status| ==> (p.status[f] == Reading <==> f == reading))
  }

  type Task = (Pending, Object)

  ghost predicate IsWaiting(p: Plan, t: Task) {
    && t.0.frame < |p.jobs| && t.0.frame < |p.status|
    && p.status[t.0.frame] == Waiting && p.jobs[t.0.frame] == Read(t.1, t.0.path, t.0.attrs)
  }

  /** Each waiting directory is in exactly one of the backlog, the pool and the
      landed queue, once. */
  ghost predicate TreePool(p: Plan, backlog: seq<Task>, trees: seq<Task>, landed: seq<Task>) {
    && (forall t: Task :: (multiset(backlog) + multiset(trees) + multiset(landed))[t] == Bit(IsWaiting(p, t)))
    && (forall k :: 0 <= k < |landed| ==> landed[k].1.Tree?)
  }

  type Fetch = (nat, Object)

  ghost predicate IsFetching(p: Plan, fetched: seq<Option<seq<Byte>>>, b: Fetch, exc: int) {
    b.0 < |p.slots| && b.0 < |fetched| && fetched[b.0].None? && p.slots[b.0] == b.1 && b.0 != exc
  }

  /** Each slot is filled with its blob's bytes, or its fetch is in the pool, once;
      `exc` is a slot just reserved. */
  ghost predicate BlobPool(p: Plan, fetched: seq<Option<seq<Byte>>>, blobs: seq<Fetch>, exc: int) {
    && (forall b: Fetch :: multiset(blobs)[b] == Bit(IsFetching(p, fetched, b, exc)))
    && (forall s :: 0 <= s < |fetched| && s < |p.slots| && fetched[s].Some? ==> p.slots[s] == Blob(fetched[s].value))
  }

  ghost function SlotBytes(slots: seq<Object>): nat {
    if slots == [] then 0 else SlotBytes(slots[..|slots| - 1]) + |Data(slots[|slots| - 1])|
  }

  ghost function Filled(fetched: seq<Option<seq<Byte>>>): nat {
    if fetched == [] then 0
    else
      var last := fetched[|fetched| - 1];
      Filled(fetched[..|fetched| - 1]) + if last.Some? then |last.value| else 0
  }

  /** What the directories still waiting will cost. */
  ghost function Wait(dirs: bool, parse: Parser, jobs: seq<Job>, status: seq<Status>): nat
    requires |jobs| == |status|
  {
    if jobs == [] then 0
    else
      var n := |jobs| - 1;
      Wait(dirs, parse, jobs[..n], status[..n]) +
      if status[n] == Waiting && jobs[n].Read? then Cost(dirs, parse, jobs[n].tree, jobs[n].path, jobs[n].attrs) else 0
  }

  /** The bytes counted so far are those in the slots, and with what the waiting
      directories and the one being read still hold they make up the total. */
  ghost predicate Books(parse: Parser, p: Plan, fetched: seq<Option<seq<Byte>>>, bytes: nat, rest: nat, total: nat) {
    && |p.jobs| == |p.status|
    && bytes == Filled(fetched) && bytes <= MAX_ARCHIVE_BYTES
    && SlotBytes(p.slots) + Wait(false, parse, p.jobs, p.status) + rest == total
  }

  /** Every job is a valid tree; and if the archive is well typed so is each part. */
  ghost predicate JobsOK(parse: Parser, p: Plan, typed: bool) {
    && (forall f :: 0 <= f < |p.jobs| && p.jobs[f].Read? ==>
          && ValidTree(p.jobs[f].tree) && NulFree(p.jobs[f].path)
          && (typed ==> Typed(parse, p.jobs[f].tree, p.jobs[f].path, p.jobs[f].attrs)))
    && (typed ==> forall s :: 0 <= s < |p.slots| ==> p.slots[s].Blob?)
  }

  // ---- Sums ---------------------------------------------------------------

  lemma {:induction false} FilledSet(fetched: seq<Option<seq<Byte>>>, s: nat, data: seq<Byte>)
    requires s < |fetched| && fetched[s].None?
    ensures Filled(fetched[s := Some(data)]) == Filled(fetched) + |data|
  {
    var n := |fetched| - 1;
    if s < n {
      FilledSet(fetched[..n], s, data);
      assert fetched[s := Some(data)][..n] == fetched[..n][s := Some(data)];
    } else {
      assert fetched[s := Some(data)][..n] == fetched[..n];
    }
  }

  /** What is filled is at most what the slots will hold, and all of it once every
      slot is filled. */
  lemma {:induction false} FilledWithin(slots: seq<Object>, fetched: seq<Option<seq<Byte>>>)
    requires |slots| == |fetched|
    requires forall s :: 0 <= s < |fetched| && fetched[s].Some? ==> slots[s] == Blob(fetched[s].value)
    ensures Filled(fetched) <= SlotBytes(slots)
    ensures (forall s :: 0 <= s < |fetched| ==> fetched[s].Some?) ==> Filled(fetched) == SlotBytes(slots)
  {
    if slots != [] {
      var n := |slots| - 1;
      FilledWithin(slots[..n], fetched[..n]);
    }
  }

  lemma {:induction false} WaitSet(dirs: bool, parse: Parser, jobs: seq<Job>, status: seq<Status>, f: nat, s: Status)
    requires |jobs| == |status| && f < |jobs| && status[f] != s
    ensures var cost := if jobs[f].Read? then Cost(dirs, parse, jobs[f].tree, jobs[f].path, jobs[f].attrs) else 0;
            Wait(dirs, parse, jobs, status[f := s]) + (if status[f] == Waiting then cost else 0)
            == Wait(dirs, parse, jobs, status) + (if s == Waiting then cost else 0)
  {
    var n := |jobs| - 1;
    if f < n {
      WaitSet(dirs, parse, jobs[..n], status[..n], f, s);
      assert status[f := s][..n] == status[..n][f := s];
    } else {
      assert status[f := s][..n] == status[..n];
    }
  }

  lemma {:induction false} WaitNone(parse: Parser, jobs: seq<Job>, status: seq<Status>)
    requires |jobs| == |status| && forall f :: 0 <= f < |status| ==> status[f] != Waiting
    ensures Wait(false, parse, jobs, status) == 0
  {
    if jobs != [] { WaitNone(parse, jobs[..|jobs| - 1], status[..|jobs| - 1]); }
  }

  // ---- Pools --------------------------------------------------------------

  function RemoveAt<T>(s: seq<T>, k: nat): seq<T>
    requires k < |s|
  {
    s[..k] + s[k + 1..]
  }

  lemma RemoveAtCounts<T>(s: seq<T>, k: nat)
    requires k < |s|
    ensures multiset(s) == multiset(RemoveAt(s, k)) + multiset{s[k]}
  {
    assert s == s[..k] + [s[k]] + s[k + 1..];
  }

  lemma BlobLands(p: Plan, fetched: seq<Option<seq<Byte>>>, blobs: seq<Fetch>, exc: int, k: nat)
    requires BlobPool(p, fetched, blobs, exc) && k < |blobs| && blobs[k].1.Blob?
    ensures var b := blobs[k];
            && b.0 < |fetched| && b.0 < |p.slots| && fetched[b.0].None? && b.0 != exc
            && BlobPool(p, fetched[b.0 := Some(b.1.data)], RemoveAt(blobs, k), exc)
  {
    var b := blobs[k];
    RemoveAtCounts(blobs, k);
    assert multiset(blobs)[b] > 0;
    assert IsFetching(p, fetched, b, exc);
    var after := fetched[b.0 := Some(b.1.data)];
    forall c: Fetch ensures multiset(RemoveAt(blobs, k))[c] == Bit(IsFetching(p, after, c, exc)) {
      assert multiset(blobs)[c] == Bit(IsFetching(p, fetched, c, exc));
    }
  }

  /** The slot set aside is filled, or its fetch joins the pool. */
  lemma SlotSettled(p: Plan, fetched: seq<Option<seq<Byte>>>, blobs: seq<Fetch>, s: nat)
    requires s < |p.slots| && s < |fetched| && fetched[s].None? && BlobPool(p, fetched, blobs, s)
    ensures BlobPool(p, fetched, blobs + [(s, p.slots[s])], -1)
    ensures p.slots[s].Blob? ==> BlobPool(p, fetched[s := Some(p.slots[s].data)], blobs, -1)
  {
    forall b: Fetch ensures multiset(blobs + [(s, p.slots[s])])[b] == Bit(IsFetching(p, fetched, b, -1)) {
      assert multiset(blobs)[b] == Bit(IsFetching(p, fetched, b, s));
    }
    if p.slots[s].Blob? {
      var after := fetched[s := Some(p.slots[s].data)];
      forall b: Fetch ensures multiset(blobs)[b] == Bit(IsFetching(p, after, b, -1)) {
        assert multiset(blobs)[b] == Bit(IsFetching(p, fetched, b, s));
      }
    }
  }

  /** With an empty pool every slot is filled. */
  lemma PoolEmpty(p: Plan, fetched: seq<Option<seq<Byte>>>)
    requires |p.slots| == |fetched| && BlobPool(p, fetched, [], -1)
    ensures forall s :: 0 <= s < |fetched| ==> fetched[s].Some?
  {
    forall s | 0 <= s < |fetched| ensures fetched[s].Some? {
      var b: Fetch := (s, p.slots[s]);
      var none: seq<Fetch> := [];
      assert multiset(none)[b] == Bit(IsFetching(p, fetched, b, -1));
    }
  }

  /** Moving tasks between the lists changes nothing. */
  lemma TasksMove(p: Plan, backlog: seq<Task>, trees: seq<Task>, landed: seq<Task>,
                  backlog': seq<Task>, trees': seq<Task>, landed': seq<Task>)
    requires TreePool(p, backlog, trees, landed)
    requires multiset(backlog') + multiset(trees') + multiset(landed') ==
               multiset(backlog) + multiset(trees) + multiset(landed)
    requires forall k :: 0 <= k < |landed'| ==> landed'[k].1.Tree?
    ensures TreePool(p, backlog', trees', landed')
  {
    forall t: Task
      ensures (multiset(backlog') + multiset(trees') + multiset(landed'))[t] == Bit(IsWaiting(p, t))
    {
      assert (multiset(backlog) + multiset(trees) + multiset(landed))[t] == Bit(IsWaiting(p, t));
    }
  }

  /** Taking the first landed directory to read it. */
  lemma TaskTaken(p: Plan, backlog: seq<Task>, trees: seq<Task>, landed: seq<Task>)
    requires TreePool(p, backlog, trees, landed) && landed != [] && |p.jobs| == |p.status|
    ensures IsWaiting(p, landed[0])
    ensures TreePool(p.(status := p.status[landed[0].0.frame := Reading]), backlog, trees, landed[1..])
  {
    var t0 := landed[0];
    assert landed == [t0] + landed[1..];
    assert (multiset(backlog) + multiset(trees) + multiset(landed))[t0] == Bit(IsWaiting(p, t0));
    var p' := p.(status := p.status[t0.0.frame := Reading]);
    forall t: Task
      ensures (multiset(backlog) + multiset(trees) + multiset(landed[1..]))[t] == Bit(IsWaiting(p', t))
    {
      assert (multiset(backlog) + multiset(trees) + multiset(landed))[t] == Bit(IsWaiting(p, t));
    }
  }

  lemma TasksGone(p: Plan)
    requires TreePool(p, [], [], []) && |p.jobs| == |p.status|
    requires forall f :: 0 <= f < |p.jobs| && p.status[f] == Waiting ==> p.jobs[f].Read?
    ensures forall f :: 0 <= f < |p.status| ==> p.status[f] != Waiting
  {
    forall f | 0 <= f < |p.status| && p.jobs[f].Read? ensures p.status[f] != Waiting {
      var t: Task := (Pending(f, p.jobs[f].path, p.jobs[f].attrs), p.jobs[f].tree);
      var none: seq<Task> := [];
      assert (multiset(none) + multiset(none) + multiset(none))[t] == Bit(IsWaiting(p, t));
    }
  }

  // ---- Growing the plan ---------------------------------------------------

  /** `p'` is `p` with more frames and slots, the old ones as they were. */
  ghost predicate Grows(p: Plan, p': Plan) {
    p.jobs <= p'.jobs && p.status <= p'.status && p.parentOf <= p'.parentOf && p.slots <= p'.slots
      && p.homeOf <= p'.homeOf
  }

  lemma NodesForGrows(nodes: seq<Node>, kept: seq<TreeEntry>, prefix: seq<Byte>, inner: Stack, f: nat, p: Plan,
                      p': Plan)
    requires NodesFor(nodes, kept, prefix, inner, f, p) && Grows(p, p')
    ensures NodesFor(nodes, kept, prefix, inner, f, p')
  {
  }

  /** What is new belongs in frame `reading`, which was there before. */
  ghost predicate NewIn(p: Plan, p': Plan, reading: int) {
    && reading < |p.parentOf|
    && (forall c :: |p.parentOf| <= c < |p'.parentOf| ==> p'.parentOf[c] == reading)
    && (forall c :: 0 < c < |p'.parentOf| ==> p'.parentOf[c] < |p.parentOf|)
    && (forall s :: |p.homeOf| <= s < |p'.homeOf| ==> p'.homeOf[s] == reading)
    && (forall s :: 0 <= s < |p'.homeOf| ==> p'.homeOf[s] < |p.parentOf|)
  }

  lemma NamedKept(p: Plan, p': Plan, frames: seq<seq<Node>>, f: nat, reading: int)
    requires Grows(p, p') && NewIn(p, p', reading) && f < |frames|
    ensures f != reading && f < |p.parentOf| && AllNamed(p, f, frames[f]) ==> AllNamed(p', f, frames[f])
    ensures f >= |p.parentOf| ==> AllNamed(p', f, frames[f])
  {
  }

  lemma FramesGrow(parse: Parser, p: Plan, p': Plan, frames: seq<seq<Node>>, frames': seq<seq<Node>>, reading: int)
    requires |p.parentOf| == |p.jobs| == |p.status| == |frames| && |p'.jobs| == |p'.status| == |frames'|
    requires FramesOK(parse, p, frames, reading) && Grows(p, p') && frames <= frames'
    requires forall f :: |frames| <= f < |frames'| ==>
               frames'[f] == [] && f != reading && p'.status[f] == if p'.jobs[f].Read? then Waiting else Done
    requires NewIn(p, p', reading)
    ensures FramesOK(parse, p', frames', reading)
  {
    forall f | 0 <= f < |frames'| ensures FrameOK(parse, p', frames', f) {
      NamedKept(p, p', frames', f, reading);
      if f < |frames| {
        assert FrameOK(parse, p, frames, f);
        if p.status[f] == Done && p.jobs[f].Read? {
          var j := p.jobs[f];
          NodesForGrows(frames[f], KeptAll(parse, j.tree, j.path, j.attrs), j.path,
                        Inner(parse, j.tree, j.path, j.attrs), f, p, p');
        }
      }
    }
  }

  /** The plan with one more directory, below frame `f`. */
  function AddDir(p: Plan, job: Job, f: nat): Plan {
    p.(jobs := p.jobs + [job], status := p.status + [if job.Read? then Waiting else Done], parentOf := p.parentOf + [f])
  }

  function AddSlot(p: Plan, o: Object, f: nat): Plan {
    p.(slots := p.slots + [o], homeOf := p.homeOf + [f])
  }

  lemma AddDirPool(p: Plan, backlog: seq<Task>, trees: seq<Task>, landed: seq<Task>, job: Job, f: nat)
    requires TreePool(p, backlog, trees, landed) && |p.jobs| == |p.status|
    ensures job.Nothing? ==> TreePool(AddDir(p, job, f), backlog, trees, landed)
    ensures job.Read? ==>
              TreePool(AddDir(p, job, f), backlog + [(Pending(|p.jobs|, job.path, job.attrs), job.tree)], trees, landed)
  {
    var p' := AddDir(p, job, f);
    var more := if job.Read? then [(Pending(|p.jobs|, job.path, job.attrs), job.tree)] else [];
    forall t: Task
      ensures (multiset(backlog + more) + multiset(trees) + multiset(landed))[t] == Bit(IsWaiting(p', t))
    {
      assert (multiset(backlog) + multiset(trees) + multiset(landed))[t] == Bit(IsWaiting(p, t));
    }
    assert job.Nothing? ==> backlog + more == backlog;
  }

  lemma AddDirBlobs(p: Plan, fetched: seq<Option<seq<Byte>>>, blobs: seq<Fetch>, exc: int, job: Job, f: nat)
    requires BlobPool(p, fetched, blobs, exc)
    ensures BlobPool(AddDir(p, job, f), fetched, blobs, exc)
  {
    forall b: Fetch ensures multiset(blobs)[b] == Bit(IsFetching(AddDir(p, job, f), fetched, b, exc)) {
      assert multiset(blobs)[b] == Bit(IsFetching(p, fetched, b, exc));
    }
  }

  lemma AddSlotBlobs(p: Plan, fetched: seq<Option<seq<Byte>>>, blobs: seq<Fetch>, o: Object, f: nat)
    requires BlobPool(p, fetched, blobs, -1) && |p.slots| == |fetched|
    ensures BlobPool(AddSlot(p, o, f), fetched + [None], blobs, |p.slots|)
  {
    forall b: Fetch
      ensures multiset(blobs)[b] == Bit(IsFetching(AddSlot(p, o, f), fetched + [None], b, |p.slots|))
    {
      assert multiset(blobs)[b] == Bit(IsFetching(p, fetched, b, -1));
    }
  }

  lemma AddSlotTasks(p: Plan, backlog: seq<Task>, trees: seq<Task>, landed: seq<Task>, o: Object, f: nat)
    requires TreePool(p, backlog, trees, landed)
    ensures TreePool(AddSlot(p, o, f), backlog, trees, landed)
  {
    forall t: Task
      ensures (multiset(backlog) + multiset(trees) + multiset(landed))[t] == Bit(IsWaiting(AddSlot(p, o, f), t))
    {
      assert (multiset(backlog) + multiset(trees) + multiset(landed))[t] == Bit(IsWaiting(p, t));
    }
  }

  lemma AddDirWait(dirs: bool, parse: Parser, p: Plan, job: Job, f: nat)
    requires |p.jobs| == |p.status|
    ensures var p' := AddDir(p, job, f);
            Wait(dirs, parse, p'.jobs, p'.status) == Wait(dirs, parse, p.jobs, p.status) +
            if job.Read? then Cost(dirs, parse, job.tree, job.path, job.attrs) else 0
  {
    var p' := AddDir(p, job, f);
    assert p'.jobs[..|p.jobs|] == p.jobs && p'.status[..|p.jobs|] == p.status;
  }

  lemma AddSlotSums(p: Plan, fetched: seq<Option<seq<Byte>>>, o: Object, f: nat)
    ensures SlotBytes(AddSlot(p, o, f).slots) == SlotBytes(p.slots) + |Data(o)|
    ensures Filled(fetched + [None]) == Filled(fetched)
  {
    assert (p.slots + [o])[..|p.slots|] == p.slots;
    assert (fetched + [None])[..|fetched|] == fetched;
  }

  // ---- Entries ------------------------------------------------------------

  /** The kept entries up to `i` are the first of them all. */
  lemma {:induction false} KeptPrefix(entries: seq<TreeEntry>, i: nat, n: nat, prefix: seq<Byte>, attrs: Stack)
    requires i <= n <= |entries|
    ensures Kept(entries, i, prefix, attrs) <= Kept(entries, n, prefix, attrs)
    ensures i < n && !Ignored(entries[i], prefix, attrs) ==>
              var k := |Kept(entries, i, prefix, attrs)|;
              k < |Kept(entries, n, prefix, attrs)| && Kept(entries, n, prefix, attrs)[k] == entries[i]
    decreases n
  {
    if i < n { KeptPrefix(entries, i, n - 1, prefix, attrs); }
  }

  lemma JoinNulFree(prefix: seq<Byte>, name: seq<Byte>)
    requires NulFree(prefix) && NulFree(name)
    ensures NulFree(Join(prefix, name))
  {
  }
}
