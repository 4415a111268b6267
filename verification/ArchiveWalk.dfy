/** The concurrent archive walk. Any fetch in flight may land at any wait, in any
order, including in the middle of reading a directory; the result is the listing
all the same. */
module ArchiveWalk {
  import opened Bytes
  import opened Wildmatch
  import opened Attributes
  import opened Archive
  import opened ArchiveState
  import opened ArchiveFlatten

  /** A snapshot of the walk. */
  datatype State = State(
    blobs: seq<Fetch>, trees: seq<Task>, backlog: seq<Task>, landed: seq<Task>,
    frames: seq<seq<Node>>, fetched: seq<Option<seq<Byte>>>, bytes: nat, plan: Plan)

  /** What the walk is for: the attributes reader, the total to archive, whether
      everything is what its tree entry says, and whether a fetch may fail. */
  datatype Goal = Goal(parse: Parser, total: nat, typed: bool, canFail: bool)

  /** The walk is consistent, with frame `reading` being filled, slot `exc` just
      reserved, and `rest` bytes still to come from the directory being read. */
  ghost predicate OK(g: Goal, w: State, reading: int, exc: int, rest: nat) {
    && Shape(w.plan, w.frames, w.fetched)
    && FramesOK(g.parse, w.plan, w.frames, reading)
    && TreePool(w.plan, w.backlog, w.trees, w.landed)
    && BlobPool(w.plan, w.fetched, w.blobs, exc)
    && Books(g.parse, w.plan, w.fetched, w.bytes, rest, g.total)
    && JobsOK(g.parse, w.plan, g.typed)
    && |w.blobs| <= MAX_IN_FLIGHT && |w.trees| <= MAX_TREES_IN_FLIGHT
  }

  /** Each error says something true. */
  predicate Warranted(g: Goal, e: Option<Error>) {
    && (e == Some(TooLarge) ==> g.total > MAX_ARCHIVE_BYTES)
    && (e == Some(FetchFailed) ==> g.canFail)
    && (e == Some(WrongType) ==> !g.typed)
  }

  // ---- Steps --------------------------------------------------------------

  /** A blob in the pool: its slot is waiting for it. */
  lemma BlobInPool(g: Goal, w: State, reading: int, exc: int, rest: nat, k: nat)
    requires OK(g, w, reading, exc, rest) && k < |w.blobs|
    ensures var b := w.blobs[k];
            && b.0 < |w.fetched| && b.0 < |w.plan.slots| && w.fetched[b.0].None? && b.0 != exc
            && w.plan.slots[b.0] == b.1 && (g.typed ==> b.1.Blob?)
  {
    assert multiset(w.blobs)[w.blobs[k]] > 0;
    assert IsFetching(w.plan, w.fetched, w.blobs[k], exc);
  }

  /** Filling a slot never takes the count past the total. */
  lemma FillWithin(g: Goal, w: State, reading: int, exc: int, rest: nat, s: nat)
    requires OK(g, w, reading, exc, rest)
    requires s < |w.fetched| && w.fetched[s].None? && w.plan.slots[s].Blob?
    ensures var data := w.plan.slots[s].data;
            && Filled(w.fetched[s := Some(data)]) == w.bytes + |data| <= g.total
  {
    var data := w.plan.slots[s].data;
    FilledSet(w.fetched, s, data);
    FilledWithin(w.plan.slots, w.fetched[s := Some(data)]);
  }

  lemma BlobStored(g: Goal, w: State, reading: int, exc: int, rest: nat, k: nat)
    requires OK(g, w, reading, exc, rest) && k < |w.blobs| && w.blobs[k].1.Blob?
    requires w.bytes + |w.blobs[k].1.data| <= MAX_ARCHIVE_BYTES
    ensures var b := w.blobs[k];
            && b.0 < |w.fetched|
            && OK(g, w.(blobs := RemoveAt(w.blobs, k), fetched := w.fetched[b.0 := Some(b.1.data)],
                        bytes := w.bytes + |b.1.data|), reading, exc, rest)
  {
    BlobInPool(g, w, reading, exc, rest, k);
    FillWithin(g, w, reading, exc, rest, w.blobs[k].0);
    BlobLands(w.plan, w.fetched, w.blobs, exc, k);
  }

  lemma SlotFilled(g: Goal, w: State, reading: int, rest: nat, s: nat)
    requires OK(g, w, reading, s, rest)
    requires s < |w.fetched| && w.fetched[s].None? && w.plan.slots[s].Blob?
    requires w.bytes + |w.plan.slots[s].data| <= MAX_ARCHIVE_BYTES
    ensures var data := w.plan.slots[s].data;
            OK(g, w.(fetched := w.fetched[s := Some(data)], bytes := w.bytes + |data|), reading, -1, rest)
  {
    FillWithin(g, w, reading, s, rest, s);
    SlotSettled(w.plan, w.fetched, w.blobs, s);
  }

  lemma SlotFetched(g: Goal, w: State, reading: int, rest: nat, s: nat)
    requires OK(g, w, reading, s, rest) && |w.blobs| < MAX_IN_FLIGHT
    requires s < |w.fetched| && w.fetched[s].None?
    ensures OK(g, w.(blobs := w.blobs + [(s, w.plan.slots[s])]), reading, -1, rest)
  {
    SlotSettled(w.plan, w.fetched, w.blobs, s);
  }

  lemma TreeInPool(g: Goal, w: State, reading: int, exc: int, rest: nat, k: nat)
    requires OK(g, w, reading, exc, rest) && k < |w.trees|
    ensures g.typed ==> w.trees[k].1.Tree?
  {
    var t := w.trees[k];
    assert t in multiset(w.trees);
    assert (multiset(w.backlog) + multiset(w.trees) + multiset(w.landed))[t] == Bit(IsWaiting(w.plan, t));
  }

  lemma TreeStashed(g: Goal, w: State, reading: int, exc: int, rest: nat, k: nat)
    requires OK(g, w, reading, exc, rest) && k < |w.trees| && w.trees[k].1.Tree?
    ensures OK(g, w.(trees := RemoveAt(w.trees, k), landed := w.landed + [w.trees[k]]), reading, exc, rest)
  {
    RemoveAtCounts(w.trees, k);
    TasksMove(w.plan, w.backlog, w.trees, w.landed, w.backlog, RemoveAt(w.trees, k), w.landed + [w.trees[k]]);
  }

  lemma TreeIssued(g: Goal, w: State, reading: int, exc: int, rest: nat)
    requires OK(g, w, reading, exc, rest) && w.backlog != [] && |w.trees| < MAX_TREES_IN_FLIGHT
    ensures OK(g, w.(backlog := w.backlog[1..], trees := w.trees + [w.backlog[0]]), reading, exc, rest)
  {
    assert w.backlog == [w.backlog[0]] + w.backlog[1..];
    TasksMove(w.plan, w.backlog, w.trees, w.landed, w.backlog[1..], w.trees + [w.backlog[0]], w.landed);
  }

  /** What the directories waiting hold, counted in directories. */
  ghost function DirsWaiting(g: Goal, p: Plan): nat
    requires |p.jobs| == |p.status|
  {
    Wait(true, g.parse, p.jobs, p.status)
  }

  ghost function JobCost(dirs: bool, g: Goal, t: Task): nat {
    Cost(dirs, g.parse, t.1, t.0.path, t.0.attrs)
  }

  lemma DirTaken(g: Goal, w: State)
    requires OK(g, w, -1, -1, 0) && w.landed != []
    ensures var t := w.landed[0];
            && IsWaiting(w.plan, t) && t.1.Tree?
            && var p' := w.plan.(status := w.plan.status[t.0.frame := Reading]);
               && OK(g, w.(landed := w.landed[1..], plan := p'), t.0.frame, -1, JobCost(false, g, t))
               && AllNamed(p', t.0.frame, [])
               && DirsWaiting(g, w.plan) == DirsWaiting(g, p') + JobCost(true, g, t)
  {
    var t := w.landed[0];
    TaskTaken(w.plan, w.backlog, w.trees, w.landed);
    var f := t.0.frame;
    var p' := w.plan.(status := w.plan.status[f := Reading]);
    WaitingEmpty(g, w.plan, w.frames, f, -1);
    WaitSet(false, g.parse, w.plan.jobs, w.plan.status, f, Reading);
    WaitSet(true, g.parse, w.plan.jobs, w.plan.status, f, Reading);
    forall x | 0 <= x < |w.frames| ensures FrameOK(g.parse, p', w.frames, x) {
      assert FrameOK(g.parse, w.plan, w.frames, x);
      TakenFrame(g.parse, w.plan, p', w.frames, x, f);
    }
    forall b: Fetch ensures multiset(w.blobs)[b] == Bit(IsFetching(p', w.fetched, b, -1)) {
      assert multiset(w.blobs)[b] == Bit(IsFetching(w.plan, w.fetched, b, -1));
    }
  }

  /** A directory waiting to be read has nothing in it yet. */
  lemma WaitingEmpty(g: Goal, p: Plan, frames: seq<seq<Node>>, f: nat, reading: int)
    requires |p.jobs| == |p.status| == |frames| && FramesOK(g.parse, p, frames, reading)
    requires f < |frames| && p.status[f] == Waiting
    ensures AllNamed(p.(status := p.status[f := Reading]), f, [])
  {
    assert FrameOK(g.parse, p, frames, f);
  }

  lemma TakenFrame(parse: Parser, p: Plan, p': Plan, frames: seq<seq<Node>>, x: nat, f: nat)
    requires x < |frames| == |p.jobs| == |p.status| && f < |p.status| && p.status[f] != Done
    requires p' == p.(status := p.status[f := Reading]) && FrameOK(parse, p, frames, x)
    ensures FrameOK(parse, p', frames, x)
  {
    if p.jobs[x].Read? && p.status[x] == Done {
      var j := p.jobs[x];
      if j.tree.Tree? {
        SameNodes(frames[x], KeptAll(parse, j.tree, j.path, j.attrs), j.path, Inner(parse, j.tree, j.path, j.attrs), x,
                  p, p');
      }
    }
  }

  lemma SameNodes(nodes: seq<Node>, kept: seq<TreeEntry>, prefix: seq<Byte>, inner: Stack, f: nat, p: Plan, p': Plan)
    requires NodesFor(nodes, kept, prefix, inner, f, p) && p' == p.(status := p'.status)
    ensures NodesFor(nodes, kept, prefix, inner, f, p')
  {
  }

  // ---- Reading a directory ------------------------------------------------

  /** Frame `f` is the directory being read, and its nodes so far are `nodes`. */
  ghost predicate Filling(g: Goal, p: Plan, f: nat, tree: Object, prefix: seq<Byte>, attrs: Stack, nodes: seq<Node>) {
    && tree.Tree? && f < |p.jobs| && p.jobs[f] == Read(tree, prefix, attrs)
    && NodesFor(nodes, KeptAll(g.parse, tree, prefix, attrs), prefix, Inner(g.parse, tree, prefix, attrs), f, p)
    && AllNamed(p, f, nodes)
  }

  ghost function CostLeft(dirs: bool, g: Goal, tree: Object, prefix: seq<Byte>, attrs: Stack, n: nat): nat
    requires tree.Tree?
  {
    var kept := KeptAll(g.parse, tree, prefix, attrs);
    if n <= |kept| then CostFrom(dirs, g.parse, tree, kept, n, prefix, Inner(g.parse, tree, prefix, attrs)) else 0
  }

  /** The entry that comes next among the kept ones. */
  ghost predicate NextKept(g: Goal, tree: Object, prefix: seq<Byte>, attrs: Stack, n: nat, e: TreeEntry) {
    tree.Tree? && var kept := KeptAll(g.parse, tree, prefix, attrs); n < |kept| && kept[n] == e
  }

  /** What the directory's own tree says of an entry it keeps. */
  lemma EntryOK(g: Goal, w: State, f: nat, tree: Object, prefix: seq<Byte>, attrs: Stack, n: nat, e: TreeEntry)
    requires JobsOK(g.parse, w.plan, g.typed)
    requires f < |w.plan.jobs| && w.plan.jobs[f] == Read(tree, prefix, attrs) && NextKept(g, tree, prefix, attrs, n, e)
    ensures ValidTree(e.target) && NulFree(Join(prefix, e.name))
    ensures g.typed && e.kind == Subtree ==>
              Typed(g.parse, e.target, Join(prefix, e.name), Inner(g.parse, tree, prefix, attrs))
    ensures g.typed && !IsDir(e.kind) ==> e.target.Blob?
  {
    var kept := KeptAll(g.parse, tree, prefix, attrs);
    assert kept[n] in kept && e in tree.entries;
    JoinNulFree(prefix, e.name);
  }

  lemma CostNext(dirs: bool, g: Goal, tree: Object, prefix: seq<Byte>, attrs: Stack, n: nat, e: TreeEntry)
    requires NextKept(g, tree, prefix, attrs, n, e)
    ensures CostLeft(dirs, g, tree, prefix, attrs, n) == CostLeft(dirs, g, tree, prefix, attrs, n + 1) +
            if e.kind == Subtree
            then Cost(dirs, g.parse, e.target, Join(prefix, e.name), Inner(g.parse, tree, prefix, attrs))
            else LeafCost(dirs, e)
  {
  }

  lemma CostStarts(g: Goal, tree: Object, prefix: seq<Byte>, attrs: Stack)
    requires tree.Tree?
    ensures Cost(false, g.parse, tree, prefix, attrs) == CostLeft(false, g, tree, prefix, attrs, 0)
    ensures Cost(true, g.parse, tree, prefix, attrs) == 1 + CostLeft(true, g, tree, prefix, attrs, 0)
  {
  }

  /** What the frame for a kept directory entry is to hold. */
  function JobOf(e: TreeEntry, path: seq<Byte>, inner: Stack): Job {
    if e.kind == Subtree then Read(e.target, path, inner) else Nothing
  }

  /** The walk with one more frame, below frame `f`. */
  function WithDir(w: State, f: nat, job: Job): State {
    w.(plan := AddDir(w.plan, job, f), frames := w.frames + [[]],
       backlog := if job.Read? then w.backlog + [(Pending(|w.frames|, job.path, job.attrs), job.tree)] else w.backlog)
  }

  /** The walk with one more slot, which belongs in frame `f`. */
  function WithSlot(w: State, f: nat, o: Object): State {
    w.(plan := AddSlot(w.plan, o, f), fetched := w.fetched + [None])
  }

  lemma WithDirOK(g: Goal, w: State, f: nat, rest: nat, job: Job, rest': nat)
    requires OK(g, w, f, -1, rest) && 0 <= f < |w.frames|
    requires job.Read? ==>
               && ValidTree(job.tree) && NulFree(job.path)
               && (g.typed ==> Typed(g.parse, job.tree, job.path, job.attrs))
    requires rest == rest' + if job.Read? then Cost(false, g.parse, job.tree, job.path, job.attrs) else 0
    ensures OK(g, WithDir(w, f, job), f, -1, rest')
  {
    DirFrames(g, w, f, job);
    AddDirPool(w.plan, w.backlog, w.trees, w.landed, job, f);
    AddDirBlobs(w.plan, w.fetched, w.blobs, -1, job, f);
    AddDirWait(false, g.parse, w.plan, job, f);
    DirShape(g, w, f, job);
  }

  lemma DirFrames(g: Goal, w: State, f: nat, job: Job)
    requires Shape(w.plan, w.frames, w.fetched) && FramesOK(g.parse, w.plan, w.frames, f) && f < |w.frames|
    ensures var p', frames' := AddDir(w.plan, job, f), w.frames + [[]];
            |p'.jobs| == |p'.status| == |frames'| && FramesOK(g.parse, p', frames', f)
  {
    FramesGrow(g.parse, w.plan, AddDir(w.plan, job, f), w.frames, w.frames + [[]], f);
  }

  lemma DirShape(g: Goal, w: State, f: nat, job: Job)
    requires Shape(w.plan, w.frames, w.fetched) && JobsOK(g.parse, w.plan, g.typed) && f < |w.frames|
    requires job.Read? ==>
               && ValidTree(job.tree) && NulFree(job.path)
               && (g.typed ==> Typed(g.parse, job.tree, job.path, job.attrs))
    ensures var p' := AddDir(w.plan, job, f); JobsOK(g.parse, p', g.typed) && Shape(p', w.frames + [[]], w.fetched)
  {
  }

  lemma WithSlotOK(g: Goal, w: State, f: nat, rest: nat, o: Object, rest': nat)
    requires OK(g, w, f, -1, rest) && 0 <= f < |w.frames| && (g.typed ==> o.Blob?) && rest == rest' + |Data(o)|
    ensures OK(g, WithSlot(w, f, o), f, |w.fetched|, rest')
  {
    SlotFrames(g, w, f, o);
    AddSlotBlobs(w.plan, w.fetched, w.blobs, o, f);
    AddSlotTasks(w.plan, w.backlog, w.trees, w.landed, o, f);
    SlotBooks(g, w, f, rest, o, rest');
    SlotShape(g, w, f, o);
  }

  lemma SlotFrames(g: Goal, w: State, f: nat, o: Object)
    requires Shape(w.plan, w.frames, w.fetched) && FramesOK(g.parse, w.plan, w.frames, f) && f < |w.frames|
    ensures var p' := AddSlot(w.plan, o, f);
            |p'.jobs| == |p'.status| == |w.frames| && FramesOK(g.parse, p', w.frames, f)
  {
    FramesGrow(g.parse, w.plan, AddSlot(w.plan, o, f), w.frames, w.frames, f);
  }

  lemma SlotBooks(g: Goal, w: State, f: nat, rest: nat, o: Object, rest': nat)
    requires Books(g.parse, w.plan, w.fetched, w.bytes, rest, g.total) && rest == rest' + |Data(o)|
    ensures Books(g.parse, AddSlot(w.plan, o, f), w.fetched + [None], w.bytes, rest', g.total)
  {
    AddSlotSums(w.plan, w.fetched, o, f);
  }

  lemma SlotShape(g: Goal, w: State, f: nat, o: Object)
    requires Shape(w.plan, w.frames, w.fetched) && JobsOK(g.parse, w.plan, g.typed) && f < |w.frames|
             && (g.typed ==> o.Blob?)
    ensures var p' := AddSlot(w.plan, o, f); JobsOK(g.parse, p', g.typed) && Shape(p', w.frames, w.fetched + [None])
  {
  }

  /** A node for the next kept entry, whose frame or slot is new. */
  lemma FillingNext(g: Goal, w: State, w': State, f: nat, tree: Object, prefix: seq<Byte>, attrs: Stack,
                    nodes: seq<Node>, e: TreeEntry, node: Node)
    requires Filling(g, w.plan, f, tree, prefix, attrs, nodes) && NextKept(g, tree, prefix, attrs, |nodes|, e)
    requires Grows(w.plan, w'.plan) && NodeFor(node, e, prefix, Inner(g.parse, tree, prefix, attrs), f, w'.plan)
    requires if node.Dir? then node.frame >= |w.plan.jobs| else node.slot >= |w.plan.slots|
    requires AllNamed(w'.plan, f, nodes + [node])
    ensures Filling(g, w'.plan, f, tree, prefix, attrs, nodes + [node])
  {
    NodesForNext(nodes, KeptAll(g.parse, tree, prefix, attrs), prefix, Inner(g.parse, tree, prefix, attrs), f, w.plan,
                 w'.plan, node);
  }

  lemma NodesForNext(nodes: seq<Node>, kept: seq<TreeEntry>, prefix: seq<Byte>, inner: Stack, f: nat, p: Plan,
                     p': Plan, node: Node)
    requires NodesFor(nodes, kept, prefix, inner, f, p) && Grows(p, p')
    requires |nodes| < |kept| && NodeFor(node, kept[|nodes|], prefix, inner, f, p')
    requires if node.Dir? then node.frame >= |p.jobs| else node.slot >= |p.slots|
    ensures NodesFor(nodes + [node], kept, prefix, inner, f, p')
  {
    NodesForGrows(nodes, kept, prefix, inner, f, p, p');
    forall k | 0 <= k < |nodes| ensures !SameRef(nodes[k], node) {
      assert NodeFor(nodes[k], kept[k], prefix, inner, f, p);
    }
  }

  lemma DirAdded(g: Goal, w: State, f: nat, tree: Object, prefix: seq<Byte>, attrs: Stack, nodes: seq<Node>,
                 e: TreeEntry)
    requires Filling(g, w.plan, f, tree, prefix, attrs, nodes) && NextKept(g, tree, prefix, attrs, |nodes|, e)
             && IsDir(e.kind)
    requires OK(g, w, f, -1, CostLeft(false, g, tree, prefix, attrs, |nodes|))
    ensures var path := Join(prefix, e.name);
            var w' := WithDir(w, f, JobOf(e, path, Inner(g.parse, tree, prefix, attrs)));
            && Filling(g, w'.plan, f, tree, prefix, attrs, nodes + [Dir(path, |w.frames|)])
            && OK(g, w', f, -1, CostLeft(false, g, tree, prefix, attrs, |nodes| + 1))
            && Left(g, w'.plan, tree, prefix, attrs, |nodes| + 1) == Left(g, w.plan, tree, prefix, attrs, |nodes|)
  {
    var path := Join(prefix, e.name);
    var job := JobOf(e, path, Inner(g.parse, tree, prefix, attrs));
    EntryOK(g, w, f, tree, prefix, attrs, |nodes|, e);
    CostNext(false, g, tree, prefix, attrs, |nodes|, e);
    DirLeft(g, w.plan, f, tree, prefix, attrs, |nodes|, e);
    WithDirOK(g, w, f, CostLeft(false, g, tree, prefix, attrs, |nodes|), job,
              CostLeft(false, g, tree, prefix, attrs, |nodes| + 1));
    NamedDir(w.plan, f, nodes, job, Dir(path, |w.frames|));
    FillingNext(g, w, WithDir(w, f, job), f, tree, prefix, attrs, nodes, e, Dir(path, |w.frames|));
  }

  /** The directories waiting, or still to be found in the one being read. */
  ghost function Left(g: Goal, p: Plan, tree: Object, prefix: seq<Byte>, attrs: Stack, n: nat): nat
    requires tree.Tree?
  {
    if |p.jobs| == |p.status| then DirsWaiting(g, p) + CostLeft(true, g, tree, prefix, attrs, n) else 0
  }

  lemma DirLeft(g: Goal, p: Plan, f: nat, tree: Object, prefix: seq<Byte>, attrs: Stack, n: nat, e: TreeEntry)
    requires NextKept(g, tree, prefix, attrs, n, e) && IsDir(e.kind) && |p.jobs| == |p.status|
    ensures var p' := AddDir(p, JobOf(e, Join(prefix, e.name), Inner(g.parse, tree, prefix, attrs)), f);
            Left(g, p', tree, prefix, attrs, n + 1) == Left(g, p, tree, prefix, attrs, n)
  {
    CostNext(true, g, tree, prefix, attrs, n, e);
    AddDirWait(true, g.parse, p, JobOf(e, Join(prefix, e.name), Inner(g.parse, tree, prefix, attrs)), f);
  }

  function NodeOf(e: TreeEntry, path: seq<Byte>, slot: nat): Node {
    if e.kind == Symlink then LinkNode(path, slot) else FileNode(path, e.kind == Executable, slot)
  }

  lemma SlotAdded(g: Goal, w: State, f: nat, tree: Object, prefix: seq<Byte>, attrs: Stack, nodes: seq<Node>,
                  e: TreeEntry)
    requires Filling(g, w.plan, f, tree, prefix, attrs, nodes) && NextKept(g, tree, prefix, attrs, |nodes|, e)
             && !IsDir(e.kind)
    requires OK(g, w, f, -1, CostLeft(false, g, tree, prefix, attrs, |nodes|))
    ensures var w' := WithSlot(w, f, e.target);
            && Filling(g, w'.plan, f, tree, prefix, attrs, nodes + [NodeOf(e, Join(prefix, e.name), |w.fetched|)])
            && OK(g, w', f, |w.fetched|, CostLeft(false, g, tree, prefix, attrs, |nodes| + 1))
            && Left(g, w'.plan, tree, prefix, attrs, |nodes| + 1) == Left(g, w.plan, tree, prefix, attrs, |nodes|)
  {
    EntryOK(g, w, f, tree, prefix, attrs, |nodes|, e);
    CostNext(false, g, tree, prefix, attrs, |nodes|, e);
    CostNext(true, g, tree, prefix, attrs, |nodes|, e);
    WithSlotOK(g, w, f, CostLeft(false, g, tree, prefix, attrs, |nodes|), e.target,
               CostLeft(false, g, tree, prefix, attrs, |nodes| + 1));
    NamedSlot(w.plan, f, nodes, e.target, NodeOf(e, Join(prefix, e.name), |w.fetched|));
    FillingNext(g, w, WithSlot(w, f, e.target), f, tree, prefix, attrs, nodes, e,
                NodeOf(e, Join(prefix, e.name), |w.fetched|));
  }

  /** With a node for each kept entry, the frame counts as read. */
  lemma DirDone(g: Goal, w: State, f: nat, tree: Object, prefix: seq<Byte>, attrs: Stack, nodes: seq<Node>)
    requires Filling(g, w.plan, f, tree, prefix, attrs, nodes) && |nodes| == |KeptAll(g.parse, tree, prefix, attrs)|
    requires OK(g, w, f, -1, 0)
    ensures var p' := w.plan.(status := w.plan.status[f := Done]);
            && OK(g, w.(frames := w.frames[f := nodes], plan := p'), -1, -1, 0)
            && DirsWaiting(g, p') == DirsWaiting(g, w.plan)
  {
    var p' := w.plan.(status := w.plan.status[f := Done]);
    var frames' := w.frames[f := nodes];
    WaitSet(false, g.parse, w.plan.jobs, w.plan.status, f, Done);
    WaitSet(true, g.parse, w.plan.jobs, w.plan.status, f, Done);
    forall x | 0 <= x < |frames'| ensures FrameOK(g.parse, p', frames', x) {
      assert FrameOK(g.parse, w.plan, w.frames, x);
      if x == f {
        SameNodes(nodes, KeptAll(g.parse, tree, prefix, attrs), prefix, Inner(g.parse, tree, prefix, attrs), f, w.plan,
                  p');
      } else if w.plan.jobs[x].Read? && w.plan.status[x] == Done {
        var j := w.plan.jobs[x];
        SameNodes(w.frames[x], KeptAll(g.parse, j.tree, j.path, j.attrs), j.path,
                  Inner(g.parse, j.tree, j.path, j.attrs), x, w.plan, p');
      }
    }
    forall b: Fetch ensures multiset(w.blobs)[b] == Bit(IsFetching(p', w.fetched, b, -1)) {
      assert multiset(w.blobs)[b] == Bit(IsFetching(w.plan, w.fetched, b, -1));
    }
    forall t: Task
      ensures (multiset(w.backlog) + multiset(w.trees) + multiset(w.landed))[t] == Bit(IsWaiting(p', t))
    {
      assert (multiset(w.backlog) + multiset(w.trees) + multiset(w.landed))[t] == Bit(IsWaiting(w.plan, t));
    }
  }

  /** `data` is the directory's own attributes file. */
  ghost predicate OwnFile(tree: Object, data: seq<Byte>) {
    tree.Tree? && var at := AttributesAt(tree.entries, 0); at.Some? && tree.entries[at.value].target == Blob(data)
  }

  /** Names being unique, the entry of that name is the file that was read. */
  lemma OnlyOwnFile(g: Goal, w: State, f: nat, tree: Object, prefix: seq<Byte>, attrs: Stack, i: nat)
    requires JobsOK(g.parse, w.plan, g.typed) && tree.Tree? && i < |tree.entries|
    requires f < |w.plan.jobs| && w.plan.jobs[f] == Read(tree, prefix, attrs)
    ensures forall data :: OwnFile(tree, data) && tree.entries[i].name == GitAttributes() ==>
              tree.entries[i].target == Blob(data)
  {
    var at := AttributesAt(tree.entries, 0);
    if at.Some? && tree.entries[i].name == GitAttributes() {
      assert i == at.value;
    }
  }

  lemma EntryPath(g: Goal, w: State, f: nat, tree: Object, prefix: seq<Byte>, attrs: Stack, i: nat)
    requires JobsOK(g.parse, w.plan, g.typed) && tree.Tree? && i < |tree.entries|
    requires f < |w.plan.jobs| && w.plan.jobs[f] == Read(tree, prefix, attrs)
    ensures NulFree(Join(prefix, tree.entries[i].name))
  {
    JoinNulFree(prefix, tree.entries[i].name);
  }

  // ---- Start and end ------------------------------------------------------

  ghost function FirstState(tree: Object, prefix: seq<Byte>): State {
    State([], [], [], [], [[]], [], 0, Plan([Read(tree, prefix, Empty)], [Reading], [0], [], []))
  }

  lemma StartOK(g: Goal, tree: Object, prefix: seq<Byte>)
    requires tree.Tree? && ValidTree(tree) && NulFree(prefix)
    requires g.total == TotalBytes(g.parse, tree, prefix, Empty) && g.typed == Typed(g.parse, tree, prefix, Empty)
    ensures OK(g, FirstState(tree, prefix), 0, -1, g.total)
    ensures DirsWaiting(g, FirstState(tree, prefix).plan) == 0 && AllNamed(FirstState(tree, prefix).plan, 0, [])
  {
    StartPools(tree, prefix);
    StartSums(true, g.parse, tree, prefix);
    StartSums(false, g.parse, tree, prefix);
    StartFrames(g.parse, tree, prefix);
  }

  lemma StartPools(tree: Object, prefix: seq<Byte>)
    ensures var p := FirstState(tree, prefix).plan; TreePool(p, [], [], []) && BlobPool(p, [], [], -1)
  {
    var p := FirstState(tree, prefix).plan;
    var tasks: seq<Task>, fetches: seq<Fetch> := [], [];
    forall t: Task ensures (multiset(tasks) + multiset(tasks) + multiset(tasks))[t] == Bit(IsWaiting(p, t)) {
    }
    forall b: Fetch ensures multiset(fetches)[b] == Bit(IsFetching(p, [], b, -1)) {
    }
  }

  lemma StartSums(dirs: bool, parse: Parser, tree: Object, prefix: seq<Byte>)
    ensures var p := FirstState(tree, prefix).plan; Wait(dirs, parse, p.jobs, p.status) == 0
  {
    var p := FirstState(tree, prefix).plan;
    assert p.jobs[..0] == [] && p.status[..0] == [];
  }

  lemma StartFrames(parse: Parser, tree: Object, prefix: seq<Byte>)
    ensures var w := FirstState(tree, prefix); FramesOK(parse, w.plan, w.frames, 0)
  {
    assert FrameOK(parse, FirstState(tree, prefix).plan, FirstState(tree, prefix).frames, 0);
  }

  /** With nothing left to wait for, the frames and slots are complete, and what
      was counted is the total. */
  lemma EndOK(g: Goal, w: State)
    requires OK(g, w, -1, -1, 0) && w.blobs == [] && w.trees == [] && w.backlog == [] && w.landed == []
    ensures Finished(g.parse, w.plan, Stock(w.frames, w.fetched))
    ensures w.bytes == g.total <= MAX_ARCHIVE_BYTES
  {
    PoolEmpty(w.plan, w.fetched);
    forall f | 0 <= f < |w.plan.jobs| && w.plan.status[f] == Waiting ensures w.plan.jobs[f].Read? {
      assert FrameOK(g.parse, w.plan, w.frames, f);
    }
    TasksGone(w.plan);
    WaitNone(g.parse, w.plan.jobs, w.plan.status);
    FilledWithin(w.plan.slots, w.fetched);
  }

  // ---- The walk -----------------------------------------------------------

  class Walk {
    ghost const g: Goal
    const parse: Parser
    const canFail: bool
    var blobs: seq<Fetch>
    var trees: seq<Task>
    var backlog: seq<Task>
    var landed: seq<Task>
    var frames: seq<seq<Node>>
    var fetched: seq<Option<seq<Byte>>>
    var bytes: nat
    /** Objects that have arrived, and objects asked for. */
    var arrived: nat
    var queued: nat
    ghost var plan: Plan

    ghost function Now(): State
      reads this
    {
      State(blobs, trees, backlog, landed, frames, fetched, bytes, plan)
    }

    /** The counts agree but for `direct` objects asked for outside the pools. */
    ghost predicate Inv(reading: int, exc: int, rest: nat, direct: int)
      reads this
    {
      && OK(g, Now(), reading, exc, rest)
      && g.parse == parse && g.canFail == canFail
      && queued == arrived + |blobs| + |trees| + |backlog| + direct
    }

    ghost function Load(): nat
      reads this
    {
      |blobs| + |trees| + |backlog|
    }

    /** Directories go from backlog to pool, until the one is empty or the other full. */
    method IssueTrees(ghost reading: int, ghost exc: int, ghost rest: nat, ghost direct: int)
      requires Inv(reading, exc, rest, direct)
      modifies this`trees, this`backlog
      ensures Inv(reading, exc, rest, direct) && Load() == old(Load())
      ensures backlog != [] ==> trees != []
      ensures |trees| >= |old(trees)|
    {
      while |trees| < MAX_TREES_IN_FLIGHT && backlog != []
        invariant Inv(reading, exc, rest, direct) && Load() == old(Load())
        invariant |trees| >= |old(trees)|
        decreases |backlog|
      {
        TreeIssued(g, Now(), reading, exc, rest);
        trees, backlog := trees + [backlog[0]], backlog[1..];
      }
    }

    /** Put a blob's bytes into their slot, inside the size cap. */
    method FillSlot(slot: nat, data: seq<Byte>) returns (e: Option<Error>)
      requires slot < |fetched|
      modifies this`fetched, this`bytes
      ensures bytes == old(bytes) + |data|
      ensures e == if bytes > MAX_ARCHIVE_BYTES then Some(TooLarge) else None
      ensures fetched == if e.None? then old(fetched)[slot := Some(data)] else old(fetched)
    {
      bytes := bytes + |data|;
      if bytes > MAX_ARCHIVE_BYTES {
        return Some(TooLarge);
      }
      fetched := fetched[slot := Some(data)];
      e := None;
    }

    /** One object lands, whichever: a blob in its slot, or a directory on the landed queue. */
    method DrainOne(ghost reading: int, ghost exc: int, ghost rest: nat, ghost direct: int) returns (e: Option<Error>)
      requires Inv(reading, exc, rest, direct) && (blobs != [] || trees != [])
      modifies this`blobs, this`trees, this`backlog, this`landed, this`fetched, this`bytes, this`arrived
      ensures Warranted(g, e) && arrived >= old(arrived) && |fetched| == |old(fetched)|
      ensures e.None? ==> Inv(reading, exc, rest, direct) && Load() < old(Load())
      ensures e.None? && exc >= 0 && exc < |fetched| && old(fetched)[exc].None? ==> fetched[exc].None?
    {
      var blobFirst := *;
      if trees == [] || (blobs != [] && blobFirst) {
        e := LandBlob(reading, exc, rest, direct);
      } else {
        e := StashTree(reading, exc, rest, direct);
      }
    }

    method LandBlob(ghost reading: int, ghost exc: int, ghost rest: nat, ghost direct: int) returns (e: Option<Error>)
      requires Inv(reading, exc, rest, direct) && blobs != []
      modifies this`blobs, this`fetched, this`bytes, this`arrived
      ensures Warranted(g, e) && arrived >= old(arrived) && |fetched| == |old(fetched)|
      ensures e.None? ==> Inv(reading, exc, rest, direct) && |blobs| == |old(blobs)| - 1
      ensures e.None? && exc >= 0 && exc < |fetched| && old(fetched)[exc].None? ==> fetched[exc].None?
    {
      var k :| 0 <= k < |blobs|;
      var (slot, blob) := blobs[k];
      BlobInPool(g, Now(), reading, exc, rest, k);
      var fails := *;
      if canFail && fails {
        return Some(FetchFailed);
      }
      if !blob.Blob? {
        return Some(WrongType);
      }
      FillWithin(g, Now(), reading, exc, rest, slot);
      ghost var w := Now();
      e := FillSlot(slot, blob.data);
      if e.Some? {
        return;
      }
      BlobStored(g, w, reading, exc, rest, k);
      blobs := RemoveAt(blobs, k);
      arrived := arrived + 1;
    }

    /** A directory lands: it joins the landed queue, and the pool has room for another. */
    method StashTree(ghost reading: int, ghost exc: int, ghost rest: nat, ghost direct: int) returns (e: Option<Error>)
      requires Inv(reading, exc, rest, direct) && trees != []
      modifies this`trees, this`backlog, this`landed, this`arrived
      ensures Warranted(g, e) && arrived >= old(arrived)
      ensures e.None? ==> Inv(reading, exc, rest, direct) && Load() < old(Load())
    {
      var k :| 0 <= k < |trees|;
      var task := trees[k];
      TreeInPool(g, Now(), reading, exc, rest, k);
      arrived := arrived + 1;
      var fails := *;
      if canFail && fails {
        return Some(FetchFailed);
      }
      if !task.1.Tree? {
        return Some(WrongType);
      }
      TreeStashed(g, Now(), reading, exc, rest, k);
      trees, landed := RemoveAt(trees, k), landed + [task];
      IssueTrees(reading, exc, rest, direct);
      e := None;
    }

    method TakeLanded() returns (t: Task)
      requires Inv(-1, -1, 0, 0) && landed != []
      modifies this`landed, this`plan
      ensures IsWaiting(old(plan), t) && t.1.Tree?
      ensures plan == old(plan).(status := old(plan).status[t.0.frame := Reading])
      ensures Inv(t.0.frame, -1, JobCost(false, g, t), 0) && AllNamed(plan, t.0.frame, [])
      ensures |plan.jobs| == |plan.status| && |old(plan).jobs| == |old(plan).status|
      ensures DirsWaiting(g, old(plan)) == DirsWaiting(g, plan) + JobCost(true, g, t)
    {
      t := landed[0];
      DirTaken(g, Now());
      plan := plan.(status := plan.status[t.0.frame := Reading]);
      landed := landed[1..];
    }

    /** Wait for a directory that has landed; none is left when none is in flight. */
    method NextTree() returns (e: Option<Error>, next: Option<Task>)
      requires Inv(-1, -1, 0, 0)
      modifies this`blobs, this`trees, this`backlog, this`landed, this`fetched, this`bytes, this`arrived, this`plan
      ensures Warranted(g, e) && arrived >= old(arrived)
      ensures e.None? && next.None? ==>
                Inv(-1, -1, 0, 0) && plan == old(plan) && backlog == [] && trees == [] && landed == []
      ensures e.None? && next.Some? ==>
                && var t := next.value;
                   && IsWaiting(old(plan), t) && t.1.Tree?
                   && plan == old(plan).(status := old(plan).status[t.0.frame := Reading])
                   && Inv(t.0.frame, -1, JobCost(false, g, t), 0) && AllNamed(plan, t.0.frame, [])
                   && DirsWaiting(g, old(plan)) == DirsWaiting(g, plan) + JobCost(true, g, t)
    {
      while true
        invariant Inv(-1, -1, 0, 0) && plan == old(plan) && arrived >= old(arrived)
        decreases Load()
      {
        if landed != [] {
          var task := TakeLanded();
          return None, Some(task);
        }
        IssueTrees(-1, -1, 0, 0);
        if trees == [] {
          return None, None;
        }
        e := DrainOne(-1, -1, 0, 0);
        if e.Some? {
          return e, None;
        }
      }
    }

    /** A blob outside the pools. Any of what the pools hold may land before it does. */
    method FetchBlobNow(blob: Object, ghost reading: int, ghost rest: nat) returns (e: Option<Error>, data: seq<Byte>)
      requires Inv(reading, -1, rest, 0) && (g.typed ==> blob.Blob?)
      modifies this`blobs, this`trees, this`backlog, this`landed, this`fetched, this`bytes, this`arrived, this`queued
      ensures Warranted(g, e) && arrived >= old(arrived) && queued >= old(queued) && |fetched| == |old(fetched)|
      ensures e.None? ==> Inv(reading, -1, rest, 0) && blob == Blob(data)
    {
      data := [];
      queued := queued + 1;
      while blobs != [] || trees != []
        invariant Inv(reading, -1, rest, 1)
        invariant arrived >= old(arrived) && queued >= old(queued) && |fetched| == |old(fetched)|
        decreases Load()
      {
        var lands := *;
        if lands {
          break;
        }
        e := DrainOne(reading, -1, rest, 1);
        if e.Some? {
          return;
        }
      }
      var fails := *;
      if canFail && fails {
        return Some(FetchFailed), [];
      }
      if !blob.Blob? {
        return Some(WrongType), [];
      }
      arrived := arrived + 1;
      return None, blob.data;
    }

    /** The stack for what is inside the directory: with its own attributes file on top,
        unless it has none or a link in its place. */
    method ReadAttributes(tree: Object, prefix: seq<Byte>, attrs: Stack, ghost frame: nat, ghost rest: nat)
      returns (e: Option<Error>, inner: Stack, own: Option<seq<Byte>>)
      requires Inv(frame, -1, rest, 0) && tree.Tree? && frame < |plan.jobs|
               && plan.jobs[frame] == Read(tree, prefix, attrs)
      modifies this`blobs, this`trees, this`backlog, this`landed, this`fetched, this`bytes, this`arrived, this`queued
      ensures Warranted(g, e) && arrived >= old(arrived) && queued >= old(queued)
      ensures e.None? ==> Inv(frame, -1, rest, 0) && inner == Inner(parse, tree, prefix, attrs)
      ensures e.None? ==>
                var at := AttributesAt(tree.entries, 0);
                if at.Some? then own.Some? && tree.entries[at.value].target == Blob(own.value) else own.None?
    {
      inner, own := attrs, None;
      var found := AttributesAt(tree.entries, 0);
      if found.None? {
        return None, attrs, None;
      }
      var data;
      e, data := FetchBlobNow(tree.entries[found.value].target, frame, rest);
      if e.Some? {
        return;
      }
      inner, own := PushFile(attrs, prefix, parse(data)), Some(data);
    }

    /** Frame `frame` comes to stand for the directory's kept entries, and each of those
        has a slot, or a frame waiting to be read. */
    method ReadDir(tree: Object, prefix: seq<Byte>, frame: nat, attrs: Stack) returns (e: Option<Error>)
      requires tree.Tree? && frame < |plan.jobs| && plan.jobs[frame] == Read(tree, prefix, attrs)
      requires Inv(frame, -1, Cost(false, parse, tree, prefix, attrs), 0) && AllNamed(plan, frame, [])
      modifies this
      ensures Warranted(g, e) && arrived >= old(arrived) && queued >= old(queued)
      ensures e.None? ==>
                && Inv(-1, -1, 0, 0) && old(plan).jobs <= plan.jobs
                && DirsWaiting(g, plan) + 1 == DirsWaiting(g, old(plan)) + Cost(true, parse, tree, prefix, attrs)
    {
      CostStarts(g, tree, prefix, attrs);
      var inner, own, children;
      e, inner, own := OpenDir(tree, prefix, frame, attrs);
      if e.Some? {
        return;
      }
      e, children, own := ReadEntries(tree, prefix, frame, attrs, inner, own);
      if e.Some? {
        return;
      }
      FinishDir(tree, prefix, frame, attrs, children, inner, own);
    }

    method ReadEntries(tree: Object, prefix: seq<Byte>, frame: nat, ghost attrs: Stack, inner: Stack,
                       read: Option<seq<Byte>>)
      returns (e: Option<Error>, children: seq<Node>, own: Option<seq<Byte>>)
      requires tree.Tree? && ReadUpTo(tree, prefix, frame, attrs, inner, [], read, 0)
      modifies this
      ensures Warranted(g, e) && arrived >= old(arrived) && queued >= old(queued)
      ensures e.None? ==>
                && ReadUpTo(tree, prefix, frame, attrs, inner, children, own, |tree.entries|)
                   && old(plan).jobs <= plan.jobs
                && Left(g, plan, tree, prefix, attrs, |children|) == Left(g, old(plan), tree, prefix, attrs, 0)
    {
      own, children, e := read, [], None;
      for i := 0 to |tree.entries|
        invariant arrived >= old(arrived) && queued >= old(queued) && old(plan).jobs <= plan.jobs
        invariant ReadUpTo(tree, prefix, frame, attrs, inner, children, own, i)
        invariant Left(g, plan, tree, prefix, attrs, |children|) == Left(g, old(plan), tree, prefix, attrs, 0)
      {
        e, children, own := ReadEntry(tree, prefix, frame, attrs, inner, children, own, i);
        if e.Some? {
          return;
        }
      }
      e := None;
    }

    /** The attributes that apply inside, before any entry is looked at. */
    method OpenDir(tree: Object, prefix: seq<Byte>, frame: nat, attrs: Stack)
      returns (e: Option<Error>, inner: Stack, own: Option<seq<Byte>>)
      requires tree.Tree? && frame < |plan.jobs| && plan.jobs[frame] == Read(tree, prefix, attrs)
      requires Inv(frame, -1, Cost(false, parse, tree, prefix, attrs), 0) && AllNamed(plan, frame, [])
      modifies this`blobs, this`trees, this`backlog, this`landed, this`fetched, this`bytes, this`arrived, this`queued
      ensures Warranted(g, e) && arrived >= old(arrived) && queued >= old(queued)
      ensures e.None? ==> ReadUpTo(tree, prefix, frame, attrs, inner, [], own, 0)
    {
      CostStarts(g, tree, prefix, attrs);
      e, inner, own := ReadAttributes(tree, prefix, attrs, frame, Cost(false, parse, tree, prefix, attrs));
    }

    /** Frame `frame` is being read, and `children` are the nodes of its first `i`
        entries. */
    ghost predicate ReadUpTo(tree: Object, prefix: seq<Byte>, frame: nat, attrs: Stack, inner: Stack,
                           children: seq<Node>, own: Option<seq<Byte>>, i: nat)
      reads this
    {
      && Filling(g, plan, frame, tree, prefix, attrs, children)
      && inner == Inner(parse, tree, prefix, attrs)
      && Inv(frame, -1, CostLeft(false, g, tree, prefix, attrs, |children|), 0)
      && i <= |tree.entries| && |children| == |Kept(tree.entries, i, prefix, inner)|
      && (own.Some? ==> OwnFile(tree, own.value))
    }

    method FinishDir(tree: Object, prefix: seq<Byte>, frame: nat, ghost attrs: Stack, children: seq<Node>,
                     ghost inner: Stack, ghost own: Option<seq<Byte>>)
      requires tree.Tree? && ReadUpTo(tree, prefix, frame, attrs, inner, children, own, |tree.entries|)
      modifies this`frames, this`plan
      ensures Inv(-1, -1, 0, 0) && plan.jobs == old(plan).jobs
      ensures |old(plan).jobs| == |old(plan).status| && |plan.jobs| == |plan.status|
      ensures DirsWaiting(g, plan) == Left(g, old(plan), tree, prefix, attrs, |children|)
    {
      DirDone(g, Now(), frame, tree, prefix, attrs, children);
      ghost var w := Now().(frames := frames[frame := children], plan := plan.(status := plan.status[frame := Done]));
      frames := frames[frame := children];
      plan := plan.(status := plan.status[frame := Done]);
      assert Now() == w;
    }

    method ReadEntry(tree: Object, prefix: seq<Byte>, frame: nat, ghost attrs: Stack, inner: Stack,
                     children: seq<Node>, own: Option<seq<Byte>>, i: nat)
      returns (e: Option<Error>, children': seq<Node>, own': Option<seq<Byte>>)
      requires ReadUpTo(tree, prefix, frame, attrs, inner, children, own, i) && i < |tree.entries|
      modifies this
      ensures Warranted(g, e) && arrived >= old(arrived) && queued >= old(queued)
      ensures e.None? ==>
                && ReadUpTo(tree, prefix, frame, attrs, inner, children', own', i + 1)
                && Left(g, plan, tree, prefix, attrs, |children'|) ==
                   Left(g, old(plan), tree, prefix, attrs, |children|)
                && old(plan).jobs <= plan.jobs
    {
      e, children', own' := None, children, own;
      var entry := tree.entries[i];
      EntryPath(g, Now(), frame, tree, prefix, attrs, i);
      KeptPrefix(tree.entries, i, |tree.entries|, prefix, inner);
      var state := Check(inner, Join(prefix, entry.name), IsDir(entry.kind), "export-ignore");
      if state != Set {
        e, children', own' := AddEntry(tree, prefix, frame, attrs, inner, children, own, i);
      }
    }

    /** One entry that is to be archived. */
    method AddEntry(tree: Object, prefix: seq<Byte>, frame: nat, ghost attrs: Stack, inner: Stack,
                    children: seq<Node>, own: Option<seq<Byte>>, i: nat)
      returns (e: Option<Error>, children': seq<Node>, own': Option<seq<Byte>>)
      requires tree.Tree? && i < |tree.entries| && NextKept(g, tree, prefix, attrs, |children|, tree.entries[i])
      requires inner == Inner(parse, tree, prefix, attrs)
      requires Inv(frame, -1, CostLeft(false, g, tree, prefix, attrs, |children|), 0)
      requires Filling(g, plan, frame, tree, prefix, attrs, children)
      requires own.Some? ==> OwnFile(tree, own.value)
      modifies this
      ensures Warranted(g, e) && arrived >= old(arrived) && queued >= old(queued)
      ensures e.None? ==>
                && |children'| == |children| + 1
                && Inv(frame, -1, CostLeft(false, g, tree, prefix, attrs, |children'|), 0)
                && Filling(g, plan, frame, tree, prefix, attrs, children')
                && Left(g, plan, tree, prefix, attrs, |children'|) ==
                   Left(g, old(plan), tree, prefix, attrs, |children|)
                && old(plan).jobs <= plan.jobs && (own'.Some? ==> own' == own)
    {
      var entry := tree.entries[i];
      own' := own;
      if IsDir(entry.kind) {
        e := None;
        children' := AddSubdirectory(tree, prefix, frame, attrs, inner, children, entry);
      } else {
        e, children', own' := AddBlob(tree, prefix, frame, attrs, children, own, i);
      }
    }

    /** A directory gets a frame of its own, and unless it is a gitlink a place in
        the backlog. */
    method AddSubdirectory(tree: Object, prefix: seq<Byte>, frame: nat, ghost attrs: Stack, inner: Stack,
                           children: seq<Node>, entry: TreeEntry)
      returns (children': seq<Node>)
      requires NextKept(g, tree, prefix, attrs, |children|, entry) && IsDir(entry.kind)
      requires inner == Inner(parse, tree, prefix, attrs)
      requires Inv(frame, -1, CostLeft(false, g, tree, prefix, attrs, |children|), 0)
      requires Filling(g, plan, frame, tree, prefix, attrs, children)
      modifies this`frames, this`backlog, this`trees, this`queued, this`plan
      ensures queued >= old(queued) && old(plan).jobs <= plan.jobs && |children'| == |children| + 1
      ensures Inv(frame, -1, CostLeft(false, g, tree, prefix, attrs, |children'|), 0)
      ensures Filling(g, plan, frame, tree, prefix, attrs, children')
      ensures Left(g, plan, tree, prefix, attrs, |children'|) == Left(g, old(plan), tree, prefix, attrs, |children|)
    {
      var path := Join(prefix, entry.name);
      var child := |frames|;
      DirAdded(g, Now(), frame, tree, prefix, attrs, children, entry);
      plan := AddDir(plan, JobOf(entry, path, inner), frame);
      frames := frames + [[]];
      children' := children + [Dir(path, child)];
      if entry.kind == Subtree {
        QueueTree((Pending(child, path, inner), entry.target), frame,
                  CostLeft(false, g, tree, prefix, attrs, |children'|));
      }
    }

    method QueueTree(task: Task, ghost frame: nat, ghost rest: nat)
      requires OK(g, Now().(backlog := backlog + [task]), frame, -1, rest)
      requires g.parse == parse && g.canFail == canFail && queued == arrived + |blobs| + |trees| + |backlog|
      modifies this`backlog, this`trees, this`queued
      ensures Inv(frame, -1, rest, 0) && queued == old(queued) + 1
    {
      ghost var w := Now().(backlog := backlog + [task]);
      backlog := backlog + [task];
      assert Now() == w;
      IssueTrees(frame, -1, rest, -1);
      queued := queued + 1;
    }

    /** A file or symlink gets a slot. The attributes file has been fetched already;
        any other blob waits for room in the pool, then joins it. */
    method AddBlob(tree: Object, prefix: seq<Byte>, frame: nat, ghost attrs: Stack,
                   children: seq<Node>, own: Option<seq<Byte>>, i: nat)
      returns (e: Option<Error>, children': seq<Node>, own': Option<seq<Byte>>)
      requires tree.Tree? && i < |tree.entries| && NextKept(g, tree, prefix, attrs, |children|, tree.entries[i])
      requires !IsDir(tree.entries[i].kind)
      requires Inv(frame, -1, CostLeft(false, g, tree, prefix, attrs, |children|), 0)
      requires Filling(g, plan, frame, tree, prefix, attrs, children)
      requires own.Some? ==> OwnFile(tree, own.value)
      modifies this
      ensures Warranted(g, e) && arrived >= old(arrived) && queued >= old(queued)
      ensures e.None? ==>
                && |children'| == |children| + 1
                && Inv(frame, -1, CostLeft(false, g, tree, prefix, attrs, |children'|), 0)
                && Filling(g, plan, frame, tree, prefix, attrs, children')
                && Left(g, plan, tree, prefix, attrs, |children'|) ==
                   Left(g, old(plan), tree, prefix, attrs, |children|)
                && old(plan).jobs <= plan.jobs && (own'.Some? ==> own' == own)
    {
      var entry := tree.entries[i];
      var slot := |fetched|;
      OnlyOwnFile(g, Now(), frame, tree, prefix, attrs, i);
      own' := own;
      children' := ReserveSlot(tree, prefix, frame, attrs, children, entry);
      ghost var rest := CostLeft(false, g, tree, prefix, attrs, |children'|);
      if entry.name == GitAttributes() && own.Some? {
        e := FillOwn(slot, own.value, frame, rest);
        own' := None;
      } else {
        e := FetchBlob(slot, entry.target, frame, rest);
      }
    }

    /** A slot for the next entry. */
    method ReserveSlot(tree: Object, prefix: seq<Byte>, frame: nat, ghost attrs: Stack, children: seq<Node>,
                       entry: TreeEntry)
      returns (children': seq<Node>)
      requires NextKept(g, tree, prefix, attrs, |children|, entry) && !IsDir(entry.kind)
      requires Inv(frame, -1, CostLeft(false, g, tree, prefix, attrs, |children|), 0)
      requires Filling(g, plan, frame, tree, prefix, attrs, children)
      modifies this`plan, this`fetched
      ensures |fetched| == |old(fetched)| + 1 && fetched[|old(fetched)|].None?
      ensures |plan.slots| == |fetched| && plan.slots[|old(fetched)|] == entry.target
      ensures |children'| == |children| + 1 && old(plan).jobs <= plan.jobs
      ensures Inv(frame, |old(fetched)|, CostLeft(false, g, tree, prefix, attrs, |children'|), 0)
      ensures Filling(g, plan, frame, tree, prefix, attrs, children')
      ensures Left(g, plan, tree, prefix, attrs, |children'|) == Left(g, old(plan), tree, prefix, attrs, |children|)
    {
      SlotAdded(g, Now(), frame, tree, prefix, attrs, children, entry);
      children' := children + [NodeOf(entry, Join(prefix, entry.name), |fetched|)];
      plan := AddSlot(plan, entry.target, frame);
      fetched := fetched + [None];
    }

    method FillOwn(slot: nat, data: seq<Byte>, ghost frame: nat, ghost rest: nat) returns (e: Option<Error>)
      requires Inv(frame, slot, rest, 0) && slot < |fetched| && fetched[slot].None? && plan.slots[slot] == Blob(data)
      modifies this`fetched, this`bytes
      ensures Warranted(g, e)
      ensures e.None? ==> Inv(frame, -1, rest, 0)
    {
      ghost var w := Now();
      FillWithin(g, w, frame, slot, rest, slot);
      e := FillSlot(slot, data);
      if e.None? {
        SlotFilled(g, w, frame, rest, slot);
      }
    }

    /** Wait for room in the blob pool, then queue the fetch. */
    method FetchBlob(slot: nat, target: Object, ghost frame: nat, ghost rest: nat) returns (e: Option<Error>)
      requires Inv(frame, slot, rest, 0) && slot < |fetched| && fetched[slot].None? && plan.slots[slot] == target
      modifies this`blobs, this`trees, this`backlog, this`landed, this`fetched, this`bytes, this`arrived, this`queued
      ensures Warranted(g, e) && arrived >= old(arrived) && queued >= old(queued)
      ensures e.None? ==> Inv(frame, -1, rest, 0)
    {
      while |blobs| >= MAX_IN_FLIGHT
        invariant Inv(frame, slot, rest, 0) && slot < |fetched| && fetched[slot].None?
        invariant arrived >= old(arrived) && queued == old(queued)
        decreases Load()
      {
        e := DrainOne(frame, slot, rest, 0);
        if e.Some? {
          return;
        }
      }
      SlotFetched(g, Now(), frame, rest, slot);
      blobs := blobs + [(slot, target)];
      queued := queued + 1;
      e := None;
    }

    // ---- The whole walk ---------------------------------------------------

    constructor (parse: Parser, canFail: bool, tree: Object, prefix: seq<Byte>)
      requires tree.Tree? && ValidTree(tree) && NulFree(prefix)
      ensures this.parse == parse && this.canFail == canFail
      ensures g == Goal(parse, TotalBytes(parse, tree, prefix, Empty), Typed(parse, tree, prefix, Empty), canFail)
      ensures Now() == FirstState(tree, prefix) && arrived == queued == 0
    {
      this.parse, this.canFail := parse, canFail;
      g := Goal(parse, TotalBytes(parse, tree, prefix, Empty), Typed(parse, tree, prefix, Empty), canFail);
      blobs, trees, backlog, landed, frames, fetched := [], [], [], [], [[]], [];
      bytes, arrived, queued := 0, 0, 0;
      plan := FirstState(tree, prefix).plan;
    }

    /** Every directory is read, but the last blobs may still be on their way. */
    method Drain() returns (e: Option<Error>)
      requires Inv(-1, -1, 0, 0) && trees == [] && backlog == [] && landed == []
      modifies this`blobs, this`fetched, this`bytes, this`arrived
      ensures Warranted(g, e) && arrived >= old(arrived)
      ensures e.None? ==> Inv(-1, -1, 0, 0) && blobs == []
    {
      while blobs != []
        invariant Inv(-1, -1, 0, 0) && arrived >= old(arrived)
        decreases |blobs|
      {
        e := LandBlob(-1, -1, 0, 0);
        if e.Some? {
          return;
        }
      }
      e := None;
    }

    /** Read every directory of the tree, in whatever order they arrive. */
    method ReadAll(tree: Object, prefix: seq<Byte>) returns (e: Option<Error>)
      requires tree.Tree? && ValidTree(tree) && NulFree(prefix)
      requires Now() == FirstState(tree, prefix) && arrived == queued == 0
      requires g == Goal(parse, TotalBytes(parse, tree, prefix, Empty), Typed(parse, tree, prefix, Empty), canFail)
      modifies this
      ensures Warranted(g, e)
      ensures e.None? ==> Inv(-1, -1, 0, 0) && blobs == [] && trees == [] && backlog == [] && landed == []
      ensures e.None? ==> arrived == queued
      ensures e.None? ==> [Read(tree, prefix, Empty)] <= plan.jobs
    {
      StartOK(g, tree, prefix);
      e := ReadDir(tree, prefix, 0, Empty);
      if e.None? {
        e := ReadRest();
      }
    }

    /** Read every directory that is waiting, and those found in them. */
    method ReadRest() returns (e: Option<Error>)
      requires Inv(-1, -1, 0, 0)
      modifies this
      ensures Warranted(g, e)
      ensures e.None? ==> Inv(-1, -1, 0, 0) && blobs == [] && trees == [] && backlog == [] && landed == []
      ensures e.None? ==> arrived == queued && old(plan).jobs <= plan.jobs
    {
      while true
        invariant Inv(-1, -1, 0, 0) && old(plan).jobs <= plan.jobs
        decreases DirsWaiting(g, plan)
      {
        var more;
        e, more := ReadNext();
        if e.Some? {
          return;
        }
        if !more {
          break;
        }
      }
      e := Drain();
    }

    /** Read the next directory, unless there is none left. */
    method ReadNext() returns (e: Option<Error>, more: bool)
      requires Inv(-1, -1, 0, 0)
      modifies this
      ensures Warranted(g, e)
      ensures e.None? ==> Inv(-1, -1, 0, 0) && old(plan).jobs <= plan.jobs
      ensures e.None? && more ==> DirsWaiting(g, plan) < DirsWaiting(g, old(plan))
      ensures e.None? && !more ==> backlog == [] && trees == [] && landed == []
    {
      var next;
      e, next := NextTree();
      if e.Some? || next.None? {
        return e, false;
      }
      var (dir, subtree) := next.value;
      e := ReadDir(subtree, dir.path, dir.frame, dir.attrs);
      more := true;
    }

    ghost function Stocked(): Stock
      reads this
    {
      Stock(frames, fetched)
    }

    /** The first `k` nodes of directory `d` have been listed, and nothing else has
        been emptied since `first`. */
    ghost predicate FlatUpTo(was: Stock, first: Stock, d: Node, nodes: seq<Node>, k: nat)
      reads this
    {
      && WholeFrom(plan, was, Stocked(), nodes, k) && OnlyIn(plan, first, Stocked(), d)
      && d.Dir? && GoneTo(plan, Stocked(), nodes, d.frame, k)
    }

    /** `d` is a directory of the finished plan, `nodes` its nodes, and `list` what the
        first so many of them list. */
    ghost predicate Flattens(was: Stock, d: Node, nodes: seq<Node>, list: nat -> seq<ArchiveEntry>)
      reads this
    {
      && Finished(parse, plan, was) && d.Dir? && d.frame < |plan.jobs| && nodes == was.frames[d.frame]
      && forall k: nat {:trigger FrameList(parse, plan, d.frame, k)} :: list(k) == FrameList(parse, plan, d.frame, k)
    }

    /** List nodes in order, emptying the frames and slots they name. */
    method Flatten(nodes: seq<Node>, out: seq<ArchiveEntry>, ghost was: Stock, ghost d: Node,
                   ghost list: nat -> seq<ArchiveEntry>)
      returns (out': seq<ArchiveEntry>)
      requires Flattens(was, d, nodes, list) && list(0) == []
      requires FlatUpTo(was, Stocked(), d, nodes, 0)
      modifies this`frames, this`fetched
      ensures OnlyIn(plan, old(Stocked()), Stocked(), d) && Gone(plan, Stocked(), d)
      ensures out' == out + list(|nodes|)
      decreases |plan.jobs| - d.frame, 2
    {
      out' := out;
      for k := 0 to |nodes|
        invariant FlatUpTo(was, old(Stocked()), d, nodes, k)
        invariant out' == out + list(k)
      {
        ghost var piece;
        out', piece := FlattenNext(nodes, k, out', was, old(Stocked()), d, list);
      }
      FrameGone(was, d, nodes, list);
    }

    lemma FrameGone(was: Stock, d: Node, nodes: seq<Node>, list: nat -> seq<ArchiveEntry>)
      requires Flattens(was, d, nodes, list) && GoneTo(plan, Stocked(), nodes, d.frame, |nodes|)
      ensures Gone(plan, Stocked(), d)
    {
      FrameNodes(parse, plan, was, d.frame);
      AllGone(plan, Stocked(), nodes, d);
    }

    method FlattenNext(nodes: seq<Node>, k: nat, out: seq<ArchiveEntry>, ghost was: Stock, ghost first: Stock,
                       ghost d: Node,
                       ghost list: nat -> seq<ArchiveEntry>)
      returns (out': seq<ArchiveEntry>, ghost piece: seq<ArchiveEntry>)
      requires Flattens(was, d, nodes, list) && FlatUpTo(was, first, d, nodes, k) && k < |nodes|
      modifies this`frames, this`fetched
      ensures FlatUpTo(was, first, d, nodes, k + 1)
      ensures out' == out + piece && list(k + 1) == list(k) + piece
      decreases |plan.jobs| - d.frame, 1
    {
      ghost var before := Stocked();
      NodeNext(parse, plan, was, before, d.frame, k);
      FrameListNext(parse, plan, was, d.frame, k);
      piece := NodeList(parse, plan, was, nodes[k]);
      out' := FlattenNode(nodes[k], out, was, d.frame);
      NodeTaken(plan, was, first, before, Stocked(), nodes, d, k);
      NodeGone(plan, before, Stocked(), nodes, d.frame, k);
    }

    /** The whole listing. Every frame is taken and every slot emptied. */
    method FlattenRoot(ghost tree: Object, ghost prefix: seq<Byte>) returns (out: seq<ArchiveEntry>)
      requires Finished(parse, plan, Stocked()) && [Read(tree, prefix, Empty)] <= plan.jobs
      modifies this`frames, this`fetched
      ensures out == Listing(parse, tree, prefix, Empty)
      ensures forall x :: 0 <= x < |frames| ==> frames[x] == []
      ensures forall s :: 0 <= s < |fetched| ==> fetched[s].None?
    {
      ghost var was := Stocked();
      var root := frames[0];
      ghost var d := Dir(prefix, 0);
      FrameNodes(parse, plan, was, 0);
      FrameListAll(parse, plan, was, 0);
      FrameTaken(plan, was, was, d, root);
      FrameListStarts(parse, plan, 0);
      frames := frames[0 := []];
      out := Flatten(root, [], was, d, FrameLister(parse, plan, 0));
      NothingLeft(plan, Stocked(), d);
    }

    method FlattenNode(node: Node, out: seq<ArchiveEntry>, ghost was: Stock, ghost f: nat)
      returns (out': seq<ArchiveEntry>)
      requires Finished(parse, plan, was) && f < |plan.jobs| && Real(plan, node) && (node.Dir? ==> f < node.frame)
      requires Whole(plan, was, Stocked(), node)
      modifies this`frames, this`fetched
      ensures OnlyIn(plan, old(Stocked()), Stocked(), node) && Gone(plan, Stocked(), node)
      ensures out' == out + NodeList(parse, plan, was, node)
      decreases |plan.jobs| - f, 0
    {
      match node
      case Dir(path, frame) =>
        out' := FlattenDir(node, out + [ArchiveEntry(path, Directory, [])], was);
      case FileNode(path, executable, slot) =>
        out' := out + [ArchiveEntry(path, Regular(executable), Unwrap(fetched[slot]))];
        fetched := fetched[slot := None];
      case LinkNode(path, slot) =>
        out' := out + [ArchiveEntry(path, Link(Unwrap(fetched[slot])), [])];
        fetched := fetched[slot := None];
    }

    method FlattenDir(node: Node, out: seq<ArchiveEntry>, ghost was: Stock) returns (out': seq<ArchiveEntry>)
      requires Finished(parse, plan, was) && node.Dir? && node.frame < |plan.jobs| && Real(plan, node)
      requires Whole(plan, was, Stocked(), node)
      modifies this`frames, this`fetched
      ensures OnlyIn(plan, old(Stocked()), Stocked(), node) && Gone(plan, Stocked(), node)
      ensures out' == out + FrameList(parse, plan, node.frame, |was.frames[node.frame]|)
      decreases |plan.jobs| - node.frame, 3
    {
      var children := frames[node.frame];
      FrameNodes(parse, plan, was, node.frame);
      FrameTaken(plan, was, Stocked(), node, children);
      frames := frames[node.frame := []];
      FrameListStarts(parse, plan, node.frame);
      out' := Flatten(children, out, was, node, FrameLister(parse, plan, node.frame));
    }
  }

  function Unwrap(data: Option<seq<Byte>>): seq<Byte> {
    if data.Some? then data.value else []
  }

  datatype Result = Ok(entries: seq<ArchiveEntry>) | Err(error: Error)

  /** Everything to archive below `tree`. The choices of what lands when are left
      open, so this holds of every schedule. */
  method CollectEntries(parse: Parser, canFail: bool, tree: Object, prefix: seq<Byte>) returns (r: Result)
    requires tree.Tree? && ValidTree(tree) && NulFree(prefix)
    ensures r.Ok? ==> r.entries == Listing(parse, tree, prefix, Empty)
    ensures r.Ok? ==> TotalBytes(parse, tree, prefix, Empty) <= MAX_ARCHIVE_BYTES
    ensures r == Err(TooLarge) ==> TotalBytes(parse, tree, prefix, Empty) > MAX_ARCHIVE_BYTES
    ensures r == Err(FetchFailed) ==> canFail
    ensures r == Err(WrongType) ==> !Typed(parse, tree, prefix, Empty)
  {
    var walk := new Walk(parse, canFail, tree, prefix);
    var e := walk.ReadAll(tree, prefix);
    if e.Some? {
      return Err(e.value);
    }
    EndOK(walk.g, walk.Now());
    var out := walk.FlattenRoot(tree, prefix);
    r := Ok(out);
  }
}
