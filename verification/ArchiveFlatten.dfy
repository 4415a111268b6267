/** The end of the archive walk: the finished frames and slots are emptied, depth
first, into the listing. Each frame and slot is taken by one node only. */
module ArchiveFlatten {
  import opened Bytes
  import opened Attributes
  import opened Archive
  import opened ArchiveState

  datatype Stock = Stock(frames: seq<seq<Node>>, fetched: seq<Option<seq<Byte>>>)

  /** Every directory has been read and every slot filled. */
  ghost predicate Finished(parse: Parser, p: Plan, was: Stock) {
    && Shape(p, was.frames, was.fetched)
    && (forall f :: 0 <= f < |was.frames| ==> p.status[f] == Done && FrameOK(parse, p, was.frames, f))
    && (forall s :: 0 <= s < |was.fetched| ==> was.fetched[s].Some? && p.slots[s] == Blob(was.fetched[s].value))
  }

  /** Frame `x` is `f` or inside it. */
  ghost predicate Under(parentOf: seq<nat>, x: nat, f: nat)
    decreases x
  {
    x == f || (0 < x < |parentOf| && parentOf[x] < x && Under(parentOf, parentOf[x], f))
  }

  lemma {:induction false} UnderAfter(parentOf: seq<nat>, x: nat, f: nat)
    requires Under(parentOf, x, f)
    ensures x >= f
    decreases x
  {
    if x != f { UnderAfter(parentOf, parentOf[x], f); }
  }

  lemma {:induction false} UnderParent(parentOf: seq<nat>, x: nat, c: nat)
    requires Under(parentOf, x, c) && 0 < c < |parentOf| && parentOf[c] < c
    ensures Under(parentOf, x, parentOf[c])
    decreases x
  {
    if x != c { UnderParent(parentOf, parentOf[x], c); }
  }

  /** Nothing is inside two of a directory's children. */
  lemma {:induction false} UnderOne(parentOf: seq<nat>, x: nat, c: nat, d: nat)
    requires 0 < c < |parentOf| && 0 < d < |parentOf| && parentOf[c] == parentOf[d] < c && parentOf[d] < d
    requires Under(parentOf, x, c) && Under(parentOf, x, d)
    ensures c == d
    decreases x
  {
    if x == c && x != d {
      UnderAfter(parentOf, parentOf[c], d);
    } else if x == d && x != c {
      UnderAfter(parentOf, parentOf[d], c);
    } else if x != c {
      UnderOne(parentOf, parentOf[x], c, d);
    }
  }

  /** The frames and slots that are for node `n` to take. */
  ghost predicate FrameIn(p: Plan, n: Node, x: nat) {
    n.Dir? && Under(p.parentOf, x, n.frame)
  }

  ghost predicate SlotIn(p: Plan, n: Node, s: nat) {
    if n.Dir? then s < |p.homeOf| && Under(p.parentOf, p.homeOf[s], n.frame) else s == n.slot
  }

  ghost predicate Within(p: Plan, now: Stock) {
    |now.frames| == |p.jobs| && |now.fetched| == |p.homeOf|
  }

  /** Nothing of node `n`'s has been taken. */
  ghost predicate Whole(p: Plan, was: Stock, now: Stock, n: Node) {
    && Within(p, was) && Within(p, now)
    && (forall x :: 0 <= x < |now.frames| && FrameIn(p, n, x) ==> now.frames[x] == was.frames[x])
    && (forall s :: 0 <= s < |now.fetched| && SlotIn(p, n, s) ==> now.fetched[s] == was.fetched[s])
  }

  /** Only node `n`'s have been taken between. */
  ghost predicate OnlyIn(p: Plan, before: Stock, after: Stock, n: Node) {
    && Within(p, before) && Within(p, after)
    && (forall x :: 0 <= x < |before.frames| && !FrameIn(p, n, x) ==> after.frames[x] == before.frames[x])
    && (forall s :: 0 <= s < |before.fetched| && !SlotIn(p, n, s) ==> after.fetched[s] == before.fetched[s])
  }

  ghost predicate Belongs(p: Plan, n: Node, f: nat) {
    if n.Dir? then 0 < n.frame < |p.parentOf| && p.parentOf[n.frame] == f && f < n.frame
    else n.slot < |p.homeOf| && p.homeOf[n.slot] == f
  }

  /** What one node of a directory takes, another does not. */
  lemma TakenApart(p: Plan, was: Stock, before: Stock, after: Stock, a: Node, b: Node, f: nat)
    requires Belongs(p, a, f) && Belongs(p, b, f) && !SameRef(a, b)
    requires Whole(p, was, before, b) && OnlyIn(p, before, after, a)
    ensures Whole(p, was, after, b)
  {
    forall x: nat | FrameIn(p, b, x) ensures !FrameIn(p, a, x) {
      if FrameIn(p, a, x) { UnderOne(p.parentOf, x, a.frame, b.frame); }
    }
    forall s: nat | s < |p.homeOf| && SlotIn(p, b, s) ensures !SlotIn(p, a, s) {
      if SlotIn(p, a, s) { SlotsApart(p, a, b, f, s); }
    }
  }

  lemma SlotsApart(p: Plan, a: Node, b: Node, f: nat, s: nat)
    requires Belongs(p, a, f) && Belongs(p, b, f) && s < |p.homeOf| && SlotIn(p, a, s) && SlotIn(p, b, s)
    ensures SameRef(a, b)
  {
    if a.Dir? { UnderAfter(p.parentOf, p.homeOf[s], a.frame); }
    if b.Dir? { UnderAfter(p.parentOf, p.homeOf[s], b.frame); }
    if a.Dir? && b.Dir? { UnderOne(p.parentOf, p.homeOf[s], a.frame, b.frame); }
  }

  /** What a node takes is inside its directory. */
  lemma TakenInside(p: Plan, before: Stock, mid: Stock, after: Stock, d: Node, n: Node)
    requires d.Dir? && Belongs(p, n, d.frame) && OnlyIn(p, before, mid, d) && OnlyIn(p, mid, after, n)
    ensures OnlyIn(p, before, after, d)
  {
    forall x: nat | FrameIn(p, n, x) ensures FrameIn(p, d, x) {
      UnderParent(p.parentOf, x, n.frame);
    }
    forall s: nat | s < |p.homeOf| && SlotIn(p, n, s) ensures SlotIn(p, d, s) {
      if n.Dir? { UnderParent(p.parentOf, p.homeOf[s], n.frame); }
    }
  }

  /** The nodes from the `k`-th on are yet to be taken. */
  ghost predicate WholeFrom(p: Plan, was: Stock, now: Stock, nodes: seq<Node>, k: nat) {
    Within(p, was) && Within(p, now) && forall j :: k <= j < |nodes| ==> Whole(p, was, now, nodes[j])
  }

  ghost predicate Siblings(p: Plan, nodes: seq<Node>, f: nat) {
    && (forall j :: 0 <= j < |nodes| ==> Belongs(p, nodes[j], f))
    && (forall j, k :: 0 <= j < k < |nodes| ==> !SameRef(nodes[j], nodes[k]))
  }

  /** Everything of node `n`'s has been taken. */
  function EmptyStock(p: Plan): Stock {
    Stock(seq(|p.jobs|, _ => []), seq(|p.homeOf|, _ => None))
  }

  ghost predicate Gone(p: Plan, now: Stock, n: Node) {
    Whole(p, EmptyStock(p), now, n)
  }

  /** Directory `f` has been taken, and the first `k` of its nodes with all in them. */
  ghost predicate GoneTo(p: Plan, now: Stock, nodes: seq<Node>, f: nat, k: nat) {
    Within(p, now) && f < |now.frames| && now.frames[f] == [] && forall j :: 0 <= j < k && j < |nodes| ==>
        Gone(p, now, nodes[j])
  }

  lemma NodeTaken(p: Plan, was: Stock, first: Stock, before: Stock, after: Stock, nodes: seq<Node>, d: Node, k: nat)
    requires d.Dir? && Siblings(p, nodes, d.frame) && WholeFrom(p, was, before, nodes, k) && k < |nodes|
    requires OnlyIn(p, first, before, d) && OnlyIn(p, before, after, nodes[k])
    ensures WholeFrom(p, was, after, nodes, k + 1) && OnlyIn(p, first, after, d)
  {
    forall j | k + 1 <= j < |nodes| ensures Whole(p, was, after, nodes[j]) {
      assert Whole(p, was, before, nodes[j]);
      TakenApart(p, was, before, after, nodes[k], nodes[j], d.frame);
    }
    TakenInside(p, first, before, after, d, nodes[k]);
  }

  lemma NodeGone(p: Plan, before: Stock, after: Stock, nodes: seq<Node>, f: nat, k: nat)
    requires Siblings(p, nodes, f) && k < |nodes| && GoneTo(p, before, nodes, f, k)
    requires OnlyIn(p, before, after, nodes[k]) && Gone(p, after, nodes[k])
    ensures GoneTo(p, after, nodes, f, k + 1)
  {
    forall j | 0 <= j < k ensures Gone(p, after, nodes[j]) {
      TakenApart(p, EmptyStock(p), before, after, nodes[k], nodes[j], f);
    }
    if FrameIn(p, nodes[k], f) { UnderAfter(p.parentOf, f, nodes[k].frame); }
  }

  /** What is inside a directory is inside one of its children. */
  lemma {:induction false} UnderChild(parentOf: seq<nat>, x: nat, f: nat) returns (c: nat)
    requires Under(parentOf, x, f) && x != f
    ensures 0 < c < |parentOf| && parentOf[c] == f && f < c && Under(parentOf, x, c)
    decreases x
  {
    if parentOf[x] == f {
      c := x;
    } else {
      c := UnderChild(parentOf, parentOf[x], f);
    }
  }

  /** With every node gone, and every frame and slot named by a node, all that was in
      the directory is gone. */
  lemma AllGone(p: Plan, now: Stock, nodes: seq<Node>, d: Node)
    requires d.Dir? && GoneTo(p, now, nodes, d.frame, |nodes|) && AllNamed(p, d.frame, nodes)
    ensures Gone(p, now, d)
  {
    forall x: nat | x < |now.frames| && FrameIn(p, d, x) && x != d.frame ensures now.frames[x] == [] {
      var c := UnderChild(p.parentOf, x, d.frame);
      var k :| 0 <= k < |nodes| && nodes[k].Dir? && nodes[k].frame == c;
      assert Gone(p, now, nodes[k]) && FrameIn(p, nodes[k], x);
    }
    forall s: nat | s < |now.fetched| && SlotIn(p, d, s) ensures now.fetched[s].None? {
      SlotGone(p, now, nodes, d, s);
    }
  }

  lemma SlotGone(p: Plan, now: Stock, nodes: seq<Node>, d: Node, s: nat)
    requires d.Dir? && GoneTo(p, now, nodes, d.frame, |nodes|) && AllNamed(p, d.frame, nodes)
    requires s < |now.fetched| && SlotIn(p, d, s)
    ensures now.fetched[s].None?
  {
    if p.homeOf[s] == d.frame {
      var k :| 0 <= k < |nodes| && !nodes[k].Dir? && nodes[k].slot == s;
      assert Gone(p, now, nodes[k]) && SlotIn(p, nodes[k], s);
    } else {
      var c := UnderChild(p.parentOf, p.homeOf[s], d.frame);
      var k :| 0 <= k < |nodes| && nodes[k].Dir? && nodes[k].frame == c;
      assert Gone(p, now, nodes[k]) && SlotIn(p, nodes[k], s);
    }
  }

  /** Everything is inside the root. */
  lemma {:induction false} UnderRoot(parentOf: seq<nat>, x: nat)
    requires x < |parentOf| && forall y :: 0 < y < |parentOf| ==> parentOf[y] < y
    ensures Under(parentOf, x, 0)
    decreases x
  {
    if x > 0 { UnderRoot(parentOf, parentOf[x]); }
  }

  lemma NothingLeft(p: Plan, now: Stock, d: Node)
    requires d.Dir? && d.frame == 0 && Gone(p, now, d) && Shape(p, now.frames, now.fetched)
    ensures forall x :: 0 <= x < |now.frames| ==> now.frames[x] == []
    ensures forall s :: 0 <= s < |now.fetched| ==> now.fetched[s].None?
  {
    forall x: nat | x < |now.frames| ensures now.frames[x] == [] {
      UnderRoot(p.parentOf, x);
      assert FrameIn(p, d, x);
    }
    forall s: nat | s < |now.fetched| ensures now.fetched[s].None? {
      UnderRoot(p.parentOf, p.homeOf[s]);
      assert SlotIn(p, d, s);
    }
  }

  /** A frame just taken: everything inside it is still there. */
  lemma FrameTaken(p: Plan, was: Stock, before: Stock, n: Node, nodes: seq<Node>)
    requires n.Dir? && n.frame < |p.jobs| && Whole(p, was, before, n) && Siblings(p, nodes, n.frame)
    ensures var after := before.(frames := before.frames[n.frame := []]);
            OnlyIn(p, before, after, n) && WholeFrom(p, was, after, nodes, 0)
  {
    var after := before.(frames := before.frames[n.frame := []]);
    forall j | 0 <= j < |nodes| ensures Whole(p, was, after, nodes[j]) {
      var b := nodes[j];
      forall x: nat | FrameIn(p, b, x) ensures FrameIn(p, n, x) && x != n.frame {
        UnderParent(p.parentOf, x, b.frame);
        UnderAfter(p.parentOf, x, b.frame);
      }
      forall s: nat | s < |p.homeOf| && SlotIn(p, b, s) ensures SlotIn(p, n, s) {
        if b.Dir? { UnderParent(p.parentOf, p.homeOf[s], b.frame); }
      }
    }
  }

  /** What frame `f` lists, for its first `k` nodes. */
  ghost function FrameList(parse: Parser, p: Plan, f: nat, k: nat): seq<ArchiveEntry>
    requires f < |p.jobs|
  {
    match p.jobs[f]
    case Nothing => []
    case Read(tree, path, attrs) =>
      if tree.Tree? && k <= |KeptAll(parse, tree, path, attrs)|
      then ListUpTo(parse, tree, KeptAll(parse, tree, path, attrs), k, path, Inner(parse, tree, path, attrs)) else []
  }

  ghost predicate Real(p: Plan, n: Node) {
    if n.Dir? then n.frame < |p.jobs| else n.slot < |p.slots|
  }

  /** What a node lists: itself and, for a directory, what its frame lists. */
  ghost function NodeList(parse: Parser, p: Plan, was: Stock, n: Node): seq<ArchiveEntry>
    requires Finished(parse, p, was) && Real(p, n)
  {
    match n
    case Dir(path, c) => [ArchiveEntry(path, Directory, [])] + FrameList(parse, p, c, |was.frames[c]|)
    case FileNode(path, x, s) => [ArchiveEntry(path, Regular(x), was.fetched[s].value)]
    case LinkNode(path, s) => [ArchiveEntry(path, Link(was.fetched[s].value), [])]
  }

  lemma FrameNodes(parse: Parser, p: Plan, was: Stock, f: nat)
    requires Finished(parse, p, was) && f < |p.jobs|
    ensures Siblings(p, was.frames[f], f) && AllNamed(p, f, was.frames[f])
  {
    assert FrameOK(parse, p, was.frames, f);
  }

  /** The next node of a directory may be listed. */
  lemma NodeNext(parse: Parser, p: Plan, was: Stock, now: Stock, f: nat, k: nat)
    requires Finished(parse, p, was) && f < |p.jobs| && k < |was.frames[f]| && WholeFrom(p, was, now, was.frames[f], k)
    ensures Siblings(p, was.frames[f], f) && Whole(p, was, now, was.frames[f][k])
    ensures var n := was.frames[f][k]; Real(p, n) && (n.Dir? ==> f < n.frame)
  {
    FrameNodes(parse, p, was, f);
  }

  /** What a node lists is what its entry stands for. */
  lemma NodeListed(parse: Parser, p: Plan, was: Stock, n: Node, e: TreeEntry, prefix: seq<Byte>, inner: Stack, f: nat)
    requires Finished(parse, p, was) && NodeFor(n, e, prefix, inner, f, p)
    ensures NodeList(parse, p, was, n) == [Member(e, Join(prefix, e.name))] +
            if e.kind == Subtree then Listing(parse, e.target, Join(prefix, e.name), inner) else []
  {
    if n.Dir? {
      assert FrameOK(parse, p, was.frames, n.frame);
      if e.kind == Subtree { FrameListAll(parse, p, was, n.frame); }
    }
  }

  lemma FrameListNext(parse: Parser, p: Plan, was: Stock, f: nat, k: nat)
    requires Finished(parse, p, was) && f < |p.jobs| && k < |was.frames[f]|
    ensures var n := was.frames[f][k];
            && Real(p, n)
            && FrameList(parse, p, f, k + 1) == FrameList(parse, p, f, k) + NodeList(parse, p, was, n)
  {
    assert FrameOK(parse, p, was.frames, f);
    var j := p.jobs[f];
    var kept := KeptAll(parse, j.tree, j.path, j.attrs);
    var inner := Inner(parse, j.tree, j.path, j.attrs);
    NodeListed(parse, p, was, was.frames[f][k], kept[k], j.path, inner, f);
    ListUpToNext(parse, j.tree, kept, k, j.path, inner);
  }

  lemma ListUpToNext(parse: Parser, tree: Object, kept: seq<TreeEntry>, k: nat, prefix: seq<Byte>, inner: Stack)
    requires tree.Tree? && k < |kept| && (forall e :: e in kept ==> e in tree.entries)
    ensures var path := Join(prefix, kept[k].name);
            ListUpTo(parse, tree, kept, k + 1, prefix, inner) == ListUpTo(parse, tree, kept, k, prefix, inner) +
            ([Member(kept[k], path)] + if kept[k].kind == Subtree then Listing(parse, kept[k].target, path, inner)
                                       else [])
  {
  }

  ghost function FrameLister(parse: Parser, p: Plan, f: nat): nat -> seq<ArchiveEntry>
    requires f < |p.jobs|
  {
    (k: nat) => FrameList(parse, p, f, k)
  }

  lemma FrameListStarts(parse: Parser, p: Plan, f: nat)
    requires f < |p.jobs|
    ensures FrameList(parse, p, f, 0) == []
  {
  }

  /** The whole of a frame is its directory's listing. */
  lemma FrameListAll(parse: Parser, p: Plan, was: Stock, f: nat)
    requires Finished(parse, p, was) && f < |p.jobs| && p.jobs[f].Read?
    ensures FrameList(parse, p, f, |was.frames[f]|) == Listing(parse, p.jobs[f].tree, p.jobs[f].path, p.jobs[f].attrs)
  {
    assert FrameOK(parse, p, was.frames, f);
  }
}
