/** Where one object has two paths, the order things land in shows in the list. */
module HistoryOrders {
  import opened Bytes
  import opened History
  import opened HistoryWalk

  /** Following an object's links, the hash of its own path being `hash`. */
  function FollowLinks(s: State, links: seq<Link>, hash: nat): State
    decreases |links|
  {
    if links == [] then s
    else FollowLinks(Take(s, links[0].id, HashBy(hash, links[0]), links[0].fetch), links[1..], hash)
  }

  /** What the walk comes to when the `k`-th object in flight lands. */
  function Visited(g: Graph, s: State, k: nat): State
    requires k < |s.inFlight| && s.inFlight[k].id in g
  {
    var f := s.inFlight[k];
    FollowLinks(Landed(s, k, g[f.id]), Links(g[f.id]), f.hash)
  }

  lemma {:induction false} FollowLinksOK(g: Graph, tips: seq<Id>, s: State, f: Found, links: seq<Link>)
    requires OK(g, tips, s, links, Some(f.id)) && Agrees(g) && Warranted(g, tips, f, true) && f.id in g
    requires forall link :: link in links ==> link in Links(g[f.id])
    ensures OK(g, tips, FollowLinks(s, links, f.hash), [], Some(f.id))
    decreases |links|
  {
    if links != [] {
      assert links == [links[0]] + links[1..];
      LinkWarranted(g, tips, f, links[0]);
      TakeOK(g, tips, s, links[0], HashBy(f.hash, links[0]), links[1..], Some(f.id));
      FollowLinksOK(g, tips, Take(s, links[0].id, HashBy(f.hash, links[0]), links[0].fetch), f, links[1..]);
    }
  }

  /** Any object in flight may be the next, and the invariant holds after it. */
  lemma VisitedOK(g: Graph, tips: seq<Id>, s: State, k: nat)
    requires OK(g, tips, s, [], None) && Agrees(g) && k < |s.inFlight| && s.inFlight[k].id in g
    ensures OK(g, tips, Visited(g, s, k), [], None)
  {
    var f := s.inFlight[k];
    InFlightWarranted(g, tips, s, k);
    LandOK(g, tips, s, k);
    FollowLinksOK(g, tips, Landed(s, k, g[f.id]), f, Links(g[f.id]));
    DoneOK(g, tips, Visited(g, s, k), f.id);
  }

  // ---- Two orders ---------------------------------------------------------

  const A: seq<Byte> := ['a' as int]
  const B: seq<Byte> := ['b' as int]
  const C: seq<Byte> := ['c' as int]

  /** File 3 is `a` in one tree and `c` in another, and file 4 is `b`. */
  function TwoTrees(): Graph {
    map[1 := Tree([Entry(A, File, 3)]), 2 := Tree([Entry(C, File, 3), Entry(B, File, 4)]), 3 := Blob, 4 := Blob]
  }

  /** Both trees have been asked for, and either may land first. */
  function BothAsked(): State { State({1, 2}, [], [Found(1, 0), Found(2, 0)], [], [], [], []) }

  lemma BothAskedOK()
    ensures OK(TwoTrees(), [1, 2], BothAsked(), [], None)
  {
    var g, tips := TwoTrees(), [1, 2];
    var s0 := State({}, [], [], [], [], [], []);
    StartOK(g, tips, s0);
    AskTwo(g, 1, 2, s0);
  }

  lemma AskTwo(g: Graph, a: Id, b: Id, s: State)
    requires a != b && s == State({}, [], [], [], [], [], [])
    requires OK(g, [a, b], s, [], None) && AskedOnce(g, [a, b], [], s)
    ensures OK(g, [a, b], State({a, b}, [], [Found(a, 0), Found(b, 0)], [], [], [], []), [], None)
  {
    var s1 := State({a}, [Found(a, 0)], [], [], [], [], []);
    var s2 := State({a, b}, [Found(a, 0), Found(b, 0)], [], [], [], [], []);
    AskOne(g, [a, b], a, s, s1);
    AskOne(g, [a, b], b, s1, s2);
    IssueTwo(g, [a, b], s2);
  }

  lemma AskOne(g: Graph, tips: seq<Id>, id: Id, s: State, s': State)
    requires OK(g, tips, s, [], None) && AskedOnce(g, tips, [], s) && id in tips && s' == Take(s, id, 0, true)
    ensures OK(g, tips, s', [], None) && AskedOnce(g, tips, [], s')
  {
    TipOK(g, tips, s, id, []);
  }

  lemma IssueTwo(g: Graph, tips: seq<Id>, s: State)
    requires OK(g, tips, s, [], None) && |s.pending| == 2 && s.inFlight == []
    ensures OK(g, tips, s.(pending := [], inFlight := s.pending), [], None)
  {
    IssueOK(g, tips, s);
    IssueOK(g, tips, Issued(s));
    assert Issued(Issued(s)) == s.(pending := [], inFlight := s.pending);
  }

  lemma FileLinks(a: Entry, b: Entry)
    requires a.kind == File && b.kind == File
    ensures EntryLinks([a]) == [Link(a.id, Some(a.name), false)]
    ensures EntryLinks([a, b]) == [Link(a.id, Some(a.name), false), Link(b.id, Some(b.name), false)]
  {
    assert [a][1..] == [] && [b][1..] == [] && [a, b][1..] == [b];
    assert EntryLinks([]) == [];
    assert EntryLinks([b]) == [Link(b.id, Some(b.name), false)];
  }

  lemma LinksOfTwo()
    ensures Links(TwoTrees()[1]) == [Link(3, Some(A), false)]
    ensures Links(TwoTrees()[2]) == [Link(3, Some(C), false), Link(4, Some(B), false)]
  {
    FileLinks(Entry(A, File, 3), Entry(A, File, 3));
    FileLinks(Entry(C, File, 3), Entry(B, File, 4));
  }

  lemma TwoAgree()
    ensures Agrees(TwoTrees())
  {
    LinksOfTwo();
  }

  /** A name of one letter, at the top of a tree that is a tip. */
  lemma HashOfOne(c: Byte, id: Id)
    requires !Space(c) && c < 0x80
    ensures HashBy(0, Link(id, Some([c]), false)) == 0x0bc0_0000 + c * 0x100_0000
  {
    var slash: Byte := '/' as int;
    ExtendOne(0, slash);
    ExtendOne(ExtendHash(0, [slash]), c);
  }

  lemma ExtendOne(hash: nat, c: Byte)
    ensures ExtendHash(hash, [c]) == HashByte(hash, c)
  {
    assert [c][..0] == [];
  }

  lemma FollowTwo(s: State, a: Link, b: Link, hash: nat)
    ensures FollowLinks(s, [a], hash) == Take(s, a.id, HashBy(hash, a), a.fetch)
    ensures FollowLinks(s, [a, b], hash) ==
              Take(Take(s, a.id, HashBy(hash, a), a.fetch), b.id, HashBy(hash, b), b.fetch)
  {
    var after := Take(s, a.id, HashBy(hash, a), a.fetch);
    assert [a][1..] == [] && [a, b][1..] == [b] && [b][1..] == [];
    assert FollowLinks(after, [b], hash) == FollowLinks(Take(after, b.id, HashBy(hash, b), b.fetch), [], hash);
  }

  /** Both trees landed, the blobs being those. */
  function Both(trees: seq<Found>, hash3: nat, hash4: nat): State {
    State({1, 2, 3, 4}, [], [], [], [], trees, [Found(3, hash3), Found(4, hash4)])
  }

  lemma FirstThenSecond() returns (s: State)
    ensures s == Visited(TwoTrees(), BothAsked(), 0)
    ensures s.inFlight == [Found(2, 0)] && s.inFlight[0].id in TwoTrees()
    ensures Visited(TwoTrees(), s, 0) == Both([Found(1, 0), Found(2, 0)], 0x6cc0_0000, 0x6dc0_0000)
  {
    LinksOfTwo();
    HashOfOne(A[0], 3);
    HashOfOne(B[0], 4);
    var a, b, c := Link(3, Some(A), false), Link(4, Some(B), false), Link(3, Some(C), false);
    s := State({1, 2, 3}, [], [Found(2, 0)], [], [], [Found(1, 0)], [Found(3, 0x6cc0_0000)]);
    FollowTwo(Landed(BothAsked(), 0, TwoTrees()[1]), a, a, 0);
    assert s == Visited(TwoTrees(), BothAsked(), 0);
    FollowTwo(Landed(s, 0, TwoTrees()[2]), c, b, 0);
  }

  lemma SecondThenFirst() returns (s: State)
    ensures s == Visited(TwoTrees(), BothAsked(), 1)
    ensures s.inFlight == [Found(1, 0)] && s.inFlight[0].id in TwoTrees()
    ensures Visited(TwoTrees(), s, 0) == Both([Found(2, 0), Found(1, 0)], 0x6ec0_0000, 0x6dc0_0000)
  {
    LinksOfTwo();
    HashOfOne(C[0], 3);
    HashOfOne(B[0], 4);
    var a, b, c := Link(3, Some(A), false), Link(4, Some(B), false), Link(3, Some(C), false);
    s := State({1, 2, 3, 4}, [], [Found(1, 0)], [], [], [Found(2, 0)], [Found(3, 0x6ec0_0000), Found(4, 0x6dc0_0000)]);
    FollowTwo(Landed(BothAsked(), 1, TwoTrees()[2]), c, b, 0);
    assert s == Visited(TwoTrees(), BothAsked(), 1);
    FollowTwo(Landed(s, 0, TwoTrees()[1]), a, a, 0);
  }

  lemma FirstListed(trees: seq<Found>, hash3: nat, hash4: nat)
    ensures var list := PackOrder(Both(trees, hash3, hash4));
            list != [] && list[0] == if hash3 >= hash4 then 3 else 4
  {
    var x, y := Found(3, hash3), Found(4, hash4);
    assert [x, y][1..] == [y] && [y][1..] == [];
    assert Sorted([y]) == [y];
    assert Sorted([x, y]) == Insert(x, [y]);
    assert [y][1..] == [] && Insert(x, []) == [x];
  }

  /** Both runs end, with the same objects, and the lists are not the same. */
  lemma OrderShows() returns (s: State, s': State)
    ensures Finished(TwoTrees(), [1, 2], s) && Finished(TwoTrees(), [1, 2], s')
    ensures PackOrder(s) != PackOrder(s')
  {
    var g, tips := TwoTrees(), [1, 2];
    BothAskedOK();
    TwoAgree();
    var s1 := FirstThenSecond();
    var s2 := SecondThenFirst();
    s, s' := Visited(g, s1, 0), Visited(g, s2, 0);
    VisitedOK(g, tips, BothAsked(), 0);
    VisitedOK(g, tips, s1, 0);
    VisitedOK(g, tips, BothAsked(), 1);
    VisitedOK(g, tips, s2, 0);
    ResultOK(g, tips, s);
    ResultOK(g, tips, s');
    FirstListed(s.trees, 0x6cc0_0000, 0x6dc0_0000);
    FirstListed(s'.trees, 0x6ec0_0000, 0x6dc0_0000);
  }
}
