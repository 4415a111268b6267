/** What a bundle of a history holds: every object its tips reach, each once, in
pack order. Nothing here fetches. */
module History {
  import opened Bytes

  /** Ids in the order of their bytes. */
  type Id = nat

  datatype Kind = Subtree | File | Executable | Symlink | Gitlink
  datatype Entry = Entry(name: seq<Byte>, kind: Kind, id: Id)
  datatype Object =
    | Commit(tree: Id, parents: seq<Id>)
    | Tag(target: Id)
    | Tree(entries: seq<Entry>)
    | Blob

  type Graph = map<Id, Object>

  // ---- Name hashes --------------------------------------------------------

  predicate Space(c: Byte) { c == 0x20 || 0x09 <= c <= 0x0d }

  function HashByte(hash: nat, c: Byte): nat {
    if Space(c) then hash else (hash / 4 + c * 0x100_0000) % 0x1_0000_0000
  }

  function ExtendHash(hash: nat, name: seq<Byte>): nat {
    if name == [] then hash else HashByte(ExtendHash(hash, name[..|name| - 1]), name[|name| - 1])
  }

  function NameHash(path: seq<Byte>): nat { ExtendHash(0, path) }

  /** Carrying a hash on through a name is hashing the whole path. */
  lemma {:induction false} HashOfWhole(hash: nat, a: seq<Byte>, b: seq<Byte>)
    ensures ExtendHash(hash, a + b) == ExtendHash(ExtendHash(hash, a), b)
  {
    if b == [] {
      assert a + b == a;
    } else {
      assert (a + b)[..|a + b| - 1] == a + b[..|b| - 1];
      HashOfWhole(hash, a, b[..|b| - 1]);
    }
  }

  // ---- Reachability -------------------------------------------------------

  /** A link from an object to another: by name from a tree, else without one. A file
      named by a tree is known for a blob and not fetched. */
  datatype Link = Link(id: Id, name: Option<seq<Byte>>, fetch: bool)

  function EntryLinks(entries: seq<Entry>): seq<Link> {
    if entries == [] then []
    else
      var e := entries[0];
      (if e.kind == Gitlink then [] else [Link(e.id, Some(e.name), e.kind == Subtree)]) + EntryLinks(entries[1..])
  }

  function Unnamed(ids: seq<Id>): seq<Link> {
    seq(|ids|, k requires 0 <= k < |ids| => Link(ids[k], None, true))
  }

  function Links(o: Object): seq<Link> {
    match o
    case Commit(tree, parents) => [Link(tree, None, true)] + Unnamed(parents)
    case Tag(target) => [Link(target, None, true)]
    case Tree(entries) => EntryLinks(entries)
    case Blob => []
  }

  function LinksOf(g: Graph, id: Id): seq<Link> {
    if id in g then Links(g[id]) else []
  }

  /** The path an object is at, when reached by a link from one at `path`. */
  function PathBy(path: seq<Byte>, link: Link): seq<Byte> {
    if link.name.None? then [] else path + ['/' as int] + link.name.value
  }

  /** A way to an object: from a tip, a link at a time. */
  datatype Step = Step(id: Id, path: seq<Byte>, fetch: bool)

  ghost predicate Goes(g: Graph, a: Step, b: Step) {
    exists link :: link in LinksOf(g, a.id) && b == Step(link.id, PathBy(a.path, link), link.fetch)
  }

  ghost predicate Trail(g: Graph, tips: seq<Id>, t: seq<Step>) {
    && t != [] && t[0].id in tips && t[0].path == [] && t[0].fetch
    && forall k :: 0 < k < |t| ==> Goes(g, t[k - 1], t[k])
  }

  ghost predicate Reached(g: Graph, tips: seq<Id>, s: Step) {
    exists t :: Trail(g, tips, t) && t[|t| - 1] == s
  }

  lemma TipReached(g: Graph, tips: seq<Id>, id: Id)
    requires id in tips
    ensures Reached(g, tips, Step(id, [], true))
  {
    var t := [Step(id, [], true)];
    assert Trail(g, tips, t) && t[|t| - 1] == Step(id, [], true);
  }

  lemma LinkReached(g: Graph, tips: seq<Id>, s: Step, link: Link)
    requires Reached(g, tips, s) && link in LinksOf(g, s.id)
    ensures Reached(g, tips, Step(link.id, PathBy(s.path, link), link.fetch))
  {
    var t :| Trail(g, tips, t) && t[|t| - 1] == s;
    var next := Step(link.id, PathBy(s.path, link), link.fetch);
    assert Goes(g, s, next);
    var t' := t + [next];
    assert Trail(g, tips, t') && t'[|t'| - 1] == next;
  }

  /** Everything reached is in any set that has the tips and follows links. */
  lemma {:induction false} ReachedWithin(g: Graph, tips: seq<Id>, t: seq<Step>, seen: set<Id>)
    requires Trail(g, tips, t)
    requires forall id :: id in tips ==> id in seen
    requires forall id, link :: id in seen && link in LinksOf(g, id) ==> link.id in seen
    ensures t[|t| - 1].id in seen
  {
    if |t| > 1 {
      var before := t[..|t| - 1];
      assert Trail(g, tips, before);
      ReachedWithin(g, tips, before, seen);
      assert Goes(g, t[|t| - 2], t[|t| - 1]);
    }
  }

  ghost predicate ReachedId(g: Graph, tips: seq<Id>, id: Id) {
    exists path, fetch :: Reached(g, tips, Step(id, path, fetch))
  }

  /** What a tree calls a file is not some other object that holds links. */
  ghost predicate Agrees(g: Graph) {
    forall id, link :: id in g && link in Links(g[id]) && !link.fetch && link.id in g ==> g[link.id].Blob?
  }

  // ---- Pack order ---------------------------------------------------------

  datatype Found = Found(id: Id, hash: nat)

  predicate Before(a: Found, b: Found) {
    a.hash > b.hash || (a.hash == b.hash && a.id <= b.id)
  }

  predicate Ordered(s: seq<Found>) {
    forall i, j :: 0 <= i < j < |s| ==> Before(s[i], s[j])
  }

  function Insert(x: Found, s: seq<Found>): seq<Found> {
    if s == [] then [x] else if Before(x, s[0]) then [x] + s else [s[0]] + Insert(x, s[1..])
  }

  function Sorted(s: seq<Found>): seq<Found> {
    if s == [] then [] else Insert(s[0], Sorted(s[1..]))
  }

  lemma InsertCounts(x: Found, s: seq<Found>)
    ensures multiset(Insert(x, s)) == multiset(s) + multiset{x}
  {
    if s != [] {
      assert s == [s[0]] + s[1..];
      if !Before(x, s[0]) { InsertCounts(x, s[1..]); }
    }
  }

  lemma OrderedCons(x: Found, s: seq<Found>)
    requires Ordered(s) && forall y :: y in multiset(s) ==> Before(x, y)
    ensures Ordered([x] + s)
  {
    forall i | 0 <= i < |s| ensures Before(x, s[i]) {
      assert s[i] in multiset(s);
    }
  }

  lemma {:induction false} InsertOrders(x: Found, s: seq<Found>)
    requires Ordered(s)
    ensures Ordered(Insert(x, s))
  {
    if s != [] {
      forall y | y in multiset(s) ensures Before(s[0], y) {
        var i :| 0 <= i < |s| && s[i] == y;
      }
      if Before(x, s[0]) {
        OrderedCons(x, s);
      } else {
        InsertOrders(x, s[1..]);
        InsertCounts(x, s[1..]);
        assert s == [s[0]] + s[1..];
        OrderedCons(s[0], Insert(x, s[1..]));
      }
    }
  }

  /** Sorting keeps just what it was given, in order. */
  lemma {:induction false} SortedIs(s: seq<Found>)
    ensures Ordered(Sorted(s)) && multiset(Sorted(s)) == multiset(s)
  {
    if s != [] {
      SortedIs(s[1..]);
      InsertCounts(s[0], Sorted(s[1..]));
      InsertOrders(s[0], Sorted(s[1..]));
      assert s == [s[0]] + s[1..];
    }
  }

  lemma FirstIsLeast(a: seq<Found>, x: Found)
    requires Ordered(a) && x in multiset(a)
    ensures a != [] && (Before(a[0], x) || a[0] == x)
  {
    var i :| 0 <= i < |a| && a[i] == x;
  }

  lemma TailCounts(a: seq<Found>)
    requires a != []
    ensures multiset(a[1..]) == multiset(a) - multiset{a[0]} && a[0] in multiset(a)
  {
    assert a == [a[0]] + a[1..];
  }

  /** Two lists in order that hold the same objects are the same list. */
  lemma {:induction false} OrderIsFixed(a: seq<Found>, b: seq<Found>)
    requires Ordered(a) && Ordered(b) && multiset(a) == multiset(b)
    ensures a == b
  {
    if a == [] {
      if b != [] { TailCounts(b); }
    } else {
      TailCounts(a);
      FirstIsLeast(b, a[0]);
      TailCounts(b);
      FirstIsLeast(a, b[0]);
      assert a[0] == b[0];
      OrderIsFixed(a[1..], b[1..]);
    }
  }

  function Ids(s: seq<Found>): seq<Id> {
    seq(|s|, k requires 0 <= k < |s| => s[k].id)
  }
}
