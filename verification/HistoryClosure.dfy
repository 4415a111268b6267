/** What a list of objects must be, said of the objects in it: closed under what they
name, and no more than that takes; by type, and in order within a type. */
module HistoryClosure {
  import opened Bytes
  import opened History

  // ---- What is listed -----------------------------------------------------

  /** Does `a` name `b`: as its tree or a parent, as what it tags, or as an entry that is
      no gitlink? */
  ghost predicate Names(g: Graph, a: Id, b: Id) {
    a in g &&
    match g[a]
    case Commit(tree, parents) => b == tree || b in parents
    case Tag(target) => b == target
    case Tree(entries) => exists e :: e in entries && e.kind != Gitlink && e.id == b
    case Blob => false
  }

  /** Does it name it as something to look into: not as a file? */
  ghost predicate NamesToFetch(g: Graph, a: Id, b: Id) {
    Names(g, a, b) && (g[a].Tree? ==> exists e :: e in g[a].entries && e.kind == Subtree && e.id == b)
  }

  ghost predicate Closed(g: Graph, tips: seq<Id>, ids: set<Id>) {
    && (forall id :: id in tips ==> id in ids)
    && (forall a, b :: a in ids && Names(g, a, b) ==> b in ids)
  }

  /** The tips and all that is named from there on, and nothing else: whatever else is
      closed holds it, and all but the tips is named by something in it. */
  ghost predicate Closure(g: Graph, tips: seq<Id>, ids: set<Id>) {
    && Closed(g, tips, ids)
    && (forall other: set<Id> :: Closed(g, tips, other) ==> ids <= other)
    && (forall b :: b in ids ==> b in tips || exists a :: a in ids && Names(g, a, b))
  }

  lemma {:induction false} EntryNames(entries: seq<Entry>, b: Id, fetch: bool)
    ensures (exists link :: link in EntryLinks(entries) && link.id == b && link.fetch == fetch) <==>
              exists e :: e in entries && e.kind != Gitlink && e.id == b && (e.kind == Subtree) == fetch
  {
    if entries != [] {
      var e := entries[0];
      EntryNames(entries[1..], b, fetch);
      assert entries == [e] + entries[1..];
      var own := if e.kind == Gitlink then [] else [Link(e.id, Some(e.name), e.kind == Subtree)];
      assert EntryLinks(entries) == own + EntryLinks(entries[1..]);
    }
  }

  lemma UnnamedAre(ids: seq<Id>, b: Id)
    ensures (exists link :: link in Unnamed(ids) && link.id == b) <==> b in ids
    ensures forall link :: link in Unnamed(ids) ==> link.fetch
  {
    if b in ids {
      var k :| 0 <= k < |ids| && ids[k] == b;
      assert Unnamed(ids)[k].id == b;
    }
  }

  /** The links of an object are to what it names. */
  lemma LinksName(g: Graph, a: Id, b: Id)
    ensures (exists link :: link in LinksOf(g, a) && link.id == b) <==> Names(g, a, b)
    ensures (exists link :: link in LinksOf(g, a) && link.id == b && link.fetch) <==> NamesToFetch(g, a, b)
  {
    if a in g {
      match g[a]
      case Commit(tree, parents) =>
        UnnamedAre(parents, b);
        var own := [Link(tree, None, true)];
        assert Links(g[a]) == own + Unnamed(parents);
        assert own[0] in own;
      case Tag(target) => assert Links(g[a])[0].id == target;
      case Tree(entries) =>
        EntryNames(entries, b, true);
        EntryNames(entries, b, false);
      case Blob =>
    }
  }

  lemma ReachedOn(g: Graph, tips: seq<Id>, a: Id, b: Id)
    requires ReachedId(g, tips, a) && Names(g, a, b)
    ensures ReachedId(g, tips, b)
  {
    LinksName(g, a, b);
    var link :| link in LinksOf(g, a) && link.id == b;
    var path, fetch :| Reached(g, tips, Step(a, path, fetch));
    LinkReached(g, tips, Step(a, path, fetch), link);
  }

  /** Whatever is reached is a tip or named by something reached. */
  lemma NamedBy(g: Graph, tips: seq<Id>, b: Step) returns (a: Id)
    requires Reached(g, tips, b)
    ensures (b.id in tips && b.fetch) || (ReachedId(g, tips, a) && Names(g, a, b.id))
    ensures b.fetch ==> b.id in tips || NamesToFetch(g, a, b.id)
  {
    var t :| Trail(g, tips, t) && t[|t| - 1] == b;
    a := b.id;
    if |t| > 1 {
      var before, last := t[..|t| - 1], t[|t| - 2];
      assert Trail(g, tips, before) && before[|before| - 1] == last;
      assert Reached(g, tips, Step(last.id, last.path, last.fetch));
      assert Goes(g, last, b);
      LinksName(g, last.id, b.id);
      a := last.id;
    }
  }

  lemma ReachedLeast(g: Graph, tips: seq<Id>, id: Id, other: set<Id>)
    requires ReachedId(g, tips, id) && Closed(g, tips, other)
    ensures id in other
  {
    var path, fetch :| Reached(g, tips, Step(id, path, fetch));
    var t :| Trail(g, tips, t) && t[|t| - 1] == Step(id, path, fetch);
    forall a, link | a in other && link in LinksOf(g, a) ensures link.id in other {
      LinksName(g, a, link.id);
    }
    ReachedWithin(g, tips, t, other);
  }

  /** What is reached is the tips and all they name, step after step. */
  lemma ReachedIsClosure(g: Graph, tips: seq<Id>, ids: set<Id>)
    requires forall id :: id in ids <==> ReachedId(g, tips, id)
    ensures Closure(g, tips, ids)
  {
    forall id | id in tips ensures id in ids { TipReached(g, tips, id); }
    forall a, b | a in ids && Names(g, a, b) ensures b in ids { ReachedOn(g, tips, a, b); }
    forall other: set<Id>, id | Closed(g, tips, other) && id in ids ensures id in other {
      ReachedLeast(g, tips, id, other);
    }
    forall b | b in ids && b !in tips ensures exists a :: a in ids && Names(g, a, b) {
      var path, fetch :| Reached(g, tips, Step(b, path, fetch));
      var a := NamedBy(g, tips, Step(b, path, fetch));
    }
  }

  // ---- In what order ------------------------------------------------------

  /** A byte that is no white space moves the hash of what is before it down by two bits and
      adds itself on top; white space is passed over. */
  lemma HashNext(path: seq<Byte>, b: Byte)
    ensures NameHash([]) == 0
    ensures NameHash(path + [b]) ==
            if b in {9, 10, 11, 12, 13, 32} then NameHash(path)
            else (NameHash(path) / 4 + b * 16777216) % 4294967296
  {
    assert (path + [b])[..|path|] == path;
  }

  /** Tags before blobs, blobs before trees, trees before commits. What was not fetched
      is a blob. */
  function Rank(g: Graph, id: Id): nat {
    if id !in g then 1
    else
      match g[id]
      case Tag(_) => 0
      case Blob => 1
      case Tree(_) => 2
      case Commit(_, _) => 3
  }

  /** By type; within a type by the greater hash of a path that leads there, and then by
      the lesser id. */
  ghost predicate InOrder(g: Graph, tips: seq<Id>, out: seq<Id>, hashes: seq<nat>) {
    && |hashes| == |out|
    && (forall i :: 0 <= i < |out| ==> HashOf(g, tips, out[i], hashes[i]))
    && (forall i, j :: 0 <= i < j < |out| ==>
          || Rank(g, out[i]) < Rank(g, out[j])
          || (Rank(g, out[i]) == Rank(g, out[j]) &&
              (hashes[i] > hashes[j] || (hashes[i] == hashes[j] && out[i] <= out[j]))))
  }

  ghost predicate HashOf(g: Graph, tips: seq<Id>, id: Id, hash: nat) {
    exists path, fetch :: Reached(g, tips, Step(id, path, fetch)) && hash == NameHash(path)
  }

  /** The same of what was found, of types `lo` to `hi`. */
  ghost predicate Lined(g: Graph, tips: seq<Id>, s: seq<Found>, lo: nat, hi: nat) {
    && (forall i :: 0 <= i < |s| ==> lo <= Rank(g, s[i].id) <= hi && HashOf(g, tips, s[i].id, s[i].hash))
    && (forall i, j :: 0 <= i < j < |s| ==>
          Rank(g, s[i].id) < Rank(g, s[j].id) || (Rank(g, s[i].id) == Rank(g, s[j].id) && Before(s[i], s[j])))
  }

  lemma LinedBoth(g: Graph, tips: seq<Id>, a: seq<Found>, b: seq<Found>, mid: nat)
    requires Lined(g, tips, a, 0, mid) && Lined(g, tips, b, mid + 1, mid + 1)
    ensures Lined(g, tips, a + b, 0, mid + 1)
  {
  }

  lemma SortedLined(g: Graph, tips: seq<Id>, s: seq<Found>, rank: nat)
    requires forall f :: f in s ==> Rank(g, f.id) == rank && HashOf(g, tips, f.id, f.hash)
    ensures Lined(g, tips, Sorted(s), rank, rank)
  {
    SortedIs(s);
    forall i | 0 <= i < |Sorted(s)| ensures Sorted(s)[i] in s {
      assert Sorted(s)[i] in multiset(Sorted(s));
    }
  }

  function Hashes(s: seq<Found>): seq<nat> {
    seq(|s|, k requires 0 <= k < |s| => s[k].hash)
  }

  /** Four sorted groups, one after another. */
  function InGroups(tags: seq<Found>, blobs: seq<Found>, trees: seq<Found>, commits: seq<Found>): (all: seq<Found>)
    ensures Ids(all) == Ids(Sorted(tags)) + Ids(Sorted(blobs)) + Ids(Sorted(trees)) + Ids(Sorted(commits))
  {
    IdsJoin(Sorted(tags), Sorted(blobs));
    IdsJoin(Sorted(tags) + Sorted(blobs), Sorted(trees));
    IdsJoin(Sorted(tags) + Sorted(blobs) + Sorted(trees), Sorted(commits));
    Sorted(tags) + Sorted(blobs) + Sorted(trees) + Sorted(commits)
  }

  lemma IdsJoin(a: seq<Found>, b: seq<Found>)
    ensures Ids(a + b) == Ids(a) + Ids(b)
  {
  }

  lemma GroupsInOrder(g: Graph, tips: seq<Id>, tags: seq<Found>, blobs: seq<Found>, trees: seq<Found>,
                      commits: seq<Found>)
    requires forall f :: f in tags ==> Rank(g, f.id) == 0 && HashOf(g, tips, f.id, f.hash)
    requires forall f :: f in blobs ==> Rank(g, f.id) == 1 && HashOf(g, tips, f.id, f.hash)
    requires forall f :: f in trees ==> Rank(g, f.id) == 2 && HashOf(g, tips, f.id, f.hash)
    requires forall f :: f in commits ==> Rank(g, f.id) == 3 && HashOf(g, tips, f.id, f.hash)
    ensures var all := InGroups(tags, blobs, trees, commits); InOrder(g, tips, Ids(all), Hashes(all))
  {
    SortedLined(g, tips, tags, 0);
    SortedLined(g, tips, blobs, 1);
    SortedLined(g, tips, trees, 2);
    SortedLined(g, tips, commits, 3);
    FourLined(g, tips, Sorted(tags), Sorted(blobs), Sorted(trees), Sorted(commits));
  }

  lemma FourLined(g: Graph, tips: seq<Id>, a: seq<Found>, b: seq<Found>, c: seq<Found>, d: seq<Found>)
    requires Lined(g, tips, a, 0, 0) && Lined(g, tips, b, 1, 1) && Lined(g, tips, c, 2, 2) && Lined(g, tips, d, 3, 3)
    ensures InOrder(g, tips, Ids(a + b + c + d), Hashes(a + b + c + d))
  {
    LinedBoth(g, tips, a, b, 0);
    LinedBoth(g, tips, a + b, c, 1);
    LinedBoth(g, tips, a + b + c, d, 2);
    LinedInOrder(g, tips, a + b + c + d);
  }

  lemma LinedInOrder(g: Graph, tips: seq<Id>, all: seq<Found>)
    requires Lined(g, tips, all, 0, 3)
    ensures InOrder(g, tips, Ids(all), Hashes(all))
  {
  }
}
