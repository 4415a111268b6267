/** Finding what a bundle holds, with fetches landing in any order. The set found is
what the tips reach whatever the order. */
module HistoryWalk {
  import opened Bytes
  import opened History
  import opened HistoryClosure

  const MAX_IN_FLIGHT: nat := 48

  /** An id with the hash of one path that leads to it. */
  type Want = Found

  datatype State = State(seen: set<Id>, pending: seq<Want>, inFlight: seq<Want>,
                         commits: seq<Found>, tags: seq<Found>, trees: seq<Found>, blobs: seq<Found>)

  /** Everything the walk has met, wherever it is now. */
  function Met(s: State): seq<Found> {
    s.pending + s.inFlight + s.commits + s.tags + s.trees + s.blobs
  }

  /** How often an id is met. */
  ghost function Times(met: seq<Found>, id: Id): nat {
    multiset(Ids(met))[id]
  }

  /** Reached at a path with that hash; and if it is to be fetched, by a way that says
      so. */
  ghost predicate Warranted(g: Graph, tips: seq<Id>, f: Found, fetch: bool) {
    exists path, fetched ::
      Reached(g, tips, Step(f.id, path, fetched)) && f.hash == NameHash(path) && (fetch ==> fetched)
  }

  ghost predicate AllWarranted(g: Graph, tips: seq<Id>, s: State) {
    && (forall f :: f in s.pending || f in s.inFlight || f in s.commits || f in s.tags || f in s.trees ==>
          Warranted(g, tips, f, true))
    && (forall f :: f in s.blobs ==> Warranted(g, tips, f, false))
  }

  /** Each group holds only objects of its type; a blob need not have been fetched. */
  ghost predicate Grouped(g: Graph, s: State) {
    && (forall f :: f in s.commits ==> f.id in g && g[f.id].Commit?)
    && (forall f :: f in s.tags ==> f.id in g && g[f.id].Tag?)
    && (forall f :: f in s.trees ==> f.id in g && g[f.id].Tree?)
    && (forall f :: f in s.blobs ==> f.id in g ==> g[f.id].Blob?)
  }

  /** An object still to be fetched. */
  predicate Awaited(s: State, id: Id) {
    (exists f :: f in s.pending && f.id == id) || (exists f :: f in s.inFlight && f.id == id)
  }

  /** Whatever is not still to be fetched has had its links followed, but for those in
      `todo`, which are those of object `from`. */
  ghost predicate Followed(g: Graph, s: State, todo: seq<Link>, from: Option<Id>) {
    && (forall id, link :: id in s.seen && !Awaited(s, id) && Some(id) != from && link in LinksOf(g, id) ==>
          link.id in s.seen)
    && (from.Some? ==> forall link :: link in LinksOf(g, from.value) ==> link.id in s.seen || link in todo)
  }

  ghost predicate OK(g: Graph, tips: seq<Id>, s: State, todo: seq<Link>, from: Option<Id>) {
    && (forall id :: Times(Met(s), id) == Bit(id in s.seen))
    && AllWarranted(g, tips, s)
    && Grouped(g, s)
    && Followed(g, s, todo, from)
  }

  // ---- Steps --------------------------------------------------------------

  lemma TimesOf(a: seq<Found>, b: seq<Found>, id: Id)
    ensures Times(a + b, id) == Times(a, id) + Times(b, id)
  {
    assert Ids(a + b) == Ids(a) + Ids(b);
  }

  lemma TimesOne(f: Found, id: Id)
    ensures Times([f], id) == Bit(f.id == id)
  {
    assert Ids([f]) == [f.id];
  }

  lemma TimesMet(s: State, id: Id)
    ensures Times(Met(s), id) == Times(s.pending, id) + Times(s.inFlight, id) + Times(s.commits, id) +
                                 Times(s.tags, id) + Times(s.trees, id) + Times(s.blobs, id)
  {
    TimesOf(s.pending, s.inFlight, id);
    TimesOf(s.pending + s.inFlight, s.commits, id);
    TimesOf(s.pending + s.inFlight + s.commits, s.tags, id);
    TimesOf(s.pending + s.inFlight + s.commits + s.tags, s.trees, id);
    TimesOf(s.pending + s.inFlight + s.commits + s.tags + s.trees, s.blobs, id);
  }

  /** The first link of those to follow, as the walk deals with it. */
  function Take(s: State, id: Id, hash: nat, fetch: bool): State {
    if id in s.seen then s
    else if fetch then s.(seen := s.seen + {id}, pending := s.pending + [Found(id, hash)])
    else s.(seen := s.seen + {id}, blobs := s.blobs + [Found(id, hash)])
  }

  lemma TakeCounts(s: State, id: Id, hash: nat, fetch: bool)
    requires forall x :: Times(Met(s), x) == Bit(x in s.seen)
    ensures forall x :: Times(Met(Take(s, id, hash, fetch)), x) == Bit(x in Take(s, id, hash, fetch).seen)
  {
    var s' := Take(s, id, hash, fetch);
    forall x ensures Times(Met(s'), x) == Bit(x in s'.seen) {
      TimesMet(s, x);
      TimesMet(s', x);
      assert Times(Met(s), x) == Bit(x in s.seen);
      TimesOf(s.pending, [Found(id, hash)], x);
      TimesOf(s.blobs, [Found(id, hash)], x);
      TimesOne(Found(id, hash), x);
    }
  }

  lemma TakeFollows(g: Graph, s: State, link: Link, hash: nat, todo: seq<Link>, from: Option<Id>)
    requires Followed(g, s, [link] + todo, from)
    requires !link.fetch ==> LinksOf(g, link.id) == []
    ensures Followed(g, Take(s, link.id, hash, link.fetch), todo, from)
  {
    var s' := Take(s, link.id, hash, link.fetch);
    forall id | Awaited(s, id) ensures Awaited(s', id) {
      if f :| f in s.pending && f.id == id { assert f in s'.pending; }
    }
    assert link.id !in s.seen && link.fetch ==> Found(link.id, hash) in s'.pending;
  }

  /** The next link is followed: what it leads to is met, once. */
  lemma TakeOK(g: Graph, tips: seq<Id>, s: State, link: Link, hash: nat, todo: seq<Link>, from: Option<Id>)
    requires OK(g, tips, s, [link] + todo, from)
    requires Warranted(g, tips, Found(link.id, hash), link.fetch)
    requires !link.fetch && link.id in g ==> g[link.id].Blob?
    ensures OK(g, tips, Take(s, link.id, hash, link.fetch), todo, from)
  {
    TakeCounts(s, link.id, hash, link.fetch);
    TakeFollows(g, s, link, hash, todo, from);
  }

  function Without(s: seq<Found>, k: nat): seq<Found>
    requires k < |s|
  {
    s[..k] + s[k + 1..]
  }

  lemma TimesWithout(s: seq<Found>, k: nat, id: Id)
    requires k < |s|
    ensures Times(s, id) == Times(Without(s, k), id) + Bit(s[k].id == id)
  {
    assert s == s[..k] + [s[k]] + s[k + 1..];
    TimesOf(s[..k], [s[k]], id);
    TimesOf(s[..k] + [s[k]], s[k + 1..], id);
    TimesOf(s[..k], s[k + 1..], id);
    TimesOne(s[k], id);
  }

  function Record(s: State, f: Found, o: Object): State {
    match o
    case Commit(_, _) => s.(commits := s.commits + [f])
    case Tag(_) => s.(tags := s.tags + [f])
    case Tree(_) => s.(trees := s.trees + [f])
    case Blob => s.(blobs := s.blobs + [f])
  }

  function Landed(s: State, k: nat, o: Object): State
    requires k < |s.inFlight|
  {
    Record(s.(inFlight := Without(s.inFlight, k)), s.inFlight[k], o)
  }

  lemma LandCounts(s: State, k: nat, o: Object)
    requires k < |s.inFlight| && forall x :: Times(Met(s), x) == Bit(x in s.seen)
    ensures forall x :: Times(Met(Landed(s, k, o)), x) == Bit(x in s.seen)
  {
    var f, s' := s.inFlight[k], Landed(s, k, o);
    forall x ensures Times(Met(s'), x) == Bit(x in s.seen) {
      TimesMet(s, x);
      TimesMet(s', x);
      assert Times(Met(s), x) == Bit(x in s.seen);
      TimesWithout(s.inFlight, k, x);
      TimesOne(f, x);
      TimesOf(s.commits, [f], x);
      TimesOf(s.tags, [f], x);
      TimesOf(s.trees, [f], x);
      TimesOf(s.blobs, [f], x);
    }
  }

  lemma WithoutHas(s: seq<Found>, k: nat, f: Found)
    requires k < |s|
    ensures f in Without(s, k) ==> f in s
    ensures f in s && f != s[k] ==> f in Without(s, k)
  {
    assert s == s[..k] + [s[k]] + s[k + 1..];
  }

  lemma StillAwaited(s: State, k: nat, o: Object, id: Id)
    requires k < |s.inFlight| && Awaited(s, id) && id != s.inFlight[k].id
    ensures Awaited(Landed(s, k, o), id)
  {
    if f :| f in s.inFlight && f.id == id { WithoutHas(s.inFlight, k, f); }
  }

  lemma LandFollows(g: Graph, s: State, k: nat)
    requires k < |s.inFlight| && s.inFlight[k].id in g && Followed(g, s, [], None)
    ensures var id := s.inFlight[k].id; Followed(g, Landed(s, k, g[id]), Links(g[id]), Some(id))
  {
    var f := s.inFlight[k];
    var s' := Landed(s, k, g[f.id]);
    forall id, link | id in s'.seen && !Awaited(s', id) && Some(id) != Some(f.id) && link in LinksOf(g, id)
      ensures link.id in s'.seen
    {
      if Awaited(s, id) { StillAwaited(s, k, g[f.id], id); }
    }
  }

  lemma LandWarranted(g: Graph, tips: seq<Id>, s: State, k: nat)
    requires k < |s.inFlight| && s.inFlight[k].id in g && AllWarranted(g, tips, s)
    ensures AllWarranted(g, tips, Landed(s, k, g[s.inFlight[k].id]))
  {
    var f := s.inFlight[k];
    forall x | x in Without(s.inFlight, k) ensures x in s.inFlight { WithoutHas(s.inFlight, k, x); }
    assert Warranted(g, tips, f, true);
    assert Warranted(g, tips, f, false);
  }

  /** An object that lands joins its group, and its links are to be followed. */
  lemma LandOK(g: Graph, tips: seq<Id>, s: State, k: nat)
    requires k < |s.inFlight| && s.inFlight[k].id in g && OK(g, tips, s, [], None)
    ensures var id := s.inFlight[k].id; OK(g, tips, Landed(s, k, g[id]), Links(g[id]), Some(id))
  {
    LandCounts(s, k, g[s.inFlight[k].id]);
    LandFollows(g, s, k);
    LandWarranted(g, tips, s, k);
    LandGrouped(g, s, k);
  }

  lemma LandGrouped(g: Graph, s: State, k: nat)
    requires k < |s.inFlight| && s.inFlight[k].id in g && Grouped(g, s)
    ensures Grouped(g, Landed(s, k, g[s.inFlight[k].id]))
  {
  }

  lemma DoneOK(g: Graph, tips: seq<Id>, s: State, id: Id)
    requires OK(g, tips, s, [], Some(id))
    ensures OK(g, tips, s, [], None)
  {
  }

  function Issued(s: State): State
    requires s.pending != []
  {
    s.(pending := s.pending[1..], inFlight := s.inFlight + [s.pending[0]])
  }

  lemma IssueOK(g: Graph, tips: seq<Id>, s: State)
    requires s.pending != [] && OK(g, tips, s, [], None)
    ensures OK(g, tips, Issued(s), [], None)
  {
    var s' := Issued(s);
    assert s.pending == [s.pending[0]] + s.pending[1..];
    forall x ensures Times(Met(s'), x) == Bit(x in s.seen) {
      TimesMet(s, x);
      TimesMet(s', x);
      assert Times(Met(s), x) == Bit(x in s.seen);
      TimesOf([s.pending[0]], s.pending[1..], x);
      TimesOf(s.inFlight, [s.pending[0]], x);
    }
    forall id | Awaited(s, id) ensures Awaited(s', id) {
      if f :| f in s.pending && f.id == id { assert f in s'.pending || f in s'.inFlight; }
      if f :| f in s.inFlight && f.id == id { assert f in s'.inFlight; }
    }
  }

  function HashBy(hash: nat, link: Link): nat {
    if link.name.None? then 0 else ExtendHash(ExtendHash(hash, ['/' as int]), link.name.value)
  }

  /** A link from an object reached reaches what it leads to, at the path hashed. */
  lemma LinkWarranted(g: Graph, tips: seq<Id>, f: Found, link: Link)
    requires Warranted(g, tips, f, true) && link in LinksOf(g, f.id)
    ensures Warranted(g, tips, Found(link.id, HashBy(f.hash, link)), link.fetch)
  {
    var path: seq<Byte>, fetched :| Reached(g, tips, Step(f.id, path, fetched)) && f.hash == NameHash(path) && fetched;
    LinkReached(g, tips, Step(f.id, path, fetched), link);
    assert Reached(g, tips, Step(link.id, PathBy(path, link), link.fetch));
    if link.name.Some? {
      HashOfWhole(0, path, ['/' as int]);
      HashOfWhole(0, path + ['/' as int], link.name.value);
    }
  }

  lemma TipWarranted(g: Graph, tips: seq<Id>, id: Id)
    requires id in tips
    ensures Warranted(g, tips, Found(id, 0), true)
  {
    TipReached(g, tips, id);
  }

  // ---- Termination --------------------------------------------------------

  /** Every id there is a link to. */
  function Universe(g: Graph, tips: seq<Id>): set<Id> {
    (set id | id in tips) + (set x, link | x in g && link in Links(g[x]) :: link.id)
  }

  /** What there is still to meet or to fetch. */
  function Left(g: Graph, tips: seq<Id>, s: State): nat {
    |Universe(g, tips) - s.seen| + |s.pending| + |s.inFlight|
  }

  lemma TakeLeft(g: Graph, tips: seq<Id>, s: State, id: Id, hash: nat, fetch: bool)
    requires id in Universe(g, tips)
    ensures Left(g, tips, Take(s, id, hash, fetch)) <= Left(g, tips, s)
  {
    if id !in s.seen {
      assert Universe(g, tips) - (s.seen + {id}) == (Universe(g, tips) - s.seen) - {id};
    }
  }

  lemma LandLeft(g: Graph, tips: seq<Id>, s: State, k: nat, o: Object)
    requires k < |s.inFlight|
    ensures Left(g, tips, Landed(s, k, o)) == Left(g, tips, s) - 1
  {
  }

  // ---- The result ---------------------------------------------------------

  lemma ParentLink(tree: Id, parents: seq<Id>, i: nat)
    requires i < |parents|
    ensures var link := Link(parents[i], None, true);
            && Unnamed(parents)[i..] == [link] + Unnamed(parents)[i + 1..]
            && link in Links(Commit(tree, parents))
  {
    assert Links(Commit(tree, parents))[i + 1] == Link(parents[i], None, true);
  }

  lemma EntryLink(entries: seq<Entry>, i: nat)
    requires i < |entries|
    ensures var e := entries[i];
            && EntryLinks(entries[i..]) ==
               (if e.kind == Gitlink then [] else [Link(e.id, Some(e.name), e.kind == Subtree)]) +
                   EntryLinks(entries[i + 1..])
            && (e.kind != Gitlink ==> Link(e.id, Some(e.name), e.kind == Subtree) in EntryLinks(entries))
  {
    assert entries[i..][1..] == entries[i + 1..];
    if entries[i].kind != Gitlink { EntryLinkIn(entries, i); }
  }

  lemma {:induction false} EntryLinkIn(entries: seq<Entry>, i: nat)
    requires i < |entries| && entries[i].kind != Gitlink
    ensures var e := entries[i]; Link(e.id, Some(e.name), e.kind == Subtree) in EntryLinks(entries)
  {
    if i > 0 { EntryLinkIn(entries[1..], i - 1); }
  }

  /** With nothing awaited, what is met is what is reached. */
  lemma EndOK(g: Graph, tips: seq<Id>, s: State)
    requires OK(g, tips, s, [], None) && s.pending == [] && s.inFlight == [] && forall id :: id in tips ==> id in s.seen
    ensures forall id :: id in s.seen <==> ReachedId(g, tips, id)
  {
    forall id ensures id in s.seen <==> ReachedId(g, tips, id) {
      if ReachedId(g, tips, id) { ReachedIsMet(g, tips, s, id); }
      if id in s.seen { MetIsReached(g, tips, s, id); }
    }
  }

  lemma ReachedIsMet(g: Graph, tips: seq<Id>, s: State, id: Id)
    requires Followed(g, s, [], None) && s.pending == [] && s.inFlight == [] && forall id :: id in tips ==> id in s.seen
    requires ReachedId(g, tips, id)
    ensures id in s.seen
  {
    var path: seq<Byte>, fetch :| Reached(g, tips, Step(id, path, fetch));
    var t :| Trail(g, tips, t) && t[|t| - 1] == Step(id, path, fetch);
    ReachedWithin(g, tips, t, s.seen);
  }

  lemma MetIsReached(g: Graph, tips: seq<Id>, s: State, id: Id)
    requires AllWarranted(g, tips, s) && Times(Met(s), id) == 1
    ensures ReachedId(g, tips, id)
  {
    var f := MetHas(Met(s), id);
    assert Warranted(g, tips, f, false) || Warranted(g, tips, f, true);
  }

  lemma MetHas(met: seq<Found>, id: Id) returns (f: Found)
    requires Times(met, id) > 0
    ensures f in met && f.id == id
  {
    assert id in multiset(Ids(met));
    var k :| 0 <= k < |met| && Ids(met)[k] == id;
    f := met[k];
  }

  /** The list of ids, a type at a time, sorted within each. */
  function PackOrder(s: State): seq<Id> {
    Ids(Sorted(s.tags)) + Ids(Sorted(s.blobs)) + Ids(Sorted(s.trees)) + Ids(Sorted(s.commits))
  }

  lemma {:induction false} InsertTimes(x: Found, s: seq<Found>, id: Id)
    ensures Times(Insert(x, s), id) == Times(s, id) + Bit(x.id == id)
  {
    TimesOne(x, id);
    TimesOf([x], s, id);
    if s != [] && !Before(x, s[0]) {
      assert s == [s[0]] + s[1..];
      InsertTimes(x, s[1..], id);
      TimesOf([s[0]], s[1..], id);
      TimesOf([s[0]], Insert(x, s[1..]), id);
    }
  }

  lemma {:induction false} SortedTimes(s: seq<Found>, id: Id)
    ensures Times(Sorted(s), id) == Times(s, id)
  {
    if s != [] {
      assert s == [s[0]] + s[1..];
      SortedTimes(s[1..], id);
      InsertTimes(s[0], Sorted(s[1..]), id);
      TimesOf([s[0]], s[1..], id);
      TimesOne(s[0], id);
    }
  }

  /** Everything met is listed, once. */
  lemma OrderCounts(s: State, id: Id)
    requires s.pending == [] && s.inFlight == []
    ensures multiset(PackOrder(s))[id] == Times(Met(s), id)
  {
    TimesMet(s, id);
    SortedTimes(s.tags, id);
    SortedTimes(s.blobs, id);
    SortedTimes(s.trees, id);
    SortedTimes(s.commits, id);
  }

  /** Something that has to be fetched is not there. */
  ghost predicate SomeMissing(g: Graph, tips: seq<Id>) {
    exists id :: id !in g && ToFetch(g, tips, id)
  }

  /** Nothing is asked for twice, nor without a way that says to fetch it: a file that
      only trees name never is. */
  ghost predicate AskedOnce(g: Graph, tips: seq<Id>, asked: seq<Id>, s: State) {
    && (forall id :: multiset(asked)[id] + Times(s.pending, id) <= Bit(id in s.seen))
    && (forall id :: id in asked ==> ToFetch(g, tips, id))
  }

  lemma AskedTake(g: Graph, tips: seq<Id>, asked: seq<Id>, s: State, id: Id, hash: nat, fetch: bool)
    requires AskedOnce(g, tips, asked, s)
    ensures AskedOnce(g, tips, asked, Take(s, id, hash, fetch))
  {
    var s' := Take(s, id, hash, fetch);
    forall x ensures multiset(asked)[x] + Times(s'.pending, x) <= Bit(x in s'.seen) {
      TimesOf(s.pending, [Found(id, hash)], x);
      TimesOne(Found(id, hash), x);
      assert multiset(asked)[x] + Times(s.pending, x) <= Bit(x in s.seen);
    }
  }

  lemma AskedIssue(g: Graph, tips: seq<Id>, asked: seq<Id>, s: State)
    requires AskedOnce(g, tips, asked, s) && AllWarranted(g, tips, s) && s.pending != []
    ensures AskedOnce(g, tips, asked + [s.pending[0].id], Issued(s))
  {
    var f := s.pending[0];
    assert Warranted(g, tips, f, true);
    assert s.pending == [f] + s.pending[1..];
    forall x ensures multiset(asked + [f.id])[x] + Times(s.pending[1..], x) <= Bit(x in s.seen) {
      TimesOf([f], s.pending[1..], x);
      TimesOne(f, x);
      assert multiset(asked)[x] + Times(s.pending, x) <= Bit(x in s.seen);
    }
  }

  /** The walk is consistent, and `open` objects are asked for or waiting to be. */
  ghost predicate Sound(g: Graph, tips: seq<Id>, s: State, asked: seq<Id>, todo: seq<Link>, from: Option<Id>,
                        left: nat, open: int) {
    && OK(g, tips, s, todo, from)
    && Left(g, tips, s) <= left
    && open == |s.pending| + |s.inFlight| && |s.inFlight| <= MAX_IN_FLIGHT
    && AskedOnce(g, tips, asked, s)
  }

  lemma IssueBoth(g: Graph, tips: seq<Id>, s: State, asked: seq<Id>, left: nat, open: int)
    requires Sound(g, tips, s, asked, [], None, left, open) && s.pending != [] && |s.inFlight| < MAX_IN_FLIGHT
    ensures Sound(g, tips, Issued(s), asked + [s.pending[0].id], [], None, left, open)
  {
    IssueOK(g, tips, s);
    AskedIssue(g, tips, asked, s);
  }

  lemma AskedFacts(g: Graph, tips: seq<Id>, asked: seq<Id>, s: State, id: Id)
    requires AskedOnce(g, tips, asked, s)
    ensures multiset(asked)[id] <= 1 && (id in asked ==> ToFetch(g, tips, id))
  {
    assert multiset(asked)[id] + Times(s.pending, id) <= Bit(id in s.seen);
  }

  lemma FollowOK(g: Graph, tips: seq<Id>, s: State, f: Found, link: Link, todo: seq<Link>, left: nat)
    requires OK(g, tips, s, [link] + todo, Some(f.id)) && Left(g, tips, s) <= left && Agrees(g)
    requires Warranted(g, tips, f, true) && link in LinksOf(g, f.id)
    ensures var s' := Take(s, link.id, HashBy(f.hash, link), link.fetch);
            OK(g, tips, s', todo, Some(f.id)) && Left(g, tips, s') <= left && s.seen <= s'.seen
  {
    LinkWarranted(g, tips, f, link);
    TakeOK(g, tips, s, link, HashBy(f.hash, link), todo, Some(f.id));
    TakeLeft(g, tips, s, link.id, HashBy(f.hash, link), link.fetch);
  }

  lemma FollowBoth(g: Graph, tips: seq<Id>, s: State, asked: seq<Id>, f: Found, link: Link, todo: seq<Link>,
                   left: nat, open: int)
    requires Sound(g, tips, s, asked, [link] + todo, Some(f.id), left, open) && Agrees(g)
    requires Warranted(g, tips, f, true) && link in LinksOf(g, f.id)
    ensures var s' := Take(s, link.id, HashBy(f.hash, link), link.fetch);
            && Sound(g, tips, s', asked, todo, Some(f.id), left, open + |s'.pending| - |s.pending|)
            && s.seen <= s'.seen
  {
    FollowOK(g, tips, s, f, link, todo, left);
    AskedTake(g, tips, asked, s, link.id, HashBy(f.hash, link), link.fetch);
  }

  lemma InFlightWarranted(g: Graph, tips: seq<Id>, s: State, k: nat)
    requires OK(g, tips, s, [], None) && k < |s.inFlight|
    ensures Warranted(g, tips, s.inFlight[k], true)
    ensures s.inFlight[k].id !in g ==> SomeMissing(g, tips)
  {
    assert s.inFlight[k] in s.inFlight;
  }

  // ---- The walk -----------------------------------------------------------

  /** Ids that a tip, or a link to be fetched, leads to. */
  ghost predicate ToFetch(g: Graph, tips: seq<Id>, id: Id) {
    exists path :: Reached(g, tips, Step(id, path, true))
  }

  class Walk {
    const g: Graph
    const canFail: bool
    ghost const tips: seq<Id>
    var seen: set<Id>
    var pending: seq<Want>
    var inFlight: seq<Want>
    var commits: seq<Found>
    var tags: seq<Found>
    var trees: seq<Found>
    var blobs: seq<Found>
    var fetched: nat
    var requested: nat
    /** Every id that was ever put on the backlog. */
    ghost var asked: seq<Id>

    ghost function Now(): State
      reads this
    {
      State(seen, pending, inFlight, commits, tags, trees, blobs)
    }

    /** The links in `todo`, of object `from`, are still to be followed; `left` bounds
        what is still to come. */
    ghost predicate Inv(todo: seq<Link>, from: Option<Id>, left: nat)
      reads this
    {
      Sound(g, tips, Now(), asked, todo, from, left, requested - fetched)
    }

    constructor (g: Graph, canFail: bool, tips: seq<Id>)
      ensures this.g == g && this.canFail == canFail && this.tips == tips
      ensures Now() == State({}, [], [], [], [], [], []) && fetched == requested == 0 && asked == []
    {
      this.g, this.canFail, this.tips := g, canFail, tips;
      seen, pending, inFlight, commits, tags, trees, blobs := {}, [], [], [], [], [], [];
      fetched, requested, asked := 0, 0, [];
    }

    /** A first meeting puts the id on the backlog; a later one changes nothing. */
    method Request(id: Id, hash: nat)
      modifies this`seen, this`pending, this`requested
      ensures Now() == Take(old(Now()), id, hash, true)
      ensures requested - |pending| == old(requested) - |old(pending)|
    {
      if id !in seen {
        seen := seen + {id};
        pending := pending + [Found(id, hash)];
        requested := requested + 1;
      }
    }

    /** A first meeting with a file lists it as a blob, with no fetch. */
    method Discover(id: Id, hash: nat)
      modifies this`seen, this`blobs
      ensures Now() == Take(old(Now()), id, hash, false)
    {
      if id !in seen {
        seen := seen + {id};
        blobs := blobs + [Found(id, hash)];
      }
    }

    method ExtendHashBy(hash: nat, name: seq<Byte>) returns (r: nat)
      ensures r == ExtendHash(hash, name)
    {
      r := hash;
      for i := 0 to |name|
        invariant r == ExtendHash(hash, name[..i])
      {
        assert name[..i + 1][..i] == name[..i];
        if Space(name[i]) {
          continue;
        }
        r := (r / 4 + (name[i] as int) * 0x100_0000) % 0x1_0000_0000;
      }
      assert name[..|name|] == name;
    }

    /** Follow one link of an object that has landed. */
    method Follow(link: Link, hash: nat, ghost f: Found, ghost todo: seq<Link>, ghost left: nat)
      requires Inv([link] + todo, Some(f.id), left) && Agrees(g)
      requires Warranted(g, tips, f, true) && link in LinksOf(g, f.id) && hash == HashBy(f.hash, link)
      modifies this`seen, this`pending, this`requested, this`blobs
      ensures Inv(todo, Some(f.id), left) && old(seen) <= seen
    {
      FollowBoth(g, tips, Now(), asked, f, link, todo, left, requested - fetched);
      Meet(link.id, hash, link.fetch);
    }

    method Meet(id: Id, hash: nat, fetch: bool)
      modifies this`seen, this`pending, this`requested, this`blobs
      ensures Now() == Take(old(Now()), id, hash, fetch)
      ensures requested - |pending| == old(requested) - |old(pending)|
    {
      if fetch {
        Request(id, hash);
      } else {
        Discover(id, hash);
      }
    }

    /** Queue whatever an object points at. */
    method FollowAll(o: Object, ghost f: Found, hash: nat, ghost left: nat)
      requires Inv(Links(o), Some(f.id), left) && Agrees(g) && Warranted(g, tips, f, true)
      requires f.id in g && g[f.id] == o && hash == f.hash
      modifies this`seen, this`pending, this`requested, this`blobs
      ensures Inv([], Some(f.id), left) && old(seen) <= seen
    {
      match o {
        case Commit(tree, parents) =>
          Follow(Link(tree, None, true), 0, f, Unnamed(parents), left);
          FollowParents(tree, parents, f, left);
        case Tag(target) =>
          assert [Link(target, None, true)] == [Link(target, None, true)] + [];
          Follow(Link(target, None, true), 0, f, [], left);
        case Tree(entries) =>
          FollowEntries(entries, f, hash, left);
        case Blob =>
      }
    }

    method FollowParents(tree: Id, parents: seq<Id>, ghost f: Found, ghost left: nat)
      requires Inv(Unnamed(parents), Some(f.id), left) && Agrees(g) && Warranted(g, tips, f, true)
      requires f.id in g && g[f.id] == Commit(tree, parents)
      modifies this`seen, this`pending, this`requested, this`blobs
      ensures Inv([], Some(f.id), left) && old(seen) <= seen
    {
      for i := 0 to |parents|
        invariant Inv(Unnamed(parents)[i..], Some(f.id), left) && old(seen) <= seen
      {
        ParentLink(tree, parents, i);
        Follow(Link(parents[i], None, true), 0, f, Unnamed(parents)[i + 1..], left);
      }
    }

    method FollowEntries(entries: seq<Entry>, ghost f: Found, hash: nat, ghost left: nat)
      requires Inv(EntryLinks(entries), Some(f.id), left) && Agrees(g) && Warranted(g, tips, f, true)
      requires f.id in g && g[f.id] == Tree(entries) && hash == f.hash
      modifies this`seen, this`pending, this`requested, this`blobs
      ensures Inv([], Some(f.id), left) && old(seen) <= seen
    {
      var prefix := ExtendHashBy(hash, ['/' as int]);
      for i := 0 to |entries|
        invariant Inv(EntryLinks(entries[i..]), Some(f.id), left) && old(seen) <= seen
      {
        var e := entries[i];
        EntryLink(entries, i);
        if e.kind != Gitlink {
          var entryHash := ExtendHashBy(prefix, e.name);
          Follow(Link(e.id, Some(e.name), e.kind == Subtree), entryHash, f, EntryLinks(entries[i + 1..]), left);
        }
      }
    }

    /** The pool is filled from the backlog until it is full or the backlog is empty. */
    method Issue(ghost left: nat)
      requires Inv([], None, left)
      modifies this`pending, this`inFlight, this`asked
      ensures Inv([], None, left) && (pending != [] ==> inFlight != [])
    {
      while |inFlight| < MAX_IN_FLIGHT && pending != []
        invariant Inv([], None, left)
        decreases |pending|
      {
        IssueOne(left);
      }
    }

    method IssueOne(ghost left: nat)
      requires Inv([], None, left) && |inFlight| < MAX_IN_FLIGHT && pending != []
      modifies this`pending, this`inFlight, this`asked
      ensures Inv([], None, left) && |pending| == |old(pending)| - 1
    {
      IssueBoth(g, tips, Now(), asked, left, requested - fetched);
      ghost var s := Issued(Now());
      asked := asked + [pending[0].id];
      pending, inFlight := pending[1..], inFlight + [pending[0]];
      assert Now() == s;
    }

    /** Any object in flight lands; or its fetch fails. */
    method Land(ghost left: nat) returns (ok: bool)
      requires Inv([], None, left) && Agrees(g) && inFlight != []
      modifies this
      ensures ok ==> left > 0 && Inv([], None, left - 1) && old(seen) <= seen
      ensures !ok ==> (canFail || SomeMissing(g, tips)) && AskedOnce(g, tips, asked, Now())
    {
      var k :| 0 <= k < |inFlight|;
      var f := inFlight[k];
      InFlightWarranted(g, tips, Now(), k);
      fetched := fetched + 1;
      ok := true;
      var fails := *;
      if f.id !in g || (canFail && fails) {
        return false;
      }
      Visit(k, left);
    }

    /** One object in flight is dealt with: it joins its type's group, and all its links
        have been met. */
    method Visit(k: nat, ghost left: nat)
      requires Recordable(k, left) && Agrees(g) && Warranted(g, tips, inFlight[k], true)
      modifies this
      ensures left > 0 && Inv([], None, left - 1) && old(seen) <= seen
    {
      var f := inFlight[k];
      RecordLanded(k, left);
      FollowAll(g[f.id], f, f.hash, left - 1);
      DoneOK(g, tips, Now(), f.id);
    }

    ghost predicate Recordable(k: nat, left: nat)
      reads this
    {
      && OK(g, tips, Now(), [], None) && Left(g, tips, Now()) <= left
      && requested == fetched - 1 + |pending| + |inFlight| && |inFlight| <= MAX_IN_FLIGHT
      && k < |inFlight| && inFlight[k].id in g
      && AskedOnce(g, tips, asked, Now())
    }

    method RecordLanded(k: nat, ghost left: nat)
      requires Recordable(k, left)
      modifies this`inFlight, this`commits, this`tags, this`trees, this`blobs
      ensures var id := old(inFlight)[k].id; left > 0 && Inv(Links(g[id]), Some(id), left - 1)
    {
      LandOK(g, tips, Now(), k);
      LandLeft(g, tips, Now(), k, g[inFlight[k].id]);
      PutInGroup(k);
    }

    method PutInGroup(k: nat)
      requires k < |inFlight| && inFlight[k].id in g
      modifies this`inFlight, this`commits, this`tags, this`trees, this`blobs
      ensures Now() == Landed(old(Now()), k, g[old(inFlight)[k].id])
      ensures |inFlight| == |old(inFlight)| - 1
    {
      var f := inFlight[k];
      inFlight := Without(inFlight, k);
      match g[f.id] {
        case Commit(_, _) => commits := commits + [f];
        case Tag(_) => tags := tags + [f];
        case Tree(_) => trees := trees + [f];
        case Blob => blobs := blobs + [f];
      }
    }

    /** The groups, each sorted, largest type number first. */
    method Finish() returns (out: seq<Id>)
      ensures out == PackOrder(Now())
    {
      out := Ids(Sorted(tags)) + Ids(Sorted(blobs)) + Ids(Sorted(trees)) + Ids(Sorted(commits));
    }

    /** Ends with backlog and pool both empty, unless an object is missing or fails. */
    method Run(ghost left: nat) returns (ok: bool)
      requires Inv([], None, left) && Agrees(g)
      modifies this
      ensures ok ==> Inv([], None, Left(g, tips, Now())) && pending == [] && inFlight == [] && old(seen) <= seen
      ensures ok ==> fetched == requested
      ensures !ok ==> (canFail || SomeMissing(g, tips)) && AskedOnce(g, tips, asked, Now())
    {
      ghost var budget := left;
      while true
        invariant Inv([], None, budget) && old(seen) <= seen
        decreases budget
      {
        Issue(budget);
        if inFlight == [] {
          return true;
        }
        ok := Land(budget);
        if !ok {
          return;
        }
        budget := budget - 1;
      }
    }

    lemma Start()
      requires Now() == State({}, [], [], [], [], [], []) && requested == fetched == 0 && asked == []
      ensures Inv([], None, Left(g, tips, Now()))
    {
      StartOK(g, tips, Now());
    }

    /** Ask for the tips. */
    method RequestTips(ids: seq<Id>, ghost left: nat)
      requires ids == tips && Inv([], None, left)
      modifies this`seen, this`pending, this`requested
      ensures Inv([], None, left) && TipsMet(tips, |tips|, seen)
    {
      for i := 0 to |ids|
        invariant Inv([], None, left) && TipsMet(ids, i, seen)
      {
        TipMet(ids, i, seen);
        RequestTip(ids[i], left);
      }
    }

    method RequestTip(id: Id, ghost left: nat)
      requires Inv([], None, left) && id in tips
      modifies this`seen, this`pending, this`requested
      ensures Inv([], None, left) && seen == old(seen) + {id}
    {
      TipOK(g, tips, Now(), id, asked);
      Request(id, 0);
    }
  }

  ghost predicate TipsMet(ids: seq<Id>, n: nat, seen: set<Id>) {
    forall k :: 0 <= k < n && k < |ids| ==> ids[k] in seen
  }

  lemma TipMet(ids: seq<Id>, i: nat, seen: set<Id>)
    requires i < |ids| && TipsMet(ids, i, seen)
    ensures TipsMet(ids, i + 1, seen + {ids[i]})
  {
  }

  lemma StartOK(g: Graph, tips: seq<Id>, s: State)
    requires s == State({}, [], [], [], [], [], [])
    ensures OK(g, tips, s, [], None) && AskedOnce(g, tips, [], s)
  {
    assert Ids(Met(s)) == [];
  }

  lemma TipOK(g: Graph, tips: seq<Id>, s: State, id: Id, asked: seq<Id>)
    requires OK(g, tips, s, [], None) && id in tips && AskedOnce(g, tips, asked, s)
    ensures var s' := Take(s, id, 0, true);
            && OK(g, tips, s', [], None) && Left(g, tips, s') <= Left(g, tips, s) && s'.seen == s.seen + {id}
            && AskedOnce(g, tips, asked, s')
  {
    var link := Link(id, None, true);
    TipWarranted(g, tips, id);
    assert OK(g, tips, s, [link] + [], None);
    TakeOK(g, tips, s, link, 0, [], None);
    TakeLeft(g, tips, s, id, 0, true);
    AskedTake(g, tips, asked, s, id, 0, true);
  }

  lemma ResultOK(g: Graph, tips: seq<Id>, s: State)
    requires OK(g, tips, s, [], None) && s.pending == [] && s.inFlight == [] && forall id :: id in tips ==> id in s.seen
    ensures Finished(g, tips, s)
  {
    EndOK(g, tips, s);
    forall id ensures Times(Met(s), id) == Bit(ReachedId(g, tips, id)) {
      assert Times(Met(s), id) == Bit(id in s.seen);
    }
  }

  lemma ListOK(g: Graph, tips: seq<Id>, s: State)
    requires Finished(g, tips, s)
    ensures forall id :: multiset(PackOrder(s))[id] == Bit(ReachedId(g, tips, id))
  {
    forall id ensures multiset(PackOrder(s))[id] == Bit(ReachedId(g, tips, id)) {
      OrderCounts(s, id);
      assert Times(Met(s), id) == Bit(ReachedId(g, tips, id));
    }
  }

  /** What is listed is the tips and all they name, step after step. */
  lemma ListClosed(g: Graph, tips: seq<Id>, out: seq<Id>)
    requires forall id :: multiset(out)[id] == Bit(ReachedId(g, tips, id))
    ensures Closure(g, tips, set id | id in out)
  {
    forall id ensures id in out <==> ReachedId(g, tips, id) {
      assert id in out <==> id in multiset(out);
    }
    ReachedIsClosure(g, tips, set id | id in out);
  }

  lemma ListInOrder(g: Graph, tips: seq<Id>, s: State)
    requires Grouped(g, s) && AllWarranted(g, tips, s)
    ensures InOrder(g, tips, PackOrder(s), Hashes(InGroups(s.tags, s.blobs, s.trees, s.commits)))
  {
    GroupsInOrder(g, tips, s.tags, s.blobs, s.trees, s.commits);
  }

  /** What has to be fetched is the tips, and what something reached names as more than a
      file. */
  lemma ToFetchIs(g: Graph, tips: seq<Id>, id: Id)
    ensures ToFetch(g, tips, id) <==> id in tips || exists a :: ReachedId(g, tips, a) && NamesToFetch(g, a, id)
  {
    if ToFetch(g, tips, id) {
      var path :| Reached(g, tips, Step(id, path, true));
      var a := NamedBy(g, tips, Step(id, path, true));
    } else if id in tips {
      TipReached(g, tips, id);
    } else if a :| ReachedId(g, tips, a) && NamesToFetch(g, a, id) {
      LinksName(g, a, id);
      var link :| link in LinksOf(g, a) && link.id == id && link.fetch;
      var path, fetch :| Reached(g, tips, Step(a, path, fetch));
      LinkReached(g, tips, Step(a, path, fetch), link);
    }
  }

  // ---- Two runs -----------------------------------------------------------

  /** What a run that ends well ends with. */
  ghost predicate Finished(g: Graph, tips: seq<Id>, s: State) {
    && s.pending == [] && s.inFlight == []
    && Grouped(g, s) && AllWarranted(g, tips, s)
    && forall id :: Times(Met(s), id) == Bit(ReachedId(g, tips, id))
  }

  /** Every way to an object has the same hash. */
  ghost predicate OneHash(g: Graph, tips: seq<Id>) {
    forall a, b :: Reached(g, tips, a) && Reached(g, tips, b) && a.id == b.id ==> NameHash(a.path) == NameHash(b.path)
  }

  lemma {:induction false} CountWithin(s: seq<Found>, f: Found)
    ensures multiset(s)[f] <= Times(s, f.id)
    decreases |s|
  {
    if s != [] {
      assert s == [s[0]] + s[1..];
      TimesOf([s[0]], s[1..], f.id);
      TimesOne(s[0], f.id);
      CountWithin(s[1..], f);
    }
  }

  lemma SameCounts(a: seq<Found>, b: seq<Found>)
    requires forall f :: f in a <==> f in b
    requires forall id :: Times(a, id) <= 1 && Times(b, id) <= 1
    ensures Sorted(a) == Sorted(b)
  {
    forall f ensures multiset(a)[f] == multiset(b)[f] {
      CountWithin(a, f);
      CountWithin(b, f);
      assert f in a <==> multiset(a)[f] > 0;
      assert f in b <==> multiset(b)[f] > 0;
    }
    SortedIs(a);
    SortedIs(b);
    OrderIsFixed(Sorted(a), Sorted(b));
  }

  datatype GroupName = Commits | Tags | Trees | Blobs

  function Group(s: State, n: GroupName): seq<Found> {
    match n
    case Commits => s.commits
    case Tags => s.tags
    case Trees => s.trees
    case Blobs => s.blobs
  }

  /** What one run found, another found too, in the same group. */
  lemma FoundAgain(g: Graph, tips: seq<Id>, s: State, s': State, n: GroupName, f: Found)
    requires Finished(g, tips, s) && Finished(g, tips, s') && OneHash(g, tips) && f in Group(s, n)
    ensures f in Group(s', n)
  {
    var path, fetched :| Reached(g, tips, Step(f.id, path, fetched)) && f.hash == NameHash(path);
    assert ReachedId(g, tips, f.id);
    assert Times(Met(s'), f.id) == 1;
    var f' := MetHas(Met(s'), f.id);
    assert f' in s'.commits || f' in s'.tags || f' in s'.trees || f' in s'.blobs;
    var path', fetched' :| Reached(g, tips, Step(f'.id, path', fetched')) && f'.hash == NameHash(path');
    assert f' == f;
  }

  lemma OncePerGroup(g: Graph, tips: seq<Id>, s: State, n: GroupName, id: Id)
    requires Finished(g, tips, s)
    ensures Times(Group(s, n), id) <= 1
  {
    TimesMet(s, id);
    assert Times(Met(s), id) == Bit(ReachedId(g, tips, id));
  }

  lemma SameGroup(g: Graph, tips: seq<Id>, s: State, s': State, n: GroupName)
    requires Finished(g, tips, s) && Finished(g, tips, s') && OneHash(g, tips)
    ensures Sorted(Group(s, n)) == Sorted(Group(s', n))
  {
    forall f | f in Group(s, n) ensures f in Group(s', n) { FoundAgain(g, tips, s, s', n, f); }
    forall f | f in Group(s', n) ensures f in Group(s, n) { FoundAgain(g, tips, s', s, n, f); }
    forall id ensures Times(Group(s, n), id) <= 1 { OncePerGroup(g, tips, s, n, id); }
    forall id ensures Times(Group(s', n), id) <= 1 { OncePerGroup(g, tips, s', n, id); }
    SameCounts(Group(s, n), Group(s', n));
  }

  /** If every way to an object has the same hash, whatever lands when, the list is the
      same. */
  lemma OneOrder(g: Graph, tips: seq<Id>, s: State, s': State)
    requires Finished(g, tips, s) && Finished(g, tips, s') && OneHash(g, tips)
    ensures PackOrder(s) == PackOrder(s')
  {
    SameGroup(g, tips, s, s', Commits);
    SameGroup(g, tips, s, s', Tags);
    SameGroup(g, tips, s, s', Trees);
    SameGroup(g, tips, s, s', Blobs);
  }

  /** Every object the tips reach, in pack order. The choices of what lands when are
      left open, so this holds of every order: what is listed is just what is reached,
      each once, by type and in order within a type. */
  method CollectObjects(g: Graph, canFail: bool, tips: seq<Id>)
    returns (r: Option<seq<Id>>, ghost s: State, ghost asked: seq<Id>)
    requires Agrees(g)
    ensures r.None? ==> canFail || SomeMissing(g, tips)
    ensures r.Some? ==> Finished(g, tips, s) && r.value == PackOrder(s)
    ensures r.Some? ==> forall id :: multiset(r.value)[id] == Bit(ReachedId(g, tips, id))
    ensures r.Some? ==> Closure(g, tips, set id | id in r.value)
    ensures r.Some? ==> exists hashes :: InOrder(g, tips, r.value, hashes)
    ensures forall id :: multiset(asked)[id] <= 1 && (id in asked ==> ToFetch(g, tips, id))
  {
    var walk := new Walk(g, canFail, tips);
    walk.Start();
    ghost var left := Left(g, tips, walk.Now());
    walk.RequestTips(tips, left);
    var ok := walk.Run(left);
    s, asked := walk.Now(), walk.asked;
    forall id ensures multiset(asked)[id] <= 1 && (id in asked ==> ToFetch(g, tips, id)) {
      AskedFacts(g, tips, asked, s, id);
    }
    if !ok {
      return None, s, asked;
    }
    ResultOK(g, tips, s);
    ListOK(g, tips, s);
    ListClosed(g, tips, PackOrder(s));
    ListInOrder(g, tips, s);
    var out := walk.Finish();
    r := Some(out);
  }
}
