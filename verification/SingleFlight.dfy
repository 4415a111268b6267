/** Looking objects up through a cache, at most one read of each at a time. Lookups
advance one step at a time in any order; any may fail or be dropped part-way. */
module SingleFlight {

  /** Where a lookup is: not yet looked, waiting on another's read, reading, or over. */
  datatype Stage<T> = Starting | Waiting(ticket: nat) | Reading(ticket: nat) | Returned(value: T) | Over

  datatype Lookup<T> = Lookup(id: nat, stage: Stage<T>)

  /** What is cached, whose reads run and under which tickets, the tickets completed in
      order, and every lookup there has been. */
  datatype State<!T> = State(memory: map<nat, T>, inFlight: map<nat, nat>, completed: seq<nat>, issued: nat,
                             lookups: seq<Lookup<T>>)

  ghost predicate Reads<T>(s: State<T>, l: nat, id: nat) {
    l < |s.lookups| && s.lookups[l].id == id && s.lookups[l].stage.Reading?
  }

  ghost predicate BeingRead<T>(s: State<T>) {
    forall id :: id in s.inFlight ==> exists l :: Reads(s, l, id)
  }

  /** Those registered as under way are exactly the reads running, each under the
      ticket of its one reader. */
  ghost predicate Registered<T>(s: State<T>) {
    && (forall l :: 0 <= l < |s.lookups| && s.lookups[l].stage.Reading? ==>
          s.lookups[l].id in s.inFlight && s.inFlight[s.lookups[l].id] == s.lookups[l].stage.ticket)
    && BeingRead(s)
    && (forall a, b :: a in s.inFlight && b in s.inFlight && s.inFlight[a] == s.inFlight[b] ==> a == b)
    && (forall j, k :: 0 <= j < k < |s.lookups| && s.lookups[j].stage.Reading? && s.lookups[k].stage.Reading? ==>
          s.lookups[j].stage.ticket != s.lookups[k].stage.ticket)
  }

  /** Each ticket issued is under way or has been completed, once, never both. */
  ghost predicate Ticketed<T>(s: State<T>) {
    && (forall t: nat :: t in s.completed <==> t < s.issued && Idle(s, t))
    && (forall j, k :: 0 <= j < k < |s.completed| ==> s.completed[j] != s.completed[k])
    && (forall id :: id in s.inFlight ==> s.inFlight[id] < s.issued)
  }

  /** No read runs under the ticket. */
  ghost predicate Idle<T>(s: State<T>, t: nat) {
    forall id :: id in s.inFlight ==> s.inFlight[id] != t
  }

  /** Whoever waits, waits on a ticket that is under way for its object or has been
      completed. */
  ghost predicate Awaited<T>(s: State<T>) {
    forall l :: 0 <= l < |s.lookups| && s.lookups[l].stage.Waiting? ==>
      || s.lookups[l].stage.ticket in s.completed
      || (s.lookups[l].id in s.inFlight && s.inFlight[s.lookups[l].id] == s.lookups[l].stage.ticket)
  }

  /** What is cached or returned is the object itself. */
  ghost predicate Truthful<T>(s: State<T>, source: nat -> T) {
    && (forall id :: id in s.memory ==> s.memory[id] == source(id))
    && (forall l :: 0 <= l < |s.lookups| && s.lookups[l].stage.Returned? ==>
          s.lookups[l].stage.value == source(s.lookups[l].id))
  }

  /** Every read begun has ended or is running. */
  predicate Counted<T>(s: State<T>) {
    |s.completed| + |s.inFlight| == s.issued
  }

  ghost predicate OK<T>(s: State<T>, source: nat -> T) {
    Registered(s) && Ticketed(s) && Awaited(s) && Truthful(s, source) && Counted(s)
  }

  /** At most one read of an object runs at a time. */
  lemma OneReader<T>(s: State<T>, j: nat, k: nat)
    requires Registered(s) && j < |s.lookups| && k < |s.lookups|
    requires s.lookups[j].stage.Reading? && s.lookups[k].stage.Reading? && s.lookups[j].id == s.lookups[k].id
    ensures j == k
  {
  }

  /** No lookup waits for nothing: if one waits on a ticket not completed, a read of its
      object is running. */
  lemma WaitedIsRead<T>(s: State<T>, l: nat) returns (reader: nat)
    requires Registered(s) && Awaited(s) && l < |s.lookups|
    requires s.lookups[l].stage.Waiting? && s.lookups[l].stage.ticket !in s.completed
    ensures Reads(s, reader, s.lookups[l].id) && s.lookups[reader].stage.ticket == s.lookups[l].stage.ticket
  {
    reader :| Reads(s, reader, s.lookups[l].id);
  }

  // ---- Steps --------------------------------------------------------------

  function At<T>(s: State<T>, l: nat, stage: Stage<T>): State<T>
    requires l < |s.lookups|
  {
    s.(lookups := s.lookups[l := s.lookups[l].(stage := stage)])
  }

  /** A lookup that may go on: just begun, or what it waited on has ended. */
  predicate Ready<T>(s: State<T>, l: nat) {
    l < |s.lookups| && (s.lookups[l].stage.Starting?
                        || (s.lookups[l].stage.Waiting? && s.lookups[l].stage.ticket in s.completed))
  }

  /** Looking again: the cached object, or a read under way to wait on, or becoming the
      reader. */
  function Looked<T>(s: State<T>, l: nat): State<T>
    requires l < |s.lookups|
  {
    var id := s.lookups[l].id;
    if id in s.memory then At(s, l, Returned(s.memory[id]))
    else if id in s.inFlight then At(s, l, Waiting(s.inFlight[id]))
    else At(s, l, Reading(s.issued)).(inFlight := s.inFlight[id := s.issued], issued := s.issued + 1)
  }

  /** A read over: taken off the register, and whoever waited on it woken. */
  function Ended<T>(s: State<T>, l: nat, stage: Stage<T>): State<T>
    requires l < |s.lookups| && s.lookups[l].stage.Reading?
  {
    At(s, l, stage).(inFlight := s.inFlight - {s.lookups[l].id}, completed := s.completed + [s.lookups[l].stage.ticket])
  }

  lemma AddedOK<T>(s: State<T>, source: nat -> T, id: nat)
    requires OK(s, source)
    ensures OK(s.(lookups := s.lookups + [Lookup(id, Starting)]), source)
  {
    var s' := s.(lookups := s.lookups + [Lookup(id, Starting)]);
    AddedRegister(s, id);
    forall t: nat ensures Idle(s', t) <==> Idle(s, t) {
    }
  }

  lemma AddedRegister<T>(s: State<T>, id: nat)
    requires Registered(s)
    ensures Registered(s.(lookups := s.lookups + [Lookup(id, Starting)]))
  {
    var s' := s.(lookups := s.lookups + [Lookup(id, Starting)]);
    forall id | id in s'.inFlight ensures exists l :: Reads(s', l, id) {
      var l :| Reads(s, l, id);
      assert Reads(s', l, id);
    }
  }

  lemma ReadsKept<T>(s: State<T>, s': State<T>, except: nat)
    requires |s'.lookups| == |s.lookups| && except < |s.lookups|
    requires forall l :: 0 <= l < |s.lookups| && l != except ==> s'.lookups[l] == s.lookups[l]
    requires forall id :: id in s.inFlight ==> exists l :: Reads(s, l, id)
    ensures forall id :: id in s.inFlight && !Reads(s, except, id) ==> exists l :: Reads(s', l, id)
  {
    forall id | id in s.inFlight && !Reads(s, except, id) ensures exists l :: Reads(s', l, id) {
      var l :| Reads(s, l, id);
      assert Reads(s', l, id);
    }
  }

  /** A lookup that was not reading comes to a stage that is not reading either. */
  lemma StagedOK<T>(s: State<T>, source: nat -> T, l: nat, stage: Stage<T>)
    requires OK(s, source) && l < |s.lookups| && !s.lookups[l].stage.Reading? && !stage.Reading?
    requires stage.Waiting? ==> s.lookups[l].id in s.inFlight && s.inFlight[s.lookups[l].id] == stage.ticket
    requires stage.Returned? ==> stage.value == source(s.lookups[l].id)
    ensures OK(At(s, l, stage), source)
  {
    StagedRegister(s, l, stage);
    var s' := At(s, l, stage);
    forall t: nat ensures Idle(s', t) <==> Idle(s, t) {
    }
  }

  lemma StagedRegister<T>(s: State<T>, l: nat, stage: Stage<T>)
    requires Registered(s) && l < |s.lookups| && !s.lookups[l].stage.Reading? && !stage.Reading?
    ensures Registered(At(s, l, stage))
  {
    ReadsKept(s, At(s, l, stage), l);
  }

  lemma LookedOK<T>(s: State<T>, source: nat -> T, l: nat)
    requires OK(s, source) && Ready(s, l)
    ensures OK(Looked(s, l), source)
  {
    var id := s.lookups[l].id;
    if id in s.memory {
      StagedOK(s, source, l, Returned(s.memory[id]));
    } else if id in s.inFlight {
      StagedOK(s, source, l, Waiting(s.inFlight[id]));
    } else {
      StartedOK(s, source, l);
    }
  }

  lemma StartedOK<T>(s: State<T>, source: nat -> T, l: nat)
    requires OK(s, source) && Ready(s, l) && s.lookups[l].id !in s.memory && s.lookups[l].id !in s.inFlight
    ensures OK(Looked(s, l), source)
  {
    StartedTickets(s, l);
    StartedRegister(s, l);
  }

  lemma StartedRegister<T>(s: State<T>, l: nat)
    requires Registered(s) && Ticketed(s) && l < |s.lookups| && !s.lookups[l].stage.Reading?
    requires s.lookups[l].id !in s.inFlight && s.lookups[l].id !in s.memory
    ensures Registered(Looked(s, l))
  {
    StartedReaders(s, l);
    JoinedRegister(s, Looked(s, l), l);
  }

  /** One reader more, of an object nobody was reading. */
  lemma JoinedRegister<T>(s: State<T>, s': State<T>, l: nat)
    requires Registered(s) && l < |s.lookups| && !s.lookups[l].stage.Reading? && s.lookups[l].id !in s.inFlight
    requires s'.lookups == s.lookups[l := s.lookups[l].(stage := Reading(s.issued))]
    requires s'.inFlight == s.inFlight[s.lookups[l].id := s.issued]
    requires forall id :: id in s.inFlight ==> s.inFlight[id] < s.issued
    requires forall k :: 0 <= k < |s.lookups| && s.lookups[k].stage.Reading? ==>
               s.lookups[k].id != s.lookups[l].id && s.lookups[k].stage.ticket < s.issued
    ensures Registered(s')
  {
    JoinedRead(s, s', l);
  }

  lemma JoinedRead<T>(s: State<T>, s': State<T>, l: nat)
    requires BeingRead(s) && l < |s.lookups| && !s.lookups[l].stage.Reading?
    requires s'.lookups == s.lookups[l := s.lookups[l].(stage := Reading(s.issued))]
    requires s'.inFlight == s.inFlight[s.lookups[l].id := s.issued]
    ensures BeingRead(s')
  {
    ReadsKept(s, s', l);
    assert Reads(s', l, s.lookups[l].id);
  }

  /** Whoever was reading reads something else, under an earlier ticket. */
  lemma StartedReaders<T>(s: State<T>, l: nat)
    requires Registered(s) && Ticketed(s) && l < |s.lookups| && s.lookups[l].id !in s.inFlight
    ensures forall k :: 0 <= k < |s.lookups| && s.lookups[k].stage.Reading? ==>
              s.lookups[k].id != s.lookups[l].id && s.lookups[k].stage.ticket < s.issued
  {
    forall k | 0 <= k < |s.lookups| && s.lookups[k].stage.Reading?
      ensures s.lookups[k].id != s.lookups[l].id && s.lookups[k].stage.ticket < s.issued
    {
      assert s.lookups[k].id in s.inFlight;
    }
  }

  lemma StartedTickets<T>(s: State<T>, l: nat)
    requires Ticketed(s) && l < |s.lookups| && s.lookups[l].id !in s.inFlight && s.lookups[l].id !in s.memory
    ensures Ticketed(Looked(s, l))
  {
    var s', id := Looked(s, l), s.lookups[l].id;
    forall t: nat ensures t in s'.completed <==> t < s'.issued && Idle(s', t) {
      assert s'.inFlight[id] == s.issued;
      if Idle(s, t) && t != s.issued {
        assert Idle(s', t);
      } else if !Idle(s, t) {
        var x :| x in s.inFlight && s.inFlight[x] == t;
        assert s'.inFlight[x] == t;
      }
    }
  }

  lemma EndedTickets<T>(s: State<T>, l: nat, stage: Stage<T>)
    requires Ticketed(s) && Registered(s) && l < |s.lookups| && s.lookups[l].stage.Reading?
    ensures Ticketed(Ended(s, l, stage))
  {
    var s', id, ticket := Ended(s, l, stage), s.lookups[l].id, s.lookups[l].stage.ticket;
    assert s.inFlight[id] == ticket;
    forall t: nat ensures t in s'.completed <==> t < s'.issued && Idle(s', t) {
      assert t in s'.completed <==> t in s.completed || t == ticket;
      if t != ticket && !Idle(s, t) {
        var x :| x in s.inFlight && s.inFlight[x] == t;
        assert s'.inFlight[x] == t;
      }
    }
    assert !Idle(s, ticket);
  }

  lemma EndedRegister<T>(s: State<T>, l: nat, stage: Stage<T>)
    requires Registered(s) && l < |s.lookups| && s.lookups[l].stage.Reading? && !stage.Reading?
    ensures Registered(Ended(s, l, stage))
  {
    ReadsKept(s, Ended(s, l, stage), l);
  }

  lemma EndedOK<T>(s: State<T>, source: nat -> T, l: nat, stage: Stage<T>)
    requires OK(s, source) && l < |s.lookups| && s.lookups[l].stage.Reading?
    requires stage == Over || stage == Returned(source(s.lookups[l].id))
    ensures OK(Ended(s, l, stage), source)
  {
    EndedTickets(s, l, stage);
    EndedRegister(s, l, stage);
  }

  /** What is cached may change, so long as it is true. */
  lemma CachedOK<T>(s: State<T>, source: nat -> T, memory: map<nat, T>)
    requires OK(s, source) && forall id :: id in memory ==> memory[id] == source(id)
    ensures OK(s.(memory := memory), source)
  {
    var s' := s.(memory := memory);
    forall id | id in s'.inFlight ensures exists l :: Reads(s', l, id) {
      var l :| Reads(s, l, id);
      assert Reads(s', l, id);
    }
    forall t: nat ensures Idle(s', t) <==> Idle(s, t) {
    }
  }

  lemma DroppedOK<T>(s: State<T>, source: nat -> T, l: nat)
    requires OK(s, source) && l < |s.lookups| && !s.lookups[l].stage.Reading?
    ensures OK(At(s, l, Over), source)
  {
    StagedOK(s, source, l, Over);
  }

  // ---- Runs ---------------------------------------------------------------

  /** What can happen next: a lookup begins or goes on, a read comes back (into the cache
      if there is room) or fails, a lookup is dropped, or the cache forgets an object. */
  datatype Event =
    | Begin(id: nat)
    | Poll(l: nat)
    | Return(l: nat, room: bool)
    | Fail(l: nat)
    | Drop(l: nat)
    | Forget(id: nat)

  predicate IsReading<T>(s: State<T>, l: nat) {
    l < |s.lookups| && s.lookups[l].stage.Reading?
  }

  predicate Enabled<T>(s: State<T>, e: Event) {
    match e
    case Begin(_) => true
    case Poll(l) => Ready(s, l)
    case Return(l, _) => IsReading(s, l)
    case Fail(l) => IsReading(s, l)
    case Drop(l) => l < |s.lookups|
    case Forget(_) => true
  }

  function Next<T>(s: State<T>, source: nat -> T, e: Event): State<T>
    requires Enabled(s, e)
  {
    match e
    case Begin(id) => s.(lookups := s.lookups + [Lookup(id, Starting)])
    case Poll(l) => Looked(s, l)
    case Return(l, room) => ReadBack(s, source, l, room)
    case Fail(l) => Ended(s, l, Over)
    case Drop(l) => if IsReading(s, l) then Ended(s, l, Over) else At(s, l, Over)
    case Forget(id) => s.(memory := s.memory - {id})
  }

  function ReadBack<T>(s: State<T>, source: nat -> T, l: nat, room: bool): State<T>
    requires IsReading(s, l)
  {
    var id := s.lookups[l].id;
    Ended(s.(memory := if room then s.memory[id := source(id)] else s.memory), l, Returned(source(id)))
  }

  lemma NextOK<T>(s: State<T>, source: nat -> T, e: Event)
    requires OK(s, source) && Enabled(s, e)
    ensures OK(Next(s, source, e), source)
  {
    match e
    case Begin(id) => AddedOK(s, source, id);
    case Poll(l) => LookedOK(s, source, l);
    case Return(l, room) =>
      var id := s.lookups[l].id;
      var memory := if room then s.memory[id := source(id)] else s.memory;
      CachedOK(s, source, memory);
      EndedOK(s.(memory := memory), source, l, Returned(source(id)));
    case Fail(l) => EndedOK(s, source, l, Over);
    case Drop(l) => if IsReading(s, l) { EndedOK(s, source, l, Over); } else { DroppedOK(s, source, l); }
    case Forget(id) => CachedOK(s, source, s.memory - {id});
  }

  function Start<T>(): State<T> { State(map[], map[], [], 0, []) }

  ghost predicate Step<T>(s: State<T>, source: nat -> T, s': State<T>) {
    exists e :: Enabled(s, e) && s' == Next(s, source, e)
  }

  /** States one after another, from nothing cached and nobody looking. */
  ghost predicate IsRun<T>(run: seq<State<T>>, source: nat -> T) {
    run != [] && run[0] == Start() && forall k :: 0 <= k < |run| - 1 ==> Step(run[k], source, run[k + 1])
  }

  /** Whatever happens, in whatever order, the invariant holds throughout. */
  lemma {:induction false} RunOK<T>(run: seq<State<T>>, source: nat -> T, k: nat)
    requires IsRun(run, source) && k < |run|
    ensures OK(run[k], source)
  {
    if k > 0 {
      RunOK(run, source, k - 1);
      assert Step(run[k - 1], source, run[k]);
      var e :| Enabled(run[k - 1], e) && run[k] == Next(run[k - 1], source, e);
      NextOK(run[k - 1], source, e);
    }
  }

  /** Nothing completed is undone, and no lookup changes what it is of or, once it has
      returned or been dropped, comes back. */
  ghost predicate Later<T>(s: State<T>, s': State<T>) {
    && s.completed <= s'.completed && s.issued <= s'.issued && |s.lookups| <= |s'.lookups|
    && forall l :: 0 <= l < |s.lookups| ==>
         && s'.lookups[l].id == s.lookups[l].id
         && (s.lookups[l].stage.Over? ==> s'.lookups[l].stage.Over?)
         && (s.lookups[l].stage.Returned? ==> s'.lookups[l].stage in {s.lookups[l].stage, Over})
  }

  lemma NextLater<T>(s: State<T>, source: nat -> T, e: Event)
    requires Enabled(s, e)
    ensures Later(s, Next(s, source, e))
  {
  }

  lemma {:induction false} RunLater<T>(run: seq<State<T>>, source: nat -> T, i: nat, j: nat)
    requires IsRun(run, source) && i <= j < |run|
    ensures Later(run[i], run[j])
    decreases j
  {
    if i < j {
      RunLater(run, source, i, j - 1);
      assert Step(run[j - 1], source, run[j]);
      var e :| Enabled(run[j - 1], e) && run[j] == Next(run[j - 1], source, e);
      NextLater(run[j - 1], source, e);
      LaterStill(run[i], run[j - 1], run[j]);
    }
  }

  lemma LaterStill<T>(a: State<T>, b: State<T>, c: State<T>)
    requires Later(a, b) && Later(b, c)
    ensures Later(a, c)
  {
  }

  /** A read that has ended stays ended: its ticket is never under way again. */
  lemma CompletedForGood<T>(run: seq<State<T>>, source: nat -> T, i: nat, j: nat, t: nat)
    requires IsRun(run, source) && i <= j < |run| && t in run[i].completed
    ensures t in run[j].completed && Idle(run[j], t)
    ensures forall l :: 0 <= l < |run[j].lookups| && run[j].lookups[l].stage.Reading? ==>
              run[j].lookups[l].stage.ticket != t
  {
    RunLater(run, source, i, j);
    RunOK(run, source, j);
  }

  /** Nobody is ever stuck: a lookup that is not over can go on, or is reading, or waits
      on another that is reading the same object. */
  lemma NeverStuck<T>(run: seq<State<T>>, source: nat -> T, k: nat, l: nat)
    requires IsRun(run, source) && k < |run| && l < |run[k].lookups|
    ensures var stage := run[k].lookups[l].stage;
            || stage.Over? || stage.Returned? || Ready(run[k], l) || stage.Reading?
            || exists m: nat :: IsReading(run[k], m) && run[k].lookups[m].id == run[k].lookups[l].id
  {
    RunOK(run, source, k);
    if run[k].lookups[l].stage.Waiting? && !Ready(run[k], l) {
      var m := WaitedIsRead(run[k], l);
      assert IsReading(run[k], m);
    }
  }

  /** Throughout a run, no two lookups read the same object, and whatever one returns is
      the object. */
  lemma OneReadEach<T>(run: seq<State<T>>, source: nat -> T, k: nat, i: nat, j: nat)
    requires IsRun(run, source) && k < |run| && i < |run[k].lookups| && j < |run[k].lookups|
    ensures IsReading(run[k], i) && IsReading(run[k], j) && run[k].lookups[i].id == run[k].lookups[j].id ==> i == j
    ensures run[k].lookups[i].stage.Returned? ==> run[k].lookups[i].stage.value == source(run[k].lookups[i].id)
  {
    RunOK(run, source, k);
  }

  // ---- The cache itself ---------------------------------------------------

  class CachingRepo<T(!new)> {
    const source: nat -> T
    var memory: map<nat, T>
    var inFlight: map<nat, nat>
    var completed: seq<nat>
    var issued: nat
    var lookups: seq<Lookup<T>>

    function Now(): State<T>
      reads this
    {
      State(memory, inFlight, completed, issued, lookups)
    }

    ghost predicate Valid()
      reads this
    {
      OK(Now(), source)
    }

    constructor (source: nat -> T)
      ensures Valid() && this.source == source && Now() == Start()
    {
      this.source := source;
      memory, inFlight, completed, issued, lookups := map[], map[], [], 0, [];
    }

    /** A new lookup. */
    method Begin(id: nat)
      requires Valid()
      modifies this`lookups
      ensures Valid() && lookups == old(lookups) + [Lookup(id, Starting)]
    {
      AddedOK(Now(), source, id);
      lookups := lookups + [Lookup(id, Starting)];
    }

    /** A lookup goes on until it has to wait: it returns the cached object, or waits on
        the read under way, or starts a read. */
    method Poll(l: nat)
      requires Valid() && Ready(Now(), l)
      modifies this`inFlight, this`issued, this`lookups
      ensures Valid() && Now() == Looked(old(Now()), l)
    {
      LookedOK(Now(), source, l);
      Look(l);
    }

    method Look(l: nat)
      requires l < |lookups|
      modifies this`inFlight, this`issued, this`lookups
      ensures Now() == Looked(old(Now()), l)
    {
      var id := lookups[l].id;
      if id in memory {
        lookups := lookups[l := Lookup(id, Returned(memory[id]))];
        return;
      }
      if id in inFlight {
        lookups := lookups[l := Lookup(id, Waiting(inFlight[id]))];
        return;
      }
      inFlight := inFlight[id := issued];
      lookups := lookups[l := Lookup(id, Reading(issued))];
      issued := issued + 1;
    }

    /** A read comes back with the object, which is cached if the cache has room. */
    method ReadReturns(l: nat, room: bool)
      requires Valid() && l < |lookups| && lookups[l].stage.Reading?
      modifies this`memory, this`inFlight, this`completed, this`lookups
      ensures Valid() && memory == if room then old(memory)[old(lookups)[l].id := source(old(lookups)[l].id)]
                                   else old(memory)
      ensures Now() == Ended(old(Now()).(memory := memory), l, Returned(source(old(lookups)[l].id)))
    {
      if room {
        Cache(lookups[l].id);
      }
      EndRead(l, Returned(source(lookups[l].id)));
    }

    /** A read is over, however it went: it comes off the register, and whoever waited
        on it is woken. */
    method EndRead(l: nat, stage: Stage<T>)
      requires Valid() && l < |lookups| && lookups[l].stage.Reading?
      requires stage == Over || stage == Returned(source(lookups[l].id))
      modifies this`inFlight, this`completed, this`lookups
      ensures Valid() && Now() == Ended(old(Now()), l, stage)
    {
      EndedOK(Now(), source, l, stage);
      TakeOff(l, stage);
    }

    method TakeOff(l: nat, stage: Stage<T>)
      requires l < |lookups| && lookups[l].stage.Reading?
      modifies this`inFlight, this`completed, this`lookups
      ensures Now() == Ended(old(Now()), l, stage)
    {
      inFlight, completed := inFlight - {lookups[l].id}, completed + [lookups[l].stage.ticket];
      lookups := lookups[l := lookups[l].(stage := stage)];
    }

    method Cache(id: nat)
      requires Valid()
      modifies this`memory
      ensures Valid() && memory == old(memory)[id := source(id)]
    {
      CachedOK(Now(), source, memory[id := source(id)]);
      memory := memory[id := source(id)];
    }

    /** A lookup is dropped part-way; if it was the reader, its read is over. */
    method Drop(l: nat)
      requires Valid() && l < |lookups|
      modifies this`inFlight, this`completed, this`lookups
      ensures Valid()
      ensures Now() == if old(lookups)[l].stage.Reading? then Ended(old(Now()), l, Over) else At(old(Now()), l, Over)
    {
      if lookups[l].stage.Reading? {
        EndRead(l, Over);
      } else {
        DroppedOK(Now(), source, l);
        lookups := lookups[l := Lookup(lookups[l].id, Over)];
      }
    }

    /** The cache forgets anything at any time. */
    method Forget(id: nat)
      requires Valid()
      modifies this`memory
      ensures Valid() && memory == old(memory) - {id}
    {
      CachedOK(Now(), source, memory - {id});
      memory := memory - {id};
    }

    /** The event asked for, or a lookup begun if that cannot happen now. */
    method Happen(asked: Event) returns (e: Event)
      requires Valid()
      modifies this`memory, this`inFlight, this`completed, this`issued, this`lookups
      ensures Valid() && Enabled(old(Now()), e) && Now() == Next(old(Now()), source, e)
      ensures Enabled(old(Now()), asked) ==> e == asked
    {
      e := if Enabled(Now(), asked) then asked else Event.Begin(0);
      match e
      case Begin(id) => Begin(id);
      case Poll(l) => Poll(l);
      case Return(l, room) => ReadReturns(l, room);
      case Fail(l) => EndRead(l, Over);
      case Drop(l) => Drop(l);
      case Forget(id) => Forget(id);
    }
  }

  /** Whatever the choices, the states the cache goes through are a run. */
  method AnyInterleaving<T(!new)>(source: nat -> T, steps: nat) returns (repo: CachingRepo<T>, ghost run: seq<State<T>>)
    ensures repo.Valid() && repo.source == source
    ensures IsRun(run, source) && |run| == steps + 1 && run[steps] == repo.Now()
  {
    repo := new CachingRepo(source);
    run := [repo.Now()];
    for n := 0 to steps
      invariant repo.Valid() && repo.source == source
      invariant IsRun(run, source) && |run| == n + 1 && run[n] == repo.Now()
    {
      var e: Event := *;
      e := repo.Happen(e);
      assert Step(run[n], source, repo.Now());
      run := run + [repo.Now()];
    }
  }
}
