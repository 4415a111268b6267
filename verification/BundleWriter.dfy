/** The writer of bundles: a header, then a pack that grows by an object a call. What has been
handed out and what is waiting are always, together, exactly the bytes of the
objects written. */
module BundleWriter {
  import opened Bytes
  import opened PackFormat
  import opened Pack
  import opened BundleHeader
  import opened Deltas

  const WINDOW: nat := 32
  const WINDOW_MEMORY_BYTES: nat := 64 * 1024 * 1024

  // ---- What a pack is written as ------------------------------------------

  /** An object in the pack: where it is, how deep its chain, the earlier object it is
      a delta against, if any, what is stored, and the bytes that are written. */
  datatype Placed = Placed(at: nat, content: RawObject, depth: nat, base: Option<nat>, stored: seq<Byte>,
                           bytes: seq<Byte>)

  /** The bytes before an object's deflated ones. A delta's give the distance to its base
      too. */
  function RecordHeader(objectType: ObjectType, size: nat, distance: Option<nat>): seq<Byte> {
    if distance.None? then PackHeader(TypeBits(objectType), size)
    else PackHeader(OFS_DELTA, size) + Distance(distance.value)
  }

  function Record(c: Codec, objectType: ObjectType, stored: seq<Byte>, distance: Option<nat>): seq<Byte> {
    RecordHeader(objectType, |stored|, distance) + c.deflate(stored)
  }

  /** The pack's bytes, up to its checksum. */
  function PackText(head: seq<Byte>, log: seq<Placed>): seq<Byte> {
    if log == [] then head else PackText(head, log[..|log| - 1]) + log[|log| - 1].bytes
  }

  /** `p` may follow `log`: stored whole, or as a thrifty delta, within the depth
      limit, that rebuilds it from an earlier object of its own type. */
  ghost predicate Follows(c: Codec, log: seq<Placed>, p: Placed) {
    match p.base
    case None =>
      && p.stored == p.content.body && p.depth == 0
      && p.bytes == Record(c, p.content.objectType, p.stored, None)
    case Some(j) =>
      && j < |log| && log[j].at < p.at
      && log[j].content.objectType == p.content.objectType
      && c.apply(p.stored, log[j].content.body) == Some(p.content.body)
      && p.depth == log[j].depth + 1 <= MAX_DEPTH
      && Thrifty(|p.stored|, |p.content.body|, log[j].depth)
      && p.bytes == Record(c, p.content.objectType, p.stored, Some(p.at - log[j].at))
  }

  /** The `k`-th object is where the pack before it ends, and may follow it. */
  ghost predicate Stands(c: Codec, head: seq<Byte>, log: seq<Placed>, k: nat)
    requires k < |log|
  {
    log[k].at == |PackText(head, log[..k])| && Follows(c, log[..k], log[k])
  }

  ghost predicate WellWritten(c: Codec, head: seq<Byte>, log: seq<Placed>) {
    forall k :: 0 <= k < |log| ==> Stands(c, head, log, k)
  }

  lemma Written(c: Codec, head: seq<Byte>, log: seq<Placed>, p: Placed)
    requires WellWritten(c, head, log) && Follows(c, log, p) && p.at == |PackText(head, log)|
    ensures WellWritten(c, head, log + [p])
    ensures PackText(head, log + [p]) == PackText(head, log) + p.bytes
  {
    var after := log + [p];
    assert after[..|log|] == log;
    forall k | 0 <= k < |after| ensures Stands(c, head, after, k) {
      if k < |log| {
        assert Stands(c, head, log, k);
        assert after[..k] == log[..k];
      }
    }
  }

  /** Later parts of a pack leave the earlier ones where they were. */
  lemma {:induction false} TextGrows(head: seq<Byte>, log: seq<Placed>, k: nat)
    requires k <= |log|
    ensures PackText(head, log[..k]) <= PackText(head, log)
    decreases |log|
  {
    if k < |log| {
      assert log[..|log| - 1][..k] == log[..k];
      TextGrows(head, log[..|log| - 1], k);
    } else {
      assert log[..k] == log;
    }
  }

  /** Every object written is before the pack's end. */
  lemma EarlierAt(c: Codec, head: seq<Byte>, log: seq<Placed>, j: nat)
    requires WellWritten(c, head, log) && j < |log|
    ensures log[j].at < |PackText(head, log)|
  {
    assert Stands(c, head, log, j);
    TextGrows(head, log, j + 1);
    assert log[..j + 1][..j] == log[..j];
    SomeBytes(c, log[..j], log[j]);
  }

  lemma SomeBytes(c: Codec, log: seq<Placed>, p: Placed)
    requires Follows(c, log, p)
    ensures |p.bytes| > 0
  {
  }

  /** How many deltas a reader applies to rebuild the `k`-th object. */
  function ChainLength(log: seq<Placed>, k: nat): nat
    requires k < |log|
  {
    if log[k].base.Some? && log[k].base.value < k then 1 + ChainLength(log, log[k].base.value) else 0
  }

  /** No chain is longer than the limit. */
  lemma {:induction false} ChainsAreShort(c: Codec, head: seq<Byte>, log: seq<Placed>, k: nat)
    requires WellWritten(c, head, log) && k < |log|
    ensures ChainLength(log, k) == log[k].depth <= MAX_DEPTH
  {
    assert Stands(c, head, log, k);
    if log[k].base.Some? {
      ChainsAreShort(c, head, log, log[k].base.value);
    }
  }

  // ---- The window ---------------------------------------------------------

  /** Whether a base has been indexed for matching yet. */
  datatype Index = Unbuilt | Unindexable | Built
  datatype Candidate = Candidate(base: Base, index: Index)

  function Bases(window: seq<Candidate>): seq<Base> {
    seq(|window|, k requires 0 <= k < |window| => window[k].base)
  }

  ghost function Weight(window: seq<Candidate>): nat {
    if window == [] then 0 else |window[0].base.body| + Weight(window[1..])
  }

  predicate BaseIs(b: Base, p: Placed) {
    b == Base(p.at, p.depth, p.content.objectType, p.content.body)
  }

  ghost predicate IndexIs(c: Codec, x: Candidate) {
    (x.index == Built ==> c.indexable(x.base.body)) && (x.index == Unindexable ==> !c.indexable(x.base.body))
  }

  /** The window is the last few objects written, and `bytes` is exactly what they
      weigh. */
  ghost predicate WindowIs(c: Codec, window: seq<Candidate>, bytes: nat, log: seq<Placed>) {
    && |window| <= |log|
    && (forall i :: 0 <= i < |window| ==> BaseIs(window[i].base, log[|log| - |window| + i]) && IndexIs(c, window[i]))
    && bytes == Weight(window)
  }

  predicate Bounded(window: seq<Candidate>, bytes: nat) {
    |window| <= WINDOW && (bytes <= WINDOW_MEMORY_BYTES || |window| <= 1)
  }

  lemma {:induction false} WeightPush(window: seq<Candidate>, x: Candidate)
    ensures Weight(window + [x]) == Weight(window) + |x.base.body|
  {
    if window != [] {
      assert (window + [x])[1..] == window[1..] + [x];
      WeightPush(window[1..], x);
    }
  }

  lemma {:induction false} WeightIndexed(window: seq<Candidate>, i: nat, index: Index)
    requires i < |window|
    ensures Weight(window[i := window[i].(index := index)]) == Weight(window)
  {
    var after := window[i := window[i].(index := index)];
    if i > 0 {
      assert after[1..] == window[1..][i - 1 := window[1..][i - 1].(index := index)];
      WeightIndexed(window[1..], i - 1, index);
    } else {
      assert after[1..] == window[1..];
    }
  }

  /** The same window with one more base indexed. */
  lemma Indexed(c: Codec, window: seq<Candidate>, bytes: nat, log: seq<Placed>, i: nat, index: Index)
    requires WindowIs(c, window, bytes, log) && i < |window| && IndexIs(c, window[i].(index := index))
    ensures var after := window[i := window[i].(index := index)];
            WindowIs(c, after, bytes, log) && Bases(after) == Bases(window)
  {
    WeightIndexed(window, i, index);
  }

  ghost function Heft(bases: seq<Base>): nat {
    if bases == [] then 0 else |bases[0].body| + Heft(bases[1..])
  }

  lemma {:induction false} WeightIsHeft(window: seq<Candidate>)
    ensures Weight(window) == Heft(Bases(window))
  {
    if window != [] {
      WeightIsHeft(window[1..]);
      assert Bases(window)[1..] == Bases(window[1..]);
    }
  }

  /** The oldest dropped for as long as there are too many, or too much and not just one. */
  ghost function Trimmed(bases: seq<Base>): seq<Base> {
    if |bases| > WINDOW || (Heft(bases) > WINDOW_MEMORY_BYTES && |bases| > 1) then Trimmed(bases[1..]) else bases
  }

  function BaseIn(p: Placed): Base { Base(p.at, p.depth, p.content.objectType, p.content.body) }

  /** The bases the object after these is offered. */
  ghost function Recent(log: seq<Placed>): seq<Base> {
    if log == [] then [] else Trimmed(Recent(log[..|log| - 1]) + [BaseIn(log[|log| - 1])])
  }

  lemma RecentNext(log: seq<Placed>, p: Placed)
    ensures Recent(log + [p]) == Trimmed(Recent(log) + [BaseIn(p)])
  {
    assert (log + [p])[..|log|] == log;
  }

  /** One object dropped that has to be. */
  lemma TrimmedPop(window: seq<Candidate>, bytes: nat)
    requires bytes == Weight(window)
    requires |window| > WINDOW || (bytes > WINDOW_MEMORY_BYTES && |window| > 1)
    ensures Trimmed(Bases(window)) == Trimmed(Bases(window[1..]))
  {
    WeightIsHeft(window);
    TrimmedOnce(Bases(window));
    assert Bases(window)[1..] == Bases(window[1..]);
  }

  lemma TrimmedOnce(bases: seq<Base>)
    requires |bases| > WINDOW || (Heft(bases) > WINDOW_MEMORY_BYTES && |bases| > 1)
    ensures Trimmed(bases) == Trimmed(bases[1..])
  {
  }

  lemma TrimmedDone(window: seq<Candidate>, bytes: nat)
    requires bytes == Weight(window) && Bounded(window, bytes)
    ensures Trimmed(Bases(window)) == Bases(window)
  {
    WeightIsHeft(window);
  }

  // ---- The one layout -----------------------------------------------------

  /** Which object starts there. */
  function PlaceOf(log: seq<Placed>, at: nat): Option<nat> {
    if log == [] then None
    else if log[|log| - 1].at == at then Some(|log| - 1) else PlaceOf(log[..|log| - 1], at)
  }

  lemma {:induction false} PlaceIs(c: Codec, head: seq<Byte>, log: seq<Placed>, j: nat)
    requires WellWritten(c, head, log) && j < |log|
    ensures PlaceOf(log, log[j].at) == Some(j)
  {
    var n := |log| - 1;
    if j < n {
      var before := log[..n];
      assert WellWritten(c, head, before) by {
        forall k | 0 <= k < n ensures Stands(c, head, before, k) {
          assert Stands(c, head, log, k);
          assert before[..k] == log[..k];
        }
      }
      EarlierAt(c, head, before, j);
      assert Stands(c, head, log, n);
      PlaceIs(c, head, before, j);
    }
  }

  /** How the object after these is stored: as the best delta against what is recent, or
      whole if there is none. */
  ghost function Chosen(c: Codec, head: seq<Byte>, log: seq<Placed>, o: RawObject): Placed {
    var best := BestFrom(c, Recent(log), 0, o.objectType, o.body);
    if best.None? then StoredWhole(c, head, log, o)
    else DeltaOf(c, head, log, o, best.value, PlaceOf(log, best.value.baseOffset))
  }

  ghost function StoredWhole(c: Codec, head: seq<Byte>, log: seq<Placed>, o: RawObject): Placed {
    Placed(|PackText(head, log)|, o, 0, None, o.body, Record(c, o.objectType, o.body, None))
  }

  /** How objects are laid out in a pack, whether or not it fits. */
  ghost function Layout(c: Codec, head: seq<Byte>, objects: seq<RawObject>): (log: seq<Placed>)
    ensures |log| == |objects|
  {
    if objects == [] then []
    else
      var before := Layout(c, head, objects[..|objects| - 1]);
      before + [Chosen(c, head, before, objects[|objects| - 1])]
  }

  /** Each object stands as it is chosen, knowing only those before it. */
  ghost predicate LaidOut(c: Codec, head: seq<Byte>, objects: seq<RawObject>, log: seq<Placed>) {
    && |log| == |objects|
    && forall k :: 0 <= k < |log| ==> ChosenAt(c, head, objects, log, k)
  }

  ghost predicate ChosenAt(c: Codec, head: seq<Byte>, objects: seq<RawObject>, log: seq<Placed>, k: nat)
    requires k < |log| == |objects|
  {
    log[k] == Chosen(c, head, log[..k], objects[k])
  }

  lemma {:induction false} LayoutIs(c: Codec, head: seq<Byte>, objects: seq<RawObject>)
    ensures LaidOut(c, head, objects, Layout(c, head, objects))
  {
    if objects != [] {
      var n := |objects| - 1;
      LayoutIs(c, head, objects[..n]);
      var before := Layout(c, head, objects[..n]);
      LaidOutNext(c, head, objects, before, Layout(c, head, objects));
    }
  }

  lemma LaidOutNext(c: Codec, head: seq<Byte>, objects: seq<RawObject>, before: seq<Placed>, log: seq<Placed>)
    requires objects != [] && LaidOut(c, head, objects[..|objects| - 1], before)
    requires log == before + [Chosen(c, head, before, objects[|objects| - 1])]
    ensures LaidOut(c, head, objects, log)
  {
    forall k | 0 <= k < |log| ensures ChosenAt(c, head, objects, log, k) {
      if k < |before| {
        assert ChosenAt(c, head, objects[..|objects| - 1], before, k);
        ChosenStill(c, head, objects, before, log, k);
      } else {
        assert log[..k] == before;
      }
    }
  }

  lemma ChosenStill(c: Codec, head: seq<Byte>, objects: seq<RawObject>, before: seq<Placed>, log: seq<Placed>, k: nat)
    requires |log| == |objects| == |before| + 1 && before == log[..|before|] && k < |before|
    requires ChosenAt(c, head, objects[..|before|], before, k)
    ensures ChosenAt(c, head, objects, log, k)
  {
    assert log[..k] == before[..k];
  }

  /** What was chosen from the window is an earlier object, and may be written. */
  lemma ChosenFollows(c: Codec, head: seq<Byte>, window: seq<Candidate>, bytes: nat, log: seq<Placed>, o: RawObject,
                      d: Delta)
    requires Honest(c) && WellWritten(c, head, log) && WindowIs(c, window, bytes, log)
    requires BestFrom(c, Bases(window), 0, o.objectType, o.body) == Some(d)
    ensures d.baseOffset < |PackText(head, log)|
    ensures var p := DeltaOf(c, head, log, o, d, PlaceOf(log, d.baseOffset)); p.base.Some? && Follows(c, log, p)
  {
    var k := BestIsAgainst(c, Bases(window), 0, o.objectType, o.body);
    var j := |log| - |window| + k;
    assert Bases(window)[k] == window[k].base;
    EarlierAt(c, head, log, j);
    PlaceIs(c, head, log, j);
    DeltaFollows(c, head, log, o, d, window[k].base, j);
  }

  lemma DeltaFollows(c: Codec, head: seq<Byte>, log: seq<Placed>, o: RawObject, d: Delta, base: Base, j: nat)
    requires j < |log| && BaseIs(base, log[j]) && Against(c, d, base, o.objectType, o.body)
    requires log[j].at < |PackText(head, log)|
    ensures Follows(c, log, DeltaOf(c, head, log, o, d, Some(j)))
  {
  }

  /** The object placed next, as a delta against the `j`-th. */
  ghost function DeltaOf(c: Codec, head: seq<Byte>, log: seq<Placed>, o: RawObject, d: Delta, j: Option<nat>): Placed {
    var at := |PackText(head, log)|;
    Placed(at, o, d.depth, j, d.data, Record(c, o.objectType, d.data, Some(Less(at, d.baseOffset))))
  }

  lemma WindowPush(c: Codec, window: seq<Candidate>, bytes: nat, log: seq<Placed>, x: Candidate, p: Placed)
    requires WindowIs(c, window, bytes, log) && BaseIs(x.base, p) && x.index == Unbuilt
    ensures WindowIs(c, window + [x], bytes + |x.base.body|, log + [p])
  {
    WeightPush(window, x);
  }

  lemma WindowPop(c: Codec, window: seq<Candidate>, bytes: nat, log: seq<Placed>)
    requires WindowIs(c, window, bytes, log) && window != []
    ensures bytes >= |window[0].base.body|
    ensures WindowIs(c, window[1..], bytes - |window[0].base.body|, log)
  {
  }

  // ---- The writer ---------------------------------------------------------

  class BundleWriter {
    const c: Codec
    /** The count that is in the header already. */
    const objects: nat
    /** The bundle's header, and the pack's own. */
    ghost const header: seq<Byte>
    ghost const head: seq<Byte>
    /** What waits to be taken, and what has been taken so far. */
    var out: seq<Byte>
    ghost var handed: seq<Byte>
    var window: seq<Candidate>
    var windowBytes: nat
    /** The pack's bytes so far, which the checksum is over, and how many. */
    var hashed: seq<Byte>
    var written: nat
    var appended: nat
    ghost var log: seq<Placed>

    ghost predicate Valid()
      reads this
    {
      && WellWritten(c, head, log) && Tells(log)
      && appended == |log|
      && WindowIs(c, window, windowBytes, log) && Bounded(window, windowBytes) && Bases(window) == Recent(log)
    }

    /** What has been written is the pack of those objects, and what has been handed
        out and what waits are the whole of it. */
    ghost predicate Tells(objects: seq<Placed>)
      reads this
    {
      && hashed == PackText(head, objects) && written == |hashed| <= MAX_BUNDLE_BYTES
      && handed + out == header + hashed
    }

    constructor (c: Codec, objects: nat, header: seq<Byte>, head: seq<Byte>)
      requires |head| <= MAX_BUNDLE_BYTES
      ensures Valid() && this.c == c && this.objects == objects && this.header == header && this.head == head
      ensures log == [] && handed == []
    {
      this.c, this.objects, this.header, this.head := c, objects, header, head;
      window, windowBytes, appended, log, handed := [], 0, 0, [], [];
      out, hashed, written := header + head, head, |head|;
    }

    /** What the pure choice over the window's objects gives, though each is indexed only
        when its turn comes. */
    method BestDelta(objectType: ObjectType, body: seq<Byte>) returns (best: Option<Delta>)
      requires WindowIs(c, window, windowBytes, log)
      modifies this`window
      ensures WindowIs(c, window, windowBytes, log) && Bases(window) == Bases(old(window))
      ensures best == BestFrom(c, Bases(window), 0, objectType, body)
    {
      best := None;
      var i := |window|;
      while i > 0
        invariant 0 <= i <= |window| && |window| == |old(window)|
        invariant WindowIs(c, window, windowBytes, log) && Bases(window) == Bases(old(window))
        invariant best == BestFrom(c, Bases(window), i, objectType, body)
      {
        i := i - 1;
        best := TryCandidate(i, best, objectType, body);
      }
    }

    method TryCandidate(i: nat, best: Option<Delta>, objectType: ObjectType, body: seq<Byte>) returns (r: Option<Delta>)
      requires WindowIs(c, window, windowBytes, log) && i < |window| && Usable(best)
      modifies this`window
      ensures WindowIs(c, window, windowBytes, log) && Bases(window) == Bases(old(window))
      ensures r == Offer(c, best, Bases(window)[i], objectType, body)
    {
      var base := window[i].base;
      if base.objectType != objectType || base.depth >= MAX_DEPTH {
        return best;
      }
      var budget := Budget(best, |body|, base.depth);
      if !Worthwhile(base, |body|, budget) {
        return best;
      }
      BuildIndex(i);
      if window[i].index != Built {
        return best;
      }
      var data := c.delta(base.body, body, budget);
      if data.None? || NoBetter(best, data.value, base.depth + 1) {
        return best;
      }
      r := Some(Delta(data.value, base.offset, base.depth + 1));
    }

    /** A candidate is indexed at most once, and nothing else about the window changes. */
    method BuildIndex(i: nat)
      requires WindowIs(c, window, windowBytes, log) && i < |window|
      modifies this`window
      ensures WindowIs(c, window, windowBytes, log) && Bases(window) == Bases(old(window))
      ensures |window| == |old(window)| && window[i].base == old(window[i]).base
      ensures window[i].index == if c.indexable(window[i].base.body) then Built else Unindexable
    {
      if window[i].index == Unbuilt {
        var index := if c.indexable(window[i].base.body) then Built else Unindexable;
        Indexed(c, window, windowBytes, log, i, index);
        window := window[i := window[i].(index := index)];
      }
    }

    /** The object's record, the one the layout has next, joins the log if the pack then
        keeps within the cap; the log is as it was if not. */
    method Append(objectType: ObjectType, body: seq<Byte>) returns (ok: bool, ghost p: Placed)
      requires Valid() && Honest(c)
      modifies this
      ensures Valid() && handed == old(handed)
      ensures p.content == RawObject(objectType, body) && p.at == |old(hashed)| && Follows(c, old(log), p)
      ensures p == Chosen(c, head, old(log), RawObject(objectType, body))
      ensures ok <==> |old(hashed)| + |p.bytes| <= MAX_BUNDLE_BYTES
      ensures log == if ok then old(log) + [p] else old(log)
    {
      var offset := written;
      var best := BestDelta(objectType, body);
      ok, p := AppendAs(objectType, body, best);
      if ok {
        var depth := if best.Some? then best.value.depth else 0;
        Remember(Candidate(Base(offset, depth, objectType, body), Unbuilt), p);
      }
    }

    method AppendAs(objectType: ObjectType, body: seq<Byte>, best: Option<Delta>) returns (ok: bool, ghost p: Placed)
      requires Valid() && Honest(c) && best == BestFrom(c, Bases(window), 0, objectType, body)
      modifies this`hashed, this`out, this`written
      ensures p.content == RawObject(objectType, body) && p.at == |old(hashed)| && Follows(c, log, p)
      ensures p.depth == (if best.Some? then best.value.depth else 0)
      ensures p == Chosen(c, head, log, RawObject(objectType, body))
      ensures ok <==> |old(hashed)| + |p.bytes| <= MAX_BUNDLE_BYTES
      ensures if ok then WithLast(p) else Valid()
    {
      if best.Some? {
        ok, p := AppendDelta(objectType, body, best.value);
      } else {
        ok, p := AppendWhole(objectType, body);
      }
    }

    method AppendDelta(objectType: ObjectType, body: seq<Byte>, delta: Delta) returns (ok: bool, ghost p: Placed)
      requires Valid() && Honest(c) && BestFrom(c, Bases(window), 0, objectType, body) == Some(delta)
      modifies this`hashed, this`out, this`written
      ensures p.content == RawObject(objectType, body) && p.at == |old(hashed)| && Follows(c, log, p)
      ensures p.base.Some? && p.depth == delta.depth && p == Chosen(c, head, log, RawObject(objectType, body))
      ensures ok <==> |old(hashed)| + |p.bytes| <= MAX_BUNDLE_BYTES
      ensures if ok then WithLast(p) else Valid()
    {
      ghost var o := RawObject(objectType, body);
      ChosenFollows(c, head, window, windowBytes, log, o, delta);
      p := DeltaOf(c, head, log, o, delta, PlaceOf(log, delta.baseOffset));
      var header := WriteDeltaHeader(|delta.data|, written - delta.baseOffset);
      ok := FinishObject(header, delta.data, p);
    }

    method AppendWhole(objectType: ObjectType, body: seq<Byte>) returns (ok: bool, ghost p: Placed)
      requires Valid() && BestFrom(c, Bases(window), 0, objectType, body).None?
      modifies this`hashed, this`out, this`written
      ensures p.content == RawObject(objectType, body) && p.at == |old(hashed)| && Follows(c, log, p)
      ensures p.base.None? && p.depth == 0 && p == Chosen(c, head, log, RawObject(objectType, body))
      ensures ok <==> |old(hashed)| + |p.bytes| <= MAX_BUNDLE_BYTES
      ensures if ok then WithLast(p) else Valid()
    {
      p := StoredWhole(c, head, log, RawObject(objectType, body));
      var header := WritePackHeader([], TypeBits(objectType), |body|);
      ok := FinishObject(header, body, p);
    }

    /** All but the window agrees with the log and one object more. */
    ghost predicate WithLast(p: Placed)
      reads this
    {
      && WellWritten(c, head, log + [p]) && Tells(log + [p])
      && appended == |log|
      && WindowIs(c, window, windowBytes, log) && Bounded(window, windowBytes) && Bases(window) == Recent(log)
    }

    /** Deflate what is stored behind its header, unless that is over the cap. */
    method FinishObject(header: seq<Byte>, payload: seq<Byte>, ghost p: Placed) returns (ok: bool)
      requires Valid() && Follows(c, log, p) && p.at == |hashed|
      requires header + c.deflate(payload) == p.bytes
      modifies this`hashed, this`out, this`written
      ensures ok <==> |old(hashed)| + |p.bytes| <= MAX_BUNDLE_BYTES
      ensures if ok then WithLast(p) else Valid()
    {
      var deflated := c.deflate(payload);
      if written + |header| + |deflated| > MAX_BUNDLE_BYTES {
        return false;
      }
      Written(c, head, log, p);
      Pack(header);
      Pack(deflated);
      Rejoined(old(hashed), header, deflated);
      ok := true;
    }

    /** The bytes are hashed and wait to be taken, at the end of both. */
    method Pack(bytes: seq<Byte>)
      requires written == |hashed| && handed + out == header + hashed
      modifies this`hashed, this`out, this`written
      ensures written == |hashed| && handed + out == header + hashed
      ensures hashed == old(hashed) + bytes && out == old(out) + bytes
    {
      Closes(handed, out, header, hashed, bytes);
      hashed, out, written := hashed + bytes, out + bytes, written + |bytes|;
    }

    /** Keep a candidate, dropping the oldest that no longer fit. */
    method Remember(x: Candidate, ghost p: Placed)
      requires WithLast(p) && BaseIs(x.base, p) && x.index == Unbuilt
      modifies this`window, this`windowBytes, this`appended, this`log
      ensures Valid() && log == old(log) + [p]
    {
      WindowPush(c, window, windowBytes, log, x, p);
      RecentNext(log, p);
      assert Bases(window + [x]) == Bases(window) + [BaseIn(p)];
      windowBytes := windowBytes + |x.base.body|;
      window := window + [x];
      log := log + [p];
      appended := appended + 1;
      Trim();
    }

    method Trim()
      requires WindowIs(c, window, windowBytes, log)
      modifies this`window, this`windowBytes
      ensures WindowIs(c, window, windowBytes, log) && Bounded(window, windowBytes)
      ensures Bases(window) == Trimmed(Bases(old(window)))
    {
      while |window| > WINDOW || (windowBytes > WINDOW_MEMORY_BYTES && |window| > 1)
        invariant WindowIs(c, window, windowBytes, log)
        invariant Trimmed(Bases(window)) == Trimmed(Bases(old(window)))
        decreases |window|
      {
        TrimmedPop(window, windowBytes);
        WindowPop(c, window, windowBytes, log);
        windowBytes := windowBytes - |window[0].base.body|;
        window := window[1..];
      }
      TrimmedDone(window, windowBytes);
    }

    /** The bytes not yet taken, which are then taken. */
    method Take() returns (bytes: seq<Byte>)
      requires Valid()
      modifies this`out, this`handed
      ensures Valid() && out == [] && handed == old(handed) + bytes && bytes == old(out)
    {
      bytes := out;
      handed := handed + out;
      out := [];
    }

    /** What is left to hand out, the checksum last: but only if as many objects were
        written as the header says. */
    method Finish() returns (r: Option<seq<Byte>>)
      requires Valid()
      ensures r.Some? <==> |log| == objects
      ensures r.Some? ==> handed + r.value == header + (PackText(head, log) + c.sha1(PackText(head, log)))
    {
      if appended != objects {
        return None;
      }
      Closes(handed, out, header, hashed, c.sha1(hashed));
      r := Some(out + c.sha1(hashed));
    }
  }

  method WriteDeltaHeader(size: nat, distance: nat) returns (header: seq<Byte>)
    requires distance < WORD
    ensures header == PackHeader(OFS_DELTA, size) + Distance(distance)
  {
    header := WritePackHeader([], OFS_DELTA, size);
    header := WriteBaseDistance(header, distance);
  }

  lemma Rejoined(a: seq<Byte>, b: seq<Byte>, c: seq<Byte>)
    ensures a + b + c == a + (b + c)
  {
  }

  lemma Closes(handed: seq<Byte>, out: seq<Byte>, header: seq<Byte>, hashed: seq<Byte>, sum: seq<Byte>)
    requires handed + out == header + hashed
    ensures handed + (out + sum) == header + (hashed + sum)
  {
    assert handed + (out + sum) == (handed + out) + sum;
  }

  /** Open a bundle, or nothing if its refs or its count cannot be written. */
  method Open(c: Codec, refs: seq<BundleRef>, objects: nat) returns (w: Option<BundleWriter>)
    ensures w.Some? <==> refs != [] && (forall r :: r in refs ==> ValidName(r.name)) && objects < MAX_COUNT
    ensures w.Some? ==>
              && fresh(w.value) && w.value.Valid()
              && w.value.c == c && w.value.objects == objects
              && w.value.header == HeaderBytes(refs) && w.value.head == PackHead(objects)
              && w.value.log == [] && w.value.handed == []
  {
    var header := WriteHeader(refs);
    if header.None? || objects >= MAX_COUNT {
      return None;
    }
    var writer := new BundleWriter(c, objects, header.value, PackHead(objects));
    w := Some(writer);
  }
}
