/** What a packfile means: its objects in order, each stored whole or as a delta on
a strictly earlier one or on one the store already had. Nothing here keeps a
window or reads anything back. */
module Pack {
  import opened Bytes
  import opened PackFormat

  const MAX_BUNDLE_BYTES: nat := 256 * 1024 * 1024
  const PACK_HEADER_LEN: nat := 12
  const PACK_TRAILER_LEN: nat := 20
  const PACK_VERSION: nat := 2
  const MAX_COUNT: nat := WORD32

  datatype RawObject = RawObject(objectType: ObjectType, body: seq<Byte>)
  type Store = map<ObjectId, RawObject>

  /** The compressor, the delta coder, the hash and the text decoder, which are not part of this model. */
  datatype Codec = Codec(
    deflate: seq<Byte> -> seq<Byte>,
    inflate: (seq<Byte>, nat) -> Option<(seq<Byte>, nat)>,
    indexable: seq<Byte> -> bool,
    delta: (seq<Byte>, seq<Byte>, nat) -> Option<seq<Byte>>,
    apply: (seq<Byte>, seq<Byte>) -> Option<seq<Byte>>,
    sha1: seq<Byte> -> ObjectId,
    id: RawObject -> ObjectId,
    utf8: seq<Byte> -> bool)

  /** What is relied on: inflating undoes deflating whatever follows, and takes no
      more than it is given; a delta keeps to its budget and rebuilds its target. */
  ghost predicate Honest(c: Codec) {
    && (forall body, tail :: c.inflate(c.deflate(body) + tail, |body|) == Some((body, |c.deflate(body)|)))
    && (forall input, size :: Inflates(c, input, size))
    && (forall base, target, max :: Rebuilds(c, base, target, max))
  }

  ghost predicate Inflates(c: Codec, input: seq<Byte>, size: nat) {
    var r := c.inflate(input, size);
    r.Some? ==> |r.value.0| == size && r.value.1 <= |input|
  }

  ghost predicate Rebuilds(c: Codec, base: seq<Byte>, target: seq<Byte>, max: nat) {
    var d := c.delta(base, target, max);
    d.Some? ==> |d.value| <= max && c.apply(d.value, base) == Some(target)
  }

  function PackHead(count: nat): seq<Byte>
    requires count < MAX_COUNT
  {
    ToBytes("PACK") + ToBE32(PACK_VERSION) + ToBE32(count)
  }

  // ---- Meaning ------------------------------------------------------------

  datatype Item = Item(kind: PackKind, stored: seq<Byte>, next: nat)

  /** What is stored at `pos`, with the offset just past it. */
  function ItemAt(c: Codec, pack: seq<Byte>, pos: nat): Option<Item> {
    if pos + PACK_TRAILER_LEN > |pack| then None
    else
      var rest := pack[pos..|pack| - PACK_TRAILER_LEN];
      var h := HeaderOf(rest);
      if h.None? || h.value.size > MAX_BUNDLE_BYTES || h.value.len > |rest| then None
      else
        var r := c.inflate(rest[h.value.len..], h.value.size);
        if r.None? then None else Some(Item(h.value.kind, r.value.0, pos + h.value.len + r.value.1))
  }

  type ItemReader = nat -> Option<Item>

  function Items(c: Codec, pack: seq<Byte>): ItemReader {
    (pos: nat) => ItemAt(c, pack, pos)
  }

  ghost predicate ItemsOf(c: Codec, pack: seq<Byte>, items: ItemReader) {
    forall pos: nat {:trigger ItemAt(c, pack, pos)} :: items(pos) == ItemAt(c, pack, pos)
  }

  /** The objects read so far, where each was, and where the next one is. */
  datatype Prefix = Prefix(objects: seq<RawObject>, at: seq<nat>, next: nat)

  function IndexOf(at: seq<nat>, x: nat): (r: Option<nat>)
    ensures r.Some? ==> r.value < |at| && at[r.value] == x
    ensures r.None? ==> x !in at
  {
    if at == [] then None
    else if at[|at| - 1] == x then Some(|at| - 1) else IndexOf(at[..|at| - 1], x)
  }

  /** The object of that name: the last one before, or the store's own. */
  function Named(c: Codec, objects: seq<RawObject>, store: Store, id: ObjectId): Option<RawObject> {
    if objects == [] then if id in store then Some(store[id]) else None
    else
      var last := objects[|objects| - 1];
      if c.id(last) == id then Some(last) else Named(c, objects[..|objects| - 1], store, id)
  }

  function BaseOf(c: Codec, p: Prefix, store: Store, kind: PackKind): Option<RawObject>
    requires !kind.Whole? && |p.at| == |p.objects|
  {
    match kind
    case OffsetDelta(distance) =>
      if distance > p.next then None
      else
        var k := IndexOf(p.at, p.next - distance);
        if k.None? then None else Some(p.objects[k.value])
    case RefDelta(id) => Named(c, p.objects, store, id)
  }

  function ApplyTo(c: Codec, base: Option<RawObject>, delta: seq<Byte>): Option<RawObject> {
    if base.None? then None
    else
      var body := c.apply(delta, base.value.body);
      if body.None? then None else Some(RawObject(base.value.objectType, body.value))
  }

  function Rebuilt(c: Codec, p: Prefix, store: Store, item: Item): Option<RawObject>
    requires |p.at| == |p.objects|
  {
    match item.kind
    case Whole(t) => Some(RawObject(t, item.stored))
    case OffsetDelta(_) => ApplyTo(c, BaseOf(c, p, store, item.kind), item.stored)
    case RefDelta(_) => ApplyTo(c, BaseOf(c, p, store, item.kind), item.stored)
  }

  /** One object more. */
  function Extend(c: Codec, items: ItemReader, store: Store, p: Prefix): (r: Option<Prefix>)
    requires |p.at| == |p.objects|
    ensures r.Some? ==> |r.value.objects| == |p.objects| + 1 && |r.value.at| == |p.at| + 1
  {
    var item := items(p.next);
    if item.None? then None
    else
      var o := Rebuilt(c, p, store, item.value);
      if o.None? then None else Some(Prefix(p.objects + [o.value], p.at + [p.next], item.value.next))
  }

  /** The first `n` objects of a pack, given what the store held before. */
  function Meaning(c: Codec, items: ItemReader, store: Store, n: nat): (r: Option<Prefix>)
    ensures r.Some? ==> |r.value.at| == |r.value.objects| == n
  {
    if n == 0 then Some(Prefix([], [], PACK_HEADER_LEN))
    else
      var before := Meaning(c, items, store, n - 1);
      if before.None? then None else Extend(c, items, store, before.value)
  }

  /** A pack with a meaning has one for each part of it, which the rest extends. */
  lemma {:induction false} MeaningExtends(c: Codec, items: ItemReader, store: Store, m: nat, n: nat)
    requires m <= n && Meaning(c, items, store, n).Some?
    ensures Meaning(c, items, store, m).Some?
    ensures Meaning(c, items, store, m).value.objects <= Meaning(c, items, store, n).value.objects
    ensures Meaning(c, items, store, m).value.at <= Meaning(c, items, store, n).value.at
  {
    if m < n { MeaningExtends(c, items, store, m, n - 1); }
  }

  lemma ItemWithin(c: Codec, pack: seq<Byte>, pos: nat)
    requires Honest(c) && ItemAt(c, pack, pos).Some?
    ensures pos < ItemAt(c, pack, pos).value.next <= |pack| - PACK_TRAILER_LEN
  {
    var rest := pack[pos..|pack| - PACK_TRAILER_LEN];
    HeaderWithin(rest);
    var h := HeaderOf(rest).value;
    assert Inflates(c, rest[h.len..], h.size);
  }

  /** Offsets that ascend, from just after the pack's header to where the next object
      would be. */
  ghost predicate Ascend(at: seq<nat>, next: nat) {
    && PACK_HEADER_LEN <= next
    && (if at == [] then next == PACK_HEADER_LEN else at[0] == PACK_HEADER_LEN)
    && (forall k :: 0 <= k < |at| ==> PACK_HEADER_LEN <= at[k] < next)
    && (forall j, k :: 0 <= j < k < |at| ==> at[j] < at[k])
  }

  lemma AscendNext(at: seq<nat>, next: nat, after: nat)
    requires Ascend(at, next) && next < after
    ensures Ascend(at + [next], after)
  {
  }

  /** The objects tile the pack: each starts where the one before ends, later than it
      started, so a base is always strictly earlier. */
  lemma OffsetsAscend(c: Codec, pack: seq<Byte>, store: Store, n: nat)
    requires Honest(c) && Meaning(c, Items(c, pack), store, n).Some?
    ensures var p := Meaning(c, Items(c, pack), store, n).value;
            Ascend(p.at, p.next) && (n > 0 ==> p.next + PACK_TRAILER_LEN <= |pack|)
  {
    var items := Items(c, pack);
    forall pos: nat | items(pos).Some? ensures pos < items(pos).value.next <= |pack| - PACK_TRAILER_LEN {
      ItemWithin(c, pack, pos);
    }
    ItemsAscend(c, items, store, n, |pack| - PACK_TRAILER_LEN);
  }

  /** The same of any reader whose items end later than they start, by `limit`. */
  lemma {:induction false} ItemsAscend(c: Codec, items: ItemReader, store: Store, n: nat, limit: int)
    requires forall pos: nat :: items(pos).Some? ==> pos < items(pos).value.next <= limit
    requires Meaning(c, items, store, n).Some?
    ensures var p := Meaning(c, items, store, n).value; Ascend(p.at, p.next) && (n > 0 ==> p.next <= limit)
  {
    if n > 0 {
      ItemsAscend(c, items, store, n - 1, limit);
      var p := Meaning(c, items, store, n - 1).value;
      AscendNext(p.at, p.next, items(p.next).value.next);
    }
  }

  /** Different objects have different names. */
  ghost predicate NoTwins(c: Codec, objects: seq<RawObject>) {
    forall j, k :: 0 <= j < |objects| && 0 <= k < |objects| && c.id(objects[j]) == c.id(objects[k]) ==>
        objects[j] == objects[k]
  }

  lemma {:induction false} NamedIs(c: Codec, objects: seq<RawObject>, store: Store, k: nat)
    requires NoTwins(c, objects) && k < |objects|
    ensures Named(c, objects, store, c.id(objects[k])) == Some(objects[k])
  {
    var n := |objects| - 1;
    if c.id(objects[n]) != c.id(objects[k]) {
      assert objects[..n][k] == objects[k];
      NamedIs(c, objects[..n], store, k);
    }
  }

  /** The store with objects put into it, each under its own name. */
  function PutAll(c: Codec, store: Store, objects: seq<RawObject>): Store {
    if objects == [] then store
    else
      var last := objects[|objects| - 1];
      PutAll(c, store, objects[..|objects| - 1])[c.id(last) := last]
  }

  lemma {:induction false} PutIsNamed(c: Codec, objects: seq<RawObject>, store: Store, id: ObjectId)
    ensures var s := PutAll(c, store, objects);
            Named(c, objects, store, id) == if id in s then Some(s[id]) else None
  {
    if objects != [] { PutIsNamed(c, objects[..|objects| - 1], store, id); }
  }

  // ---- The whole pack -----------------------------------------------------

  function CountOf(pack: seq<Byte>): nat
    requires |pack| >= PACK_HEADER_LEN
  {
    FromBE32(pack[8..12])
  }

  /** The pack is the right version, and undamaged. */
  predicate Verified(c: Codec, pack: seq<Byte>) {
    && |pack| >= PACK_HEADER_LEN + PACK_TRAILER_LEN
    && IsText(pack[..4], "PACK")
    && FromBE32(pack[4..8]) == PACK_VERSION
    && pack[|pack| - PACK_TRAILER_LEN..] == c.sha1(pack[..|pack| - PACK_TRAILER_LEN])
  }

  /** The pack reads from end to end: it is undamaged, every object in it can be
      rebuilt, and nothing is left over. */
  ghost predicate Readable(c: Codec, pack: seq<Byte>, store: Store) {
    && Verified(c, pack)
    && Meaning(c, Items(c, pack), store, CountOf(pack)).Some?
    && Meaning(c, Items(c, pack), store, CountOf(pack)).value.next == |pack| - PACK_TRAILER_LEN
  }
}
