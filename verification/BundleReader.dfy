/** Reading a bundle: every object of the pack is put in the store in pack order,
under the name of its own bytes. Bases are kept in a window for a while and read
back from the store after that; which of the two never changes the result. */
module BundleReader {
  import opened Bytes
  import opened PackFormat
  import opened Pack
  import opened BundleHeader

  const WINDOW_MEMORY_BYTES: nat := 64 * 1024 * 1024

  /** A read is refused if the bundle is at fault, unavailable if the store is. */
  datatype Outcome<+T> = Ok(value: T) | Refused | Unavailable

  datatype Summary = Summary(header: BundleHeader, objects: nat)

  type Put = (ObjectId, RawObject)

  // ---- The window ---------------------------------------------------------

  ghost function Weight(order: seq<ObjectId>, window: map<ObjectId, RawObject>): nat {
    if order == [] then 0
    else
      var last := order[|order| - 1];
      Weight(order[..|order| - 1], window) + if last in window then |window[last].body| else 0
  }

  /** The order lists what the window holds, each once, and `bytes` is at least what
      that weighs. */
  ghost predicate Tidy(window: map<ObjectId, RawObject>, order: seq<ObjectId>, bytes: nat) {
    && (forall id :: id in order <==> id in window)
    && (forall j, k :: 0 <= j < k < |order| ==> order[j] != order[k])
    && bytes >= Weight(order, window)
  }

  lemma {:induction false} WeightOfOther(order: seq<ObjectId>, window: map<ObjectId, RawObject>, id: ObjectId,
                                         o: RawObject)
    ensures id !in order ==> Weight(order, window[id := o]) == Weight(order, window)
    ensures id !in order ==> Weight(order, window - {id}) == Weight(order, window)
  {
    if order != [] { WeightOfOther(order[..|order| - 1], window, id, o); }
  }

  /** An object put in again is counted again: the count is only a bound. */
  lemma {:induction false} WeightOfAgain(order: seq<ObjectId>, window: map<ObjectId, RawObject>, id: ObjectId,
                                         o: RawObject)
    requires forall j, k :: 0 <= j < k < |order| ==> order[j] != order[k]
    ensures Weight(order, window[id := o]) <= Weight(order, window) + |o.body|
  {
    if order != [] {
      var n := |order| - 1;
      if order[n] == id {
        WeightOfOther(order[..n], window, id, o);
      } else {
        WeightOfAgain(order[..n], window, id, o);
      }
    }
  }

  lemma {:induction false} WeightOfFirst(order: seq<ObjectId>, window: map<ObjectId, RawObject>)
    requires order != [] && order[0] in window
    ensures Weight(order, window) == |window[order[0]].body| + Weight(order[1..], window)
  {
    var n := |order| - 1;
    if n > 0 {
      WeightOfFirst(order[..n], window);
      assert order[..n][1..] == order[1..][..n - 1];
    } else {
      assert order[..0] == [];
    }
  }

  lemma Remembered(window: map<ObjectId, RawObject>, order: seq<ObjectId>, bytes: nat, id: ObjectId, o: RawObject)
    requires Tidy(window, order, bytes)
    ensures Tidy(window[id := o], if id in window then order else order + [id], bytes + |o.body|)
  {
    if id in window {
      WeightOfAgain(order, window, id, o);
    } else {
      WeightOfOther(order, window, id, o);
      assert (order + [id])[..|order|] == order;
    }
  }

  lemma Evicted(window: map<ObjectId, RawObject>, order: seq<ObjectId>, bytes: nat)
    requires Tidy(window, order, bytes) && order != []
    ensures order[0] in window && bytes >= |window[order[0]].body|
    ensures Tidy(window - {order[0]}, order[1..], bytes - |window[order[0]].body|)
  {
    var first := order[0];
    assert first in order;
    WeightOfFirst(order, window);
    WeightOfOther(order[1..], window, first, window[first]);
    forall id ensures id in order[1..] <==> id in window - {first} {
      assert id in order[1..] <==> id in order && id != first by {
        assert order == [first] + order[1..];
      }
    }
  }

  // ---- The reader ---------------------------------------------------------

  function PutsOf(c: Codec, objects: seq<RawObject>): seq<Put> {
    seq(|objects|, k requires 0 <= k < |objects| => (c.id(objects[k]), objects[k]))
  }

  /** Offsets seen are those of the objects read, with their names. */
  ghost predicate SeenIs(c: Codec, seen: map<nat, ObjectId>, p: Prefix) {
    && |p.at| == |p.objects|
    && (forall k :: 0 <= k < |p.at| ==> p.at[k] in seen && seen[p.at[k]] == c.id(p.objects[k]))
    && (forall x :: x in seen ==> x in p.at)
  }

  lemma SeenNext(c: Codec, seen: map<nat, ObjectId>, p: Prefix, o: RawObject, next: nat)
    requires SeenIs(c, seen, p) && Ascend(p.at, p.next)
    ensures SeenIs(c, seen[p.next := c.id(o)], Prefix(p.objects + [o], p.at + [p.next], next))
  {
  }

  /** A snapshot of the reader. */
  datatype State = State(seen: map<nat, ObjectId>, window: map<ObjectId, RawObject>, order: seq<ObjectId>, bytes: nat,
                         store: Store, puts: seq<Put>)

  /** The reader has read just the objects of `p`, with `store0` to begin with; the
      window holds nothing that the store does not hold alike. */
  ghost predicate Has(c: Codec, s: State, p: Prefix, store0: Store) {
    && s.store == PutAll(c, store0, p.objects)
    && s.puts == PutsOf(c, p.objects)
    && SeenIs(c, s.seen, p) && Ascend(p.at, p.next)
    && Tidy(s.window, s.order, s.bytes)
    && (forall id :: id in s.window ==> id in s.store && s.store[id] == s.window[id])
  }

  /** A name stands for the same object in the window, in the store and in the pack. */
  lemma NamedInStore(c: Codec, s: State, p: Prefix, store0: Store, id: ObjectId)
    requires Has(c, s, p, store0)
    ensures Named(c, p.objects, store0, id) == if id in s.store then Some(s.store[id]) else None
    ensures id in s.window ==> Named(c, p.objects, store0, id) == Some(s.window[id])
  {
    PutIsNamed(c, p.objects, store0, id);
  }

  /** Looking an offset up by way of its name finds the object at that offset. */
  lemma OffsetNames(c: Codec, s: State, p: Prefix, store0: Store, distance: nat)
    requires Has(c, s, p, store0) && NoTwins(c, p.objects)
    ensures var base := BaseOf(c, p, store0, OffsetDelta(distance));
            if distance <= p.next && p.next - distance in s.seen
            then base.Some? && base == Named(c, p.objects, store0, s.seen[p.next - distance])
            else base.None?
  {
    if distance <= p.next {
      var k := IndexOf(p.at, p.next - distance);
      if k.Some? { NamedIs(c, p.objects, store0, k.value); }
    }
  }

  lemma PutOne(c: Codec, objects: seq<RawObject>, o: RawObject, store: Store)
    ensures PutAll(c, store, objects + [o]) == PutAll(c, store, objects)[c.id(o) := o]
    ensures PutsOf(c, objects + [o]) == PutsOf(c, objects) + [(c.id(o), o)]
  {
    assert (objects + [o])[..|objects|] == objects;
  }

  /** The state after one object more. */
  lemma ReadOne(c: Codec, s: State, p: Prefix, store0: Store, o: RawObject, next: nat, s': State)
    requires Has(c, s, p, store0) && p.next < next
    requires s'.seen == s.seen[p.next := c.id(o)] && s'.store == s.store[c.id(o) := o]
             && s'.puts == s.puts + [(c.id(o), o)]
    requires Tidy(s'.window, s'.order, s'.bytes)
    requires forall id :: id in s'.window ==>
               id in s.window[c.id(o) := o] && s'.window[id] == s.window[c.id(o) := o][id]
    ensures Has(c, s', Prefix(p.objects + [o], p.at + [p.next], next), store0)
  {
    SeenNext(c, s.seen, p, o, next);
    AscendNext(p.at, p.next, next);
    PutOne(c, p.objects, o, store0);
  }

  class PackReader {
    const c: Codec
    const canFail: bool
    ghost const items: ItemReader
    var seen: map<nat, ObjectId>
    var window: map<ObjectId, RawObject>
    var order: seq<ObjectId>
    var windowBytes: nat
    /** The store's objects, and everything put into it, in order. */
    var store: Store
    var puts: seq<Put>

    ghost function Now(): State
      reads this
    {
      State(seen, window, order, windowBytes, store, puts)
    }

    constructor (c: Codec, canFail: bool, store: Store, ghost items: ItemReader)
      ensures this.c == c && this.canFail == canFail && this.items == items
      ensures Now() == State(map[], map[], [], 0, store, [])
    {
      this.c, this.canFail, this.items := c, canFail, items;
      seen, window, order, windowBytes := map[], map[], [], 0;
      this.store, puts := store, [];
    }

    /** The object goes into the window; others leave it, first in first out, until it is
        within budget or alone. */
    method Remember(id: ObjectId, o: RawObject)
      requires Tidy(window, order, windowBytes)
      modifies this`window, this`order, this`windowBytes
      ensures Tidy(window, order, windowBytes) && (windowBytes <= WINDOW_MEMORY_BYTES || |order| <= 1)
      ensures forall k :: k in window ==> k in old(window)[id := o] && window[k] == old(window)[id := o][k]
    {
      Remembered(window, order, windowBytes, id, o);
      windowBytes := windowBytes + |o.body|;
      if id !in window {
        order := order + [id];
      }
      window := window[id := o];
      while windowBytes > WINDOW_MEMORY_BYTES && |order| > 1
        invariant Tidy(window, order, windowBytes)
        invariant forall k :: k in window ==> k in old(window)[id := o] && window[k] == old(window)[id := o][k]
        decreases |order|
      {
        Evicted(window, order, windowBytes);
        var oldest := order[0];
        order := order[1..];
        windowBytes := windowBytes - |window[oldest].body|;
        window := window - {oldest};
      }
    }

    /** Rebuild a delta against its base, from the window or else from the store. */
    method Rebuild(base: ObjectId, delta: seq<Byte>, ghost p: Prefix, ghost store0: Store)
      returns (r: Outcome<RawObject>)
      requires Has(c, Now(), p, store0)
      ensures r.Ok? ==> Some(r.value) == ApplyTo(c, Named(c, p.objects, store0, base), delta)
      ensures r.Refused? ==> ApplyTo(c, Named(c, p.objects, store0, base), delta).None?
      ensures r.Unavailable? ==> canFail
    {
      NamedInStore(c, Now(), p, store0, base);
      var found;
      if base in window {
        found := window[base];
      } else {
        var fails := *;
        if canFail && fails {
          return Unavailable;
        }
        if base !in store {
          return Refused;
        }
        found := store[base];
      }
      var body := c.apply(delta, found.body);
      r := if body.None? then Refused else Ok(RawObject(found.objectType, body.value));
    }

    /** The stored bytes as an object: as they are, or rebuilt. */
    method Resolve(item: Item, pos: nat, ghost p: Prefix, ghost store0: Store) returns (r: Outcome<RawObject>)
      requires Has(c, Now(), p, store0) && NoTwins(c, p.objects) && p.next == pos
      ensures r.Ok? ==> Some(r.value) == Rebuilt(c, p, store0, item)
      ensures r.Refused? ==> Rebuilt(c, p, store0, item).None?
      ensures r.Unavailable? ==> canFail
    {
      match item.kind
      case Whole(t) =>
        r := Ok(RawObject(t, item.stored));
      case OffsetDelta(distance) =>
        OffsetNames(c, Now(), p, store0, distance);
        if distance > pos || pos - distance !in seen {
          return Refused;
        }
        r := Rebuild(seen[pos - distance], item.stored, p, store0);
      case RefDelta(base) =>
        r := Rebuild(base, item.stored, p, store0);
    }

    /** The pack's next object, if its meaning has one: it reaches the store under its
        own name, and reading goes on at the offset given. */
    method ReadObject(pack: seq<Byte>, pos: nat, ghost p: Prefix, ghost store0: Store) returns (r: Outcome<nat>)
      requires Has(c, Now(), p, store0) && NoTwins(c, p.objects) && p.next == pos && Honest(c)
               && ItemsOf(c, pack, items)
      modifies this
      ensures r.Ok? ==>
                && Extend(c, items, store0, p).Some?
                && var p' := Extend(c, items, store0, p).value;
                   Has(c, Now(), p', store0) && r.value == p'.next
      ensures !r.Ok? ==> puts == old(puts)
      ensures r.Refused? ==> Extend(c, items, store0, p).None?
      ensures r.Unavailable? ==> canFail
    {
      var item := ReadItem(pack, pos);
      if item.None? {
        return Refused;
      }
      var resolved := Resolve(item.value, pos, p, store0);
      if !resolved.Ok? {
        return if resolved.Refused? then Refused else Unavailable;
      }
      ItemWithin(c, pack, pos);
      var stored := StoreObject(resolved.value, pos, p, store0, item.value.next);
      r := if stored then Ok(item.value.next) else Unavailable;
    }

    /** Put an object in the store under the name of its own bytes, and keep it as a
        likely base. */
    method StoreObject(o: RawObject, pos: nat, ghost p: Prefix, ghost store0: Store, ghost next: nat) returns (ok: bool)
      requires Has(c, Now(), p, store0) && p.next == pos < next
      modifies this
      ensures ok ==> Has(c, Now(), Prefix(p.objects + [o], p.at + [p.next], next), store0)
      ensures !ok ==> canFail && puts == old(puts)
    {
      var id := c.id(o);
      ghost var before := Now();
      seen := seen[pos := id];
      Remember(id, o);
      var fails := *;
      if canFail && fails {
        return false;
      }
      store, puts := store[id := o], puts + [(id, o)];
      ReadOne(c, before, p, store0, o, next, Now());
      ok := true;
    }

    /** The first `n` objects have been read, and `pos` is where the next one is. */
    ghost predicate Reads(store0: Store, n: nat, pos: nat)
      reads this
    {
      var p := Meaning(c, items, store0, n);
      p.Some? && Has(c, Now(), p.value, store0) && pos == p.value.next
    }

    lemma HasRead(store0: Store, n: nat, pos: nat)
      requires Reads(store0, n, pos)
      ensures Carries(c, items, store0, n, puts, pos)
    {
    }

    /** Read `total` objects, or as many as can be. */
    method ReadAll(pack: seq<Byte>, total: nat, ghost store0: Store)
      returns (r: Outcome<nat>, ghost n: nat, ghost pos: nat)
      requires Honest(c) && Reads(store0, 0, PACK_HEADER_LEN) && Collisionless(c, items, store0, total)
               && ItemsOf(c, pack, items)
      modifies this
      ensures n <= total && Carries(c, items, store0, n, puts, pos)
      ensures r.Ok? ==> n == total && r.value == pos
      ensures r.Refused? ==> Meaning(c, items, store0, total).None?
      ensures r.Unavailable? ==> canFail
    {
      pos := PACK_HEADER_LEN;
      var at := PACK_HEADER_LEN;
      for done := 0 to total
        invariant Reads(store0, done, at)
      {
        n, pos := done, at;
        r := ReadNext(pack, at, done, total, store0);
        if !r.Ok? {
          if r.Refused? { NoMeaning(c, items, store0, n + 1, total); }
          return;
        }
        at := r.value;
      }
      HasRead(store0, total, at);
      r, n, pos := Ok(at), total, at;
    }

    method ReadNext(pack: seq<Byte>, pos: nat, ghost n: nat, ghost total: nat, ghost store0: Store)
      returns (r: Outcome<nat>)
      requires Honest(c) && Reads(store0, n, pos) && n < total && Collisionless(c, items, store0, total)
               && ItemsOf(c, pack, items)
      modifies this
      ensures r.Ok? ==> Reads(store0, n + 1, r.value)
      ensures !r.Ok? ==> Carries(c, items, store0, n, puts, pos)
      ensures r.Refused? ==> Meaning(c, items, store0, n + 1).None?
      ensures r.Unavailable? ==> canFail
    {
      HasRead(store0, n, pos);
      MeaningNext(c, items, store0, n);
      r := ReadObject(pack, pos, Meaning(c, items, store0, n).value, store0);
    }

    /** The header and the inflated bytes of the object at `pos`. */
    method ReadItem(pack: seq<Byte>, pos: nat) returns (r: Option<Item>)
      ensures r == ItemAt(c, pack, pos)
    {
      if pos + PACK_TRAILER_LEN > |pack| {
        return None;
      }
      var rest := pack[pos..|pack| - PACK_TRAILER_LEN];
      var h := ParseObjectHeader(rest);
      if h.None? || h.value.size > MAX_BUNDLE_BYTES {
        return None;
      }
      var inflated := c.inflate(rest[h.value.len..], h.value.size);
      if inflated.None? {
        return None;
      }
      r := Some(Item(h.value.kind, inflated.value.0, pos + h.value.len + inflated.value.1));
    }
  }

  /** How many objects an undamaged pack of the right version says it holds. */
  method VerifyPack(c: Codec, pack: seq<Byte>) returns (r: Option<nat>)
    ensures r.Some? <==> Verified(c, pack)
    ensures r.Some? ==> r.value == CountOf(pack)
  {
    if |pack| < PACK_HEADER_LEN + PACK_TRAILER_LEN {
      return None;
    }
    if !IsText(pack[..4], "PACK") {
      return None;
    }
    if FromBE32(pack[4..8]) != PACK_VERSION {
      return None;
    }
    var body, trailer := pack[..|pack| - PACK_TRAILER_LEN], pack[|pack| - PACK_TRAILER_LEN..];
    if c.sha1(body) != trailer {
      return None;
    }
    r := Some(FromBE32(pack[8..12]));
  }

  /** No two different objects share a name among the first `count`, as far as they have a
      meaning. */
  ghost predicate Collisionless(c: Codec, items: ItemReader, store: Store, count: nat) {
    forall n: nat :: n <= count && Meaning(c, items, store, n).Some? ==>
      NoTwins(c, Meaning(c, items, store, n).value.objects)
  }

  lemma StartHas(c: Codec, store: Store)
    ensures Has(c, State(map[], map[], [], 0, store, []), Prefix([], [], PACK_HEADER_LEN), store)
  {
  }

  lemma MeaningNext(c: Codec, items: ItemReader, store: Store, n: nat)
    requires Meaning(c, items, store, n).Some?
    ensures Meaning(c, items, store, n + 1) == Extend(c, items, store, Meaning(c, items, store, n).value)
  {
  }

  /** What was put in the store is the first `n` objects of the pack, and the next
      would be at `pos`. */
  ghost predicate Carries(c: Codec, items: ItemReader, store: Store, n: nat, puts: seq<Put>, pos: nat) {
    var p := Meaning(c, items, store, n);
    p.Some? && puts == PutsOf(c, p.value.objects) && pos == p.value.next
  }

  /** Read every object of a pack that has been verified. */
  method ReadPack(c: Codec, canFail: bool, pack: seq<Byte>, total: nat, store: Store, ghost items: ItemReader)
    returns (r: Outcome<nat>, puts: seq<Put>, ghost n: nat, ghost pos: nat)
    requires Honest(c) && Collisionless(c, items, store, total) && ItemsOf(c, pack, items)
    ensures n <= total && Carries(c, items, store, n, puts, pos)
    ensures r.Ok? ==> n == total && r.value == pos
    ensures r.Refused? ==> Meaning(c, items, store, total).None?
    ensures r.Unavailable? ==> canFail
  {
    var reader := new PackReader(c, canFail, store, items);
    StartHas(c, store);
    r, n, pos := reader.ReadAll(pack, total, store);
    puts := reader.puts;
  }

  lemma NoMeaning(c: Codec, items: ItemReader, store: Store, m: nat, n: nat)
    requires m <= n && Meaning(c, items, store, m).None?
    ensures Meaning(c, items, store, n).None?
  {
    if Meaning(c, items, store, n).Some? { MeaningExtends(c, items, store, m, n); }
  }

  /** What a bundle that can be read carries. */
  ghost predicate ReadableBundle(c: Codec, bundle: seq<Byte>, store: Store) {
    var h := BundleHeaderOf(c, bundle);
    h.Some? && h.value.packOffset <= |bundle| && Readable(c, bundle[h.value.packOffset..], store)
  }

  /** What has been put in the store is the first of what the bundle's pack means. */
  ghost predicate PutInOrder(c: Codec, bundle: seq<Byte>, store: Store, n: nat, puts: seq<Put>, pos: nat) {
    var h := BundleHeaderOf(c, bundle);
    && h.Some?
    && var pack := bundle[h.value.packOffset..];
       Verified(c, pack) && n <= CountOf(pack) && Carries(c, Items(c, pack), store, n, puts, pos)
  }

  /** Header, pack and checksum, object after object. What has been put in the store is
      always the first objects of the pack's meaning, in order, each under its own name;
      if the store does not fail it is all of them exactly when the bundle can be read,
      and the read succeeds just then. */
  method ReadBundle(c: Codec, canFail: bool, bundle: seq<Byte>, store: Store)
    returns (r: Outcome<Summary>, puts: seq<Put>, ghost n: nat, ghost pos: nat)
    requires Honest(c)
    requires var h := BundleHeaderOf(c, bundle);
             h.Some? ==>
               var pack := bundle[h.value.packOffset..];
               Verified(c, pack) ==> Collisionless(c, Items(c, pack), store, CountOf(pack))
    ensures r.Ok? ==> ReadableBundle(c, bundle, store)
    ensures r.Ok? ==>
              var h := BundleHeaderOf(c, bundle).value;
              && r.value == Summary(h, n) && n == CountOf(bundle[h.packOffset..])
              && pos + PACK_TRAILER_LEN == |bundle| - h.packOffset
    ensures r.Refused? ==> !ReadableBundle(c, bundle, store)
    ensures r.Unavailable? ==> canFail
    ensures r.Ok? || puts != [] ==> PutInOrder(c, bundle, store, n, puts, pos)
  {
    puts, n, pos := [], 0, 0;
    var header := ReadHeader(c, bundle);
    if header.None? {
      return Refused, [], 0, 0;
    }
    var pack := bundle[header.value.packOffset..];
    var total := VerifyPack(c, pack);
    if total.None? {
      return Refused, [], 0, 0;
    }
    var read;
    read, puts, n, pos := ReadPack(c, canFail, pack, total.value, store, Items(c, pack));
    if !read.Ok? {
      return if read.Refused? then Refused else Unavailable, puts, n, pos;
    }
    if read.value != |pack| - PACK_TRAILER_LEN {
      return Refused, puts, n, pos;
    }
    r := Ok(Summary(header.value, total.value));
  }
}
