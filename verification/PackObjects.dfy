/** What each object of a pack is, said of the pack's items: where it is, what it is stored
as, and for a delta which object is its base. */
module PackObjects {
  import opened Bytes
  import opened PackFormat
  import opened Pack

  /** `o` is what a delta makes of its base, of the base's type. */
  predicate DeltaOf(c: Codec, base: RawObject, delta: seq<Byte>, o: RawObject) {
    o.objectType == base.objectType && c.apply(delta, base.body) == Some(o.body)
  }

  /** The last before the `k`-th of that name, or with none the store's own. */
  ghost predicate Names(c: Codec, objects: seq<RawObject>, store: Store, k: nat, id: ObjectId, base: RawObject)
    requires k <= |objects|
  {
    || (exists j: nat :: j < k && objects[j] == base && c.id(base) == id && Unnamed(c, objects, j + 1, k, id))
    || (id in store && store[id] == base && Unnamed(c, objects, 0, k, id))
  }

  ghost predicate Unnamed(c: Codec, objects: seq<RawObject>, i: nat, k: nat, id: ObjectId)
    requires k <= |objects|
  {
    forall j :: i <= j < k ==> c.id(objects[j]) != id
  }

  /** The `k`-th object is what its item says: whole, or made from the object that starts so
      far before it, or from the one of that name. The next object is where it ends. */
  ghost predicate Spelled(c: Codec, items: ItemReader, store: Store, p: Prefix, k: nat)
    requires k < |p.objects| == |p.at|
  {
    && items(p.at[k]).Some?
    && var item := items(p.at[k]).value;
       && item.next == (if k + 1 < |p.at| then p.at[k + 1] else p.next)
       && match item.kind
          case Whole(t) => p.objects[k] == RawObject(t, item.stored)
          case OffsetDelta(distance) =>
            exists j: nat :: j < k && p.at[j] + distance == p.at[k] &&
              DeltaOf(c, p.objects[j], item.stored, p.objects[k])
          case RefDelta(id) =>
            exists base :: Names(c, p.objects, store, k, id, base) && DeltaOf(c, base, item.stored, p.objects[k])
  }

  lemma {:induction false} NamedNames(c: Codec, objects: seq<RawObject>, store: Store, id: ObjectId)
    requires Named(c, objects, store, id).Some?
    ensures Names(c, objects, store, |objects|, id, Named(c, objects, store, id).value)
  {
    if objects != [] {
      var n := |objects| - 1;
      if c.id(objects[n]) != id {
        NamedNames(c, objects[..n], store, id);
        NamesLater(c, objects, store, id, Named(c, objects[..n], store, id).value);
      }
    }
  }

  lemma NamesLater(c: Codec, objects: seq<RawObject>, store: Store, id: ObjectId, base: RawObject)
    requires objects != [] && c.id(objects[|objects| - 1]) != id
    requires Names(c, objects[..|objects| - 1], store, |objects| - 1, id, base)
    ensures Names(c, objects, store, |objects|, id, base)
  {
    var n := |objects| - 1;
    if j: nat :| j < n && objects[..n][j] == base && c.id(base) == id && Unnamed(c, objects[..n], j + 1, n, id) {
      assert objects[j] == base && Unnamed(c, objects, j + 1, |objects|, id);
    } else {
      assert Unnamed(c, objects, 0, |objects|, id);
    }
  }

  lemma NamesGrow(c: Codec, objects: seq<RawObject>, more: seq<RawObject>, store: Store, k: nat, id: ObjectId,
                  base: RawObject)
    requires k <= |objects| && objects <= more && Names(c, objects, store, k, id, base)
    ensures Names(c, more, store, k, id, base)
  {
    if j: nat :| j < k && objects[j] == base && c.id(base) == id && Unnamed(c, objects, j + 1, k, id) {
      assert more[j] == base && Unnamed(c, more, j + 1, k, id);
    } else {
      assert Unnamed(c, more, 0, k, id);
    }
  }

  lemma SpelledStays(c: Codec, items: ItemReader, store: Store, p: Prefix, q: Prefix, k: nat)
    requires |p.at| == |p.objects| && |q.at| == |q.objects| == |p.at| + 1
    requires p.objects <= q.objects && p.at <= q.at && q.at[|p.at|] == p.next
    requires k < |p.objects| && Spelled(c, items, store, p, k)
    ensures Spelled(c, items, store, q, k)
  {
    var item := items(p.at[k]).value;
    match item.kind
    case Whole(_) =>
    case OffsetDelta(distance) =>
      var j: nat :| j < k && p.at[j] + distance == p.at[k] && DeltaOf(c, p.objects[j], item.stored, p.objects[k]);
      assert q.at[j] + distance == q.at[k] && DeltaOf(c, q.objects[j], item.stored, q.objects[k]);
    case RefDelta(id) =>
      var base :| Names(c, p.objects, store, k, id, base) && DeltaOf(c, base, item.stored, p.objects[k]);
      NamesGrow(c, p.objects, q.objects, store, k, id, base);
  }

  lemma SpelledLast(c: Codec, items: ItemReader, store: Store, p: Prefix)
    requires |p.at| == |p.objects| && Extend(c, items, store, p).Some?
    ensures Spelled(c, items, store, Extend(c, items, store, p).value, |p.at|)
  {
    var q := Extend(c, items, store, p).value;
    var item := items(p.next).value;
    match item.kind
    case Whole(_) =>
    case OffsetDelta(distance) =>
      var j := IndexOf(p.at, p.next - distance).value;
      assert q.at[j] + distance == q.at[|p.at|] && DeltaOf(c, q.objects[j], item.stored, q.objects[|p.at|]);
    case RefDelta(id) =>
      NamedNames(c, p.objects, store, id);
      var base := Named(c, p.objects, store, id).value;
      NamesGrow(c, p.objects, q.objects, store, |p.at|, id, base);
      assert DeltaOf(c, base, item.stored, q.objects[|p.at|]);
  }

  /** Every object of a pack is what its own item says, and the first is just after the
      pack's header. */
  lemma {:induction false} ObjectsSpelled(c: Codec, items: ItemReader, store: Store, n: nat, k: nat)
    requires Meaning(c, items, store, n).Some? && k < n
    ensures Spelled(c, items, store, Meaning(c, items, store, n).value, k)
    ensures Meaning(c, items, store, n).value.at[0] == 12
    decreases n
  {
    var before := Meaning(c, items, store, n - 1).value;
    if n > 1 { ObjectsSpelled(c, items, store, n - 1, if k < n - 1 then k else 0); }
    if k < n - 1 {
      SpelledStays(c, items, store, before, Meaning(c, items, store, n).value, k);
    } else {
      SpelledLast(c, items, store, before);
    }
  }
}
