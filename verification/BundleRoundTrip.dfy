/** What is written is read back: the same refs and the same objects in order,
whatever was taken when. */
module BundleRoundTrip {
  import opened Bytes
  import opened PackFormat
  import opened Pack
  import opened BundleHeader
  import opened Deltas
  import opened BundleWriter
  import Reader = BundleReader

  /** What a record is read as. */
  function ItemOf(t: ObjectType, stored: seq<Byte>, distance: Option<nat>, next: nat): Item {
    Item(if distance.None? then Whole(t) else OffsetDelta(distance.value), stored, next)
  }

  lemma RecordHeaderRead(t: ObjectType, size: nat, distance: Option<nat>, tail: seq<Byte>)
    requires size < WORD && (distance.Some? ==> distance.value < WORD)
    ensures var bytes := RecordHeader(t, size, distance);
            HeaderOf(bytes + tail) ==
            Some(Header(if distance.None? then Whole(t) else OffsetDelta(distance.value), size, |bytes|))
  {
    if distance.None? { BaseHeaderRead(t, size, tail); } else { DeltaHeaderRead(size, distance.value, tail); }
  }

  /** A record is read back, wherever it is in a pack. */
  lemma RecordRead(c: Codec, before: seq<Byte>, t: ObjectType, stored: seq<Byte>, distance: Option<nat>,
                   after: seq<Byte>, sum: seq<Byte>)
    requires Honest(c) && |stored| <= MAX_BUNDLE_BYTES && (distance.Some? ==> distance.value < WORD)
    requires |sum| == PACK_TRAILER_LEN
    ensures var record := Record(c, t, stored, distance);
            ItemAt(c, before + record + after + sum, |before|) == Some(ItemOf(t, stored, distance, |before| + |record|))
  {
    var header, body := RecordHeader(t, |stored|, distance), c.deflate(stored);
    RecordHeaderRead(t, |stored|, distance, body + after);
    PackParts(before, header, body, after, sum);
    ItemFrom(c, before + (header + body) + after + sum, |before|, header + (body + after),
             Header(if distance.None? then Whole(t) else OffsetDelta(distance.value), |stored|,
                    |header|), stored, |body|);
  }

  lemma ItemFrom(c: Codec, pack: seq<Byte>, pos: nat, rest: seq<Byte>, h: Header, stored: seq<Byte>, taken: nat)
    requires pos + PACK_TRAILER_LEN <= |pack| && rest == pack[pos..|pack| - PACK_TRAILER_LEN]
    requires HeaderOf(rest) == Some(h) && h.size <= MAX_BUNDLE_BYTES && h.len <= |rest|
    requires c.inflate(rest[h.len..], h.size) == Some((stored, taken))
    ensures ItemAt(c, pack, pos) == Some(Item(h.kind, stored, pos + h.len + taken))
  {
  }

  lemma RecordItem(c: Codec, items: ItemReader, before: seq<Byte>, record: seq<Byte>, after: seq<Byte>, sum: seq<Byte>,
                   t: ObjectType, stored: seq<Byte>, distance: Option<nat>)
    requires Honest(c) && |stored| <= MAX_BUNDLE_BYTES && (distance.Some? ==> distance.value < WORD)
    requires record == Record(c, t, stored, distance)
    requires |sum| == PACK_TRAILER_LEN && ItemsOf(c, before + record + after + sum, items)
    ensures items(|before|) == Some(ItemOf(t, stored, distance, |before| + |record|))
  {
    RecordRead(c, before, t, stored, distance, after, sum);
  }

  lemma PackParts(before: seq<Byte>, header: seq<Byte>, body: seq<Byte>, after: seq<Byte>, sum: seq<Byte>)
    ensures var pack := before + (header + body) + after + sum;
            var rest := pack[|before|..|pack| - |sum|];
            rest == header + (body + after) && rest[|header|..] == body + after
  {
  }

  function Contents(log: seq<Placed>): seq<RawObject> {
    seq(|log|, k requires 0 <= k < |log| => log[k].content)
  }

  function Offsets(log: seq<Placed>): seq<nat> {
    seq(|log|, k requires 0 <= k < |log| => log[k].at)
  }

  /** Everything stored is of a size a reader accepts. The writer limits only what it
      deflates to. */
  predicate Acceptable(log: seq<Placed>) {
    forall k :: 0 <= k < |log| ==> |log[k].stored| <= MAX_BUNDLE_BYTES
  }

  /** Sizes are machine words. */
  predicate Sized(log: seq<Placed>) {
    forall k :: 0 <= k < |log| ==> |log[k].stored| < WORD
  }

  /** Bodies no larger than a bundle are enough for that. */
  lemma SmallBodies(c: Codec, head: seq<Byte>, log: seq<Placed>, limit: nat)
    requires WellWritten(c, head, log) && forall k :: 0 <= k < |log| ==> |log[k].content.body| <= limit
    ensures forall k :: 0 <= k < |log| ==> |log[k].stored| <= limit
  {
    forall k | 0 <= k < |log| ensures |log[k].stored| <= limit {
      assert Stands(c, head, log, k);
      if log[k].base.Some? { ThriftyIsSmall(|log[k].stored|, |log[k].content.body|, log[log[k].base.value].depth); }
    }
  }

  lemma OffsetsApart(c: Codec, head: seq<Byte>, log: seq<Placed>, i: nat, j: nat)
    requires WellWritten(c, head, log) && i < j < |log|
    ensures log[i].at < log[j].at
  {
    PrefixWritten(c, head, log, j);
    EarlierAt(c, head, log[..j], i);
    assert Stands(c, head, log, j);
  }

  lemma PrefixWritten(c: Codec, head: seq<Byte>, log: seq<Placed>, n: nat)
    requires WellWritten(c, head, log) && n <= |log|
    ensures WellWritten(c, head, log[..n])
  {
    forall k | 0 <= k < n ensures Stands(c, head, log[..n], k) {
      assert Stands(c, head, log, k);
      assert log[..n][..k] == log[..k];
    }
  }

  lemma IndexOfOffset(c: Codec, head: seq<Byte>, log: seq<Placed>, j: nat)
    requires WellWritten(c, head, log) && j < |log|
    ensures IndexOf(Offsets(log), log[j].at) == Some(j)
  {
    var k := IndexOf(Offsets(log), log[j].at);
    assert Offsets(log)[j] == log[j].at;
    if k.value < j { OffsetsApart(c, head, log, k.value, j); }
    if j < k.value { OffsetsApart(c, head, log, j, k.value); }
  }

  /** What was read so far, of a pack written as `log`. */
  function PrefixOf(head: seq<Byte>, log: seq<Placed>): Prefix {
    Prefix(Contents(log), Offsets(log), |PackText(head, log)|)
  }

  function DistanceOf(log: seq<Placed>, p: Placed): Option<nat> {
    if p.base.Some? && p.base.value < |log| then Some(Less(p.at, log[p.base.value].at)) else None
  }

  /** An object as stored rebuilds to what was written. */
  lemma PlacedRebuilds(c: Codec, head: seq<Byte>, log: seq<Placed>, p: Placed, store: Store, next: nat)
    requires WellWritten(c, head, log) && p.at == |PackText(head, log)| && Follows(c, log, p)
    ensures Rebuilt(c, PrefixOf(head, log), store, ItemOf(p.content.objectType, p.stored, DistanceOf(log, p), next)) ==
              Some(p.content)
  {
    if p.base.Some? {
      var j := p.base.value;
      IndexOfOffset(c, head, log, j);
      assert Contents(log)[j] == log[j].content;
    }
  }

  /** The bytes of an object are its record. */
  lemma BytesAreRecord(c: Codec, log: seq<Placed>, p: Placed)
    requires Follows(c, log, p) && p.at < WORD
    ensures p.bytes == Record(c, p.content.objectType, p.stored, DistanceOf(log, p))
    ensures DistanceOf(log, p).Some? ==> DistanceOf(log, p).value < WORD
  {
  }

  /** The pack around the `n`-th object. */
  lemma TextAround(head: seq<Byte>, log: seq<Placed>, n: nat) returns (after: seq<Byte>)
    requires n < |log|
    ensures PackText(head, log) == PackText(head, log[..n]) + log[n].bytes + after
    ensures PackText(head, log[..n + 1]) == PackText(head, log[..n]) + log[n].bytes
  {
    TextGrows(head, log, n + 1);
    assert log[..n + 1][..n] == log[..n];
    var before := PackText(head, log[..n + 1]);
    after := PackText(head, log)[|before|..];
  }

  /** The record of the next object is read as it was written. */
  lemma PlacedRead(c: Codec, head: seq<Byte>, log: seq<Placed>, n: nat, sum: seq<Byte>, items: ItemReader)
    requires Honest(c) && WellWritten(c, head, log) && n < |log| && |log[n].stored| <= MAX_BUNDLE_BYTES
    requires |PackText(head, log)| < WORD && |sum| == PACK_TRAILER_LEN && ItemsOf(c, PackText(head, log) + sum, items)
    ensures var p := log[n];
            items(|PackText(head, log[..n])|) ==
            Some(ItemOf(p.content.objectType, p.stored, DistanceOf(log[..n], p), |PackText(head, log[..n + 1])|))
  {
    var p := log[n];
    assert Stands(c, head, log, n);
    var after := TextAround(head, log, n);
    BytesAreRecord(c, log[..n], p);
    RecordItem(c, items, PackText(head, log[..n]), p.bytes, after, sum, p.content.objectType, p.stored,
               DistanceOf(log[..n], p));
  }

  /** One stored over the limit is refused. */
  lemma LargeRefused(c: Codec, head: seq<Byte>, log: seq<Placed>, n: nat, sum: seq<Byte>, items: ItemReader)
    requires WellWritten(c, head, log) && n < |log| && MAX_BUNDLE_BYTES < |log[n].stored| < WORD
    requires |PackText(head, log)| < WORD && |sum| == PACK_TRAILER_LEN && ItemsOf(c, PackText(head, log) + sum, items)
    ensures items(|PackText(head, log[..n])|).None?
  {
    var p := log[n];
    assert Stands(c, head, log, n);
    var after := TextAround(head, log, n);
    BytesAreRecord(c, log[..n], p);
    LargeItem(c, PackText(head, log[..n]), p.content.objectType, p.stored, DistanceOf(log[..n], p), after, sum);
  }

  lemma LargeItem(c: Codec, before: seq<Byte>, t: ObjectType, stored: seq<Byte>, distance: Option<nat>,
                  after: seq<Byte>, sum: seq<Byte>)
    requires MAX_BUNDLE_BYTES < |stored| < WORD && (distance.Some? ==> distance.value < WORD)
    requires |sum| == PACK_TRAILER_LEN
    ensures ItemAt(c, before + Record(c, t, stored, distance) + after + sum, |before|).None?
  {
    var header, body := RecordHeader(t, |stored|, distance), c.deflate(stored);
    RecordHeaderRead(t, |stored|, distance, body + after);
    PackParts(before, header, body, after, sum);
  }

  lemma PrefixNext(head: seq<Byte>, log: seq<Placed>, n: nat)
    requires n < |log| && log[n].at == |PackText(head, log[..n])|
    ensures var p, p' := PrefixOf(head, log[..n]), PrefixOf(head, log[..n + 1]);
            p' == Prefix(p.objects + [log[n].content], p.at + [p.next], p'.next)
  {
    assert log[..n + 1] == log[..n] + [log[n]];
  }

  lemma Extends(c: Codec, items: ItemReader, store: Store, p: Prefix, item: Item, o: RawObject)
    requires |p.at| == |p.objects| && items(p.next) == Some(item) && Rebuilt(c, p, store, item) == Some(o)
    ensures Extend(c, items, store, p) == Some(Prefix(p.objects + [o], p.at + [p.next], item.next))
  {
  }

  /** Each part of a pack written means the objects written so far. */
  lemma {:induction false} WrittenMeans(c: Codec, head: seq<Byte>, log: seq<Placed>, sum: seq<Byte>, store: Store,
                                        n: nat,
                                        items: ItemReader)
    requires Honest(c) && WellWritten(c, head, log) && n <= |log| && Acceptable(log[..n])
    requires |PackText(head, log)| < WORD && |sum| == PACK_TRAILER_LEN && |head| == PACK_HEADER_LEN
    requires ItemsOf(c, PackText(head, log) + sum, items)
    ensures Meaning(c, items, store, n) == Some(PrefixOf(head, log[..n]))
  {
    if n == 0 {
      assert Contents(log[..0]) == [] && Offsets(log[..0]) == [];
    } else {
      WrittenMeans(c, head, log, sum, store, n - 1, items);
      MeansNext(c, head, log, sum, store, n - 1, items);
    }
  }

  lemma MeansNext(c: Codec, head: seq<Byte>, log: seq<Placed>, sum: seq<Byte>, store: Store, n: nat, items: ItemReader)
    requires Honest(c) && WellWritten(c, head, log) && n < |log| && |log[n].stored| <= MAX_BUNDLE_BYTES
    requires |PackText(head, log)| < WORD && |sum| == PACK_TRAILER_LEN
    requires ItemsOf(c, PackText(head, log) + sum, items)
    ensures Extend(c, items, store, PrefixOf(head, log[..n])) == Some(PrefixOf(head, log[..n + 1]))
  {
    var before, p := log[..n], log[n];
    var next := |PackText(head, log[..n + 1])|;
    PlacedRead(c, head, log, n, sum, items);
    PrefixWritten(c, head, log, n);
    assert Stands(c, head, log, n);
    PlacedRebuilds(c, head, before, p, store, next);
    Extends(c, items, store, PrefixOf(head, before),
            ItemOf(p.content.objectType, p.stored, DistanceOf(before, p), next), p.content);
    PrefixNext(head, log, n);
  }

  // ---- The whole bundle ---------------------------------------------------

  function BundleText(c: Codec, refs: seq<BundleRef>, log: seq<Placed>): seq<Byte>
    requires |log| < MAX_COUNT
  {
    var text := PackText(PackHead(|log|), log);
    HeaderBytes(refs) + (text + c.sha1(text))
  }

  /** A pack written is undamaged, and says how many objects it holds. */
  lemma WrittenVerifies(c: Codec, count: nat, text: seq<Byte>)
    requires count < MAX_COUNT && PackHead(count) <= text
    ensures var pack := text + c.sha1(text); Verified(c, pack) && CountOf(pack) == count
  {
    var pack := text + c.sha1(text);
    assert pack[..|pack| - PACK_TRAILER_LEN] == text;
    assert pack[..12] == PackHead(count);
    assert pack[4..8] == pack[..12][4..8] == ToBE32(PACK_VERSION);
    assert pack[8..12] == pack[..12][8..12] == ToBE32(count);
    BE32Read(PACK_VERSION);
    BE32Read(count);
  }

  /** A bundle written can be read exactly when what it stores is of acceptable sizes,
      and then what it carries is what was written: the refs, and every object in
      order. */
  lemma WrittenReads(c: Codec, refs: seq<BundleRef>, log: seq<Placed>, store: Store)
    requires Honest(c) && |log| < MAX_COUNT && WellWritten(c, PackHead(|log|), log) && Sized(log)
    requires |PackText(PackHead(|log|), log)| < WORD
    requires forall ref :: ref in refs ==> ValidName(ref.name) && c.utf8(ref.name)
    requires NoTwins(c, Contents(log))
    ensures var bundle := BundleText(c, refs, log);
            && BundleHeaderOf(c, bundle) == Some(BundleHeader(2, refs, [], |HeaderBytes(refs)|))
            && var pack := bundle[|HeaderBytes(refs)|..];
               && CountOf(pack) == |log|
               && (Readable(c, pack, store) <==> Acceptable(log))
               && (Acceptable(log) ==> Meaning(c, Items(c, pack), store, |log|).value.objects == Contents(log))
               && Reader.Collisionless(c, Items(c, pack), store, |log|)
  {
    var head := PackHead(|log|);
    var text := PackText(head, log);
    var pack := text + c.sha1(text);
    WrittenHeaderRead(c, refs, pack);
    assert BundleText(c, refs, log)[|HeaderBytes(refs)|..] == pack;
    TextGrows(head, log, 0);
    WrittenVerifies(c, |log|, text);
    PackMeans(c, head, log, c.sha1(text), store, Items(c, pack));
  }

  /** How many of the first objects are of acceptable sizes. */
  function AcceptableTo(log: seq<Placed>, n: nat): (m: nat)
    requires n <= |log|
    ensures m <= n && Acceptable(log[..m]) && (m < n ==> |log[m].stored| > MAX_BUNDLE_BYTES)
  {
    if n == 0 then 0
    else
      var m := AcceptableTo(log, n - 1);
      if m == n - 1 && |log[m].stored| <= MAX_BUNDLE_BYTES then n else m
  }

  lemma PackMeans(c: Codec, head: seq<Byte>, log: seq<Placed>, sum: seq<Byte>, store: Store, items: ItemReader)
    requires Honest(c) && WellWritten(c, head, log) && Sized(log) && NoTwins(c, Contents(log))
    requires |PackText(head, log)| < WORD && |sum| == PACK_TRAILER_LEN && |head| == PACK_HEADER_LEN
    requires ItemsOf(c, PackText(head, log) + sum, items)
    ensures Meaning(c, items, store, |log|) == if Acceptable(log) then Some(PrefixOf(head, log)) else None
    ensures Reader.Collisionless(c, items, store, |log|)
  {
    var m := AcceptableTo(log, |log|);
    assert log[..|log|] == log;
    WrittenMeans(c, head, log, sum, store, m, items);
    if m < |log| { LargeRefused(c, head, log, m, sum, items); }
    forall n: nat | n <= |log| && Meaning(c, items, store, n).Some?
      ensures NoTwins(c, Meaning(c, items, store, n).value.objects)
    {
      NoneBeyond(c, head, log, store, items, m, n);
      MeaningExtends(c, items, store, n, m);
      assert Contents(log[..m]) <= Contents(log);
    }
    if m < |log| && Meaning(c, items, store, |log|).Some? { NoneBeyond(c, head, log, store, items, m, |log|); }
  }

  /** Nothing is read past an object too large. */
  lemma NoneBeyond(c: Codec, head: seq<Byte>, log: seq<Placed>, store: Store, items: ItemReader, m: nat, n: nat)
    requires m <= |log| && n <= |log|
    requires Meaning(c, items, store, m) == Some(PrefixOf(head, log[..m]))
    requires m < |log| ==> items(|PackText(head, log[..m])|).None?
    requires Meaning(c, items, store, n).Some?
    ensures n <= m
  {
    if n > m { MeaningExtends(c, items, store, m + 1, n); }
  }

  /** A bundle can be begun: it has refs, all with names that can be written, and its
      count fits the header. */
  predicate Openable(refs: seq<BundleRef>, n: nat) {
    refs != [] && (forall ref :: ref in refs ==> ValidName(ref.name)) && n < MAX_COUNT
  }

  /** A pack of these objects, laid out as the writer lays them out, fits under the cap. */
  ghost predicate Fits(c: Codec, objects: seq<RawObject>)
    requires |objects| < MAX_COUNT
  {
    var head := PackHead(|objects|);
    |PackText(head, Layout(c, head, objects))| <= MAX_BUNDLE_BYTES
  }

  /** Write a bundle, taking from it whenever `takes` says, then read it. It is written
      exactly if it can be begun and its objects fit; and then it is read back, and just
      those objects are put in the store, in order. */
  method WriteThenRead(c: Codec, refs: seq<BundleRef>, objects: seq<RawObject>, takes: nat -> bool, store: Store)
    returns (written: bool, r: Reader.Outcome<Reader.Summary>, puts: seq<Reader.Put>)
    requires Honest(c) && NoTwins(c, objects) && forall k :: 0 <= k < |objects| ==> |objects[k].body| < WORD
    requires forall ref :: ref in refs ==> c.utf8(ref.name)
    ensures written <==> Openable(refs, |objects|) && Fits(c, objects)
    ensures written ==> (r.Ok? <==> Acceptable(Layout(c, PackHead(|objects|), objects)))
    ensures written && (forall k :: 0 <= k < |objects| ==> |objects[k].body| <= MAX_BUNDLE_BYTES) ==> r.Ok?
    ensures written && r.Ok? ==> r.value.header.refs == refs && r.value.objects == |objects|
    ensures written && r.Ok? ==> puts == Reader.PutsOf(c, objects)
  {
    r, puts := Reader.Refused, [];
    var bundle;
    bundle, written := WriteAll(c, refs, objects, takes);
    if written {
      ghost var log := Layout(c, PackHead(|objects|), objects);
      Sizes(c, PackHead(|log|), log, objects);
      WrittenReads(c, refs, log, store);
      ghost var n, pos;
      r, puts, n, pos := Reader.ReadBundle(c, false, bundle, store);
    }
  }

  lemma Sizes(c: Codec, head: seq<Byte>, log: seq<Placed>, objects: seq<RawObject>)
    requires WellWritten(c, head, log) && Contents(log) == objects
    ensures (forall k :: 0 <= k < |objects| ==> |objects[k].body| < WORD) ==> Sized(log)
    ensures (forall k :: 0 <= k < |objects| ==> |objects[k].body| <= MAX_BUNDLE_BYTES) ==> Acceptable(log)
  {
    assert forall k :: 0 <= k < |log| ==> log[k].content == objects[k];
    if forall k :: 0 <= k < |objects| ==> |objects[k].body| < WORD { SmallBodies(c, head, log, WORD - 1); }
    if forall k :: 0 <= k < |objects| ==> |objects[k].body| <= MAX_BUNDLE_BYTES {
      SmallBodies(c, head, log, MAX_BUNDLE_BYTES);
    }
  }

  /** Write every object, handing the bytes out a piece at a time. */
  method WriteAll(c: Codec, refs: seq<BundleRef>, objects: seq<RawObject>, takes: nat -> bool)
    returns (bundle: seq<Byte>, ok: bool)
    requires Honest(c)
    ensures ok <==> Openable(refs, |objects|) && Fits(c, objects)
    ensures ok ==>
              var log := Layout(c, PackHead(|objects|), objects);
              && WellWritten(c, PackHead(|objects|), log) && Contents(log) == objects
              && bundle == BundleText(c, refs, log)
  {
    bundle, ok := [], false;
    var writer := Open(c, refs, |objects|);
    if writer.None? {
      return;
    }
    var w := writer.value;
    LayoutIs(c, PackHead(|objects|), objects);
    ok, bundle := WriteObjects(w, objects, takes, Layout(c, PackHead(|objects|), objects));
    if ok {
      var last := w.Finish();
      bundle := bundle + last.value;
    }
  }

  method WriteObjects(w: BundleWriter, objects: seq<RawObject>, takes: nat -> bool, ghost log: seq<Placed>)
    returns (ok: bool, pieces: seq<Byte>)
    requires w.Valid() && Honest(w.c) && w.log == [] && w.handed == [] && LaidOut(w.c, w.head, objects, log)
    modifies w
    ensures w.Valid() && w.handed == pieces && (ok <==> |PackText(w.head, log)| <= MAX_BUNDLE_BYTES)
    ensures ok ==> w.log == log && WellWritten(w.c, w.head, log) && Contents(log) == objects
  {
    pieces := [];
    for i := 0 to |objects|
      invariant w.Valid() && w.handed == pieces && w.log == log[..i] && Contents(w.log) == objects[..i]
    {
      var appended, piece := WriteNext(w, objects, i, takes(i), log);
      pieces := pieces + piece;
      if !appended {
        TextGrows(w.head, log, i + 1);
        return false, pieces;
      }
    }
    assert log[..|objects|] == log && objects[..|objects|] == objects;
    ok := true;
  }

  lemma NextPlaced(c: Codec, head: seq<Byte>, objects: seq<RawObject>, log: seq<Placed>, i: nat, p: Placed)
    requires LaidOut(c, head, objects, log) && i < |objects| && p == Chosen(c, head, log[..i], objects[i])
    requires WellWritten(c, head, log[..i]) && Follows(c, log[..i], p) && p.at == |PackText(head, log[..i])|
    requires Contents(log[..i]) == objects[..i] && p.content == objects[i]
    ensures log[..i + 1] == log[..i] + [p] && Contents(log[..i + 1]) == objects[..i + 1]
    ensures |PackText(head, log[..i + 1])| == p.at + |p.bytes|
  {
    assert ChosenAt(c, head, objects, log, i);
    assert log[..i + 1] == log[..i] + [log[i]] && objects[..i + 1] == objects[..i] + [objects[i]];
    Written(c, head, log[..i], p);
    assert Contents(log[..i] + [p]) == Contents(log[..i]) + [p.content];
  }

  /** Write one object more, and hand out what waits if asked to. */
  method WriteNext(w: BundleWriter, objects: seq<RawObject>, i: nat, take: bool, ghost log: seq<Placed>)
    returns (ok: bool, piece: seq<Byte>)
    requires w.Valid() && Honest(w.c) && LaidOut(w.c, w.head, objects, log) && i < |objects|
    requires w.log == log[..i] && Contents(w.log) == objects[..i]
    modifies w
    ensures w.Valid() && w.handed == old(w.handed) + piece
    ensures ok <==> |PackText(w.head, log[..i + 1])| <= MAX_BUNDLE_BYTES
    ensures ok ==> w.log == log[..i + 1] && Contents(w.log) == objects[..i + 1]
  {
    piece := [];
    ghost var placed;
    ok, placed := w.Append(objects[i].objectType, objects[i].body);
    NextPlaced(w.c, w.head, objects, log, i, placed);
    if ok && take {
      piece := w.Take();
    }
  }

  // ---- Written, and not read ----------------------------------------------

  function Zeros(n: nat): seq<Byte> { seq(n, _ => 0) }

  /** A coder that is as good as it can be on zeros and of no use on anything else. */
  function ZeroCodec(): Codec {
    Codec(
      (s: seq<Byte>) => if s == Zeros(|s|) then [0] else [1] + s,
      (s: seq<Byte>, size: nat) =>
        if s == [] then None
        else if s[0] == 0 then Some((Zeros(size), 1))
        else if size < |s| then Some((s[1..size + 1], size + 1)) else None,
      (s: seq<Byte>) => false,
      (base: seq<Byte>, target: seq<Byte>, max: nat) => None,
      (delta: seq<Byte>, base: seq<Byte>) => None,
      (s: seq<Byte>) => Zeros(20),
      (o: RawObject) => Zeros(20),
      (s: seq<Byte>) => true)
  }

  lemma ZeroHonest()
    ensures Honest(ZeroCodec())
  {
    var c := ZeroCodec();
    forall body, tail ensures c.inflate(c.deflate(body) + tail, |body|) == Some((body, |c.deflate(body)|)) {
      if body != Zeros(|body|) { assert ([1] + body + tail)[1..|body| + 1] == body; }
    }
  }

  /** One byte more of zeros than a reader accepts. */
  function Large(): RawObject { RawObject(Blob, Zeros(MAX_BUNDLE_BYTES + 1)) }

  lemma {:induction false} GroupsShort(byte: Byte, rest: nat)
    requires byte < 128
    ensures |Groups(byte, rest)| <= 1 + rest
    decreases rest
  {
    if rest > 0 { GroupsShort(rest % 128, rest / 128); }
  }

  lemma LargeFits()
    ensures Fits(ZeroCodec(), [Large()]) && !Acceptable(Layout(ZeroCodec(), PackHead(1), [Large()]))
  {
    var c, head, o := ZeroCodec(), PackHead(1), Large();
    var p := StoredWhole(c, head, [], o);
    LayoutOne(c, head, o);
    GroupsShort(TypeBits(Blob) * 16 + |o.body| % 16, |o.body| / 16);
    assert c.deflate(o.body) == [0];
    assert PackText(head, [p]) == head + p.bytes;
    assert [p][0].stored == o.body;
  }

  lemma LayoutOne(c: Codec, head: seq<Byte>, o: RawObject)
    ensures Layout(c, head, [o]) == [StoredWhole(c, head, [], o)]
  {
    assert [o][..0] == [];
  }

  /** So a bundle can be written that cannot be read, by an honest coder and with any
      refs. */
  method WrittenNotRead(refs: seq<BundleRef>, takes: nat -> bool, store: Store)
    returns (written: bool, r: Reader.Outcome<Reader.Summary>)
    requires Openable(refs, 1)
    ensures Honest(ZeroCodec()) && written && !r.Ok?
  {
    ZeroHonest();
    LargeFits();
    var puts;
    written, r, puts := WriteThenRead(ZeroCodec(), refs, [Large()], takes, store);
  }
}
