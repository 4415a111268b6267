/** A commit-graph file: the search for an id, and what a record decodes to.
On any file each read ends; on one laid out as the format says, it finds a
commit exactly when it is listed, and decodes just what was recorded. */
module CommitGraph {
  import opened Bytes

  const PARENT_NONE: nat := 0x7000_0000
  const EXTRA_EDGES: nat := 0x8000_0000
  const OID_LEN: nat := 20
  const CDAT_ENTRY_LEN: nat := 36
  const BLOOM_HEADER_LEN: nat := 12
  /** Edge indices are 32 bits wide, which reaches this far into a file. */
  const MAX_FILE: nat := 0x4_0000_0000

  /** The file's bytes, and what its header and table of chunks say. */
  datatype Graph = Graph(file: seq<Byte>, fanout: seq<nat>, oidl: nat, cdat: nat, edge: Option<nat>,
                         bidx: Option<nat>, bdat: Option<nat>)

  datatype Entry = Entry(tree: ObjectId, parents: seq<ObjectId>, time: nat)
  datatype Record = Record(id: ObjectId, entry: Entry, filter: Option<seq<Byte>>)

  /** A read finds what it is for, or the file is corrupt. */
  datatype Result<+T> = Ok(value: T) | Corrupt

  predicate Wellformed(g: Graph) {
    |g.fanout| == 256
  }

  // ---- Ids in order -------------------------------------------------------

  predicate Less(a: seq<Byte>, b: seq<Byte>) {
    if b == [] then false
    else if a == [] then true
    else a[0] < b[0] || (a[0] == b[0] && Less(a[1..], b[1..]))
  }

  /** `a` comes before `b`: at the first byte where they differ, `a` has the lower. */
  ghost predicate Ascend(a: ObjectId, b: ObjectId) {
    exists k: nat :: LowerAt(a, b, k)
  }

  ghost predicate LowerAt(a: seq<Byte>, b: seq<Byte>, k: nat) {
    k < |a| && k < |b| && a[..k] == b[..k] && a[k] < b[k]
  }

  /** That is what comparing them says. */
  lemma LessIs(a: ObjectId, b: ObjectId)
    ensures Less(a, b) <==> Ascend(a, b)
  {
    if Less(a, b) { var k := LessAt(a, b); }
    if k: nat :| LowerAt(a, b, k) { AtLess(a, b, k); }
  }

  lemma {:induction false} LessAt(a: seq<Byte>, b: seq<Byte>) returns (k: nat)
    requires |a| == |b| && Less(a, b)
    ensures LowerAt(a, b, k)
  {
    if a[0] < b[0] {
      k := 0;
    } else {
      k := LessAt(a[1..], b[1..]);
      LowerCons(a, b, k);
      k := k + 1;
    }
  }

  lemma {:induction false} AtLess(a: seq<Byte>, b: seq<Byte>, k: nat)
    requires |a| == |b| && LowerAt(a, b, k)
    ensures Less(a, b)
  {
    if k > 0 {
      assert a[0] == a[..k][0] == b[..k][0] == b[0];
      assert a[1..][..k - 1] == a[..k][1..] && b[1..][..k - 1] == b[..k][1..];
      AtLess(a[1..], b[1..], k - 1);
    }
  }

  lemma LowerCons(a: seq<Byte>, b: seq<Byte>, k: nat)
    requires a != [] && b != [] && a[0] == b[0] && LowerAt(a[1..], b[1..], k)
    ensures LowerAt(a, b, k + 1)
  {
    assert a[..k + 1] == [a[0]] + a[1..][..k] && b[..k + 1] == [b[0]] + b[1..][..k];
  }

  lemma AscendNot(a: ObjectId, b: ObjectId)
    requires Ascend(a, b)
    ensures a != b && !Ascend(b, a)
  {
    var k: nat :| LowerAt(a, b, k);
    forall j: nat ensures !LowerAt(b, a, j) {
      if j < k { assert a[j] == a[..k][j] == b[..k][j]; }
      if k < j <= |a| { assert a[..j][k] == a[k] && b[..j][k] == b[k]; }
    }
  }

  // ---- The format ---------------------------------------------------------

  /** A commit as a graph records it: its parents by position, and the paths filter
      it was written with, empty if there is none. */
  datatype Commit = Commit(id: ObjectId, tree: ObjectId, parents: seq<nat>, generation: nat, time: nat,
                           filter: seq<Byte>)

  predicate At(file: seq<Byte>, offset: nat, bytes: seq<Byte>) {
    offset + |bytes| <= |file| && file[offset..offset + |bytes|] == bytes
  }

  ghost predicate Recordable(c: Commit, n: nat) {
    && (forall k :: 0 <= k < |c.parents| ==> c.parents[k] < n)
    && c.generation < 0x4000_0000 && c.time < 0x4_0000_0000
  }

  /** The two words a commit's parents are recorded in: none, one or two positions, or
      one and where in the edge list the others are. */
  ghost predicate ParentWords(c: Commit, first: nat, second: nat) {
    if |c.parents| == 0 then first == 0x7000_0000
    else if |c.parents| == 1 then first == c.parents[0] && second == 0x7000_0000
    else if |c.parents| == 2 then first == c.parents[0] && second == c.parents[1]
    else first == c.parents[0] && 0x8000_0000 <= second < 0x1_0000_0000
  }

  /** A run of the edge list: the positions of a commit's parents after the first, the
      last of them marked. */
  ghost predicate EdgeRun(g: Graph, c: Commit, start: nat) {
    && g.edge.Some? && start + |c.parents| - 2 < 0x1_0000_0000
    && forall k :: 1 <= k < |c.parents| ==> EdgeAt(g, c, start, k)
  }

  ghost predicate EdgeAt(g: Graph, c: Commit, start: nat, k: nat)
    requires g.edge.Some?
  {
    && 1 <= k < |c.parents| && c.parents[k] < 0x7000_0000
    && At(g.file, g.edge.value + 4 * (start + k - 1),
          ToBE32(c.parents[k] + if k == |c.parents| - 1 then 0x8000_0000 else 0))
  }

  /** A commit's record: tree, parents, and the generation and time packed in two
      words. */
  ghost predicate RecordAt(g: Graph, c: Commit, pos: nat, first: nat, second: nat) {
    && first < 0x1_0000_0000 && second < 0x1_0000_0000 && ParentWords(c, first, second)
    && (|c.parents| > 2 ==> EdgeRun(g, c, second - 0x8000_0000))
    && c.generation < 0x4000_0000 && c.time < 0x4_0000_0000
    && At(g.file, g.cdat + 36 * pos,
          c.tree + ToBE32(first) + ToBE32(second) + ToBE32(c.generation * 4 + c.time / 0x1_0000_0000) +
              ToBE32(c.time % 0x1_0000_0000))
  }

  ghost predicate CommitAt(g: Graph, commits: seq<Commit>, pos: nat)
    requires pos < |commits|
  {
    && At(g.file, g.oidl + 20 * pos, commits[pos].id)
    && Recordable(commits[pos], |commits|)
    && exists first: nat, second: nat :: RecordAt(g, commits[pos], pos, first, second)
  }

  /** Each commit's filter ends where its index entry says, the first starting at
      nothing. */
  ghost predicate FilterAt(g: Graph, commits: seq<Commit>, ends: seq<nat>, pos: nat)
    requires g.bidx.Some? && g.bdat.Some? && pos < |commits| == |ends|
  {
    var start := if pos == 0 then 0 else ends[pos - 1];
    && start <= ends[pos] == start + |commits[pos].filter| && ends[pos] < 0x1_0000_0000
    && At(g.file, g.bidx.value + 4 * pos, ToBE32(ends[pos]))
    && At(g.file, g.bdat.value + 12 + start, commits[pos].filter)
  }

  ghost predicate FiltersAt(g: Graph, commits: seq<Commit>, ends: seq<nat>) {
    if g.bidx.Some? && g.bdat.Some?
    then |ends| == |commits| && forall pos :: 0 <= pos < |commits| ==> FilterAt(g, commits, ends, pos)
    else forall pos :: 0 <= pos < |commits| ==> commits[pos].filter == []
  }

  ghost predicate Fanned(g: Graph, commits: seq<Commit>) {
    && |g.fanout| == 256
    && (forall b, pos :: 0 <= b < 256 && 0 <= pos < |commits| ==> (pos < g.fanout[b] <==> commits[pos].id[0] <= b))
    && (forall b :: 0 <= b < 256 ==> g.fanout[b] <= |commits|)
  }

  /** The file records these commits, in order of id. */
  ghost predicate LaidOut(g: Graph, commits: seq<Commit>, ends: seq<nat>) {
    && Wellformed(g) && |commits| <= 0x7000_0000 && g.fanout[255] == |commits|
    && (forall i, j :: 0 <= i < j < |commits| ==> Ascend(commits[i].id, commits[j].id))
    && Fanned(g, commits)
    && (forall pos :: 0 <= pos < |commits| ==> CommitAt(g, commits, pos))
    && FiltersAt(g, commits, ends)
  }

  /** What reading a commit's record is to give: its parents by id. */
  ghost function EntryOf(commits: seq<Commit>, pos: nat): Entry
    requires pos < |commits| && Recordable(commits[pos], |commits|)
  {
    var c := commits[pos];
    Entry(c.tree, seq<ObjectId>(|c.parents|, k requires 0 <= k < |c.parents| => commits[c.parents[k]].id), c.time)
  }

  ghost function RecordOf(commits: seq<Commit>, pos: nat): Record
    requires pos < |commits| && Recordable(commits[pos], |commits|)
  {
    Record(commits[pos].id, EntryOf(commits, pos),
           if commits[pos].filter == [] then None else Some(commits[pos].filter))
  }

  // ---- Reading ------------------------------------------------------------

  /** The `n` bytes from `offset` on; a file without that many is corrupt. */
  function Read(file: seq<Byte>, offset: nat, n: nat): (r: Result<seq<Byte>>)
    ensures r.Ok? ==> |r.value| == n && offset + n <= |file|
  {
    if offset + n <= |file| then Ok(file[offset..offset + n]) else Corrupt
  }

  function Word(file: seq<Byte>, offset: nat): (r: Result<nat>)
    ensures r.Ok? ==> offset + 4 <= |file| && r.value < WORD32
  {
    var r := Read(file, offset, 4);
    if r.Ok? then Ok(FromBE32(r.value)) else Corrupt
  }

  function OidAt(g: Graph, pos: nat): Result<ObjectId> {
    var r := Read(g.file, g.oidl + pos * OID_LEN, OID_LEN);
    if r.Ok? then Ok(r.value) else Corrupt
  }

  lemma ReadIs(file: seq<Byte>, offset: nat, bytes: seq<Byte>)
    requires At(file, offset, bytes)
    ensures Read(file, offset, |bytes|) == Ok(bytes)
  {
  }

  lemma WordIs(file: seq<Byte>, offset: nat, n: nat)
    requires n < WORD32 && At(file, offset, ToBE32(n))
    ensures Word(file, offset) == Ok(n)
  {
    ReadIs(file, offset, ToBE32(n));
    BE32Read(n);
  }

  lemma OidIs(g: Graph, commits: seq<Commit>, ends: seq<nat>, pos: nat)
    requires LaidOut(g, commits, ends) && pos < |commits|
    ensures OidAt(g, pos) == Ok(commits[pos].id)
  {
    assert CommitAt(g, commits, pos);
    ReadIs(g.file, g.oidl + OID_LEN * pos, commits[pos].id);
  }

  /** An id's place among those with its first byte, halving the range until it is found
      or none is left. On a file laid out right the answer is that of a full scan. */
  method PositionOf(g: Graph, id: ObjectId, ghost commits: seq<Commit>, ghost ends: seq<nat>)
    returns (r: Result<Option<nat>>)
    requires Wellformed(g)
    ensures r.Ok? && r.value.Some? ==> OidAt(g, r.value.value) == Ok(id)
    ensures LaidOut(g, commits, ends) && r.Ok? && r.value.Some? ==>
              r.value.value < |commits| && commits[r.value.value].id == id
    ensures LaidOut(g, commits, ends) && r.Ok? && r.value.None? ==> forall k :: 0 <= k < |commits| ==>
              commits[k].id != id
    ensures LaidOut(g, commits, ends) ==> r.Ok?
  {
    var first := id[0];
    var lower: nat := if first == 0 then 0 else g.fanout[first - 1];
    var upper: nat := g.fanout[first];
    while lower < upper
      invariant LaidOut(g, commits, ends) ==>
                  upper <= |commits| && forall k :: 0 <= k < |commits| && commits[k].id == id ==> lower <= k < upper
      decreases upper - lower
    {
      var mid: nat := (lower + upper) / 2;
      var oid := OidAt(g, mid);
      if LaidOut(g, commits, ends) { OidIs(g, commits, ends, mid); }
      if oid.Corrupt? {
        return Corrupt;
      }
      if oid.value == id {
        return Ok(Some(mid));
      }
      if LaidOut(g, commits, ends) { Halved(commits, mid, id); }
      if Less(oid.value, id) {
        lower := mid + 1;
      } else {
        upper := mid;
      }
    }
    r := Ok(None);
  }

  /** In sorted order, an id is after all smaller ones and before all larger ones. */
  lemma Halved(commits: seq<Commit>, mid: nat, id: ObjectId)
    requires forall i, j :: 0 <= i < j < |commits| ==> Ascend(commits[i].id, commits[j].id)
    requires mid < |commits| && commits[mid].id != id
    ensures forall k :: 0 <= k < |commits| && commits[k].id == id ==>
              if Less(commits[mid].id, id) then mid < k else k < mid
  {
    forall k | 0 <= k < |commits| && commits[k].id == id
      ensures if Less(commits[mid].id, id) then mid < k else k < mid
    {
      LessIs(commits[mid].id, id);
      if k < mid { AscendNot(id, commits[mid].id); }
    }
  }

  // ---- Records ------------------------------------------------------------

  /** The record's parts, unless the file ends short. */
  datatype Raw = Raw(tree: ObjectId, first: nat, second: nat, time: nat)

  function RawAt(g: Graph, pos: nat): Result<Raw> {
    var r := Read(g.file, g.cdat + pos * CDAT_ENTRY_LEN, CDAT_ENTRY_LEN);
    if r.Corrupt? then Corrupt
    else
      var rec := r.value;
      Ok(Raw(rec[..20], FromBE32(rec[20..24]), FromBE32(rec[24..28]),
             FromBE32(rec[28..32]) % 4 * WORD32 + FromBE32(rec[32..36])))
  }

  lemma Fields(tree: ObjectId, a: nat, b: nat, c: nat, d: nat)
    requires a < WORD32 && b < WORD32 && c < WORD32 && d < WORD32
    ensures var rec := tree + ToBE32(a) + ToBE32(b) + ToBE32(c) + ToBE32(d);
            && |rec| == CDAT_ENTRY_LEN && rec[..20] == tree
            && FromBE32(rec[20..24]) == a && FromBE32(rec[24..28]) == b
            && FromBE32(rec[28..32]) == c && FromBE32(rec[32..36]) == d
  {
    var rec := tree + ToBE32(a) + ToBE32(b) + ToBE32(c) + ToBE32(d);
    assert rec[20..24] == ToBE32(a) && rec[24..28] == ToBE32(b) && rec[28..32] == ToBE32(c) && rec[32..36] == ToBE32(d);
    BE32Read(a);
    BE32Read(b);
    BE32Read(c);
    BE32Read(d);
  }

  lemma TimeSplits(generation: nat, time: nat)
    requires generation < 0x4000_0000 && time < 0x4_0000_0000
    ensures var high := generation * 4 + time / WORD32; high < WORD32 && high % 4 * WORD32 + time % WORD32 == time
  {
    assert time / WORD32 < 4;
  }

  /** A generation below 2^30 and a time below 2^34 do not run into each other. */
  lemma RawIs(g: Graph, c: Commit, pos: nat, first: nat, second: nat)
    requires RecordAt(g, c, pos, first, second)
    ensures RawAt(g, pos) == Ok(Raw(c.tree, first, second, c.time))
  {
    var high := c.generation * 4 + c.time / WORD32;
    TimeSplits(c.generation, c.time);
    FieldsRead(g, pos, c.tree, first, second, high, c.time % WORD32);
  }

  lemma FieldsRead(g: Graph, pos: nat, tree: ObjectId, a: nat, b: nat, c: nat, d: nat)
    requires a < WORD32 && b < WORD32 && c < WORD32 && d < WORD32
    requires At(g.file, g.cdat + CDAT_ENTRY_LEN * pos, tree + ToBE32(a) + ToBE32(b) + ToBE32(c) + ToBE32(d))
    ensures RawAt(g, pos) == Ok(Raw(tree, a, b, c % 4 * WORD32 + d))
  {
    Fields(tree, a, b, c, d);
    ReadIs(g.file, g.cdat + CDAT_ENTRY_LEN * pos, tree + ToBE32(a) + ToBE32(b) + ToBE32(c) + ToBE32(d));
  }

  /** The ids of a commit's parents from the `from`-th to the `to`-th. */
  ghost function ParentIds(commits: seq<Commit>, c: Commit, from: nat, to: nat): seq<ObjectId>
    requires from <= to <= |c.parents| && forall k :: 0 <= k < |c.parents| ==> c.parents[k] < |commits|
  {
    seq<ObjectId>(to - from, k requires 0 <= k < to - from => commits[c.parents[from + k]].id)
  }

  // ---- The edge list ------------------------------------------------------

  /** An entry no run goes on past: it is marked, or it or its parent cannot be read. */
  ghost predicate Stops(g: Graph, index: nat) {
    g.edge.Some? ==>
      var w := Word(g.file, g.edge.value + index * 4);
      w.Corrupt? || w.value >= EXTRA_EDGES || OidAt(g, w.value % EXTRA_EDGES).Corrupt?
  }

  /** The index `n` entries on. Indices wrap round at 32 bits. */
  function After(start: nat, n: nat): nat { (start + n) % WORD32 }

  /** A run from `start` on comes to such an entry. */
  ghost predicate EdgesEnd(g: Graph, start: nat) {
    exists n: nat :: Stops(g, After(start, n))
  }

  /** It does, from wherever it starts, just if there is one such entry an index can
      reach. */
  lemma EdgesEndIff(g: Graph, start: nat)
    requires start < WORD32
    ensures EdgesEnd(g, start) <==> exists i: nat :: i < WORD32 && Stops(g, i)
  {
    if n: nat :| Stops(g, After(start, n)) {
      assert After(start, n) < WORD32;
    }
    if i: nat :| i < WORD32 && Stops(g, i) {
      var n := if start <= i then i - start else i + WORD32 - start;
      Wraps(start, n, i);
      assert Stops(g, After(start, n));
    }
  }

  lemma Wraps(start: nat, n: nat, i: nat)
    requires i < WORD32 && (start + n == i || start + n == i + WORD32)
    ensures After(start, n) == i
  {
  }

  /** In any file below 16 GiB the last index is past the end. */
  lemma SmallEnds(g: Graph, start: nat)
    requires |g.file| < MAX_FILE && start < WORD32
    ensures EdgesEnd(g, start)
  {
    assert Stops(g, WORD32 - 1);
    EdgesEndIff(g, start);
  }

  /** A run with its last entry marked ends, wherever in the file it is. */
  lemma RunEnds(g: Graph, start: nat, ids: seq<ObjectId>)
    requires RunIs(g, start, ids)
    ensures EdgesEnd(g, start)
  {
    var n := |ids| - 1;
    assert EntryAt(g, start, ids, n);
    assert Stops(g, After(start, n));
  }

  /** In 16 GiB of zeros a run never ends: every entry names the commit at 0. */
  lemma ZerosNeverEnd(g: Graph, start: nat)
    requires |g.file| >= MAX_FILE && (forall k :: 0 <= k < |g.file| ==> g.file[k] == 0)
    requires g.edge == Some(0) && g.oidl == 0 && start < WORD32
    ensures !EdgesEnd(g, start)
  {
    forall i: nat | i < WORD32 ensures !Stops(g, i) {
      assert g.file[i * 4..i * 4 + 4] == [0, 0, 0, 0];
    }
    EdgesEndIff(g, start);
  }

  /** The entry at an index names that commit, and is the last of its run or not. */
  ghost predicate EntryIs(g: Graph, index: nat, id: ObjectId, last: bool) {
    && g.edge.Some?
    && var w := Word(g.file, g.edge.value + index * 4);
       w.Ok? && OidAt(g, w.value % EXTRA_EDGES) == Ok(id) && (w.value >= EXTRA_EDGES <==> last)
  }

  /** The run from `start` on names those commits, the last of them marked. */
  ghost predicate RunIs(g: Graph, start: nat, ids: seq<ObjectId>) {
    && ids != [] && start + |ids| <= WORD32
    && forall k :: 0 <= k < |ids| ==> EntryAt(g, start, ids, k)
  }

  ghost predicate EntryAt(g: Graph, start: nat, ids: seq<ObjectId>, k: nat)
    requires k < |ids|
  {
    EntryIs(g, start + k, ids[k], k == |ids| - 1)
  }

  /** A merge's further parents, from where its run of the edge list starts to the
      entry marked as the last. What is required is just that the run ends. */
  method ReadExtraEdges(g: Graph, start: nat, parents: seq<ObjectId>, ghost ids: seq<ObjectId>)
    returns (r: Result<seq<ObjectId>>)
    requires start < EXTRA_EDGES && EdgesEnd(g, start)
    ensures RunIs(g, start, ids) ==> r == Ok(parents + ids)
  {
    RunHere(g, start, ids, parents);
    if g.edge.None? {
      return Corrupt;
    }
    var index, out := start, parents;
    ghost var n: nat :| Stops(g, After(start, n));
    ghost var k: nat := 0;
    while true
      invariant k <= n && index == After(start, k)
      invariant RunIs(g, start, ids) ==> Gathered(parents, ids, k, out)
      decreases n - k
    {
      RunIndex(g, start, ids, k);
      var next, last := ReadEdge(g, index, start, ids, k);
      if next.Corrupt? {
        return Corrupt;
      }
      GatherNext(parents, ids, k, out, next.value);
      out := out + [next.value];
      if last {
        return Ok(out);
      }
      NextIndex(start, k);
      index, k := (index + 1) % WORD32, k + 1;
    }
  }

  /** The first `k` of the run's parents have been added, and there are more. */
  ghost predicate Gathered(parents: seq<ObjectId>, ids: seq<ObjectId>, k: nat, out: seq<ObjectId>) {
    k < |ids| && out == parents + ids[..k]
  }

  lemma GatherNext(parents: seq<ObjectId>, ids: seq<ObjectId>, k: nat, out: seq<ObjectId>, id: ObjectId)
    ensures Gathered(parents, ids, k, out) && id == ids[k] ==>
              if k + 1 == |ids| then out + [id] == parents + ids else Gathered(parents, ids, k + 1, out + [id])
  {
    if k < |ids| {
      assert ids[..k + 1] == ids[..k] + [ids[k]];
      assert ids[..|ids|] == ids;
    }
  }

  /** Where a run is, there is an edge list. */
  lemma RunHere(g: Graph, start: nat, ids: seq<ObjectId>, parents: seq<ObjectId>)
    ensures RunIs(g, start, ids) ==> g.edge.Some? && Gathered(parents, ids, 0, parents)
  {
    if RunIs(g, start, ids) {
      assert EntryAt(g, start, ids, 0);
      assert parents + ids[..0] == parents;
    }
  }

  /** No index of a run has wrapped round. */
  lemma RunIndex(g: Graph, start: nat, ids: seq<ObjectId>, k: nat)
    ensures RunIs(g, start, ids) && k < |ids| ==> After(start, k) == start + k
  {
  }

  lemma NextIndex(start: nat, k: nat)
    ensures (After(start, k) + 1) % WORD32 == After(start, k + 1)
  {
  }

  ghost predicate HasRun(g: Graph, start: nat, commits: seq<Commit>, ends: seq<nat>, c: Commit) {
    LaidOut(g, commits, ends) && Recordable(c, |commits|) && |c.parents| > 2 && EdgeRun(g, c, start)
  }

  /** One entry of the edge list: the parent it names, and whether it is marked. */
  method ReadEdge(g: Graph, index: nat, ghost start: nat, ghost ids: seq<ObjectId>, ghost k: nat)
    returns (r: Result<ObjectId>, last: bool)
    requires g.edge.Some?
    ensures r.Corrupt? || last <==> Stops(g, index)
    ensures RunIs(g, start, ids) && k < |ids| && index == start + k ==> r == Ok(ids[k]) && (last <==> k + 1 == |ids|)
  {
    assert RunIs(g, start, ids) && k < |ids| ==> EntryAt(g, start, ids, k);
    var raw := Word(g.file, g.edge.value + index * 4);
    if raw.Corrupt? {
      return Corrupt, false;
    }
    r, last := OidAt(g, raw.value % EXTRA_EDGES), raw.value >= EXTRA_EDGES;
  }

  /** A merge's run names its parents after the first. */
  lemma HasRunIs(g: Graph, commits: seq<Commit>, ends: seq<nat>, c: Commit, start: nat)
    requires HasRun(g, start, commits, ends, c)
    ensures RunIs(g, start, ParentIds(commits, c, 1, |c.parents|))
  {
    var ids := ParentIds(commits, c, 1, |c.parents|);
    forall k | 0 <= k < |ids| ensures EntryAt(g, start, ids, k) {
      EdgeIs(g, commits, ends, c, start, k + 1);
    }
  }

  lemma EdgeIs(g: Graph, commits: seq<Commit>, ends: seq<nat>, c: Commit, start: nat, k: nat)
    requires LaidOut(g, commits, ends) && Recordable(c, |commits|) && EdgeRun(g, c, start) && 1 <= k < |c.parents|
    ensures var raw := Word(g.file, g.edge.value + (start + k - 1) * 4);
            && raw.Ok? && raw.value % EXTRA_EDGES == c.parents[k]
               && (raw.value >= EXTRA_EDGES <==> k == |c.parents| - 1)
            && OidAt(g, c.parents[k]) == Ok(commits[c.parents[k]].id)
  {
    assert EdgeAt(g, c, start, k);
    EdgeWord(g, c, start, k);
    OidIs(g, commits, ends, c.parents[k]);
  }

  lemma EdgeWord(g: Graph, c: Commit, start: nat, k: nat)
    requires g.edge.Some? && EdgeAt(g, c, start, k)
    ensures var raw := Word(g.file, g.edge.value + (start + k - 1) * 4);
            raw.Ok? && raw.value % EXTRA_EDGES == c.parents[k] && (raw.value >= EXTRA_EDGES <==> k == |c.parents| - 1)
  {
    WordIs(g.file, g.edge.value + 4 * (start + k - 1),
           c.parents[k] + if k == |c.parents| - 1 then EXTRA_EDGES else 0);
  }

  /** The record's run of the edge list ends, if it has one that is read. */
  ghost predicate ParentsEnd(g: Graph, raw: Raw) {
    raw.first != PARENT_NONE && OidAt(g, raw.first).Ok? && raw.second >= EXTRA_EDGES ==>
      EdgesEnd(g, raw.second % EXTRA_EDGES)
  }

  ghost predicate RecordEnds(g: Graph, pos: nat) {
    RawAt(g, pos).Ok? ==> ParentsEnd(g, RawAt(g, pos).value)
  }

  ghost predicate RecordsEnd(g: Graph) {
    forall pos: nat :: RecordEnds(g, pos)
  }

  /** Reading any record of any file below 16 GiB ends. */
  lemma SmallRecordsEnd(g: Graph)
    requires |g.file| < MAX_FILE
    ensures RecordsEnd(g)
  {
    forall pos: nat ensures RecordEnds(g, pos) {
      if RawAt(g, pos).Ok? { SmallEnds(g, RawAt(g, pos).value.second % EXTRA_EDGES); }
    }
  }

  /** So does reading a record laid out as the format says, however large the file. */
  lemma LaidOutEnds(g: Graph, commits: seq<Commit>, ends: seq<nat>, pos: nat)
    requires LaidOut(g, commits, ends) && pos < |commits|
    ensures RecordEnds(g, pos)
  {
    RecordIs(g, commits, ends, pos);
    ParentsAreEnd(g, RawAt(g, pos).value, ParentIds(commits, commits[pos], 0, |commits[pos].parents|));
  }

  lemma ParentsAreEnd(g: Graph, raw: Raw, ids: seq<ObjectId>)
    requires ParentsAre(g, raw, ids) && raw.second < WORD32
    ensures ParentsEnd(g, raw)
  {
    if raw.first != PARENT_NONE && raw.second >= EXTRA_EDGES { RunEnds(g, raw.second - EXTRA_EDGES, ids[1..]); }
  }

  /** The commit at a position: its tree, its parents in order, and its time. */
  method CommitData(g: Graph, pos: nat, ghost commits: seq<Commit>, ghost ends: seq<nat>) returns (r: Result<Entry>)
    requires Wellformed(g) && RecordEnds(g, pos)
    ensures LaidOut(g, commits, ends) && pos < |commits| ==>
              Recordable(commits[pos], |commits|) && r == Ok(EntryOf(commits, pos))
  {
    ghost var ids: seq<ObjectId> := [];
    if LaidOut(g, commits, ends) && pos < |commits| {
      RecordIs(g, commits, ends, pos);
      ids := ParentIds(commits, commits[pos], 0, |commits[pos].parents|);
    }
    var raw := RawAt(g, pos);
    if raw.Corrupt? {
      return Corrupt;
    }
    var parents := ReadParents(g, raw.value, ids);
    if parents.Corrupt? {
      return Corrupt;
    }
    r := Ok(Entry(raw.value.tree, parents.value, raw.value.time));
  }

  lemma RecordIs(g: Graph, commits: seq<Commit>, ends: seq<nat>, pos: nat)
    requires LaidOut(g, commits, ends) && pos < |commits|
    ensures var raw := RawAt(g, pos);
            var c := commits[pos];
            && raw.Ok? && Parented(g, raw.value, commits, ends, c)
            && ParentsAre(g, raw.value, ParentIds(commits, c, 0, |c.parents|)) && raw.value.tree == c.tree
               && raw.value.time == c.time
            && EntryOf(commits, pos) == Entry(c.tree, ParentIds(commits, c, 0, |c.parents|), c.time)
  {
    assert CommitAt(g, commits, pos);
    var first: nat, second: nat :| RecordAt(g, commits[pos], pos, first, second);
    RawIs(g, commits[pos], pos, first, second);
    ParentedAre(g, RawAt(g, pos).value, commits, ends, commits[pos]);
  }

  /** What the two words, and the edge list, say of a commit's parents. */
  ghost predicate ParentsAre(g: Graph, raw: Raw, ids: seq<ObjectId>) {
    if raw.first == PARENT_NONE then ids == []
    else
      && ids != [] && OidAt(g, raw.first) == Ok(ids[0])
      && if raw.second == PARENT_NONE then |ids| == 1
         else if raw.second >= EXTRA_EDGES then RunIs(g, raw.second - EXTRA_EDGES, ids[1..])
         else |ids| == 2 && OidAt(g, raw.second) == Ok(ids[1])
  }

  method ReadParents(g: Graph, raw: Raw, ghost ids: seq<ObjectId>) returns (r: Result<seq<ObjectId>>)
    requires raw.second < WORD32 && ParentsEnd(g, raw)
    ensures ParentsAre(g, raw, ids) ==> r == Ok(ids)
  {
    if raw.first == PARENT_NONE {
      return Ok([]);
    }
    var one := OidAt(g, raw.first);
    if one.Corrupt? {
      return Corrupt;
    }
    if raw.second == PARENT_NONE {
      assert |ids| == 1 ==> ids == [ids[0]];
      return Ok([one.value]);
    }
    if raw.second >= EXTRA_EDGES {
      ghost var rest := if ids == [] then [] else ids[1..];
      r := ReadExtraEdges(g, raw.second % EXTRA_EDGES, [one.value], rest);
      assert ids != [] ==> ids == [ids[0]] + rest;
      return;
    }
    var two := OidAt(g, raw.second);
    assert |ids| == 2 ==> ids == [ids[0], ids[1]];
    r := if two.Corrupt? then Corrupt else Ok([one.value, two.value]);
  }

  lemma ParentedAre(g: Graph, raw: Raw, commits: seq<Commit>, ends: seq<nat>, c: Commit)
    requires Parented(g, raw, commits, ends, c)
    ensures ParentsAre(g, raw, ParentIds(commits, c, 0, |c.parents|))
  {
    if |c.parents| > 0 {
      OidIs(g, commits, ends, c.parents[0]);
      AllParents(commits, c);
    }
    if |c.parents| == 2 { OidIs(g, commits, ends, c.parents[1]); }
    if |c.parents| > 2 { HasRunIs(g, commits, ends, c, raw.second - EXTRA_EDGES); }
  }

  ghost predicate Parented(g: Graph, raw: Raw, commits: seq<Commit>, ends: seq<nat>, c: Commit) {
    && LaidOut(g, commits, ends) && Recordable(c, |commits|)
    && ParentWords(c, raw.first, raw.second)
    && (|c.parents| > 2 ==> EdgeRun(g, c, raw.second - EXTRA_EDGES))
  }

  lemma AllParents(commits: seq<Commit>, c: Commit)
    requires |c.parents| > 0 && forall k :: 0 <= k < |c.parents| ==> c.parents[k] < |commits|
    ensures ParentIds(commits, c, 0, |c.parents|) == [commits[c.parents[0]].id] + ParentIds(commits, c, 1, |c.parents|)
  {
  }

  /** On a file laid out right, the bytes recorded for the commit, if there are any. */
  method ChangedPathFilter(g: Graph, pos: nat, ghost commits: seq<Commit>, ghost ends: seq<nat>)
    returns (r: Result<Option<seq<Byte>>>)
    requires Wellformed(g)
    ensures LaidOut(g, commits, ends) && pos < |commits| ==>
              r == Ok(if commits[pos].filter == [] then None else Some(commits[pos].filter))
  {
    ghost var laid := LaidOut(g, commits, ends) && pos < |commits|;
    if g.bidx.None? || g.bdat.None? {
      return Ok(None);
    }
    if laid { FilterIs(g, commits, ends, pos); }
    var end := Word(g.file, g.bidx.value + pos * 4);
    if end.Corrupt? {
      return Corrupt;
    }
    var start := if pos == 0 then Ok(0) else Word(g.file, g.bidx.value + (pos - 1) * 4);
    if start.Corrupt? {
      return Corrupt;
    }
    if end.value <= start.value {
      return Ok(None);
    }
    var filter := Read(g.file, g.bdat.value + BLOOM_HEADER_LEN + start.value, end.value - start.value);
    r := if filter.Corrupt? then Corrupt else Ok(Some(filter.value));
  }

  lemma FilterIs(g: Graph, commits: seq<Commit>, ends: seq<nat>, pos: nat)
    requires LaidOut(g, commits, ends) && pos < |commits| && g.bidx.Some? && g.bdat.Some?
    ensures Word(g.file, g.bidx.value + pos * 4) == Ok(ends[pos])
    ensures pos > 0 ==> Word(g.file, g.bidx.value + (pos - 1) * 4) == Ok(ends[pos - 1])
    ensures var start := if pos == 0 then 0 else ends[pos - 1];
            && start + |commits[pos].filter| == ends[pos]
            && Read(g.file, g.bdat.value + BLOOM_HEADER_LEN + start, ends[pos] - start) == Ok(commits[pos].filter)
  {
    FilterEnds(g, commits, ends, pos);
    if pos > 0 { FilterEnds(g, commits, ends, pos - 1); }
    FilterBytes(g, commits, ends, pos);
  }

  lemma FilterEnds(g: Graph, commits: seq<Commit>, ends: seq<nat>, pos: nat)
    requires LaidOut(g, commits, ends) && pos < |commits| && g.bidx.Some? && g.bdat.Some?
    ensures Word(g.file, g.bidx.value + pos * 4) == Ok(ends[pos])
  {
    assert FilterAt(g, commits, ends, pos);
    WordIs(g.file, g.bidx.value + 4 * pos, ends[pos]);
  }

  lemma FilterBytes(g: Graph, commits: seq<Commit>, ends: seq<nat>, pos: nat)
    requires LaidOut(g, commits, ends) && pos < |commits| && g.bidx.Some? && g.bdat.Some?
    ensures var start := if pos == 0 then 0 else ends[pos - 1];
            && start + |commits[pos].filter| == ends[pos]
            && Read(g.file, g.bdat.value + BLOOM_HEADER_LEN + start, ends[pos] - start) == Ok(commits[pos].filter)
  {
    assert FilterAt(g, commits, ends, pos);
    ReadIs(g.file, g.bdat.value + BLOOM_HEADER_LEN + (if pos == 0 then 0 else ends[pos - 1]), commits[pos].filter);
  }

  // ---- Looking up ---------------------------------------------------------

  /** A commit's position and metadata, if it is in the graph. */
  method Lookup(g: Graph, id: ObjectId, ghost commits: seq<Commit>, ghost ends: seq<nat>)
    returns (r: Result<Option<(nat, Entry)>>)
    requires Wellformed(g) && (LaidOut(g, commits, ends) || RecordsEnd(g))
    ensures LaidOut(g, commits, ends) ==>
              && r.Ok?
              && (r.value.None? ==> forall k :: 0 <= k < |commits| ==> commits[k].id != id)
              && (r.value.Some? ==>
                    var (pos, entry) := r.value.value;
                    && pos < |commits| && commits[pos].id == id
                    && Recordable(commits[pos], |commits|) && entry == EntryOf(commits, pos))
  {
    var pos := PositionOf(g, id, commits, ends);
    if pos.Corrupt? {
      return Corrupt;
    }
    if pos.value.None? {
      return Ok(None);
    }
    if LaidOut(g, commits, ends) { LaidOutEnds(g, commits, ends, pos.value.value); }
    var entry := CommitData(g, pos.value.value, commits, ends);
    r := if entry.Corrupt? then Corrupt else Ok(Some((pos.value.value, entry.value)));
  }

  /** All the graph has of one commit. */
  method RecordFor(g: Graph, id: ObjectId, ghost commits: seq<Commit>, ghost ends: seq<nat>)
    returns (r: Result<Option<Record>>)
    requires Wellformed(g) && (LaidOut(g, commits, ends) || RecordsEnd(g))
    ensures LaidOut(g, commits, ends) ==>
              && r.Ok?
              && (r.value.None? ==> forall k :: 0 <= k < |commits| ==> commits[k].id != id)
              && (r.value.Some? ==>
                    exists k :: 0 <= k < |commits| && commits[k].id == id && IsRecord(commits, k, r.value.value))
  {
    var pos := PositionOf(g, id, commits, ends);
    if pos.Corrupt? {
      return Corrupt;
    }
    if pos.value.None? {
      return Ok(None);
    }
    if LaidOut(g, commits, ends) { LaidOutEnds(g, commits, ends, pos.value.value); }
    var record := RecordAtPosition(g, id, pos.value.value, commits, ends);
    r := if record.Corrupt? then Corrupt else Ok(Some(record.value));
  }

  ghost predicate IsRecord(commits: seq<Commit>, pos: nat, r: Record) {
    pos < |commits| && Recordable(commits[pos], |commits|) && r == RecordOf(commits, pos)
  }

  method RecordAtPosition(g: Graph, id: ObjectId, pos: nat, ghost commits: seq<Commit>, ghost ends: seq<nat>)
    returns (r: Result<Record>)
    requires Wellformed(g) && RecordEnds(g, pos)
    ensures LaidOut(g, commits, ends) && pos < |commits| && commits[pos].id == id ==>
              r.Ok? && IsRecord(commits, pos, r.value)
  {
    var entry := CommitData(g, pos, commits, ends);
    if entry.Corrupt? {
      return Corrupt;
    }
    var filter := ChangedPathFilter(g, pos, commits, ends);
    r := if filter.Corrupt? then Corrupt else Ok(Record(id, entry.value, filter.value));
  }

  /** Every record in the graph, in order: just what looking each up would give. */
  method AllRecords(g: Graph, ghost commits: seq<Commit>, ghost ends: seq<nat>) returns (r: Result<seq<Record>>)
    requires Wellformed(g) && (LaidOut(g, commits, ends) || RecordsEnd(g))
    ensures LaidOut(g, commits, ends) ==>
              r.Ok? && |r.value| == |commits| && forall k :: 0 <= k < |commits| ==> IsRecord(commits, k, r.value[k])
  {
    var out: seq<Record> := [];
    for pos := 0 to g.fanout[255]
      invariant |out| == pos && (LaidOut(g, commits, ends) ==> forall k :: 0 <= k < pos ==>
                                   IsRecord(commits, k, out[k]))
    {
      var oid := OidAt(g, pos);
      if LaidOut(g, commits, ends) {
        OidIs(g, commits, ends, pos);
        LaidOutEnds(g, commits, ends, pos);
      }
      if oid.Corrupt? {
        return Corrupt;
      }
      var record := RecordAtPosition(g, oid.value, pos, commits, ends);
      if record.Corrupt? {
        return Corrupt;
      }
      out := out + [record.value];
    }
    r := Ok(out);
  }
}
