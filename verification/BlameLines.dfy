/** Runs of lines under blame, and how one diff divides them between a commit
and its parent. */
module BlameLines {
  import opened Bytes

  /** Consecutive lines, `num` of them: from line `lno` of the file blamed on, which are
      thought to be those from `sLno` on of the copy of origin `suspect`. */
  datatype Entry = Entry(lno: nat, num: nat, sLno: nat, suspect: nat)

  /** A changed region of a diff: lines `beforeStart..beforeEnd` of the parent's
      copy became `afterStart..afterEnd`. */
  datatype Hunk = Hunk(beforeStart: nat, beforeEnd: nat, afterStart: nat, afterEnd: nat)

  /** The largest line number an index can hold, and the largest signed offset. A text
      has no more lines than a buffer may have bytes, which is the latter. */
  const USIZE_MAX: nat := WORD - 1
  const ISIZE_MAX: int := WORD / 2 - 1

  // ---- What a list of runs says, line by line -----------------------------

  /** `e` holds line `l`, suspecting line `s` of origin `o`. */
  predicate Holds(e: Entry, o: nat, l: int, s: int) {
    e.suspect == o && e.lno <= l < e.lno + e.num && s - e.sLno == l - e.lno
  }

  function One(e: Entry, o: nat, l: int, s: int): nat {
    if Holds(e, o, l, s) then 1 else 0
  }

  /** How many runs hold line `l` as line `s` of origin `o`. */
  function Count(es: seq<Entry>, o: nat, l: int, s: int): nat {
    if es == [] then 0 else One(es[0], o, l, s) + Count(es[1..], o, l, s)
  }

  /** Ordered by place in the suspect's copy; runs may overlap. */
  ghost predicate Sorted(es: seq<Entry>) {
    forall i, j :: 0 <= i < j < |es| ==> es[i].sLno <= es[j].sLno
  }

  /** Every run of `es` is a run of `o` that starts at `lo` or later. */
  ghost predicate From(es: seq<Entry>, o: nat, lo: nat) {
    forall k :: 0 <= k < |es| ==> es[k].num > 0 && es[k].suspect == o && es[k].sLno >= lo
  }

  lemma {:induction false} CountAppend(a: seq<Entry>, b: seq<Entry>, o: nat, l: int, s: int)
    ensures Count(a + b, o, l, s) == Count(a, o, l, s) + Count(b, o, l, s)
  {
    if a == [] {
      assert a + b == b;
    } else {
      CountAppend(a[1..], b, o, l, s);
      assert (a + b)[1..] == a[1..] + b;
    }
  }

  lemma CountPush(a: seq<Entry>, e: Entry)
    ensures forall o, l, s {:trigger Count(a + [e], o, l, s)} ::
              Count(a + [e], o, l, s) == Count(a, o, l, s) + One(e, o, l, s)
  {
    forall o, l, s ensures Count(a + [e], o, l, s) == Count(a, o, l, s) + One(e, o, l, s) {
      CountAppend(a, [e], o, l, s);
      assert Count([e], o, l, s) == One(e, o, l, s) + Count([], o, l, s);
    }
  }

  lemma {:induction false} CountZero(es: seq<Entry>, o: nat, l: int, s: int)
    requires forall e :: e in es ==> !Holds(e, o, l, s)
    ensures Count(es, o, l, s) == 0
  {
    if es != [] { CountZero(es[1..], o, l, s); }
  }

  lemma {:induction false} CountSome(es: seq<Entry>, o: nat, l: int, s: int)
    requires Count(es, o, l, s) > 0
    ensures exists k :: 0 <= k < |es| && Holds(es[k], o, l, s)
  {
    if !Holds(es[0], o, l, s) {
      CountSome(es[1..], o, l, s);
      var k :| 0 <= k < |es[1..]| && Holds(es[1..][k], o, l, s);
      assert Holds(es[k + 1], o, l, s);
    }
  }

  /** Two runs that hold the same line count twice. */
  lemma {:induction false} CountTwice(es: seq<Entry>, i: nat, j: nat, o: nat, l: int, s: int)
    requires i < j < |es| && Holds(es[i], o, l, s) && Holds(es[j], o, l, s)
    ensures Count(es, o, l, s) >= 2
  {
    CountOnce(es[i + 1..], j - i - 1, o, l, s);
    assert es == es[..i] + [es[i]] + es[i + 1..];
    CountAppend(es[..i] + [es[i]], es[i + 1..], o, l, s);
    CountPush(es[..i], es[i]);
  }

  lemma {:induction false} CountOnce(es: seq<Entry>, i: nat, o: nat, l: int, s: int)
    requires i < |es| && Holds(es[i], o, l, s)
    ensures Count(es, o, l, s) >= 1
  {
    if i > 0 { CountOnce(es[1..], i - 1, o, l, s); }
  }

  // ---- Splitting and merging ----------------------------------------------

  /** A run in two parts that hold each of its lines once, the second one under
      `suspect`. */
  method SplitAt(entry: Entry, len: nat, suspect: nat) returns (head: Entry, rest: Entry)
    requires 0 < len < entry.num
    ensures head == entry.(num := len)
    ensures rest.suspect == suspect && rest.sLno == entry.sLno + len && rest.num == entry.num - len
    ensures suspect == entry.suspect ==>
              forall o, l, s :: One(entry, o, l, s) == One(head, o, l, s) + One(rest, o, l, s)
  {
    rest := Entry(entry.lno + len, entry.num - len, entry.sLno + len, suspect);
    head := entry.(num := len);
  }

  /** Two lists as one, `a` first where they tie. */
  function Merge(a: seq<Entry>, b: seq<Entry>): seq<Entry> {
    if a == [] then b
    else if b == [] || a[0].sLno <= b[0].sLno then [a[0]] + Merge(a[1..], b)
    else [b[0]] + Merge(a, b[1..])
  }

  method BlameMerge(a: seq<Entry>, b: seq<Entry>) returns (out: seq<Entry>)
    ensures out == Merge(a, b)
  {
    out := [];
    var i, j := 0, 0;
    assert a[0..] == a && b[0..] == b;
    while i < |a| || j < |b|
      invariant 0 <= i <= |a| && 0 <= j <= |b|
      invariant out + Merge(a[i..], b[j..]) == Merge(a, b)
      decreases |a| - i + |b| - j
    {
      var takeA := if i < |a| && j < |b| then a[i].sLno <= b[j].sLno else i < |a|;
      assert i < |a| ==> a[i..][1..] == a[i + 1..];
      assert j < |b| ==> b[j..][1..] == b[j + 1..];
      if takeA {
        out, i := out + [a[i]], i + 1;
      } else {
        assert i == |a| ==> Merge(a[i..], b[j..]) == [b[j]] + Merge(a[i..], b[j + 1..]);
        out, j := out + [b[j]], j + 1;
      }
    }
  }

  lemma {:induction false} MergeCounts(a: seq<Entry>, b: seq<Entry>, o: nat, l: int, s: int)
    ensures Count(Merge(a, b), o, l, s) == Count(a, o, l, s) + Count(b, o, l, s)
    decreases |a| + |b|
  {
    if a == [] {
    } else if b == [] || a[0].sLno <= b[0].sLno {
      MergeCounts(a[1..], b, o, l, s);
      CountAppend([a[0]], Merge(a[1..], b), o, l, s);
    } else {
      MergeCounts(a, b[1..], o, l, s);
      CountAppend([b[0]], Merge(a, b[1..]), o, l, s);
    }
  }

  /** Merging keeps the order, whatever the runs overlap. */
  lemma {:induction false} MergeSorted(a: seq<Entry>, b: seq<Entry>, o: nat, lo: nat)
    requires Sorted(a) && Sorted(b) && From(a, o, lo) && From(b, o, lo)
    ensures Sorted(Merge(a, b)) && From(Merge(a, b), o, lo)
    decreases |a| + |b|
  {
    if a == [] {
    } else if b == [] || a[0].sLno <= b[0].sLno {
      MergeSorted(a[1..], b, o, a[0].sLno);
    } else {
      MergeSorted(a, b[1..], o, b[0].sLno);
    }
  }

  // ---- One hunk -----------------------------------------------------------

  /** The part of `src` that starts before `limit`, cut off there: `heads` are the
      lines before it in order, and `rest` is what is left of the list, its
      straddling tails first. */
  method CutAt(src: seq<Entry>, limit: nat, ghost target: nat, ghost lo: nat)
    returns (heads: seq<Entry>, rest: seq<Entry>)
    requires Sorted(src) && From(src, target, lo) && lo <= limit
    ensures Sorted(heads) && From(heads, target, lo) && Sorted(rest) && From(rest, target, limit)
    ensures forall k :: 0 <= k < |heads| ==> heads[k].sLno + heads[k].num <= limit
    ensures forall l, s :: Count(heads, target, l, s) == if s < limit then Count(src, target, l, s) else 0
    ensures forall l, s :: Count(rest, target, l, s) == if s < limit then 0 else Count(src, target, l, s)
  {
    var straddling;
    heads, straddling, rest := CutHeads(src, limit, target, lo);
    assert forall k :: 0 <= k < |rest| ==> rest[k] == (heads + rest)[|heads| + k];
    assert forall k :: 0 <= k < |heads| ==> heads[k] == (heads + rest)[k];
    CountsAppend(straddling, rest);
    rest := straddling + rest;
    CutCounts(src, heads, rest, limit, target);
  }

  method CutHeads(src: seq<Entry>, limit: nat, ghost target: nat, ghost lo: nat)
    returns (heads: seq<Entry>, straddling: seq<Entry>, rest: seq<Entry>)
    requires Sorted(src) && From(src, target, lo) && lo <= limit
    ensures Sorted(heads + rest) && From(heads + rest, target, lo) && (rest != [] ==> rest[0].sLno >= limit)
    ensures forall k :: 0 <= k < |straddling| ==> straddling[k].sLno == limit
    ensures From(straddling, target, limit)
    ensures forall k :: 0 <= k < |heads| ==> heads[k].sLno + heads[k].num <= limit
    ensures forall l, s ::
              Count(heads, target, l, s) + Count(straddling, target, l, s) + Count(rest, target, l, s) ==
                  Count(src, target, l, s)
  {
    heads, straddling, rest := [], [], src;
    assert heads + rest == src;
    while rest != [] && rest[0].sLno < limit
      invariant Sorted(heads + rest) && From(heads + rest, target, lo)
      invariant forall k :: 0 <= k < |straddling| ==> straddling[k].sLno == limit
      invariant From(straddling, target, limit)
      invariant forall k :: 0 <= k < |heads| ==> heads[k].sLno + heads[k].num <= limit
      invariant forall l, s ::
                  Count(heads, target, l, s) + Count(straddling, target, l, s) + Count(rest, target, l, s)
                  == Count(src, target, l, s)
      decreases |rest|
    {
      var entry := rest[0];
      assert entry == (heads + rest)[|heads|];
      var head;
      head, straddling := CutEntry(entry, limit, straddling);
      CountPush(heads, head);
      CutStep(heads, rest, head);
      heads, rest := heads + [head], rest[1..];
    }
  }

  /** The part of a run that starts before `limit`, its tail kept aside. */
  method CutEntry(entry: Entry, limit: nat, straddling: seq<Entry>) returns (head: Entry, straddling': seq<Entry>)
    requires entry.num > 0 && entry.sLno < limit
    requires forall k :: 0 <= k < |straddling| ==>
               straddling[k].sLno == limit && straddling[k].num > 0 && straddling[k].suspect == entry.suspect
    ensures head.sLno == entry.sLno && head.suspect == entry.suspect && 0 < head.num && head.sLno + head.num <= limit
    ensures forall k :: 0 <= k < |straddling'| ==>
              straddling'[k].sLno == limit && straddling'[k].num > 0 && straddling'[k].suspect == entry.suspect
    ensures forall o, l, s :: One(head, o, l, s) + Count(straddling', o, l, s) ==
              One(entry, o, l, s) + Count(straddling, o, l, s)
  {
    head, straddling' := entry, straddling;
    if entry.sLno + entry.num > limit {
      var tail;
      head, tail := SplitAt(entry, limit - entry.sLno, entry.suspect);
      CountPush(straddling, tail);
      straddling' := straddling + [tail];
    }
  }

  lemma CutStep(heads: seq<Entry>, rest: seq<Entry>, head: Entry)
    requires rest != [] && head.sLno == rest[0].sLno && head.suspect == rest[0].suspect && head.num > 0
    ensures Sorted(heads + rest) ==> Sorted(heads + [head] + rest[1..])
    ensures forall o, lo :: From(heads + rest, o, lo) ==> From(heads + [head] + rest[1..], o, lo)
  {
    var a, b := heads + rest, heads + [head] + rest[1..];
    assert |a| == |b|;
    forall k | 0 <= k < |a| ensures b[k].sLno == a[k].sLno && b[k].suspect == a[k].suspect
      && (a[k].num > 0 ==> b[k].num > 0) {
      if k < |heads| { assert b[k] == a[k]; }
    }
  }

  lemma CountsAppend(a: seq<Entry>, b: seq<Entry>)
    ensures forall o, l, s :: Count(a + b, o, l, s) == Count(a, o, l, s) + Count(b, o, l, s)
  {
    forall o, l, s ensures Count(a + b, o, l, s) == Count(a, o, l, s) + Count(b, o, l, s) {
      CountAppend(a, b, o, l, s);
    }
  }

  lemma CutCounts(src: seq<Entry>, heads: seq<Entry>, rest: seq<Entry>, limit: nat, target: nat)
    requires forall k :: 0 <= k < |heads| ==> heads[k].sLno + heads[k].num <= limit
    requires forall k :: 0 <= k < |rest| ==> rest[k].sLno >= limit
    requires forall l, s :: Count(heads, target, l, s) + Count(rest, target, l, s) == Count(src, target, l, s)
    ensures forall l, s :: Count(heads, target, l, s) == if s < limit then Count(src, target, l, s) else 0
    ensures forall l, s :: Count(rest, target, l, s) == if s < limit then 0 else Count(src, target, l, s)
  {
    forall l, s
      ensures s >= limit ==> Count(heads, target, l, s) == 0
      ensures s < limit ==> Count(rest, target, l, s) == 0
    {
      if s >= limit { CountZero(heads, target, l, s); } else { CountZero(rest, target, l, s); }
    }
  }

  /** Runs moved onto the parent, `offset` lines away. */
  function Rebased(es: seq<Entry>, offset: int, lo: nat, parent: nat): (r: seq<Entry>)
    requires 0 <= lo + offset && (forall k :: 0 <= k < |es| ==> es[k].sLno >= lo)
    ensures |r| == |es|
    ensures forall k :: 0 <= k < |r| ==> r[k] == es[k].(sLno := es[k].sLno + offset, suspect := parent)
  {
    if es == [] then []
    else [es[0].(sLno := es[0].sLno + offset, suspect := parent)] + Rebased(es[1..], offset, lo, parent)
  }

  lemma {:induction false} RebasedCount(es: seq<Entry>, offset: int, lo: nat, parent: nat, target: nat, l: int, s: int)
    requires 0 <= lo + offset && From(es, target, lo)
    ensures Count(Rebased(es, offset, lo, parent), parent, l, s) == Count(es, target, l, s - offset)
  {
    if es != [] {
      RebasedCount(es[1..], offset, lo, parent, target, l, s);
      assert Rebased(es, offset, lo, parent)[1..] == Rebased(es[1..], offset, lo, parent);
    }
  }

  /** One hunk's share of `src`: what is before `tlno` goes to `passed`, `offset` lines
      away, what is in `tlno..same` to `kept`, and what is after stays. The
      requirements on the offset are that it is a signed word, and that it never takes
      a line, none of which is before `lo`, below zero. */
  method BlameChunk(passed: seq<Entry>, src: seq<Entry>, kept: seq<Entry>,
                    tlno: nat, offset: int, same: nat, parent: nat, ghost target: nat, ghost lo: nat)
    returns (passed': seq<Entry>, src': seq<Entry>, kept': seq<Entry>)
    requires lo <= tlno <= same && 0 <= lo + offset && -ISIZE_MAX - 1 <= offset <= ISIZE_MAX
    requires Sorted(src) && From(src, target, lo)
    requires Sorted(passed) && From(passed, parent, 0) && UpTo(passed, lo + offset)
    requires Sorted(kept) && From(kept, target, 0) && UpTo(kept, lo)
    ensures Sorted(src') && From(src', target, same)
    ensures Sorted(passed') && From(passed', parent, 0) && UpTo(passed', tlno + offset)
    ensures Sorted(kept') && From(kept', target, 0) && UpTo(kept', same)
    ensures forall l, s :: Count(src', target, l, s) == if s < same then 0 else Count(src, target, l, s)
    ensures forall l, s :: Count(kept', target, l, s) ==
              Count(kept, target, l, s) + (if tlno <= s < same then Count(src, target, l, s) else 0)
    ensures forall l, x :: Count(passed', parent, l, x) ==
              Count(passed, parent, l, x) + (if x - offset < tlno then Count(src, target, l, x - offset) else 0)
  {
    var heads, rest := CutAt(src, tlno, target, lo);
    var moved := Rebase(heads, offset, parent, lo, target);
    CountsAppend(passed, moved);
    passed' := passed + moved;

    var inside;
    inside, src' := CutAt(rest, same, target, tlno);
    CountsAppend(kept, inside);
    kept' := kept + inside;
  }

  /** Blame the parent for each of `heads`, at its place in the parent's copy. */
  method Rebase(heads: seq<Entry>, offset: int, parent: nat, ghost lo: nat, ghost target: nat)
    returns (moved: seq<Entry>)
    requires 0 <= lo + offset && From(heads, target, lo)
    ensures moved == Rebased(heads, offset, lo, parent)
    ensures forall l, x :: Count(moved, parent, l, x) == Count(heads, target, l, x - offset)
  {
    moved := [];
    for i := 0 to |heads|
      invariant |moved| == i
      invariant forall k :: 0 <= k < i ==> moved[k] == Rebased(heads, offset, lo, parent)[k]
    {
      moved := moved + [heads[i].(sLno := heads[i].sLno + offset, suspect := parent)];
    }
    assert moved == Rebased(heads, offset, lo, parent);
    forall l, x ensures Count(moved, parent, l, x) == Count(heads, target, l, x - offset) {
      RebasedCount(heads, offset, lo, parent, target, l, x);
    }
  }

  ghost predicate UpTo(es: seq<Entry>, limit: int) {
    forall k :: 0 <= k < |es| ==> es[k].sLno <= limit
  }

  // ---- A whole diff -------------------------------------------------------

  /** What a diff must say of `old` and `after`, from line `lo` of `after` on, where
      `offset` is how far apart the two walks are: hunks in order, the offset
      consistent, and every line outside a hunk the same in both. */
  ghost predicate ValidHunks<T>(hunks: seq<Hunk>, offset: int, lo: nat, before: seq<T>, after: seq<T>) {
    if hunks == [] then
      |before| == |after| + offset && lo <= |after| && Common(before, after, lo, |after|, offset)
    else
      var h := hunks[0];
      && lo <= h.afterStart <= h.afterEnd <= |after|
      && h.beforeStart <= h.beforeEnd <= |before|
      && h.beforeStart == h.afterStart + offset
      && Common(before, after, lo, h.afterStart, offset)
      && ValidHunks(hunks[1..], h.beforeEnd - h.afterEnd, h.afterEnd, before, after)
  }

  ghost predicate Common<T>(before: seq<T>, after: seq<T>, from: nat, to: nat, offset: int) {
    forall k :: from <= k < to ==> SameAt(before, after, offset, k)
  }

  ghost predicate SameAt<T>(before: seq<T>, after: seq<T>, offset: int, k: nat) {
    k < |after| && 0 <= k + offset < |before| && before[k + offset] == after[k]
  }

  /** What the diff says of one line: it was changed here, or it is a line of the
      parent's copy. */
  datatype Fate = Keep | Pass(line: int)

  function FateOf(hunks: seq<Hunk>, offset: int, s: int): Fate {
    if hunks == [] || s < hunks[0].afterStart then Pass(s + offset)
    else if s < hunks[0].afterEnd then Keep
    else FateOf(hunks[1..], hunks[0].beforeEnd - hunks[0].afterEnd, s)
  }

  /** The line of the child's copy that line `x` of the parent's became, if any. */
  function Heir(hunks: seq<Hunk>, offset: int, x: int): Fate {
    if hunks == [] || x < hunks[0].beforeStart then Pass(x - offset)
    else if x < hunks[0].beforeEnd then Keep
    else Heir(hunks[1..], hunks[0].beforeEnd - hunks[0].afterEnd, x)
  }

  /** The two directions undo each other: no two lines pass to the same line. */
  lemma {:induction false} FateHeir<T>(hunks: seq<Hunk>, offset: int, lo: nat, before: seq<T>, after: seq<T>, s: int,
                                       x: int)
    requires ValidHunks(hunks, offset, lo, before, after) && lo <= s && lo + offset <= x
    ensures FateOf(hunks, offset, s) == Pass(x) <==> Heir(hunks, offset, x) == Pass(s)
  {
    if hunks != [] {
      var h := hunks[0];
      var off := h.beforeEnd - h.afterEnd;
      if s >= h.afterEnd { FateFrom(hunks[1..], off, h.afterEnd, before, after, s); }
      if x >= h.beforeEnd { HeirFrom(hunks[1..], off, h.afterEnd, before, after, x); }
      if s >= h.afterEnd && x >= h.beforeEnd { FateHeir(hunks[1..], off, h.afterEnd, before, after, s, x); }
    }
  }

  lemma {:induction false} FateFrom<T>(hunks: seq<Hunk>, offset: int, lo: nat, before: seq<T>, after: seq<T>, s: int)
    requires ValidHunks(hunks, offset, lo, before, after) && lo <= s
    ensures FateOf(hunks, offset, s).Pass? ==> FateOf(hunks, offset, s).line >= lo + offset
  {
    if hunks != [] && s >= hunks[0].afterEnd {
      FateFrom(hunks[1..], hunks[0].beforeEnd - hunks[0].afterEnd, hunks[0].afterEnd, before, after, s);
    }
  }

  lemma {:induction false} HeirFrom<T>(hunks: seq<Hunk>, offset: int, lo: nat, before: seq<T>, after: seq<T>, x: int)
    requires ValidHunks(hunks, offset, lo, before, after) && lo + offset <= x
    ensures Heir(hunks, offset, x).Pass? ==> Heir(hunks, offset, x).line >= lo
  {
    if hunks != [] && x >= hunks[0].beforeEnd {
      HeirFrom(hunks[1..], hunks[0].beforeEnd - hunks[0].afterEnd, hunks[0].afterEnd, before, after, x);
    }
  }

  /** A line that passes is the same text in the parent's copy. */
  lemma {:induction false} FateKeepsText<T>(hunks: seq<Hunk>, offset: int, lo: nat, before: seq<T>, after: seq<T>,
                                            s: nat)
    requires ValidHunks(hunks, offset, lo, before, after) && lo <= s < |after|
    ensures var f := FateOf(hunks, offset, s);
            f.Pass? ==> 0 <= f.line < |before| && before[f.line] == after[s]
  {
    if hunks == [] {
      assert SameAt(before, after, offset, s);
    } else if s < hunks[0].afterStart {
      assert SameAt(before, after, offset, s);
    } else if s >= hunks[0].afterEnd {
      FateKeepsText(hunks[1..], hunks[0].beforeEnd - hunks[0].afterEnd, hunks[0].afterEnd, before, after, s);
    }
  }

  /** A line is kept exactly when it lies in the changed part of some hunk. */
  lemma {:induction false} FateKeeps<T>(hunks: seq<Hunk>, offset: int, lo: nat, before: seq<T>, after: seq<T>, s: nat)
    requires ValidHunks(hunks, offset, lo, before, after) && lo <= s
    ensures FateOf(hunks, offset, s) == Keep <==>
            exists k :: 0 <= k < |hunks| && hunks[k].afterStart <= s < hunks[k].afterEnd
  {
    if hunks != [] {
      var h := hunks[0];
      if s >= h.afterEnd {
        FateKeeps(hunks[1..], h.beforeEnd - h.afterEnd, h.afterEnd, before, after, s);
        assert forall k :: 0 <= k < |hunks| - 1 ==> hunks[1..][k] == hunks[k + 1];
      } else {
        HunksAfter(hunks[1..], h.beforeEnd - h.afterEnd, h.afterEnd, before, after);
        forall k | 0 < k < |hunks| ensures hunks[k].afterStart >= h.afterEnd {
          assert hunks[k] == hunks[1..][k - 1];
        }
      }
    }
  }

  lemma {:induction false} HunksAfter<T>(hunks: seq<Hunk>, offset: int, lo: nat, before: seq<T>, after: seq<T>)
    requires ValidHunks(hunks, offset, lo, before, after)
    ensures forall k :: 0 <= k < |hunks| ==> hunks[k].afterStart >= lo
  {
    if hunks != [] {
      HunksAfter(hunks[1..], hunks[0].beforeEnd - hunks[0].afterEnd, hunks[0].afterEnd, before, after);
      forall k | 0 < k < |hunks| ensures hunks[k].afterStart >= lo {
        assert hunks[k] == hunks[1..][k - 1];
      }
    }
  }

  /** How many of `src`'s lines the hunks still to come pass to line `x`. */
  ghost function Passing(hunks: seq<Hunk>, offset: int, src: seq<Entry>, target: nat, l: int, x: int): nat {
    var h := Heir(hunks, offset, x);
    if h.Pass? then Count(src, target, l, h.line) else 0
  }

  ghost function Keeping(hunks: seq<Hunk>, offset: int, src: seq<Entry>, target: nat, l: int, s: int): nat {
    if FateOf(hunks, offset, s) == Keep then Count(src, target, l, s) else 0
  }

  /** Divide `src` between a commit and the parent a diff compares it with. Each
      line goes where the diff says, and nowhere else; both lists stay sorted and
      no run is empty. */
  method Divide<T>(src: seq<Entry>, hunks: seq<Hunk>, parent: nat,
                   ghost target: nat, ghost before: seq<T>, ghost after: seq<T>)
    returns (passed: seq<Entry>, kept: seq<Entry>)
    requires ValidHunks(hunks, 0, 0, before, after) && |before| <= ISIZE_MAX && |after| <= ISIZE_MAX
    requires Sorted(src) && From(src, target, 0)
    requires forall k :: 0 <= k < |src| ==> src[k].sLno + src[k].num <= |after|
    ensures Sorted(passed) && From(passed, parent, 0) && Sorted(kept) && From(kept, target, 0)
    ensures forall l, x :: Count(passed, parent, l, x) == Passing(hunks, 0, src, target, l, x)
    ensures forall l, s :: Count(kept, target, l, s) == Keeping(hunks, 0, src, target, l, s)
    ensures forall k :: 0 <= k < |passed| ==> passed[k].sLno + passed[k].num <= |before|
  {
    passed, kept := [], [];
    var todo := src;
    var offset := 0;
    ghost var lo: nat := 0;
    assert hunks[0..] == hunks;
    LinesBelow(src, target, |after|);
    for i := 0 to |hunks|
      invariant ValidHunks(hunks[i..], offset, lo, before, after)
      invariant Dividing(src, todo, passed, kept, lo, offset, parent, target)
      invariant Balanced(hunks, 0, src, [], [], hunks[i..], offset, todo, passed, kept, target, parent)
    {
      ghost var passed0, todo0, kept0, offset0 := passed, todo, kept, offset;
      passed, todo, kept, offset :=
        DivideHunk(src, passed, todo, kept, hunks[i], offset, parent, target, lo, hunks[i..], before, after);
      assert hunks[i..][1..] == hunks[i + 1..];
      BalancedOn(hunks, 0, src, [], [], hunks[i..], offset0, todo0, passed0, kept0,
                 hunks[i + 1..], offset, todo, passed, kept, target, parent);
      lo := hunks[i].afterEnd;
    }
    assert hunks[|hunks|..] == [];
    ghost var passed0, todo0, kept0 := passed, todo, kept;
    passed, kept := DivideTail(src, passed, todo, kept, offset, parent, target, lo, |after|);
    BalancedOn(hunks, 0, src, [], [], [], offset, todo0, passed0, kept0,
               [], offset, [], passed, kept, target, parent);
    PassedInRange(hunks, src, target, passed, parent, before, after);
  }

  /** Runs passed on lie within the parent's copy: moving a line by the offset neither
      takes it below zero nor wraps round. */
  lemma PassedInRange<T>(hunks: seq<Hunk>, src: seq<Entry>, target: nat, passed: seq<Entry>, parent: nat,
                         before: seq<T>, after: seq<T>)
    requires ValidHunks(hunks, 0, 0, before, after) && From(passed, parent, 0)
    requires forall k :: 0 <= k < |src| ==> src[k].sLno + src[k].num <= |after|
    requires forall l, x :: Count(passed, parent, l, x) == Passing(hunks, 0, src, target, l, x)
    ensures forall k :: 0 <= k < |passed| ==> passed[k].sLno + passed[k].num <= |before|
  {
    forall k | 0 <= k < |passed| ensures passed[k].sLno + passed[k].num <= |before| {
      var l, x := passed[k].lno + passed[k].num - 1, passed[k].sLno + passed[k].num - 1;
      CountOnce(passed, k, parent, l, x);
      var s := Heir(hunks, 0, x).line;
      LinesBelow(src, target, |after|);
      assert Count(src, target, l, s) > 0;
      FateHeir(hunks, 0, 0, before, after, s, x);
      FateKeepsText(hunks, 0, 0, before, after, s);
    }
  }

  /** After the last hunk nothing is kept: each line left over is passed on. */
  method DivideTail(ghost src: seq<Entry>, passed: seq<Entry>, todo: seq<Entry>, kept: seq<Entry>,
                    offset: int, parent: nat, ghost target: nat, ghost lo: nat, ghost n: nat)
    returns (passed': seq<Entry>, kept': seq<Entry>)
    requires lo <= n <= ISIZE_MAX && 0 <= n + offset <= ISIZE_MAX
             && Dividing(src, todo, passed, kept, lo, offset, parent, target)
    requires forall l, s {:trigger Count(src, target, l, s)} :: s < 0 || s >= n ==> Count(src, target, l, s) == 0
    ensures Sorted(passed') && From(passed', parent, 0) && Sorted(kept') && From(kept', target, 0)
    ensures Balanced([], offset, todo, passed, kept, [], offset, [], passed', kept', target, parent)
  {
    var rest;
    passed', rest, kept' := BlameChunk(passed, todo, kept, USIZE_MAX, offset, USIZE_MAX, parent, target, lo);
    DivideEnd(offset, n, src, todo, passed, passed', kept, kept', target, parent, lo);
  }

  /** One hunk of a diff, the first of `rest`. */
  method DivideHunk<T>(ghost src: seq<Entry>, passed: seq<Entry>, todo: seq<Entry>, kept: seq<Entry>,
                       hunk: Hunk, ghost offset: int, parent: nat, ghost target: nat, ghost lo: nat,
                       ghost rest: seq<Hunk>, ghost before: seq<T>, ghost after: seq<T>)
    returns (passed': seq<Entry>, todo': seq<Entry>, kept': seq<Entry>, offset': int)
    requires rest != [] && rest[0] == hunk && ValidHunks(rest, offset, lo, before, after)
    requires |before| <= ISIZE_MAX && |after| <= ISIZE_MAX
    requires Dividing(src, todo, passed, kept, lo, offset, parent, target)
    ensures offset' == hunk.beforeEnd - hunk.afterEnd
    ensures Dividing(src, todo', passed', kept', hunk.afterEnd, offset', parent, target)
    ensures Balanced(rest, offset, todo, passed, kept, rest[1..], offset', todo', passed', kept', target, parent)
  {
    passed', todo', kept' := BlameChunk(passed, todo, kept, hunk.afterStart, hunk.beforeStart - hunk.afterStart,
                                        hunk.afterEnd, parent, target, lo);
    offset' := hunk.beforeEnd - hunk.afterEnd;
    DivideStep(rest, offset, lo, before, after, todo, todo', passed, passed', kept, kept', target, parent);
  }

  lemma BalancedOn(h0: seq<Hunk>, o0: int, t0: seq<Entry>, p0: seq<Entry>, k0: seq<Entry>,
                   h1: seq<Hunk>, o1: int, t1: seq<Entry>, p1: seq<Entry>, k1: seq<Entry>,
                   h2: seq<Hunk>, o2: int, t2: seq<Entry>, p2: seq<Entry>, k2: seq<Entry>,
                   target: nat, parent: nat)
    requires Balanced(h0, o0, t0, p0, k0, h1, o1, t1, p1, k1, target, parent)
    requires Balanced(h1, o1, t1, p1, k1, h2, o2, t2, p2, k2, target, parent)
    ensures Balanced(h0, o0, t0, p0, k0, h2, o2, t2, p2, k2, target, parent)
  {
    forall l, x
      ensures Count(p2, parent, l, x) + Passing(h2, o2, t2, target, l, x)
              == Count(p0, parent, l, x) + Passing(h0, o0, t0, target, l, x)
    {
      assert Count(p1, parent, l, x) >= 0;
    }
    forall l, s
      ensures Count(k2, target, l, s) + Keeping(h2, o2, t2, target, l, s)
              == Count(k0, target, l, s) + Keeping(h0, o0, t0, target, l, s)
    {
      assert Count(k1, target, l, s) >= 0;
    }
  }

  /** What holds between hunks: `todo` is what starts at `lo` or later. */
  ghost predicate Dividing(src: seq<Entry>, todo: seq<Entry>, passed: seq<Entry>, kept: seq<Entry>,
                           lo: nat, offset: int, parent: nat, target: nat)
  {
    && 0 <= lo + offset
    && Sorted(todo) && From(todo, target, lo)
    && Sorted(passed) && From(passed, parent, 0) && UpTo(passed, lo + offset)
    && Sorted(kept) && From(kept, target, 0) && UpTo(kept, lo)
    && forall l, s :: Count(todo, target, l, s) == if s < lo then 0 else Count(src, target, l, s)
  }

  /** No line is lost or gained: what was passed, with what is still to pass, is
      the same before and after; and so for what was kept. */
  ghost predicate Balanced(hunks: seq<Hunk>, offset: int, todo: seq<Entry>, passed: seq<Entry>, kept: seq<Entry>,
                           hunks': seq<Hunk>, offset': int, todo': seq<Entry>, passed': seq<Entry>, kept': seq<Entry>,
                           target: nat, parent: nat)
  {
    && (forall l, x {:trigger Count(passed', parent, l, x)} ::
          Count(passed', parent, l, x) + Passing(hunks', offset', todo', target, l, x)
          == Count(passed, parent, l, x) + Passing(hunks, offset, todo, target, l, x))
    && (forall l, s {:trigger Count(kept', target, l, s)} ::
          Count(kept', target, l, s) + Keeping(hunks', offset', todo', target, l, s)
          == Count(kept, target, l, s) + Keeping(hunks, offset, todo, target, l, s))
  }

  lemma DivideEnd(offset: int, n: nat, src: seq<Entry>, todo: seq<Entry>, passed: seq<Entry>, passed': seq<Entry>,
                  kept: seq<Entry>, kept': seq<Entry>, target: nat, parent: nat, lo: nat)
    requires n <= USIZE_MAX
    requires forall l, s {:trigger Count(src, target, l, s)} :: s < 0 || s >= n ==> Count(src, target, l, s) == 0
    requires forall l, s :: Count(todo, target, l, s) == if s < lo then 0 else Count(src, target, l, s)
    requires forall l, s :: Count(kept', target, l, s) == Count(kept, target, l, s)
    requires forall l, x :: Count(passed', parent, l, x) ==
              Count(passed, parent, l, x) + (if x - offset < USIZE_MAX then Count(todo, target, l, x - offset) else 0)
    ensures Balanced([], offset, todo, passed, kept, [], offset, [], passed', kept', target, parent)
  {
    forall l, x
      ensures Count(passed', parent, l, x) + Passing([], offset, [], target, l, x)
              == Count(passed, parent, l, x) + Passing([], offset, todo, target, l, x)
    {
      assert Count(todo, target, l, x - offset) == if x - offset < lo then 0 else Count(src, target, l, x - offset);
    }
  }

  lemma LinesBelow(src: seq<Entry>, target: nat, n: nat)
    requires forall k :: 0 <= k < |src| ==> src[k].sLno + src[k].num <= n
    ensures forall l, s {:trigger Count(src, target, l, s)} :: s < 0 || s >= n ==> Count(src, target, l, s) == 0
  {
    forall l, s | s < 0 || s >= n ensures Count(src, target, l, s) == 0 { CountZero(src, target, l, s); }
  }

  lemma DivideStep<T>(hunks: seq<Hunk>, offset: int, lo: nat, before: seq<T>, after: seq<T>,
                      todo: seq<Entry>, todo': seq<Entry>, passed: seq<Entry>, passed': seq<Entry>,
                      kept: seq<Entry>, kept': seq<Entry>, target: nat, parent: nat)
    requires hunks != [] && ValidHunks(hunks, offset, lo, before, after)
    requires forall l, s :: s < lo ==> Count(todo, target, l, s) == 0
    requires forall l, s :: Count(todo', target, l, s) == if s < hunks[0].afterEnd then 0 else Count(todo, target, l, s)
    requires forall l, s :: Count(kept', target, l, s) ==
              Count(kept, target, l, s) +
                  (if hunks[0].afterStart <= s < hunks[0].afterEnd then Count(todo, target, l, s) else 0)
    requires forall l, x :: Count(passed', parent, l, x) ==
              Count(passed, parent, l, x) +
                  (if x - offset < hunks[0].afterStart then Count(todo, target, l, x - offset) else 0)
    ensures Balanced(hunks, offset, todo, passed, kept,
                     hunks[1..], hunks[0].beforeEnd - hunks[0].afterEnd, todo', passed', kept', target, parent)
  {
    var h := hunks[0];
    var off := h.beforeEnd - h.afterEnd;
    forall l, x
      ensures Count(passed', parent, l, x) + Passing(hunks[1..], off, todo', target, l, x)
              == Count(passed, parent, l, x) + Passing(hunks, offset, todo, target, l, x)
    {
      if x >= h.beforeEnd {
        HeirFrom(hunks[1..], off, h.afterEnd, before, after, x);
      } else {
        HeirBelow(hunks[1..], off, h.afterEnd, before, after, x);
      }
    }
    forall l, s
      ensures Count(kept', target, l, s) + Keeping(hunks[1..], off, todo', target, l, s)
              == Count(kept, target, l, s) + Keeping(hunks, offset, todo, target, l, s)
    {
    }
  }

  lemma HeirBelow<T>(hunks: seq<Hunk>, offset: int, lo: nat, before: seq<T>, after: seq<T>, x: int)
    requires ValidHunks(hunks, offset, lo, before, after) && x < lo + offset
    ensures Heir(hunks, offset, x) == Pass(x - offset)
  {
  }
}
