/** What an archive holds, said of the tree alone: which ways down from the root lead to
an entry that is listed, and in what order. No stack of attributes files is needed to say it. */
module ArchiveRules {
  import opened Bytes
  import opened Glob
  import opened Wildmatch
  import opened Attributes
  import opened Archive

  // ---- Ways down a tree ---------------------------------------------------

  /** What is at the end of a way, which is the index to take in each directory, one
      after another. The root stands for an entry of its own. */
  function EntryAt(root: Object, w: seq<nat>): TreeEntry {
    if w == [] then TreeEntry([], Subtree, root)
    else
      var up, i := EntryAt(root, w[..|w| - 1]).target, w[|w| - 1];
      if up.Tree? && i < |up.entries| then up.entries[i] else TreeEntry([], Gitlink, Other)
  }

  function Dir(root: Object, w: seq<nat>): Object { EntryAt(root, w).target }

  /** Each step is to an entry, and only from a directory. */
  predicate Way(root: Object, w: seq<nat>) {
    w == [] || (var up := w[..|w| - 1];
                Way(root, up) && Open(root, up) && w[|w| - 1] < |Dir(root, up).entries|)
  }

  /** Does a way lead to a directory's entries? */
  predicate Open(root: Object, w: seq<nat>) {
    EntryAt(root, w).kind == Subtree && Dir(root, w).Tree?
  }

  /** A way's path from the directory that its first `j` steps lead to. */
  function Below(root: Object, w: seq<nat>, j: nat): seq<Byte>
    requires j < |w|
    decreases |w|
  {
    if j == |w| - 1 then EntryAt(root, w).name
    else Below(root, w[..|w| - 1], j) + [SLASH] + EntryAt(root, w).name
  }

  function FullPath(root: Object, prefix: seq<Byte>, w: seq<nat>): seq<Byte> {
    if w == [] then prefix else if prefix == [] then Below(root, w, 0) else prefix + [SLASH] + Below(root, w, 0)
  }

  /** No name is empty, all the way down. */
  ghost predicate Named(tree: Object)
    decreases tree
  {
    tree.Tree? ==> forall i :: 0 <= i < |tree.entries| ==> tree.entries[i].name != [] && Named(tree.entries[i].target)
  }

  // ---- What the attributes files say --------------------------------------

  predicate IsOwnFile(e: TreeEntry) {
    e.name == ToBytes(".gitattributes") && e.kind in {BlobFile, Executable}
  }

  /** The lines of a directory's own attributes file. */
  ghost function Own(parse: Parser, dir: Object): seq<Line> {
    if i :| dir.Tree? && 0 <= i < |dir.entries| && IsOwnFile(dir.entries[i]) && dir.entries[i].target.Blob?
    then parse(dir.entries[i].target.data) else []
  }

  /** What the file in the directory that the first `j` steps lead to says about the
      entry at the end, by its path from there. */
  ghost function Says(parse: Parser, root: Object, w: seq<nat>, j: nat): Option<State>
    requires j < |w|
  {
    FileSays(Own(parse, Dir(root, w[..j])), Below(root, w, j), EntryAt(root, w).kind in {Subtree, Gitlink},
             "export-ignore")
  }

  /** Is the entry at the end left out by the nearest file that says anything? */
  ghost predicate Dropped(parse: Parser, root: Object, w: seq<nat>) {
    exists k: nat :: k < |w| && Says(parse, root, w, k) == Some(Set) &&
      forall i: nat :: k < i < |w| ==> Says(parse, root, w, i) == None
  }

  /** Is nothing on the way, after its first `from` steps, left out? */
  ghost predicate Reached(parse: Parser, root: Object, w: seq<nat>, from: nat) {
    forall n {:trigger Dropped(parse, root, w[..n])} :: from < n <= |w| ==> !Dropped(parse, root, w[..n])
  }

  /** Does one way come before another: is it part of the other, or does it take an
      earlier entry where the two part? */
  ghost predicate Before(v: seq<nat>, w: seq<nat>) {
    || (|v| < |w| && v == w[..|v|])
    || (exists k: nat :: k < |v| && k < |w| && v[..k] == w[..k] && v[k] < w[k])
  }

  /** How an entry is shown. */
  predicate Shows(a: ArchiveEntry, e: TreeEntry, path: seq<Byte>) {
    && a.path == path
    && (a.kind == Directory <==> e.kind in {Subtree, Gitlink})
    && (a.kind == Regular(false) <==> e.kind == BlobFile)
    && (a.kind == Regular(true) <==> e.kind == Executable)
    && (a.kind.Link? <==> e.kind == Symlink)
    && (e.target.Blob? && a.kind.Regular? ==> a.data == e.target.data)
    && (e.target.Blob? && a.kind.Link? ==> a.kind.target == e.target.data)
    && (!a.kind.Regular? ==> a.data == [])
  }

  // ---- Steps --------------------------------------------------------------

  lemma {:induction false} WayUpTo(root: Object, w: seq<nat>, n: nat)
    requires n <= |w| && Way(root, w)
    ensures Way(root, w[..n]) && (n < |w| ==> Open(root, w[..n]))
    decreases |w|
  {
    if n == |w| {
      assert w[..n] == w;
    } else {
      var up := w[..|w| - 1];
      WayUpTo(root, up, n);
      assert up[..n] == w[..n];
      if n == |up| { assert up[..n] == up; }
    }
  }

  lemma StepDown(root: Object, done: seq<nat>, i: nat)
    requires Way(root, done) && Open(root, done) && i < |Dir(root, done).entries|
    ensures Way(root, done + [i]) && EntryAt(root, done + [i]) == Dir(root, done).entries[i]
    ensures Dir(root, done + [i]) == Dir(root, done).entries[i].target
  {
    Onto(root, done, i, done + [i]);
  }

  lemma Onto(root: Object, done: seq<nat>, i: nat, w: seq<nat>)
    requires w == done + [i] && Dir(root, done).Tree? && i < |Dir(root, done).entries|
    ensures EntryAt(root, w) == Dir(root, done).entries[i]
    ensures Way(root, w) <==> Way(root, done) && Open(root, done)
  {
    assert w[..|w| - 1] == done;
  }

  lemma {:induction false} DirOK(root: Object, w: seq<nat>)
    requires Way(root, w) && ValidTree(root) && Named(root)
    ensures ValidTree(Dir(root, w)) && Named(Dir(root, w))
  {
    if w != [] { DirOK(root, w[..|w| - 1]); }
  }

  /** A path from the root is the path to a directory and the path from there. */
  lemma PathFrom(root: Object, prefix: seq<Byte>, w: seq<nat>, j: nat)
    requires j < |w| && (j > 0 ==> Below(root, w[..j], 0) != [])
    ensures var dir, path := FullPath(root, prefix, w[..j]), FullPath(root, prefix, w);
            if dir == [] then path == Below(root, w, j) else path == dir + [SLASH] + Below(root, w, j)
  {
    if j > 0 {
      BelowFrom(root, w, j);
      Regroup(prefix + [SLASH], Below(root, w[..j], 0), Below(root, w, j));
    }
  }

  lemma Regroup(a: seq<Byte>, b: seq<Byte>, c: seq<Byte>)
    ensures a + (b + [SLASH] + c) == (a + b) + [SLASH] + c
  {
  }

  lemma {:induction false} BelowFrom(root: Object, w: seq<nat>, j: nat)
    requires 0 < j < |w|
    ensures Below(root, w, 0) == Below(root, w[..j], 0) + [SLASH] + Below(root, w, j)
    decreases |w|
  {
    var up := w[..|w| - 1];
    if j < |up| {
      BelowFrom(root, up, j);
      assert up[..j] == w[..j];
    }
  }

  lemma {:induction false} BelowNotEmpty(root: Object, w: seq<nat>, j: nat)
    requires j < |w| && Way(root, w) && ValidTree(root) && Named(root)
    ensures Below(root, w, j) != []
  {
    DirOK(root, w[..|w| - 1]);
  }

  /** An entry's path is its name after its directory's path. */
  lemma PathJoins(root: Object, prefix: seq<Byte>, w: seq<nat>)
    requires w != [] && Way(root, w) && ValidTree(root) && Named(root)
    ensures FullPath(root, prefix, w) == Join(FullPath(root, prefix, w[..|w| - 1]), EntryAt(root, w).name)
  {
    var n := |w| - 1;
    if n > 0 { BelowNotEmpty(root, w[..n], 0); }
    PathFrom(root, prefix, w, n);
  }

  // ---- The stack's answer -------------------------------------------------

  /** The stack of files inside the directory at the end of a way. */
  ghost function StackIn(parse: Parser, root: Object, prefix: seq<Byte>, done: seq<nat>): Stack
    requires Way(root, done) && Dir(root, done).Tree?
    decreases |done|, 1
  {
    Inner(parse, Dir(root, done), FullPath(root, prefix, done), Outer(parse, root, prefix, done))
  }

  ghost function Outer(parse: Parser, root: Object, prefix: seq<Byte>, done: seq<nat>): Stack
    requires Way(root, done)
    decreases |done|, 0
  {
    if done == [] then Empty else StackIn(parse, root, prefix, done[..|done| - 1])
  }

  lemma OwnIs(parse: Parser, dir: Object, prefix: seq<Byte>, attrs: Stack)
    requires dir.Tree? && ValidTree(dir)
    ensures Inner(parse, dir, prefix, attrs) ==
            if Own(parse, dir) == [] then attrs
            else Stack.File(Own(parse, dir), if prefix == [] then 0 else |prefix| + 1, attrs)
  {
    var at := AttributesAt(dir.entries, 0);
    if at.Some? {
      assert IsOwnFile(dir.entries[at.value]);
      forall i | 0 <= i < |dir.entries| && IsOwnFile(dir.entries[i]) ensures i == at.value {
        assert dir.entries[i].name == dir.entries[at.value].name;
      }
    } else {
      forall i | 0 <= i < |dir.entries| ensures !IsOwnFile(dir.entries[i]) {
        assert dir.entries[i] == dir.entries[i];
      }
    }
  }

  /** The last of several answers, if any is one. */
  ghost function Nearest(says: seq<Option<State>>): State {
    if says == [] then Unspecified
    else
      var last := says[|says| - 1];
      if last.Some? then last.value else Nearest(says[..|says| - 1])
  }

  lemma {:induction false} NearestSet(says: seq<Option<State>>)
    ensures Nearest(says) == Set <==>
              exists k: nat :: k < |says| && says[k] == Some(Set) && forall i: nat :: k < i < |says| ==> says[i] == None
  {
    if says != [] {
      var n := |says| - 1;
      NearestSet(says[..n]);
      assert forall i :: 0 <= i < n ==> says[..n][i] == says[i];
    }
  }

  /** What the files in the first `j` directories say. */
  ghost function Saying(parse: Parser, root: Object, w: seq<nat>, j: nat): (r: seq<Option<State>>)
    requires j <= |w|
    ensures |r| == j && forall k :: 0 <= k < j ==> r[k] == Says(parse, root, w, k)
  {
    seq(j, k requires 0 <= k < j => Says(parse, root, w, k))
  }

  /** The stack in a directory answers for whatever is below it by the files on the
      way. */
  lemma {:induction false} AnswerIs(parse: Parser, root: Object, prefix: seq<Byte>, w: seq<nat>, j: nat)
    requires j < |w| && Way(root, w) && ValidTree(root) && Named(root)
    requires Way(root, w[..j]) && Dir(root, w[..j]).Tree?
    ensures Answer(StackIn(parse, root, prefix, w[..j]), FullPath(root, prefix, w),
                   EntryAt(root, w).kind in {Subtree, Gitlink}, "export-ignore") ==
            Nearest(Saying(parse, root, w, j + 1))
  {
    if j > 0 {
      WayUpTo(root, w, j - 1);
      assert w[..j][..j - 1] == w[..j - 1];
      AnswerIs(parse, root, prefix, w, j - 1);
      BelowNotEmpty(root, w[..j], 0);
    }
    DirOK(root, w[..j]);
    AnswerNext(parse, root, prefix, w, j, Outer(parse, root, prefix, w[..j]));
  }

  lemma AnswerNext(parse: Parser, root: Object, prefix: seq<Byte>, w: seq<nat>, j: nat, outer: Stack)
    requires j < |w| && Way(root, w) && Dir(root, w[..j]).Tree? && ValidTree(Dir(root, w[..j]))
    requires j > 0 ==> Below(root, w[..j], 0) != []
    requires Answer(outer, FullPath(root, prefix, w), EntryAt(root, w).kind in {Subtree, Gitlink}, "export-ignore") ==
             Nearest(Saying(parse, root, w, j))
    ensures Answer(Inner(parse, Dir(root, w[..j]), FullPath(root, prefix, w[..j]), outer), FullPath(root, prefix, w),
                   EntryAt(root, w).kind in {Subtree, Gitlink}, "export-ignore") ==
            Nearest(Saying(parse, root, w, j + 1))
  {
    var dir, path := FullPath(root, prefix, w[..j]), FullPath(root, prefix, w);
    var lines := Own(parse, Dir(root, w[..j]));
    NearestNext(parse, root, w, j);
    OwnIs(parse, Dir(root, w[..j]), dir, outer);
    PathFrom(root, prefix, w, j);
    OneFile(lines, dir, Below(root, w, j), path, EntryAt(root, w).kind in {Subtree, Gitlink}, outer);
  }

  lemma NearestNext(parse: Parser, root: Object, w: seq<nat>, j: nat)
    requires j < |w|
    ensures Nearest(Saying(parse, root, w, j + 1)) ==
            var says := FileSays(Own(parse, Dir(root, w[..j])), Below(root, w, j),
                                 EntryAt(root, w).kind in {Subtree, Gitlink}, "export-ignore");
            if says.Some? then says.value else Nearest(Saying(parse, root, w, j))
  {
    assert Saying(parse, root, w, j + 1)[..j] == Saying(parse, root, w, j);
  }

  /** A file's base cuts a path where its directory ends. */
  lemma OneFile(lines: seq<Line>, dir: seq<Byte>, rest: seq<Byte>, path: seq<Byte>, isDir: bool, outer: Stack)
    requires if dir == [] then path == rest else path == dir + [SLASH] + rest
    ensures var stack := if lines == [] then outer
                         else Stack.File(lines, if dir == [] then 0 else |dir| + 1, outer);
            var says := FileSays(lines, rest, isDir, "export-ignore");
            Answer(stack, path, isDir, "export-ignore") ==
              if says.Some? then says.value else Answer(outer, path, isDir, "export-ignore")
  {
    var base := if dir == [] then 0 else |dir| + 1;
    assert path[base..] == rest;
  }

  lemma DroppedIs(parse: Parser, root: Object, w: seq<nat>)
    ensures Nearest(Saying(parse, root, w, |w|)) == Set <==> Dropped(parse, root, w)
  {
    var says := Saying(parse, root, w, |w|);
    NearestSet(says);
    if Dropped(parse, root, w) {
      var k: nat :| k < |w| && Says(parse, root, w, k) == Some(Set) &&
        forall i: nat :: k < i < |w| ==> Says(parse, root, w, i) == None;
      assert says[k] == Some(Set) && forall i: nat :: k < i < |w| ==> says[i] == Says(parse, root, w, i);
    }
  }

  lemma IgnoredIs(parse: Parser, root: Object, prefix: seq<Byte>, w: seq<nat>)
    requires w != [] && Way(root, w) && ValidTree(root) && Named(root)
    ensures var done := w[..|w| - 1];
            Ignored(EntryAt(root, w), FullPath(root, prefix, done), StackIn(parse, root, prefix, done)) <==>
              Dropped(parse, root, w)
  {
    PathJoins(root, prefix, w);
    AnswerIs(parse, root, prefix, w, |w| - 1);
    DroppedIs(parse, root, w);
  }

  // ---- The listing --------------------------------------------------------

  /** Does a way go on from `done` by one of the entries from `lo` to `hi`? */
  predicate Onward(root: Object, done: seq<nat>, lo: nat, hi: nat, w: seq<nat>) {
    Way(root, w) && |done| < |w| && w[..|done|] == done && lo <= w[|done|] < hi
  }

  /** The ways that go on so, with nothing on them left out from there on. */
  ghost function Going(parse: Parser, root: Object, done: seq<nat>, lo: nat, hi: nat): seq<nat> -> bool {
    w => Onward(root, done, lo, hi, w) && Reached(parse, root, w, |done|)
  }

  /** Are `ws` the ways there are, in order? */
  ghost predicate Enumerates(ws: seq<seq<nat>>, goes: seq<nat> -> bool) {
    && (forall i :: 0 <= i < |ws| ==> goes(ws[i]))
    && (forall i, j :: 0 <= i < j < |ws| ==> Before(ws[i], ws[j]))
    && (forall w :: goes(w) ==> w in ws)
  }

  /** Does each of `out` show what a way leads to? */
  ghost predicate ShowsAll(ws: seq<seq<nat>>, out: seq<ArchiveEntry>, shows: (ArchiveEntry, seq<nat>) -> bool) {
    |ws| == |out| && forall i :: 0 <= i < |ws| ==> shows(out[i], ws[i])
  }

  ghost function Showing(root: Object, prefix: seq<Byte>): (ArchiveEntry, seq<nat>) -> bool {
    (a, w) => Shows(a, EntryAt(root, w), FullPath(root, prefix, w))
  }

  /** Is what is listed all that there is a way to, in the order of the ways? */
  ghost predicate Shown(goes: seq<nat> -> bool, out: seq<ArchiveEntry>, shows: (ArchiveEntry, seq<nat>) -> bool) {
    exists ws :: Enumerates(ws, goes) && ShowsAll(ws, out, shows)
  }

  ghost predicate Parted(p: seq<nat> -> bool, q: seq<nat> -> bool) {
    forall v, w :: p(v) && q(w) ==> Before(v, w)
  }

  lemma EnumeratesBoth(a: seq<seq<nat>>, b: seq<seq<nat>>, p: seq<nat> -> bool, q: seq<nat> -> bool,
                       r: seq<nat> -> bool)
    requires Enumerates(a, p) && Enumerates(b, q) && Parted(p, q)
    requires forall w :: r(w) <==> p(w) || q(w)
    ensures Enumerates(a + b, r)
  {
    var ws := a + b;
    forall i, j | 0 <= i < j < |ws| ensures Before(ws[i], ws[j]) {
      if i < |a| <= j { assert p(ws[i]) && q(ws[j]); }
    }
  }

  lemma {:induction false} AllShown(parse: Parser, root: Object, prefix: seq<Byte>, done: seq<nat>)
    requires Way(root, done) && Open(root, done) && ValidTree(root) && Named(root)
    ensures Shown(Going(parse, root, done, 0, |Dir(root, done).entries|),
                  Listing(parse, Dir(root, done), FullPath(root, prefix, done), Outer(parse, root, prefix, done)),
                  Showing(root, prefix))
    decreases Dir(root, done), |Dir(root, done).entries| + 1
  {
    var dir, path, inner := Dir(root, done), FullPath(root, prefix, done), StackIn(parse, root, prefix, done);
    var outs := EachListed(parse, dir, path, inner);
    var goes := GoingBy(parse, root, done);
    EachShown(parse, root, prefix, done, outs, goes);
    AllParted(parse, root, done);
    Chain(outs, goes, Showing(root, prefix), |dir.entries|);
    AllFlat(parse, dir, path, inner);
    AnyGoing(parse, root, done, |dir.entries|);
    ShownToo(Any(goes, |dir.entries|), Going(parse, root, done, 0, |dir.entries|), Flat(outs, |dir.entries|),
             Showing(root, prefix));
  }

  /** What each entry of a directory lists. */
  ghost function EachListed(parse: Parser, tree: Object, path: seq<Byte>, inner: Stack): seq<seq<ArchiveEntry>>
    requires tree.Tree?
  {
    seq(|tree.entries|, i requires 0 <= i < |tree.entries| => OneListed(parse, tree.entries[i], path, inner))
  }

  ghost function Flat(outs: seq<seq<ArchiveEntry>>, m: nat): seq<ArchiveEntry>
    requires m <= |outs|
  {
    if m == 0 then [] else Flat(outs, m - 1) + outs[m - 1]
  }

  /** Listing an entry more at a time is listing each and putting them together. */
  lemma {:induction false} FlatIs(outs: seq<seq<ArchiveEntry>>, firsts: seq<seq<ArchiveEntry>>, m: nat)
    requires m <= |outs| == |firsts| - 1 && firsts[0] == []
    requires forall i :: 0 <= i < |outs| ==> firsts[i + 1] == firsts[i] + outs[i]
    ensures Flat(outs, m) == firsts[m]
  {
    if m > 0 {
      FlatIs(outs, firsts, m - 1);
      assert firsts[m - 1 + 1] == firsts[m - 1] + outs[m - 1];
    }
  }

  ghost function Firsts(parse: Parser, tree: Object, path: seq<Byte>, inner: Stack): (r: seq<seq<ArchiveEntry>>)
    requires tree.Tree?
    ensures |r| == |tree.entries| + 1 && r[0] == []
    ensures forall i :: 0 <= i < |r| ==> r[i] == FirstListed(parse, tree, i, path, inner)
  {
    seq(|tree.entries| + 1, i requires 0 <= i <= |tree.entries| => FirstListed(parse, tree, i, path, inner))
  }

  lemma AllFlat(parse: Parser, tree: Object, path: seq<Byte>, inner: Stack)
    requires tree.Tree?
    ensures Flat(EachListed(parse, tree, path, inner), |tree.entries|) ==
            FirstListed(parse, tree, |tree.entries|, path, inner)
  {
    var outs, firsts := EachListed(parse, tree, path, inner), Firsts(parse, tree, path, inner);
    forall i | 0 <= i < |outs| ensures firsts[i + 1] == firsts[i] + outs[i] {
      FirstNext(parse, tree, path, inner, i, firsts[i], firsts[i + 1], outs[i]);
    }
    FlatIs(outs, firsts, |outs|);
  }

  lemma FirstNext(parse: Parser, tree: Object, path: seq<Byte>, inner: Stack, i: nat, first: seq<ArchiveEntry>,
                  next: seq<ArchiveEntry>, out: seq<ArchiveEntry>)
    requires tree.Tree? && i < |tree.entries| && out == OneListed(parse, tree.entries[i], path, inner)
    requires first == FirstListed(parse, tree, i, path, inner) && next == FirstListed(parse, tree, i + 1, path, inner)
    ensures next == first + out
  {
    ListedNext(parse, tree, i, path, inner);
  }

  /** What the first `m` entries of a directory list. */
  ghost function FirstListed(parse: Parser, tree: Object, m: nat, path: seq<Byte>, inner: Stack): seq<ArchiveEntry>
    requires tree.Tree? && m <= |tree.entries|
  {
    var kept := Kept(tree.entries, m, path, inner);
    ListUpTo(parse, tree, kept, |kept|, path, inner)
  }

  /** What one entry lists. */
  ghost function OneListed(parse: Parser, e: TreeEntry, path: seq<Byte>, inner: Stack): seq<ArchiveEntry> {
    if Ignored(e, path, inner) then []
    else
      [Member(e, Join(path, e.name))] +
      if e.kind == Subtree then Listing(parse, e.target, Join(path, e.name), inner) else []
  }

  lemma ListedNext(parse: Parser, tree: Object, m: nat, path: seq<Byte>, inner: Stack)
    requires tree.Tree? && m < |tree.entries|
    ensures FirstListed(parse, tree, m + 1, path, inner) ==
            FirstListed(parse, tree, m, path, inner) + OneListed(parse, tree.entries[m], path, inner)
  {
    if !Ignored(tree.entries[m], path, inner) {
      ListedLast(parse, tree, Kept(tree.entries, m, path, inner), tree.entries[m], path, inner);
    }
  }

  lemma ListedLast(parse: Parser, tree: Object, kept: seq<TreeEntry>, e: TreeEntry, path: seq<Byte>, inner: Stack)
    requires tree.Tree? && (forall x :: x in kept ==> x in tree.entries) && e in tree.entries
    ensures ListUpTo(parse, tree, kept + [e], |kept| + 1, path, inner) ==
            ListUpTo(parse, tree, kept, |kept|, path, inner) + [Member(e, Join(path, e.name))] +
            if e.kind == Subtree then Listing(parse, e.target, Join(path, e.name), inner) else []
  {
    SameListed(parse, tree, kept, kept + [e], |kept|, path, inner);
  }

  lemma {:induction false} SameListed(parse: Parser, tree: Object, a: seq<TreeEntry>, b: seq<TreeEntry>, n: nat,
                                      path: seq<Byte>, inner: Stack)
    requires tree.Tree? && (forall e :: e in a ==> e in tree.entries) && (forall e :: e in b ==> e in tree.entries)
    requires n <= |a| && n <= |b| && a[..n] == b[..n]
    ensures ListUpTo(parse, tree, a, n, path, inner) == ListUpTo(parse, tree, b, n, path, inner)
    decreases n
  {
    if n > 0 {
      assert a[n - 1] == a[..n][n - 1] == b[n - 1];
      assert a[..n - 1] == a[..n][..n - 1] == b[..n - 1];
      SameListed(parse, tree, a, b, n - 1, path, inner);
    }
  }

  /** The ways on by the entry at each index. */
  ghost function GoingBy(parse: Parser, root: Object, done: seq<nat>): nat -> (seq<nat> -> bool) {
    k => Going(parse, root, done, k, k + 1)
  }

  ghost function Any(goes: nat -> (seq<nat> -> bool), m: nat): seq<nat> -> bool {
    w => exists k: nat :: k < m && goes(k)(w)
  }

  lemma {:induction false} EachShown(parse: Parser, root: Object, prefix: seq<Byte>, done: seq<nat>,
                                     outs: seq<seq<ArchiveEntry>>, goes: nat -> (seq<nat> -> bool))
    requires Way(root, done) && Open(root, done) && ValidTree(root) && Named(root)
    requires goes == GoingBy(parse, root, done)
    requires outs == EachListed(parse, Dir(root, done), FullPath(root, prefix, done),
                                StackIn(parse, root, prefix, done))
    ensures forall k :: 0 <= k < |outs| ==> Shown(goes(k), outs[k], Showing(root, prefix))
    decreases Dir(root, done), |outs|
  {
    forall k | 0 <= k < |outs| ensures Shown(goes(k), outs[k], Showing(root, prefix)) {
      OneShown(parse, root, prefix, done, k);
    }
  }

  /** The ways on by the first `m` entries, one after another. */
  lemma {:induction false} Chain(outs: seq<seq<ArchiveEntry>>, goes: nat -> (seq<nat> -> bool),
                                 shows: (ArchiveEntry, seq<nat>) -> bool, m: nat)
    requires m <= |outs| && forall k :: 0 <= k < |outs| ==> Shown(goes(k), outs[k], shows)
    requires forall k: nat, l: nat :: k < l ==> Parted(goes(k), goes(l))
    ensures Shown(Any(goes, m), Flat(outs, m), shows)
  {
    if m == 0 {
      NoneShown(Any(goes, 0), shows);
    } else {
      Chain(outs, goes, shows, m - 1);
      AnyMore(goes, m - 1);
      ShownBoth(Any(goes, m - 1), goes(m - 1), Any(goes, m), Flat(outs, m - 1), outs[m - 1], shows);
    }
  }

  lemma AnyMore(goes: nat -> (seq<nat> -> bool), m: nat)
    requires forall k: nat, l: nat :: k < l ==> Parted(goes(k), goes(l))
    ensures Parted(Any(goes, m), goes(m)) && forall w :: Any(goes, m + 1)(w) <==> Any(goes, m)(w) || goes(m)(w)
  {
  }

  lemma NoneShown(p: seq<nat> -> bool, shows: (ArchiveEntry, seq<nat>) -> bool)
    requires forall w :: !p(w)
    ensures Shown(p, [], shows)
  {
    assert Enumerates([], p) && ShowsAll([], [], shows);
  }

  lemma ShownToo(p: seq<nat> -> bool, q: seq<nat> -> bool, out: seq<ArchiveEntry>,
                 shows: (ArchiveEntry, seq<nat>) -> bool)
    requires Shown(p, out, shows) && forall w :: p(w) <==> q(w)
    ensures Shown(q, out, shows)
  {
    var ws :| Enumerates(ws, p) && ShowsAll(ws, out, shows);
    assert Enumerates(ws, q);
  }

  lemma ShownBoth(p: seq<nat> -> bool, q: seq<nat> -> bool, r: seq<nat> -> bool, x: seq<ArchiveEntry>,
                  y: seq<ArchiveEntry>, shows: (ArchiveEntry, seq<nat>) -> bool)
    requires Shown(p, x, shows) && Shown(q, y, shows) && Parted(p, q) && forall w :: r(w) <==> p(w) || q(w)
    ensures Shown(r, x + y, shows)
  {
    var a :| Enumerates(a, p) && ShowsAll(a, x, shows);
    var b :| Enumerates(b, q) && ShowsAll(b, y, shows);
    EnumeratesBoth(a, b, p, q, r);
    ShowsBoth(a, b, x, y, shows);
  }

  lemma ShowsBoth(a: seq<seq<nat>>, b: seq<seq<nat>>, x: seq<ArchiveEntry>, y: seq<ArchiveEntry>,
                  shows: (ArchiveEntry, seq<nat>) -> bool)
    requires ShowsAll(a, x, shows) && ShowsAll(b, y, shows)
    ensures ShowsAll(a + b, x + y, shows)
  {
  }

  lemma AllParted(parse: Parser, root: Object, done: seq<nat>)
    ensures var goes := GoingBy(parse, root, done);
            forall k: nat, l: nat :: k < l ==> Parted(goes(k), goes(l))
  {
    var goes := GoingBy(parse, root, done);
    forall k: nat, l: nat, v, w | k < l && goes(k)(v) && goes(l)(w) ensures Before(v, w) {
      assert v[..|done|] == w[..|done|] && v[|done|] < w[|done|];
    }
  }

  lemma AnyGoing(parse: Parser, root: Object, done: seq<nat>, m: nat)
    ensures forall w :: Any(GoingBy(parse, root, done), m)(w) <==> Going(parse, root, done, 0, m)(w)
  {
    var goes := GoingBy(parse, root, done);
    forall w ensures Any(goes, m)(w) <==> Going(parse, root, done, 0, m)(w) {
      if Going(parse, root, done, 0, m)(w) { assert goes(w[|done|])(w); }
    }
  }

  /** The ways on by one entry: to it, and below it. */
  lemma {:induction false} OneShown(parse: Parser, root: Object, prefix: seq<Byte>, done: seq<nat>, m: nat)
    requires Way(root, done) && Open(root, done) && ValidTree(root) && Named(root)
    requires m < |Dir(root, done).entries|
    ensures Shown(Going(parse, root, done, m, m + 1),
                  OneListed(parse, Dir(root, done).entries[m], FullPath(root, prefix, done),
                            StackIn(parse, root, prefix, done)), Showing(root, prefix))
    decreases Dir(root, done), m
  {
    var w := done + [m];
    StepDown(root, done, m);
    assert w[..|w| - 1] == done;
    if Dropped(parse, root, w) {
      IgnoredIs(parse, root, prefix, w);
      NoneOn(parse, root, done, m, Showing(root, prefix));
    } else {
      if Open(root, w) {
        AllShown(parse, root, prefix, w);
      }
      KeptShown(parse, root, prefix, done, m, w);
    }
  }

  lemma KeptShown(parse: Parser, root: Object, prefix: seq<Byte>, done: seq<nat>, m: nat, w: seq<nat>)
    requires Way(root, done) && Open(root, done) && ValidTree(root) && Named(root)
    requires m < |Dir(root, done).entries| && w == done + [m] && Way(root, w) && !Dropped(parse, root, w)
    requires EntryAt(root, w) == Dir(root, done).entries[m] && w[..|w| - 1] == done
    requires Open(root, w) ==>
               Shown(Going(parse, root, w, 0, |Dir(root, w).entries|),
                     Listing(parse, Dir(root, w), FullPath(root, prefix, w), Outer(parse, root, prefix, w)),
                     Showing(root, prefix))
    ensures Shown(Going(parse, root, done, m, m + 1),
                  OneListed(parse, EntryAt(root, w), FullPath(root, prefix, done), StackIn(parse, root, prefix, done)),
                  Showing(root, prefix))
  {
    IgnoredIs(parse, root, prefix, w);
    PathJoins(root, prefix, w);
    var e, path := EntryAt(root, w), FullPath(root, prefix, w);
    var out := if e.kind == Subtree then Listing(parse, e.target, path, StackIn(parse, root, prefix, done)) else [];
    ShownOn(parse, root, prefix, done, m, Member(e, path), out);
  }

  /** A way on by an entry ends there or goes on from it. */
  lemma OnwardBy(root: Object, done: seq<nat>, m: nat, v: seq<nat>)
    requires Way(root, done + [m]) && Onward(root, done, m, m + 1, v)
    ensures v == done + [m] || (Open(root, done + [m]) &&
              Onward(root, done + [m], 0, |Dir(root, done + [m]).entries|, v))
  {
    var w := done + [m];
    assert v[..|w|] == w;
    if |v| > |w| {
      WayUpTo(root, v, |w|);
      WayUpTo(root, v, |w| + 1);
      assert v[..|w| + 1][..|w|] == w;
    } else {
      assert v == w;
    }
  }

  lemma ReachedMore(parse: Parser, root: Object, done: seq<nat>, m: nat, v: seq<nat>)
    requires |done| < |v| && v[..|done| + 1] == done + [m]
    ensures Reached(parse, root, v, |done|) <==>
              !Dropped(parse, root, done + [m]) && Reached(parse, root, v, |done| + 1)
  {
  }

  lemma ShownOn(parse: Parser, root: Object, prefix: seq<Byte>, done: seq<nat>, m: nat,
                a: ArchiveEntry, out: seq<ArchiveEntry>)
    requires Way(root, done + [m]) && !Dropped(parse, root, done + [m])
    requires Showing(root, prefix)(a, done + [m])
    requires if Open(root, done + [m])
             then Shown(Going(parse, root, done + [m], 0, |Dir(root, done + [m]).entries|), out, Showing(root, prefix))
             else out == []
    ensures Shown(Going(parse, root, done, m, m + 1), [a] + out, Showing(root, prefix))
  {
    var w := done + [m];
    var p: seq<nat> -> bool := v => v == w;
    var q: seq<nat> -> bool :=
      if Open(root, w) then Going(parse, root, w, 0, |Dir(root, w).entries|) else (v: seq<nat>) => false;
    if !Open(root, w) { NoneShown(q, Showing(root, prefix)); }
    assert Enumerates([w], p) && ShowsAll([w], [a], Showing(root, prefix));
    forall v ensures Going(parse, root, done, m, m + 1)(v) <==> p(v) || q(v) {
      GoingOn(parse, root, done, m, v);
    }
    ShownBoth(p, q, Going(parse, root, done, m, m + 1), [a], out, Showing(root, prefix));
  }

  lemma NoneOn(parse: Parser, root: Object, done: seq<nat>, m: nat, shows: (ArchiveEntry, seq<nat>) -> bool)
    requires Way(root, done + [m]) && Dropped(parse, root, done + [m])
    ensures Shown(Going(parse, root, done, m, m + 1), [], shows)
  {
    forall v | Onward(root, done, m, m + 1, v) ensures !Reached(parse, root, v, |done|) {
      assert v[..|done| + 1] == done + [m];
      ReachedMore(parse, root, done, m, v);
    }
    NoneShown(Going(parse, root, done, m, m + 1), shows);
  }

  lemma GoingOn(parse: Parser, root: Object, done: seq<nat>, m: nat, v: seq<nat>)
    requires Way(root, done + [m]) && !Dropped(parse, root, done + [m])
    ensures var w := done + [m];
            Onward(root, done, m, m + 1, v) && Reached(parse, root, v, |done|) <==>
              v == w || (Open(root, w) && Onward(root, w, 0, |Dir(root, w).entries|, v) &&
                         Reached(parse, root, v, |w|))
  {
    var w := done + [m];
    assert w[..|done|] == done && w[..|w|] == w;
    if |w| < |v| && v[..|w|] == w {
      assert v[..|done|] == v[..|w|][..|done|] == done;
      assert v[|done|] == v[..|w|][|done|];
    }
    if Onward(root, done, m, m + 1, v) {
      OnwardBy(root, done, m, v);
      assert v[..|w|] == w;
      ReachedMore(parse, root, done, m, v);
    }
  }

  // ---- What is in an archive ----------------------------------------------

  /** The listing holds what every way leads to that nothing on is left out of, once
      each and in the order of the trees. */
  lemma ListingIs(parse: Parser, root: Object, prefix: seq<Byte>) returns (ws: seq<seq<nat>>)
    requires root.Tree? && ValidTree(root) && Named(root)
    ensures |ws| == |Listing(parse, root, prefix, Empty)|
    ensures forall i :: 0 <= i < |ws| ==>
              && ws[i] != [] && Way(root, ws[i]) && Reached(parse, root, ws[i], 0)
              && Shows(Listing(parse, root, prefix, Empty)[i], EntryAt(root, ws[i]), FullPath(root, prefix, ws[i]))
    ensures forall i, j :: 0 <= i < j < |ws| ==> Before(ws[i], ws[j])
    ensures forall w :: w != [] && Way(root, w) && Reached(parse, root, w, 0) ==> w in ws
  {
    AllShown(parse, root, prefix, []);
    ws :| Enumerates(ws, Going(parse, root, [], 0, |root.entries|)) &&
      ShowsAll(ws, Listing(parse, root, prefix, Empty), Showing(root, prefix));
    forall w | w != [] && Way(root, w) && Reached(parse, root, w, 0) ensures w in ws {
      WayUpTo(root, w, 1);
      assert w[..1][..0] == [];
      assert Onward(root, [], 0, |root.entries|, w);
    }
  }

  /** An entry that is left out takes with it all that is below it: its path is not in
      the archive, and no path goes through it. */
  lemma NothingBelow(parse: Parser, root: Object, prefix: seq<Byte>, w: seq<nat>, a: ArchiveEntry)
    requires root.Tree? && ValidTree(root) && Named(root) && Plain(root)
    requires w != [] && Way(root, w) && Dropped(parse, root, w) && a in Listing(parse, root, prefix, Empty)
    ensures a.path != FullPath(root, prefix, w) && !(FullPath(root, prefix, w) + [SLASH] <= a.path)
  {
    if a.path == FullPath(root, prefix, w) || FullPath(root, prefix, w) + [SLASH] <= a.path {
      ThroughKept(parse, root, prefix, w, a);
    }
  }

  lemma ThroughKept(parse: Parser, root: Object, prefix: seq<Byte>, w: seq<nat>, a: ArchiveEntry)
    requires root.Tree? && ValidTree(root) && Named(root) && Plain(root)
    requires w != [] && Way(root, w) && a in Listing(parse, root, prefix, Empty)
    requires a.path == FullPath(root, prefix, w) || FullPath(root, prefix, w) + [SLASH] <= a.path
    ensures !Dropped(parse, root, w)
  {
    var v := WayTo(parse, root, prefix, a);
    assert FullPath(root, prefix, w) + [SLASH] <= a.path + [SLASH];
    Within(root, prefix, w, v);
    SameWay(root, w, v);
    assert v[..|w|] == w;
  }

  lemma WayTo(parse: Parser, root: Object, prefix: seq<Byte>, a: ArchiveEntry) returns (v: seq<nat>)
    requires root.Tree? && ValidTree(root) && Named(root) && a in Listing(parse, root, prefix, Empty)
    ensures v != [] && Way(root, v) && Reached(parse, root, v, 0) && a.path == FullPath(root, prefix, v)
  {
    var ws := ListingIs(parse, root, prefix);
    var i :| 0 <= i < |ws| && Listing(parse, root, prefix, Empty)[i] == a;
    v := ws[i];
  }

  /** No name holds a slash, all the way down. */
  ghost predicate Plain(tree: Object)
    decreases tree
  {
    tree.Tree? ==>
      forall i :: 0 <= i < |tree.entries| ==> SLASH !in tree.entries[i].name && Plain(tree.entries[i].target)
  }

  lemma {:induction false} PlainDir(root: Object, w: seq<nat>)
    requires Way(root, w) && Plain(root)
    ensures Plain(Dir(root, w))
  {
    if w != [] { PlainDir(root, w[..|w| - 1]); }
  }

  lemma Within(root: Object, prefix: seq<Byte>, w: seq<nat>, v: seq<nat>)
    requires w != [] && v != [] && FullPath(root, prefix, w) + [SLASH] <= FullPath(root, prefix, v) + [SLASH]
    ensures Below(root, w, 0) + [SLASH] <= Below(root, v, 0) + [SLASH]
  {
    if prefix != [] { Inside(prefix + [SLASH], Below(root, w, 0), Below(root, v, 0)); }
  }

  lemma Inside(p: seq<Byte>, a: seq<Byte>, b: seq<Byte>)
    ensures p + a + [SLASH] <= p + b + [SLASH] ==> a + [SLASH] <= b + [SLASH]
  {
    assert p + a + [SLASH] == p + (a + [SLASH]) && p + b + [SLASH] == p + (b + [SLASH]);
    Dropping(p, a + [SLASH], b + [SLASH]);
  }

  lemma Dropping(p: seq<Byte>, a: seq<Byte>, b: seq<Byte>)
    ensures p + a <= p + b ==> a <= b
  {
    if p + a <= p + b {
      assert (p + a)[|p|..] == a && (p + b)[|p|..] == b;
      assert (p + b)[..|p + a|][|p|..] == b[..|a|];
    }
  }

  /** A path begins with its first name and a slash, if more follows. */
  lemma {:induction false} FirstName(root: Object, v: seq<nat>, j: nat)
    requires j < |v|
    ensures EntryAt(root, v[..j + 1]).name + [SLASH] <= Below(root, v, j) + [SLASH]
    decreases |v|
  {
    if j == |v| - 1 {
      assert v[..j + 1] == v;
    } else {
      var up := v[..|v| - 1];
      FirstName(root, up, j);
      assert up[..j + 1] == v[..j + 1];
      assert Below(root, v, j) + [SLASH] == Below(root, up, j) + [SLASH] + (EntryAt(root, v).name + [SLASH]);
    }
  }

  lemma SameName(a: seq<Byte>, b: seq<Byte>, s: seq<Byte>)
    requires SLASH !in a && SLASH !in b && a + [SLASH] <= s && b + [SLASH] <= s
    ensures a == b
  {
    assert forall k :: 0 <= k <= |a| ==> s[k] == (a + [SLASH])[k];
    assert forall k :: 0 <= k <= |b| ==> s[k] == (b + [SLASH])[k];
    assert s[|a|] == SLASH && s[|b|] == SLASH;
    assert a == s[..|a|] && b == s[..|b|];
  }

  /** A path within another is that of the way's first steps. */
  lemma {:induction false} SameWay(root: Object, w: seq<nat>, v: seq<nat>)
    requires ValidTree(root) && Named(root) && Plain(root) && w != [] && v != [] && Way(root, w) && Way(root, v)
    requires Below(root, w, 0) + [SLASH] <= Below(root, v, 0) + [SLASH]
    ensures w <= v
    decreases |w|
  {
    var n := |w| - 1;
    var up, name := w[..n], EntryAt(root, w).name;
    if n > 0 {
      var dir := Below(root, up, 0) + [SLASH];
      assert Below(root, w, 0) + [SLASH] == dir + (name + [SLASH]);
      SameWay(root, up, v);
      SameLength(up, v);
      assert v[..n] == up;
      BelowFrom(root, v, n);
      assert Below(root, v, 0) + [SLASH] == dir + (Below(root, v, n) + [SLASH]);
      Dropping(dir, name + [SLASH], Below(root, v, n) + [SLASH]);
    }
    SameStep(root, up, w[n], v);
    assert w == up + [w[n]] && v[..n + 1] == v[..n] + [v[n]];
  }

  lemma SameLength(up: seq<nat>, v: seq<nat>)
    requires up <= v
    ensures |v| == |up| ==> v == up
  {
  }

  lemma SameStep(root: Object, up: seq<nat>, i: nat, v: seq<nat>)
    requires ValidTree(root) && Named(root) && Plain(root) && Way(root, up) && Way(root, v)
    requires |up| < |v| && v[..|up|] == up && Dir(root, up).Tree? && i < |Dir(root, up).entries|
    requires Dir(root, up).entries[i].name + [SLASH] <= Below(root, v, |up|) + [SLASH]
    ensures v[|up|] == i
  {
    FirstName(root, v, |up|);
    StepAt(root, v, |up|);
    DirOK(root, up);
    PlainDir(root, up);
    SameIndex(Dir(root, up), i, v[|up|], Below(root, v, |up|) + [SLASH]);
  }

  lemma StepAt(root: Object, v: seq<nat>, n: nat)
    requires n < |v| && Way(root, v)
    ensures Dir(root, v[..n]).Tree? && v[n] < |Dir(root, v[..n]).entries|
    ensures EntryAt(root, v[..n + 1]) == Dir(root, v[..n]).entries[v[n]]
  {
    WayUpTo(root, v, n + 1);
    assert v[..n + 1][..n] == v[..n];
  }

  /** In a directory only one entry begins a path. */
  lemma SameIndex(dir: Object, i: nat, j: nat, path: seq<Byte>)
    requires dir.Tree? && ValidTree(dir) && Plain(dir) && i < |dir.entries| && j < |dir.entries|
    requires dir.entries[i].name + [SLASH] <= path && dir.entries[j].name + [SLASH] <= path
    ensures i == j
  {
    SameName(dir.entries[i].name, dir.entries[j].name, path);
  }
}
