/** What an archive of a tree holds: a plain depth-first listing that leaves out
whatever the inherited attributes mark `export-ignore`. Nothing here fetches. */
module Archive {
  import opened Bytes
  import opened Glob
  import opened Wildmatch
  import opened Attributes

  const MAX_ARCHIVE_BYTES: nat := 256 * 1024 * 1024

  /** An object stands for its id: objects are named by their content. */
  datatype Object = Tree(entries: seq<TreeEntry>) | Blob(data: seq<Byte>) | Other
  datatype Kind = Subtree | BlobFile | Executable | Symlink | Gitlink
  datatype TreeEntry = TreeEntry(name: seq<Byte>, kind: Kind, target: Object)

  datatype EntryKind = Directory | Regular(executable: bool) | Link(target: seq<Byte>)
  datatype ArchiveEntry = ArchiveEntry(path: seq<Byte>, kind: EntryKind, data: seq<Byte>)

  /** How the text of an attributes file reads. */
  type Parser = seq<Byte> -> seq<Line>

  function GitAttributes(): seq<Byte> { ToBytes(".gitattributes") }

  function Join(prefix: seq<Byte>, name: seq<Byte>): seq<Byte> {
    if prefix == [] then name else prefix + [SLASH] + name
  }

  predicate IsDir(kind: Kind) { kind == Subtree || kind == Gitlink }

  ghost predicate Ignored(e: TreeEntry, prefix: seq<Byte>, attrs: Stack) {
    Answer(attrs, Join(prefix, e.name), IsDir(e.kind), "export-ignore") == Set
  }

  /** The first entry that is an attributes file, not a link to one. */
  function AttributesAt(entries: seq<TreeEntry>, i: nat): (r: Option<nat>)
    requires i <= |entries|
    ensures r.Some? ==> i <= r.value < |entries| && entries[r.value].name == GitAttributes()
                        && entries[r.value].kind in {BlobFile, Executable}
    ensures r.None? ==> forall k :: i <= k < |entries| ==>
                          !(entries[k].name == GitAttributes() && entries[k].kind in {BlobFile, Executable})
    decreases |entries| - i
  {
    if i == |entries| then None
    else if entries[i].name == GitAttributes() && entries[i].kind in {BlobFile, Executable} then Some(i)
    else AttributesAt(entries, i + 1)
  }

  function PushFile(attrs: Stack, prefix: seq<Byte>, lines: seq<Line>): Stack {
    if lines == [] then attrs else Stack.File(lines, if prefix == [] then 0 else |prefix| + 1, attrs)
  }

  /** The attributes that apply inside a directory: its own file before those it
      inherits. */
  function Inner(parse: Parser, tree: Object, prefix: seq<Byte>, attrs: Stack): Stack
    requires tree.Tree?
  {
    var at := AttributesAt(tree.entries, 0);
    if at.Some? && tree.entries[at.value].target.Blob?
    then PushFile(attrs, prefix, parse(tree.entries[at.value].target.data)) else attrs
  }

  /** The first `n` entries, less the ignored ones. */
  ghost function Kept(entries: seq<TreeEntry>, n: nat, prefix: seq<Byte>, attrs: Stack): (r: seq<TreeEntry>)
    requires n <= |entries|
    ensures forall e :: e in r ==> e in entries && !Ignored(e, prefix, attrs)
  {
    if n == 0 then []
    else
      var before := Kept(entries, n - 1, prefix, attrs);
      if Ignored(entries[n - 1], prefix, attrs) then before else before + [entries[n - 1]]
  }

  ghost function KeptAll(parse: Parser, tree: Object, prefix: seq<Byte>, attrs: Stack): (r: seq<TreeEntry>)
    requires tree.Tree?
    ensures forall e :: e in r ==> e in tree.entries
  {
    Kept(tree.entries, |tree.entries|, prefix, Inner(parse, tree, prefix, attrs))
  }

  // ---- The listing --------------------------------------------------------

  /** The entries kept below a directory. Each comes before whatever is inside it, and
      no two change places. */
  ghost function Listing(parse: Parser, tree: Object, prefix: seq<Byte>, attrs: Stack): seq<ArchiveEntry>
    decreases tree, 1
  {
    if !tree.Tree? then []
    else
      var kept := KeptAll(parse, tree, prefix, attrs);
      ListUpTo(parse, tree, kept, |kept|, prefix, Inner(parse, tree, prefix, attrs))
  }

  ghost function ListUpTo(parse: Parser, tree: Object, kept: seq<TreeEntry>, n: nat,
                          prefix: seq<Byte>, inner: Stack): seq<ArchiveEntry>
    requires tree.Tree? && n <= |kept| && (forall e :: e in kept ==> e in tree.entries)
    decreases tree, 0, n
  {
    if n == 0 then []
    else
      var e := kept[n - 1];
      assert e in tree.entries;
      var path := Join(prefix, e.name);
      ListUpTo(parse, tree, kept, n - 1, prefix, inner) +
      [Member(e, path)] + (if e.kind == Subtree then Listing(parse, e.target, path, inner) else [])
  }

  /** The archive's own entry for a tree entry. */
  function Member(e: TreeEntry, path: seq<Byte>): ArchiveEntry {
    match e.kind
    case Subtree => ArchiveEntry(path, Directory, [])
    case Gitlink => ArchiveEntry(path, Directory, [])
    case Symlink => ArchiveEntry(path, Link(Data(e.target)), [])
    case BlobFile => ArchiveEntry(path, Regular(false), Data(e.target))
    case Executable => ArchiveEntry(path, Regular(true), Data(e.target))
  }

  function Data(o: Object): seq<Byte> { if o.Blob? then o.data else [] }

  /** Every object the archive needs is what its tree entry says it is. */
  ghost predicate Typed(parse: Parser, tree: Object, prefix: seq<Byte>, attrs: Stack)
    decreases tree
  {
    && tree.Tree?
    && (var at := AttributesAt(tree.entries, 0); at.Some? ==> tree.entries[at.value].target.Blob?)
    && (forall e :: e in KeptAll(parse, tree, prefix, attrs) ==>
          && (e.kind == Subtree ==> Typed(parse, e.target, Join(prefix, e.name), Inner(parse, tree, prefix, attrs)))
          && (!IsDir(e.kind) ==> e.target.Blob?))
  }

  /** What a directory costs to archive: the directories in it and itself, or the
      bytes of the blobs in it. */
  ghost function Cost(dirs: bool, parse: Parser, tree: Object, prefix: seq<Byte>, attrs: Stack): nat
    decreases tree, 1
  {
    var here := if dirs then 1 else 0;
    if !tree.Tree? then here
    else
      var kept := KeptAll(parse, tree, prefix, attrs);
      here + CostFrom(dirs, parse, tree, kept, 0, prefix, Inner(parse, tree, prefix, attrs))
  }

  ghost function CostFrom(dirs: bool, parse: Parser, tree: Object, kept: seq<TreeEntry>, i: nat,
                          prefix: seq<Byte>, inner: Stack): nat
    requires tree.Tree? && i <= |kept| && (forall e :: e in kept ==> e in tree.entries)
    decreases tree, 0, |kept| - i
  {
    if i == |kept| then 0
    else
      assert kept[i] in tree.entries;
      (if kept[i].kind == Subtree then Cost(dirs, parse, kept[i].target, Join(prefix, kept[i].name), inner)
       else LeafCost(dirs, kept[i]))
      + CostFrom(dirs, parse, tree, kept, i + 1, prefix, inner)
  }

  function LeafCost(dirs: bool, e: TreeEntry): nat {
    if dirs || IsDir(e.kind) then 0 else |Data(e.target)|
  }

  lemma MemberBytes(e: TreeEntry, path: seq<Byte>)
    ensures ListedBytes([Member(e, path)]) == LeafCost(false, e)
  {
    assert [Member(e, path)][..0] == [];
  }

  /** The bytes of every blob archived. */
  ghost function TotalBytes(parse: Parser, tree: Object, prefix: seq<Byte>, attrs: Stack): nat {
    Cost(false, parse, tree, prefix, attrs)
  }

  /** The bytes counted are those the listing holds. */
  ghost function ListedBytes(es: seq<ArchiveEntry>): nat {
    if es == [] then 0
    else
      var last := es[|es| - 1];
      ListedBytes(es[..|es| - 1]) + |last.data| + if last.kind.Link? then |last.kind.target| else 0
  }

  lemma {:induction false} ListedBytesAppend(a: seq<ArchiveEntry>, b: seq<ArchiveEntry>)
    ensures ListedBytes(a + b) == ListedBytes(a) + ListedBytes(b)
  {
    if b == [] {
      assert a + b == a;
    } else {
      assert (a + b)[..|a + b| - 1] == a + b[..|b| - 1];
      ListedBytesAppend(a, b[..|b| - 1]);
    }
  }

  lemma {:induction false} BytesAreListed(parse: Parser, tree: Object, prefix: seq<Byte>, attrs: Stack)
    ensures TotalBytes(parse, tree, prefix, attrs) == ListedBytes(Listing(parse, tree, prefix, attrs))
    decreases tree, 2
  {
    if tree.Tree? {
      var kept, inner := KeptAll(parse, tree, prefix, attrs), Inner(parse, tree, prefix, attrs);
      var at := BytesAt(parse, tree, kept, prefix, inner);
      BytesUpTo(parse, tree, kept, prefix, inner, at);
    }
  }

  /** What the first so many entries list, with what the rest cost. */
  ghost function BytesAt(parse: Parser, tree: Object, kept: seq<TreeEntry>, prefix: seq<Byte>,
                         inner: Stack): (at: seq<nat>)
    requires tree.Tree? && (forall e :: e in kept ==> e in tree.entries)
    ensures Balances(parse, tree, kept, prefix, inner, at)
  {
    seq(|kept| + 1, n requires 0 <= n <= |kept| =>
      CostFrom(false, parse, tree, kept, n, prefix, inner) + ListedBytes(ListUpTo(parse, tree, kept, n, prefix, inner)))
  }

  ghost predicate Balances(parse: Parser, tree: Object, kept: seq<TreeEntry>, prefix: seq<Byte>, inner: Stack,
                           at: seq<nat>)
    requires tree.Tree? && (forall e :: e in kept ==> e in tree.entries)
  {
    && |at| == |kept| + 1
    && forall n {:trigger CostFrom(false, parse, tree, kept, n, prefix, inner)} :: 0 <= n <= |kept| ==>
         at[n] == CostFrom(false, parse, tree, kept, n, prefix, inner) +
             ListedBytes(ListUpTo(parse, tree, kept, n, prefix, inner))
  }

  lemma {:induction false} BytesUpTo(parse: Parser, tree: Object, kept: seq<TreeEntry>, prefix: seq<Byte>,
                                     inner: Stack, at: seq<nat>)
    requires tree.Tree? && (forall e :: e in kept ==> e in tree.entries)
             && Balances(parse, tree, kept, prefix, inner, at)
    ensures CostFrom(false, parse, tree, kept, 0, prefix, inner) ==
              ListedBytes(ListUpTo(parse, tree, kept, |kept|, prefix, inner))
    decreases tree, 1
  {
    forall n | 0 < n <= |kept| ensures at[n - 1] == at[n] {
      BytesStep(parse, tree, kept, n, prefix, inner);
    }
    Steady(at, |kept|);
    BytesEnds(parse, tree, kept, prefix, inner, at);
  }

  lemma BytesEnds(parse: Parser, tree: Object, kept: seq<TreeEntry>, prefix: seq<Byte>, inner: Stack, at: seq<nat>)
    requires tree.Tree? && (forall e :: e in kept ==> e in tree.entries)
             && Balances(parse, tree, kept, prefix, inner, at)
    ensures at[0] == CostFrom(false, parse, tree, kept, 0, prefix, inner)
    ensures at[|kept|] == ListedBytes(ListUpTo(parse, tree, kept, |kept|, prefix, inner))
  {
    assert CostFrom(false, parse, tree, kept, |kept|, prefix, inner) == 0;
  }

  lemma {:induction false} Steady(s: seq<nat>, n: nat)
    requires n < |s| && forall k :: 0 < k < |s| ==> s[k - 1] == s[k]
    ensures s[0] == s[n]
  {
    if n > 0 { Steady(s, n - 1); }
  }

  lemma {:induction false} BytesStep(parse: Parser, tree: Object, kept: seq<TreeEntry>, n: nat, prefix: seq<Byte>,
                                     inner: Stack)
    requires tree.Tree? && 0 < n <= |kept| && (forall e :: e in kept ==> e in tree.entries)
    ensures CostFrom(false, parse, tree, kept, n - 1, prefix, inner) +
              ListedBytes(ListUpTo(parse, tree, kept, n - 1, prefix, inner)) ==
            CostFrom(false, parse, tree, kept, n, prefix, inner) +
                ListedBytes(ListUpTo(parse, tree, kept, n, prefix, inner))
    decreases tree, 0
  {
    var e := kept[n - 1];
    assert e in tree.entries;
    if e.kind == Subtree { BytesAreListed(parse, e.target, Join(prefix, e.name), inner); }
    BytesNext(parse, tree, kept, n, prefix, inner);
  }

  lemma BytesNext(parse: Parser, tree: Object, kept: seq<TreeEntry>, n: nat, prefix: seq<Byte>, inner: Stack)
    requires tree.Tree? && 0 < n <= |kept| && (forall e :: e in kept ==> e in tree.entries)
    requires var e := kept[n - 1]; e.kind == Subtree ==>
               TotalBytes(parse, e.target, Join(prefix, e.name), inner) ==
                   ListedBytes(Listing(parse, e.target, Join(prefix, e.name), inner))
    ensures CostFrom(false, parse, tree, kept, n - 1, prefix, inner) +
              ListedBytes(ListUpTo(parse, tree, kept, n - 1, prefix, inner)) ==
            CostFrom(false, parse, tree, kept, n, prefix, inner) +
                ListedBytes(ListUpTo(parse, tree, kept, n, prefix, inner))
  {
    ListNext(parse, tree, kept, n, prefix, inner);
    CostStep(parse, tree, kept, n - 1, prefix, inner);
  }

  lemma CostStep(parse: Parser, tree: Object, kept: seq<TreeEntry>, i: nat, prefix: seq<Byte>, inner: Stack)
    requires tree.Tree? && i < |kept| && (forall e :: e in kept ==> e in tree.entries)
    ensures var e := kept[i];
            CostFrom(false, parse, tree, kept, i, prefix, inner) ==
                CostFrom(false, parse, tree, kept, i + 1, prefix, inner) +
            if e.kind == Subtree then TotalBytes(parse, e.target, Join(prefix, e.name), inner) else LeafCost(false, e)
  {
  }

  lemma ListNext(parse: Parser, tree: Object, kept: seq<TreeEntry>, n: nat, prefix: seq<Byte>, inner: Stack)
    requires tree.Tree? && 0 < n <= |kept| && (forall e :: e in kept ==> e in tree.entries)
    ensures var e := kept[n - 1];
            ListedBytes(ListUpTo(parse, tree, kept, n, prefix, inner)) ==
            ListedBytes(ListUpTo(parse, tree, kept, n - 1, prefix, inner)) +
            (if e.kind == Subtree then ListedBytes(Listing(parse, e.target, Join(prefix, e.name), inner))
             else LeafCost(false, e))
  {
    var e := kept[n - 1];
    assert e in tree.entries;
    var path := Join(prefix, e.name);
    var before := ListUpTo(parse, tree, kept, n - 1, prefix, inner);
    var below := if e.kind == Subtree then Listing(parse, e.target, path, inner) else [];
    ListedBytesAppend(before, [Member(e, path)]);
    ListedBytesAppend(before + [Member(e, path)], below);
    MemberBytes(e, path);
  }

  /** Names within a tree are unique and hold no NUL, all the way down. */
  ghost predicate ValidTree(tree: Object)
    decreases tree
  {
    tree.Tree? ==>
      && (forall i :: 0 <= i < |tree.entries| ==> NulFree(tree.entries[i].name) && ValidTree(tree.entries[i].target))
      && (forall i, j :: 0 <= i < j < |tree.entries| ==> tree.entries[i].name != tree.entries[j].name)
  }
}
