/** The URL grammar: the hash that names a route, and the route a hash names. What is
printed is read back as the same route, with a line anchor after it or without. */
module Route {
  import opened Bytes
  import opened UrlText

  const PAGE_SIZE: nat := 50

  type Text = seq<Byte>

  datatype Format = TarGz | Bundle
  datatype RefsRoute = AllRefs | Heads | Tags | TagNamed(name: Text)
  datatype Whitespace = Significant | Ignore | IgnoreChange | IgnoreEol
  datatype DiffView = DiffView(context: Option<nat>, whitespace: Whitespace, statOnly: bool, sideBySide: bool)

  datatype Route =
    | About | Readme | Summary
    | Log(offset: nat, head: Option<Text>, path: Text, showMessage: bool)
    | CommitHead(view: DiffView)
    | Commit(sha: Text, view: DiffView)
    | Refs(refs: RefsRoute)
    | Tree(path: Text, head: Option<Text>, render: bool)
    | Blame(path: Text, head: Option<Text>)
    | Snapshot(head: Option<Text>, format: Format)

  // ---- Reading ------------------------------------------------------------

  /** A literal's bytes. */
  function Raw(s: string): Text {
    seq(|s|, k requires 0 <= k < |s| => if s[k] as int < 256 then s[k] as int else 0)
  }

  predicate Starts(s: Text, prefix: string) {
    |prefix| <= |s| && forall k :: 0 <= k < |prefix| ==> s[k] == prefix[k] as int
  }

  /** What follows `prefix`, if it starts `s`. */
  function Strip(s: Text, prefix: string): Option<Text> {
    if Starts(s, prefix) then Some(s[|prefix|..]) else None
  }

  /** What follows a name that starts the hash, if it is nothing or opens with one of
      `seps`. */
  function StripRoute(hash: Text, prefix: string, seps: seq<Byte>): Option<Text> {
    var rest := Strip(hash, prefix);
    if rest.Some? && (rest.value == [] || rest.value[0] in seps) then rest else None
  }

  function TrimSlashes(s: Text): Text {
    if s != [] && s[0] == SLASH then TrimSlashes(s[1..]) else s
  }

  /** What is before the first `?`, and what is after it. */
  function CutQuery(s: Text): (r: (Text, Option<Text>)) {
    if s == [] then ([], None)
    else if s[0] == QUERY then ([], Some(s[1..]))
    else
      var rest := CutQuery(s[1..]);
      ([s[0]] + rest.0, rest.1)
  }

  /** The value of the first part that starts with `key`. */
  function FirstValue(parts: seq<Text>, key: string): Option<Text> {
    if parts == [] then None
    else if Starts(parts[0], key) then Strip(parts[0], key)
    else FirstValue(parts[1..], key)
  }

  function HeadOf(parts: seq<Text>): Option<Text> {
    var v := FirstValue(parts, "h=");
    if v.None? || v.value == [] then None else Some(DecodeComponent(v.value))
  }

  /** `render=1` decides if it is there; otherwise the last `display=` does. */
  function RenderOf(parts: seq<Text>, display: bool): bool {
    if parts == [] then display
    else if Starts(parts[0], "render=") then IsText(Strip(parts[0], "render=").value, "1")
    else if Starts(parts[0], "display=")
         then RenderOf(parts[1..], IsText(Strip(parts[0], "display=").value, "rendered"))
    else RenderOf(parts[1..], display)
  }

  method ParseRender(query: Text) returns (r: bool)
    ensures r == RenderOf(Split(query, AMP), false)
  {
    var parts, display := Split(query, AMP), false;
    var i := 0;
    while i < |parts|
      invariant 0 <= i <= |parts| && RenderOf(parts[i..], display) == RenderOf(parts, false)
      decreases |parts| - i
    {
      assert parts[i..][1..] == parts[i + 1..];
      if Starts(parts[i], "render=") {
        return IsText(Strip(parts[i], "render=").value, "1");
      }
      if Starts(parts[i], "display=") {
        display := IsText(Strip(parts[i], "display=").value, "rendered");
      }
      i := i + 1;
    }
    r := display;
  }

  function FormatOf(parts: seq<Text>): Format {
    var v := FirstValue(parts, "format=");
    if v.Some? && IsText(v.value, "bundle") then Bundle else TarGz
  }

  /** A log's query so far: the last of each parameter wins. */
  datatype LogQuery = LogQuery(offset: Option<nat>, page: Option<nat>, head: Option<Text>, showMessage: bool)

  function LogPart(q: LogQuery, part: Text): LogQuery {
    if Starts(part, "offset=") then
      var n := ParseNumber(Strip(part, "offset=").value);
      q.(offset := Some(if n.Some? then n.value else 0))
    else if Starts(part, "page=") then
      var n := ParseNumber(Strip(part, "page=").value);
      q.(page := if n.Some? && n.value > 0 then n else None)
    else if Starts(part, "h=") && Strip(part, "h=").value != [] then
      q.(head := Some(DecodeComponent(Strip(part, "h=").value)))
    else if IsText(part, "showmsg=1") then q.(showMessage := true)
    else q
  }

  function LogParts(q: LogQuery, parts: seq<Text>): LogQuery
    decreases parts
  {
    if parts == [] then q else LogParts(LogPart(q, parts[0]), parts[1..])
  }

  method ParseLogQuery(query: Text) returns (q: LogQuery)
    ensures q == LogParts(LogQuery(None, None, None, false), Split(query, AMP))
  {
    var parts := Split(query, AMP);
    q := LogQuery(None, None, None, false);
    var i := 0;
    while i < |parts|
      invariant 0 <= i <= |parts|
      invariant LogParts(q, parts[i..]) == LogParts(LogQuery(None, None, None, false), parts)
      decreases |parts| - i
    {
      assert parts[i..][1..] == parts[i + 1..];
      q := LogPart(q, parts[i]);
      i := i + 1;
    }
  }

  function OffsetOf(q: LogQuery): nat {
    if q.offset.Some? then q.offset.value
    else if q.page.Some? && q.page.value > 0 then
      var n := (q.page.value - 1) * PAGE_SIZE;
      if n < WORD then n else WORD - 1
    else 0
  }

  const CONTEXT_DEFAULT: nat := 3
  const CONTEXT_MAX: nat := 40

  function DiffPart(v: DiffView, part: Text): DiffView {
    if Starts(part, "context=") then
      var n := ParseNumber(Strip(part, "context=").value);
      v.(context := if n.Some? && 1 <= n.value <= CONTEXT_MAX then n else None)
    else if Starts(part, "ignorews=") then
      var s := Strip(part, "ignorews=").value;
      v.(whitespace := if IsText(s, "1") || IsText(s, "all") then Ignore
                       else if IsText(s, "change") then IgnoreChange
                       else if IsText(s, "eol") then IgnoreEol
                       else Significant)
    else if Starts(part, "ss=") then v.(sideBySide := IsText(Strip(part, "ss=").value, "1"))
    else if Starts(part, "dt=") then
      var s := Strip(part, "dt=").value;
      if IsText(s, "1") then v.(sideBySide := true)
      else v.(statOnly := IsText(s, "2"))
    else v
  }

  function DiffParts(v: DiffView, parts: seq<Text>): DiffView
    decreases parts
  {
    if parts == [] then v else DiffParts(DiffPart(v, parts[0]), parts[1..])
  }

  const PlainView: DiffView := DiffView(None, Significant, false, false)

  function RefsOf(rest: Text): RefsRoute {
    if rest == [] || rest == [SLASH] then AllRefs
    else if IsText(rest, "/heads") || IsText(rest, "/heads/") then Heads
    else if IsText(rest, "/tags") || IsText(rest, "/tags/") then Tags
    else if Starts(rest, "/tags/") then TagNamed(DecodeComponent(Strip(rest, "/tags/").value))
    else AllRefs
  }

  function Query(q: Option<Text>): Text { if q.Some? then q.value else [] }

  /** The path, the head and whether to render, of what follows a tree's name. */
  function TreeRest(rest: Text): (Text, Option<Text>, bool) {
    var (path, query) := CutQuery(TrimSlashes(rest));
    (DecodePath(path),
     if query.None? then None else HeadOf(Split(query.value, AMP)),
     query.Some? && RenderOf(Split(query.value, AMP), false))
  }

  function LogRest(rest: Text): Route {
    var (path, query) := CutQuery(rest);
    var q := LogParts(LogQuery(None, None, None, false), Split(Query(query), AMP));
    Log(OffsetOf(q), q.head, DecodePath(TrimSlashes(path)), q.showMessage)
  }

  function CommitRest(rest: Text): Route {
    var (sha, query) := CutQuery(rest);
    var view := DiffParts(PlainView, Split(Query(query), AMP));
    if TrimSlashes(sha) == [] then CommitHead(view) else Commit(TrimSlashes(sha), view)
  }

  function SnapshotRest(rest: Text): Route {
    var query := CutQuery(rest).1;
    Snapshot(TreeRest(rest).1, if query.None? then TarGz else FormatOf(Split(query.value, AMP)))
  }

  /** The route a hash names, less its line anchor. */
  function RouteOf(hash: Text): Route {
    var ends := [SLASH, QUERY];
    if IsText(hash, "#!/readme") || hash == [] || hash == [HASH] then Readme
    else if IsText(hash, "#!/about") then About
    else if IsText(hash, "#!/summary") then Summary
    else if StripRoute(hash, "#!/log", ends).Some? then LogRest(StripRoute(hash, "#!/log", ends).value)
    else if StripRoute(hash, "#!/commit", ends).Some? then CommitRest(StripRoute(hash, "#!/commit", ends).value)
    else if StripRoute(hash, "#!/tree", ends).Some? then
      var (path, head, render) := TreeRest(StripRoute(hash, "#!/tree", ends).value);
      Tree(path, head, render)
    else if StripRoute(hash, "#!/blame", ends).Some? then
      var (path, head, _) := TreeRest(StripRoute(hash, "#!/blame", ends).value);
      Blame(path, head)
    else if StripRoute(hash, "#!/snapshot", ends).Some? then SnapshotRest(StripRoute(hash, "#!/snapshot", ends).value)
    else if StripRoute(hash, "#!/refs", [SLASH]).Some? then Refs(RefsOf(StripRoute(hash, "#!/refs", [SLASH]).value))
    else Readme
  }

  function ParseHash(hash: Text): Route { RouteOf(SplitLineAnchor(hash).0) }

  // ---- Writing ------------------------------------------------------------

  /** What follows a route's name: a path if there is one, and parameters if there
      are. */
  function Tail(path: Text, params: seq<Text>): Text {
    (if path == [] then [] else [SLASH] + path) + Parameters(params)
  }

  function Parameters(params: seq<Text>): Text {
    if params == [] then [] else [QUERY] + Join(params, AMP)
  }

  predicate Bytewise(s: string) { forall k :: 0 <= k < |s| ==> s[k] as int < 256 }

  function Url(name: string, tail: Text): Text { Raw(name) + tail }

  function Param(key: string, value: Text): Text { Raw(key) + value }

  function HeadParam(head: Option<Text>): seq<Text> {
    if head.None? then [] else [Param("h=", EncodeComponent(head.value))]
  }

  function RenderParam(render: bool): seq<Text> { if render then [Param("render=", Raw("1"))] else [] }

  function OffsetParam(offset: nat): seq<Text> { if offset == 0 then [] else [Param("offset=", Decimal(offset))] }

  function MessageParam(show: bool): seq<Text> { if show then [Raw("showmsg=1")] else [] }

  function FormatParam(format: Format): seq<Text> {
    if format.Bundle? then [Param("format=", Raw("bundle"))] else []
  }

  function TreeParams(head: Option<Text>, render: bool): seq<Text> { HeadParam(head) + RenderParam(render) }

  function LogParams(offset: nat, head: Option<Text>, showMessage: bool): seq<Text> {
    HeadParam(head) + OffsetParam(offset) + MessageParam(showMessage)
  }

  function SnapshotParams(head: Text, format: Format): seq<Text> { HeadParam(Some(head)) + FormatParam(format) }

  function TreeUrl(path: Text, head: Option<Text>, render: bool): Text {
    Url("#!/tree", Tail(EncodePath(path), TreeParams(head, render)))
  }

  function LogUrl(path: Text, offset: nat, head: Option<Text>, showMessage: bool): Text {
    Url("#!/log", Tail(EncodePath(path), LogParams(offset, head, showMessage)))
  }

  /** A blame URL has a slash even when the path is empty. */
  function BlameUrl(path: Text, head: Option<Text>): Text {
    Url("#!/blame", [SLASH] + EncodePath(path) + Parameters(HeadParam(head)))
  }

  function SnapshotUrl(head: Text, format: Format): Text {
    Url("#!/snapshot", Tail([], SnapshotParams(head, format)))
  }

  // ---- Prefixes -----------------------------------------------------------

  lemma Prefixed(key: string, value: Text)
    requires Bytewise(key)
    ensures Starts(Param(key, value), key) && Strip(Param(key, value), key) == Some(value)
  {
  }

  /** Texts that differ at a byte do not start alike. */
  lemma Differs(key: string, value: Text, other: string, k: nat)
    requires Bytewise(key) && k < |key| && k < |other| && key[k] != other[k]
    ensures !Starts(Param(key, value), other) && !IsText(Param(key, value), other)
  {
    assert Param(key, value)[k] == key[k] as int;
  }

  predicate Ends(tail: Text) { tail == [] || tail[0] == SLASH || tail[0] == QUERY }

  lemma NameStrips(name: string, tail: Text)
    requires Bytewise(name) && Ends(tail)
    ensures StripRoute(Url(name, tail), name, [SLASH, QUERY]) == Some(tail)
  {
    Prefixed(name, tail);
  }

  // ---- Queries ------------------------------------------------------------

  lemma {:induction false} CutQueryIs(path: Text, query: Text)
    requires QUERY !in path
    ensures CutQuery(path) == (path, None)
    ensures CutQuery(path + [QUERY] + query) == (path, Some(query))
  {
    if path != [] {
      CutQueryIs(path[1..], query);
      assert (path + [QUERY] + query)[1..] == path[1..] + [QUERY] + query;
      assert path == [path[0]] + path[1..];
    }
  }

  /** Parameters hold no `&`, so the query splits back into them. */
  ghost predicate Parted(params: seq<Text>) {
    forall k :: 0 <= k < |params| ==> AMP !in params[k]
  }

  lemma CutTail(path: Text, params: seq<Text>)
    requires QUERY !in path && Parted(params)
    ensures CutQuery(path + Parameters(params)) == (path, if params == [] then None else Some(Join(params, AMP)))
    ensures params != [] ==> Split(Join(params, AMP), AMP) == params
  {
    if params == [] {
      assert path + Parameters(params) == path;
      CutQueryIs(path, []);
    } else {
      CutSome(path, Join(params, AMP));
      SplitJoin(params, AMP);
    }
  }

  lemma CutSome(path: Text, query: Text)
    requires QUERY !in path
    ensures CutQuery(path + ([QUERY] + query)) == (path, Some(query))
  {
    CutQueryIs(path, query);
    assert path + ([QUERY] + query) == path + [QUERY] + query;
  }

  lemma TrimOne(path: Text, more: Text)
    requires path == [] || path[0] != SLASH
    requires more == [] || more[0] != SLASH
    ensures TrimSlashes(path + more) == path + more && TrimSlashes([SLASH] + (path + more)) == path + more
  {
    assert ([SLASH] + (path + more))[1..] == path + more;
  }

  /** Parameters with no syntax of the route in them. */
  ghost predicate Plain(params: seq<Text>) {
    forall k :: 0 <= k < |params| ==> PlainText(params[k])
  }

  ghost predicate PlainText(s: Text) { AMP !in s && HASH !in s }

  lemma PlainAppend(a: seq<Text>, b: seq<Text>)
    requires Plain(a) && Plain(b)
    ensures Plain(a + b)
  {
  }

  lemma PlainParams(params: seq<Text>)
    requires Plain(params)
    ensures Parted(params) && HASH !in Parameters(params)
  {
    forall k | 0 <= k < |params| ensures AMP !in params[k] && HASH !in params[k] {
      assert PlainText(params[k]);
    }
    JoinPlain(params, AMP, HASH);
  }

  /** A parameter whose value is plain, as its key is. */
  lemma PlainOne(key: string, value: Text)
    requires Bytewise(key) && PlainText(value) && forall k :: 0 <= k < |key| ==> key[k] != '#' && key[k] != '&'
    ensures Plain([Param(key, value)])
  {
    var part := Param(key, value);
    forall k | 0 <= k < |part| ensures part[k] != AMP && part[k] != HASH {
      if k < |key| { assert part[k] == key[k] as int; } else { assert part[k] == value[k - |key|]; }
    }
  }

  lemma HeadPlain(head: Option<Text>)
    ensures Plain(HeadParam(head))
  {
    if head.Some? {
      ComponentPlain(head.value, AMP);
      ComponentPlain(head.value, HASH);
      PlainOne("h=", EncodeComponent(head.value));
    }
  }

  // ---- Reading back -------------------------------------------------------

  /** A head as a URL can say it: an empty one reads as none. */
  function Said(head: Option<Text>): Option<Text> {
    if head.Some? && head.value == [] then None else head
  }

  /** Leading slashes stay slashes when encoded, and are trimmed alike. */
  lemma {:induction false} TrimEncoded(path: Text, more: Text)
    requires more == [] || more[0] != SLASH
    ensures TrimSlashes(EncodePath(path) + more) == EncodePath(TrimSlashes(path)) + more
    decreases path
  {
    if path != [] && path[0] == SLASH {
      SlashEncodes(path);
      assert EncodePath(path) + more == [SLASH] + (EncodePath(path[1..]) + more);
      TrimEncoded(path[1..], more);
    } else {
      PathStarts(path);
      TrimOne(EncodePath(path), more);
    }
  }

  lemma SlashEncodes(path: Text)
    requires path != [] && path[0] == SLASH
    ensures EncodePath(path) == [SLASH] + EncodePath(path[1..])
  {
    var rest := Split(path[1..], SLASH);
    var parts := Split(path, SLASH);
    assert parts == [[]] + rest;
    assert EncodeAll(parts)[0] == [];
    assert EncodeAll(parts)[1..] == EncodeAll(rest);
  }

  lemma TrimTail(path: Text, params: seq<Text>)
    ensures TrimSlashes(Tail(EncodePath(path), params)) == EncodePath(TrimSlashes(path)) + Parameters(params)
    ensures TrimSlashes([SLASH] + EncodePath(path) + Parameters(params)) ==
              EncodePath(TrimSlashes(path)) + Parameters(params)
  {
    TrimEncoded(path, Parameters(params));
    TrimPieces(EncodePath(path), Parameters(params), EncodePath(TrimSlashes(path)));
  }

  lemma TrimPieces(p: Text, q: Text, trimmed: Text)
    requires TrimSlashes(p + q) == trimmed + q
    ensures TrimSlashes((if p == [] then [] else [SLASH] + p) + q) == trimmed + q
    ensures TrimSlashes([SLASH] + p + q) == trimmed + q
  {
    assert ([SLASH] + p + q)[1..] == p + q;
    if p == [] { assert [] + q == p + q; }
  }

  lemma {:induction false} TrimNone(path: Text)
    ensures TrimSlashes(path) == path <==> path == [] || path[0] != SLASH
    ensures TrimSlashes(path) == [] || TrimSlashes(path)[0] != SLASH
    ensures |TrimSlashes(path)| <= |path|
  {
    if path != [] && path[0] == SLASH { TrimNone(path[1..]); }
  }

  /** What a URL can say of a route: paths have no leading slash, heads are not empty. */
  lemma SayableIs(path: Text, head: Option<Text>)
    ensures TrimSlashes(path) == path && Said(head) == head <==> (path == [] || path[0] != SLASH) && head != Some([])
  {
    TrimNone(path);
  }

  lemma HeadRead(head: Option<Text>, more: seq<Text>)
    requires FirstValue(more, "h=") == None
    ensures HeadOf(HeadParam(head) + more) == Said(head)
  {
    if head.Some? {
      var part := Param("h=", EncodeComponent(head.value));
      assert (HeadParam(head) + more)[0] == part;
      Prefixed("h=", EncodeComponent(head.value));
      if head.value != [] { EncodeStarts(head.value); }
      ComponentRead(head.value);
    } else {
      assert HeadParam(head) + more == more;
    }
  }

  lemma RenderIs(render: bool)
    ensures FirstValue(RenderParam(render), "h=") == None && RenderOf(RenderParam(render), false) == render
    ensures Plain(RenderParam(render))
  {
    Prefixed("render=", Raw("1"));
    Differs("render=", Raw("1"), "h=", 0);
    PlainOne("render=", Raw("1"));
  }

  lemma TreeParamsRead(head: Option<Text>, render: bool)
    ensures HeadOf(TreeParams(head, render)) == Said(head) && RenderOf(TreeParams(head, render), false) == render
  {
    RenderIs(render);
    HeadRead(head, RenderParam(render));
    RenderRead(head, RenderParam(render));
  }

  lemma TreeParamsPlain(head: Option<Text>, render: bool)
    ensures Parted(TreeParams(head, render)) && HASH !in Parameters(TreeParams(head, render))
  {
    HeadPlain(head);
    RenderIs(render);
    PlainAppend(HeadParam(head), RenderParam(render));
    PlainParams(TreeParams(head, render));
  }

  lemma RenderRead(head: Option<Text>, more: seq<Text>)
    ensures RenderOf(HeadParam(head) + more, false) == RenderOf(more, false)
  {
    if head.Some? {
      Differs("h=", EncodeComponent(head.value), "render=", 0);
      Differs("h=", EncodeComponent(head.value), "display=", 0);
      assert (HeadParam(head) + more)[1..] == more;
    } else {
      assert HeadParam(head) + more == more;
    }
  }

  /** What follows a tree's or a blame's name is read back, as far as it can be said. */
  lemma TreeRestRead(path: Text, head: Option<Text>, render: bool)
    ensures TreeRest(Tail(EncodePath(path), TreeParams(head, render))) == (TrimSlashes(path), Said(head), render)
    ensures TreeRest([SLASH] + EncodePath(path) + Parameters(TreeParams(head, render))) ==
              (TrimSlashes(path), Said(head), render)
  {
    var trimmed, params := TrimSlashes(path), TreeParams(head, render);
    PathRead(trimmed);
    PathPlain(trimmed, QUERY);
    TreeParamsRead(head, render);
    TreeParamsPlain(head, render);
    TrimTail(path, params);
    CutTail(EncodePath(trimmed), params);
    NoParams(head, render);
  }

  lemma NoParams(head: Option<Text>, render: bool)
    ensures TreeParams(head, render) == [] ==> head == None && !render
  {
  }

  /** A URL with no `#` but its first: an anchor after it comes off. */
  lemma Anchored(url: Text, r: LineRange)
    requires |url| > 1 && url[0] == HASH && url[1] < 0x80 && HASH !in url[1..] && 1 <= r.start <= r.end < WORD
    ensures SplitLineAnchor(url).0 == url == SplitLineAnchor(url + Anchor(r)).0
  {
    AnchorSplits(url[1..], r);
    assert url == [HASH] + url[1..];
  }

  lemma TreeRoute(tail: Text)
    requires Ends(tail)
    ensures RouteOf(Url("#!/tree", tail)) == var (path, head, render) := TreeRest(tail); Tree(path, head, render)
  {
    var url := Param("#!/tree", tail);
    Differs("#!/tree", tail, "#!/readme", 3);
    Differs("#!/tree", tail, "#!/about", 3);
    Differs("#!/tree", tail, "#!/summary", 3);
    Differs("#!/tree", tail, "#!/log", 3);
    Differs("#!/tree", tail, "#!/commit", 3);
    NameStrips("#!/tree", tail);
    assert |url| > 1;
  }

  /** A tree's URL names that tree, with a line anchor after it or without. */
  lemma TreeUrlRead(path: Text, head: Option<Text>, render: bool, r: LineRange)
    requires 1 <= r.start <= r.end < WORD
    ensures ParseHash(TreeUrl(path, head, render)) == Tree(TrimSlashes(path), Said(head), render)
    ensures ParseHash(TreeUrl(path, head, render) + Anchor(r)) == Tree(TrimSlashes(path), Said(head), render)
    ensures ParseHash(TreeUrl(path, head, render)) == Tree(path, head, render) <==>
              (path == [] || path[0] != SLASH) && head != Some([])
  {
    TreeUrlReads(path, head, render, r);
    SayableIs(path, head);
  }

  lemma TreeUrlReads(path: Text, head: Option<Text>, render: bool, r: LineRange)
    requires 1 <= r.start <= r.end < WORD
    ensures var url := TreeUrl(path, head, render);
            ParseHash(url) == ParseHash(url + Anchor(r)) == Tree(TrimSlashes(path), Said(head), render)
  {
    TreeAnchored(path, head, render, r);
    TreeNames(path, head, render);
  }

  lemma TreeAnchored(path: Text, head: Option<Text>, render: bool, r: LineRange)
    requires 1 <= r.start <= r.end < WORD
    ensures var url := TreeUrl(path, head, render);
            SplitLineAnchor(url).0 == url == SplitLineAnchor(url + Anchor(r)).0
  {
    PathPlain(path, HASH);
    TreeParamsPlain(head, render);
    UrlAnchored("#!/tree", Tail(EncodePath(path), TreeParams(head, render)), r);
  }

  lemma TreeNames(path: Text, head: Option<Text>, render: bool)
    ensures RouteOf(TreeUrl(path, head, render)) == Tree(TrimSlashes(path), Said(head), render)
  {
    TreeRestRead(path, head, render);
    TreeRoute(Tail(EncodePath(path), TreeParams(head, render)));
  }

  lemma UrlAnchored(name: string, tail: Text, r: LineRange)
    requires Bytewise(name) && |name| > 1 && name[0] == '#' && name[1] == '!' && forall k :: 0 < k < |name| ==>
               name[k] != '#'
    requires HASH !in tail && 1 <= r.start <= r.end < WORD
    ensures SplitLineAnchor(Url(name, tail)).0 == Url(name, tail) == SplitLineAnchor(Url(name, tail) + Anchor(r)).0
  {
    var url := Url(name, tail);
    forall k | 1 <= k < |url| ensures url[k] != HASH {
      if k >= |name| { assert url[k] == tail[k - |name|]; } else { assert url[k] == name[k] as int; }
    }
    Anchored(url, r);
  }

  lemma BlameRoute(tail: Text)
    requires Ends(tail)
    ensures RouteOf(Url("#!/blame", tail)) == var (path, head, _) := TreeRest(tail); Blame(path, head)
  {
    var url := Param("#!/blame", tail);
    Differs("#!/blame", tail, "#!/readme", 3);
    Differs("#!/blame", tail, "#!/about", 3);
    Differs("#!/blame", tail, "#!/summary", 3);
    Differs("#!/blame", tail, "#!/log", 3);
    Differs("#!/blame", tail, "#!/commit", 3);
    Differs("#!/blame", tail, "#!/tree", 3);
    NameStrips("#!/blame", tail);
    assert |url| > 1;
  }

  /** A blame's URL names that blame. */
  lemma BlameUrlRead(path: Text, head: Option<Text>, r: LineRange)
    requires 1 <= r.start <= r.end < WORD
    ensures ParseHash(BlameUrl(path, head)) == Blame(TrimSlashes(path), Said(head))
    ensures ParseHash(BlameUrl(path, head) + Anchor(r)) == Blame(TrimSlashes(path), Said(head))
    ensures ParseHash(BlameUrl(path, head)) == Blame(path, head) <==>
              (path == [] || path[0] != SLASH) && head != Some([])
  {
    BlameUrlReads(path, head, r);
    SayableIs(path, head);
  }

  lemma BlameUrlReads(path: Text, head: Option<Text>, r: LineRange)
    requires 1 <= r.start <= r.end < WORD
    ensures var url := BlameUrl(path, head);
            ParseHash(url) == ParseHash(url + Anchor(r)) == Blame(TrimSlashes(path), Said(head))
  {
    var tail := [SLASH] + EncodePath(path) + Parameters(TreeParams(head, false));
    assert TreeParams(head, false) == HeadParam(head);
    PathPlain(path, HASH);
    TreeParamsPlain(head, false);
    UrlAnchored("#!/blame", tail, r);
    BlameRoute(tail);
    TreeRestRead(path, head, false);
  }

  // ---- Logs ---------------------------------------------------------------

  lemma {:induction false} LogPartsAppend(q: LogQuery, a: seq<Text>, b: seq<Text>)
    ensures LogParts(q, a + b) == LogParts(LogParts(q, a), b)
    decreases a
  {
    if a == [] {
      assert a + b == b;
    } else {
      assert (a + b)[1..] == a[1..] + b;
      LogPartsAppend(LogPart(q, a[0]), a[1..], b);
    }
  }

  lemma LogOne(q: LogQuery, part: Text)
    ensures LogParts(q, [part]) == LogPart(q, part)
  {
    assert [part][1..] == [];
  }

  lemma LogHead(q: LogQuery, head: Option<Text>)
    ensures LogParts(q, HeadParam(head)) == if Said(head).Some? then q.(head := head) else q
  {
    if head.Some? {
      var value := EncodeComponent(head.value);
      Differs("h=", value, "offset=", 0);
      Differs("h=", value, "page=", 0);
      Differs("h=", value, "showmsg=1", 0);
      Prefixed("h=", value);
      if head.value != [] { EncodeStarts(head.value); }
      ComponentRead(head.value);
      LogOne(q, Param("h=", value));
    }
  }

  lemma LogOffset(q: LogQuery, offset: nat)
    requires offset < WORD
    ensures LogParts(q, OffsetParam(offset)) == if offset == 0 then q else q.(offset := Some(offset))
  {
    Prefixed("offset=", Decimal(offset));
    NumberRead(offset);
    LogOne(q, Param("offset=", Decimal(offset)));
  }

  lemma MessageIs()
    ensures Raw("showmsg=1") == Param("showmsg=1", [])
  {
  }

  lemma LogMessage(q: LogQuery, show: bool)
    ensures LogParts(q, MessageParam(show)) == if show then q.(showMessage := true) else q
  {
    MessageIs();
    Differs("showmsg=1", [], "offset=", 0);
    Differs("showmsg=1", [], "page=", 0);
    Differs("showmsg=1", [], "h=", 0);
    LogOne(q, Raw("showmsg=1"));
  }

  lemma LogParamsRead(offset: nat, head: Option<Text>, showMessage: bool)
    requires offset < WORD
    ensures LogParts(LogQuery(None, None, None, false), LogParams(offset, head, showMessage)) ==
            LogQuery(if offset == 0 then None else Some(offset), None, Said(head), showMessage)
  {
    var q := LogQuery(None, None, None, false);
    LogPartsAppend(q, HeadParam(head) + OffsetParam(offset), MessageParam(showMessage));
    LogPartsAppend(q, HeadParam(head), OffsetParam(offset));
    LogHead(q, head);
    var q1 := LogParts(q, HeadParam(head));
    LogOffset(q1, offset);
    LogMessage(LogParts(q1, OffsetParam(offset)), showMessage);
  }

  lemma NumberPlain(key: string, n: nat)
    requires Bytewise(key) && forall k :: 0 <= k < |key| ==> key[k] != '#' && key[k] != '&'
    ensures Plain([Param(key, Decimal(n))])
  {
    DecimalRead(n);
    DigitsOne(key, Decimal(n));
  }

  lemma DigitsOne(key: string, digits: Text)
    requires Digits(digits) && Bytewise(key) && forall k :: 0 <= k < |key| ==> key[k] != '#' && key[k] != '&'
    ensures Plain([Param(key, digits)])
  {
    DigitsPlain(digits);
    PlainOne(key, digits);
  }

  lemma OffsetPlain(offset: nat)
    ensures Plain(OffsetParam(offset))
  {
    NumberPlain("offset=", offset);
  }

  lemma MessagePlain(show: bool)
    ensures Plain(MessageParam(show))
  {
    MessageIs();
    PlainOne("showmsg=1", []);
  }

  lemma LogParamsPlain(offset: nat, head: Option<Text>, showMessage: bool)
    ensures Parted(LogParams(offset, head, showMessage)) && HASH !in Parameters(LogParams(offset, head, showMessage))
  {
    HeadPlain(head);
    OffsetPlain(offset);
    MessagePlain(showMessage);
    PlainAppend(HeadParam(head), OffsetParam(offset));
    PlainAppend(HeadParam(head) + OffsetParam(offset), MessageParam(showMessage));
    PlainParams(LogParams(offset, head, showMessage));
  }

  lemma DigitsPlain(s: Text)
    requires Digits(s)
    ensures PlainText(s)
  {
  }

  lemma LogRestRead(path: Text, offset: nat, head: Option<Text>, showMessage: bool)
    requires offset < WORD
    ensures LogRest(Tail(EncodePath(path), LogParams(offset, head, showMessage))) ==
            Log(offset, Said(head), TrimSlashes(path), showMessage)
  {
    var p, params := EncodePath(path), LogParams(offset, head, showMessage);
    var front := if p == [] then [] else [SLASH] + p;
    PathRead(TrimSlashes(path));
    PathPlain(path, QUERY);
    LogParamsPlain(offset, head, showMessage);
    LogParamsRead(offset, head, showMessage);
    CutTail(front, params);
    TrimFront(path);
    NoneSplits(LogQuery(None, None, None, false));
  }

  lemma TrimFront(path: Text)
    ensures TrimSlashes(if EncodePath(path) == [] then [] else [SLASH] + EncodePath(path)) ==
              EncodePath(TrimSlashes(path))
  {
    TrimEncoded(path, []);
    assert EncodePath(path) + [] == EncodePath(path)
           && EncodePath(TrimSlashes(path)) + [] == EncodePath(TrimSlashes(path));
    assert ([SLASH] + EncodePath(path))[1..] == EncodePath(path);
  }

  lemma NoneSplits(q: LogQuery)
    ensures LogParts(q, Split([], AMP)) == q
  {
    assert Split([], AMP)[1..] == [];
  }

  lemma LogRoute(tail: Text)
    requires Ends(tail)
    ensures RouteOf(Url("#!/log", tail)) == LogRest(tail)
  {
    var url := Param("#!/log", tail);
    Differs("#!/log", tail, "#!/readme", 3);
    Differs("#!/log", tail, "#!/about", 3);
    Differs("#!/log", tail, "#!/summary", 3);
    NameStrips("#!/log", tail);
    assert |url| > 1;
  }

  /** A log's URL names that log. */
  lemma LogUrlRead(path: Text, offset: nat, head: Option<Text>, showMessage: bool, r: LineRange)
    requires offset < WORD && 1 <= r.start <= r.end < WORD
    ensures ParseHash(LogUrl(path, offset, head, showMessage)) ==
              Log(offset, Said(head), TrimSlashes(path), showMessage)
    ensures ParseHash(LogUrl(path, offset, head, showMessage) + Anchor(r)) ==
              Log(offset, Said(head), TrimSlashes(path), showMessage)
    ensures ParseHash(LogUrl(path, offset, head, showMessage)) == Log(offset, head, path, showMessage) <==>
              (path == [] || path[0] != SLASH) && head != Some([])
  {
    LogUrlReads(path, offset, head, showMessage, r);
    SayableIs(path, head);
  }

  lemma LogUrlReads(path: Text, offset: nat, head: Option<Text>, showMessage: bool, r: LineRange)
    requires offset < WORD && 1 <= r.start <= r.end < WORD
    ensures var url := LogUrl(path, offset, head, showMessage);
            ParseHash(url) == ParseHash(url + Anchor(r)) == Log(offset, Said(head), TrimSlashes(path), showMessage)
  {
    LogAnchored(path, offset, head, showMessage, r);
    LogNames(path, offset, head, showMessage);
  }

  lemma LogAnchored(path: Text, offset: nat, head: Option<Text>, showMessage: bool, r: LineRange)
    requires 1 <= r.start <= r.end < WORD
    ensures var url := LogUrl(path, offset, head, showMessage);
            SplitLineAnchor(url).0 == url == SplitLineAnchor(url + Anchor(r)).0
  {
    PathPlain(path, HASH);
    LogParamsPlain(offset, head, showMessage);
    UrlAnchored("#!/log", Tail(EncodePath(path), LogParams(offset, head, showMessage)), r);
  }

  lemma LogNames(path: Text, offset: nat, head: Option<Text>, showMessage: bool)
    requires offset < WORD
    ensures RouteOf(LogUrl(path, offset, head, showMessage)) ==
              Log(offset, Said(head), TrimSlashes(path), showMessage)
  {
    LogRestRead(path, offset, head, showMessage);
    LogRoute(Tail(EncodePath(path), LogParams(offset, head, showMessage)));
  }

  // ---- Snapshots ----------------------------------------------------------

  lemma FormatIs(format: Format)
    ensures FirstValue(FormatParam(format), "format=") == (if format.Bundle? then Some(Raw("bundle")) else None)
    ensures FirstValue(FormatParam(format), "h=") == None
    ensures Plain(FormatParam(format)) && IsText(Raw("bundle"), "bundle")
  {
    Prefixed("format=", Raw("bundle"));
    Differs("format=", Raw("bundle"), "h=", 0);
    PlainOne("format=", Raw("bundle"));
  }

  lemma FormatRead(head: Text, format: Format)
    ensures FormatOf(SnapshotParams(head, format)) == format
  {
    FormatIs(format);
    Differs("h=", EncodeComponent(head), "format=", 0);
    assert SnapshotParams(head, format)[1..] == FormatParam(format);
  }

  lemma SnapshotParamsPlain(head: Text, format: Format)
    ensures Parted(SnapshotParams(head, format)) && HASH !in Parameters(SnapshotParams(head, format))
  {
    HeadPlain(Some(head));
    FormatIs(format);
    PlainAppend(HeadParam(Some(head)), FormatParam(format));
    PlainParams(SnapshotParams(head, format));
  }

  lemma SnapshotHead(head: Text, format: Format)
    ensures HeadOf(SnapshotParams(head, format)) == Said(Some(head))
  {
    FormatIs(format);
    HeadRead(Some(head), FormatParam(format));
  }

  lemma SnapshotRoute(tail: Text)
    requires Ends(tail)
    ensures RouteOf(Url("#!/snapshot", tail)) == SnapshotRest(tail)
  {
    var url := Param("#!/snapshot", tail);
    Differs("#!/snapshot", tail, "#!/readme", 3);
    Differs("#!/snapshot", tail, "#!/about", 3);
    Differs("#!/snapshot", tail, "#!/summary", 4);
    Differs("#!/snapshot", tail, "#!/log", 3);
    Differs("#!/snapshot", tail, "#!/commit", 3);
    Differs("#!/snapshot", tail, "#!/tree", 3);
    Differs("#!/snapshot", tail, "#!/blame", 3);
    NameStrips("#!/snapshot", tail);
    assert |url| > 1;
  }

  /** A snapshot's URL, of either format, names that download. */
  lemma SnapshotUrlRead(head: Text, format: Format, r: LineRange)
    requires 1 <= r.start <= r.end < WORD
    ensures ParseHash(SnapshotUrl(head, format)) == Snapshot(Said(Some(head)), format)
    ensures ParseHash(SnapshotUrl(head, format) + Anchor(r)) == Snapshot(Said(Some(head)), format)
    ensures ParseHash(SnapshotUrl(head, format)) == Snapshot(Some(head), format) <==> head != []
  {
    SnapshotAnchored(head, format, r);
    SnapshotNames(head, format);
  }

  lemma SnapshotAnchored(head: Text, format: Format, r: LineRange)
    requires 1 <= r.start <= r.end < WORD
    ensures var url := SnapshotUrl(head, format);
            SplitLineAnchor(url).0 == url == SplitLineAnchor(url + Anchor(r)).0
  {
    SnapshotParamsPlain(head, format);
    UrlAnchored("#!/snapshot", Tail([], SnapshotParams(head, format)), r);
  }

  lemma SnapshotNames(head: Text, format: Format)
    ensures RouteOf(SnapshotUrl(head, format)) == Snapshot(Said(Some(head)), format)
  {
    SnapshotRestRead(head, format);
    SnapshotRoute(Tail([], SnapshotParams(head, format)));
  }

  lemma SnapshotRestRead(head: Text, format: Format)
    ensures SnapshotRest(Tail([], SnapshotParams(head, format))) == Snapshot(Said(Some(head)), format)
  {
    var params := SnapshotParams(head, format);
    var tail := Tail([], params);
    SnapshotHead(head, format);
    FormatRead(head, format);
    SnapshotParamsPlain(head, format);
    CutTail([], params);
    TrimTail([], params);
    assert tail == [] + Parameters(params);
  }

  // ---- Commits ------------------------------------------------------------

  function WhitespaceParam(w: Whitespace): seq<Text> {
    match w
    case Significant => []
    case Ignore => [Param("ignorews=", Raw("1"))]
    case IgnoreChange => [Param("ignorews=", Raw("change"))]
    case IgnoreEol => [Param("ignorews=", Raw("eol"))]
  }

  function ContextParam(context: Option<nat>): seq<Text> {
    if context.Some? && context.value != CONTEXT_DEFAULT then [Param("context=", Decimal(context.value))] else []
  }

  function StatParam(statOnly: bool): seq<Text> { if statOnly then [Param("dt=", Raw("2"))] else [] }

  function SideParam(sideBySide: bool): seq<Text> { if sideBySide then [Param("ss=", Raw("1"))] else [] }

  function ViewParams(v: DiffView): seq<Text> {
    StatParam(v.statOnly) + ContextParam(v.context) + WhitespaceParam(v.whitespace) +
        SideParam(v.sideBySide && !v.statOnly)
  }

  /** A view as its URL can say it: a width out of range, or git's own, is left unsaid,
      and so is the layout of a diff that is hidden. */
  function Normal(v: DiffView): DiffView {
    DiffView(if v.context.Some? && v.context.value != CONTEXT_DEFAULT && 1 <= v.context.value <= CONTEXT_MAX
             then v.context else None,
             v.whitespace, v.statOnly, v.sideBySide && !v.statOnly)
  }

  function CommitUrl(sha: Text, view: DiffView): Text {
    Url("#!/commit", Tail(EncodeComponent(sha), ViewParams(view)))
  }

  lemma {:induction false} DiffPartsAppend(v: DiffView, a: seq<Text>, b: seq<Text>)
    ensures DiffParts(v, a + b) == DiffParts(DiffParts(v, a), b)
    decreases a
  {
    if a == [] {
      assert a + b == b;
    } else {
      assert (a + b)[1..] == a[1..] + b;
      DiffPartsAppend(DiffPart(v, a[0]), a[1..], b);
    }
  }

  lemma DiffOne(v: DiffView, part: Text)
    ensures DiffParts(v, [part]) == DiffPart(v, part)
  {
    assert [part][1..] == [];
  }

  lemma ContextRead(v: DiffView, context: Option<nat>)
    requires context.Some? ==> context.value < WORD
    ensures DiffParts(v, ContextParam(context)) ==
            if ContextParam(context) == [] then v
            else v.(context := if 1 <= context.value <= CONTEXT_MAX then context else None)
  {
    if context.Some? {
      Prefixed("context=", Decimal(context.value));
      NumberRead(context.value);
      DiffOne(v, Param("context=", Decimal(context.value)));
    }
  }

  lemma WhitespaceValue(v: DiffView, value: Text)
    ensures DiffParts(v, [Param("ignorews=", value)]) ==
            v.(whitespace := if IsText(value, "1") || IsText(value, "all") then Ignore
                             else if IsText(value, "change") then IgnoreChange
                             else if IsText(value, "eol") then IgnoreEol
                             else Significant)
  {
    Prefixed("ignorews=", value);
    Differs("ignorews=", value, "context=", 0);
    DiffOne(v, Param("ignorews=", value));
  }

  lemma TextIs(s: string, other: string)
    requires Bytewise(s)
    ensures IsText(Raw(s), s)
    ensures |s| != |other| ==> !IsText(Raw(s), other)
  {
  }

  lemma IgnoreRead(v: DiffView)
    ensures DiffParts(v, WhitespaceParam(Ignore)) == v.(whitespace := Ignore)
  {
    TextIs("1", "1");
    WhitespaceValue(v, Raw("1"));
  }

  lemma IgnoreChangeRead(v: DiffView)
    ensures DiffParts(v, WhitespaceParam(IgnoreChange)) == v.(whitespace := IgnoreChange)
  {
    TextIs("change", "1");
    TextIs("change", "all");
    WhitespaceValue(v, Raw("change"));
  }

  lemma IgnoreEolRead(v: DiffView)
    ensures DiffParts(v, WhitespaceParam(IgnoreEol)) == v.(whitespace := IgnoreEol)
  {
    TextIs("eol", "1");
    assert Raw("eol")[0] != 'a' as int;
    TextIs("eol", "change");
    WhitespaceValue(v, Raw("eol"));
  }

  lemma WhitespaceRead(v: DiffView, w: Whitespace)
    ensures DiffParts(v, WhitespaceParam(w)) == if w.Significant? then v else v.(whitespace := w)
  {
    match w
    case Significant =>
    case Ignore => IgnoreRead(v);
    case IgnoreChange => IgnoreChangeRead(v);
    case IgnoreEol => IgnoreEolRead(v);
  }

  lemma StatRead(v: DiffView, statOnly: bool)
    ensures DiffParts(v, StatParam(statOnly)) == if statOnly then v.(statOnly := true) else v
  {
    Prefixed("dt=", Raw("2"));
    assert Raw("2")[0] != '1' as int;
    Differs("dt=", Raw("2"), "context=", 0);
    Differs("dt=", Raw("2"), "ignorews=", 0);
    Differs("dt=", Raw("2"), "ss=", 0);
    DiffOne(v, Param("dt=", Raw("2")));
  }

  lemma SideRead(v: DiffView, sideBySide: bool)
    ensures DiffParts(v, SideParam(sideBySide)) == if sideBySide then v.(sideBySide := true) else v
  {
    Prefixed("ss=", Raw("1"));
    Differs("ss=", Raw("1"), "context=", 0);
    Differs("ss=", Raw("1"), "ignorews=", 0);
    DiffOne(v, Param("ss=", Raw("1")));
  }

  /** A view's parameters are read back as the view, up to what a URL can say. */
  lemma ViewRead(v: DiffView)
    requires v.context.Some? ==> v.context.value < WORD
    ensures DiffParts(PlainView, ViewParams(v)) == Normal(v)
  {
    var a, b, c := StatParam(v.statOnly), ContextParam(v.context), WhitespaceParam(v.whitespace);
    var d := SideParam(v.sideBySide && !v.statOnly);
    DiffPartsAppend(PlainView, a + b + c, d);
    DiffPartsAppend(PlainView, a + b, c);
    DiffPartsAppend(PlainView, a, b);
    StatRead(PlainView, v.statOnly);
    var v1 := DiffParts(PlainView, a);
    ContextRead(v1, v.context);
    var v2 := DiffParts(v1, b);
    WhitespaceRead(v2, v.whitespace);
    SideRead(DiffParts(v2, c), v.sideBySide && !v.statOnly);
  }

  lemma ViewPlain(v: DiffView)
    ensures Parted(ViewParams(v)) && HASH !in Parameters(ViewParams(v))
  {
    var a, b, c := StatParam(v.statOnly), ContextParam(v.context), WhitespaceParam(v.whitespace);
    var d := SideParam(v.sideBySide && !v.statOnly);
    FlagsPlain(v.statOnly, v.sideBySide && !v.statOnly);
    ContextPlain(v.context);
    WhitespacePlain(v.whitespace);
    PlainAppend(a, b);
    PlainAppend(a + b, c);
    PlainAppend(a + b + c, d);
    PlainParams(ViewParams(v));
  }

  lemma FlagsPlain(statOnly: bool, sideBySide: bool)
    ensures Plain(StatParam(statOnly)) && Plain(SideParam(sideBySide))
  {
    PlainOne("dt=", Raw("2"));
    PlainOne("ss=", Raw("1"));
  }

  lemma ContextPlain(context: Option<nat>)
    ensures Plain(ContextParam(context))
  {
    if context.Some? {
      NumberPlain("context=", context.value);
    }
  }

  lemma WhitespacePlain(w: Whitespace)
    ensures Plain(WhitespaceParam(w))
  {
    match w
    case Significant =>
    case Ignore => PlainOne("ignorews=", Raw("1"));
    case IgnoreChange => PlainOne("ignorews=", Raw("change"));
    case IgnoreEol => PlainOne("ignorews=", Raw("eol"));
  }

  /** Bytes that are written as themselves. */
  predicate Verbatim(s: Text) {
    s != [] ==> !Escaped(s[0]) && !WideControl(s) && Verbatim(s[1..])
  }

  lemma {:induction false} VerbatimEncodes(s: Text)
    ensures EncodeComponent(s) == s <==> Verbatim(s)
    ensures |EncodeComponent(s)| >= |s| && (!Verbatim(s) ==> |EncodeComponent(s)| > |s|)
    decreases |s|
  {
    if s != [] {
      VerbatimEncodes(s[Width(s)..]);
      assert s == [s[0]] + s[1..];
    }
  }

  /** An id in hex is. */
  lemma {:induction false} HexVerbatim(s: Text)
    requires forall k :: 0 <= k < |s| ==> HexValue(s[k]).Some?
    ensures Verbatim(s)
  {
    if s != [] { HexVerbatim(s[1..]); }
  }

  lemma CommitRoute(tail: Text)
    requires Ends(tail)
    ensures RouteOf(Url("#!/commit", tail)) == CommitRest(tail)
  {
    var url := Param("#!/commit", tail);
    Differs("#!/commit", tail, "#!/readme", 3);
    Differs("#!/commit", tail, "#!/about", 3);
    Differs("#!/commit", tail, "#!/summary", 3);
    Differs("#!/commit", tail, "#!/log", 3);
    NameStrips("#!/commit", tail);
    assert |url| > 1;
  }

  lemma CommitRestRead(id: Text, view: DiffView)
    requires SLASH !in id && QUERY !in id && (view.context.Some? ==> view.context.value < WORD)
    ensures CommitRest(Tail(id, ViewParams(view))) == CommitNamed(id, Normal(view))
  {
    var params := ViewParams(view);
    var front := if id == [] then [] else [SLASH] + id;
    ViewRead(view);
    ViewPlain(view);
    CutTail(front, params);
    TrimOne(id, []);
    assert id + [] == id;
    DiffNone();
  }

  lemma DiffNone()
    ensures DiffParts(PlainView, Split([], AMP)) == PlainView == DiffParts(PlainView, [])
  {
    assert Split([], AMP)[1..] == [];
  }

  function CommitNamed(sha: Text, view: DiffView): Route {
    if sha == [] then CommitHead(view) else Commit(sha, view)
  }

  /** A commit's URL names that commit, or HEAD's for an empty id, viewed as the URL can
      say. An id is not decoded when it is read, so it is read back just if it is written
      as it is. */
  lemma CommitUrlRead(sha: Text, view: DiffView, r: LineRange)
    requires (view.context.Some? ==> view.context.value < WORD) && 1 <= r.start <= r.end < WORD
    ensures ParseHash(CommitUrl(sha, view)) == CommitNamed(EncodeComponent(sha), Normal(view))
    ensures ParseHash(CommitUrl(sha, view) + Anchor(r)) == CommitNamed(EncodeComponent(sha), Normal(view))
    ensures ParseHash(CommitUrl(sha, view)) == CommitNamed(sha, view) <==> Verbatim(sha) && Normal(view) == view
  {
    CommitAnchored(sha, view, r);
    CommitNames(sha, view);
    VerbatimEncodes(sha);
  }

  // The id % is written %25, and read as that.
  lemma EscapedIdMisread()
    ensures ParseHash(CommitUrl([PERCENT], PlainView)) == Commit([PERCENT, '2' as int, '5' as int], PlainView)
  {
    PercentEncodes();
    CommitUrlRead([PERCENT], PlainView, LineRange(1, 1));
  }

  lemma PercentEncodes()
    ensures EncodeComponent([PERCENT]) == [PERCENT, '2' as int, '5' as int]
  {
    assert [PERCENT][1..] == [];
  }

  lemma CommitAnchored(sha: Text, view: DiffView, r: LineRange)
    requires 1 <= r.start <= r.end < WORD
    ensures SplitLineAnchor(CommitUrl(sha, view)).0 == CommitUrl(sha, view) ==
              SplitLineAnchor(CommitUrl(sha, view) + Anchor(r)).0
  {
    CommitTailPlain(sha, view);
    AnchoredCommit(Tail(EncodeComponent(sha), ViewParams(view)), r);
  }

  lemma AnchoredCommit(tail: Text, r: LineRange)
    requires HASH !in tail && 1 <= r.start <= r.end < WORD
    ensures var url := Url("#!/commit", tail); SplitLineAnchor(url).0 == url == SplitLineAnchor(url + Anchor(r)).0
  {
    UrlAnchored("#!/commit", tail, r);
  }

  lemma CommitTailPlain(sha: Text, view: DiffView)
    ensures HASH !in Tail(EncodeComponent(sha), ViewParams(view))
  {
    ComponentPlain(sha, HASH);
    ViewPlain(view);
  }

  lemma CommitNames(sha: Text, view: DiffView)
    requires view.context.Some? ==> view.context.value < WORD
    ensures RouteOf(CommitUrl(sha, view)) == CommitNamed(EncodeComponent(sha), Normal(view))
  {
    ComponentPlain(sha, SLASH);
    ComponentPlain(sha, QUERY);
    CommitRestRead(EncodeComponent(sha), view);
    CommitRoute(Tail(EncodeComponent(sha), ViewParams(view)));
  }
}
