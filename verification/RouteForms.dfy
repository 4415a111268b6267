/** The URL grammar spelled out: which hashes are which route, and what a log's parameters
and a tag's name come to. */
module RouteForms {
  import opened Bytes
  import opened UrlText
  import opened Route

  // ---- Which hash is which route ------------------------------------------

  /** A route's name, alone or with more after a slash or a question mark. */
  predicate Named(h: Text, name: string) {
    h == Raw(name) || Raw(name) + [SLASH] <= h || Raw(name) + [QUERY] <= h
  }

  lemma StartsIs(h: Text, name: string)
    requires Bytewise(name)
    ensures Starts(h, name) <==> Raw(name) <= h
    ensures IsText(h, name) <==> h == Raw(name)
    ensures Starts(h, name) ==> h == Raw(name) + h[|name|..]
  {
    if Starts(h, name) { assert h[..|name|] == Raw(name); }
  }

  lemma Follows(h: Text, name: string, sep: Byte)
    requires Bytewise(name)
    ensures Raw(name) + [sep] <= h <==> Starts(h, name) && |h| > |name| && h[|name|] == sep
  {
    var whole := Raw(name) + [sep];
    if Starts(h, name) && |h| > |name| && h[|name|] == sep {
      assert h[..|whole|] == whole;
    }
    if whole <= h {
      assert forall k :: 0 <= k < |whole| ==> h[k] == whole[k];
    }
  }

  lemma NamedIs(h: Text, name: string)
    requires Bytewise(name)
    ensures StripRoute(h, name, [SLASH, QUERY]).Some? <==> Named(h, name)
    ensures Named(h, name) ==> |name| <= |h| && forall k :: 0 <= k < |name| ==> h[k] == name[k] as int
  {
    StartsIs(h, name);
    Follows(h, name, SLASH);
    Follows(h, name, QUERY);
  }

  predicate IsRefs(h: Text) { h == Raw("#!/refs") || Raw("#!/refs") + [SLASH] <= h }

  lemma RefsIs(h: Text)
    ensures StripRoute(h, "#!/refs", [SLASH]).Some? <==> IsRefs(h)
    ensures IsRefs(h) ==> |h| > 6 && h[3] == 'r' as int && h[5] == 'f' as int
  {
    StartsIs(h, "#!/refs");
    Follows(h, "#!/refs", SLASH);
  }

  datatype Kind = IsReadme | IsAbout | IsSummary | IsLog | IsCommit | IsTree | IsBlame | IsSnapshot | IsRefs

  function KindOf(r: Route): Kind {
    match r
    case About => IsAbout
    case Readme => IsReadme
    case Summary => IsSummary
    case Log(_, _, _, _) => IsLog
    case CommitHead(_) => IsCommit
    case Commit(_, _) => IsCommit
    case Refs(_) => Kind.IsRefs
    case Tree(_, _, _) => IsTree
    case Blame(_, _) => IsBlame
    case Snapshot(_, _) => IsSnapshot
  }

  /** The first of these that holds. */
  function FirstOf(readme: bool, about: bool, summary: bool, log: bool, commit: bool, tree: bool, blame: bool,
                   snapshot: bool, refs: bool): Kind {
    if readme then IsReadme
    else if about then IsAbout
    else if summary then IsSummary
    else if log then IsLog
    else if commit then IsCommit
    else if tree then IsTree
    else if blame then IsBlame
    else if snapshot then IsSnapshot
    else if refs then Kind.IsRefs
    else IsReadme
  }

  lemma KindIs(h: Text)
    ensures KindOf(RouteOf(h)) ==
            FirstOf(IsText(h, "#!/readme") || h == [] || h == [HASH], IsText(h, "#!/about"), IsText(h, "#!/summary"),
                    StripRoute(h, "#!/log", [SLASH, QUERY]).Some?, StripRoute(h, "#!/commit", [SLASH, QUERY]).Some?,
                    StripRoute(h, "#!/tree", [SLASH, QUERY]).Some?, StripRoute(h, "#!/blame", [SLASH, QUERY]).Some?,
                    StripRoute(h, "#!/snapshot", [SLASH, QUERY]).Some?, StripRoute(h, "#!/refs", [SLASH]).Some?)
  {
    if Early(h) { KindEarly(h); } else { KindLate(h); }
  }

  predicate Early(h: Text) {
    || IsText(h, "#!/readme") || h == [] || h == [HASH] || IsText(h, "#!/about") || IsText(h, "#!/summary")
    || StripRoute(h, "#!/log", [SLASH, QUERY]).Some? || StripRoute(h, "#!/commit", [SLASH, QUERY]).Some?
  }

  lemma KindEarly(h: Text)
    requires Early(h)
    ensures KindOf(RouteOf(h)) ==
            FirstOf(IsText(h, "#!/readme") || h == [] || h == [HASH], IsText(h, "#!/about"), IsText(h, "#!/summary"),
                    StripRoute(h, "#!/log", [SLASH, QUERY]).Some?, true, true, true, true, true)
  {
  }

  lemma KindLate(h: Text)
    requires !Early(h)
    ensures KindOf(RouteOf(h)) ==
            FirstOf(false, false, false, false, false,
                    StripRoute(h, "#!/tree", [SLASH, QUERY]).Some?, StripRoute(h, "#!/blame", [SLASH, QUERY]).Some?,
                    StripRoute(h, "#!/snapshot", [SLASH, QUERY]).Some?, StripRoute(h, "#!/refs", [SLASH]).Some?)
  {
  }

  /** The letters of a hash that its kind can be told from. */
  function Letters(h: Text): (nat, nat, nat) {
    if |h| < 6 then (0, 0, 0) else (h[3], h[4], h[5])
  }

  lemma TextForms(h: Text)
    ensures IsText(h, "#!/readme") <==> h == Raw("#!/readme")
    ensures IsText(h, "#!/about") <==> h == Raw("#!/about")
    ensures IsText(h, "#!/summary") <==> h == Raw("#!/summary")
    ensures h == Raw("#!/readme") ==> Letters(h) == ('r' as int, 'e' as int, 'a' as int)
    ensures h == Raw("#!/about") ==> Letters(h) == ('a' as int, 'b' as int, 'o' as int)
    ensures h == Raw("#!/summary") ==> Letters(h) == ('s' as int, 'u' as int, 'm' as int)
  {
    NamesBytewise();
    StartsIs(h, "#!/readme");
    StartsIs(h, "#!/about");
    StartsIs(h, "#!/summary");
  }

  lemma NamesBytewise()
    ensures Bytewise("#!/readme") && Bytewise("#!/about") && Bytewise("#!/summary")
  {
  }

  lemma NamedForms(h: Text)
    ensures StripRoute(h, "#!/log", [SLASH, QUERY]).Some? <==> Named(h, "#!/log")
    ensures StripRoute(h, "#!/commit", [SLASH, QUERY]).Some? <==> Named(h, "#!/commit")
    ensures StripRoute(h, "#!/tree", [SLASH, QUERY]).Some? <==> Named(h, "#!/tree")
    ensures Named(h, "#!/log") ==> Letters(h) == ('l' as int, 'o' as int, 'g' as int)
    ensures Named(h, "#!/commit") ==> Letters(h) == ('c' as int, 'o' as int, 'm' as int)
    ensures Named(h, "#!/tree") ==> Letters(h) == ('t' as int, 'r' as int, 'e' as int)
  {
    NamedLetters(h, "#!/log");
    NamedLetters(h, "#!/commit");
    NamedLetters(h, "#!/tree");
  }

  lemma MoreForms(h: Text)
    ensures StripRoute(h, "#!/blame", [SLASH, QUERY]).Some? <==> Named(h, "#!/blame")
    ensures StripRoute(h, "#!/snapshot", [SLASH, QUERY]).Some? <==> Named(h, "#!/snapshot")
    ensures Named(h, "#!/blame") ==> Letters(h) == ('b' as int, 'l' as int, 'a' as int)
    ensures Named(h, "#!/snapshot") ==> Letters(h) == ('s' as int, 'n' as int, 'a' as int)
  {
    NamedLetters(h, "#!/blame");
    NamedLetters(h, "#!/snapshot");
  }

  lemma NamedLetters(h: Text, name: string)
    requires Bytewise(name) && |name| >= 6
    ensures Named(h, name) ==> Letters(h) == (name[3] as int, name[4] as int, name[5] as int)
    ensures StripRoute(h, name, [SLASH, QUERY]).Some? <==> Named(h, name)
  {
    NamedIs(h, name);
  }

  /** Where no two hold at once, each is told apart by what holds. */
  lemma Told(kind: Kind, readme: bool, about: bool, summary: bool, log: bool, commit: bool, tree: bool, blame: bool,
             snapshot: bool, refs: bool, letters: (nat, nat, nat))
    requires kind == FirstOf(readme, about, summary, log, commit, tree, blame, snapshot, refs)
    requires readme ==> letters == ('r' as int, 'e' as int, 'a' as int) || letters == (0, 0, 0)
    requires about ==> letters.0 == 'a' as int
    requires summary ==> letters.0 == 's' as int && letters.1 == 'u' as int
    requires log ==> letters.0 == 'l' as int
    requires commit ==> letters.0 == 'c' as int
    requires tree ==> letters.0 == 't' as int
    requires blame ==> letters.0 == 'b' as int
    requires snapshot ==> letters.0 == 's' as int && letters.1 == 'n' as int
    requires refs ==> letters.0 == 'r' as int && letters.2 == 'f' as int
    ensures (kind == IsAbout <==> about) && (kind == IsSummary <==> summary) && (kind == IsLog <==> log)
    ensures (kind == IsCommit <==> commit) && (kind == IsTree <==> tree) && (kind == IsBlame <==> blame)
    ensures (kind == IsSnapshot <==> snapshot) && (kind == Kind.IsRefs <==> refs)
    ensures readme ==> kind == IsReadme
  {
  }

  /** Each route has its own name, and whatever has none of these is the readme. */
  lemma RoutesAre(h: Text)
    ensures RouteOf(h) == About <==> h == Raw("#!/about")
    ensures RouteOf(h) == Summary <==> h == Raw("#!/summary")
    ensures RouteOf(h).Log? <==> Named(h, "#!/log")
    ensures RouteOf(h).Commit? || RouteOf(h).CommitHead? <==> Named(h, "#!/commit")
    ensures RouteOf(h).Tree? <==> Named(h, "#!/tree")
    ensures RouteOf(h).Blame? <==> Named(h, "#!/blame")
    ensures RouteOf(h).Snapshot? <==> Named(h, "#!/snapshot")
    ensures RouteOf(h).Refs? <==> IsRefs(h)
    ensures h in {Raw("#!/readme"), [], [HASH]} ==> RouteOf(h) == Readme
  {
    KindIs(h);
    KindOfForms(h, KindOf(RouteOf(h)));
  }

  lemma KindOfForms(h: Text, kind: Kind)
    requires kind ==
             FirstOf(IsText(h, "#!/readme") || h == [] || h == [HASH], IsText(h, "#!/about"), IsText(h, "#!/summary"),
                     StripRoute(h, "#!/log", [SLASH, QUERY]).Some?, StripRoute(h, "#!/commit", [SLASH, QUERY]).Some?,
                     StripRoute(h, "#!/tree", [SLASH, QUERY]).Some?, StripRoute(h, "#!/blame", [SLASH, QUERY]).Some?,
                     StripRoute(h, "#!/snapshot", [SLASH, QUERY]).Some?, StripRoute(h, "#!/refs", [SLASH]).Some?)
    ensures (kind == IsAbout <==> h == Raw("#!/about")) && (kind == IsSummary <==> h == Raw("#!/summary"))
    ensures (kind == IsLog <==> Named(h, "#!/log")) && (kind == IsCommit <==> Named(h, "#!/commit"))
    ensures (kind == IsTree <==> Named(h, "#!/tree")) && (kind == IsBlame <==> Named(h, "#!/blame"))
    ensures (kind == IsSnapshot <==> Named(h, "#!/snapshot")) && (kind == Kind.IsRefs <==> IsRefs(h))
    ensures h in {Raw("#!/readme"), [], [HASH]} ==> kind == IsReadme
  {
    TextForms(h);
    NamedForms(h);
    MoreForms(h);
    RefsIs(h);
    Told(kind, h in {Raw("#!/readme"), [], [HASH]}, h == Raw("#!/about"), h == Raw("#!/summary"),
         Named(h, "#!/log"), Named(h, "#!/commit"), Named(h, "#!/tree"), Named(h, "#!/blame"),
         Named(h, "#!/snapshot"), IsRefs(h), Letters(h));
  }

  // ---- Refs ---------------------------------------------------------------

  /** The two lists, with a slash after them or without; a tag, by whatever comes after
      its list's slash; and otherwise all refs. */
  lemma RefsAre(h: Text)
    requires RouteOf(h).Refs?
    ensures RouteOf(h).refs == Heads <==> h == Raw("#!/refs/heads") || h == Raw("#!/refs/heads/")
    ensures RouteOf(h).refs == Tags <==> h == Raw("#!/refs/tags") || h == Raw("#!/refs/tags/")
    ensures RouteOf(h).refs.TagNamed? <==> Raw("#!/refs/tags/") < h
    ensures RouteOf(h).refs.TagNamed? ==> RouteOf(h).refs.name == DecodeComponent(h[13..])
  {
    RefsRoute(h);
    RefsOfIs(h, h[7..]);
  }

  lemma RefsRoute(h: Text)
    requires RouteOf(h).Refs?
    ensures |h| >= 7 && h == Raw("#!/refs") + h[7..] && RouteOf(h) == Refs(RefsOf(h[7..]))
  {
    RoutesAre(h);
    RefsIs(h);
    StartsIs(h, "#!/refs");
  }

  lemma RefsOfIs(h: Text, rest: Text)
    requires h == Raw("#!/refs") + rest
    ensures RefsOf(rest) == Heads <==> h == Raw("#!/refs/heads") || h == Raw("#!/refs/heads/")
    ensures RefsOf(rest) == Tags <==> h == Raw("#!/refs/tags") || h == Raw("#!/refs/tags/")
    ensures RefsOf(rest).TagNamed? <==> Raw("#!/refs/tags/") < h
    ensures RefsOf(rest).TagNamed? ==> RefsOf(rest).name == DecodeComponent(h[13..])
  {
    assert "/heads"[1] != "/tags"[1] && "/heads/"[1] != "/tags/"[1];
    Under(h, rest, "/heads", "#!/refs/heads");
    Under(h, rest, "/heads/", "#!/refs/heads/");
    Under(h, rest, "/tags", "#!/refs/tags");
    Under(h, rest, "/tags/", "#!/refs/tags/");
  }

  lemma Under(h: Text, rest: Text, part: string, name: string)
    requires Bytewise(part) && name == "#!/refs" + part && h == Raw("#!/refs") + rest
    ensures IsText(rest, part) <==> h == Raw(name)
    ensures Starts(rest, part) && !IsText(rest, part) <==> Raw(name) < h
    ensures Starts(rest, part) ==> Strip(rest, part).value == h[|name|..]
  {
    var whole := Raw("#!/refs") + Raw(part);
    assert whole == Raw(name);
    StartsIs(rest, part);
    assert h[7..] == rest && whole[7..] == Raw(part);
    if Raw(part) <= rest { assert h[..|whole|] == whole; }
    if whole <= h { assert rest[..|part|] == h[..|whole|][7..]; }
  }

  /** A tag's URL is its name as one component, and reads back as that tag, with a line
      anchor after it or without. */
  lemma TagUrlRead(name: Text, r: LineRange)
    requires name != [] && 1 <= r.start <= r.end < WORD
    ensures var url := Raw("#!/refs/tags/") + EncodeComponent(name);
            ParseHash(url) == ParseHash(url + Anchor(r)) == Refs(TagNamed(name))
  {
    var tail := EncodeComponent(name);
    ComponentPlain(name, HASH);
    TagAnchored(tail, r);
    ComponentRead(name);
    TagNames(Raw("#!/refs/tags/") + tail, tail);
  }

  lemma TagAnchored(tail: Text, r: LineRange)
    requires HASH !in tail && 1 <= r.start <= r.end < WORD
    ensures var url := Raw("#!/refs/tags/") + tail;
            SplitLineAnchor(url).0 == url == SplitLineAnchor(url + Anchor(r)).0
  {
    UrlAnchored("#!/refs/tags/", tail, r);
  }

  lemma TagNames(url: Text, tail: Text)
    requires url == Raw("#!/refs/tags/") + tail && tail != []
    ensures RouteOf(url) == Refs(TagNamed(DecodeComponent(tail)))
  {
    assert Raw("#!/refs/") <= Raw("#!/refs/tags/") <= url;
    RoutesAre(url);
    RefsAre(url);
    assert url[13..] == tail;
  }

  // ---- A log's parameters -------------------------------------------------

  /** What follows `key` in the last part that starts with it. */
  function LastValue(parts: seq<Text>, key: string): Option<Text>
    decreases |parts|
  {
    if parts == [] then None
    else
      var last := parts[|parts| - 1];
      if Starts(last, key) then Some(last[|key|..]) else LastValue(parts[..|parts| - 1], key)
  }

  predicate LastWith(parts: seq<Text>, key: string, k: nat) {
    k < |parts| && Starts(parts[k], key) && forall j :: k < j < |parts| ==> !Starts(parts[j], key)
  }

  lemma {:induction false} LastValueIs(parts: seq<Text>, key: string, v: Text)
    ensures LastValue(parts, key) == Some(v) <==>
              exists k: nat :: LastWith(parts, key, k) && parts[k][|key|..] == v
    ensures LastValue(parts, key) == None <==> forall j :: 0 <= j < |parts| ==> !Starts(parts[j], key)
    decreases |parts|
  {
    if parts != [] {
      var n := |parts| - 1;
      var front, last := parts[..n], parts[n];
      assert forall j :: 0 <= j < n ==> front[j] == parts[j];
      if Starts(last, key) {
        assert LastWith(parts, key, n);
      } else {
        LastValueIs(front, key, v);
        LastWithFront(parts, key);
      }
    }
  }

  lemma LastWithFront(parts: seq<Text>, key: string)
    requires parts != [] && !Starts(parts[|parts| - 1], key)
    ensures forall k: nat :: LastWith(parts, key, k) <==> LastWith(parts[..|parts| - 1], key, k)
  {
  }

  /** The number a value is, if it is one and not zero. */
  function Positive(value: Text): Option<nat> {
    var n := ParseNumber(value);
    if n.Some? && n.value > 0 then n else None
  }

  const NoQuery: LogQuery := LogQuery(None, None, None, false)

  lemma LogNext(parts: seq<Text>)
    requires parts != []
    ensures LogParts(NoQuery, parts) == LogPart(LogParts(NoQuery, parts[..|parts| - 1]), parts[|parts| - 1])
  {
    var front, last := parts[..|parts| - 1], parts[|parts| - 1];
    LogPartsAppend(NoQuery, front, [last]);
    LogOne(LogParts(NoQuery, front), last);
    assert parts == front + [last];
  }

  /** Of each number the last one given counts: an offset that is no number is zero, and a
      page that is none is no page. */
  lemma {:induction false} LogNumbers(parts: seq<Text>)
    ensures var q, offset, page := LogParts(NoQuery, parts), LastValue(parts, "offset="), LastValue(parts, "page=");
            && q.offset == (if offset.None? then None
                            else Some(if ParseNumber(offset.value).Some? then ParseNumber(offset.value).value else 0))
            && q.page == (if page.None? then None else Positive(page.value))
    decreases |parts|
  {
    if parts != [] {
      LogNumbers(parts[..|parts| - 1]);
      LogNext(parts);
      PartNumbers(LogParts(NoQuery, parts[..|parts| - 1]), parts[|parts| - 1]);
    }
  }

  lemma PartNumbers(q: LogQuery, part: Text)
    ensures var offset, page := Strip(part, "offset="), Strip(part, "page=");
            && LogPart(q, part).offset ==
               (if offset.None? then q.offset
                else Some(if ParseNumber(offset.value).Some? then ParseNumber(offset.value).value else 0))
            && LogPart(q, part).page == (if page.None? then q.page else Positive(page.value))
  {
    assert "offset="[0] != "page="[0];
  }

  /** Messages are shown if any part says so. */
  lemma {:induction false} LogMessages(parts: seq<Text>)
    ensures LogParts(NoQuery, parts).showMessage <==> Raw("showmsg=1") in parts
    decreases |parts|
  {
    if parts != [] {
      var last := parts[|parts| - 1];
      LogMessages(parts[..|parts| - 1]);
      LogNext(parts);
      StartsIs(last, "showmsg=1");
      assert "showmsg=1"[0] != "offset="[0] && "showmsg=1"[0] != "page="[0] && "showmsg=1"[0] != "h="[0];
      assert parts == parts[..|parts| - 1] + [last];
    }
  }

  /** An offset decides where a log starts, and otherwise the page does, at 50 to a page and
      as far as a word goes. */
  lemma LogStarts(path: Text, query: Text)
    requires QUERY !in path && path != [] && path[0] == SLASH
    ensures RouteOf(Raw("#!/log") + (path + [QUERY] + query)) ==
            var q := LogParts(NoQuery, Split(query, AMP));
            var offset := if q.offset.Some? then q.offset.value
                          else if q.page.None? || q.page.value == 0 then 0
                          else AtMost((q.page.value - 1) * 50, 0xffff_ffff_ffff_ffff);
            Log(offset, q.head, DecodePath(TrimSlashes(path)), q.showMessage)
  {
    LogRoute(path + [QUERY] + query);
    CutQueryIs(path, query);
    Offsets(LogParts(NoQuery, Split(query, AMP)));
  }

  lemma Offsets(q: LogQuery)
    ensures OffsetOf(q) == if q.offset.Some? then q.offset.value
                           else if q.page.None? || q.page.value == 0 then 0
                           else AtMost((q.page.value - 1) * 50, 0xffff_ffff_ffff_ffff)
  {
  }

  function AtMost(n: nat, limit: nat): nat { if n < limit then n else limit }

  // ---- A tree's parameters ------------------------------------------------

  lemma {:induction false} LastValueCons(parts: seq<Text>, key: string)
    requires parts != []
    ensures LastValue(parts, key) ==
            var rest := LastValue(parts[1..], key);
            if rest.Some? then rest else if Starts(parts[0], key) then Some(parts[0][|key|..]) else None
    decreases |parts|
  {
    if |parts| > 1 {
      var front := parts[..|parts| - 1];
      LastValueCons(front, key);
      assert front[1..] == parts[1..][..|parts| - 2];
    }
  }

  predicate FirstWith(parts: seq<Text>, key: string, k: nat) {
    k < |parts| && Starts(parts[k], key) && forall j :: 0 <= j < k ==> !Starts(parts[j], key)
  }

  lemma FirstWithRest(parts: seq<Text>, key: string)
    requires parts != [] && !Starts(parts[0], key)
    ensures (exists k: nat :: FirstWith(parts, key, k) && parts[k] == Raw("render=1")) <==>
              exists k: nat :: FirstWith(parts[1..], key, k) && parts[1..][k] == Raw("render=1")
    ensures (forall j :: 0 <= j < |parts| ==> !Starts(parts[j], key)) <==>
              forall j :: 0 <= j < |parts| - 1 ==> !Starts(parts[1..][j], key)
  {
    var rest := parts[1..];
    assert forall j :: 0 <= j < |rest| ==> rest[j] == parts[j + 1];
    if k: nat :| FirstWith(parts, key, k) && parts[k] == Raw("render=1") {
      assert FirstWith(rest, key, k - 1);
    }
    if k: nat :| FirstWith(rest, key, k) && rest[k] == Raw("render=1") {
      assert FirstWith(parts, key, k + 1);
    }
  }

  /** A file is rendered if the first `render=` says 1; and if there is none, when the last
      `display=` says so. */
  lemma {:induction false} RenderedIf(parts: seq<Text>, display: bool)
    ensures RenderOf(parts, display) <==>
              || (exists k: nat :: FirstWith(parts, "render=", k) && parts[k] == Raw("render=1"))
              || ((forall j :: 0 <= j < |parts| ==> !Starts(parts[j], "render=")) &&
                  (var last := LastValue(parts, "display=");
                   if last.None? then display else last.value == Raw("rendered")))
  {
    if parts != [] {
      if Starts(parts[0], "render=") {
        assert FirstWith(parts, "render=", 0);
        RenderSays(parts[0]);
      } else {
        FirstWithRest(parts, "render=");
        LastValueCons(parts, "display=");
        RenderedIf(parts[1..], DisplaySays(parts[0], display));
      }
    }
  }

  /** What a part that is no `render=` leaves to be shown if no later one says more. */
  function DisplaySays(part: Text, display: bool): (r: bool)
    ensures Starts(part, "display=") ==> r == (part[8..] == Raw("rendered"))
  {
    if Starts(part, "display=") then IsText(Strip(part, "display=").value, "rendered") else display
  }

  lemma RenderSays(part: Text)
    requires Starts(part, "render=")
    ensures IsText(Strip(part, "render=").value, "1") <==> part == Raw("render=1")
  {
  }

  // ---- Heads, formats and views -------------------------------------------

  lemma {:induction false} FirstValueIs(parts: seq<Text>, key: string, v: Text)
    ensures FirstValue(parts, key) == Some(v) <==>
              exists k: nat :: FirstWith(parts, key, k) && parts[k][|key|..] == v
    ensures FirstValue(parts, key) == None <==> forall j :: 0 <= j < |parts| ==> !Starts(parts[j], key)
  {
    if parts != [] {
      if Starts(parts[0], key) {
        assert FirstWith(parts, key, 0);
      } else {
        FirstValueIs(parts[1..], key, v);
        FirstLater(parts, key, v);
      }
    }
  }

  lemma FirstLater(parts: seq<Text>, key: string, v: Text)
    requires parts != [] && !Starts(parts[0], key)
    ensures (exists k: nat :: FirstWith(parts, key, k) && parts[k][|key|..] == v) <==>
              exists k: nat :: FirstWith(parts[1..], key, k) && parts[1..][k][|key|..] == v
    ensures (forall j :: 0 <= j < |parts| ==> !Starts(parts[j], key)) <==>
              forall j :: 0 <= j < |parts| - 1 ==> !Starts(parts[1..][j], key)
  {
    var rest := parts[1..];
    assert forall j :: 0 <= j < |rest| ==> rest[j] == parts[j + 1];
    if k: nat :| FirstWith(parts, key, k) && parts[k][|key|..] == v {
      assert FirstWith(rest, key, k - 1);
    }
    if k: nat :| FirstWith(rest, key, k) && rest[k][|key|..] == v {
      assert FirstWith(parts, key, k + 1);
    }
  }

  /** The first head given is the one, unless it is empty; the first format is, if it says
      so. */
  lemma FirstCounts(parts: seq<Text>, k: nat)
    ensures FirstWith(parts, "h=", k) ==>
              HeadOf(parts) == if parts[k] == Raw("h=") then None else Some(DecodeComponent(parts[k][2..]))
    ensures (forall j :: 0 <= j < |parts| ==> !Starts(parts[j], "h=")) ==> HeadOf(parts) == None
    ensures FirstWith(parts, "format=", k) ==> (FormatOf(parts) == Bundle <==> parts[k] == Raw("format=bundle"))
    ensures (forall j :: 0 <= j < |parts| ==> !Starts(parts[j], "format=")) ==> FormatOf(parts) == TarGz
  {
    if FirstWith(parts, "h=", k) { FirstValueIs(parts, "h=", parts[k][2..]); }
    if FirstWith(parts, "format=", k) { FirstValueIs(parts, "format=", parts[k][7..]); }
    FirstValueIs(parts, "h=", []);
    FirstValueIs(parts, "format=", []);
  }

  lemma DiffNext(v: DiffView, parts: seq<Text>)
    requires parts != []
    ensures DiffParts(v, parts) == DiffPart(DiffParts(v, parts[..|parts| - 1]), parts[|parts| - 1])
  {
    var front, last := parts[..|parts| - 1], parts[|parts| - 1];
    DiffPartsAppend(v, front, [last]);
    DiffOne(DiffParts(v, front), last);
    assert parts == front + [last];
  }

  /** A view's context is what was last given, if it is from 1 to 40. */
  lemma {:induction false} ContextGiven(parts: seq<Text>)
    ensures var context := LastValue(parts, "context=");
            DiffParts(PlainView, parts).context ==
              if context.None? then None
              else
                var n := ParseNumber(context.value);
                if n.None? || n.value < 1 || n.value > 40 then None else n
    decreases |parts|
  {
    if parts != [] {
      ContextGiven(parts[..|parts| - 1]);
      DiffNext(PlainView, parts);
    }
  }

  // ---- What is written ----------------------------------------------------

  /** An escape is a percent sign and two capital hex digits. */
  lemma EscapeIs(b: Byte)
    ensures var digits := Raw("0123456789ABCDEF");
            Escape(b) == Raw("%") + [digits[b / 16], digits[b % 16]]
  {
    UpperHexIs(b / 16);
    UpperHexIs(b % 16);
  }

  lemma UpperHexIs(n: nat)
    requires n < 16
    ensures UpperHex(n) == Raw("0123456789ABCDEF")[n]
  {
  }

  /** An anchor gives one line, or the first and the last of a range. */
  lemma AnchorIs(r: LineRange)
    ensures Anchor(r) == if r.start == r.end then Raw("#n") + Decimal(r.start)
                         else Raw("#n") + Decimal(r.start) + Raw("-n") + Decimal(r.end)
  {
  }

  lemma DecimalIs(n: nat, d: nat)
    requires d < 10
    ensures Decimal(d) == [Raw("0123456789")[d]]
    ensures n > 0 ==> Decimal(n * 10 + d) == Decimal(n) + [Raw("0123456789")[d]]
  {
    assert (n * 10 + d) / 10 == n && (n * 10 + d) % 10 == d;
  }
}
