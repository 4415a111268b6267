/** Attributes files, and the stack of them that answers for one path. */
module Attributes {
  import opened Bytes
  import opened Glob
  import opened Wildmatch

  /** An attribute's state on a path, and what a line may set it to. */
  datatype State = Set | Unset | Value(text: string) | Unspecified

  datatype Pattern = Pattern(text: seq<Byte>, dirOnly: bool, anchored: bool)
  datatype Line = Line(pattern: Pattern, settings: seq<(string, State)>)

  /** Attributes files, each with those of the directories above it. A file's patterns
      are for what follows the first `base` bytes of a path. */
  datatype Stack = Empty | File(lines: seq<Line>, base: nat, parent: Stack)

  // ---- Meaning ------------------------------------------------------------

  /** A trailing slash restricts a pattern to directories, a slash elsewhere ties
      it to the file's own directory. */
  function ParsePattern(text: seq<Byte>): Pattern {
    var dirOnly := text != [] && text[|text| - 1] == SLASH;
    var body := if dirOnly then text[..|text| - 1] else text;
    Pattern(if body != [] && body[0] == SLASH then body[1..] else body, dirOnly, SLASH in body)
  }

  /** What is after the last slash, if there is one. */
  function BaseName(path: seq<Byte>): seq<Byte> {
    if path == [] || path[|path| - 1] == SLASH then []
    else BaseName(path[..|path| - 1]) + [path[|path| - 1]]
  }

  ghost predicate Covers(p: Pattern, path: seq<Byte>, isDir: bool) {
    && (p.dirOnly ==> isDir)
    && (if p.anchored then Matches(Parse(p.text, true, true), path, 0)
        else Matches(Parse(p.text, true, false), BaseName(path), 0))
  }

  // ---- What the slashes of a pattern say ----------------------------------

  /** A trailing slash asks for a directory, and is otherwise no part of the pattern. */
  lemma DirOnlyCovers(body: seq<Byte>, path: seq<Byte>, isDir: bool)
    requires body == [] || body[|body| - 1] != SLASH
    ensures Covers(ParsePattern(body + [SLASH]), path, isDir) <==> isDir && Covers(ParsePattern(body), path, isDir)
  {
    var text := body + [SLASH];
    assert text[|text| - 1] == SLASH && text[..|text| - 1] == body;
  }

  /** With no other slash, a name is matched at any depth. */
  lemma BareAnyDepth(text: seq<Byte>, dir: seq<Byte>, name: seq<Byte>, isDir: bool)
    requires (forall k :: 0 <= k < |text| - 1 ==> text[k] != SLASH) && SLASH !in name
    ensures Covers(ParsePattern(text), dir + [SLASH] + name, isDir) <==> Covers(ParsePattern(text), name, isDir)
  {
    BaseNameIs(dir, name);
    BaseNameIs([], name);
    BareName(name);
  }

  lemma {:induction false} BareName(name: seq<Byte>)
    requires SLASH !in name
    ensures BaseName(name) == name
  {
    if name != [] { BareName(name[..|name| - 1]); }
  }

  lemma {:induction false} BaseNameIs(dir: seq<Byte>, name: seq<Byte>)
    requires SLASH !in name
    ensures BaseName(dir + [SLASH] + name) == name
  {
    var path := dir + [SLASH] + name;
    if name != [] {
      BaseNameIs(dir, name[..|name| - 1]);
      assert path[..|path| - 1] == dir + [SLASH] + name[..|name| - 1];
    }
  }

  /** With one, it is matched against the whole path, and without double stars only at
      the depth it spells out. */
  lemma AnchoredOneDepth(text: seq<Byte>, path: seq<Byte>, isDir: bool, k: nat)
    requires k < |text| - 1 && text[k] == SLASH && NoDoubleStar(ParsePattern(text).text)
    requires Covers(ParsePattern(text), path, isDir)
    ensures SlashCount(path, 0) == SlashesIn(Parse(ParsePattern(text).text, true, true))
  {
    var body := if text[|text| - 1] == SLASH then text[..|text| - 1] else text;
    assert body[k] == SLASH;
    SingleStarsStopAtSlashes(ParsePattern(text).text, path);
  }

  /** A plain name is that name at any depth, and with a slash at the front that name at
      the top alone. */
  lemma PlainNames(name: seq<Byte>, path: seq<Byte>, isDir: bool)
    requires Literal(name) && SLASH !in name && name != []
    ensures Covers(ParsePattern(name), path, isDir) <==> BaseName(path) == name
    ensures Covers(ParsePattern([SLASH] + name), path, isDir) <==> path == name
  {
    assert ([SLASH] + name)[1..] == name;
    LiteralMatches(name, true, false, BaseName(path), 0);
    LiteralMatches(name, true, true, path, 0);
    assert path[0..] == path && BaseName(path)[0..] == BaseName(path);
  }

  /** A slash at the front says no more than one further on does. */
  lemma LeadingSlashAnchors(text: seq<Byte>, k: nat)
    requires 0 < k < |text| - 1 && text[k] == SLASH && text[0] != SLASH
    ensures ParsePattern([SLASH] + text) == ParsePattern(text)
  {
    var more := [SLASH] + text;
    var body := if text[|text| - 1] == SLASH then text[..|text| - 1] else text;
    assert more[..|more| - 1] == [SLASH] + text[..|text| - 1];
    assert body[k] == SLASH && ([SLASH] + body)[1..] == body;
  }

  /** The first assignment to `attr` among `settings`. */
  function Assigned(settings: seq<(string, State)>, attr: string): Option<State> {
    if settings == [] then None
    else if settings[0].0 == attr then Some(settings[0].1)
    else Assigned(settings[1..], attr)
  }

  /** What one line says about `attr` on `path`. */
  ghost function LineSays(line: Line, path: seq<Byte>, isDir: bool, attr: string): Option<State> {
    if Covers(line.pattern, path, isDir) then Assigned(line.settings, attr) else None
  }

  /** What a whole file says: the last line with something to say decides. */
  ghost function FileSays(lines: seq<Line>, path: seq<Byte>, isDir: bool, attr: string): Option<State> {
    if lines == [] then None
    else
      var last := LineSays(lines[|lines| - 1], path, isDir, attr);
      if last.Some? then last else FileSays(lines[..|lines| - 1], path, isDir, attr)
  }

  /** The innermost file with something to say decides. */
  ghost function Answer(stack: Stack, path: seq<Byte>, isDir: bool, attr: string): State
    decreases stack
  {
    match stack
    case Empty => Unspecified
    case File(lines, base, parent) =>
      var says := if base <= |path| then FileSays(lines, path[base..], isDir, attr) else None;
      if says.Some? then says.value else Answer(parent, path, isDir, attr)
  }

  /** The last matching line wins, and silence means that no line matched. */
  lemma {:induction false} LastLineWins(lines: seq<Line>, path: seq<Byte>, isDir: bool, attr: string, s: State)
    ensures FileSays(lines, path, isDir, attr) == Some(s) <==>
            exists i :: 0 <= i < |lines| && LineSays(lines[i], path, isDir, attr) == Some(s) &&
                        forall j :: i < j < |lines| ==> LineSays(lines[j], path, isDir, attr) == None
    ensures FileSays(lines, path, isDir, attr) == None <==>
            forall i :: 0 <= i < |lines| ==> LineSays(lines[i], path, isDir, attr) == None
  {
    if lines != [] {
      var n := |lines| - 1;
      LastLineWins(lines[..n], path, isDir, attr, s);
      assert forall i :: 0 <= i < n ==> lines[..n][i] == lines[i];
    }
  }

  /** Of several assignments to one attribute the first stands. */
  lemma {:induction false} FirstSettingStands(settings: seq<(string, State)>, attr: string, s: State)
    ensures Assigned(settings, attr) == Some(s) <==>
            exists i :: 0 <= i < |settings| && settings[i] == (attr, s) &&
                        forall j :: 0 <= j < i ==> settings[j].0 != attr
    ensures Assigned(settings, attr) == None <==> forall i :: 0 <= i < |settings| ==> settings[i].0 != attr
  {
    if settings != [] && settings[0].0 != attr {
      var rest := settings[1..];
      FirstSettingStands(rest, attr, s);
      assert forall j :: 0 <= j < |rest| ==> rest[j] == settings[j + 1];
      forall i | 0 <= i < |settings| && settings[i] == (attr, s) ensures i > 0 && rest[i - 1] == (attr, s) {
      }
    }
  }

  /** The stack without its `n` innermost files. */
  function Outwards(stack: Stack, n: nat): Stack {
    if n == 0 || stack.Empty? then stack else Outwards(stack.parent, n - 1)
  }

  /** What the innermost file of a stack says of the path from its directory on. */
  ghost function OwnAnswer(stack: Stack, path: seq<Byte>, isDir: bool, attr: string): Option<State> {
    if stack.File? && stack.base <= |path| then FileSays(stack.lines, path[stack.base..], isDir, attr) else None
  }

  /** Does the file at that depth say `s`, with every one inside it silent? */
  ghost predicate Decides(stack: Stack, n: nat, path: seq<Byte>, isDir: bool, attr: string, s: State) {
    && OwnAnswer(Outwards(stack, n), path, isDir, attr) == Some(s)
    && forall m: nat :: m < n ==> OwnAnswer(Outwards(stack, m), path, isDir, attr) == None
  }

  ghost predicate Silent(stack: Stack, path: seq<Byte>, isDir: bool, attr: string) {
    forall n: nat :: OwnAnswer(Outwards(stack, n), path, isDir, attr) == None
  }

  /** The nearest file that says anything decides, and silence leaves the attribute
      unspecified. */
  lemma {:induction false} NearestFileWins(stack: Stack, path: seq<Byte>, isDir: bool, attr: string, s: State)
    ensures Answer(stack, path, isDir, attr) == s <==>
              || (exists n: nat :: Decides(stack, n, path, isDir, attr, s))
              || (s == Unspecified && Silent(stack, path, isDir, attr))
    decreases stack
  {
    assert Outwards(stack, 0) == stack;
    if stack.File? && OwnAnswer(stack, path, isDir, attr) == None {
      NearestFileWins(stack.parent, path, isDir, attr, s);
      Further(stack, path, isDir, attr, s);
    } else if stack.File? && Answer(stack, path, isDir, attr) == s {
      assert Decides(stack, 0, path, isDir, attr, s);
    }
  }

  /** When the innermost file is silent, what is outside it decides. */
  lemma Further(stack: Stack, path: seq<Byte>, isDir: bool, attr: string, s: State)
    requires stack.File? && OwnAnswer(stack, path, isDir, attr) == None
    ensures (exists n: nat :: Decides(stack, n, path, isDir, attr, s)) <==>
              (exists n: nat :: Decides(stack.parent, n, path, isDir, attr, s))
    ensures Silent(stack, path, isDir, attr) <==> Silent(stack.parent, path, isDir, attr)
  {
    assert Outwards(stack, 0) == stack;
    assert forall n: nat :: Outwards(stack, n + 1) == Outwards(stack.parent, n);
    if n: nat :| Decides(stack, n, path, isDir, attr, s) {
      assert Outwards(stack, n - 1 + 1) == Outwards(stack.parent, n - 1);
      DecidesNext(stack, n - 1, path, isDir, attr, s);
    }
    if n: nat :| Decides(stack.parent, n, path, isDir, attr, s) { DecidesNext(stack, n, path, isDir, attr, s); }
    forall n: nat | Silent(stack.parent, path, isDir, attr)
      ensures OwnAnswer(Outwards(stack, n), path, isDir, attr) == None
    {
      if n > 0 { assert Outwards(stack, n) == Outwards(stack.parent, n - 1); }
    }
  }

  lemma DecidesNext(stack: Stack, n: nat, path: seq<Byte>, isDir: bool, attr: string, s: State)
    requires stack.File? && OwnAnswer(stack, path, isDir, attr) == None
    ensures Decides(stack, n + 1, path, isDir, attr, s) <==> Decides(stack.parent, n, path, isDir, attr, s)
  {
    assert Outwards(stack, 0) == stack;
    assert forall m: nat :: Outwards(stack, m + 1) == Outwards(stack.parent, m);
    if Decides(stack.parent, n, path, isDir, attr, s) {
      forall m: nat | m < n + 1 ensures OwnAnswer(Outwards(stack, m), path, isDir, attr) == None {
        if m > 0 { assert Outwards(stack, m) == Outwards(stack.parent, m - 1); }
      }
    }
  }

  // ---- The lookup ---------------------------------------------------------

  method PatternMatches(p: Pattern, path: seq<Byte>, isDir: bool) returns (b: bool)
    requires NulFree(path)
    ensures b <==> Covers(p, path, isDir)
  {
    if p.dirOnly && !isDir {
      return false;
    }
    if p.anchored {
      b := Wildmatch.Wildmatch(p.text, path, true);
    } else {
      BaseNameNulFree(path);
      b := Wildmatch.Wildmatch(p.text, BaseName(path), false);
    }
  }

  lemma {:induction false} BaseNameNulFree(path: seq<Byte>)
    requires NulFree(path)
    ensures NulFree(BaseName(path))
  {
    if path != [] { BaseNameNulFree(path[..|path| - 1]); }
  }

  method Lookup(lines: seq<Line>, path: seq<Byte>, isDir: bool, attr: string) returns (r: Option<State>)
    requires NulFree(path)
    ensures r == FileSays(lines, path, isDir, attr)
  {
    var n := |lines|;
    assert lines[..n] == lines;
    while n > 0
      invariant 0 <= n <= |lines|
      invariant FileSays(lines[..n], path, isDir, attr) == FileSays(lines, path, isDir, attr)
    {
      n := n - 1;
      assert lines[..n + 1][..n] == lines[..n];
      var matched := PatternMatches(lines[n].pattern, path, isDir);
      if matched && Assigned(lines[n].settings, attr).Some? {
        return Assigned(lines[n].settings, attr);
      }
    }
    r := None;
  }

  method Check(stack: Stack, path: seq<Byte>, isDir: bool, attr: string) returns (r: State)
    requires NulFree(path)
    ensures r == Answer(stack, path, isDir, attr)
  {
    var node := stack;
    while node.File?
      invariant Answer(node, path, isDir, attr) == Answer(stack, path, isDir, attr)
      decreases node
    {
      if node.base <= |path| {
        var says := Lookup(node.lines, path[node.base..], isDir, attr);
        if says.Some? {
          return says.value;
        }
      }
      node := node.parent;
    }
    r := Unspecified;
  }
}
