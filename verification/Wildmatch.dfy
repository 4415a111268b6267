/** The backtracking matcher, with its two abort codes, proved to decide
`Glob.Matches` and never to prune a match away. */
module Wildmatch {
  import opened Bytes
  import opened Glob

  /** The answers at one position; what each failure says of other positions is
      `Verdict`. */
  datatype Outcome = Match | NoMatch | AbortAll | AbortToStarStar

  ghost predicate NulFree(s: seq<Byte>) {
    forall k :: 0 <= k < |s| ==> s[k] != 0
  }

  /** The byte at `i`, or 0 past the end. */
  function At(s: seq<Byte>, i: nat): Byte {
    if i < |s| then s[i] else 0
  }

  predicate IsGlobSpecial(c: Byte) {
    c == STAR || c == QUESTION || c == OPEN || c == BACKSLASH
  }

  // ---- What the outcomes mean ---------------------------------------------

  /** Later positions an abort speaks for. A pattern that opens with `Dirs` may also
      match nothing for it, so only a component's start counts there. */
  ghost predicate Startable(g: Glob, t: seq<Byte>, i: nat, m: nat)
    requires i <= m <= |t|
  {
    g.Dirs? ==> m == i || t[m - 1] == SLASH
  }

  /** What outcome `r`, for `g` tried at `i`, claims: `AbortAll` rules out every
      later position too, `AbortToStarStar` those up to and including the next
      slash. */
  ghost predicate Verdict(r: Outcome, g: Glob, t: seq<Byte>, i: nat, pathname: bool)
    requires i <= |t|
  {
    match r
    case Match => Matches(g, t, i)
    case NoMatch => !Matches(g, t, i)
    case AbortAll => forall m: nat :: i <= m <= |t| && Startable(g, t, i, m) ==> !Matches(g, t, m)
    case AbortToStarStar =>
      pathname && forall m: nat :: i <= m <= |t| && NoSlash(t, i, m) ==> !Matches(g, t, m)
  }

  /** Every claim about `h` at `j` carries over to `g` at `i`. */
  ghost predicate Carries(g: Glob, i: nat, h: Glob, j: nat, t: seq<Byte>, pathname: bool)
    requires i <= |t| && j <= |t|
  {
    forall r :: Verdict(r, h, t, j, pathname) ==> Verdict(r, g, t, i, pathname)
  }

  /** Every verdict settles the question asked: only `Match` is a match. */
  lemma VerdictDecides(r: Outcome, g: Glob, t: seq<Byte>, i: nat, pathname: bool)
    requires i <= |t| && Verdict(r, g, t, i, pathname)
    ensures r == Match <==> Matches(g, t, i)
  {
    assert Startable(g, t, i, i) && NoSlash(t, i, i);
  }

  /** What an `AbortAll` leaves open. A later position can still match only
      through a leading `Dirs` that matches nothing there; any other pattern is
      ruled out from here on. */
  lemma AbortAllIsFinal(g: Glob, t: seq<Byte>, i: nat, m: nat, pathname: bool)
    requires i < m <= |t| && Verdict(AbortAll, g, t, i, pathname)
    ensures Matches(g, t, m) <==> g.Dirs? && Matches(g.rest, t, m)
  {
    if g.Dirs? {
      forall j: nat | m <= j < |t| && t[j] == SLASH
        ensures !Matches(g.rest, t, j + 1)
      {
        assert Startable(g, t, i, j + 1) && !Matches(g, t, j + 1);
      }
    } else {
      assert Startable(g, t, i, m);
    }
  }

  lemma ParseLeadingDirs(p: seq<Byte>)
    requires 2 < |p| && p[0] == STAR && p[1] == STAR && p[2] == SLASH
    ensures Parse(p, true, true) == Dirs(Parse(p[3..], true, true))
  {
    StarRunIs(p, 2);
  }

  // ---- Lemmas -------------------------------------------------------------

  lemma {:induction false} MatchesShift(g: Glob, t: seq<Byte>, i: nat, j: nat)
    requires i + j <= |t|
    ensures Matches(g, t[i..], j) <==> Matches(g, t, i + j)
    decreases g
  {
    var u := t[i..];
    match g
    case End =>
    case Never =>
    case One(chars, rest) =>
      if j < |u| { MatchesShift(rest, t, i, j + 1); }
    case Star(spans, rest) =>
      forall k: nat | j <= k <= |u|
        ensures Matches(rest, u, k) <==> Matches(rest, t, i + k)
        ensures NoSlash(u, j, k) <==> NoSlash(t, i + j, i + k)
      {
        MatchesShift(rest, t, i, k);
        if NoSlash(u, j, k) {
          forall x | i + j <= x < i + k ensures t[x] != SLASH { assert t[x] == u[x - i]; }
        }
      }
      if exists k: nat :: i + j <= k <= |t| && (spans || NoSlash(t, i + j, k)) && Matches(rest, t, k) {
        var k: nat :| i + j <= k <= |t| && (spans || NoSlash(t, i + j, k)) && Matches(rest, t, k);
        assert Matches(rest, u, k - i);
      }
    case Dirs(rest) =>
      MatchesShift(rest, t, i, j);
      forall k: nat | j < k <= |u|
        ensures Matches(rest, u, k) <==> Matches(rest, t, i + k)
      {
        MatchesShift(rest, t, i, k);
      }
      if exists k: nat :: i + j <= k < |t| && t[k] == SLASH && Matches(rest, t, k + 1) {
        var k: nat :| i + j <= k < |t| && t[k] == SLASH && Matches(rest, t, k + 1);
        assert u[k - i] == SLASH && Matches(rest, u, k - i + 1);
      }
  }

  lemma VerdictShift(r: Outcome, g: Glob, t: seq<Byte>, i: nat, pathname: bool)
    requires i <= |t| && Verdict(r, g, t[i..], 0, pathname)
    ensures Verdict(r, g, t, i, pathname)
  {
    var u := t[i..];
    forall m: nat | i <= m <= |t|
      ensures Matches(g, u, m - i) <==> Matches(g, t, m)
      ensures Startable(g, t, i, m) ==> Startable(g, u, 0, m - i)
      ensures NoSlash(t, i, m) ==> NoSlash(u, 0, m - i)
    {
      MatchesShift(g, t, i, m - i);
    }
  }

  /** A single-character element that accepts the next byte. */
  lemma StepOne(chars: CharSet, rest: Glob, t: seq<Byte>, i: nat, pathname: bool)
    requires i < |t| && In(t[i], chars)
    requires rest.Dirs? ==> chars == Exactly(SLASH)
    requires pathname ==> chars.Exactly? || !chars.slashToo
    ensures Carries(One(chars, rest), i, rest, i + 1, t, pathname)
  {
    var g := One(chars, rest);
    if Verdict(AbortAll, rest, t, i + 1, pathname) {
      forall m: nat | i <= m <= |t| ensures !Matches(g, t, m) {
        if Matches(g, t, m) { assert Startable(rest, t, i + 1, m + 1); }
      }
    }
    if Verdict(AbortToStarStar, rest, t, i + 1, pathname) {
      forall m: nat | i <= m <= |t| && NoSlash(t, i, m) ensures !Matches(g, t, m) {
        if Matches(g, t, m) { assert NoSlash(t, i + 1, m + 1); }
      }
    }
  }

  /** Between a star that does not span and a slash, all verdicts are those from the next
      slash of the text. */
  lemma StepStarSlash(rest: Glob, t: seq<Byte>, i: nat, s: nat, pathname: bool)
    requires i <= s < |t| && NoSlash(t, i, s) && t[s] == SLASH
    ensures Carries(Star(false, One(Exactly(SLASH), rest)), i, rest, s + 1, t, pathname)
  {
    var slash := One(Exactly(SLASH), rest);
    var g := Star(false, slash);
    forall m: nat | i <= m <= |t| && Matches(g, t, m)
      ensures exists j: nat :: m <= j < |t| && s <= j && NoSlash(t, m, j) && t[j] == SLASH && Matches(rest, t, j + 1)
    {
      var j: nat :| m <= j <= |t| && NoSlash(t, m, j) && Matches(slash, t, j);
      assert s <= j;
    }
    if Matches(rest, t, s + 1) {
      assert Matches(slash, t, s);
    }
    if Verdict(AbortAll, rest, t, s + 1, pathname) {
      assert forall j: nat :: s <= j < |t| && t[j] == SLASH ==> Startable(rest, t, s + 1, j + 1);
    }
    if Verdict(AbortToStarStar, rest, t, s + 1, pathname) {
      assert NoSlash(t, s + 1, s + 1);
      assert forall m: nat :: m <= |t| && NoSlash(t, i, m) ==> m <= s;
    }
  }

  /** A `Dirs` is a spanning star before a slash, once matching nothing is ruled out. */
  lemma DirsFromStar(r: Outcome, rest: Glob, t: seq<Byte>, i: nat, pathname: bool)
    requires i <= |t| && !Matches(rest, t, i) && r != AbortToStarStar
    requires Verdict(r, Star(true, One(Exactly(SLASH), rest)), t, i, pathname)
    ensures Verdict(r, Dirs(rest), t, i, pathname)
  {
    var star := Star(true, One(Exactly(SLASH), rest));
    DirsIsStar(rest, t, i);
    if r == AbortAll {
      forall m: nat | i <= m <= |t| && Startable(Dirs(rest), t, i, m) ensures !Matches(Dirs(rest), t, m) {
        DirsIsStar(rest, t, m);
        assert Startable(star, t, i, m);
        if i < m {
          DirsIsStar(rest, t, m - 1);
          assert Startable(star, t, i, m - 1) && t[m - 1] == SLASH;
        }
      }
    }
  }

  lemma DirsIsStar(rest: Glob, t: seq<Byte>, i: nat)
    requires i <= |t|
    ensures Matches(Dirs(rest), t, i) <==>
            Matches(rest, t, i) || Matches(Star(true, One(Exactly(SLASH), rest)), t, i)
    ensures i < |t| && t[i] == SLASH && Matches(rest, t, i + 1) ==>
              Matches(Star(true, One(Exactly(SLASH), rest)), t, i)
  {
    var slash := One(Exactly(SLASH), rest);
    forall j: nat | i <= j <= |t|
      ensures Matches(slash, t, j) <==> j < |t| && t[j] == SLASH && Matches(rest, t, j + 1)
    {
    }
  }

  /** Away from a star, a pattern that is not empty consumes a byte or fails. */
  lemma ParseHead(p: seq<Byte>, opens: bool, pathname: bool)
    requires p != [] && p[0] != STAR
    ensures var g := Parse(p, opens, pathname);
            (g.One? || g.Never?) && g == Parse(p, !opens, pathname)
  {
  }

  lemma ParseDirs(p: seq<Byte>, opens: bool, pathname: bool)
    ensures Parse(p, opens, pathname).Dirs? ==> opens
  {
  }

  ghost predicate Literal(p: seq<Byte>) {
    forall k :: 0 <= k < |p| ==> !IsGlobSpecial(p[k])
  }

  /** A pattern with no special byte matches itself and nothing else. */
  lemma {:induction false} LiteralMatches(p: seq<Byte>, opens: bool, pathname: bool, t: seq<Byte>, i: nat)
    requires Literal(p) && i <= |t|
    ensures Matches(Parse(p, opens, pathname), t, i) <==> t[i..] == p
    decreases |p|
  {
    if p != [] && i < |t| {
      LiteralMatches(p[1..], p[0] == SLASH, pathname, t, i + 1);
      assert t[i..] == [t[i]] + t[i + 1..];
    }
  }

  /** Every byte set stays within a component and no star crosses one. */
  ghost predicate StaysInComponent(g: Glob) {
    match g
    case End => true
    case Never => true
    case One(chars, rest) => (chars.Exactly? || !chars.slashToo) && StaysInComponent(rest)
    case Star(spans, rest) => !spans && StaysInComponent(rest)
    case Dirs(_) => false
  }

  /** The slashes a pattern asks for by name. */
  ghost function SlashesIn(g: Glob): nat {
    match g
    case End => 0
    case Never => 0
    case One(chars, rest) => (if chars == Exactly(SLASH) then 1 else 0) + SlashesIn(rest)
    case Star(_, rest) => SlashesIn(rest)
    case Dirs(rest) => SlashesIn(rest)
  }

  ghost function SlashCount(t: seq<Byte>, i: nat): nat
    requires i <= |t|
    decreases |t| - i
  {
    if i == |t| then 0 else (if t[i] == SLASH then 1 else 0) + SlashCount(t, i + 1)
  }

  ghost predicate NoDoubleStar(p: seq<Byte>) {
    forall k :: 0 <= k < |p| - 1 ==> !(p[k] == STAR && p[k + 1] == STAR)
  }

  lemma {:induction false} ParseStays(p: seq<Byte>, opens: bool)
    requires NoDoubleStar(p)
    ensures StaysInComponent(Parse(p, opens, true))
    decreases |p|
  {
    if p == [] {
    } else if p[0] == STAR {
      StarRunIs(p, 1);
      ParseStays(p[1..], false);
    } else {
      var e := ReadElement(p, true);
      if e.Element? { ParseStays(p[e.len..], p[e.len - 1] == SLASH); }
    }
  }

  lemma {:induction false} SlashCountSkips(t: seq<Byte>, i: nat, j: nat)
    requires i <= j <= |t| && NoSlash(t, i, j)
    ensures SlashCount(t, i) == SlashCount(t, j)
    decreases j - i
  {
    if i < j { SlashCountSkips(t, i + 1, j); }
  }

  lemma {:induction false} StaysKeepsSlashes(g: Glob, t: seq<Byte>, i: nat)
    requires i <= |t| && StaysInComponent(g) && Matches(g, t, i)
    ensures SlashCount(t, i) == SlashesIn(g)
    decreases g
  {
    match g
    case End =>
    case Never =>
    case Dirs(_) =>
    case One(chars, rest) => StaysKeepsSlashes(rest, t, i + 1);
    case Star(spans, rest) =>
      var j: nat :| i <= j <= |t| && NoSlash(t, i, j) && Matches(rest, t, j);
      SlashCountSkips(t, i, j);
      StaysKeepsSlashes(rest, t, j);
  }

  /** Against a path, a pattern without a double star never crosses a slash: it
      matches only texts with exactly the slashes it spells out. */
  lemma SingleStarsStopAtSlashes(p: seq<Byte>, t: seq<Byte>)
    requires NoDoubleStar(p) && Matches(Parse(p, true, true), t, 0)
    ensures SlashCount(t, 0) == SlashesIn(Parse(p, true, true))
  {
    ParseStays(p, true);
    StaysKeepsSlashes(Parse(p, true, true), t, 0);
  }

  // ---- The matcher --------------------------------------------------------

  method Wildmatch(pattern: seq<Byte>, text: seq<Byte>, pathname: bool) returns (b: bool)
    requires NulFree(text)
    ensures b <==> Matches(Parse(pattern, true, pathname), text, 0)
  {
    var r := DoWild(pattern, text, pathname);
    VerdictDecides(r, Parse(pattern, true, pathname), text, 0, pathname);
    b := r == Match;
  }

  // It does leave some open: the matcher gives up for good on **/f at the start of Xf,
  // which that pattern matches one byte further on.
  method AbortAllMissesDirs() returns (r: Outcome)
    ensures var g := Parse([STAR, STAR, SLASH, 'f' as int], true, true);
            r == AbortAll && Matches(g, ['X' as int, 'f' as int], 1)
  {
    var p, t := [STAR, STAR, SLASH, 'f' as int], ['X' as int, 'f' as int];
    ghost var f := p[3..];
    ParseLeadingDirs(p);
    LiteralMatches(f, true, true, t, 0);
    LiteralMatches(f, true, true, t, 1);
    assert t[1..] == f && t[0..] != f;
    r := DoWild(p, t, true);
    VerdictDecides(r, Dirs(Parse(f, true, true)), t, 0, true);
  }

  /** What is left of the pattern `p` from `i` on. */
  ghost function Rest(p: seq<Byte>, i: nat, pathname: bool): Glob
    requires i <= |p|
  {
    Parse(p[i..], i == 0 || p[i - 1] == SLASH, pathname)
  }

  method DoWild(p: seq<Byte>, text: seq<Byte>, pathname: bool) returns (r: Outcome)
    requires NulFree(text)
    ensures Verdict(r, Parse(p, true, pathname), text, 0, pathname)
    ensures Parse(p, true, pathname).Dirs? ==> r in {Match, AbortAll}
    decreases |p|, 2
  {
    assert p[0..] == p;
    var pi: nat, ti: nat := 0, 0;
    while pi < |p|
      invariant pi <= |p| && ti <= |text|
      invariant Carries(Rest(p, 0, pathname), 0, Rest(p, pi, pathname), ti, text, pathname)
      invariant pi == 0 || !Rest(p, 0, pathname).Dirs?
    {
      ghost var i, t := pi, ti;
      var stop;
      stop, r, pi, ti := Step(p, pi, text, ti, pathname);
      if stop {
        return;
      }
      CarriesOn(p, i, t, pi, ti, text, pathname);
    }
    assert p[pi..] == [];
    r := if ti < |text| then NoMatch else Match;
    assert Verdict(r, Rest(p, pi, pathname), text, ti, pathname);
  }

  lemma CarriesOn(p: seq<Byte>, i: nat, t: nat, pi: nat, ti: nat, text: seq<Byte>, pathname: bool)
    requires i <= |p| && pi <= |p| && t <= |text| && ti <= |text|
    requires Carries(Rest(p, 0, pathname), 0, Rest(p, i, pathname), t, text, pathname)
    requires Carries(Rest(p, i, pathname), t, Rest(p, pi, pathname), ti, text, pathname)
    ensures Carries(Rest(p, 0, pathname), 0, Rest(p, pi, pathname), ti, text, pathname)
  {
  }

  /** One turn of the matcher at `start` of the pattern and `from` of the text:
      an outcome, or the positions to go on from. */
  method Step(p: seq<Byte>, start: nat, text: seq<Byte>, from: nat, pathname: bool)
    returns (stop: bool, r: Outcome, pi: nat, ti: nat)
    requires NulFree(text) && start < |p| && from <= |text|
    ensures pi <= |p| && ti <= |text|
    ensures if stop then Verdict(r, Rest(p, start, pathname), text, from, pathname)
            else start < pi && Carries(Rest(p, start, pathname), from, Rest(p, pi, pathname), ti, text, pathname)
    ensures Rest(p, start, pathname).Dirs? ==> stop && r in {Match, AbortAll}
    decreases |p|, 1
  {
    var pCh, tCh := p[start], At(text, from);
    if tCh == 0 && pCh != STAR {
      ParseHead(p[start..], start == 0 || p[start - 1] == SLASH, pathname);
      TextOver(p, start, text, pathname);
      return true, AbortAll, start, from;
    }
    if pCh == STAR {
      stop, r, pi, ti := MatchStar(p, start, text, from, pathname);
      return;
    }
    stop, r, pi := MatchElement(p, start, tCh, pathname);
    ti := if stop then from else from + 1;
    ElementStep(stop, r, p, start, pi, text, from, pathname);
  }

  /** What an element says of the byte it was tried on, it says of the pattern. */
  lemma ElementStep(stop: bool, r: Outcome, p: seq<Byte>, i: nat, pi: nat, text: seq<Byte>, t: nat, pathname: bool)
    requires i < |p| && p[i] != STAR && t < |text| && pi <= |p|
    requires ElementTried(stop, r, ReadElement(p[i..], pathname), pi - i, text[t])
    ensures !Rest(p, i, pathname).Dirs?
    ensures stop ==> Verdict(r, Rest(p, i, pathname), text, t, pathname)
    ensures !stop ==> i < pi && Carries(Rest(p, i, pathname), t, Rest(p, pi, pathname), t + 1, text, pathname)
  {
    ParseHead(p[i..], i == 0 || p[i - 1] == SLASH, pathname);
    if stop {
      ElementFails(r, p, i, text, t, pathname);
    } else {
      ElementRest(p, i, pathname);
      StepOne(ReadElement(p[i..], pathname).chars, Rest(p, pi, pathname), text, t, pathname);
    }
  }

  lemma TextOver(p: seq<Byte>, i: nat, text: seq<Byte>, pathname: bool)
    requires i < |p| && p[i] != STAR
    ensures Verdict(AbortAll, Rest(p, i, pathname), text, |text|, pathname)
  {
    ParseHead(p[i..], i == 0 || p[i - 1] == SLASH, pathname);
  }

  lemma ElementFails(r: Outcome, p: seq<Byte>, i: nat, text: seq<Byte>, t: nat, pathname: bool)
    requires i < |p| && p[i] != STAR && t < |text|
    requires ElementTried(true, r, ReadElement(p[i..], pathname), 0, text[t])
    ensures Verdict(r, Rest(p, i, pathname), text, t, pathname)
  {
  }

  lemma ElementRest(p: seq<Byte>, i: nat, pathname: bool)
    requires i < |p| && p[i] != STAR && ReadElement(p[i..], pathname).Element?
    ensures var e := ReadElement(p[i..], pathname);
            var g := Rest(p, i + e.len, pathname);
            && Rest(p, i, pathname) == One(e.chars, g)
            && (g.Dirs? ==> e.chars == Exactly(SLASH))
  {
    var q := p[i..];
    var n := ReadElement(q, pathname).len;
    ParseElement(q, i == 0 || p[i - 1] == SLASH, pathname);
    assert q[n..] == p[i + n..] && q[n - 1] == p[i + n - 1];
  }

  lemma ParseElement(q: seq<Byte>, opens: bool, pathname: bool)
    requires q != [] && q[0] != STAR && ReadElement(q, pathname).Element?
    ensures var e := ReadElement(q, pathname);
            var g := Parse(q[e.len..], q[e.len - 1] == SLASH, pathname);
            Parse(q, opens, pathname) == One(e.chars, g) && (g.Dirs? ==> e.chars == Exactly(SLASH))
  {
    var e := ReadElement(q, pathname);
    ParseDirs(q[e.len..], q[e.len - 1] == SLASH, pathname);
  }

  /** What trying one element against `tCh` may answer: it stops the match, or it
      accepts the byte. */
  ghost predicate ElementTried(stop: bool, r: Outcome, e: Element, len: int, tCh: Byte) {
    if stop then
      || (r == NoMatch && (e.Element? ==> !In(tCh, e.chars)))
      || (r == AbortAll && e.BadElement?)
    else
      e.Element? && In(tCh, e.chars) && len == e.len
  }

  /** Any element but a star. */
  method MatchElement(p: seq<Byte>, start: nat, tCh: Byte, pathname: bool)
    returns (stop: bool, r: Outcome, pi: nat)
    requires start < |p| && p[start] != STAR && tCh != 0
    ensures pi <= |p|
    ensures ElementTried(stop, r, ReadElement(p[start..], pathname), pi - start, tCh)
  {
    stop, r, pi := true, NoMatch, start;
    var pCh := p[start];
    if pCh == BACKSLASH {
      pi := pi + 1;
      if tCh != At(p, pi) { return; }
    } else if pCh == QUESTION {
      if pathname && tCh == SLASH { return; }
    } else if pCh == OPEN {
      pi := pi + 1;
      var negated := At(p, pi) == BANG || At(p, pi) == CARET;
      if negated { pi := pi + 1; }
      assert p[start..][pi - start..] == p[pi..];
      var bad, matched;
      bad, matched, pi := MatchClass(p, pi, tCh);
      if bad {
        r := AbortAll;
        return;
      }
      if matched == negated || (pathname && tCh == SLASH) { return; }
    } else {
      if tCh != pCh { return; }
    }
    stop, pi := false, pi + 1;
  }

  /** How the star or run of stars at `start` reads: where it ends, whether it
      crosses slashes, and whether it is a `Dirs`. */
  method ReadStar(p: seq<Byte>, start: nat, pathname: bool)
    returns (pi: nat, matchSlash: bool, dirs: bool)
    requires start < |p| && p[start] == STAR
    ensures start < pi <= |p| && (pi < |p| ==> p[pi] != STAR)
    ensures forall k :: start <= k < pi ==> p[k] == STAR
    ensures matchSlash == (!pathname || Alone(p, start, pi))
    ensures dirs == (pathname && Alone(p, start, pi) && pi < |p| && p[pi] == SLASH)
  {
    pi, dirs := start + 1, false;
    if At(p, pi) == STAR {
      var firstExtra := pi;
      while At(p, pi) == STAR
        invariant firstExtra <= pi <= |p|
        invariant forall k :: start <= k < pi ==> p[k] == STAR
        decreases |p| - pi
      {
        pi := pi + 1;
      }
      var startsComponent := firstExtra < 2 || p[firstExtra - 2] == SLASH;
      var endsComponent := pi >= |p| || At(p, pi) == SLASH || (At(p, pi) == BACKSLASH && At(p, pi + 1) == SLASH);
      if !pathname {
        matchSlash := true;
      } else if startsComponent && endsComponent {
        dirs := At(p, pi) == SLASH;
        matchSlash := true;
      } else {
        matchSlash := false;
      }
    } else {
      matchSlash := !pathname;
    }
  }

  /** The stars from `i` to `n` are two or more and a whole path component. */
  predicate Alone(p: seq<Byte>, i: nat, n: nat)
    requires i <= n <= |p|
  {
    n > i + 1 && (i == 0 || p[i - 1] == SLASH) && AtBoundary(p[n..])
  }

  /** A run of stars from `i` to `n`, read whole. */
  lemma RestStar(p: seq<Byte>, i: nat, n: nat, pathname: bool)
    requires i < n <= |p| && (forall k :: i <= k < n ==> p[k] == STAR) && (n < |p| ==> p[n] != STAR)
    ensures Rest(p, i, pathname) ==
            if pathname && Alone(p, i, n) && n < |p| && p[n] == SLASH then Dirs(Rest(p, n + 1, pathname))
            else Star(!pathname || Alone(p, i, n), Parse(p[n..], false, pathname))
  {
    var q := p[i..];
    StarRunIs(q, n - i);
    assert q[n - i..] == p[n..];
    assert n < |p| ==> q[n - i + 1..] == p[n + 1..];
  }

  /** A star at `start`. */
  method MatchStar(p: seq<Byte>, start: nat, text: seq<Byte>, from: nat, pathname: bool)
    returns (stop: bool, r: Outcome, pi: nat, ti: nat)
    requires NulFree(text) && start < |p| && p[start] == STAR && from <= |text|
    ensures pi <= |p| && ti <= |text|
    ensures if stop then Verdict(r, Rest(p, start, pathname), text, from, pathname)
            else start < pi && Carries(Rest(p, start, pathname), from, Rest(p, pi, pathname), ti, text, pathname)
    ensures Rest(p, start, pathname).Dirs? ==> stop && r in {Match, AbortAll}
    decreases |p|, 0
  {
    var matchSlash, dirs;
    pi, matchSlash, dirs := ReadStar(p, start, pathname);
    RestStar(p, start, pi, pathname);
    if dirs {
      ti := from;
      var inner := DoWild(p[pi + 1..], text[from..], pathname);
      VerdictShift(inner, Rest(p, pi + 1, pathname), text, from, pathname);
      VerdictDecides(inner, Rest(p, pi + 1, pathname), text, from, pathname);
      if inner == Match {
        return true, Match, pi, from;
      }
      r := StarLoop(p[pi..], text, from, matchSlash, pathname);
      SlashRest(p, pi, pathname);
      DirsFromStar(r, Rest(p, pi + 1, pathname), text, from, pathname);
      stop := true;
    } else {
      stop, r, pi, ti := AfterStar(p, pi, text, from, matchSlash, pathname);
    }
  }

  /** What follows the stars that end at `from`, which are no `Dirs`. */
  method AfterStar(p: seq<Byte>, start: nat, text: seq<Byte>, from: nat, matchSlash: bool, pathname: bool)
    returns (stop: bool, r: Outcome, pi: nat, ti: nat)
    requires NulFree(text) && 0 < start <= |p| && from <= |text|
    requires start < |p| ==> p[start] != STAR
    requires !matchSlash ==> pathname
    ensures pi <= |p| && ti <= |text|
    ensures var star := Star(matchSlash, Parse(p[start..], false, pathname));
            if stop then Verdict(r, star, text, from, pathname)
            else start < pi && Carries(star, from, Rest(p, pi, pathname), ti, text, pathname)
    decreases |p[start..]|, 6
  {
    stop, pi, ti := true, start, from;
    if pi >= |p| {
      StarAtEnd(text, from, matchSlash, pathname);
      r := if !matchSlash && SLASH in text[ti..] then AbortToStarStar else Match;
    } else if !matchSlash && At(p, pi) == SLASH {
      SlashRest(p, pi, pathname);
      var s := Find(text, ti, SLASH);
      if s == |text| {
        NoStarSlash(Rest(p, pi + 1, pathname), text, from, pathname);
        r := AbortAll;
      } else {
        StepStarSlash(Rest(p, pi + 1, pathname), text, from, s, pathname);
        stop, r, pi, ti := false, NoMatch, pi + 1, s + 1;
      }
    } else {
      r := StarLoop(p[pi..], text, from, matchSlash, pathname);
    }
  }

  lemma SlashRest(p: seq<Byte>, i: nat, pathname: bool)
    requires i < |p| && p[i] == SLASH
    ensures Parse(p[i..], false, pathname) == One(Exactly(SLASH), Rest(p, i + 1, pathname))
  {
    assert p[i..][1..] == p[i + 1..];
  }

  lemma NoStarSlash(rest: Glob, t: seq<Byte>, i: nat, pathname: bool)
    requires i <= |t| && NoSlash(t, i, |t|)
    ensures Verdict(AbortAll, Star(false, One(Exactly(SLASH), rest)), t, i, pathname)
  {
  }

  lemma {:induction false} StarRunIs(p: seq<Byte>, n: nat)
    requires n <= |p| && (forall k :: 0 <= k < n ==> p[k] == STAR)
    requires n < |p| ==> p[n] != STAR
    ensures StarRun(p) == n
  {
    if n > 0 { StarRunIs(p[1..], n - 1); }
  }

  lemma StarAtEnd(t: seq<Byte>, i: nat, spans: bool, pathname: bool)
    requires i <= |t|
    ensures spans || SLASH !in t[i..] ==> Verdict(Match, Star(spans, End), t, i, pathname)
    ensures pathname && !spans && SLASH in t[i..] ==> Verdict(AbortToStarStar, Star(spans, End), t, i, pathname)
  {
    if spans || SLASH !in t[i..] {
      forall k | i <= k < |t| && !spans ensures t[k] != SLASH { assert t[k] in t[i..]; }
      assert spans || NoSlash(t, i, |t|);
      assert Matches(End, t, |t|);
    } else {
      var k :| 0 <= k < |t| - i && t[i..][k] == SLASH;
      forall m: nat | i <= m <= |t| && NoSlash(t, i, m) ensures !Matches(Star(spans, End), t, m) {
        assert t[i + k] == SLASH && m <= i + k;
      }
    }
  }

  /** Try the pattern `q` after a star at every length the star may take. */
  method StarLoop(q: seq<Byte>, text: seq<Byte>, from: nat, matchSlash: bool, pathname: bool)
    returns (r: Outcome)
    requires NulFree(text) && from <= |text|
    requires q != [] && q[0] != STAR && (!matchSlash ==> pathname && q[0] != SLASH)
    ensures Verdict(r, Star(matchSlash, Parse(q, false, pathname)), text, from, pathname)
    ensures r != NoMatch && (r == AbortToStarStar ==> !matchSlash)
    decreases |q|, 5
  {
    ParseHead(q, false, pathname);
    var ti := from;
    var tCh := At(text, ti);
    while tCh != 0
      invariant ti <= |text| + 1 && tCh == At(text, ti)
      invariant StarTried(Parse(q, false, pathname), text, from, ti, matchSlash)
      decreases |text| + 1 - ti
    {
      var stop;
      stop, r, ti := StarTurn(q, text, from, ti, matchSlash, pathname);
      if stop {
        return;
      }
      tCh := At(text, ti);
    }
    StarFails(Parse(q, false, pathname), text, from, |text|, matchSlash, pathname);
    r := AbortAll;
  }

  /** Every length that ends before `ti` has failed, and the star can reach `ti`. */
  ghost predicate StarTried(g: Glob, t: seq<Byte>, from: nat, ti: nat, spans: bool)
  {
    && from <= ti && (!spans ==> forall k :: from <= k < ti && k < |t| ==> t[k] != SLASH)
    && forall m: nat :: from <= m < ti && m <= |t| ==> !Matches(g, t, m)
  }

  /** Skip what cannot begin the rest, and try it where it can. */
  method StarTurn(q: seq<Byte>, text: seq<Byte>, from: nat, start: nat, matchSlash: bool, pathname: bool)
    returns (stop: bool, r: Outcome, ti: nat)
    requires NulFree(text) && from <= start < |text|
    requires q != [] && q[0] != STAR && (!matchSlash ==> pathname && q[0] != SLASH)
    requires StarTried(Parse(q, false, pathname), text, from, start, matchSlash)
    ensures stop ==> Verdict(r, Star(matchSlash, Parse(q, false, pathname)), text, from, pathname)
    ensures stop ==> r != NoMatch && (r == AbortToStarStar ==> !matchSlash)
    ensures !stop ==> start < ti <= |text| + 1 && StarTried(Parse(q, false, pathname), text, from, ti, matchSlash)
    decreases |q|, 4
  {
    ghost var g := Parse(q, false, pathname);
    ParseHead(q, false, pathname);
    ti := start;
    var tCh := At(text, ti);
    if !IsGlobSpecial(q[0]) {
      var pCh := q[0];
      ti, tCh := SkipTo(text, ti, pCh, matchSlash);
      Skipped(q, text, from, start, ti, matchSlash, pathname);
      if tCh != pCh {
        StarFails(g, text, from, ti, matchSlash, pathname);
        return true, if matchSlash then AbortAll else AbortToStarStar, ti;
      }
    }
    r := TryAt(q, text, ti, pathname);
    if r != NoMatch {
      if !matchSlash || r != AbortToStarStar {
        StarPasses(r, g, text, from, ti, matchSlash, pathname);
        return true, r, ti;
      }
    } else if !matchSlash && tCh == SLASH {
      StarFails(g, text, from, ti, matchSlash, pathname);
      return true, AbortToStarStar, ti;
    }
    return false, NoMatch, ti + 1;
  }

  /** What is skipped cannot begin the rest, whose first byte is plain. */
  lemma Skipped(q: seq<Byte>, t: seq<Byte>, from: nat, start: nat, ti: nat, spans: bool, pathname: bool)
    requires q != [] && !IsGlobSpecial(q[0]) && start <= ti <= |t|
    requires StarTried(Parse(q, false, pathname), t, from, start, spans) && (!spans ==> NoSlash(t, start, ti))
    requires forall k :: start <= k < ti ==> t[k] != q[0]
    ensures StarTried(Parse(q, false, pathname), t, from, ti, spans)
    ensures At(t, ti) != q[0] ==> !Matches(Parse(q, false, pathname), t, ti)
  {
  }

  /** Try the pattern `q` from `ti` on. */
  method TryAt(q: seq<Byte>, text: seq<Byte>, ti: nat, pathname: bool) returns (r: Outcome)
    requires NulFree(text) && ti <= |text| && q != [] && q[0] != STAR
    ensures var g := Parse(q, false, pathname);
            Verdict(r, g, text, ti, pathname) && (r == Match <==> Matches(g, text, ti))
    decreases |q|, 3
  {
    ghost var g := Parse(q, false, pathname);
    ParseHead(q, false, pathname);
    r := DoWild(q, text[ti..], pathname);
    VerdictShift(r, g, text, ti, pathname);
    VerdictDecides(r, g, text, ti, pathname);
  }

  /** The first `c` from `from` on; if the star may not cross a slash, then no further
      than the first slash. */
  method SkipTo(text: seq<Byte>, from: nat, c: Byte, matchSlash: bool) returns (ti: nat, tCh: Byte)
    requires NulFree(text) && from <= |text|
    ensures from <= ti <= |text| && tCh == At(text, ti)
    ensures forall k :: from <= k < ti ==> text[k] != c
    ensures !matchSlash ==> NoSlash(text, from, ti)
    ensures tCh == 0 || tCh == c || (!matchSlash && tCh == SLASH)
  {
    ti := from;
    tCh := At(text, ti);
    while tCh != 0 && (matchSlash || tCh != SLASH) && tCh != c
      invariant from <= ti <= |text| && tCh == At(text, ti)
      invariant forall k :: from <= k < ti ==> text[k] != c
      invariant !matchSlash ==> NoSlash(text, from, ti)
      decreases |text| - ti
    {
      ti := ti + 1;
      tCh := At(text, ti);
    }
  }

  /** Every length up to `ti` failed, and the star can reach no further. */
  lemma StarFails(g: Glob, t: seq<Byte>, from: nat, ti: nat, spans: bool, pathname: bool)
    requires from <= ti <= |t| && (forall m: nat :: from <= m <= ti && m < |t| ==> !Matches(g, t, m))
    requires g.One? || g.Never?
    requires !spans ==> pathname && NoSlash(t, from, ti)
    requires ti == |t| || (!spans && t[ti] == SLASH)
    ensures ti == |t| ==> Verdict(AbortAll, Star(spans, g), t, from, pathname)
    ensures !spans ==> Verdict(AbortToStarStar, Star(spans, g), t, from, pathname)
  {
    var star := Star(spans, g);
    assert !Matches(g, t, |t|);
    if !spans {
      forall m: nat | from <= m <= |t| && NoSlash(t, from, m) ensures !Matches(star, t, m) {
        assert m <= ti || ti == |t|;
      }
    }
  }

  /** The outcome of the rest is the outcome of the star before it. */
  lemma StarPasses(r: Outcome, g: Glob, t: seq<Byte>, from: nat, ti: nat, spans: bool, pathname: bool)
    requires from <= ti <= |t| && (forall m: nat :: from <= m < ti ==> !Matches(g, t, m))
    requires (g.One? || g.Never?) && r != NoMatch && Verdict(r, g, t, ti, pathname)
    requires r == AbortToStarStar ==> !spans
    requires !spans ==> NoSlash(t, from, ti)
    ensures Verdict(r, Star(spans, g), t, from, pathname)
  {
    var star := Star(spans, g);
    if r == AbortAll {
      forall m: nat | ti <= m <= |t| ensures !Matches(g, t, m) { assert Startable(g, t, ti, m); }
    }
    if r == AbortToStarStar {
      forall m: nat | from <= m <= |t| && NoSlash(t, from, m) ensures !Matches(star, t, m) {
        if Matches(star, t, m) {
          var j: nat :| m <= j <= |t| && NoSlash(t, m, j) && Matches(g, t, j);
          assert NoSlash(t, ti, j);
        }
      }
    }
  }

  /** A bracket expression's members, read from `start` against `tCh`. */
  method MatchClass(p: seq<Byte>, start: nat, tCh: Byte) returns (bad: bool, matched: bool, pi: nat)
    requires start <= |p| && tCh != 0
    ensures pi <= |p|
    ensures var m := ReadMembers(p[start..], 0);
            (bad <==> m.BadMembers?) &&
            (!bad ==> pi == start + m.len - 1 && (matched <==> InItems(tCh, m.items)))
  {
    ghost var readAt: MembersReader := (i: nat, prev: Byte) =>
      if i <= |p| then ReadMembers(p[i..], prev) else BadMembers;
    bad, matched, pi := MatchMembers(p, start, tCh, readAt);
    assert readAt(start, 0) == ReadMembers(p[start..], 0);
  }

  /** The members from an index on, after a member that ended in some byte. */
  type MembersReader = (nat, Byte) -> Members

  ghost predicate ReadsMembers(p: seq<Byte>, readAt: MembersReader) {
    forall i: nat, prev: Byte {:trigger ReadMembers(p[i..], prev)} :: i <= |p| ==>
        readAt(i, prev) == ReadMembers(p[i..], prev)
  }

  method MatchMembers(p: seq<Byte>, start: nat, tCh: Byte, ghost readAt: MembersReader)
    returns (bad: bool, matched: bool, pi: nat)
    requires start <= |p| && tCh != 0 && ReadsMembers(p, readAt)
    ensures pi <= |p|
    ensures var m := readAt(start, 0);
            (bad <==> m.BadMembers?) &&
            (!bad ==> pi == start + m.len - 1 && (matched <==> InItems(tCh, m.items)))
  {
    bad, matched, pi := false, false, start;
    var pCh, prevCh: Byte := At(p, pi), 0;
    while true
      invariant start <= pi <= |p| && pCh == At(p, pi)
      invariant MembersAgree(readAt(start, 0), start, readAt(pi, prevCh), pi, matched, tCh)
      decreases |p| - pi
    {
      if pCh == 0 {
        NulEnds(p, pi, prevCh, readAt);
        return true, matched, pi;
      }
      ghost var at, was := pi, prevCh;
      var hit;
      bad, hit, pi, pCh := NextMember(p, pi, prevCh, tCh, readAt);
      if bad {
        return;
      }
      matched := matched || hit;
      prevCh := pCh;
      pi := pi + 1;
      pCh := At(p, pi);
      if pCh == CLOSE { break; }
    }
  }

  /** `all`, read from `start`, is what matched so far with `rest`, read from `at`. */
  ghost predicate MembersAgree(all: Members, start: nat, rest: Members, at: nat, matched: bool, c: Byte) {
    && (rest.BadMembers? <==> all.BadMembers?)
    && (rest.Members? && all.Members? ==>
          at + rest.len == start + all.len && (InItems(c, all.items) <==> matched || InItems(c, rest.items)))
  }

  lemma NulEnds(p: seq<Byte>, i: nat, prev: Byte, readAt: MembersReader)
    requires i <= |p| && At(p, i) == 0 && ReadsMembers(p, readAt)
    ensures readAt(i, prev).BadMembers?
  {
    assert readAt(i, prev) == ReadMembers(p[i..], prev);
  }

  /** One member, and what it leaves of the members from `start` on. */
  method NextMember(p: seq<Byte>, start: nat, prevCh: Byte, tCh: Byte, ghost readAt: MembersReader)
    returns (bad: bool, matched: bool, pi: nat, pCh: Byte)
    requires start < |p| && At(p, start) != 0 && tCh != 0 && ReadsMembers(p, readAt)
    ensures bad ==> pi <= |p| && readAt(start, prevCh).BadMembers?
    ensures !bad ==> start <= pi < |p|
    ensures var m := readAt(start, prevCh);
            !bad ==> if At(p, pi + 1) == CLOSE
                     then m.Members? && start + m.len == pi + 2 && (InItems(tCh, m.items) <==> matched)
                     else MembersAgree(m, start, readAt(pi + 1, pCh), pi + 1, matched, tCh)
  {
    assert readAt(start, prevCh) == ReadMembers(p[start..], prevCh);
    bad, matched, pi, pCh := MatchMember(p, start, prevCh, tCh);
    if !bad {
      assert p[start..][pi + 1 - start..] == p[pi + 1..];
      assert readAt(pi + 1, pCh) == ReadMembers(p[pi + 1..], pCh);
      ReadMembersStep(p[start..], prevCh, tCh);
    }
  }

  /** One member of a bracket expression, at `start`: whether it accepts `tCh`,
      its last index, and the byte a range could start from. */
  method MatchMember(p: seq<Byte>, start: nat, prevCh: Byte, tCh: Byte)
    returns (bad: bool, matched: bool, pi: nat, pCh: Byte)
    requires start < |p| && tCh != 0
    ensures pi <= |p|
    ensures var one := ReadItem(p[start..], prevCh);
            (bad <==> one.BadItem?) &&
            (!bad ==> pi == start + one.len - 1 && pCh == one.end && (matched <==> InItem(tCh, one.item)))
  {
    bad, matched, pi, pCh := false, false, start, p[start];
    if pCh == BACKSLASH {
      pi := pi + 1;
      pCh := At(p, pi);
      if pCh == 0 {
        bad := true;
        return;
      }
      if tCh == pCh { matched := true; }
    } else if pCh == DASH && prevCh != 0 && At(p, pi + 1) != 0 && At(p, pi + 1) != CLOSE {
      pi := pi + 1;
      pCh := At(p, pi);
      if pCh == BACKSLASH {
        pi := pi + 1;
        pCh := At(p, pi);
        if pCh == 0 {
          bad := true;
          return;
        }
      }
      if tCh <= pCh && tCh >= prevCh { matched := true; }
      pCh := 0;
    } else if pCh == OPEN && At(p, pi + 1) == COLON {
      var end := pi + 2;
      while At(p, end) != 0 && At(p, end) != CLOSE
        invariant pi + 2 <= end <= |p|
        invariant FindClose(p[pi..], 2) == FindClose(p[pi..], end - pi)
        decreases |p| - end
      {
        end := end + 1;
      }
      if At(p, end) == 0 {
        bad := true;
        return;
      }
      if end > pi + 2 && p[end - 1] == COLON {
        assert p[pi + 2..end - 1] == p[pi..][2..end - pi - 1];
        var name := ClassOf(p[pi + 2..end - 1], CLASSES);
        if name.None? {
          bad := true;
          return;
        }
        matched := InClass(tCh, name.value);
        pi := end;
        pCh := 0;
      } else {
        if tCh == OPEN { matched := true; }
        pCh := OPEN;
      }
    } else if tCh == pCh {
      matched := true;
    }
  }

  /** Reading one member splits the question between it and the rest. */
  lemma ReadMembersStep(p: seq<Byte>, prev: Byte, c: Byte)
    requires p != [] && p[0] != 0 && ReadItem(p, prev).ItemAt?
    ensures var one := ReadItem(p, prev);
            var m := ReadMembers(p, prev);
            if one.len < |p| && p[one.len] == CLOSE then
              m.Members? && m.len == one.len + 1 && (InItems(c, m.items) <==> InItem(c, one.item))
            else
              var rest := ReadMembers(p[one.len..], one.end);
              (m.BadMembers? <==> rest.BadMembers?) &&
              (m.Members? ==> m.len == one.len + rest.len &&
                              (InItems(c, m.items) <==> InItem(c, one.item) || InItems(c, rest.items)))
  {
    var one := ReadItem(p, prev);
    if one.len < |p| && p[one.len] == CLOSE {
      InItemsCons(c, one.item, []);
      assert [one.item] + [] == [one.item];
    } else {
      var rest := ReadMembers(p[one.len..], one.end);
      if rest.Members? { InItemsCons(c, one.item, rest.items); }
    }
  }

  lemma InItemsCons(c: Byte, item: Item, items: seq<Item>)
    ensures InItems(c, [item] + items) <==> InItem(c, item) || InItems(c, items)
  {
    var all := [item] + items;
    assert all[0] == item;
    if InItems(c, items) {
      var k :| 0 <= k < |items| && InItem(c, items[k]);
      assert InItem(c, all[k + 1]);
    }
    if InItems(c, all) && !InItem(c, item) {
      var k :| 0 <= k < |all| && InItem(c, all[k]);
      assert InItem(c, items[k - 1]);
    }
  }
}
