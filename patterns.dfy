/**
  The two fixed regular expressions of the extractor, compiled with
  `re.IGNORECASE`:

    target:  Target(\d+)
    center:  Center\s*:\s*([\d\.\-]+)\s*m;\s*([\d\.\-]+)\s*m;\s*([\d\.\-]+)\s*m

  Each is written out as a chain of items: a literal (compared without regard
  to case), a greedy `k*` or a greedy capturing `(k+)`.  `MatchItems` reads the
  items left to right and lets every repetition take as much as it can, without
  ever giving characters back.  `Fits`/`Concat` say what the regular expression
  itself accepts (any way of cutting the text into pieces that fit the items).
  The lemmas below show that, for patterns like these two, the greedy reading
  finds a match exactly when the regular expression has one
  (`NoBacktracking`), and that what it returns is the greedy cut
  (`MatchGreedyPieces`).  Python's backtracking engine tries the longest runs
  first, so the cut it reports is that same greedy cut; that last step is an
  argument about the engine, not something proved here.
 */
module Patterns {
  import opened Wrappers
  import opened Chars

  /** `w` spells the lower-case `text` up to ASCII case. */
  predicate Spells(w: string, text: string) {
    |w| == |text| && forall i :: 0 <= i < |w| ==> ToLower(w[i]) == text[i]
  }

  /** One element of a pattern. */
  datatype Item =
    | Lit(text: string)     // literal, written in lower case, matched under IGNORECASE
    | Star(k: CharClass)    // greedy k*, not captured
    | Group(k: CharClass)   // greedy (k+), captured

  /** A pattern: items matched one after the other. */
  datatype Regex = End | Then(item: Item, next: Regex)

  // ---------------------------------------------------------------------------
  // What a regular expression accepts

  /** `piece` is one of the texts `item` can consume. */
  predicate Fits(item: Item, piece: string) {
    match item
    case Lit(w) => Spells(piece, w)
    case Star(k) => AllIn(k, piece)
    case Group(k) => piece != [] && AllIn(k, piece)
  }

  /** `pieces` holds one fitting piece per item of `r`. */
  predicate FitsAll(r: Regex, pieces: seq<string>) {
    match r
    case End => pieces == []
    case Then(item, next) => pieces != [] && Fits(item, pieces[0]) && FitsAll(next, pieces[1..])
  }

  function Concat(pieces: seq<string>): string {
    if pieces == [] then [] else pieces[0] + Concat(pieces[1..])
  }

  /** The pieces consumed by the capturing items, in order: `match.groups()`. */
  function GroupsOf(r: Regex, pieces: seq<string>): seq<string> {
    match r
    case End => []
    case Then(item, next) =>
      if pieces == [] then []
      else (if item.Group? then [pieces[0]] else []) + GroupsOf(next, pieces[1..])
  }

  /** The number of capturing items. */
  function Count(r: Regex): nat {
    match r
    case End => 0
    case Then(item, next) => (if item.Group? then 1 else 0) + Count(next)
  }

  /** Every capturing item of `r` draws from class `k`. */
  predicate GroupsIn(r: Regex, k: CharClass) {
    match r
    case End => true
    case Then(item, next) => (item.Group? ==> item.k == k) && GroupsIn(next, k)
  }

  /** The regular expression matches at the start of `u`, in some way. */
  ghost predicate Accepts(r: Regex, u: string) {
    exists pieces: seq<string>, rest: string :: FitsAll(r, pieces) && u == Concat(pieces) + rest
  }

  /**
    Every repetition in `pieces` stops only where its class ends: the way a
    backtracking engine that tries the longest run first cuts the text when its
    first attempt succeeds.
   */
  predicate Greedy(r: Regex, pieces: seq<string>, rest: string) {
    match r
    case End => true
    case Then(item, next) =>
      pieces != [] ==>
        && (item.Lit? || var after := Concat(pieces[1..]) + rest; after == [] || !In(item.k, after[0]))
        && Greedy(next, pieces[1..], rest)
  }

  /** Each capture is non-empty, and drawn from the class its item names. */
  lemma {:induction false} GroupsFit(r: Regex, pieces: seq<string>)
    requires FitsAll(r, pieces)
    ensures var g := GroupsOf(r, pieces);
      && |g| == Count(r)
      && (forall j :: 0 <= j < |g| ==> g[j] != [])
      && (forall k :: GroupsIn(r, k) ==> forall j :: 0 <= j < |g| ==> AllIn(k, g[j]))
  {
    if r.Then? {
      GroupsFit(r.next, pieces[1..]);
    }
  }

  // ---------------------------------------------------------------------------
  // The greedy matcher

  /** How much of `u` one item takes, reading greedily. */
  function Consume(item: Item, u: string): (r: Option<nat>)
    ensures r.Some? ==> r.value <= |u| && Fits(item, u[..r.value])
    ensures r.Some? && !item.Lit? ==> r.value == |u| || !In(item.k, u[r.value])
  {
    match item
    case Lit(w) => if |w| <= |u| && Spells(u[..|w|], w) then Some(|w|) else None
    case Star(k) => Some(Span(k, u))
    case Group(k) => var n := Span(k, u); if n == 0 then None else Some(n)
  }

  /** The pieces a match consumed, one per item, and the text after the match. */
  datatype Parse = Parse(pieces: seq<string>, rest: string)

  lemma ConcatCons(piece: string, pieces: seq<string>)
    ensures Concat([piece] + pieces) == piece + Concat(pieces)
  {
    assert ([piece] + pieces)[1..] == pieces;
  }

  /** A match of the rest of a pattern, extended by what its first item consumed. */
  lemma ExtendMatch(item: Item, next: Regex, u: string, n: nat, ps: seq<string>, rest: string)
    requires Consume(item, u) == Some(n)
    requires FitsAll(next, ps) && u[n..] == Concat(ps) + rest && Greedy(next, ps, rest)
    ensures FitsAll(Then(item, next), [u[..n]] + ps) && u == Concat([u[..n]] + ps) + rest
    ensures Greedy(Then(item, next), [u[..n]] + ps, rest)
  {
    ExtendFits(item, next, u[..n], ps);
    ExtendConcat(u, n, ps, rest);
    ExtendGreedy(item, next, u, n, ps, rest);
  }

  lemma ExtendFits(item: Item, next: Regex, piece: string, ps: seq<string>)
    requires Fits(item, piece) && FitsAll(next, ps)
    ensures FitsAll(Then(item, next), [piece] + ps)
  {
    assert ([piece] + ps)[1..] == ps;
  }

  lemma ExtendConcat(u: string, n: nat, ps: seq<string>, rest: string)
    requires n <= |u| && u[n..] == Concat(ps) + rest
    ensures u == Concat([u[..n]] + ps) + rest
  {
    ConcatCons(u[..n], ps);
    assert u == u[..n] + u[n..];
  }

  lemma ExtendGreedy(item: Item, next: Regex, u: string, n: nat, ps: seq<string>, rest: string)
    requires Consume(item, u) == Some(n)
    requires u[n..] == Concat(ps) + rest && Greedy(next, ps, rest)
    ensures Greedy(Then(item, next), [u[..n]] + ps, rest)
  {
    assert ([u[..n]] + ps)[1..] == ps;
  }

  /** `r` matched at the start of `u`, each repetition taking all it can. */
  function MatchItems(r: Regex, u: string): (m: Option<Parse>)
    ensures m.Some? ==> FitsAll(r, m.value.pieces) && u == Concat(m.value.pieces) + m.value.rest
    ensures m.Some? ==> Greedy(r, m.value.pieces, m.value.rest)
  {
    match r
    case End => Some(Parse([], u))
    case Then(item, next) =>
      match Consume(item, u)
      case None => None
      case Some(n) =>
        match MatchItems(next, u[n..])
        case None => None
        case Some(Parse(ps, rest)) =>
          ExtendMatch(item, next, u, n, ps, rest);
          Some(Parse([u[..n]] + ps, rest))
  }

  /** One step of the matcher: the first item takes `n` characters and the rest of the pattern goes on from there. */
  lemma MatchItemsStep(r: Regex, u: string, n: nat)
    requires r.Then? && Consume(r.item, u) == Some(n)
    ensures MatchItems(r, u) ==
      match MatchItems(r.next, u[n..])
      case None => None
      case Some(Parse(ps, rest)) => Some(Parse([u[..n]] + ps, rest))
  {
  }

  lemma GroupsOfCons(item: Item, next: Regex, piece: string, ps: seq<string>)
    ensures GroupsOf(Then(item, next), [piece] + ps) == (if item.Group? then [piece] else []) + GroupsOf(next, ps)
  {
    assert ([piece] + ps)[1..] == ps;
  }

  /** Every greedy cut of a text is the one the matcher finds. */
  lemma {:induction false} MatchGreedyPieces(r: Regex, pieces: seq<string>, rest: string)
    requires FitsAll(r, pieces) && Greedy(r, pieces, rest)
    ensures MatchItems(r, Concat(pieces) + rest) == Some(Parse(pieces, rest))
  {
    var u := Concat(pieces) + rest;
    if r.End? {
      assert u == rest;
    } else {
      var after := Concat(pieces[1..]) + rest;
      assert u == pieces[0] + after;
      assert u[..|pieces[0]|] == pieces[0];
      assert u[|pieces[0]|..] == after;
      if !r.item.Lit? {
        SpanOfRun(r.item.k, pieces[0], after);
      }
      MatchItemsStep(r, u, |pieces[0]|);
      MatchGreedyPieces(r.next, pieces[1..], rest);
      assert [pieces[0]] + pieces[1..] == pieces;
    }
  }

  // ---------------------------------------------------------------------------
  // Why no backtracking is needed

  predicate Disjoint(k: CharClass, k': CharClass) {
    forall c: char :: !(In(k, c) && In(k', c))
  }

  /** The upper-case partner of an ASCII lower-case letter (any other character stands for itself). */
  function Upper(c: char): (r: char)
    ensures forall d: char :: ToLower(d) == c ==> d == c || d == r
  {
    if 'a' <= c <= 'z' then (c as int - 32) as char else c
  }

  /** Nothing that `r` can start with lies in class `k`, unless `r` can match the empty text. */
  predicate Follows(k: CharClass, r: Regex) {
    match r
    case End => true
    case Then(Lit(w), _) => w != [] && !In(k, w[0]) && !In(k, Upper(w[0]))
    case Then(Group(k'), _) => Disjoint(k, k')
    case Then(Star(k'), next) => Disjoint(k, k') && Follows(k, next)
  }

  /** Each repetition is followed by something that cannot begin inside its class. */
  predicate Deterministic(r: Regex) {
    match r
    case End => true
    case Then(item, next) => (item.Lit? || Follows(item.k, next)) && Deterministic(next)
  }

  predicate AllStars(r: Regex) {
    match r
    case End => true
    case Then(item, next) => item.Star? && AllStars(next)
  }

  lemma {:induction false} StarsAlwaysMatch(r: Regex, u: string)
    requires AllStars(r)
    ensures MatchItems(r, u).Some?
  {
    if r.Then? {
      StarsAlwaysMatch(r.next, u[Span(r.item.k, u)..]);
    }
  }

  /** If text starting inside `k` fits `r`, then `r` is made of repetitions only. */
  lemma {:induction false} OnlyStarsFollowRun(k: CharClass, r: Regex, ps: seq<string>, rest: string)
    requires Follows(k, r) && FitsAll(r, ps)
    requires Concat(ps) + rest != [] && In(k, (Concat(ps) + rest)[0])
    ensures AllStars(r)
  {
    if r.Then? {
      var v := Concat(ps) + rest;
      assert v == ps[0] + (Concat(ps[1..]) + rest);
      if ps[0] == [] {
        assert r.item.Star?;
        OnlyStarsFollowRun(k, r.next, ps[1..], rest);
      }
    }
  }

  lemma SpanAtLeast(k: CharClass, u: string, m: nat)
    requires m <= |u| && AllIn(k, u[..m])
    ensures Span(k, u) >= m
  {
  }

  /** The text after a shorter run of the same class starts inside the class. */
  lemma RunCut(k: CharClass, u: string, m: nat)
    requires m < Span(k, u)
    ensures u[m..] != [] && In(k, u[m..][0])
  {
    assert u[..Span(k, u)][m] == u[m];
  }

  /**
    For a deterministic pattern the greedy reading succeeds whenever the
    regular expression matches in any way at all.
   */
  lemma {:induction false} NoBacktracking(r: Regex, pieces: seq<string>, rest: string)
    requires Deterministic(r) && FitsAll(r, pieces)
    ensures MatchItems(r, Concat(pieces) + rest).Some?
  {
    if r.Then? {
      var u := Concat(pieces) + rest;
      var after := Concat(pieces[1..]) + rest;
      var m := |pieces[0]|;
      assert u == pieces[0] + after;
      assert u[..m] == pieces[0];
      assert u[m..] == after;
      if r.item.Lit? {
        NoBacktracking(r.next, pieces[1..], rest);
      } else {
        var k := r.item.k;
        SpanAtLeast(k, u, m);
        if Span(k, u) == m {
          NoBacktracking(r.next, pieces[1..], rest);
        } else {
          RunCut(k, u, m);
          OnlyStarsFollowRun(k, r.next, pieces[1..], rest);
          StarsAlwaysMatch(r.next, u[Span(k, u)..]);
        }
      }
    }
  }

  /** For a deterministic pattern the greedy matcher succeeds exactly when the regular expression does. */
  lemma MatchIffAccepts(r: Regex, u: string)
    requires Deterministic(r)
    ensures MatchItems(r, u).Some? <==> Accepts(r, u)
  {
    if MatchItems(r, u).Some? {
      var m := MatchItems(r, u).value;
      assert FitsAll(r, m.pieces) && u == Concat(m.pieces) + m.rest;
    }
    if Accepts(r, u) {
      var pieces: seq<string>, rest: string :| FitsAll(r, pieces) && u == Concat(pieces) + rest;
      NoBacktracking(r, pieces, rest);
    }
  }

  // ---------------------------------------------------------------------------
  // Matching at one position

  /** `pattern.match(u)`: the groups of `r` matched at the very start of `u`, if it matches there. */
  function MatchPrefix(r: Regex, u: string): (g: Option<seq<string>>)
    ensures g.Some? ==> |g.value| == Count(r) && forall j :: 0 <= j < |g.value| ==> g.value[j] != []
    ensures g.Some? ==> forall k :: GroupsIn(r, k) ==> forall j :: 0 <= j < |g.value| ==> AllIn(k, g.value[j])
  {
    match MatchItems(r, u)
    case None => None
    case Some(m) =>
      GroupsFit(r, m.pieces);
      Some(GroupsOf(r, m.pieces))
  }

  /**
    Reading a pattern one item at a time: when the first item takes exactly
    `piece` (a literal spelled by it, or a run of its class that stops where
    the class ends), the match goes on with the rest of the pattern on what
    follows, and a capturing item contributes `piece` as the first group.
   */
  lemma PrefixStep(item: Item, next: Regex, piece: string, tail: string, g: seq<string>)
    requires Fits(item, piece)
    requires !item.Lit? ==> tail == [] || !In(item.k, tail[0])
    requires MatchPrefix(next, tail) == Some(g)
    ensures MatchPrefix(Then(item, next), piece + tail) == Some(if item.Group? then [piece] + g else g)
  {
    var u := piece + tail;
    var n := |piece|;
    assert u[..n] == piece && u[n..] == tail;
    if !item.Lit? {
      SpanOfRun(item.k, piece, tail);
    }
    assert Consume(item, u) == Some(n);
    MatchItemsStep(Then(item, next), u, n);
    var t := MatchItems(next, tail).value;
    GroupsOfCons(item, next, piece, t.pieces);
    assert [] + GroupsOf(next, t.pieces) == GroupsOf(next, t.pieces);
  }

  /** The pattern starts with a literal whose first character is a letter. */
  predicate StartsWithKeyword(r: Regex) {
    r.Then? && r.item.Lit? && r.item.text != [] && 'a' <= r.item.text[0] <= 'z'
  }

  /** A literal without whitespace, or a capture of something other than whitespace. */
  predicate ItemSpaceFree(item: Item) {
    match item
    case Lit(w) => forall j :: 0 <= j < |w| ==> !IsSpace(w[j])
    case Star(_) => true
    case Group(k) => k != Spaces
  }

  /** No literal holds whitespace and nothing captures whitespace. */
  predicate SpaceFree(r: Regex) {
    match r
    case End => true
    case Then(item, next) => ItemSpaceFree(item) && SpaceFree(next)
  }

  /** A match of a pattern that starts with a keyword never starts with whitespace. */
  lemma MatchStartsWithKeyword(r: Regex, u: string)
    requires StartsWithKeyword(r) && MatchPrefix(r, u).Some?
    ensures u != [] && !IsSpace(u[0])
  {
    var w := r.item.text;
    assert Consume(r.item, u).Some?;
    assert ToLower(u[..|w|][0]) == w[0];
  }

  lemma SpanIgnoresTrailingSpace(k: CharClass, u: string, s: string)
    requires k != Spaces && AllIn(Spaces, s)
    ensures Span(k, u + s) == Span(k, u)
  {
    var n := Span(k, u);
    assert u + s == u[..n] + (u[n..] + s);
    if n < |u| {
      assert (u[n..] + s)[0] == u[n];
    } else {
      assert s != [] ==> IsSpace(s[0]);
    }
    SpanOfRun(k, u[..n], u[n..] + s);
  }

  lemma LitIgnoresTrailingSpace(w: string, u: string, s: string)
    requires forall j :: 0 <= j < |w| ==> !IsSpace(w[j])
    requires AllIn(Spaces, s)
    ensures Consume(Lit(w), u + s) == Consume(Lit(w), u)
  {
    if |w| <= |u| {
      assert (u + s)[..|w|] == u[..|w|];
    } else if |w| <= |u + s| {
      var c := (u + s)[..|w|][|u|];
      assert c == s[0] && IsSpace(c) && ToLower(c) == c;
      assert !Spells((u + s)[..|w|], w) by { assert ToLower(c) != w[|u|]; }
    }
  }

  /** A `\s*` that stops inside `u` stops at the same place in `u + s`. */
  lemma SpacesStopInside(u: string, s: string)
    requires Span(Spaces, u) < |u|
    ensures Span(Spaces, u + s) == Span(Spaces, u)
  {
    var n := Span(Spaces, u);
    assert u + s == u[..n] + (u[n..] + s);
    assert (u[n..] + s)[0] == u[n];
    SpanOfRun(Spaces, u[..n], u[n..] + s);
  }

  /** Trailing whitespace does not change what one item takes, unless the item is `\s*` and takes everything. */
  lemma ConsumeIgnoresTrailingSpace(item: Item, u: string, s: string)
    requires ItemSpaceFree(item) && AllIn(Spaces, s)
    requires !(item == Star(Spaces) && Span(Spaces, u) == |u|)
    ensures Consume(item, u + s) == Consume(item, u)
  {
    match item {
      case Lit(w) => LitIgnoresTrailingSpace(w, u, s);
      case Star(k) =>
        if k == Spaces {
          SpacesStopInside(u, s);
        } else {
          SpanIgnoresTrailingSpace(k, u, s);
        }
      case Group(k) => SpanIgnoresTrailingSpace(k, u, s);
    }
  }

  /** Trailing whitespace changes neither whether `r` matches nor what its groups capture. */
  lemma {:induction false} MatchItemsIgnoresTrailingSpace(r: Regex, u: string, s: string)
    requires SpaceFree(r) && AllIn(Spaces, s)
    ensures var m, m' := MatchItems(r, u), MatchItems(r, u + s);
      && m'.Some? == m.Some?
      && (m.Some? ==> GroupsOf(r, m'.value.pieces) == GroupsOf(r, m.value.pieces))
  {
    if r.Then? {
      if r.item == Star(Spaces) && Span(Spaces, u) == |u| {
        // `\s*` swallows the rest of `u` and the trailing whitespace alike
        SpanOfRun(Spaces, u + s, []);
        MatchItemsStep(r, u, |u|);
        MatchItemsStep(r, u + s, |u + s|);
        assert (u + s)[|u + s|..] == u[|u|..];
        var t := MatchItems(r.next, u[|u|..]);
        if t.Some? {
          GroupsOfCons(r.item, r.next, u[..|u|], t.value.pieces);
          GroupsOfCons(r.item, r.next, (u + s)[..|u + s|], t.value.pieces);
        }
      } else {
        ConsumeIgnoresTrailingSpace(r.item, u, s);
        if Consume(r.item, u).Some? {
          var n := Consume(r.item, u).value;
          assert (u + s)[n..] == u[n..] + s;
          assert (u + s)[..n] == u[..n];
          MatchItemsStep(r, u, n);
          MatchItemsStep(r, u + s, n);
          MatchItemsIgnoresTrailingSpace(r.next, u[n..], s);
          var t, t' := MatchItems(r.next, u[n..]), MatchItems(r.next, u[n..] + s);
          if t.Some? {
            GroupsOfCons(r.item, r.next, u[..n], t.value.pieces);
            GroupsOfCons(r.item, r.next, u[..n], t'.value.pieces);
          }
        }
      }
    }
  }

  /** Trailing whitespace never changes whether or what a space-free pattern matches. */
  lemma MatchIgnoresTrailingSpace(r: Regex, u: string, s: string)
    requires SpaceFree(r) && AllIn(Spaces, s)
    ensures MatchPrefix(r, u + s) == MatchPrefix(r, u)
  {
    MatchItemsIgnoresTrailingSpace(r, u, s);
  }

  // ---------------------------------------------------------------------------
  // Searching: trying a pattern at every position of a text

  /** A pattern tried at the start of a text (`pattern.match`): the groups, if it matches there. */
  type Matcher = string -> Option<seq<string>>

  /** The matcher of a regular expression. */
  function MatcherOf(r: Regex): Matcher {
    u => MatchPrefix(r, u)
  }

  /** A match found by `search`: where it starts and what its groups captured. */
  datatype Found = Found(start: nat, groups: seq<string>)

  /** The outcome of trying `m` at every start position of `s`, left to right (the end included). */
  function Attempts(m: Matcher, s: string): (ms: seq<Option<seq<string>>>)
    ensures |ms| == |s| + 1
    ensures forall j {:trigger ms[j]} {:trigger m(s[j..])} :: 0 <= j <= |s| ==> ms[j] == m(s[j..])
  {
    if s == [] then [m(s)]
    else
      var rest := Attempts(m, s[1..]);
      assert forall j :: 1 <= j <= |s| ==> s[1..][j - 1..] == s[j..];
      [m(s)] + rest
  }

  /** The first present entry of `ms` at index `i` or later, with its index. */
  function FirstFrom<T>(ms: seq<Option<T>>, i: nat): (r: Option<(nat, T)>)
    requires i <= |ms|
    decreases |ms| - i
    ensures r.Some? ==> i <= r.value.0 < |ms| && ms[r.value.0] == Some(r.value.1)
    ensures forall j :: i <= j < |ms| && (r.None? || j < r.value.0) ==> ms[j].None?
  {
    if i == |ms| then None
    else if ms[i].Some? then Some((i, ms[i].value))
    else FirstFrom(ms, i + 1)
  }

  /** `pattern.search(s)`: the leftmost position where `m` matches, with its groups. */
  function Search(m: Matcher, s: string): (f: Option<Found>)
    ensures f.Some? ==> f.value.start <= |s| && m(s[f.value.start..]) == Some(f.value.groups)
    ensures f.Some? ==> forall j {:trigger m(s[j..])} :: 0 <= j < f.value.start ==> m(s[j..]).None?
    ensures f.None? ==> forall j {:trigger m(s[j..])} :: 0 <= j <= |s| ==> m(s[j..]).None?
  {
    match FirstFrom(Attempts(m, s), 0)
    case None => None
    case Some((j, g)) => Some(Found(j, g))
  }

  /** A pattern that matches at the very start of `s` is found there. */
  lemma SearchAtStart(m: Matcher, s: string)
    requires m(s).Some?
    ensures Search(m, s) == Some(Found(0, m(s).value))
  {
    assert s[0..] == s;
  }

  /** What a successful search of `r` captured: one non-empty text per group, each from its class. */
  lemma SearchGroups(r: Regex, s: string)
    requires Search(MatcherOf(r), s).Some?
    ensures var g := Search(MatcherOf(r), s).value.groups;
      && |g| == Count(r)
      && (forall j :: 0 <= j < |g| ==> g[j] != [])
      && (forall k :: GroupsIn(r, k) ==> forall j :: 0 <= j < |g| ==> AllIn(k, g[j]))
  {
    var f := Search(MatcherOf(r), s).value;
    assert MatchPrefix(r, s[f.start..]) == Some(f.groups);
  }

  lemma AttemptIffAccepts(r: Regex, u: string)
    requires Deterministic(r)
    ensures MatcherOf(r)(u).Some? <==> Accepts(r, u)
  {
    MatchIffAccepts(r, u);
  }

  /** `search` finds `r` in `s` exactly when some suffix of `s` begins with a text `r` accepts. */
  lemma SearchIffAccepts(r: Regex, s: string)
    requires Deterministic(r)
    ensures Search(MatcherOf(r), s).Some? <==> exists j :: 0 <= j <= |s| && Accepts(r, s[j..])
  {
    var m := MatcherOf(r);
    if Search(m, s).Some? {
      var j := Search(m, s).value.start;
      AttemptIffAccepts(r, s[j..]);
    } else {
      forall j | 0 <= j <= |s|
        ensures !Accepts(r, s[j..])
      {
        AttemptIffAccepts(r, s[j..]);
      }
    }
  }

  /** `ms` is `ms'` moved right by `a` places, with nothing present outside it. */
  ghost predicate ShiftedBy<T>(ms: seq<Option<T>>, ms': seq<Option<T>>, a: nat) {
    && a + |ms'| <= |ms|
    && forall j :: 0 <= j < |ms| ==> ms[j] == if a <= j < a + |ms'| then ms'[j - a] else None
  }

  /** Leftmost search over attempts that are another list of attempts shifted right by `a`. */
  lemma {:induction false} FirstFromShift<T>(ms: seq<Option<T>>, ms': seq<Option<T>>, a: nat, i: nat)
    requires ShiftedBy(ms, ms', a) && i <= |ms'|
    ensures FirstFrom(ms, a + i) == match FirstFrom(ms', i) case None => None case Some((k, v)) => Some((k + a, v))
    decreases |ms'| - i
  {
    if i < |ms'| {
      FirstFromShift(ms, ms', a, i + 1);
    }
  }

  lemma FirstFromSkipsNone<T>(ms: seq<Option<T>>, a: nat)
    requires a <= |ms|
    requires forall j :: 0 <= j < a ==> ms[j].None?
    ensures FirstFrom(ms, 0) == FirstFrom(ms, a)
  {
    var r := FirstFrom(ms, 0);
    if r.Some? {
      assert ms[r.value.0].Some?;
    }
    var r' := FirstFrom(ms, a);
    if r'.Some? {
      assert ms[r'.value.0].Some?;
    }
  }

  /** The leftmost entry of a shifted list is the leftmost entry of the original, shifted. */
  lemma FirstOfShifted<T>(ms: seq<Option<T>>, ms': seq<Option<T>>, a: nat)
    requires ShiftedBy(ms, ms', a)
    ensures FirstFrom(ms, 0) == match FirstFrom(ms', 0) case None => None case Some((k, v)) => Some((k + a, v))
  {
    FirstFromSkipsNone(ms, a);
    FirstFromShift(ms, ms', a, 0);
  }

  /** No match starts at whitespace or at the very end of the text. */
  ghost predicate NeverAtSpace(m: Matcher) {
    forall u :: m(u).Some? ==> u != [] && !IsSpace(u[0])
  }

  /** Whitespace after the text never changes the outcome. */
  ghost predicate BlindToTrailingSpace(m: Matcher) {
    forall u, t {:trigger m(u + t)} :: AllIn(Spaces, t) ==> m(u + t) == m(u)
  }

  /** Both hold for a space-free pattern that starts with a keyword. */
  lemma MatcherOfFacts(r: Regex)
    requires StartsWithKeyword(r) && SpaceFree(r)
    ensures NeverAtSpace(MatcherOf(r)) && BlindToTrailingSpace(MatcherOf(r))
  {
    forall u | MatcherOf(r)(u).Some?
      ensures u != [] && !IsSpace(u[0])
    {
      MatchStartsWithKeyword(r, u);
    }
    forall u, t | AllIn(Spaces, t)
      ensures MatcherOf(r)(u + t) == MatcherOf(r)(u)
    {
      MatchIgnoresTrailingSpace(r, u, t);
    }
  }

  /** No match starts inside the whitespace `strip()` removes at the front. */
  lemma NoMatchInIndent(m: Matcher, s: string, j: nat)
    requires NeverAtSpace(m)
    requires j < Indent(s)
    ensures m(s[j..]).None?
  {
    StripTrims(s);
    assert s[j..][0] == s[..Indent(s)][j];
  }

  /** No match starts inside the whitespace `strip()` removes at the back, or at the very end. */
  lemma NoMatchInTrail(m: Matcher, s: string, j: nat)
    requires NeverAtSpace(m)
    requires Indent(s) + |Strip(s)| < j <= |s|
    ensures m(s[j..]).None?
  {
    var b := Indent(s) + |Strip(s)|;
    StripTrims(s);
    if j < |s| {
      assert s[j..][0] == s[b..][j - b];
    }
  }

  /** Inside the stripped text, the trailing whitespace makes no difference. */
  lemma MatchInCore(m: Matcher, s: string, j: nat)
    requires BlindToTrailingSpace(m)
    requires Indent(s) <= j <= Indent(s) + |Strip(s)|
    ensures m(s[j..]) == m(Strip(s)[j - Indent(s)..])
  {
    var t := s[Indent(s) + |Strip(s)|..];
    StripTrims(s);
    CoreThenTrail(s, j);
    assert AllIn(Spaces, t) && s[j..] == Strip(s)[j - Indent(s)..] + t;
  }

  /** From a position inside the stripped text, `s` reads on as the stripped text and then the trailing whitespace. */
  lemma CoreThenTrail(s: string, j: nat)
    requires Indent(s) <= j <= Indent(s) + |Strip(s)|
    ensures s[j..] == Strip(s)[j - Indent(s)..] + s[Indent(s) + |Strip(s)|..]
  {
    var a, core := Indent(s), Strip(s);
    var b := a + |core|;
    assert s[j..] == s[j..b] + s[b..];
  }

  /** At each start position, matching in `s` is matching in `s.strip()`, shifted by the indent. */
  lemma MatchAfterStrip(m: Matcher, s: string, j: nat)
    requires NeverAtSpace(m) && BlindToTrailingSpace(m)
    requires j <= |s|
    ensures var a, core := Indent(s), Strip(s);
      m(s[j..]) == if a <= j <= a + |core| then m(core[j - a..]) else None
  {
    if j < Indent(s) {
      NoMatchInIndent(m, s, j);
    } else if j <= Indent(s) + |Strip(s)| {
      MatchInCore(m, s, j);
    } else {
      NoMatchInTrail(m, s, j);
    }
  }

  /** One entry of the attempts on `s`, read off the attempts on `s.strip()`. */
  lemma AttemptAfterStrip(m: Matcher, s: string, j: nat)
    requires NeverAtSpace(m) && BlindToTrailingSpace(m)
    requires j < |Attempts(m, s)|
    ensures var ms, ms', a := Attempts(m, s), Attempts(m, Strip(s)), Indent(s);
      ms[j] == if a <= j < a + |ms'| then ms'[j - a] else None
  {
    MatchAfterStrip(m, s, j);
  }

  /** The attempts on `s` are those on `s.strip()`, shifted right by the indent. */
  lemma AttemptsAfterStrip(m: Matcher, s: string)
    requires NeverAtSpace(m) && BlindToTrailingSpace(m)
    ensures ShiftedBy(Attempts(m, s), Attempts(m, Strip(s)), Indent(s))
  {
    forall j | 0 <= j < |Attempts(m, s)|
      ensures Attempts(m, s)[j] ==
        if Indent(s) <= j < Indent(s) + |Attempts(m, Strip(s))| then Attempts(m, Strip(s))[j - Indent(s)] else None
    {
      AttemptAfterStrip(m, s, j);
    }
  }

  /**
    `line.strip()` before the search changes neither whether a pattern is found
    nor its groups; the match just moves left by the removed indent.
   */
  lemma SearchIgnoresStrip(m: Matcher, s: string)
    requires NeverAtSpace(m) && BlindToTrailingSpace(m)
    ensures Search(m, Strip(s)).Some? <==> Search(m, s).Some?
    ensures Search(m, s).Some? ==>
      Search(m, s).value == Found(Search(m, Strip(s)).value.start + Indent(s), Search(m, Strip(s)).value.groups)
  {
    AttemptsAfterStrip(m, s);
    FirstOfShifted(Attempts(m, s), Attempts(m, Strip(s)), Indent(s));
  }

  // ---------------------------------------------------------------------------
  // Letters a match cannot do without

  /** How many characters of `s` are `c` up to ASCII case. */
  function Occurrences(s: string, c: char): nat {
    if s == [] then 0 else (if ToLower(s[0]) == c then 1 else 0) + Occurrences(s[1..], c)
  }

  lemma {:induction false} OccurrencesAppend(a: string, b: string, c: char)
    ensures Occurrences(a + b, c) == Occurrences(a, c) + Occurrences(b, c)
  {
    if a != [] {
      assert (a + b)[1..] == a[1..] + b;
      OccurrencesAppend(a[1..], b, c);
    } else {
      assert a + b == b;
    }
  }

  /** How many times the literals of `r` hold `c` up to case. */
  function LitOccurrences(r: Regex, c: char): nat {
    match r
    case End => 0
    case Then(item, next) => (if item.Lit? then Occurrences(item.text, c) else 0) + LitOccurrences(next, c)
  }

  /** A text that spells a literal holds the same letters as the literal. */
  lemma {:induction false} SpellsOccurrences(piece: string, w: string, c: char)
    requires Spells(piece, w)
    ensures Occurrences(piece, c) == Occurrences(w, c)
  {
    if piece != [] {
      assert ToLower(w[0]) == w[0];
      assert Spells(piece[1..], w[1..]) by {
        forall i | 0 <= i < |piece| - 1
          ensures ToLower(piece[1..][i]) == w[1..][i]
        {
          assert piece[1..][i] == piece[i + 1] && w[1..][i] == w[i + 1];
        }
      }
      SpellsOccurrences(piece[1..], w[1..], c);
    }
  }

  /** Whatever fits a pattern holds at least the letters of its literals. */
  lemma {:induction false} FitsOccurrences(r: Regex, pieces: seq<string>, c: char)
    requires FitsAll(r, pieces)
    ensures Occurrences(Concat(pieces), c) >= LitOccurrences(r, c)
  {
    if r.Then? {
      FitsOccurrences(r.next, pieces[1..], c);
      OccurrencesAppend(pieces[0], Concat(pieces[1..]), c);
      if r.item.Lit? {
        SpellsOccurrences(pieces[0], r.item.text, c);
      }
    }
  }

  /** A text that starts with a match of `r` holds at least the letters of the literals of `r`. */
  lemma PrefixNeedsLetters(r: Regex, u: string, c: char)
    requires MatchPrefix(r, u).Some?
    ensures Occurrences(u, c) >= LitOccurrences(r, c)
  {
    var m := MatchItems(r, u).value;
    FitsOccurrences(r, m.pieces, c);
    OccurrencesAppend(Concat(m.pieces), m.rest, c);
  }

  /** A text in which `r` is found holds at least the letters of the literals of `r`. */
  lemma SearchNeedsLetters(r: Regex, s: string, c: char)
    requires Search(MatcherOf(r), s).Some?
    ensures Occurrences(s, c) >= LitOccurrences(r, c)
  {
    var j := Search(MatcherOf(r), s).value.start;
    assert MatcherOf(r)(s[j..]).Some?;
    PrefixNeedsLetters(r, s[j..], c);
    SuffixOccurrences(s, j, c);
  }

  /** A suffix holds no more of a letter than the whole text. */
  lemma SuffixOccurrences(s: string, j: nat, c: char)
    requires j <= |s|
    ensures Occurrences(s, c) >= Occurrences(s[j..], c)
  {
    assert s == s[..j] + s[j..];
    OccurrencesAppend(s[..j], s[j..], c);
  }
}
