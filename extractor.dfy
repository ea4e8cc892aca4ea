/**
  `process_docx`: one pass over the lines of the document.  Each line is
  stripped; a match of the target pattern makes `"Target" + digits` the
  pending target, and then a match of the center pattern, while a target is
  pending, appends one five-field row and clears the pending target.

  `Step`/`Fold` state the pass as a fold over what the patterns find on each
  line, and `ProcessLines` is the loop itself.
 */
module Extractor {
  import opened Wrappers
  import opened Chars
  import opened Patterns

  // ---------------------------------------------------------------------------
  // The two patterns

  /** `Target(\d+)` */
  const TargetRegex: Regex := Then(Lit("target"), Then(Group(Digits), End))

  /** `\s*([\d\.\-]+)\s*` and then the unit literal, in front of `next`. */
  function Field(unit: string, next: Regex): Regex {
    Then(Star(Spaces), Then(Group(Numbers), Then(Star(Spaces), Then(Lit(unit), next))))
  }

  /** `Center\s*:\s*([\d\.\-]+)\s*m;\s*([\d\.\-]+)\s*m;\s*([\d\.\-]+)\s*m` */
  const CenterRegex: Regex := Then(Lit("center"), Then(Star(Spaces), Then(Lit(":"), Field("m;", Field("m;", Field("m", End))))))

  lemma TargetRegexFacts()
    ensures StartsWithKeyword(TargetRegex) && SpaceFree(TargetRegex) && Deterministic(TargetRegex)
    ensures Count(TargetRegex) == 1 && GroupsIn(TargetRegex, Digits)
  {
  }

  /** A field adds one capture of class `Numbers`, no whitespace, and no backtracking. */
  lemma FieldFacts(unit: string, next: Regex)
    requires unit != [] && !IsNumberChar(unit[0]) && !IsNumberChar(Upper(unit[0])) && !IsSpace(Upper(unit[0]))
    requires forall j :: 0 <= j < |unit| ==> !IsSpace(unit[j])
    ensures Count(Field(unit, next)) == Count(next) + 1
    ensures GroupsIn(Field(unit, next), Numbers) == GroupsIn(next, Numbers)
    ensures SpaceFree(Field(unit, next)) == SpaceFree(next)
    ensures Deterministic(Field(unit, next)) == Deterministic(next)
  {
    var f3 := Then(Lit(unit), next);
    var f2 := Then(Star(Spaces), f3);
    var f1 := Then(Group(Numbers), f2);
    assert Count(f3) == Count(next) && Count(f2) == Count(f3) && Count(f1) == Count(f2) + 1;
    assert GroupsIn(f3, Numbers) == GroupsIn(next, Numbers);
    assert GroupsIn(f2, Numbers) == GroupsIn(f3, Numbers) && GroupsIn(f1, Numbers) == GroupsIn(f2, Numbers);
    assert SpaceFree(f3) == SpaceFree(next) && SpaceFree(f2) == SpaceFree(f3) && SpaceFree(f1) == SpaceFree(f2);
    assert Disjoint(Numbers, Spaces) && Disjoint(Spaces, Numbers);
    assert Deterministic(f3) == Deterministic(next);
    assert Follows(Numbers, f3) && Follows(Numbers, f2);
    assert Deterministic(f2) == Deterministic(f3) && Deterministic(f1) == Deterministic(f2);
  }

  lemma CenterRegexFacts()
    ensures StartsWithKeyword(CenterRegex) && SpaceFree(CenterRegex) && Deterministic(CenterRegex)
    ensures Count(CenterRegex) == 3 && GroupsIn(CenterRegex, Numbers)
  {
    FieldFacts("m", End);
    FieldFacts("m;", Field("m", End));
    FieldFacts("m;", Field("m;", Field("m", End)));
  }

  // ---------------------------------------------------------------------------
  // One line

  /** A non-empty run of digits: what `(\d+)` captures. */
  predicate DigitField(s: string) {
    s != [] && AllIn(Digits, s)
  }

  /** A non-empty run over digits, `.` and `-`: what `([\d\.\-]+)` captures. */
  predicate NumberField(s: string) {
    s != [] && AllIn(Numbers, s)
  }

  /** The three coordinates the center pattern captures. */
  datatype Coords = Coords(x: string, y: string, z: string)

  /** The digits `target_pattern.search(s)` captures, if it finds anything. */
  function TargetMatch(s: string): (d: Option<string>)
    ensures d.Some? ==> DigitField(d.value)
  {
    match Search(MatcherOf(TargetRegex), s)
    case None => None
    case Some(f) =>
      TargetRegexFacts();
      SearchGroups(TargetRegex, s);
      Some(f.groups[0])
  }

  /** The coordinates `center_pattern.search(s)` captures, if it finds anything. */
  function CenterMatch(s: string): (c: Option<Coords>)
    ensures c.Some? ==> NumberField(c.value.x) && NumberField(c.value.y) && NumberField(c.value.z)
  {
    match Search(MatcherOf(CenterRegex), s)
    case None => None
    case Some(f) =>
      CenterRegexFacts();
      SearchGroups(CenterRegex, s);
      Some(Coords(f.groups[0], f.groups[1], f.groups[2]))
  }

  /** What the target pattern finds on a line, after `line.strip()`. */
  function TargetOn(line: string): (d: Option<string>)
    ensures d.Some? ==> DigitField(d.value)
  {
    TargetMatch(Strip(line))
  }

  /** What the center pattern finds on a line, after `line.strip()`. */
  function CenterOn(line: string): (c: Option<Coords>)
    ensures c.Some? ==> NumberField(c.value.x) && NumberField(c.value.y) && NumberField(c.value.z)
  {
    CenterMatch(Strip(line))
  }

  /** `line.strip()` before the target search changes nothing it captures. */
  lemma TargetIgnoresStrip(line: string)
    ensures TargetOn(line) == TargetMatch(line)
  {
    TargetRegexFacts();
    MatcherOfFacts(TargetRegex);
    SearchIgnoresStrip(MatcherOf(TargetRegex), line);
  }

  /** `line.strip()` before the center search changes nothing it captures. */
  lemma CenterIgnoresStrip(line: string)
    ensures CenterOn(line) == CenterMatch(line)
  {
    CenterRegexFacts();
    MatcherOfFacts(CenterRegex);
    SearchIgnoresStrip(MatcherOf(CenterRegex), line);
  }

  /** The target search succeeds exactly when `Target(\d+)` matches somewhere in `s`. */
  lemma TargetMatchIffAccepts(s: string)
    ensures TargetMatch(s).Some? <==> exists j :: 0 <= j <= |s| && Accepts(TargetRegex, s[j..])
  {
    TargetRegexFacts();
    SearchIffAccepts(TargetRegex, s);
  }

  /** The center search succeeds exactly when the center pattern matches somewhere in `s`. */
  lemma CenterMatchIffAccepts(s: string)
    ensures CenterMatch(s).Some? <==> exists j :: 0 <= j <= |s| && Accepts(CenterRegex, s[j..])
  {
    CenterRegexFacts();
    SearchIffAccepts(CenterRegex, s);
  }

  /** A line that starts with `Target` in any case and a run of digits yields those digits. */
  lemma TargetFound(w: string, digits: string, rest: string)
    requires Spells(w, "target") && DigitField(digits)
    requires rest == [] || !IsDigit(rest[0])
    ensures TargetMatch(w + digits + rest) == Some(digits)
  {
    assert MatchPrefix(End, rest) == Some([]);
    PrefixStep(Group(Digits), End, digits, rest, []);
    PrefixStep(Lit("target"), Then(Group(Digits), End), w, digits + rest, [digits] + []);
    assert w + digits + rest == w + (digits + rest);
    SearchAtStart(MatcherOf(TargetRegex), w + digits + rest);
  }

  /** `f"Target{digits}"` reads back as `digits`: the target id the extractor writes is a target marker. */
  lemma TargetIdFound(digits: string)
    requires DigitField(digits)
    ensures TargetMatch(TargetId(digits)) == Some(digits)
  {
    TargetFound("Target", digits, []);
    assert TargetId(digits) == "Target" + digits + [];
  }

  /** `\s*([\d\.\-]+)\s*` and the unit, read from `" " + x + " " + unit` ahead of `tail`. */
  lemma FieldFound(unit: string, next: Regex, x: string, tail: string, g: seq<string>)
    requires unit == "m;" || unit == "m"
    requires NumberField(x)
    requires MatchPrefix(next, tail) == Some(g)
    ensures MatchPrefix(Field(unit, next), " " + x + " " + unit + tail) == Some([x] + g)
  {
    var f1 := Then(Group(Numbers), Then(Star(Spaces), Then(Lit(unit), next)));
    var u1 := x + (" " + (unit + tail));
    UnitFound(unit, next, x, tail, g);
    PrefixStep(Star(Spaces), f1, " ", u1, [x] + g);
    Regroup(" ", x, " ", unit, tail);
  }

  /** `([\d\.\-]+)\s*` and the unit, read from `x + " " + unit` ahead of `tail`. */
  lemma UnitFound(unit: string, next: Regex, x: string, tail: string, g: seq<string>)
    requires unit == "m;" || unit == "m"
    requires NumberField(x)
    requires MatchPrefix(next, tail) == Some(g)
    ensures MatchPrefix(Then(Group(Numbers), Then(Star(Spaces), Then(Lit(unit), next))), x + (" " + (unit + tail))) == Some([x] + g)
  {
    SpacedUnitFound(unit, next, tail, g);
    PrefixStep(Group(Numbers), Then(Star(Spaces), Then(Lit(unit), next)), x, " " + (unit + tail), g);
  }

  /** `\s*` and the unit, read from `" " + unit` ahead of `tail`. */
  lemma SpacedUnitFound(unit: string, next: Regex, tail: string, g: seq<string>)
    requires unit == "m;" || unit == "m"
    requires MatchPrefix(next, tail) == Some(g)
    ensures MatchPrefix(Then(Star(Spaces), Then(Lit(unit), next)), " " + (unit + tail)) == Some(g)
  {
    UnitFacts(unit);
    PrefixStep(Lit(unit), next, unit, tail, g);
    assert (unit + tail)[0] == 'm';
    assert AllIn(Spaces, " ");
    PrefixStep(Star(Spaces), Then(Lit(unit), next), " ", unit + tail, g);
  }

  lemma UnitFacts(unit: string)
    requires unit == "m;" || unit == "m"
    ensures Spells(unit, unit) && unit != [] && unit[0] == 'm' && !In(Spaces, 'm')
  {
  }

  /** The center line cut at the boundaries of the pattern's items. */
  lemma CenterLineSplits(w: string, c: Coords, rest: string)
    ensures w + ": " + CenterText(c) + rest == w + ([] + (":" + FieldsText(c, rest)))
  {
    var t3 := " " + c.z + " " + "m" + rest;
    var t2 := " " + c.y + " " + "m;" + t3;
    var t1 := " " + c.x + " " + "m;" + t2;
    assert " m; " == " " + "m;" + " ";
    assert " m" == " " + "m";
    assert ": " == ":" + " ";
    calc {
      w + ": " + CenterText(c) + rest;
      w + (":" + " ") + (c.x + (" " + "m;" + " ") + c.y + (" " + "m;" + " ") + c.z + (" " + "m")) + rest;
      w + (":" + t1);
    }
  }

  lemma Regroup(a: string, b: string, c: string, d: string, e: string)
    ensures a + b + c + d + e == a + (b + (c + (d + e)))
  {
  }

  /**
    `Center: ` in any case, followed by the center text the extractor writes,
    reads back as the same three coordinates.
   */
  lemma CenterFound(w: string, c: Coords, rest: string)
    requires Spells(w, "center")
    requires NumberField(c.x) && NumberField(c.y) && NumberField(c.z)
    ensures CenterMatch(w + ": " + CenterText(c) + rest) == Some(c)
  {
    var line := w + ": " + CenterText(c) + rest;
    CenterLineSplits(w, c, rest);
    CenterPrefixFound(w, c, rest);
    SearchAtStart(MatcherOf(CenterRegex), line);
  }

  /** The whole center pattern, matched at the start of the cut-up center line. */
  lemma CenterPrefixFound(w: string, c: Coords, rest: string)
    requires Spells(w, "center")
    requires NumberField(c.x) && NumberField(c.y) && NumberField(c.z)
    ensures MatchPrefix(CenterRegex, w + ([] + (":" + FieldsText(c, rest)))) == Some([c.x, c.y, c.z])
  {
    var afterKeyword := Then(Star(Spaces), Then(Lit(":"), Field("m;", Field("m;", Field("m", End)))));
    ColonFound(c, rest);
    PrefixStep(Lit("center"), afterKeyword, w, [] + (":" + FieldsText(c, rest)), [c.x, c.y, c.z]);
  }

  /** What follows the keyword: `\s*:` and the three fields. */
  lemma ColonFound(c: Coords, rest: string)
    requires NumberField(c.x) && NumberField(c.y) && NumberField(c.z)
    ensures MatchPrefix(Then(Star(Spaces), Then(Lit(":"), Field("m;", Field("m;", Field("m", End))))), [] + (":" + FieldsText(c, rest)))
      == Some([c.x, c.y, c.z])
  {
    var r1 := Field("m;", Field("m;", Field("m", End)));
    var t1 := FieldsText(c, rest);
    var g := [c.x, c.y, c.z];
    FieldsFound(c, rest);
    assert Spells(":", ":");
    PrefixStep(Lit(":"), r1, ":", t1, g);
    PrefixStep(Star(Spaces), Then(Lit(":"), r1), [], ":" + t1, g);
  }

  /** The three coordinates with their units, as the center line spells them after the colon. */
  function FieldsText(c: Coords, rest: string): string {
    " " + c.x + " " + "m;" + (" " + c.y + " " + "m;" + (" " + c.z + " " + "m" + rest))
  }

  /** The three fields of the center pattern read the three coordinates back. */
  lemma FieldsFound(c: Coords, rest: string)
    requires NumberField(c.x) && NumberField(c.y) && NumberField(c.z)
    ensures MatchPrefix(Field("m;", Field("m;", Field("m", End))), FieldsText(c, rest)) == Some([c.x, c.y, c.z])
  {
    var t2 := " " + c.y + " " + "m;" + (" " + c.z + " " + "m" + rest);
    TwoFieldsFound(c.y, c.z, rest);
    FieldFound("m;", Field("m;", Field("m", End)), c.x, t2, [c.y, c.z]);
    assert [c.x] + [c.y, c.z] == [c.x, c.y, c.z];
  }

  /** The last two fields of the center pattern. */
  lemma TwoFieldsFound(y: string, z: string, rest: string)
    requires NumberField(y) && NumberField(z)
    ensures MatchPrefix(Field("m;", Field("m", End)), " " + y + " " + "m;" + (" " + z + " " + "m" + rest)) == Some([y, z])
  {
    LastFieldFound(z, rest);
    FieldFound("m;", Field("m", End), y, " " + z + " " + "m" + rest, [z]);
    assert [y] + [z] == [y, z];
  }

  /** The last field of the center pattern. */
  lemma LastFieldFound(z: string, rest: string)
    requires NumberField(z)
    ensures MatchPrefix(Field("m", End), " " + z + " " + "m" + rest) == Some([z])
  {
    assert MatchPrefix(End, rest) == Some([]);
    FieldFound("m", End, z, rest, []);
    assert [z] + [] == [z];
  }

  /** The target pattern is found only in a line holding a `g` or `G` (from `Target`). */
  lemma TargetNeedsG(s: string)
    requires TargetMatch(s).Some?
    ensures Occurrences(s, 'g') >= 1
  {
    SearchNeedsLetters(TargetRegex, s, 'g');
  }

  /**
    The center pattern is found only in a line holding three units `m` or `M`:
    a center line whose last coordinate lacks its unit, and that has no other
    `m` to spare, produces nothing.
   */
  lemma CenterNeedsUnits(s: string)
    requires CenterMatch(s).Some?
    ensures Occurrences(s, 'm') >= 3
  {
    SearchNeedsLetters(CenterRegex, s, 'm');
    CenterUnits();
  }

  /** Each field of the center pattern ends in one unit. */
  lemma CenterUnits()
    ensures LitOccurrences(CenterRegex, 'm') == 3
  {
    var r3 := Field("m", End);
    var r2 := Field("m;", r3);
    var r1 := Field("m;", r2);
    assert Occurrences("m", 'm') == 1 && Occurrences("m;", 'm') == 1;
    assert LitOccurrences(r3, 'm') == 1;
    assert LitOccurrences(r2, 'm') == 2;
    assert LitOccurrences(r1, 'm') == 3;
    assert Occurrences(":", 'm') == 0 && Occurrences("center", 'm') == 0;
  }

  // ---------------------------------------------------------------------------
  // The rows

  /** `[current_target, center_str, x, y, z]` */
  datatype Row = Row(target: string, center: string, x: string, y: string, z: string)

  /** `f"Target{digits}"` */
  function TargetId(digits: string): (id: string)
    ensures |id| == 6 + |digits| && id[..6] == "Target" && id[6..] == digits
    ensures DigitField(digits) ==> IsTargetId(id)
  {
    "Target" + digits
  }

  /** `f"{x} m; {y} m; {z} m"` */
  function CenterText(c: Coords): (text: string)
    ensures |text| == |c.x| + |c.y| + |c.z| + 10
    ensures text[..|c.x|] == c.x && text[|text| - 2..] == " m"
  {
    c.x + " m; " + c.y + " m; " + c.z + " m"
  }

  function RowOf(target: string, c: Coords): (row: Row)
    ensures IsTargetId(target) && NumberField(c.x) && NumberField(c.y) && NumberField(c.z) ==> WellFormed(row)
  {
    Row(target, CenterText(c), c.x, c.y, c.z)
  }

  /** `"Target"` followed by a non-empty run of digits. */
  predicate IsTargetId(s: string) {
    |s| > 6 && s[..6] == "Target" && DigitField(s[6..])
  }

  /** What every emitted row looks like. */
  predicate WellFormed(row: Row) {
    && IsTargetId(row.target)
    && NumberField(row.x) && NumberField(row.y) && NumberField(row.z)
    && row.center == CenterText(Coords(row.x, row.y, row.z))
  }

  /** Python truthiness of `current_target`: present and not the empty string. */
  predicate Truthy(t: Option<string>) {
    t.Some? && t.value != []
  }

  // ---------------------------------------------------------------------------
  // The pass, as a fold

  /** What the two patterns find on one line. */
  datatype Hits = Hits(target: Option<string>, center: Option<Coords>)

  /** The hits are what the patterns can capture. */
  predicate Plausible(h: Hits) {
    && (h.target.Some? ==> DigitField(h.target.value))
    && (h.center.Some? ==> NumberField(h.center.value.x) && NumberField(h.center.value.y) && NumberField(h.center.value.z))
  }

  /** What the two patterns find on a line, after `line.strip()`. */
  function Find(line: string): (h: Hits)
    ensures Plausible(h)
  {
    Hits(TargetOn(line), CenterOn(line))
  }

  /** `f` applied to each element of `xs`, in order. */
  function Each<A, B>(f: A -> B, xs: seq<A>): (ys: seq<B>)
    ensures |ys| == |xs|
  {
    if xs == [] then [] else [f(xs[0])] + Each(f, xs[1..])
  }

  lemma {:induction false} EachAt<A, B>(f: A -> B, xs: seq<A>, i: nat)
    requires i < |xs|
    ensures Each(f, xs)[i] == f(xs[i])
  {
    if i > 0 {
      EachAt(f, xs[1..], i - 1);
    }
  }

  lemma {:induction false} EachAppend<A, B>(f: A -> B, xs: seq<A>, ys: seq<A>)
    ensures Each(f, xs + ys) == Each(f, xs) + Each(f, ys)
  {
    if xs == [] {
      assert xs + ys == ys;
    } else {
      assert (xs + ys)[1..] == xs[1..] + ys;
      EachAppend(f, xs[1..], ys);
    }
  }

  /** Applying `f` to one more element adds `f` of it. */
  lemma EachPush<A, B>(f: A -> B, xs: seq<A>, x: A)
    ensures Each(f, xs + [x]) == Each(f, xs) + [f(x)]
  {
    EachAppend(f, xs, [x]);
    assert [x][1..] == [];
  }

  lemma EachSnoc<A, B>(f: A -> B, xs: seq<A>, i: nat)
    requires i < |xs|
    ensures Each(f, xs[..i + 1]) == Each(f, xs[..i]) + [f(xs[i])]
  {
    assert xs[..i + 1] == xs[..i] + [xs[i]];
    EachPush(f, xs[..i], xs[i]);
  }

  /** `Find` never yields an implausible hit. */
  lemma EachFindPlausible(lines: seq<string>)
    ensures AllPlausible(Each(Find, lines))
  {
    forall i | 0 <= i < |lines|
      ensures Plausible(Each(Find, lines)[i])
    {
      EachAt(Find, lines, i);
    }
  }

  /** What the two patterns find on each line, in order. */
  function Finds(lines: seq<string>): (hs: seq<Hits>)
    ensures |hs| == |lines|
    ensures AllPlausible(hs)
  {
    EachFindPlausible(lines);
    Each(Find, lines)
  }

  /** The loop's variables between two lines. */
  datatype Scan = Scan(currentTarget: Option<string>, data: seq<Row>)

  /** One iteration of the loop: the target hit first, then the center hit. */
  function Step(st: Scan, h: Hits): (next: Scan)
    ensures st.data <= next.data && |next.data| <= |st.data| + 1
    ensures |next.data| == |st.data| + 1 <==> h.center.Some? && (h.target.Some? || Truthy(st.currentTarget))
    ensures |next.data| == |st.data| + 1 ==> next.currentTarget.None?
    ensures |next.data| == |st.data| + 1 ==>
      next.data[|st.data|] == RowOf(if h.target.Some? then TargetId(h.target.value) else st.currentTarget.value, h.center.value)
    ensures h.target.Some? && h.center.None? ==> next.currentTarget == Some(TargetId(h.target.value))
  {
    var t := if h.target.Some? then Some(TargetId(h.target.value)) else st.currentTarget;
    if h.center.Some? && Truthy(t) then Scan(None, st.data + [RowOf(t.value, h.center.value)])
    else Scan(t, st.data)
  }

  /** Every row so far is well formed, and a pending target is a target id. */
  predicate Sound(st: Scan) {
    && (forall k :: 0 <= k < |st.data| ==> WellFormed(st.data[k]))
    && (st.currentTarget.Some? ==> IsTargetId(st.currentTarget.value))
  }

  /** A step keeps the scan sound. */
  lemma StepKeepsSound(st: Scan, h: Hits)
    requires Sound(st) && Plausible(h)
    ensures Sound(Step(st, h))
  {
    if h.target.Some? {
      var d := h.target.value;
      assert TargetId(d)[..6] == "Target" && TargetId(d)[6..] == d;
    }
  }

  /** All hits are plausible. */
  predicate AllPlausible(hs: seq<Hits>) {
    forall i :: 0 <= i < |hs| ==> Plausible(hs[i])
  }

  /** The loop's variables after the lines with the given hits. */
  function Fold(hs: seq<Hits>): (st: Scan)
    ensures |st.data| <= |hs|
  {
    if hs == [] then Scan(None, []) else Step(Fold(hs[..|hs| - 1]), hs[|hs| - 1])
  }

  lemma FoldNext(hs: seq<Hits>, i: nat)
    requires i < |hs|
    ensures Fold(hs[..i + 1]) == Step(Fold(hs[..i]), hs[i])
  {
    assert hs[..i + 1][..i] == hs[..i];
  }

  /** Scanning plausible hits yields only well-formed rows. */
  lemma {:induction false} FoldSound(hs: seq<Hits>)
    requires AllPlausible(hs)
    ensures Sound(Fold(hs))
  {
    if hs != [] {
      FoldSound(hs[..|hs| - 1]);
      StepKeepsSound(Fold(hs[..|hs| - 1]), hs[|hs| - 1]);
    }
  }

  /** `process_docx`'s result for the given lines. */
  function Extract(lines: seq<string>): (rows: seq<Row>)
    ensures |rows| <= |lines|
  {
    Fold(Finds(lines)).data
  }

  /**
    Every row has five fields: `"Target"` and digits, the three coordinates
    written out with their units, and the three coordinates themselves.
   */
  lemma RowsWellFormed(lines: seq<string>)
    ensures forall k :: 0 <= k < |Extract(lines)| ==> WellFormed(Extract(lines)[k])
  {
    FoldSound(Finds(lines));
  }

  /**
    The body of the loop of `process_docx` on one line: strip it, let a target
    match replace the pending target, then let a center match while a target
    is pending append a row and clear the pending target.
   */
  method ScanLine(line: string, pending: Option<string>, rows: seq<Row>) returns (currentTarget: Option<string>, data: seq<Row>)
    ensures Scan(currentTarget, data) == Step(Scan(pending, rows), Find(line))
  {
    currentTarget, data := pending, rows;
    var stripped := Strip(line);
    var targetMatch := TargetMatch(stripped);
    if targetMatch.Some? {
      currentTarget := Some(TargetId(targetMatch.value));
    }
    var centerMatch := CenterMatch(stripped);
    if centerMatch.Some? && Truthy(currentTarget) {
      data := data + [RowOf(currentTarget.value, centerMatch.value)];
      currentTarget := None;
    }
  }

  /** The loop of `process_docx`, over lines already split. */
  method ProcessLines(lines: seq<string>) returns (data: seq<Row>)
    ensures data == Extract(lines)
  {
    data := [];
    var currentTarget: Option<string> := None;
    var i := 0;
    assert lines[..0] == [];
    while i < |lines|
      invariant i <= |lines|
      invariant Fold(Finds(lines[..i])) == Scan(currentTarget, data)
    {
      currentTarget, data := ScanLine(lines[i], currentTarget, data);
      EachSnoc(Find, lines, i);
      FoldSnoc(Finds(lines[..i]), Find(lines[i]));
      i := i + 1;
    }
    assert lines[..i] == lines;
  }

  /** The pass over one more line is one more step. */
  lemma FoldSnoc(hs: seq<Hits>, h: Hits)
    ensures Fold(hs + [h]) == Step(Fold(hs), h)
  {
    assert (hs + [h])[..|hs|] == hs;
  }

  // ---------------------------------------------------------------------------
  // Counting and order

  /** The number of lines on which the center pattern matches. */
  function CenterLines(hs: seq<Hits>): nat {
    if hs == [] then 0 else CenterLines(hs[..|hs| - 1]) + (if hs[|hs| - 1].center.Some? then 1 else 0)
  }

  /** The number of lines on which the target pattern matches. */
  function TargetLines(hs: seq<Hits>): nat {
    if hs == [] then 0 else TargetLines(hs[..|hs| - 1]) + (if hs[|hs| - 1].target.Some? then 1 else 0)
  }

  /** Only a line the center pattern matches appends, and it appends one row. */
  lemma {:induction false} RowsAtMostCenterLines(hs: seq<Hits>)
    ensures |Fold(hs).data| <= CenterLines(hs)
  {
    if hs != [] {
      RowsAtMostCenterLines(hs[..|hs| - 1]);
    }
  }

  /**
    Every row uses up a target that a target line set, and a pending target
    is one more such target not yet used.
   */
  lemma {:induction false} RowsAtMostTargetLines(hs: seq<Hits>)
    ensures |Fold(hs).data| + (if Fold(hs).currentTarget.Some? then 1 else 0) <= TargetLines(hs)
  {
    if hs != [] {
      RowsAtMostTargetLines(hs[..|hs| - 1]);
    }
  }

  /** The two counting bounds, for the rows `process_docx` returns. */
  lemma RowsBounded(lines: seq<string>)
    ensures |Extract(lines)| <= CenterLines(Finds(lines))
    ensures |Extract(lines)| <= TargetLines(Finds(lines))
  {
    RowsAtMostCenterLines(Finds(lines));
    RowsAtMostTargetLines(Finds(lines));
  }

  /** Reading more lines keeps every row already produced, in place. */
  lemma {:induction false} FoldAppendOnly(hs1: seq<Hits>, hs2: seq<Hits>)
    ensures Fold(hs1).data <= Fold(hs1 + hs2).data
    decreases |hs2|
  {
    if hs2 == [] {
      assert hs1 + hs2 == hs1;
    } else {
      var all := hs1 + hs2;
      var init := hs2[..|hs2| - 1];
      assert all[..|all| - 1] == hs1 + init;
      FoldAppendOnly(hs1, init);
    }
  }

  /** The rows of `lines1` are the first rows of `lines1 + lines2`: rows are only ever appended. */
  lemma ExtractAppendOnly(lines1: seq<string>, lines2: seq<string>)
    ensures Extract(lines1) <= Extract(lines1 + lines2)
  {
    EachAppend(Find, lines1, lines2);
    FoldAppendOnly(Finds(lines1), Finds(lines2));
  }

  /**
    With no target pending, a line on which the target pattern finds nothing
    adds no row, even when the center pattern matches on it, and still leaves
    no target pending.
   */
  lemma NoPendingNoRow(lines: seq<string>, line: string)
    requires Fold(Finds(lines)).currentTarget.None?
    requires TargetOn(line).None?
    ensures Extract(lines + [line]) == Extract(lines)
    ensures Fold(Finds(lines + [line])).currentTarget.None?
  {
    EachPush(Find, lines, line);
    FoldSnoc(Finds(lines), Find(line));
  }

  /** A line that adds a row adds exactly one and leaves no target pending. */
  lemma RowClearsTarget(lines: seq<string>, line: string)
    requires Extract(lines + [line]) != Extract(lines)
    ensures Extract(lines) < Extract(lines + [line]) && |Extract(lines + [line])| == |Extract(lines)| + 1
    ensures Fold(Finds(lines + [line])).currentTarget.None?
  {
    EachPush(Find, lines, line);
    FoldSnoc(Finds(lines), Find(line));
  }
}
