/**
  The extractor on small documents: a target line followed by its center
  line, a center line with nothing pending, several targets before one center
  line, two center lines after one target, a center line whose last coordinate
  lacks its unit, and markers written in any case.  Each is stated for every
  choice of digits, coordinates and spelling of the keywords.
 */
module Scenarios {
  import opened Wrappers
  import opened Chars
  import opened Patterns
  import opened Extractor

  /** A center line as the document writes it: the keyword, a colon, and the three coordinates with units. */
  function CenterLine(keyword: string, c: Coords): string {
    keyword + ": " + CenterText(c)
  }

  /** Coordinates as the center pattern captures them. */
  predicate ValidCoords(c: Coords) {
    NumberField(c.x) && NumberField(c.y) && NumberField(c.z)
  }

  /** Digits, dots and minus signs are not letters. */
  lemma {:induction false} NumbersLackLetter(s: string, c: char)
    requires AllIn(Numbers, s) && 'a' <= c <= 'z'
    ensures Occurrences(s, c) == 0
  {
    if s != [] {
      assert AllIn(Numbers, s[1..]) by {
        forall i | 0 <= i < |s| - 1
          ensures In(Numbers, s[1..][i])
        {
          assert s[1..][i] == s[i + 1];
        }
      }
      NumbersLackLetter(s[1..], c);
    }
  }

  lemma DigitsAreNumbers(s: string)
    requires DigitField(s)
    ensures NumberField(s)
  {
  }

  /** A target line holds fewer than three `m`: only its keyword has letters, and `target` has no `m`. */
  lemma TargetLineUnits(keyword: string, digits: string)
    requires Spells(keyword, "target") && DigitField(digits)
    ensures Occurrences(keyword + digits, 'm') == 0
  {
    SpellsOccurrences(keyword, "target", 'm');
    DigitsAreNumbers(digits);
    NumbersLackLetter(digits, 'm');
    OccurrencesAppend(keyword, digits, 'm');
  }

  /** How often `ch` occurs in the text of a center line around its coordinates. */
  lemma CenterTextLetters(c: Coords, ch: char, tail: string)
    requires ValidCoords(c) && 'a' <= ch <= 'z'
    ensures Occurrences(c.x + " m; " + c.y + " m; " + c.z + tail, ch)
      == 2 * Occurrences(" m; ", ch) + Occurrences(tail, ch)
  {
    NumbersLackLetter(c.x, ch);
    NumbersLackLetter(c.y, ch);
    NumbersLackLetter(c.z, ch);
    OccurrencesAppend(c.x, " m; ", ch);
    OccurrencesAppend(c.x + " m; ", c.y, ch);
    OccurrencesAppend(c.x + " m; " + c.y, " m; ", ch);
    OccurrencesAppend(c.x + " m; " + c.y + " m; ", c.z, ch);
    OccurrencesAppend(c.x + " m; " + c.y + " m; " + c.z, tail, ch);
  }

  /** A center line holds no `g`: the target pattern is not found on it. */
  lemma CenterLineHasNoG(keyword: string, c: Coords)
    requires Spells(keyword, "center") && ValidCoords(c)
    ensures Occurrences(CenterLine(keyword, c), 'g') == 0
  {
    SpellsOccurrences(keyword, "center", 'g');
    assert Occurrences(" m; ", 'g') == 0 && Occurrences(" m", 'g') == 0 && Occurrences(": ", 'g') == 0;
    CenterTextLetters(c, 'g', " m");
    OccurrencesAppend(keyword, ": ", 'g');
    OccurrencesAppend(keyword + ": ", CenterText(c), 'g');
  }

  /** The target pattern finds the digits on a target line. */
  lemma TargetOnTargetLine(keyword: string, digits: string)
    requires Spells(keyword, "target") && DigitField(digits)
    ensures TargetOn(keyword + digits) == Some(digits)
  {
    TargetIgnoresStrip(keyword + digits);
    assert keyword + digits == keyword + digits + [];
    TargetFound(keyword, digits, []);
  }

  /** The center pattern finds nothing on a target line. */
  lemma CenterOnTargetLine(keyword: string, digits: string)
    requires Spells(keyword, "target") && DigitField(digits)
    ensures CenterOn(keyword + digits) == None
  {
    var line := keyword + digits;
    CenterIgnoresStrip(line);
    if CenterMatch(line).Some? {
      CenterNeedsUnits(line);
      TargetLineUnits(keyword, digits);
    }
  }

  /** The target pattern finds the digits on a target line, and the center pattern finds nothing there. */
  lemma TargetOnlyLine(keyword: string, digits: string)
    requires Spells(keyword, "target") && DigitField(digits)
    ensures Find(keyword + digits) == Hits(Some(digits), None)
  {
    TargetOnTargetLine(keyword, digits);
    CenterOnTargetLine(keyword, digits);
  }

  /** The center pattern finds the coordinates on a center line. */
  lemma CenterOnCenterLine(keyword: string, c: Coords)
    requires Spells(keyword, "center") && ValidCoords(c)
    ensures CenterOn(CenterLine(keyword, c)) == Some(c)
  {
    var line := CenterLine(keyword, c);
    CenterIgnoresStrip(line);
    assert line == keyword + ": " + CenterText(c) + [];
    CenterFound(keyword, c, []);
  }

  /** The target pattern finds nothing on a center line. */
  lemma TargetOnCenterLine(keyword: string, c: Coords)
    requires Spells(keyword, "center") && ValidCoords(c)
    ensures TargetOn(CenterLine(keyword, c)) == None
  {
    var line := CenterLine(keyword, c);
    TargetIgnoresStrip(line);
    if TargetMatch(line).Some? {
      TargetNeedsG(line);
      CenterLineHasNoG(keyword, c);
    }
  }

  /** The center pattern finds the coordinates on a center line, and the target pattern finds nothing there. */
  lemma CenterOnlyLine(keyword: string, c: Coords)
    requires Spells(keyword, "center") && ValidCoords(c)
    ensures Find(CenterLine(keyword, c)) == Hits(None, Some(c))
  {
    CenterOnCenterLine(keyword, c);
    TargetOnCenterLine(keyword, c);
  }

  /** `Finds` on a line in front of more lines. */
  lemma FindsCons(line: string, rest: seq<string>, h: Hits, hs: seq<Hits>)
    requires Find(line) == h && Finds(rest) == hs
    ensures Finds([line] + rest) == [h] + hs
  {
    assert ([line] + rest)[1..] == rest;
    assert Each(Find, [line] + rest) == [Find(line)] + Each(Find, rest);
  }

  /** What the patterns find on one line. */
  lemma FindsOne(l0: string, h0: Hits)
    requires Find(l0) == h0
    ensures Finds([l0]) == [h0]
  {
    FindsCons(l0, [], h0, []);
    assert [l0] + [] == [l0] && [h0] + [] == [h0];
  }

  /** What the patterns find on two lines. */
  lemma FindsTwo(l0: string, l1: string, h0: Hits, h1: Hits)
    requires Find(l0) == h0 && Find(l1) == h1
    ensures Finds([l0, l1]) == [h0, h1]
  {
    FindsOne(l1, h1);
    FindsCons(l0, [l1], h0, [h1]);
    assert [l0] + [l1] == [l0, l1] && [h0] + [h1] == [h0, h1];
  }

  /** What the patterns find on three lines. */
  lemma FindsThree(l0: string, l1: string, l2: string, h0: Hits, h1: Hits, h2: Hits)
    requires Find(l0) == h0 && Find(l1) == h1 && Find(l2) == h2
    ensures Finds([l0, l1, l2]) == [h0, h1, h2]
  {
    FindsTwo(l1, l2, h1, h2);
    FindsCons(l0, [l1, l2], h0, [h1, h2]);
    ConsThree(l0, l1, l2);
    ConsThree(h0, h1, h2);
  }

  lemma ConsThree<T>(a: T, b: T, c: T)
    ensures [a] + [b, c] == [a, b, c]
  {
  }

  /** The pass over two lines. */
  lemma FoldTwo(h0: Hits, h1: Hits)
    ensures Fold([h0, h1]) == Step(Step(Scan(None, []), h0), h1)
  {
    var hs := [h0, h1];
    assert hs[..0] == [];
    FoldNext(hs, 0);
    FoldNext(hs, 1);
    assert hs[..2] == hs;
  }

  /** The pass over three lines. */
  lemma FoldThree(h0: Hits, h1: Hits, h2: Hits)
    ensures Fold([h0, h1, h2]) == Step(Step(Step(Scan(None, []), h0), h1), h2)
  {
    var hs := [h0, h1, h2];
    FoldTwo(h0, h1);
    assert hs[..2] == [h0, h1];
    FoldNext(hs, 2);
    assert hs[..3] == hs;
  }

  /** A target found and then a center found: one row. */
  lemma PairRows(digits: string, c: Coords)
    ensures Fold([Hits(Some(digits), None), Hits(None, Some(c))]).data == [RowOf(TargetId(digits), c)]
  {
    FoldTwo(Hits(Some(digits), None), Hits(None, Some(c)));
  }

  /**
    A target line and then its center line give one row, whatever the case of
    the two keywords; the row's target is always written `Target`.
   */
  lemma TargetThenCenter(targetWord: string, digits: string, centerWord: string, c: Coords)
    requires Spells(targetWord, "target") && DigitField(digits)
    requires Spells(centerWord, "center") && ValidCoords(c)
    ensures Extract([targetWord + digits, CenterLine(centerWord, c)])
      == [Row("Target" + digits, c.x + " m; " + c.y + " m; " + c.z + " m", c.x, c.y, c.z)]
  {
    TargetOnlyLine(targetWord, digits);
    CenterOnlyLine(centerWord, c);
    FindsTwo(targetWord + digits, CenterLine(centerWord, c), Hits(Some(digits), None), Hits(None, Some(c)));
    PairRows(digits, c);
  }

  /** A center found with nothing pending: no row. */
  lemma LoneCenterRows(c: Coords)
    ensures Fold([Hits(None, Some(c))]).data == []
  {
    var hs := [Hits(None, Some(c))];
    assert hs[..0] == [];
    FoldNext(hs, 0);
    assert hs[..1] == hs;
  }

  /** A center line with no target before it gives nothing. */
  lemma CenterWithoutTarget(centerWord: string, c: Coords)
    requires Spells(centerWord, "center") && ValidCoords(c)
    ensures Extract([CenterLine(centerWord, c)]) == []
  {
    CenterOnlyLine(centerWord, c);
    FindsOne(CenterLine(centerWord, c), Hits(None, Some(c)));
    LoneCenterRows(c);
  }

  /** Two targets found and then a center found: one row, with the second target. */
  lemma LaterTargetRows(first: string, second: string, c: Coords)
    ensures Fold([Hits(Some(first), None), Hits(Some(second), None), Hits(None, Some(c))]).data
      == [RowOf(TargetId(second), c)]
  {
    FoldThree(Hits(Some(first), None), Hits(Some(second), None), Hits(None, Some(c)));
  }

  /** Of two target lines before one center line, the later one wins. */
  lemma LastTargetWins(first: string, second: string, c: Coords)
    requires DigitField(first) && DigitField(second) && ValidCoords(c)
    ensures Extract([TargetId(first), TargetId(second), CenterLine("Center", c)]) == [RowOf(TargetId(second), c)]
  {
    assert Spells("Target", "target") && Spells("Center", "center");
    TargetOnlyLine("Target", first);
    TargetOnlyLine("Target", second);
    CenterOnlyLine("Center", c);
    FindsThree(TargetId(first), TargetId(second), CenterLine("Center", c),
      Hits(Some(first), None), Hits(Some(second), None), Hits(None, Some(c)));
    LaterTargetRows(first, second, c);
  }

  /** A target found and then two centers found: only the first center gives a row. */
  lemma UsedOnceRows(digits: string, c1: Coords, c2: Coords)
    ensures Fold([Hits(Some(digits), None), Hits(None, Some(c1)), Hits(None, Some(c2))]).data
      == [RowOf(TargetId(digits), c1)]
  {
    FoldThree(Hits(Some(digits), None), Hits(None, Some(c1)), Hits(None, Some(c2)));
  }

  /** A target is used once: a second center line after it gives nothing. */
  lemma TargetUsedOnce(digits: string, c1: Coords, c2: Coords)
    requires DigitField(digits) && ValidCoords(c1) && ValidCoords(c2)
    ensures Extract([TargetId(digits), CenterLine("Center", c1), CenterLine("Center", c2)]) == [RowOf(TargetId(digits), c1)]
  {
    assert Spells("Target", "target") && Spells("Center", "center");
    TargetOnlyLine("Target", digits);
    CenterOnlyLine("Center", c1);
    CenterOnlyLine("Center", c2);
    FindsThree(TargetId(digits), CenterLine("Center", c1), CenterLine("Center", c2),
      Hits(Some(digits), None), Hits(None, Some(c1)), Hits(None, Some(c2)));
    UsedOnceRows(digits, c1, c2);
  }

  /** The center line with its last unit left off. */
  function UnitlessLine(c: Coords): string {
    "Center: " + c.x + " m; " + c.y + " m; " + c.z
  }

  /** A center line whose last coordinate has no unit holds no `g` and only two `m`. */
  lemma UnitlessLetters(c: Coords)
    requires ValidCoords(c)
    ensures Occurrences(UnitlessLine(c), 'g') == 0 && Occurrences(UnitlessLine(c), 'm') == 2
  {
    var line := UnitlessLine(c);
    var body := c.x + " m; " + c.y + " m; " + c.z;
    assert Occurrences(" m; ", 'm') == 1 && Occurrences(" m; ", 'g') == 0;
    assert Occurrences("Center: ", 'm') == 0 && Occurrences("Center: ", 'g') == 0;
    CenterTextLetters(c, 'm', []);
    CenterTextLetters(c, 'g', []);
    assert body + [] == body;
    assert line == "Center: " + body;
    OccurrencesAppend("Center: ", body, 'm');
    OccurrencesAppend("Center: ", body, 'g');
  }

  /** On a center line whose last coordinate has no unit, neither pattern is found. */
  lemma UnitlessFindsNothing(c: Coords)
    requires ValidCoords(c)
    ensures Find(UnitlessLine(c)) == Hits(None, None)
  {
    var line := UnitlessLine(c);
    UnitlessLetters(c);
    TargetIgnoresStrip(line);
    CenterIgnoresStrip(line);
    if TargetMatch(line).Some? {
      TargetNeedsG(line);
    }
    if CenterMatch(line).Some? {
      CenterNeedsUnits(line);
    }
  }

  /** A target found and then nothing found: no row. */
  lemma UnpairedRows(digits: string)
    ensures Fold([Hits(Some(digits), None), Hits(None, None)]).data == []
  {
    FoldTwo(Hits(Some(digits), None), Hits(None, None));
  }

  /** A target line followed by a center line whose last coordinate lacks its unit gives nothing. */
  lemma MissingUnit(digits: string, c: Coords)
    requires DigitField(digits) && ValidCoords(c)
    ensures Extract([TargetId(digits), UnitlessLine(c)]) == []
  {
    assert Spells("Target", "target");
    TargetOnlyLine("Target", digits);
    UnitlessFindsNothing(c);
    FindsTwo(TargetId(digits), UnitlessLine(c), Hits(Some(digits), None), Hits(None, None));
    UnpairedRows(digits);
  }
}
