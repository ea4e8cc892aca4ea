# Target/center extractor of `target.py`, in Dafny

`process_docx` in `target.py` reads the text of a Word document line by line
and pairs "target markers" with "center markers":

- a line matching `Target(\d+)` (any case) makes `"Target" + digits` the
  pending target, replacing any earlier one;
- then a line matching
  `Center\s*:\s*([\d\.\-]+)\s*m;\s*([\d\.\-]+)\s*m;\s*([\d\.\-]+)\s*m` (any
  case) while a target is pending appends the row
  `[target, "x m; y m; z m", x, y, z]` and clears the pending target.

Every line is stripped of surrounding whitespace first. Both tests run on
every line, the target test first.

The model has six modules:

- `Wrappers`: the `Option` type used for "found" and "not found".
- `Chars`: the character classes `\d`, `\s` and `[\d\.\-]`, and
  `str.strip()`.
- `Patterns`: the two patterns as chains of items (case-blind literals,
  greedy `k*`, greedy `(k+)`).
  - `MatchItems` is a deterministic, non-backtracking matcher.
  - `Accepts` says what the regular expression accepts.
  - `Search` is `pattern.search`: the leftmost start at which the matcher
    succeeds.
  - The lemmas prove that, for these two patterns, the greedy matcher
    succeeds exactly when the regular expression matches, and that
    stripping a line changes neither whether a pattern is found nor what it
    captures.
- `Extractor`: one pass of the loop.
  - `TargetMatch` and `CenterMatch` stand for the two `search` calls.
  - `Find` holds what both patterns find on one stripped line.
  - `Step` and `Fold` are the loop as a pure fold over those findings.
  - `ScanLine` is one loop iteration and `ProcessLines` the loop itself.
    Both are imperative methods, proved equal to the fold.
  - The remaining lemmas are the counting bounds, well-formedness of rows,
    append-only output, "no pending target, no row", and the round trips
    showing that each pattern reads back what the extractor writes.
- `Reference`: the pass stated without loop state.
  - A line produces a row when the center pattern matches on it and the
    last target line at or before it has not already been used by a row.
  - That row carries the last target ("last marker wins").
  - `Reference.ExtractIsReference` proves the fold equal to this account.
- `Scenarios`: small documents stated for every choice of digits,
  coordinates and keyword spelling:
  - a target then its center line;
  - a center line with nothing pending;
  - two targets then one center line;
  - one target then two center lines;
  - a center line missing its last unit.

Extraction is a function of the lines, so running it twice on the same lines
gives the same rows.

## Model

| member | source | states |
|---|---|---|
| Extractor.Step | target.py:25-34 | one iteration on the hits of a line: the target hit goes first, so a target-only line leaves `"Target" + digits` pending; a row is appended exactly when the center pattern matched and a target is pending after the target hit; that row is `RowOf` the pending target and the coordinates, appended after the unchanged earlier rows; it is at most one row, and it clears the pending target |
| Extractor.Fold | target.py:20-34 | the loop's `current_target` and `data` after the lines with the given hits, starting from no target and no rows; never more rows than lines |
| Extractor.Extract | target.py:20-36 | the rows `process_docx` returns for the given lines, as the fold over what the patterns find on each line; never more rows than lines |
| Extractor.Find | target.py:24-29 | what the two searches find on the stripped line: a target hit is a non-empty digit run, a center hit three non-empty runs of digits, `.` and `-` |
| Extractor.TargetOn | target.py:24-27 | the target search on the stripped line; what it captures is a non-empty digit run |
| Extractor.CenterOn | target.py:24-31 | the center search on the stripped line; its three captures are non-empty runs of digits, `.` and `-` |
| Extractor.TargetId | target.py:27 | `f"Target{digits}"`: `Target` followed by exactly the digits, and a target id whenever the digits are a non-empty run |
| Extractor.CenterText | target.py:32 | `f"{x} m; {y} m; {z} m"`: starts with x, ends with ` m`, and is ten characters longer than the three coordinates (`Extractor.CenterFound` reads it back) |
| Extractor.RowOf | target.py:31-33 | the appended list `[current_target, center_str, x, y, z]`; well formed whenever the target is a target id and the coordinates are number runs |
| Chars.Strip | target.py:24 | `line.strip()`: the part of the line after its indent, no longer than the line (with `Chars.StripTrims`, exactly what `str.strip()` keeps) |
| Chars.LStrip | target.py:24 | the suffix left after the leading whitespace: what it drops is whitespace, and it does not start with whitespace |
| Chars.RStrip | target.py:24 | the prefix left before the trailing whitespace: what it drops is whitespace, and it does not end with whitespace |
| Chars.ClassesApart | target.py:14-16 | `\s` (`Chars.IsSpace`, Python's `str.isspace`) never overlaps `[\d\.\-]`; every `\d` (`Chars.IsDigit`) is in `[\d\.\-]`; case folding changes neither |
| Chars.ToLower | target.py:14-17 | the case folding of `re.IGNORECASE`: the result is a lower-case ASCII letter exactly when the character is an ASCII letter |
| Patterns.MatchItems | target.py:14-18 | the two patterns matched at the start of a text: on success the pieces fit the items in order, spell the start of the text, and are the greedy cut |
| Patterns.Consume | target.py:14-18 | one item read greedily: the piece it takes fits the item, and a `\s*`, `\d+` or `[\d\.\-]+` run stops only where its class ends |
| Extractor.ProcessLines | target.py:20-36 | the loop over the lines returns exactly the rows of the fold `Extract(lines)` |
| Extractor.ScanLine | target.py:24-34 | one iteration (strip, target search, center search while a target is pending, append, reset) leaves `current_target` and `data` as one `Step` of the fold |
| Extractor.RowsBounded | target.py:25-34 | the number of rows is at most the number of lines where the center pattern matches, and at most the number where the target pattern matches |
| Extractor.RowsAtMostCenterLines | target.py:29-33 | only a center-matching line appends, and it appends one row |
| Extractor.RowsAtMostTargetLines | target.py:25-34 | rows plus a still-pending target never outnumber the target-matching lines, because each row uses up the pending target |
| Extractor.RowsWellFormed | target.py:27-33 | every row has five fields: `"Target"` and a non-empty digit run, `x + " m; " + y + " m; " + z + " m"`, then x, y, z, each a non-empty run of digits, `.` and `-` |
| Extractor.StepKeepsSound | target.py:26-34 | one iteration keeps all rows well formed and keeps the pending target a target id |
| Extractor.FoldSound | target.py:23-34 | after any number of lines all rows are well formed |
| Extractor.ExtractAppendOnly | target.py:23-33 | the rows of `lines1` are a prefix of the rows of `lines1 + lines2` |
| Extractor.FoldAppendOnly | target.py:33 | more lines never change rows already emitted |
| Extractor.NoPendingNoRow | target.py:30 | with no target pending, a line without a target match adds no row, even if the center pattern matches, and still leaves nothing pending |
| Extractor.RowClearsTarget | target.py:33-34 | a line that adds rows adds exactly one, at the end, and leaves no target pending |
| Extractor.TargetFound | target.py:25-27 | `Target` in any case, then a digit run not followed by a digit: the search captures exactly that whole digit run |
| Extractor.TargetIdFound | target.py:27 | the target id the extractor writes, `"Target" + digits`, reads back as the same digits |
| Extractor.CenterFound | target.py:29-32 | `Center: ` in any case, then the center text the extractor writes, reads back as the same three coordinates |
| Extractor.FieldFound | target.py:16 | `\s*([\d\.\-]+)\s*` and its unit capture a field written as `" " + x + " " + unit` |
| Extractor.TargetNeedsG | target.py:14 | the target pattern is found only in a line that holds a `g` or `G` |
| Extractor.CenterNeedsUnits | target.py:16-17 | the center pattern is found only in a line holding at least three `m`/`M`, one unit per field |
| Extractor.TargetIgnoresStrip | target.py:24-25 | searching the stripped line finds the same digits as searching the line itself |
| Extractor.CenterIgnoresStrip | target.py:24-29 | searching the stripped line finds the same coordinates as searching the line itself |
| Extractor.TargetMatchIffAccepts | target.py:14 | the target search succeeds exactly when `Target(\d+)` matches at some position |
| Extractor.CenterMatchIffAccepts | target.py:15-18 | the center search succeeds exactly when the center pattern matches at some position |
| Extractor.TargetMatch | target.py:25-27 | a target match captures a non-empty run of digits |
| Extractor.CenterMatch | target.py:29-31 | a center match captures three non-empty runs of digits, `.` and `-` |
| Extractor.TargetRegexFacts | target.py:14 | `TargetRegex`, the item chain for `Target(\d+)`, starts with a keyword, holds no whitespace, needs no backtracking, and has one digit group |
| Extractor.CenterRegexFacts | target.py:15-18 | `CenterRegex`, the item chain for the center pattern, starts with a keyword, has no whitespace outside `\s*`, needs no backtracking, and has three number groups |
| Reference.ExtractIsReference | target.py:20-36 | the rows are, in line order, one per line where the center pattern matches while the last earlier-or-same target line is not used up, each carrying that last target |
| Reference.FoldIsReference | target.py:25-34 | after any prefix of the lines, the loop's rows and pending target equal the declarative account |
| Reference.LastTarget | target.py:25-27 | the most recent target-matching line before a position, with no target line after it |
| Patterns.MatchIffAccepts | target.py:14-18 | for a pattern that needs no backtracking, the greedy matcher succeeds exactly when `Patterns.Accepts` holds, that is, when some cut of the text's start into pieces fits the items (the regular expression's own meaning) |
| Patterns.NoBacktracking | target.py:16 | every way the pattern can cut a text, the greedy matcher also succeeds on |
| Patterns.MatchGreedyPieces | target.py:14-18 | a greedy cut of the text is the one the matcher returns |
| Patterns.SearchIffAccepts | target.py:25-29 | `search` succeeds exactly when some suffix of the line starts with an accepted text |
| Patterns.Search | target.py:25-29 | `search` returns the leftmost start where the pattern matches, with its groups |
| Patterns.SearchGroups | target.py:27-31 | a found match has one non-empty group per capture, each drawn from its class |
| Patterns.SearchIgnoresStrip | target.py:24-29 | for a keyword-led, space-free pattern, stripping keeps whether a match is found and what it captures |
| Patterns.MatchIgnoresTrailingSpace | target.py:24 | trailing whitespace never changes whether or what a space-free pattern matches |
| Patterns.MatchStartsWithKeyword | target.py:24 | a match of a keyword-led pattern never starts at whitespace |
| Patterns.SearchNeedsLetters | target.py:14-18 | a line in which a pattern is found holds at least the letters of the pattern's literals, case ignored |
| Chars.StripTrims | target.py:24 | `strip()` removes only whitespace, and what it keeps neither starts nor ends with whitespace |
| Chars.SpanOfRun | target.py:14-16 | a greedy run of a class stops exactly where the class ends |
| Scenarios.TargetThenCenter | target.py:20-36 | a target line then a center line give exactly one row, whatever the case of either keyword |
| Scenarios.CenterWithoutTarget | target.py:30 | a center line with no target before it gives no row |
| Scenarios.LastTargetWins | target.py:25-30 | of two target lines before one center line, the later target is the one in the row |
| Scenarios.TargetUsedOnce | target.py:30-34 | after a target is paired, a second center line gives no row |
| Scenarios.MissingUnit | target.py:16-17 | a center line whose last coordinate lacks its `m` gives no row |
| Scenarios.UnitlessFindsNothing | target.py:16-17 | on a center line missing its last unit, neither pattern is found |
| Scenarios.TargetOnlyLine | target.py:14-18 | on a target line the target pattern captures the digits and the center pattern finds nothing |
| Scenarios.CenterOnlyLine | target.py:14-18 | on a center line the center pattern captures the coordinates and the target pattern finds nothing |

## Left out

- Decoding the `.docx` file with python-docx and joining its paragraphs with newlines (target.py:11-12) are not modelled. This is a foreign library over a binary format; the model takes the lines as input.
- `str.splitlines` (target.py:23) is not modelled. The input is the sequence of lines already split.
- The Streamlit page, upload handling, the `.doc` warning and the success and error messages (target.py:38-77) are not modelled. They are presentation and I/O.
- Building the pandas table and writing CSV (target.py:58-65) are not modelled. That is a third-party serializer.
- The `try`/`except` reporting path (target.py:51,76-77) is not modelled. It only displays errors; the extraction itself cannot fail.
- A general regular-expression engine is not modelled. Only the two fixed patterns are, as item chains.
- Chars.IsDigit: `\d` is modelled as the ASCII digits `0`-`9`. Python's `\d` on `str` also matches other Unicode decimal digits.
- Chars.ToLower: `re.IGNORECASE` is modelled as ASCII case folding. For the letters of the two patterns this agrees with Python.
- Scenarios.LastTargetWins: stated for target lines written `Target` followed by digits and a center line written `Center: ` with single spaces. Other spellings are covered by the general lemmas, not by this scenario.
- Scenarios.TargetUsedOnce: stated for the `Target`/`Center: ` spellings, like Scenarios.LastTargetWins.
- Scenarios.MissingUnit: stated for a center line written `Center: x m; y m; z`.
- No scenario puts a target marker and a center marker on the same line. The fold handles that case (target first, then center), but no concrete lemma is stated for it.
