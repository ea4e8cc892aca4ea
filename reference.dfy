/**
  A declarative account of which lines of the document produce a row and with
  which target, stated without the loop's state: a line produces a row when the
  center pattern matches on it and the last line at or before it on which the
  target pattern matched has not been used up by a row produced since.  The
  row then carries that last target ("last marker wins").
 */
module Reference {
  import opened Wrappers
  import opened Extractor

  /** The last line before line `n` on which the target pattern matched. */
  function LastTarget(hs: seq<Hits>, n: nat): (t: Option<nat>)
    requires n <= |hs|
    ensures t.Some? ==> t.value < n && hs[t.value].target.Some?
    ensures t.Some? ==> forall j :: t.value < j < n ==> hs[j].target.None?
    ensures t.None? ==> forall j :: 0 <= j < n ==> hs[j].target.None?
  {
    if n == 0 then None
    else if hs[n - 1].target.Some? then Some(n - 1)
    else LastTarget(hs, n - 1)
  }

  /**
    Line `k` produces a row: the center pattern matches on it, some target
    line is at or before it, and no line from that target line up to line `k`
    has produced a row already.
   */
  predicate Emits(hs: seq<Hits>, k: nat)
    requires k < |hs|
    decreases k
  {
    && hs[k].center.Some?
    && LastTarget(hs, k + 1).Some?
    && forall j :: LastTarget(hs, k + 1).value <= j < k ==> !Emits(hs, j)
  }

  /** The row line `k` produces, when it produces one. */
  function RowAt(hs: seq<Hits>, k: nat): Row
    requires k < |hs| && Emits(hs, k)
  {
    RowOf(TargetId(hs[LastTarget(hs, k + 1).value].target.value), hs[k].center.value)
  }

  /** The rows produced by the first `n` lines, in line order. */
  function Expected(hs: seq<Hits>, n: nat): seq<Row>
    requires n <= |hs|
  {
    if n == 0 then []
    else Expected(hs, n - 1) + (if Emits(hs, n - 1) then [RowAt(hs, n - 1)] else [])
  }

  /** Some line from `t` up to (not including) line `n` produced a row. */
  predicate UsedUp(hs: seq<Hits>, t: nat, n: nat)
    requires t <= n <= |hs|
  {
    exists j :: t <= j < n && Emits(hs, j)
  }

  /** The target still waiting for a center line after the first `n` lines. */
  function Pending(hs: seq<Hits>, n: nat): Option<string>
    requires n <= |hs|
  {
    match LastTarget(hs, n)
    case None => None
    case Some(t) => if UsedUp(hs, t, n) then None else Some(TargetId(hs[t].target.value))
  }

  /** The pass over the first `n` lines is exactly the declarative account. */
  lemma {:induction false} FoldIsReference(hs: seq<Hits>, n: nat)
    requires n <= |hs|
    ensures Fold(hs[..n]) == Scan(Pending(hs, n), Expected(hs, n))
  {
    if n == 0 {
      assert hs[..0] == [];
    } else {
      FoldIsReference(hs, n - 1);
      FoldNext(hs, n - 1);
      if hs[n - 1].target.Some? {
        TargetLineAgrees(hs, n - 1);
      } else {
        OtherLineAgrees(hs, n - 1);
      }
    }
  }

  /** On a line where the target pattern matches, one step keeps the account. */
  lemma TargetLineAgrees(hs: seq<Hits>, k: nat)
    requires k < |hs| && hs[k].target.Some?
    ensures Step(Scan(Pending(hs, k), Expected(hs, k)), hs[k]) == Scan(Pending(hs, k + 1), Expected(hs, k + 1))
  {
    assert LastTarget(hs, k + 1) == Some(k);
    assert !UsedUp(hs, k, k);
  }

  /** On any other line, one step keeps the account. */
  lemma OtherLineAgrees(hs: seq<Hits>, k: nat)
    requires k < |hs| && hs[k].target.None?
    ensures Step(Scan(Pending(hs, k), Expected(hs, k)), hs[k]) == Scan(Pending(hs, k + 1), Expected(hs, k + 1))
  {
    var n := k + 1;
    var h := hs[k];
    assert LastTarget(hs, n) == LastTarget(hs, k);
    if LastTarget(hs, k).Some? {
      var t := LastTarget(hs, k).value;
      assert UsedUp(hs, t, n) <==> UsedUp(hs, t, k) || Emits(hs, k);
      assert Emits(hs, k) <==> h.center.Some? && !UsedUp(hs, t, k);
      if Emits(hs, k) {
        assert RowAt(hs, k) == RowOf(TargetId(hs[t].target.value), h.center.value);
      }
    }
  }

  /** `process_docx` returns the rows of the declarative account. */
  lemma ExtractIsReference(lines: seq<string>)
    ensures Extract(lines) == Expected(Finds(lines), |lines|)
  {
    var hs := Finds(lines);
    FoldIsReference(hs, |hs|);
    assert hs[..|hs|] == hs;
  }
}
