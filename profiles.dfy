/** The metaplot profiles of `get_trans_frame_tAI`: every passing transcript
    contributes a window of per-codon scores around its start codon (and
    one around its stop codon) with a 0/1 mask; each position of the
    profile is the mean over the rows whose mask is 1 there. */
module Profiles {
  import opened Outcomes
  import opened Means

  /** One row of `startAIList` with its row of `startPos`. */
  datatype Window = Window(values: seq<real>, mask: seq<int>)

  /** `getWindowsVector(up, down, scores, anchor)`. Its body is not part of
      this model: it is a parameter. */
  type WindowFn = (nat, nat, seq<real>, nat) -> Window

  /** What the model relies on about `getWindowsVector`: both of its rows
      have up + down + 1 positions. */
  ghost predicate WindowShaped(windowOf: WindowFn) {
    forall up: nat, down: nat, scores: seq<real>, anchor: nat ::
      |windowOf(up, down, scores, anchor).values| == up + down + 1 &&
      |windowOf(up, down, scores, anchor).mask| == up + down + 1
  }

  /** Every row has `width` values and `width` mask entries. */
  predicate Shaped(rows: seq<Window>, width: nat) {
    forall r | 0 <= r < |rows| :: |rows[r].values| == width && |rows[r].mask| == width
  }

  /** `rows[np.where(mask[:,t]==1), t]`: column t of the rows whose mask is
      1 there, top to bottom. */
  function Column(rows: seq<Window>, t: nat): (c: seq<real>)
    requires forall r | 0 <= r < |rows| :: t < |rows[r].values| && t < |rows[r].mask|
    ensures |c| <= |rows|
    ensures c == [] <==> forall r | 0 <= r < |rows| :: rows[r].mask[t] != 1
  {
    if rows == [] then []
    else
      var front := rows[..|rows| - 1];
      var last := rows[|rows| - 1];
      assert forall r | 0 <= r < |front| :: front[r] == rows[r];
      if last.mask[t] == 1 then Column(front, t) + [last.values[t]] else Column(front, t)
  }

  /** `np.mean` of that column; no row with mask 1 gives NaN, here None. */
  function ColumnMean(rows: seq<Window>, t: nat): (m: Option<real>)
    requires forall r | 0 <= r < |rows| :: t < |rows[r].values| && t < |rows[r].mask|
    ensures m.None? <==> forall r | 0 <= r < |rows| :: rows[r].mask[t] != 1
    ensures m.Some? ==> m.value * |Column(rows, t)| as real == Sum(Column(rows, t))
  {
    Mean(Column(rows, t))
  }

  /** Every row under mask 1 counts once, repeated values included: rows
      holding 1, 1 and 4 under mask 1 average to 2. */
  lemma ColumnMeanCountsEveryRow()
    ensures ColumnMean([Window([1.0], [1]), Window([1.0], [1]), Window([4.0], [1])], 0) == Some(2.0)
  {
    ExampleColumn();
    MeanCountsRepeats();
  }

  /** The column of those three rows keeps both copies of 1. */
  lemma ExampleColumn()
    ensures Column([Window([1.0], [1]), Window([1.0], [1]), Window([4.0], [1])], 0) == [1.0, 1.0, 4.0]
  {
    ColumnOfThree(Window([1.0], [1]), Window([1.0], [1]), Window([4.0], [1]), 0);
  }

  /** Three rows under mask 1 give their three values, in order. */
  lemma ColumnOfThree(a: Window, b: Window, c: Window, t: nat)
    requires t < |a.values| && t < |a.mask| && a.mask[t] == 1
    requires t < |b.values| && t < |b.mask| && b.mask[t] == 1
    requires t < |c.values| && t < |c.mask| && c.mask[t] == 1
    ensures Column([a, b, c], t) == [a.values[t], b.values[t], c.values[t]]
  {
    assert Column([a], t) == [a.values[t]] by {
      assert [a][..0] == [];
    }
    assert Column([a, b], t) == [a.values[t], b.values[t]] by {
      assert [a, b][..1] == [a];
    }
    assert [a, b, c][..2] == [a, b];
  }

  /** The profile over `width` positions. With no rows at all the stacked
      mask array is one-dimensional and indexing a column fails. */
  function Profile(rows: seq<Window>, width: nat): (p: Result<seq<Option<real>>>)
    requires Shaped(rows, width)
    ensures p.Err? <==> rows == [] && width > 0
    ensures p.Err? ==> p.failure == NoTranscriptPassed
    ensures p.Ok? ==> |p.value| == width
    ensures p.Ok? ==> forall t | 0 <= t < width :: p.value[t] == ColumnMean(rows, t)
  {
    if rows == [] && width > 0 then Err(NoTranscriptPassed)
    else Ok(seq(width, t requires 0 <= t < width => ColumnMean(rows, t)))
  }

  /** A profile position only averages values that occur in its column
      under mask 1: when those all lie in [lo, hi], so does the mean. */
  lemma ColumnMeanBounds(rows: seq<Window>, t: nat, lo: real, hi: real)
    requires forall r | 0 <= r < |rows| :: t < |rows[r].values| && t < |rows[r].mask|
    requires forall r | 0 <= r < |rows| && rows[r].mask[t] == 1 :: lo <= rows[r].values[t] <= hi
    ensures ColumnMean(rows, t).Some? ==> lo <= ColumnMean(rows, t).value <= hi
  {
    var c := Column(rows, t);
    if c != [] {
      ColumnFromMaskedRows(rows, t);
      forall i | 0 <= i < |c| ensures lo <= c[i] <= hi {
        assert c[i] in c;
      }
      MeanBounds(c, lo, hi);
    }
  }

  /** Every value of a column comes from a row whose mask is 1 there. */
  lemma {:induction false} ColumnFromMaskedRows(rows: seq<Window>, t: nat)
    requires forall r | 0 <= r < |rows| :: t < |rows[r].values| && t < |rows[r].mask|
    ensures forall x | x in Column(rows, t) :: exists r | 0 <= r < |rows| :: rows[r].mask[t] == 1 && rows[r].values[t] == x
  {
    if rows != [] {
      var front := rows[..|rows| - 1];
      assert forall r | 0 <= r < |front| :: front[r] == rows[r];
      ColumnFromMaskedRows(front, t);
    }
  }

  /** Rows whose mask is not 1 at a position do not affect it. */
  lemma {:induction false} ColumnIgnoresMaskedRows(rows: seq<Window>, extra: Window, t: nat)
    requires forall r | 0 <= r < |rows| :: t < |rows[r].values| && t < |rows[r].mask|
    requires t < |extra.values| && t < |extra.mask| && extra.mask[t] != 1
    ensures Column(rows + [extra], t) == Column(rows, t)
  {
    assert (rows + [extra])[..|rows|] == rows;
  }

  /** A row whose mask is 1 at a position adds its value there, after the
      values of the rows before it. */
  lemma ColumnTakesMaskedRow(rows: seq<Window>, extra: Window, t: nat)
    requires forall r | 0 <= r < |rows| :: t < |rows[r].values| && t < |rows[r].mask|
    requires t < |extra.values| && t < |extra.mask| && extra.mask[t] == 1
    ensures Column(rows + [extra], t) == Column(rows, t) + [extra.values[t]]
  {
    assert (rows + [extra])[..|rows|] == rows;
  }

  /** The `for terms in np.arange(up+down+1)` loop: both profiles are
      filled position by position into fresh zero-initialised arrays. */
  method FillProfiles(startRows: seq<Window>, stopRows: seq<Window>, width: nat)
    returns (startAI: array<Option<real>>, stopAI: array<Option<real>>)
    requires Shaped(startRows, width) && Shaped(stopRows, width)
    requires startRows != [] && stopRows != []
    ensures fresh(startAI) && fresh(stopAI)
    ensures Profile(startRows, width) == Ok(startAI[..])
    ensures Profile(stopRows, width) == Ok(stopAI[..])
  {
    startAI := new Option<real>[width](_ => Some(0.0));
    stopAI := new Option<real>[width](_ => Some(0.0));
    var t := 0;
    while t < width
      invariant 0 <= t <= width
      invariant forall u | 0 <= u < t :: startAI[u] == ColumnMean(startRows, u)
      invariant forall u | 0 <= u < t :: stopAI[u] == ColumnMean(stopRows, u)
    {
      startAI[t] := ColumnMean(startRows, t);
      stopAI[t] := ColumnMean(stopRows, t);
      t := t + 1;
    }
    assert startAI[..] == seq(width, u requires 0 <= u < width => ColumnMean(startRows, u));
    assert stopAI[..] == seq(width, u requires 0 <= u < width => ColumnMean(stopRows, u));
  }
}
