/** `get_trans_frame_tAI` end to end: the relative adaptiveness table of
    the copy numbers, the per-transcript scores and the two metaplot
    profiles around the start and stop codons. */
module FrameTai {
  import opened Outcomes
  import opened Means
  import opened Relative
  import opened Profiles
  import opened Scoring

  /** `(startAI, stoptAI, tAI, tAI_codon)`; a profile position with no
      transcript under mask 1 is NaN in the source and None here. */
  datatype FrameResult = FrameResult(startAI: seq<Option<real>>, stopAI: seq<Option<real>>,
                                     tai: map<string, real>, taiCodon: map<string, seq<real>>)

  /** What the function returns for the given records, or the exception it
      raises. */
  function FrameScores(transcripts: seq<Transcript>, codonList: seq<string>, gcn: map<string, nat>,
                       table: map<string, seq<string>>, root: Root, windowOf: WindowFn,
                       up: nat, down: nat): (r: Result<FrameResult>)
    requires WindowShaped(windowOf)
    ensures r.Ok? ==> |r.value.startAI| == |r.value.stopAI| == up + down + 1
    ensures r.Ok? ==> r.value.tai.Keys == r.value.taiCodon.Keys
  {
    var w :- RelativeWeights(codonList, WeightOf(gcn, table), root);
    FromWeights(transcripts, w, root, windowOf, up, down)
  }

  /** Everything after `calculate_relative_adaptiveness_w`, given its table. */
  function FromWeights(transcripts: seq<Transcript>, w: map<string, real>, root: Root, windowOf: WindowFn,
                       up: nat, down: nat): (r: Result<FrameResult>)
    requires WindowShaped(windowOf)
    ensures r.Ok? ==> |r.value.startAI| == |r.value.stopAI| == up + down + 1
    ensures r.Ok? ==> r.value.tai.Keys == r.value.taiCodon.Keys
  {
    var t :- ScoreAll(transcripts, ScorerOf(w, root, windowOf, up, down));
    ScoresShaped(transcripts, w, root, windowOf, up, down);
    Assemble(t, up + down + 1)
  }

  /** The profiles of a finished loop. Indexing the column of an empty
      stack of rows fails; the stop rows are empty exactly when the start
      rows are. */
  function Assemble(t: Tally, width: nat): (r: Result<FrameResult>)
    requires Shaped(t.startRows, width) && Shaped(t.stopRows, width) && |t.startRows| == |t.stopRows|
    requires width > 0
    ensures r.Err? <==> t.startRows == []
    ensures r.Err? ==> r.failure == NoTranscriptPassed
    ensures r.Ok? ==> && Profile(t.startRows, width) == Ok(r.value.startAI)
                      && Profile(t.stopRows, width) == Ok(r.value.stopAI)
                      && r.value.tai == t.tai && r.value.taiCodon == t.taiCodon
    ensures r.Ok? ==> forall i | 0 <= i < width ::
      r.value.startAI[i] == ColumnMean(t.startRows, i) && r.value.stopAI[i] == ColumnMean(t.stopRows, i)
  {
    if t.startRows == [] then Err(NoTranscriptPassed)
    else Ok(FrameResult(Profile(t.startRows, width).value, Profile(t.stopRows, width).value, t.tai, t.taiCodon))
  }

  /** Once the transcript loop has run, the only remaining failure is
      that no transcript passed the length filter, so the profiles have
      no rows to index. */
  lemma NoPassingTranscript(transcripts: seq<Transcript>, w: map<string, real>, root: Root,
                            windowOf: WindowFn, up: nat, down: nat)
    requires WindowShaped(windowOf) && DistinctIds(transcripts)
    requires ScoreAll(transcripts, ScorerOf(w, root, windowOf, up, down)).Ok?
    ensures var r := FromWeights(transcripts, w, root, windowOf, up, down);
      && (r.Err? <==> ScoreAll(transcripts, ScorerOf(w, root, windowOf, up, down)).value.passed == {})
      && (r.Err? ==> r.failure == NoTranscriptPassed)
  {
    ScoreAllCounts(transcripts, ScorerOf(w, root, windowOf, up, down));
    ScoresShaped(transcripts, w, root, windowOf, up, down);
  }

  /** Given the weights, the run succeeds exactly when every transcript
      scores without failure and at least one has a length that is a
      multiple of 3. */
  lemma FromWeightsOk(transcripts: seq<Transcript>, w: map<string, real>, root: Root,
                      windowOf: WindowFn, up: nat, down: nat)
    requires WindowShaped(windowOf) && DistinctIds(transcripts)
    ensures FromWeights(transcripts, w, root, windowOf, up, down).Ok?
        <==> && (forall i | 0 <= i < |transcripts| :: ScoreOne(transcripts[i].cds, w, root, windowOf, up, down).Ok?)
             && (exists i | 0 <= i < |transcripts| :: |transcripts[i].cds| % 3 == 0)
  {
    var score := ScorerOf(w, root, windowOf, up, down);
    var t := ScoreAll(transcripts, score);
    assert t.Ok? <==> forall i | 0 <= i < |transcripts| :: ScoreOne(transcripts[i].cds, w, root, windowOf, up, down).Ok? by {
      ScoreAllOk(transcripts, score);
    }
    if t.Ok? {
      assert FromWeights(transcripts, w, root, windowOf, up, down).Ok? <==> t.value.passed != {} by {
        NoPassingTranscript(transcripts, w, root, windowOf, up, down);
      }
      PassedNonEmpty(transcripts, score);
    }
  }

  /** Every transcript that passes the length filter has its own tAI and
      codon scores in the result. */
  lemma FromWeightsEntry(transcripts: seq<Transcript>, w: map<string, real>, root: Root,
                         windowOf: WindowFn, up: nat, down: nat, k: nat)
    requires WindowShaped(windowOf) && DistinctIds(transcripts)
    requires k < |transcripts| && |transcripts[k].cds| % 3 == 0
    requires FromWeights(transcripts, w, root, windowOf, up, down).Ok?
    ensures var one := ScoreOne(transcripts[k].cds, w, root, windowOf, up, down);
      one.Ok? && one.value.Some? &&
      var r := FromWeights(transcripts, w, root, windowOf, up, down).value;
      && transcripts[k].id in r.tai
      && r.tai[transcripts[k].id] == one.value.value.tai
      && r.taiCodon[transcripts[k].id] == one.value.value.scores
  {
    assert ScoreAll(transcripts, ScorerOf(w, root, windowOf, up, down)).Ok?;
    ScoreAllEntry(transcripts, k, ScorerOf(w, root, windowOf, up, down));
    ScoresShaped(transcripts, w, root, windowOf, up, down);
  }

  /** A successful run returns the loop's `tAI` and `tAI_codon`, and at
      every position of each profile the mean of that column over the
      stacked rows whose mask is 1 there. Row j of those stacks is the
      window of the j-th passing transcript (`Scoring.ScoreAllRows`). */
  lemma FromWeightsProfiles(transcripts: seq<Transcript>, w: map<string, real>, root: Root,
                            windowOf: WindowFn, up: nat, down: nat)
    requires WindowShaped(windowOf)
    ensures FromWeights(transcripts, w, root, windowOf, up, down).Ok? ==>
      ScoreAll(transcripts, ScorerOf(w, root, windowOf, up, down)).Ok? &&
      var t := ScoreAll(transcripts, ScorerOf(w, root, windowOf, up, down)).value;
      var r := FromWeights(transcripts, w, root, windowOf, up, down).value;
      && Shaped(t.startRows, up + down + 1) && Shaped(t.stopRows, up + down + 1)
      && r.tai == t.tai && r.taiCodon == t.taiCodon
      && |r.startAI| == |r.stopAI| == up + down + 1
      && forall i | 0 <= i < up + down + 1 ::
           r.startAI[i] == ColumnMean(t.startRows, i) && r.stopAI[i] == ColumnMean(t.stopRows, i)
  {
    if FromWeights(transcripts, w, root, windowOf, up, down).Ok? {
      ScoresShaped(transcripts, w, root, windowOf, up, down);
    }
  }

  /** The function as written: weights first, then the transcript loop,
      then the two profiles filled into fresh arrays. */
  method TranscriptFrameTai(transcripts: seq<Transcript>, codonList: seq<string>, gcn: map<string, nat>,
                            table: map<string, seq<string>>, root: Root, windowOf: WindowFn,
                            up: nat, down: nat) returns (r: Result<FrameResult>)
    requires WindowShaped(windowOf)
    ensures r == FrameScores(transcripts, codonList, gcn, table, root, windowOf, up, down)
  {
    var w := RelativeAdaptiveness(codonList, gcn, table, root);
    if w.Err? {
      return Err(w.failure);
    }
    r := ScoreAndProfile(transcripts, w.value, root, windowOf, up, down);
  }

  /** The transcript loop and the profile loop over a weight table. */
  method ScoreAndProfile(transcripts: seq<Transcript>, w: map<string, real>, root: Root, windowOf: WindowFn,
                         up: nat, down: nat) returns (r: Result<FrameResult>)
    requires WindowShaped(windowOf)
    ensures r == FromWeights(transcripts, w, root, windowOf, up, down)
  {
    var t := ScoreTranscripts(transcripts, w, root, windowOf, up, down);
    if t.Err? {
      return Err(t.failure);
    }
    ScoresShaped(transcripts, w, root, windowOf, up, down);
    r := Finish(t.value, up + down + 1);
  }

  /** The profile loop over a finished tally, or the IndexError of an
      empty one. */
  method Finish(t: Tally, width: nat) returns (r: Result<FrameResult>)
    requires Shaped(t.startRows, width) && Shaped(t.stopRows, width) && |t.startRows| == |t.stopRows|
    requires width > 0
    ensures r == Assemble(t, width)
  {
    if t.startRows == [] {
      return Err(NoTranscriptPassed);
    }
    var startAI, stopAI := FillProfiles(t.startRows, t.stopRows, width);
    r := Ok(FrameResult(startAI[..], stopAI[..], t.tai, t.taiCodon));
  }
}
