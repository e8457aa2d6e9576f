/** The per-transcript loop of `get_trans_frame_tAI`: each CDS is read as
    RNA, skipped unless its length is a multiple of 3, cut into codons and
    scored codon by codon with the relative adaptiveness w; the geometric
    mean of the scores is the transcript's tAI, and its start and stop
    windows are kept for the profiles. */
module Scoring {
  import opened Outcomes
  import opened Nucleotides
  import opened Means
  import opened Profiles

  /** One FASTA record: the transcript name and its CDS. */
  datatype Transcript = Transcript(id: string, cds: string)

  /** What one passing transcript contributes. */
  datatype Scored = Scored(tai: real, scores: seq<real>, start: Window, stop: Window)

  /** The accumulators of the loop: `tAI`, `tAI_codon`, `startAIList` with
      `startPos`, `stoptAIList` with `stopPos`, and `passTransSet`. */
  datatype Tally = Tally(tai: map<string, real>, taiCodon: map<string, seq<real>>,
                         startRows: seq<Window>, stopRows: seq<Window>, passed: set<string>)

  /** `[s[i:i+3] for i in np.arange(0, len(s), 3)]`: consecutive chunks of
      three, the last one shorter when the length is not a multiple of 3. */
  function SplitCodons(s: string): (codons: seq<string>)
    ensures |codons| == (|s| + 2) / 3
    ensures |s| % 3 == 0 ==> forall i | 0 <= i < |codons| :: |codons[i]| == 3
    ensures forall i | 0 <= i < |codons| :: 3 * i + |codons[i]| <= |s| && codons[i] == s[3 * i .. 3 * i + |codons[i]|]
    decreases |s|
  {
    if s == [] then []
    else if |s| <= 3 then [s]
    else
      var rest := SplitCodons(s[3..]);
      ChunksCons(s, rest);
      [s[..3]] + rest
  }

  /** Putting the first codon in front of the codons of the rest keeps every
      codon at its offset. */
  lemma ChunksCons(s: string, rest: seq<string>)
    requires |s| > 3
    requires forall i | 0 <= i < |rest| :: 3 * i + |rest[i]| <= |s| - 3 && rest[i] == s[3..][3 * i .. 3 * i + |rest[i]|]
    ensures var c := [s[..3]] + rest;
      forall i | 0 <= i < |c| :: 3 * i + |c[i]| <= |s| && c[i] == s[3 * i .. 3 * i + |c[i]|]
  {
    var c := [s[..3]] + rest;
    forall i | 0 <= i < |c|
      ensures 3 * i + |c[i]| <= |s| && c[i] == s[3 * i .. 3 * i + |c[i]|]
    {
      if i > 0 {
        assert c[i] == rest[i - 1];
      }
    }
  }

  /** The chunks joined back together. */
  function Concat(chunks: seq<string>): string {
    if chunks == [] then [] else chunks[0] + Concat(chunks[1..])
  }

  /** Joining the codons gives back the sequence. */
  lemma {:induction false} SplitCodonsJoin(s: string)
    ensures Concat(SplitCodons(s)) == s
    decreases |s|
  {
    if |s| > 3 {
      SplitCodonsJoin(s[3..]);
      assert s == s[..3] + s[3..];
    }
  }

  /** Cutting a concatenation of codons gives back the codons. */
  lemma {:induction false} ConcatSplit(codons: seq<string>)
    requires forall i | 0 <= i < |codons| :: |codons[i]| == 3
    ensures SplitCodons(Concat(codons)) == codons
  {
    if codons != [] {
      var s := Concat(codons);
      ConcatSplit(codons[1..]);
      assert s[..3] == codons[0];
      assert s[3..] == Concat(codons[1..]);
      if codons[1..] == [] {
        assert s == codons[0];
      }
    }
  }

  /** `[tAIDict[codon] for codon in codons]`; the first codon without a
      weight raises KeyError. */
  function CodonScores(codons: seq<string>, w: map<string, real>): (r: Result<seq<real>>)
    ensures r.Ok? <==> forall i | 0 <= i < |codons| :: codons[i] in w
    ensures r.Ok? ==> |r.value| == |codons| && forall i | 0 <= i < |codons| :: r.value[i] == w[codons[i]]
    ensures r.Err? ==> exists i | 0 <= i < |codons| ::
      codons[i] !in w && r.failure == MissingWeight(codons[i]) && forall j | 0 <= j < i :: codons[j] in w
  {
    if codons == [] then Ok([])
    else
      var front := codons[..|codons| - 1];
      var codon := codons[|codons| - 1];
      assert forall i | 0 <= i < |front| :: front[i] == codons[i];
      var scores :- CodonScores(front, w);
      if codon !in w then Err(MissingWeight(codon)) else Ok(scores + [w[codon]])
  }

  /** One transcript: skipped (None) when its RNA length is not a multiple
      of 3; otherwise its codon scores, their geometric mean, and the start
      window (anchored at codon 0) and stop window (anchored at the last
      codon, with the two lengths swapped). */
  function ScoreOne(cds: string, w: map<string, real>, root: Root, windowOf: WindowFn,
                    up: nat, down: nat): (r: Result<Option<Scored>>)
    ensures r == Ok(None) <==> |cds| % 3 != 0
  {
    var rna := ReplaceT(cds);
    if |rna| % 3 != 0 then Ok(None)
    else
      var scores :- CodonScores(SplitCodons(rna), w);
      var tai :- GeometricMean(scores, root);
      Ok(Some(Scored(tai, scores, windowOf(up, down, scores, 0), windowOf(down, up, scores, |scores| - 1))))
  }

  /** A passing transcript: one score per codon, read in frame from the
      start of its RNA, their geometric mean as its tAI, and the two
      windows built from those scores. */
  lemma ScoreOnePasses(cds: string, w: map<string, real>, root: Root, windowOf: WindowFn, up: nat, down: nat)
    requires ScoreOne(cds, w, root, windowOf, up, down).Ok?
    requires ScoreOne(cds, w, root, windowOf, up, down).value.Some?
    ensures var s := ScoreOne(cds, w, root, windowOf, up, down).value.value;
      var rna := ReplaceT(cds);
      && |s.scores| == |cds| / 3 > 0
      && (forall i | 0 <= i < |s.scores| :: rna[3 * i .. 3 * i + 3] in w && s.scores[i] == w[rna[3 * i .. 3 * i + 3]])
      && s.tai == root(Product(s.scores), |s.scores|)
      && s.start == windowOf(up, down, s.scores, 0)
      && s.stop == windowOf(down, up, s.scores, |s.scores| - 1)
  {
    var rna := ReplaceT(cds);
    ScoreOneUnfold(cds, w, root, windowOf, up, down);
    InFrame(rna, w, CodonScores(SplitCodons(rna), w).value);
  }

  /** The scores of an RNA whose length is a multiple of 3 are the weights
      of its in-frame triplets. */
  lemma InFrame(rna: string, w: map<string, real>, scores: seq<real>)
    requires |rna| % 3 == 0
    requires CodonScores(SplitCodons(rna), w) == Ok(scores)
    ensures |scores| == |rna| / 3
    ensures forall i | 0 <= i < |scores| :: rna[3 * i .. 3 * i + 3] in w && scores[i] == w[rna[3 * i .. 3 * i + 3]]
  {
    var codons := SplitCodons(rna);
    forall i | 0 <= i < |scores| ensures rna[3 * i .. 3 * i + 3] in w && scores[i] == w[rna[3 * i .. 3 * i + 3]] {
      assert codons[i] == rna[3 * i .. 3 * i + 3];
    }
  }

  /** An empty CDS passes the length filter and then fails in the
      geometric mean of no scores. */
  lemma EmptyCdsIsFatal(w: map<string, real>, root: Root, windowOf: WindowFn, up: nat, down: nat)
    ensures ScoreOne([], w, root, windowOf, up, down) == Err(EmptyGeometricMean)
  {
    assert SplitCodons(ReplaceT([])) == [];
  }

  /** A CDS made of n > 0 copies of one codon scores that codon's weight. */
  lemma {:induction false} RepeatedCodonScore(codon: string, n: nat, w: map<string, real>, root: Root,
                                              windowOf: WindowFn, up: nat, down: nat)
    requires IsNthRoot(root)
    requires IsCodon(codon) && codon in w && w[codon] >= 0.0 && n > 0
    ensures var r := ScoreOne(Concat(seq(n, _ => codon)), w, root, windowOf, up, down);
      r.Ok? && r.value.Some? && r.value.value.tai == w[codon]
  {
    var codons := seq(n, _ => codon);
    var cds := Concat(codons);
    assert |cds| % 3 == 0 by {
      ConcatLength(codons);
      assert |cds| == 3 * n;
    }
    assert SplitCodons(ReplaceT(cds)) == codons by {
      RnaConcat(codons, codon);
      ConcatSplit(codons);
    }
    var scores := seq(n, _ => w[codon]);
    assert CodonScores(codons, w) == Ok(scores) by {
      ConstantScores(codon, n, w);
    }
    assert root(Product(scores), n) == w[codon] by {
      GeometricMeanOfConstant(w[codon], n, root);
    }
    ScoreOneUnfold(cds, w, root, windowOf, up, down);
  }

  /** ScoreOne past the length filter. */
  lemma ScoreOneUnfold(cds: string, w: map<string, real>, root: Root, windowOf: WindowFn, up: nat, down: nat)
    requires |cds| % 3 == 0
    ensures var cs := CodonScores(SplitCodons(ReplaceT(cds)), w);
      ScoreOne(cds, w, root, windowOf, up, down)
        == if cs.Err? then Err(cs.failure)
           else if cs.value == [] then Err(EmptyGeometricMean)
           else Ok(Some(Scored(root(Product(cs.value), |cs.value|), cs.value,
                               windowOf(up, down, cs.value, 0), windowOf(down, up, cs.value, |cs.value| - 1))))
  {
  }

  /** The scores of n copies of one codon. */
  lemma ConstantScores(codon: string, n: nat, w: map<string, real>)
    requires codon in w
    ensures CodonScores(seq(n, _ => codon), w) == Ok(seq(n, _ => w[codon]))
  {
    var r := CodonScores(seq(n, _ => codon), w);
    assert r.Ok?;
    assert r.value == seq(n, _ => w[codon]);
  }

  /** Copies of one RNA codon have no T. */
  lemma {:induction false} RnaConcat(codons: seq<string>, codon: string)
    requires IsCodon(codon) && forall i | 0 <= i < |codons| :: codons[i] == codon
    ensures ReplaceT(Concat(codons)) == Concat(codons)
  {
    var s := Concat(codons);
    forall i | 0 <= i < |s| ensures s[i] != 'T' {
      CharOfConcat(codons, codon, i);
    }
  }

  lemma {:induction false} CharOfConcat(codons: seq<string>, codon: string, i: nat)
    requires IsCodon(codon) && forall j | 0 <= j < |codons| :: codons[j] == codon
    requires i < |Concat(codons)|
    ensures IsRnaBase(Concat(codons)[i])
  {
    if i >= 3 {
      CharOfConcat(codons[1..], codon, i - 3);
    }
  }

  lemma {:induction false} ConcatLength(codons: seq<string>)
    requires forall i | 0 <= i < |codons| :: |codons[i]| == 3
    ensures |Concat(codons)| == 3 * |codons|
  {
    if codons != [] {
      ConcatLength(codons[1..]);
    }
  }

  /** What the loop does with one CDS: ScoreOne under one weight table,
      root, window function and pair of window lengths. */
  type Scorer = string -> Result<Option<Scored>>

  /** The length filter: a CDS is skipped exactly when its length is not a
      multiple of 3. */
  ghost predicate FiltersByLength(score: Scorer) {
    forall cds :: score(cds) == Ok(None) <==> |cds| % 3 != 0
  }

  /** Both windows of every kept CDS have `width` positions. */
  ghost predicate KeepsWidth(score: Scorer, width: nat) {
    forall cds | score(cds).Ok? && score(cds).value.Some? ::
      && |score(cds).value.value.start.values| == width && |score(cds).value.value.start.mask| == width
      && |score(cds).value.value.stop.values| == width && |score(cds).value.value.stop.mask| == width
  }

  /** The loop body of `get_trans_frame_tAI` as a scorer. */
  function ScorerOf(w: map<string, real>, root: Root, windowOf: WindowFn, up: nat, down: nat): (score: Scorer)
    ensures forall cds :: score(cds) == ScoreOne(cds, w, root, windowOf, up, down)
    ensures FiltersByLength(score)
  {
    cds => ScoreOne(cds, w, root, windowOf, up, down)
  }

  /** When `getWindowsVector` returns rows of up + down + 1 positions, so
      does every kept transcript. */
  lemma ScorerKeepsWidth(w: map<string, real>, root: Root, windowOf: WindowFn, up: nat, down: nat)
    requires WindowShaped(windowOf)
    ensures KeepsWidth(ScorerOf(w, root, windowOf, up, down), up + down + 1)
  {
    var score := ScorerOf(w, root, windowOf, up, down);
    forall cds | score(cds).Ok? && score(cds).value.Some?
      ensures && |score(cds).value.value.start.values| == up + down + 1
              && |score(cds).value.value.start.mask| == up + down + 1
              && |score(cds).value.value.stop.values| == up + down + 1
              && |score(cds).value.value.stop.mask| == up + down + 1
    {
      ScoreOnePasses(cds, w, root, windowOf, up, down);
    }
  }

  /** The loop over the FASTA records, in order; the first failure stops
      the run. */
  function ScoreAll(transcripts: seq<Transcript>, score: Scorer): (r: Result<Tally>)
    ensures r.Ok? ==>
      var t := r.value;
      && t.tai.Keys == t.passed && t.taiCodon.Keys == t.passed
      && |t.startRows| == |t.stopRows| <= |transcripts|
  {
    if transcripts == [] then Ok(Tally(map[], map[], [], [], {}))
    else
      var front := transcripts[..|transcripts| - 1];
      var last := transcripts[|transcripts| - 1];
      assert forall i | 0 <= i < |front| :: front[i] == transcripts[i];
      var t :- ScoreAll(front, score);
      var one :- score(last.cds);
      if one.None? then Ok(t) else Ok(Record(t, last.id, one.value))
  }

  /** The appends and assignments of one passing transcript. */
  function Record(t: Tally, id: string, s: Scored): Tally
  {
    Tally(t.tai[id := s.tai], t.taiCodon[id := s.scores],
          t.startRows + [s.start], t.stopRows + [s.stop], t.passed + {id})
  }

  /** Recording a passing transcript adds its name to the dicts with its
      own tAI and scores, keeps every other entry, and appends its two
      windows after the rows already stacked. */
  lemma RecordAppends(t: Tally, id: string, s: Scored)
    ensures var r := Record(t, id, s);
      && r.passed == t.passed + {id}
      && r.tai.Keys == t.tai.Keys + {id} && r.taiCodon.Keys == t.taiCodon.Keys + {id}
      && r.tai[id] == s.tai && r.taiCodon[id] == s.scores
      && (forall k | k in t.tai && k != id :: r.tai[k] == t.tai[k])
      && (forall k | k in t.taiCodon && k != id :: r.taiCodon[k] == t.taiCodon[k])
      && r.startRows == t.startRows + [s.start] && r.stopRows == t.stopRows + [s.stop]
  {
  }

  /** One step of ScoreAll, on the last transcript. */
  lemma ScoreAllStep(transcripts: seq<Transcript>, score: Scorer)
    requires transcripts != []
    ensures var tf := ScoreAll(transcripts[..|transcripts| - 1], score);
      var one := score(transcripts[|transcripts| - 1].cds);
      ScoreAll(transcripts, score)
        == if tf.Err? then Err(tf.failure)
           else if one.Err? then Err(one.failure)
           else if one.value.None? then tf
           else Ok(Record(tf.value, transcripts[|transcripts| - 1].id, one.value.value))
  {
  }

  /** The positions of the transcripts that score and pass the length
      filter, in input order. */
  function PassingIndices(transcripts: seq<Transcript>, score: Scorer): (ix: seq<nat>)
    ensures forall j | 0 <= j < |ix| :: ix[j] < |transcripts|
    ensures forall j | 0 <= j < |ix| ::
      score(transcripts[ix[j]].cds).Ok? && score(transcripts[ix[j]].cds).value.Some?
    ensures forall j, k | 0 <= j < k < |ix| :: ix[j] < ix[k]
    ensures forall i | 0 <= i < |transcripts| && score(transcripts[i].cds).Ok? && score(transcripts[i].cds).value.Some? :: i in ix
  {
    if transcripts == [] then []
    else
      var n := |transcripts| - 1;
      var front := transcripts[..n];
      assert forall i | 0 <= i < n :: front[i] == transcripts[i];
      var ix := PassingIndices(front, score);
      var one := score(transcripts[n].cds);
      if one.Ok? && one.value.Some? then ix + [n] else ix
  }

  /** Row j of the stacked start and stop windows belongs to the j-th
      passing transcript, in input order. */
  lemma {:induction false} ScoreAllRows(transcripts: seq<Transcript>, score: Scorer)
    requires ScoreAll(transcripts, score).Ok?
    ensures var t := ScoreAll(transcripts, score).value;
      var ix := PassingIndices(transcripts, score);
      && |t.startRows| == |ix| && |t.stopRows| == |ix|
      && forall j | 0 <= j < |ix| ::
           t.startRows[j] == score(transcripts[ix[j]].cds).value.value.start &&
           t.stopRows[j] == score(transcripts[ix[j]].cds).value.value.stop
  {
    if transcripts != [] {
      var n := |transcripts| - 1;
      var front := transcripts[..n];
      assert forall i | 0 <= i < n :: front[i] == transcripts[i];
      ScoreAllStep(transcripts, score);
      ScoreAllRows(front, score);
    }
  }

  /** Only transcripts whose length is a multiple of 3 are passed. */
  lemma {:induction false} PassedAreScored(transcripts: seq<Transcript>, score: Scorer)
    requires FiltersByLength(score)
    requires ScoreAll(transcripts, score).Ok?
    ensures forall id | id in ScoreAll(transcripts, score).value.passed ::
      exists i | 0 <= i < |transcripts| :: transcripts[i].id == id && |transcripts[i].cds| % 3 == 0
  {
    if transcripts != [] {
      var front := transcripts[..|transcripts| - 1];
      assert forall i | 0 <= i < |front| :: front[i] == transcripts[i];
      ScoreAllStep(transcripts, score);
      PassedAreScored(front, score);
    }
  }

  /** FASTA names are dictionary keys, so they are distinct. */
  predicate DistinctIds(transcripts: seq<Transcript>) {
    forall i, j | 0 <= i < j < |transcripts| :: transcripts[i].id != transcripts[j].id
  }

  /** A transcript whose length is not a multiple of 3 never shows up in
      `tAI`, `tAI_codon` or `passTransSet`. */
  lemma SkippedTranscriptAbsent(transcripts: seq<Transcript>, k: nat, score: Scorer)
    requires FiltersByLength(score) && DistinctIds(transcripts)
    requires k < |transcripts| && |transcripts[k].cds| % 3 != 0
    requires ScoreAll(transcripts, score).Ok?
    ensures var t := ScoreAll(transcripts, score).value;
      transcripts[k].id !in t.passed && transcripts[k].id !in t.tai && transcripts[k].id !in t.taiCodon
  {
    PassedAreScored(transcripts, score);
  }

  /** Every transcript whose length is a multiple of 3 is scored, and its
      entries in `tAI` and `tAI_codon` are its own score. */
  lemma {:induction false} ScoreAllEntry(transcripts: seq<Transcript>, k: nat, score: Scorer)
    requires FiltersByLength(score) && DistinctIds(transcripts)
    requires k < |transcripts| && |transcripts[k].cds| % 3 == 0
    requires ScoreAll(transcripts, score).Ok?
    ensures var one := score(transcripts[k].cds);
      one.Ok? && one.value.Some? &&
      var t := ScoreAll(transcripts, score).value;
      && transcripts[k].id in t.passed
      && t.tai[transcripts[k].id] == one.value.value.tai
      && t.taiCodon[transcripts[k].id] == one.value.value.scores
  {
    var n := |transcripts|;
    var front := transcripts[..n - 1];
    var last := transcripts[n - 1];
    ScoreAllStep(transcripts, score);
    var tf := ScoreAll(front, score);
    var one := score(last.cds);
    assert tf.Ok? && one.Ok?;
    if k < n - 1 {
      assert front[k] == transcripts[k];
      assert transcripts[k].id != last.id;
      assert DistinctIds(front) by {
        assert forall i | 0 <= i < |front| :: front[i] == transcripts[i];
      }
      ScoreAllEntry(front, k, score);
      if one.value.Some? {
        RecordAppends(tf.value, last.id, one.value.value);
      }
    } else {
      RecordAppends(tf.value, last.id, one.value.value);
    }
  }

  /** Some transcript is passed exactly when some length is a multiple
      of 3. */
  lemma PassedNonEmpty(transcripts: seq<Transcript>, score: Scorer)
    requires FiltersByLength(score) && DistinctIds(transcripts)
    requires ScoreAll(transcripts, score).Ok?
    ensures ScoreAll(transcripts, score).value.passed != {}
        <==> exists i | 0 <= i < |transcripts| :: |transcripts[i].cds| % 3 == 0
  {
    PassedAreScored(transcripts, score);
    if exists i | 0 <= i < |transcripts| :: |transcripts[i].cds| % 3 == 0 {
      var i :| 0 <= i < |transcripts| && |transcripts[i].cds| % 3 == 0;
      ScoreAllEntry(transcripts, i, score);
    }
  }

  /** The run succeeds exactly when every transcript scores without
      failure: a missing codon weight or an empty CDS anywhere is fatal. */
  lemma {:induction false} ScoreAllOk(transcripts: seq<Transcript>, score: Scorer)
    ensures ScoreAll(transcripts, score).Ok? <==> forall i | 0 <= i < |transcripts| :: score(transcripts[i].cds).Ok?
  {
    if transcripts != [] {
      var front := transcripts[..|transcripts| - 1];
      assert forall i | 0 <= i < |front| :: front[i] == transcripts[i];
      ScoreAllOk(front, score);
    }
  }

  /** With distinct names there is one metaplot row per passing transcript. */
  lemma {:induction false} ScoreAllCounts(transcripts: seq<Transcript>, score: Scorer)
    requires FiltersByLength(score) && DistinctIds(transcripts)
    requires ScoreAll(transcripts, score).Ok?
    ensures var t := ScoreAll(transcripts, score).value;
      |t.startRows| == |t.stopRows| == |t.passed|
  {
    if transcripts != [] {
      var n := |transcripts|;
      var front := transcripts[..n - 1];
      var last := transcripts[n - 1];
      assert DistinctIds(front) by {
        assert forall i | 0 <= i < |front| :: front[i] == transcripts[i];
      }
      ScoreAllStep(transcripts, score);
      var tf := ScoreAll(front, score);
      assert tf.Ok?;
      ScoreAllCounts(front, score);
      assert last.id !in tf.value.passed by {
        PassedAreScored(front, score);
        assert forall i | 0 <= i < |front| :: front[i].id != last.id;
      }
      CountsStep(tf.value, score(last.cds).value, last.id, ScoreAll(transcripts, score));
    }
  }

  /** Recording a passing transcript, or skipping a failing one, keeps one
      row of each kind per recorded name. */
  lemma CountsStep(tf: Tally, one: Option<Scored>, id: string, r: Result<Tally>)
    requires |tf.startRows| == |tf.stopRows| == |tf.passed|
    requires id !in tf.passed
    requires r == if one.None? then Ok(tf) else Ok(Record(tf, id, one.value))
    ensures |r.value.startRows| == |r.value.stopRows| == |r.value.passed|
  {
  }

  /** When every kept window has `width` positions, the stacked rows form
      the matrices the profiles index. */
  lemma {:induction false} ScoreAllShaped(transcripts: seq<Transcript>, score: Scorer, width: nat)
    requires KeepsWidth(score, width)
    requires ScoreAll(transcripts, score).Ok?
    ensures var t := ScoreAll(transcripts, score).value;
      Shaped(t.startRows, width) && Shaped(t.stopRows, width)
  {
    if transcripts != [] {
      var front := transcripts[..|transcripts| - 1];
      assert forall i | 0 <= i < |front| :: front[i] == transcripts[i];
      ScoreAllStep(transcripts, score);
      ScoreAllShaped(front, score, width);
    }
  }

  /** The rows of a finished run under `getWindowsVector` returning rows of
      up + down + 1 positions. */
  lemma ScoresShaped(transcripts: seq<Transcript>, w: map<string, real>, root: Root,
                     windowOf: WindowFn, up: nat, down: nat)
    requires WindowShaped(windowOf)
    requires ScoreAll(transcripts, ScorerOf(w, root, windowOf, up, down)).Ok?
    ensures var t := ScoreAll(transcripts, ScorerOf(w, root, windowOf, up, down)).value;
      Shaped(t.startRows, up + down + 1) && Shaped(t.stopRows, up + down + 1)
  {
    ScorerKeepsWidth(w, root, windowOf, up, down);
    ScoreAllShaped(transcripts, ScorerOf(w, root, windowOf, up, down), up + down + 1);
  }

  /** The per-transcript loop as tAI.py runs it. */
  method ScoreTranscripts(transcripts: seq<Transcript>, w: map<string, real>, root: Root,
                          windowOf: WindowFn, up: nat, down: nat) returns (r: Result<Tally>)
    ensures r == ScoreAll(transcripts, ScorerOf(w, root, windowOf, up, down))
  {
    ghost var score := ScorerOf(w, root, windowOf, up, down);
    var tai: map<string, real> := map[];
    var taiCodon: map<string, seq<real>> := map[];
    var startRows: seq<Window> := [];
    var stopRows: seq<Window> := [];
    var passed: set<string> := {};
    var i := 0;
    while i < |transcripts|
      invariant 0 <= i <= |transcripts|
      invariant ScoreAll(transcripts[..i], score) == Ok(Tally(tai, taiCodon, startRows, stopRows, passed))
    {
      var trans := transcripts[i];
      var one := ScoreTranscript(trans.cds, w, root, windowOf, up, down);
      assert one == score(trans.cds);
      if one.Err? {
        ScoreAllFailsAt(transcripts, i, score);
        return Err(one.failure);
      }
      ScoreAllSnoc(transcripts, i, score);
      if one.value.Some? {
        var s := one.value.value;
        tai := tai[trans.id := s.tai];
        taiCodon := taiCodon[trans.id := s.scores];
        startRows := startRows + [s.start];
        stopRows := stopRows + [s.stop];
        passed := passed + {trans.id};
      }
      i := i + 1;
    }
    assert transcripts[..i] == transcripts;
    r := Ok(Tally(tai, taiCodon, startRows, stopRows, passed));
  }

  /** ScoreAllStep on a prefix of the records. */
  lemma ScoreAllSnoc(transcripts: seq<Transcript>, i: nat, score: Scorer)
    requires i < |transcripts|
    requires ScoreAll(transcripts[..i], score).Ok? && score(transcripts[i].cds).Ok?
    ensures var t := ScoreAll(transcripts[..i], score).value;
      var one := score(transcripts[i].cds).value;
      ScoreAll(transcripts[..i + 1], score)
        == if one.None? then Ok(t) else Ok(Record(t, transcripts[i].id, one.value))
  {
    assert transcripts[..i + 1][..i] == transcripts[..i];
    ScoreAllStep(transcripts[..i + 1], score);
  }

  /** The body of the loop for one record: the length filter, the codon
      look-ups, the geometric mean and the two windows. */
  method ScoreTranscript(cds: string, w: map<string, real>, root: Root, windowOf: WindowFn,
                         up: nat, down: nat) returns (r: Result<Option<Scored>>)
    ensures r == ScoreOne(cds, w, root, windowOf, up, down)
  {
    var rna := ReplaceT(cds);
    if |rna| % 3 != 0 {
      return Ok(None);
    }
    var scores := LookupScores(SplitCodons(rna), w);
    if scores.Err? {
      return Err(scores.failure);
    }
    var tai := GeometricMean(scores.value, root);
    if tai.Err? {
      return Err(tai.failure);
    }
    var n := |scores.value|;
    r := Ok(Some(Scored(tai.value, scores.value, windowOf(up, down, scores.value, 0),
                        windowOf(down, up, scores.value, n - 1))));
  }

  /** The first failing transcript decides the failure. */
  lemma {:induction false} ScoreAllFailsAt(transcripts: seq<Transcript>, i: nat, score: Scorer)
    requires i < |transcripts|
    requires ScoreAll(transcripts[..i], score).Ok?
    requires score(transcripts[i].cds).Err?
    ensures ScoreAll(transcripts, score) == Err(score(transcripts[i].cds).failure)
  {
    if |transcripts| == i + 1 {
      assert transcripts[..|transcripts| - 1] == transcripts[..i];
    } else {
      var front := transcripts[..|transcripts| - 1];
      assert front[..i] == transcripts[..i] && front[i] == transcripts[i];
      ScoreAllFailsAt(front, i, score);
    }
  }

  /** `for codon in codon_seq: tmptAI.append(tAIDict[codon])`. */
  method LookupScores(codons: seq<string>, w: map<string, real>) returns (r: Result<seq<real>>)
    ensures r == CodonScores(codons, w)
  {
    var scores: seq<real> := [];
    var i := 0;
    while i < |codons|
      invariant 0 <= i <= |codons|
      invariant CodonScores(codons[..i], w) == Ok(scores)
    {
      assert codons[..i + 1][..i] == codons[..i];
      if codons[i] !in w {
        CodonScoresFailsAt(codons, i, w);
        return Err(MissingWeight(codons[i]));
      }
      scores := scores + [w[codons[i]]];
      i := i + 1;
    }
    assert codons[..i] == codons;
    r := Ok(scores);
  }

  lemma {:induction false} CodonScoresFailsAt(codons: seq<string>, i: nat, w: map<string, real>)
    requires i < |codons| && codons[i] !in w
    requires CodonScores(codons[..i], w).Ok?
    ensures CodonScores(codons, w) == Err(MissingWeight(codons[i]))
  {
    if |codons| == i + 1 {
      assert codons[..|codons| - 1] == codons[..i];
    } else {
      var front := codons[..|codons| - 1];
      assert front[..i] == codons[..i] && front[i] == codons[i];
      CodonScoresFailsAt(front, i, w);
    }
  }
}
