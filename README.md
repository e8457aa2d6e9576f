# tRNA Adaptation Index of RiboMiner, in Dafny

This project models the tRNA Adaptation Index (tAI) engine of RiboMiner
(`RiboMiner/tAI.py`) and proves properties of that model. It covers the
following parts of the source:

- **Reference data and copy numbers** (`prepare_datas`).
  - The 64-entry codon → candidate-anticodon table and the nine wobble
    efficiency penalties `Sij` are fixed constants.
  - Anticodon copy numbers are counted from the table column, with T
    renamed to U in the keys.
  - The count dictionary is zero-filled in place, so every anticodon
    named in the table has an entry.
- **Absolute adaptiveness W** (`reverse_complement`,
  `calculate_absolute_adaptiveness_W`).
  - The reverse complement is taken over the alphabet A, U, C, G, N.
  - W is then a three-way case split on how many candidate anticodons the
    codon has.
  - Each case has its own failures: an unknown codon, a missing copy
    number, a bad first base, or a variable left unassigned.
- **Relative adaptiveness w** (`calculate_geometric_mean`,
  `calculate_relative_adaptiveness_w`).
  - The dictionary of W values is filled codon by codon.
  - It is then overwritten in place: a non-zero W becomes W / W_max, and
    every zero W becomes one shared floor value.
- **Per-transcript scoring and metaplot profiles** (`get_trans_frame_tAI`).
  - Each CDS is converted T → U and dropped unless its length is a
    multiple of 3.
  - It is cut into codons and scored with w; the geometric mean of those
    scores is its tAI.
  - Its start and stop windows are collected.
  - Each profile position is the mean over the rows whose mask is 1 there.

Python's exceptions become the constructors of `Outcomes.Failure`, and
every operation returns a `Result`. Python dictionaries become `map`s. Where
dictionary order matters (the order of `w.values()`), `Dicts.KeyOrder`
gives the insertion order. Floats are exact `real`s.

The `pow(x, 1/n)` n-th root is a function parameter `root`. Where a
property needs it to be the real n-th root, the predicate `Means.IsNthRoot`
states that. `getWindowsVector` is also a function parameter, `windowOf`,
and the model only assumes that it returns rows of up + down + 1 positions
(`Profiles.WindowShaped`). In the same way the transcript loop
`Scoring.ScoreAll` takes its body as a `Scoring.Scorer`. `Scoring.ScorerOf`
is that body, and the loop's lemmas rely only on what it is proved to do:
it skips exactly the CDSs whose length is not a multiple of 3.

The floor given to zero-W codons is the geometric mean of the **raw**
non-zero W values (lines 173-174). It is not taken over the normalised
values, so it can exceed 1. The model follows the code here, and
`Relative.FloorCanExceedOne` exhibits such a table.

The modules follow the source: `Nucleotides`, `WobbleModel`, `CopyNumbers`,
`Absolute`, `Means`, `Relative`, `Profiles`, `Scoring` and `FrameTai`, with
`Outcomes` and `Dicts` as support. The loops of the source are methods with
loop invariants:

- `CopyNumbers.ZeroFill` is the zero-fill. Its contract states the new
  dictionary directly: the old keys plus every table anticodon, old counts
  kept and new ones 0.

The other loops are each proved equal to a specification function:

- `Relative.FillWeights` and `Relative.Rescale` fill and overwrite `w`.
- `Scoring.LookupScores` and `Scoring.ScoreTranscripts` are the transcript
  loop.
- `Profiles.FillProfiles` fills the two profile arrays.

The properties are proved about those specification functions.

## Model

| member | source | states |
|---|---|---|
| Nucleotides.Complement | RiboMiner/tAI.py:131 | the complement is defined exactly on A, U, C, G, N and is again one of them |
| Nucleotides.ReplaceT | RiboMiner/tAI.py:52 | keeps the length and replaces every T by U, leaving other characters unchanged |
| Nucleotides.ReplaceTKeepsRna | RiboMiner/tAI.py:52 | a string without T is left as it is |
| Nucleotides.ReverseComplement | RiboMiner/tAI.py:130-132 | succeeds iff every character is in A, U, C, G, N; the result has the same length and position i is the complement of input position len-1-i; a failure names an offending character |
| Nucleotides.ComplementInvolutive | RiboMiner/tAI.py:131 | complementing twice gives the base back |
| Nucleotides.ReverseComplementInvolutive | RiboMiner/tAI.py:130-132 | reverse complement is an involution on strings over A, U, C, G, N |
| Nucleotides.ReverseComplementRejects | RiboMiner/tAI.py:130-132 | any character outside A, U, C, G, N, T included, makes the reverse complement fail |
| Nucleotides.ReverseComplementOfCodon | RiboMiner/tAI.py:130-132 | the reverse complement of an RNA codon is an RNA codon with the bases complemented in reverse order |
| Nucleotides.ReplaceTIdempotent | RiboMiner/tAI.py:169 | after T → U no T is left, so a second replacement changes nothing |
| Nucleotides.ReplaceTConcat | RiboMiner/tAI.py:201 | T → U commutes with concatenation |
| WobbleModel.Pairing.Label | RiboMiner/tAI.py:125 | each of the nine `wobble_pair` labels is two bases joined by a colon |
| WobbleModel.S | RiboMiner/tAI.py:125-127 | `Sij`: every penalty lies in [0, 1), and it is 0 exactly for the Watson-Crick pairings I:U, G:C, U:A, C:G |
| WobbleModel.PenaltiesInUnitInterval | RiboMiner/tAI.py:125-127 | every Sij is in [0, 1); the four Watson-Crick pairings have 0; the nine labels are distinct |
| WobbleModel.Candidates | RiboMiner/tAI.py:53-118 | `codon_anticodon[codon]` entry by entry; an entry exists only for a three-letter key and lists one to three anticodons; `CandidatesShape` and `CandidatesHoldReverseComplement` state which keys and which anticodons |
| WobbleModel.CandidatesShape | RiboMiner/tAI.py:53-118 | the table has an entry exactly for the 64 RNA codons, each with 1 to 3 candidates that are RNA triplets |
| WobbleModel.CodonAnticodonKeys | RiboMiner/tAI.py:53-118 | the key set of `codon_anticodon` is the set of RNA codons |
| WobbleModel.CandidatesHoldReverseComplement | RiboMiner/tAI.py:53-118 | a single candidate is the codon's reverse complement; the reverse complement is among the candidates for every codon except GCC (line 107) |
| WobbleModel.TableAnticodons | RiboMiner/tAI.py:119 | `anticodonList` holds an anticodon iff some table entry names it |
| WobbleModel.TableAnticodonsAreCodons | RiboMiner/tAI.py:53-119 | `anticodonList` is exactly the set of 64 RNA codons |
| WobbleModel.EveryCodonIsTableAnticodon | RiboMiner/tAI.py:53-119 | every RNA triplet occurs as a candidate somewhere in the table |
| Dicts.KeyOrder | RiboMiner/tAI.py:167-171 | the insertion order of a dict filled from a key list: the same keys, each once |
| Dicts.KeyOrderSnoc | RiboMiner/tAI.py:171 | assigning a new key appends it; assigning an existing key keeps the order |
| CopyNumbers.Count | RiboMiner/tAI.py:51 | `Counter` has a key iff the column names that anticodon, and maps it to its number of occurrences, at least 1 |
| CopyNumbers.CountSnoc | RiboMiner/tAI.py:51 | `Counter` of no rows is empty; each further row adds one to the count of its anticodon, a new anticodon starting from 0 |
| CopyNumbers.Renamed | RiboMiner/tAI.py:52 | the renamed dict's keys are the T → U images of the original keys |
| CopyNumbers.RenamedLastWins | RiboMiner/tAI.py:52 | when several keys rename to the same name, the last one's count is kept |
| CopyNumbers.InputCopyNumbers | RiboMiner/tAI.py:49-52 | the copy numbers read from the table have the renamed anticodons as keys |
| CopyNumbers.InputCopyNumbersCount | RiboMiner/tAI.py:51-52 | without rename clashes, each anticodon's copy number is its number of rows in the table |
| CopyNumbers.ZeroFill | RiboMiner/tAI.py:119-124 | the keys become the old keys plus every table anticodon; old counts are kept and new keys map to 0 |
| CopyNumbers.PrepareCopyNumbers | RiboMiner/tAI.py:49-124 | the prepared `tRNA_GCNs`: input counts kept, every table anticodon present, missing ones 0, and every RNA triplet is a key |
| Means.Product | RiboMiner/tAI.py:163 | `reduce(mul, …)` of non-negative values is non-negative, of positive values positive |
| Means.GeometricMean | RiboMiner/tAI.py:161-163 | fails iff the list is empty; otherwise it is the root of the product, the root degree being the length |
| Means.ProductOfConstant | RiboMiner/tAI.py:163 | the product of n copies of x is x to the n |
| Means.GeometricMeanOfConstant | RiboMiner/tAI.py:161-163 | the geometric mean of n > 0 copies of x ≥ 0 is x |
| Means.Max | RiboMiner/tAI.py:172 | `np.max` is an element of the list and bounds every element |
| Means.MaxUnique | RiboMiner/tAI.py:172 | any element that bounds the list is its maximum |
| Means.NonZero | RiboMiner/tAI.py:173 | `W_without_zero` holds a value iff the list holds it and it is not zero, and is no longer than the list |
| Means.NonZeroMultiplicity | RiboMiner/tAI.py:173 | every non-zero value is kept as many times as it occurs, and no zero is kept |
| Means.NonZeroSnoc | RiboMiner/tAI.py:173 | the filter keeps the list order: one more value is appended exactly when it is not zero |
| Means.Mean | RiboMiner/tAI.py:224-225 | `np.mean` has no value (NaN) exactly on the empty list; otherwise the mean times the number of values is their sum |
| Means.MeanOfConstant | RiboMiner/tAI.py:224-225 | the mean of n > 0 copies of a value is that value |
| Means.MeanCountsRepeats | RiboMiner/tAI.py:224-225 | repeated values count once per occurrence: the mean of 1, 1 and 4 is 2 |
| Means.MeanBounds | RiboMiner/tAI.py:224-225 | the mean of values in [lo, hi] lies in [lo, hi] |
| Absolute.AbsoluteAdaptiveness | RiboMiner/tAI.py:134-159 | a bad character fails in the reverse complement first, then an unknown codon fails the table lookup; every W is non-negative |
| Absolute.CopyNumber | RiboMiner/tAI.py:137-158 | `GCN[key]` is the key's count when the key is present; otherwise it fails with `MissingCopyNumber(key)`, the KeyError |
| Absolute.Weighted | RiboMiner/tAI.py:137-158 | a weighted term is defined iff its anticodon has a copy number; otherwise it fails with the KeyError naming that anticodon |
| Absolute.WeightedBounds | RiboMiner/tAI.py:126-139 | `(1-Sij[p])*GCN[key]` lies between 0 and the copy number `GCN[key]` |
| Absolute.WobbleSum | RiboMiner/tAI.py:148-158 | the sum of the exact and the wobble term is never negative |
| Absolute.WobbleSumLookups | RiboMiner/tAI.py:148-158 | the sum is defined iff both anticodons have copy numbers; a missing exact anticodon raises first, then a missing wobble one; the sum is at most the two copy numbers together |
| Absolute.OneCandidate | RiboMiner/tAI.py:137-147 | the one-candidate W is never negative |
| Absolute.TwoCandidates | RiboMiner/tAI.py:148-156 | the two-candidate W is never negative |
| Absolute.ThreeCandidates | RiboMiner/tAI.py:157-158 | the three-candidate W is never negative |
| Absolute.SingleCandidateIsCopyNumber | RiboMiner/tAI.py:137-147 | with one candidate, W is that anticodon's copy number (its penalty is 0); an empty candidate or other first base fails |
| Absolute.ExactlyOneGuard | RiboMiner/tAI.py:148-156 | for every RNA codon exactly one of the four two-candidate guards holds |
| Absolute.TwoCandidatesCases | RiboMiner/tAI.py:148-156 | the two-candidate branch is the weighted sum of the exact and the wobble anticodon chosen by the guard that holds, and unassigned when none does |
| Absolute.CandidatesCountOnly | RiboMiner/tAI.py:148-158 | with two or three candidates, W depends only on how many there are, not on which |
| Absolute.GccEntryDoesNotMatter | RiboMiner/tAI.py:107 | the entry `'GCC':['AGC','GCC']` gives the same W as `['AGC','GGC']` |
| Absolute.PreparedAdaptivenessDefined | RiboMiner/tAI.py:119-159 | with the prepared copy numbers and the fixed table, W is defined for every RNA codon |
| Absolute.AdaptivenessScales | RiboMiner/tAI.py:134-159 | multiplying every copy number by k multiplies W by k and keeps every failure |
| Absolute.ScaledByIsProduct | RiboMiner/tAI.py:134-159 | the scaling relation of `AdaptivenessScales` is plain multiplication: the scaled W is k times W, and failures are equal |
| Relative.RnaCodons | RiboMiner/tAI.py:168-169 | the rewritten list has the same length, and entry i is entry i with every T replaced by U |
| Relative.RnaCodonsAreRna | RiboMiner/tAI.py:168-169 | after `codon.replace("T","U")` no codon holds a T, a second rewrite changes nothing, and a codon without T is kept as it is |
| Relative.WeightOf | RiboMiner/tAI.py:170 | the W of each codon, which is never negative |
| Relative.WTable | RiboMiner/tAI.py:167-171 | the W dict is defined iff every codon's W is; its keys are the codons and each value is that codon's W |
| Relative.WTableFailsAt | RiboMiner/tAI.py:167-171 | the first codon whose W fails decides the failure |
| Relative.ValuesInInsertionOrder | RiboMiner/tAI.py:167-172 | `list(w.values())` of the filled dict has one value per distinct codon, in first-insertion order, each the W of its codon |
| Relative.Values | RiboMiner/tAI.py:172 | `list(w.values())` has one value per key of the given order, the dict's value for that key |
| Relative.Normalise | RiboMiner/tAI.py:172-179 | fails iff the dict is empty (`np.max`) or all W are 0 (empty geometric mean); keeps the keys; non-zero W map into (0, 1], some to exactly 1; zero W map to the root of the product of the raw non-zero W |
| Relative.MaxPositive | RiboMiner/tAI.py:172-173 | W_max is positive when some W is non-zero |
| Relative.NormalisedValue | RiboMiner/tAI.py:176-177 | a non-zero W becomes W / W_max |
| Relative.NormaliseIsRescaled | RiboMiner/tAI.py:172-179 | when some W is non-zero, W_max is positive and every value is rescaled by it, with the geometric mean of the non-zero W as the floor |
| Relative.Rescaled | RiboMiner/tAI.py:175-179 | the overwrite keeps the keys; a zero W becomes the floor, a W in (0, W_max] a value in (0, 1], and W_max itself 1 |
| Relative.RelativeWeights | RiboMiner/tAI.py:166-180 | the keys of w are the codon list with T → U applied |
| Relative.RelativeWeightsFails | RiboMiner/tAI.py:161-180 | w fails iff some W fails, the codon list is empty, or every W is 0 |
| Relative.RelativeWeightsInUnitInterval | RiboMiner/tAI.py:172-177 | every codon with non-zero W gets a value in (0, 1], and some codon gets exactly 1 |
| Relative.ZeroCodonsShareFloor | RiboMiner/tAI.py:173-179 | every zero-W codon gets the geometric mean of the raw non-zero W values |
| Relative.FloorCanExceedOne | RiboMiner/tAI.py:173-179 | W = {4, 1, 0} normalises to {1, 0.25, 2}: the floor exceeds 1 |
| Relative.NormaliseScaleFree | RiboMiner/tAI.py:172-179 | scaling every W by k > 0 changes no normalised non-zero value and no failure |
| Relative.RelativeWeightsScaleFree | RiboMiner/tAI.py:166-180 | the same for the whole computation, given scaled W |
| Relative.CopyNumbersScaleFree | RiboMiner/tAI.py:134-180 | multiplying every copy number by k > 0 leaves w of non-zero-W codons unchanged and keeps success or failure |
| Relative.FillWeights | RiboMiner/tAI.py:167-171 | the fill loop computes the W dict and its insertion order |
| Relative.Rescale | RiboMiner/tAI.py:175-179 | the in-place overwrite loop computes the rescaled dict |
| Relative.RelativeAdaptiveness | RiboMiner/tAI.py:166-180 | `calculate_relative_adaptiveness_w` returns exactly the specified w or failure |
| Profiles.Column | RiboMiner/tAI.py:224-225 | a column is no longer than the rows, and is empty iff no row has mask 1 there |
| Profiles.ColumnFromMaskedRows | RiboMiner/tAI.py:224-225 | every value of a column comes from a row whose mask is 1 there |
| Profiles.ColumnOfThree | RiboMiner/tAI.py:224-225 | three rows under mask 1 give their three values, in row order |
| Profiles.ColumnTakesMaskedRow | RiboMiner/tAI.py:224-225 | a row whose mask is 1 at a position adds its value at the end of that column |
| Profiles.ColumnMean | RiboMiner/tAI.py:224-225 | a profile position is NaN iff no row has mask 1 there; otherwise the mean times the column size is the column sum |
| Profiles.ColumnMeanCountsEveryRow | RiboMiner/tAI.py:224-225 | every row under mask 1 counts once, repeats included: rows with 1, 1 and 4 give 2 |
| Profiles.Profile | RiboMiner/tAI.py:219-225 | the profile has one position per window column, each the mean of that column over the mask-1 rows; it fails iff there are no rows at all |
| Profiles.ColumnMeanBounds | RiboMiner/tAI.py:224-225 | a position's mean lies within the bounds of the values under mask 1 |
| Profiles.ColumnIgnoresMaskedRows | RiboMiner/tAI.py:224-225 | a row whose mask is not 1 at a position does not change that position |
| Profiles.FillProfiles | RiboMiner/tAI.py:187-225 | the position loop fills fresh arrays with the two profiles |
| Scoring.SplitCodons | RiboMiner/tAI.py:204 | (len + 2) / 3 chunks, each the slice at 3i; all of length 3 when the length is a multiple of 3 |
| Scoring.SplitCodonsJoin | RiboMiner/tAI.py:204 | joining the chunks gives back the sequence |
| Scoring.ConcatSplit | RiboMiner/tAI.py:204 | splitting a concatenation of triplets gives back the triplets |
| Scoring.CodonScores | RiboMiner/tAI.py:205-206 | the scores are w looked up codon by codon in order; the first codon missing from w raises KeyError |
| Scoring.LookupScores | RiboMiner/tAI.py:205-206 | the look-up loop computes those scores |
| Scoring.CodonScoresFailsAt | RiboMiner/tAI.py:205-206 | the first missing codon decides the failure |
| Scoring.ScoreOne | RiboMiner/tAI.py:201-203 | a transcript is skipped iff its length is not a multiple of 3 |
| Scoring.ScoreOnePasses | RiboMiner/tAI.py:201-213 | a passing transcript has len/3 > 0 scores, score i is w of triplet i, its tAI is the geometric mean, the start window is anchored at codon 0 and the stop window at the last codon with up and down swapped |
| Scoring.InFrame | RiboMiner/tAI.py:204-206 | the scores are the weights of the in-frame triplets |
| Scoring.EmptyCdsIsFatal | RiboMiner/tAI.py:202-210 | an empty CDS passes the filter and fails in the geometric mean |
| Scoring.RepeatedCodonScore | RiboMiner/tAI.py:204-210 | a CDS of n copies of one codon has that codon's w as its tAI |
| Scoring.ScoreTranscript | RiboMiner/tAI.py:199-213 | the loop body computes the transcript's score |
| Scoring.ScorerOf | RiboMiner/tAI.py:199-213 | the loop body as a function of the CDS; it skips a CDS exactly when its length is not a multiple of 3 |
| Scoring.ScorerKeepsWidth | RiboMiner/tAI.py:212-213 | when `getWindowsVector` returns up + down + 1 positions, both windows of every kept transcript have that many |
| Scoring.ScoreAll | RiboMiner/tAI.py:197-218 | `tAI`, `tAI_codon` and `passTransSet` have the same keys; there are as many start rows as stop rows, at most one per transcript |
| Scoring.Record | RiboMiner/tAI.py:210-218 | the assignments and appends of one passing transcript; `RecordAppends` states them |
| Scoring.RecordAppends | RiboMiner/tAI.py:210-218 | recording adds the name to `passTransSet`, `tAI` and `tAI_codon` with its own tAI and scores, keeps every other entry, and appends its two windows after the rows already stacked |
| Scoring.PassingIndices | RiboMiner/tAI.py:199-203 | the positions of the transcripts that score and are not skipped, strictly increasing, every such position included |
| Scoring.ScoreAllRows | RiboMiner/tAI.py:199-217 | row j of the stacked start and stop windows holds the windows of the j-th passing transcript, in input order |
| Scoring.PassedAreScored | RiboMiner/tAI.py:202-218 | every name in `passTransSet` belongs to a transcript whose length is a multiple of 3 |
| Scoring.ScoreTranscripts | RiboMiner/tAI.py:197-218 | the transcript loop computes the specified tally |
| Scoring.ScoreAllFailsAt | RiboMiner/tAI.py:197-218 | the first failing transcript decides the failure |
| Scoring.ScoreAllOk | RiboMiner/tAI.py:197-218 | the loop succeeds iff every transcript scores without failure |
| Scoring.SkippedTranscriptAbsent | RiboMiner/tAI.py:202-203 | a skipped transcript is in none of `tAI`, `tAI_codon`, `passTransSet` |
| Scoring.ScoreAllEntry | RiboMiner/tAI.py:210-218 | every transcript of length divisible by 3 is passed and its entries are its own tAI and scores |
| Scoring.ScoreAllCounts | RiboMiner/tAI.py:214-218 | there is one start row and one stop row per passed transcript |
| Scoring.ScoreAllShaped | RiboMiner/tAI.py:214-217 | when every kept window has `width` positions, so does every stacked row |
| Scoring.ScoresShaped | RiboMiner/tAI.py:212-217 | the stacked rows have up + down + 1 positions |
| Scoring.PassedNonEmpty | RiboMiner/tAI.py:202-218 | `passTransSet` is non-empty iff some transcript has a length divisible by 3 |
| FrameTai.FrameScores | RiboMiner/tAI.py:183-228 | the two profiles have up + down + 1 positions and `tAI`, `tAI_codon` have the same keys |
| FrameTai.FromWeights | RiboMiner/tAI.py:186-228 | the same, given the weight table |
| FrameTai.Assemble | RiboMiner/tAI.py:219-225 | fails with the column-indexing error iff no row was stacked; otherwise each profile position is the mean of its column over the mask-1 rows, and the two dicts are the loop's |
| FrameTai.NoPassingTranscript | RiboMiner/tAI.py:219-225 | after the loop, the only failure is that no transcript passed |
| FrameTai.FromWeightsOk | RiboMiner/tAI.py:197-225 | the run succeeds iff every transcript scores and at least one has length divisible by 3 |
| FrameTai.FromWeightsEntry | RiboMiner/tAI.py:210-211 | every transcript of length divisible by 3 has its own tAI and scores in the result |
| FrameTai.FromWeightsProfiles | RiboMiner/tAI.py:197-228 | a successful run returns the loop's `tAI` and `tAI_codon`, and at each profile position the mean over the transcripts whose window mask is 1 there |
| FrameTai.TranscriptFrameTai | RiboMiner/tAI.py:183-228 | `get_trans_frame_tAI` returns exactly the specified result or failure |
| FrameTai.ScoreAndProfile | RiboMiner/tAI.py:186-228 | the loops after the weights compute the specified result |
| FrameTai.Finish | RiboMiner/tAI.py:219-225 | the profile stage computes the specified result |

## Left out

- Command-line parsing and orchestration (RiboMiner/tAI.py:279-316) are
  not modelled. They are argument plumbing.
- Reading the copy-number table with `pd.read_csv` (line 49) is input.
  The model takes its `Anticodon` column as a sequence of strings.
- `fastaIter` (line 184) is input. The model takes the FASTA records as a
  sequence of `Scoring.Transcript` in dictionary order. Because they come
  from a dictionary, their names are distinct, and the lemmas that need
  this require `Scoring.DistinctIds`.
- `codon2AA` and `get_stop_codons` (lines 230-236) use Biopython. The
  codon list is a parameter.
- The writers `write_trans_file_tAI_dataframe`, `write_tAI_of_each_gene` and
  `write_codon_units_density` (lines 238-278) only do file output.
- The message printed to stderr (line 227) is output only.
- `getWindowsVector` comes from `FunctionDefinition`, which is not part of
  this model. It is the parameter `windowOf`. Windows of other lengths
  (ragged NumPy arrays) are not modelled: the profile stage requires
  `Profiles.WindowShaped`.
- IEEE-754 rounding is not modelled: values are exact reals. The n-th root
  of `pow(x, 1/n)` is the parameter `root`.
- Means.GeometricMean: states the result as `root(product, n)`. It proves
  that this is the geometric mean only when `root` satisfies
  `Means.IsNthRoot` (as in `Means.GeometricMeanOfConstant`).
- Sij is not passed around as a dictionary: the penalties are the constant
  `WobbleModel.S`, since the source only ever passes the table built at
  lines 125-127.
- `codon_anticodon` is passed to the weight functions as a map, so any
  table can be used. The properties about the fixed table use
  `WobbleModel.CodonAnticodon`.
- `prepare_datas` also returns `codonList` unchanged (line 50). That value
  is a parameter of the weight functions.
- Relative.RelativeWeights: W is abstracted as a weigher function, so its
  lemmas hold for any non-negative W. `Relative.WeightOf` instantiates it
  with `calculate_absolute_adaptiveness_W`.
- A NaN profile position is `None`, not a float in a NumPy array. The
  arrays filled by `Profiles.FillProfiles` are returned as sequences.
