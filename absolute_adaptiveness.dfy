/** `calculate_absolute_adaptiveness_W` of tAI.py: the absolute
    adaptiveness W of a codon, from the copy numbers of the tRNAs that can
    read it, each weighted by one minus its pairing penalty. The case split
    is on the number of candidate anticodons the table lists (1, 2 or 3). */
module Absolute {
  import opened Outcomes
  import opened Nucleotides
  import opened WobbleModel
  import Means

  /** `GCN[key]`, as a real. */
  function CopyNumber(gcn: map<string, nat>, key: string): (r: Result<real>)
    ensures r.Ok? <==> key in gcn
    ensures r.Ok? ==> r.value == gcn[key] as real
    ensures r.Err? ==> r.failure == MissingCopyNumber(key)
  {
    if key in gcn then Ok(gcn[key] as real) else Err(MissingCopyNumber(key))
  }

  /** `s[1:]`: Python slicing gives the empty string for the empty string. */
  function Tail(s: string): string {
    if s == [] then [] else s[1..]
  }

  /** `(1-Sij[p])*GCN[key]`. */
  function Weighted(p: Pairing, key: string, gcn: map<string, nat>): (r: Result<real>)
    ensures r.Ok? <==> key in gcn
    ensures r.Err? ==> r.failure == MissingCopyNumber(key)
  {
    var n :- CopyNumber(gcn, key);
    Ok((1.0 - S(p)) * n)
  }

  /** Every penalty lies in [0, 1) and every copy number is a natural
      number, so a weighted copy number lies between 0 and the copy number. */
  lemma WeightedBounds(p: Pairing, key: string, gcn: map<string, nat>)
    ensures Weighted(p, key, gcn).Ok? ==> 0.0 <= Weighted(p, key, gcn).value <= gcn[key] as real
  {
    if key in gcn {
      var n := gcn[key] as real;
      assert 0.0 <= (1.0 - S(p)) * n <= n;
    }
  }

  /** `(1-Sij[exact])*GCN[anticodon] + (1-Sij[wobble])*GCN[base+anticodon[1:]]`:
      the exact anticodon plus the one whose first base is replaced. */
  function WobbleSum(anticodon: string, exact: Pairing, base: char, wobble: Pairing,
                     gcn: map<string, nat>): (r: Result<real>)
    ensures r.Ok? ==> r.value >= 0.0
  {
    WeightedBounds(exact, anticodon, gcn);
    WeightedBounds(wobble, [base] + Tail(anticodon), gcn);
    Plus(Weighted(exact, anticodon, gcn), Weighted(wobble, [base] + Tail(anticodon), gcn))
  }

  /** The wobble sum is defined exactly when both anticodons have a copy
      number; the exact anticodon's KeyError is raised first; the sum is at
      most the two copy numbers together. */
  lemma WobbleSumLookups(anticodon: string, exact: Pairing, base: char, wobble: Pairing,
                         gcn: map<string, nat>)
    ensures var r, other := WobbleSum(anticodon, exact, base, wobble, gcn), [base] + Tail(anticodon);
      && (r.Ok? <==> anticodon in gcn && other in gcn)
      && (anticodon !in gcn ==> r == Err(MissingCopyNumber(anticodon)))
      && (anticodon in gcn && other !in gcn ==> r == Err(MissingCopyNumber(other)))
      && (r.Ok? ==> r.value <= gcn[anticodon] as real + gcn[other] as real)
  {
    WeightedBounds(exact, anticodon, gcn);
    WeightedBounds(wobble, [base] + Tail(anticodon), gcn);
  }

  /** The sum of two lookups; the first failure wins. */
  function Plus(x: Result<real>, y: Result<real>): (r: Result<real>)
    ensures (x.Ok? ==> x.value >= 0.0) && (y.Ok? ==> y.value >= 0.0) ==> (r.Ok? ==> r.value >= 0.0)
  {
    var a :- x;
    var b :- y;
    Ok(a + b)
  }

  /** One candidate: the penalty is chosen by its first base (A -> I:U,
      G -> G:C, U -> U:A, C -> C:G); any other first base raises
      "Codons error!". */
  function OneCandidate(tRNA: string, gcn: map<string, nat>): (r: Result<real>)
    ensures r.Ok? ==> r.value >= 0.0
  {
    WeightedBounds(IU, tRNA, gcn);
    WeightedBounds(GC, tRNA, gcn);
    WeightedBounds(UA, tRNA, gcn);
    WeightedBounds(CG, tRNA, gcn);
    if tRNA == [] then Err(EmptyString)
    else if tRNA[0] == 'A' then Weighted(IU, tRNA, gcn)
    else if tRNA[0] == 'G' then Weighted(GC, tRNA, gcn)
    else if tRNA[0] == 'U' then Weighted(UA, tRNA, gcn)
    else if tRNA[0] == 'C' then Weighted(CG, tRNA, gcn)
    else Err(UnknownFirstBase(tRNA))
  }

  /** One `if` of the two-candidate branch: when its guard holds, W is
      (re)assigned, or the lookup's KeyError propagates; otherwise W keeps
      what it had. */
  function Assign(guard: bool, term: Result<real>, w: Option<real>): (r: Result<Option<real>>)
    ensures (term.Ok? ==> term.value >= 0.0) && (w.Some? ==> w.value >= 0.0) ==>
      (r.Ok? && r.value.Some? ==> r.value.value >= 0.0)
  {
    if !guard then Ok(w)
    else
      var v :- term;
      Ok(Some(v))
  }

  /** The guard `codon[-1]==last and anticodon[0]==first`. */
  predicate Guard(codon: string, anticodon: string, last: char, first: char)
    requires |codon| > 0 && |anticodon| == |codon|
  {
    codon[|codon| - 1] == last && anticodon[0] == first
  }

  /** Two candidates: four independent `if`s on the codon's last base and the
      reverse complement's first base; the listed anticodons themselves are
      not consulted. If no guard holds, W is never assigned. */
  function TwoCandidates(codon: string, anticodon: string, gcn: map<string, nat>): (r: Result<real>)
    requires |anticodon| == |codon|
    ensures r.Ok? ==> r.value >= 0.0
  {
    if codon == [] then Err(EmptyString)
    else
      var w1 :- Assign(Guard(codon, anticodon, 'U', 'A'), WobbleSum(anticodon, IU, 'G', GU, gcn), None);
      var w2 :- Assign(Guard(codon, anticodon, 'C', 'G'), WobbleSum(anticodon, GC, 'A', IC, gcn), w1);
      var w3 :- Assign(Guard(codon, anticodon, 'A', 'U'), WobbleSum(anticodon, UA, 'A', IA, gcn), w2);
      var w4 :- Assign(Guard(codon, anticodon, 'G', 'C'), WobbleSum(anticodon, CG, 'U', UG, gcn), w3);
      if w4.Some? then Ok(w4.value) else Err(Unassigned(codon))
  }

  /** Three candidates: the exact anticodon with U:A and the one starting
      with A (read as inosine) with I:A; no G:A pairing. */
  function ThreeCandidates(anticodon: string, gcn: map<string, nat>): (r: Result<real>)
    ensures r.Ok? ==> r.value >= 0.0
  {
    WobbleSum(anticodon, UA, 'A', IA, gcn)
  }

  /** `calculate_absolute_adaptiveness_W(codon, GCN, Sij, codon_anticodon)`.
      The reverse complement is taken first, then the codon is looked up;
      a candidate count other than 1, 2 or 3 leaves W unassigned. W is
      never negative, since every penalty is below 1 and every copy number
      is a natural number. */
  function AbsoluteAdaptiveness(codon: string, gcn: map<string, nat>,
                                table: map<string, seq<string>>): (r: Result<real>)
    ensures ReverseComplement(codon).Err? ==> r == Err(ReverseComplement(codon).failure)
    ensures ReverseComplement(codon).Ok? && codon !in table ==> r == Err(UnknownCodon(codon))
    ensures r.Ok? ==> r.value >= 0.0
  {
    var anticodon :- ReverseComplement(codon);
    if codon !in table then Err(UnknownCodon(codon))
    else
      var tRNAs := table[codon];
      if |tRNAs| == 1 then OneCandidate(tRNAs[0], gcn)
      else if |tRNAs| == 2 then TwoCandidates(codon, anticodon, gcn)
      else if |tRNAs| == 3 then ThreeCandidates(anticodon, gcn)
      else Err(Unassigned(codon))
  }

  /** For a codon over A, C, G, U exactly one of the four guards of the
      two-candidate branch holds, because the reverse complement starts
      with the complement of the codon's last base: W is always assigned
      and no assignment is overwritten. */
  lemma {:induction false} ExactlyOneGuard(codon: string)
    requires |codon| > 0 && IsRna(codon)
    ensures ReverseComplement(codon).Ok?
    ensures var ac := ReverseComplement(codon).value;
      |ac| == |codon| &&
      (if Guard(codon, ac, 'U', 'A') then 1 else 0) + (if Guard(codon, ac, 'C', 'G') then 1 else 0)
      + (if Guard(codon, ac, 'A', 'U') then 1 else 0) + (if Guard(codon, ac, 'G', 'C') then 1 else 0) == 1
  {
    var ac := ReverseComplement(codon).value;
    assert Complement(codon[|codon| - 1 - 0]) == Some(ac[0]);
  }

  /** With one candidate, W is exactly its copy number: the four pairings
      its first base can select all have penalty 0. */
  lemma SingleCandidateIsCopyNumber(codon: string, gcn: map<string, nat>, table: map<string, seq<string>>)
    requires codon in table && |table[codon]| == 1
    requires ReverseComplement(codon).Ok?
    ensures var t := table[codon][0];
      AbsoluteAdaptiveness(codon, gcn, table) ==
        if t == [] then Err(EmptyString)
        else if !IsRnaBase(t[0]) then Err(UnknownFirstBase(t))
        else CopyNumber(gcn, t)
  {
  }

  /** With two or three candidates W depends on the listed anticodons only
      through their number: GCC's odd entry ['AGC','GCC'] gives the same W
      as ['AGC','GGC'] would. */
  lemma CandidatesCountOnly(codon: string, gcn: map<string, nat>,
                            table1: map<string, seq<string>>, table2: map<string, seq<string>>)
    requires codon in table1 && codon in table2
    requires |table1[codon]| == |table2[codon]| >= 2
    ensures AbsoluteAdaptiveness(codon, gcn, table1) == AbsoluteAdaptiveness(codon, gcn, table2)
  {
  }

  lemma GccEntryDoesNotMatter(gcn: map<string, nat>)
    ensures AbsoluteAdaptiveness("GCC", gcn, CodonAnticodon)
         == AbsoluteAdaptiveness("GCC", gcn, CodonAnticodon["GCC" := ["AGC", "GGC"]])
  {
    CodonAnticodonKeys("GCC");
    assert Candidates("GCC") == Some(["AGC", "GCC"]);
    assert |CodonAnticodon["GCC"]| == 2;
    CandidatesCountOnly("GCC", gcn, CodonAnticodon, CodonAnticodon["GCC" := ["AGC", "GGC"]]);
  }

  /** Replacing the first base of a codon by an RNA base gives a codon. */
  lemma SubstitutedIsCodon(base: char, anticodon: string)
    requires IsRnaBase(base) && IsCodon(anticodon)
    ensures IsCodon([base] + Tail(anticodon))
  {
    var t := [base] + Tail(anticodon);
    assert t[1] == anticodon[1] && t[2] == anticodon[2];
  }

  /** Once every codon has a copy number (as `prepare_datas` guarantees),
      W is defined for all 64 codons of the wobble table. */
  lemma {:induction false} PreparedAdaptivenessDefined(codon: string, gcn: map<string, nat>)
    requires IsCodon(codon)
    requires forall a | IsCodon(a) :: a in gcn
    ensures AbsoluteAdaptiveness(codon, gcn, CodonAnticodon).Ok?
  {
    CodonAnticodonKeys(codon);
    CandidatesShape(codon);
    ReverseComplementOfCodon(codon);
    var ac := ReverseComplement(codon).value;
    var tRNAs := CodonAnticodon[codon];
    SubstitutedIsCodon('G', ac);
    SubstitutedIsCodon('A', ac);
    SubstitutedIsCodon('U', ac);
    if |tRNAs| == 1 {
      assert tRNAs[0] in tRNAs;
      assert IsRnaBase(tRNAs[0][0]);
    } else if |tRNAs| == 2 {
      ExactlyOneGuard(codon);
    }
  }

  /** Every copy number multiplied by k. */
  function Scaled(gcn: map<string, nat>, k: nat): (r: map<string, nat>)
    ensures r.Keys == gcn.Keys
  {
    map a | a in gcn :: k * gcn[a]
  }

  /** `scaled` is `r` multiplied by k; a failure stays the same failure. */
  predicate ScaledBy(k: nat, scaled: Result<real>, r: Result<real>) {
    && scaled.Ok? == r.Ok?
    && (r.Ok? ==> scaled.value == Means.Times(k, r.value))
    && (r.Err? ==> scaled.failure == r.failure)
  }

  lemma MulSwap(a: real, b: real, c: real)
    ensures a * (b * c) == b * (a * c)
  {
  }

  lemma ScaledAt(gcn: map<string, nat>, k: nat, key: string)
    requires key in gcn
    ensures key in Scaled(gcn, k) && Scaled(gcn, k)[key] as real == k as real * gcn[key] as real
  {
    var n := gcn[key];
    assert (k * n) as real == k as real * n as real;
  }

  lemma WeightedScales(p: Pairing, key: string, gcn: map<string, nat>, k: nat)
    ensures ScaledBy(k, Weighted(p, key, Scaled(gcn, k)), Weighted(p, key, gcn))
  {
    if key in gcn {
      WeightedValue(p, key, gcn);
      WeightedScaledValue(p, key, gcn, k);
    } else {
      assert key !in Scaled(gcn, k);
    }
  }

  lemma WeightedValue(p: Pairing, key: string, gcn: map<string, nat>)
    requires key in gcn
    ensures Weighted(p, key, gcn) == Ok((1.0 - S(p)) * gcn[key] as real)
  {
  }

  lemma WeightedScaledValue(p: Pairing, key: string, gcn: map<string, nat>, k: nat)
    requires key in gcn
    ensures Weighted(p, key, Scaled(gcn, k)) == Ok(Means.Times(k, (1.0 - S(p)) * gcn[key] as real))
  {
    ScaledAt(gcn, k, key);
    WeightedValue(p, key, Scaled(gcn, k));
    ScaleProduct(1.0 - S(p), k, gcn[key] as real, Scaled(gcn, k)[key] as real);
  }

  lemma ScaleProduct(c: real, k: nat, n: real, m: real)
    requires m == k as real * n
    ensures c * m == Means.Times(k, c * n)
  {
    MulSwap(c, k as real, n);
    Means.TimesIsProduct(k, c * n);
  }

  lemma PlusScales(k: nat, x: Result<real>, y: Result<real>, x': Result<real>, y': Result<real>)
    requires ScaledBy(k, x', x) && ScaledBy(k, y', y)
    ensures ScaledBy(k, Plus(x', y'), Plus(x, y))
  {
    if x.Ok? && y.Ok? {
      Means.TimesAdd(k, x.value, y.value);
    }
  }

  lemma WobbleSumScales(anticodon: string, exact: Pairing, base: char, wobble: Pairing,
                        gcn: map<string, nat>, k: nat)
    ensures ScaledBy(k, WobbleSum(anticodon, exact, base, wobble, Scaled(gcn, k)),
                        WobbleSum(anticodon, exact, base, wobble, gcn))
  {
    var key := [base] + Tail(anticodon);
    var scaled := Scaled(gcn, k);
    WeightedScales(exact, anticodon, gcn, k);
    WeightedScales(wobble, key, gcn, k);
    PlusScales(k, Weighted(exact, anticodon, gcn), Weighted(wobble, key, gcn),
               Weighted(exact, anticodon, scaled), Weighted(wobble, key, scaled));
  }

  /** The four `if`s of the two-candidate branch test distinct last bases,
      so at most one of them fires: the branch is a plain case split. */
  lemma TwoCandidatesCases(codon: string, anticodon: string, gcn: map<string, nat>)
    requires |anticodon| == |codon| > 0
    ensures TwoCandidates(codon, anticodon, gcn) ==
      if Guard(codon, anticodon, 'U', 'A') then WobbleSum(anticodon, IU, 'G', GU, gcn)
      else if Guard(codon, anticodon, 'C', 'G') then WobbleSum(anticodon, GC, 'A', IC, gcn)
      else if Guard(codon, anticodon, 'A', 'U') then WobbleSum(anticodon, UA, 'A', IA, gcn)
      else if Guard(codon, anticodon, 'G', 'C') then WobbleSum(anticodon, CG, 'U', UG, gcn)
      else Err(Unassigned(codon))
  {
    var r := TwoCandidates(codon, anticodon, gcn);
    if Guard(codon, anticodon, 'U', 'A') {
      var t := WobbleSum(anticodon, IU, 'G', GU, gcn);
      if t.Ok? { assert r.Ok? && r.value == t.value; assert t == Ok(t.value); }
    } else if Guard(codon, anticodon, 'C', 'G') {
      var t := WobbleSum(anticodon, GC, 'A', IC, gcn);
      if t.Ok? { assert r.Ok? && r.value == t.value; assert t == Ok(t.value); }
    } else if Guard(codon, anticodon, 'A', 'U') {
      var t := WobbleSum(anticodon, UA, 'A', IA, gcn);
      if t.Ok? { assert r.Ok? && r.value == t.value; assert t == Ok(t.value); }
    } else if Guard(codon, anticodon, 'G', 'C') {
      var t := WobbleSum(anticodon, CG, 'U', UG, gcn);
      if t.Ok? { assert r.Ok? && r.value == t.value; assert t == Ok(t.value); }
    }
  }

  lemma OneCandidateScales(tRNA: string, gcn: map<string, nat>, k: nat)
    ensures ScaledBy(k, OneCandidate(tRNA, Scaled(gcn, k)), OneCandidate(tRNA, gcn))
  {
    if tRNA != [] {
      WeightedScales(IU, tRNA, gcn, k);
      WeightedScales(GC, tRNA, gcn, k);
      WeightedScales(UA, tRNA, gcn, k);
      WeightedScales(CG, tRNA, gcn, k);
    }
  }

  lemma TwoCandidatesScales(codon: string, anticodon: string, gcn: map<string, nat>, k: nat)
    requires |anticodon| == |codon|
    ensures ScaledBy(k, TwoCandidates(codon, anticodon, Scaled(gcn, k)), TwoCandidates(codon, anticodon, gcn))
  {
    if codon != [] {
      TwoCandidatesCases(codon, anticodon, gcn);
      TwoCandidatesCases(codon, anticodon, Scaled(gcn, k));
      if Guard(codon, anticodon, 'U', 'A') {
        WobbleSumScales(anticodon, IU, 'G', GU, gcn, k);
      } else if Guard(codon, anticodon, 'C', 'G') {
        WobbleSumScales(anticodon, GC, 'A', IC, gcn, k);
      } else if Guard(codon, anticodon, 'A', 'U') {
        WobbleSumScales(anticodon, UA, 'A', IA, gcn, k);
      } else if Guard(codon, anticodon, 'G', 'C') {
        WobbleSumScales(anticodon, CG, 'U', UG, gcn, k);
      }
    }
  }

  /** W is linear in the copy numbers: scaling every count by k scales W by
      k, and a failure stays the same failure. */
  lemma {:induction false} AdaptivenessScales(codon: string, gcn: map<string, nat>,
                                              table: map<string, seq<string>>, k: nat)
    ensures ScaledBy(k, AbsoluteAdaptiveness(codon, Scaled(gcn, k), table), AbsoluteAdaptiveness(codon, gcn, table))
  {
    if ReverseComplement(codon).Ok? && codon in table {
      var ac := ReverseComplement(codon).value;
      var tRNAs := table[codon];
      if |tRNAs| == 1 {
        OneCandidateScales(tRNAs[0], gcn, k);
      } else if |tRNAs| == 2 {
        TwoCandidatesScales(codon, ac, gcn, k);
      } else if |tRNAs| == 3 {
        WobbleSumScales(ac, UA, 'A', IA, gcn, k);
      }
    }
  }

  /** `ScaledBy` in plain multiplication: `Times` is k-fold addition, the
      form the proofs about scaling reason with, and it equals k times W. */
  lemma ScaledByIsProduct(k: nat, scaled: Result<real>, r: Result<real>)
    requires ScaledBy(k, scaled, r)
    ensures scaled.Ok? == r.Ok?
    ensures r.Ok? ==> scaled.value == k as real * r.value
    ensures r.Err? ==> scaled.failure == r.failure
  {
    if r.Ok? {
      Means.TimesIsProduct(k, r.value);
    }
  }
}
