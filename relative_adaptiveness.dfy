/** `calculate_relative_adaptiveness_w` of tAI.py: W for every codon of the
    codon list (with T read as U), then every non-zero W divided by the
    largest W, and every zero W replaced by one floor value: the geometric
    mean of the non-zero W values as they are, not divided by the largest. */
module Relative {
  import opened Outcomes
  import opened Nucleotides
  import opened Means
  import opened Absolute
  import Dicts

  /** `codon.replace("T","U")` for every entry of the codon list. */
  function RnaCodons(codonList: seq<string>): (r: seq<string>)
    ensures |r| == |codonList|
    ensures forall i | 0 <= i < |codonList| :: r[i] == ReplaceT(codonList[i])
  {
    seq(|codonList|, i requires 0 <= i < |codonList| => ReplaceT(codonList[i]))
  }

  /** After the rewrite no codon holds a T, a second rewrite changes
      nothing, and a codon already without T is kept as it is. */
  lemma RnaCodonsAreRna(codonList: seq<string>)
    ensures forall i | 0 <= i < |codonList| :: 'T' !in RnaCodons(codonList)[i]
    ensures RnaCodons(RnaCodons(codonList)) == RnaCodons(codonList)
    ensures forall i | 0 <= i < |codonList| && 'T' !in codonList[i] :: RnaCodons(codonList)[i] == codonList[i]
  {
    var r := RnaCodons(codonList);
    forall i | 0 <= i < |codonList| ensures 'T' !in r[i] && ReplaceT(r[i]) == r[i] {
      ReplaceTIdempotent(codonList[i]);
    }
    forall i | 0 <= i < |codonList| && 'T' !in codonList[i] ensures r[i] == codonList[i] {
      ReplaceTKeepsRna(codonList[i]);
    }
  }

  /** W of one codon under fixed copy numbers and wobble table. */
  type Weigher = string -> Result<real>

  /** No codon has a negative weight. */
  ghost predicate NonNegative(weigh: Weigher) {
    forall codon | weigh(codon).Ok? :: weigh(codon).value >= 0.0
  }

  function WeightOf(gcn: map<string, nat>, table: map<string, seq<string>>): (weigh: Weigher)
    ensures NonNegative(weigh)
    ensures forall codon :: weigh(codon) == AbsoluteAdaptiveness(codon, gcn, table)
  {
    codon => AbsoluteAdaptiveness(codon, gcn, table)
  }

  /** The dict `w` after the first loop: `w[codon] = W` for the codons in
      order, a later duplicate overwriting an earlier one with the same W.
      The first codon whose W fails stops the loop with that failure. */
  function WTable(codons: seq<string>, weigh: Weigher): (r: Result<map<string, real>>)
    ensures r.Ok? <==> forall i | 0 <= i < |codons| :: weigh(codons[i]).Ok?
    ensures r.Ok? ==> forall k :: k in r.value <==> k in codons
    ensures r.Ok? ==> forall k | k in r.value :: weigh(k).Ok? && weigh(k).value == r.value[k]
  {
    if codons == [] then Ok(map[])
    else
      var front := codons[..|codons| - 1];
      var codon := codons[|codons| - 1];
      assert forall i | 0 <= i < |front| :: front[i] == codons[i];
      assert codons == front + [codon];
      var w :- WTable(front, weigh);
      var W :- weigh(codon);
      Ok(w[codon := W])
  }

  /** One more codon with a W: one more assignment. */
  lemma WTableSnoc(codons: seq<string>, codon: string, weigh: Weigher)
    requires WTable(codons, weigh).Ok? && weigh(codon).Ok?
    ensures WTable(codons + [codon], weigh) == Ok(WTable(codons, weigh).value[codon := weigh(codon).value])
  {
    assert (codons + [codon])[..|codons|] == codons;
  }

  /** The first failing codon decides the failure. */
  lemma {:induction false} WTableFailsAt(codons: seq<string>, i: nat, weigh: Weigher)
    requires i < |codons|
    requires WTable(codons[..i], weigh).Ok?
    requires weigh(codons[i]).Err?
    ensures WTable(codons, weigh) == Err(weigh(codons[i]).failure)
  {
    if |codons| == i + 1 {
      assert codons[..|codons| - 1] == codons[..i];
    } else {
      var front := codons[..|codons| - 1];
      assert front[..i] == codons[..i] && front[i] == codons[i];
      WTableFailsAt(front, i, weigh);
    }
  }

  /** `list(w.values())`, in the dict's key order. */
  function Values(order: seq<string>, w: map<string, real>): (r: seq<real>)
    requires forall k | k in order :: k in w
    ensures |r| == |order|
    ensures forall i | 0 <= i < |order| :: r[i] == w[order[i]]
  {
    seq(|order|, i requires 0 <= i < |order| => w[order[i]])
  }

  /** `list(w.values())` of the filled dict: one value per distinct codon,
      in the order of first insertion, each the W of its codon. */
  lemma ValuesInInsertionOrder(codons: seq<string>, weigh: Weigher)
    requires WTable(codons, weigh).Ok?
    ensures forall k | k in Dicts.KeyOrder(codons) :: k in WTable(codons, weigh).value
    ensures var order := Dicts.KeyOrder(codons);
      var ws := Values(order, WTable(codons, weigh).value);
      && |ws| == |order|
      && (forall i | 0 <= i < |ws| :: ws[i] == weigh(order[i]).value)
      && (forall c | c in codons :: exists i | 0 <= i < |ws| :: order[i] == c && ws[i] == weigh(c).value)
  {
    var order := Dicts.KeyOrder(codons);
    var ws := Values(order, WTable(codons, weigh).value);
    forall c | c in codons ensures exists i | 0 <= i < |ws| :: order[i] == c && ws[i] == weigh(c).value {
      assert c in order;
      var i :| 0 <= i < |order| && order[i] == c;
      assert ws[i] == weigh(c).value;
    }
  }

  /** The tail of `calculate_relative_adaptiveness_w` once `w` is filled:
      `np.max` of the values (empty: error), the geometric mean of the
      non-zero values (none: error), then every value rescaled. W is never
      negative, so a non-zero value is positive and so is the maximum. */
  function Normalise(order: seq<string>, w: map<string, real>, root: Root): (r: Result<map<string, real>>)
    requires forall k :: k in w <==> k in order
    requires forall k | k in w :: w[k] >= 0.0
    ensures r.Err? <==> order == [] || forall k | k in w :: w[k] == 0.0
    ensures r.Err? ==> r.failure == (if order == [] then EmptyMaximum else EmptyGeometricMean)
    ensures r.Ok? ==> r.value.Keys == w.Keys
    ensures r.Ok? ==> forall k | k in w && w[k] != 0.0 :: 0.0 < r.value[k] <= 1.0
    ensures r.Ok? ==> exists k | k in w :: w[k] != 0.0 && r.value[k] == 1.0
    ensures r.Ok? ==> forall k | k in w && w[k] == 0.0 ::
      r.value[k] == root(Product(NonZero(Values(order, w))), |NonZero(Values(order, w))|)
  {
    var ws := Values(order, w);
    if ws == [] then Err(EmptyMaximum)
    else
      var top := Max(ws);
      var nonzero := NonZero(ws);
      assert nonzero == [] ==> forall k | k in w :: w[k] == 0.0 by {
        forall k | k in w ensures w[k] != 0.0 ==> w[k] in nonzero {
          var i :| 0 <= i < |order| && order[i] == k;
          assert ws[i] == w[k];
        }
      }
      assert nonzero != [] ==> exists k | k in w :: w[k] != 0.0 by {
        if nonzero != [] {
          assert nonzero[0] in nonzero;
          assert nonzero[0] in ws;
          var i :| 0 <= i < |ws| && ws[i] == nonzero[0];
          assert order[i] in w;
        }
      }
      var floor :- GeometricMean(nonzero, root);
      assert forall k | k in w :: w[k] <= top by {
        forall k | k in w ensures w[k] <= top {
          var i :| 0 <= i < |order| && order[i] == k;
          assert ws[i] == w[k];
        }
      }
      MaxPositive(order, w);
      var r := Rescaled(w, top, floor);
      assert forall k | k in w && w[k] != 0.0 :: 0.0 < r[k] <= 1.0 by {
        forall k | k in w && w[k] != 0.0 ensures 0.0 < r[k] <= 1.0 {
          RatioInUnitInterval(w[k], top);
        }
      }
      assert exists k | k in w :: w[k] != 0.0 && r[k] == 1.0 by {
        var i :| 0 <= i < |ws| && ws[i] == top;
        var k := order[i];
        assert k in w && w[k] == top && r[k] == top / top;
        SelfRatio(top);
      }
      Ok(r)
  }

  /** Some W is non-zero, so the largest W is positive. */
  lemma MaxPositive(order: seq<string>, w: map<string, real>)
    requires forall k :: k in w <==> k in order
    requires forall k | k in w :: w[k] >= 0.0
    requires NonZero(Values(order, w)) != []
    ensures Max(Values(order, w)) > 0.0
  {
    var ws := Values(order, w);
    var nonzero := NonZero(ws);
    assert nonzero[0] in nonzero;
    var j :| 0 <= j < |ws| && ws[j] == nonzero[0];
    assert w[order[j]] >= 0.0;
  }

  /** The values after the overwriting loop: a non-zero W over the
      largest, a zero W replaced by the floor. */
  function Rescaled(w: map<string, real>, top: real, floor: real): (r: map<string, real>)
    requires top > 0.0
    ensures r.Keys == w.Keys
    ensures forall k | k in w && w[k] == 0.0 :: r[k] == floor
    ensures forall k | k in w && 0.0 < w[k] <= top :: 0.0 < r[k] <= 1.0
    ensures forall k | k in w && w[k] == top :: r[k] == 1.0
  {
    forall k | k in w && 0.0 < w[k] <= top ensures 0.0 < w[k] / top <= 1.0 {
      RatioInUnitInterval(w[k], top);
    }
    SelfRatio(top);
    map k | k in w :: if w[k] != 0.0 then w[k] / top else floor
  }

  lemma RatioInUnitInterval(x: real, top: real)
    requires 0.0 < x <= top
    ensures 0.0 < x / top <= 1.0
  {
    assert x / top * top == x;
  }

  lemma SelfRatio(x: real)
    requires x != 0.0
    ensures x / x == 1.0
  {
  }

  /** `calculate_relative_adaptiveness_w(codonList, GCN, Sij, codon_anticodon)`,
      stated on values, with `weigh` the absolute adaptiveness under the
      given copy numbers and tables (`WeightOf`). It fails with the first
      codon whose W fails, on an empty codon list (`np.max` of nothing) and
      when every W is zero (the geometric mean of nothing). Otherwise its
      keys are the codons with T read as U. */
  function RelativeWeights(codonList: seq<string>, weigh: Weigher, root: Root): (r: Result<map<string, real>>)
    requires NonNegative(weigh)
    ensures r.Ok? ==> forall k :: k in r.value <==> k in RnaCodons(codonList)
  {
    var codons := RnaCodons(codonList);
    var w :- WTable(codons, weigh);
    Normalise(Dicts.KeyOrder(codons), w, root)
  }

  /** When `calculate_relative_adaptiveness_w` fails: a codon whose W
      fails, an empty codon list, or no codon with non-zero W. */
  lemma RelativeWeightsFails(codonList: seq<string>, weigh: Weigher, root: Root)
    requires NonNegative(weigh)
    ensures var codons := RnaCodons(codonList);
      RelativeWeights(codonList, weigh, root).Err? <==>
        || (exists i | 0 <= i < |codons| :: weigh(codons[i]).Err?)
        || codonList == []
        || (forall i | 0 <= i < |codons| :: weigh(codons[i]) == Ok(0.0))
  {
    var codons := RnaCodons(codonList);
    var t := WTable(codons, weigh);
    if t.Ok? {
      var w := t.value;
      var order := Dicts.KeyOrder(codons);
      assert order == [] <==> codonList == [] by {
        if codonList != [] {
          assert codons[0] in codons;
        }
      }
      assert (forall k | k in w :: w[k] == 0.0) <==> (forall i | 0 <= i < |codons| :: weigh(codons[i]) == Ok(0.0)) by {
        forall k | k in w ensures weigh(k) == Ok(w[k]) {
          assert weigh(k) == Ok(weigh(k).value);
        }
        forall i | 0 <= i < |codons| ensures codons[i] in w {
        }
      }
      assert RelativeWeights(codonList, weigh, root) == Normalise(order, w, root);
    }
  }

  /** A codon with non-zero W gets a value in (0, 1], and some codon gets
      exactly 1. */
  lemma RelativeWeightsInUnitInterval(codonList: seq<string>, weigh: Weigher, root: Root)
    requires NonNegative(weigh)
    requires RelativeWeights(codonList, weigh, root).Ok?
    ensures var r := RelativeWeights(codonList, weigh, root).value;
      && (forall k | k in r :: weigh(k).Ok? && (weigh(k).value != 0.0 ==> 0.0 < r[k] <= 1.0))
      && (exists k | k in r :: r[k] == 1.0)
  {
    var codons := RnaCodons(codonList);
    var w := WTable(codons, weigh).value;
    var r := Normalise(Dicts.KeyOrder(codons), w, root).value;
    assert RelativeWeights(codonList, weigh, root).value == r;
    forall k | k in r ensures weigh(k).Ok? && weigh(k).value == w[k] {
    }
  }

  /** Every codon with zero W gets the same floor value: the geometric
      mean of the non-zero W values, taken as they are. */
  lemma ZeroCodonsShareFloor(codonList: seq<string>, weigh: Weigher, root: Root)
    requires NonNegative(weigh)
    requires RelativeWeights(codonList, weigh, root).Ok?
    ensures var r := RelativeWeights(codonList, weigh, root).value;
      var codons := RnaCodons(codonList);
      var nonzero := NonZero(Values(Dicts.KeyOrder(codons), WTable(codons, weigh).value));
      forall k | k in r && weigh(k) == Ok(0.0) :: r[k] == root(Product(nonzero), |nonzero|)
  {
    var codons := RnaCodons(codonList);
    var w := WTable(codons, weigh).value;
    var r := Normalise(Dicts.KeyOrder(codons), w, root).value;
    assert RelativeWeights(codonList, weigh, root).value == r;
    forall k | k in r && weigh(k) == Ok(0.0) ensures w[k] == 0.0 {
    }
  }

  /** The floor is the geometric mean of the raw W values, not of the
      rescaled ones, so it can exceed 1: with W values 4, 1 and 0 the two
      non-zero codons get 1 and 0.25 and the zero codon gets 2. */
  lemma FloorCanExceedOne(root: Root)
    requires IsNthRoot(root)
    ensures Normalise(["AAA", "CCC", "GGG"], map["AAA" := 4.0, "CCC" := 1.0, "GGG" := 0.0], root)
         == Ok(map["AAA" := 1.0, "CCC" := 0.25, "GGG" := 2.0])
  {
    var order := ["AAA", "CCC", "GGG"];
    var w := map["AAA" := 4.0, "CCC" := 1.0, "GGG" := 0.0];
    ExampleValues();
    assert root(Product([4.0, 1.0]), 2) == 2.0 by {
      assert [4.0, 1.0][..1] == [4.0] && [4.0][..0] == [];
      assert Product([4.0, 1.0]) == Power(2.0, 2);
    }
    NormaliseIsRescaled(order, w, root);
    ExampleRescaled();
  }

  /** The rescaling in that example, by the maximum 4 with the floor 2. */
  lemma ExampleRescaled()
    ensures Rescaled(map["AAA" := 4.0, "CCC" := 1.0, "GGG" := 0.0], 4.0, 2.0)
         == map["AAA" := 1.0, "CCC" := 0.25, "GGG" := 2.0]
  {
    var r := Rescaled(map["AAA" := 4.0, "CCC" := 1.0, "GGG" := 0.0], 4.0, 2.0);
    assert r.Keys == {"AAA", "CCC", "GGG"};
    assert r["AAA"] == 1.0 && r["CCC"] == 0.25 && r["GGG"] == 2.0;
  }

  /** The values, their maximum and their non-zero part in that example. */
  lemma ExampleValues()
    ensures var ws := Values(["AAA", "CCC", "GGG"], map["AAA" := 4.0, "CCC" := 1.0, "GGG" := 0.0]);
      ws == [4.0, 1.0, 0.0] && Max(ws) == 4.0 && NonZero(ws) == [4.0, 1.0]
  {
    var ws := Values(["AAA", "CCC", "GGG"], map["AAA" := 4.0, "CCC" := 1.0, "GGG" := 0.0]);
    assert ws == [4.0, 1.0, 0.0];
    assert Max(ws) == 4.0 by {
      MaxUnique(ws, 0);
    }
    ExampleNonZero();
  }

  /** The non-zero values of that example, in order. */
  lemma ExampleNonZero()
    ensures NonZero([4.0, 1.0, 0.0]) == [4.0, 1.0]
  {
    assert NonZero([4.0]) == [4.0] by {
      NonZeroSnoc([], 4.0);
      assert [4.0] == [] + [4.0];
    }
    assert NonZero([4.0, 1.0]) == [4.0, 1.0] by {
      NonZeroSnoc([4.0], 1.0);
      assert [4.0, 1.0] == [4.0] + [1.0];
    }
    NonZeroSnoc([4.0, 1.0], 0.0);
    assert [4.0, 1.0, 0.0] == [4.0, 1.0] + [0.0];
  }

  /** Past its failures, Normalise is the rescaling by the maximum, with
      the geometric mean of the non-zero values as the floor. */
  lemma NormaliseIsRescaled(order: seq<string>, w: map<string, real>, root: Root)
    requires forall k :: k in w <==> k in order
    requires forall k | k in w :: w[k] >= 0.0
    requires NonZero(Values(order, w)) != []
    ensures Max(Values(order, w)) > 0.0
    ensures var nonzero := NonZero(Values(order, w));
      Normalise(order, w, root) == Ok(Rescaled(w, Max(Values(order, w)), root(Product(nonzero), |nonzero|)))
  {
    MaxPositive(order, w);
  }

  /** Scaling every W by k scales the filled dict by k; failures are kept. */
  lemma WTableScales(codons: seq<string>, weigh: Weigher, weigh': Weigher, k: nat)
    requires forall c :: ScaledBy(k, weigh'(c), weigh(c))
    ensures WTable(codons, weigh').Ok? == WTable(codons, weigh).Ok?
    ensures WTable(codons, weigh).Ok? ==>
      var w, w' := WTable(codons, weigh).value, WTable(codons, weigh').value;
      w'.Keys == w.Keys && forall c | c in w :: w'[c] == Times(k, w[c])
  {
    var r, r' := WTable(codons, weigh), WTable(codons, weigh');
    if r.Ok? {
      assert r'.Ok? by {
        forall i | 0 <= i < |codons| ensures weigh'(codons[i]).Ok? {
          assert ScaledBy(k, weigh'(codons[i]), weigh(codons[i]));
        }
      }
      forall c | c in r.value ensures c in r'.value && r'.value[c] == Times(k, r.value[c]) {
        assert ScaledBy(k, weigh'(c), weigh(c));
      }
    } else {
      var i :| 0 <= i < |codons| && weigh(codons[i]).Err?;
      assert ScaledBy(k, weigh'(codons[i]), weigh(codons[i]));
    }
  }

  lemma ValuesScale(order: seq<string>, w: map<string, real>, w': map<string, real>, k: nat)
    requires forall c | c in order :: c in w
    requires w'.Keys == w.Keys && forall c | c in w :: w'[c] == Times(k, w[c])
    ensures forall j | 0 <= j < |order| :: Values(order, w')[j] == Times(k, Values(order, w)[j])
  {
  }

  /** A codon with non-zero W gets W over the largest W. */
  lemma NormalisedValue(order: seq<string>, w: map<string, real>, root: Root, c: string)
    requires forall k :: k in w <==> k in order
    requires forall k | k in w :: w[k] >= 0.0
    requires Normalise(order, w, root).Ok? && c in w && w[c] != 0.0
    ensures Normalise(order, w, root).value[c] == w[c] / Max(Values(order, w))
  {
  }

  /** Taking every W k times (k > 0) keeps the rescaled value of every
      non-zero W, and whether the rescaling fails. */
  lemma NormaliseScaleFree(order: seq<string>, w: map<string, real>, w': map<string, real>,
                           k: nat, root: Root)
    requires forall c :: c in w <==> c in order
    requires forall c | c in w :: w[c] >= 0.0
    requires k > 0 && w'.Keys == w.Keys && forall c | c in w :: w'[c] == Times(k, w[c])
    ensures forall c | c in w' :: w'[c] >= 0.0
    ensures Normalise(order, w', root).Ok? == Normalise(order, w, root).Ok?
    ensures Normalise(order, w, root).Ok? ==>
      forall c | c in w && w[c] != 0.0 :: Normalise(order, w', root).value[c] == Normalise(order, w, root).value[c]
  {
    forall c | c in w ensures w'[c] >= 0.0 && (w'[c] == 0.0 <==> w[c] == 0.0) {
      TimesSign(k, w[c]);
    }
    var ws, ws' := Values(order, w), Values(order, w');
    ValuesScale(order, w, w', k);
    if Normalise(order, w, root).Ok? {
      MaxScales(ws, ws', k);
      MaxPositive(order, w);
      forall c | c in w && w[c] != 0.0
        ensures Normalise(order, w', root).value[c] == Normalise(order, w, root).value[c]
      {
        NormalisedValue(order, w, root, c);
        NormalisedValue(order, w', root, c);
        TimesRatio(k, w[c], Max(ws));
      }
    }
  }

  /** Multiplying every W by the same positive factor changes neither
      whether the computation fails nor the relative adaptiveness of any
      codon with non-zero W; only the floor of the zero-W codons moves. */
  lemma RelativeWeightsScaleFree(codonList: seq<string>, weigh: Weigher, weigh': Weigher,
                                 k: nat, root: Root)
    requires NonNegative(weigh) && NonNegative(weigh') && k > 0
    requires forall c :: ScaledBy(k, weigh'(c), weigh(c))
    ensures RelativeWeights(codonList, weigh', root).Ok? == RelativeWeights(codonList, weigh, root).Ok?
    ensures var r, r' := RelativeWeights(codonList, weigh, root), RelativeWeights(codonList, weigh', root);
      r.Ok? ==> forall c | c in r.value && weigh(c).value != 0.0 :: c in r'.value && r'.value[c] == r.value[c]
  {
    var codons := RnaCodons(codonList);
    WTableScales(codons, weigh, weigh', k);
    if WTable(codons, weigh).Ok? {
      var w, w' := WTable(codons, weigh).value, WTable(codons, weigh').value;
      NormaliseScaleFree(Dicts.KeyOrder(codons), w, w', k, root);
    }
  }

  /** The same for copy numbers: multiplying every copy number by k > 0
      leaves w unchanged for every codon with non-zero W. */
  lemma CopyNumbersScaleFree(codonList: seq<string>, gcn: map<string, nat>,
                             table: map<string, seq<string>>, k: nat, root: Root)
    requires k > 0
    ensures var r, r' := RelativeWeights(codonList, WeightOf(gcn, table), root),
                         RelativeWeights(codonList, WeightOf(Scaled(gcn, k), table), root);
      r'.Ok? == r.Ok? &&
      (r.Ok? ==> forall c | c in r.value && AbsoluteAdaptiveness(c, gcn, table).value != 0.0 ::
         c in r'.value && r'.value[c] == r.value[c])
  {
    forall c ensures ScaledBy(k, WeightOf(Scaled(gcn, k), table)(c), WeightOf(gcn, table)(c)) {
      AdaptivenessScales(c, gcn, table, k);
    }
    RelativeWeightsScaleFree(codonList, WeightOf(gcn, table), WeightOf(Scaled(gcn, k), table), k, root);
  }

  /** The first loop of `calculate_relative_adaptiveness_w`: `w[codon] = W`
      for every codon of the list, T read as U; `order` is the dict's key
      order. */
  method FillWeights(codonList: seq<string>, weigh: Weigher)
    returns (r: Result<map<string, real>>, order: seq<string>)
    ensures r == WTable(RnaCodons(codonList), weigh)
    ensures r.Ok? ==> order == Dicts.KeyOrder(RnaCodons(codonList))
  {
    var codons := RnaCodons(codonList);
    var w: map<string, real> := map[];
    order := [];
    var i := 0;
    assert codons[..0] == [];
    while i < |codonList|
      invariant 0 <= i <= |codonList|
      invariant WTable(codons[..i], weigh) == Ok(w)
      invariant order == Dicts.KeyOrder(codons[..i])
      invariant forall k :: k in w <==> k in order
    {
      var codon := codons[i];
      var W := weigh(codon);
      if W.Err? {
        WTableFailsAt(codons, i, weigh);
        return Err(W.failure), order;
      }
      FillStep(codons, i, weigh, w, order);
      if codon !in w {
        order := order + [codon];
      }
      w := w[codon := W.value];
      i := i + 1;
    }
    assert codons[..i] == codons;
    r := Ok(w);
  }

  /** One pass of the fill loop keeps its invariant. */
  lemma FillStep(codons: seq<string>, i: nat, weigh: Weigher, w: map<string, real>, order: seq<string>)
    requires i < |codons| && weigh(codons[i]).Ok?
    requires WTable(codons[..i], weigh) == Ok(w)
    requires order == Dicts.KeyOrder(codons[..i])
    requires forall k :: k in w <==> k in order
    ensures var order' := if codons[i] in w then order else order + [codons[i]];
      var w' := w[codons[i] := weigh(codons[i]).value];
      && WTable(codons[..i + 1], weigh) == Ok(w')
      && order' == Dicts.KeyOrder(codons[..i + 1])
      && forall k :: k in w' <==> k in order'
  {
    WTablePrefixStep(codons, i, weigh);
    Dicts.KeyOrderPrefixStep(codons, i);
  }

  /** WTableSnoc on a prefix of the codon list. */
  lemma WTablePrefixStep(codons: seq<string>, i: nat, weigh: Weigher)
    requires i < |codons| && weigh(codons[i]).Ok?
    requires WTable(codons[..i], weigh).Ok?
    ensures WTable(codons[..i + 1], weigh) == Ok(WTable(codons[..i], weigh).value[codons[i] := weigh(codons[i]).value])
  {
    assert codons[..i + 1] == codons[..i] + [codons[i]];
    WTableSnoc(codons[..i], codons[i], weigh);
  }

  /** The second loop: every entry of `w` overwritten in place, a non-zero
      W by W over the largest, a zero W by the floor. */
  method Rescale(order: seq<string>, w: map<string, real>, top: real, floor: real)
    returns (w': map<string, real>)
    requires forall k :: k in w <==> k in order
    requires forall i, j | 0 <= i < j < |order| :: order[i] != order[j]
    requires top > 0.0
    ensures w' == Rescaled(w, top, floor)
  {
    ghost var r := Rescaled(w, top, floor);
    w' := w;
    var j := 0;
    while j < |order|
      invariant 0 <= j <= |order|
      invariant w'.Keys == w.Keys
      invariant forall m | 0 <= m < |order| ::
        w'[order[m]] == if m < j then r[order[m]] else w[order[m]]
    {
      var k := order[j];
      var v := w'[k];
      if v != 0.0 {
        w' := w'[k := v / top];
      } else {
        w' := w'[k := floor];
      }
      j := j + 1;
    }
    assert w' == r by {
      forall k | k in w' ensures w'[k] == r[k] {
        var m :| 0 <= m < |order| && order[m] == k;
      }
    }
  }

  /** `calculate_relative_adaptiveness_w(codonList, GCN, Sij, codon_anticodon)`
      as tAI.py runs it: the filling loop, `np.max`, the geometric mean of
      the non-zero values, then the overwriting loop. */
  method RelativeAdaptiveness(codonList: seq<string>, gcn: map<string, nat>,
                              table: map<string, seq<string>>, root: Root)
    returns (r: Result<map<string, real>>)
    ensures r == RelativeWeights(codonList, WeightOf(gcn, table), root)
  {
    var w, order := FillWeights(codonList, WeightOf(gcn, table));
    if w.Err? {
      return Err(w.failure);
    }
    ghost var spec := Normalise(order, w.value, root);
    assert RelativeWeights(codonList, WeightOf(gcn, table), root) == spec;
    var ws := Values(order, w.value);
    if ws == [] {
      return Err(EmptyMaximum);
    }
    var top := Max(ws);
    var floor := GeometricMean(NonZero(ws), root);
    if floor.Err? {
      return Err(floor.failure);
    }
    MaxPositive(order, w.value);
    var w' := Rescale(order, w.value, top, floor.value);
    r := Ok(w');
    assert spec == Ok(Rescaled(w.value, top, floor.value));
  }
}
