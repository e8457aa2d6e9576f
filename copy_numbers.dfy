/** tRNA gene copy numbers, as `prepare_datas` (tAI.py) builds them from
    the Anticodon column of the GtRNAdb table: count each anticodon,
    rewrite T into U in the keys, then give every anticodon the wobble
    table names a zero count if it has none. */
module CopyNumbers {
  import opened Nucleotides
  import opened WobbleModel
  import Dicts

  /** `Counter(tRNA['Anticodon'])`: the number of rows naming each anticodon. */
  function Count(column: seq<string>): (r: map<string, nat>)
    ensures forall a :: a in r <==> a in column
    ensures forall a | a in r :: r[a] == multiset(column)[a] >= 1
  {
    map a | a in column :: multiset(column)[a]
  }

  /** A Counter with no rows is empty, and each further row adds one to
      the count of its anticodon, starting from 0 for a new one. */
  lemma CountSnoc(column: seq<string>, a: string)
    ensures Count([]) == map[]
    ensures Count(column + [a]) == Count(column)[a := (if a in Count(column) then Count(column)[a] else 0) + 1]
  {
    assert multiset(column + [a]) == multiset(column) + multiset{a};
  }

  /** `{tRNA.replace("T","U"): counts[tRNA] for tRNA in counts.keys()}` over
      the keys in the given order; when two keys rewrite to the same
      string, the later one wins. */
  function Renamed(keys: seq<string>, counts: map<string, nat>): (r: map<string, nat>)
    requires forall k | k in keys :: k in counts
    ensures r.Keys == Renames(keys)
  {
    if keys == [] then map[]
    else
      var a := keys[|keys| - 1];
      var front := keys[..|keys| - 1];
      assert keys == front + [a];
      var r := Renamed(front, counts)[ReplaceT(a) := counts[a]];
      assert Renames(keys) == Renames(front) + {ReplaceT(a)};
      r
  }

  /** The last of the keys that rewrite to a given string decides its count. */
  lemma {:induction false} RenamedLastWins(keys: seq<string>, counts: map<string, nat>, i: nat)
    requires forall k | k in keys :: k in counts
    requires i < |keys|
    requires forall j | i < j < |keys| :: ReplaceT(keys[j]) != ReplaceT(keys[i])
    ensures ReplaceT(keys[i]) in Renamed(keys, counts)
    ensures Renamed(keys, counts)[ReplaceT(keys[i])] == counts[keys[i]]
  {
    if i < |keys| - 1 {
      var front := keys[..|keys| - 1];
      assert forall k | k in front :: k in keys;
      RenamedLastWins(front, counts, i);
    }
  }

  /** The rewritten spellings of a list of anticodons. */
  function Renames(keys: seq<string>): set<string> {
    set a | a in keys :: ReplaceT(a)
  }

  /** The copy numbers read from the table, before the zero-fill. */
  function InputCopyNumbers(column: seq<string>): (r: map<string, nat>)
    ensures r.Keys == Renames(column)
  {
    var keys := Dicts.KeyOrder(column);
    assert Renames(keys) == Renames(column) by {
      forall k | k in Renames(column) ensures k in Renames(keys) {
        var a :| a in column && ReplaceT(a) == k;
        assert a in keys;
      }
    }
    Renamed(keys, Count(column))
  }

  /** When no two anticodons of the column differ only in T against U (the
      GtRNAdb column is written with T only), each rewritten anticodon
      keeps exactly its number of rows. */
  lemma InputCopyNumbersCount(column: seq<string>, a: string)
    requires a in column
    requires forall b, c | b in column && c in column && ReplaceT(b) == ReplaceT(c) :: b == c
    ensures ReplaceT(a) in InputCopyNumbers(column)
    ensures InputCopyNumbers(column)[ReplaceT(a)] == multiset(column)[a]
  {
    var keys := Dicts.KeyOrder(column);
    var i :| 0 <= i < |keys| && keys[i] == a;
    RenamedLastWins(keys, Count(column), i);
  }

  /** The loop of `prepare_datas` over the set `anticodonList`: each
      anticodon not yet a key is added with count 0; the order in which the
      set is walked does not matter. */
  method ZeroFill(input: map<string, nat>, anticodonList: set<string>) returns (gcn: map<string, nat>)
    ensures gcn.Keys == input.Keys + anticodonList
    ensures forall k | k in input :: gcn[k] == input[k]
    ensures forall k | k in anticodonList && k !in input :: gcn[k] == 0
  {
    gcn := input;
    var todo := anticodonList;
    while todo != {}
      invariant todo <= anticodonList
      invariant gcn.Keys == input.Keys + (anticodonList - todo)
      invariant forall k | k in input :: gcn[k] == input[k]
      invariant forall k | k in anticodonList - todo && k !in input :: gcn[k] == 0
      decreases todo
    {
      var anticodon :| anticodon in todo;
      if anticodon !in gcn {
        gcn := gcn[anticodon := 0];
      }
      todo := todo - {anticodon};
    }
  }

  /** `prepare_datas`, the copy-number part: the counts read from the
      table, zero-filled over every anticodon of the wobble table, so that
      every codon ends up with a copy number. */
  method PrepareCopyNumbers(column: seq<string>) returns (gcn: map<string, nat>)
    ensures gcn.Keys == InputCopyNumbers(column).Keys + TableAnticodons()
    ensures forall k | k in InputCopyNumbers(column) :: gcn[k] == InputCopyNumbers(column)[k]
    ensures forall k | k in TableAnticodons() && k !in InputCopyNumbers(column) :: gcn[k] == 0
    ensures forall a | IsCodon(a) :: a in gcn
  {
    gcn := ZeroFill(InputCopyNumbers(column), TableAnticodons());
    forall a | IsCodon(a)
      ensures a in gcn
    {
      EveryCodonIsTableAnticodon(a);
    }
  }
}
