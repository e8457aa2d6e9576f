/** Strings of nucleotides: the DNA-to-RNA rewrite of T into U and the
    reverse complement (tAI.py, `reverse_complement` and the
    `replace("T","U")` / `re.sub("T","U",...)` calls). */
module Nucleotides {
  import opened Outcomes

  /** One of the four RNA bases. */
  predicate IsRnaBase(c: char) {
    c == 'A' || c == 'C' || c == 'G' || c == 'U'
  }

  predicate IsRna(s: string) {
    forall i | 0 <= i < |s| :: IsRnaBase(s[i])
  }

  /** A codon (or an anticodon): three RNA bases. */
  predicate IsCodon(s: string) {
    |s| == 3 && IsRna(s)
  }

  /** The characters `reverse_complement` accepts: those of "UAGCN". */
  predicate HasComplement(c: char) {
    IsRnaBase(c) || c == 'N'
  }

  /** `"AUCGN"["UAGCN".index(n)]`: U->A, A->U, G->C, C->G, N->N; any other
      character makes `index` raise. */
  function Complement(n: char): (r: Option<char>)
    ensures r.Some? <==> HasComplement(n)
    ensures r.Some? ==> HasComplement(r.value)
  {
    match n
    case 'U' => Some('A')
    case 'A' => Some('U')
    case 'G' => Some('C')
    case 'C' => Some('G')
    case 'N' => Some('N')
    case _ => None
  }

  /** Position by position, T becomes U and every other character stays. */
  function ReplaceT(s: string): (r: string)
    ensures |r| == |s|
    ensures forall i | 0 <= i < |s| :: r[i] == (if s[i] == 'T' then 'U' else s[i])
  {
    if s == [] then []
    else ReplaceT(s[..|s| - 1]) + [if s[|s| - 1] == 'T' then 'U' else s[|s| - 1]]
  }

  /** The string read backwards, each character complemented. The Python
      comprehension walks `seq[::-1]`, so the failure it reports is the
      last character of `s` that has no complement. */
  function ReverseComplement(s: string): (r: Result<string>)
    ensures r.Ok? <==> forall i | 0 <= i < |s| :: HasComplement(s[i])
    ensures r.Ok? ==> |r.value| == |s|
    ensures r.Ok? ==> forall i | 0 <= i < |s| :: Complement(s[|s| - 1 - i]) == Some(r.value[i])
    ensures r.Err? ==> exists i | 0 <= i < |s| :: r.failure == NotANucleotide(s[i]) && !HasComplement(s[i])
  {
    if s == [] then Ok([])
    else
      var last := s[|s| - 1];
      match Complement(last)
      case None => Err(NotANucleotide(last))
      case Some(c) =>
        var rest :- ReverseComplement(s[..|s| - 1]);
        Ok([c] + rest)
  }

  lemma ComplementInvolutive(n: char)
    requires HasComplement(n)
    ensures Complement(Complement(n).value) == Some(n)
  {
  }

  /** On strings over U, A, G, C, N the reverse complement succeeds and
      undoes itself. */
  lemma {:induction false} ReverseComplementInvolutive(s: string)
    requires forall i | 0 <= i < |s| :: HasComplement(s[i])
    ensures ReverseComplement(s).Ok?
    ensures ReverseComplement(ReverseComplement(s).value) == Ok(s)
  {
    var r := ReverseComplement(s).value;
    forall i | 0 <= i < |r|
      ensures HasComplement(r[i])
    {
      assert Complement(s[|s| - 1 - i]) == Some(r[i]);
    }
    var rr := ReverseComplement(r).value;
    assert |rr| == |s|;
    forall i | 0 <= i < |s|
      ensures rr[i] == s[i]
    {
      assert Complement(r[|r| - 1 - i]) == Some(rr[i]);
      assert Complement(s[|s| - 1 - (|r| - 1 - i)]) == Some(r[|r| - 1 - i]);
      ComplementInvolutive(s[i]);
    }
    assert rr == s;
  }

  /** A DNA base T (or any character outside U, A, G, C, N) anywhere in the
      input makes the reverse complement fail. */
  lemma ReverseComplementRejects(s: string, i: nat)
    requires i < |s| && !HasComplement(s[i])
    ensures ReverseComplement(s).Err?
  {
  }

  /** The reverse complement of a codon is a codon, read from the third
      base backwards. */
  lemma {:induction false} ReverseComplementOfCodon(s: string)
    requires IsCodon(s)
    ensures ReverseComplement(s).Ok?
    ensures var r := ReverseComplement(s).value;
      IsCodon(r) && Some(r[0]) == Complement(s[2]) && Some(r[1]) == Complement(s[1])
      && Some(r[2]) == Complement(s[0])
  {
    var r := ReverseComplement(s).value;
    assert Complement(s[2]) == Some(r[0]);
    assert Complement(s[1]) == Some(r[1]);
    assert Complement(s[0]) == Some(r[2]);
  }

  /** After the rewrite no T is left, and a second rewrite changes nothing. */
  lemma ReplaceTIdempotent(s: string)
    ensures 'T' !in ReplaceT(s)
    ensures ReplaceT(ReplaceT(s)) == ReplaceT(s)
  {
  }

  /** A string without T is left as it is. */
  lemma ReplaceTKeepsRna(s: string)
    requires 'T' !in s
    ensures ReplaceT(s) == s
  {
    assert forall i | 0 <= i < |s| :: s[i] != 'T';
  }

  /** The rewrite distributes over concatenation. */
  lemma {:induction false} ReplaceTConcat(a: string, b: string)
    ensures ReplaceT(a + b) == ReplaceT(a) + ReplaceT(b)
  {
    assert |ReplaceT(a + b)| == |ReplaceT(a) + ReplaceT(b)|;
    forall i | 0 <= i < |a + b|
      ensures ReplaceT(a + b)[i] == (ReplaceT(a) + ReplaceT(b))[i]
    {
      if i >= |a| {
        assert (a + b)[i] == b[i - |a|];
      }
    }
  }
}
