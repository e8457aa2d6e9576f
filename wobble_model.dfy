/** The fixed wobble-pairing reference data of tAI.py `prepare_datas`:
    the nine pairing efficiencies Sij and the 64-entry table from each
    codon to the anticodons that can read it. */
module WobbleModel {
  import opened Outcomes
  import opened Nucleotides

  /** The pairing labels of `wobble_pair`, in the order of the source:
      "I:U", "G:C", "U:A", "C:G", "G:U", "I:C", "I:A", "U:G", "L:A". */
  datatype Pairing = IU | GC | UA | CG | GU | IC | IA | UG | LA {
    function Label(): (r: string)
      ensures |r| == 3 && r[1] == ':'
    {
      match this
      case IU => "I:U"
      case GC => "G:C"
      case UA => "U:A"
      case CG => "C:G"
      case GU => "G:U"
      case IC => "I:C"
      case IA => "I:A"
      case UG => "U:G"
      case LA => "L:A"
    }
  }

  /** `Sij[label]`, from `wobble_pair_Svalues`. */
  function S(p: Pairing): (r: real)
    ensures 0.0 <= r < 1.0
    ensures r == 0.0 <==> p.IU? || p.GC? || p.UA? || p.CG?
  {
    match p
    case IU => 0.0
    case GC => 0.0
    case UA => 0.0
    case CG => 0.0
    case GU => 0.41
    case IC => 0.28
    case IA => 0.999
    case UG => 0.68
    case LA => 0.89
  }

  /** Every efficiency penalty lies in [0, 1), the four Watson-Crick
      pairings have penalty 0, and the nine labels are distinct. */
  lemma PenaltiesInUnitInterval()
    ensures forall p: Pairing :: 0.0 <= S(p) < 1.0
    ensures S(IU) == S(GC) == S(UA) == S(CG) == 0.0
    ensures forall p: Pairing, q: Pairing :: p.Label() == q.Label() ==> p == q
  {
  }

  /** `codon_anticodon[codon]` as written in the source; None where the
      dictionary has no such key. */
  function Candidates(codon: string): (r: Option<seq<string>>)
    ensures r.Some? ==> |codon| == 3 && 1 <= |r.value| <= 3
  {
    if |codon| != 3 then None
    else match (codon[0], codon[1], codon[2])
    case ('U', 'U', 'U') => Some(["GAA", "AAA"])
    case ('U', 'U', 'C') => Some(["GAA"])
    case ('U', 'U', 'A') => Some(["UAA"])
    case ('U', 'U', 'G') => Some(["UAA", "CAA"])
    case ('U', 'C', 'U') => Some(["AGA", "GGA"])
    case ('U', 'C', 'C') => Some(["AGA", "GGA"])
    case ('U', 'C', 'A') => Some(["AGA", "UGA"])
    case ('U', 'C', 'G') => Some(["UGA", "CGA"])
    case ('U', 'A', 'U') => Some(["AUA", "GUA"])
    case ('U', 'A', 'C') => Some(["GUA"])
    case ('U', 'A', 'A') => Some(["UUA"])
    case ('U', 'A', 'G') => Some(["CUA"])
    case ('U', 'G', 'U') => Some(["ACA", "GCA"])
    case ('U', 'G', 'C') => Some(["GCA"])
    case ('U', 'G', 'A') => Some(["UCA"])
    case ('U', 'G', 'G') => Some(["CCA"])
    case ('C', 'U', 'U') => Some(["AAG", "GAG"])
    case ('C', 'U', 'C') => Some(["AAG", "GAG"])
    case ('C', 'U', 'A') => Some(["AAG", "UAG"])
    case ('C', 'U', 'G') => Some(["UAG", "CAG"])
    case ('C', 'C', 'U') => Some(["AGG", "GGG"])
    case ('C', 'C', 'C') => Some(["AGG", "GGG"])
    case ('C', 'C', 'A') => Some(["AGG", "UGG"])
    case ('C', 'C', 'G') => Some(["UGG", "CGG"])
    case ('C', 'A', 'U') => Some(["GUG", "AUG"])
    case ('C', 'A', 'C') => Some(["GUG"])
    case ('C', 'A', 'A') => Some(["UUG"])
    case ('C', 'A', 'G') => Some(["UUG", "CUG"])
    case ('C', 'G', 'U') => Some(["ACG", "GCG"])
    case ('C', 'G', 'C') => Some(["ACG", "GCG"])
    case ('C', 'G', 'A') => Some(["ACG", "UCG"])
    case ('C', 'G', 'G') => Some(["UCG", "CCG"])
    case ('A', 'U', 'U') => Some(["AAU", "GAU"])
    case ('A', 'U', 'C') => Some(["AAU", "GAU"])
    case ('A', 'U', 'A') => Some(["AAU", "GAU", "UAU"])
    case ('A', 'U', 'G') => Some(["CAU"])
    case ('A', 'C', 'U') => Some(["AGU", "GGU"])
    case ('A', 'C', 'C') => Some(["AGU", "GGU"])
    case ('A', 'C', 'A') => Some(["AGU", "UGU"])
    case ('A', 'C', 'G') => Some(["UGU", "CGU"])
    case ('A', 'A', 'U') => Some(["AUU", "GUU"])
    case ('A', 'A', 'C') => Some(["GUU"])
    case ('A', 'A', 'A') => Some(["UUU"])
    case ('A', 'A', 'G') => Some(["UUU", "CUU"])
    case ('A', 'G', 'U') => Some(["ACU", "GCU"])
    case ('A', 'G', 'C') => Some(["GCU"])
    case ('A', 'G', 'A') => Some(["UCU"])
    case ('A', 'G', 'G') => Some(["UCU", "CCU"])
    case ('G', 'U', 'U') => Some(["AAC", "GAC"])
    case ('G', 'U', 'C') => Some(["AAC", "GAC"])
    case ('G', 'U', 'A') => Some(["AAC", "UAC"])
    case ('G', 'U', 'G') => Some(["UAC", "CAC"])
    case ('G', 'C', 'U') => Some(["AGC", "GGC"])
    case ('G', 'C', 'C') => Some(["AGC", "GCC"])
    case ('G', 'C', 'A') => Some(["AGC", "UGC"])
    case ('G', 'C', 'G') => Some(["UGC", "CGC"])
    case ('G', 'A', 'U') => Some(["GUC", "AUC"])
    case ('G', 'A', 'C') => Some(["GUC"])
    case ('G', 'A', 'A') => Some(["UUC"])
    case ('G', 'A', 'G') => Some(["UUC", "CUC"])
    case ('G', 'G', 'U') => Some(["GCC", "ACC"])
    case ('G', 'G', 'C') => Some(["GCC", "ACC"])
    case ('G', 'G', 'A') => Some(["UCC", "ACC"])
    case ('G', 'G', 'G') => Some(["UCC", "CCC"])
    case _ => None
  }

  /** The 64 strings of three RNA bases. */
  const AllCodons: set<string> :=
    set x, y, z | x in "ACGU" && y in "ACGU" && z in "ACGU" :: [x, y, z]

  /** The dictionary `codon_anticodon`. */
  const CodonAnticodon: map<string, seq<string>> :=
    map c | c in AllCodons && Candidates(c).Some? :: Candidates(c).value

  /** `set(reduce(chain, codon_anticodon.values()))`: every anticodon the
      table names. */
  function TableAnticodons(): (r: set<string>)
    ensures forall a :: a in r <==> exists c | c in CodonAnticodon :: a in CodonAnticodon[c]
  {
    set c, a | c in CodonAnticodon && a in CodonAnticodon[c] :: a
  }

  /** The table's keys are exactly the 64 codons, each with one to three
      candidate anticodons, every candidate itself a codon. */
  lemma {:induction false} CandidatesShape(codon: string)
    ensures Candidates(codon).Some? <==> IsCodon(codon)
    ensures Candidates(codon).Some? ==>
      var ts := Candidates(codon).value;
      1 <= |ts| <= 3 && forall a | a in ts :: IsCodon(a)
  {
  }

  lemma {:induction false} CodonAnticodonKeys(codon: string)
    ensures codon in CodonAnticodon <==> IsCodon(codon)
    ensures codon in CodonAnticodon ==> Candidates(codon) == Some(CodonAnticodon[codon])
  {
    CandidatesShape(codon);
    if IsCodon(codon) {
      assert codon == [codon[0], codon[1], codon[2]];
      assert codon in AllCodons;
    }
  }

  /** A single candidate is always the exact Watson-Crick partner, the
      reverse complement of the codon; with two or three candidates the
      reverse complement is listed too, except for GCC. */
  lemma {:induction false} CandidatesHoldReverseComplement(codon: string)
    requires IsCodon(codon)
    ensures ReverseComplement(codon).Ok?
    ensures |Candidates(codon).value| == 1 ==> Candidates(codon).value == [ReverseComplement(codon).value]
    ensures codon != "GCC" <==> ReverseComplement(codon).value in Candidates(codon).value
  {
    ReverseComplementOfCodon(codon);
    var r := ReverseComplement(codon).value;
    assert r == [r[0], r[1], r[2]];
  }

  /** Every codon occurs as a candidate anticodon somewhere in the table, so
      the zero-fill of `prepare_datas` gives all 64 a copy number. */
  lemma {:induction false} EveryCodonIsTableAnticodon(a: string)
    requires IsCodon(a)
    ensures a in TableAnticodons()
  {
    ReverseComplementInvolutive(a);
    ReverseComplementOfCodon(a);
    var c := ReverseComplement(a).value;
    ReverseComplementOfCodon(c);
    var reader := if a == "GGC" then "GCU" else c;
    assert IsCodon(reader);
    CodonAnticodonKeys(reader);
    if a != "GGC" {
      assert c != "GCC";
      CandidatesHoldReverseComplement(c);
    }
    assert a in CodonAnticodon[reader];
  }

  /** `AllCodons` holds exactly the strings of three RNA bases. */
  lemma AllCodonsAreCodons(a: string)
    ensures a in AllCodons <==> IsCodon(a)
  {
    if a in AllCodons {
      var x, y, z :| x in "ACGU" && y in "ACGU" && z in "ACGU" && a == [x, y, z];
      assert IsRnaBase(x) && IsRnaBase(y) && IsRnaBase(z);
    }
    if IsCodon(a) {
      assert a == [a[0], a[1], a[2]];
      assert a[0] in "ACGU" && a[1] in "ACGU" && a[2] in "ACGU";
    }
  }

  /** Every anticodon the table names is an RNA codon. */
  lemma NamedAnticodonIsCodon(a: string)
    requires a in TableAnticodons()
    ensures IsCodon(a)
  {
    var c :| c in CodonAnticodon && a in CodonAnticodon[c];
    CodonAnticodonKeys(c);
    CandidatesShape(c);
  }

  /** The anticodons the table names are exactly the 64 RNA codons: every
      codon is named, and nothing else is. */
  lemma TableAnticodonsAreCodons()
    ensures TableAnticodons() == AllCodons
  {
    EveryCodonNamed();
    OnlyCodonsNamed();
  }

  lemma EveryCodonNamed()
    ensures forall a | a in AllCodons :: a in TableAnticodons()
  {
    forall a | a in AllCodons ensures a in TableAnticodons() {
      AllCodonsAreCodons(a);
      EveryCodonIsTableAnticodon(a);
    }
  }

  lemma OnlyCodonsNamed()
    ensures forall a | a in TableAnticodons() :: a in AllCodons
  {
    forall a | a in TableAnticodons() ensures a in AllCodons {
      NamedAnticodonIsCodon(a);
      AllCodonsAreCodons(a);
    }
  }
}
