/** Option and Result values used across the model, and the errors that
    abort a tAI run. Each Failure constructor stands for one Python
    exception the original script can raise. */
module Outcomes {

  datatype Option<+T> = None | Some(value: T)

  datatype Failure =
    /** `"UAGCN".index(n)` found no such character (ValueError) */
    | NotANucleotide(base: char)
    /** `codon_anticodon[codon]` has no such key (KeyError) */
    | UnknownCodon(codon: string)
    /** `GCN[anticodon]` has no such key (KeyError) */
    | MissingCopyNumber(anticodon: string)
    /** `s[0]` or `s[-1]` of an empty string (IndexError) */
    | EmptyString
    /** the single candidate anticodon starts with none of A, G, U, C: "Codons error!" */
    | UnknownFirstBase(anticodon: string)
    /** no branch assigned W before `return W` (UnboundLocalError) */
    | Unassigned(codon: string)
    /** `np.max` of an empty list of W values (ValueError) */
    | EmptyMaximum
    /** geometric mean of an empty list: `reduce` without initial value, `1/0` */
    | EmptyGeometricMean
    /** `tAIDict[codon]` has no such key (KeyError) */
    | MissingWeight(codon: string)
    /** no transcript passed, so the stacked window array is one-dimensional
        and `startPos[:,terms]` is an IndexError */
    | NoTranscriptPassed

  datatype Result<+T> = Ok(value: T) | Err(failure: Failure) {
    predicate IsFailure() {
      Err?
    }

    function PropagateFailure<U>(): Result<U>
      requires Err?
    {
      Err(failure)
    }

    function Extract(): T
      requires Ok?
    {
      value
    }
  }
}
