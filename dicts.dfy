/** Python dictionaries remember the order in which their keys were first
    inserted; `Counter` keys and the `w` dictionary of tAI.py are iterated
    in that order. */
module Dicts {

  /** The key order of a dictionary into which `keys` were inserted one
      after another: first occurrences, in order, without repeats. */
  function KeyOrder(keys: seq<string>): (r: seq<string>)
    ensures forall k :: k in r <==> k in keys
    ensures forall i, j | 0 <= i < j < |r| :: r[i] != r[j]
    ensures |r| <= |keys|
  {
    if keys == [] then []
    else
      var order := KeyOrder(keys[..|keys| - 1]);
      var k := keys[|keys| - 1];
      if k in order then order else order + [k]
  }

  /** Inserting one more key appends it unless it is already present. */
  lemma KeyOrderSnoc(keys: seq<string>, k: string)
    ensures KeyOrder(keys + [k]) == if k in KeyOrder(keys) then KeyOrder(keys) else KeyOrder(keys) + [k]
  {
    assert (keys + [k])[..|keys|] == keys;
  }

  /** KeyOrderSnoc on a prefix of the key list. */
  lemma KeyOrderPrefixStep(keys: seq<string>, i: nat)
    requires i < |keys|
    ensures KeyOrder(keys[..i + 1]) == if keys[i] in KeyOrder(keys[..i]) then KeyOrder(keys[..i]) else KeyOrder(keys[..i]) + [keys[i]]
  {
    assert keys[..i + 1] == keys[..i] + [keys[i]];
    KeyOrderSnoc(keys[..i], keys[i]);
  }
}
