/**
 * Coinbase detection. A coinbase input shows up either with an explicit
 * "coinbase" key or without the "txid"/"vout" reference of an ordinary spend,
 * so both shapes are accepted.
 */
module Coinbase {
  import opened Json

  /** The rule on an input list: exactly one input, of either coinbase shape. */
  predicate IsCoinbaseInputs(vin: seq<Value>)
  {
    |vin| == 1 &&
    (vin[0].Get("coinbase").Some? || (vin[0].Get("txid").None? && vin[0].Get("vout").None?))
  }

  /** The rule on a whole transaction; a missing or non-array "vin" is never coinbase. */
  function IsCoinbase(tx: Value): (b: bool)
    ensures b ==> tx.Index("vin").Arr? && |tx.Index("vin").items| == 1
    ensures tx.Index("vin").Arr? ==> (b <==> IsCoinbaseInputs(tx.Index("vin").items))
  {
    match tx.Index("vin").AsArray()
    case Some(vin) => IsCoinbaseInputs(vin)
    case None => false
  }

  /** One input with a "coinbase" key: coinbase, whatever else the input or transaction holds. */
  lemma MarkerMakesCoinbase(tx: Value, input: Value)
    requires tx.Index("vin") == Arr([input])
    requires input.Get("coinbase").Some?
    ensures IsCoinbase(tx)
  {
  }

  /** One input with neither "txid" nor "vout": coinbase. */
  lemma MissingReferenceMakesCoinbase(tx: Value, input: Value)
    requires tx.Index("vin") == Arr([input])
    requires input.Get("txid").None? && input.Get("vout").None?
    ensures IsCoinbase(tx)
  {
  }

  /** Looking up a key in a non-object finds nothing, so one non-object input counts as coinbase. */
  lemma NonObjectInputIsCoinbase(tx: Value, input: Value)
    requires tx.Index("vin") == Arr([input])
    requires !input.Obj?
    ensures IsCoinbase(tx)
  {
  }

  /** One input that spends a previous output and has no marker: not coinbase. */
  lemma SpendingInputIsNotCoinbase(tx: Value, input: Value)
    requires tx.Index("vin") == Arr([input])
    requires input.Get("coinbase").None?
    requires input.Get("txid").Some? || input.Get("vout").Some?
    ensures !IsCoinbase(tx)
  {
  }

  /** Zero or several inputs: never coinbase, even when every input carries the marker. */
  lemma WrongInputCountIsNotCoinbase(tx: Value, vin: seq<Value>)
    requires tx.Index("vin") == Arr(vin)
    requires |vin| != 1
    ensures !IsCoinbase(tx)
  {
  }

  /** A missing or non-array "vin": not coinbase. */
  lemma NoInputArrayIsNotCoinbase(tx: Value)
    requires !tx.Index("vin").Arr?
    ensures !IsCoinbase(tx)
  {
  }
}
