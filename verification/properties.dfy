/**
 * A second description of the scan (decode the whole window into typed
 * blocks, then filter) proved equal to `Scanner.AnalyzeBlocks`, and the
 * properties of the scan that follow from it.
 */
module ScanProperties {
  import opened Wrappers
  import opened Ints
  import opened Json
  import opened Rpc
  import opened Coinbase
  import opened Window
  import opened Scanner

  // ---------------------------------------------------------------------------
  // Decoding.

  /** Decodes every transaction, failing with the first malformed one. */
  function DecodeTxs(txs: seq<Value>): (r: Result<seq<Tx>, Error>)
    ensures r.Success? <==> forall k :: 0 <= k < |txs| ==> DecodeTx(txs[k]).Success?
    ensures r.Success? ==> |r.value| == |txs|
    ensures r.Success? ==> forall k :: 0 <= k < |txs| ==> DecodeTx(txs[k]) == Success(r.value[k])
    decreases |txs|
  {
    if txs == [] then
      Success([])
    else
      var tx :- DecodeTx(txs[0]);
      var rest :- DecodeTxs(txs[1..]);
      assert forall k :: 1 <= k < |txs| ==> txs[k] == txs[1..][k - 1];
      Success([tx] + rest)
  }

  /** The block at `height`, fully decoded. */
  function FetchBlock(node: Node, height: u64): (r: Result<Block, Error>)
    ensures r.Success? ==> r.value.height == height
    ensures r.Success? ==> GetBlockHash(node, height) == Success(r.value.hash)
    ensures GetBlockHash(node, height).Failure? ==> r == Failure(GetBlockHash(node, height).error)
  {
    var hash :- GetBlockHash(node, height);
    var block :- GetBlock(node, hash);
    var txs :- block.Index("tx").AsArray().ToResult(Malformed(Transactions));
    var decoded :- DecodeTxs(txs);
    Success(Block(height, hash, decoded))
  }

  /** The blocks at the given heights, or the error of the first one that cannot be read. */
  function FetchBlocks(node: Node, heights: seq<u64>): (r: Result<seq<Block>, Error>)
    ensures r.Success? <==> forall k :: 0 <= k < |heights| ==> FetchBlock(node, heights[k]).Success?
    ensures r.Success? ==> |r.value| == |heights|
    ensures r.Success? ==> forall k :: 0 <= k < |heights| ==> FetchBlock(node, heights[k]) == Success(r.value[k])
    decreases |heights|
  {
    if heights == [] then
      Success([])
    else
      var block :- FetchBlock(node, heights[0]);
      var rest :- FetchBlocks(node, heights[1..]);
      assert forall k :: 1 <= k < |heights| ==> heights[k] == heights[1..][k - 1];
      Success([block] + rest)
  }

  // ---------------------------------------------------------------------------
  // Selection.

  /** The records of the qualifying transactions, in transaction order. */
  function SelectTxs(txs: seq<Tx>, height: u64, hash: string, minInputs: nat, minOutputs: nat)
    : (r: seq<SuspiciousTransaction>)
    ensures |r| <= |txs|
    ensures forall k :: 0 <= k < |r| ==> r[k].blockHeight == height && r[k].blockHash == hash
    decreases |txs|
  {
    if txs == [] then
      []
    else
      (if Qualifies(txs[0], minInputs, minOutputs) then [Record(txs[0], height, hash)] else []) +
      SelectTxs(txs[1..], height, hash, minInputs, minOutputs)
  }

  /** The records of every block, block by block. */
  function SelectBlocks(blocks: seq<Block>, minInputs: nat, minOutputs: nat): seq<SuspiciousTransaction>
    decreases |blocks|
  {
    if blocks == [] then
      []
    else
      SelectTxs(blocks[0].txs, blocks[0].height, blocks[0].hash, minInputs, minOutputs) +
      SelectBlocks(blocks[1..], minInputs, minOutputs)
  }

  /** The scan described as: read the whole window, then keep what qualifies. */
  function Expected(node: Node, startHeight: u64, range: u64, minInputs: nat, minOutputs: nat)
    : Result<seq<SuspiciousTransaction>, Error>
    requires range >= 1
  {
    var blocks :- FetchBlocks(node, Heights(startHeight, range));
    Success(SelectBlocks(blocks, minInputs, minOutputs))
  }

  // ---------------------------------------------------------------------------
  // The scan equals its reference description.

  lemma {:induction false} ScanTxsMatches(txs: seq<Value>, height: u64, hash: string, minInputs: nat, minOutputs: nat)
    ensures DecodeTxs(txs).Failure? ==>
              ScanTxs(txs, height, hash, minInputs, minOutputs) == Failure(DecodeTxs(txs).error)
    ensures DecodeTxs(txs).Success? ==>
              ScanTxs(txs, height, hash, minInputs, minOutputs) ==
              Success(SelectTxs(DecodeTxs(txs).value, height, hash, minInputs, minOutputs))
    decreases |txs|
  {
    if txs != [] {
      ScanTxsMatches(txs[1..], height, hash, minInputs, minOutputs);
      if DecodeTx(txs[0]).Success? && DecodeTxs(txs[1..]).Success? {
        var tx := DecodeTx(txs[0]).value;
        var decoded := DecodeTxs(txs[1..]).value;
        var scanned := ScanTxs(txs[1..], height, hash, minInputs, minOutputs).value;
        DecodedCoinbase(txs[0]);
        assert ScanTxs(txs, height, hash, minInputs, minOutputs) ==
               if IsCoinbase(txs[0]) then Success(scanned)
               else if |tx.vin| >= minInputs && |tx.vout| >= minOutputs then
                 Success([Record(tx, height, hash)] + scanned)
               else Success(scanned);
        assert DecodeTxs(txs).value == [tx] + decoded;
        assert ([tx] + decoded)[0] == tx;
        assert ([tx] + decoded)[1..] == decoded;
        assert SelectTxs([tx] + decoded, height, hash, minInputs, minOutputs) ==
               (if Qualifies(tx, minInputs, minOutputs) then [Record(tx, height, hash)] else []) +
               SelectTxs(decoded, height, hash, minInputs, minOutputs);
        assert scanned == SelectTxs(decoded, height, hash, minInputs, minOutputs);
        if Qualifies(tx, minInputs, minOutputs) {
          assert !IsCoinbase(txs[0]);
        } else {
          assert [] + scanned == scanned;
        }
      }
    }
  }

  lemma ScanBlockMatches(node: Node, height: u64, minInputs: nat, minOutputs: nat)
    ensures FetchBlock(node, height).Failure? ==>
              ScanBlock(node, height, minInputs, minOutputs) == Failure(FetchBlock(node, height).error)
    ensures FetchBlock(node, height).Success? ==>
              ScanBlock(node, height, minInputs, minOutputs) ==
              Success(SelectTxs(FetchBlock(node, height).value.txs, height,
                                FetchBlock(node, height).value.hash, minInputs, minOutputs))
  {
    var hash := GetBlockHash(node, height);
    if hash.Success? {
      var block := GetBlock(node, hash.value);
      if block.Success? && block.value.Index("tx").Arr? {
        ScanTxsMatches(block.value.Index("tx").items, height, hash.value, minInputs, minOutputs);
      }
    }
  }

  lemma {:induction false} ScanHeightsMatches(node: Node, heights: seq<u64>, minInputs: nat, minOutputs: nat)
    ensures FetchBlocks(node, heights).Failure? ==>
              ScanHeights(node, heights, minInputs, minOutputs) == Failure(FetchBlocks(node, heights).error)
    ensures FetchBlocks(node, heights).Success? ==>
              ScanHeights(node, heights, minInputs, minOutputs) ==
              Success(SelectBlocks(FetchBlocks(node, heights).value, minInputs, minOutputs))
    decreases |heights|
  {
    if heights != [] {
      ScanBlockMatches(node, heights[0], minInputs, minOutputs);
      ScanHeightsMatches(node, heights[1..], minInputs, minOutputs);
      if FetchBlock(node, heights[0]).Success? && FetchBlocks(node, heights[1..]).Success? {
        var blocks := FetchBlocks(node, heights).value;
        assert blocks == [FetchBlock(node, heights[0]).value] + FetchBlocks(node, heights[1..]).value;
        assert blocks[1..] == FetchBlocks(node, heights[1..]).value;
      }
    }
  }

  /** The scan as written and the decode-then-filter description agree on every node. */
  lemma AnalyzeMatchesExpected(node: Node, startHeight: u64, range: u64, minInputs: nat, minOutputs: nat)
    requires range >= 1
    ensures AnalyzeBlocks(node, startHeight, range, minInputs, minOutputs) ==
            Expected(node, startHeight, range, minInputs, minOutputs)
  {
    ScanHeightsMatches(node, Heights(startHeight, range), minInputs, minOutputs);
  }

  // ---------------------------------------------------------------------------
  // Selection properties.

  /** A record is selected exactly when it is the record of a qualifying transaction. */
  lemma {:induction false} SelectTxsMembership(txs: seq<Tx>, height: u64, hash: string, minInputs: nat, minOutputs: nat, r: SuspiciousTransaction)
    ensures r in SelectTxs(txs, height, hash, minInputs, minOutputs) <==>
            exists tx :: tx in txs && Qualifies(tx, minInputs, minOutputs) && r == Record(tx, height, hash)
    decreases |txs|
  {
    if txs != [] {
      SelectTxsMembership(txs[1..], height, hash, minInputs, minOutputs, r);
      if exists tx :: tx in txs && Qualifies(tx, minInputs, minOutputs) && r == Record(tx, height, hash) {
        var tx :| tx in txs && Qualifies(tx, minInputs, minOutputs) && r == Record(tx, height, hash);
        if tx != txs[0] {
          assert tx in txs[1..];
        }
      }
    }
  }

  /** Selection commutes with splitting the transaction list: records keep transaction order. */
  lemma {:induction false} SelectTxsAppend(a: seq<Tx>, b: seq<Tx>, height: u64, hash: string, minInputs: nat, minOutputs: nat)
    ensures SelectTxs(a + b, height, hash, minInputs, minOutputs) ==
            SelectTxs(a, height, hash, minInputs, minOutputs) + SelectTxs(b, height, hash, minInputs, minOutputs)
    decreases |a|
  {
    if a == [] {
      assert a + b == b;
    } else {
      assert (a + b)[0] == a[0];
      assert (a + b)[1..] == a[1..] + b;
      SelectTxsAppend(a[1..], b, height, hash, minInputs, minOutputs);
    }
  }

  lemma {:induction false} SelectBlocksMembership(blocks: seq<Block>, minInputs: nat, minOutputs: nat, r: SuspiciousTransaction)
    ensures r in SelectBlocks(blocks, minInputs, minOutputs) <==>
            exists b, tx :: b in blocks && tx in b.txs && Qualifies(tx, minInputs, minOutputs) &&
                            r == Record(tx, b.height, b.hash)
    decreases |blocks|
  {
    if blocks != [] {
      var b0 := blocks[0];
      SelectTxsMembership(b0.txs, b0.height, b0.hash, minInputs, minOutputs, r);
      SelectBlocksMembership(blocks[1..], minInputs, minOutputs, r);
      if exists b, tx :: b in blocks && tx in b.txs && Qualifies(tx, minInputs, minOutputs) &&
                         r == Record(tx, b.height, b.hash) {
        var b, tx :| b in blocks && tx in b.txs && Qualifies(tx, minInputs, minOutputs) &&
                     r == Record(tx, b.height, b.hash);
        if b != b0 {
          assert b in blocks[1..];
        }
      }
    }
  }

  /** Blocks given in strictly descending height yield records in non-increasing height. */
  lemma {:induction false} SelectBlocksOrdered(blocks: seq<Block>, minInputs: nat, minOutputs: nat)
    requires forall i, j :: 0 <= i < j < |blocks| ==> blocks[i].height > blocks[j].height
    ensures forall i, j :: 0 <= i < j < |SelectBlocks(blocks, minInputs, minOutputs)| ==>
              SelectBlocks(blocks, minInputs, minOutputs)[i].blockHeight >=
              SelectBlocks(blocks, minInputs, minOutputs)[j].blockHeight
    decreases |blocks|
  {
    if blocks != [] {
      var b0 := blocks[0];
      var first := SelectTxs(b0.txs, b0.height, b0.hash, minInputs, minOutputs);
      var rest := SelectBlocks(blocks[1..], minInputs, minOutputs);
      SelectBlocksOrdered(blocks[1..], minInputs, minOutputs);
      forall k | 0 <= k < |rest|
        ensures rest[k].blockHeight < b0.height
      {
        SelectBlocksMembership(blocks[1..], minInputs, minOutputs, rest[k]);
      }
      assert SelectBlocks(blocks, minInputs, minOutputs) == first + rest;
    }
  }

  // ---------------------------------------------------------------------------
  // Properties of the scan.

  /** Soundness: every record comes from a qualifying transaction of a block in the window. */
  lemma AnalyzeSound(node: Node, startHeight: u64, range: u64, minInputs: nat, minOutputs: nat,
                     records: seq<SuspiciousTransaction>, r: SuspiciousTransaction)
    requires range >= 1
    requires AnalyzeBlocks(node, startHeight, range, minInputs, minOutputs) == Success(records)
    requires r in records
    ensures Lowest(startHeight, range) <= r.blockHeight <= startHeight
    ensures GetBlockHash(node, r.blockHeight) == Success(r.blockHash)
    ensures r.inputCount >= minInputs && r.outputCount >= minOutputs
    ensures FetchBlock(node, r.blockHeight).Success?
    ensures exists tx :: tx in FetchBlock(node, r.blockHeight).value.txs &&
                         !IsCoinbaseInputs(tx.vin) &&
                         r == SuspiciousTransaction(tx.txid, r.blockHeight, r.blockHash, |tx.vin|, |tx.vout|)
  {
    var heights := Heights(startHeight, range);
    AnalyzeMatchesExpected(node, startHeight, range, minInputs, minOutputs);
    var blocks := FetchBlocks(node, heights).value;
    SelectBlocksMembership(blocks, minInputs, minOutputs, r);
    var b, tx :| b in blocks && tx in b.txs && Qualifies(tx, minInputs, minOutputs) &&
                 r == Record(tx, b.height, b.hash);
    var k :| 0 <= k < |blocks| && blocks[k] == b;
    assert FetchBlock(node, heights[k]) == Success(b);
    HeightsMembership(startHeight, range, heights[k]);
  }

  /** Completeness: every qualifying transaction of every block in the window is reported. */
  lemma AnalyzeComplete(node: Node, startHeight: u64, range: u64, minInputs: nat, minOutputs: nat,
                        records: seq<SuspiciousTransaction>, height: u64, tx: Tx)
    requires range >= 1
    requires AnalyzeBlocks(node, startHeight, range, minInputs, minOutputs) == Success(records)
    requires Lowest(startHeight, range) <= height <= startHeight
    requires FetchBlock(node, height).Success? && tx in FetchBlock(node, height).value.txs
    requires Qualifies(tx, minInputs, minOutputs)
    ensures Record(tx, height, FetchBlock(node, height).value.hash) in records
  {
    var heights := Heights(startHeight, range);
    AnalyzeMatchesExpected(node, startHeight, range, minInputs, minOutputs);
    var blocks := FetchBlocks(node, heights).value;
    var k := startHeight - height;
    assert heights[k] == height;
    var b := blocks[k];
    assert FetchBlock(node, height) == Success(b);
    SelectBlocksMembership(blocks, minInputs, minOutputs, Record(tx, height, b.hash));
  }

  /** Records come grouped by block, most recent block first. */
  lemma AnalyzeOrdered(node: Node, startHeight: u64, range: u64, minInputs: nat, minOutputs: nat,
                       records: seq<SuspiciousTransaction>)
    requires range >= 1
    requires AnalyzeBlocks(node, startHeight, range, minInputs, minOutputs) == Success(records)
    ensures forall i, j :: 0 <= i < j < |records| ==> records[i].blockHeight >= records[j].blockHeight
  {
    var heights := Heights(startHeight, range);
    AnalyzeMatchesExpected(node, startHeight, range, minInputs, minOutputs);
    var blocks := FetchBlocks(node, heights).value;
    forall i, j | 0 <= i < j < |blocks|
      ensures blocks[i].height > blocks[j].height
    {
      assert FetchBlock(node, heights[i]) == Success(blocks[i]);
      assert FetchBlock(node, heights[j]) == Success(blocks[j]);
    }
    SelectBlocksOrdered(blocks, minInputs, minOutputs);
  }

  /** All or nothing: the scan succeeds exactly when every block of the window can be read. */
  lemma AnalyzeSucceedsIff(node: Node, startHeight: u64, range: u64, minInputs: nat, minOutputs: nat)
    requires range >= 1
    ensures AnalyzeBlocks(node, startHeight, range, minInputs, minOutputs).Success? <==>
            forall h: u64 :: Lowest(startHeight, range) <= h <= startHeight ==> FetchBlock(node, h).Success?
  {
    var heights := Heights(startHeight, range);
    AnalyzeMatchesExpected(node, startHeight, range, minInputs, minOutputs);
    if forall k :: 0 <= k < |heights| ==> FetchBlock(node, heights[k]).Success? {
      forall h: u64 | Lowest(startHeight, range) <= h <= startHeight
        ensures FetchBlock(node, h).Success?
      {
        assert heights[startHeight - h] == h;
      }
    }
  }

  lemma {:induction false} FetchBlocksFirstError(node: Node, heights: seq<u64>, k: nat)
    requires k < |heights| && FetchBlock(node, heights[k]).Failure?
    requires forall j :: 0 <= j < k ==> FetchBlock(node, heights[j]).Success?
    ensures FetchBlocks(node, heights) == Failure(FetchBlock(node, heights[k]).error)
    decreases k
  {
    if k > 0 {
      var rest := heights[1..];
      assert rest[k - 1] == heights[k];
      forall j | 0 <= j < k - 1
        ensures FetchBlock(node, rest[j]).Success?
      {
        assert rest[j] == heights[j + 1];
      }
      FetchBlocksFirstError(node, rest, k - 1);
      assert FetchBlock(node, heights[0]).Success?;
    }
  }

  /**
   * The error reported is that of the most recent unreadable block; nothing of
   * the blocks read before it is returned.
   */
  lemma AnalyzeFirstError(node: Node, startHeight: u64, range: u64, minInputs: nat, minOutputs: nat, height: u64)
    requires range >= 1
    requires Lowest(startHeight, range) <= height <= startHeight
    requires FetchBlock(node, height).Failure?
    requires forall h: u64 :: height < h <= startHeight ==> FetchBlock(node, h).Success?
    ensures AnalyzeBlocks(node, startHeight, range, minInputs, minOutputs) ==
            Failure(FetchBlock(node, height).error)
  {
    var heights := Heights(startHeight, range);
    var k := startHeight - height;
    assert heights[k] == height;
    forall j | 0 <= j < k
      ensures FetchBlock(node, heights[j]).Success?
    {
      assert height < heights[j] <= startHeight;
    }
    FetchBlocksFirstError(node, heights, k);
    AnalyzeMatchesExpected(node, startHeight, range, minInputs, minOutputs);
  }

  /**
   * One malformed transaction, coinbase or not, in a block of the window
   * makes the whole scan fail.
   */
  lemma MalformedTxAborts(node: Node, startHeight: u64, range: u64, minInputs: nat, minOutputs: nat,
                          height: u64, hash: string, block: Value, k: nat)
    requires range >= 1
    requires Lowest(startHeight, range) <= height <= startHeight
    requires GetBlockHash(node, height) == Success(hash)
    requires GetBlock(node, hash) == Success(block)
    requires block.Index("tx").Arr? && k < |block.Index("tx").items|
    requires DecodeTx(block.Index("tx").items[k]).Failure?
    ensures AnalyzeBlocks(node, startHeight, range, minInputs, minOutputs).Failure?
  {
    assert DecodeTxs(block.Index("tx").items).Failure?;
    assert FetchBlock(node, height).Failure?;
    AnalyzeSucceedsIff(node, startHeight, range, minInputs, minOutputs);
  }

  /** A block whose payload has no "tx" array makes the whole scan fail. */
  lemma MissingTxArrayAborts(node: Node, startHeight: u64, range: u64, minInputs: nat, minOutputs: nat,
                             height: u64, hash: string, block: Value)
    requires range >= 1
    requires Lowest(startHeight, range) <= height <= startHeight
    requires GetBlockHash(node, height) == Success(hash)
    requires GetBlock(node, hash) == Success(block)
    requires !block.Index("tx").Arr?
    ensures AnalyzeBlocks(node, startHeight, range, minInputs, minOutputs).Failure?
  {
    assert FetchBlock(node, height).Failure?;
    AnalyzeSucceedsIff(node, startHeight, range, minInputs, minOutputs);
  }

  lemma {:induction false} FetchBlocksDeterministic(n1: Node, n2: Node, heights: seq<u64>)
    requires forall h :: h in heights ==> GetBlockHash(n1, h) == GetBlockHash(n2, h)
    requires forall hash :: GetBlock(n1, hash) == GetBlock(n2, hash)
    ensures FetchBlocks(n1, heights) == FetchBlocks(n2, heights)
    decreases |heights|
  {
    if heights != [] {
      assert GetBlockHash(n1, heights[0]) == GetBlockHash(n2, heights[0]);
      FetchBlocksDeterministic(n1, n2, heights[1..]);
    }
  }

  /**
   * Two nodes that answer the scan's hash lookups for the window and its block
   * fetches alike give the same result: the scan depends on nothing else.
   */
  lemma AnalyzeDeterministic(n1: Node, n2: Node, startHeight: u64, range: u64, minInputs: nat, minOutputs: nat)
    requires range >= 1
    requires forall h: u64 :: Lowest(startHeight, range) <= h <= startHeight ==> GetBlockHash(n1, h) == GetBlockHash(n2, h)
    requires forall hash :: GetBlock(n1, hash) == GetBlock(n2, hash)
    ensures AnalyzeBlocks(n1, startHeight, range, minInputs, minOutputs) ==
            AnalyzeBlocks(n2, startHeight, range, minInputs, minOutputs)
  {
    var heights := Heights(startHeight, range);
    forall h | h in heights
      ensures GetBlockHash(n1, h) == GetBlockHash(n2, h)
    {
      HeightsMembership(startHeight, range, h);
    }
    FetchBlocksDeterministic(n1, n2, heights);
    AnalyzeMatchesExpected(n1, startHeight, range, minInputs, minOutputs);
    AnalyzeMatchesExpected(n2, startHeight, range, minInputs, minOutputs);
  }
  // ---------------------------------------------------------------------------
  // A worked scenario: one block holding a coinbase and a 3-in/2-out spend.

  function Spend(txid: string, index: int): Value
  {
    Obj(map["txid" := Str(txid), "vout" := Num(Int(index))])
  }

  function CoinbaseTxJson(): Value
  {
    Obj(map["txid" := Str("cb"),
            "vin" := Arr([Obj(map["coinbase" := Str("0332")])]),
            "vout" := Arr([Obj(map[])])])
  }

  function OrdinaryTxJson(): Value
  {
    Obj(map["txid" := Str("mix"),
            "vin" := Arr([Spend("a", 0), Spend("b", 1), Spend("c", 2)]),
            "vout" := Arr([Obj(map[]), Obj(map[])])])
  }

  lemma CoinbaseTxReads()
    ensures DecodeTx(CoinbaseTxJson()).Success?
    ensures IsCoinbase(CoinbaseTxJson())
  {
    var input := Obj(map["coinbase" := Str("0332")]);
    assert CoinbaseTxJson().Index("vin") == Arr([input]);
    assert input.Get("coinbase").Some?;
  }

  lemma OrdinaryTxReads()
    ensures DecodeTx(OrdinaryTxJson()) ==
            Success(Tx("mix", [Spend("a", 0), Spend("b", 1), Spend("c", 2)], [Obj(map[]), Obj(map[])]))
    ensures !IsCoinbase(OrdinaryTxJson())
  {
    assert OrdinaryTxJson().Index("txid") == Str("mix");
    assert OrdinaryTxJson().Index("vin") == Arr([Spend("a", 0), Spend("b", 1), Spend("c", 2)]);
    assert OrdinaryTxJson().Index("vout") == Arr([Obj(map[]), Obj(map[])]);
  }

  lemma OrdinaryTxScan(hash: string)
    ensures ScanTxs([OrdinaryTxJson()], 50, hash, 2, 2) == Success([SuspiciousTransaction("mix", 50, hash, 3, 2)])
  {
    OrdinaryTxReads();
    var tx := DecodeTx(OrdinaryTxJson()).value;
    assert |tx.vin| == 3 && |tx.vout| == 2;
    assert [OrdinaryTxJson()][1..] == [];
    assert ScanTxs([], 50, hash, 2, 2) == Success([]);
    assert Record(tx, 50, hash) == SuspiciousTransaction("mix", 50, hash, 3, 2);
    assert [Record(tx, 50, hash)] + [] == [SuspiciousTransaction("mix", 50, hash, 3, 2)];
  }

  lemma ScenarioTxsScan(hash: string)
    ensures ScanTxs([CoinbaseTxJson(), OrdinaryTxJson()], 50, hash, 2, 2) ==
            Success([SuspiciousTransaction("mix", 50, hash, 3, 2)])
  {
    CoinbaseTxReads();
    OrdinaryTxScan(hash);
    assert [CoinbaseTxJson(), OrdinaryTxJson()][1..] == [OrdinaryTxJson()];
  }

  /** Scanning the single block at height 50 with both thresholds at 2 flags only the spend. */
  lemma HeightFiftyScenario(node: Node, hash: string)
    requires node.send("getblockhash", [Num(Int(50))]) == Some(Reply(Str(hash)))
    requires node.send("getblock", [Str(hash), Num(Int(2))]) ==
             Some(Reply(Obj(map["hash" := Str(hash), "tx" := Arr([CoinbaseTxJson(), OrdinaryTxJson()])])))
    ensures AnalyzeBlocks(node, 50, 1, 2, 2) == Success([SuspiciousTransaction("mix", 50, hash, 3, 2)])
  {
    var block := Obj(map["hash" := Str(hash), "tx" := Arr([CoinbaseTxJson(), OrdinaryTxJson()])]);
    var found := [SuspiciousTransaction("mix", 50, hash, 3, 2)];
    BlockHashRoundTrip(node, 50, hash);
    ReplyRoundTrip(node, "getblock", [Str(hash), Num(Int(2))], block);
    assert block.Index("tx") == Arr([CoinbaseTxJson(), OrdinaryTxJson()]);
    ScenarioTxsScan(hash);
    assert ScanBlock(node, 50, 2, 2) == Success(found);
    assert Heights(50, 1) == [50];
    assert [50][1..] == [];
    assert ScanHeights(node, [50], 2, 2) == Success(found + []);
  }
}
