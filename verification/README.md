# CoinJoin-like transaction scanner, modelled in Dafny

This project models the decision logic of a small Rust library. The library talks to a Bitcoin full
node over JSON-RPC and walks a window of recent blocks. It flags each transaction whose input and
output counts both reach a threshold, as a candidate CoinJoin.

The node is abstracted into `Rpc.Node`, a datatype holding one total function `send`. Given a method
name and its parameters, `send` returns the parsed response body. It returns `None` when the HTTP
exchange fails or the body is not JSON. Everything on top of that is modelled as pure functions:

- `json.dfy` (`Json`): the JSON value type. It follows `serde_json::Value`:
  - indexing by a key yields `Null` when the key is missing or the value is not an object;
  - `get` yields nothing on a non-object;
  - `as_u64` accepts only integers in `0 ..= u64::MAX`.
- `rpc.dfy` (`Rpc`): the response envelope (`call`), and the typed accessors `get_latest_height`,
  `get_block` and `get_block_hash`. It also defines the reply and rejection envelopes a node sends,
  used for round-trip lemmas.
- `coinbase.dfy` (`Coinbase`): the coinbase rule.
- `window.dfy` (`Window`): the descending height window, built with saturating subtraction.
- `scanner.dfy` (`Scanner`): `SuspiciousTransaction` and `analyze_blocks`. The scan interleaves
  validation and classification transaction by transaction, as `analyze_blocks` in lib.rs does.
- `properties.dfy` (`ScanProperties`): a second description of the scan. It first decodes the whole
  window into typed blocks and then filters them. The file proves this equal to the scan
  (`AnalyzeMatchesExpected`) and derives the scan's properties from it:
  - soundness and completeness;
  - order;
  - all-or-nothing failure and which error wins;
  - determinism;
  - a worked scenario.
- `ints.dfy` (`Ints`) and `wrappers.dfy` (`Wrappers`): `u64`, `saturating_sub`, `Option` and `Result`.

Errors are the datatype `Rpc.Error`, with three variants:
- `Transport`: the exchange failed;
- `RpcRejected(message)`: the node returned an error object;
- `Malformed(field)`: a field was missing or had the wrong shape. The field is one of `blocks`, the
  block hash, `tx`, `txid`, `vin` or `vout`.

## Model

| member | source | states |
|---|---|---|
| Rpc.Interpret | src/lib.rs:48-51 | the call fails exactly when "error" is an object; the failure carries the "message" string, or "unknown" when it is absent or not a string; otherwise the call yields "result", which is Null when absent |
| Rpc.Call | src/lib.rs:40-51 | a failed exchange is a Transport error, distinct from a node rejection; a received body goes through envelope interpretation |
| Rpc.ReplyRoundTrip | src/lib.rs:48-51 | a node reply with a null error hands back exactly the result it carries |
| Rpc.RejectRoundTrip | src/lib.rs:48-49 | a node rejection surfaces as an RPC error carrying the node's own message |
| Rpc.NonObjectErrorPassesResult | src/lib.rs:48-51 | a missing, null or non-object "error" is not a failure; "result" comes through, or Null when absent |
| Rpc.NonObjectResponseIsNull | src/lib.rs:48-51 | a response body that is not an object yields Null as result |
| Rpc.GetLatestHeight | src/lib.rs:54-57 | call errors propagate unchanged; the accessor succeeds iff the call succeeds and its result has a u64 "blocks", and then returns that very u64; a non-u64 "blocks" fails with a malformed-blocks error |
| Rpc.LatestHeightRoundTrip | src/lib.rs:54-57 | a getblockchaininfo reply whose "blocks" is a u64 height yields that height |
| Rpc.LatestHeightRejectsNonU64 | src/lib.rs:56 | a negative, fractional, too-wide or non-numeric "blocks" is refused |
| Rpc.GetBlockHash | src/lib.rs:63-66 | call errors propagate unchanged; the accessor succeeds iff the call succeeds with a string result, and then returns exactly that string; a non-string result fails with a malformed-hash error |
| Rpc.BlockHashRoundTrip | src/lib.rs:63-66 | a getblockhash reply carrying a string yields that hash |
| Rpc.InterpretAsWritten | src/lib.rs:48-49 | the code as written panics exactly when "error" is an object that has no "message" key |
| Rpc.AsWrittenAgreesWhenItReturns | src/lib.rs:48-51 | whenever the code as written returns, it returns what the corrected interpretation returns |
| Rpc.MissingMessagePanics | src/lib.rs:49 | an error object without a message makes the code as written panic, whereas the corrected reading reports "unknown" |
| Coinbase.IsCoinbase | src/lib.rs:70-80 | a coinbase verdict implies "vin" is an array with exactly one element; on an array "vin" the verdict is the single-input rule |
| Coinbase.MarkerMakesCoinbase | src/lib.rs:72-74 | a single input with a "coinbase" key is coinbase whatever else it holds |
| Coinbase.MissingReferenceMakesCoinbase | src/lib.rs:72-75 | a single input with neither "txid" nor "vout" is coinbase |
| Coinbase.NonObjectInputIsCoinbase | src/lib.rs:73-75 | a single non-object input counts as coinbase, because key lookup on it finds nothing |
| Coinbase.SpendingInputIsNotCoinbase | src/lib.rs:73-75 | a single input that references a previous output and has no marker is not coinbase |
| Coinbase.WrongInputCountIsNotCoinbase | src/lib.rs:72 | zero or two-plus inputs are never coinbase, even when inputs carry the marker |
| Coinbase.NoInputArrayIsNotCoinbase | src/lib.rs:71 | a missing or non-array "vin" is never coinbase |
| Window.Descend | src/lib.rs:93 | the inclusive range hi..=lo reversed has hi-lo+1 elements and its i-th element is hi-i |
| Window.Lowest | src/lib.rs:93 | the lower bound is start-(range-1) when that is non-negative and 0 otherwise, never below 0 |
| Window.Heights | src/lib.rs:93 | the window starts at start_height, ends at the lower bound, has min(range, start_height+1) heights, i-th height is start-i, strictly descending |
| Window.HeightsMembership | src/lib.rs:93 | a height is visited iff it lies between the lower bound and start_height |
| Window.HeightsDistinct | src/lib.rs:93 | no height is visited twice |
| Window.TenBelowHundred | src/lib.rs:93 | start 100, range 10 visits 100 down to 91 |
| Window.ClampedAtGenesis | src/lib.rs:93 | start 3, range 10 visits 3, 2, 1, 0 |
| Scanner.DecodeTx | src/lib.rs:102-104 | a transaction is accepted iff txid is a string and vin and vout are arrays; the decoded fields are those values; the first bad field in the order txid, vin, vout names the error |
| Scanner.DecodedCoinbase | src/lib.rs:103-106 | classifying the decoded inputs agrees with classifying the transaction's JSON |
| Scanner.ScanTxs | src/lib.rs:101-120 | a block's records number at most its transactions; each carries that block's height and hash and reaches both thresholds |
| Scanner.ScanBlock | src/lib.rs:94-98 | a block scan succeeds only if its hash resolved; each record carries the height scanned and the hash the node returned for it |
| Scanner.ScanHeights | src/lib.rs:93-121 | every record's height is one of the scanned heights |
| Scanner.AnalyzeBlocks | src/lib.rs:83-124 | every record's height lies in the window |
| ScanProperties.DecodeTxs | src/lib.rs:101-104 | a transaction list decodes iff every transaction does; the result is element-wise the decoded transactions |
| ScanProperties.FetchBlock | src/lib.rs:94-98 | a fetched block has the requested height and the hash the node reported for it; a failed hash lookup is the block's error |
| ScanProperties.FetchBlocks | src/lib.rs:93-104 | a window is read iff every block in it is read, element-wise in window order |
| ScanProperties.SelectTxs | src/lib.rs:106-119 | selection keeps at most every transaction and stamps each record with the block's height and hash |
| ScanProperties.ScanTxsMatches | src/lib.rs:101-120 | scanning a transaction list transaction by transaction equals decoding the whole list and then filtering it, error for error |
| ScanProperties.ScanBlockMatches | src/lib.rs:94-98 | scanning a block equals fetching it fully and filtering its transactions, error for error |
| ScanProperties.ScanHeightsMatches | src/lib.rs:93-121 | scanning a sequence of heights equals reading all blocks first and then filtering, error for error |
| ScanProperties.AnalyzeMatchesExpected | src/lib.rs:83-124 | the scan equals the decode-then-filter description on every node and every parameter choice |
| ScanProperties.SelectTxsMembership | src/lib.rs:106-119 | a record is selected iff it is the record of a non-coinbase transaction meeting both thresholds |
| ScanProperties.SelectTxsAppend | src/lib.rs:101-119 | selection over a split list is the concatenation of the selections, so records follow transaction order |
| ScanProperties.SelectBlocksMembership | src/lib.rs:93-121 | a record comes out of a block list iff it is the record of a qualifying transaction of one of the blocks |
| ScanProperties.SelectBlocksOrdered | src/lib.rs:93-121 | blocks in strictly descending height give records in non-increasing height |
| ScanProperties.AnalyzeSound | src/lib.rs:106-118 | each record's height is in the window; its hash is the node's hash for that height; it meets both thresholds; it is the record of a non-coinbase transaction of that block, with input and output counts equal to the lengths of vin and vout |
| ScanProperties.AnalyzeComplete | src/lib.rs:101-119 | every non-coinbase transaction meeting both thresholds, in any block of the window, is reported with its height and block hash |
| ScanProperties.AnalyzeOrdered | src/lib.rs:93-119 | records are grouped by block, most recent block first |
| ScanProperties.AnalyzeSucceedsIff | src/lib.rs:94-104 | the scan succeeds iff every block in the window is fully readable; otherwise it returns an error and no records |
| ScanProperties.FetchBlocksFirstError | src/lib.rs:93-98 | reading a sequence of blocks fails with the error of the first unreadable one |
| ScanProperties.AnalyzeFirstError | src/lib.rs:93-104 | the scan's error is that of the highest unreadable height; nothing read before it is returned |
| ScanProperties.MalformedTxAborts | src/lib.rs:101-106 | one transaction without a string txid or array vin/vout, coinbase-shaped or not, in any block of the window fails the scan |
| ScanProperties.MissingTxArrayAborts | src/lib.rs:98 | a block without a "tx" array fails the scan |
| ScanProperties.FetchBlocksDeterministic | src/lib.rs:93-104 | nodes that answer the same hash lookups and block fetches yield the same blocks |
| ScanProperties.AnalyzeDeterministic | src/lib.rs:83-124 | nodes that answer the window's hash lookups and the block fetches alike yield the same scan result |
| ScanProperties.HeightFiftyScenario | src/lib.rs:83-124 | at height 50, a block with a marked coinbase and a 3-in/2-out spend, scanned with range 1 and both thresholds 2, yields exactly one record: the spend, with 3 inputs, 2 outputs and height 50 |

## Left out

- The HTTP transport is left out: the reqwest client, basic authentication, sending the request and
  decoding the body as JSON. These are network I/O in a foreign library. Their failures are the
  `None` case of `Rpc.Node.send`, reported as `Transport`.
- The JSON-RPC 1.0 request body is not built. It is a fixed literal wrapping the method and
  parameters, and the node's `send` receives those two directly.
- `BitcoinClient::new` and the endpoint configuration are left out. They only store the URL and
  credentials used by the transport.
- The async suspension points are left out. The scan is sequential, so it is modelled as plain
  recursion.
- The `println!` progress line and the internal `stats` tally are left out. Neither affects the
  result.
- The error message strings of `Box<dyn Error>` are not kept. Errors are the variants of
  `Rpc.Error`.
- `range == 0` is excluded by `requires range >= 1`. There, `range - 1` underflows an unsigned
  64-bit integer: a panic in debug builds, and in release builds a wrap that scans every height
  down to 0.
- `Rpc.GetBlock` has no contract of its own. It is a single call of `getblock` at verbosity 2 with
  no decision logic. Its effect on the scan is covered by the scan's lemmas.
- JSON numbers keep only the integer-versus-fraction distinction. Floating-point values are not
  modelled, since the code only asks whether a number is an unsigned 64-bit integer.
- An error object without a "message" key: the `unwrap_or("unknown")` fallback at lib.rs:49 shows
  that a missing message was meant to report "unknown"; the code panics instead, as the finding
  below records. The model keeps both: `Rpc.InterpretAsWritten` as written, and `Rpc.Interpret`
  corrected, which the scan uses.

## Findings

| source | as written | input that shows it | evidently intended | confidence | as-written member | corrected member |
|---|---|---|---|---|---|---|
| src/lib.rs:49 | `err["message"]` indexes the error object as a `serde_json::Map`, whose indexing panics on a missing key. The `unwrap_or("unknown")` fallback therefore only covers a message that is present but not a string. | the response `{"error": {"code": -1}}` | an error object without a message fails the call with "unknown" | high (follows from the documented panic of map indexing; not executed) | Rpc.InterpretAsWritten, Rpc.MissingMessagePanics | Rpc.Interpret |
