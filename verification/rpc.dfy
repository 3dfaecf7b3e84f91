/**
 * The node client: one generic JSON-RPC call and the typed accessors built on it.
 * The HTTP transport (request body, basic authentication, sending, decoding the
 * body as JSON) is abstracted into the node's `send` function.
 */
module Rpc {
  import opened Wrappers
  import opened Ints
  import opened Json

  /** The response field an accessor or the scanner could not read. */
  datatype Field = Blocks | BlockHash | Transactions | Txid | Vin | Vout

  datatype Error =
    | Transport                    // the request could not be completed or its body was not JSON
    | RpcRejected(message: string) // the node answered with an error object
    | Malformed(field: Field)      // a field was missing or had the wrong shape

  /**
   * The node as seen through the transport: the parsed response body for a
   * method and its parameters, or None when the exchange failed.
   */
  datatype Node = Node(send: (string, seq<Value>) -> Option<Value>)

  /** The text carried by a node error object, "unknown" when it has none. */
  function ErrorMessage(err: map<string, Value>): (m: string)
    ensures "message" in err && err["message"].Str? ==> m == err["message"].s
    ensures "message" !in err ==> m == "unknown"
    ensures "message" in err && !err["message"].Str? ==> m == "unknown"
  {
    if "message" in err && err["message"].Str? then err["message"].s else "unknown"
  }

  /**
   * Reads a response envelope: an object-valued "error" fails the call,
   * anything else (absent, null, a string, ...) lets "result" through.
   */
  function Interpret(response: Value): (r: Result<Value, Error>)
    ensures r.Failure? <==> response.Get("error").Some? && response.Get("error").value.Obj?
    ensures r.Failure? ==> r.error == RpcRejected(ErrorMessage(response.Get("error").value.fields))
    ensures r.Success? ==> r.value == response.Index("result")
  {
    match response.Get("error")
    case Some(Obj(err)) => Failure(RpcRejected(ErrorMessage(err)))
    case _ => Success(response.Index("result"))
  }

  function Call(node: Node, rpcMethod: string, params: seq<Value>): (r: Result<Value, Error>)
    ensures node.send(rpcMethod, params).None? ==> r == Failure(Transport)
    ensures node.send(rpcMethod, params).Some? ==> r == Interpret(node.send(rpcMethod, params).value)
  {
    match node.send(rpcMethod, params)
    case None => Failure(Transport)
    case Some(response) => Interpret(response)
  }

  /** The chain height: the "blocks" field of getblockchaininfo. */
  function GetLatestHeight(node: Node): (r: Result<u64, Error>)
    ensures Call(node, "getblockchaininfo", []).Failure? ==>
              r == Failure(Call(node, "getblockchaininfo", []).error)
    ensures r.Success? ==>
              Call(node, "getblockchaininfo", []) == Success(Call(node, "getblockchaininfo", []).value) &&
              Call(node, "getblockchaininfo", []).value.Index("blocks") == Num(Int(r.value))
    ensures Call(node, "getblockchaininfo", []).Success? &&
            Call(node, "getblockchaininfo", []).value.Index("blocks").AsU64().None? ==>
              r == Failure(Malformed(Blocks))
    ensures r.Success? <==>
              Call(node, "getblockchaininfo", []).Success? &&
              Call(node, "getblockchaininfo", []).value.Index("blocks").AsU64().Some?
  {
    var result :- Call(node, "getblockchaininfo", []);
    result.Index("blocks").AsU64().ToResult(Malformed(Blocks))
  }

  /** The full block (verbosity 2) with the given hash, as untyped JSON. */
  function GetBlock(node: Node, hash: string): Result<Value, Error>
  {
    Call(node, "getblock", [Str(hash), Num(Int(2))])
  }

  /** The hash of the block at `height`, which must come back as a string. */
  function GetBlockHash(node: Node, height: u64): (r: Result<string, Error>)
    ensures Call(node, "getblockhash", [Num(Int(height))]).Failure? ==>
              r == Failure(Call(node, "getblockhash", [Num(Int(height))]).error)
    ensures r.Success? ==> Call(node, "getblockhash", [Num(Int(height))]) == Success(Str(r.value))
    ensures Call(node, "getblockhash", [Num(Int(height))]).Success? &&
            !Call(node, "getblockhash", [Num(Int(height))]).value.Str? ==>
              r == Failure(Malformed(BlockHash))
    ensures r.Success? <==>
              Call(node, "getblockhash", [Num(Int(height))]).Success? &&
              Call(node, "getblockhash", [Num(Int(height))]).value.Str?
  {
    var result :- Call(node, "getblockhash", [Num(Int(height))]);
    result.AsStr().ToResult(Malformed(BlockHash))
  }

  // The envelopes a Bitcoin node sends back for JSON-RPC 1.0 requests.

  /** A successful reply carrying `result`. */
  function Reply(result: Value): Value
  {
    Obj(map["result" := result, "error" := Null, "id" := Str("1")])
  }

  /** A rejected request, with the node's error code and message. */
  function Reject(code: int, message: string): Value
  {
    Obj(map["result" := Null,
             "error" := Obj(map["code" := Num(Int(code)), "message" := Str(message)]),
             "id" := Str("1")])
  }

  lemma ReplyRoundTrip(node: Node, rpcMethod: string, params: seq<Value>, result: Value)
    requires node.send(rpcMethod, params) == Some(Reply(result))
    ensures Call(node, rpcMethod, params) == Success(result)
  {
  }

  lemma RejectRoundTrip(node: Node, rpcMethod: string, params: seq<Value>, code: int, message: string)
    requires node.send(rpcMethod, params) == Some(Reject(code, message))
    ensures Call(node, rpcMethod, params) == Failure(RpcRejected(message))
  {
  }

  /** A null or non-object "error" is no failure; a missing "result" reads as Null. */
  lemma NonObjectErrorPassesResult(response: Value)
    requires response.Get("error").None? || !response.Get("error").value.Obj?
    ensures Interpret(response).Success?
    ensures response.Get("result").None? ==> Interpret(response) == Success(Null)
    ensures response.Get("result").Some? ==> Interpret(response) == Success(response.Get("result").value)
  {
  }

  /** A body that is not an object at all has neither error nor result. */
  lemma NonObjectResponseIsNull(response: Value)
    requires !response.Obj?
    ensures Interpret(response) == Success(Null)
  {
  }

  lemma BlockHashRoundTrip(node: Node, height: u64, hash: string)
    requires node.send("getblockhash", [Num(Int(height))]) == Some(Reply(Str(hash)))
    ensures GetBlockHash(node, height) == Success(hash)
  {
    ReplyRoundTrip(node, "getblockhash", [Num(Int(height))], Str(hash));
  }

  lemma LatestHeightRoundTrip(node: Node, info: map<string, Value>, height: u64)
    requires node.send("getblockchaininfo", []) == Some(Reply(Obj(info["blocks" := Num(Int(height))])))
    ensures GetLatestHeight(node) == Success(height)
  {
    ReplyRoundTrip(node, "getblockchaininfo", [], Obj(info["blocks" := Num(Int(height))]));
  }

  /** A height the node reports as negative, fractional or too wide is refused. */
  lemma LatestHeightRejectsNonU64(node: Node, info: map<string, Value>, blocks: Value)
    requires !(blocks.Num? && blocks.n.Int? && 0 <= blocks.n.value <= U64_MAX)
    requires node.send("getblockchaininfo", []) == Some(Reply(Obj(info["blocks" := blocks])))
    ensures GetLatestHeight(node) == Failure(Malformed(Blocks))
  {
    ReplyRoundTrip(node, "getblockchaininfo", [], Obj(info["blocks" := blocks]));
  }

  // How lib.rs:48-49 actually reads the error object. `err` there is a map,
  // not a JSON value, and indexing a map by a missing key panics instead of
  // yielding Null, so the "unknown" fallback only covers a non-string message.

  datatype Completion = Panicked | Completed(result: Result<Value, Error>)

  function InterpretAsWritten(response: Value): (c: Completion)
    ensures c.Panicked? <==>
              response.Get("error").Some? && response.Get("error").value.Obj? &&
              "message" !in response.Get("error").value.fields
  {
    match response.Get("error")
    case Some(Obj(err)) =>
      if "message" in err then
        Completed(Failure(RpcRejected(if err["message"].Str? then err["message"].s else "unknown")))
      else
        Panicked
    case _ => Completed(Success(response.Index("result")))
  }

  /** Whenever the code as written returns, it returns what Interpret returns. */
  lemma AsWrittenAgreesWhenItReturns(response: Value)
    requires InterpretAsWritten(response).Completed?
    ensures InterpretAsWritten(response).result == Interpret(response)
  {
  }

  /** An error object without a message: the code as written panics, Interpret reports "unknown". */
  lemma MissingMessagePanics()
    ensures InterpretAsWritten(Obj(map["error" := Obj(map["code" := Num(Int(-1))])])) == Panicked
    ensures Interpret(Obj(map["error" := Obj(map["code" := Num(Int(-1))])])) == Failure(RpcRejected("unknown"))
  {
  }
}
