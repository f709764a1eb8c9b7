/** JSON-RPC 2.0 request bookkeeping: request ids, the request envelope, and
    the classification of replies that carry an `error` member. */
module JsonRpc {
  import opened Json
  import opened Wrappers
  import opened PyOps

  /** The request-id counter of a fresh client; the first id issued is 0. */
  const InitialRequestId: int := -1

  /** JSON-RPC 2.0 "Method not found" (section 5.1 of the JSON-RPC 2.0
      specification); the device answers privileged methods with it when
      the connection is not authenticated. */
  const MethodNotFound: int := -32601

  /** Advances the counter and returns the new id. */
  function NextRequestId(counter: int): (r: (int, int))
    ensures r.0 == counter + 1 && r.1 == r.0
  {
    var id := counter + 1;
    (id, id)
  }

  /** The ids issued by `n` successive calls starting from `counter`: they
      count up from `counter + 1` without gaps. */
  function IssueIds(counter: int, n: nat): (ids: seq<int>)
    ensures |ids| == n
    ensures forall i :: 0 <= i < n ==> ids[i] == counter + 1 + i
    decreases n
  {
    if n == 0 then []
    else
      var (id, next) := NextRequestId(counter);
      [id] + IssueIds(next, n - 1)
  }

  /** Ids issued by one client are strictly increasing, hence pairwise
      distinct, and a fresh client's first id is 0. */
  lemma IdsStrictlyIncrease(counter: int, n: nat)
    ensures forall i, j :: 0 <= i < j < n ==> IssueIds(counter, n)[i] < IssueIds(counter, n)[j]
    ensures n > 0 ==> IssueIds(InitialRequestId, n)[0] == 0
  {
  }

  /** Builds the request envelope. `params` is omitted when the caller passes
      the empty string, as the JSON-RPC 2.0 specification (section 4) allows. */
  function GenerateJsonRpc(methodName: string, params: Json, id: int): (env: Json)
    ensures env.Obj?
    ensures env.fields.Keys == {"id", "jsonrpc", "method"} + (if params == Str("") then {} else {"params"})
    ensures env.fields["jsonrpc"] == Str("2.0")
  {
    if params == Str("") then
      Obj(map["id" := Int(id), "jsonrpc" := Str("2.0"), "method" := Str(methodName)])
    else
      Obj(map["id" := Int(id), "jsonrpc" := Str("2.0"), "method" := Str(methodName), "params" := params])
  }

  /** A request as the device reads it off the wire. */
  datatype Request = Request(id: int, methodName: string, params: Option<Json>)

  /** The device's reading of an envelope: a JSON-RPC 2.0 object with an
      integer id and a string method name, and parameters if present. */
  function RequestOf(env: Json): Option<Request>
  {
    match env
    case Obj(m) =>
      if "id" in m && m["id"].Int? && "method" in m && m["method"].Str? && "jsonrpc" in m && m["jsonrpc"] == Str("2.0") then
        Some(Request(m["id"].i, m["method"].s, if "params" in m then Some(m["params"]) else None))
      else None
    case _ => None
  }

  /** The device reads back exactly the id, method and parameters that were
      sent, with no parameters exactly when the empty string was passed. */
  lemma EnvelopeRoundTrip(methodName: string, params: Json, id: int)
    ensures RequestOf(GenerateJsonRpc(methodName, params, id))
      == Some(Request(id, methodName, if params == Str("") then None else Some(params)))
  {
  }

  /** Classifies a reply: one without `error` is returned unchanged; error
      code -32601 means the connection is not authenticated; any other code
      is a device error carrying the code and message. */
  function Classify(response: Json): (r: Result<Json>)
    ensures r.Success? ==> r.value == response
    ensures response.Obj? ==> (r.Success? <==> "error" !in response.fields)
    ensures response.Obj? && "error" in response.fields ==>
      var err := response.fields["error"];
      err.Obj? && "code" in err.fields && "message" in err.fields ==>
        r == (if err.fields["code"] == Int(MethodNotFound)
              then Failure(NotAuthenticated(err.fields["message"]))
              else Failure(MakerBotError(err.fields["code"], err.fields["message"])))
  {
    var hasError :- In("error", response);
    if !hasError then Success(response)
    else
      var err :- Index(response, "error");
      var code :- Index(err, "code");
      var message :- Index(err, "message");
      if code == Int(MethodNotFound) then Failure(NotAuthenticated(message))
      else Failure(MakerBotError(code, message))
  }
}
