/** The client object: its request counter, the reader thread's tables, the
    pairing code and the identity read at handshake, and the flows built on
    one JSON-RPC round trip. The socket, the FCGI transport and the clock
    become parameters: `inbound` is what the reader thread has dispatched by
    the time the caller looks for its reply, `tokenReply` and the pairing
    polls are the decoded FCGI replies. */
module Client {
  import opened Json
  import opened Wrappers
  import opened PyOps
  import opened Dispatch
  import opened JsonRpc
  import opened Auth
  import opened Status
  import opened Camera

  /** The state of one client. */
  datatype Makerbot = Makerbot(
    requestId: int,
    tables: Tables,
    authCode: Json,
    info: Attrs,
    jsonrpcAuthenticated: bool)

  /** The parameters sent with the handshake. */
  const DefaultParams: Json := Obj(map["username" := Str("conveyor"), "host_version" := Str("1.0")])

  /** A client as constructed (without connecting): no request issued yet,
      empty tables, identity attributes unset, not authenticated. */
  function New(authCode: Json): (bot: Makerbot)
    ensures NextRequestId(bot.requestId).0 == 0
    ensures bot.tables.responses == map[] && bot.tables.unsolicited == []
    ensures forall a :: a in HandshakeFields ==> a in bot.info && bot.info[a] == Null
    ensures !bot.jsonrpcAuthenticated && bot.authCode == authCode
  {
    Makerbot(InitialRequestId, Tables(map[], []), authCode, InfoDefaults, false)
  }

  /** The client after an operation, the requests it wrote to the socket,
      and the operation's outcome. */
  datatype Call<T> = Call(bot: Makerbot, sent: seq<Json>, result: Result<T>)

  /** One request/response round trip: take the next id, send the
      envelope, let the reader thread dispatch `inbound`, then take the
      reply stored under the id. No reply means the wait returned None and
      the `'error' in` test on it raises TypeError. */
  function RpcRequestResponse(bot: Makerbot, methodName: string, params: Json, inbound: seq<Json>): (r: Call<Json>)
    ensures r.bot.requestId == bot.requestId + 1
    ensures |r.sent| == 1
    ensures RequestOf(r.sent[0]) == Some(Request(bot.requestId + 1, methodName, if params == Str("") then None else Some(params)))
    ensures r.bot.authCode == bot.authCode && r.bot.info == bot.info
    ensures r.bot.jsonrpcAuthenticated == bot.jsonrpcAuthenticated
    ensures KInt(bot.requestId + 1) !in r.bot.tables.responses
    ensures StoresObjects(bot.tables) ==> StoresObjects(r.bot.tables)
    ensures StoresObjects(bot.tables) && r.result.Success? ==>
      r.result.value.Obj? && "error" !in r.result.value.fields
  {
    var (id, counter) := NextRequestId(bot.requestId);
    var env := GenerateJsonRpc(methodName, params, id);
    EnvelopeRoundTrip(methodName, params, id);
    var d := DispatchAll(bot.tables, inbound);
    var (reply, tables) := WaitForResponse(d.tables, id);
    var bot' := bot.(requestId := counter, tables := tables);
    match reply
    case None => Call(bot', [env], Failure(Fault(TypeError)))
    case Some(response) => Call(bot', [env], Classify(response))
  }

  /** When the reader thread dispatched everything and the device's reply to
      this request is among the messages, the caller gets that reply,
      classified, and the reply leaves the table. */
  lemma RpcDeliversReply(bot: Makerbot, methodName: string, params: Json, inbound: seq<Json>)
    requires Routable(inbound) && KInt(bot.requestId + 1) in ResponsesOf(inbound)
    ensures var r := RpcRequestResponse(bot, methodName, params, inbound);
      && r.result == Classify(ResponsesOf(inbound)[KInt(bot.requestId + 1)])
      && r.bot.tables.responses == (bot.tables.responses + ResponsesOf(inbound)) - {KInt(bot.requestId + 1)}
      && r.bot.tables.unsolicited == bot.tables.unsolicited + UnsolicitedOf(inbound)
  {
  }

  /** With no reply under the request's id, the call raises TypeError and
      the tables keep everything dispatched. */
  lemma RpcWithoutReply(bot: Makerbot, methodName: string, params: Json, inbound: seq<Json>)
    requires Routable(inbound)
    requires KInt(bot.requestId + 1) !in bot.tables.responses && KInt(bot.requestId + 1) !in ResponsesOf(inbound)
    ensures var r := RpcRequestResponse(bot, methodName, params, inbound);
      && r.result == Failure(Fault(TypeError))
      && r.bot.tables == Tables(bot.tables.responses + ResponsesOf(inbound), bot.tables.unsolicited + UnsolicitedOf(inbound))
  {
  }

  /** The handshake: send the default parameters and, on a reply, overwrite
      the identity attributes from its `result`. */
  function DoHandshake(bot: Makerbot, inbound: seq<Json>): (r: Call<Json>)
    ensures |r.sent| == 1
    ensures RequestOf(r.sent[0]) == Some(Request(bot.requestId + 1, "handshake", Some(DefaultParams)))
    ensures r.result.Failure? ==> r.bot.info == bot.info
    ensures r.result.Success? ==> Success(r.bot.info) == HandshakeInfo(bot.info, r.result.value)
    ensures r.bot.authCode == bot.authCode && r.bot.jsonrpcAuthenticated == bot.jsonrpcAuthenticated
    ensures var c := RpcRequestResponse(bot, "handshake", DefaultParams, inbound);
      c.result.Failure? ==> r == c
    ensures var c := RpcRequestResponse(bot, "handshake", DefaultParams, inbound);
      c.result.Success? && HandshakeInfo(bot.info, c.result.value).Success? ==>
        r == Call(c.bot.(info := HandshakeInfo(bot.info, c.result.value).value), c.sent, c.result)
    ensures var c := RpcRequestResponse(bot, "handshake", DefaultParams, inbound);
      c.result.Success? && HandshakeInfo(bot.info, c.result.value).Failure? ==>
        r == Call(c.bot, c.sent, Failure(HandshakeInfo(bot.info, c.result.value).error))
  {
    var call := RpcRequestResponse(bot, "handshake", DefaultParams, inbound);
    match call.result
    case Failure(e) => call
    case Success(response) =>
      match HandshakeInfo(bot.info, response)
      case Failure(e) => Call(call.bot, call.sent, Failure(e))
      case Success(info) => Call(call.bot.(info := info), call.sent, Success(response))
  }

  /** A handshake answered with a non-empty `result` dictionary records every
      handshake attribute from it, Null for the ones it lacks. */
  lemma HandshakeRecordsIdentity(bot: Makerbot, inbound: seq<Json>, fields: map<string, Json>, result: map<string, Json>)
    requires Routable(inbound)
    requires KInt(bot.requestId + 1) in ResponsesOf(inbound)
    requires ResponsesOf(inbound)[KInt(bot.requestId + 1)] == Obj(fields)
    requires "error" !in fields && "result" in fields && fields["result"] == Obj(result) && |result| > 0
    ensures var r := DoHandshake(bot, inbound);
      && r.result == Success(Obj(fields))
      && forall a :: a in HandshakeFields ==> a in r.bot.info && r.bot.info[a] == (if a in result then result[a] else Null)
  {
    RpcDeliversReply(bot, "handshake", DefaultParams, inbound);
    GetOverlayCovers(bot.info, HandshakeFields, result);
  }

  /** Asks for the machine's state (no parameters) and decodes the reply. */
  function GetSystemInformation(bot: Makerbot, inbound: seq<Json>): (r: Call<BotState>)
    ensures |r.sent| == 1
    ensures RequestOf(r.sent[0]) == Some(Request(bot.requestId + 1, "get_system_information", None))
    ensures r.bot == RpcRequestResponse(bot, "get_system_information", Str(""), inbound).bot
    ensures var reply := RpcRequestResponse(bot, "get_system_information", Str(""), inbound).result;
      reply.Success? ==> r.result == DecodeStatus(reply.value)
    ensures var reply := RpcRequestResponse(bot, "get_system_information", Str(""), inbound).result;
      reply.Failure? ==> r.result == Failure(reply.error)
  {
    var call := RpcRequestResponse(bot, "get_system_information", Str(""), inbound);
    match call.result
    case Failure(e) => Call(call.bot, call.sent, Failure(e))
    case Success(response) => Call(call.bot, call.sent, DecodeStatus(response))
  }

  /** Turns off the build-plate check; the reply is returned as it came. */
  function DisableCheckBuildPlate(bot: Makerbot, inbound: seq<Json>): (r: Call<Json>)
    ensures |r.sent| == 1
    ensures RequestOf(r.sent[0]) == Some(Request(bot.requestId + 1, "disable_check_build_plate", None))
    ensures r.bot.requestId == bot.requestId + 1
    ensures r.result == RpcRequestResponse(bot, "disable_check_build_plate", Str(""), inbound).result
    ensures r.bot == RpcRequestResponse(bot, "disable_check_build_plate", Str(""), inbound).bot
    ensures StoresObjects(bot.tables) && r.result.Success? ==>
      r.result.value.Obj? && "error" !in r.result.value.fields
  {
    RpcRequestResponse(bot, "disable_check_build_plate", Str(""), inbound)
  }

  /** Authenticates the JSON-RPC connection with a "jsonrpc" access token.
      A failed token request sends nothing; the connection counts as
      authenticated once the `authenticate` call returns. */
  function AuthenticateJsonRpc(bot: Makerbot, tokenReply: Json, inbound: seq<Json>): (r: Call<Json>)
    ensures GetAccessToken("jsonrpc", bot.authCode, tokenReply).Failure? ==>
      r == Call(bot, [], Failure(GetAccessToken("jsonrpc", bot.authCode, tokenReply).error))
    ensures GetAccessToken("jsonrpc", bot.authCode, tokenReply).Success? ==>
      |r.sent| == 1 && RequestOf(r.sent[0]) == Some(Request(bot.requestId + 1, "authenticate",
        Some(Obj(map["access_token" := GetAccessToken("jsonrpc", bot.authCode, tokenReply).value]))))
    ensures r.bot.jsonrpcAuthenticated <==> bot.jsonrpcAuthenticated || r.result.Success?
    ensures var token := GetAccessToken("jsonrpc", bot.authCode, tokenReply);
      token.Success? ==>
        var c := RpcRequestResponse(bot, "authenticate", Obj(map["access_token" := token.value]), inbound);
        r.result == c.result && r.bot == c.bot.(jsonrpcAuthenticated := bot.jsonrpcAuthenticated || c.result.Success?)
  {
    var token := GetAccessToken("jsonrpc", bot.authCode, tokenReply);
    if token.Failure? then Call(bot, [], Failure(token.error))
    else MarkAuthenticated(RpcRequestResponse(bot, "authenticate", Obj(map["access_token" := token.value]), inbound))
  }

  /** Records a successful `authenticate` call on the client. */
  function MarkAuthenticated(call: Call<Json>): (r: Call<Json>)
    ensures r.sent == call.sent && r.result == call.result
    ensures r.bot.jsonrpcAuthenticated <==> call.bot.jsonrpcAuthenticated || call.result.Success?
  {
    if call.result.Success? then call.(bot := call.bot.(jsonrpcAuthenticated := true)) else call
  }

  /** Pairs with the device and keeps the code it hands out; the client is
      unchanged unless pairing succeeded. */
  function Pair(bot: Makerbot, codeReply: Json, polls: seq<Poll>): (r: (Makerbot, Pairing))
    ensures r.1 == AuthenticateFcgi(codeReply, polls)
    ensures r.1.Paired? ==> r.0 == bot.(authCode := r.1.authCode)
    ensures !r.1.Paired? ==> r.0 == bot
  {
    var p := AuthenticateFcgi(codeReply, polls);
    if p.Paired? then (bot.(authCode := p.authCode), p) else (bot, p)
  }

  /** The camera picture as rows of RGB values: a "camera" access token,
      then the snapshot blob, its header and its YUYV payload. */
  method CameraRgbRows(bot: Makerbot, tokenReply: Json, blob: seq<byte>) returns (r: Result<seq<seq<int>>>)
    ensures GetAccessToken("camera", bot.authCode, tokenReply).Failure? ==>
      r == Failure(GetAccessToken("camera", bot.authCode, tokenReply).error)
    ensures GetAccessToken("camera", bot.authCode, tokenReply).Success? && |blob| < HeaderSize ==>
      r == Failure(Fault(StructError))
    ensures GetAccessToken("camera", bot.authCode, tokenReply).Success? && |blob| >= HeaderSize ==>
      (r.Failure? <==> |blob| - HeaderSize < 4 * (FieldAt(blob, 8) * (FieldAt(blob, 4) / 2)))
    ensures GetAccessToken("camera", bot.authCode, tokenReply).Success? && |blob| >= HeaderSize && r.Failure? ==>
      r.error == Fault(TypeError)
    ensures r.Success? ==> ParseCameraBlob(blob).Success?
    ensures r.Success? ==>
      var f := ParseCameraBlob(blob).value;
      RowStart(f.width / 2, f.height) <= |f.payload| && r.value == Picture(f.payload, f.width / 2, f.height)
  {
    var token := GetAccessToken("camera", bot.authCode, tokenReply);
    if token.Failure? {
      return Failure(token.error);
    }
    var frame := ParseCameraBlob(blob);
    if frame.Failure? {
      return Failure(frame.error);
    }
    var f := frame.value;
    r := YuvToRgbRows(f.payload, f.width, f.height);
  }
}
