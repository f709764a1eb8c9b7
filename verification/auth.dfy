/** The pairing and token decisions of the client's HTTP authorization
    interface. Replies arrive already decoded; the requests themselves and
    the clock are inputs. */
module Auth {
  import opened Json
  import opened Wrappers
  import opened PyOps

  const ClientId: string := "MakerWare"
  const ClientSecret: string := "python-makerbotapi"

  /** Pairing gives up once this many seconds have elapsed. */
  const AuthTimeout: real := 120.0

  /** The token contexts the device issues tokens for. */
  const ValidContexts: seq<string> := ["jsonrpc", "put", "camera"]

  const PairingActiveMessage: string :=
    "Pairing mode is already active for this printer. Press a button on printer to disable pairing mode."

  /** The query arguments of a token request, or the local rejection of an
      unknown context, raised before any request is built or sent. */
  function TokenQuery(context: string, authCode: Json): (r: Result<map<string, Json>>)
    ensures r.Failure? <==> context !in ValidContexts
    ensures r.Failure? ==> r.error == InvalidContextError
    ensures r.Success? ==>
      && r.value.Keys == {"response_type", "client_id", "client_secret", "auth_code", "context"}
      && r.value["response_type"] == Str("token")
      && r.value["context"] == Str(context)
      && r.value["auth_code"] == authCode
  {
    if context !in ValidContexts then Failure(InvalidContextError)
    else Success(map[
      "response_type" := Str("token"),
      "client_id" := Str(ClientId),
      "client_secret" := Str(ClientSecret),
      "auth_code" := authCode,
      "context" := Str(context)])
  }

  /** Reads the device's reply to a token request: the access token when the
      status is "success", otherwise an authentication error carrying the
      device's message. */
  function TokenFromReply(reply: Json): (r: Result<Json>)
    ensures reply.Obj? ==>
      (r.Success? <==> "status" in reply.fields && reply.fields["status"] == Str("success"))
    ensures reply.Obj? && r.Success? ==>
      r.value == (if "access_token" in reply.fields then reply.fields["access_token"] else Null)
    ensures reply.Obj? && r.Failure? ==>
      r.error == AuthenticationError(if "message" in reply.fields then reply.fields["message"] else Null)
    ensures !reply.Obj? ==> r == Failure(Fault(AttributeError))
  {
    match reply
    case Obj(m) =>
      if GetField(m, "status") == Str("success") then Success(GetField(m, "access_token"))
      else Failure(AuthenticationError(GetField(m, "message")))
    case _ => Failure(Fault(AttributeError))
  }

  /** Requests an access token for `context`; `reply` is the device's answer
      to the request, when one is made. An unknown context fails the same way
      whatever the device would have replied (no request is made); a known
      one is decided by the reply alone. */
  function GetAccessToken(context: string, authCode: Json, reply: Json): (r: Result<Json>)
    ensures context !in ValidContexts ==> r == Failure(InvalidContextError)
    ensures context in ValidContexts ==> r == TokenFromReply(reply)
  {
    var _ :- TokenQuery(context, authCode);
    TokenFromReply(reply)
  }

  /** One poll of the pairing loop: the decoded reply and the seconds elapsed
      since polling started, read when the reply had arrived. */
  datatype Poll = Poll(reply: Json, elapsed: real)

  /** What one poll decides. */
  datatype Verdict = Accept(code: Json) | Reject | Expire | Continue | Crash(error: Error)

  /** The checks of one poll, in the source's order: accepted, then rejected,
      then the deadline. A reply that is not a dictionary has no `get`. */
  function Judge(p: Poll): (v: Verdict)
    ensures !p.reply.Obj? ==> v == Crash(Fault(AttributeError))
    ensures p.reply.Obj? ==>
      var m := p.reply.fields;
      var answer := if "answer" in m then m["answer"] else Null;
      && (answer == Str("accepted") ==> v == Accept(if "code" in m then m["code"] else Null))
      && (answer == Str("rejected") ==> v == Reject)
      && (answer != Str("accepted") && answer != Str("rejected") ==>
            (v == Expire <==> p.elapsed >= AuthTimeout) && (v == Continue <==> p.elapsed < AuthTimeout))
  {
    match Get(p.reply, "answer")
    case Failure(e) => Crash(e)
    case Success(answer) =>
      if answer == Str("accepted") then
        Accept(if p.reply.Obj? then GetField(p.reply.fields, "code") else Null)
      else if answer == Str("rejected") then Reject
      else if p.elapsed >= AuthTimeout then Expire
      else Continue
  }

  /** The error a poll's verdict ends pairing with. */
  function VerdictError(v: Verdict): Error
    requires v.Reject? || v.Expire? || v.Crash?
  {
    match v
    case Reject => AuthenticationError(Str(PairingActiveMessage))
    case Expire => AuthenticationTimeout
    case Crash(e) => e
  }

  /** How pairing ended, with the number of polls made; `Waiting` when the
      observed polls decided nothing yet. */
  datatype Pairing = Paired(authCode: Json, polls: nat) | PairingFailed(error: Error, polls: nat) | Waiting

  /** The pairing poll loop over the replies observed. Pairing ends at the
      first poll that decides, and every earlier poll decided to go on. */
  function PollLoop(polls: seq<Poll>): (r: Pairing)
    ensures r.Waiting? <==> forall i :: 0 <= i < |polls| ==> Judge(polls[i]) == Continue
    ensures !r.Waiting? ==> 0 < r.polls <= |polls|
    ensures !r.Waiting? ==> forall i :: 0 <= i < r.polls - 1 ==> Judge(polls[i]) == Continue
    ensures r.Paired? ==> Judge(polls[r.polls - 1]) == Accept(r.authCode)
    ensures r.PairingFailed? ==>
      var v := Judge(polls[r.polls - 1]);
      (v.Reject? || v.Expire? || v.Crash?) && r.error == VerdictError(v)
    decreases |polls|
  {
    if |polls| == 0 then Waiting
    else
      match Judge(polls[0])
      case Accept(code) => Paired(code, 1)
      case Continue =>
        (match PollLoop(polls[1..])
         case Paired(code, n) => Paired(code, n + 1)
         case PairingFailed(e, n) => PairingFailed(e, n + 1)
         case Waiting => Waiting)
      case v => PairingFailed(VerdictError(v), 1)
  }

  /** The pairing flow: read the answer code from the first reply, then poll. */
  function AuthenticateFcgi(codeReply: Json, polls: seq<Poll>): (r: Pairing)
    ensures Index(codeReply, "answer_code").Failure? ==> r == PairingFailed(Index(codeReply, "answer_code").error, 0)
    ensures codeReply.Obj? && "answer_code" in codeReply.fields ==> r == PollLoop(polls)
    ensures codeReply.Obj? && "answer_code" !in codeReply.fields ==> r == PairingFailed(Fault(KeyError), 0)
  {
    match Index(codeReply, "answer_code")
    case Failure(e) => PairingFailed(e, 0)
    case Success(_) => PollLoop(polls)
  }

  /** Once pairing is decided, later replies are never looked at: no further
      poll is made after an acceptance, a rejection or a timeout. */
  lemma {:induction false} DecidedPairingIgnoresLaterPolls(polls: seq<Poll>, later: seq<Poll>)
    requires !PollLoop(polls).Waiting?
    ensures PollLoop(polls + later) == PollLoop(polls)
    decreases |polls|
  {
    assert (polls + later)[0] == polls[0];
    if Judge(polls[0]) == Continue {
      assert (polls + later)[1..] == polls[1..] + later;
      DecidedPairingIgnoresLaterPolls(polls[1..], later);
    }
  }

  /** An "accepted" reply pairs even when the deadline has passed, and a
      "rejected" one fails at once whatever the time. */
  lemma AnswerBeatsDeadline(fields: map<string, Json>, elapsed: real)
    ensures "answer" in fields && fields["answer"] == Str("accepted") ==>
      Judge(Poll(Obj(fields), elapsed)) == Accept(if "code" in fields then fields["code"] else Null)
    ensures "answer" in fields && fields["answer"] == Str("rejected") ==>
      Judge(Poll(Obj(fields), elapsed)) == Reject
  {
  }

  /** Against a device that never answers "accepted" or "rejected", pairing
      times out exactly at the first poll made at or after the deadline. */
  lemma {:induction false} SilentDeviceTimesOut(polls: seq<Poll>, k: nat)
    requires forall i :: 0 <= i < |polls| ==>
      polls[i].reply.Obj? && !("answer" in polls[i].reply.fields && polls[i].reply.fields["answer"] in [Str("accepted"), Str("rejected")])
    requires k < |polls| && polls[k].elapsed >= AuthTimeout
    requires forall i :: 0 <= i < k ==> polls[i].elapsed < AuthTimeout
    ensures PollLoop(polls) == PairingFailed(AuthenticationTimeout, k + 1)
    decreases k
  {
    if k > 0 {
      assert Judge(polls[0]) == Continue;
      SilentDeviceTimesOut(polls[1..], k - 1);
    }
  }
}
