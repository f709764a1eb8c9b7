/** The reader thread's dispatcher: every framed message is decoded and
    either stored by its `id` for the caller waiting on it, or appended to
    the unsolicited messages. */
module Dispatch {
  import opened Json
  import opened Wrappers
  import opened PyOps
  import Framing

  /** The client's shared response state: replies by id, and server-initiated messages. */
  datatype Tables = Tables(responses: map<Key, Json>, unsolicited: seq<Json>)

  /** Where a decoded message goes: `Some(k)` to the response table under
      key `k`, `None` to the unsolicited list, or the Python error raised
      while testing for `id`. */
  function KeyOf(msg: Json): Result<Option<Key>>
  {
    var hasId :- In("id", msg);
    if hasId then
      var id :- Index(msg, "id");
      var k :- HashKey(id);
      Success(Some(k))
    else Success(None)
  }

  /** Routes one decoded message: a message with `id` is stored under that id,
      silently replacing an earlier entry, and the unsolicited list is left
      alone; any other message is appended to the unsolicited list and the
      table is left alone. */
  function HandleResponse(t: Tables, msg: Json): (r: Result<Tables>)
    ensures msg.Obj? && "id" !in msg.fields ==> r == Success(Tables(t.responses, t.unsolicited + [msg]))
    ensures msg.Obj? && "id" in msg.fields && HashKey(msg.fields["id"]).Success? ==>
      r == Success(Tables(t.responses[HashKey(msg.fields["id"]).value := msg], t.unsolicited))
    ensures msg.Obj? && "id" in msg.fields && HashKey(msg.fields["id"]).Failure? ==> r == Failure(Fault(TypeError))
    ensures msg.Null? || msg.Bool? || msg.Int? ==> r == Failure(Fault(TypeError))
    ensures r.Success? && !msg.Obj? ==> r.value.responses == t.responses
  {
    var k :- KeyOf(msg);
    Success(Route(t, msg, k))
  }

  /** Files `msg` where `KeyOf` sends it. */
  function Route(t: Tables, msg: Json, k: Option<Key>): Tables
  {
    match k
    case Some(key) => Tables(t.responses[key := msg], t.unsolicited)
    case None => Tables(t.responses, t.unsolicited + [msg])
  }

  /** Every stored reply is a dictionary. */
  ghost predicate StoresObjects(t: Tables)
  {
    forall k :: k in t.responses ==> t.responses[k].Obj?
  }

  /** Reference: the replies among `msgs`, the last one winning for each key. */
  function ResponsesOf(msgs: seq<Json>): map<Key, Json>
    decreases |msgs|
  {
    if |msgs| == 0 then map[]
    else
      var first := match KeyOf(msgs[0])
        case Success(Some(k)) => map[k := msgs[0]]
        case _ => map[];
      first + ResponsesOf(msgs[1..])
  }

  /** Reference: the unsolicited messages among `msgs`, in order. */
  function UnsolicitedOf(msgs: seq<Json>): seq<Json>
    decreases |msgs|
  {
    if |msgs| == 0 then []
    else (if KeyOf(msgs[0]) == Success(None) then [msgs[0]] else []) + UnsolicitedOf(msgs[1..])
  }

  /** Every message of `msgs` can be routed without a Python error. */
  predicate Routable(msgs: seq<Json>)
  {
    forall i :: 0 <= i < |msgs| ==> KeyOf(msgs[i]).Success?
  }

  /** The state after dispatching a run of messages, and the error that
      ended the reader thread, if one did. */
  datatype Dispatched = Dispatched(tables: Tables, error: Option<Error>)

  /** Dispatches `msgs` in order, stopping at the first one that raises.
      When all are routable, the replies are merged over the table (last one
      wins) and the unsolicited messages are appended in order. */
  function DispatchAll(t: Tables, msgs: seq<Json>): (r: Dispatched)
    ensures r.error.None? <==> Routable(msgs)
    ensures r.error.None? ==>
      r.tables == Tables(t.responses + ResponsesOf(msgs), t.unsolicited + UnsolicitedOf(msgs))
    ensures StoresObjects(t) ==> StoresObjects(r.tables)
    decreases |msgs|
  {
    if |msgs| == 0 then
      assert t.responses + map[] == t.responses;
      assert t.unsolicited + [] == t.unsolicited;
      Dispatched(t, None)
    else
      match HandleResponse(t, msgs[0])
      case Failure(e) => Dispatched(t, Some(e))
      case Success(t1) =>
        var r := DispatchAll(t1, msgs[1..]);
        RoutableTail(msgs);
        DispatchFirstReply(t, msgs, t1);
        DispatchFirstEvent(t, msgs, t1);
        r
  }

  /** Dispatching the first message merges its reply the way the reference does. */
  lemma DispatchFirstReply(t: Tables, msgs: seq<Json>, t1: Tables)
    requires |msgs| > 0 && KeyOf(msgs[0]).Success? && t1 == Route(t, msgs[0], KeyOf(msgs[0]).value)
    ensures t1.responses + ResponsesOf(msgs[1..]) == t.responses + ResponsesOf(msgs)
  {
    var k := KeyOf(msgs[0]).value;
    var first := if k.Some? then map[k.value := msgs[0]] else map[];
    assert t1.responses == t.responses + first;
    MergeAssoc(t.responses, first, ResponsesOf(msgs[1..]));
  }

  /** Dispatching the first message appends it to the unsolicited list the way the reference does. */
  lemma DispatchFirstEvent(t: Tables, msgs: seq<Json>, t1: Tables)
    requires |msgs| > 0 && KeyOf(msgs[0]).Success? && t1 == Route(t, msgs[0], KeyOf(msgs[0]).value)
    ensures t1.unsolicited + UnsolicitedOf(msgs[1..]) == t.unsolicited + UnsolicitedOf(msgs)
  {
    var k := KeyOf(msgs[0]).value;
    var one := if k.None? then [msgs[0]] else [];
    assert t1.unsolicited == t.unsolicited + one;
    AppendAssoc(t.unsolicited, one, UnsolicitedOf(msgs[1..]));
  }

  lemma AppendAssoc(a: seq<Json>, b: seq<Json>, c: seq<Json>)
    ensures (a + b) + c == a + (b + c)
  {
  }

  lemma RoutableTail(msgs: seq<Json>)
    requires |msgs| > 0 && KeyOf(msgs[0]).Success?
    ensures Routable(msgs) <==> Routable(msgs[1..])
  {
    assert forall i :: 0 <= i < |msgs[1..]| ==> msgs[1..][i] == msgs[i + 1];
  }

  /** Right-biased map merge is associative. */
  lemma MergeAssoc(a: map<Key, Json>, b: map<Key, Json>, c: map<Key, Json>)
    ensures (a + b) + c == a + (b + c)
  {
  }

  /** The caller's wait for a reply, reduced to one lookup: a present reply is
      removed from the table and returned; otherwise nothing changes and there
      is no reply (the source's busy wait gives up after its timeout). */
  function WaitForResponse(t: Tables, requestId: int): (r: (Option<Json>, Tables))
    ensures KInt(requestId) in t.responses ==>
      r.0 == Some(t.responses[KInt(requestId)]) && r.1.responses == t.responses - {KInt(requestId)}
    ensures KInt(requestId) !in t.responses ==> r == (None, t)
    ensures r.1.unsolicited == t.unsolicited
    ensures r.1.responses.Keys == t.responses.Keys - {KInt(requestId)}
  {
    var k := KInt(requestId);
    if k in t.responses then (Some(t.responses[k]), Tables(t.responses - {k}, t.unsolicited))
    else (None, t)
  }

  /** A reply stored by the dispatcher is what the caller with that id
      receives, it leaves no trace in the table, and a caller waiting on any
      other id sees exactly what it would have seen without it. */
  lemma DeliveredToItsCaller(t: Tables, msg: Json, n: int, other: int)
    requires msg.Obj? && "id" in msg.fields && HashKey(msg.fields["id"]) == Success(KInt(n))
    requires other != n
    ensures HandleResponse(t, msg).Success?
    ensures WaitForResponse(HandleResponse(t, msg).value, n) == (Some(msg), Tables(t.responses - {KInt(n)}, t.unsolicited))
    ensures WaitForResponse(HandleResponse(t, msg).value, other).0 == WaitForResponse(t, other).0
  {
    assert t.responses[KInt(n) := msg] - {KInt(n)} == t.responses - {KInt(n)};
  }

  /** Decodes and dispatches framed messages in order; the reader thread ends
      at the first message that does not decode or that raises. When
      `texts[i]` is the first text that does not decode, the messages before
      it are dispatched as a run, and unless one of them raised, the thread
      ends on the parse error with their effect kept. */
  function HandleTexts(t: Tables, texts: seq<string>, parse: string -> Option<Json>): (r: Dispatched)
    ensures (forall i :: 0 <= i < |texts| ==> parse(texts[i]).Some?) ==>
      r == DispatchAll(t, Decoded(texts, parse))
    ensures forall i :: FirstUnparsed(texts, parse, i) ==>
      var d := DispatchAll(t, Decoded(texts[..i], parse));
      r == if d.error.Some? then d else Dispatched(d.tables, Some(ParseError(texts[i])))
    decreases |texts|
  {
    if |texts| == 0 then Dispatched(t, None)
    else match parse(texts[0])
      case None => Dispatched(t, Some(ParseError(texts[0])))
      case Some(msg) =>
        match HandleResponse(t, msg)
        case Failure(e) =>
          UnparsedLater(texts, parse, msg);
          Dispatched(t, Some(e))
        case Success(t1) =>
          UnparsedLater(texts, parse, msg);
          HandleTexts(t1, texts[1..], parse)
  }

  /** `texts[i]` is the first text that does not decode. */
  predicate FirstUnparsed(texts: seq<string>, parse: string -> Option<Json>, i: int)
  {
    && 0 <= i < |texts|
    && parse(texts[i]).None?
    && forall j :: 0 <= j < i ==> parse(texts[j]).Some?
  }

  /** When the first text decodes to `msg`, the first unparsed text lies
      further on, and the decoded prefix before it starts with `msg`. */
  lemma UnparsedLater(texts: seq<string>, parse: string -> Option<Json>, msg: Json)
    requires |texts| > 0 && parse(texts[0]) == Some(msg)
    ensures forall i :: FirstUnparsed(texts, parse, i) ==>
      && FirstUnparsed(texts[1..], parse, i - 1)
      && texts[1..][i - 1] == texts[i]
      && Decoded(texts[..i], parse) == [msg] + Decoded(texts[1..][..i - 1], parse)
  {
    forall i | FirstUnparsed(texts, parse, i)
      ensures FirstUnparsed(texts[1..], parse, i - 1)
      ensures Decoded(texts[..i], parse) == [msg] + Decoded(texts[1..][..i - 1], parse)
    {
      assert texts[..i][1..] == texts[1..][..i - 1];
    }
  }

  /** The decoded form of texts that all decode. */
  function Decoded(texts: seq<string>, parse: string -> Option<Json>): (msgs: seq<Json>)
    requires forall i :: 0 <= i < |texts| ==> parse(texts[i]).Some?
    ensures |msgs| == |texts|
    ensures forall i :: 0 <= i < |texts| ==> Some(msgs[i]) == parse(texts[i])
    decreases |texts|
  {
    if |texts| == 0 then [] else [parse(texts[0]).value] + Decoded(texts[1..], parse)
  }

  /** One iteration of the reader thread: append the received `chunk`, drain
      every complete message and dispatch it. It reports the error that ended
      the thread: a message that raised, or else a corrupted buffer. */
  method ReaderStep(t: Tables, buffer: string, chunk: string, parse: string -> Option<Json>)
    returns (t': Tables, buffer': string, death: Option<Error>)
    ensures
      var f := Framing.Split(buffer + chunk);
      var h := HandleTexts(t, f.messages, parse);
      && t' == h.tables
      && buffer' == f.rest
      && death == (if h.error.Some? then h.error else if f.corrupt then Some(FramingError(f.rest)) else None)
    ensures death.None? ==> Framing.Concat(Framing.Split(buffer + chunk).messages) + buffer' == buffer + chunk
    ensures death.None? ==> buffer' == [] || Framing.Open(buffer')
  {
    var messages, rest, corrupt := Framing.Drain(buffer + chunk);
    Framing.SplitCovers(buffer + chunk);
    Framing.SplitRest(buffer + chunk);
    var h := HandleTexts(t, messages, parse);
    t' := h.tables;
    buffer' := rest;
    if h.error.Some? {
      death := h.error;
    } else if corrupt {
      death := Some(FramingError(rest));
    } else {
      death := None;
    }
  }
}
