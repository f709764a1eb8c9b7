/** Decoding of the handshake and `get_system_information` replies into the
    client's fixed-shape status records. A record is its attribute
    dictionary: attributes start at their defaults and a listed attribute is
    copied from the reply only when the reply has that key. */
module Status {
  import opened Json
  import opened Wrappers
  import opened PyOps

  /** Attributes copied from the handshake result (each one is always written). */
  const HandshakeFields: seq<string> :=
    ["builder", "commit", "firmware_version", "iserial", "machine_name", "machine_type", "vid", "pid", "bot_type"]

  /** Attributes copied from the machine status. */
  const StatusFields: seq<string> := ["step", "extruder_temp", "state", "preheat_percent"]

  /** Attributes copied from the first extruder. */
  const ToolheadFields: seq<string> :=
    ["tool_id", "filament_presence", "preheating", "index", "tool_present", "current_temperature", "target_temperature"]

  /** Attributes copied from the current process. */
  const ProcessFields: seq<string> :=
    ["username", "name", "cancellable", "temperature_settings", "tool_index", "step", "complete",
     "error", "cancelled", "reason", "id", "methods", "progress"]

  /** The client's identity attributes before any handshake. */
  const InfoDefaults: Attrs := map a | a in HandshakeFields :: Null

  /** A fresh bot state's attributes (besides its toolheads and process). */
  const BotStateDefaults: Attrs := map["step" := Null, "preheat_percent" := Null]

  const ToolheadDefaults: Attrs := map a | a in ToolheadFields :: Null

  const ProcessDefaults: Attrs := map[
    "username" := Null, "name" := Null, "cancellable" := Null, "temperature_settings" := Arr([]),
    "tool_index" := Null, "step" := Null, "error" := Null, "cancelled" := Null, "id" := Null,
    "methods" := Arr([]), "progress" := Null]

  /** A decoded status: the machine attributes, the toolheads and the current
      process, absent when the device reports none. */
  datatype BotState = BotState(attrs: Attrs, toolheads: seq<Attrs>, currentProcess: Option<Attrs>)

  /** Reference: `obj` with every listed attribute that `src` has replaced by `src`'s value. */
  function Overlay(obj: Attrs, names: seq<string>, src: map<string, Json>): Attrs
  {
    map a | a in obj.Keys + (set n | n in names && n in src) ::
      if a in names && a in src then src[a] else obj[a]
  }

  /** Reference: `obj` with every listed attribute set to `src.get(name)`. */
  function GetOverlay(obj: Attrs, names: seq<string>, src: map<string, Json>): Attrs
  {
    map a | a in obj.Keys + (set n | n in names) ::
      if a in names then GetField(src, a) else obj[a]
  }

  /** `GetOverlay` sets every listed name from the source, Null when absent. */
  lemma {:induction false} GetOverlayCovers(obj: Attrs, names: seq<string>, src: map<string, Json>)
    ensures forall a :: a in names ==> a in GetOverlay(obj, names, src) && GetOverlay(obj, names, src)[a] == (if a in src then src[a] else Null)
    decreases |names|
  {
    if |names| > 0 {
      GetOverlayCovers(obj, names[..|names| - 1], src);
    }
  }

  /** Copies each listed attribute that the source has, in list order,
      leaving the others as they were. From a dictionary it copies exactly
      the listed keys present; from a scalar it raises TypeError at the
      first membership test. */
  function CopyPresent(obj: Attrs, names: seq<string>, src: Json): (r: Result<Attrs>)
    ensures src.Obj? ==> r == Success(Overlay(obj, names, src.fields))
    ensures (src.Null? || src.Bool? || src.Int?) && |names| > 0 ==> r == Failure(Fault(TypeError))
    decreases |names|
  {
    if |names| == 0 then
      assert src.Obj? ==> Overlay(obj, names, src.fields) == obj;
      Success(obj)
    else
      var present :- In(names[0], src);
      var next :- if present then Copied(obj, names[0], src) else Success(obj);
      var r := CopyPresent(next, names[1..], src);
      OverlayStep(obj, names, src, next);
      r
  }

  /** Sets one attribute to the source's value under the same name. */
  function Copied(obj: Attrs, name: string, src: Json): Result<Attrs>
  {
    var v :- Index(src, name);
    Success(obj[name := v])
  }

  lemma OverlayStep(obj: Attrs, names: seq<string>, src: Json, next: Attrs)
    requires |names| > 0
    requires src.Obj? ==> next == if names[0] in src.fields then obj[names[0] := src.fields[names[0]]] else obj
    ensures src.Obj? ==> Overlay(next, names[1..], src.fields) == Overlay(obj, names, src.fields)
  {
    assert forall a :: a in names <==> a == names[0] || a in names[1..];
  }

  /** Sets every listed attribute to the source's value under that name,
      or to None when the source lacks it; only a dictionary supports this
      lookup, anything else raises AttributeError. */
  function CopyGet(obj: Attrs, names: seq<string>, src: Json): (r: Result<Attrs>)
    ensures src.Obj? ==> r == Success(GetOverlay(obj, names, src.fields))
    ensures !src.Obj? && |names| > 0 ==> r == Failure(Fault(AttributeError))
    decreases |names|
  {
    if |names| == 0 then
      assert src.Obj? ==> GetOverlay(obj, names, src.fields) == obj;
      Success(obj)
    else
      var v :- Get(src, names[0]);
      var r := CopyGet(obj[names[0] := v], names[1..], src);
      GetOverlayStep(obj, names, src, v);
      r
  }

  lemma GetOverlayStep(obj: Attrs, names: seq<string>, src: Json, v: Json)
    requires |names| > 0
    requires src.Obj? ==> v == GetField(src.fields, names[0])
    ensures src.Obj? ==> GetOverlay(obj[names[0] := v], names[1..], src.fields) == GetOverlay(obj, names, src.fields)
  {
    assert forall a :: a in names <==> a == names[0] || a in names[1..];
  }

  /** The handshake's effect on the client's identity attributes: a
      non-empty result dictionary overwrites every handshake attribute with
      `result.get(name)`; a missing or empty result changes nothing. */
  function HandshakeInfo(info: Attrs, response: Json): (r: Result<Attrs>)
    ensures response.Obj? && "result" !in response.fields ==> r == Success(info)
    ensures response.Obj? && "result" in response.fields && response.fields["result"].Obj? ==>
      var m := response.fields["result"].fields;
      r == Success(if |m| == 0 then info else GetOverlay(info, HandshakeFields, m))
    ensures response.Obj? && "result" in response.fields ==>
      var res := response.fields["result"];
      (res.Arr? || res.Str?) ==> (Len(res) == Success(0) <==> r == Success(info))
    ensures response.Obj? && "result" in response.fields ==>
      var res := response.fields["result"];
      (res.Null? || res.Bool? || res.Int?) ==> r == Failure(Fault(TypeError))
  {
    var hasResult :- In("result", response);
    if !hasResult then Success(info)
    else
      var res :- Get(response, "result");
      var n :- Len(res);
      if n == 0 then Success(info)
      else CopyGet(info, HandshakeFields, res)
  }

  /** A `result` the decoder accepts in full: `machine_name` is a
      dictionary, `toolheads.extruder` is a non-empty list whose first
      element is a dictionary, and `current_process` is present and is
      either a dictionary or falsy. */
  predicate WellShaped(res: Json)
  {
    && MachineIsDict(res)
    && FirstExtruderIsDict(res)
    && Field(res, "current_process").Some?
    && var p := Field(res, "current_process").value;
       p.Obj? || !Truthy(p)
  }

  /** Reference: the status a well-shaped `result` stands for. The machine,
      first-extruder and process dictionaries are laid over their defaults,
      and a falsy process is recorded as absent. */
  function StatusOf(res: Json): BotState
    requires WellShaped(res)
  {
    var machine := Field(res, "machine_name").value;
    var first := Extruders(res).value.elems[0];
    var p := Field(res, "current_process").value;
    BotState(
      Overlay(BotStateDefaults, StatusFields, machine.fields),
      [Overlay(ToolheadDefaults, ToolheadFields, first.fields)],
      if Truthy(p) then Some(Overlay(ProcessDefaults, ProcessFields, p.fields)) else None)
  }

  /** `result.toolheads.extruder`, when both dictionaries have the key. */
  function Extruders(res: Json): Option<Json>
  {
    match Field(res, "toolheads")
    case Some(heads) => Field(heads, "extruder")
    case None => None
  }

  /** `response.result[key]`, when both dictionaries have the key. */
  function ResultAt(response: Json, key: string): Option<Json>
  {
    match Field(response, "result")
    case Some(res) => Field(res, key)
    case None => None
  }

  /** `machine_name` is present in `result` and is a dictionary. */
  predicate MachineIsDict(res: Json)
  {
    Field(res, "machine_name").Some? && Field(res, "machine_name").value.Obj?
  }

  /** `toolheads` is present in `result` and is a dictionary. */
  predicate ToolheadsIsDict(res: Json)
  {
    Field(res, "toolheads").Some? && Field(res, "toolheads").value.Obj?
  }

  /** `toolheads.extruder` is a non-empty list whose first element is a dictionary. */
  predicate FirstExtruderIsDict(res: Json)
  {
    Extruders(res).Some? && Extruders(res).value.Arr? &&
    |Extruders(res).value.elems| > 0 && Extruders(res).value.elems[0].Obj?
  }

  /** Decodes a `get_system_information` reply. A missing `result` raises
      KeyError; a falsy result, or one without `machine_name`, is an
      unexpected reply. Otherwise the machine attributes and the first
      extruder's attributes are copied where present, exactly one toolhead is
      recorded, and the current process is absent exactly when the
      `current_process` field is falsy. */
  function DecodeStatus(response: Json): (r: Result<BotState>)
    ensures response.Obj? && "result" !in response.fields ==> r == Failure(Fault(KeyError))
    ensures response.Obj? && "result" in response.fields && !Truthy(response.fields["result"]) ==>
      r == Failure(UnexpectedJsonResponse(response))
    ensures (response.Obj? && "result" in response.fields && response.fields["result"].Obj? &&
             Truthy(response.fields["result"]) && "machine_name" !in response.fields["result"].fields) ==>
      r == Failure(UnexpectedJsonResponse(response))
    ensures r.Success? ==> ResultAt(response, "machine_name").Some?
    ensures r.Success? ==> |r.value.toolheads| == 1
    ensures r.Success? ==> ResultAt(response, "current_process").Some?
    ensures r.Success? ==>
      (r.value.currentProcess.Some? <==> Truthy(ResultAt(response, "current_process").value))
    ensures r.Success? && ResultAt(response, "machine_name").value.Obj? ==>
      r.value.attrs == Overlay(BotStateDefaults, StatusFields, ResultAt(response, "machine_name").value.fields)
    ensures r.Success? && ResultAt(response, "current_process").value.Obj? && r.value.currentProcess.Some? ==>
      r.value.currentProcess.value == Overlay(ProcessDefaults, ProcessFields, ResultAt(response, "current_process").value.fields)
  {
    var res :- Index(response, "result");
    if !Truthy(res) then Failure(UnexpectedJsonResponse(response))
    else
      var hasMachine :- In("machine_name", res);
      if !hasMachine then Failure(UnexpectedJsonResponse(response))
      else DecodeResult(res)
  }

  /** Decodes a truthy `result` that passed the `machine_name` test. */
  function DecodeResult(res: Json): (r: Result<BotState>)
    ensures WellShaped(res) ==> r == Success(StatusOf(res))
    ensures MachineIsDict(res) && Field(res, "toolheads").None? ==> r == Failure(Fault(KeyError))
    ensures MachineIsDict(res) && ToolheadsIsDict(res) && Extruders(res).None? ==> r == Failure(Fault(KeyError))
    ensures MachineIsDict(res) && Extruders(res) == Some(Arr([])) ==> r == Failure(Fault(IndexError))
    ensures MachineIsDict(res) && FirstExtruderIsDict(res) && Field(res, "current_process").None? ==> r == Failure(Fault(KeyError))
    ensures r.Success? ==> res.Obj? && "machine_name" in res.fields && "current_process" in res.fields
    ensures r.Success? ==> "toolheads" in res.fields
    ensures r.Success? ==> |r.value.toolheads| == 1
    ensures r.Success? ==> (r.value.currentProcess.Some? <==> Truthy(res.fields["current_process"]))
    ensures r.Success? && res.fields["machine_name"].Obj? ==>
      r.value.attrs == Overlay(BotStateDefaults, StatusFields, res.fields["machine_name"].fields)
    ensures r.Success? && res.fields["current_process"].Obj? && r.value.currentProcess.Some? ==>
      r.value.currentProcess.value == Overlay(ProcessDefaults, ProcessFields, res.fields["current_process"].fields)
    ensures r.Success? ==>
      var heads := res.fields["toolheads"];
      heads.Obj? && "extruder" in heads.fields ==>
        var ex := heads.fields["extruder"];
        ex.Arr? && |ex.elems| > 0 && ex.elems[0].Obj? ==>
          r.value.toolheads == [Overlay(ToolheadDefaults, ToolheadFields, ex.elems[0].fields)]
  {
    var attrs :- DecodeMachine(res);
    var toolhead :- DecodeToolhead(res);
    var process :- DecodeProcess(res);
    Success(BotState(attrs, [toolhead], process))
  }

  /** The machine attributes over the bot-state defaults. */
  function DecodeMachine(res: Json): (r: Result<Attrs>)
    ensures MachineIsDict(res) ==>
      r == Success(Overlay(BotStateDefaults, StatusFields, res.fields["machine_name"].fields))
    ensures res.Obj? && "machine_name" !in res.fields ==> r == Failure(Fault(KeyError))
    ensures r.Success? ==> res.Obj? && "machine_name" in res.fields
  {
    var machine :- Index(res, "machine_name");
    CopyPresent(BotStateDefaults, StatusFields, machine)
  }

  /** The first extruder's attributes over the toolhead defaults. A missing
      `toolheads` or `extruder` key raises KeyError and an empty extruder
      list raises IndexError. */
  function DecodeToolhead(res: Json): (r: Result<Attrs>)
    ensures FirstExtruderIsDict(res) ==>
      r == Success(Overlay(ToolheadDefaults, ToolheadFields, Extruders(res).value.elems[0].fields))
    ensures res.Obj? && Field(res, "toolheads").None? ==> r == Failure(Fault(KeyError))
    ensures ToolheadsIsDict(res) && Extruders(res).None? ==> r == Failure(Fault(KeyError))
    ensures Extruders(res) == Some(Arr([])) ==> r == Failure(Fault(IndexError))
    ensures r.Success? ==> res.Obj? && "toolheads" in res.fields
  {
    var toolheads :- Index(res, "toolheads");
    var extruders :- Index(toolheads, "extruder");
    var first :- IndexAt(extruders, 0);
    CopyPresent(ToolheadDefaults, ToolheadFields, first)
  }

  /** The current process over the process defaults, or absent when the
      `current_process` field is falsy; a missing field raises KeyError. */
  function DecodeProcess(res: Json): (r: Result<Option<Attrs>>)
    ensures res.Obj? && "current_process" !in res.fields ==> r == Failure(Fault(KeyError))
    ensures res.Obj? && "current_process" in res.fields && !Truthy(res.fields["current_process"]) ==> r == Success(None)
    ensures res.Obj? && "current_process" in res.fields ==>
      var p := res.fields["current_process"];
      p.Obj? && Truthy(p) ==> r == Success(Some(Overlay(ProcessDefaults, ProcessFields, p.fields)))
    ensures r.Success? ==> res.Obj? && "current_process" in res.fields
    ensures r.Success? ==> (r.value.Some? <==> Truthy(res.fields["current_process"]))
  {
    var process :- Index(res, "current_process");
    if Truthy(process) then
      var p :- CopyPresent(ProcessDefaults, ProcessFields, process);
      Success(Some(p))
    else Success(None)
  }

  /** A reply whose `result` is well shaped decodes, and to the reference status. */
  lemma WellShapedDecodes(response: Json)
    requires response.Obj? && "result" in response.fields && WellShaped(response.fields["result"])
    ensures DecodeStatus(response) == Success(StatusOf(response.fields["result"]))
  {
    var res := response.fields["result"];
    NamedDictIsTruthy(res, "machine_name");
    assert DecodeResult(res) == Success(StatusOf(res));
  }

  /** A dictionary with a key in it is truthy. */
  lemma NamedDictIsTruthy(j: Json, key: string)
    requires j.Obj? && key in j.fields
    ensures Truthy(j)
  {
    assert key in j.fields.Keys;
  }

  /** Past the `machine_name` test, a reply fails with the lookup error of the
      first missing piece: KeyError for a missing `toolheads`, `extruder` or
      `current_process`, IndexError for an empty extruder list. */
  lemma MissingPartsFail(response: Json)
    requires response.Obj? && "result" in response.fields && MachineIsDict(response.fields["result"])
    ensures var res := response.fields["result"];
      Field(res, "toolheads").None? ==> DecodeStatus(response) == Failure(Fault(KeyError))
    ensures var res := response.fields["result"];
      ToolheadsIsDict(res) && Extruders(res).None? ==> DecodeStatus(response) == Failure(Fault(KeyError))
    ensures var res := response.fields["result"];
      Extruders(res) == Some(Arr([])) ==> DecodeStatus(response) == Failure(Fault(IndexError))
    ensures var res := response.fields["result"];
      FirstExtruderIsDict(res) && Field(res, "current_process").None? ==> DecodeStatus(response) == Failure(Fault(KeyError))
  {
  }

  /** The recorded toolhead is the first extruder's attributes copied over the toolhead defaults. */
  lemma ToolheadDecoded(response: Json, extruder: map<string, Json>)
    requires response.Obj? && "result" in response.fields
    requires FirstExtruderIsDict(response.fields["result"])
    requires Extruders(response.fields["result"]).value.elems[0] == Obj(extruder)
    ensures DecodeStatus(response).Success? ==>
      DecodeStatus(response).value.toolheads == [Overlay(ToolheadDefaults, ToolheadFields, extruder)]
  {
  }
}
