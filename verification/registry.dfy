/** The local registry of known bots: a map from serial number to an entry
    holding the bot's name, address, whether its pairing code may be kept,
    and the kept code. */
module Registry {
  import opened Json
  import opened Wrappers

  type Entry = map<string, Json>

  /** The `bots` table of the registry document. */
  datatype Config = Config(bots: map<string, Entry>)

  /** Every entry carries the four keys `addBot` creates. */
  predicate WellFormed(c: Config)
  {
    forall serial :: serial in c.bots ==>
      && "machine name" in c.bots[serial] && "ip" in c.bots[serial]
      && "save auth" in c.bots[serial] && "auth code" in c.bots[serial]
  }

  /** The entry stored for `serial`, if any. */
  function GetBotInfo(c: Config, serial: string): (e: Option<Entry>)
    ensures e.Some? <==> serial in c.bots
    ensures e.Some? ==> e.value == c.bots[serial]
  {
    if serial in c.bots then Some(c.bots[serial]) else None
  }

  /** Records a discovered bot. A new serial gets a fresh entry that may not
      keep a pairing code and holds none; a known serial keeps its
      permission and code and only takes the new name and address. */
  function AddBot(c: Config, ip: string, name: string, serial: string): (c': Config)
    ensures c'.bots.Keys == c.bots.Keys + {serial}
    ensures forall s :: s in c.bots && s != serial ==> c'.bots[s] == c.bots[s]
    ensures serial !in c.bots ==>
      c'.bots[serial] == map["machine name" := Str(name), "ip" := Str(ip), "save auth" := Bool(false), "auth code" := Null]
    ensures serial in c.bots ==>
      && c'.bots[serial].Keys == c.bots[serial].Keys + {"machine name", "ip"}
      && c'.bots[serial]["machine name"] == Str(name)
      && c'.bots[serial]["ip"] == Str(ip)
      && forall k :: k in c.bots[serial] && k != "machine name" && k != "ip" ==> c'.bots[serial][k] == c.bots[serial][k]
  {
    if serial !in c.bots then
      Config(c.bots[serial := map["machine name" := Str(name), "ip" := Str(ip), "save auth" := Bool(false), "auth code" := Null]])
    else
      Config(c.bots[serial := c.bots[serial]["machine name" := Str(name)]["ip" := Str(ip)]])
  }

  /** The outcome of a registry update: whether it applied, and the registry after. */
  datatype Saved = Saved(ok: bool, config: Config)

  /** Grants or withdraws permission to keep the pairing code of `serial`;
      an unknown serial leaves the registry as it was and reports false. */
  function SetAuthCodeSavePermission(c: Config, serial: string, allowed: Json): (s: Saved)
    ensures s.ok <==> serial in c.bots
    ensures !s.ok ==> s.config == c
    ensures s.ok ==> s.config.bots == c.bots[serial := c.bots[serial]["save auth" := allowed]]
  {
    if serial in c.bots then Saved(true, Config(c.bots[serial := c.bots[serial]["save auth" := allowed]]))
    else Saved(false, c)
  }

  /** Keeps `code` as the pairing code of `serial` when the entry exists and
      its permission equals True (so also when it is 1). An entry without a
      permission key raises KeyError. */
  function SaveAuthCode(c: Config, serial: string, code: Json): (r: Result<Saved>)
    ensures r.Failure? <==> serial in c.bots && "save auth" !in c.bots[serial]
    ensures r.Failure? ==> r.error == Fault(KeyError)
    ensures r.Success? ==>
      (r.value.ok <==> serial in c.bots && EqualsTrue(c.bots[serial]["save auth"]))
    ensures r.Success? && r.value.ok ==>
      r.value.config.bots == c.bots[serial := c.bots[serial]["auth code" := code]]
    ensures r.Success? && !r.value.ok ==> r.value.config == c
  {
    if serial !in c.bots then Success(Saved(false, c))
    else if "save auth" !in c.bots[serial] then Failure(Fault(KeyError))
    else if EqualsTrue(c.bots[serial]["save auth"]) then
      Success(Saved(true, Config(c.bots[serial := c.bots[serial]["auth code" := code]])))
    else Success(Saved(false, c))
  }

  /** Adding a bot keeps the registry well formed. */
  lemma AddBotPreservesWellFormed(c: Config, ip: string, name: string, serial: string)
    requires WellFormed(c)
    ensures WellFormed(AddBot(c, ip, name, serial))
  {
  }

  /** Changing a permission keeps the registry well formed. */
  lemma PermissionPreservesWellFormed(c: Config, serial: string, allowed: Json)
    requires WellFormed(c)
    ensures WellFormed(SetAuthCodeSavePermission(c, serial, allowed).config)
  {
  }

  /** In a well-formed registry saving a code never raises, and keeps it well formed. */
  lemma SavePreservesWellFormed(c: Config, serial: string, code: Json)
    requires WellFormed(c)
    ensures SaveAuthCode(c, serial, code).Success?
    ensures WellFormed(SaveAuthCode(c, serial, code).value.config)
  {
  }

  /** A registered bot whose permission was just granted has its next code kept. */
  lemma GrantedCodeIsKept(c: Config, serial: string, code: Json)
    requires serial in c.bots
    ensures var granted := SetAuthCodeSavePermission(c, serial, Bool(true)).config;
      && SaveAuthCode(granted, serial, code).Success?
      && SaveAuthCode(granted, serial, code).value.ok
      && GetBotInfo(SaveAuthCode(granted, serial, code).value.config, serial).value["auth code"] == code
  {
  }

  /** A freshly added bot may not keep a code: saving one changes nothing. */
  lemma NewBotKeepsNoCode(c: Config, ip: string, name: string, serial: string, code: Json)
    requires serial !in c.bots
    ensures var added := AddBot(c, ip, name, serial);
      SaveAuthCode(added, serial, code) == Success(Saved(false, added))
  {
  }

  /** Re-adding a known bot keeps its permission and its kept code. */
  lemma ReAddKeepsCode(c: Config, ip: string, name: string, serial: string)
    requires WellFormed(c) && serial in c.bots
    ensures AddBot(c, ip, name, serial).bots[serial]["save auth"] == c.bots[serial]["save auth"]
    ensures AddBot(c, ip, name, serial).bots[serial]["auth code"] == c.bots[serial]["auth code"]
  {
  }
}
