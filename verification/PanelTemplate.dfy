/** How one inbound is described in the panel database, how its protocol mode is
    read back from the stored columns, and how the template of a new mode is
    built from the row, its clients and the stored profile.
    Models scripts/aimili_xui_protocol_transaction.py, `_mode_for_row`,
    `_load_or_capture_profile`, `build_template` and `_runtime_inbound`. */
module PanelTemplate {
  import opened Wrappers
  import opened Json

  datatype Mode = VlessTcpVision | VlessXhttp | Hysteria2

  /** The columns of `inbounds` that the helper reads or writes. */
  datatype InboundRow = InboundRow(
    id: int,
    tag: string,
    remark: string,
    listen: string,
    port: int,
    enable: int,
    protocol: string,
    settings: Json,
    stream: Json,
    sniffing: Json,
    disableFlow: int)

  /** A client of the panel; a missing text column is None. */
  datatype Client = Client(id: int, uuid: Option<string>, email: Option<string>, enable: int, auth: Option<string>)

  /** A client joined with its link row for one inbound. */
  datatype AttachedClient = AttachedClient(client: Client, flow: Option<string>)

  /** The profile kept per egress: Reality key material survives a Hysteria period. */
  datatype Profile = Profile(reality: Json, xhttpPath: string)

  datatype Config = Config(tlsServerName: string, certificatePath: string, privateKeyPath: string)

  datatype Template = Template(
    id: int,
    remark: string,
    listen: string,
    port: int,
    tag: string,
    sniffing: Json,
    protocol: string,
    settings: Json,
    stream: Json,
    disableFlow: bool,
    authUpdates: map<int, string>,
    flow: string)

  predicate IsVless(mode: Mode) {
    mode.VlessTcpVision? || mode.VlessXhttp?
  }

  /** Text of a nullable column, `str(value or "")`. */
  function Text(value: Option<string>): string {
    match value
    case None => ""
    case Some(s) => s
  }

  // ---------------------------------------------------------------- reading

  /** The mode a row is in, or None when no mode matches (managed_resource_drift). */
  function ModeForRow(row: InboundRow): Option<Mode> {
    if !row.stream.Obj? || !row.settings.Obj? then None
    else if && row.protocol == "vless"
            && Get(row.stream, "network") == Str("tcp")
            && Get(row.stream, "security") == Str("reality")
            && Get(row.settings, "decryption") == Str("none")
            && row.disableFlow == 0 then Some(VlessTcpVision)
    else if && row.protocol == "vless"
            && Get(row.stream, "network") == Str("xhttp")
            && Get(row.stream, "security") == Str("reality")
            && Get(row.settings, "decryption") == Str("none")
            && row.disableFlow != 0 then Some(VlessXhttp)
    else if && row.protocol == "hysteria"
            && Get(row.stream, "network") == Str("hysteria")
            && Get(row.stream, "security") == Str("tls")
            && Get(row.settings, "version") == Num(2) then Some(Hysteria2)
    else None
  }

  /** Reads or captures the profile of an egress: in a VLESS mode the row is
      authoritative and overwrites the stored profile, in Hysteria the stored
      profile is required. `path` is the path derived from the egress id. */
  function LoadProfile(stored: Option<Profile>, row: InboundRow, mode: Mode, path: string): Result<Profile> {
    if IsVless(mode) then
      var reality := Get(row.stream, "realitySettings");
      if !reality.Obj? || !Truthy(Get(reality, "privateKey")) || !Truthy(Get(reality, "shortIds")) then
        Failure("managed_resource_drift")
      else
        Success(Profile(reality, path))
    else if stored.None? then Failure("managed_profile_missing")
    else if !stored.value.reality.Obj? then Failure("managed_profile_invalid")
    else Success(stored.value)
  }

  // --------------------------------------------------------------- building

  /** The clients a template lists: the enabled ones, in order. */
  function Enabled(clients: seq<AttachedClient>): seq<AttachedClient> {
    if clients == [] then []
    else
      var init, last := clients[..|clients| - 1], clients[|clients| - 1];
      if last.client.enable == 1 then Enabled(init) + [last] else Enabled(init)
  }

  function FlowOf(mode: Mode): string {
    if mode.VlessTcpVision? then "xtls-rprx-vision" else ""
  }

  function VlessEntry(c: AttachedClient, flow: string): Json {
    var entry := map["id" := Str(Text(c.client.uuid)), "email" := Str(Text(c.client.email))];
    Obj(if flow != "" then entry["flow" := Str(flow)] else entry)
  }

  function VlessEntries(clients: seq<AttachedClient>, flow: string): Result<seq<Json>> {
    if clients == [] then Success([])
    else
      var init, last := clients[..|clients| - 1], clients[|clients| - 1];
      match VlessEntries(init, flow)
      case Failure(e) => Failure(e)
      case Success(entries) =>
        if Text(last.client.uuid) == "" || Text(last.client.email) == "" then Failure("managed_resource_drift")
        else Success(entries + [VlessEntry(last, flow)])
  }

  /** `str.isspace` of one character. */
  predicate Blank(ch: char) {
    var code := ch as int;
    9 <= code <= 13 || 28 <= code <= 32 || code in {0x85, 0xA0, 0x1680, 0x2028, 0x2029, 0x202F, 0x205F, 0x3000} || 0x2000 <= code <= 0x200A
  }

  predicate ValidToken(token: string) {
    16 <= |token| <= 256 && forall i :: 0 <= i < |token| ==> !Blank(token[i])
  }

  /** Entries of a Hysteria inbound and the credentials that must be created for
      clients that have none; `tokens` stands for the random token source. */
  datatype HysteriaClients = HysteriaClients(entries: seq<Json>, updates: map<int, string>)

  function HysteriaEntry(auth: string, c: AttachedClient): Json {
    Obj(map["auth" := Str(auth), "email" := Str(Text(c.client.email))])
  }

  function HysteriaEntries(clients: seq<AttachedClient>, tokens: int -> string): Result<HysteriaClients> {
    if clients == [] then Success(HysteriaClients([], map[]))
    else
      var init, last := clients[..|clients| - 1], clients[|clients| - 1];
      match HysteriaEntries(init, tokens)
      case Failure(e) => Failure(e)
      case Success(done) =>
        if Text(last.client.email) == "" then Failure("managed_resource_drift")
        else if Text(last.client.auth) != "" then
          Success(done.(entries := done.entries + [HysteriaEntry(Text(last.client.auth), last)]))
        else
          var token := tokens(last.client.id);
          if !ValidToken(token) then Failure("credential_generation_failed")
          else Success(HysteriaClients(done.entries + [HysteriaEntry(token, last)], done.updates[last.client.id := token]))
  }

  function VlessStream(mode: Mode, profile: Profile): Json
    requires IsVless(mode)
  {
    if mode.VlessTcpVision? then
      Obj(map["network" := Str("tcp"), "security" := Str("reality"),
              "tcpSettings" := Obj(map[]), "realitySettings" := profile.reality])
    else
      Obj(map["network" := Str("xhttp"), "security" := Str("reality"),
              "xhttpSettings" := Obj(map["path" := Str(profile.xhttpPath), "mode" := Str("auto")]),
              "sockopt" := Obj(map["trustedXForwardedFor" := Arr([Str("127.0.0.1"), Str("::1")])]),
              "realitySettings" := profile.reality])
  }

  /** The TLS name: configured, or the first Reality server name. */
  function ServerName(config: Config, profile: Profile): Json {
    if config.tlsServerName != "" then Str(config.tlsServerName)
    else
      var names := Get(profile.reality, "serverNames");
      if names.Arr? && names.items != [] then names.items[0] else Str("")
  }

  function HysteriaStream(config: Config, name: Json): Json {
    Obj(map["network" := Str("hysteria"), "security" := Str("tls"),
            "hysteriaSettings" := Obj(map["version" := Num(2), "udpIdleTimeout" := Num(60)]),
            "tlsSettings" := Obj(map[
              "serverName" := name, "minVersion" := Str("1.2"), "maxVersion" := Str("1.3"),
              "alpn" := Arr([Str("h3")]),
              "certificates" := Arr([Obj(map[
                "certificateFile" := Str(config.certificatePath), "keyFile" := Str(config.privateKeyPath),
                "oneTimeLoading" := Bool(false), "usage" := Str("encipherment"),
                "ocspStapling" := Num(0), "buildChain" := Bool(false)])])])])
  }

  function BuildTemplate(config: Config, row: InboundRow, clients: seq<AttachedClient>, profile: Profile,
                         mode: Mode, tokens: int -> string): Result<Template>
  {
    var listed := Enabled(clients);
    if listed == [] then Failure("managed_resource_missing")
    else if !row.sniffing.Obj? then Failure("managed_resource_drift")
    else if IsVless(mode) then
      match VlessEntries(listed, FlowOf(mode))
      case Failure(e) => Failure(e)
      case Success(entries) =>
        Success(Template(
                  row.id, row.remark, row.listen, row.port, row.tag, row.sniffing,
                  "vless", Obj(map["clients" := Arr(entries), "decryption" := Str("none")]),
                  VlessStream(mode, profile), mode.VlessXhttp?, map[], FlowOf(mode)))
    else
      match HysteriaEntries(listed, tokens)
      case Failure(e) => Failure(e)
      case Success(done) =>
        var name := ServerName(config, profile);
        if !Truthy(name) then Failure("invalid_config")
        else
          Success(Template(
                    row.id, row.remark, row.listen, row.port, row.tag, row.sniffing,
                    "hysteria", Obj(map["version" := Num(2), "clients" := Arr(done.entries)]),
                    HysteriaStream(config, name), false, done.updates, ""))
  }

  /** The five columns that a template overwrites. */
  function Overwrite(row: InboundRow, t: Template): InboundRow {
    row.(protocol := t.protocol, settings := t.settings, stream := t.stream,
         sniffing := t.sniffing, disableFlow := if t.disableFlow then 1 else 0)
  }

  function StripGenerated(stream: Json): Json {
    DropNestedSettings(DropNestedSettings(stream, "tlsSettings"), "realitySettings")
  }

  function RuntimeDocument(listen: string, port: int, protocol: string, settings: Json, stream: Json,
                           tag: string, sniffing: Json): Json {
    var document := map["port" := Num(port), "protocol" := Str(protocol), "settings" := settings,
                        "streamSettings" := StripGenerated(stream), "tag" := Str(tag), "sniffing" := sniffing];
    Obj(if listen != "" then document["listen" := Str(listen)] else document)
  }

  /** The inbound handed to Xray for a template (`_runtime_inbound`). */
  function RuntimeInbound(t: Template): Json {
    RuntimeDocument(t.listen, t.port, t.protocol, t.settings, t.stream, t.tag, t.sniffing)
  }

  /** The inbound the panel itself generates from a stored row (`_load_runtime_config`). */
  function RuntimeOfRow(row: InboundRow): Json {
    RuntimeDocument(row.listen, row.port, row.protocol, row.settings, row.stream, row.tag, row.sniffing)
  }

  // ---------------------------------------------------------------- theorems

  /** Reading back what was built gives the mode that was asked for, in all three modes,
      and Xray is given exactly the inbound the panel generates from the written row. */
  lemma BuiltRowReadsBack(config: Config, row: InboundRow, clients: seq<AttachedClient>, profile: Profile,
                          mode: Mode, tokens: int -> string)
    requires BuildTemplate(config, row, clients, profile, mode, tokens).Success?
    ensures var t := BuildTemplate(config, row, clients, profile, mode, tokens).value;
            && ModeForRow(Overwrite(row, t)) == Some(mode)
            && RuntimeOfRow(Overwrite(row, t)) == RuntimeInbound(t)
            && t.flow == FlowOf(mode)
  {
    var t := BuildTemplate(config, row, clients, profile, mode, tokens).value;
    if mode.Hysteria2? {
      assert Get(t.stream, "network") == Str("hysteria");
      assert Get(t.stream, "security") == Str("tls");
      assert Get(t.settings, "version") == Num(2);
    } else {
      assert Get(t.stream, "network") == Str(if mode.VlessXhttp? then "xhttp" else "tcp");
      assert Get(t.stream, "security") == Str("reality");
      assert Get(t.settings, "decryption") == Str("none");
    }
  }

  /** The clients as the database holds them once a template was persisted. */
  function Stamped(c: AttachedClient, t: Template): AttachedClient {
    AttachedClient(
      if c.client.id in t.authUpdates then c.client.(auth := Some(t.authUpdates[c.client.id])) else c.client,
      Some(t.flow))
  }

  function StampedAll(clients: seq<AttachedClient>, t: Template): (r: seq<AttachedClient>)
    ensures |r| == |clients|
    ensures forall i :: 0 <= i < |clients| ==> r[i] == Stamped(clients[i], t)
  {
    if clients == [] then []
    else StampedAll(clients[..|clients| - 1], t) + [Stamped(clients[|clients| - 1], t)]
  }

  lemma {:induction false} EnabledStamped(clients: seq<AttachedClient>, t: Template)
    ensures Enabled(StampedAll(clients, t)) == StampedAll(Enabled(clients), t)
  {
    if clients != [] {
      var n := |clients| - 1;
      EnabledStamped(clients[..n], t);
      var stamped := StampedAll(clients, t);
      assert stamped[..n] == StampedAll(clients[..n], t);
      assert stamped[n] == Stamped(clients[n], t);
      if clients[n].client.enable == 1 {
        var listed := Enabled(clients[..n]) + [clients[n]];
        assert listed[..|listed| - 1] == Enabled(clients[..n]);
      }
    }
  }

  lemma {:induction false} VlessEntriesStamped(clients: seq<AttachedClient>, t: Template, flow: string)
    ensures VlessEntries(StampedAll(clients, t), flow) == VlessEntries(clients, flow)
  {
    if clients != [] {
      var n := |clients| - 1;
      VlessEntriesStamped(clients[..n], t, flow);
      assert StampedAll(clients, t)[..n] == StampedAll(clients[..n], t);
    }
  }

  predicate DistinctIds(clients: seq<AttachedClient>) {
    forall i, j :: 0 <= i < j < |clients| ==> clients[i].client.id != clients[j].client.id
  }

  /** Only listed clients without a credential are given one, and each such client is. */
  lemma {:induction false} UpdatesAreForMissing(clients: seq<AttachedClient>, tokens: int -> string)
    requires HysteriaEntries(clients, tokens).Success?
    ensures forall id :: id in HysteriaEntries(clients, tokens).value.updates ==>
              ValidToken(tokens(id)) && HysteriaEntries(clients, tokens).value.updates[id] == tokens(id) &&
              exists i :: 0 <= i < |clients| && clients[i].client.id == id && Text(clients[i].client.auth) == ""
    ensures forall i :: 0 <= i < |clients| && Text(clients[i].client.auth) == "" ==>
              clients[i].client.id in HysteriaEntries(clients, tokens).value.updates
  {
    if clients != [] {
      var n := |clients| - 1;
      UpdatesAreForMissing(clients[..n], tokens);
      var before := HysteriaEntries(clients[..n], tokens).value.updates;
      var after := HysteriaEntries(clients, tokens).value.updates;
      forall id | id in after
        ensures ValidToken(tokens(id)) && after[id] == tokens(id)
        ensures exists i :: 0 <= i < |clients| && clients[i].client.id == id && Text(clients[i].client.auth) == ""
      {
        if id in before {
          var i :| 0 <= i < n && clients[..n][i].client.id == id && Text(clients[..n][i].client.auth) == "";
          assert clients[i].client.id == id;
        } else {
          assert clients[n].client.id == id;
        }
      }
      forall i | 0 <= i < |clients| && Text(clients[i].client.auth) == ""
        ensures clients[i].client.id in after
      {
        if i < n {
          assert clients[..n][i] == clients[i];
        }
      }
    }
  }

  lemma {:induction false} HysteriaEntriesStamped(clients: seq<AttachedClient>, t: Template, tokens: int -> string, later: int -> string)
    requires DistinctIds(clients)
    requires HysteriaEntries(clients, tokens).Success?
    requires var updates := HysteriaEntries(clients, tokens).value.updates;
             forall i :: 0 <= i < |clients| ==>
               (clients[i].client.id in updates <==> clients[i].client.id in t.authUpdates)
               && (clients[i].client.id in updates ==> updates[clients[i].client.id] == t.authUpdates[clients[i].client.id])
    ensures HysteriaEntries(StampedAll(clients, t), later) ==
            Success(HysteriaClients(HysteriaEntries(clients, tokens).value.entries, map[]))
  {
    if clients != [] {
      var n := |clients| - 1;
      var init, last := clients[..n], clients[n];
      var before := HysteriaEntries(init, tokens).value.updates;
      UpdatesAreForMissing(init, tokens);
      UpdatesAreForMissing(clients, tokens);
      assert last.client.id !in before;
      forall i | 0 <= i < |init|
        ensures (init[i].client.id in before <==> init[i].client.id in t.authUpdates)
        ensures init[i].client.id in before ==> before[init[i].client.id] == t.authUpdates[init[i].client.id]
      {
        assert clients[i] == init[i];
        assert clients[i].client.id != clients[n].client.id;
      }
      HysteriaEntriesStamped(init, t, tokens, later);
      var stamped := StampedAll(clients, t);
      assert stamped[..n] == StampedAll(init, t);
      assert stamped[n] == Stamped(last, t);
      if Text(last.client.auth) == "" {
        assert ValidToken(tokens(last.client.id));
      }
    }
  }

  /** `at` says where each listed client stands among all clients. */
  predicate IndexOf(clients: seq<AttachedClient>, listed: seq<AttachedClient>, at: seq<nat>) {
    && |at| == |listed|
    && (forall i :: 0 <= i < |at| ==> at[i] < |clients| && listed[i] == clients[at[i]] && listed[i].client.enable == 1)
    && (forall i, j :: 0 <= i < j < |at| ==> at[i] < at[j])
  }

  lemma IndexGrows(clients: seq<AttachedClient>, listed: seq<AttachedClient>, at: seq<nat>)
    requires clients != [] && IndexOf(clients[..|clients| - 1], listed, at)
    ensures IndexOf(clients, listed, at)
    ensures clients[|clients| - 1].client.enable == 1 ==> IndexOf(clients, listed + [clients[|clients| - 1]], at + [|clients| - 1])
  {
    var before := clients[..|clients| - 1];
    forall i | 0 <= i < |at| ensures at[i] < |clients| - 1 && listed[i] == clients[at[i]] {
      assert before[at[i]] == clients[at[i]];
    }
  }

  lemma {:induction false} EnabledIndex(clients: seq<AttachedClient>) returns (at: seq<nat>)
    ensures IndexOf(clients, Enabled(clients), at)
    ensures forall i :: 0 <= i < |clients| && clients[i].client.enable == 1 ==> i in at
  {
    if clients == [] {
      at := [];
    } else {
      var n := |clients| - 1;
      at := EnabledIndex(clients[..n]);
      IndexGrows(clients, Enabled(clients[..n]), at);
      if clients[n].client.enable == 1 {
        at := at + [n];
      }
    }
  }

  lemma EnabledDistinct(clients: seq<AttachedClient>)
    requires DistinctIds(clients)
    ensures DistinctIds(Enabled(clients))
  {
    var at := EnabledIndex(clients);
  }

  /** Rebuilding the mode a row is already in, from the clients as a switch left them,
      gives back the very same columns and plans no new credential. The helper relies on
      it when it records the "old" runtime inbound of the next switch. */
  lemma RebuildIsStable(config: Config, row: InboundRow, clients: seq<AttachedClient>, profile: Profile,
                        mode: Mode, tokens: int -> string, later: int -> string)
    requires DistinctIds(clients)
    requires BuildTemplate(config, row, clients, profile, mode, tokens).Success?
    ensures var t := BuildTemplate(config, row, clients, profile, mode, tokens).value;
            BuildTemplate(config, Overwrite(row, t), StampedAll(clients, t), profile, mode, later)
            == Success(t.(authUpdates := map[]))
  {
    var t := BuildTemplate(config, row, clients, profile, mode, tokens).value;
    var listed := Enabled(clients);
    EnabledStamped(clients, t);
    EnabledDistinct(clients);
    if IsVless(mode) {
      VlessEntriesStamped(listed, t, FlowOf(mode));
    } else {
      HysteriaEntriesStamped(listed, t, tokens, later);
    }
    assert StampedAll(listed, t) != [];
  }

  // --------------------------------------------------- sequences of switches

  /** What the helper keeps for one egress between switches. */
  datatype Managed = Managed(row: InboundRow, clients: seq<AttachedClient>, stored: Option<Profile>)

  /** One successful switch: read the profile, build, persist. */
  function SwitchOnce(config: Config, m: Managed, mode: Mode, path: string, tokens: int -> string): Result<Managed> {
    if ModeForRow(m.row).None? then Failure("managed_resource_drift")
    else if ModeForRow(m.row).value == mode then Failure("invalid_request")
    else
      match LoadProfile(m.stored, m.row, ModeForRow(m.row).value, path)
      case Failure(e) => Failure(e)
      case Success(profile) =>
        match BuildTemplate(config, m.row, m.clients, profile, mode, tokens)
        case Failure(e) => Failure(e)
        case Success(t) => Success(Managed(Overwrite(m.row, t), StampedAll(m.clients, t), Some(profile)))
  }

  function SwitchAll(config: Config, m: Managed, modes: seq<Mode>, path: string, tokens: int -> string): Result<Managed> {
    if modes == [] then Success(m)
    else
      match SwitchAll(config, m, modes[..|modes| - 1], path, tokens)
      case Failure(e) => Failure(e)
      case Success(last) => SwitchOnce(config, last, modes[|modes| - 1], path, tokens)
  }

  /** The Reality material an egress is bound to: in the row while it runs a VLESS
      mode, in the stored profile while it runs Hysteria. */
  function RealityOf(m: Managed): Json {
    if ModeForRow(m.row).Some? && IsVless(ModeForRow(m.row).value) then Get(m.row.stream, "realitySettings")
    else if m.stored.Some? then m.stored.value.reality
    else Null
  }

  predicate SameIdentity(a: InboundRow, b: InboundRow) {
    a.id == b.id && a.tag == b.tag && a.port == b.port && a.listen == b.listen && a.remark == b.remark
    && a.enable == b.enable && a.sniffing == b.sniffing
  }

  lemma SwitchOnceKeeps(config: Config, m: Managed, mode: Mode, path: string, tokens: int -> string)
    requires SwitchOnce(config, m, mode, path, tokens).Success?
    ensures var next := SwitchOnce(config, m, mode, path, tokens).value;
            && SameIdentity(m.row, next.row)
            && ModeForRow(next.row) == Some(mode)
            && RealityOf(next) == RealityOf(m)
            && next.stored.Some?
            && next.stored.value.reality == RealityOf(m)
            && |next.clients| == |m.clients|
            && ((m.stored.Some? && m.stored.value.xhttpPath == path) || IsVless(ModeForRow(m.row).value) ==>
                  next.stored.value.xhttpPath == path)
  {
    var profile := LoadProfile(m.stored, m.row, ModeForRow(m.row).value, path).value;
    var t := BuildTemplate(config, m.row, m.clients, profile, mode, tokens).value;
    BuiltRowReadsBack(config, m.row, m.clients, profile, mode, tokens);
    assert profile.reality == RealityOf(m);
    if IsVless(mode) {
      assert Get(t.stream, "realitySettings") == profile.reality;
    }
  }

  /** Any sequence of successful switches keeps the identity of the inbound and its
      Reality material, and ends in the mode asked for last; a return to a VLESS mode
      after Hysteria puts back the material the egress started with. */
  lemma {:induction false} SwitchSequenceKeepsIdentity(config: Config, m: Managed, modes: seq<Mode>, path: string, tokens: int -> string)
    requires SwitchAll(config, m, modes, path, tokens).Success?
    ensures var last := SwitchAll(config, m, modes, path, tokens).value;
            && SameIdentity(m.row, last.row)
            && RealityOf(last) == RealityOf(m)
            && (modes != [] ==> ModeForRow(last.row) == Some(modes[|modes| - 1]))
            && (modes != [] && IsVless(modes[|modes| - 1]) ==> Get(last.row.stream, "realitySettings") == RealityOf(m))
            && (modes != [] ==> last.stored.Some?)
            && (modes != [] && ((m.stored.Some? && m.stored.value.xhttpPath == path)
                                || (ModeForRow(m.row).Some? && IsVless(ModeForRow(m.row).value))) ==>
                  last.stored.value.xhttpPath == path)
  {
    if modes != [] {
      var init, mode := modes[..|modes| - 1], modes[|modes| - 1];
      SwitchSequenceKeepsIdentity(config, m, init, path, tokens);
      var before := SwitchAll(config, m, init, path, tokens).value;
      SwitchOnceKeeps(config, before, mode, path, tokens);
    }
  }

  /** The inbound the next switch records as the old one is the inbound the panel runs:
      after any switch, rebuilding the mode the row is now in, from whatever profile is
      loaded then, gives exactly the live inbound of that row. */
  lemma NextSwitchRecordsTheLiveInbound(config: Config, m: Managed, mode: Mode, path: string, tokens: int -> string, later: int -> string)
    requires SwitchOnce(config, m, mode, path, tokens).Success? && DistinctIds(m.clients)
    requires IsVless(ModeForRow(m.row).value) || (m.stored.Some? && m.stored.value.xhttpPath == path)
    requires LoadProfile(SwitchOnce(config, m, mode, path, tokens).value.stored, SwitchOnce(config, m, mode, path, tokens).value.row, mode, path).Success?
    ensures var next := SwitchOnce(config, m, mode, path, tokens).value;
            var rebuilt := BuildTemplate(config, next.row, next.clients, LoadProfile(next.stored, next.row, mode, path).value, mode, later);
            rebuilt.Success? && RuntimeInbound(rebuilt.value) == RuntimeOfRow(next.row)
  {
    var next := SwitchOnce(config, m, mode, path, tokens).value;
    var profile := LoadProfile(m.stored, m.row, ModeForRow(m.row).value, path).value;
    var t := BuildTemplate(config, m.row, m.clients, profile, mode, tokens).value;
    SwitchOnceKeeps(config, m, mode, path, tokens);
    BuiltRowReadsBack(config, m.row, m.clients, profile, mode, tokens);
    RebuildIsStable(config, m.row, m.clients, profile, mode, tokens, later);
    assert LoadProfile(next.stored, next.row, mode, path).value == profile by {
      if IsVless(mode) {
        assert Get(t.stream, "realitySettings") == profile.reality;
      }
    }
  }

  // ------------------------------------------------------------- the program

  lemma {:induction false} VlessEntriesStop(clients: seq<AttachedClient>, flow: string, k: nat)
    requires k <= |clients| && VlessEntries(clients[..k], flow).Failure?
    ensures VlessEntries(clients, flow) == VlessEntries(clients[..k], flow)
    decreases |clients|
  {
    if k < |clients| {
      assert clients[..|clients| - 1][..k] == clients[..k];
      VlessEntriesStop(clients[..|clients| - 1], flow, k);
    } else {
      assert clients[..k] == clients;
    }
  }

  lemma {:induction false} HysteriaEntriesStop(clients: seq<AttachedClient>, tokens: int -> string, k: nat)
    requires k <= |clients| && HysteriaEntries(clients[..k], tokens).Failure?
    ensures HysteriaEntries(clients, tokens) == HysteriaEntries(clients[..k], tokens)
    decreases |clients|
  {
    if k < |clients| {
      assert clients[..|clients| - 1][..k] == clients[..k];
      HysteriaEntriesStop(clients[..|clients| - 1], tokens, k);
    } else {
      assert clients[..k] == clients;
    }
  }

  method CollectEnabled(clients: seq<AttachedClient>) returns (listed: seq<AttachedClient>)
    ensures listed == Enabled(clients)
  {
    listed := [];
    for i := 0 to |clients|
      invariant listed == Enabled(clients[..i])
    {
      assert clients[..i + 1][..i] == clients[..i];
      if clients[i].client.enable == 1 {
        listed := listed + [clients[i]];
      }
    }
    assert clients[..|clients|] == clients;
  }

  /** The loop over the clients of a VLESS template. */
  method CollectVless(clients: seq<AttachedClient>, flow: string) returns (r: Result<seq<Json>>)
    ensures r == VlessEntries(clients, flow)
  {
    var entries: seq<Json> := [];
    for i := 0 to |clients|
      invariant VlessEntries(clients[..i], flow) == Success(entries)
    {
      assert clients[..i + 1][..i] == clients[..i];
      var uuid, email := Text(clients[i].client.uuid), Text(clients[i].client.email);
      if uuid == "" || email == "" {
        VlessEntriesStop(clients, flow, i + 1);
        return Failure("managed_resource_drift");
      }
      entries := entries + [VlessEntry(clients[i], flow)];
    }
    assert clients[..|clients|] == clients;
    r := Success(entries);
  }

  /** The loop over the clients of a Hysteria template, which makes up credentials where
      there are none. */
  method CollectHysteria(clients: seq<AttachedClient>, tokens: int -> string) returns (r: Result<HysteriaClients>)
    ensures r == HysteriaEntries(clients, tokens)
  {
    var entries: seq<Json>, updates: map<int, string> := [], map[];
    for i := 0 to |clients|
      invariant HysteriaEntries(clients[..i], tokens) == Success(HysteriaClients(entries, updates))
    {
      assert clients[..i + 1][..i] == clients[..i];
      var client := clients[i].client;
      var auth := Text(client.auth);
      if Text(client.email) == "" {
        HysteriaEntriesStop(clients, tokens, i + 1);
        return Failure("managed_resource_drift");
      }
      if auth == "" {
        auth := tokens(client.id);
        if !ValidToken(auth) {
          HysteriaEntriesStop(clients, tokens, i + 1);
          return Failure("credential_generation_failed");
        }
        updates := updates[client.id := auth];
      }
      entries := entries + [HysteriaEntry(auth, clients[i])];
    }
    assert clients[..|clients|] == clients;
    r := Success(HysteriaClients(entries, updates));
  }

  /** `build_template`. */
  method RunBuildTemplate(config: Config, row: InboundRow, clients: seq<AttachedClient>, profile: Profile,
                          mode: Mode, tokens: int -> string)
    returns (r: Result<Template>)
    ensures r == BuildTemplate(config, row, clients, profile, mode, tokens)
  {
    var listed := CollectEnabled(clients);
    if listed == [] {
      return Failure("managed_resource_missing");
    }
    if !row.sniffing.Obj? {
      return Failure("managed_resource_drift");
    }
    var template := Template(row.id, row.remark, row.listen, row.port, row.tag, row.sniffing, "", Null, Null, false, map[], "");
    if IsVless(mode) {
      var flow := if mode.VlessTcpVision? then "xtls-rprx-vision" else "";
      var entries := CollectVless(listed, flow);
      if entries.Failure? {
        return Failure(entries.error);
      }
      template := template.(flow := flow, protocol := "vless", settings := Obj(map["clients" := Arr(entries.value), "decryption" := Str("none")]));
      template := template.(stream := VlessStream(mode, profile), disableFlow := mode.VlessXhttp?);
    } else {
      var done := CollectHysteria(listed, tokens);
      if done.Failure? {
        return Failure(done.error);
      }
      var name := ServerName(config, profile);
      if !Truthy(name) {
        return Failure("invalid_config");
      }
      template := template.(protocol := "hysteria", settings := Obj(map["version" := Num(2), "clients" := Arr(done.value.entries)]));
      template := template.(stream := HysteriaStream(config, name), authUpdates := done.value.updates);
    }
    r := Success(template);
  }
}
