/** What stands in a template, read back key by key: the clients of every mode, the stream
    settings, the certificate, and when a template can be built at all.
    Models scripts/aimili_xui_protocol_transaction.py, build_template. */
module TemplateContents {
  import opened Wrappers
  import opened Json
  import opened PanelTemplate

  predicate IsEnabled(c: AttachedClient) {
    c.client.enable == 1
  }

  /** `at` lists the positions of the enabled clients, in order, none left out. */
  predicate ListsEnabled(clients: seq<AttachedClient>, at: seq<nat>) {
    && (forall j :: 0 <= j < |at| ==> at[j] < |clients| && IsEnabled(clients[at[j]]))
    && (forall j, k :: 0 <= j < k < |at| ==> at[j] < at[k])
    && (forall i :: 0 <= i < |clients| && IsEnabled(clients[i]) ==> i in at)
  }

  lemma PositionsOfEnabled(clients: seq<AttachedClient>) returns (at: seq<nat>)
    ensures ListsEnabled(clients, at) && |Enabled(clients)| == |at|
    ensures forall j :: 0 <= j < |at| ==> Enabled(clients)[j] == clients[at[j]]
  {
    at := EnabledIndex(clients);
  }

  /** The entry of one client: its own id and email and, in Vision mode and only there, the
      flow; or its own credential or, if it has none, the new one. */
  predicate VlessFits(entry: Json, c: Client, mode: Mode) {
    && Get(entry, "id") == Str(Text(c.uuid)) && Get(entry, "email") == Str(Text(c.email))
    && Get(entry, "flow") == (if mode.VlessTcpVision? then Str("xtls-rprx-vision") else Null)
  }

  predicate HysteriaFits(entry: Json, c: Client, tokens: int -> string) {
    && Get(entry, "auth") == Str(if Text(c.auth) != "" then Text(c.auth) else tokens(c.id))
    && Get(entry, "email") == Str(Text(c.email))
  }

  predicate VlessReady(c: Client) {
    Text(c.uuid) != "" && Text(c.email) != ""
  }

  predicate HysteriaReady(c: Client, tokens: int -> string) {
    Text(c.email) != "" && (Text(c.auth) != "" || ValidToken(tokens(c.id)))
  }

  lemma VlessEntryFits(c: AttachedClient, mode: Mode)
    requires IsVless(mode)
    ensures VlessFits(VlessEntry(c, FlowOf(mode)), c.client, mode)
  {
  }

  lemma HysteriaEntryFits(c: AttachedClient, auth: string, tokens: int -> string)
    requires auth == if Text(c.client.auth) != "" then Text(c.client.auth) else tokens(c.client.id)
    ensures HysteriaFits(HysteriaEntry(auth, c), c.client, tokens)
  {
  }

  /** One entry for each client, each fitting its own. */
  predicate AllVlessFit(entries: seq<Json>, clients: seq<AttachedClient>, mode: Mode) {
    |entries| == |clients| && forall i :: 0 <= i < |clients| ==> VlessFits(entries[i], clients[i].client, mode)
  }

  predicate AllHysteriaFit(entries: seq<Json>, clients: seq<AttachedClient>, tokens: int -> string) {
    |entries| == |clients| && forall i :: 0 <= i < |clients| ==> HysteriaFits(entries[i], clients[i].client, tokens)
  }

  lemma OneMoreVlessFits(entries: seq<Json>, clients: seq<AttachedClient>, mode: Mode, e: Json, c: AttachedClient)
    requires AllVlessFit(entries, clients, mode) && VlessFits(e, c.client, mode)
    ensures AllVlessFit(entries + [e], clients + [c], mode)
  {
  }

  lemma OneMoreHysteriaFits(entries: seq<Json>, clients: seq<AttachedClient>, tokens: int -> string, e: Json, c: AttachedClient)
    requires AllHysteriaFit(entries, clients, tokens) && HysteriaFits(e, c.client, tokens)
    ensures AllHysteriaFit(entries + [e], clients + [c], tokens)
  {
  }

  lemma {:induction false} VlessEntriesFit(clients: seq<AttachedClient>, mode: Mode)
    requires IsVless(mode)
    ensures var r := VlessEntries(clients, FlowOf(mode));
            && (r.Success? <==> forall i :: 0 <= i < |clients| ==> VlessReady(clients[i].client))
            && (r.Success? ==> AllVlessFit(r.value, clients, mode))
            && (r.Failure? ==> r.error == "managed_resource_drift")
  {
    if clients != [] {
      var init, last := clients[..|clients| - 1], clients[|clients| - 1];
      VlessEntriesFit(init, mode);
      assert clients == init + [last];
      var before := VlessEntries(init, FlowOf(mode));
      if before.Success? && VlessReady(last.client) {
        VlessEntryFits(last, mode);
        OneMoreVlessFits(before.value, init, mode, VlessEntry(last, FlowOf(mode)), last);
      }
    }
  }

  lemma {:induction false} HysteriaEntriesFit(clients: seq<AttachedClient>, tokens: int -> string)
    ensures var r := HysteriaEntries(clients, tokens);
            && (r.Success? <==> forall i :: 0 <= i < |clients| ==> HysteriaReady(clients[i].client, tokens))
            && (r.Success? ==> AllHysteriaFit(r.value.entries, clients, tokens))
            && (r.Failure? ==> r.error in {"managed_resource_drift", "credential_generation_failed"})
  {
    if clients != [] {
      var init, last := clients[..|clients| - 1], clients[|clients| - 1];
      HysteriaEntriesFit(init, tokens);
      assert clients == init + [last];
      var before := HysteriaEntries(init, tokens);
      if before.Success? && HysteriaReady(last.client, tokens) {
        var auth := if Text(last.client.auth) != "" then Text(last.client.auth) else tokens(last.client.id);
        HysteriaEntryFits(last, auth, tokens);
        OneMoreHysteriaFits(before.value.entries, init, tokens, HysteriaEntry(auth, last), last);
      }
    }
  }

  /** The client list of a template has one entry for every enabled client, in order, and
      each says of its client what the mode needs: uuid and email, the flow exactly in
      Vision mode; or the credential, the client's own or the one planned for it, and email. */
  lemma ClientsOfTemplate(config: Config, row: InboundRow, clients: seq<AttachedClient>, profile: Profile, mode: Mode, tokens: int -> string)
      returns (at: seq<nat>)
    requires BuildTemplate(config, row, clients, profile, mode, tokens).Success?
    ensures ListsEnabled(clients, at)
    ensures var t := BuildTemplate(config, row, clients, profile, mode, tokens).value;
            var list := Get(t.settings, "clients");
            && list.Arr? && |list.items| == |at| > 0
            && (IsVless(mode) ==> t.authUpdates == map[] && forall j :: 0 <= j < |at| ==> VlessFits(list.items[j], clients[at[j]].client, mode))
            && (mode.Hysteria2? ==> forall j :: 0 <= j < |at| ==> HysteriaFits(list.items[j], clients[at[j]].client, tokens))
            && (mode.Hysteria2? ==> forall j :: 0 <= j < |at| && Text(clients[at[j]].client.auth) == "" ==>
                  clients[at[j]].client.id in t.authUpdates && t.authUpdates[clients[at[j]].client.id] == tokens(clients[at[j]].client.id))
  {
    at := PositionsOfEnabled(clients);
    if IsVless(mode) {
      VlessEntriesFit(Enabled(clients), mode);
    } else {
      HysteriaEntriesFit(Enabled(clients), tokens);
      UpdatesAreForMissing(Enabled(clients), tokens);
    }
  }

  /** Identity and flags of a template are the row's own and the mode's. */
  lemma IdentityOfTemplate(config: Config, row: InboundRow, clients: seq<AttachedClient>, profile: Profile, mode: Mode, tokens: int -> string)
    requires BuildTemplate(config, row, clients, profile, mode, tokens).Success?
    ensures var t := BuildTemplate(config, row, clients, profile, mode, tokens).value;
            && t.id == row.id && t.remark == row.remark && t.listen == row.listen && t.port == row.port && t.tag == row.tag
            && t.sniffing == row.sniffing && (t.disableFlow <==> mode.VlessXhttp?)
            && (t.flow == if mode.VlessTcpVision? then "xtls-rprx-vision" else "")
            && t.stream == (if IsVless(mode) then VlessStream(mode, profile) else HysteriaStream(config, ServerName(config, profile)))
            && (mode.Hysteria2? ==> Truthy(ServerName(config, profile)))
  {
  }

  /** The stream of a VLESS mode carries the Reality material of the profile, and that of
      XHTTP its path. */
  lemma RealityStream(profile: Profile, mode: Mode)
    requires IsVless(mode)
    ensures var s := VlessStream(mode, profile);
            Get(s, "realitySettings") == profile.reality && Get(s, "tlsSettings") == Null
    ensures mode.VlessXhttp? ==>
            var s := VlessStream(mode, profile);
            && Get(Get(s, "xhttpSettings"), "path") == Str(profile.xhttpPath) && Get(Get(s, "xhttpSettings"), "mode") == Str("auto")
            && Get(Get(s, "sockopt"), "trustedXForwardedFor") == Arr([Str("127.0.0.1"), Str("::1")])
  {
  }

  /** The stream of Hysteria serves the configured certificate under the given name. */
  lemma TlsStream(config: Config, name: Json)
    ensures var s := HysteriaStream(config, name);
            && Get(s, "realitySettings") == Null && Get(Get(s, "hysteriaSettings"), "version") == Num(2)
            && Get(Get(s, "hysteriaSettings"), "udpIdleTimeout") == Num(60)
    ensures var tls := Get(HysteriaStream(config, name), "tlsSettings");
            && Get(tls, "serverName") == name
            && Get(tls, "minVersion") == Str("1.2") && Get(tls, "maxVersion") == Str("1.3") && Get(tls, "alpn") == Arr([Str("h3")])
  {
  }

  lemma CertificateOfStream(config: Config, name: Json)
    ensures var certificates := Get(Get(HysteriaStream(config, name), "tlsSettings"), "certificates");
            && certificates.Arr? && |certificates.items| == 1
            && Get(certificates.items[0], "certificateFile") == Str(config.certificatePath)
            && Get(certificates.items[0], "keyFile") == Str(config.privateKeyPath)
            && Get(certificates.items[0], "usage") == Str("encipherment")
            && Get(certificates.items[0], "oneTimeLoading") == Bool(false) && Get(certificates.items[0], "buildChain") == Bool(false)
            && Get(certificates.items[0], "ocspStapling") == Num(0)
  {
  }

  /** A name for TLS is there: the configured one, or else the first of the profile. */
  predicate Named(config: Config, profile: Profile) {
    config.tlsServerName != ""
    || var names := Get(profile.reality, "serverNames"); names.Arr? && names.items != [] && Truthy(names.items[0])
  }

  lemma NameIsChosen(config: Config, profile: Profile)
    ensures Truthy(ServerName(config, profile)) <==> Named(config, profile)
    ensures config.tlsServerName != "" ==> ServerName(config, profile) == Str(config.tlsServerName)
    ensures config.tlsServerName == "" && Named(config, profile) ==> ServerName(config, profile) == Get(profile.reality, "serverNames").items[0]
  {
  }

  /** The settings of a built template, read back: the Reality material and the path of the
      profile; or the configured certificate and key under the configured name or else the
      first name of the profile. */
  lemma SettingsOfTemplate(config: Config, row: InboundRow, clients: seq<AttachedClient>, profile: Profile, mode: Mode, tokens: int -> string)
    requires BuildTemplate(config, row, clients, profile, mode, tokens).Success?
    ensures var s := BuildTemplate(config, row, clients, profile, mode, tokens).value.stream;
            && (IsVless(mode) ==> Get(s, "realitySettings") == profile.reality)
            && (mode.VlessXhttp? ==> Get(Get(s, "xhttpSettings"), "path") == Str(profile.xhttpPath))
            && (mode.Hysteria2? ==>
                  var tls := Get(s, "tlsSettings");
                  && (config.tlsServerName != "" ==> Get(tls, "serverName") == Str(config.tlsServerName))
                  && (config.tlsServerName == "" ==> Named(config, profile) && Get(tls, "serverName") == Get(profile.reality, "serverNames").items[0])
                  && Get(tls, "certificates").Arr? && |Get(tls, "certificates").items| == 1
                  && Get(Get(tls, "certificates").items[0], "certificateFile") == Str(config.certificatePath)
                  && Get(Get(tls, "certificates").items[0], "keyFile") == Str(config.privateKeyPath))
  {
    IdentityOfTemplate(config, row, clients, profile, mode, tokens);
    NameIsChosen(config, profile);
    if IsVless(mode) {
      RealityStream(profile, mode);
    } else {
      TlsStream(config, ServerName(config, profile));
      CertificateOfStream(config, ServerName(config, profile));
    }
  }

  /** What the mode needs of a client. */
  predicate ModeReady(c: Client, mode: Mode, tokens: int -> string) {
    if IsVless(mode) then VlessReady(c) else HysteriaReady(c, tokens)
  }

  lemma AllEnabledReady(clients: seq<AttachedClient>, mode: Mode, tokens: int -> string)
    ensures Enabled(clients) != [] <==> exists i :: 0 <= i < |clients| && IsEnabled(clients[i])
    ensures (forall j :: 0 <= j < |Enabled(clients)| ==> ModeReady(Enabled(clients)[j].client, mode, tokens)) <==>
            (forall i :: 0 <= i < |clients| && IsEnabled(clients[i]) ==> ModeReady(clients[i].client, mode, tokens))
  {
    var at := PositionsOfEnabled(clients);
    forall i | 0 <= i < |clients| && IsEnabled(clients[i]) ensures exists j :: 0 <= j < |at| && Enabled(clients)[j] == clients[i] {
      var j :| 0 <= j < |at| && at[j] == i;
      assert Enabled(clients)[j] == clients[i];
    }
    if at != [] {
      assert IsEnabled(clients[at[0]]);
    }
  }

  /** A template can be built exactly if there is an enabled client, sniffing is an object,
      and every enabled client has what the mode needs, in Hysteria mode also a name. */
  lemma BuildSucceedsExactly(config: Config, row: InboundRow, clients: seq<AttachedClient>, profile: Profile, mode: Mode, tokens: int -> string)
    ensures BuildTemplate(config, row, clients, profile, mode, tokens).Success? <==>
            && (exists i :: 0 <= i < |clients| && IsEnabled(clients[i])) && row.sniffing.Obj?
            && (forall i :: 0 <= i < |clients| && IsEnabled(clients[i]) ==> ModeReady(clients[i].client, mode, tokens))
            && (mode.Hysteria2? ==> Named(config, profile))
  {
    AllEnabledReady(clients, mode, tokens);
    BuiltIfReady(config, row, clients, profile, mode, tokens);
  }

  lemma BuiltIfReady(config: Config, row: InboundRow, clients: seq<AttachedClient>, profile: Profile, mode: Mode, tokens: int -> string)
    ensures BuildTemplate(config, row, clients, profile, mode, tokens).Success? <==>
            && Enabled(clients) != [] && row.sniffing.Obj?
            && (forall j :: 0 <= j < |Enabled(clients)| ==> ModeReady(Enabled(clients)[j].client, mode, tokens))
            && (mode.Hysteria2? ==> Named(config, profile))
  {
    NameIsChosen(config, profile);
    if IsVless(mode) {
      VlessEntriesFit(Enabled(clients), mode);
    } else {
      HysteriaEntriesFit(Enabled(clients), tokens);
    }
  }
}
