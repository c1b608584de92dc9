/** The panel database and the two transactions the helper runs on it: writing the
    template of a new mode, and restoring the rows recorded in a snapshot.
    Models scripts/aimili_xui_protocol_transaction.py, `persist_template`,
    `_restore_database`, `_database_matches_snapshot` and
    `_validate_rollback_database_boundary`. */
module PanelDatabase {
  import opened Wrappers
  import opened FiniteSets
  import opened Json
  import opened PanelTemplate

  /** Link rows are keyed by (client id, inbound id) and hold `flow_override`. */
  type Links = map<(int, int), Option<string>>

  datatype Database = Database(inbounds: map<int, InboundRow>, clients: map<int, Client>, links: Links)

  datatype Request = Request(operation: string, egress: string, inbound: int, tag: string, port: int, oldMode: Mode, newMode: Mode)

  datatype Snapshot = Snapshot(
    request: Request,
    row: InboundRow,
    clients: seq<AttachedClient>,
    oldRuntime: Json,
    template: Template)

  /** Primary keys match the rows stored under them. */
  predicate WellKeyed(db: Database) {
    && (forall id :: id in db.inbounds ==> db.inbounds[id].id == id)
    && (forall id :: id in db.clients ==> db.clients[id].id == id)
  }

  // ------------------------------------------------------------ the client list

  function IdSet(clients: seq<AttachedClient>): set<int> {
    set c | c in clients :: c.client.id
  }

  function AttachedSet(db: Database, inbound: int): set<int> {
    set id | id in db.clients && (id, inbound) in db.links
  }

  predicate AscendingIds(clients: seq<AttachedClient>) {
    forall i, j :: 0 <= i < j < |clients| ==> clients[i].client.id < clients[j].client.id
  }

  /** The ids the join query returns now, `ORDER BY` client id, are those of `clients`. */
  predicate SameClients(db: Database, inbound: int, clients: seq<AttachedClient>) {
    AscendingIds(clients) && IdSet(clients) == AttachedSet(db, inbound)
  }

  /** `clients` is what `_load_attached_clients` returns. */
  predicate IsAttached(db: Database, inbound: int, clients: seq<AttachedClient>) {
    && SameClients(db, inbound, clients)
    && forall i :: 0 <= i < |clients| ==> IsJoined(db, inbound, clients[i])
  }

  predicate IsJoined(db: Database, inbound: int, c: AttachedClient) {
    && c.client.id in db.clients && (c.client.id, inbound) in db.links
    && c.client == db.clients[c.client.id]
    && c.flow == db.links[(c.client.id, inbound)]
  }

  lemma AscendingIsDistinct(clients: seq<AttachedClient>)
    requires AscendingIds(clients)
    ensures DistinctIds(clients)
  {
  }

  lemma InIdSet(clients: seq<AttachedClient>, id: int) returns (i: nat)
    requires id in IdSet(clients)
    ensures i < |clients| && clients[i].client.id == id
  {
    var c :| c in clients && c.client.id == id;
    i :| i < |clients| && clients[i] == c;
  }

  lemma IdSetSnoc(clients: seq<AttachedClient>)
    requires clients != [] && DistinctIds(clients)
    ensures var init, last := clients[..|clients| - 1], clients[|clients| - 1];
            IdSet(clients) == IdSet(init) + {last.client.id} && last.client.id !in IdSet(init) && DistinctIds(init)
  {
    var init, last := clients[..|clients| - 1], clients[|clients| - 1];
    assert clients == init + [last];
    if last.client.id in IdSet(init) {
      var i := InIdSet(init, last.client.id);
      assert false;
    }
  }

  /** The join query has one answer. */
  lemma {:induction false} AttachedUnique(db: Database, inbound: int, a: seq<AttachedClient>, b: seq<AttachedClient>)
    requires IsAttached(db, inbound, a) && IsAttached(db, inbound, b)
    ensures a == b
  {
    SameIdsSameOrder(a, b);
    forall i | 0 <= i < |a| ensures a[i] == b[i] {
      assert IsJoined(db, inbound, a[i]) && IsJoined(db, inbound, b[i]);
    }
  }

  lemma SameLast(a: seq<AttachedClient>, b: seq<AttachedClient>)
    requires AscendingIds(a) && AscendingIds(b) && IdSet(a) == IdSet(b) && a != []
    ensures b != [] && a[|a| - 1].client.id == b[|b| - 1].client.id
  {
    assert a[0] in a && a[0].client.id in IdSet(a);
    var i := InIdSet(b, a[0].client.id);
    var la, lb := a[|a| - 1], b[|b| - 1];
    assert la in a && lb in b && la.client.id in IdSet(a) && lb.client.id in IdSet(b);
    var j := InIdSet(b, la.client.id);
    var k := InIdSet(a, lb.client.id);
  }

  /** Without its last client, an ascending list has lost exactly that id. */
  lemma LastIdGone(a: seq<AttachedClient>)
    requires AscendingIds(a) && a != []
    ensures IdSet(a[..|a| - 1]) == IdSet(a) - {a[|a| - 1].client.id}
  {
    var init, last := a[..|a| - 1], a[|a| - 1].client.id;
    forall x ensures x in IdSet(init) <==> x in IdSet(a) && x != last {
      if x in IdSet(init) {
        var m := InIdSet(init, x);
        assert a[m] in a;
      }
      if x in IdSet(a) && x != last {
        var m := InIdSet(a, x);
        assert init[m] == a[m] && init[m] in init;
      }
    }
  }

  lemma AscendingPrefix(a: seq<AttachedClient>)
    requires AscendingIds(a) && a != []
    ensures AscendingIds(a[..|a| - 1])
  {
  }

  lemma {:induction false} SameIdsSameOrder(a: seq<AttachedClient>, b: seq<AttachedClient>)
    requires AscendingIds(a) && AscendingIds(b) && IdSet(a) == IdSet(b)
    ensures |a| == |b|
    ensures forall i :: 0 <= i < |a| ==> a[i].client.id == b[i].client.id
  {
    if a == [] {
      assert b == [] by {
        if b != [] {
          SameLast(b, a);
        }
      }
    } else {
      SameLast(a, b);
      LastIdGone(a);
      LastIdGone(b);
      var ia, ib := a[..|a| - 1], b[..|b| - 1];
      AscendingPrefix(a);
      AscendingPrefix(b);
      SameIdsSameOrder(ia, ib);
      forall i | 0 <= i < |a| ensures a[i].client.id == b[i].client.id {
        assert i < |ia| ==> ia[i] == a[i] && ib[i] == b[i];
      }
    }
  }

  /** Joins a set of client ids with their rows, in ascending order of id. */
  function JoinSet(db: Database, inbound: int, ids: set<int>): (r: seq<AttachedClient>)
    requires WellKeyed(db) && ids <= AttachedSet(db, inbound)
    ensures AscendingIds(r) && IdSet(r) == ids
    ensures forall i :: 0 <= i < |r| ==> IsJoined(db, inbound, r[i])
  {
    if ids == {} then []
    else
      assert exists m :: m in ids && forall x :: x in ids ==> x <= m by {
        var m := Greatest(ids);
      }
      var m :| m in ids && forall x :: x in ids ==> x <= m;
      var rest := JoinSet(db, inbound, ids - {m});
      var last := AttachedClient(db.clients[m], db.links[(m, inbound)]);
      JoinSnoc(db, inbound, ids, m, rest);
      rest + [last]
  }

  lemma JoinSnoc(db: Database, inbound: int, ids: set<int>, m: int, rest: seq<AttachedClient>)
    requires WellKeyed(db) && ids <= AttachedSet(db, inbound)
    requires m in ids && forall x :: x in ids ==> x <= m
    requires AscendingIds(rest) && IdSet(rest) == ids - {m}
    requires forall i :: 0 <= i < |rest| ==> IsJoined(db, inbound, rest[i])
    ensures var r := rest + [AttachedClient(db.clients[m], db.links[(m, inbound)])];
            && AscendingIds(r) && IdSet(r) == ids
            && forall i :: 0 <= i < |r| ==> IsJoined(db, inbound, r[i])
  {
    var last := AttachedClient(db.clients[m], db.links[(m, inbound)]);
    var r := rest + [last];
    forall i | 0 <= i < |rest| ensures rest[i].client.id < m {
      assert rest[i].client.id in IdSet(rest);
    }
    assert IdSet(r) == IdSet(rest) + {m} by {
      assert forall c :: c in r <==> c in rest || c == last;
    }
  }

  /** `_load_attached_clients`: the one answer of the join query. */
  function Attached(db: Database, inbound: int): (r: seq<AttachedClient>)
    requires WellKeyed(db)
    ensures IsAttached(db, inbound, r)
  {
    JoinSet(db, inbound, AttachedSet(db, inbound))
  }

  // ---------------------------------------------------------------- persisting

  /** The guarded updates `SET auth=? WHERE id=? AND (auth='' OR auth IS NULL)`. */
  predicate AuthsFree(clients: map<int, Client>, updates: map<int, string>) {
    forall id :: id in updates ==> id in clients && Text(clients[id].auth) == ""
  }

  function WithAuths(clients: map<int, Client>, updates: map<int, string>): map<int, Client> {
    map id | id in clients :: if id in updates then clients[id].(auth := Some(updates[id])) else clients[id]
  }

  /** The guarded flow updates, client after client. */
  function PersistFlows(links: Links, inbound: int, clients: seq<AttachedClient>, flow: string): Result<Links> {
    if clients == [] then Success(links)
    else
      var init, last := clients[..|clients| - 1], clients[|clients| - 1];
      match PersistFlows(links, inbound, init, flow)
      case Failure(e) => Failure(e)
      case Success(done) =>
        var key := (last.client.id, inbound);
        if key !in done || done[key] != last.flow then Failure("database_concurrent_change")
        else Success(done[key := Some(flow)])
  }

  predicate RowIsCurrent(db: Database, row: InboundRow) {
    row.id in db.inbounds && db.inbounds[row.id].tag == row.tag && db.inbounds[row.id].port == row.port
  }

  /** What `persist_template` leaves behind: a new database, or a failure and no change. */
  function Persist(db: Database, row: InboundRow, clients: seq<AttachedClient>, t: Template): Result<Database> {
    if !RowIsCurrent(db, row) then Failure("database_concurrent_change")
    else if !AuthsFree(db.clients, t.authUpdates) then Failure("database_concurrent_change")
    else if !SameClients(db, row.id, clients) then Failure("database_concurrent_change")
    else
      match PersistFlows(db.links, row.id, clients, t.flow)
      case Failure(e) => Failure(e)
      case Success(links) =>
        Success(Database(db.inbounds[row.id := Overwrite(db.inbounds[row.id], t)], WithAuths(db.clients, t.authUpdates), links))
  }

  // ----------------------------------------------------------------- restoring

  /** `_validated_snapshot_clients` and `_snapshot_auth_updates`: a snapshot is usable
      only if it lists clients, every flow override is text, and every planned
      credential belongs to a listed client. */
  predicate SnapshotUsable(s: Snapshot) {
    && FlowsRecorded(s)
    && s.template.authUpdates.Keys <= IdSet(s.clients)
  }

  predicate FlowsRecorded(s: Snapshot) {
    s.clients != [] && forall i :: 0 <= i < |s.clients| ==> s.clients[i].flow.Some?
  }

  function RestoreColumns(row: InboundRow, saved: InboundRow): InboundRow {
    row.(protocol := saved.protocol, settings := saved.settings, stream := saved.stream,
         sniffing := saved.sniffing, disableFlow := saved.disableFlow)
  }

  /** The values an operation may find at one of its clients: its own old or its own
      planned ones. */
  predicate Own(db: Database, inbound: int, c: AttachedClient, t: Template) {
    var id := c.client.id;
    && (id in t.authUpdates ==>
          id in db.clients && (db.clients[id].auth == c.client.auth || db.clients[id].auth == Some(t.authUpdates[id])))
    && (id, inbound) in db.links
    && (db.links[(id, inbound)] == c.flow || db.links[(id, inbound)] == Some(t.flow))
  }

  /** One turn of the restore loop: the credential, then the flow override. */
  function RestoreClient(db: Database, inbound: int, c: AttachedClient, t: Template): Result<Database> {
    var id := c.client.id;
    if id in t.authUpdates && id !in db.clients then Failure("database_concurrent_change")
    else if && id in t.authUpdates
            && db.clients[id].auth != c.client.auth
            && db.clients[id].auth != Some(t.authUpdates[id]) then Failure("database_concurrent_change")
    else
      var clients :=
        if id in t.authUpdates && db.clients[id].auth != c.client.auth then db.clients[id := db.clients[id].(auth := c.client.auth)]
        else db.clients;
      if (id, inbound) !in db.links then Failure("database_concurrent_change")
      else if db.links[(id, inbound)] == c.flow then Success(db.(clients := clients))
      else if db.links[(id, inbound)] != Some(t.flow) then Failure("database_concurrent_change")
      else Success(db.(clients := clients, links := db.links[(id, inbound) := c.flow]))
  }

  function RestoreClients(db: Database, inbound: int, clients: seq<AttachedClient>, t: Template): Result<Database> {
    if clients == [] then Success(db)
    else
      match RestoreClients(db, inbound, clients[..|clients| - 1], t)
      case Failure(e) => Failure(e)
      case Success(done) => RestoreClient(done, inbound, clients[|clients| - 1], t)
  }

  function WithColumns(db: Database, saved: InboundRow): Database
    requires saved.id in db.inbounds
  {
    db.(inbounds := db.inbounds[saved.id := RestoreColumns(db.inbounds[saved.id], saved)])
  }

  /** What `_restore_database` leaves behind. */
  function Restore(db: Database, s: Snapshot): Result<Database> {
    if !SnapshotUsable(s) then Failure("snapshot_invalid")
    else if !SameClients(db, s.row.id, s.clients) then Failure("database_concurrent_change")
    else if !RowIsCurrent(db, s.row) then Failure("database_concurrent_change")
    else RestoreClients(WithColumns(db, s.row), s.row.id, s.clients, s.template)
  }

  predicate ColumnsMatch(row: InboundRow, saved: InboundRow) {
    row.protocol == saved.protocol && row.settings == saved.settings && row.stream == saved.stream
    && row.sniffing == saved.sniffing && row.disableFlow == saved.disableFlow
  }

  predicate ClientMatches(db: Database, inbound: int, c: AttachedClient, t: Template) {
    && c.client.id in db.clients && (c.client.id, inbound) in db.links
    && db.links[(c.client.id, inbound)] == c.flow
    && (c.client.id in t.authUpdates ==> db.clients[c.client.id].auth == c.client.auth)
  }

  /** `_database_matches_snapshot`, for a usable snapshot whose row exists. */
  predicate Matches(db: Database, s: Snapshot) {
    && s.row.id in db.inbounds
    && ColumnsMatch(db.inbounds[s.row.id], s.row)
    && SameClients(db, s.row.id, s.clients)
    && forall i :: 0 <= i < |s.clients| ==> ClientMatches(db, s.row.id, s.clients[i], s.template)
  }

  /** `_validate_rollback_database_boundary`: nothing but the operation itself may have
      touched the client list, its flow overrides or the credentials it planned. */
  function Boundary(db: Database, s: Snapshot): Result<()> {
    if !SnapshotUsable(s) then Failure("snapshot_invalid")
    else if !SameClients(db, s.row.id, s.clients) then Failure("database_concurrent_change")
    else if exists i :: 0 <= i < |s.clients| && !Own(db, s.row.id, s.clients[i], s.template) then Failure("database_concurrent_change")
    else Success(())
  }

  // ------------------------------------------------------------- meaning of the loops

  lemma {:induction false} PersistFlowsMeans(links: Links, inbound: int, clients: seq<AttachedClient>, flow: string)
    requires DistinctIds(clients)
    ensures PersistFlows(links, inbound, clients, flow).Success? <==> FlowsAsListed(links, inbound, clients)
    ensures PersistFlows(links, inbound, clients, flow).Success? ==>
              FlowsSet(links, inbound, clients, flow, PersistFlows(links, inbound, clients, flow).value)
  {
    if clients != [] {
      var n := |clients| - 1;
      var init, last := clients[..n], clients[n];
      IdSetSnoc(clients);
      PersistFlowsMeans(links, inbound, init, flow);
      assert FlowsAsListed(links, inbound, clients) <==>
             FlowsAsListed(links, inbound, init) && (last.client.id, inbound) in links && links[(last.client.id, inbound)] == last.flow by {
        assert forall i :: 0 <= i < n ==> init[i] == clients[i];
      }
    }
  }

  predicate FlowsAsListed(links: Links, inbound: int, clients: seq<AttachedClient>) {
    forall i :: 0 <= i < |clients| ==> (clients[i].client.id, inbound) in links && links[(clients[i].client.id, inbound)] == clients[i].flow
  }

  predicate FlowsSet(links: Links, inbound: int, clients: seq<AttachedClient>, flow: string, r: Links) {
    && r.Keys == links.Keys
    && forall key :: key in links ==> r[key] == if key.1 == inbound && key.0 in IdSet(clients) then Some(flow) else links[key]
  }

  /** The restore loop, whatever it started from: it succeeds exactly when every listed
      client carries the operation's own values, and then puts back the recorded ones
      and nothing else. */
  lemma {:induction false} RestoreClientsMeans(db: Database, inbound: int, clients: seq<AttachedClient>, t: Template)
    requires DistinctIds(clients)
    ensures RestoreClients(db, inbound, clients, t).Success? <==> AllOwn(db, inbound, clients, t)
    ensures RestoreClients(db, inbound, clients, t).Success? ==>
              RestoredTo(db, inbound, clients, t, RestoreClients(db, inbound, clients, t).value)
  {
    if clients != [] {
      var n := |clients| - 1;
      var init, last := clients[..n], clients[n];
      IdSetSnoc(clients);
      RestoreClientsMeans(db, inbound, init, t);
      assert AllOwn(db, inbound, clients, t) <==> AllOwn(db, inbound, init, t) && Own(db, inbound, last, t) by {
        assert forall i :: 0 <= i < n ==> init[i] == clients[i];
      }
      if RestoreClients(db, inbound, init, t).Success? {
        RestoreOneMore(db, inbound, clients, t, RestoreClients(db, inbound, init, t).value);
      }
    }
  }

  predicate AllOwn(db: Database, inbound: int, clients: seq<AttachedClient>, t: Template) {
    forall i :: 0 <= i < |clients| ==> Own(db, inbound, clients[i], t)
  }

  /** One turn of the restore changes at most the credential and the flow of one client. */
  lemma RestoreClientMeans(db: Database, inbound: int, c: AttachedClient, t: Template)
    requires RestoreClient(db, inbound, c, t).Success?
    ensures var r := RestoreClient(db, inbound, c, t).value;
            && r.inbounds == db.inbounds && r.clients.Keys == db.clients.Keys && r.links.Keys == db.links.Keys
            && (c.client.id in t.authUpdates ==>
                  c.client.id in db.clients && r.clients[c.client.id] == db.clients[c.client.id].(auth := c.client.auth))
            && (forall x :: x in db.clients && (x != c.client.id || x !in t.authUpdates) ==> r.clients[x] == db.clients[x])
            && (c.client.id, inbound) in db.links && r.links[(c.client.id, inbound)] == c.flow
            && (forall x :: x in db.links && x != (c.client.id, inbound) ==> r.links[x] == db.links[x])
  {
  }

  lemma RestoreOneMore(db: Database, inbound: int, clients: seq<AttachedClient>, t: Template, done: Database)
    requires clients != [] && DistinctIds(clients)
    requires RestoredTo(db, inbound, clients[..|clients| - 1], t, done)
    ensures var last := clients[|clients| - 1];
            && (RestoreClient(done, inbound, last, t).Success? <==> Own(db, inbound, last, t))
            && (RestoreClient(done, inbound, last, t).Success? ==>
                  RestoredTo(db, inbound, clients, t, RestoreClient(done, inbound, last, t).value))
  {
    var n := |clients| - 1;
    var init, last := clients[..n], clients[n];
    IdSetSnoc(clients);
    var id, key := last.client.id, (last.client.id, inbound);
    assert id in db.clients ==> done.clients[id] == db.clients[id];
    assert key in db.links ==> done.links[key] == db.links[key];
    if RestoreClient(done, inbound, last, t).Success? {
      RestoreClientMeans(done, inbound, last, t);
      OneMoreRestored(db, inbound, clients, t, done, RestoreClient(done, inbound, last, t).value);
    }
  }

  lemma OneMoreRestored(db: Database, inbound: int, clients: seq<AttachedClient>, t: Template, done: Database, r: Database)
    requires clients != [] && DistinctIds(clients) && IdSet(clients) == IdSet(clients[..|clients| - 1]) + {clients[|clients| - 1].client.id}
    requires RestoredTo(db, inbound, clients[..|clients| - 1], t, done)
    requires r.inbounds == done.inbounds && r.clients.Keys == done.clients.Keys && r.links.Keys == done.links.Keys
    requires var c := clients[|clients| - 1];
             && (c.client.id in db.clients ==> done.clients[c.client.id] == db.clients[c.client.id])
             && (c.client.id in t.authUpdates ==> c.client.id in done.clients && r.clients[c.client.id] == done.clients[c.client.id].(auth := c.client.auth))
             && (forall x :: x in done.clients && (x != c.client.id || x !in t.authUpdates) ==> r.clients[x] == done.clients[x])
             && (c.client.id, inbound) in done.links && r.links[(c.client.id, inbound)] == c.flow
             && (forall x :: x in done.links && x != (c.client.id, inbound) ==> r.links[x] == done.links[x])
    ensures RestoredTo(db, inbound, clients, t, r)
  {
    var n := |clients| - 1;
    var init := clients[..n];
    forall i | 0 <= i < |clients|
      ensures clients[i].client.id in t.authUpdates ==>
                var x := clients[i].client.id; x in db.clients && r.clients[x] == db.clients[x].(auth := clients[i].client.auth)
      ensures var k := (clients[i].client.id, inbound); k in db.links && r.links[k] == clients[i].flow
    {
      assert i < n ==> init[i] == clients[i];
    }
  }

  predicate RestoredTo(db: Database, inbound: int, clients: seq<AttachedClient>, t: Template, r: Database) {
    && r.inbounds == db.inbounds
    && r.clients.Keys == db.clients.Keys
    && r.links.Keys == db.links.Keys
    && (forall i :: 0 <= i < |clients| && clients[i].client.id in t.authUpdates ==>
          var id := clients[i].client.id; id in db.clients && r.clients[id] == db.clients[id].(auth := clients[i].client.auth))
    && (forall id :: id in db.clients && (id !in t.authUpdates || id !in IdSet(clients)) ==> r.clients[id] == db.clients[id])
    && (forall i :: 0 <= i < |clients| ==>
          var key := (clients[i].client.id, inbound); key in db.links && r.links[key] == clients[i].flow)
    && (forall key :: key in db.links && (key.1 != inbound || key.0 !in IdSet(clients)) ==> r.links[key] == db.links[key])
  }

  // --------------------------------------------------------------- undo is exact

  /** The database `mid` differs from `before` at most by what the operation `s` itself
      writes: the columns of its row, the flow of its links (old or planned) and the
      planned credentials (old or planned). */
  predicate Between(before: Database, mid: Database, s: Snapshot) {
    BetweenInbounds(before, mid, s) && BetweenClients(before, mid, s) && BetweenLinks(before, mid, s)
  }

  predicate BetweenInbounds(before: Database, mid: Database, s: Snapshot) {
    && s.row.id in before.inbounds && s.row.id in mid.inbounds
    && mid.inbounds == before.inbounds[s.row.id := mid.inbounds[s.row.id]]
    && RestoreColumns(mid.inbounds[s.row.id], before.inbounds[s.row.id]) == before.inbounds[s.row.id]
  }

  predicate BetweenClients(before: Database, mid: Database, s: Snapshot) {
    && mid.clients.Keys == before.clients.Keys
    && forall id :: id in before.clients ==>
         || mid.clients[id] == before.clients[id]
         || (id in s.template.authUpdates && mid.clients[id] == before.clients[id].(auth := Some(s.template.authUpdates[id])))
  }

  predicate BetweenLinks(before: Database, mid: Database, s: Snapshot) {
    && mid.links.Keys == before.links.Keys
    && forall key :: key in before.links ==>
         || mid.links[key] == before.links[key]
         || (key.1 == s.row.id && key.0 in IdSet(s.clients) && mid.links[key] == Some(s.template.flow))
  }

  /** `s` is the snapshot the helper takes of `before`. */
  predicate SnapshotOf(before: Database, s: Snapshot) {
    && WellKeyed(before)
    && s.row.id in before.inbounds
    && s.row == before.inbounds[s.row.id]
    && IsAttached(before, s.row.id, s.clients)
    && s.template.authUpdates.Keys <= IdSet(s.clients)
    && AuthsFree(before.clients, s.template.authUpdates)
  }

  lemma SameAttached(before: Database, mid: Database, s: Snapshot)
    requires SnapshotOf(before, s) && Between(before, mid, s)
    ensures SameClients(mid, s.row.id, s.clients)
  {
    assert AttachedSet(mid, s.row.id) == AttachedSet(before, s.row.id);
  }

  lemma BetweenIsOwn(before: Database, mid: Database, s: Snapshot)
    requires SnapshotOf(before, s) && Between(before, mid, s)
    ensures forall i :: 0 <= i < |s.clients| ==> Own(mid, s.row.id, s.clients[i], s.template)
  {
    forall i | 0 <= i < |s.clients| ensures Own(mid, s.row.id, s.clients[i], s.template) {
      assert IsJoined(before, s.row.id, s.clients[i]);
    }
  }

  /** Undo is exact. From any database that lies between the one the snapshot was taken
      of and the one the operation wants, for any number of clients and any modes,
      restoring gives back the earlier database as a whole; and it does so exactly when
      the inbound had a client and no flow override was NULL. */
  lemma UndoIsExact(before: Database, mid: Database, s: Snapshot)
    requires SnapshotOf(before, s) && Between(before, mid, s)
    ensures Restore(mid, s) == if FlowsRecorded(s) then Success(before) else Failure("snapshot_invalid")
  {
    if FlowsRecorded(s) {
      AscendingIsDistinct(s.clients);
      SameAttached(before, mid, s);
      var start := WithColumns(mid, s.row);
      assert start.inbounds == before.inbounds;
      BetweenIsOwn(before, start, s);
      RestoreClientsMeans(start, s.row.id, s.clients, s.template);
      RestoredIsBefore(before, start, s, RestoreClients(start, s.row.id, s.clients, s.template).value);
    }
  }

  lemma RestoredIsBefore(before: Database, start: Database, s: Snapshot, r: Database)
    requires SnapshotOf(before, s) && Between(before, start, s) && start.inbounds == before.inbounds
    requires RestoredTo(start, s.row.id, s.clients, s.template, r)
    ensures r == before
  {
    forall id | id in before.clients ensures r.clients[id] == before.clients[id] {
      if id in s.template.authUpdates {
        var i := InIdSet(s.clients, id);
        assert IsJoined(before, s.row.id, s.clients[i]);
      }
    }
    assert r.clients == before.clients;
    forall key | key in before.links ensures r.links[key] == before.links[key] {
      if key.1 == s.row.id && key.0 in IdSet(s.clients) {
        var i := InIdSet(s.clients, key.0);
        assert IsJoined(before, s.row.id, s.clients[i]);
        assert key == (s.clients[i].client.id, s.row.id);
      }
    }
    assert r.links == before.links;
  }

  /** Writing the template of a fresh snapshot succeeds, lands between the two ends,
      and leaves the target row and its clients as the template describes them. */
  lemma PersistLandsBetween(before: Database, s: Snapshot)
    requires SnapshotOf(before, s)
    ensures Persist(before, s.row, s.clients, s.template).Success?
    ensures var after := Persist(before, s.row, s.clients, s.template).value;
            && Between(before, after, s)
            && after.inbounds[s.row.id] == Overwrite(s.row, s.template)
            && IsAttached(after, s.row.id, StampedAll(s.clients, s.template))
            && WellKeyed(after)
  {
    PersistSucceeds(before, s);
    var after := Persist(before, s.row, s.clients, s.template).value;
    assert BetweenInbounds(before, after, s);
    assert BetweenClients(before, after, s);
    assert BetweenLinks(before, after, s);
    SameAttached(before, after, s);
    StampedIds(s.clients, s.template);
    var now, was := StampedAll(s.clients, s.template), s.clients;
    forall i | 0 <= i < |now| ensures IsJoined(after, s.row.id, now[i]) {
      assert IsJoined(before, s.row.id, was[i]);
      assert was[i].client.id in IdSet(was);
    }
  }

  lemma PersistSucceeds(before: Database, s: Snapshot)
    requires SnapshotOf(before, s)
    ensures Persist(before, s.row, s.clients, s.template).Success?
    ensures var after := Persist(before, s.row, s.clients, s.template).value;
            && after.inbounds == before.inbounds[s.row.id := Overwrite(s.row, s.template)]
            && after.clients == WithAuths(before.clients, s.template.authUpdates)
            && FlowsSet(before.links, s.row.id, s.clients, s.template.flow, after.links)
  {
    AscendingIsDistinct(s.clients);
    assert FlowsAsListed(before.links, s.row.id, s.clients) by {
      assert forall i :: 0 <= i < |s.clients| ==> IsJoined(before, s.row.id, s.clients[i]);
    }
    PersistFlowsMeans(before.links, s.row.id, s.clients, s.template.flow);
  }

  lemma StampedIds(clients: seq<AttachedClient>, t: Template)
    ensures IdSet(StampedAll(clients, t)) == IdSet(clients)
  {
    var now := StampedAll(clients, t);
    forall x ensures x in IdSet(now) <==> x in IdSet(clients) {
      if x in IdSet(now) { var i := InIdSet(now, x); assert clients[i] in clients; }
      if x in IdSet(clients) { var i := InIdSet(clients, x); assert now[i] in now; }
    }
  }

  /** Apply then undo is the identity on the whole database, and so is an undo of nothing,
      for every snapshot the helper can take, exactly when no flow override was NULL. */
  lemma PersistThenRestore(before: Database, s: Snapshot)
    requires SnapshotOf(before, s)
    ensures Persist(before, s.row, s.clients, s.template).Success?
    ensures Restore(Persist(before, s.row, s.clients, s.template).value, s) == Success(before) <==> FlowsRecorded(s)
    ensures Restore(before, s) == Success(before) <==> FlowsRecorded(s)
  {
    PersistLandsBetween(before, s);
    assert Between(before, before, s) by {
      assert before.inbounds == before.inbounds[s.row.id := before.inbounds[s.row.id]];
    }
    UndoIsExact(before, Persist(before, s.row, s.clients, s.template).value, s);
    UndoIsExact(before, before, s);
  }

  /** A NULL flow override makes an operation that can be applied but not undone. */
  lemma NullFlowCannotBeUndone(before: Database, s: Snapshot, i: nat)
    requires SnapshotOf(before, s) && i < |s.clients| && s.clients[i].flow.None?
    ensures Persist(before, s.row, s.clients, s.template).Success?
    ensures Restore(Persist(before, s.row, s.clients, s.template).value, s) == Failure("snapshot_invalid")
    ensures Boundary(Persist(before, s.row, s.clients, s.template).value, s) == Failure("snapshot_invalid")
  {
    PersistLandsBetween(before, s);
    UndoIsExact(before, Persist(before, s.row, s.clients, s.template).value, s);
  }

  /** Writing the template again from anywhere between the two ends stays between them. */
  lemma PersistStaysBetween(before: Database, mid: Database, s: Snapshot)
    requires SnapshotOf(before, s) && Between(before, mid, s)
    requires Persist(mid, s.row, s.clients, s.template).Success?
    ensures Between(before, Persist(mid, s.row, s.clients, s.template).value, s)
    ensures Wrote(Persist(mid, s.row, s.clients, s.template).value, s)
  {
    AscendingIsDistinct(s.clients);
    PersistFlowsMeans(mid.links, s.row.id, s.clients, s.template.flow);
    var after := Persist(mid, s.row, s.clients, s.template).value;
    assert BetweenInbounds(before, after, s);
    assert BetweenClients(before, after, s);
    assert BetweenLinks(before, after, s);
    assert forall i :: 0 <= i < |s.clients| ==> IsJoined(before, s.row.id, s.clients[i]);
  }

  /** Every value the operation plans is in the database. */
  predicate Wrote(db: Database, s: Snapshot) {
    && s.row.id in db.inbounds
    && ColumnsMatch(db.inbounds[s.row.id], Overwrite(s.row, s.template))
    && (forall id :: id in s.template.authUpdates ==> id in db.clients && db.clients[id].auth == Some(s.template.authUpdates[id]))
    && (forall i :: 0 <= i < |s.clients| ==>
          var key := (s.clients[i].client.id, s.row.id); key in db.links && db.links[key] == Some(s.template.flow))
  }

  /** Between its two ends, a database that holds every planned value is the one a single
      write produces. */
  lemma WroteMeansPersisted(before: Database, mid: Database, s: Snapshot)
    requires SnapshotOf(before, s) && Between(before, mid, s) && Wrote(mid, s)
    ensures Persist(before, s.row, s.clients, s.template) == Success(mid)
  {
    PersistSucceeds(before, s);
    var after := Persist(before, s.row, s.clients, s.template).value;
    assert after.inbounds == mid.inbounds;
    forall id | id in before.clients ensures after.clients[id] == mid.clients[id] {
      assert id in s.template.authUpdates ==> mid.clients[id].auth == Some(s.template.authUpdates[id]);
    }
    assert after.clients == mid.clients;
    forall key | key in before.links ensures after.links[key] == mid.links[key] {
      if key.1 == s.row.id && key.0 in IdSet(s.clients) {
        var i := InIdSet(s.clients, key.0);
        assert key == (s.clients[i].client.id, s.row.id);
      }
    }
    assert after.links == mid.links;
  }

  // ------------------------------------------------------------------- frames

  /** On any database at all, a successful restore changes nothing outside the target
      row, its own links and the planned credentials; and the target columns are the
      snapshot's. */
  lemma RestoreFrame(db: Database, s: Snapshot)
    requires Restore(db, s).Success?
    ensures var r := Restore(db, s).value;
            && s.row.id in db.inbounds
            && r.inbounds == db.inbounds[s.row.id := RestoreColumns(db.inbounds[s.row.id], s.row)]
            && r.clients.Keys == db.clients.Keys && r.links.Keys == db.links.Keys
            && (forall id :: id in db.clients && id !in s.template.authUpdates ==> r.clients[id] == db.clients[id])
            && (forall key :: key in db.links && (key.1 != s.row.id || key.0 !in IdSet(s.clients)) ==> r.links[key] == db.links[key])
  {
    AscendingIsDistinct(s.clients);
    RestoreClientsMeans(WithColumns(db, s.row), s.row.id, s.clients, s.template);
  }

  /** A successful write touches the five columns of the target row, credentials that were
      empty and the flow of the target's own links; the identity of the row stays. */
  lemma PersistFrame(db: Database, row: InboundRow, clients: seq<AttachedClient>, t: Template)
    requires Persist(db, row, clients, t).Success?
    ensures var r := Persist(db, row, clients, t).value;
            && row.id in db.inbounds
            && r.inbounds == db.inbounds[row.id := Overwrite(db.inbounds[row.id], t)]
            && SameIdentity(Overwrite(db.inbounds[row.id], t).(sniffing := db.inbounds[row.id].sniffing), db.inbounds[row.id])
            && r.clients.Keys == db.clients.Keys && r.links.Keys == db.links.Keys
            && (forall id :: id in db.clients && Text(db.clients[id].auth) != "" ==> r.clients[id] == db.clients[id])
            && (forall key :: key in db.links && (key.1 != row.id || key.0 !in IdSet(clients)) ==> r.links[key] == db.links[key])
  {
    AscendingIsDistinct(clients);
    PersistFlowsMeans(db.links, row.id, clients, t.flow);
  }

  /** After a successful restore the comparison with the snapshot succeeds. */
  lemma RestoredMatches(db: Database, s: Snapshot)
    requires Restore(db, s).Success?
    ensures Matches(Restore(db, s).value, s)
  {
    AscendingIsDistinct(s.clients);
    var start := WithColumns(db, s.row);
    RestoreClientsMeans(start, s.row.id, s.clients, s.template);
    var r := Restore(db, s).value;
    assert AttachedSet(r, s.row.id) == AttachedSet(db, s.row.id);
    forall i | 0 <= i < |s.clients| ensures ClientMatches(r, s.row.id, s.clients[i], s.template) {
      assert s.clients[i].client.id in IdSet(s.clients);
    }
  }

  lemma PersistedIsWrote(db: Database, s: Snapshot)
    requires Persist(db, s.row, s.clients, s.template).Success?
    ensures Wrote(Persist(db, s.row, s.clients, s.template).value, s)
  {
    AscendingIsDistinct(s.clients);
    PersistFlowsMeans(db.links, s.row.id, s.clients, s.template.flow);
    forall i | 0 <= i < |s.clients| ensures s.clients[i].client.id in IdSet(s.clients) {
    }
  }

  // ------------------------------------------------------ the transactions as loops

  /** `persist_template`: updates a working copy statement by statement; a failure at any
      statement discards it. */
  method RunPersist(db: Database, row: InboundRow, clients: seq<AttachedClient>, t: Template) returns (r: Result<Database>)
    ensures r == Persist(db, row, clients, t)
  {
    if row.id !in db.inbounds || db.inbounds[row.id].tag != row.tag || db.inbounds[row.id].port != row.port {
      return Failure("database_concurrent_change");
    }
    var work := db.(inbounds := db.inbounds[row.id := Overwrite(db.inbounds[row.id], t)]);
    var todo := t.authUpdates.Keys;
    while todo != {}
      invariant todo <= t.authUpdates.Keys
      invariant work.inbounds == db.inbounds[row.id := Overwrite(db.inbounds[row.id], t)] && work.links == db.links
      invariant work.clients.Keys == db.clients.Keys
      invariant forall id :: id in t.authUpdates && id !in todo ==> id in db.clients && Text(db.clients[id].auth) == ""
      invariant forall id :: id in db.clients ==>
                  work.clients[id] == if id in t.authUpdates && id !in todo then db.clients[id].(auth := Some(t.authUpdates[id])) else db.clients[id]
    {
      Inhabited(todo);
      var id :| id in todo;
      if id !in work.clients || Text(work.clients[id].auth) != "" {
        return Failure("database_concurrent_change");
      }
      work := work.(clients := work.clients[id := work.clients[id].(auth := Some(t.authUpdates[id]))]);
      todo := todo - {id};
    }
    assert AuthsFree(db.clients, t.authUpdates);
    assert forall id :: id in db.clients ==> work.clients[id] == WithAuths(db.clients, t.authUpdates)[id];
    assert work.clients == WithAuths(db.clients, t.authUpdates);
    if !SameClients(db, row.id, clients) {
      return Failure("database_concurrent_change");
    }
    var i := 0;
    while i < |clients|
      invariant 0 <= i <= |clients|
      invariant work.inbounds == db.inbounds[row.id := Overwrite(db.inbounds[row.id], t)]
      invariant work.clients == WithAuths(db.clients, t.authUpdates)
      invariant PersistFlows(db.links, row.id, clients[..i], t.flow) == Success(work.links)
    {
      var key := (clients[i].client.id, row.id);
      assert clients[..i + 1][..i] == clients[..i];
      if key !in work.links || work.links[key] != clients[i].flow {
        PersistFlowsFailsOn(db.links, row.id, clients, t.flow, i + 1);
        return Failure("database_concurrent_change");
      }
      work := work.(links := work.links[key := Some(t.flow)]);
      i := i + 1;
    }
    assert clients[..i] == clients;
    r := Success(work);
  }

  lemma {:induction false} PersistFlowsFailsOn(links: Links, inbound: int, clients: seq<AttachedClient>, flow: string, k: nat)
    requires k <= |clients| && PersistFlows(links, inbound, clients[..k], flow) == Failure("database_concurrent_change")
    ensures PersistFlows(links, inbound, clients, flow) == Failure("database_concurrent_change")
    decreases |clients|
  {
    if k == |clients| {
      assert clients[..k] == clients;
    } else {
      var init := clients[..|clients| - 1];
      assert init[..k] == clients[..k];
      PersistFlowsFailsOn(links, inbound, init, flow, k);
    }
  }

  /** One turn of the loop of `_restore_database`. */
  method RunRestoreClient(db: Database, inbound: int, c: AttachedClient, t: Template) returns (r: Result<Database>)
    ensures r == RestoreClient(db, inbound, c, t)
  {
    var id, key := c.client.id, (c.client.id, inbound);
    var work := db;
    if id in t.authUpdates {
      if id !in work.clients {
        return Failure("database_concurrent_change");
      }
      if work.clients[id].auth != c.client.auth {
        if work.clients[id].auth != Some(t.authUpdates[id]) {
          return Failure("database_concurrent_change");
        }
        work := work.(clients := work.clients[id := work.clients[id].(auth := c.client.auth)]);
      }
    }
    if key !in work.links {
      return Failure("database_concurrent_change");
    }
    if work.links[key] != c.flow {
      if work.links[key] != Some(t.flow) {
        return Failure("database_concurrent_change");
      }
      work := work.(links := work.links[key := c.flow]);
    }
    r := Success(work);
  }

  /** The loop of `_restore_database`. */
  method RunRestoreClients(start: Database, inbound: int, clients: seq<AttachedClient>, t: Template) returns (r: Result<Database>)
    ensures r == RestoreClients(start, inbound, clients, t)
  {
    var work := start;
    for i := 0 to |clients|
      invariant RestoreClients(start, inbound, clients[..i], t) == Success(work)
    {
      assert clients[..i + 1][..i] == clients[..i];
      var turn := RunRestoreClient(work, inbound, clients[i], t);
      if turn.Failure? {
        RestoreRefusals(start, inbound, clients[..i + 1], t);
        RestoreClientsFailsOn(start, inbound, clients, t, i + 1);
        return Failure("database_concurrent_change");
      }
      work := turn.value;
    }
    assert clients[..|clients|] == clients;
    r := Success(work);
  }

  /** `_restore_database`. */
  method RunRestore(db: Database, s: Snapshot) returns (r: Result<Database>)
    ensures r == Restore(db, s)
  {
    if !SnapshotUsable(s) {
      return Failure("snapshot_invalid");
    }
    if !SameClients(db, s.row.id, s.clients) || !RowIsCurrent(db, s.row) {
      return Failure("database_concurrent_change");
    }
    r := RunRestoreClients(WithColumns(db, s.row), s.row.id, s.clients, s.template);
  }

  lemma {:induction false} RestoreClientsFailsOn(db: Database, inbound: int, clients: seq<AttachedClient>, t: Template, k: nat)
    requires k <= |clients| && RestoreClients(db, inbound, clients[..k], t) == Failure("database_concurrent_change")
    ensures RestoreClients(db, inbound, clients, t) == Failure("database_concurrent_change")
    decreases |clients|
  {
    if k == |clients| {
      assert clients[..k] == clients;
    } else {
      var init := clients[..|clients| - 1];
      assert init[..k] == clients[..k];
      RestoreClientsFailsOn(db, inbound, init, t, k);
    }
  }

  /** `_database_matches_snapshot`. */
  method RunMatches(db: Database, s: Snapshot) returns (r: bool)
    requires s.row.id in db.inbounds
    ensures r == Matches(db, s)
  {
    if !ColumnsMatch(db.inbounds[s.row.id], s.row) || !SameClients(db, s.row.id, s.clients) {
      return false;
    }
    var i := 0;
    while i < |s.clients|
      invariant 0 <= i <= |s.clients|
      invariant forall k :: 0 <= k < i ==> ClientMatches(db, s.row.id, s.clients[k], s.template)
    {
      var c := s.clients[i];
      var key := (c.client.id, s.row.id);
      if c.client.id !in db.clients || key !in db.links || db.links[key] != c.flow {
        assert !ClientMatches(db, s.row.id, s.clients[i], s.template);
        return false;
      }
      if c.client.id in s.template.authUpdates && db.clients[c.client.id].auth != c.client.auth {
        assert !ClientMatches(db, s.row.id, s.clients[i], s.template);
        return false;
      }
      i := i + 1;
    }
    r := true;
  }

  /** `_validate_rollback_database_boundary`. */
  method RunBoundary(db: Database, s: Snapshot) returns (r: Result<()>)
    ensures r == Boundary(db, s)
  {
    if !SnapshotUsable(s) {
      return Failure("snapshot_invalid");
    }
    if !SameClients(db, s.row.id, s.clients) {
      return Failure("database_concurrent_change");
    }
    var i := 0;
    while i < |s.clients|
      invariant 0 <= i <= |s.clients|
      invariant forall k :: 0 <= k < i ==> Own(db, s.row.id, s.clients[k], s.template)
    {
      var c := s.clients[i];
      assert c.client.id in IdSet(s.clients);
      var flow := db.links[(c.client.id, s.row.id)];
      if flow != c.flow && flow != Some(s.template.flow) {
        assert !Own(db, s.row.id, s.clients[i], s.template);
        return Failure("database_concurrent_change");
      }
      if c.client.id in s.template.authUpdates {
        var auth := db.clients[c.client.id].auth;
        if auth != c.client.auth && auth != Some(s.template.authUpdates[c.client.id]) {
          assert !Own(db, s.row.id, s.clients[i], s.template);
          return Failure("database_concurrent_change");
        }
      }
      i := i + 1;
    }
    r := Success(());
  }

  /** `_verify_applied`, the database half. */
  method RunVerify(db: Database, s: Snapshot) returns (r: bool)
    ensures r == Wrote(db, s)
  {
    if s.row.id !in db.inbounds || !ColumnsMatch(db.inbounds[s.row.id], Overwrite(s.row, s.template)) {
      return false;
    }
    var todo := s.template.authUpdates.Keys;
    while todo != {}
      invariant todo <= s.template.authUpdates.Keys
      invariant forall id :: id in s.template.authUpdates && id !in todo ==>
                  id in db.clients && db.clients[id].auth == Some(s.template.authUpdates[id])
    {
      Inhabited(todo);
      var id :| id in todo;
      if id !in db.clients || db.clients[id].auth != Some(s.template.authUpdates[id]) {
        return false;
      }
      todo := todo - {id};
    }
    var i := 0;
    while i < |s.clients|
      invariant 0 <= i <= |s.clients|
      invariant forall k :: 0 <= k < i ==>
                  var key := (s.clients[k].client.id, s.row.id); key in db.links && db.links[key] == Some(s.template.flow)
    {
      var key := (s.clients[i].client.id, s.row.id);
      if key !in db.links || db.links[key] != Some(s.template.flow) {
        return false;
      }
      i := i + 1;
    }
    r := true;
  }

  lemma TransactionsKeepKeys(db: Database, s: Snapshot)
    requires WellKeyed(db)
    ensures Persist(db, s.row, s.clients, s.template).Success? ==> WellKeyed(Persist(db, s.row, s.clients, s.template).value)
    ensures Restore(db, s).Success? ==> WellKeyed(Restore(db, s).value)
  {
    if Restore(db, s).Success? {
      AscendingIsDistinct(s.clients);
      RestoreClientsMeans(WithColumns(db, s.row), s.row.id, s.clients, s.template);
      var r := Restore(db, s).value;
      forall id | id in r.clients ensures r.clients[id].id == id {
        if id in s.template.authUpdates && id in IdSet(s.clients) {
          var i := InIdSet(s.clients, id);
        }
      }
    }
  }

  /** Why only one operation may be open at a time. An operation left behind at its first
      snapshot passes its boundary check even after a later one with the same flow override
      was written and finalized, for the check does not look at the row; its undo then puts
      the whole database back to what it was before both. */
  lemma LeftBehindUndoRevertsALaterSwitch(before: Database, left: Snapshot, later: Snapshot)
    requires SnapshotOf(before, left) && SnapshotOf(before, later) && left.row.id == later.row.id
    requires left.template.flow == later.template.flow && left.template.authUpdates == later.template.authUpdates == map[]
    requires FlowsRecorded(left)
    ensures Persist(before, later.row, later.clients, later.template).Success?
    ensures var after := Persist(before, later.row, later.clients, later.template).value;
            && ColumnsMatch(after.inbounds[later.row.id], Overwrite(later.row, later.template))
            && Boundary(after, left).Success? && Restore(after, left) == Success(before)
  {
    PersistLandsBetween(before, later);
    var after := Persist(before, later.row, later.clients, later.template).value;
    AttachedUnique(before, left.row.id, left.clients, later.clients);
    assert Between(before, after, left);
    UndoIsExact(before, after, left);
    BoundaryDecidesRestore(after, left);
  }

  /** The only two things a restore is ever refused for. */
  lemma {:induction false} RestoreRefusals(db: Database, inbound: int, clients: seq<AttachedClient>, t: Template)
    ensures RestoreClients(db, inbound, clients, t).Failure? ==> RestoreClients(db, inbound, clients, t).error == "database_concurrent_change"
  {
    if clients != [] {
      RestoreRefusals(db, inbound, clients[..|clients| - 1], t);
    }
  }

  // ----------------------------------------------------------------- boundary

  /** The boundary check is neither too weak nor too strong: with the row still in place,
      it passes exactly when the restore it guards would succeed. */
  lemma BoundaryDecidesRestore(db: Database, s: Snapshot)
    ensures Restore(db, s).Success? <==> Boundary(db, s).Success? && RowIsCurrent(db, s.row)
  {
    if SnapshotUsable(s) && SameClients(db, s.row.id, s.clients) && RowIsCurrent(db, s.row) {
      AscendingIsDistinct(s.clients);
      var start := WithColumns(db, s.row);
      RestoreClientsMeans(start, s.row.id, s.clients, s.template);
      forall i | 0 <= i < |s.clients|
        ensures Own(start, s.row.id, s.clients[i], s.template) <==> Own(db, s.row.id, s.clients[i], s.template)
      {
      }
    }
  }

  /** Between its two ends an operation always passes its own boundary check, and the
      comparison with the snapshot recognises exactly the database before it. */
  lemma MatchingMeansBefore(before: Database, mid: Database, s: Snapshot)
    requires SnapshotOf(before, s) && Between(before, mid, s)
    ensures Boundary(mid, s).Success? <==> FlowsRecorded(s)
    ensures Matches(mid, s) <==> mid == before
  {
    SameAttached(before, mid, s);
    BetweenIsOwn(before, mid, s);
    assert forall i :: 0 <= i < |s.clients| ==> IsJoined(before, s.row.id, s.clients[i]);
    if Matches(mid, s) {
      assert mid.inbounds[s.row.id] == RestoreColumns(mid.inbounds[s.row.id], s.row);
      forall id | id in before.clients ensures mid.clients[id] == before.clients[id] {
        if id in s.template.authUpdates {
          var i := InIdSet(s.clients, id);
          assert ClientMatches(mid, s.row.id, s.clients[i], s.template);
        }
      }
      assert mid.clients == before.clients;
      forall key | key in before.links ensures mid.links[key] == before.links[key] {
        if key.1 == s.row.id && key.0 in IdSet(s.clients) {
          var i := InIdSet(s.clients, key.0);
          assert ClientMatches(mid, s.row.id, s.clients[i], s.template);
          assert key == (s.clients[i].client.id, s.row.id);
        }
      }
      assert mid.links == before.links;
    }
  }
}
