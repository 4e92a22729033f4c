/**
 * The handlers that share the node table: a report arriving (runtime/yanic.go),
 * an edit arriving (websocket/hd_node.go), a client connecting
 * (websocket/hd_connect.go). Each is given as a function on the shared state
 * and as the stateful method that refines it.
 */
module Server {
  import opened Common
  import opened Channels
  import opened Nodes
  import opened Ssh

  /** The node table, and the nodes broadcast to every client so far. */
  datatype State = State(db: map<string, Row>, sent: seq<Node>)

  /** The clock readings of one report: on entry, in Update, in TimeFilter. */
  datatype Clock = Clock(start: int, update: int, filter: int) {
    predicate Valid() { start <= update <= filter }
  }

  datatype Edit = Edit(nodeId: string, settings: Settings)

  // ----- single database statements

  function DbCreate(db: map<string, Row>, id: string, row: Row): (map<string, Row>, bool) {
    if id in db then (db, false) else (db[id := row], true)
  }

  function DbSeen(db: map<string, Row>, id: string, address: string, lastseen: int): map<string, Row> {
    if id in db then db[id := db[id].(address := address, lastseen := Some(lastseen))] else db
  }

  function DbBlacklist(db: map<string, Row>, id: string, blacklist: int): map<string, Row> {
    if id in db then db[id := db[id].(blacklist := Some(blacklist))] else db
  }

  // ----- the handlers as functions

  ghost function AfterReport(config: Config, oracle: nat -> bool, s: State, w: Wire, report: Report, clock: Clock): (State, Wire) {
    match report.nodeinfo
    case None => (s, w)
    case Some(info) =>
      if info.nodeId in s.db then AfterKnownReport(config, oracle, s, w, report, clock)
      else
        var node := FreshNode(config, report, clock.update);
        var (ok, w1) := Probe(oracle, w);
        var row := if ok then node.row else node.row.(blacklist := Some(clock.start));
        (State(DbCreate(s.db, info.nodeId, row).0, if ok then s.sent + [node] else s.sent), w1)
  }

  ghost function AfterKnownReport(config: Config, oracle: nat -> bool, s: State, w: Wire, report: Report, clock: Clock): (State, Wire)
    requires report.nodeinfo.Some? && report.nodeinfo.value.nodeId in s.db
  {
    var id := report.nodeinfo.value.nodeId;
    var n := Updated(config, Load(id, s.db[id]), report, clock.update);
    var db := DbSeen(s.db, id, n.row.address, clock.start);
    if TimeFilter(n.row, config.blacklistFor, clock.filter) then (s.(db := db), w)
    else if CheckRespondd(n.row.settings, n.respondd) then (State(db, s.sent + [n]), w)
    else
      var (ok, w1) := Push(oracle, config.plan, n, w);
      if ok then (State(db, s.sent + [n]), w1)
      else (s.(db := DbBlacklist(db, id, clock.start)), w1)
  }

  /** The second component is the answer sent back. */
  ghost function AfterEdit(config: Config, s: State, loggedIn: bool, body: Option<Edit>, writeOk: bool,
                           cached: Option<Report>, now: int): (State, bool) {
    if !loggedIn || body.None? || body.value.nodeId == "" || !writeOk then (s, false)
    else
      var Edit(id, settings) := body.value;
      var row := if id in s.db then s.db[id].(settings := settings) else Row(None, None, "", settings);
      (State(s.db[id := row], s.sent + [Shown(config, id, settings, cached, now)]), true)
  }

  /** The node an edit broadcasts: the desired tuple of the edit, overlaid with the latest report if there is one. */
  ghost function Shown(config: Config, id: string, settings: Settings, cached: Option<Report>, now: int): Node {
    var node := Load(id, Row(None, None, "", settings));
    if cached.None? then node else Updated(config, node, cached.value, now)
  }

  /** The nodes written to a client that connects, for the rows in the order the query returned them. */
  ghost function Snapshot(config: Config, db: map<string, Row>, ids: seq<string>, cache: map<string, Report>, now: nat -> int): seq<Node>
    requires forall id | id in ids :: id in db
  {
    if ids == [] then []
    else
      var k := |ids| - 1;
      var id := ids[k];
      Snapshot(config, db, ids[..k], cache, now) +
      (if TimeFilter(db[id], config.blacklistFor, now(k)) then []
       else [if id in cache then Updated(config, Load(id, db[id]), cache[id], now(k)) else Load(id, db[id])])
  }

  /** What a connecting client is sent. */
  datatype ClientMessage = NodeMessage(node: Node) | Wifi24Message(channels: seq<nat>) | Wifi5Message(channels: seq<nat>)

  function AsMessages(nodes: seq<Node>): seq<ClientMessage> {
    seq(|nodes|, k requires 0 <= k < |nodes| => NodeMessage(nodes[k]))
  }

  // ----- one atomic handler of any kind

  datatype Action =
    | ReportAction(report: Report, clock: Clock, oracle: nat -> bool, wire: Wire)
    | EditAction(loggedIn: bool, body: Option<Edit>, writeOk: bool, cached: Option<Report>, now: int)
    | ConnectAction(ids: seq<string>, cache: map<string, Report>, times: nat -> int)
    | PingAction(ids: seq<string>, times: nat -> int)

  ghost function Act(config: Config, s: State, a: Action): State {
    match a
    case ReportAction(report, clock, oracle, wire) => AfterReport(config, oracle, s, wire, report, clock).0
    case EditAction(loggedIn, body, writeOk, cached, now) => AfterEdit(config, s, loggedIn, body, writeOk, cached, now).0
    case ConnectAction(_, _, _) => s
    case PingAction(_, _) => s
  }

  /** From s to s1 at most one node was broadcast, and it and all other stored tuples are as they should be. */
  ghost predicate TellsTheTable(s: State, s1: State) {
    && (s1.sent == s.sent || (s1.sent != [] && s1.sent == s.sent + [s1.sent[|s1.sent| - 1]]))
    && (s1.sent != s.sent ==>
          var node := s1.sent[|s1.sent| - 1];
          node.nodeId in s1.db && s1.db[node.nodeId].settings == node.row.settings)
    && forall id | id in s.db ::
         && id in s1.db
         && (s1.db[id].settings == s.db[id].settings || (s1.sent != s.sent && s1.sent[|s1.sent| - 1].nodeId == id))
  }

  /**
   * A handler broadcasts at most one node. What it broadcasts is what the table
   * then holds for that node; every other stored tuple stays as it was.
   */
  lemma BroadcastIsStored(config: Config, s: State, a: Action)
    ensures TellsTheTable(s, Act(config, s, a))
  {
    match a
    case ReportAction(report, clock, oracle, wire) => ReportTellsTheTable(config, oracle, s, wire, report, clock);
    case EditAction(loggedIn, body, writeOk, cached, now) =>
      var s1 := Act(config, s, a);
      assert s1.sent != s.sent ==> s1.sent == s.sent + [s1.sent[|s.sent|]];
    case _ =>
  }

  lemma ReportTellsTheTable(config: Config, oracle: nat -> bool, s: State, w: Wire, report: Report, clock: Clock)
    ensures TellsTheTable(s, AfterReport(config, oracle, s, w, report, clock).0)
  {
    if report.nodeinfo.Some? {
      var id := report.nodeinfo.value.nodeId;
      if id in s.db {
        var n := Updated(config, Load(id, s.db[id]), report, clock.update);
        KnownReportEffect(config, oracle, s, w, report, clock);
        var s1 := AfterReport(config, oracle, s, w, report, clock).0;
        assert s1.sent != s.sent ==> s1.sent[|s.sent|] == n;
      }
    }
  }

  /** A report of a known node writes its row in some columns other than the desired tuple, and broadcasts it or nothing. */
  lemma KnownReportEffect(config: Config, oracle: nat -> bool, s: State, w: Wire, report: Report, clock: Clock)
    requires report.nodeinfo.Some? && report.nodeinfo.value.nodeId in s.db
    ensures var id := report.nodeinfo.value.nodeId;
            var n := Updated(config, Load(id, s.db[id]), report, clock.update);
            var s1 := AfterReport(config, oracle, s, w, report, clock).0;
            && n.nodeId == id && n.row.settings == s.db[id].settings
            && (s1.sent == s.sent || s1.sent == s.sent + [n])
            && (exists row: Row :: row.settings == s.db[id].settings && s1.db == s.db[id := row])
  {
    var id := report.nodeinfo.value.nodeId;
    var n := Updated(config, Load(id, s.db[id]), report, clock.update);
    var seen := s.db[id].(address := n.row.address, lastseen := Some(clock.start));
    var s1 := AfterReport(config, oracle, s, w, report, clock).0;
    assert s1.db == s.db[id := seen] || s1.db == s.db[id := seen.(blacklist := Some(clock.start))];
  }

  // ----- the handlers as the stateful code they are

  class Database {
    var rows: map<string, Row>

    method First(id: string) returns (row: Option<Row>)
      ensures row == if id in rows then Some(rows[id]) else None
    {
      row := if id in rows then Some(rows[id]) else None;
    }

    method Create(id: string, row: Row) returns (ok: bool)
      modifies this
      ensures (rows, ok) == DbCreate(old(rows), id, row)
    {
      ok := id !in rows;
      if ok {
        rows := rows[id := row];
      }
    }

    method Save(id: string, row: Row)
      modifies this
      ensures rows == old(rows)[id := row]
    {
      rows := rows[id := row];
    }

    method UpdateSeen(id: string, address: string, lastseen: int)
      modifies this
      ensures rows == DbSeen(old(rows), id, address, lastseen)
    {
      if id in rows {
        rows := rows[id := rows[id].(address := address, lastseen := Some(lastseen))];
      }
    }

    method UpdateBlacklist(id: string, blacklist: int)
      modifies this
      ensures rows == DbBlacklist(old(rows), id, blacklist)
    {
      if id in rows {
        rows := rows[id := rows[id].(blacklist := Some(blacklist))];
      }
    }
  }

  class Hub {
    var sent: seq<Node>

    method SendNode(node: Node)
      modifies this
      ensures sent == old(sent) + [node]
    {
      sent := sent + [node];
    }
  }

  class YanicDb {
    const config: Config
    const db: Database
    const hub: Hub

    constructor (config: Config, db: Database, hub: Hub)
      ensures this.config == config && this.db == db && this.hub == hub
    {
      this.config, this.db, this.hub := config, db, hub;
    }

    method InsertNode(report: Report, clock: Clock, link: Link, range: nat -> seq<nat>, rangeAgain: nat -> seq<nat>)
      requires config.plan.Valid() && Ranges(config.plan, range) && Ranges(config.plan, rangeAgain)
      modifies db, hub, link
      ensures (State(db.rows, hub.sent), link.View()) ==
              AfterReport(config, link.oracle, old(State(db.rows, hub.sent)), old(link.View()), report, clock)
    {
      if report.nodeinfo.None? {
        return;
      }
      var id := report.nodeinfo.value.nodeId;
      var row := db.First(id);
      if row.Some? {
        var lNode := new NodeRecord(id, row.value);
        lNode.Update(config, Some(report), clock.update, range);
        db.UpdateSeen(id, lNode.address, clock.start);
        if TimeFilter(Row(lNode.lastseen, lNode.blacklist, lNode.address, lNode.settings), config.blacklistFor, clock.filter) {
          return;
        }
        if !CheckRespondd(lNode.settings, lNode.respondd) {
          var ok := link.SshUpdate(lNode, config.plan);
          if !ok {
            db.UpdateBlacklist(id, clock.start);
            return;
          }
        }
        hub.SendNode(Node(id, Row(lNode.lastseen, lNode.blacklist, lNode.address, lNode.settings), lNode.respondd, lNode.statistics));
        return;
      }
      var node := NewNode(config, report, clock.update, range, rangeAgain);
      var ok := link.RunOnUptime();
      if !ok {
        node.blacklist := Some(clock.start);
      }
      var value := Node(id, Row(node.lastseen, node.blacklist, node.address, node.settings), node.respondd, node.statistics);
      var _ := db.Create(id, value.row);
      if node.blacklist.None? {
        hub.SendNode(value);
      }
    }
  }

  class WebsocketServer {
    const config: Config
    const db: Database
    const hub: Hub
    const wifi24Channels: seq<nat>
    const wifi5Channels: seq<nat>

    constructor (config: Config, db: Database, hub: Hub, order: seq<nat>)
      requires config.plan.IsRange(order)
      ensures this.config == config && this.db == db && this.hub == hub
      ensures IsBandList(config.plan, wifi24Channels, Band24) && IsBandList(config.plan, wifi5Channels, Band5)
    {
      var wifi24, wifi5 := SplitChannels(config.plan, order);
      this.config, this.db, this.hub := config, db, hub;
      wifi24Channels, wifi5Channels := wifi24, wifi5;
    }

    method NodeHandler(loggedIn: bool, body: Option<Edit>, writeOk: bool, cached: Option<Report>, now: int, range: nat -> seq<nat>)
      returns (answer: bool)
      requires config.plan.Valid() && Ranges(config.plan, range)
      modifies db, hub
      ensures (State(db.rows, hub.sent), answer) ==
              AfterEdit(config, old(State(db.rows, hub.sent)), loggedIn, body, writeOk, cached, now)
    {
      if !loggedIn || body.None? || body.value.nodeId == "" {
        return false;
      }
      var Edit(id, settings) := body.value;
      var origin := db.First(id);
      if !writeOk {
        return false;
      }
      if origin.Some? {
        db.Save(id, origin.value.(settings := settings));
      } else {
        var _ := db.Create(id, Row(None, None, "", settings));
      }
      var node := new NodeRecord(id, Row(None, None, "", settings));
      node.Update(config, cached, now, range);
      hub.SendNode(Node(id, Row(node.lastseen, node.blacklist, node.address, node.settings), node.respondd, node.statistics));
      return true;
    }

    method ConnectHandler(ids: seq<string>, cache: map<string, Report>, now: nat -> int, range: nat -> seq<nat>)
      returns (written: seq<ClientMessage>)
      requires config.plan.Valid() && Ranges(config.plan, range)
      requires forall id | id in ids :: id in db.rows
      ensures written == AsMessages(Snapshot(config, db.rows, ids, cache, now)) +
                         [Wifi24Message(wifi24Channels), Wifi5Message(wifi5Channels)]
    {
      written := [];
      for k := 0 to |ids|
        invariant written == AsMessages(Snapshot(config, db.rows, ids[..k], cache, now))
      {
        assert ids[..k + 1][..k] == ids[..k];
        var id := ids[k];
        if TimeFilter(db.rows[id], config.blacklistFor, now(k)) {
          continue;
        }
        var node := new NodeRecord(id, db.rows[id]);
        node.Update(config, if id in cache then Some(cache[id]) else None, now(k), range);
        var value := Node(id, Row(node.lastseen, node.blacklist, node.address, node.settings), node.respondd, node.statistics);
        written := written + [NodeMessage(value)];
        assert Snapshot(config, db.rows, ids[..k + 1], cache, now) == Snapshot(config, db.rows, ids[..k], cache, now) + [value];
      }
      assert ids[..|ids|] == ids;
      written := written + [Wifi24Message(wifi24Channels), Wifi5Message(wifi5Channels)];
    }
  }
}
