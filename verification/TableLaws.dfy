/**
 * What each handler writes, column by column, and what it tells whom
 * (runtime/yanic.go, websocket/hd_node.go, websocket/hd_connect.go), and what
 * that means for nodes that are seen and edited over whole runs.
 */
module TableLaws {
  import opened Common
  import opened Nodes
  import opened Overlay
  import opened Ssh
  import opened Server
  import opened Backoff

  // ----- a report

  /** All rows but that of node id are the same, and no other row comes or goes. */
  ghost predicate OnlyRow(db: map<string, Row>, db1: map<string, Row>, id: string) {
    && db1.Keys == db.Keys + {id}
    && forall other | other in db && other != id :: db1[other] == db[other]
  }

  /** The time filter lets a report of a stored node pass: the report itself has just been seen. */
  predicate Passes(row: Row, blacklistFor: int, clock: Clock) {
    && clock.filter - clock.update <= blacklistFor
    && (row.blacklist.Some? ==> clock.filter - row.blacklist.value >= blacklistFor)
  }

  /**
   * A report of a stored node. Whatever becomes of it, the row now says when it
   * arrived and has the intended address; the mark changes only to the time of
   * this report, exactly if the report passes the filter, something differs and
   * there is no connection; everything else in the table stays. The node is
   * broadcast, with the report overlaid, exactly if the report passes the filter
   * and nothing differs or there is a connection.
   */
  lemma ReportStores(config: Config, oracle: nat -> bool, s: State, w: Wire, report: Report, clock: Clock) returns (n: Node)
    requires config.plan.Valid() && report.nodeinfo.Some? && report.nodeinfo.value.nodeId in s.db
    ensures var id := report.nodeinfo.value.nodeId;
            var (s1, w1) := AfterReport(config, oracle, s, w, report, clock);
            var differs := !CheckRespondd(s.db[id].settings, n.respondd);
            var passes := Passes(s.db[id], config.blacklistFor, clock);
            && Overlays(config, Load(id, s.db[id]), report, clock.update, n)
            && OnlyRow(s.db, s1.db, id)
            && s1.db[id].settings == s.db[id].settings
            && s1.db[id].lastseen == Some(clock.start)
            && s1.db[id].address == n.row.address && AddressFits(config, s.db[id].address, report, s1.db[id].address)
            && s1.db[id].blacklist == (if passes && differs && !oracle(|w.events|) then Some(clock.start) else s.db[id].blacklist)
            && s1.sent == (if passes && (!differs || oracle(|w.events|)) then s.sent + [n] else s.sent)
            && (w1 != w ==> passes && differs)
  {
    var id := report.nodeinfo.value.nodeId;
    n := Updated(config, Load(id, s.db[id]), report, clock.update);
    UpdatedOverlays(config, Load(id, s.db[id]), report, clock.update);
    FilterLetsVisiblePass(n.row, config.blacklistFor, clock.filter);
  }

  /**
   * The first report of a node. Its row is what the report shows, marked at the
   * time of the report exactly if the probe finds no connection or its command
   * fails; the node is broadcast exactly if it is not marked.
   */
  lemma ReportLearns(config: Config, oracle: nat -> bool, s: State, w: Wire, report: Report, clock: Clock) returns (node: Node)
    requires config.plan.Valid() && report.nodeinfo.Some? && report.nodeinfo.value.nodeId !in s.db
    ensures var id := report.nodeinfo.value.nodeId;
            var (s1, w1) := AfterReport(config, oracle, s, w, report, clock);
            var connected := oracle(|w.events|);
            var reached := connected && oracle(|w.events| + 1);
            && OnlyRow(s.db, s1.db, id)
            && s1.db[id] == node.row.(blacklist := if reached then None else Some(clock.start))
            && node.nodeId == id
            && ShowsReport(config.plan, NO_SETTINGS, report, node.row.settings)
            && ShowsReport(config.plan, NO_SETTINGS, report, node.respondd)
            && node.row.lastseen == Some(clock.update)
            && AddressFits(config, "", report, node.row.address)
            && s1.sent == (if reached then s.sent + [node] else s.sent)
            && w1.device == w.device
            && w1.events == w.events + (if connected then [Connected(true), Uptime(reached), Closed] else [Connected(false)])
  {
    node := FreshNode(config, report, clock.update);
    LearnedShows(config, report, clock.update);
  }

  /** A report without node information does nothing at all. */
  lemma EmptyReportDoesNothing(config: Config, oracle: nat -> bool, s: State, w: Wire, report: Report, clock: Clock)
    requires report.nodeinfo.None?
    ensures AfterReport(config, oracle, s, w, report, clock) == (s, w)
  {
  }

  // ----- an edit

  /**
   * An edit is answered true exactly if it comes from a user who is logged in,
   * names a node and is written. Then the row has the new tuple and otherwise
   * stays as it was read, or has nothing else in it if it is new; every other
   * row stays; and one node is broadcast, with the new tuple and with the latest
   * report overlaid. Otherwise nothing changes.
   */
  lemma EditStores(config: Config, s: State, loggedIn: bool, body: Option<Edit>, writeOk: bool, cached: Option<Report>, now: int)
    requires config.plan.Valid()
    ensures var (s1, answer) := AfterEdit(config, s, loggedIn, body, writeOk, cached, now);
            && (answer <==> loggedIn && body.Some? && body.value.nodeId != "" && writeOk)
            && (!answer ==> s1 == s)
            && (answer ==>
                  var Edit(id, settings) := body.value;
                  && OnlyRow(s.db, s1.db, id)
                  && s1.db[id].settings == settings
                  && s1.db[id].lastseen == (if id in s.db then s.db[id].lastseen else None)
                  && s1.db[id].blacklist == (if id in s.db then s.db[id].blacklist else None)
                  && s1.db[id].address == (if id in s.db then s.db[id].address else "")
                  && |s1.sent| == |s.sent| + 1 && s.sent <= s1.sent
                  && var shown := s1.sent[|s.sent|];
                  && shown.nodeId == id && shown.row.settings == settings
                  && (if cached.None? then shown == Load(id, Row(None, None, "", settings))
                      else Overlays(config, Load(id, Row(None, None, "", settings)), cached.value, now, shown)))
  {
    if body.Some? && cached.Some? {
      UpdatedOverlays(config, Load(body.value.nodeId, Row(None, None, "", body.value.settings)), cached.value, now);
    }
  }

  // ----- a connect

  /** What the snapshot says of row k, if it is visible. */
  ghost predicate Tells(config: Config, db: map<string, Row>, ids: seq<string>, cache: map<string, Report>, times: nat -> int, k: nat, n: Node) {
    && k < |ids| && ids[k] in db && Visible(db[ids[k]], config.blacklistFor, times(k))
    && if ids[k] in cache then Overlays(config, Load(ids[k], db[ids[k]]), cache[ids[k]], times(k), n)
       else n == Load(ids[k], db[ids[k]])
  }

  function CountVisible(config: Config, db: map<string, Row>, ids: seq<string>, times: nat -> int): nat
    requires forall id | id in ids :: id in db
  {
    if ids == [] then 0
    else
      var k := |ids| - 1;
      CountVisible(config, db, ids[..k], times) + if Visible(db[ids[k]], config.blacklistFor, times(k)) then 1 else 0
  }

  /**
   * A connecting client is sent one message per visible row, in the order of the
   * query: the stored row, with the latest report overlaid if there is one.
   */
  lemma {:induction false} SnapshotTells(config: Config, db: map<string, Row>, ids: seq<string>, cache: map<string, Report>, times: nat -> int)
    returns (rows: seq<nat>)
    requires config.plan.Valid() && forall id | id in ids :: id in db
    ensures var sent := Snapshot(config, db, ids, cache, times);
            && |sent| == |rows| == CountVisible(config, db, ids, times)
            && (forall m | 0 <= m < |rows| :: Tells(config, db, ids, cache, times, rows[m], sent[m]))
            && (forall m, m' | 0 <= m < m' < |rows| :: rows[m] < rows[m'])
    decreases |ids|
  {
    rows := [];
    if ids == [] {
    } else {
      var k := |ids| - 1;
      var id := ids[k];
      var before := SnapshotTells(config, db, ids[..k], cache, times);
      rows := if Visible(db[id], config.blacklistFor, times(k)) then before + [k] else before;
      var last := SnapshotLast(config, db, ids, cache, times);
      TellsMore(config, db, ids, cache, times, before, Snapshot(config, db, ids[..k], cache, times), rows, last);
    }
  }

  lemma TellsMore(config: Config, db: map<string, Row>, ids: seq<string>, cache: map<string, Report>, times: nat -> int,
                  before: seq<nat>, sent: seq<Node>, rows: seq<nat>, last: seq<Node>)
    requires ids != [] && |before| == |sent| && |last| <= 1
    requires forall m | 0 <= m < |before| :: Tells(config, db, ids[..|ids| - 1], cache, times, before[m], sent[m])
    requires rows == before + if |last| == 1 then [|ids| - 1] else []
    requires last != [] ==> Tells(config, db, ids, cache, times, |ids| - 1, last[0])
    ensures |rows| == |sent + last|
    ensures forall m | 0 <= m < |rows| :: Tells(config, db, ids, cache, times, rows[m], (sent + last)[m])
    ensures forall m | 0 <= m < |before| :: before[m] < |ids| - 1
  {
    forall m | 0 <= m < |before|
      ensures before[m] < |ids| - 1 && Tells(config, db, ids, cache, times, before[m], sent[m])
    {
      assert Tells(config, db, ids[..|ids| - 1], cache, times, before[m], sent[m]);
    }
  }

  /** What the last row of the query adds to a snapshot. */
  lemma SnapshotLast(config: Config, db: map<string, Row>, ids: seq<string>, cache: map<string, Report>, times: nat -> int)
    returns (last: seq<Node>)
    requires config.plan.Valid() && ids != [] && forall id | id in ids :: id in db
    ensures var k := |ids| - 1;
            && Snapshot(config, db, ids, cache, times) == Snapshot(config, db, ids[..k], cache, times) + last
            && |last| == (if Visible(db[ids[k]], config.blacklistFor, times(k)) then 1 else 0)
            && (last != [] ==> Tells(config, db, ids, cache, times, k, last[0]))
  {
    var k := |ids| - 1;
    var id := ids[k];
    last := Snapshot(config, db, ids, cache, times)[|Snapshot(config, db, ids[..k], cache, times)|..];
    FilterLetsVisiblePass(db[id], config.blacklistFor, times(k));
    if id in cache {
      UpdatedOverlays(config, Load(id, db[id]), cache[id], times(k));
    }
  }

  // ----- over runs: a node that reports is seen

  /** Node id is stored, and was last seen at t or later. */
  ghost predicate SeenSince(s: State, id: string, t: int) {
    id in s.db && s.db[id].lastseen.Some? && s.db[id].lastseen.value >= t
  }

  ghost predicate ReportsNode(a: Action, id: string) {
    a.ReportAction? && a.report.nodeinfo.Some? && a.report.nodeinfo.value.nodeId == id
  }

  lemma ReportSees(config: Config, s: State, a: Action, id: string, from: int, until: int)
    requires ReportsNode(a, id) && Within(a, from, until)
    ensures SeenSince(Act(config, s, a), id, a.clock.start)
  {
  }

  lemma SeenStays(config: Config, s: State, a: Action, id: string, t: int, from: int, until: int)
    requires SeenSince(s, id, t) && t <= from && Within(a, from, until)
    ensures SeenSince(Act(config, s, a), id, t)
  {
  }

  lemma {:induction false} TicksGrow(config: Config, states: seq<State>, actions: seq<Action>, ticks: seq<int>, i: nat, j: nat)
    requires Run(config, states, actions, ticks) && i <= j < |ticks|
    ensures ticks[i] <= ticks[j]
    decreases j - i
  {
    if i == j {
    } else {
      TicksGrow(config, states, actions, ticks, i, j - 1);
      assert Within(actions[j - 1], ticks[j - 1], ticks[j]);
    }
  }

  lemma {:induction false} SeenPersists(config: Config, states: seq<State>, actions: seq<Action>, ticks: seq<int>, id: string, i: nat, j: nat)
    requires Run(config, states, actions, ticks)
    requires i < j < |states| && ReportsNode(actions[i], id)
    ensures SeenSince(states[j], id, actions[i].clock.start)
    decreases j
  {
    assert Within(actions[i], ticks[i], ticks[i + 1]);
    if j == i + 1 {
      ReportSees(config, states[i], actions[i], id, ticks[i], ticks[j]);
    } else {
      SeenPersists(config, states, actions, ticks, id, i, j - 1);
      TicksGrow(config, states, actions, ticks, i + 1, j - 1);
      SeenStays(config, states[j - 1], actions[j - 1], id, actions[i].clock.start, ticks[j - 1], ticks[j]);
    }
  }

  /**
   * After a report of a node that started at t, whatever handlers run, edits of
   * the node included, until t + blacklistFor it is passed over only while it is
   * marked; so without a recent mark clients that connect are told of it and it
   * is pinged.
   */
  lemma ReportedNodeIsVisible(config: Config, states: seq<State>, actions: seq<Action>, ticks: seq<int>, id: string, i: nat, j: nat, now: int)
    requires Run(config, states, actions, ticks)
    requires i < j < |states| && ReportsNode(actions[i], id)
    requires now <= actions[i].clock.start + config.blacklistFor
    ensures id in states[j].db
    ensures TimeFilter(states[j].db[id], config.blacklistFor, now) <==>
            states[j].db[id].blacklist.Some? && now - states[j].db[id].blacklist.value < config.blacklistFor
  {
    SeenPersists(config, states, actions, ticks, id, i, j);
  }
}
