/** SSH back-off over whole runs of atomic handlers (runtime/yanic.go, websocket/hd_node.go, websocket/hd_connect.go, runtime/ping.go). */
module Backoff {
  import opened Common
  import opened Nodes
  import opened Ssh
  import opened Server

  /** The clock readings an action makes lie between these two times. */
  ghost predicate Within(a: Action, from: int, until: int) {
    && from <= until
    && match a
       case ReportAction(_, clock, _, _) => from <= clock.start && clock.Valid() && clock.filter <= until
       case EditAction(_, _, _, _, now) => from <= now <= until
       case ConnectAction(_, _, times) => forall k :: from <= times(k) <= until
       case PingAction(_, times) => forall k :: from <= times(k) <= until
  }

  /** The action ends in a recorded SSH failure of node id: the push got no connection, or the first probe failed. */
  ghost predicate RecordsFailure(config: Config, s: State, a: Action, id: string) {
    && a.ReportAction? && a.report.nodeinfo.Some? && a.report.nodeinfo.value.nodeId == id
    && if id in s.db then
         var n := Updated(config, Load(id, s.db[id]), a.report, a.clock.update);
         && !TimeFilter(n.row, config.blacklistFor, a.clock.filter)
         && !CheckRespondd(n.row.settings, n.respondd)
         && !Push(a.oracle, config.plan, n, a.wire).0
       else
         !Probe(a.oracle, a.wire).0
  }

  /** At time t the action opens SSH to node id, or publishes it to a client, or pings it. An edit is not held back. */
  ghost predicate Touches(config: Config, s: State, a: Action, id: string, t: int) {
    match a
    case ReportAction(report, clock, oracle, wire) =>
      && report.nodeinfo.Some? && report.nodeinfo.value.nodeId == id && t == clock.filter
      && var (s1, w1) := AfterReport(config, oracle, s, wire, report, clock);
      w1 != wire || s1.sent != s.sent
    case EditAction(_, _, _, _, _) => false
    case ConnectAction(ids, cache, times) =>
      exists k :: 0 <= k < |ids| && ids[k] == id && t == times(k) && Writes(config, s, ids, cache, times, k)
    case PingAction(ids, times) =>
      exists k :: 0 <= k < |ids| && ids[k] == id && t == times(k) && id in s.db && !TimeFilter(s.db[id], config.blacklistFor, times(k))
  }

  /** Row k of the query adds a message to what the connecting client is sent. */
  ghost predicate Writes(config: Config, s: State, ids: seq<string>, cache: map<string, Report>, times: nat -> int, k: nat) {
    && k < |ids|
    && (forall id | id in ids[..k + 1] :: id in s.db)
    && Snapshot(config, s.db, ids[..k + 1], cache, times) != Snapshot(config, s.db, ids[..k], cache, times)
  }

  ghost predicate Run(config: Config, states: seq<State>, actions: seq<Action>, ticks: seq<int>) {
    && |states| == |actions| + 1 == |ticks|
    && forall k | 0 <= k < |actions| ::
         && states[k + 1] == Act(config, states[k], actions[k])
         && Within(actions[k], ticks[k], ticks[k + 1])
  }

  /** Node id carries a mark that is no older than t and not from the future. */
  ghost predicate MarkedSince(s: State, id: string, t: int, now: int) {
    id in s.db && s.db[id].blacklist.Some? && t <= s.db[id].blacklist.value <= now
  }

  lemma FailureIsMarked(config: Config, s: State, a: Action, id: string, from: int, until: int)
    requires RecordsFailure(config, s, a, id) && Within(a, from, until)
    ensures MarkedSince(Act(config, s, a), id, a.clock.start, until)
    ensures Act(config, s, a).sent == s.sent
  {
  }

  /** No handler, and in particular no edit, takes a mark away or moves it back. */
  lemma MarkSurvives(config: Config, s: State, a: Action, id: string, t: int, from: int, until: int)
    requires MarkedSince(s, id, t, from) && Within(a, from, until)
    ensures MarkedSince(Act(config, s, a), id, t, until)
  {
  }

  lemma MarkBlocks(config: Config, s: State, a: Action, id: string, t: int, from: int, touched: int)
    requires MarkedSince(s, id, t, from)
    requires Touches(config, s, a, id, touched)
    ensures touched >= t + config.blacklistFor
  {
    match a
    case ReportAction(_, _, _, _) =>
    case ConnectAction(ids, cache, times) =>
      var k :| 0 <= k < |ids| && ids[k] == id && touched == times(k) && Writes(config, s, ids, cache, times, k);
      assert ids[..k + 1][..k] == ids[..k];
    case PingAction(_, _) =>
  }

  lemma {:induction false} MarkPersists(config: Config, states: seq<State>, actions: seq<Action>, ticks: seq<int>, id: string, i: nat, j: nat)
    requires Run(config, states, actions, ticks)
    requires i < j < |states| && RecordsFailure(config, states[i], actions[i], id)
    ensures MarkedSince(states[j], id, actions[i].clock.start, ticks[j])
    decreases j
  {
    if j == i + 1 {
      FailureIsMarked(config, states[i], actions[i], id, ticks[i], ticks[j]);
    } else {
      MarkPersists(config, states, actions, ticks, id, i, j - 1);
      MarkSurvives(config, states[j - 1], actions[j - 1], id, actions[i].clock.start, ticks[j - 1], ticks[j]);
    }
  }

  /**
   * After an SSH failure of a node recorded at time t, nothing opens SSH to the
   * node, publishes it on a report or a connect, or pings it before
   * t + blacklistFor, whatever handlers run in between.
   */
  lemma BackoffHolds(config: Config, states: seq<State>, actions: seq<Action>, ticks: seq<int>, id: string, i: nat, j: nat, touched: int)
    requires Run(config, states, actions, ticks)
    requires i < j < |actions| && RecordsFailure(config, states[i], actions[i], id)
    requires Touches(config, states[j], actions[j], id, touched)
    ensures touched >= actions[i].clock.start + config.blacklistFor
  {
    MarkPersists(config, states, actions, ticks, id, i, j);
    MarkBlocks(config, states[j], actions[j], id, actions[i].clock.start, ticks[j], touched);
  }
}
