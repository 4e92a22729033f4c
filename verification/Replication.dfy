/**
 * Browser caches fed by broadcasts and connect snapshots (websocket/hd_connect.go,
 * websocket/hd_node.go, runtime/yanic.go, webroot/js/store.js): with atomic
 * handlers and first-in first-out delivery they agree with the table.
 */
module Replication {
  import opened Common
  import opened Nodes
  import opened Overlay
  import opened Server

  /** `heard` are the nodes some message of the present connection is about; the store outlives connections. */
  datatype Client = Client(connected: bool, store: map<string, Settings>, queue: seq<Node>, heard: set<string>)

  datatype World = World(server: State, clients: map<nat, Client>)

  datatype Event =
    | Handle(action: Action)
    | Open(client: nat)
    | Hangup(client: nat)
    | Connect(client: nat, ids: seq<string>, cache: map<string, Report>, times: nat -> int)
    | Deliver(client: nat)

  /** The client's handler for one message: the store entry is replaced. */
  function Store(store: map<string, Settings>, node: Node): map<string, Settings> {
    store[node.nodeId := node.row.settings]
  }

  function Drain(store: map<string, Settings>, queue: seq<Node>): map<string, Settings> {
    if queue == [] then store else Store(Drain(store, queue[..|queue| - 1]), queue[|queue| - 1])
  }

  function NodeIds(nodes: seq<Node>): set<string> {
    set n | n in nodes :: n.nodeId
  }

  function Enqueue(c: Client, nodes: seq<Node>): Client {
    if c.connected then c.(queue := c.queue + nodes, heard := c.heard + NodeIds(nodes)) else c
  }

  ghost function Next(config: Config, w: World, e: Event): World {
    match e
    case Handle(action) =>
      var s1 := Act(config, w.server, action);
      var news := if w.server.sent <= s1.sent then s1.sent[|w.server.sent|..] else [];
      World(s1, map c | c in w.clients :: Enqueue(w.clients[c], news))
    case Open(c) =>
      var store := if c in w.clients then w.clients[c].store else map[];
      w.(clients := w.clients[c := Client(true, store, [], {})])
    case Hangup(c) =>
      if c in w.clients then w.(clients := w.clients[c := Client(false, w.clients[c].store, [], {})]) else w
    case Connect(c, ids, cache, times) =>
      if c in w.clients && forall id | id in ids :: id in w.server.db then
        w.(clients := w.clients[c := Enqueue(w.clients[c], Snapshot(config, w.server.db, ids, cache, times))])
      else w
    case Deliver(c) =>
      if c in w.clients && w.clients[c].connected && w.clients[c].queue != [] then
        var client := w.clients[c];
        w.(clients := w.clients[c := client.(store := Store(client.store, client.queue[0]), queue := client.queue[1..])])
      else w
  }

  ghost function Execute(config: Config, w: World, events: seq<Event>): World {
    if events == [] then w else Next(config, Execute(config, w, events[..|events| - 1]), events[|events| - 1])
  }

  /** Everything heard of ends up, once the pending messages are applied, as the table has it. */
  ghost predicate InAgreement(server: State, c: Client) {
    forall id | id in c.heard ::
      && id in server.db
      && id in Drain(c.store, c.queue)
      && Drain(c.store, c.queue)[id] == server.db[id].settings
  }

  ghost predicate Agreement(w: World) {
    forall c | c in w.clients :: InAgreement(w.server, w.clients[c])
  }

  lemma {:induction false} DrainFirst(store: map<string, Settings>, queue: seq<Node>)
    requires queue != []
    ensures Drain(store, queue) == Drain(Store(store, queue[0]), queue[1..])
    decreases |queue|
  {
    if |queue| == 1 {
    } else {
      var n := |queue| - 1;
      DrainFirst(store, queue[..n]);
      assert queue[..n][1..] == queue[1..][..n - 1];
    }
  }

  /** Draining a longer queue: the last message about a node decides, older ones survive otherwise. */
  lemma {:induction false} DrainAppend(store: map<string, Settings>, queue: seq<Node>, news: seq<Node>, id: string)
    ensures var before, after := Drain(store, queue), Drain(store, queue + news);
            if exists k :: 0 <= k < |news| && news[k].nodeId == id then
              id in after && exists k :: 0 <= k < |news| && news[k].nodeId == id && after[id] == news[k].row.settings
            else (id in before <==> id in after) && (id in before ==> after[id] == before[id])
    decreases |news|
  {
    if news == [] {
      assert queue + news == queue;
    } else {
      var n := |news| - 1;
      DrainAppend(store, queue, news[..n], id);
      assert (queue + news)[..|queue| + n] == queue + news[..n];
      assert forall k | 0 <= k < n :: news[..n][k] == news[k];
      if news[n].nodeId != id {
        if k :| 0 <= k < |news| && news[k].nodeId == id {
          assert news[..n][k].nodeId == id;
        }
      }
    }
  }

  /** Every message of a connect snapshot shows the stored tuple of its node. */
  lemma {:induction false} SnapshotIsStored(config: Config, db: map<string, Row>, ids: seq<string>, cache: map<string, Report>, times: nat -> int)
    requires forall id | id in ids :: id in db
    ensures forall n | n in Snapshot(config, db, ids, cache, times) :: n.nodeId in db && n.row.settings == db[n.nodeId].settings
    decreases |ids|
  {
    if ids == [] {
    } else {
      SnapshotIsStored(config, db, ids[..|ids| - 1], cache, times);
    }
  }

  /** The snapshot tells a connecting client about exactly the nodes the time filter lets through. */
  lemma {:induction false} SnapshotIsExact(config: Config, db: map<string, Row>, ids: seq<string>, cache: map<string, Report>, times: nat -> int)
    requires forall id | id in ids :: id in db
    ensures NodeIds(Snapshot(config, db, ids, cache, times)) ==
            set k | 0 <= k < |ids| && !TimeFilter(db[ids[k]], config.blacklistFor, times(k)) :: ids[k]
    decreases |ids|
  {
    if ids == [] {
    } else {
      var m := |ids| - 1;
      SnapshotIsExact(config, db, ids[..m], cache, times);
      var before, all := Snapshot(config, db, ids[..m], cache, times), Snapshot(config, db, ids, cache, times);
      NodeIdsAppend(before, all[|before|..]);
      assert all == before + all[|before|..];
      assert NodeIds(all[|before|..]) == if TimeFilter(db[ids[m]], config.blacklistFor, times(m)) then {} else {ids[m]};
      assert forall k | 0 <= k < m :: ids[..m][k] == ids[k];
    }
  }

  lemma NodeIdsAppend(a: seq<Node>, b: seq<Node>)
    ensures NodeIds(a + b) == NodeIds(a) + NodeIds(b)
  {
  }

  lemma EnqueueAgrees(s0: State, s1: State, c: Client, news: seq<Node>)
    requires InAgreement(s0, c)
    requires forall n | n in news :: n.nodeId in s1.db && n.row.settings == s1.db[n.nodeId].settings
    requires forall id | id in s0.db :: id in s1.db &&
               (s1.db[id].settings == s0.db[id].settings || exists k :: 0 <= k < |news| && news[k].nodeId == id)
    requires c.connected || c.heard == {}
    ensures InAgreement(s1, Enqueue(c, news))
  {
    if c.connected {
      var c1 := Enqueue(c, news);
      forall id | id in c1.heard
        ensures id in s1.db && id in Drain(c1.store, c1.queue) && Drain(c1.store, c1.queue)[id] == s1.db[id].settings
      {
        DrainAppend(c.store, c.queue, news, id);
        if id !in c.heard {
          var n :| n in news && n.nodeId == id;
          var k :| 0 <= k < |news| && news[k] == n;
        }
      }
    }
  }

  ghost predicate Inv(w: World) {
    Agreement(w) && forall c | c in w.clients && !w.clients[c].connected :: w.clients[c].heard == {}
  }

  lemma NextAgrees(config: Config, w: World, e: Event)
    requires Inv(w)
    ensures Inv(Next(config, w, e))
  {
    match e
    case Handle(action) =>
      BroadcastIsStored(config, w.server, action);
      var s1 := Act(config, w.server, action);
      var news := s1.sent[|w.server.sent|..];
      assert s1.sent != w.server.sent ==> news == [s1.sent[|s1.sent| - 1]];
      forall c | c in w.clients
        ensures InAgreement(s1, Enqueue(w.clients[c], news))
      {
        EnqueueAgrees(w.server, s1, w.clients[c], news);
      }
    case Connect(c, ids, cache, times) =>
      if c in w.clients && forall id | id in ids :: id in w.server.db {
        SnapshotIsStored(config, w.server.db, ids, cache, times);
        EnqueueAgrees(w.server, w.server, w.clients[c], Snapshot(config, w.server.db, ids, cache, times));
      }
    case Deliver(c) =>
      if c in w.clients && w.clients[c].connected && w.clients[c].queue != [] {
        DrainFirst(w.clients[c].store, w.clients[c].queue);
      }
    case _ =>
  }

  /**
   * In every reachable state of reports, edits, connects, hang-ups and partial
   * deliveries: for every client and every node it was sent on its present
   * connection, applying the pending messages gives the stored tuple.
   */
  lemma {:induction false} ReplicasAgree(config: Config, server: State, events: seq<Event>)
    ensures Inv(Execute(config, World(server, map[]), events))
    decreases |events|
  {
    if events == [] {
    } else {
      ReplicasAgree(config, server, events[..|events| - 1]);
      NextAgrees(config, Execute(config, World(server, map[]), events[..|events| - 1]), events[|events| - 1]);
    }
  }

  /** What a handler broadcasts reaches every connected client, behind what is pending there, and no one else. */
  lemma NewsReachEveryone(config: Config, w: World, action: Action)
    ensures var w1 := Next(config, w, Handle(action));
            var news := w1.server.sent[|w.server.sent|..];
            && w1.clients.Keys == w.clients.Keys && w.server.sent + news == w1.server.sent
            && forall c | c in w.clients ::
                 && w1.clients[c].store == w.clients[c].store
                 && (w.clients[c].connected ==>
                       && w1.clients[c].queue == w.clients[c].queue + news
                       && forall n | n in news :: n.nodeId in w1.clients[c].heard)
                 && (!w.clients[c].connected ==> w1.clients[c] == w.clients[c])
  {
    BroadcastIsStored(config, w.server, action);
  }

  /** A connected client that asks is told of every stored node that is visible, and of no other. */
  lemma ConnectHears(config: Config, w: World, c: nat, ids: seq<string>, cache: map<string, Report>, times: nat -> int)
    requires c in w.clients && w.clients[c].connected && forall id | id in ids :: id in w.server.db
    ensures var w1 := Next(config, w, Connect(c, ids, cache, times));
            && w1.server == w.server && w1.clients.Keys == w.clients.Keys
            && w.clients[c].queue <= w1.clients[c].queue
            && NodeIds(w1.clients[c].queue[|w.clients[c].queue|..]) ==
               (set k | 0 <= k < |ids| && Visible(w.server.db[ids[k]], config.blacklistFor, times(k)) :: ids[k])
            && w1.clients[c].heard == w.clients[c].heard + NodeIds(w1.clients[c].queue[|w.clients[c].queue|..])
  {
    SnapshotIsExact(config, w.server.db, ids, cache, times);
    forall k | 0 <= k < |ids|
      ensures TimeFilter(w.server.db[ids[k]], config.blacklistFor, times(k)) <==>
              !Visible(w.server.db[ids[k]], config.blacklistFor, times(k))
    {
      FilterLetsVisiblePass(w.server.db[ids[k]], config.blacklistFor, times(k));
    }
    var w1 := Next(config, w, Connect(c, ids, cache, times));
    assert w1.clients[c].queue[|w.clients[c].queue|..] == Snapshot(config, w.server.db, ids, cache, times);
  }

  /** A delivered message replaces the store's entry of its node and no other. */
  lemma DeliveryStores(config: Config, w: World, c: nat)
    requires c in w.clients && w.clients[c].connected && w.clients[c].queue != []
    ensures var w1 := Next(config, w, Deliver(c));
            var before, after, n := w.clients[c], w1.clients[c], w.clients[c].queue[0];
            && w1.server == w.server
            && after.queue == before.queue[1..] && after.heard == before.heard
            && after.store.Keys == before.store.Keys + {n.nodeId}
            && after.store[n.nodeId] == n.row.settings
            && forall id | id in before.store && id != n.nodeId :: after.store[id] == before.store[id]
  {
  }
}
