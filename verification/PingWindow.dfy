/**
 * The browser's node store and its ping windows (webroot/js/store.js). Arrays
 * are shared: a node shown once keeps the very array that later pings extend.
 */
module PingWindow {
  import opened Common

  const STORE_MAX_PING := 10

  /** The ten newest entries of a history that has the newest first, or all if there are fewer. */
  ghost predicate NewestOf(window: seq<bool>, history: seq<bool>) {
    && |window| == (if |history| < 10 then |history| else 10)
    && forall k | 0 <= k < |window| :: window[k] == history[k]
  }

  lemma NewestGrows(window: seq<bool>, history: seq<bool>, value: bool)
    requires NewestOf(window, history)
    ensures var longer := [value] + window;
            NewestOf(if |longer| > STORE_MAX_PING then longer[..STORE_MAX_PING] else longer, [value] + history)
  {
  }

  class PingArray {
    var items: seq<bool>

    constructor (items: seq<bool>)
      ensures this.items == items
    {
      this.items := items;
    }

    /** unshift, then cut to length; on the array itself, so every holder sees it. */
    method Record(value: bool, ghost history: seq<bool>)
      requires NewestOf(items, history)
      modifies this
      ensures NewestOf(items, [value] + history)
    {
      NewestGrows(items, history, value);
      items := [value] + items;
      if |items| > STORE_MAX_PING {
        items := items[..STORE_MAX_PING];
      }
    }
  }

  class NodeObject {
    const nodeId: string
    var pingstate: PingArray?

    constructor (nodeId: string)
      ensures this.nodeId == nodeId && pingstate == null
    {
      this.nodeId, this.pingstate := nodeId, null;
    }
  }

  /** Histories with no bound, newest first, for the nodes known when a ping arrived. */
  type Histories = map<string, seq<bool>>

  function Recorded(known: set<string>, h: Histories, id: string, value: bool): Histories {
    if id !in known then h
    else h[id := [value] + if id in h then h[id] else []]
  }

  function RecordedAll(known: set<string>, h: Histories, ids: seq<string>, value: bool): Histories {
    if ids == [] then h
    else Recorded(known, RecordedAll(known, h, ids[..|ids| - 1], value), ids[|ids| - 1], value)
  }

  function RecordedRound(known: set<string>, h: Histories, trues: Option<seq<string>>, falses: Option<seq<string>>): Histories {
    var h1 := if trues.Some? then RecordedAll(known, h, trues.value, true) else h;
    if falses.Some? then RecordedAll(known, h1, falses.value, false) else h1
  }

  class Store {
    var list: map<string, NodeObject>
    var pingState: map<string, PingArray>
    ghost var histories: Histories

    /** Each window holds the newest entries of its node's history; no two nodes share an array. */
    ghost predicate Valid()
      reads this, pingState.Values
    {
      && pingState.Keys == histories.Keys
      && (forall id | id in pingState :: NewestOf(pingState[id].items, histories[id]))
      && (forall a, b | a in pingState && b in pingState && pingState[a] == pingState[b] :: a == b)
    }

    constructor ()
      ensures Valid() && list == map[] && histories == map[]
    {
      list, pingState, histories := map[], map[], map[];
    }

    method UpdateNode(node: NodeObject)
      requires Valid()
      modifies this`list
      ensures Valid() && list == old(list)[node.nodeId := node]
    {
      list := list[node.nodeId := node];
    }

    /** The node shown carries the live array of its window, or an empty array of its own. */
    method GetNode(id: string) returns (node: NodeObject?)
      requires Valid()
      modifies if id in list then {list[id]} else {}
      ensures Valid()
      ensures node == if id in list then list[id] else null
      ensures id in list && id in pingState ==> node.pingstate == pingState[id]
      ensures id in list && id !in pingState ==>
                node.pingstate != null && fresh(node.pingstate) && node.pingstate.items == []
    {
      if id !in list {
        return null;
      }
      node := list[id];
      if id in pingState {
        node.pingstate := pingState[id];
      } else {
        node.pingstate := new PingArray([]);
      }
    }

    /** A known node's window takes one more result; no other window changes. */
    method UpdateNodePingTo(id: string, value: bool)
      requires Valid()
      modifies this`pingState, this`histories, if id in pingState then {pingState[id]} else {}
      ensures Valid() && histories == Recorded(list.Keys, old(histories), id, value)
      ensures forall other | other in old(pingState) :: other in pingState && pingState[other] == old(pingState)[other]
      ensures forall other | other in pingState && other !in old(pingState) :: fresh(pingState[other])
    {
      if id !in list {
        return;
      }
      if id !in pingState {
        FirstPing(id, value);
        return;
      }
      histories := Recorded(list.Keys, histories, id, value);
      pingState[id].Record(value, old(histories)[id]);
      forall other | other in pingState
        ensures NewestOf(pingState[other].items, histories[other])
      {
        if other != id {
          assert pingState[other].items == old(pingState[other].items) && histories[other] == old(histories)[other];
        }
      }
    }

    method FirstPing(id: string, value: bool)
      requires Valid() && id in list && id !in pingState
      modifies this`pingState, this`histories
      ensures Valid() && histories == Recorded(list.Keys, old(histories), id, value)
      ensures pingState.Keys == old(pingState).Keys + {id} && fresh(pingState[id])
      ensures forall other | other in old(pingState) :: pingState[other] == old(pingState)[other]
    {
      histories := Recorded(list.Keys, histories, id, value);
      var items := new PingArray([value]);
      pingState := pingState[id := items];
    }

    method UpdateAll(ids: seq<string>, value: bool)
      requires Valid()
      modifies this`pingState, this`histories, pingState.Values
      ensures Valid() && histories == RecordedAll(list.Keys, old(histories), ids, value)
      ensures forall id | id in old(pingState) :: id in pingState && pingState[id] == old(pingState)[id]
      ensures forall id | id in pingState && id !in old(pingState) :: fresh(pingState[id])
    {
      for k := 0 to |ids|
        invariant Valid() && histories == RecordedAll(list.Keys, old(histories), ids[..k], value)
        invariant forall id | id in old(pingState) :: id in pingState && pingState[id] == old(pingState)[id]
        invariant forall id | id in pingState && id !in old(pingState) :: fresh(pingState[id])
      {
        assert ids[..k + 1][..k] == ids[..k];
        UpdateNodePingTo(ids[k], value);
      }
      assert ids[..|ids|] == ids;
    }

    /** One ping message; either list may be missing. */
    method UpdateNodePing(trues: Option<seq<string>>, falses: Option<seq<string>>)
      requires Valid()
      modifies this`pingState, this`histories, pingState.Values
      ensures Valid() && histories == RecordedRound(list.Keys, old(histories), trues, falses)
      ensures forall id | id in old(pingState) :: id in pingState && pingState[id] == old(pingState)[id]
      ensures forall id | id in pingState && id !in old(pingState) :: fresh(pingState[id])
    {
      if trues.Some? {
        UpdateAll(trues.value, true);
      }
      if falses.Some? {
        UpdateAll(falses.value, false);
      }
    }
  }

  /** How often a list names a node. */
  function Occurrences(ids: Option<seq<string>>, id: string): nat {
    if ids.None? then 0 else multiset(ids.value)[id]
  }

  function HistoryOf(h: Histories, id: string): seq<bool> {
    if id in h then h[id] else []
  }

  function Repeated(n: nat, value: bool): seq<bool> {
    if n == 0 then [] else [value] + Repeated(n - 1, value)
  }

  lemma {:induction false} RecordedAllGrows(known: set<string>, h: Histories, ids: seq<string>, value: bool, id: string)
    ensures HistoryOf(RecordedAll(known, h, ids, value), id) ==
            Repeated(if id in known then multiset(ids)[id] else 0, value) + HistoryOf(h, id)
    decreases |ids|
  {
    if ids == [] {
    } else {
      var k := |ids| - 1;
      RecordedAllGrows(known, h, ids[..k], value, id);
      var n := if id in known then multiset(ids[..k])[id] else 0;
      RecordedGrows(known, RecordedAll(known, h, ids[..k], value), ids[k], value, id);
      RepeatedOneMore(n, value, HistoryOf(h, id));
      OneMore(ids, id);
    }
  }

  lemma RecordedGrows(known: set<string>, h: Histories, x: string, value: bool, id: string)
    ensures HistoryOf(Recorded(known, h, x, value), id) == if id == x && id in known then [value] + HistoryOf(h, id) else HistoryOf(h, id)
  {
  }

  lemma RepeatedOneMore(n: nat, value: bool, rest: seq<bool>)
    ensures [value] + (Repeated(n, value) + rest) == Repeated(n + 1, value) + rest
  {
  }

  lemma OneMore(ids: seq<string>, id: string)
    requires ids != []
    ensures multiset(ids)[id] == multiset(ids[..|ids| - 1])[id] + if ids[|ids| - 1] == id then 1 else 0
  {
    assert ids == ids[..|ids| - 1] + [ids[|ids| - 1]];
  }

  /**
   * A round adds to the history of a known node its negative results in front
   * of its positive ones, and nothing to an unknown node; so with the disjoint,
   * duplicate-free lists of a pinger round, at most one entry.
   */
  lemma RoundGrowth(known: set<string>, h: Histories, trues: Option<seq<string>>, falses: Option<seq<string>>, id: string)
    ensures var t := if id in known then Occurrences(trues, id) else 0;
            var f := if id in known then Occurrences(falses, id) else 0;
            HistoryOf(RecordedRound(known, h, trues, falses), id) == Repeated(f, false) + (Repeated(t, true) + HistoryOf(h, id))
    ensures trues.Some? && falses.Some? && NoDuplicates(trues.value + falses.value) ==>
              |HistoryOf(RecordedRound(known, h, trues, falses), id)| <= |HistoryOf(h, id)| + 1
  {
    var h1 := if trues.Some? then RecordedAll(known, h, trues.value, true) else h;
    if trues.Some? {
      RecordedAllGrows(known, h, trues.value, true, id);
    }
    if falses.Some? {
      RecordedAllGrows(known, h1, falses.value, false, id);
    }
    if trues.Some? && falses.Some? && NoDuplicates(trues.value + falses.value) {
      OccursAtMostOnce(trues.value + falses.value, id);
      assert multiset(trues.value + falses.value)[id] == multiset(trues.value)[id] + multiset(falses.value)[id];
    }
  }

  lemma {:induction false} OccursAtMostOnce(ids: seq<string>, id: string)
    requires NoDuplicates(ids)
    ensures multiset(ids)[id] <= 1
  {
    if ids == [] {
    } else {
      var k := |ids| - 1;
      OccursAtMostOnce(ids[..k], id);
      assert ids == ids[..k] + [ids[k]];
    }
  }
}
