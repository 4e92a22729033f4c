/**
 * Optimistic edits of one node in the browser (webroot/js/view/list.js,
 * webroot/js/socket.js, webroot/js/store.js): a field of the shown object is
 * changed at once and restored if the reply is negative, while broadcasts may
 * have replaced the object in the store. The server side is atomic and both
 * directions of the connection keep their order.
 */
module OptimisticEdits {
  import opened Common

  datatype Field = Hostname | Channel24 | Channel5 | TxPower24 | TxPower5

  datatype Tuple = Tuple(hostname: string, channel24: string, channel5: string, txPower24: string, txPower5: string) {
    function Get(f: Field): string {
      match f
      case Hostname => hostname
      case Channel24 => channel24
      case Channel5 => channel5
      case TxPower24 => txPower24
      case TxPower5 => txPower5
    }

    function Set(f: Field, v: string): (t: Tuple)
      ensures t.Get(f) == v
      ensures forall g | g != f :: t.Get(g) == Get(g)
    {
      match f
      case Hostname => this.(hostname := v)
      case Channel24 => this.(channel24 := v)
      case Channel5 => this.(channel5 := v)
      case TxPower24 => this.(txPower24 := v)
      case TxPower5 => this.(txPower5 := v)
    }
  }

  lemma SameFieldsSameTuple(s: Tuple, t: Tuple)
    requires forall f :: s.Get(f) == t.Get(f)
    ensures s == t
  {
    assert s.Get(Hostname) == t.Get(Hostname) && s.Get(Channel24) == t.Get(Channel24) && s.Get(Channel5) == t.Get(Channel5);
    assert s.Get(TxPower24) == t.Get(TxPower24) && s.Get(TxPower5) == t.Get(TxPower5);
  }

  /** What the reply callback of an edit closes over. */
  datatype Edit = Edit(obj: nat, field: Field, before: string, value: string)

  /**
   * The browser's side: every object there ever was for the node, which of them
   * the store refers to, the edits made, and how many of them were replied to.
   */
  datatype Client = Client(heap: seq<Tuple>, live: nat, edits: seq<Edit>, settled: nat)

  /** The whole object travels with an edit. */
  datatype Request = Request(edit: nat, body: Tuple)

  datatype Message = Reply(edit: nat, ok: bool) | Broadcast(body: Tuple)

  function FocusOut(c: Client, obj: nat, f: Field, v: string): (Client, Request)
    requires obj < |c.heap|
  {
    var body := c.heap[obj].Set(f, v);
    (c.(heap := c.heap[obj := body], edits := c.edits + [Edit(obj, f, c.heap[obj].Get(f), v)]),
     Request(|c.edits|, body))
  }

  function OnReply(c: Client, e: nat, ok: bool): Client
    requires e < |c.edits| && c.edits[e].obj < |c.heap|
  {
    var Edit(obj, f, before, _) := c.edits[e];
    (if ok then c else c.(heap := c.heap[obj := c.heap[obj].Set(f, before)])).(settled := c.settled + 1)
  }

  function OnBroadcast(c: Client, body: Tuple): Client {
    c.(heap := c.heap + [body], live := |c.heap|)
  }

  // ----- the handlers on objects with identity

  class NodeObject {
    var fields: Tuple

    constructor (fields: Tuple)
      ensures this.fields == fields
    {
      this.fields := fields;
    }
  }

  class Page {
    var heap: seq<NodeObject>
    var live: nat
    var edits: seq<Edit>
    var settled: nat

    ghost predicate Valid()
      reads this
    {
      && NoDuplicates(heap)
      && forall e | 0 <= e < |edits| :: edits[e].obj < |heap|
    }

    ghost function View(): Client
      reads this, heap
    {
      Client(seq(|heap|, k requires 0 <= k < |heap| reads this, heap => heap[k].fields), live, edits, settled)
    }

    constructor (body: Tuple)
      ensures Valid() && fresh(heap) && View() == Client([body], 0, [], 0)
    {
      var node := new NodeObject(body);
      heap, live, edits, settled := [node], 0, [], 0;
    }

    method FocusOutHandler(obj: nat, f: Field, v: string) returns (request: Request)
      requires Valid() && obj < |heap|
      modifies this`edits, heap[obj]
      ensures Valid() && (View(), request) == FocusOut(old(View()), obj, f, v)
    {
      var node := heap[obj];
      edits := edits + [Edit(obj, f, node.fields.Get(f), v)];
      node.fields := node.fields.Set(f, v);
      request := Request(|edits| - 1, node.fields);
      assert View().heap == old(View()).heap[obj := node.fields];
    }

    /** A rollback writes to the object of the edit only; a replaced object is not the live one. */
    method ReplyHandler(e: nat, ok: bool)
      requires Valid() && e < |edits| && live < |heap|
      modifies this`settled, heap[edits[e].obj]
      ensures Valid() && View() == OnReply(old(View()), e, ok)
      ensures edits[e].obj != live ==> heap[live].fields == old(heap[live].fields)
    {
      settled := settled + 1;
      if !ok {
        var node := heap[edits[e].obj];
        node.fields := node.fields.Set(edits[e].field, edits[e].before);
      }
    }

    method BroadcastHandler(body: Tuple)
      requires Valid()
      modifies this`heap, this`live
      ensures Valid() && View() == OnBroadcast(old(View()), body)
    {
      var node := new NodeObject(body);
      live := |heap|;
      heap := heap + [node];
    }
  }

  // ----- the whole system

  /** `confirmed` is the latest value of every field the client was told: by a broadcast, or by an accepted edit of it. */
  datatype World = World(db: Tuple, client: Client, up: seq<Request>, down: seq<Message>, confirmed: Tuple)

  datatype Event =
    | UserEdits(obj: nat, field: Field, value: string)
    | ServerHandles(accept: bool)
    | OtherEdits(body: Tuple)
    | ReportArrives
    | Delivers

  ghost predicate Outstanding(c: Client, obj: nat, f: Field) {
    exists e :: c.settled <= e < |c.edits| && c.edits[e].obj == obj && c.edits[e].field == f
  }

  ghost function Next(w: World, e: Event): World {
    match e
    case UserEdits(obj, f, v) =>
      if obj < |w.client.heap| then
        var (client, request) := FocusOut(w.client, obj, f, v);
        w.(client := client, up := w.up + [request])
      else w
    case ServerHandles(accept) =>
      if w.up == [] then w
      else if accept then
        w.(db := w.up[0].body, up := w.up[1..], down := w.down + [Reply(w.up[0].edit, true), Broadcast(w.up[0].body)])
      else w.(up := w.up[1..], down := w.down + [Reply(w.up[0].edit, false)])
    case OtherEdits(body) => w.(db := body, down := w.down + [Broadcast(body)])
    case ReportArrives => w.(down := w.down + [Broadcast(w.db)])
    case Delivers => if w.down == [] then w else Deliver(w)
  }

  function Deliver(w: World): World
    requires w.down != []
  {
    match w.down[0]
    case Broadcast(body) => w.(client := OnBroadcast(w.client, body), down := w.down[1..], confirmed := body)
    case Reply(e, ok) =>
      if e < |w.client.edits| && w.client.edits[e].obj < |w.client.heap| then
        w.(client := OnReply(w.client, e, ok), down := w.down[1..],
           confirmed := if ok then w.confirmed.Set(w.client.edits[e].field, w.client.edits[e].value) else w.confirmed)
      else w
  }

  ghost function Execute(db: Tuple, events: seq<Event>): World {
    if events == [] then World(db, Client([db], 0, [], 0), [], [], db)
    else Next(Execute(db, events[..|events| - 1]), events[|events| - 1])
  }

  /** The user edits a field only while no other edit of that field of that object is outstanding. */
  ghost predicate Careful(db: Tuple, events: seq<Event>) {
    forall n | 0 <= n < |events| && events[n].UserEdits? ::
      !Outstanding(Execute(db, events[..n]).client, events[n].obj, events[n].field)
  }

  /** What the user would see if every outstanding edit were rolled back: v is that value of field f of the live object. */
  ghost predicate Settled(c: Client, f: Field, v: string) {
    && (forall e | c.settled <= e < |c.edits| && c.edits[e].obj == c.live && c.edits[e].field == f :: c.edits[e].before == v)
    && (!Outstanding(c, c.live, f) ==> c.live < |c.heap| && c.heap[c.live].Get(f) == v)
  }

  ghost predicate SettledAs(c: Client, t: Tuple) {
    forall f :: Settled(c, f, t.Get(f))
  }

  function ReplyCount(down: seq<Message>): nat {
    if down == [] then 0 else ReplyCount(down[..|down| - 1]) + if down[|down| - 1].Reply? then 1 else 0
  }

  /** Replies and requests come in the order of the edits, and nothing is answered twice. */
  ghost predicate InOrder(w: World) {
    var c := w.client;
    && c.live == |c.heap| - 1
    && (forall e | 0 <= e < |c.edits| :: c.edits[e].obj < |c.heap|)
    && c.settled + ReplyCount(w.down) + |w.up| == |c.edits|
    && (forall k | 0 <= k < |w.up| :: UpFits(w, k))
    && (forall k | 0 <= k < |w.down| :: DownFits(w, k))
  }

  ghost predicate UpFits(w: World, k: nat)
    requires k < |w.up|
  {
    var r := w.up[k];
    && r.edit == |w.client.edits| - |w.up| + k
    && r.edit < |w.client.edits|
    && r.body.Get(w.client.edits[r.edit].field) == w.client.edits[r.edit].value
  }

  /** A reply names its edit, and an accepting one is directly followed by the broadcast of what was accepted. */
  ghost predicate DownFits(w: World, k: nat)
    requires k < |w.down|
  {
    match w.down[k]
    case Broadcast(_) => true
    case Reply(e, ok) =>
      && e == w.client.settled + ReplyCount(w.down[..k])
      && e < |w.client.edits|
      && (ok ==> k + 1 < |w.down| && w.down[k + 1].Broadcast?
                 && w.down[k + 1].body.Get(w.client.edits[e].field) == w.client.edits[e].value)
  }

  /** No two outstanding edits share field and object, and the object still shows the edited value. */
  ghost predicate EditsApart(c: Client) {
    && (forall d, e | c.settled <= d < e < |c.edits| :: c.edits[d].obj != c.edits[e].obj || c.edits[d].field != c.edits[e].field)
    && (forall e | c.settled <= e < |c.edits| ::
          c.edits[e].obj < |c.heap| && c.heap[c.edits[e].obj].Get(c.edits[e].field) == c.edits[e].value)
  }

  /** The table, as far as pending messages have not told the client yet. */
  ghost predicate LastWord(w: World) {
    if exists k :: 0 <= k < |w.down| && w.down[k].Broadcast? then
      exists k :: 0 <= k < |w.down| && w.down[k] == Broadcast(w.db) && forall j | k < j < |w.down| :: w.down[j].Reply?
    else SettledAs(w.client, w.db)
  }

  /** Unless the broadcast of a just accepted edit comes next, rolling back gives what was confirmed. */
  ghost predicate ShowsConfirmed(w: World) {
    SettledAs(w.client, w.confirmed) || (w.down != [] && w.down[0].Broadcast?)
  }

  ghost predicate Inv(w: World) {
    InOrder(w) && EditsApart(w.client) && LastWord(w) && ShowsConfirmed(w)
  }

  lemma ReplyCountGrows(down: seq<Message>, m: Message)
    ensures ReplyCount(down + [m]) == ReplyCount(down) + if m.Reply? then 1 else 0
  {
    assert (down + [m])[..|down|] == down;
  }

  lemma {:induction false} ReplyCountFirst(down: seq<Message>)
    requires down != []
    ensures ReplyCount(down) == (if down[0].Reply? then 1 else 0) + ReplyCount(down[1..])
    decreases |down|
  {
    if |down| == 1 {
    } else {
      ReplyCountFirst(down[..|down| - 1]);
      assert down[..|down| - 1][1..] == down[1..][..|down| - 2];
    }
  }

  // ----- single turns

  /** Nothing but object obj is written, and it differs from before in field f at most. */
  ghost predicate OnlyField(c: Client, c1: Client, obj: nat, f: Field) {
    && |c1.heap| == |c.heap| && obj < |c.heap| && c1.live == c.live
    && (forall o | 0 <= o < |c.heap| && o != obj :: c1.heap[o] == c.heap[o])
    && forall g | g != f :: c1.heap[obj].Get(g) == c.heap[obj].Get(g)
  }

  /**
   * An edit writes its value to one field of the object it was made on, live or
   * replaced, remembers what was there, and asks the server to store that very
   * object, all its fields.
   */
  lemma EditSendsItsObject(w: World, obj: nat, f: Field, v: string)
    requires obj < |w.client.heap|
    ensures var w1 := Next(w, UserEdits(obj, f, v));
            && OnlyField(w.client, w1.client, obj, f) && w1.client.heap[obj].Get(f) == v
            && w1.client.edits == w.client.edits + [Edit(obj, f, w.client.heap[obj].Get(f), v)]
            && w1.client.settled == w.client.settled
            && |w1.up| == |w.up| + 1 && w1.up[..|w.up|] == w.up
            && w1.up[|w.up|].edit == |w.client.edits|
            && (forall g :: w1.up[|w.up|].body.Get(g) == w1.client.heap[obj].Get(g))
            && w1.db == w.db && w1.down == w.down && w1.confirmed == w.confirmed
  {
  }

  /** The server stores an accepted edit whole, answers, and broadcasts what it stored; a refused one is only answered. */
  lemma ServerStoresWhole(w: World, accept: bool)
    requires w.up != []
    ensures var w1 := Next(w, ServerHandles(accept));
            && w1.up == w.up[1..] && w1.client == w.client && w1.confirmed == w.confirmed
            && w1.db == (if accept then w.up[0].body else w.db)
            && w1.down == w.down + (if accept then [Reply(w.up[0].edit, true), Broadcast(w1.db)] else [Reply(w.up[0].edit, false)])
  {
  }

  /** A reply restores the one field of the one object if it is negative, and writes nothing if it is positive. */
  lemma ReplyWrites(c: Client, e: nat, ok: bool)
    requires e < |c.edits| && c.edits[e].obj < |c.heap|
    ensures var c1 := OnReply(c, e, ok);
            && OnlyField(c, c1, c.edits[e].obj, c.edits[e].field)
            && c1.heap[c.edits[e].obj].Get(c.edits[e].field) ==
               (if ok then c.heap[c.edits[e].obj].Get(c.edits[e].field) else c.edits[e].before)
            && c1.edits == c.edits && c1.settled == c.settled + 1
  {
  }

  /** A broadcast makes a new live object of what it carries; no object there was changes. */
  lemma BroadcastReplaces(c: Client, body: Tuple)
    ensures var c1 := OnBroadcast(c, body);
            && c1.live == |c.heap| && |c1.heap| == |c.heap| + 1 && c1.heap[c1.live] == body
            && (forall o | 0 <= o < |c.heap| :: c1.heap[o] == c.heap[o])
            && c1.edits == c.edits && c1.settled == c.settled
  {
  }

  lemma UserEditOrder(w: World, obj: nat, f: Field, v: string)
    requires InOrder(w)
    ensures InOrder(Next(w, UserEdits(obj, f, v)))
  {
    if obj < |w.client.heap| {
      var w1 := Next(w, UserEdits(obj, f, v));
      forall k | 0 <= k < |w1.up|
        ensures UpFits(w1, k)
      {
        if k < |w.up| {
          assert UpFits(w, k);
        }
      }
      forall k | 0 <= k < |w1.down|
        ensures DownFits(w1, k)
      {
        assert DownFits(w, k);
      }
    }
  }

  lemma UserEditKeeps(w: World, obj: nat, f: Field, v: string)
    requires Inv(w) && !Outstanding(w.client, obj, f)
    ensures Inv(Next(w, UserEdits(obj, f, v)))
  {
    UserEditOrder(w, obj, f, v);
    if obj < |w.client.heap| {
      var c, c1 := w.client, Next(w, UserEdits(obj, f, v)).client;
      forall g, t | Settled(c, g, t)
        ensures Settled(c1, g, t)
      {
        EditSettled(c, obj, f, v, g, t);
      }
    }
  }

  lemma EditSettled(c: Client, obj: nat, f: Field, v: string, g: Field, t: string)
    requires obj < |c.heap| && c.live < |c.heap| && c.settled <= |c.edits| && !Outstanding(c, obj, f) && Settled(c, g, t)
    ensures Settled(FocusOut(c, obj, f, v).0, g, t)
  {
    var c1 := FocusOut(c, obj, f, v).0;
    assert forall e | 0 <= e < |c.edits| :: c1.edits[e] == c.edits[e];
    if obj == c.live && g == f {
      assert c1.edits[|c.edits|].obj == c1.live && c1.edits[|c.edits|].field == g;
      assert Outstanding(c1, c1.live, g);
    } else if Outstanding(c, c.live, g) {
      var e :| c.settled <= e < |c.edits| && c.edits[e].obj == c.live && c.edits[e].field == g;
      assert c1.edits[e].obj == c1.live && c1.edits[e].field == g;
      assert Outstanding(c1, c1.live, g);
    }
  }

  lemma ServerOrder(w: World, e: Event)
    requires InOrder(w) && (e.ServerHandles? || e.OtherEdits? || e.ReportArrives?)
    ensures InOrder(Next(w, e))
  {
    var w1 := Next(w, e);
    if e.ServerHandles? {
      if w.up != [] {
        assert UpFits(w, 0);
        forall k | 0 <= k < |w1.up|
          ensures UpFits(w1, k)
        {
          assert UpFits(w, k + 1);
        }
        if e.accept {
          Appends(w, w1, [Reply(w.up[0].edit, true), Broadcast(w.up[0].body)]);
        } else {
          Appends(w, w1, [Reply(w.up[0].edit, false)]);
        }
      }
    } else {
      forall k | 0 <= k < |w1.up|
        ensures UpFits(w1, k)
      {
        assert UpFits(w, k);
      }
      Appends(w, w1, [Broadcast(w1.db)]);
    }
  }

  /** Messages appended behind the pending ones fit, if they fit among themselves. */
  lemma Appends(w: World, w1: World, news: seq<Message>)
    requires (forall k | 0 <= k < |w.down| :: DownFits(w, k)) && w1.client == w.client && w1.down == w.down + news
    requires 1 <= |news| <= 2 && (|news| == 2 ==> news[0].Reply? && news[1].Broadcast?)
    requires news[0].Reply? ==>
               var Reply(e, ok) := news[0];
               && e == w.client.settled + ReplyCount(w.down) && e < |w.client.edits|
               && (ok ==> |news| == 2 && news[1].body.Get(w.client.edits[e].field) == w.client.edits[e].value)
    ensures forall k | 0 <= k < |w1.down| :: DownFits(w1, k)
    ensures ReplyCount(w1.down) == ReplyCount(w.down) + if news[0].Reply? then 1 else 0
  {
    var n := |w.down|;
    ReplyCountGrows(w.down, news[0]);
    if |news| == 2 {
      ReplyCountGrows(w.down + [news[0]], news[1]);
      assert w1.down == w.down + [news[0]] + [news[1]];
    } else {
      assert w1.down == w.down + [news[0]];
    }
    assert w1.down[..n] == w.down && w1.down[n] == news[0];
    assert DownFits(w1, n);
    forall k | 0 <= k < n
      ensures DownFits(w1, k)
    {
      assert DownFits(w, k) && w1.down[..k] == w.down[..k] && w1.down[k] == w.down[k];
      assert k + 1 < n ==> w1.down[k + 1] == w.down[k + 1];
    }
  }

  lemma ServerLastWord(w: World, e: Event)
    requires Inv(w) && (e.ServerHandles? || e.OtherEdits? || e.ReportArrives?)
    ensures LastWord(Next(w, e)) && ShowsConfirmed(Next(w, e))
  {
    var w1 := Next(w, e);
    if w1 != w {
      assert forall k | 0 <= k < |w.down| :: w1.down[k] == w.down[k];
      if e.ServerHandles? && !e.accept {
        if k :| 0 <= k < |w.down| && w.down[k].Broadcast? {
          assert w1.down[k].Broadcast?;
          var i :| 0 <= i < |w.down| && w.down[i] == Broadcast(w.db) && forall j | i < j < |w.down| :: w.down[j].Reply?;
          assert w1.down[i] == Broadcast(w1.db) && forall j | i < j < |w1.down| :: w1.down[j].Reply?;
        }
      } else {
        assert w1.down[|w1.down| - 1] == Broadcast(w1.db);
      }
    }
  }

  lemma DeliverOrder(w: World)
    requires InOrder(w) && w.down != []
    ensures InOrder(Deliver(w))
  {
    var w1 := Deliver(w);
    assert DownFits(w, 0);
    assert w.down[..0] == [];
    ReplyCountFirst(w.down);
    forall k | 0 <= k < |w1.up|
      ensures UpFits(w1, k)
    {
      assert UpFits(w, k);
    }
    forall k | 0 <= k < |w1.down|
      ensures DownFits(w1, k)
    {
      assert DownFits(w, k + 1);
      ReplyCountFirst(w.down[..k + 1]);
      assert w.down[..k + 1][1..] == w1.down[..k];
    }
  }

  /** A negative reply puts the field of its object back to what rolling back would have shown anyway. */
  lemma RollbackSettled(c: Client, f: Field, v: string)
    requires c.settled < |c.edits| && c.live < |c.heap| && EditsApart(c) && Settled(c, f, v)
    ensures Settled(OnReply(c, c.settled, false), f, v)
  {
    var c1 := OnReply(c, c.settled, false);
    var e0 := c.edits[c.settled];
    if Outstanding(c, c.live, f) && !(e0.obj == c.live && e0.field == f) {
      var e :| c.settled <= e < |c.edits| && c.edits[e].obj == c.live && c.edits[e].field == f;
      assert c1.settled <= e < |c1.edits| && c1.edits[e].obj == c1.live && c1.edits[e].field == f;
    }
  }

  /** A positive reply to an edit of the live object makes the edited value what rolling back would show. */
  lemma AcceptSettled(c: Client, f: Field, v: string)
    requires c.settled < |c.edits| && c.live < |c.heap| && EditsApart(c) && Settled(c, f, v)
    ensures var e0 := c.edits[c.settled];
            Settled(OnReply(c, c.settled, true), f, if e0.obj == c.live && e0.field == f then e0.value else v)
  {
    var c1 := OnReply(c, c.settled, true);
    var e0 := c.edits[c.settled];
    if Outstanding(c, c.live, f) && !(e0.obj == c.live && e0.field == f) {
      var e :| c.settled <= e < |c.edits| && c.edits[e].obj == c.live && c.edits[e].field == f;
      assert c1.settled <= e < |c1.edits| && c1.edits[e].obj == c1.live && c1.edits[e].field == f;
    }
  }

  lemma DeliverLastWord(w: World)
    requires Inv(w) && w.down != []
    ensures LastWord(Deliver(w)) && ShowsConfirmed(Deliver(w))
  {
    var w1 := Deliver(w);
    assert DownFits(w, 0) && w.down[..0] == [];
    assert forall k | 0 <= k < |w1.down| :: w1.down[k] == w.down[k + 1];
    if w.down[0].Broadcast? {
      assert forall f :: Settled(w1.client, f, w1.confirmed.Get(f));
    } else if !w.down[0].ok {
      forall f, v | Settled(w.client, f, v)
        ensures Settled(w1.client, f, v)
      {
        RollbackSettled(w.client, f, v);
      }
    }
    if k :| 0 <= k < |w1.down| && w1.down[k].Broadcast? {
      assert w.down[k + 1].Broadcast?;
      var i :| 0 <= i < |w.down| && w.down[i] == Broadcast(w.db) && forall j | i < j < |w.down| :: w.down[j].Reply?;
      assert i >= k + 1;
      assert w1.down[i - 1] == Broadcast(w1.db);
    } else {
      assert forall k | 0 < k < |w.down| :: w.down[k] == w1.down[k - 1];
    }
  }

  lemma NextOrder(w: World, e: Event)
    requires InOrder(w)
    ensures InOrder(Next(w, e))
  {
    match e
    case UserEdits(obj, f, v) => UserEditOrder(w, obj, f, v);
    case Delivers =>
      if w.down != [] {
        DeliverOrder(w);
      }
    case _ => ServerOrder(w, e);
  }

  lemma NextKeeps(w: World, e: Event)
    requires Inv(w) && (e.UserEdits? ==> !Outstanding(w.client, e.obj, e.field))
    ensures Inv(Next(w, e))
  {
    NextOrder(w, e);
    match e
    case UserEdits(obj, f, v) => UserEditKeeps(w, obj, f, v);
    case Delivers =>
      if w.down != [] {
        assert DownFits(w, 0) && w.down[..0] == [];
        DeliverLastWord(w);
      }
    case _ => ServerLastWord(w, e);
  }

  lemma {:induction false} Reachable(db: Tuple, events: seq<Event>)
    requires Careful(db, events)
    ensures Inv(Execute(db, events))
    decreases |events|
  {
    if events == [] {
    } else {
      var n := |events| - 1;
      CarefulBefore(db, events);
      Reachable(db, events[..n]);
      NextKeeps(Execute(db, events[..n]), events[n]);
    }
  }

  lemma CarefulBefore(db: Tuple, events: seq<Event>)
    requires events != [] && Careful(db, events)
    ensures Careful(db, events[..|events| - 1])
  {
    var init := events[..|events| - 1];
    forall k | 0 <= k < |init| && init[k].UserEdits?
      ensures !Outstanding(Execute(db, init[..k]).client, init[k].obj, init[k].field)
    {
      assert init[..k] == events[..k];
    }
  }

  /**
   * With every message delivered, each field of the stored object shows the
   * table's value, except a field the user is editing, whose rollback value is
   * the table's; so with no edit outstanding the two are equal.
   */
  lemma QuietClientShowsTable(db: Tuple, events: seq<Event>)
    requires Careful(db, events) && Execute(db, events).down == []
    ensures var w := Execute(db, events);
            && SettledAs(w.client, w.db)
            && (w.up == [] ==> w.client.live < |w.client.heap| && w.client.heap[w.client.live] == w.db)
  {
    Reachable(db, events);
    var w := Execute(db, events);
    if w.up == [] {
      forall f
        ensures w.client.heap[w.client.live].Get(f) == w.db.Get(f)
      {
        assert Settled(w.client, f, w.db.Get(f));
      }
      SameFieldsSameTuple(w.client.heap[w.client.live], w.db);
    }
  }

  /**
   * Processing the reply to an edit leaves the field at its last confirmed
   * value exactly if the edit was rejected, or its object is still the live
   * one, or the accepted value is what the client was last told anyway.
   * Otherwise the very next message repairs it.
   */
  lemma ReplyShowsConfirmed(db: Tuple, events: seq<Event>)
    requires Careful(db, events) && var w := Execute(db, events); w.down != [] && w.down[0].Reply?
    ensures var w := Execute(db, events);
            var w1 := Deliver(w);
            var Reply(e, ok) := w.down[0];
            && e < |w.client.edits|
            && var edit := w.client.edits[e];
            && (Settled(w1.client, edit.field, w1.confirmed.Get(edit.field)) <==>
                !ok || edit.obj == w.client.live || w.confirmed.Get(edit.field) == edit.value)
            && (ok ==> w1.down != [] && w1.down[0].Broadcast?
                       && Settled(Deliver(w1).client, edit.field, edit.value))
  {
    Reachable(db, events);
    ReplyConfirms(Execute(db, events));
  }

  lemma ReplyConfirms(w: World)
    requires Inv(w) && w.down != [] && w.down[0].Reply?
    ensures var w1 := Deliver(w);
            var Reply(e, ok) := w.down[0];
            && e < |w.client.edits|
            && var edit := w.client.edits[e];
            && (Settled(w1.client, edit.field, w1.confirmed.Get(edit.field)) <==>
                !ok || edit.obj == w.client.live || w.confirmed.Get(edit.field) == edit.value)
            && (ok ==> w1.down != [] && w1.down[0].Broadcast?
                       && Settled(Deliver(w1).client, edit.field, edit.value))
  {
    HeadReply(w);
    var w1 := Deliver(w);
    var c := w.client;
    var edit := c.edits[c.settled];
    var v := w.confirmed.Get(edit.field);
    assert Settled(c, edit.field, v);
    if w.down[0].ok {
      AcceptSettled(c, edit.field, v);
      SettledUnique(w1.client, edit.field, v, edit.value);
      DeliverOrder(w);
    } else {
      RollbackSettled(c, edit.field, v);
    }
  }

  lemma SettledUnique(c: Client, f: Field, v: string, u: string)
    requires c.live < |c.heap|
    ensures Settled(c, f, v) && Settled(c, f, u) ==> u == v
  {
  }

  /** An edit is accepted after a report has replaced the edited object: the reply leaves the old value on show. */
  lemma ReplyToReplacedObject(db: Tuple, v: string) returns (events: seq<Event>)
    requires v != db.hostname
    ensures Careful(db, events)
    ensures var w := Execute(db, events);
            && w.down != [] && w.down[0] == Reply(0, true)
            && !Settled(Deliver(w).client, Hostname, Deliver(w).confirmed.Get(Hostname))
  {
    events := [UserEdits(0, Hostname, v)] + [ReportArrives] + [Delivers] + [ServerHandles(true)];
    var w0 := Execute(db, []);
    OneMore(db, [], UserEdits(0, Hostname, v));
    assert [] + [UserEdits(0, Hostname, v)] == [UserEdits(0, Hostname, v)];
    OneMore(db, [UserEdits(0, Hostname, v)], ReportArrives);
    OneMore(db, [UserEdits(0, Hostname, v)] + [ReportArrives], Delivers);
    OneMore(db, [UserEdits(0, Hostname, v)] + [ReportArrives] + [Delivers], ServerHandles(true));
    assert events[..0] == [] && forall n | 0 < n < 4 :: !events[n].UserEdits?;
    var w2 := Next(Next(w0, UserEdits(0, Hostname, v)), ReportArrives);
    assert w2.down == [Broadcast(db)];
    var w4 := Next(Next(w2, Delivers), ServerHandles(true));
    assert w4.client.heap[1] == db && w4.client.live == 1 && w4.client.edits == [Edit(0, Hostname, db.hostname, v)];
    ReplyShowsConfirmed(db, events);
  }

  lemma OneMore(db: Tuple, events: seq<Event>, e: Event)
    ensures Execute(db, events + [e]) == Next(Execute(db, events), e)
  {
    assert (events + [e])[..|events|] == events;
  }

  // ----- users who are not careful: any edits, at any time

  /** Once no broadcast is pending, the client was told what the table holds. */
  ghost predicate Told(w: World) {
    if exists k :: 0 <= k < |w.down| && w.down[k].Broadcast? then
      exists k :: 0 <= k < |w.down| && w.down[k] == Broadcast(w.db) && forall j | k < j < |w.down| :: w.down[j].Reply?
    else w.confirmed == w.db
  }

  /** The latest edit of field f of an object, or -1. */
  function LatestOf(edits: seq<Edit>, obj: nat, f: Field): (e: int)
    ensures -1 <= e < |edits|
    ensures e >= 0 ==> edits[e].obj == obj && edits[e].field == f
    ensures forall k | e < k < |edits| :: !(edits[k].obj == obj && edits[k].field == f)
  {
    if edits == [] then -1
    else
      var n := |edits| - 1;
      if edits[n].obj == obj && edits[n].field == f then n else LatestOf(edits[..n], obj, f)
  }

  /**
   * Unless a broadcast comes next: a field of the live object that was never
   * edited shows what the client was told, and one whose latest edit was
   * answered shows what it showed before that edit.
   */
  ghost predicate Shown(w: World) {
    || (w.down != [] && w.down[0].Broadcast?)
    || forall f :: FieldShown(w.client, w.confirmed, f)
  }

  ghost predicate FieldShown(c: Client, told: Tuple, f: Field) {
    var n := LatestOf(c.edits, c.live, f);
    && c.live < |c.heap|
    && (n < 0 ==> c.heap[c.live].Get(f) == told.Get(f))
    && (0 <= n < c.settled ==> c.heap[c.live].Get(f) == c.edits[n].before)
  }

  lemma NextTold(w: World, e: Event)
    requires InOrder(w) && Told(w)
    ensures Told(Next(w, e))
  {
    var w1 := Next(w, e);
    match e
    case UserEdits(_, _, _) =>
    case Delivers =>
      if w.down != [] {
        assert DownFits(w, 0);
        assert forall k | 0 <= k < |w1.down| :: w1.down[k] == w.down[k + 1];
        if k :| 0 <= k < |w1.down| && w1.down[k].Broadcast? {
          assert w.down[k + 1].Broadcast?;
          var i :| 0 <= i < |w.down| && w.down[i] == Broadcast(w.db) && forall j | i < j < |w.down| :: w.down[j].Reply?;
          assert w1.down[i - 1] == Broadcast(w1.db);
        } else {
          assert forall k | 0 < k < |w.down| :: w.down[k] == w1.down[k - 1];
        }
      }
    case _ => ServerTold(w, e);
  }

  lemma ServerTold(w: World, e: Event)
    requires Told(w) && (e.ServerHandles? || e.OtherEdits? || e.ReportArrives?)
    ensures Told(Next(w, e))
  {
    var w1 := Next(w, e);
    if w1 != w {
      assert forall k | 0 <= k < |w.down| :: w1.down[k] == w.down[k];
      if e.ServerHandles? && !e.accept {
        if k :| 0 <= k < |w.down| && w.down[k].Broadcast? {
          assert w1.down[k].Broadcast?;
          var i :| 0 <= i < |w.down| && w.down[i] == Broadcast(w.db) && forall j | i < j < |w.down| :: w.down[j].Reply?;
          assert w1.down[i] == Broadcast(w1.db);
        }
      } else {
        assert w1.down[|w1.down| - 1] == Broadcast(w1.db);
      }
    }
  }

  lemma NextShown(w: World, e: Event)
    requires InOrder(w) && Shown(w)
    ensures Shown(Next(w, e))
  {
    var w1 := Next(w, e);
    if w1.down == [] || !w1.down[0].Broadcast? {
      forall f
        ensures FieldShown(w1.client, w1.confirmed, f)
      {
        match e
        case UserEdits(obj, g, v) =>
          if obj < |w.client.heap| {
            EditFieldShown(w.client, w.confirmed, obj, g, v, f);
          }
        case Delivers => DeliverFieldShown(w, f);
        case _ => assert FieldShown(w.client, w.confirmed, f);
      }
    }
  }

  lemma EditFieldShown(c: Client, told: Tuple, obj: nat, g: Field, v: string, f: Field)
    requires obj < |c.heap| && c.settled <= |c.edits| && FieldShown(c, told, f)
    ensures FieldShown(FocusOut(c, obj, g, v).0, told, f)
  {
    var c1 := FocusOut(c, obj, g, v).0;
    assert c1.edits[..|c.edits|] == c.edits;
    if !(obj == c.live && g == f) {
      assert c1.heap[c.live].Get(f) == c.heap[c.live].Get(f);
    }
  }

  lemma DeliverFieldShown(w: World, f: Field)
    requires InOrder(w) && Shown(w)
    requires var w1 := Next(w, Delivers); w1.down == [] || !w1.down[0].Broadcast?
    ensures FieldShown(Next(w, Delivers).client, Next(w, Delivers).confirmed, f)
  {
    if w.down != [] {
      if w.down[0].Broadcast? {
        BroadcastFieldShown(w.client, w.down[0].body, f);
      } else {
        HeadReply(w);
        RollbackFieldShown(w.client, w.confirmed, f);
      }
    }
  }

  /** A reply that comes next is to the oldest open edit, and an accepting one is followed by a broadcast. */
  lemma HeadReply(w: World)
    requires InOrder(w) && w.down != [] && w.down[0].Reply?
    ensures var Reply(e, ok) := w.down[0];
            && e == w.client.settled && e < |w.client.edits| && w.client.edits[e].obj < |w.client.heap|
            && (ok ==> |w.down| > 1 && w.down[1].Broadcast?
                       && w.down[1].body.Get(w.client.edits[e].field) == w.client.edits[e].value)
  {
    assert DownFits(w, 0) && w.down[..0] == [];
  }

  lemma BroadcastFieldShown(c: Client, body: Tuple, f: Field)
    requires forall e | 0 <= e < |c.edits| :: c.edits[e].obj < |c.heap|
    ensures FieldShown(OnBroadcast(c, body), body, f)
  {
  }

  lemma RollbackFieldShown(c: Client, told: Tuple, f: Field)
    requires c.settled < |c.edits| && c.edits[c.settled].obj < |c.heap| && FieldShown(c, told, f)
    ensures FieldShown(OnReply(c, c.settled, false), told, f)
  {
    var c1 := OnReply(c, c.settled, false);
    var e0 := c.edits[c.settled];
    if !(e0.obj == c.live && e0.field == f) {
      assert c1.heap[c.live].Get(f) == c.heap[c.live].Get(f);
    }
  }

  lemma {:induction false} AnyReachable(db: Tuple, events: seq<Event>)
    ensures var w := Execute(db, events); InOrder(w) && Told(w) && Shown(w)
    decreases |events|
  {
    if events == [] {
      assert forall f :: FieldShown(Client([db], 0, [], 0), db, f);
    } else {
      var n := |events| - 1;
      AnyReachable(db, events[..n]);
      NextOrder(Execute(db, events[..n]), events[n]);
      NextTold(Execute(db, events[..n]), events[n]);
      NextShown(Execute(db, events[..n]), events[n]);
    }
  }

  /**
   * However edits overlap: when all messages are delivered and no edit of a
   * field is outstanding, the field shows the table's value exactly if the
   * latest edit of it on the shown object, if any, was made while it showed
   * that value.
   */
  lemma QuietFieldShowsTableIff(db: Tuple, events: seq<Event>, f: Field)
    requires var w := Execute(db, events); w.down == [] && !Outstanding(w.client, w.client.live, f)
    ensures var w := Execute(db, events);
            var c := w.client;
            var n := LatestOf(c.edits, c.live, f);
            && c.live < |c.heap|
            && (c.heap[c.live].Get(f) == w.db.Get(f) <==> (n >= 0 ==> c.edits[n].before == w.db.Get(f)))
  {
    AnyReachable(db, events);
    var w := Execute(db, events);
    assert FieldShown(w.client, w.confirmed, f);
  }

  /**
   * What the replies alone do: after both replies to two overlapping edits of a
   * field, and before any broadcast, it shows the value confirmed last exactly
   * if the first edit was accepted or the value that counts was there before.
   */
  lemma OverlappingReplies(c: Client, f: Field, v1: string, v2: string, ok1: bool, ok2: bool)
    requires c.live < |c.heap| && c.settled == |c.edits|
    ensures var before := c.heap[c.live].Get(f);
            var c2 := FocusOut(FocusOut(c, c.live, f, v1).0, c.live, f, v2).0;
            var c4 := OnReply(OnReply(c2, |c.edits|, ok1), |c.edits| + 1, ok2);
            c4.heap[c4.live].Get(f) == (if ok2 then v2 else if ok1 then v1 else before) <==>
            ok1 || (if ok2 then v2 == before else v1 == before)
  {
    var c1 := FocusOut(c, c.live, f, v1).0;
    var c2 := FocusOut(c1, c.live, f, v2).0;
    assert c2.edits == c.edits + [Edit(c.live, f, c.heap[c.live].Get(f), v1)] + [Edit(c.live, f, v1, v2)];
    assert c2.edits[|c.edits|].before == c.heap[c.live].Get(f) && c2.edits[|c.edits| + 1].before == v1;
  }

  /**
   * Two overlapping edits of one field, whatever is answered: once everything is
   * delivered the field shows the table's value exactly if an edit was accepted
   * or the first one changed nothing; else the first rejected value sticks.
   */
  lemma OverlappingEdits(db: Tuple, f: Field, v1: string, v2: string, ok1: bool, ok2: bool)
    ensures var w := DeliverFour(AnsweredTwice(db, f, v1, v2, ok1, ok2));
            && w.down == [] && w.up == [] && w.client.live < |w.client.heap|
            && (w.client.heap[w.client.live].Get(f) == w.db.Get(f) <==> ok1 || ok2 || v1 == db.Get(f))
            && (!ok1 && !ok2 ==> w.client.heap[w.client.live].Get(f) == v1)
  {
    AnsweredTwiceIs(db, f, v1, v2, ok1, ok2);
    var w1 := Next(AnsweredTwice(db, f, v1, v2, ok1, ok2), Delivers);
    var w2 := Next(w1, Delivers);
    if ok1 {
      assert w2.client.live == 1 && w2.client.heap[1] == db.Set(f, v1);
    } else {
      assert w1.client.heap[0].Get(f) == db.Get(f);
      assert !ok2 ==> w2.client.heap[0].Get(f) == v1;
    }
  }

  ghost function DeliverFour(w: World): World {
    Next(Next(Next(Next(w, Delivers), Delivers), Delivers), Delivers)
  }

  /** Two edits of field f are made, then both are handled by the server. */
  ghost function AnsweredTwice(db: Tuple, f: Field, v1: string, v2: string, ok1: bool, ok2: bool): World {
    Next(Next(Next(Next(Execute(db, []), UserEdits(0, f, v1)), UserEdits(0, f, v2)), ServerHandles(ok1)), ServerHandles(ok2))
  }

  lemma AnsweredTwiceIs(db: Tuple, f: Field, v1: string, v2: string, ok1: bool, ok2: bool)
    ensures var b1 := db.Set(f, v1);
            var b2 := b1.Set(f, v2);
            var client := Client([b2], 0, [Edit(0, f, db.Get(f), v1), Edit(0, f, v1, v2)], 0);
            AnsweredTwice(db, f, v1, v2, ok1, ok2) ==
            World(if ok2 then b2 else if ok1 then b1 else db, client, [],
                  (if ok1 then [Reply(0, true), Broadcast(b1)] else [Reply(0, false)]) +
                  (if ok2 then [Reply(1, true), Broadcast(b2)] else [Reply(1, false)]), db)
  {
    var b1 := db.Set(f, v1);
    var w1 := Next(Execute(db, []), UserEdits(0, f, v1));
    assert w1 == World(db, Client([b1], 0, [Edit(0, f, db.Get(f), v1)], 0), [Request(0, b1)], [], db);
    var w2 := Next(w1, UserEdits(0, f, v2));
    assert w2.up == [Request(0, b1), Request(1, b1.Set(f, v2))];
  }
}
