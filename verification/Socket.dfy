/**
 * The browser's message layer (webroot/js/socket.js): the handshake gate, the
 * retry queue, the reply callbacks and the connection identity.
 */
module Socket {
  import opened Common

  /** An empty id is what the source tests for as a missing one. */
  datatype Message = Message(subject: string, id: string, body: string)

  /** One call of sendjson; the number tells apart calls with equal arguments. */
  datatype Call = Call(number: nat, obj: Message, hasCallback: bool)

  datatype Frame = Frame(call: Call, id: string)

  /** Listener functions are told apart by number. */
  type Listener = nat

  datatype Hearing = Hearing(listener: Listener, msg: Message)

  const CONNECTING := 0
  const OPEN := 1
  const CLOSED := 3

  const SESSION_INIT := "session_init"

  /**
   * The module's variables, and beside them what happened so far: the calls
   * made, the frames handed to a socket, the callbacks run, the messages heard
   * by listeners.
   */
  datatype Page = Page(
    readyState: nat, sessionInit: bool, connectionId: Option<string>, stored: Option<string>,
    query: seq<Call>, eventMsgId: map<string, Call>,
    eventTo: map<string, seq<Listener>>,
    calls: seq<Call>, frames: seq<Frame>, ran: seq<Call>, heard: seq<Hearing>)

  function FreshPage(stored: Option<string>): Page {
    Page(CONNECTING, false, stored, stored, [], map[], map[], [], [], [], [])
  }

  predicate Ready(p: Page, subject: string) {
    p.readyState == OPEN && (p.sessionInit || subject == SESSION_INIT)
  }

  function FrameId(obj: Message, uuid: string): string {
    if obj.id == "" then uuid else obj.id
  }

  /** Send now, or queue. */
  function Dispatch(p: Page, call: Call, uuid: string): Page {
    if !Ready(p, call.obj.subject) then p.(query := p.query + [call])
    else
      var id := FrameId(call.obj, uuid);
      p.(frames := p.frames + [Frame(call, id)],
         eventMsgId := if call.hasCallback then p.eventMsgId[id := call] else p.eventMsgId)
  }

  function Send(p: Page, obj: Message, hasCallback: bool, uuid: string): Page {
    var call := Call(|p.calls|, obj, hasCallback);
    Dispatch(p.(calls := p.calls + [call]), call, uuid)
  }

  function Opened(p: Page, uuid1: string, uuid2: string): Page {
    var p1 := Send(p.(readyState := OPEN), Message("auth_status", "", ""), false, uuid1);
    Send(p1, Message("connect", "", ""), false, uuid2)
  }

  function Received(p: Page, msg: Message, newId: string, uuid: string): Page {
    if msg.subject == SESSION_INIT then
      var id := if p.connectionId.None? then newId else p.connectionId.value;
      var p1 := p.(connectionId := Some(id), stored := if p.connectionId.None? then Some(id) else p.stored);
      Send(p1, msg.(id := id), false, uuid).(sessionInit := true)
    else if msg.id in p.eventMsgId then
      p.(ran := p.ran + [p.eventMsgId[msg.id]], eventMsgId := p.eventMsgId - {msg.id})
    else p.(heard := p.heard + HeardBy(ListenersTo(p, msg.subject), msg))
  }

  function ListenersTo(p: Page, subject: string): seq<Listener> {
    if subject in p.eventTo then p.eventTo[subject] else []
  }

  /** Every listener hears the message, in the order of the list. */
  function HeardBy(listeners: seq<Listener>, msg: Message): (heard: seq<Hearing>)
    ensures |heard| == |listeners|
    ensures forall k | 0 <= k < |listeners| :: heard[k].listener == listeners[k] && heard[k].msg == msg
  {
    seq(|listeners|, k requires 0 <= k < |listeners| => Hearing(listeners[k], msg))
  }

  function WithOnly(p: Page, subject: string, listener: Listener): Page {
    p.(eventTo := p.eventTo[subject := [listener]])
  }

  function WithListener(p: Page, subject: string, listener: Listener): Page {
    p.(eventTo := p.eventTo[subject := ListenersTo(p, subject) + [listener]])
  }

  function WithoutListener(p: Page, subject: string, listener: Listener): Page {
    var before := ListenersTo(p, subject);
    p.(eventTo := p.eventTo[subject := if |before| > 1 then before[..|before| - 1] else []])
  }

  /** The interval handler: takes the newest entry off the queue and sends it again. */
  function Tick(p: Page, uuid: string): Page {
    if p.query == [] then p
    else
      var n := |p.query| - 1;
      Dispatch(p.(query := p.query[..n]), p.query[n], uuid)
  }

  /** The module as it is: variables changed in place. `calls`, `frames`, `ran` and `heard` record its effects. */
  class SocketModule {
    var readyState: nat
    var sessionInit: bool
    var connectionId: Option<string>
    var stored: Option<string>
    var query: seq<Call>
    var eventMsgId: map<string, Call>
    var eventTo: map<string, seq<Listener>>
    var calls: seq<Call>
    var frames: seq<Frame>
    var ran: seq<Call>
    var heard: seq<Hearing>

    ghost function View(): Page
      reads this
    {
      Page(readyState, sessionInit, connectionId, stored, query, eventMsgId, eventTo, calls, frames, ran, heard)
    }

    constructor (stored: Option<string>)
      ensures View() == FreshPage(stored)
    {
      readyState, sessionInit, connectionId, this.stored := CONNECTING, false, stored, stored;
      query, eventMsgId, eventTo := [], map[], map[];
      calls, frames, ran, heard := [], [], [], [];
    }

    method SendJson(obj: Message, hasCallback: bool, uuid: string)
      modifies this
      ensures View() == Send(old(View()), obj, hasCallback, uuid)
    {
      var call := Call(|calls|, obj, hasCallback);
      calls := calls + [call];
      SendCall(call, uuid);
    }

    method SendCall(call: Call, uuid: string)
      modifies this
      ensures View() == Dispatch(old(View()), call, uuid)
    {
      if readyState != OPEN || (!sessionInit && call.obj.subject != SESSION_INIT) {
        query := query + [call];
        return;
      }
      var id := if call.obj.id == "" then uuid else call.obj.id;
      frames := frames + [Frame(call, id)];
      if call.hasCallback {
        eventMsgId := eventMsgId[id := call];
      }
    }

    method OnOpen(uuid1: string, uuid2: string)
      modifies this
      ensures View() == Opened(old(View()), uuid1, uuid2)
    {
      readyState := OPEN;
      SendJson(Message("auth_status", "", ""), false, uuid1);
      SendJson(Message("connect", "", ""), false, uuid2);
    }

    method OnMessage(msg: Message, newId: string, uuid: string)
      requires readyState == OPEN
      modifies this
      ensures View() == Received(old(View()), msg, newId, uuid)
    {
      if msg.subject == SESSION_INIT {
        if connectionId.None? {
          connectionId := Some(newId);
          stored := Some(newId);
        }
        SendJson(msg.(id := connectionId.value), false, uuid);
        sessionInit := true;
        return;
      }
      if msg.id in eventMsgId {
        ran := ran + [eventMsgId[msg.id]];
        eventMsgId := eventMsgId - {msg.id};
        return;
      }
      if msg.subject in eventTo {
        var listeners := eventTo[msg.subject];
        ghost var before := heard;
        for k := 0 to |listeners|
          invariant View() == old(View()).(heard := before + HeardBy(listeners[..k], msg))
        {
          heard := heard + [Hearing(listeners[k], msg)];
          assert HeardBy(listeners[..k + 1], msg) == HeardBy(listeners[..k], msg) + [Hearing(listeners[k], msg)];
        }
        assert listeners[..|listeners|] == listeners;
      }
    }

    method SetEvent(to: string, listener: Listener)
      modifies this`eventTo
      ensures View() == WithOnly(old(View()), to, listener)
    {
      eventTo := eventTo[to := [listener]];
    }

    method AddEvent(to: string, listener: Listener)
      modifies this`eventTo
      ensures View() == WithListener(old(View()), to, listener)
    {
      if to !in eventTo {
        eventTo := eventTo[to := []];
      }
      eventTo := eventTo[to := eventTo[to] + [listener]];
    }

    /** The listener to be removed is not looked for: the last one of the list goes. */
    method DelEvent(to: string, listener: Listener)
      modifies this`eventTo
      ensures View() == WithoutListener(old(View()), to, listener)
    {
      if to in eventTo && |eventTo[to]| > 1 {
        eventTo := eventTo[to := eventTo[to][..|eventTo[to]| - 1]];
      } else {
        eventTo := eventTo[to := []];
      }
    }

    method Retry(uuid: string)
      modifies this
      ensures View() == Tick(old(View()), uuid)
    {
      if query != [] {
        var entry := query[|query| - 1];
        query := query[..|query| - 1];
        SendCall(entry, uuid);
      }
    }
  }

  // ----- whole runs

  /** Messages arrive only on an open socket; `Gone` is a socket closing, `Reconnected` the next one being made. */
  datatype Event =
    | AppSends(obj: Message, hasCallback: bool, uuid: string)
    | Opens(uuid1: string, uuid2: string)
    | Receives(msg: Message, newId: string, uuid: string)
    | Ticks(uuid: string)
    | Gone
    | Reconnected
    | Sets(to: string, listener: Listener)
    | Adds(to: string, listener: Listener)
    | Dels(to: string, listener: Listener)

  function Next(p: Page, e: Event): Page {
    match e
    case AppSends(obj, hasCallback, uuid) => Send(p, obj, hasCallback, uuid)
    case Opens(uuid1, uuid2) => if p.readyState == CONNECTING then Opened(p, uuid1, uuid2) else p
    case Receives(msg, newId, uuid) => if p.readyState == OPEN then Received(p, msg, newId, uuid) else p
    case Ticks(uuid) => Tick(p, uuid)
    case Gone => p.(readyState := CLOSED)
    case Reconnected => p.(readyState := CONNECTING)
    case Sets(to, listener) => WithOnly(p, to, listener)
    case Adds(to, listener) => WithListener(p, to, listener)
    case Dels(to, listener) => WithoutListener(p, to, listener)
  }

  function Execute(stored: Option<string>, events: seq<Event>): Page {
    if events == [] then FreshPage(stored)
    else Next(Execute(stored, events[..|events| - 1]), events[|events| - 1])
  }

  function Sent(frames: seq<Frame>): seq<Call> {
    if frames == [] then [] else Sent(frames[..|frames| - 1]) + [frames[|frames| - 1].call]
  }

  /** Every call made is either queued or was handed to a socket, and exactly as often as it was made. */
  ghost predicate Conserved(p: Page) {
    && multiset(p.calls) == multiset(p.query) + multiset(Sent(p.frames))
    && forall k | 0 <= k < |p.calls| :: p.calls[k].number == k
  }

  /** Only handshake frames leave before the handshake, and once it is done one has left. */
  ghost predicate HandshakeFirst(p: Page) {
    && (p.frames != [] ==> p.frames[0].call.obj.subject == SESSION_INIT)
    && (p.sessionInit ==> p.frames != [] && p.connectionId.Some?)
    && (!p.sessionInit ==> forall f | f in p.frames :: f.call.obj.subject == SESSION_INIT)
    && p.stored == p.connectionId
  }

  /** A callback is registered or has run only for a frame that was sent with it, and never both or twice. */
  ghost predicate CallbacksOnce(p: Page) {
    && NoDuplicates(p.ran)
    && (forall c | c in p.ran :: c.hasCallback && c in Sent(p.frames))
    && (forall id | id in p.eventMsgId ::
          p.eventMsgId[id].hasCallback && p.eventMsgId[id] in Sent(p.frames) && p.eventMsgId[id] !in p.ran)
    && (forall a, b | a in p.eventMsgId && b in p.eventMsgId && p.eventMsgId[a] == p.eventMsgId[b] :: a == b)
  }

  ghost predicate Inv(p: Page) {
    Conserved(p) && HandshakeFirst(p) && CallbacksOnce(p)
  }

  lemma SentGrows(frames: seq<Frame>, f: Frame)
    ensures Sent(frames + [f]) == Sent(frames) + [f.call]
  {
    assert (frames + [f])[..|frames|] == frames;
  }

  /** A call that is still unsent is none of the calls sent before. */
  lemma NotSentBefore(p: Page, call: Call, rest: seq<Call>)
    requires multiset(p.calls) == multiset(rest) + multiset{call} + multiset(Sent(p.frames))
    requires forall k | 0 <= k < |p.calls| :: p.calls[k].number == k
    ensures call !in Sent(p.frames)
  {
    AtMostOnce(p.calls, call);
    assert multiset(p.calls)[call] <= 1;
    assert multiset(Sent(p.frames))[call] == 0;
  }

  lemma {:induction false} AtMostOnce(calls: seq<Call>, call: Call)
    requires forall k | 0 <= k < |calls| :: calls[k].number == k
    ensures multiset(calls)[call] <= 1
    ensures multiset(calls)[call] > 0 ==> call.number < |calls|
  {
    if calls == [] {
    } else {
      var n := |calls| - 1;
      AtMostOnce(calls[..n], call);
      assert calls == calls[..n] + [calls[n]];
    }
  }

  /** Dispatching a call that is in neither place yet keeps all accounts. */
  lemma DispatchKeeps(p: Page, call: Call, uuid: string)
    requires multiset(p.calls) == multiset(p.query) + multiset{call} + multiset(Sent(p.frames))
    requires forall k | 0 <= k < |p.calls| :: p.calls[k].number == k
    requires HandshakeFirst(p) && CallbacksOnce(p)
    ensures Inv(Dispatch(p, call, uuid))
  {
    DispatchConserves(p, call, uuid);
    DispatchKeepsCallbacks(p, call, uuid);
    if Ready(p, call.obj.subject) {
      var p1 := Dispatch(p, call, uuid);
      assert p1.frames[0] == if p.frames == [] then Frame(call, FrameId(call.obj, uuid)) else p.frames[0];
    }
  }

  lemma DispatchConserves(p: Page, call: Call, uuid: string)
    requires multiset(p.calls) == multiset(p.query) + multiset{call} + multiset(Sent(p.frames))
    ensures var p1 := Dispatch(p, call, uuid);
            multiset(p1.calls) == multiset(p1.query) + multiset(Sent(p1.frames))
  {
    if Ready(p, call.obj.subject) {
      SentGrows(p.frames, Frame(call, FrameId(call.obj, uuid)));
    }
  }

  lemma DispatchKeepsCallbacks(p: Page, call: Call, uuid: string)
    requires multiset(p.calls) == multiset(p.query) + multiset{call} + multiset(Sent(p.frames))
    requires forall k | 0 <= k < |p.calls| :: p.calls[k].number == k
    requires CallbacksOnce(p)
    ensures CallbacksOnce(Dispatch(p, call, uuid))
  {
    NotSentBefore(p, call, p.query);
    if Ready(p, call.obj.subject) {
      SentKeepsCallbacks(p, call, FrameId(call.obj, uuid));
    }
  }

  lemma SentKeepsCallbacks(p: Page, call: Call, id: string)
    requires CallbacksOnce(p) && call !in Sent(p.frames)
    ensures CallbacksOnce(p.(frames := p.frames + [Frame(call, id)],
                             eventMsgId := if call.hasCallback then p.eventMsgId[id := call] else p.eventMsgId))
  {
    SentGrows(p.frames, Frame(call, id));
  }

  lemma SendKeeps(p: Page, obj: Message, hasCallback: bool, uuid: string)
    requires Inv(p)
    ensures Inv(Send(p, obj, hasCallback, uuid))
  {
    DispatchKeeps(p.(calls := p.calls + [Call(|p.calls|, obj, hasCallback)]), Call(|p.calls|, obj, hasCallback), uuid);
  }

  lemma ReceivedKeeps(p: Page, msg: Message, newId: string, uuid: string)
    requires Inv(p) && p.readyState == OPEN
    ensures Inv(Received(p, msg, newId, uuid))
  {
    if msg.subject == SESSION_INIT {
      var id := if p.connectionId.None? then newId else p.connectionId.value;
      var p1 := p.(connectionId := Some(id), stored := if p.connectionId.None? then Some(id) else p.stored);
      SendKeeps(p1, msg.(id := id), false, uuid);
    } else if msg.id in p.eventMsgId {
      CallbackKeeps(p, msg.id);
    }
  }

  lemma CallbackKeeps(p: Page, id: string)
    requires CallbacksOnce(p) && id in p.eventMsgId
    ensures CallbacksOnce(p.(ran := p.ran + [p.eventMsgId[id]], eventMsgId := p.eventMsgId - {id}))
  {
  }

  lemma TickKeeps(p: Page, uuid: string)
    requires Inv(p)
    ensures Inv(Tick(p, uuid))
  {
    if p.query != [] {
      var n := |p.query| - 1;
      assert p.query == p.query[..n] + [p.query[n]];
      DispatchKeeps(p.(query := p.query[..n]), p.query[n], uuid);
    }
  }

  lemma OpenedKeeps(p: Page, uuid1: string, uuid2: string)
    requires Inv(p)
    ensures Inv(Opened(p, uuid1, uuid2))
  {
    var p1 := p.(readyState := OPEN);
    var hello := Message("auth_status", "", "");
    SendKeeps(p1, hello, false, uuid1);
    SendKeeps(Send(p1, hello, false, uuid1), Message("connect", "", ""), false, uuid2);
  }

  lemma NextKeeps(p: Page, e: Event)
    requires Inv(p)
    ensures Inv(Next(p, e))
  {
    match e
    case AppSends(obj, hasCallback, uuid) => SendKeeps(p, obj, hasCallback, uuid);
    case Opens(uuid1, uuid2) => OpenedKeeps(p, uuid1, uuid2);
    case Receives(msg, newId, uuid) =>
      if p.readyState == OPEN {
        ReceivedKeeps(p, msg, newId, uuid);
      }
    case Ticks(uuid) => TickKeeps(p, uuid);
    case _ => OtherTurnKeeps(p, e);
  }

  lemma OtherTurnKeeps(p: Page, e: Event)
    requires Inv(p) && (e.Gone? || e.Reconnected? || e.Sets? || e.Adds? || e.Dels?)
    ensures Inv(Next(p, e))
  {
  }

  /** In every run of sends, opens, messages, closes, reconnects and retry ticks all accounts hold. */
  lemma {:induction false} AccountsHold(stored: Option<string>, events: seq<Event>)
    ensures Inv(Execute(stored, events))
    decreases |events|
  {
    if events == [] {
    } else {
      AccountsHold(stored, events[..|events| - 1]);
      NextKeeps(Execute(stored, events[..|events| - 1]), events[|events| - 1]);
    }
  }

  /** The application itself never sends the handshake subject. */
  ghost predicate AppKeepsOut(events: seq<Event>) {
    forall e | e in events && e.AppSends? :: e.obj.subject != SESSION_INIT
  }

  ghost predicate HandshakesCarry(p: Page) {
    && (forall c | c in p.query :: c.obj.subject != SESSION_INIT)
    && (forall f | f in p.frames && f.call.obj.subject == SESSION_INIT ::
          p.connectionId == Some(f.call.obj.id) && (f.call.obj.id != "" ==> f.id == f.call.obj.id))
  }

  lemma DispatchCarries(p: Page, call: Call, uuid: string)
    requires HandshakesCarry(p)
    requires call.obj.subject == SESSION_INIT ==> p.readyState == OPEN && p.connectionId == Some(call.obj.id)
    ensures HandshakesCarry(Dispatch(p, call, uuid))
    ensures var p1 := Dispatch(p, call, uuid);
            (p1.connectionId, p1.stored, p1.readyState, p1.sessionInit) == (p.connectionId, p.stored, p.readyState, p.sessionInit)
  {
  }

  lemma NextKeepsId(p: Page, e: Event)
    requires p.stored == p.connectionId
    ensures KeepsId(p, Next(p, e))
  {
  }

  ghost predicate KeepsId(p: Page, q: Page) {
    q.stored == q.connectionId && (p.connectionId.Some? ==> q.connectionId == p.connectionId)
  }

  lemma NextCarries(p: Page, e: Event)
    requires HandshakesCarry(p) && (p.frames != [] ==> p.connectionId.Some?)
    requires e.AppSends? ==> e.obj.subject != SESSION_INIT
    ensures HandshakesCarry(Next(p, e))
  {
    match e
    case AppSends(obj, hasCallback, uuid) =>
      DispatchCarries(p.(calls := p.calls + [Call(|p.calls|, obj, hasCallback)]), Call(|p.calls|, obj, hasCallback), uuid);
    case Opens(uuid1, uuid2) => OpenedCarries(p, uuid1, uuid2);
    case Receives(msg, newId, uuid) =>
      if p.readyState == OPEN && msg.subject == SESSION_INIT {
        var id := if p.connectionId.None? then newId else p.connectionId.value;
        var c := Call(|p.calls|, msg.(id := id), false);
        DispatchCarries(p.(connectionId := Some(id), stored := if p.connectionId.None? then Some(id) else p.stored,
                           calls := p.calls + [c]), c, uuid);
      }
    case Ticks(uuid) =>
      if p.query != [] {
        var n := |p.query| - 1;
        assert p.query[n] in p.query;
        DispatchCarries(p.(query := p.query[..n]), p.query[n], uuid);
      }
    case _ =>
  }

  lemma OpenedCarries(p: Page, uuid1: string, uuid2: string)
    requires HandshakesCarry(p)
    ensures HandshakesCarry(Opened(p, uuid1, uuid2))
  {
    var m1, m2 := Message("auth_status", "", ""), Message("connect", "", "");
    assert |SESSION_INIT| != |m1.subject| && |SESSION_INIT| != |m2.subject|;
    var c1 := Call(|p.calls|, m1, false);
    var p1 := p.(readyState := OPEN, calls := p.calls + [c1]);
    DispatchCarries(p1, c1, uuid1);
    var p2 := Dispatch(p1, c1, uuid1);
    var c2 := Call(|p2.calls|, m2, false);
    DispatchCarries(p2.(calls := p2.calls + [c2]), c2, uuid2);
  }

  /**
   * Every handshake frame goes out under the one connection id of the page,
   * unless that id is the empty text; so the very first frame is such a reply,
   * whatever was sent before it was due.
   */
  lemma {:induction false} FirstFrameIsReply(stored: Option<string>, events: seq<Event>)
    requires AppKeepsOut(events)
    ensures var p := Execute(stored, events);
            && HandshakesCarry(p)
            && (p.frames != [] ==>
                  && p.frames[0].call.obj.subject == SESSION_INIT
                  && p.connectionId.Some? && (p.connectionId.value != "" ==> p.frames[0].id == p.connectionId.value))
    decreases |events|
  {
    AccountsHold(stored, events);
    if events == [] {
    } else {
      var n := |events| - 1;
      assert events[n] in events;
      FirstFrameIsReply(stored, events[..n]);
      NextCarries(Execute(stored, events[..n]), events[n]);
    }
    var p := Execute(stored, events);
    if p.frames != [] {
      assert p.frames[0] in p.frames;
    }
  }

  lemma {:induction false} StoredIsId(stored: Option<string>, events: seq<Event>)
    ensures var p := Execute(stored, events); p.stored == p.connectionId
    decreases |events|
  {
    if events == [] {
    } else {
      StoredIsId(stored, events[..|events| - 1]);
      NextKeepsId(Execute(stored, events[..|events| - 1]), events[|events| - 1]);
    }
  }

  /** Once set, the connection id of the page never changes, and it is what the browser keeps in storage. */
  lemma {:induction false} ConnectionIdIsStable(stored: Option<string>, events: seq<Event>, more: seq<Event>)
    ensures KeepsId(Execute(stored, events), Execute(stored, events + more))
    decreases |more|
  {
    if more == [] {
      StoredIsId(stored, events);
      assert events + more == events;
    } else {
      var n := |more| - 1;
      ConnectionIdIsStable(stored, events, more[..n]);
      assert events + more == (events + more[..n]) + [more[n]];
      ExecuteKeepsId(stored, events + more[..n], more[n]);
    }
  }

  lemma ExecuteKeepsId(stored: Option<string>, events: seq<Event>, e: Event)
    requires var p := Execute(stored, events); p.stored == p.connectionId
    ensures KeepsId(Execute(stored, events), Execute(stored, events + [e]))
  {
    assert (events + [e])[..|events|] == events;
    NextKeepsId(Execute(stored, events), e);
  }

  /**
   * The handshake comes first only once per page: on opening a later connection
   * two frames leave at once, before the server's handshake, exactly if an
   * earlier connection completed one.
   */
  lemma OpeningSendsAtOnce(p: Page, uuid1: string, uuid2: string)
    ensures var p1 := Opened(p, uuid1, uuid2);
            && |p1.frames| == |p.frames| + (if p.sessionInit then 2 else 0)
            && |p1.query| == |p.query| + (if p.sessionInit then 0 else 2)
            && (p.sessionInit ==>
                  && p1.frames[|p.frames|].call.obj == Message("auth_status", "", "")
                  && p1.frames[|p.frames| + 1].call.obj == Message("connect", "", ""))
            && (!p.sessionInit ==>
                  && p1.query[|p.query|].obj == Message("auth_status", "", "")
                  && p1.query[|p.query| + 1].obj == Message("connect", "", ""))
  {
    assert |SESSION_INIT| == 12 && |"auth_status"| == 11 && |"connect"| == 7;
  }

  // ----- listeners

  /** The listeners of a subject, read off the history of this subject alone: a stack that a set starts anew. */
  function Registered(events: seq<Event>, to: string): seq<Listener> {
    if events == [] then [] else AfterEvent(Registered(events[..|events| - 1], to), events[|events| - 1], to)
  }

  function AfterEvent(before: seq<Listener>, e: Event, to: string): seq<Listener> {
    match e
    case Sets(subject, listener) => if subject == to then [listener] else before
    case Adds(subject, listener) => if subject == to then before + [listener] else before
    case Dels(subject, _) => if subject == to && before != [] then before[..|before| - 1] else before
    case _ => before
  }

  /** A message that is neither a handshake nor an awaited reply is for the listeners. */
  predicate ForListeners(p: Page, msg: Message) {
    p.readyState == OPEN && msg.subject != SESSION_INIT && msg.id !in p.eventMsgId
  }

  /** What listeners should have heard in a run. */
  function Hearings(stored: Option<string>, events: seq<Event>): seq<Hearing> {
    if events == [] then []
    else
      var init, last := events[..|events| - 1], events[|events| - 1];
      if last.Receives? && ForListeners(Execute(stored, init), last.msg)
      then Hearings(stored, init) + HeardBy(Registered(init, last.msg.subject), last.msg)
      else Hearings(stored, init)
  }

  lemma NextListeners(p: Page, e: Event, to: string)
    ensures ListenersTo(Next(p, e), to) == AfterEvent(ListenersTo(p, to), e, to)
    ensures Next(p, e).heard == p.heard +
            if e.Receives? && ForListeners(p, e.msg) then HeardBy(ListenersTo(p, e.msg.subject), e.msg) else []
  {
  }

  /**
   * In every run the listeners of a subject are those its own sets, adds and
   * dels leave, and they have heard, in order, exactly the messages that were
   * neither handshakes nor awaited replies.
   */
  lemma {:induction false} HeardByRegistered(stored: Option<string>, events: seq<Event>, to: string)
    ensures ListenersTo(Execute(stored, events), to) == Registered(events, to)
    ensures Execute(stored, events).heard == Hearings(stored, events)
    decreases |events|
  {
    if events == [] {
    } else {
      var init, last := events[..|events| - 1], events[|events| - 1];
      HeardByRegistered(stored, init, to);
      NextListeners(Execute(stored, init), last, to);
      if last.Receives? {
        HeardByRegistered(stored, init, last.msg.subject);
      }
    }
  }

  /** Adds less dels of a subject. */
  function Surplus(events: seq<Event>, to: string): int {
    if events == [] then 0 else Surplus(events[..|events| - 1], to) + Weight(events[|events| - 1], to)
  }

  function Weight(e: Event, to: string): int {
    match e
    case Adds(subject, _) => if subject == to then 1 else 0
    case Dels(subject, _) => if subject == to then -1 else 0
    case _ => 0
  }

  /** Listener keeps the place it got right after `events`, in all of `more`. */
  ghost predicate KeepsPlace(events: seq<Event>, more: seq<Event>, to: string, listener: Listener) {
    forall n | 0 <= n <= |more| ::
      Registered(events, to) + [listener] <= Registered(events + [Adds(to, listener)] + more[..n], to)
  }

  ghost predicate NeverOutnumbered(more: seq<Event>, to: string) {
    forall n | 0 <= n <= |more| :: Surplus(more[..n], to) >= 0
  }

  lemma RegisteredGrows(events: seq<Event>, e: Event, to: string)
    ensures Registered(events + [e], to) == AfterEvent(Registered(events, to), e, to)
  {
    assert (events + [e])[..|events|] == events;
  }

  /** While dels do not outnumber adds the place is kept, and the surplus stands above it. */
  lemma {:induction false} PlaceAfter(events: seq<Event>, more: seq<Event>, to: string, listener: Listener, n: nat)
    requires n <= |more| && forall e | e in more && e.Sets? :: e.to != to
    requires forall m | 0 <= m < n :: Surplus(more[..m], to) >= 0
    ensures PlaceHolds(Registered(events, to) + [listener], Registered(events + [Adds(to, listener)] + more[..n], to), Surplus(more[..n], to))
    decreases n
  {
    var added := events + [Adds(to, listener)];
    RegisteredGrows(events, Adds(to, listener), to);
    if n == 0 {
      assert added + more[..0] == added;
    } else {
      PlaceAfter(events, more, to, listener, n - 1);
      OneMoreEvent(added, more, to, n);
      assert more[n - 1] in more;
      PlaceAfterEvent(Registered(events, to) + [listener], Registered(added + more[..n - 1], to), Surplus(more[..n - 1], to), more[n - 1], to);
    }
  }

  /** With so many adds less dels since, a place is kept with that many above it, or just lost. */
  ghost predicate PlaceHolds(place: seq<Listener>, now: seq<Listener>, surplus: int)
    requires place != []
  {
    if surplus >= 0 then place <= now && |now| == |place| + surplus else now == place[..|place| - 1]
  }

  lemma OneMoreEvent(added: seq<Event>, more: seq<Event>, to: string, n: nat)
    requires 0 < n <= |more|
    ensures Registered(added + more[..n], to) == AfterEvent(Registered(added + more[..n - 1], to), more[n - 1], to)
    ensures Surplus(more[..n], to) == Surplus(more[..n - 1], to) + Weight(more[n - 1], to)
  {
    assert more[..n][..n - 1] == more[..n - 1];
    assert added + more[..n] == added + more[..n - 1] + [more[n - 1]];
    RegisteredGrows(added + more[..n - 1], more[n - 1], to);
  }

  lemma PlaceAfterEvent(place: seq<Listener>, before: seq<Listener>, surplus: nat, e: Event, to: string)
    requires place != [] && PlaceHolds(place, before, surplus)
    requires e.Sets? ==> e.to != to
    ensures PlaceHolds(place, AfterEvent(before, e, to), surplus + Weight(e, to))
  {
  }

  /**
   * With no set of its subject, an added listener keeps its place exactly as
   * long as later dels do not outnumber later adds, whichever listeners they name.
   */
  lemma KeepsPlaceIff(events: seq<Event>, more: seq<Event>, to: string, listener: Listener)
    requires forall e | e in more && e.Sets? :: e.to != to
    ensures KeepsPlace(events, more, to, listener) <==> NeverOutnumbered(more, to)
  {
    if NeverOutnumbered(more, to) {
      forall n | 0 <= n <= |more|
        ensures Registered(events, to) + [listener] <= Registered(events + [Adds(to, listener)] + more[..n], to)
      {
        PlaceAfter(events, more, to, listener, n);
      }
    } else {
      var n :| 0 <= n <= |more| && Surplus(more[..n], to) < 0;
      var m := FirstOutnumbered(more, to, n);
      PlaceAfter(events, more, to, listener, m);
    }
  }

  lemma FirstOutnumbered(more: seq<Event>, to: string, n: nat) returns (m: nat)
    requires n <= |more| && Surplus(more[..n], to) < 0
    ensures m <= n && Surplus(more[..m], to) < 0
    ensures forall k | 0 <= k < m :: Surplus(more[..k], to) >= 0
  {
    m := n;
    if k :| 0 <= k < n && Surplus(more[..k], to) < 0 {
      m := FirstOutnumbered(more, to, k);
    }
  }

  /** So such a listener hears every message of its subject that is for listeners. */
  lemma ListenerHears(stored: Option<string>, events: seq<Event>, more: seq<Event>, to: string, listener: Listener, msg: Message, newId: string, uuid: string)
    requires forall e | e in more && e.Sets? :: e.to != to
    requires NeverOutnumbered(more, to) && msg.subject == to
    requires ForListeners(Execute(stored, events + [Adds(to, listener)] + more), msg)
    ensures Hearing(listener, msg) in Next(Execute(stored, events + [Adds(to, listener)] + more), Receives(msg, newId, uuid)).heard
  {
    var all := events + [Adds(to, listener)] + more;
    KeepsPlaceIff(events, more, to, listener);
    assert more[..|more|] == more;
    HeardByRegistered(stored, all, to);
    NextListeners(Execute(stored, all), Receives(msg, newId, uuid), to);
    var k := |Registered(events, to)|;
    assert (Registered(events, to) + [listener])[k] == listener == Registered(all, to)[k];
    assert HeardBy(Registered(all, to), msg)[k] == Hearing(listener, msg);
  }

  /** Removing any listener undoes the latest add, whichever listener that added. */
  lemma DelUndoesAdd(p: Page, to: string, added: Listener, named: Listener)
    ensures ListenersTo(WithoutListener(WithListener(p, to, added), to, named), to) == ListenersTo(p, to)
  {
    assert (ListenersTo(p, to) + [added])[..|ListenersTo(p, to)|] == ListenersTo(p, to);
  }

  /**
   * Removing a listener removes that listener exactly if none is registered or
   * it is the one registered last; otherwise another one is lost.
   */
  lemma DelEventRemovesIffLast(p: Page, to: string, listener: Listener)
    ensures var before, after := ListenersTo(p, to), ListenersTo(WithoutListener(p, to, listener), to);
            multiset(after) == multiset(before) - multiset{listener} <==>
            before == [] || before[|before| - 1] == listener
  {
    var before, after := ListenersTo(p, to), ListenersTo(WithoutListener(p, to, listener), to);
    if before != [] {
      var last := before[|before| - 1];
      assert before == before[..|before| - 1] + [last];
      assert after == before[..|before| - 1];
      assert multiset(before) == multiset(after) + multiset{last};
      if last != listener {
        assert multiset(after)[last] == multiset(before)[last] - 1;
      }
    }
  }

  /** A retry while its entry cannot be sent changes nothing; otherwise the newest entry leaves. */
  lemma TickMovesOneOrNone(p: Page, uuid: string)
    ensures p.query == [] || !Ready(p, p.query[|p.query| - 1].obj.subject) ==> Tick(p, uuid) == p
    ensures p.query != [] && Ready(p, p.query[|p.query| - 1].obj.subject) ==>
              var p1 := Tick(p, uuid);
              && p1.query == p.query[..|p.query| - 1]
              && Sent(p1.frames) == Sent(p.frames) + [p.query[|p.query| - 1]]
  {
    if p.query != [] {
      var n := |p.query| - 1;
      assert p.query[..n] + [p.query[n]] == p.query;
      SentGrows(p.frames, Frame(p.query[n], FrameId(p.query[n].obj, uuid)));
    }
  }

  function Reversed(s: seq<Call>): seq<Call> {
    if s == [] then [] else [s[|s| - 1]] + Reversed(s[..|s| - 1])
  }

  function TickAll(p: Page, uuids: seq<string>): Page
    decreases |uuids|
  {
    if uuids == [] then p else TickAll(Tick(p, uuids[0]), uuids[1..])
  }

  /** With an open socket and the handshake done, as many ticks as there are entries empty the queue, newest entry first. */
  lemma {:induction false} TicksEmptyTheQueue(p: Page, uuids: seq<string>)
    requires p.readyState == OPEN && p.sessionInit && |uuids| == |p.query|
    ensures var p1 := TickAll(p, uuids);
            p1.query == [] && Sent(p1.frames) == Sent(p.frames) + Reversed(p.query)
    decreases |uuids|
  {
    if uuids == [] {
    } else {
      TickMovesOneOrNone(p, uuids[0]);
      TicksEmptyTheQueue(Tick(p, uuids[0]), uuids[1..]);
    }
  }

  /** Message ids are unique: no frame with a callback goes out under an id that already awaits a reply. */
  ghost predicate IdsUnique(stored: Option<string>, events: seq<Event>) {
    forall n | 0 <= n < |events| :: SendsUnderNewIds(Execute(stored, events[..n]), Execute(stored, events[..n + 1]))
  }

  ghost predicate SendsUnderNewIds(p: Page, p1: Page) {
    forall k | |p.frames| <= k < |p1.frames| && p1.frames[k].call.hasCallback :: p1.frames[k].id !in p.eventMsgId
  }

  /** Every callback that went out with a frame is still waiting, or has run. */
  ghost predicate NoneForgotten(p: Page) {
    forall c | c in Sent(p.frames) && c.hasCallback ::
      c in p.ran || exists id :: id in p.eventMsgId && p.eventMsgId[id] == c
  }

  /** With unique ids, every callback sent out waits for its reply until it has run, exactly once. */
  lemma {:induction false} CallbacksRunOnce(stored: Option<string>, events: seq<Event>)
    requires IdsUnique(stored, events)
    ensures NoneForgotten(Execute(stored, events)) && CallbacksOnce(Execute(stored, events))
    decreases |events|
  {
    AccountsHold(stored, events);
    if events == [] {
    } else {
      var n := |events| - 1;
      var init := events[..n];
      assert forall m | 0 <= m <= n :: init[..m] == events[..m];
      assert events[..n + 1] == events;
      CallbacksRunOnce(stored, init);
      NextForgetsNothing(Execute(stored, init), events[n]);
    }
  }

  lemma NextForgetsNothing(p: Page, e: Event)
    requires NoneForgotten(p) && SendsUnderNewIds(p, Next(p, e))
    ensures NoneForgotten(Next(p, e))
  {
    match e
    case AppSends(obj, hasCallback, uuid) =>
      var call := Call(|p.calls|, obj, hasCallback);
      var p1 := p.(calls := p.calls + [call]);
      assert Ready(p1, obj.subject) ==> Next(p, e).frames[|p.frames|].id == FrameId(obj, uuid);
      DispatchForgetsNothing(p1, call, uuid);
    case Opens(uuid1, uuid2) =>
      if p.readyState == CONNECTING {
        OpenedForgetsNothing(p, uuid1, uuid2);
      }
    case Ticks(uuid) =>
      if p.query != [] {
        var n := |p.query| - 1;
        var p1 := p.(query := p.query[..n]);
        assert Ready(p1, p.query[n].obj.subject) ==> Next(p, e).frames[|p.frames|].id == FrameId(p.query[n].obj, uuid);
        DispatchForgetsNothing(p1, p.query[n], uuid);
      }
    case Receives(msg, newId, uuid) =>
      if p.readyState == OPEN {
        ReceivedForgetsNothing(p, msg, newId, uuid);
      }
    case _ =>
  }

  lemma OpenedForgetsNothing(p: Page, uuid1: string, uuid2: string)
    requires NoneForgotten(p)
    ensures NoneForgotten(Opened(p, uuid1, uuid2))
  {
    var c1 := Call(|p.calls|, Message("auth_status", "", ""), false);
    var p1 := p.(readyState := OPEN, calls := p.calls + [c1]);
    DispatchForgetsNothing(p1, c1, uuid1);
    var p2 := Dispatch(p1, c1, uuid1);
    var c2 := Call(|p2.calls|, Message("connect", "", ""), false);
    DispatchForgetsNothing(p2.(calls := p2.calls + [c2]), c2, uuid2);
  }

  lemma ReceivedForgetsNothing(p: Page, msg: Message, newId: string, uuid: string)
    requires NoneForgotten(p)
    ensures NoneForgotten(Received(p, msg, newId, uuid))
  {
    var p1 := Received(p, msg, newId, uuid);
    if msg.subject == SESSION_INIT {
      var id := if p.connectionId.None? then newId else p.connectionId.value;
      var c := Call(|p.calls|, msg.(id := id), false);
      DispatchForgetsNothing(p.(connectionId := Some(id), stored := if p.connectionId.None? then Some(id) else p.stored,
                                calls := p.calls + [c]), c, uuid);
    } else if msg.id in p.eventMsgId {
      forall c | c in Sent(p1.frames) && c.hasCallback
        ensures c in p1.ran || exists id :: id in p1.eventMsgId && p1.eventMsgId[id] == c
      {
        if c !in p.ran && p.eventMsgId[msg.id] != c {
          var id :| id in p.eventMsgId && p.eventMsgId[id] == c;
          assert id in p1.eventMsgId;
        }
      }
    }
  }

  lemma DispatchForgetsNothing(p: Page, call: Call, uuid: string)
    requires NoneForgotten(p)
    requires call.hasCallback && Ready(p, call.obj.subject) ==> FrameId(call.obj, uuid) !in p.eventMsgId
    ensures NoneForgotten(Dispatch(p, call, uuid))
  {
    if Ready(p, call.obj.subject) {
      var p1 := Dispatch(p, call, uuid);
      SentGrows(p.frames, Frame(call, FrameId(call.obj, uuid)));
      forall c | c in Sent(p1.frames) && c.hasCallback
        ensures c in p1.ran || exists id :: id in p1.eventMsgId && p1.eventMsgId[id] == c
      {
        if c == call {
          assert p1.eventMsgId[FrameId(call.obj, uuid)] == c;
        } else if c !in p.ran {
          var id :| id in p.eventMsgId && p.eventMsgId[id] == c;
          assert p1.eventMsgId[id] == c;
        }
      }
    }
  }

  // ----- single turns

  /** The uuid the page is given for the k-th frame of a turn. */
  function UuidOf(e: Event, k: nat): string {
    match e
    case AppSends(_, _, uuid) => uuid
    case Opens(uuid1, uuid2) => if k == 0 then uuid1 else uuid2
    case Receives(_, _, uuid) => uuid
    case Ticks(uuid) => uuid
    case _ => ""
  }

  /**
   * The frames of a turn: each leaves under its message's own id, or under the
   * uuid of the turn if that is empty, and its callback waits under that id.
   */
  ghost predicate FramesFit(p: Page, e: Event, p1: Page) {
    && |p.frames| <= |p1.frames| && p1.frames[..|p.frames|] == p.frames
    && forall k | |p.frames| <= k < |p1.frames| ::
         && p1.frames[k].id == (if p1.frames[k].call.obj.id != "" then p1.frames[k].call.obj.id else UuidOf(e, k - |p.frames|))
         && (p1.frames[k].call.hasCallback ==>
               p1.frames[k].id in p1.eventMsgId && p1.eventMsgId[p1.frames[k].id] == p1.frames[k].call)
  }

  lemma TurnFrames(p: Page, e: Event)
    ensures FramesFit(p, e, Next(p, e))
  {
    match e
    case Opens(uuid1, uuid2) => OpensFrames(p, uuid1, uuid2);
    case Receives(msg, newId, uuid) => ReceivesFrames(p, msg, newId, uuid);
    case _ =>
  }

  lemma OpensFrames(p: Page, uuid1: string, uuid2: string)
    ensures FramesFit(p, Opens(uuid1, uuid2), Next(p, Opens(uuid1, uuid2)))
  {
  }

  lemma ReceivesFrames(p: Page, msg: Message, newId: string, uuid: string)
    ensures FramesFit(p, Receives(msg, newId, uuid), Next(p, Receives(msg, newId, uuid)))
  {
  }

  /** A message handed over is sent at once exactly if the socket is open and the session initialised, or it is the handshake; else it is queued last. */
  lemma SentIffOpen(p: Page, obj: Message, hasCallback: bool, uuid: string)
    ensures var p1 := Next(p, AppSends(obj, hasCallback, uuid));
            var call := Call(|p.calls|, obj, hasCallback);
            if p.readyState == 1 && (p.sessionInit || obj.subject == "session_init") then
              && p1.query == p.query && |p1.frames| == |p.frames| + 1
              && p1.frames[|p.frames|] == Frame(call, if obj.id == "" then uuid else obj.id)
            else
              p1.query == p.query + [call] && p1.frames == p.frames
  {
  }

  /** A reply that is awaited runs its own callback, which then no longer waits, and nothing else. */
  lemma ReplyRunsCallback(p: Page, msg: Message, newId: string, uuid: string)
    requires p.readyState == 1 && msg.subject != "session_init" && msg.id in p.eventMsgId
    ensures var p1 := Next(p, Receives(msg, newId, uuid));
            && p1.ran == p.ran + [p.eventMsgId[msg.id]]
            && p1.eventMsgId.Keys == p.eventMsgId.Keys - {msg.id}
            && (forall id | id in p1.eventMsgId :: p1.eventMsgId[id] == p.eventMsgId[id])
            && p1.query == p.query && p1.frames == p.frames && p1.heard == p.heard && p1.calls == p.calls
  {
  }

  /** Whether a turn is the server's handshake arriving. */
  predicate IsHandshake(p: Page, e: Event) {
    p.readyState == 1 && e.Receives? && e.msg.subject == "session_init"
  }

  /** The messages a turn hands over: what the application sends, the two of a new connection, the echo of a handshake. */
  function HandedOver(p: Page, e: Event): seq<(Message, bool)> {
    match e
    case AppSends(obj, hasCallback, _) => [(obj, hasCallback)]
    case Opens(_, _) =>
      if p.readyState == 0 then [(Message("auth_status", "", ""), false), (Message("connect", "", ""), false)] else []
    case Receives(msg, newId, _) =>
      if !IsHandshake(p, e) then []
      else [(Message(msg.subject, if p.connectionId.Some? then p.connectionId.value else newId, msg.body), false)]
    case _ => []
  }

  ghost predicate HandsOver(p: Page, p1: Page, handed: seq<(Message, bool)>) {
    && |p1.calls| == |p.calls| + |handed| && p1.calls[..|p.calls|] == p.calls
    && forall k | 0 <= k < |handed| :: p1.calls[|p.calls| + k] == Call(|p.calls| + k, handed[k].0, handed[k].1)
  }

  /** What a turn hands over. */
  lemma TurnHandsOver(p: Page, e: Event)
    ensures HandsOver(p, Next(p, e), HandedOver(p, e))
  {
    match e
    case Opens(uuid1, uuid2) => OpensHandsOver(p, uuid1, uuid2);
    case Receives(msg, newId, uuid) => ReceivesHandsOver(p, msg, newId, uuid);
    case _ =>
  }

  lemma OpensHandsOver(p: Page, uuid1: string, uuid2: string)
    ensures HandsOver(p, Next(p, Opens(uuid1, uuid2)), HandedOver(p, Opens(uuid1, uuid2)))
  {
  }

  lemma ReceivesHandsOver(p: Page, msg: Message, newId: string, uuid: string)
    ensures HandsOver(p, Next(p, Receives(msg, newId, uuid)), HandedOver(p, Receives(msg, newId, uuid)))
  {
  }

  /** What a turn does to connection, session and identity. */
  lemma TurnChanges(p: Page, e: Event)
    ensures var p1 := Next(p, e);
            && p1.readyState == (if e.Opens? && p.readyState == 0 then 1 else if e.Gone? then 3 else if e.Reconnected? then 0 else p.readyState)
            && (p1.sessionInit <==> p.sessionInit || IsHandshake(p, e))
            && p1.connectionId == (if p.connectionId.None? && IsHandshake(p, e) then Some(e.newId) else p.connectionId)
  {
  }

  /** The session is initialised exactly if some handshake arrived on an open socket of this page. */
  lemma {:induction false} SessionInitIff(stored: Option<string>, events: seq<Event>)
    ensures Execute(stored, events).sessionInit <==> exists n :: HandshakeAt(stored, events, n)
    decreases |events|
  {
    if events == [] {
    } else {
      var m := |events| - 1;
      SessionInitIff(stored, events[..m]);
      TurnChanges(Execute(stored, events[..m]), events[m]);
      forall n
        ensures HandshakeAt(stored, events, n) <==>
                HandshakeAt(stored, events[..m], n) || (n == m && IsHandshake(Execute(stored, events[..m]), events[m]))
      {
        HandshakeBefore(stored, events, n);
      }
      assert IsHandshake(Execute(stored, events[..m]), events[m]) ==> HandshakeAt(stored, events, m);
    }
  }

  ghost predicate HandshakeAt(stored: Option<string>, events: seq<Event>, n: int) {
    0 <= n < |events| && IsHandshake(Execute(stored, events[..n]), events[n])
  }

  lemma HandshakeBefore(stored: Option<string>, events: seq<Event>, n: int)
    requires events != []
    ensures n < |events| - 1 ==> (HandshakeAt(stored, events, n) <==> HandshakeAt(stored, events[..|events| - 1], n))
  {
    if 0 <= n < |events| - 1 {
      assert events[..|events| - 1][..n] == events[..n];
    }
  }

  // ----- unique ids

  /** The uuid of a turn that may send a callback. */
  function TurnId(e: Event): Option<string> {
    match e
    case AppSends(_, _, uuid) => Some(uuid)
    case Ticks(uuid) => Some(uuid)
    case _ => None
  }

  /** The application leaves ids to the module, and no two turns are given the same uuid or an empty one. */
  ghost predicate FreshUuids(events: seq<Event>) {
    && (forall i | 0 <= i < |events| && events[i].AppSends? :: events[i].obj.id == "")
    && (forall i | 0 <= i < |events| && TurnId(events[i]).Some? :: TurnId(events[i]).value != "")
    && (forall i, j | 0 <= i < j < |events| && TurnId(events[i]).Some? :: TurnId(events[i]) != TurnId(events[j]))
  }

  /** Callbacks wait under uuids of past turns, and queued calls with a callback have no id yet. */
  ghost predicate WaitsUnderUuids(p: Page, events: seq<Event>) {
    && (forall id | id in p.eventMsgId :: exists i :: 0 <= i < |events| && TurnId(events[i]) == Some(id))
    && (forall c | c in p.query && c.hasCallback :: c.obj.id == "")
  }

  lemma TurnWaits(p: Page, e: Event)
    requires forall c | c in p.query && c.hasCallback :: c.obj.id == ""
    requires e.AppSends? ==> e.obj.id == ""
    ensures var p1 := Next(p, e);
            && (forall c | c in p1.query && c.hasCallback :: c.obj.id == "")
            && (forall id | id in p1.eventMsgId :: id in p.eventMsgId || TurnId(e) == Some(id))
            && (forall k | |p.frames| <= k < |p1.frames| && p1.frames[k].call.hasCallback :: TurnId(e) == Some(p1.frames[k].id))
  {
    if e.Ticks? && p.query != [] {
      assert p.query[|p.query| - 1] in p.query;
    }
  }

  lemma {:induction false} WaitingUnderUuids(stored: Option<string>, events: seq<Event>)
    requires FreshUuids(events)
    ensures WaitsUnderUuids(Execute(stored, events), events)
    decreases |events|
  {
    if events == [] {
    } else {
      var m := |events| - 1;
      var init := events[..m];
      WaitingUnderUuids(stored, init);
      TurnWaits(Execute(stored, init), events[m]);
      forall id | id in Execute(stored, events).eventMsgId
        ensures exists i :: 0 <= i < |events| && TurnId(events[i]) == Some(id)
      {
        if id in Execute(stored, init).eventMsgId {
          var i :| 0 <= i < |init| && TurnId(init[i]) == Some(id);
          assert TurnId(events[i]) == Some(id);
        } else {
          assert TurnId(events[m]) == Some(id);
        }
      }
    }
  }

  /** With fresh uuids, message ids are unique. */
  lemma FreshUuidsMakeUniqueIds(stored: Option<string>, events: seq<Event>)
    requires FreshUuids(events)
    ensures IdsUnique(stored, events)
  {
    forall n | 0 <= n < |events|
      ensures SendsUnderNewIds(Execute(stored, events[..n]), Execute(stored, events[..n + 1]))
    {
      TurnSendsFresh(stored, events, n);
    }
  }

  lemma TurnSendsFresh(stored: Option<string>, events: seq<Event>, n: nat)
    requires FreshUuids(events) && n < |events|
    ensures SendsUnderNewIds(Execute(stored, events[..n]), Execute(stored, events[..n + 1]))
  {
    var init := events[..n];
    assert events[..n + 1][..n] == init;
    WaitingUnderUuids(stored, init);
    FreshTurn(Execute(stored, init), init, events[n]);
  }

  lemma FreshTurn(p: Page, before: seq<Event>, e: Event)
    requires WaitsUnderUuids(p, before)
    requires e.AppSends? ==> e.obj.id == ""
    requires TurnId(e).Some? ==> forall i | 0 <= i < |before| :: TurnId(before[i]) != TurnId(e)
    ensures SendsUnderNewIds(p, Next(p, e))
  {
    TurnWaits(p, e);
  }

  /** So a page that is given fresh uuids runs every callback it sent out exactly once, or still waits for its reply. */
  lemma FreshPageRunsCallbacksOnce(stored: Option<string>, events: seq<Event>)
    requires FreshUuids(events)
    ensures NoneForgotten(Execute(stored, events)) && CallbacksOnce(Execute(stored, events))
  {
    FreshUuidsMakeUniqueIds(stored, events);
    CallbacksRunOnce(stored, events);
  }
}
