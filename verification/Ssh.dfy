/** A device behind an SSH connection and the selective push to it (runtime/node_ssh.go). */
module Ssh {
  import opened Common
  import opened Channels
  import opened Floats
  import opened Nodes

  /** Stored config of a radio, and the channel it runs on until the next `wifi`. */
  datatype Radio = Radio(hwmode: string, channel: nat, txPower: nat, privSsid: string, running: nat)

  datatype RadioName = Radio0 | Radio1

  datatype Device = Device(
    hostname: string, contact: string,
    latitude: string, longitude: string, shareLocation: bool, altitude: Float,
    radios: map<RadioName, Radio>)

  datatype Command =
    | SetHostname(hostname: string)
    | SetContact(contact: string)
    | SetLocation(latitude: string, longitude: string)
    | SetTxPower(radio: RadioName, txPower: nat)
    | SetChannel(radio: RadioName, channel: nat)
    | SetPrivSsid(radio: RadioName, ssid: string)
    | RestartWifi

  /** What happens on the wire, with whether it succeeded. */
  datatype Event =
    | Connected(ok: bool)
    | Executed(command: Command, ok: bool)
    | Queried(band: Band, ok: bool)
    | Uptime(ok: bool)
    | Closed

  /** What a command does to the radio called `name`. */
  function ApplyToRadio(name: RadioName, radio: Radio, command: Command): Radio {
    match command
    case SetTxPower(r, txPower) => if r == name then radio.(txPower := txPower) else radio
    case SetChannel(r, channel) => if r == name then radio.(channel := channel) else radio
    case SetPrivSsid(r, ssid) => if r == name then radio.(privSsid := ssid) else radio
    case RestartWifi => radio.(running := radio.channel)
    case _ => radio
  }

  function Apply(d: Device, command: Command): Device {
    var d1 := d.(radios := map r | r in d.radios :: ApplyToRadio(r, d.radios[r], command));
    match command
    case SetHostname(hostname) => d1.(hostname := hostname)
    case SetContact(contact) => d1.(contact := contact)
    case SetLocation(lat, lon) => d1.(latitude := lat, longitude := lon, shareLocation := true)
    case _ => d1
  }

  /** Whether the hwmode of a radio mentions the letter of a band. */
  predicate Serves(radio: Radio, band: Band) {
    (if band.Band24? then 'g' else 'a') in radio.hwmode
  }

  /** The query script: the first of the two radios that serves the band, or nothing. */
  function Detect(d: Device, band: Band): (r: Option<RadioName>)
    ensures r.Some? ==> r.value in d.radios && Serves(d.radios[r.value], band)
  {
    if Radio0 in d.radios && Serves(d.radios[Radio0], band) then Some(Radio0)
    else if Radio1 in d.radios && Serves(d.radios[Radio1], band) then Some(Radio1)
    else None
  }

  // ----- the push as a function of the wire

  datatype Wire = Wire(device: Device, events: seq<Event>)

  function Emit(wire: Wire, event: Event): Wire {
    wire.(events := wire.events + [event])
  }

  /** The n-th event succeeds when the oracle says so; a failing command changes nothing. */
  function Exec(oracle: nat -> bool, wire: Wire, command: Command): Wire {
    var ok := oracle(|wire.events|);
    Emit(if ok then wire.(device := Apply(wire.device, command)) else wire, Executed(command, ok))
  }

  function ExecIf(oracle: nat -> bool, wire: Wire, condition: bool, command: Command): Wire {
    if condition then Exec(oracle, wire, command) else wire
  }

  function PushSystem(oracle: nat -> bool, n: Node, w0: Wire): Wire {
    var want, have := n.row.settings, n.respondd;
    var w1 := ExecIf(oracle, w0, want.hostname != have.hostname, SetHostname(want.hostname));
    var w2 := ExecIf(oracle, w1, want.owner != have.owner, SetContact(want.owner));
    ExecIf(oracle, w2, !LocationEqual(want.location, have.location),
           SetLocation(Format6(want.location.latitude), Format6(want.location.longitude)))
  }

  predicate PushesTxPower(plan: Plan, n: Node, band: Band) {
    && plan.Permitted(n.row.settings.wireless.Channel(band))
    && n.row.settings.wireless.TxPower(band) != n.respondd.wireless.TxPower(band)
  }

  predicate PushesChannel(plan: Plan, n: Node, band: Band, radio: Option<RadioName>) {
    && radio.Some?
    && plan.Permitted(n.row.settings.wireless.Channel(band))
    && n.row.settings.wireless.Channel(band) != n.respondd.wireless.Channel(band)
  }

  function PushRadio(oracle: nat -> bool, plan: Plan, n: Node, band: Band, radio: Option<RadioName>, w0: Wire): Wire {
    if radio.None? then w0
    else
      var want, have := n.row.settings.wireless, n.respondd.wireless;
      var w1 := ExecIf(oracle, w0, PushesTxPower(plan, n, band), SetTxPower(radio.value, want.TxPower(band)));
      var w2 := ExecIf(oracle, w1, PushesChannel(plan, n, band, radio), SetChannel(radio.value, want.Channel(band)));
      ExecIf(oracle, w2, n.row.settings.hostname != n.respondd.hostname,
             SetPrivSsid(radio.value, "offline-" + n.row.settings.hostname))
  }

  /** The deferred calls, run in reverse order of their defer statements. */
  function Finish(oracle: nat -> bool, wire: Wire, runWifi: bool): Wire {
    Emit(ExecIf(oracle, wire, runWifi, RestartWifi), Closed)
  }

  function PushBand(oracle: nat -> bool, plan: Plan, n: Node, band: Band, wire: Wire): (Option<bool>, Wire) {
    var ok := oracle(|wire.events|);
    var w1 := Emit(wire, Queried(band, ok));
    if !ok then (None, w1)
    else
      var radio := Detect(wire.device, band);
      (Some(PushesChannel(plan, n, band, radio)), PushRadio(oracle, plan, n, band, radio, w1))
  }

  function Push(oracle: nat -> bool, plan: Plan, n: Node, w0: Wire): (bool, Wire) {
    var ok := oracle(|w0.events|);
    var w1 := Emit(w0, Connected(ok));
    if !ok then (false, w1)
    else
      var (wifi24, w3) := PushBand(oracle, plan, n, Band24, PushSystem(oracle, n, w1));
      if wifi24.None? then (true, Finish(oracle, w3, false))
      else
        var (wifi5, w4) := PushBand(oracle, plan, n, Band5, w3);
        if wifi5.None? then (true, Finish(oracle, w4, wifi24.value))
        else (true, Finish(oracle, w4, wifi24.value || wifi5.value))
  }

  /** RunOn(…, "uptime"): connect, run, close. */
  function Probe(oracle: nat -> bool, w0: Wire): (bool, Wire) {
    var ok := oracle(|w0.events|);
    var w1 := Emit(w0, Connected(ok));
    if !ok then (false, w1)
    else
      var up := oracle(|w1.events|);
      (up, Emit(Emit(w1, Uptime(up)), Closed))
  }

  // ----- the same, as the stateful code it is

  class Link {
    const oracle: nat -> bool
    var device: Device
    var events: seq<Event>

    ghost function View(): Wire
      reads this
    {
      Wire(device, events)
    }

    constructor (oracle: nat -> bool, device: Device)
      ensures this.oracle == oracle && View() == Wire(device, [])
    {
      this.oracle, this.device, this.events := oracle, device, [];
    }

    method Connect() returns (ok: bool)
      modifies this
      ensures ok == oracle(|old(events)|) && View() == Emit(old(View()), Connected(ok))
    {
      ok := oracle(|events|);
      events := events + [Connected(ok)];
    }

    method Execute(command: Command)
      modifies this
      ensures View() == Exec(oracle, old(View()), command)
    {
      var ok := oracle(|events|);
      if ok {
        device := Apply(device, command);
      }
      events := events + [Executed(command, ok)];
    }

    method RunRadioQuery(band: Band) returns (result: Option<Option<RadioName>>)
      modifies this
      ensures View() == Emit(old(View()), Queried(band, oracle(|old(events)|)))
      ensures result == if oracle(|old(events)|) then Some(Detect(device, band)) else None
    {
      var ok := oracle(|events|);
      events := events + [Queried(band, ok)];
      result := if ok then Some(Detect(device, band)) else None;
    }

    method Close()
      modifies this
      ensures View() == Emit(old(View()), Closed)
    {
      events := events + [Closed];
    }

    method RunOnUptime() returns (ok: bool)
      modifies this
      ensures (ok, View()) == Probe(oracle, old(View()))
    {
      ok := Connect();
      if ok {
        ok := oracle(|events|);
        events := events + [Uptime(ok)];
        Close();
      }
    }

    method SshUpdate(n: NodeRecord, plan: Plan) returns (ok: bool)
      modifies this
      ensures (ok, View()) == Push(oracle, plan, n.View(), old(View()))
    {
      ok := Connect();
      if !ok {
        return false;
      }
      if n.settings.hostname != n.respondd.hostname {
        Execute(SetHostname(n.settings.hostname));
      }
      if n.settings.owner != n.respondd.owner {
        Execute(SetContact(n.settings.owner));
      }
      if !LocationEqual(n.settings.location, n.respondd.location) {
        Execute(SetLocation(Format6(n.settings.location.latitude), Format6(n.settings.location.longitude)));
      }
      assert View() == PushSystem(oracle, n.View(), Emit(old(View()), Connected(true)));
      var wifi24 := UpdateBand(n, plan, Band24);
      if wifi24.None? {
        RunDeferred(false);
        return true;
      }
      var wifi5 := UpdateBand(n, plan, Band5);
      if wifi5.None? {
        RunDeferred(wifi24.value);
        return true;
      }
      RunDeferred(wifi24.value || wifi5.value);
    }

    /** The block the source repeats for each band; None is its early return. */
    method UpdateBand(n: NodeRecord, plan: Plan, band: Band) returns (runWifi: Option<bool>)
      modifies this
      ensures (runWifi, View()) == PushBand(oracle, plan, n.View(), band, old(View()))
    {
      var result := RunRadioQuery(band);
      if result.None? {
        return None;
      }
      runWifi := Some(false);
      var radio := result.value;
      var channel, responddChannel := n.settings.wireless.Channel(band), n.respondd.wireless.Channel(band);
      var txPower, responddTxPower := n.settings.wireless.TxPower(band), n.respondd.wireless.TxPower(band);
      var ch := plan.GetChannel(channel);
      if radio.Some? {
        if ch.Some? {
          if txPower != responddTxPower {
            Execute(SetTxPower(radio.value, txPower));
          }
          if channel != responddChannel {
            Execute(SetChannel(radio.value, channel));
            runWifi := Some(true);
          }
        }
        if n.settings.hostname != n.respondd.hostname {
          Execute(SetPrivSsid(radio.value, "offline-" + n.settings.hostname));
        }
      }
    }

    method RunDeferred(runWifi: bool)
      modifies this
      ensures View() == Finish(oracle, old(View()), runWifi)
    {
      if runWifi {
        Execute(RestartWifi);
      }
      Close();
    }
  }

  // ----- the deferred radio restart

  predicate IsWifi(e: Event) { e.Executed? && e.command.RestartWifi? }
  predicate IsChannelPush(e: Event) { e.Executed? && e.command.SetChannel? }
  predicate IsPlain(e: Event) { !IsWifi(e) && !e.Closed? }

  /** The new part of the event log, cut after the events that were there before. */
  ghost predicate Extends(w0: Wire, w1: Wire) {
    w0.events <= w1.events
  }

  /** w1 extends w0 by plain events, with a channel push among them exactly when `pushed`. */
  ghost predicate ExtendsPlainly(w0: Wire, w1: Wire, pushed: bool) {
    && Extends(w0, w1)
    && (forall i | |w0.events| <= i < |w1.events| :: IsPlain(w1.events[i]))
    && (pushed <==> exists i | |w0.events| <= i < |w1.events| :: IsChannelPush(w1.events[i]))
  }

  lemma PlainSteps(w0: Wire, w1: Wire, w2: Wire, p: bool, q: bool)
    requires ExtendsPlainly(w0, w1, p) && ExtendsPlainly(w1, w2, q)
    ensures ExtendsPlainly(w0, w2, p || q)
  {
    forall i | |w0.events| <= i < |w1.events|
      ensures w2.events[i] == w1.events[i]
    {
    }
    if p {
      var i :| |w0.events| <= i < |w1.events| && IsChannelPush(w1.events[i]);
      assert IsChannelPush(w2.events[i]);
    }
  }

  lemma PlainEmit(w: Wire, e: Event)
    requires IsPlain(e)
    ensures ExtendsPlainly(w, Emit(w, e), IsChannelPush(e))
  {
    var i := |w.events|;
    assert Emit(w, e).events[i] == e;
  }

  lemma PlainExecIf(oracle: nat -> bool, w: Wire, condition: bool, command: Command)
    requires !command.RestartWifi?
    ensures ExtendsPlainly(w, ExecIf(oracle, w, condition, command), condition && command.SetChannel?)
  {
    if condition {
      PlainEmit(w, Executed(command, oracle(|w.events|)));
      PlainEmit(w.(device := Apply(w.device, command)), Executed(command, oracle(|w.events|)));
    }
  }

  lemma PlainSystem(oracle: nat -> bool, n: Node, w0: Wire)
    ensures ExtendsPlainly(w0, PushSystem(oracle, n, w0), false)
  {
    var want, have := n.row.settings, n.respondd;
    var w1 := ExecIf(oracle, w0, want.hostname != have.hostname, SetHostname(want.hostname));
    var w2 := ExecIf(oracle, w1, want.owner != have.owner, SetContact(want.owner));
    var c := SetLocation(Format6(want.location.latitude), Format6(want.location.longitude));
    PlainExecIf(oracle, w0, want.hostname != have.hostname, SetHostname(want.hostname));
    PlainExecIf(oracle, w1, want.owner != have.owner, SetContact(want.owner));
    PlainExecIf(oracle, w2, !LocationEqual(want.location, have.location), c);
    PlainSteps(w0, w1, w2, false, false);
    PlainSteps(w0, w2, PushSystem(oracle, n, w0), false, false);
  }

  lemma PlainRadio(oracle: nat -> bool, plan: Plan, n: Node, band: Band, radio: Option<RadioName>, w0: Wire)
    ensures ExtendsPlainly(w0, PushRadio(oracle, plan, n, band, radio, w0), PushesChannel(plan, n, band, radio))
  {
    if radio.Some? {
      var want := n.row.settings.wireless;
      var tx, ch := PushesTxPower(plan, n, band), PushesChannel(plan, n, band, radio);
      var w1 := ExecIf(oracle, w0, tx, SetTxPower(radio.value, want.TxPower(band)));
      var w2 := ExecIf(oracle, w1, ch, SetChannel(radio.value, want.Channel(band)));
      PlainExecIf(oracle, w0, tx, SetTxPower(radio.value, want.TxPower(band)));
      PlainExecIf(oracle, w1, ch, SetChannel(radio.value, want.Channel(band)));
      PlainExecIf(oracle, w2, n.row.settings.hostname != n.respondd.hostname,
                  SetPrivSsid(radio.value, "offline-" + n.row.settings.hostname));
      PlainSteps(w0, w1, w2, false, ch);
      PlainSteps(w0, w2, PushRadio(oracle, plan, n, band, radio, w0), ch, false);
    }
  }

  lemma PlainBand(oracle: nat -> bool, plan: Plan, n: Node, band: Band, w0: Wire)
    ensures var (wifi, w1) := PushBand(oracle, plan, n, band, w0);
            ExtendsPlainly(w0, w1, wifi == Some(true))
  {
    var e := Queried(band, oracle(|w0.events|));
    PlainEmit(w0, e);
    if oracle(|w0.events|) {
      var radio := Detect(w0.device, band);
      PlainRadio(oracle, plan, n, band, radio, Emit(w0, e));
      PlainSteps(w0, Emit(w0, e), PushBand(oracle, plan, n, band, w0).1, false, PushesChannel(plan, n, band, radio));
    }
  }

  /** Every path of a connected push is plain events followed by the deferred calls. */
  lemma PushBeforeDeferred(oracle: nat -> bool, plan: Plan, n: Node, w0: Wire) returns (wb: Wire, runWifi: bool)
    requires oracle(|w0.events|)
    ensures ExtendsPlainly(w0, wb, runWifi)
    ensures Push(oracle, plan, n, w0) == (true, Finish(oracle, wb, runWifi))
    ensures |wb.events| > |w0.events| && wb.events[|w0.events|] == Connected(true)
    ensures var (wifi24, w3) := PushBand(oracle, plan, n, Band24, PushSystem(oracle, n, Emit(w0, Connected(true))));
            runWifi <==> wifi24 == Some(true) || (wifi24.Some? && PushBand(oracle, plan, n, Band5, w3).0 == Some(true))
  {
    var w1 := Emit(w0, Connected(true));
    var w2 := PushSystem(oracle, n, w1);
    var (wifi24, w3) := PushBand(oracle, plan, n, Band24, w2);
    PlainEmit(w0, Connected(true));
    PlainSystem(oracle, n, w1);
    PlainSteps(w0, w1, w2, false, false);
    PlainBand(oracle, plan, n, Band24, w2);
    PlainSteps(w0, w2, w3, false, wifi24 == Some(true));
    wb, runWifi := w3, false;
    if wifi24.Some? {
      var (wifi5, w4) := PushBand(oracle, plan, n, Band5, w3);
      PlainBand(oracle, plan, n, Band5, w3);
      PlainSteps(w0, w3, w4, wifi24 == Some(true), wifi5 == Some(true));
      wb, runWifi := w4, wifi24.value || wifi5 == Some(true);
    }
    assert w1.events <= w2.events <= w3.events <= wb.events;
    assert wb.events[|w0.events|] == w1.events[|w0.events|];
  }

  /**
   * On every path of the push that got a connection, the two early returns
   * included: `wifi` is issued exactly once if a channel was pushed and never
   * otherwise, after every other command, and the last event is the close.
   */
  lemma DeferredRestart(oracle: nat -> bool, plan: Plan, n: Node, w0: Wire)
    requires oracle(|w0.events|)
    ensures var (ok, w) := Push(oracle, plan, n, w0);
            && ok && Extends(w0, w) && |w.events| > |w0.events| + 1
            && w.events[|w0.events|] == Connected(true)
            && (forall i | |w0.events| <= i < |w.events| :: w.events[i].Closed? <==> i == |w.events| - 1)
            && (forall i | |w0.events| <= i < |w.events| ::
                  IsWifi(w.events[i]) <==>
                  i == |w.events| - 2 && exists j | |w0.events| <= j < |w.events| :: IsChannelPush(w.events[j]))
  {
    var wb, runWifi := PushBeforeDeferred(oracle, plan, n, w0);
    FinishShape(oracle, w0, wb, runWifi);
  }

  lemma FinishShape(oracle: nat -> bool, w0: Wire, wb: Wire, runWifi: bool)
    requires ExtendsPlainly(w0, wb, runWifi)
    ensures var w := Finish(oracle, wb, runWifi);
            && wb.events <= w.events && |w.events| > |wb.events|
            && (forall i | |w0.events| <= i < |w.events| :: w.events[i].Closed? <==> i == |w.events| - 1)
            && (forall i | |w0.events| <= i < |w.events| ::
                  IsWifi(w.events[i]) <==>
                  i == |w.events| - 2 && exists j | |w0.events| <= j < |w.events| :: IsChannelPush(w.events[j]))
  {
    var w := Finish(oracle, wb, runWifi);
    assert forall i | |w0.events| <= i < |wb.events| :: w.events[i] == wb.events[i] && IsPlain(w.events[i]);
    if runWifi {
      var j :| |w0.events| <= j < |wb.events| && IsChannelPush(wb.events[j]);
      assert IsChannelPush(w.events[j]);
    }
  }
}
