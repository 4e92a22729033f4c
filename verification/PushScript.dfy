/**
 * What a push issues and leaves behind under every pattern of failures, said of
 * the event log and of single fields (runtime/node_ssh.go).
 */
module PushScript {
  import opened Common
  import opened Channels
  import opened Floats
  import opened Nodes
  import opened Ssh

  // ----- reading an event log

  /** The commands of a log, whatever became of them. */
  function Commands(events: seq<Event>): seq<Command> {
    if events == [] then []
    else
      var n := |events| - 1;
      Commands(events[..n]) + if events[n].Executed? then [events[n].command] else []
  }

  /** The radio queries of a log, with their outcomes. */
  function Queries(events: seq<Event>): seq<Event> {
    if events == [] then []
    else
      var n := |events| - 1;
      Queries(events[..n]) + if events[n].Queried? then [events[n]] else []
  }

  /** What a log did to a device: its successful commands, in order. */
  function Replay(d: Device, events: seq<Event>): Device {
    if events == [] then d
    else
      var n := |events| - 1;
      var before := Replay(d, events[..n]);
      if events[n].Executed? && events[n].ok then Apply(before, events[n].command) else before
  }

  /** Every outcome in the new part of a log is the one the oracle has for its position. */
  ghost predicate Honest(oracle: nat -> bool, w0: Wire, w1: Wire) {
    forall k | |w0.events| <= k < |w1.events| && (w1.events[k].Executed? || w1.events[k].Queried?) ::
      w1.events[k].ok == oracle(k)
  }

  ghost predicate Plays(oracle: nat -> bool, w0: Wire, w1: Wire, queries: seq<Event>, commands: seq<Command>) {
    && w0.events <= w1.events
    && var added := w1.events[|w0.events|..];
    && Queries(added) == queries
    && Commands(added) == commands
    && w1.device == Replay(w0.device, added)
    && Honest(oracle, w0, w1)
  }

  lemma {:induction false} CommandsAppend(a: seq<Event>, b: seq<Event>)
    ensures Commands(a + b) == Commands(a) + Commands(b)
    decreases |b|
  {
    if b == [] {
      assert a + b == a;
    } else {
      var n := |b| - 1;
      assert (a + b)[..|a| + n] == a + b[..n];
      CommandsAppend(a, b[..n]);
    }
  }

  lemma {:induction false} QueriesAppend(a: seq<Event>, b: seq<Event>)
    ensures Queries(a + b) == Queries(a) + Queries(b)
    decreases |b|
  {
    if b == [] {
      assert a + b == a;
    } else {
      var n := |b| - 1;
      assert (a + b)[..|a| + n] == a + b[..n];
      QueriesAppend(a, b[..n]);
    }
  }

  lemma {:induction false} ReplayAppend(d: Device, a: seq<Event>, b: seq<Event>)
    ensures Replay(d, a + b) == Replay(Replay(d, a), b)
    decreases |b|
  {
    if b == [] {
      assert a + b == a;
    } else {
      var n := |b| - 1;
      assert (a + b)[..|a| + n] == a + b[..n];
      ReplayAppend(d, a, b[..n]);
    }
  }

  lemma PlaysSteps(oracle: nat -> bool, w0: Wire, w1: Wire, w2: Wire,
                   q1: seq<Event>, c1: seq<Command>, q2: seq<Event>, c2: seq<Command>)
    requires Plays(oracle, w0, w1, q1, c1) && Plays(oracle, w1, w2, q2, c2)
    ensures Plays(oracle, w0, w2, q1 + q2, c1 + c2)
  {
    var a, b := w1.events[|w0.events|..], w2.events[|w1.events|..];
    assert w2.events[|w0.events|..] == a + b;
    CommandsAppend(a, b);
    QueriesAppend(a, b);
    ReplayAppend(w0.device, a, b);
    forall k | |w0.events| <= k < |w1.events|
      ensures w2.events[k] == w1.events[k]
    {
    }
  }

  lemma PlaysEmit(oracle: nat -> bool, w: Wire, e: Event)
    requires !e.Executed? && (e.Queried? ==> e.ok == oracle(|w.events|))
    ensures Plays(oracle, w, Emit(w, e), if e.Queried? then [e] else [], [])
  {
    assert Emit(w, e).events[|w.events|..] == [e];
    OneEvent(w.device, e);
  }

  lemma OneEvent(d: Device, e: Event)
    ensures Commands([e]) == if e.Executed? then [e.command] else []
    ensures Queries([e]) == if e.Queried? then [e] else []
    ensures Replay(d, [e]) == if e.Executed? && e.ok then Apply(d, e.command) else d
  {
    assert [e][..0] == [];
  }

  function OnlyIf(condition: bool, command: Command): seq<Command> {
    if condition then [command] else []
  }

  lemma PlaysExecIf(oracle: nat -> bool, w: Wire, condition: bool, command: Command)
    ensures Plays(oracle, w, ExecIf(oracle, w, condition, command), [], OnlyIf(condition, command))
  {
    var w1 := ExecIf(oracle, w, condition, command);
    if condition {
      var e := Executed(command, oracle(|w.events|));
      assert w1.events[|w.events|..] == [e];
      OneEvent(w.device, e);
    } else {
      assert w1.events[|w.events|..] == [];
    }
  }

  // ----- the script

  /** The first radio whose hwmode mentions a letter. */
  function RadioWith(d: Device, letter: char): Option<RadioName> {
    if Radio0 in d.radios && letter in d.radios[Radio0].hwmode then Some(Radio0)
    else if Radio1 in d.radios && letter in d.radios[Radio1].hwmode then Some(Radio1)
    else None
  }

  predicate MayUse(plan: Plan, ch: nat) {
    ch in plan.list && (plan.eu ==> plan.list[ch].allowedInEU)
  }

  function SystemScript(want: Settings, have: Settings): seq<Command> {
    OnlyIf(want.hostname != have.hostname, SetHostname(want.hostname)) +
    OnlyIf(want.owner != have.owner, SetContact(want.owner)) +
    OnlyIf(!LocationEqual(want.location, have.location),
           SetLocation(Format6(want.location.latitude), Format6(want.location.longitude)))
  }

  /** For one band: channels and tx powers as desired and as reported, and the desired hostname where it differs. */
  function BandScript(radio: Option<RadioName>, usable: bool, ch: nat, haveCh: nat, tx: nat, haveTx: nat, rename: Option<string>): seq<Command> {
    if radio.None? then []
    else
      OnlyIf(usable && tx != haveTx, SetTxPower(radio.value, tx)) +
      OnlyIf(usable && ch != haveCh, SetChannel(radio.value, ch)) +
      (if rename.Some? then [SetPrivSsid(radio.value, "offline-" + rename.value)] else [])
  }

  function Rename(want: Settings, have: Settings): Option<string> {
    if want.hostname != have.hostname then Some(want.hostname) else None
  }

  function Script24(plan: Plan, want: Settings, have: Settings, d: Device): seq<Command> {
    BandScript(RadioWith(d, 'g'), MayUse(plan, want.wireless.channel24), want.wireless.channel24, have.wireless.channel24,
               want.wireless.txPower24, have.wireless.txPower24, Rename(want, have))
  }

  function Script5(plan: Plan, want: Settings, have: Settings, d: Device): seq<Command> {
    BandScript(RadioWith(d, 'a'), MayUse(plan, want.wireless.channel5), want.wireless.channel5, have.wireless.channel5,
               want.wireless.txPower5, have.wireless.txPower5, Rename(want, have))
  }

  function BandScripts(plan: Plan, want: Settings, have: Settings, d: Device, ok24: bool, ok5: bool): seq<Command> {
    (if ok24 then Script24(plan, want, have, d) else []) + (if ok24 && ok5 then Script5(plan, want, have, d) else [])
  }

  predicate PushesAChannel(script: seq<Command>) {
    exists c :: c in script && c.SetChannel?
  }

  /** The commands of a connected push; outcomes matter only through the two queries. */
  function Script(plan: Plan, want: Settings, have: Settings, d: Device, ok24: bool, ok5: bool): seq<Command> {
    Assemble(SystemScript(want, have), BandScripts(plan, want, have, d, ok24, ok5))
  }

  function Assemble(system: seq<Command>, bands: seq<Command>): seq<Command> {
    system + bands + if PushesAChannel(bands) then [RestartWifi] else []
  }

  predicate AboutRadio(c: Command) {
    c.SetTxPower? || c.SetChannel? || c.SetPrivSsid?
  }

  lemma AssembleHas(system: seq<Command>, bands: seq<Command>)
    requires forall c | c in system :: !c.RestartWifi? && !AboutRadio(c)
    requires forall c | c in bands :: AboutRadio(c)
    ensures forall c :: c in Assemble(system, bands) <==> c in system || c in bands || (PushesAChannel(bands) && c == RestartWifi)
    ensures forall i | 0 <= i < |Assemble(system, bands)| - 1 :: !Assemble(system, bands)[i].RestartWifi?
  {
    var all := system + bands;
    forall i | 0 <= i < |all|
      ensures !all[i].RestartWifi?
    {
      assert all[i] in system || all[i] in bands;
    }
  }

  predicate SystemCommand(c: Command, want: Settings, have: Settings) {
    || (c == SetHostname(want.hostname) && want.hostname != have.hostname)
    || (c == SetContact(want.owner) && want.owner != have.owner)
    || (c == SetLocation(Format6(want.location.latitude), Format6(want.location.longitude))
        && !LocationEqual(want.location, have.location))
  }

  predicate BandCommand(c: Command, radio: Option<RadioName>, usable: bool, ch: nat, haveCh: nat, tx: nat, haveTx: nat, rename: Option<string>) {
    radio.Some? &&
    (|| (c == SetTxPower(radio.value, tx) && usable && tx != haveTx)
     || (c == SetChannel(radio.value, ch) && usable && ch != haveCh)
     || (rename.Some? && c == SetPrivSsid(radio.value, "offline-" + rename.value)))
  }

  predicate Command24(c: Command, plan: Plan, want: Settings, have: Settings, radio: Option<RadioName>) {
    BandCommand(c, radio, MayUse(plan, want.wireless.channel24), want.wireless.channel24, have.wireless.channel24,
                want.wireless.txPower24, have.wireless.txPower24, Rename(want, have))
  }

  predicate Command5(c: Command, plan: Plan, want: Settings, have: Settings, radio: Option<RadioName>) {
    BandCommand(c, radio, MayUse(plan, want.wireless.channel5), want.wireless.channel5, have.wireless.channel5,
                want.wireless.txPower5, have.wireless.txPower5, Rename(want, have))
  }

  lemma SystemHas(want: Settings, have: Settings)
    ensures forall c :: c in SystemScript(want, have) <==> SystemCommand(c, want, have)
  {
    ThreeHave(want.hostname != have.hostname, SetHostname(want.hostname), want.owner != have.owner, SetContact(want.owner),
              !LocationEqual(want.location, have.location),
              SetLocation(Format6(want.location.latitude), Format6(want.location.longitude)));
  }

  lemma ThreeHave(b1: bool, c1: Command, b2: bool, c2: Command, b3: bool, c3: Command)
    ensures forall c :: c in OnlyIf(b1, c1) + OnlyIf(b2, c2) + OnlyIf(b3, c3) <==>
              (c == c1 && b1) || (c == c2 && b2) || (c == c3 && b3)
  {
  }

  lemma BandHas(radio: Option<RadioName>, usable: bool, ch: nat, haveCh: nat, tx: nat, haveTx: nat, rename: Option<string>)
    ensures forall c :: c in BandScript(radio, usable, ch, haveCh, tx, haveTx, rename) <==>
              BandCommand(c, radio, usable, ch, haveCh, tx, haveTx, rename)
  {
    if radio.Some? {
      var ssid := if rename.Some? then "offline-" + rename.value else "";
      ThreeHave(usable && tx != haveTx, SetTxPower(radio.value, tx), usable && ch != haveCh, SetChannel(radio.value, ch),
                rename.Some?, SetPrivSsid(radio.value, ssid));
    }
  }

  lemma BandsHave(plan: Plan, want: Settings, have: Settings, d: Device, ok24: bool, ok5: bool)
    ensures forall c :: c in BandScripts(plan, want, have, d, ok24, ok5) <==>
              || (ok24 && Command24(c, plan, want, have, RadioWith(d, 'g')))
              || (ok24 && ok5 && Command5(c, plan, want, have, RadioWith(d, 'a')))
  {
    BandHas(RadioWith(d, 'g'), MayUse(plan, want.wireless.channel24), want.wireless.channel24, have.wireless.channel24,
            want.wireless.txPower24, have.wireless.txPower24, Rename(want, have));
    BandHas(RadioWith(d, 'a'), MayUse(plan, want.wireless.channel5), want.wireless.channel5, have.wireless.channel5,
            want.wireless.txPower5, have.wireless.txPower5, Rename(want, have));
  }

  lemma ScriptHas(plan: Plan, want: Settings, have: Settings, d: Device, ok24: bool, ok5: bool)
    ensures var script := Script(plan, want, have, d, ok24, ok5);
            && (forall c | c != RestartWifi :: c in script <==>
                  || SystemCommand(c, want, have)
                  || (ok24 && Command24(c, plan, want, have, RadioWith(d, 'g')))
                  || (ok24 && ok5 && Command5(c, plan, want, have, RadioWith(d, 'a'))))
            && forall i | 0 <= i < |script| - 1 :: !script[i].RestartWifi?
  {
    SystemHas(want, have);
    BandsHave(plan, want, have, d, ok24, ok5);
    AssembleHas(SystemScript(want, have), BandScripts(plan, want, have, d, ok24, ok5));
  }

  lemma PlaysSystem(oracle: nat -> bool, n: Node, w0: Wire)
    ensures Plays(oracle, w0, PushSystem(oracle, n, w0), [], SystemScript(n.row.settings, n.respondd))
  {
    var want, have := n.row.settings, n.respondd;
    var b1, b2, b3 := want.hostname != have.hostname, want.owner != have.owner, !LocationEqual(want.location, have.location);
    var c1, c2 := SetHostname(want.hostname), SetContact(want.owner);
    var c3 := SetLocation(Format6(want.location.latitude), Format6(want.location.longitude));
    PlaysThree(oracle, w0, b1, c1, b2, c2, b3, c3);
  }

  lemma PlaysThree(oracle: nat -> bool, w: Wire, b1: bool, c1: Command, b2: bool, c2: Command, b3: bool, c3: Command)
    ensures Plays(oracle, w, ExecIf(oracle, ExecIf(oracle, ExecIf(oracle, w, b1, c1), b2, c2), b3, c3), [],
                  OnlyIf(b1, c1) + OnlyIf(b2, c2) + OnlyIf(b3, c3))
  {
    var w1 := ExecIf(oracle, w, b1, c1);
    var w2 := ExecIf(oracle, w1, b2, c2);
    var w3 := ExecIf(oracle, w2, b3, c3);
    PlaysExecIf(oracle, w, b1, c1);
    PlaysExecIf(oracle, w1, b2, c2);
    PlaysExecIf(oracle, w2, b3, c3);
    PlaysSteps(oracle, w, w1, w2, [], OnlyIf(b1, c1), [], OnlyIf(b2, c2));
    PlaysSteps(oracle, w, w2, w3, [], OnlyIf(b1, c1) + OnlyIf(b2, c2), [], OnlyIf(b3, c3));
  }

  lemma PlaysRadio(oracle: nat -> bool, plan: Plan, n: Node, band: Band, radio: Option<RadioName>, w0: Wire)
    ensures Plays(oracle, w0, PushRadio(oracle, plan, n, band, radio, w0), [], ScriptOf(plan, n, band, radio))
  {
    var want, have := n.row.settings, n.respondd;
    if radio.Some? {
      PlaysThree(oracle, w0,
                 PushesTxPower(plan, n, band), SetTxPower(radio.value, want.wireless.TxPower(band)),
                 PushesChannel(plan, n, band, radio), SetChannel(radio.value, want.wireless.Channel(band)),
                 want.hostname != have.hostname, SetPrivSsid(radio.value, "offline-" + want.hostname));
    } else {
      assert w0.events[|w0.events|..] == [];
    }
  }

  function ScriptOf(plan: Plan, n: Node, band: Band, radio: Option<RadioName>): seq<Command> {
    var want, have := n.row.settings, n.respondd;
    if band.Band24? then
      BandScript(radio, MayUse(plan, want.wireless.channel24), want.wireless.channel24, have.wireless.channel24,
                 want.wireless.txPower24, have.wireless.txPower24, Rename(want, have))
    else
      BandScript(radio, MayUse(plan, want.wireless.channel5), want.wireless.channel5, have.wireless.channel5,
                 want.wireless.txPower5, have.wireless.txPower5, Rename(want, have))
  }

  lemma PlaysBand(oracle: nat -> bool, plan: Plan, n: Node, band: Band, w0: Wire, d0: Device)
    requires w0.device.radios.Keys == d0.radios.Keys
    requires forall r | r in d0.radios :: w0.device.radios[r].hwmode == d0.radios[r].hwmode
    ensures var (wifi, w1) := PushBand(oracle, plan, n, band, w0);
            var ok := oracle(|w0.events|);
            var script := if ok then ScriptOf(plan, n, band, RadioWith(d0, if band.Band24? then 'g' else 'a')) else [];
            && Plays(oracle, w0, w1, [Queried(band, ok)], script)
            && wifi == (if ok then Some(PushesAChannel(script)) else None)
  {
    var ok := oracle(|w0.events|);
    var w1 := Emit(w0, Queried(band, ok));
    PlaysEmit(oracle, w0, Queried(band, ok));
    if ok {
      var radio := Detect(w0.device, band);
      assert radio == RadioWith(d0, if band.Band24? then 'g' else 'a');
      PlaysRadio(oracle, plan, n, band, radio, w1);
      PlaysSteps(oracle, w0, w1, PushBand(oracle, plan, n, band, w0).1, [Queried(band, ok)], [], [], ScriptOf(plan, n, band, radio));
      ScriptPushes(plan, n, band, radio);
    }
  }

  lemma ScriptPushes(plan: Plan, n: Node, band: Band, radio: Option<RadioName>)
    ensures PushesAChannel(ScriptOf(plan, n, band, radio)) <==> PushesChannel(plan, n, band, radio)
  {
    if PushesChannel(plan, n, band, radio) {
      assert SetChannel(radio.value, n.row.settings.wireless.Channel(band)) in ScriptOf(plan, n, band, radio);
    }
  }

  /** Playing a log changes no hwmode and adds or removes no radio. */
  lemma {:induction false} ReplayKeepsRadios(d: Device, events: seq<Event>)
    ensures Replay(d, events).radios.Keys == d.radios.Keys
    ensures forall r | r in d.radios :: Replay(d, events).radios[r].hwmode == d.radios[r].hwmode
    ensures Replay(d, events).altitude == d.altitude
    decreases |events|
  {
    if events == [] {
    } else {
      ReplayKeepsRadios(d, events[..|events| - 1]);
    }
  }

  /**
   * Under every pattern of failures a connected push asks for the 2.4 GHz radio,
   * and for the 5 GHz radio exactly if it got an answer; it issues exactly the
   * commands of the script, in its order, whatever became of earlier ones; and
   * the device is what the successful ones make of it. Without a connection
   * nothing happens.
   */
  lemma PushPlaysScript(oracle: nat -> bool, plan: Plan, n: Node, w0: Wire) returns (ok24: bool, ok5: bool)
    ensures !oracle(|w0.events|) ==> Push(oracle, plan, n, w0) == (false, Wire(w0.device, w0.events + [Connected(false)]))
    ensures var (connected, w1) := Push(oracle, plan, n, w0);
            oracle(|w0.events|) ==>
              && connected
              && Plays(oracle, w0, w1, [Queried(Band24, ok24)] + (if ok24 then [Queried(Band5, ok5)] else []),
                       Script(plan, n.row.settings, n.respondd, w0.device, ok24, ok5))
  {
    ok24, ok5 := false, false;
    if oracle(|w0.events|) {
      var w2 := PlaysOpening(oracle, n, w0);
      ok24 := oracle(|w2.events|);
      var w3 := PlaysNext(oracle, plan, n, Band24, w0, w2, [], SystemScript(n.row.settings, n.respondd));
      assert [] + [Queried(Band24, ok24)] == [Queried(Band24, ok24)];
      if ok24 {
        ok5 := oracle(|w3.events|);
        AfterBothQueries(oracle, plan, n, w0, w3);
      } else {
        AfterOneQuery(oracle, plan, n, w0, w3);
      }
    }
  }

  lemma AfterOneQuery(oracle: nat -> bool, plan: Plan, n: Node, w0: Wire, w3: Wire)
    requires oracle(|w0.events|)
    requires PushBand(oracle, plan, n, Band24, PushSystem(oracle, n, Emit(w0, Connected(true)))) == (None, w3)
    requires Plays(oracle, w0, w3, [Queried(Band24, false)], SystemScript(n.row.settings, n.respondd) + [])
    ensures var (connected, w1) := Push(oracle, plan, n, w0);
            && connected
            && Plays(oracle, w0, w1, [Queried(Band24, false)], Script(plan, n.row.settings, n.respondd, w0.device, false, false))
  {
    var bands := BandScripts(plan, n.row.settings, n.respondd, w0.device, false, false);
    assert bands == [];
    PlaysFinish(oracle, w0, w3, [Queried(Band24, false)], SystemScript(n.row.settings, n.respondd), bands, false);
  }

  lemma AfterBothQueries(oracle: nat -> bool, plan: Plan, n: Node, w0: Wire, w3: Wire)
    requires oracle(|w0.events|)
    requires PushBand(oracle, plan, n, Band24, PushSystem(oracle, n, Emit(w0, Connected(true)))) ==
             (Some(PushesAChannel(PartOf(plan, n, Band24, w0.device, true))), w3)
    requires Plays(oracle, w0, w3, [Queried(Band24, true)],
                   SystemScript(n.row.settings, n.respondd) + PartOf(plan, n, Band24, w0.device, true))
    ensures var (connected, w1) := Push(oracle, plan, n, w0);
            var ok5 := oracle(|w3.events|);
            && connected
            && Plays(oracle, w0, w1, [Queried(Band24, true)] + [Queried(Band5, ok5)],
                     Script(plan, n.row.settings, n.respondd, w0.device, true, ok5))
  {
    var w4 := PlaysNext(oracle, plan, n, Band5, w0, w3, [Queried(Band24, true)],
                        SystemScript(n.row.settings, n.respondd) + PartOf(plan, n, Band24, w0.device, true));
    FinishBands(oracle, plan, n, w0, w3, w4, oracle(|w3.events|));
  }

  lemma PlaysOpening(oracle: nat -> bool, n: Node, w0: Wire) returns (w2: Wire)
    requires oracle(|w0.events|)
    ensures w2 == PushSystem(oracle, n, Emit(w0, Connected(true)))
    ensures Plays(oracle, w0, w2, [], SystemScript(n.row.settings, n.respondd))
  {
    var system := SystemScript(n.row.settings, n.respondd);
    var w1 := Emit(w0, Connected(true));
    w2 := PushSystem(oracle, n, w1);
    PlaysEmit(oracle, w0, Connected(true));
    PlaysSystem(oracle, n, w1);
    PlaysSteps(oracle, w0, w1, w2, [], [], [], system);
    assert [] + system == system;
  }

  function PartOf(plan: Plan, n: Node, band: Band, d: Device, ok: bool): seq<Command> {
    if !ok then []
    else if band.Band24? then Script24(plan, n.row.settings, n.respondd, d)
    else Script5(plan, n.row.settings, n.respondd, d)
  }

  lemma PlaysNext(oracle: nat -> bool, plan: Plan, n: Node, band: Band, w0: Wire, w: Wire, queries: seq<Event>, commands: seq<Command>)
    returns (w1: Wire)
    requires Plays(oracle, w0, w, queries, commands)
    ensures var ok := oracle(|w.events|);
            var part := PartOf(plan, n, band, w0.device, ok);
            && PushBand(oracle, plan, n, band, w) == (if ok then Some(PushesAChannel(part)) else None, w1)
            && Plays(oracle, w0, w1, queries + [Queried(band, ok)], commands + part)
  {
    ReplayKeepsRadios(w0.device, w.events[|w0.events|..]);
    PlaysBand(oracle, plan, n, band, w, w0.device);
    w1 := PushBand(oracle, plan, n, band, w).1;
    var ok := oracle(|w.events|);
    PlaysSteps(oracle, w0, w, w1, queries, commands, [Queried(band, ok)], PartOf(plan, n, band, w0.device, ok));
  }

  lemma FinishBands(oracle: nat -> bool, plan: Plan, n: Node, w0: Wire, w3: Wire, w4: Wire, ok5: bool)
    requires oracle(|w0.events|)
    requires ok5 == oracle(|w3.events|)
    requires PushBand(oracle, plan, n, Band24, PushSystem(oracle, n, Emit(w0, Connected(true)))) ==
             (Some(PushesAChannel(PartOf(plan, n, Band24, w0.device, true))), w3)
    requires PushBand(oracle, plan, n, Band5, w3) ==
             (if ok5 then Some(PushesAChannel(PartOf(plan, n, Band5, w0.device, ok5))) else None, w4)
    requires Plays(oracle, w0, w4, [Queried(Band24, true)] + [Queried(Band5, ok5)],
                   SystemScript(n.row.settings, n.respondd) + PartOf(plan, n, Band24, w0.device, true) + PartOf(plan, n, Band5, w0.device, ok5))
    ensures var (connected, w1) := Push(oracle, plan, n, w0);
            && connected
            && Plays(oracle, w0, w1, [Queried(Band24, true)] + [Queried(Band5, ok5)],
                     Script(plan, n.row.settings, n.respondd, w0.device, true, ok5))
  {
    var part24, part5 := PartOf(plan, n, Band24, w0.device, true), PartOf(plan, n, Band5, w0.device, ok5);
    PushesEither(part24, part5);
    PlaysParts(oracle, w0, w4, [Queried(Band24, true)] + [Queried(Band5, ok5)], SystemScript(n.row.settings, n.respondd), part24, part5);
    assert BandScripts(plan, n.row.settings, n.respondd, w0.device, true, ok5) == part24 + part5;
  }

  lemma PushesEither(a: seq<Command>, b: seq<Command>)
    ensures PushesAChannel(a + b) <==> PushesAChannel(a) || PushesAChannel(b)
  {
  }

  lemma PlaysParts(oracle: nat -> bool, w0: Wire, w: Wire, queries: seq<Event>, system: seq<Command>, a: seq<Command>, b: seq<Command>)
    requires Plays(oracle, w0, w, queries, system + a + b)
    ensures Plays(oracle, w0, Finish(oracle, w, PushesAChannel(a) || PushesAChannel(b)), queries, Assemble(system, a + b))
  {
    assert system + a + b == system + (a + b);
    PushesEither(a, b);
    PlaysFinish(oracle, w0, w, queries, system, a + b, PushesAChannel(a) || PushesAChannel(b));
  }

  lemma PlaysFinish(oracle: nat -> bool, w0: Wire, w: Wire, queries: seq<Event>, system: seq<Command>, bands: seq<Command>, wifi: bool)
    requires Plays(oracle, w0, w, queries, system + bands) && (wifi <==> PushesAChannel(bands))
    ensures Plays(oracle, w0, Finish(oracle, w, wifi), queries, Assemble(system, bands))
  {
    var w1 := ExecIf(oracle, w, wifi, RestartWifi);
    PlaysExecIf(oracle, w, wifi, RestartWifi);
    PlaysEmit(oracle, w1, Closed);
    PlaysSteps(oracle, w0, w, w1, queries, system + bands, [], OnlyIf(wifi, RestartWifi));
    PlaysSteps(oracle, w0, w1, Emit(w1, Closed), queries + [], system + bands + OnlyIf(wifi, RestartWifi), [], []);
    assert queries + [] + [] == queries;
    assert system + bands + OnlyIf(wifi, RestartWifi) + [] == system + bands + OnlyIf(wifi, RestartWifi);
  }

  // ----- single fields of the device

  /** What a command is about. */
  datatype Kind = Hostname | Contact | Coordinates | TxPower(radio: RadioName) | ChannelNumber(radio: RadioName) | Ssid(radio: RadioName) | Wifi

  function KindOf(c: Command): Kind {
    match c
    case SetHostname(_) => Hostname
    case SetContact(_) => Contact
    case SetLocation(_, _) => Coordinates
    case SetTxPower(r, _) => TxPower(r)
    case SetChannel(r, _) => ChannelNumber(r)
    case SetPrivSsid(r, _) => Ssid(r)
    case RestartWifi => Wifi
  }

  /** A command of this kind was issued and succeeded. */
  ghost predicate Won(events: seq<Event>, kind: Kind) {
    exists k :: 0 <= k < |events| && events[k].Executed? && events[k].ok && KindOf(events[k].command) == kind
  }

  lemma WonGrows(events: seq<Event>, kind: Kind)
    requires events != []
    ensures var n := |events| - 1;
            Won(events, kind) <==> Won(events[..n], kind) || (events[n].Executed? && events[n].ok && KindOf(events[n].command) == kind)
  {
    var n := |events| - 1;
    if k :| 0 <= k < |events| && events[k].Executed? && events[k].ok && KindOf(events[k].command) == kind {
      assert k < n ==> events[..n][k] == events[k];
    }
  }

  lemma {:induction false} ReplaySystem(d: Device, events: seq<Event>, hostname: string, contact: string, lat: string, lon: string)
    requires forall c | c in Commands(events) ::
               && (c.SetHostname? ==> c.hostname == hostname)
               && (c.SetContact? ==> c.contact == contact)
               && (c.SetLocation? ==> c.latitude == lat && c.longitude == lon)
    ensures var d1 := Replay(d, events);
            && d1.hostname == (if Won(events, Hostname) then hostname else d.hostname)
            && d1.contact == (if Won(events, Contact) then contact else d.contact)
            && (d1.latitude, d1.longitude, d1.shareLocation) ==
               (if Won(events, Coordinates) then (lat, lon, true) else (d.latitude, d.longitude, d.shareLocation))
    decreases |events|
  {
    if events == [] {
    } else {
      var n := |events| - 1;
      ReplaySystem(d, events[..n], hostname, contact, lat, lon);
      WonGrows(events, Hostname);
      WonGrows(events, Contact);
      WonGrows(events, Coordinates);
      assert events[n].Executed? ==> events[n].command in Commands(events);
    }
  }

  lemma ApplyRadio(d: Device, c: Command, r: RadioName)
    requires r in d.radios
    ensures var before, after := d.radios[r], Apply(d, c).radios[r];
            && after.txPower == (if KindOf(c) == TxPower(r) then c.txPower else before.txPower)
            && after.channel == (if KindOf(c) == ChannelNumber(r) then c.channel else before.channel)
            && after.privSsid == (if KindOf(c) == Ssid(r) then c.ssid else before.privSsid)
            && after.running == (if c.RestartWifi? then before.channel else before.running)
  {
  }

  lemma {:induction false} ReplayRadio(d: Device, events: seq<Event>, r: RadioName, tx: nat, ch: nat, ssid: string)
    requires r in d.radios
    requires forall c | c in Commands(events) ::
               && (KindOf(c) == TxPower(r) ==> c.txPower == tx)
               && (KindOf(c) == ChannelNumber(r) ==> c.channel == ch)
               && (KindOf(c) == Ssid(r) ==> c.ssid == ssid)
    ensures var d1 := Replay(d, events);
            && r in d1.radios
            && d1.radios[r].txPower == (if Won(events, TxPower(r)) then tx else d.radios[r].txPower)
            && d1.radios[r].channel == (if Won(events, ChannelNumber(r)) then ch else d.radios[r].channel)
            && d1.radios[r].privSsid == (if Won(events, Ssid(r)) then ssid else d.radios[r].privSsid)
    decreases |events|
  {
    if events == [] {
    } else {
      var n := |events| - 1;
      ReplayRadio(d, events[..n], r, tx, ch, ssid);
      WonGrows(events, TxPower(r));
      WonGrows(events, ChannelNumber(r));
      WonGrows(events, Ssid(r));
      if events[n].Executed? {
        assert events[n].command in Commands(events);
        ApplyRadio(Replay(d, events[..n]), events[n].command, r);
      }
    }
  }

  /** With the restart last, radios run on what is configured in the end, or on what they ran on before. */
  lemma {:induction false} ReplayRunning(d: Device, events: seq<Event>, r: RadioName)
    requires r in d.radios
    requires forall i | 0 <= i < |Commands(events)| - 1 :: !Commands(events)[i].RestartWifi?
    ensures var d1 := Replay(d, events);
            r in d1.radios && d1.radios[r].running == if Won(events, Wifi) then d1.radios[r].channel else d.radios[r].running
    decreases |events|
  {
    if events == [] {
    } else {
      var n := |events| - 1;
      var c0, c1 := Commands(events[..n]), Commands(events);
      assert forall i | 0 <= i < |c0| :: c1[i] == c0[i];
      ReplayRunning(d, events[..n], r);
      WonGrows(events, Wifi);
      if Won(events[..n], Wifi) && events[n].Executed? {
        WonIsCommand(events[..n], Wifi);
      }
    }
  }

  lemma {:induction false} WonIsCommand(events: seq<Event>, kind: Kind)
    requires Won(events, kind)
    ensures exists i :: 0 <= i < |Commands(events)| && KindOf(Commands(events)[i]) == kind
    decreases |events|
  {
    var n := |events| - 1;
    WonGrows(events, kind);
    if Won(events[..n], kind) {
      WonIsCommand(events[..n], kind);
      var i :| 0 <= i < |Commands(events[..n])| && KindOf(Commands(events[..n])[i]) == kind;
      assert Commands(events)[i] == Commands(events[..n])[i];
    } else {
      assert Commands(events)[|Commands(events)| - 1] == events[n].command;
    }
  }

  ghost predicate Issued(commands: seq<Command>, kind: Kind) {
    exists c :: c in commands && KindOf(c) == kind
  }

  /** The commands a connected push added to the log, and the events they are part of. */
  function Added(w0: Wire, w1: Wire): seq<Event> {
    if w0.events <= w1.events then w1.events[|w0.events|..] else []
  }

  /** The added commands, one by one. */
  lemma AddedHas(oracle: nat -> bool, plan: Plan, n: Node, w0: Wire) returns (added: seq<Event>, ok24: bool, ok5: bool)
    requires oracle(|w0.events|)
    ensures var w1 := Push(oracle, plan, n, w0).1;
            added == Added(w0, w1) && w1.device == Replay(w0.device, added)
    ensures Queries(added) == [Queried(Band24, ok24)] + (if ok24 then [Queried(Band5, ok5)] else [])
    ensures forall c | c != RestartWifi :: c in Commands(added) <==>
              || SystemCommand(c, n.row.settings, n.respondd)
              || (ok24 && Command24(c, plan, n.row.settings, n.respondd, RadioWith(w0.device, 'g')))
              || (ok24 && ok5 && Command5(c, plan, n.row.settings, n.respondd, RadioWith(w0.device, 'a')))
    ensures forall i | 0 <= i < |Commands(added)| - 1 :: !Commands(added)[i].RestartWifi?
  {
    ok24, ok5 := PushPlaysScript(oracle, plan, n, w0);
    added := Added(w0, Push(oracle, plan, n, w0).1);
    ScriptHas(plan, n.row.settings, n.respondd, w0.device, ok24, ok5);
  }

  /**
   * Field by field, under every pattern of failures: the command of a field is
   * issued exactly if the desired and the reported value differ, and afterwards
   * the device has the desired value if that command succeeded, else the old one.
   */
  lemma SystemFieldsAfterPush(oracle: nat -> bool, plan: Plan, n: Node, w0: Wire)
    requires oracle(|w0.events|)
    ensures var w1 := Push(oracle, plan, n, w0).1;
            var want, have, d0, d1, added := n.row.settings, n.respondd, w0.device, w1.device, Added(w0, w1);
            && (Issued(Commands(added), Hostname) <==> want.hostname != have.hostname)
            && (Issued(Commands(added), Contact) <==> want.owner != have.owner)
            && (Issued(Commands(added), Coordinates) <==> !LocationEqual(want.location, have.location))
            && d1.hostname == (if Won(added, Hostname) then want.hostname else d0.hostname)
            && d1.contact == (if Won(added, Contact) then want.owner else d0.contact)
            && (d1.latitude, d1.longitude, d1.shareLocation) ==
               (if Won(added, Coordinates) then (Format6(want.location.latitude), Format6(want.location.longitude), true)
                else (d0.latitude, d0.longitude, d0.shareLocation))
            && d1.altitude == d0.altitude
  {
    var want, have := n.row.settings, n.respondd;
    var added, ok24, ok5 := AddedHas(oracle, plan, n, w0);
    SystemIssues(Commands(added), want, have);
    ReplaySystem(w0.device, added, want.hostname, want.owner, Format6(want.location.latitude), Format6(want.location.longitude));
    ReplayKeepsRadios(w0.device, added);
  }

  lemma SystemIssues(commands: seq<Command>, want: Settings, have: Settings)
    requires forall c | c != RestartWifi && !AboutRadio(c) :: c in commands <==> SystemCommand(c, want, have)
    ensures Issued(commands, Hostname) <==> want.hostname != have.hostname
    ensures Issued(commands, Contact) <==> want.owner != have.owner
    ensures Issued(commands, Coordinates) <==> !LocationEqual(want.location, have.location)
    ensures forall c | c in commands ::
              && (c.SetHostname? ==> c.hostname == want.hostname)
              && (c.SetContact? ==> c.contact == want.owner)
              && (c.SetLocation? ==> c.latitude == Format6(want.location.latitude) && c.longitude == Format6(want.location.longitude))
  {
    var location := SetLocation(Format6(want.location.latitude), Format6(want.location.longitude));
    IssuedIfDue(commands, SetHostname(want.hostname), want.hostname != have.hostname);
    IssuedIfDue(commands, SetContact(want.owner), want.owner != have.owner);
    IssuedIfDue(commands, location, !LocationEqual(want.location, have.location));
  }

  lemma IssuedIfDue(commands: seq<Command>, command: Command, due: bool)
    requires forall c | KindOf(c) == KindOf(command) :: c in commands <==> c == command && due
    ensures Issued(commands, KindOf(command)) <==> due
  {
    assert due ==> command in commands;
  }

  /** The fields of one radio after a push. */
  ghost predicate RadioFieldsFit(added: seq<Event>, r: RadioName, before: Radio, after: Radio, tx: nat, ch: nat, hostname: string) {
    && after.txPower == (if Won(added, TxPower(r)) then tx else before.txPower)
    && after.channel == (if Won(added, ChannelNumber(r)) then ch else before.channel)
    && after.privSsid == (if Won(added, Ssid(r)) then "offline-" + hostname else before.privSsid)
    && after.running == (if Won(added, Wifi) then after.channel else before.running)
    && after.hwmode == before.hwmode
  }

  ghost predicate RadioIssues(commands: seq<Command>, r: RadioName, asked: bool, usable: bool, tx: bool, ch: bool, rename: bool) {
    && (Issued(commands, TxPower(r)) <==> asked && usable && tx)
    && (Issued(commands, ChannelNumber(r)) <==> asked && usable && ch)
    && (Issued(commands, Ssid(r)) <==> asked && rename)
  }

  /**
   * The same for the radio of each band: its commands are issued exactly if its
   * query was answered, the desired channel may be used (but for the SSID) and
   * the values differ, whatever became of earlier commands. Its running channel
   * changes with a successful restart only. The two bands are taken to have
   * different radios.
   */
  lemma RadioFieldsAfterPush(oracle: nat -> bool, plan: Plan, n: Node, w0: Wire) returns (ok24: bool, ok5: bool)
    requires oracle(|w0.events|)
    requires RadioWith(w0.device, 'g') != RadioWith(w0.device, 'a') || RadioWith(w0.device, 'g') == None
    ensures var w1 := Push(oracle, plan, n, w0).1;
            var want, have, d0, d1, added := n.row.settings, n.respondd, w0.device, w1.device, Added(w0, w1);
            var r24, r5 := RadioWith(d0, 'g'), RadioWith(d0, 'a');
            && Queries(added) == [Queried(Band24, ok24)] + (if ok24 then [Queried(Band5, ok5)] else [])
            && d1.radios.Keys == d0.radios.Keys
            && (r24.Some? ==>
                  && RadioFieldsFit(added, r24.value, d0.radios[r24.value], d1.radios[r24.value],
                                    want.wireless.txPower24, want.wireless.channel24, want.hostname)
                  && RadioIssues(Commands(added), r24.value, ok24, MayUse(plan, want.wireless.channel24),
                                 want.wireless.txPower24 != have.wireless.txPower24,
                                 want.wireless.channel24 != have.wireless.channel24, want.hostname != have.hostname))
            && (r5.Some? ==>
                  && RadioFieldsFit(added, r5.value, d0.radios[r5.value], d1.radios[r5.value],
                                    want.wireless.txPower5, want.wireless.channel5, want.hostname)
                  && RadioIssues(Commands(added), r5.value, ok24 && ok5, MayUse(plan, want.wireless.channel5),
                                 want.wireless.txPower5 != have.wireless.txPower5,
                                 want.wireless.channel5 != have.wireless.channel5, want.hostname != have.hostname))
  {
    var want, have, d0 := n.row.settings, n.respondd, w0.device;
    var added;
    added, ok24, ok5 := AddedHas(oracle, plan, n, w0);
    var r24, r5 := RadioWith(d0, 'g'), RadioWith(d0, 'a');
    ReplayKeepsRadios(d0, added);
    OwnCommands(Commands(added), plan, want, have, r24, r5, ok24, ok5);
    if r24.Some? {
      RadioOf(d0, added, r24.value, ok24, MayUse(plan, want.wireless.channel24), want.wireless.channel24, have.wireless.channel24,
              want.wireless.txPower24, have.wireless.txPower24, want, have);
    }
    if r5.Some? {
      RadioOf(d0, added, r5.value, ok24 && ok5, MayUse(plan, want.wireless.channel5), want.wireless.channel5, have.wireless.channel5,
              want.wireless.txPower5, have.wireless.txPower5, want, have);
    }
  }

  predicate About(c: Command, r: RadioName) {
    KindOf(c) == TxPower(r) || KindOf(c) == ChannelNumber(r) || KindOf(c) == Ssid(r)
  }

  /** With a radio per band, only the commands of its own band are about a radio. */
  lemma OwnCommands(commands: seq<Command>, plan: Plan, want: Settings, have: Settings,
                    r24: Option<RadioName>, r5: Option<RadioName>, ok24: bool, ok5: bool)
    requires r24 != r5 || r24 == None
    requires forall c | c != RestartWifi :: c in commands <==>
               || SystemCommand(c, want, have)
               || (ok24 && Command24(c, plan, want, have, r24))
               || (ok24 && ok5 && Command5(c, plan, want, have, r5))
    ensures r24.Some? ==> forall c | About(c, r24.value) :: c in commands <==> ok24 && Command24(c, plan, want, have, r24)
    ensures r5.Some? ==> forall c | About(c, r5.value) :: c in commands <==> ok24 && ok5 && Command5(c, plan, want, have, r5)
  {
    forall c
      ensures r24.Some? && About(c, r24.value) ==> !SystemCommand(c, want, have) && !Command5(c, plan, want, have, r5)
      ensures r5.Some? && About(c, r5.value) ==> !SystemCommand(c, want, have) && !Command24(c, plan, want, have, r24)
    {
    }
  }

  lemma RadioOf(d: Device, added: seq<Event>, r: RadioName, asked: bool, usable: bool, ch: nat, haveCh: nat, tx: nat, haveTx: nat,
                want: Settings, have: Settings)
    requires r in d.radios
    requires forall c | About(c, r) :: c in Commands(added) <==> asked && BandCommand(c, Some(r), usable, ch, haveCh, tx, haveTx, Rename(want, have))
    requires forall i | 0 <= i < |Commands(added)| - 1 :: !Commands(added)[i].RestartWifi?
    ensures var d1 := Replay(d, added); r in d1.radios && RadioFieldsFit(added, r, d.radios[r], d1.radios[r], tx, ch, want.hostname)
    ensures RadioIssues(Commands(added), r, asked, usable, tx != haveTx, ch != haveCh, want.hostname != have.hostname)
  {
    var commands := Commands(added);
    var ssid := "offline-" + want.hostname;
    assert asked && usable && tx != haveTx ==> About(SetTxPower(r, tx), r) && SetTxPower(r, tx) in commands;
    assert asked && usable && ch != haveCh ==> About(SetChannel(r, ch), r) && SetChannel(r, ch) in commands;
    assert asked && want.hostname != have.hostname ==> About(SetPrivSsid(r, ssid), r) && SetPrivSsid(r, ssid) in commands;
    assert forall c | c in commands && About(c, r) :: c == SetTxPower(r, tx) || c == SetChannel(r, ch) || c == SetPrivSsid(r, ssid);
    RadioFits(d, added, r, tx, ch, want.hostname);
  }

  lemma RadioFits(d: Device, added: seq<Event>, r: RadioName, tx: nat, ch: nat, hostname: string)
    requires r in d.radios
    requires forall c | c in Commands(added) && About(c, r) ::
               c == SetTxPower(r, tx) || c == SetChannel(r, ch) || c == SetPrivSsid(r, "offline-" + hostname)
    requires forall i | 0 <= i < |Commands(added)| - 1 :: !Commands(added)[i].RestartWifi?
    ensures var d1 := Replay(d, added); r in d1.radios && RadioFieldsFit(added, r, d.radios[r], d1.radios[r], tx, ch, hostname)
  {
    ReplayRadio(d, added, r, tx, ch, "offline-" + hostname);
    ReplayRunning(d, added, r);
    ReplayKeepsRadios(d, added);
  }
}
