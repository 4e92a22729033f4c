/**
 * Desired-state reconciliation as a whole: what repeated reports and pushes do
 * to a device, when every command succeeds and when any of them may fail
 * (runtime/yanic.go, runtime/node_ssh.go, runtime/node.go together).
 */
module Convergence {
  import opened Common
  import opened Channels
  import opened Floats
  import opened Nodes
  import opened Ssh
  import opened Server

  // ----- what a device shows of itself

  /** Each radio serves one band, and no band has two. */
  ghost predicate OneRadioPerBand(d: Device) {
    && (forall r | r in d.radios :: Serves(d.radios[r], Band24) <==> !Serves(d.radios[r], Band5))
    && (Radio0 in d.radios && Radio1 in d.radios ==>
          (Serves(d.radios[Radio0], Band24) <==> !Serves(d.radios[Radio1], Band24)))
  }

  predicate InBand(plan: Plan, ch: nat, band: Band) {
    ch in plan.list && BandOf(plan.list[ch]) == band
  }

  /** A radio set to a channel outside its own band does not come up. */
  predicate Operates(plan: Plan, radio: Radio) {
    radio.running in plan.list && Serves(radio, BandOf(plan.list[radio.running]))
  }

  ghost predicate FaithfulAirtime(plan: Plan, d: Device, freqs: seq<nat>) {
    forall f :: f in freqs <==>
      exists r :: r in d.radios && Operates(plan, d.radios[r]) && plan.list[d.radios[r].running].frequency == f
  }

  function TxPowerOf(d: Device, band: Band): nat {
    var r := Detect(d, band);
    if r.Some? then d.radios[r.value].txPower else 0
  }

  /** The channel of a band as a report shows it: a permitted channel of that band, or zero. */
  function ChannelOf(plan: Plan, d: Device, band: Band): nat {
    var r := Detect(d, band);
    if r.Some? && InBand(plan, d.radios[r.value].running, band) && plan.Permitted(d.radios[r.value].running)
    then d.radios[r.value].running else 0
  }

  ghost function Observe(plan: Plan, parse: string -> Float, d: Device): Settings {
    Settings(d.hostname, d.contact, Location(parse(d.latitude), parse(d.longitude), d.altitude),
             Wireless(TxPowerOf(d, Band24), ChannelOf(plan, d, Band24), TxPowerOf(d, Band5), ChannelOf(plan, d, Band5)))
  }

  /** A full report that tells the truth about device d. */
  ghost predicate FaithfulReport(plan: Plan, parse: string -> Float, d: Device, id: string, report: Report) {
    && report.nodeinfo.Some? && report.statistics.Some?
    && var info := report.nodeinfo.value;
    && info.nodeId == id
    && info.hostname == d.hostname
    && info.owner == Some(d.contact)
    && info.location == Some(Location(parse(d.latitude), parse(d.longitude), d.altitude))
    && info.wireless == Some(TxPowers(TxPowerOf(d, Band24), TxPowerOf(d, Band5)))
    && FaithfulAirtime(plan, d, report.statistics.value.frequencies)
  }

  lemma DetectUnique(d: Device, band: Band, r: RadioName)
    requires OneRadioPerBand(d) && r in d.radios && Serves(d.radios[r], band)
    ensures Detect(d, band) == Some(r)
  {
    match band {
      case Band24 =>
      case Band5 =>
    }
  }

  lemma FaithfulChannel(plan: Plan, d: Device, freqs: seq<nat>, band: Band)
    requires plan.Valid() && OneRadioPerBand(d) && FaithfulAirtime(plan, d, freqs)
    ensures plan.Folded(freqs, band) == ChannelOf(plan, d, band)
  {
    var ch := plan.Folded(freqs, band);
    FoldedIsLastPermitted(plan, freqs, band, ch);
    if ch != 0 {
      var i :| LastAt(plan, freqs, band, ch, i);
      assert freqs[i] in freqs;
      var r :| r in d.radios && Operates(plan, d.radios[r]) && plan.list[d.radios[r].running].frequency == freqs[i];
      assert d.radios[r].running == ch;
      DetectUnique(d, band, r);
    } else if ChannelOf(plan, d, band) != 0 {
      var r := Detect(d, band).value;
      var f := plan.list[d.radios[r].running].frequency;
      assert Operates(plan, d.radios[r]);
      assert f in freqs;
      var i :| 0 <= i < |freqs| && freqs[i] == f;
      assert plan.Contributes(freqs[i], band, d.radios[r].running);
    }
  }

  /** Overlaying a faithful report on a stored row shows exactly what the device observes of itself. */
  lemma FaithfulOverlay(config: Config, parse: string -> Float, d: Device, id: string, row: Row, report: Report, now: int)
    requires config.plan.Valid() && OneRadioPerBand(d) && FaithfulReport(config.plan, parse, d, id, report)
    ensures Updated(config, Load(id, row), report, now).respondd == Observe(config.plan, parse, d)
  {
    FaithfulChannel(config.plan, d, report.statistics.value.frequencies, Band24);
    FaithfulChannel(config.plan, d, report.statistics.value.frequencies, Band5);
  }

  /** The device reads the desired coordinates back as they were printed. */
  ghost predicate ReadsLocation(parse: string -> Float, want: Settings) {
    ReadsBack(parse, want.location.latitude) && ReadsBack(parse, want.location.longitude)
  }

  // ----- which fields disagree

  datatype Field = HostnameField | OwnerField | LocationField | ChannelField(band: Band) | TxPowerField(band: Band)

  const FIELDS: set<Field> := {
    HostnameField, OwnerField, LocationField,
    ChannelField(Band24), ChannelField(Band5), TxPowerField(Band24), TxPowerField(Band5)
  }

  predicate Agrees(f: Field, want: Settings, have: Settings) {
    match f
    case HostnameField => want.hostname == have.hostname
    case OwnerField => want.owner == have.owner
    case LocationField => LocationEqual(want.location, have.location)
    case ChannelField(band) => want.wireless.Channel(band) == have.wireless.Channel(band)
    case TxPowerField(band) => want.wireless.TxPower(band) == have.wireless.TxPower(band)
  }

  function OutOfSync(want: Settings, have: Settings): set<Field> {
    set f | f in FIELDS && !Agrees(f, want, have)
  }

  lemma EveryField(f: Field)
    ensures f in FIELDS
  {
    match f
    case ChannelField(band) => assert band == Band24 || band == Band5;
    case TxPowerField(band) => assert band == Band24 || band == Band5;
    case _ =>
  }

  lemma InSyncIffNothingOut(want: Settings, have: Settings)
    ensures CheckRespondd(want, have) <==> OutOfSync(want, have) == {}
  {
    if OutOfSync(want, have) == {} {
      forall f | f in FIELDS
        ensures Agrees(f, want, have)
      {
        assert f !in OutOfSync(want, have);
      }
      assert Agrees(HostnameField, want, have) && Agrees(OwnerField, want, have) && Agrees(LocationField, want, have);
      assert Agrees(ChannelField(Band24), want, have) && Agrees(ChannelField(Band5), want, have);
      assert Agrees(TxPowerField(Band24), want, have) && Agrees(TxPowerField(Band5), want, have);
    }
  }

  // ----- what no push can mend

  predicate Pushable(plan: Plan, want: Settings, d: Device, band: Band) {
    Detect(d, band).Some? && plan.Permitted(want.wireless.Channel(band))
  }

  /** The fields no push can bring into sync; which ones these are depends on the device only. */
  function Remaining(plan: Plan, want: Settings, d: Device): set<Field> {
    set f | f in FIELDS && StaysOut(plan, want, d, f)
  }

  predicate StaysOut(plan: Plan, want: Settings, d: Device, f: Field) {
    match f
    case HostnameField => false
    case OwnerField => false
    case LocationField => !IeeeEqual(want.location.altitude, d.altitude)
    case ChannelField(band) =>
      if Pushable(plan, want, d, band) then !InBand(plan, want.wireless.Channel(band), band)
      else want.wireless.Channel(band) != ChannelOf(plan, d, band)
    case TxPowerField(band) =>
      !Pushable(plan, want, d, band) && want.wireless.TxPower(band) != TxPowerOf(d, band)
  }

  // ----- progress under failure

  /** Every radio is configured for the channel it runs on, or for a desired channel that may be pushed. */
  ghost predicate Coherent(plan: Plan, want: Settings, d: Device) {
    CoherentAt(plan, want, d, Band24) && CoherentAt(plan, want, d, Band5)
  }

  ghost predicate CoherentAt(plan: Plan, want: Settings, d: Device, band: Band) {
    Detect(d, band).Some? ==>
      var radio := d.radios[Detect(d, band).value];
      || radio.channel == radio.running
      || (radio.channel == want.wireless.Channel(band) && plan.Permitted(radio.channel))
  }

  /** Every band that may be pushed shows the desired channel, so no push touches a channel. */
  ghost predicate Calm(plan: Plan, want: Settings, d: Device) {
    forall band :: Pushable(plan, want, d, band) ==> want.wireless.Channel(band) == ChannelOf(plan, d, band)
  }

  ghost predicate Steady(plan: Plan, want: Settings, d: Device) {
    Coherent(plan, want, d) || Calm(plan, want, d)
  }

  predicate LeavesChannels(command: Command) {
    !command.SetChannel? && !command.RestartWifi?
  }

  /** A command that only ever moves the device towards the desired settings. */
  ghost predicate Directed(plan: Plan, want: Settings, d: Device, command: Command) {
    match command
    case SetHostname(h) => h == want.hostname
    case SetContact(c) => c == want.owner
    case SetLocation(lat, lon) => lat == Format6(want.location.latitude) && lon == Format6(want.location.longitude)
    case SetTxPower(r, p) => forall band | Detect(d, band) == Some(r) :: p == want.wireless.TxPower(band) && plan.Permitted(want.wireless.Channel(band))
    case SetChannel(r, c) => forall band | Detect(d, band) == Some(r) :: c == want.wireless.Channel(band) && plan.Permitted(c)
    case _ => true
  }

  /** What failing rounds may do to a device: the radios stay the same ones, nothing falls out of sync. */
  ghost predicate Towards(plan: Plan, parse: string -> Float, want: Settings, d0: Device, d1: Device) {
    && OneRadioPerBand(d1) && (Coherent(plan, want, d0) ==> Coherent(plan, want, d1))
    && (forall band :: Detect(d1, band) == Detect(d0, band))
    && OutOfSync(want, Observe(plan, parse, d1)) <= OutOfSync(want, Observe(plan, parse, d0))
    && Remaining(plan, want, d1) == Remaining(plan, want, d0)
  }

  lemma HwmodesDecide(d0: Device, d1: Device)
    requires OneRadioPerBand(d0) && d1.radios.Keys == d0.radios.Keys
    requires forall q | q in d0.radios :: d1.radios[q].hwmode == d0.radios[q].hwmode
    ensures OneRadioPerBand(d1)
    ensures forall band :: Detect(d1, band) == Detect(d0, band)
    ensures Detect(d0, Band24).Some? ==> Detect(d0, Band24) != Detect(d0, Band5)
  {
    assert forall r, band | r in d0.radios :: Serves(d1.radios[r], band) == Serves(d0.radios[r], band);
  }

  /** Radio queries only look at the hwmodes, and no command changes those. */
  lemma RadiosStay(d: Device, command: Command)
    requires OneRadioPerBand(d)
    ensures OneRadioPerBand(Apply(d, command))
    ensures forall band :: Detect(Apply(d, command), band) == Detect(d, band)
  {
    HwmodesDecide(d, Apply(d, command));
  }

  /** What one directed command may do to the radio of a band. */
  lemma DirectedRadio(plan: Plan, want: Settings, d: Device, command: Command, band: Band)
    requires OneRadioPerBand(d) && Detect(d, band).Some? && Directed(plan, want, d, command)
    ensures var r, d' := Detect(d, band).value, Apply(d, command);
            && Detect(d', band) == Some(r)
            && var radio, radio' := d.radios[r], d'.radios[r];
            && radio'.running in {radio.running, radio.channel}
            && (radio'.running != radio.running ==> radio'.channel == radio.channel)
            && (radio'.channel != radio.channel ==>
                  radio'.channel == want.wireless.Channel(band) && plan.Permitted(radio'.channel))
            && (radio'.txPower != radio.txPower ==>
                  radio'.txPower == want.wireless.TxPower(band) && plan.Permitted(want.wireless.Channel(band)))
            && (radio'.running != radio.running ==> radio'.running == radio.channel)
  {
    RadiosStay(d, command);
    var r := Detect(d, band).value;
    assert Apply(d, command).radios[r] == ApplyToRadio(r, d.radios[r], command);
  }

  /** A directed command does not move the channel or tx power of a band out of sync. */
  lemma DirectedBand(plan: Plan, want: Settings, d: Device, command: Command, band: Band)
    requires plan.Valid()
    requires OneRadioPerBand(d) && (CoherentAt(plan, want, d, band) || LeavesChannels(command)) && Directed(plan, want, d, command)
    ensures var d' := Apply(d, command);
            && (CoherentAt(plan, want, d, band) ==> CoherentAt(plan, want, d', band))
            && (want.wireless.Channel(band) == ChannelOf(plan, d, band) ==> ChannelOf(plan, d', band) == want.wireless.Channel(band))
            && (want.wireless.TxPower(band) == TxPowerOf(d, band) ==> TxPowerOf(d', band) == want.wireless.TxPower(band))
            && (!Pushable(plan, want, d, band) ==>
                  ChannelOf(plan, d', band) == ChannelOf(plan, d, band) && TxPowerOf(d', band) == TxPowerOf(d, band))
  {
    if Detect(d, band).Some? {
      DirectedRadio(plan, want, d, command, band);
    } else {
      RadiosStay(d, command);
    }
  }

  /** One directed command, applied or lost, keeps everything that already agreed. */
  lemma DirectedStep(plan: Plan, parse: string -> Float, want: Settings, d: Device, command: Command)
    requires plan.Valid() && ReadsLocation(parse, want)
    requires OneRadioPerBand(d) && (Coherent(plan, want, d) || LeavesChannels(command)) && Directed(plan, want, d, command)
    ensures Towards(plan, parse, want, d, Apply(d, command))
  {
    RadiosStay(d, command);
    DirectedBand(plan, want, d, command, Band24);
    DirectedBand(plan, want, d, command, Band5);
    forall f | f in FIELDS
      ensures Agrees(f, want, Observe(plan, parse, d)) ==> Agrees(f, want, Observe(plan, parse, Apply(d, command)))
    {
      DirectedField(plan, parse, want, d, command, f);
    }
    DirectedRemaining(plan, want, d, command);
  }

  lemma DirectedField(plan: Plan, parse: string -> Float, want: Settings, d: Device, command: Command, f: Field)
    requires plan.Valid() && ReadsLocation(parse, want)
    requires OneRadioPerBand(d) && (Coherent(plan, want, d) || LeavesChannels(command)) && Directed(plan, want, d, command)
    ensures Agrees(f, want, Observe(plan, parse, d)) ==> Agrees(f, want, Observe(plan, parse, Apply(d, command)))
  {
    if f.ChannelField? || f.TxPowerField? {
      DirectedBand(plan, want, d, command, f.band);
      assert f.band == Band24 || f.band == Band5;
    } else if f.LocationField? {
      DirectedLocation(plan, parse, want, d, command);
    }
  }

  lemma DirectedLocation(plan: Plan, parse: string -> Float, want: Settings, d: Device, command: Command)
    requires ReadsLocation(parse, want) && Directed(plan, want, d, command)
    ensures var h, h' := Observe(plan, parse, d).location, Observe(plan, parse, Apply(d, command)).location;
            h'.altitude == h.altitude && (LocationEqual(want.location, h) ==> LocationEqual(want.location, h'))
  {
    if command.SetLocation? {
      LocationRoundTrip(parse, want.location.latitude);
      LocationRoundTrip(parse, want.location.longitude);
    }
  }

  lemma DirectedRemaining(plan: Plan, want: Settings, d: Device, command: Command)
    requires plan.Valid()
    requires OneRadioPerBand(d) && (Coherent(plan, want, d) || LeavesChannels(command)) && Directed(plan, want, d, command)
    ensures Remaining(plan, want, Apply(d, command)) == Remaining(plan, want, d)
  {
    RadiosStay(d, command);
    DirectedBand(plan, want, d, command, Band24);
    DirectedBand(plan, want, d, command, Band5);
    forall f | f in FIELDS
      ensures StaysOut(plan, want, Apply(d, command), f) <==> StaysOut(plan, want, d, f)
    {
      match f
      case ChannelField(band) => assert band == Band24 || band == Band5;
      case TxPowerField(band) => assert band == Band24 || band == Band5;
      case _ =>
    }
  }

  lemma TowardsTransitive(plan: Plan, parse: string -> Float, want: Settings, d0: Device, d1: Device, d2: Device)
    requires Towards(plan, parse, want, d0, d1) && Towards(plan, parse, want, d1, d2)
    ensures Towards(plan, parse, want, d0, d2)
  {
  }

  lemma ExecTowards(oracle: nat -> bool, plan: Plan, parse: string -> Float, want: Settings, d0: Device, w: Wire, condition: bool, command: Command)
    requires plan.Valid() && ReadsLocation(parse, want) && Towards(plan, parse, want, d0, w.device)
    requires condition ==> Directed(plan, want, w.device, command) && (Coherent(plan, want, d0) || LeavesChannels(command))
    ensures Towards(plan, parse, want, d0, ExecIf(oracle, w, condition, command).device)
  {
    if condition && oracle(|w.events|) {
      DirectedStep(plan, parse, want, w.device, command);
      TowardsTransitive(plan, parse, want, d0, w.device, Apply(w.device, command));
    }
  }

  lemma PushRadioTowards(oracle: nat -> bool, plan: Plan, parse: string -> Float, n: Node, d0: Device, band: Band, w0: Wire)
    requires plan.Valid() && ReadsLocation(parse, n.row.settings) && Towards(plan, parse, n.row.settings, d0, w0.device)
    requires Coherent(plan, n.row.settings, d0) || !PushesChannel(plan, n, band, Detect(w0.device, band))
    ensures Towards(plan, parse, n.row.settings, d0,
                    PushRadio(oracle, plan, n, band, Detect(w0.device, band), w0).device)
  {
    var want := n.row.settings;
    var radio := Detect(w0.device, band);
    HwmodesDecide(w0.device, w0.device);
    if radio.Some? {
      var tx, ch := PushesTxPower(plan, n, band), PushesChannel(plan, n, band, radio);
      var w1 := ExecIf(oracle, w0, tx, SetTxPower(radio.value, want.wireless.TxPower(band)));
      ExecTowards(oracle, plan, parse, want, d0, w0, tx, SetTxPower(radio.value, want.wireless.TxPower(band)));
      var w2 := ExecIf(oracle, w1, ch, SetChannel(radio.value, want.wireless.Channel(band)));
      ExecTowards(oracle, plan, parse, want, d0, w1, ch, SetChannel(radio.value, want.wireless.Channel(band)));
      ExecTowards(oracle, plan, parse, want, d0, w2, want.hostname != n.respondd.hostname,
                  SetPrivSsid(radio.value, "offline-" + want.hostname));
    }
  }

  lemma PushBandTowards(oracle: nat -> bool, plan: Plan, parse: string -> Float, n: Node, d0: Device, band: Band, w0: Wire)
    requires plan.Valid() && ReadsLocation(parse, n.row.settings) && Towards(plan, parse, n.row.settings, d0, w0.device)
    requires Coherent(plan, n.row.settings, d0) || !PushesChannel(plan, n, band, Detect(w0.device, band))
    ensures Towards(plan, parse, n.row.settings, d0, PushBand(oracle, plan, n, band, w0).1.device)
  {
    if oracle(|w0.events|) {
      PushRadioTowards(oracle, plan, parse, n, d0, band, Emit(w0, Queried(band, true)));
    }
  }

  lemma PushSystemTowards(oracle: nat -> bool, plan: Plan, parse: string -> Float, n: Node, d0: Device, w0: Wire)
    requires plan.Valid() && ReadsLocation(parse, n.row.settings) && Towards(plan, parse, n.row.settings, d0, w0.device)
    ensures Towards(plan, parse, n.row.settings, d0, PushSystem(oracle, n, w0).device)
  {
    var want, have := n.row.settings, n.respondd;
    var w1 := ExecIf(oracle, w0, want.hostname != have.hostname, SetHostname(want.hostname));
    var w2 := ExecIf(oracle, w1, want.owner != have.owner, SetContact(want.owner));
    ExecTowards(oracle, plan, parse, want, d0, w0, want.hostname != have.hostname, SetHostname(want.hostname));
    ExecTowards(oracle, plan, parse, want, d0, w1, want.owner != have.owner, SetContact(want.owner));
    ExecTowards(oracle, plan, parse, want, d0, w2, !LocationEqual(want.location, have.location),
                SetLocation(Format6(want.location.latitude), Format6(want.location.longitude)));
  }

  /**
   * Whatever commands fail, and whatever was believed about the device, a push
   * never loses ground, if the device is coherent or no channel is pushed.
   */
  lemma PushTowards(oracle: nat -> bool, plan: Plan, parse: string -> Float, n: Node, w0: Wire)
    requires plan.Valid() && ReadsLocation(parse, n.row.settings)
    requires OneRadioPerBand(w0.device)
    requires Coherent(plan, n.row.settings, w0.device) || forall band :: !PushesChannel(plan, n, band, Detect(w0.device, band))
    ensures Towards(plan, parse, n.row.settings, w0.device, Push(oracle, plan, n, w0).1.device)
  {
    var want, d0 := n.row.settings, w0.device;
    var w1 := Emit(w0, Connected(oracle(|w0.events|)));
    if oracle(|w0.events|) {
      var w2 := PushSystem(oracle, n, w1);
      PushSystemTowards(oracle, plan, parse, n, d0, w1);
      var (wifi24, w3) := PushBand(oracle, plan, n, Band24, w2);
      PushBandTowards(oracle, plan, parse, n, d0, Band24, w2);
      if wifi24.Some? {
        var (wifi5, w4) := PushBand(oracle, plan, n, Band5, w3);
        PushBandTowards(oracle, plan, parse, n, d0, Band5, w3);
        ExecTowards(oracle, plan, parse, want, d0, w4, wifi24.value || wifi5 == Some(true), RestartWifi);
      } else {
        ExecTowards(oracle, plan, parse, want, d0, w3, false, RestartWifi);
      }
    }
  }

  // ----- a push in which every command succeeds

  /** Longest possible push: connect, three system commands, two queries, six radio commands, `wifi`, close. */
  const MAX_EVENTS: nat := 14

  /** Every event up to, but not including, number `to` succeeds. */
  ghost predicate Succeeds(oracle: nat -> bool, from: nat, to: nat) {
    forall k | from <= k < to :: oracle(k)
  }

  /** The radio of a band after the radio part of a round in which every command succeeds, before `wifi`. */
  ghost function RadioPushed(plan: Plan, n: Node, band: Band, name: RadioName, radio: Radio): Radio {
    var want := n.row.settings.wireless;
    radio.(
    channel := if PushesChannel(plan, n, band, Some(name)) then want.Channel(band) else radio.channel,
    txPower := if PushesTxPower(plan, n, band) then want.TxPower(band) else radio.txPower,
    privSsid := if n.row.settings.hostname != n.respondd.hostname then "offline-" + n.row.settings.hostname else radio.privSsid)
  }

  lemma RadioAfter(oracle: nat -> bool, plan: Plan, n: Node, band: Band, w0: Wire)
    requires Succeeds(oracle, |w0.events|, |w0.events| + 4)
    ensures var d0, r := w0.device, Detect(w0.device, band);
            var (wifi, w1) := PushBand(oracle, plan, n, band, w0);
            && wifi == Some(PushesChannel(plan, n, band, r))
            && |w0.events| < |w1.events| <= |w0.events| + 4
            && w1.device == d0.(radios := w1.device.radios)
            && w1.device.radios.Keys == d0.radios.Keys
            && forall q | q in d0.radios ::
                 w1.device.radios[q] == if r == Some(q) then RadioPushed(plan, n, band, q, d0.radios[q]) else d0.radios[q]
  {
    var r := Detect(w0.device, band);
    assert oracle(|w0.events|);
    if r.Some? {
      RadioPart(oracle, plan, n, band, r.value, Emit(w0, Queried(band, true)));
    }
  }

  lemma RadioPart(oracle: nat -> bool, plan: Plan, n: Node, band: Band, name: RadioName, w0: Wire)
    requires Succeeds(oracle, |w0.events|, |w0.events| + 3)
    ensures var w1 := PushRadio(oracle, plan, n, band, Some(name), w0);
            && |w0.events| <= |w1.events| <= |w0.events| + 3
            && w1.device == w0.device.(radios := w1.device.radios)
            && w1.device.radios.Keys == w0.device.radios.Keys
            && forall q | q in w0.device.radios ::
                 w1.device.radios[q] ==
                 if q == name then RadioPushed(plan, n, band, q, w0.device.radios[q]) else w0.device.radios[q]
  {
    var want := n.row.settings;
    ThreeSucceed(oracle, w0,
                 PushesTxPower(plan, n, band), SetTxPower(name, want.wireless.TxPower(band)),
                 PushesChannel(plan, n, band, Some(name)), SetChannel(name, want.wireless.Channel(band)),
                 want.hostname != n.respondd.hostname, SetPrivSsid(name, "offline-" + want.hostname));
  }

  function ApplyIf(name: RadioName, radio: Radio, condition: bool, command: Command): Radio {
    if condition then ApplyToRadio(name, radio, command) else radio
  }

  lemma ThreeSucceed(oracle: nat -> bool, w: Wire, b1: bool, c1: Command, b2: bool, c2: Command, b3: bool, c3: Command)
    requires Succeeds(oracle, |w.events|, |w.events| + 3)
    requires forall c | c in {c1, c2, c3} :: !c.SetHostname? && !c.SetContact? && !c.SetLocation?
    ensures var w1 := ExecIf(oracle, ExecIf(oracle, ExecIf(oracle, w, b1, c1), b2, c2), b3, c3);
            && |w.events| <= |w1.events| <= |w.events| + 3
            && w1.device == w.device.(radios := w1.device.radios)
            && w1.device.radios.Keys == w.device.radios.Keys
            && forall q | q in w.device.radios ::
                 w1.device.radios[q] == ApplyIf(q, ApplyIf(q, ApplyIf(q, w.device.radios[q], b1, c1), b2, c2), b3, c3)
  {
    ExecSucceeds(oracle, w, b1, c1);
    var w1 := ExecIf(oracle, w, b1, c1);
    ExecSucceeds(oracle, w1, b2, c2);
    ExecSucceeds(oracle, ExecIf(oracle, w1, b2, c2), b3, c3);
  }

  lemma ExecSucceeds(oracle: nat -> bool, w: Wire, condition: bool, command: Command)
    requires oracle(|w.events|)
    requires !command.SetHostname? && !command.SetContact? && !command.SetLocation?
    ensures var w1 := ExecIf(oracle, w, condition, command);
            && |w.events| <= |w1.events| <= |w.events| + 1
            && w1.device == w.device.(radios := w1.device.radios)
            && w1.device.radios.Keys == w.device.radios.Keys
            && forall q | q in w.device.radios ::
                 w1.device.radios[q] == ApplyIf(q, w.device.radios[q], condition, command)
  {
  }

  lemma SystemAfter(oracle: nat -> bool, parse: string -> Float, plan: Plan, n: Node, w0: Wire)
    requires ReadsLocation(parse, n.row.settings) && Succeeds(oracle, |w0.events|, |w0.events| + 3)
    requires n.respondd == Observe(plan, parse, w0.device)
    ensures var d0 := w0.device;
            var w1 := PushSystem(oracle, n, w0);
            var d1 := w1.device;
            var want := n.row.settings;
            && d1.radios == d0.radios && d1.altitude == d0.altitude
            && d1.hostname == want.hostname && d1.contact == want.owner
            && Format6(parse(d1.latitude)) == Format6(want.location.latitude)
            && Format6(parse(d1.longitude)) == Format6(want.location.longitude)
  {
    LocationRoundTrip(parse, n.row.settings.location.latitude);
    LocationRoundTrip(parse, n.row.settings.location.longitude);
  }

  /** The device after a push in which every command succeeds, said radio by radio. */
  lemma PushShape(oracle: nat -> bool, plan: Plan, parse: string -> Float, n: Node, w0: Wire) returns (wifi: bool)
    requires ReadsLocation(parse, n.row.settings) && Succeeds(oracle, |w0.events|, |w0.events| + MAX_EVENTS)
    requires OneRadioPerBand(w0.device)
    requires n.respondd == Observe(plan, parse, w0.device)
    ensures var (ok, w) := Push(oracle, plan, n, w0);
            var d0, d1, want := w0.device, w.device, n.row.settings;
            && ok
            && d1.altitude == d0.altitude && d1.hostname == want.hostname && d1.contact == want.owner
            && Format6(parse(d1.latitude)) == Format6(want.location.latitude)
            && Format6(parse(d1.longitude)) == Format6(want.location.longitude)
            && OneRadioPerBand(d1)
            && (forall band :: RadioShape(plan, n, d0, d1, band, wifi))
            && (wifi <==> exists band :: PushesChannel(plan, n, band, Detect(d0, band)))
  {
    SystemAfter(oracle, parse, plan, n, Emit(w0, Connected(true)));
    var w4 := PushUnfolds(oracle, plan, n, w0);
    wifi := PushesChannel(plan, n, Band24, Detect(w0.device, Band24)) || PushesChannel(plan, n, Band5, Detect(w0.device, Band5));
    RestartShape(oracle, plan, n, w0.device, w4, wifi);
  }

  /** The deferred restart lets every radio run on the channel it is configured for. */
  lemma RestartShape(oracle: nat -> bool, plan: Plan, n: Node, d0: Device, w4: Wire, wifi: bool)
    requires oracle(|w4.events|) && OneRadioPerBand(d0) && w4.device.radios.Keys == d0.radios.Keys
    requires wifi <==> PushesChannel(plan, n, Band24, Detect(d0, Band24)) || PushesChannel(plan, n, Band5, Detect(d0, Band5))
    requires forall q | q in d0.radios :: w4.device.radios[q].hwmode == d0.radios[q].hwmode
    requires forall band | Detect(d0, band).Some? ::
               var q := Detect(d0, band).value; w4.device.radios[q] == RadioPushed(plan, n, band, q, d0.radios[q])
    ensures var d1 := Finish(oracle, w4, wifi).device;
            && d1 == w4.device.(radios := d1.radios)
            && OneRadioPerBand(d1)
            && (forall band :: RadioShape(plan, n, d0, d1, band, wifi))
            && (wifi <==> exists band :: PushesChannel(plan, n, band, Detect(d0, band)))
  {
    ExecSucceeds(oracle, w4, wifi, RestartWifi);
    var d1 := Finish(oracle, w4, wifi).device;
    HwmodesDecide(d0, d1);
    forall band
      ensures RadioShape(plan, n, d0, d1, band, wifi)
      ensures PushesChannel(plan, n, band, Detect(d0, band)) ==> wifi
    {
      assert band == Band24 || band == Band5;
    }
  }

  /** With every command succeeding the push takes neither early return. */
  lemma PushUnfolds(oracle: nat -> bool, plan: Plan, n: Node, w0: Wire) returns (w4: Wire)
    requires Succeeds(oracle, |w0.events|, |w0.events| + MAX_EVENTS) && OneRadioPerBand(w0.device)
    ensures var w2 := PushSystem(oracle, n, Emit(w0, Connected(true)));
            var d0, d4 := w0.device, w4.device;
            && Push(oracle, plan, n, w0) ==
               (true, Finish(oracle, w4, PushesChannel(plan, n, Band24, Detect(d0, Band24)) || PushesChannel(plan, n, Band5, Detect(d0, Band5))))
            && |w0.events| <= |w4.events| <= |w0.events| + 12
            && d4 == w2.device.(radios := d4.radios) && d4.radios.Keys == d0.radios.Keys
            && (forall q | q in d0.radios :: d4.radios[q].hwmode == d0.radios[q].hwmode)
            && (forall band | Detect(d0, band).Some? ::
                  var q := Detect(d0, band).value; d4.radios[q] == RadioPushed(plan, n, band, q, d0.radios[q]))
  {
    assert oracle(|w0.events|);
    var w2 := PushSystem(oracle, n, Emit(w0, Connected(true)));
    SystemKeepsRadios(oracle, n, Emit(w0, Connected(true)));
    HwmodesDecide(w0.device, w2.device);
    BandsAfter(oracle, plan, n, w2);
    w4 := PushBand(oracle, plan, n, Band5, PushBand(oracle, plan, n, Band24, w2).1).1;
  }

  lemma SystemKeepsRadios(oracle: nat -> bool, n: Node, w0: Wire)
    ensures var w1 := PushSystem(oracle, n, w0);
            w1.device.radios == w0.device.radios && |w0.events| <= |w1.events| <= |w0.events| + 3
  {
    var want, have := n.row.settings, n.respondd;
    var w1 := ExecIf(oracle, w0, want.hostname != have.hostname, SetHostname(want.hostname));
    var w2 := ExecIf(oracle, w1, want.owner != have.owner, SetContact(want.owner));
    NoRadioTouched(oracle, w0, want.hostname != have.hostname, SetHostname(want.hostname));
    NoRadioTouched(oracle, w1, want.owner != have.owner, SetContact(want.owner));
    NoRadioTouched(oracle, w2, !LocationEqual(want.location, have.location),
                   SetLocation(Format6(want.location.latitude), Format6(want.location.longitude)));
  }

  lemma NoRadioTouched(oracle: nat -> bool, w: Wire, condition: bool, command: Command)
    requires command.SetHostname? || command.SetContact? || command.SetLocation?
    ensures var w1 := ExecIf(oracle, w, condition, command);
            w1.device.radios == w.device.radios && |w.events| <= |w1.events| <= |w.events| + 1
  {
    assert Apply(w.device, command).radios == w.device.radios;
  }

  /** Both radio parts of an all-successful round. */
  lemma BandsAfter(oracle: nat -> bool, plan: Plan, n: Node, w2: Wire)
    requires Succeeds(oracle, |w2.events|, |w2.events| + 8) && OneRadioPerBand(w2.device)
    ensures var (wifi24, w3) := PushBand(oracle, plan, n, Band24, w2);
            var (wifi5, w4) := PushBand(oracle, plan, n, Band5, w3);
            var d2, d4 := w2.device, w4.device;
            && wifi24 == Some(PushesChannel(plan, n, Band24, Detect(d2, Band24)))
            && wifi5 == Some(PushesChannel(plan, n, Band5, Detect(d2, Band5)))
            && |w2.events| < |w4.events| <= |w2.events| + 8
            && d4 == d2.(radios := d4.radios) && d4.radios.Keys == d2.radios.Keys
            && (forall q | q in d2.radios :: d4.radios[q].hwmode == d2.radios[q].hwmode)
            && (forall band | Detect(d2, band).Some? ::
                  var q := Detect(d2, band).value; d4.radios[q] == RadioPushed(plan, n, band, q, d2.radios[q]))
  {
    var (_, w3) := PushBand(oracle, plan, n, Band24, w2);
    RadioAfter(oracle, plan, n, Band24, w2);
    assert forall q | q in w2.device.radios :: w3.device.radios[q].hwmode == w2.device.radios[q].hwmode;
    HwmodesDecide(w2.device, w3.device);
    RadioAfter(oracle, plan, n, Band5, w3);
    var d4 := PushBand(oracle, plan, n, Band5, w3).1.device;
    forall band | Detect(w2.device, band).Some?
      ensures var q := Detect(w2.device, band).value; d4.radios[q] == RadioPushed(plan, n, band, q, w2.device.radios[q])
    {
      assert band == Band24 || band == Band5;
    }
  }

  ghost predicate RadioShape(plan: Plan, n: Node, d0: Device, d1: Device, band: Band, wifi: bool) {
    && Detect(d1, band) == Detect(d0, band)
    && (Detect(d0, band).Some? ==>
          var q := Detect(d0, band).value;
          var radio := RadioPushed(plan, n, band, q, d0.radios[q]);
          && (PushesChannel(plan, n, band, Some(q)) ==> wifi)
          && d1.radios[q] == if wifi then radio.(running := radio.channel) else radio)
  }

  /** The channel an all-successful round leaves visible on a band. */
  ghost function ChannelAfter(plan: Plan, want: Settings, d0: Device, band: Band): nat {
    var ch := want.wireless.Channel(band);
    if !Pushable(plan, want, d0, band) then ChannelOf(plan, d0, band)
    else if InBand(plan, ch, band) then ch
    else 0
  }

  lemma BandAfter(plan: Plan, n: Node, d0: Device, d1: Device, band: Band, wifi: bool)
    requires plan.Valid() && (CoherentAt(plan, n.row.settings, d0, band) || !wifi)
    requires n.respondd.wireless.Channel(band) == ChannelOf(plan, d0, band)
    requires n.respondd.wireless.TxPower(band) == TxPowerOf(d0, band)
    requires RadioShape(plan, n, d0, d1, band, wifi)
    ensures ChannelOf(plan, d1, band) == ChannelAfter(plan, n.row.settings, d0, band)
    ensures TxPowerOf(d1, band) ==
            if Pushable(plan, n.row.settings, d0, band) then n.row.settings.wireless.TxPower(band) else TxPowerOf(d0, band)
  {
  }

  /** The channels a truthful push of a calm device would touch are none. */
  lemma CalmPushesNothing(plan: Plan, parse: string -> Float, n: Node, d: Device)
    requires n.respondd == Observe(plan, parse, d) && Calm(plan, n.row.settings, d)
    ensures forall band :: !PushesChannel(plan, n, band, Detect(d, band))
  {
    forall band
      ensures !PushesChannel(plan, n, band, Detect(d, band))
    {
      assert band == Band24 || band == Band5;
      assert Pushable(plan, n.row.settings, d, band) ==> n.row.settings.wireless.Channel(band) == ChannelOf(plan, d, band);
    }
  }

  /** One all-successful push on a truthful observation leaves exactly `Remaining` out of sync. */
  lemma PushExactly(oracle: nat -> bool, plan: Plan, parse: string -> Float, n: Node, w0: Wire)
    requires plan.Valid() && ReadsLocation(parse, n.row.settings) && Succeeds(oracle, |w0.events|, |w0.events| + MAX_EVENTS)
    requires OneRadioPerBand(w0.device) && Steady(plan, n.row.settings, w0.device)
    requires n.respondd == Observe(plan, parse, w0.device)
    ensures var (ok, w) := Push(oracle, plan, n, w0);
            ok && OutOfSync(n.row.settings, Observe(plan, parse, w.device)) == Remaining(plan, n.row.settings, w0.device)
  {
    var d0, want := w0.device, n.row.settings;
    var wifi := PushShape(oracle, plan, parse, n, w0);
    var d1 := Push(oracle, plan, n, w0).1.device;
    if Calm(plan, want, d0) {
      CalmPushesNothing(plan, parse, n, d0);
    }
    var have' := Observe(plan, parse, d1);
    BandAfter(plan, n, d0, d1, Band24, wifi);
    BandAfter(plan, n, d0, d1, Band5, wifi);
    forall f | f in FIELDS
      ensures !Agrees(f, want, have') <==> f in Remaining(plan, want, d0)
    {
      match f
      case ChannelField(band) => assert band == Band24 || band == Band5;
      case TxPowerField(band) => assert band == Band24 || band == Band5;
      case _ =>
    }
  }

  // ----- whole rounds: a report arrives, the differences are pushed

  /** Whether the time filter lets this report through to the comparison. */
  ghost predicate Blocked(config: Config, row: Row, id: string, report: Report, clock: Clock) {
    TimeFilter(Updated(config, Load(id, row), report, clock.update).row, config.blacklistFor, clock.filter)
  }

  /** A faithful report of a known node either leaves the wire alone or is exactly one push of the stored settings. */
  lemma RoundEffect(config: Config, parse: string -> Float, oracle: nat -> bool, s: State, w: Wire, id: string, report: Report, clock: Clock)
    requires config.plan.Valid() && OneRadioPerBand(w.device)
    requires id in s.db && FaithfulReport(config.plan, parse, w.device, id, report)
    ensures var want, have := s.db[id].settings, Observe(config.plan, parse, w.device);
            var n := Updated(config, Load(id, s.db[id]), report, clock.update);
            var (s1, w1) := AfterReport(config, oracle, s, w, report, clock);
            && id in s1.db && s1.db[id].settings == want
            && n.row.settings == want && n.respondd == have
            && w1 == if Blocked(config, s.db[id], id, report, clock) || OutOfSync(want, have) == {} then w
                     else Push(oracle, config.plan, n, w).1
  {
    FaithfulOverlay(config, parse, w.device, id, s.db[id], report, clock.update);
    InSyncIffNothingOut(s.db[id].settings, Observe(config.plan, parse, w.device));
  }

  /** One handler of a run: a report of the node in question, or any handler that is not about this node. */
  datatype Round = Own(report: Report, clock: Clock) | Foreign(action: Action)

  ghost predicate Concerns(a: Action, id: string) {
    match a
    case ReportAction(report, _, _, _) => report.nodeinfo.Some? && report.nodeinfo.value.nodeId == id
    case EditAction(_, body, _, _, _) => body.Some? && body.value.nodeId == id
    case _ => false
  }

  /** States and wires of one node along a run of handlers, and what the run is played with. */
  datatype Trace = Trace(
    config: Config, parse: string -> Float, oracle: nat -> bool, id: string, want: Settings,
    states: seq<State>, wires: seq<Wire>, rounds: seq<Round>)
  {
    /** The fields that are out of sync after k rounds. */
    ghost function Out(k: nat): set<Field>
      requires k < |wires|
    {
      OutOfSync(want, Observe(config.plan, parse, wires[k].device))
    }

    ghost function Unmendable(k: nat): set<Field>
      requires k < |wires|
    {
      Remaining(config.plan, want, wires[k].device)
    }

    /** After k rounds the stored settings are the desired ones. */
    ghost predicate HoldsAt(k: nat) {
      && k < |states| == |wires|
      && id in states[k].db && states[k].db[id].settings == want
      && OneRadioPerBand(wires[k].device)
    }

    /** And the device fits them: no radio is left configured for some other channel that a push may bring up. */
    ghost predicate FitsAt(k: nat) {
      HoldsAt(k) && Steady(config.plan, want, wires[k].device)
    }

    /** Round k is a report of the node, true or not, or a handler about other nodes. */
    ghost predicate OccursAt(k: nat) {
      && k < |rounds| && |states| == |wires| == |rounds| + 1
      && match rounds[k]
         case Own(report, clock) =>
           && report.nodeinfo.Some? && report.nodeinfo.value.nodeId == id
           && AfterReport(config, oracle, states[k], wires[k], report, clock) == (states[k + 1], wires[k + 1])
         case Foreign(action) =>
           !Concerns(action, id) && states[k + 1] == Act(config, states[k], action) && wires[k + 1] == wires[k]
    }

    ghost predicate TruthfulAt(k: nat) {
      k < |rounds| && k < |wires| && (rounds[k].Own? ==> FaithfulReport(config.plan, parse, wires[k].device, id, rounds[k].report))
    }

    ghost predicate HappensAt(k: nat) {
      OccursAt(k) && TruthfulAt(k)
    }

    ghost predicate CoherentAfter(k: nat) {
      k < |wires| && Coherent(config.plan, want, wires[k].device)
    }

    /** A run in which the desired settings of the node are not edited, with any device and any reports. */
    ghost predicate IsHistory() {
      && config.plan.Valid() && ReadsLocation(parse, want)
      && |states| == |wires| == |rounds| + 1
      && HoldsAt(0)
      && forall k | 0 <= k < |rounds| :: OccursAt(k)
    }

    /** The same where every report of the node is truthful and complete. */
    ghost predicate IsRunFromAnywhere() {
      IsHistory() && forall k | 0 <= k < |rounds| :: TruthfulAt(k)
    }

    /** And from a device that fits the settings: one that runs as configured does. */
    ghost predicate IsRun() {
      IsRunFromAnywhere() && FitsAt(0)
    }

    /** The run from round k on. */
    ghost function From(k: nat): Trace
      requires k < |states| && k < |wires| && k <= |rounds|
    {
      Trace(config, parse, oracle, id, want, states[k..], wires[k..], rounds[k..])
    }

    /** Round k is a report of the node that the time filter lets through. */
    ghost predicate Unfiltered(k: nat) {
      && k < |rounds| && k < |states| && id in states[k].db
      && rounds[k].Own? && !Blocked(config, states[k].db[id], id, rounds[k].report, rounds[k].clock)
    }
  }

  /** A handler that is not about a node leaves the row of this node alone. */
  lemma ForeignKeepsRow(config: Config, s: State, a: Action, id: string)
    requires id in s.db && !Concerns(a, id)
    ensures id in Act(config, s, a).db && Act(config, s, a).db[id] == s.db[id]
  {
    match a
    case ReportAction(report, clock, oracle, wire) =>
      if report.nodeinfo.Some? && report.nodeinfo.value.nodeId in s.db {
        KnownReportEffect(config, oracle, s, wire, report, clock);
      }
    case _ =>
  }

  lemma RoundTowards(t: Trace, k: nat)
    requires t.config.plan.Valid() && ReadsLocation(t.parse, t.want) && t.FitsAt(k) && t.HappensAt(k)
    ensures t.FitsAt(k + 1)
    ensures Towards(t.config.plan, t.parse, t.want, t.wires[k].device, t.wires[k + 1].device)
  {
    var s, w := t.states[k], t.wires[k];
    match t.rounds[k]
    case Own(report, clock) =>
      ReportTowards(t.config, t.parse, t.oracle, s, w, t.id, report, clock);
    case Foreign(action) => ForeignKeepsRow(t.config, s, action, t.id);
  }

  lemma ReportTowards(config: Config, parse: string -> Float, oracle: nat -> bool, s: State, w: Wire, id: string, report: Report, clock: Clock)
    requires config.plan.Valid() && OneRadioPerBand(w.device)
    requires id in s.db && FaithfulReport(config.plan, parse, w.device, id, report)
    requires ReadsLocation(parse, s.db[id].settings) && Steady(config.plan, s.db[id].settings, w.device)
    ensures var (s1, w1) := AfterReport(config, oracle, s, w, report, clock);
            && id in s1.db && s1.db[id].settings == s.db[id].settings
            && Towards(config.plan, parse, s.db[id].settings, w.device, w1.device)
            && Steady(config.plan, s.db[id].settings, w1.device)
  {
    var n := Updated(config, Load(id, s.db[id]), report, clock.update);
    RoundEffect(config, parse, oracle, s, w, id, report, clock);
    if Calm(config.plan, s.db[id].settings, w.device) {
      CalmPushesNothing(config.plan, parse, n, w.device);
    }
    PushTowards(oracle, config.plan, parse, n, w);
    SteadyStays(config.plan, parse, s.db[id].settings, w.device, AfterReport(config, oracle, s, w, report, clock).1.device);
  }

  lemma SteadyStays(plan: Plan, parse: string -> Float, want: Settings, d0: Device, d1: Device)
    requires Steady(plan, want, d0) && Towards(plan, parse, want, d0, d1)
    ensures Steady(plan, want, d1)
  {
    if Calm(plan, want, d0) {
      forall band | Pushable(plan, want, d1, band)
        ensures want.wireless.Channel(band) == ChannelOf(plan, d1, band)
      {
        assert band == Band24 || band == Band5;
        assert Pushable(plan, want, d0, band) && Agrees(ChannelField(band), want, Observe(plan, parse, d0));
        assert ChannelField(band) !in OutOfSync(want, Observe(plan, parse, d0));
        assert ChannelField(band) !in OutOfSync(want, Observe(plan, parse, d1));
      }
    }
  }

  /** Whatever happens and fails: the stored settings stay, and the device still fits them. */
  lemma {:induction false} RunKeeps(t: Trace, j: nat)
    requires t.IsRun() && j < |t.states|
    ensures t.FitsAt(j)
    decreases j
  {
    if j == 0 {
    } else {
      RunKeeps(t, j - 1);
      StaysFit(t, j - 1);
    }
  }

  lemma StaysFit(t: Trace, k: nat)
    requires t.IsRun() && k < |t.rounds| && t.FitsAt(k)
    ensures t.FitsAt(k + 1)
    ensures Towards(t.config.plan, t.parse, t.want, t.wires[k].device, t.wires[k + 1].device)
  {
    assert t.HappensAt(k);
    RoundTowards(t, k);
  }

  /**
   * Progress under failure. Whatever commands fail in whatever round: no field
   * that agreed stops agreeing, and the fields no push can mend stay the same
   * ones and stay out of sync. If every configured channel is the running or
   * the desired one, that stays so.
   */
  lemma NeverLosesGround(t: Trace, i: nat, j: nat)
    requires t.IsRun() && i <= j < |t.states|
    ensures t.FitsAt(j) && (t.CoherentAfter(i) ==> t.CoherentAfter(j))
    ensures t.Out(j) <= t.Out(i) && |t.Out(j)| <= |t.Out(i)|
    ensures t.Unmendable(j) == t.Unmendable(i) <= t.Out(j)
    ensures forall band :: Detect(t.wires[j].device, band) == Detect(t.wires[i].device, band)
  {
    RunKeeps(t, j);
    RunTowards(t, i, j);
    RemainingIsOut(t.config.plan, t.parse, t.want, t.wires[j].device);
    CardinalityMonotone(t.Out(j), t.Out(i));
  }

  lemma {:induction false} RunTowards(t: Trace, i: nat, j: nat)
    requires t.IsRun() && i <= j < |t.states|
    ensures Towards(t.config.plan, t.parse, t.want, t.wires[i].device, t.wires[j].device)
    decreases j - i
  {
    RunKeeps(t, j);
    if i == j {
    } else {
      RunTowards(t, i, j - 1);
      TowardsAfter(t, i, j - 1);
    }
  }

  lemma TowardsAfter(t: Trace, i: nat, k: nat)
    requires t.IsRun() && i <= k < |t.rounds|
    requires Towards(t.config.plan, t.parse, t.want, t.wires[i].device, t.wires[k].device)
    ensures Towards(t.config.plan, t.parse, t.want, t.wires[i].device, t.wires[k + 1].device)
  {
    RunKeeps(t, k);
    StaysFit(t, k);
    TowardsTransitive(t.config.plan, t.parse, t.want, t.wires[i].device, t.wires[k].device, t.wires[k + 1].device);
  }

  lemma CardinalityMonotone(a: set<Field>, b: set<Field>)
    requires a <= b
    ensures |a| <= |b|
  {
    assert b == a + (b - a);
  }

  lemma RemainingIsOut(plan: Plan, parse: string -> Float, want: Settings, d: Device)
    requires plan.Valid()
    ensures Remaining(plan, want, d) <= OutOfSync(want, Observe(plan, parse, d))
  {
    forall f | f in Remaining(plan, want, d)
      ensures !Agrees(f, want, Observe(plan, parse, d))
    {
      match f
      case ChannelField(band) => assert band == Band24 || band == Band5;
      case TxPowerField(band) => assert band == Band24 || band == Band5;
      case _ =>
    }
  }

  /** What the desired settings and the device must be like for a push to be able to bring them into sync. */
  ghost predicate CanAgree(plan: Plan, parse: string -> Float, want: Settings, d: Device) {
    && IeeeEqual(want.location.altitude, d.altitude)
    && forall band ::
         || AgreesOn(want, Observe(plan, parse, d), band)
         || (Pushable(plan, want, d, band) && InBand(plan, want.wireless.Channel(band), band))
  }

  /**
   * Convergence. The first unfiltered report whose push has every command
   * succeed leaves exactly the unmendable fields out of sync, and so does every
   * later state of the run, whatever fails in between; so the comparison
   * succeeds from then on if and only if altitudes and bands allow it.
   */
  lemma GoodRoundConverges(t: Trace, k: nat, j: nat)
    requires t.IsRun() && k < j < |t.states| && t.Unfiltered(k)
    requires Succeeds(t.oracle, |t.wires[k].events|, |t.wires[k].events| + MAX_EVENTS)
    ensures t.Out(j) == t.Unmendable(0)
    ensures CheckRespondd(t.want, Observe(t.config.plan, t.parse, t.wires[j].device)) <==>
            CanAgree(t.config.plan, t.parse, t.want, t.wires[0].device)
  {
    GoodRoundLeaves(t, k, j);
    InSyncIffNothingOut(t.want, Observe(t.config.plan, t.parse, t.wires[j].device));
    NothingRemains(t.config.plan, t.parse, t.want, t.wires[0].device);
  }

  lemma GoodRoundLeaves(t: Trace, k: nat, j: nat)
    requires t.IsRun() && k < j < |t.states| && t.Unfiltered(k)
    requires Succeeds(t.oracle, |t.wires[k].events|, |t.wires[k].events| + MAX_EVENTS)
    ensures t.Out(j) == t.Unmendable(0)
  {
    NeverLosesGround(t, 0, k);
    NeverLosesGround(t, 0, j);
    NeverLosesGround(t, k + 1, j);
    assert t.HappensAt(k);
    GoodStep(t, k);
  }

  lemma GoodStep(t: Trace, k: nat)
    requires t.config.plan.Valid() && ReadsLocation(t.parse, t.want) && t.FitsAt(k) && t.HappensAt(k) && t.Unfiltered(k)
    requires Succeeds(t.oracle, |t.wires[k].events|, |t.wires[k].events| + MAX_EVENTS)
    ensures t.Out(k + 1) == t.Unmendable(k)
  {
    GoodRound(t.config, t.parse, t.oracle, t.states[k], t.wires[k], t.id, t.rounds[k].report, t.rounds[k].clock);
  }

  lemma GoodRound(config: Config, parse: string -> Float, oracle: nat -> bool, s: State, w: Wire, id: string, report: Report, clock: Clock)
    requires config.plan.Valid() && OneRadioPerBand(w.device)
    requires id in s.db && FaithfulReport(config.plan, parse, w.device, id, report)
    requires ReadsLocation(parse, s.db[id].settings) && Steady(config.plan, s.db[id].settings, w.device)
    requires !Blocked(config, s.db[id], id, report, clock)
    requires Succeeds(oracle, |w.events|, |w.events| + MAX_EVENTS)
    ensures var (s1, w1) := AfterReport(config, oracle, s, w, report, clock);
            OutOfSync(s.db[id].settings, Observe(config.plan, parse, w1.device)) == Remaining(config.plan, s.db[id].settings, w.device)
  {
    var plan, want := config.plan, s.db[id].settings;
    RoundEffect(config, parse, oracle, s, w, id, report, clock);
    if OutOfSync(want, Observe(plan, parse, w.device)) != {} {
      PushExactly(oracle, plan, parse, Updated(config, Load(id, s.db[id]), report, clock.update), w);
    } else {
      RemainingIsOut(plan, parse, want, w.device);
    }
  }

  predicate AgreesOn(want: Settings, have: Settings, band: Band) {
    && want.wireless.Channel(band) == have.wireless.Channel(band)
    && want.wireless.TxPower(band) == have.wireless.TxPower(band)
  }

  lemma NothingRemains(plan: Plan, parse: string -> Float, want: Settings, d: Device)
    requires plan.Valid()
    ensures Remaining(plan, want, d) == {} <==> CanAgree(plan, parse, want, d)
  {
    forall band
      ensures !StaysOut(plan, want, d, ChannelField(band)) && !StaysOut(plan, want, d, TxPowerField(band)) <==>
              || AgreesOn(want, Observe(plan, parse, d), band)
              || (Pushable(plan, want, d, band) && InBand(plan, want.wireless.Channel(band), band))
    {
      assert band == Band24 || band == Band5;
    }
    if Remaining(plan, want, d) == {} {
      forall f
        ensures !StaysOut(plan, want, d, f)
      {
        EveryField(f);
        assert f !in Remaining(plan, want, d);
      }
      assert !StaysOut(plan, want, d, LocationField);
    } else {
      var f :| f in Remaining(plan, want, d);
      assert StaysOut(plan, want, d, f);
    }
  }

  /**
   * Quiescence, exactly: a handler touches the wire of a node if and only if it
   * is an unfiltered report of it while some field is out of sync. So once
   * everything agrees no later handler of the run does: no SSH, no `wifi`.
   */
  lemma SshExactlyWhenOutOfSync(t: Trace, k: nat)
    requires t.IsRun() && k < |t.rounds|
    ensures t.wires[k + 1] != t.wires[k] <==> t.Unfiltered(k) && t.Out(k) != {}
    ensures t.wires[k].events <= t.wires[k + 1].events
  {
    RunKeeps(t, k);
    assert t.HappensAt(k);
    if t.rounds[k].Own? {
      var s, w := t.states[k], t.wires[k];
      var Own(report, clock) := t.rounds[k];
      RoundEffect(t.config, t.parse, t.oracle, s, w, t.id, report, clock);
      if t.oracle(|w.events|) {
        DeferredRestart(t.oracle, t.config.plan, Updated(t.config, Load(t.id, s.db[t.id]), report, clock.update), w);
      }
    }
  }

  lemma {:induction false} QuietOnceInSync(t: Trace, i: nat, j: nat)
    requires t.IsRun() && i <= j < |t.states| && t.Out(i) == {}
    ensures t.wires[j] == t.wires[i]
    decreases j
  {
    if i == j {
    } else {
      QuietOnceInSync(t, i, j - 1);
      SshExactlyWhenOutOfSync(t, j - 1);
    }
  }

  /**
   * Why the desired settings must not change in between. A radio may be left
   * configured for a channel desired earlier. If its running channel is the
   * desired one now, a successful push keeps it so exactly if it issues no
   * `wifi` or the configured channel is the desired one as well.
   */
  lemma StaleConfigSurfaces(oracle: nat -> bool, plan: Plan, parse: string -> Float, n: Node, w: Wire, band: Band)
    requires ReadsLocation(parse, n.row.settings) && Succeeds(oracle, |w.events|, |w.events| + MAX_EVENTS)
    requires OneRadioPerBand(w.device) && n.respondd == Observe(plan, parse, w.device)
    requires Detect(w.device, band).Some?
    requires n.row.settings.wireless.Channel(band) == ChannelOf(plan, w.device, band) != 0
    ensures var ch := n.row.settings.wireless.Channel(band);
            ChannelOf(plan, Push(oracle, plan, n, w).1.device, band) == ch <==>
            || w.device.radios[Detect(w.device, band).value].channel == ch
            || forall other :: !PushesChannel(plan, n, other, Detect(w.device, other))
  {
    var wifi := PushShape(oracle, plan, parse, n, w);
    assert n.respondd.wireless.Channel(band) == ChannelOf(plan, w.device, band);
    assert RadioShape(plan, n, w.device, Push(oracle, plan, n, w).1.device, band, wifi);
  }

  ghost predicate RestartsRadios(w: Wire, w1: Wire) {
    exists i :: |w.events| <= i < |w1.events| && IsWifi(w1.events[i])
  }

  /** A device whose 2.4 GHz radio runs on the desired channel but is configured for another one. */
  function StaleDevice(ch: nat, stale: nat, here: nat): Device {
    Device("", "", "", "", false, Finite(false, 0.0),
           map[Radio0 := Radio("11g", stale, 0, "", ch), Radio1 := Radio("11a", here, 0, "", here)])
  }

  /** Such a device gives up the desired channel when the other band is pushed. */
  lemma StaleConfigExample(plan: Plan, id: string, ch: nat, stale: nat, here: nat, there: nat) returns (n: Node, w: Wire)
    requires plan.Valid() && ch != stale && here != there
    requires forall c | c in {ch, stale} :: InBand(plan, c, Band24) && plan.Permitted(c)
    requires forall c | c in {here, there} :: InBand(plan, c, Band5) && plan.Permitted(c)
    ensures w.device == StaleDevice(ch, stale, here) && n.row.settings.wireless == Wireless(0, ch, 0, there)
    ensures n.respondd == Observe(plan, Denoted, w.device)
    ensures ChannelOf(plan, w.device, Band24) == ch
    ensures ChannelOf(plan, Push(_ => true, plan, n, w).1.device, Band24) != ch
  {
    var d := StaleDevice(ch, stale, here);
    w := Wire(d, []);
    var have := Observe(plan, Denoted, d);
    n := Load(id, Row(None, None, "", have.(wireless := Wireless(0, ch, 0, there)))).(respondd := have);
    assert "11g"[2] == 'g' && "11a"[2] == 'a';
    assert OneRadioPerBand(d) && Detect(d, Band24) == Some(Radio0) && Detect(d, Band5) == Some(Radio1);
    ExactParseReadsBack(have.location.latitude);
    ExactParseReadsBack(have.location.longitude);
    assert PushesChannel(plan, n, Band5, Some(Radio1));
    StaleConfigSurfaces(_ => true, plan, Denoted, n, w, Band24);
  }

  /** A band with a radio wants a permitted channel of the other band. */
  predicate Misplaced(plan: Plan, want: Settings, d: Device, band: Band) {
    Pushable(plan, want, d, band) && !InBand(plan, want.wireless.Channel(band), band)
  }

  /**
   * What keeps a converged device from being quiet: when only unmendable fields
   * are left, a further successful round restarts the radios if and only if a
   * band with a radio wants a permitted channel of the other band.
   */
  lemma SteadyRestart(plan: Plan, parse: string -> Float, oracle: nat -> bool, n: Node, w: Wire)
    requires plan.Valid() && ReadsLocation(parse, n.row.settings)
    requires OneRadioPerBand(w.device) && n.respondd == Observe(plan, parse, w.device)
    requires OutOfSync(n.row.settings, n.respondd) == Remaining(plan, n.row.settings, w.device)
    requires Succeeds(oracle, |w.events|, |w.events| + MAX_EVENTS)
    ensures RestartsRadios(w, Push(oracle, plan, n, w).1) <==>
            exists band :: Misplaced(plan, n.row.settings, w.device, band)
  {
    var runWifi := WifiIssued(oracle, plan, n, w);
    var w2 := PushSystem(oracle, n, Emit(w, Connected(true)));
    SystemKeepsRadios(oracle, n, Emit(w, Connected(true)));
    HwmodesDecide(w.device, w2.device);
    BandsAfter(oracle, plan, n, w2);
    forall band
      ensures PushesChannel(plan, n, band, Detect(w.device, band)) <==>
              Misplaced(plan, n.row.settings, w.device, band)
    {
      SteadyPushes(plan, parse, n, w.device, band);
    }
  }

  /**
   * So in a run: after one unfiltered all-successful round, every later such
   * round restarts the radios if and only if a band with a radio wants a
   * permitted channel of the other band; such a node never comes into sync.
   */
  lemma RestartsEveryRound(t: Trace, k: nat, j: nat)
    requires t.IsRun() && k < j < |t.rounds| && t.Unfiltered(k) && t.Unfiltered(j)
    requires Succeeds(t.oracle, |t.wires[k].events|, |t.wires[k].events| + MAX_EVENTS)
    requires Succeeds(t.oracle, |t.wires[j].events|, |t.wires[j].events| + MAX_EVENTS)
    ensures RestartsRadios(t.wires[j], t.wires[j + 1]) <==>
            exists band :: Misplaced(t.config.plan, t.want, t.wires[0].device, band)
    ensures (exists band :: Misplaced(t.config.plan, t.want, t.wires[0].device, band)) ==> t.Out(j) != {}
  {
    GoodRoundConverges(t, k, j);
    NeverLosesGround(t, 0, j);
    assert t.HappensAt(j);
    RoundRestarts(t.config, t.parse, t.oracle, t.states[j], t.wires[j], t.id, t.rounds[j].report, t.rounds[j].clock);
    assert forall band :: Misplaced(t.config.plan, t.want, t.wires[j].device, band) <==>
                          Misplaced(t.config.plan, t.want, t.wires[0].device, band);
  }

  lemma RoundRestarts(config: Config, parse: string -> Float, oracle: nat -> bool, s: State, w: Wire, id: string, report: Report, clock: Clock)
    requires config.plan.Valid() && OneRadioPerBand(w.device)
    requires id in s.db && FaithfulReport(config.plan, parse, w.device, id, report)
    requires ReadsLocation(parse, s.db[id].settings) && !Blocked(config, s.db[id], id, report, clock)
    requires OutOfSync(s.db[id].settings, Observe(config.plan, parse, w.device)) == Remaining(config.plan, s.db[id].settings, w.device)
    requires Succeeds(oracle, |w.events|, |w.events| + MAX_EVENTS)
    ensures var misplaced := exists band :: Misplaced(config.plan, s.db[id].settings, w.device, band);
            && (RestartsRadios(w, AfterReport(config, oracle, s, w, report, clock).1) <==> misplaced)
            && (misplaced ==> OutOfSync(s.db[id].settings, Observe(config.plan, parse, w.device)) != {})
  {
    var n := Updated(config, Load(id, s.db[id]), report, clock.update);
    RoundEffect(config, parse, oracle, s, w, id, report, clock);
    SteadyRestart(config.plan, parse, oracle, n, w);
    forall band | Misplaced(config.plan, s.db[id].settings, w.device, band)
      ensures ChannelField(band) in Remaining(config.plan, s.db[id].settings, w.device)
    {
      EveryField(ChannelField(band));
    }
  }

  /** A 2.4 GHz radio told to use a channel of the other band restarts although nothing can be mended. */
  lemma SteadyRestartExample(plan: Plan, id: string, running: nat, misplaced: nat) returns (n: Node, w: Wire)
    requires plan.Valid() && InBand(plan, running, Band24) && plan.Permitted(running)
    requires InBand(plan, misplaced, Band5) && plan.Permitted(misplaced)
    ensures n.row.settings.wireless.channel24 == misplaced && n.respondd == Observe(plan, Denoted, w.device)
    ensures ChannelOf(plan, w.device, Band24) == running
    ensures OutOfSync(n.row.settings, n.respondd) == Remaining(plan, n.row.settings, w.device) == {ChannelField(Band24)}
    ensures RestartsRadios(w, Push(_ => true, plan, n, w).1)
  {
    var d := Device("", "", "", "", false, Finite(false, 0.0), map[Radio0 := Radio("11g", running, 0, "", running)]);
    w := Wire(d, []);
    var have := Observe(plan, Denoted, d);
    var want := have.(wireless := Wireless(0, misplaced, 0, 0));
    n := Load(id, Row(None, None, "", want)).(respondd := have);
    assert "11g"[2] == 'g';
    assert OneRadioPerBand(d) && Detect(d, Band24) == Some(Radio0) && Detect(d, Band5) == None;
    assert Misplaced(plan, want, d, Band24);
    ExactParseReadsBack(have.location.latitude);
    ExactParseReadsBack(have.location.longitude);
    forall f | f in FIELDS
      ensures f in OutOfSync(want, have) <==> f == ChannelField(Band24)
      ensures f in Remaining(plan, want, d) <==> f == ChannelField(Band24)
    {
    }
    SteadyRestart(plan, Denoted, _ => true, n, w);
  }

  lemma WifiIssued(oracle: nat -> bool, plan: Plan, n: Node, w: Wire) returns (runWifi: bool)
    requires oracle(|w.events|)
    ensures RestartsRadios(w, Push(oracle, plan, n, w).1) <==> runWifi
    ensures var (wifi24, w3) := PushBand(oracle, plan, n, Band24, PushSystem(oracle, n, Emit(w, Connected(true))));
            runWifi <==> wifi24 == Some(true) || (wifi24.Some? && PushBand(oracle, plan, n, Band5, w3).0 == Some(true))
  {
    var wb;
    wb, runWifi := PushBeforeDeferred(oracle, plan, n, w);
    FinishShape(oracle, w, wb, runWifi);
    var w1 := Push(oracle, plan, n, w).1;
    assert forall i | 0 <= i < |wb.events| :: w1.events[i] == wb.events[i];
    if runWifi {
      assert IsWifi(w1.events[|wb.events|]);
    }
  }

  lemma SteadyPushes(plan: Plan, parse: string -> Float, n: Node, d: Device, band: Band)
    requires n.respondd == Observe(plan, parse, d)
    requires OutOfSync(n.row.settings, n.respondd) == Remaining(plan, n.row.settings, d)
    ensures PushesChannel(plan, n, band, Detect(d, band)) <==>
            Misplaced(plan, n.row.settings, d, band)
  {
    EveryField(ChannelField(band));
    assert ChannelField(band) in OutOfSync(n.row.settings, n.respondd) <==> ChannelField(band) in Remaining(plan, n.row.settings, d);
    assert n.respondd.wireless.Channel(band) == ChannelOf(plan, d, band);
  }

  // ----- from any device

  lemma PushKeepsOneRadio(oracle: nat -> bool, plan: Plan, n: Node, w0: Wire)
    requires OneRadioPerBand(w0.device)
    ensures OneRadioPerBand(Push(oracle, plan, n, w0).1.device)
  {
    var w1 := Emit(w0, Connected(oracle(|w0.events|)));
    if oracle(|w0.events|) {
      SystemKeepsRadios(oracle, n, w1);
      var w2 := PushSystem(oracle, n, w1);
      HwmodesDecide(w0.device, w2.device);
      BandKeepsOneRadio(oracle, plan, n, Band24, w2);
      var (wifi24, w3) := PushBand(oracle, plan, n, Band24, w2);
      if wifi24.Some? {
        BandKeepsOneRadio(oracle, plan, n, Band5, w3);
        var (wifi5, w4) := PushBand(oracle, plan, n, Band5, w3);
        ExecKeepsOneRadio(oracle, w4, wifi24.value || wifi5 == Some(true), RestartWifi);
      }
    }
  }

  lemma BandKeepsOneRadio(oracle: nat -> bool, plan: Plan, n: Node, band: Band, w0: Wire)
    requires OneRadioPerBand(w0.device)
    ensures OneRadioPerBand(PushBand(oracle, plan, n, band, w0).1.device)
  {
    var r := Detect(w0.device, band);
    if oracle(|w0.events|) && r.Some? {
      var want := n.row.settings;
      var w1 := Emit(w0, Queried(band, true));
      var w2 := ExecIf(oracle, w1, PushesTxPower(plan, n, band), SetTxPower(r.value, want.wireless.TxPower(band)));
      var w3 := ExecIf(oracle, w2, PushesChannel(plan, n, band, r), SetChannel(r.value, want.wireless.Channel(band)));
      ExecKeepsOneRadio(oracle, w1, PushesTxPower(plan, n, band), SetTxPower(r.value, want.wireless.TxPower(band)));
      ExecKeepsOneRadio(oracle, w2, PushesChannel(plan, n, band, r), SetChannel(r.value, want.wireless.Channel(band)));
      ExecKeepsOneRadio(oracle, w3, want.hostname != n.respondd.hostname, SetPrivSsid(r.value, "offline-" + want.hostname));
    }
  }

  lemma ExecKeepsOneRadio(oracle: nat -> bool, w: Wire, condition: bool, command: Command)
    requires OneRadioPerBand(w.device)
    ensures OneRadioPerBand(ExecIf(oracle, w, condition, command).device)
  {
    RadiosStay(w.device, command);
  }

  /** Any report of a known node, true or not, leaves the wire alone or is one push of the stored settings. */
  lemma AnyReportEffect(config: Config, oracle: nat -> bool, s: State, w: Wire, id: string, report: Report, clock: Clock)
    requires report.nodeinfo.Some? && report.nodeinfo.value.nodeId == id && id in s.db
    ensures var n := Updated(config, Load(id, s.db[id]), report, clock.update);
            var (s1, w1) := AfterReport(config, oracle, s, w, report, clock);
            && n.row.settings == s.db[id].settings
            && id in s1.db && s1.db[id].settings == s.db[id].settings
            && (w1 == w || w1 == Push(oracle, config.plan, n, w).1)
  {
    KnownReportEffect(config, oracle, s, w, report, clock);
  }

  lemma RoundHolds(t: Trace, k: nat)
    requires t.HoldsAt(k) && t.OccursAt(k)
    ensures t.HoldsAt(k + 1)
  {
    var s, w := t.states[k], t.wires[k];
    match t.rounds[k]
    case Own(report, clock) =>
      AnyReportEffect(t.config, t.oracle, s, w, t.id, report, clock);
      PushKeepsOneRadio(t.oracle, t.config.plan, Updated(t.config, Load(t.id, s.db[t.id]), report, clock.update), w);
    case Foreign(action) => ForeignKeepsRow(t.config, s, action, t.id);
  }

  /** Whatever the device and the reports: the stored settings stay, and the radios stay the same ones. */
  lemma {:induction false} HistoryHolds(t: Trace, j: nat)
    requires t.IsHistory() && j < |t.states|
    ensures t.HoldsAt(j)
    decreases j
  {
    if j == 0 {
    } else {
      HistoryHolds(t, j - 1);
      HoldsOn(t, j - 1);
    }
  }

  lemma HoldsOn(t: Trace, k: nat)
    requires t.IsHistory() && k < |t.rounds| && t.HoldsAt(k)
    ensures t.HoldsAt(k + 1)
  {
    assert t.OccursAt(k);
    RoundHolds(t, k);
  }

  /** An all-successful push on a truthful observation either restarts all radios, or no channel is left to be pushed. */
  lemma PushSettles(oracle: nat -> bool, plan: Plan, parse: string -> Float, n: Node, w: Wire)
    requires ReadsLocation(parse, n.row.settings) && Succeeds(oracle, |w.events|, |w.events| + MAX_EVENTS)
    requires OneRadioPerBand(w.device) && n.respondd == Observe(plan, parse, w.device)
    ensures Steady(plan, n.row.settings, Push(oracle, plan, n, w).1.device)
  {
    var d0, d1, want := w.device, Push(oracle, plan, n, w).1.device, n.row.settings;
    var wifi := PushShape(oracle, plan, parse, n, w);
    assert RadioShape(plan, n, d0, d1, Band24, wifi) && RadioShape(plan, n, d0, d1, Band5, wifi);
    if !wifi {
      forall band | Pushable(plan, want, d1, band)
        ensures want.wireless.Channel(band) == ChannelOf(plan, d1, band)
      {
        assert band == Band24 || band == Band5;
        assert !PushesChannel(plan, n, band, Detect(d0, band));
        assert ChannelOf(plan, d1, band) == ChannelOf(plan, d0, band) == n.respondd.wireless.Channel(band);
      }
    }
  }

  /**
   * Self-stabilisation: whatever state earlier edits and failures left the
   * device in, one unfiltered all-successful round leaves one that fits the
   * settings, so everything above holds of the rest of the run.
   */
  lemma GoodRoundSettles(t: Trace, k: nat)
    requires t.IsRunFromAnywhere() && k < |t.rounds| && t.Unfiltered(k)
    requires Succeeds(t.oracle, |t.wires[k].events|, |t.wires[k].events| + MAX_EVENTS)
    ensures t.From(k + 1).IsRun()
  {
    HistoryHolds(t, k);
    HistoryHolds(t, k + 1);
    SettledAfter(t, k);
    var rest := t.From(k + 1);
    forall j | 0 <= j < |rest.rounds|
      ensures rest.OccursAt(j) && rest.TruthfulAt(j)
    {
      RestHappens(t, k + 1, j);
    }
  }

  lemma RestHappens(t: Trace, k: nat, j: nat)
    requires t.IsRunFromAnywhere() && k + j < |t.rounds|
    ensures t.From(k).OccursAt(j) && t.From(k).TruthfulAt(j)
  {
    assert t.OccursAt(k + j) && t.TruthfulAt(k + j);
  }

  lemma SettledAfter(t: Trace, k: nat)
    requires t.config.plan.Valid() && ReadsLocation(t.parse, t.want)
    requires t.HoldsAt(k) && t.OccursAt(k) && t.TruthfulAt(k) && t.Unfiltered(k)
    requires Succeeds(t.oracle, |t.wires[k].events|, |t.wires[k].events| + MAX_EVENTS)
    ensures Steady(t.config.plan, t.want, t.wires[k + 1].device)
  {
    SettledByRound(t.config, t.parse, t.oracle, t.states[k], t.wires[k], t.id, t.rounds[k].report, t.rounds[k].clock);
  }

  lemma SettledByRound(config: Config, parse: string -> Float, oracle: nat -> bool, s: State, w: Wire, id: string, report: Report, clock: Clock)
    requires config.plan.Valid() && OneRadioPerBand(w.device)
    requires id in s.db && FaithfulReport(config.plan, parse, w.device, id, report)
    requires ReadsLocation(parse, s.db[id].settings) && !Blocked(config, s.db[id], id, report, clock)
    requires Succeeds(oracle, |w.events|, |w.events| + MAX_EVENTS)
    ensures Steady(config.plan, s.db[id].settings, AfterReport(config, oracle, s, w, report, clock).1.device)
  {
    var want, have := s.db[id].settings, Observe(config.plan, parse, w.device);
    RoundEffect(config, parse, oracle, s, w, id, report, clock);
    if OutOfSync(want, have) != {} {
      PushSettles(oracle, config.plan, parse, Updated(config, Load(id, s.db[id]), report, clock.update), w);
    } else {
      forall band
        ensures want.wireless.Channel(band) == ChannelOf(config.plan, w.device, band)
      {
        EveryField(ChannelField(band));
        assert ChannelField(band) !in OutOfSync(want, have);
        assert band == Band24 || band == Band5;
      }
    }
  }

  /**
   * Convergence from any device: after two unfiltered all-successful rounds,
   * with anything in between, exactly the fields are out of sync that no push
   * could mend after the first, for the rest of the run.
   */
  lemma TwoGoodRoundsConverge(t: Trace, k: nat, l: nat, j: nat)
    requires t.IsRunFromAnywhere() && k < l < j < |t.states| && t.Unfiltered(k) && t.Unfiltered(l)
    requires Succeeds(t.oracle, |t.wires[k].events|, |t.wires[k].events| + MAX_EVENTS)
    requires Succeeds(t.oracle, |t.wires[l].events|, |t.wires[l].events| + MAX_EVENTS)
    ensures t.Out(j) == t.Unmendable(k + 1)
    ensures CheckRespondd(t.want, Observe(t.config.plan, t.parse, t.wires[j].device)) <==>
            CanAgree(t.config.plan, t.parse, t.want, t.wires[k + 1].device)
  {
    GoodRoundSettles(t, k);
    var rest := t.From(k + 1);
    assert rest.wires[j - k - 1] == t.wires[j] && rest.wires[l - k - 1] == t.wires[l];
    GoodRoundConverges(rest, l - k - 1, j - k - 1);
  }

  // ----- whatever the reports say

  lemma OccurrenceTowards(t: Trace, k: nat)
    requires t.config.plan.Valid() && ReadsLocation(t.parse, t.want)
    requires t.HoldsAt(k) && t.OccursAt(k) && t.CoherentAfter(k)
    ensures t.HoldsAt(k + 1)
    ensures Towards(t.config.plan, t.parse, t.want, t.wires[k].device, t.wires[k + 1].device)
  {
    RoundHolds(t, k);
    if t.rounds[k].Own? {
      var s, w := t.states[k], t.wires[k];
      var Own(report, clock) := t.rounds[k];
      AnyReportEffect(t.config, t.oracle, s, w, t.id, report, clock);
      PushTowards(t.oracle, t.config.plan, t.parse, Updated(t.config, Load(t.id, s.db[t.id]), report, clock.update), w);
    }
  }

  /**
   * Progress under failure and under wrong reports. As long as every configured
   * channel is the running or the desired one, it stays so, and no ground is
   * lost, whatever commands fail and however stale, partial or false the reports are.
   */
  lemma NoReportLosesGround(t: Trace, i: nat, j: nat)
    requires t.IsHistory() && i <= j < |t.states| && t.CoherentAfter(i)
    ensures t.HoldsAt(j) && t.CoherentAfter(j)
    ensures t.Out(j) <= t.Out(i) && |t.Out(j)| <= |t.Out(i)|
    ensures t.Unmendable(j) == t.Unmendable(i) <= t.Out(j)
  {
    HistoryHolds(t, j);
    HistoryTowards(t, i, j);
    RemainingIsOut(t.config.plan, t.parse, t.want, t.wires[j].device);
    CardinalityMonotone(t.Out(j), t.Out(i));
  }

  lemma {:induction false} HistoryTowards(t: Trace, i: nat, j: nat)
    requires t.IsHistory() && i <= j < |t.states| && t.CoherentAfter(i)
    ensures Towards(t.config.plan, t.parse, t.want, t.wires[i].device, t.wires[j].device)
    decreases j - i
  {
    HistoryHolds(t, j);
    if i == j {
    } else {
      HistoryTowards(t, i, j - 1);
      HistoryTowardsAfter(t, i, j - 1);
    }
  }

  lemma HistoryTowardsAfter(t: Trace, i: nat, k: nat)
    requires t.IsHistory() && i <= k < |t.rounds| && t.CoherentAfter(i)
    requires Towards(t.config.plan, t.parse, t.want, t.wires[i].device, t.wires[k].device)
    ensures Towards(t.config.plan, t.parse, t.want, t.wires[i].device, t.wires[k + 1].device)
  {
    HistoryHolds(t, k);
    assert t.OccursAt(k);
    OccurrenceTowards(t, k);
    TowardsTransitive(t.config.plan, t.parse, t.want, t.wires[i].device, t.wires[k].device, t.wires[k + 1].device);
  }

  /**
   * So one truthful unfiltered report whose push has every command succeed is
   * enough among any others: from then on exactly the unmendable fields are out.
   */
  lemma OneTruthfulRoundConverges(t: Trace, k: nat, j: nat)
    requires t.IsHistory() && t.CoherentAfter(0)
    requires k < j < |t.states| && t.TruthfulAt(k) && t.Unfiltered(k)
    requires Succeeds(t.oracle, |t.wires[k].events|, |t.wires[k].events| + MAX_EVENTS)
    ensures t.Out(j) == t.Unmendable(0)
    ensures CheckRespondd(t.want, Observe(t.config.plan, t.parse, t.wires[j].device)) <==>
            CanAgree(t.config.plan, t.parse, t.want, t.wires[0].device)
  {
    NoReportLosesGround(t, 0, k);
    NoReportLosesGround(t, 0, k + 1);
    NoReportLosesGround(t, 0, j);
    NoReportLosesGround(t, k + 1, j);
    assert t.OccursAt(k);
    GoodStep(t, k);
    InSyncIffNothingOut(t.want, Observe(t.config.plan, t.parse, t.wires[j].device));
    NothingRemains(t.config.plan, t.parse, t.want, t.wires[0].device);
  }
}
