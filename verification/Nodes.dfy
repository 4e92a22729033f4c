/** Reports, stored rows and the node record that overlays one on the other (runtime/node.go). */
module Nodes {
  import opened Common
  import opened Channels
  import opened Floats

  datatype Location = Location(latitude: Float, longitude: Float, altitude: Float)

  datatype Wireless = Wireless(txPower24: nat, channel24: nat, txPower5: nat, channel5: nat) {
    function Channel(band: Band): nat { if band.Band24? then channel24 else channel5 }
    function TxPower(band: Band): nat { if band.Band24? then txPower24 else txPower5 }
  }

  /** The tuple a user edits, and the same tuple as a node reports it. */
  datatype Settings = Settings(hostname: string, owner: string, location: Location, wireless: Wireless)

  const ZERO := Finite(false, 0.0)
  const NO_LOCATION := Location(ZERO, ZERO, ZERO)
  const NO_WIRELESS := Wireless(0, 0, 0, 0)
  const NO_SETTINGS := Settings("", "", NO_LOCATION, NO_WIRELESS)

  datatype TxPowers = TxPowers(txPower24: nat, txPower5: nat)

  datatype NodeInfo = NodeInfo(
    nodeId: string, hostname: string, owner: Option<string>, location: Option<Location>,
    wireless: Option<TxPowers>, addresses: seq<string>)

  /** Airtime entries are reduced to their frequencies, client numbers to one value. */
  datatype Statistics = Statistics(frequencies: seq<nat>, clients: nat)

  const NO_STATISTICS := Statistics([], 0)

  datatype Report = Report(nodeinfo: Option<NodeInfo>, statistics: Option<Statistics>)

  /** The columns the database keeps for a node, next to its key. */
  datatype Row = Row(lastseen: Option<int>, blacklist: Option<int>, address: string, settings: Settings)

  /** A node in memory: the stored columns and what respondd reported. */
  datatype Node = Node(nodeId: string, row: Row, respondd: Settings, statistics: Statistics)

  /** Unicast kinds of an address text; section 2.5.6 of RFC 4291 defines the link-local ones. */
  datatype IpKind = LinkLocal | Global | Other

  datatype Config = Config(plan: Plan, prefix: string, kind: string -> IpKind, blacklistFor: int)

  function Load(nodeId: string, row: Row): Node {
    Node(nodeId, row, NO_SETTINGS, NO_STATISTICS)
  }

  // ----- comparison

  predicate LocationEqual(a: Location, b: Location) {
    && Format6(a.latitude) == Format6(b.latitude)
    && Format6(a.longitude) == Format6(b.longitude)
    && IeeeEqual(a.altitude, b.altitude)
  }

  predicate WirelessEqual(a: Wireless, b: Wireless) {
    && a.channel24 == b.channel24
    && a.channel5 == b.channel5
    && a.txPower24 == b.txPower24
    && a.txPower5 == b.txPower5
  }

  predicate CheckRespondd(settings: Settings, respondd: Settings) {
    && settings.hostname == respondd.hostname
    && settings.owner == respondd.owner
    && LocationEqual(settings.location, respondd.location)
    && WirelessEqual(settings.wireless, respondd.wireless)
  }

  /** Whether a row is passed over at time `now`: unseen for too long, or blacklisted not long enough ago. */
  predicate TimeFilter(row: Row, blacklistFor: int, now: int) {
    var before := now - blacklistFor;
    || row.lastseen.None?
    || row.lastseen.value < before
    || (row.blacklist.Some? && row.blacklist.value > before)
  }

  // ----- address selection

  predicate HasPrefix(config: Config, ip: string) {
    config.prefix <= ip
  }

  function AddressStep(config: Config, address: string, ip: string): string {
    if !HasPrefix(config, ip) then address
    else if address == "" || config.kind(ip).Global? || !config.kind(ip).LinkLocal? then ip
    else address
  }

  function AddressAfter(config: Config, prior: string, ips: seq<string>): string {
    if ips == [] then prior
    else AddressStep(config, AddressAfter(config, prior, ips[..|ips| - 1]), ips[|ips| - 1])
  }

  // ----- overlay

  /** The wireless settings a report stands for, said without loops. */
  ghost function ReportedWireless(plan: Plan, report: Report): Option<Wireless> {
    match report.statistics
    case None => None
    case Some(stats) =>
      var tx := match report.nodeinfo
                case None => TxPowers(0, 0)
                case Some(info) => if info.wireless.Some? then info.wireless.value else TxPowers(0, 0);
      Some(Wireless(tx.txPower24, plan.Folded(stats.frequencies, Band24), tx.txPower5, plan.Folded(stats.frequencies, Band5)))
  }

  /** A node after a report was overlaid on it; parts the report lacks stay as they were. */
  ghost function Updated(config: Config, n: Node, report: Report, now: int): Node {
    var row := n.row.(lastseen := Some(now));
    var n1 := match report.nodeinfo
              case None => n.(row := row)
              case Some(info) =>
                n.(row := row.(address := AddressAfter(config, row.address, info.addresses)),
                   respondd := Settings(
                     info.hostname,
                     if info.owner.Some? then info.owner.value else n.respondd.owner,
                     if info.location.Some? then info.location.value else n.respondd.location,
                     match ReportedWireless(config.plan, report) case Some(w) => w case None => n.respondd.wireless));
    match report.statistics
    case None => n1
    case Some(stats) => n1.(statistics := stats)
  }

  /** The settings learned from the first report of a node. */
  ghost function Learned(config: Config, report: Report): Settings
    requires report.nodeinfo.Some?
  {
    var info := report.nodeinfo.value;
    Settings(
      info.hostname,
      if info.owner.Some? then info.owner.value else "",
      if info.location.Some? then info.location.value else NO_LOCATION,
      match ReportedWireless(config.plan, report) case Some(w) => w case None => NO_WIRELESS)
  }

  ghost function FreshNode(config: Config, report: Report, now: int): Node
    requires report.nodeinfo.Some?
  {
    Updated(config, Load(report.nodeinfo.value.nodeId, Row(None, None, "", Learned(config, report))), report, now)
  }

  /** One visiting order of the channel table per lookup. */
  ghost predicate Ranges(plan: Plan, range: nat -> seq<nat>) {
    forall k :: plan.IsRange(range(k))
  }

  /** The fold over the airtime entries, each looked up with a visiting order of its own. */
  method GetWirelessSettings(plan: Plan, report: Report, range: nat -> seq<nat>) returns (r: Option<Wireless>)
    requires plan.Valid() && Ranges(plan, range)
    ensures r == ReportedWireless(plan, report)
    ensures forall band | r.Some? ::
              var ch := r.value.Channel(band);
              ch == 0 || (plan.Permitted(ch) && BandOf(plan.list[ch]) == band)
  {
    if report.statistics.None? {
      return None;
    }
    var freqs := report.statistics.value.frequencies;
    var settings := NO_WIRELESS;
    for i := 0 to |freqs|
      invariant settings == Wireless(0, plan.Folded(freqs[..i], Band24), 0, plan.Folded(freqs[..i], Band5))
    {
      assert plan.IsRange(range(i));
      FrequencyLookupInvertsTable(plan, range(i), freqs[i]);
      assert freqs[..i + 1][..i] == freqs[..i];
      var (ch, channel) := plan.GetChannelByFrequency(range(i), freqs[i]);
      if channel.None? || (plan.eu && !channel.value.allowedInEU) {
        continue;
      }
      assert plan.Contributes(freqs[i], BandOf(plan.list[ch]), ch);
      if channel.value.frequency > FREQ_THRESHOLD {
        settings := settings.(channel5 := ch);
      } else {
        settings := settings.(channel24 := ch);
      }
    }
    assert freqs[..|freqs|] == freqs;
    if report.nodeinfo.Some? && report.nodeinfo.value.wireless.Some? {
      var wifi := report.nodeinfo.value.wireless.value;
      if settings.txPower24 == 0 {
        settings := settings.(txPower24 := wifi.txPower24);
      }
      if settings.txPower5 == 0 {
        settings := settings.(txPower5 := wifi.txPower5);
      }
    }
    FoldedInBand(plan, freqs, Band24);
    FoldedInBand(plan, freqs, Band5);
    return Some(settings);
  }

  class NodeRecord {
    const nodeId: string
    var lastseen: Option<int>
    var blacklist: Option<int>
    var address: string
    var settings: Settings
    var respondd: Settings
    var statistics: Statistics

    ghost function View(): Node
      reads this
    {
      Node(nodeId, Row(lastseen, blacklist, address, settings), respondd, statistics)
    }

    constructor (nodeId: string, row: Row)
      ensures View() == Load(nodeId, row)
    {
      this.nodeId := nodeId;
      lastseen, blacklist, address, settings := row.lastseen, row.blacklist, row.address, row.settings;
      respondd, statistics := NO_SETTINGS, NO_STATISTICS;
    }

    method Update(config: Config, report: Option<Report>, now: int, range: nat -> seq<nat>)
      requires config.plan.Valid() && Ranges(config.plan, range)
      modifies this
      ensures View() == if report.None? then old(View()) else Updated(config, old(View()), report.value, now)
    {
      if report.None? {
        return;
      }
      lastseen := Some(now);
      if report.value.nodeinfo.Some? {
        var info := report.value.nodeinfo.value;
        respondd := respondd.(hostname := info.hostname);
        UpdateAddress(config, info.addresses);
        if info.owner.Some? {
          respondd := respondd.(owner := info.owner.value);
        }
        if info.location.Some? {
          respondd := respondd.(location := info.location.value);
        }
        var wireless := GetWirelessSettings(config.plan, report.value, range);
        if wireless.Some? {
          respondd := respondd.(wireless := wireless.value);
        }
      }
      if report.value.statistics.Some? {
        statistics := report.value.statistics.value;
      }
    }

    method UpdateAddress(config: Config, ips: seq<string>)
      modifies this`address
      ensures address == AddressAfter(config, old(address), ips)
    {
      for i := 0 to |ips|
        invariant address == AddressAfter(config, old(address), ips[..i])
      {
        assert ips[..i + 1][..i] == ips[..i];
        var ip := ips[i];
        if !HasPrefix(config, ip) {
          continue;
        }
        if address == "" || config.kind(ip).Global? || !config.kind(ip).LinkLocal? {
          address := ip;
        }
      }
      assert ips[..|ips|] == ips;
    }
  }

  /**
   * Learning a node calls the wireless fold twice, with unrelated visiting
   * orders; they agree, so a fresh node compares as in sync whatever its report
   * lacks, unless its altitude is not a number.
   */
  method NewNode(config: Config, report: Report, now: int, range: nat -> seq<nat>, rangeAgain: nat -> seq<nat>)
    returns (node: NodeRecord?)
    requires config.plan.Valid() && Ranges(config.plan, range) && Ranges(config.plan, rangeAgain)
    ensures node == null <==> report.nodeinfo.None?
    ensures node != null ==> fresh(node) && node.View() == FreshNode(config, report, now)
    ensures node != null ==> node.settings == Learned(config, report)
    ensures node != null ==> (CheckRespondd(node.settings, node.respondd) <==> !node.settings.location.altitude.NaN?)
  {
    if report.nodeinfo.None? {
      return null;
    }
    var info := report.nodeinfo.value;
    node := new NodeRecord(info.nodeId, Row(None, None, "", NO_SETTINGS.(hostname := info.hostname)));
    if info.owner.Some? {
      node.settings := node.settings.(owner := info.owner.value);
    }
    if info.location.Some? {
      node.settings := node.settings.(location := info.location.value);
    }
    var wireless := GetWirelessSettings(config.plan, report, range);
    if wireless.Some? {
      node.settings := node.settings.(wireless := wireless.value);
    }
    node.Update(config, Some(report), now, rangeAgain);
  }

  // ----- what the address loop amounts to

  ghost predicate Usable(config: Config, ips: seq<string>, i: int) {
    0 <= i < |ips| && |config.prefix| <= |ips[i]| && ips[i][..|config.prefix|] == config.prefix
  }

  /** Position i is the last prefix match that is not link-local. */
  ghost predicate LastRoutable(config: Config, ips: seq<string>, i: int) {
    && Usable(config, ips, i) && !config.kind(ips[i]).LinkLocal?
    && forall j | i < j :: Usable(config, ips, j) ==> config.kind(ips[j]).LinkLocal?
  }

  /** The intended choice: the last routable match, else the prior address, else the first match. */
  ghost predicate IntendedAddress(config: Config, prior: string, ips: seq<string>, address: string) {
    if exists i :: LastRoutable(config, ips, i) then
      exists i :: LastRoutable(config, ips, i) && address == ips[i]
    else if prior != "" || !exists i :: Usable(config, ips, i) then address == prior
    else exists i :: Usable(config, ips, i) && address == ips[i] && forall j | 0 <= j < i :: !Usable(config, ips, j)
  }

  lemma {:induction false} AddressAfterConcat(config: Config, prior: string, left: seq<string>, right: seq<string>)
    ensures AddressAfter(config, prior, left + right) == AddressAfter(config, AddressAfter(config, prior, left), right)
    decreases |right|
  {
    if right == [] {
      assert left + right == left;
    } else {
      var n := |right| - 1;
      AddressAfterConcat(config, prior, left, right[..n]);
      assert (left + right)[..|left + right| - 1] == left + right[..n];
    }
  }

  /** Without a routable match the address only moves from empty to the first match. */
  lemma {:induction false} AddressWithoutRoutable(config: Config, prior: string, ips: seq<string>)
    requires config.kind("") != LinkLocal
    requires forall i :: Usable(config, ips, i) ==> config.kind(ips[i]).LinkLocal?
    ensures IntendedAddress(config, prior, ips, AddressAfter(config, prior, ips))
    decreases |ips|
  {
    if ips == [] {
    } else {
      var n := |ips| - 1;
      var init := ips[..n];
      assert forall i :: Usable(config, init, i) <==> i < n && Usable(config, ips, i);
      assert forall i :: Usable(config, init, i) ==> init[i] == ips[i];
      AddressWithoutRoutable(config, prior, init);
      assert forall i :: !LastRoutable(config, init, i) && !LastRoutable(config, ips, i);
      assert Usable(config, ips, n) <==> HasPrefix(config, ips[n]);
      if prior == "" && !exists i :: Usable(config, init, i) {
        assert Usable(config, ips, n) ==> AddressAfter(config, prior, ips) == ips[n];
      }
    }
  }

  /**
   * The loop makes the intended choice exactly when the last routable match is
   * not an empty text followed by another match; so for nonempty texts always.
   */
  lemma AddressSelection(config: Config, prior: string, ips: seq<string>)
    requires config.kind("") != LinkLocal
    ensures IntendedAddress(config, prior, ips, AddressAfter(config, prior, ips)) <==>
            !exists i, j :: LastRoutable(config, ips, i) && ips[i] == "" && i < j && Usable(config, ips, j)
  {
    if i :| LastRoutable(config, ips, i) {
      var rest := AddressFromRoutable(config, prior, ips, i);
      if ips[i] == "" && exists j :: i < j && Usable(config, ips, j) {
        var j :| i < j && Usable(config, ips, j);
        assert Usable(config, rest, j - i - 1);
        assert AddressAfter(config, "", rest) != "";
        assert forall k :: LastRoutable(config, ips, k) ==> k == i;
      }
    } else {
      forall k | Usable(config, ips, k)
        ensures config.kind(ips[k]).LinkLocal?
      {
        NoLastRoutable(config, ips, k);
      }
      AddressWithoutRoutable(config, prior, ips);
    }
  }

  lemma AddressFromRoutable(config: Config, prior: string, ips: seq<string>, i: int) returns (rest: seq<string>)
    requires config.kind("") != LinkLocal && LastRoutable(config, ips, i)
    ensures rest == ips[i + 1..]
    ensures forall j :: Usable(config, rest, j) <==> j >= 0 && Usable(config, ips, i + 1 + j)
    ensures forall j :: Usable(config, rest, j) ==> config.kind(rest[j]).LinkLocal?
    ensures AddressAfter(config, prior, ips) == AddressAfter(config, ips[i], rest)
    ensures IntendedAddress(config, ips[i], rest, AddressAfter(config, ips[i], rest))
    ensures forall k :: !LastRoutable(config, rest, k)
  {
    rest := ips[i + 1..];
    var left := ips[..i + 1];
    assert left + rest == ips && left[..i] == ips[..i];
    AddressAfterConcat(config, prior, left, rest);
    AddressWithoutRoutable(config, ips[i], rest);
  }

  lemma {:induction false} NoLastRoutable(config: Config, ips: seq<string>, k: int)
    requires forall i :: !LastRoutable(config, ips, i)
    requires Usable(config, ips, k)
    ensures config.kind(ips[k]).LinkLocal?
    decreases |ips| - k
  {
    forall j | k < j && Usable(config, ips, j)
      ensures config.kind(ips[j]).LinkLocal?
    {
      NoLastRoutable(config, ips, j);
    }
    assert !LastRoutable(config, ips, k);
  }

  /** Applying the same report twice changes the address no further. */
  lemma AddressIdempotent(config: Config, prior: string, ips: seq<string>)
    requires config.kind("") != LinkLocal
    ensures var once := AddressAfter(config, prior, ips); AddressAfter(config, once, ips) == once
  {
    var once := AddressAfter(config, prior, ips);
    if i :| LastRoutable(config, ips, i) {
      var r1 := AddressFromRoutable(config, prior, ips, i);
      var r2 := AddressFromRoutable(config, once, ips, i);
    } else {
      forall k | Usable(config, ips, k)
        ensures config.kind(ips[k]).LinkLocal?
      {
        NoLastRoutable(config, ips, k);
      }
      AddressWithoutRoutable(config, prior, ips);
      AddressWithoutRoutable(config, once, ips);
    }
  }

  /**
   * A routable address is given up for a link-local one exactly if the last
   * routable match is an empty text followed by another match; so for nonempty
   * texts never.
   */
  lemma RoutableIsKept(config: Config, prior: string, ips: seq<string>)
    requires config.kind("") != LinkLocal
    requires prior != "" && !config.kind(prior).LinkLocal?
    ensures config.kind(AddressAfter(config, prior, ips)).LinkLocal? <==>
            exists i, j :: LastRoutable(config, ips, i) && ips[i] == "" && i < j && Usable(config, ips, j)
  {
    if i :| LastRoutable(config, ips, i) {
      var rest := AddressFromRoutable(config, prior, ips, i);
      assert forall k :: LastRoutable(config, ips, k) ==> k == i;
      if ips[i] == "" && exists j :: i < j && Usable(config, ips, j) {
        var j :| i < j && Usable(config, ips, j);
        assert Usable(config, rest, j - i - 1);
      }
    } else {
      AddressSelection(config, prior, ips);
    }
  }
}
