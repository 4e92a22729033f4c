/**
 * What overlaying a report, comparing and filtering come to, said of single
 * fields (runtime/node.go).
 */
module Overlay {
  import opened Common
  import opened Channels
  import opened Floats
  import opened Nodes

  /** A channel that counts, of the given band: 5 GHz exactly if its frequency lies above 5000. */
  predicate Counts(plan: Plan, ch: nat, freq: nat, five: bool) {
    && ch in plan.list && plan.list[ch].frequency == freq
    && (plan.eu ==> plan.list[ch].allowedInEU)
    && (freq > 5000 <==> five)
  }

  /** ch is the channel of the last entry that names a channel of the band that counts, or zero if none does. */
  ghost predicate LastOfBand(plan: Plan, freqs: seq<nat>, five: bool, ch: nat) {
    if ch == 0 then forall i, c | 0 <= i < |freqs| :: !Counts(plan, c, freqs[i], five)
    else exists i :: LastCounting(plan, freqs, five, ch, i)
  }

  ghost predicate LastCounting(plan: Plan, freqs: seq<nat>, five: bool, ch: nat, i: int) {
    && 0 <= i < |freqs| && Counts(plan, ch, freqs[i], five)
    && forall j, c | i < j < |freqs| :: !Counts(plan, c, freqs[j], five)
  }

  lemma CountsContributes(plan: Plan, freq: nat, ch: nat, band: Band)
    requires plan.Valid()
    ensures plan.Contributes(freq, band, ch) <==> Counts(plan, ch, freq, band.Band5?)
  {
    if ch in plan.list && plan.list[ch].frequency == freq {
      assert plan.ChannelAt(freq) == Some(ch);
    }
  }

  lemma FoldedIsLastOfBand(plan: Plan, freqs: seq<nat>, band: Band)
    requires plan.Valid()
    ensures LastOfBand(plan, freqs, band.Band5?, plan.Folded(freqs, band))
  {
    var ch := plan.Folded(freqs, band);
    FoldedIsLastPermitted(plan, freqs, band, ch);
    forall freq, c
      ensures plan.Contributes(freq, band, c) <==> Counts(plan, c, freq, band.Band5?)
    {
      CountsContributes(plan, freq, c, band);
    }
    if ch != 0 {
      var i :| LastAt(plan, freqs, band, ch, i);
      assert LastCounting(plan, freqs, band.Band5?, ch, i);
    }
  }

  /** The wireless settings a report with statistics stands for. */
  ghost predicate ShowsWireless(plan: Plan, info: NodeInfo, stats: Statistics, w: Wireless) {
    && LastOfBand(plan, stats.frequencies, false, w.channel24)
    && LastOfBand(plan, stats.frequencies, true, w.channel5)
    && w.txPower24 == (if info.wireless.Some? then info.wireless.value.txPower24 else 0)
    && w.txPower5 == (if info.wireless.Some? then info.wireless.value.txPower5 else 0)
  }

  /** `after` shows what the report says, and keeps of `before` what it does not say. */
  ghost predicate ShowsReport(plan: Plan, before: Settings, report: Report, after: Settings) {
    match report.nodeinfo
    case None => after == before
    case Some(info) =>
      && after.hostname == info.hostname
      && after.owner == (if info.owner.Some? then info.owner.value else before.owner)
      && after.location == (if info.location.Some? then info.location.value else before.location)
      && (report.statistics.None? ==> after.wireless == before.wireless)
      && (report.statistics.Some? ==> ShowsWireless(plan, info, report.statistics.value, after.wireless))
  }

  /** No listed text is both a prefix match and empty; only with an empty prefix could one be. */
  ghost predicate NoEmptyMatch(config: Config, ips: seq<string>) {
    config.kind("") != LinkLocal && forall i :: Usable(config, ips, i) ==> ips[i] != ""
  }

  /** The address a report leaves. */
  ghost predicate AddressFits(config: Config, before: string, report: Report, after: string) {
    match report.nodeinfo
    case None => after == before
    case Some(info) => NoEmptyMatch(config, info.addresses) ==> IntendedAddress(config, before, info.addresses, after)
  }

  /** A node and what it becomes when a report is overlaid on it at time now. */
  ghost predicate Overlays(config: Config, before: Node, report: Report, now: int, after: Node) {
    && after.nodeId == before.nodeId
    && after.row.settings == before.row.settings && after.row.blacklist == before.row.blacklist
    && after.row.lastseen == Some(now)
    && AddressFits(config, before.row.address, report, after.row.address)
    && ShowsReport(config.plan, before.respondd, report, after.respondd)
    && after.statistics == (if report.statistics.Some? then report.statistics.value else before.statistics)
  }

  /** Overlaying a report changes these columns and observed fields, and in this way. */
  lemma UpdatedOverlays(config: Config, n: Node, report: Report, now: int)
    requires config.plan.Valid()
    ensures Overlays(config, n, report, now, Updated(config, n, report, now))
  {
    if report.nodeinfo.Some? {
      var ips := report.nodeinfo.value.addresses;
      if NoEmptyMatch(config, ips) {
        AddressSelection(config, n.row.address, ips);
      }
      if report.statistics.Some? {
        FoldedIsLastOfBand(config.plan, report.statistics.value.frequencies, Band24);
        FoldedIsLastOfBand(config.plan, report.statistics.value.frequencies, Band5);
      }
    }
  }

  /** A node learned from its first report is stored as the report shows it, with nothing else known. */
  lemma LearnedShows(config: Config, report: Report, now: int)
    requires config.plan.Valid() && report.nodeinfo.Some?
    ensures var node := FreshNode(config, report, now);
            && node.nodeId == report.nodeinfo.value.nodeId
            && ShowsReport(config.plan, NO_SETTINGS, report, node.row.settings)
            && ShowsReport(config.plan, NO_SETTINGS, report, node.respondd)
            && node.row.lastseen == Some(now) && node.row.blacklist == None
            && AddressFits(config, "", report, node.row.address)
  {
    var info := report.nodeinfo.value;
    UpdatedOverlays(config, Load(info.nodeId, Row(None, None, "", Learned(config, report))), report, now);
    if report.statistics.Some? {
      FoldedIsLastOfBand(config.plan, report.statistics.value.frequencies, Band24);
      FoldedIsLastOfBand(config.plan, report.statistics.value.frequencies, Band5);
    }
  }

  // ----- comparison and filter

  /**
   * The comparison succeeds exactly if hostname, owner, both channels and both tx
   * powers are equal, latitude and longitude are the same signed millionths, and
   * the altitudes are equal numbers.
   */
  lemma CheckIsFieldwise(want: Settings, have: Settings)
    ensures CheckRespondd(want, have) <==>
            && want.hostname == have.hostname && want.owner == have.owner
            && Quantised(want.location.latitude) == Quantised(have.location.latitude)
            && Quantised(want.location.longitude) == Quantised(have.location.longitude)
            && IeeeEqual(want.location.altitude, have.location.altitude)
            && want.wireless == have.wireless
  {
    SameTextIffSameMillionth(want.location.latitude, have.location.latitude);
    SameTextIffSameMillionth(want.location.longitude, have.location.longitude);
  }

  /** A row seen within the last blacklistFor, and not marked within it. */
  predicate Visible(row: Row, blacklistFor: int, now: int) {
    && row.lastseen.Some? && now - row.lastseen.value <= blacklistFor
    && (row.blacklist.Some? ==> now - row.blacklist.value >= blacklistFor)
  }

  lemma FilterLetsVisiblePass(row: Row, blacklistFor: int, now: int)
    ensures TimeFilter(row, blacklistFor, now) <==> !Visible(row, blacklistFor, now)
  {
  }
}
