/**
 * The wifi channel table and the lookups on it (runtime/channel.go), and the
 * split of the permitted channels into two bands (websocket/hd_connect.go).
 */
module Channels {
  import opened Common

  const FREQ_THRESHOLD := 5000

  datatype Channel = Channel(frequency: nat, allowedInEU: bool, dfs: bool, indoor: bool, sdr: bool)

  /** The rows of the channel table. */
  function ChannelRow(ch: nat): Option<Channel> {
    match ch
    case 1 => Some(Channel(2412, true, false, false, false))
    case 2 => Some(Channel(2417, true, false, false, false))
    case 3 => Some(Channel(2422, true, false, false, false))
    case 4 => Some(Channel(2427, true, false, false, false))
    case 5 => Some(Channel(2432, true, false, false, false))
    case 6 => Some(Channel(2437, true, false, false, false))
    case 7 => Some(Channel(2442, true, false, false, false))
    case 8 => Some(Channel(2447, true, false, false, false))
    case 9 => Some(Channel(2452, true, false, false, false))
    case 10 => Some(Channel(2457, true, false, false, false))
    case 11 => Some(Channel(2462, true, false, false, false))
    case 12 => Some(Channel(2467, true, false, false, false))
    case 13 => Some(Channel(2472, true, false, false, false))
    case 14 => Some(Channel(2484, false, false, false, false))
    case 32 => Some(Channel(5160, true, false, false, false))
    case 34 => Some(Channel(5170, false, false, true, false))
    case 36 => Some(Channel(5180, true, false, true, false))
    case 38 => Some(Channel(5190, false, false, true, false))
    case 40 => Some(Channel(5200, true, false, true, false))
    case 42 => Some(Channel(5210, false, false, true, false))
    case 44 => Some(Channel(5220, true, false, true, false))
    case 46 => Some(Channel(5230, false, false, true, false))
    case 48 => Some(Channel(5240, true, false, true, false))
    case 50 => Some(Channel(5250, true, true, false, false))
    case 52 => Some(Channel(5260, true, true, true, false))
    case 54 => Some(Channel(5270, false, true, true, false))
    case 56 => Some(Channel(5280, true, true, true, false))
    case 58 => Some(Channel(5290, false, true, true, false))
    case 60 => Some(Channel(5300, true, true, true, false))
    case 62 => Some(Channel(5310, false, true, true, false))
    case 64 => Some(Channel(5320, true, true, true, false))
    case 68 => Some(Channel(5340, true, true, true, false))
    case 96 => Some(Channel(5480, true, true, false, false))
    case 100 => Some(Channel(5500, true, true, false, false))
    case 102 => Some(Channel(5510, false, true, false, false))
    case 104 => Some(Channel(5520, true, true, false, false))
    case 106 => Some(Channel(5530, false, true, false, false))
    case 108 => Some(Channel(5540, true, true, false, false))
    case 110 => Some(Channel(5550, false, true, false, false))
    case 112 => Some(Channel(5560, true, true, false, false))
    case 114 => Some(Channel(5570, true, true, false, false))
    case 116 => Some(Channel(5580, true, true, false, false))
    case 118 => Some(Channel(5590, false, true, false, false))
    case 120 => Some(Channel(5600, true, true, false, false))
    case 122 => Some(Channel(5610, false, true, false, false))
    case 124 => Some(Channel(5620, true, true, false, false))
    case 126 => Some(Channel(5630, false, true, false, false))
    case 128 => Some(Channel(5640, true, true, false, false))
    case 132 => Some(Channel(5660, true, true, false, false))
    case 134 => Some(Channel(5670, false, true, false, false))
    case 136 => Some(Channel(5680, true, true, false, false))
    case 138 => Some(Channel(5690, false, true, false, false))
    case 140 => Some(Channel(5700, true, true, false, false))
    case 142 => Some(Channel(5710, false, true, false, false))
    case 144 => Some(Channel(5720, true, true, false, true))
    case 149 => Some(Channel(5745, true, false, false, true))
    case 151 => Some(Channel(5755, true, false, false, true))
    case 153 => Some(Channel(5765, true, false, false, true))
    case 155 => Some(Channel(5775, true, false, false, true))
    case 157 => Some(Channel(5785, true, false, false, true))
    case 159 => Some(Channel(5795, true, false, false, true))
    case 161 => Some(Channel(5805, true, false, false, true))
    case 165 => Some(Channel(5825, true, false, false, true))
    case 169 => Some(Channel(5845, true, false, false, true))
    case 173 => Some(Channel(5865, true, false, false, true))
    case _ => None
  }

  const CHANNEL_LIST: map<nat, Channel> :=
    map ch | 0 <= ch < 174 && ChannelRow(ch).Some? :: ChannelRow(ch).value

  datatype Band = Band24 | Band5

  function BandOf(channel: Channel): Band {
    if channel.frequency > FREQ_THRESHOLD then Band5 else Band24
  }

  /**
   * The two package variables the lookups read: whether only channels allowed
   * in the EU count, and the table itself.
   */
  datatype Plan = Plan(eu: bool, list: map<nat, Channel>) {

    /** Zero is no channel, and a frequency names at most one channel. */
    ghost predicate Valid() {
      && 0 !in list
      && forall a, b | a in list && b in list && list[a].frequency == list[b].frequency :: a == b
    }

    predicate Permitted(ch: nat) {
      ch in list && (!eu || list[ch].allowedInEU)
    }

    function GetChannel(ch: nat): Option<Channel> {
      if ch in list then
        if !eu || list[ch].allowedInEU then Some(list[ch]) else None
      else None
    }

    predicate ChannelIs5GHz(ch: nat) {
      ch in list && (!eu || list[ch].allowedInEU) && list[ch].frequency > FREQ_THRESHOLD
    }

    /** One order in which ranging over the table may visit it. */
    ghost predicate IsRange(order: seq<nat>) {
      && NoDuplicates(order)
      && forall ch :: ch in order <==> ch in list
    }

    /** The search loop with its early return, over one visiting order. */
    function GetChannelByFrequency(order: seq<nat>, freq: nat): (nat, Option<Channel>)
      requires forall ch | ch in order :: ch in list
    {
      if order == [] then (0, None)
      else if list[order[0]].frequency == freq then (order[0], Some(list[order[0]]))
      else GetChannelByFrequency(order[1..], freq)
    }

    /** Which channel has this frequency, said without any visiting order. */
    ghost function ChannelAt(freq: nat): Option<nat> {
      if ch :| ch in list && list[ch].frequency == freq then Some(ch) else None
    }

    /** What one reported frequency contributes to a band. */
    ghost predicate Contributes(freq: nat, band: Band, ch: nat) {
      ChannelAt(freq) == Some(ch) && Permitted(ch) && BandOf(list[ch]) == band
    }

    /** The channel of a band after folding over the reported frequencies: the last contribution wins. */
    ghost function Folded(freqs: seq<nat>, band: Band): nat {
      if freqs == [] then 0
      else
        var last := freqs[|freqs| - 1];
        if c: nat :| Contributes(last, band, c) then c
        else Folded(freqs[..|freqs| - 1], band)
    }
  }

  /** The table of the source is valid, with and without the EU restriction. */
  lemma TableIsValid(eu: bool)
    ensures Plan(eu, CHANNEL_LIST).Valid()
  {
    forall ch: nat | ChannelRow(ch).Some?
      ensures ChannelRow(ch).value.frequency == if ch == 14 then 2484 else if ch < 14 then 2407 + 5 * ch else 5000 + 5 * ch
    {
      RowFrequency(ch);
    }
  }

  /** In the source's table the two bands are apart: channels up to 14 are 2.4 GHz ones, all others lie above 5 GHz. */
  lemma TableBands(ch: nat)
    requires ch in CHANNEL_LIST
    ensures BandOf(CHANNEL_LIST[ch]) == if ch <= 14 then Band24 else Band5
    ensures CHANNEL_LIST[ch].frequency == if ch == 14 then 2484 else if ch < 14 then 2407 + 5 * ch else 5000 + 5 * ch
  {
    RowFrequency(ch);
  }

  lemma RowFrequency(ch: nat)
    requires ChannelRow(ch).Some?
    ensures ch <= 14 || 32 <= ch
    ensures ChannelRow(ch).value.frequency == if ch == 14 then 2484 else if ch < 14 then 2407 + 5 * ch else 5000 + 5 * ch
  {
  }

  /**
   * The search gives the same answer for every visiting order, finds a
   * frequency exactly when the table has it, and inverts the table.
   */
  lemma {:induction false} FrequencyLookupInvertsTable(plan: Plan, order: seq<nat>, freq: nat)
    requires plan.Valid() && plan.IsRange(order)
    ensures plan.GetChannelByFrequency(order, freq) ==
            match plan.ChannelAt(freq) case Some(ch) => (ch, Some(plan.list[ch])) case None => (0, None)
    ensures forall ch | ch in plan.list ::
              plan.GetChannelByFrequency(order, plan.list[ch].frequency) == (ch, Some(plan.list[ch]))
  {
    SearchFindsWitness(plan, order, freq);
    forall ch | ch in plan.list
      ensures plan.GetChannelByFrequency(order, plan.list[ch].frequency) == (ch, Some(plan.list[ch]))
    {
      SearchFindsWitness(plan, order, plan.list[ch].frequency);
    }
  }

  lemma {:induction false} SearchFindsWitness(plan: Plan, order: seq<nat>, freq: nat)
    requires plan.Valid()
    requires forall ch | ch in order :: ch in plan.list
    ensures var (ch, c) := plan.GetChannelByFrequency(order, freq);
            if c.Some? then ch in order && c.value == plan.list[ch] && plan.list[ch].frequency == freq
            else ch == 0 && forall k | k in order :: plan.list[k].frequency != freq
  {
    if order == [] {
    } else {
      SearchFindsWitness(plan, order[1..], freq);
    }
  }

  /** Position i contributes channel ch to the band and no later position contributes to it. */
  ghost predicate LastAt(plan: Plan, freqs: seq<nat>, band: Band, ch: nat, i: int) {
    && 0 <= i < |freqs|
    && plan.Contributes(freqs[i], band, ch)
    && forall j, c | i < j < |freqs| :: !plan.Contributes(freqs[j], band, c)
  }

  /**
   * The fold, said without recursion: the result is a channel exactly when some
   * position contributes it and no later position contributes anything, and it
   * is zero exactly when nothing contributes. So a nonzero result is permitted
   * and in its own band.
   */
  lemma {:induction false} FoldedIsLastPermitted(plan: Plan, freqs: seq<nat>, band: Band, ch: nat)
    requires plan.Valid()
    ensures ch == plan.Folded(freqs, band) <==>
            if ch == 0 then forall i, c | 0 <= i < |freqs| :: !plan.Contributes(freqs[i], band, c)
            else exists i :: LastAt(plan, freqs, band, ch, i)
  {
    if freqs == [] {
    } else {
      var n := |freqs| - 1;
      var init := freqs[..n];
      if c: nat :| plan.Contributes(freqs[n], band, c) {
        LastContributes(plan, freqs, band, c);
      } else {
        FoldedIsLastPermitted(plan, init, band, ch);
        forall i
          ensures LastAt(plan, freqs, band, ch, i) <==> LastAt(plan, init, band, ch, i)
        {
          assert forall j | 0 <= j < n :: init[j] == freqs[j];
        }
        assert forall i, c | 0 <= i < |freqs| :: i < n ==> (plan.Contributes(freqs[i], band, c) <==> plan.Contributes(init[i], band, c));
      }
    }
  }

  lemma LastContributes(plan: Plan, freqs: seq<nat>, band: Band, c: nat)
    requires plan.Valid() && freqs != [] && plan.Contributes(freqs[|freqs| - 1], band, c)
    ensures plan.Folded(freqs, band) == c != 0
    ensures LastAt(plan, freqs, band, c, |freqs| - 1)
    ensures forall i, k | LastAt(plan, freqs, band, k, i) :: k == c
  {
    forall i, k | LastAt(plan, freqs, band, k, i)
      ensures k == c
    {
      assert i == |freqs| - 1;
    }
  }

  lemma FoldedInBand(plan: Plan, freqs: seq<nat>, band: Band)
    requires plan.Valid()
    ensures var ch := plan.Folded(freqs, band);
            ch == 0 || (plan.Permitted(ch) && BandOf(plan.list[ch]) == band)
  {
    FoldedIsLastPermitted(plan, freqs, band, plan.Folded(freqs, band));
  }

  /** The list holds the permitted channels of the band, each once. */
  ghost predicate IsBandList(plan: Plan, list: seq<nat>, band: Band) {
    && NoDuplicates(list)
    && forall ch :: ch in list <==> plan.Permitted(ch) && BandOf(plan.list[ch]) == band
  }

  /**
   * The package initialiser: for every visiting order of the table the two
   * lists are duplicate-free, disjoint, and together hold exactly the permitted
   * channels, each in its own band.
   */
  method SplitChannels(plan: Plan, order: seq<nat>) returns (wifi24: seq<nat>, wifi5: seq<nat>)
    requires plan.IsRange(order)
    ensures IsBandList(plan, wifi24, Band24) && IsBandList(plan, wifi5, Band5)
    ensures forall ch :: ch in wifi5 <==> plan.ChannelIs5GHz(ch)
    ensures forall ch :: ch in wifi24 || ch in wifi5 <==> plan.GetChannel(ch).Some?
    ensures forall ch :: !(ch in wifi24 && ch in wifi5)
    ensures plan.Valid() ==> 0 !in wifi24 && 0 !in wifi5
  {
    wifi24, wifi5 := [], [];
    for i := 0 to |order|
      invariant NoDuplicates(wifi24) && NoDuplicates(wifi5)
      invariant forall ch :: ch in wifi24 <==> ch in order[..i] && plan.Permitted(ch) && BandOf(plan.list[ch]) == Band24
      invariant forall ch :: ch in wifi5 <==> ch in order[..i] && plan.Permitted(ch) && BandOf(plan.list[ch]) == Band5
    {
      var ch := order[i];
      assert ch !in order[..i];
      assert order[..i + 1] == order[..i] + [ch];
      var channel := plan.list[ch];
      if plan.eu && !channel.allowedInEU {
        continue;
      }
      if channel.frequency > FREQ_THRESHOLD {
        wifi5 := wifi5 + [ch];
      } else {
        wifi24 := wifi24 + [ch];
      }
    }
    assert order[..|order|] == order;
  }
}
