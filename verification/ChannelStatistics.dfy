/** The channel table of the statistics page (webroot/js/view/statistics.js). */
module ChannelStatistics {
  import opened Common
  import opened Channels

  /** The configured channels of a node. */
  datatype Configured = Configured(channel24: nat, channel5: nat)

  function On(node: Configured, band: Band): nat {
    if band.Band24? then node.channel24 else node.channel5
  }

  datatype Cell = Blank | Counted(channel: nat, count: nat)

  datatype TableRow = TableRow(cell24: Cell, cell5: Cell)

  function CellOf(row: TableRow, band: Band): Cell {
    if band.Band24? then row.cell24 else row.cell5
  }

  /** The reduce over all nodes for one channel. */
  function CountOn(nodes: seq<Configured>, band: Band, ch: nat): nat {
    if nodes == [] then 0
    else CountOn(nodes[..|nodes| - 1], band, ch) + if On(nodes[|nodes| - 1], band) == ch then 1 else 0
  }

  /** How many nodes are configured for some channel of the list. */
  function CountListed(nodes: seq<Configured>, band: Band, list: seq<nat>): nat {
    if nodes == [] then 0
    else CountListed(nodes[..|nodes| - 1], band, list) + if On(nodes[|nodes| - 1], band) in list then 1 else 0
  }

  function Total(rows: seq<TableRow>, band: Band): nat {
    if rows == [] then 0
    else
      var cell := CellOf(rows[|rows| - 1], band);
      Total(rows[..|rows| - 1], band) + if cell.Counted? then cell.count else 0
  }

  lemma {:induction false} ListedOneMore(nodes: seq<Configured>, band: Band, list: seq<nat>, ch: nat)
    requires ch !in list
    ensures CountListed(nodes, band, list + [ch]) == CountListed(nodes, band, list) + CountOn(nodes, band, ch)
  {
    if nodes == [] {
    } else {
      ListedOneMore(nodes[..|nodes| - 1], band, list, ch);
    }
  }

  lemma {:induction false} NothingListed(nodes: seq<Configured>, band: Band)
    ensures CountListed(nodes, band, []) == 0
  {
    if nodes == [] {
    } else {
      NothingListed(nodes[..|nodes| - 1], band);
    }
  }

  function Upto(list: seq<nat>, n: nat): seq<nat> {
    if n < |list| then list[..n] else list
  }

  /** Row n of the table, said without the loop. */
  predicate RowFits(nodes: seq<Configured>, band: Band, list: seq<nat>, cell: Cell, n: nat) {
    cell == if n < |list| && list[n] != 0 then Counted(list[n], CountOn(nodes, band, list[n])) else Blank
  }

  lemma RowAdds(nodes: seq<Configured>, band: Band, list: seq<nat>, rows: seq<TableRow>, row: TableRow)
    requires NoDuplicates(list) && 0 !in list
    requires Total(rows, band) == CountListed(nodes, band, Upto(list, |rows|))
    requires RowFits(nodes, band, list, CellOf(row, band), |rows|)
    ensures Total(rows + [row], band) == CountListed(nodes, band, Upto(list, |rows| + 1))
  {
    var n := |rows|;
    assert (rows + [row])[..n] == rows;
    if n < |list| {
      assert list[n] in list;
      assert Upto(list, n + 1) == Upto(list, n) + [list[n]];
      ListedOneMore(nodes, band, Upto(list, n), list[n]);
    }
  }

  /**
   * Row i of the table counts the nodes on the i-th channel of each list. When
   * the lists hold no channel twice, as the server's lists do, the counts of a
   * band add up to the number of nodes configured for a listed channel.
   */
  method UpdateChannelTable(nodes: seq<Configured>, wifi24: Option<seq<nat>>, wifi5: Option<seq<nat>>)
    returns (rows: seq<TableRow>)
    ensures wifi24.None? || wifi5.None? ==> rows == []
    ensures wifi24.Some? && wifi5.Some? ==>
              && |rows| == 1 + (if |wifi24.value| > |wifi5.value| then |wifi24.value| else |wifi5.value|)
              && (forall i | 0 <= i < |rows| ::
                    && RowFits(nodes, Band24, wifi24.value, rows[i].cell24, i)
                    && RowFits(nodes, Band5, wifi5.value, rows[i].cell5, i))
    ensures wifi24.Some? && wifi5.Some? && NoDuplicates(wifi24.value) && 0 !in wifi24.value ==>
              Total(rows, Band24) == CountListed(nodes, Band24, wifi24.value)
    ensures wifi24.Some? && wifi5.Some? && NoDuplicates(wifi5.value) && 0 !in wifi5.value ==>
              Total(rows, Band5) == CountListed(nodes, Band5, wifi5.value)
  {
    rows := [];
    if wifi24.None? || wifi5.None? {
      return;
    }
    var list24, list5 := wifi24.value, wifi5.value;
    var end := if |list24| > |list5| then |list24| else |list5|;
    NothingListed(nodes, Band24);
    NothingListed(nodes, Band5);
    var i := 0;
    while i <= end
      invariant i == |rows| <= end + 1
      invariant forall k | 0 <= k < i ::
                  RowFits(nodes, Band24, list24, rows[k].cell24, k) && RowFits(nodes, Band5, list5, rows[k].cell5, k)
      invariant NoDuplicates(list24) && 0 !in list24 ==> Total(rows, Band24) == CountListed(nodes, Band24, Upto(list24, i))
      invariant NoDuplicates(list5) && 0 !in list5 ==> Total(rows, Band5) == CountListed(nodes, Band5, Upto(list5, i))
    {
      var cell24, cell5 := Blank, Blank;
      if i < |list24| && list24[i] != 0 {
        cell24 := Counted(list24[i], CountOn(nodes, Band24, list24[i]));
      }
      if i < |list5| && list5[i] != 0 {
        cell5 := Counted(list5[i], CountOn(nodes, Band5, list5[i]));
      }
      if NoDuplicates(list24) && 0 !in list24 {
        RowAdds(nodes, Band24, list24, rows, TableRow(cell24, cell5));
      }
      if NoDuplicates(list5) && 0 !in list5 {
        RowAdds(nodes, Band5, list5, rows, TableRow(cell24, cell5));
      }
      rows := rows + [TableRow(cell24, cell5)];
      i := i + 1;
    }
  }

  /** The nodes configured for a permitted channel of the band. */
  ghost function OnPermitted(plan: Plan, nodes: seq<Configured>, band: Band): set<int> {
    set i | 0 <= i < |nodes| && IsPermitted(plan, if band.Band24? then nodes[i].channel24 else nodes[i].channel5, band)
  }

  predicate IsPermitted(plan: Plan, ch: nat, band: Band) {
    && ch in plan.list && (plan.eu ==> plan.list[ch].allowedInEU)
    && (plan.list[ch].frequency > 5000 <==> band.Band5?)
  }

  /** The nodes configured for one channel. */
  ghost function OnChannel(nodes: seq<Configured>, band: Band, ch: nat): set<int> {
    set i | 0 <= i < |nodes| && ch == if band.Band24? then nodes[i].channel24 else nodes[i].channel5
  }

  /** The count of a row is the number of nodes configured for its channel in its band. */
  lemma {:induction false} CountOnIsSize(nodes: seq<Configured>, band: Band, ch: nat)
    ensures CountOn(nodes, band, ch) == |OnChannel(nodes, band, ch)|
  {
    if nodes == [] {
    } else {
      var n := |nodes| - 1;
      CountOnIsSize(nodes[..n], band, ch);
      OnChannelGrows(nodes, band, ch);
    }
  }

  lemma OnChannelGrows(nodes: seq<Configured>, band: Band, ch: nat)
    requires nodes != []
    ensures var n := |nodes| - 1;
            |OnChannel(nodes, band, ch)| == |OnChannel(nodes[..n], band, ch)| + if On(nodes[n], band) == ch then 1 else 0
  {
    var n := |nodes| - 1;
    assert OnChannel(nodes, band, ch) == OnChannel(nodes[..n], band, ch) + if On(nodes[n], band) == ch then {n} else {};
  }

  /** For a list as the server makes it, in whatever order, the nodes on a listed channel are those on a permitted channel of the band. */
  lemma {:induction false} CountOnServerList(plan: Plan, nodes: seq<Configured>, band: Band, list: seq<nat>)
    requires IsBandList(plan, list, band)
    ensures CountListed(nodes, band, list) == |OnPermitted(plan, nodes, band)|
  {
    if nodes == [] {
    } else {
      var n := |nodes| - 1;
      CountOnServerList(plan, nodes[..n], band, list);
      assert On(nodes[n], band) in list <==> IsPermitted(plan, On(nodes[n], band), band);
      OnPermittedGrows(plan, nodes, band);
    }
  }

  lemma OnPermittedGrows(plan: Plan, nodes: seq<Configured>, band: Band)
    requires nodes != []
    ensures var n := |nodes| - 1;
            |OnPermitted(plan, nodes, band)| ==
            |OnPermitted(plan, nodes[..n], band)| + if IsPermitted(plan, On(nodes[n], band), band) then 1 else 0
  {
    var n := |nodes| - 1;
    assert OnPermitted(plan, nodes, band) ==
           OnPermitted(plan, nodes[..n], band) + if IsPermitted(plan, On(nodes[n], band), band) then {n} else {};
  }

  /**
   * Server and page together: with the lists the server splits the channel
   * table into, the counts of a band add up to the nodes configured for a
   * permitted channel of that band, and every other node is counted nowhere.
   */
  method ServerChannelTable(plan: Plan, order: seq<nat>, nodes: seq<Configured>) returns (rows: seq<TableRow>)
    requires plan.Valid() && plan.IsRange(order)
    ensures Total(rows, Band24) == |OnPermitted(plan, nodes, Band24)|
    ensures Total(rows, Band5) == |OnPermitted(plan, nodes, Band5)|
  {
    var wifi24, wifi5 := SplitChannels(plan, order);
    rows := UpdateChannelTable(nodes, Some(wifi24), Some(wifi5));
    CountOnServerList(plan, nodes, Band24, wifi24);
    CountOnServerList(plan, nodes, Band5, wifi5);
  }
}
