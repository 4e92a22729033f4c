/**
 * One round of the pinger (runtime/ping.go): a goroutine per row, all appending
 * to two shared slices without a lock, and a WaitGroup. An append is three
 * atomic steps: read the slice header; write the cell, or allocate and copy
 * when the array is full; store the new header.
 */
module Pinger {
  import opened Common

  /** What TimeFilter, address resolution and the ping make of a row. */
  datatype Fate = Skipped | Answers | Silent

  datatype Target = Target(nodeId: string, fate: Fate)

  datatype Header = Header(arr: nat, length: nat)

  /** Where a goroutine stands. */
  datatype Place = Start | HaveHeader(header: Header) | HaveCell(header: Header) | Done

  /**
   * `arrays` is the memory behind the slices: cells hold the goroutine whose
   * node ID was written, or nothing yet. `headers` maps each list to its slice.
   */
  datatype Round = Round(arrays: seq<seq<Option<nat>>>, trues: Header, falses: Header, places: seq<Place>, pending: int)

  predicate IsTrueList(target: Target) { target.fate.Answers? }

  function HeaderOf(r: Round, answers: bool): Header { if answers then r.trues else r.falses }

  /** One turn given to a goroutine, and how many cells a new array gets beyond the one needed. */
  datatype Turn = Turn(goroutine: nat, spare: nat)

  /** Two nil slices, all goroutines started, the WaitGroup at the number of rows, which is what the source counts. */
  function Begin(targets: seq<Target>): Round {
    Round([[], []], Header(0, 0), Header(1, 0), seq(|targets|, _ => Start), |targets|)
  }

  function Step(targets: seq<Target>, r: Round, turn: Turn): Round {
    var g := turn.goroutine;
    if g >= |targets| || g >= |r.places| then r
    else
      var answers := IsTrueList(targets[g]);
      match r.places[g]
      case Start =>
        if targets[g].fate.Skipped? then r.(places := r.places[g := Done], pending := r.pending - 1)
        else r.(places := r.places[g := HaveHeader(HeaderOf(r, answers))])
      case HaveHeader(Header(arr, length)) =>
        if arr >= |r.arrays| || length > |r.arrays[arr]| then r
        else if length < |r.arrays[arr]| then
          r.(arrays := r.arrays[arr := r.arrays[arr][length := Some(g)]], places := r.places[g := HaveCell(Header(arr, length + 1))])
        else
          var grown := r.arrays[arr] + [Some(g)] + seq(turn.spare, _ => None);
          r.(arrays := r.arrays + [grown], places := r.places[g := HaveCell(Header(|r.arrays|, length + 1))])
      case HaveCell(header) =>
        var r1 := if answers then r.(trues := header) else r.(falses := header);
        r1.(places := r.places[g := Done], pending := r.pending - 1)
      case Done => r
  }

  function Execute(targets: seq<Target>, schedule: seq<Turn>): Round {
    if schedule == [] then Begin(targets)
    else Step(targets, Execute(targets, schedule[..|schedule| - 1]), schedule[|schedule| - 1])
  }

  // ----- single turns

  /** The first turn of a goroutine: an ineligible row is done, any other one reads the header of its list. */
  lemma StartTurn(targets: seq<Target>, r: Round, turn: Turn)
    requires turn.goroutine < |targets| == |r.places| && r.places[turn.goroutine].Start?
    ensures var g, r1 := turn.goroutine, Step(targets, r, turn);
            && r1.arrays == r.arrays && r1.trues == r.trues && r1.falses == r.falses
            && r1.pending == (if targets[g].fate.Skipped? then r.pending - 1 else r.pending)
            && r1.places == r.places[g := match targets[g].fate
                                          case Skipped => Done
                                          case Answers => HaveHeader(r.trues)
                                          case Silent => HaveHeader(r.falses)]
  {
  }

  /**
   * The second turn: with room left the cell after the last one is written in
   * the very array others may share; without, a longer copy is made and the old
   * array stays. No header changes yet.
   */
  lemma WriteTurn(targets: seq<Target>, r: Round, turn: Turn)
    requires turn.goroutine < |targets| == |r.places| && r.places[turn.goroutine].HaveHeader?
    requires var h := r.places[turn.goroutine].header; h.arr < |r.arrays| && h.length <= |r.arrays[h.arr]|
    ensures var g, r1 := turn.goroutine, Step(targets, r, turn);
            var h := r.places[g].header;
            var full := h.length == |r.arrays[h.arr]|;
            var at := if full then |r.arrays| else h.arr;
            && r1.trues == r.trues && r1.falses == r.falses && r1.pending == r.pending
            && r1.places == r.places[g := HaveCell(Header(at, h.length + 1))]
            && |r1.arrays| == |r.arrays| + (if full then 1 else 0)
            && |r1.arrays[at]| == (if full then h.length + 1 + turn.spare else |r.arrays[h.arr]|)
            && r1.arrays[at][h.length] == Some(g)
            && (forall k | 0 <= k < h.length :: r1.arrays[at][k] == r.arrays[h.arr][k])
            && (forall k | h.length < k < |r1.arrays[at]| :: r1.arrays[at][k] == if full then None else r.arrays[h.arr][k])
            && (forall a | 0 <= a < |r.arrays| && a != at :: r1.arrays[a] == r.arrays[a])
  {
  }

  /** The third turn: the header is stored for the list of the goroutine, which is then done. */
  lemma StoreTurn(targets: seq<Target>, r: Round, turn: Turn)
    requires turn.goroutine < |targets| == |r.places| && r.places[turn.goroutine].HaveCell?
    ensures var g, r1 := turn.goroutine, Step(targets, r, turn);
            && r1.arrays == r.arrays && r1.pending == r.pending - 1
            && r1.places == r.places[g := Done]
            && r1.trues == (if targets[g].fate.Answers? then r.places[g].header else r.trues)
            && r1.falses == (if targets[g].fate.Answers? then r.falses else r.places[g].header)
  {
  }

  // ----- what a slice may hold, in every interleaving

  /**
   * `index[g]` remembers where goroutine g wrote or will write. A cell of an
   * array that belongs to a list holds only goroutines of that list that write
   * at exactly that index; and all cells below a header are filled.
   */
  ghost predicate CellsFit(targets: seq<Target>, r: Round, owner: seq<bool>, index: seq<int>) {
    && |owner| == |r.arrays| && |index| == |targets|
    && forall a, k | 0 <= a < |r.arrays| && 0 <= k < |r.arrays[a]| && r.arrays[a][k].Some? ::
         CellFits(targets, owner, index, a, k, r.arrays[a][k].value)
  }

  ghost predicate CellFits(targets: seq<Target>, owner: seq<bool>, index: seq<int>, a: nat, k: nat, g: nat) {
    && a < |owner| && g < |targets| == |index|
    && targets[g].fate == (if owner[a] then Answers else Silent)
    && index[g] == k
  }

  ghost predicate Filled(r: Round, owner: seq<bool>, answers: bool, h: Header) {
    && h.arr < |r.arrays| == |owner| && owner[h.arr] == answers
    && h.length <= |r.arrays[h.arr]|
    && forall k | 0 <= k < h.length :: r.arrays[h.arr][k].Some?
  }

  ghost predicate PlaceFits(targets: seq<Target>, r: Round, owner: seq<bool>, index: seq<int>, g: nat)
    requires g < |targets| == |r.places| == |index|
  {
    match r.places[g]
    case HaveHeader(h) => !targets[g].fate.Skipped? && Filled(r, owner, IsTrueList(targets[g]), h) && index[g] == h.length
    case HaveCell(h) => !targets[g].fate.Skipped? && Filled(r, owner, IsTrueList(targets[g]), h) && index[g] == h.length - 1
    case _ => true
  }

  ghost predicate Inv(targets: seq<Target>, r: Round, owner: seq<bool>, index: seq<int>) {
    && |r.places| == |targets|
    && CellsFit(targets, r, owner, index)
    && Filled(r, owner, true, r.trues) && Filled(r, owner, false, r.falses)
    && (forall g | 0 <= g < |targets| :: PlaceFits(targets, r, owner, index, g))
    && (forall g | 0 <= g < |targets| && r.places[g].Start? :: index[g] == -1)
    && r.pending == Unfinished(r.places)
  }

  function Unfinished(places: seq<Place>): nat {
    if places == [] then 0
    else Unfinished(places[..|places| - 1]) + if places[|places| - 1].Done? then 0 else 1
  }

  lemma {:induction false} UnfinishedAfter(places: seq<Place>, g: nat, place: Place)
    requires g < |places| && !places[g].Done?
    ensures Unfinished(places[g := place]) == Unfinished(places) - (if place.Done? then 1 else 0)
  {
    var n := |places| - 1;
    if g < n {
      UnfinishedAfter(places[..n], g, place);
      assert places[g := place][..n] == places[..n][g := place];
    } else {
      assert places[g := place][..n] == places[..n];
    }
  }

  lemma {:induction false} NoneUnfinished(places: seq<Place>, g: nat)
    requires g < |places| && Unfinished(places) == 0
    ensures places[g].Done?
  {
    if g == |places| - 1 {
    } else {
      NoneUnfinished(places[..|places| - 1], g);
    }
  }

  lemma FilledStays(r: Round, r1: Round, owner: seq<bool>, owner1: seq<bool>, answers: bool, h: Header)
    requires Filled(r, owner, answers, h)
    requires |owner1| == |r1.arrays| && owner <= owner1 && |r.arrays| <= |r1.arrays|
    requires forall a | 0 <= a < |r.arrays| :: |r1.arrays[a]| == |r.arrays[a]|
    requires forall a, k | 0 <= a < |r.arrays| && 0 <= k < |r.arrays[a]| :: r.arrays[a][k].Some? ==> r1.arrays[a][k].Some?
    ensures Filled(r1, owner1, answers, h)
  {
  }

  lemma StepKeeps(targets: seq<Target>, r: Round, turn: Turn, owner: seq<bool>, index: seq<int>)
    returns (owner1: seq<bool>, index1: seq<int>)
    requires Inv(targets, r, owner, index)
    ensures Inv(targets, Step(targets, r, turn), owner1, index1)
  {
    owner1, index1 := owner, index;
    var g, r1 := turn.goroutine, Step(targets, r, turn);
    if g < |targets| && !r.places[g].Done? {
      assert PlaceFits(targets, r, owner, index, g);
      var answers := IsTrueList(targets[g]);
      UnfinishedAfter(r.places, g, r1.places[g]);
      match r.places[g]
      case Start =>
        if !targets[g].fate.Skipped? {
          index1 := index[g := HeaderOf(r, answers).length];
        }
        StartKeeps(targets, r, turn, owner, index, index1);
      case HaveHeader(h) =>
        if h.length == |r.arrays[h.arr]| {
          owner1 := owner + [answers];
        }
        WriteKeeps(targets, r, turn, owner, index, owner1);
      case HaveCell(_) =>
        forall u | 0 <= u < |targets|
          ensures PlaceFits(targets, r1, owner, index, u)
        {
          assert PlaceFits(targets, r, owner, index, u);
        }
    }
  }

  lemma StartKeeps(targets: seq<Target>, r: Round, turn: Turn, owner: seq<bool>, index: seq<int>, index1: seq<int>)
    requires Inv(targets, r, owner, index)
    requires turn.goroutine < |targets| && r.places[turn.goroutine].Start?
    requires index1 == if targets[turn.goroutine].fate.Skipped? then index
                       else index[turn.goroutine := HeaderOf(r, IsTrueList(targets[turn.goroutine])).length]
    ensures var r1 := Step(targets, r, turn);
            && CellsFit(targets, r1, owner, index1)
            && Filled(r1, owner, true, r1.trues) && Filled(r1, owner, false, r1.falses)
            && (forall u | 0 <= u < |targets| :: PlaceFits(targets, r1, owner, index1, u))
            && (forall u | 0 <= u < |targets| && r1.places[u].Start? :: index1[u] == -1)
  {
    var r1 := Step(targets, r, turn);
    forall a, k | 0 <= a < |r1.arrays| && 0 <= k < |r1.arrays[a]| && r1.arrays[a][k].Some?
      ensures CellFits(targets, owner, index1, a, k, r1.arrays[a][k].value)
    {
      assert CellFits(targets, owner, index, a, k, r.arrays[a][k].value);
    }
    forall u | 0 <= u < |targets|
      ensures PlaceFits(targets, r1, owner, index1, u)
    {
      assert PlaceFits(targets, r, owner, index, u);
    }
  }

  lemma WriteKeeps(targets: seq<Target>, r: Round, turn: Turn, owner: seq<bool>, index: seq<int>, owner1: seq<bool>)
    requires Inv(targets, r, owner, index)
    requires turn.goroutine < |targets| && r.places[turn.goroutine].HaveHeader?
    requires var h := r.places[turn.goroutine].header;
             h.arr < |r.arrays| && owner1 == if h.length == |r.arrays[h.arr]| then owner + [IsTrueList(targets[turn.goroutine])] else owner
    ensures var r1 := Step(targets, r, turn);
            && CellsFit(targets, r1, owner1, index)
            && Filled(r1, owner1, true, r1.trues) && Filled(r1, owner1, false, r1.falses)
            && (forall u | 0 <= u < |targets| :: PlaceFits(targets, r1, owner1, index, u))
  {
    var g, r1 := turn.goroutine, Step(targets, r, turn);
    assert PlaceFits(targets, r, owner, index, g);
    var h := r.places[g].header;
    forall a, k | 0 <= a < |r1.arrays| && 0 <= k < |r1.arrays[a]| && r1.arrays[a][k].Some?
      ensures CellFits(targets, owner1, index, a, k, r1.arrays[a][k].value)
    {
      if a == |r.arrays| && k < h.length {
        assert CellFits(targets, owner, index, h.arr, k, r.arrays[h.arr][k].value);
      } else if a < |r.arrays| && !(a == h.arr && k == h.length) {
        assert CellFits(targets, owner, index, a, k, r.arrays[a][k].value);
      }
    }
    FilledStays(r, r1, owner, owner1, true, r.trues);
    FilledStays(r, r1, owner, owner1, false, r.falses);
    forall u | 0 <= u < |targets|
      ensures PlaceFits(targets, r1, owner1, index, u)
    {
      assert PlaceFits(targets, r, owner, index, u);
      if u != g && (r.places[u].HaveHeader? || r.places[u].HaveCell?) {
        FilledStays(r, r1, owner, owner1, IsTrueList(targets[u]), r.places[u].header);
      }
    }
  }

  lemma {:induction false} Reachable(targets: seq<Target>, schedule: seq<Turn>) returns (owner: seq<bool>, index: seq<int>)
    ensures Inv(targets, Execute(targets, schedule), owner, index)
    decreases |schedule|
  {
    if schedule == [] {
      owner, index := [true, false], seq(|targets|, _ => -1);
      AllUnfinished(|targets|);
    } else {
      var n := |schedule| - 1;
      owner, index := Reachable(targets, schedule[..n]);
      owner, index := StepKeeps(targets, Execute(targets, schedule[..n]), schedule[n], owner, index);
    }
  }

  lemma {:induction false} AllUnfinished(n: nat)
    ensures Unfinished(seq(n, _ => Start)) == n
  {
    if n == 0 {
    } else {
      AllUnfinished(n - 1);
      assert seq(n, _ => Start)[..n - 1] == seq(n - 1, _ => Start);
    }
  }

  // ----- the results

  /** The goroutines a slice lists. */
  function Listed(r: Round, h: Header): seq<Option<nat>> {
    if h.arr < |r.arrays| && h.length <= |r.arrays[h.arr]| then r.arrays[h.arr][..h.length] else []
  }

  ghost predicate ListsOnly(targets: seq<Target>, list: seq<Option<nat>>, fate: Fate) {
    && (forall k | 0 <= k < |list| :: list[k].Some? && list[k].value < |targets| && targets[list[k].value].fate == fate)
    && NoDuplicates(list)
  }

  /** Row keys are unique, so different goroutines report different node IDs. */
  ghost predicate DistinctRows(targets: seq<Target>) {
    forall i, j | 0 <= i < j < |targets| :: targets[i].nodeId != targets[j].nodeId
  }

  function NodeIds(targets: seq<Target>, list: seq<Option<nat>>): seq<string>
    requires forall k | 0 <= k < |list| :: list[k].Some? && list[k].value < |targets|
  {
    seq(|list|, k requires 0 <= k < |list| => targets[list[k].value].nodeId)
  }

  /**
   * Whatever the interleaving: when the WaitGroup is at zero every goroutine
   * has finished; at any moment the two lists name only eligible rows, each at
   * most once and never in both, and the skipped count is not negative.
   */
  lemma RacyCollection(targets: seq<Target>, schedule: seq<Turn>)
    requires DistinctRows(targets)
    ensures var r := Execute(targets, schedule);
            && (r.pending == 0 ==> forall g | 0 <= g < |r.places| :: r.places[g].Done?)
            && ListsOnly(targets, Listed(r, r.trues), Answers)
            && ListsOnly(targets, Listed(r, r.falses), Silent)
            && NoDuplicates(NodeIds(targets, Listed(r, r.trues)) + NodeIds(targets, Listed(r, r.falses)))
            && |targets| - (r.trues.length + r.falses.length) >= 0
            && |Listed(r, r.trues)| == r.trues.length && |Listed(r, r.falses)| == r.falses.length
  {
    var r := Execute(targets, schedule);
    var owner, index := Reachable(targets, schedule);
    if r.pending == 0 {
      forall g | 0 <= g < |r.places|
        ensures r.places[g].Done?
      {
        NoneUnfinished(r.places, g);
      }
    }
    var t, f := Listed(r, r.trues), Listed(r, r.falses);
    ListFits(targets, r, owner, index, true, r.trues);
    ListFits(targets, r, owner, index, false, r.falses);
    ListsTogether(targets, t, f);
  }

  lemma ListsTogether(targets: seq<Target>, t: seq<Option<nat>>, f: seq<Option<nat>>)
    requires ListsOnly(targets, t, Answers) && ListsOnly(targets, f, Silent)
    ensures NoDuplicates(t + f) && |t| + |f| <= |targets|
    ensures DistinctRows(targets) ==> NoDuplicates(NodeIds(targets, t) + NodeIds(targets, f))
  {
    var both := t + f;
    var named: seq<int> := seq(|both|, k requires 0 <= k < |both| => both[k].value);
    DistinctSeqCardinality(named, Below(|targets|));
    if DistinctRows(targets) {
      var ids := NodeIds(targets, t) + NodeIds(targets, f);
      assert forall k | 0 <= k < |both| :: ids[k] == targets[both[k].value].nodeId;
    }
  }

  function Below(n: nat): (s: set<int>)
    ensures |s| == n
    ensures forall g :: g in s <==> 0 <= g < n
  {
    if n == 0 then {} else Below(n - 1) + {n - 1}
  }

  lemma ListFits(targets: seq<Target>, r: Round, owner: seq<bool>, index: seq<int>, answers: bool, h: Header)
    requires Inv(targets, r, owner, index) && Filled(r, owner, answers, h)
    ensures |Listed(r, h)| == h.length
    ensures ListsOnly(targets, Listed(r, h), if answers then Answers else Silent)
  {
    var list := Listed(r, h);
    forall k | 0 <= k < h.length
      ensures list[k].Some? && CellFits(targets, owner, index, h.arr, k, list[k].value)
    {
      assert list[k] == r.arrays[h.arr][k];
    }
  }

  // ----- rows and count come from two queries

  /** The same round, should the second query count some other number of rows. */
  function ExecuteCounted(targets: seq<Target>, count: nat, schedule: seq<Turn>): Round {
    if schedule == [] then Begin(targets).(pending := count)
    else Step(targets, ExecuteCounted(targets, count, schedule[..|schedule| - 1]), schedule[|schedule| - 1])
  }

  ghost predicate AllDone(r: Round) {
    forall g | 0 <= g < |r.places| :: r.places[g].Done?
  }

  lemma {:induction false} CountShifts(targets: seq<Target>, count: nat, schedule: seq<Turn>)
    ensures var r := Execute(targets, schedule);
            ExecuteCounted(targets, count, schedule) == Shifted(r, count - |targets|)
    decreases |schedule|
  {
    if schedule == [] {
    } else {
      var init, turn, d := schedule[..|schedule| - 1], schedule[|schedule| - 1], count - |targets|;
      CountShifts(targets, count, init);
      StepShifts(targets, Execute(targets, init), ExecuteCounted(targets, count, init), turn, d);
    }
  }

  function Shifted(r: Round, d: int): Round {
    r.(pending := r.pending + d)
  }

  lemma StepShifts(targets: seq<Target>, r: Round, counted: Round, turn: Turn, d: int)
    requires counted == Shifted(r, d)
    ensures Step(targets, counted, turn) == Shifted(Step(targets, r, turn), d)
  {
  }

  /** Three turns in a row finish a goroutine. */
  lemma ThreeTurnsFinish(targets: seq<Target>, r: Round, turn: Turn, owner: seq<bool>, index: seq<int>)
    requires Inv(targets, r, owner, index) && turn.goroutine < |targets| && r.places[turn.goroutine].Start?
    ensures Step(targets, Step(targets, Step(targets, r, turn), turn), turn).places == r.places[turn.goroutine := Done]
  {
    var r1 := Step(targets, r, turn);
    var r2 := Step(targets, r1, turn);
    assert r1.places[turn.goroutine].Done? || r2.places[turn.goroutine].HaveCell?;
  }

  lemma ExecuteOneMore(targets: seq<Target>, schedule: seq<Turn>, turn: Turn)
    ensures Execute(targets, schedule + [turn]) == Step(targets, Execute(targets, schedule), turn)
  {
    assert (schedule + [turn])[..|schedule|] == schedule;
  }

  /** A schedule in which the first n goroutines have finished and the others have not begun. */
  lemma {:induction false} FirstFinish(targets: seq<Target>, n: nat) returns (schedule: seq<Turn>)
    requires n <= |targets|
    ensures var r := Execute(targets, schedule);
            && r.pending == |targets| - n && |r.places| == |targets|
            && forall g | n <= g < |targets| :: r.places[g].Start?
    decreases n
  {
    if n == 0 {
      schedule := [];
    } else {
      var init := FirstFinish(targets, n - 1);
      var turn := Turn(n - 1, 0);
      var r := Execute(targets, init);
      var owner, index := Reachable(targets, init);
      ThreeTurnsFinish(targets, r, turn, owner, index);
      UnfinishedAfter(r.places, n - 1, Done);
      ExecuteOneMore(targets, init, turn);
      ExecuteOneMore(targets, init + [turn], turn);
      ExecuteOneMore(targets, init + [turn] + [turn], turn);
      schedule := init + [turn] + [turn] + [turn];
      var _, _ := Reachable(targets, schedule);
    }
  }

  /**
   * What the count of the second query is good for. Waiting is a barrier, and
   * the counter never goes below zero, exactly if it counts no fewer rows than
   * the first query returned; the round can end exactly if it counts no more.
   */
  lemma BarrierIffCountCovers(targets: seq<Target>, count: nat)
    ensures (forall schedule :: ExecuteCounted(targets, count, schedule).pending == 0 ==>
               AllDone(ExecuteCounted(targets, count, schedule))) <==> count >= |targets|
    ensures (forall schedule :: ExecuteCounted(targets, count, schedule).pending >= 0) <==> count >= |targets|
    ensures (exists schedule :: ExecuteCounted(targets, count, schedule).pending == 0) <==> count <= |targets|
  {
    forall schedule
      ensures ExecuteCounted(targets, count, schedule).pending >= count - |targets|
      ensures count >= |targets| && ExecuteCounted(targets, count, schedule).pending == 0 ==>
                AllDone(ExecuteCounted(targets, count, schedule))
    {
      CountShifts(targets, count, schedule);
      var r := Execute(targets, schedule);
      var owner, index := Reachable(targets, schedule);
      if r.pending == 0 {
        forall g | 0 <= g < |r.places|
          ensures r.places[g].Done?
        {
          NoneUnfinished(r.places, g);
        }
      }
    }
    if count <= |targets| {
      var schedule := FirstFinish(targets, count);
      CountShifts(targets, count, schedule);
      var all := FirstFinish(targets, |targets|);
      CountShifts(targets, count, all);
      assert count < |targets| ==> !ExecuteCounted(targets, count, schedule).places[count].Done?;
    }
  }

  // ----- when appends do not overlap

  ghost predicate Appending(r: Round, g: nat) {
    g < |r.places| && (r.places[g].HaveHeader? || r.places[g].HaveCell?)
  }

  /** No two goroutines of one list are in the middle of their append. */
  ghost predicate OneAppends(targets: seq<Target>, r: Round) {
    forall g, u | 0 <= g < u < |targets| && Appending(r, g) && Appending(r, u) :: targets[g].fate != targets[u].fate
  }

  ghost predicate Serialised(targets: seq<Target>, schedule: seq<Turn>) {
    forall n | 0 <= n <= |schedule| :: OneAppends(targets, Execute(targets, schedule[..n]))
  }

  ghost predicate NothingLost(targets: seq<Target>, r: Round, g: nat)
    requires g < |targets| == |r.places|
  {
    var now := HeaderOf(r, IsTrueList(targets[g]));
    match r.places[g]
    case Start => true
    case HaveHeader(h) => h == now
    case HaveCell(h) => Listed(r, h) == Listed(r, now) + [Some(g)]
    case Done => !targets[g].fate.Skipped? ==> Some(g) in Listed(r, now)
  }

  lemma StepLosesNothing(targets: seq<Target>, r: Round, turn: Turn, owner: seq<bool>, index: seq<int>)
    requires Inv(targets, r, owner, index)
    requires OneAppends(targets, r) && OneAppends(targets, Step(targets, r, turn))
    requires forall g | 0 <= g < |targets| :: NothingLost(targets, r, g)
    ensures var r1 := Step(targets, r, turn);
            |r1.places| == |targets| && forall g | 0 <= g < |targets| :: NothingLost(targets, r1, g)
  {
    var g, r1 := turn.goroutine, Step(targets, r, turn);
    forall u | 0 <= u < |targets|
      ensures NothingLost(targets, r1, u)
    {
      assert NothingLost(targets, r, u) && PlaceFits(targets, r, owner, index, u);
      if g < |targets| && !r.places[g].Done? {
        assert NothingLost(targets, r, g) && PlaceFits(targets, r, owner, index, g);
        assert u != g && Appending(r, u) && Appending(r1, g) ==> targets[u].fate != targets[g].fate;
        if r.places[g].HaveHeader? {
          WriteLosesNothing(targets, r, turn, owner, index, u);
        } else if r.places[g].HaveCell? && targets[u].fate == targets[g].fate {
          assert Appending(r, g);
        }
      }
    }
  }

  lemma WriteLosesNothing(targets: seq<Target>, r: Round, turn: Turn, owner: seq<bool>, index: seq<int>, u: nat)
    requires Inv(targets, r, owner, index)
    requires turn.goroutine < |targets| && r.places[turn.goroutine].HaveHeader?
    requires NothingLost(targets, r, turn.goroutine)
    requires u < |targets| && NothingLost(targets, r, u)
    requires u != turn.goroutine && Appending(r, u) ==> targets[u].fate != targets[turn.goroutine].fate
    ensures NothingLost(targets, Step(targets, r, turn), u)
  {
    var g, r1 := turn.goroutine, Step(targets, r, turn);
    assert PlaceFits(targets, r, owner, index, g) && PlaceFits(targets, r, owner, index, u);
    var h := r.places[g].header;
    var now := HeaderOf(r, IsTrueList(targets[u]));
    assert Filled(r, owner, IsTrueList(targets[u]), now);
    assert Listed(r1, now) == Listed(r, now);
    if u == g {
      assert Listed(r1, r1.places[g].header) == Listed(r, h) + [Some(g)];
    } else if r.places[u].HaveCell? {
      var hu := r.places[u].header;
      assert hu.arr != h.arr;
      assert Listed(r1, hu) == Listed(r, hu);
    }
  }

  lemma {:induction false} SerialisedLosesNothing(targets: seq<Target>, schedule: seq<Turn>)
    requires Serialised(targets, schedule)
    ensures var r := Execute(targets, schedule);
            |r.places| == |targets| && forall g | 0 <= g < |targets| :: NothingLost(targets, r, g)
    decreases |schedule|
  {
    if schedule == [] {
    } else {
      var n := |schedule| - 1;
      var init := schedule[..n];
      assert forall m | 0 <= m <= n :: init[..m] == schedule[..m];
      assert schedule[..n + 1] == schedule && schedule[..n] == init;
      SerialisedLosesNothing(targets, init);
      var owner, index := Reachable(targets, init);
      StepLosesNothing(targets, Execute(targets, init), schedule[n], owner, index);
    }
  }

  /**
   * When appends to one list never overlap, a completed round lists every
   * eligible row exactly once, on the list its ping decides, and the skipped
   * count is the number of ineligible rows.
   */
  lemma SerialisedCollection(targets: seq<Target>, schedule: seq<Turn>)
    requires Serialised(targets, schedule) && Execute(targets, schedule).pending == 0
    ensures var r := Execute(targets, schedule);
            var t, f := Listed(r, r.trues), Listed(r, r.falses);
            && NoDuplicates(t) && NoDuplicates(f)
            && (forall g | 0 <= g < |targets| :: Some(g) in t <==> targets[g].fate.Answers?)
            && (forall g | 0 <= g < |targets| :: Some(g) in f <==> targets[g].fate.Silent?)
            && |targets| - (|t| + |f|) == |WithFate(targets, Skipped)|
  {
    var r := Execute(targets, schedule);
    var t, f := Listed(r, r.trues), Listed(r, r.falses);
    var owner, index := Reachable(targets, schedule);
    ListFits(targets, r, owner, index, true, r.trues);
    ListFits(targets, r, owner, index, false, r.falses);
    SerialisedLosesNothing(targets, schedule);
    forall g | 0 <= g < |targets|
      ensures Some(g) in t <==> targets[g].fate.Answers?
      ensures Some(g) in f <==> targets[g].fate.Silent?
    {
      NoneUnfinished(r.places, g);
      assert NothingLost(targets, r, g);
    }
    ListsTogether(targets, t, f);
    CountListed(targets, t + f);
  }

  // ----- and conversely: an overlap leaves a permanent deficit

  /** The goroutines of a list that have stored their header. */
  ghost function Stored(targets: seq<Target>, r: Round, fate: Fate): set<int> {
    set g | 0 <= g < |targets| && g < |r.places| && targets[g].fate == fate && r.places[g].Done?
  }

  /** The length an append builds on, once it has read a header. */
  function LengthRead(place: Place): int {
    match place
    case HaveHeader(h) => h.length
    case HaveCell(h) => h.length - 1
    case _ => -1
  }

  /** No list, and no header read of it, is longer than the number of appends finished. */
  ghost predicate Bounded(targets: seq<Target>, r: Round, fate: Fate) {
    && |r.places| == |targets|
    && HeaderOf(r, fate.Answers?).length <= |Stored(targets, r, fate)|
    && forall g | 0 <= g < |targets| :: Appending(r, g) ==>
         && !targets[g].fate.Skipped?
         && (targets[g].fate == fate ==> LengthRead(r.places[g]) <= |Stored(targets, r, fate)|)
  }

  ghost predicate Overlapping(targets: seq<Target>, r: Round, fate: Fate) {
    exists g, u :: 0 <= g < u < |targets| && Appending(r, g) && Appending(r, u) && targets[g].fate == targets[u].fate == fate
  }

  /** Goroutine g will store a header that leaves out a finished append. */
  ghost predicate Late(targets: seq<Target>, r: Round, fate: Fate, g: nat) {
    g < |targets| && targets[g].fate == fate && Appending(r, g) && LengthRead(r.places[g]) < |Stored(targets, r, fate)|
  }

  /** The list misses an entry, and whoever is appending will not bring it back. */
  ghost predicate Short(targets: seq<Target>, r: Round, fate: Fate) {
    && HeaderOf(r, fate.Answers?).length < |Stored(targets, r, fate)|
    && forall g | 0 <= g < |targets| && targets[g].fate == fate && Appending(r, g) :: Late(targets, r, fate, g)
  }

  ghost predicate Deficit(targets: seq<Target>, r: Round, fate: Fate) {
    || Overlapping(targets, r, fate)
    || (exists g :: Late(targets, r, fate, g))
    || Short(targets, r, fate)
  }

  lemma StepPlaces(targets: seq<Target>, r: Round, turn: Turn)
    requires |r.places| == |targets| && turn.goroutine < |targets|
    ensures var g, r1 := turn.goroutine, Step(targets, r, turn);
            && r1.places == r.places[g := r1.places[g]]
            && (r1.places[g].Done? <==>
                  r.places[g].Done? || r.places[g].HaveCell? || (r.places[g].Start? && targets[g].fate.Skipped?))
  {
  }

  lemma StepStores(targets: seq<Target>, r: Round, turn: Turn, fate: Fate)
    requires |r.places| == |targets| && !fate.Skipped?
    ensures var g, r1 := turn.goroutine, Step(targets, r, turn);
            |Stored(targets, r1, fate)| == |Stored(targets, r, fate)| +
              if g < |targets| && targets[g].fate == fate && r.places[g].HaveCell? then 1 else 0
  {
    var g, r1 := turn.goroutine, Step(targets, r, turn);
    if g < |targets| {
      StepPlaces(targets, r, turn);
      StoredAfter(targets, r, r1, g, fate);
    }
  }

  lemma StoredAfter(targets: seq<Target>, r: Round, r1: Round, g: nat, fate: Fate)
    requires g < |targets| == |r.places| == |r1.places| && r1.places == r.places[g := r1.places[g]]
    requires r.places[g].Done? ==> r1.places[g].Done?
    ensures |Stored(targets, r1, fate)| == |Stored(targets, r, fate)| +
              if targets[g].fate == fate && !r.places[g].Done? && r1.places[g].Done? then 1 else 0
  {
    var before, after := Stored(targets, r, fate), Stored(targets, r1, fate);
    forall u
      ensures u in after <==> u in before || (u == g && targets[g].fate == fate && r1.places[g].Done?)
    {
      if 0 <= u < |targets| {
        assert r1.places[u] == if u == g then r1.places[g] else r.places[u];
      }
    }
    if targets[g].fate == fate && !r.places[g].Done? && r1.places[g].Done? {
      assert after == before + {g as int};
    } else {
      assert after == before;
    }
  }

  lemma StepBounded(targets: seq<Target>, r: Round, turn: Turn, fate: Fate)
    requires !fate.Skipped? && Bounded(targets, r, fate)
    ensures Bounded(targets, Step(targets, r, turn), fate)
  {
    StepStores(targets, r, turn, fate);
    var g, r1 := turn.goroutine, Step(targets, r, turn);
    if g < |targets| {
      assert Appending(r, g) ==> !targets[g].fate.Skipped?;
    }
    forall u | 0 <= u < |targets| && Appending(r1, u)
      ensures !targets[u].fate.Skipped?
      ensures targets[u].fate == fate ==> LengthRead(r1.places[u]) <= |Stored(targets, r1, fate)|
    {
      assert u != g ==> Appending(r, u);
    }
  }

  lemma StepKeepsDeficit(targets: seq<Target>, r: Round, turn: Turn, fate: Fate)
    requires !fate.Skipped? && Bounded(targets, r, fate) && Deficit(targets, r, fate)
    ensures Deficit(targets, Step(targets, r, turn), fate)
  {
    StepStores(targets, r, turn, fate);
    var g, r1 := turn.goroutine, Step(targets, r, turn);
    var stores := g < |targets| && targets[g].fate == fate && r.places[g].HaveCell?;
    if Short(targets, r, fate) {
      ShortStays(targets, r, turn, fate);
    } else if u :| Late(targets, r, fate, u) {
      if u != g || !stores {
        assert Late(targets, r1, fate, u);
      } else {
        StoringLateIsShort(targets, r, turn, fate);
      }
    } else {
      var u, v :| 0 <= u < v < |targets| && Appending(r, u) && Appending(r, v) && targets[u].fate == targets[v].fate == fate;
      if stores && (g == u || g == v) {
        assert Late(targets, r1, fate, if g == u then v else u);
      } else {
        assert Appending(r1, u) && Appending(r1, v);
      }
    }
  }

  lemma ShortStays(targets: seq<Target>, r: Round, turn: Turn, fate: Fate)
    requires !fate.Skipped? && Bounded(targets, r, fate) && Short(targets, r, fate)
    ensures Short(targets, Step(targets, r, turn), fate)
  {
    StepStores(targets, r, turn, fate);
    var g, r1 := turn.goroutine, Step(targets, r, turn);
    if g < |targets| && targets[g].fate == fate && Appending(r, g) {
      assert Late(targets, r, fate, g);
    }
    forall u | 0 <= u < |targets| && targets[u].fate == fate && Appending(r1, u)
      ensures Late(targets, r1, fate, u)
    {
      assert u != g ==> Appending(r, u) && Late(targets, r, fate, u);
    }
  }

  lemma StoringLateIsShort(targets: seq<Target>, r: Round, turn: Turn, fate: Fate)
    requires !fate.Skipped? && Bounded(targets, r, fate)
    requires Late(targets, r, fate, turn.goroutine) && r.places[turn.goroutine].HaveCell?
    ensures Short(targets, Step(targets, r, turn), fate)
  {
    StepStores(targets, r, turn, fate);
    var g, r1 := turn.goroutine, Step(targets, r, turn);
    forall u | 0 <= u < |targets| && targets[u].fate == fate && Appending(r1, u)
      ensures Late(targets, r1, fate, u)
    {
      assert u != g && Appending(r, u);
    }
  }

  lemma {:induction false} ReachableBounded(targets: seq<Target>, schedule: seq<Turn>, fate: Fate)
    requires !fate.Skipped?
    ensures Bounded(targets, Execute(targets, schedule), fate)
    decreases |schedule|
  {
    if schedule == [] {
    } else {
      var n := |schedule| - 1;
      ReachableBounded(targets, schedule[..n], fate);
      StepBounded(targets, Execute(targets, schedule[..n]), schedule[n], fate);
    }
  }

  /** Once two appends to a list have overlapped, the list has a deficit for good. */
  lemma {:induction false} DeficitStays(targets: seq<Target>, schedule: seq<Turn>, n: nat, fate: Fate)
    requires !fate.Skipped? && n <= |schedule| && Overlapping(targets, Execute(targets, schedule[..n]), fate)
    ensures Deficit(targets, Execute(targets, schedule), fate)
    decreases |schedule|
  {
    if n < |schedule| {
      var m := |schedule| - 1;
      assert schedule[..m][..n] == schedule[..n];
      DeficitStays(targets, schedule[..m], n, fate);
      ReachableBounded(targets, schedule[..m], fate);
      StepKeepsDeficit(targets, Execute(targets, schedule[..m]), schedule[m], fate);
    } else {
      assert schedule[..n] == schedule;
    }
  }

  ghost function WithFate(targets: seq<Target>, fate: Fate): set<int> {
    set g | 0 <= g < |targets| && targets[g].fate == fate
  }

  /** The length of a list at the end of a round: its eligible rows, or fewer if appends to it overlapped. */
  lemma EndLength(targets: seq<Target>, schedule: seq<Turn>, fate: Fate)
    requires !fate.Skipped? && Execute(targets, schedule).pending == 0
    ensures var length := HeaderOf(Execute(targets, schedule), fate.Answers?).length;
            && length <= |WithFate(targets, fate)|
            && forall n | 0 <= n <= |schedule| :: Overlapping(targets, Execute(targets, schedule[..n]), fate) ==>
                 length < |WithFate(targets, fate)|
  {
    var r := Execute(targets, schedule);
    var owner, index := Reachable(targets, schedule);
    ReachableBounded(targets, schedule, fate);
    forall g | 0 <= g < |targets|
      ensures r.places[g].Done?
    {
      NoneUnfinished(r.places, g);
    }
    assert Stored(targets, r, fate) == WithFate(targets, fate);
    forall n | 0 <= n <= |schedule| && Overlapping(targets, Execute(targets, schedule[..n]), fate)
      ensures Short(targets, r, fate)
    {
      DeficitStays(targets, schedule, n, fate);
    }
  }

  lemma FatesPart(targets: seq<Target>)
    ensures |WithFate(targets, Answers)| + |WithFate(targets, Silent)| + |WithFate(targets, Skipped)| == |targets|
  {
    var a, b, c := WithFate(targets, Answers), WithFate(targets, Silent), WithFate(targets, Skipped);
    assert Below(|targets|) == a + b + c;
  }

  ghost predicate NoneMissing(targets: seq<Target>, r: Round) {
    forall g | 0 <= g < |targets| && !targets[g].fate.Skipped? :: Some(g) in Listed(r, HeaderOf(r, IsTrueList(targets[g])))
  }

  /**
   * Exactly when a round loses nothing: a completed round lists every eligible
   * row if and only if no two appends to one list ever overlapped, and these
   * are also exactly the rounds whose skipped count is right.
   */
  lemma CompleteIffSerialised(targets: seq<Target>, schedule: seq<Turn>)
    requires Execute(targets, schedule).pending == 0
    ensures var r := Execute(targets, schedule);
            && (Serialised(targets, schedule) <==> NoneMissing(targets, r))
            && (Serialised(targets, schedule) <==>
                  |targets| - (r.trues.length + r.falses.length) == |WithFate(targets, Skipped)|)
  {
    var r := Execute(targets, schedule);
    FatesPart(targets);
    EndLength(targets, schedule, Answers);
    EndLength(targets, schedule, Silent);
    ReachableBounded(targets, schedule, Answers);
    if !Serialised(targets, schedule) {
      var n :| 0 <= n <= |schedule| && !OneAppends(targets, Execute(targets, schedule[..n]));
      OverlapHasFate(targets, schedule[..n]);
    } else {
      SerialisedCollection(targets, schedule);
    }
    if NoneMissing(targets, r) {
      NoneMissingCounts(targets, schedule);
    }
  }

  lemma OverlapHasFate(targets: seq<Target>, schedule: seq<Turn>)
    requires !OneAppends(targets, Execute(targets, schedule))
    ensures Overlapping(targets, Execute(targets, schedule), Answers) || Overlapping(targets, Execute(targets, schedule), Silent)
  {
    var r := Execute(targets, schedule);
    ReachableBounded(targets, schedule, Answers);
    var g, u :| 0 <= g < u < |targets| && Appending(r, g) && Appending(r, u) && targets[g].fate == targets[u].fate;
    assert !targets[g].fate.Skipped?;
    assert Overlapping(targets, r, targets[g].fate);
  }

  lemma NoneMissingCounts(targets: seq<Target>, schedule: seq<Turn>)
    requires NoneMissing(targets, Execute(targets, schedule))
    ensures var r := Execute(targets, schedule);
            |targets| - (r.trues.length + r.falses.length) == |WithFate(targets, Skipped)|
  {
    var r := Execute(targets, schedule);
    var owner, index := Reachable(targets, schedule);
    var t, f := Listed(r, r.trues), Listed(r, r.falses);
    ListFits(targets, r, owner, index, true, r.trues);
    ListFits(targets, r, owner, index, false, r.falses);
    ListsTogether(targets, t, f);
    CountListed(targets, t + f);
  }

  lemma CountListed(targets: seq<Target>, both: seq<Option<nat>>)
    requires NoDuplicates(both)
    requires forall k | 0 <= k < |both| :: both[k].Some? && both[k].value < |targets| && !targets[both[k].value].fate.Skipped?
    requires forall g | 0 <= g < |targets| && !targets[g].fate.Skipped? :: Some(g) in both
    ensures |targets| - |both| == |WithFate(targets, Skipped)|
  {
    var listed := ListedSet(both);
    var skipped := WithFate(targets, Skipped);
    forall g
      ensures 0 <= g < |targets| <==> g in listed || g in skipped
      ensures !(g in listed && g in skipped)
    {
      if g in listed {
        var k :| 0 <= k < |both| && both[k] == Some(g as nat);
      }
    }
    PartsOf(|targets|, listed, skipped);
  }

  lemma ListedSet(both: seq<Option<nat>>) returns (listed: set<int>)
    requires NoDuplicates(both) && forall k | 0 <= k < |both| :: both[k].Some?
    ensures |listed| == |both|
    ensures forall g :: g in listed <==> g >= 0 && Some(g as nat) in both
  {
    var named := Named(both);
    DistinctSeqIsSet(named);
    listed := set g | g in named;
    forall g
      ensures g in listed <==> g >= 0 && Some(g as nat) in both
    {
      NamedHas(both, g);
    }
  }

  lemma PartsOf(n: nat, a: set<int>, b: set<int>)
    requires forall g :: (0 <= g < n <==> g in a || g in b) && !(g in a && g in b)
    ensures |a| + |b| == n
  {
    assert Below(n) == a + b;
  }

  function Named(both: seq<Option<nat>>): seq<int>
    requires forall k | 0 <= k < |both| :: both[k].Some?
  {
    seq(|both|, k requires 0 <= k < |both| => both[k].value)
  }

  lemma NamedHas(both: seq<Option<nat>>, g: int)
    requires forall k | 0 <= k < |both| :: both[k].Some?
    ensures g in Named(both) <==> g >= 0 && Some(g) in both
  {
    if g >= 0 && Some(g) in both {
      var k :| 0 <= k < |both| && both[k] == Some(g);
      assert Named(both)[k] == g;
    }
  }

  lemma {:induction false} DistinctSeqIsSet<T>(s: seq<T>)
    requires NoDuplicates(s)
    ensures |set x | x in s| == |s|
    decreases |s|
  {
    if s == [] {
    } else {
      var n := |s| - 1;
      DistinctSeqIsSet(s[..n]);
      assert (set x | x in s) == (set x | x in s[..n]) + {s[n]};
    }
  }

  /** Without that a result can be lost: two answering rows, one entry. */
  lemma OverlapLosesResult(a: string, b: string) returns (schedule: seq<Turn>)
    ensures var targets := [Target(a, Answers), Target(b, Answers)];
            var r := Execute(targets, schedule);
            r.pending == 0 && Listed(r, r.trues) == [Some(1)] && Listed(r, r.falses) == []
  {
    var targets := [Target(a, Answers), Target(b, Answers)];
    var t0, t1 := Turn(0, 0), Turn(1, 0);
    schedule := [t0, t1, t0, t1, t0, t1];
    var r0 := Begin(targets);
    assert r0.places == [Start, Start];
    assert Execute(targets, []) == r0;
    assert schedule[..5] == [t0, t1, t0, t1, t0] && schedule[..5][..4] == [t0, t1, t0, t1]
        && [t0, t1, t0, t1][..3] == [t0, t1, t0] && [t0, t1, t0][..2] == [t0, t1] && [t0, t1][..1] == [t0] && [t0][..0] == [];
    var h := Header(0, 0);
    var r1 := Step(targets, r0, t0);
    assert r1.places == [HaveHeader(h), Start];
    var r2 := Step(targets, r1, t1);
    assert r2.places == [HaveHeader(h), HaveHeader(h)];
    var r3 := Step(targets, r2, t0);
    assert r3.arrays[2] == [Some(0)] && |r3.arrays| == 3 && r3.arrays[0] == [] && r3.places == [HaveCell(Header(2, 1)), HaveHeader(h)];
    var r4 := Step(targets, r3, t1);
    assert r4.arrays[3] == [Some(1)] && |r4.arrays| == 4 && r4.places == [HaveCell(Header(2, 1)), HaveCell(Header(3, 1))];
    assert Execute(targets, [t0]) == r1;
    assert Execute(targets, [t0, t1]) == r2;
    assert Execute(targets, [t0, t1, t0]) == r3;
    assert Execute(targets, [t0, t1, t0, t1]) == r4;
  }
}
