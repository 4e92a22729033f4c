/**
 * Reports and edits running concurrently, cut into their database statements
 * (runtime/yanic.go, websocket/hd_node.go). Any number of handlers, any schedule.
 */
module Interleaving {
  import opened Common
  import opened Nodes
  import opened Overlay
  import opened Server
  import opened Ssh

  /** The handlers that run, with the outcomes of the outside world: SSH, whether the write statement fails, the latest report an edit finds. */
  datatype Job =
    | ReportJob(report: Report, clock: Clock, sshOk: bool)
    | EditJob(loggedIn: bool, body: Option<Edit>, writeOk: bool, cached: Option<Report>, now: int)

  /** Where a handler stands, with the local copies it holds. */
  datatype Place =
    | Start
    | Loaded(n: Node)
    | Compared(n: Node)
    | Refused(n: Node)
    | Publishing(n: Node)
    | Learning(n: Node)
    | EditLoaded(edit: Edit, origin: Option<Row>)
    | Written(edit: Edit, ok: bool)
    | Answering(ok: bool)
    | Finished

  /** What the handlers did to desired tuples, in order, and what they answered. */
  datatype Entry =
    | EditWrite(job: nat, id: string, settings: Settings, ok: bool)
    | LearnWrite(id: string, settings: Settings, ok: bool)
    | Answer(job: nat, ok: bool)

  datatype World = World(db: map<string, Row>, places: seq<Place>, log: seq<Entry>, sent: seq<Node>)

  function Move(w: World, t: nat, place: Place): World
    requires t < |w.places|
  {
    w.(places := w.places[t := place])
  }

  function Log(w: World, entry: Entry): World {
    w.(log := w.log + [entry])
  }

  /** One database statement, SSH session, answer or broadcast of handler t. */
  ghost function Step(config: Config, jobs: seq<Job>, w: World, t: nat): World {
    if t >= |jobs| || t >= |w.places| then w
    else match jobs[t]
      case ReportJob(report, clock, sshOk) => ReportStep(config, report, clock, sshOk, w, t)
      case EditJob(loggedIn, body, writeOk, cached, now) => EditStep(config, loggedIn, body, writeOk, cached, now, w, t)
  }

  ghost function ReportStep(config: Config, report: Report, clock: Clock, sshOk: bool, w: World, t: nat): World
    requires t < |w.places|
  {
    match w.places[t]
    case Start =>
      if report.nodeinfo.None? then Move(w, t, Finished)
      else
        var id := report.nodeinfo.value.nodeId;
        if id in w.db then Move(w, t, Loaded(Updated(config, Load(id, w.db[id]), report, clock.update)))
        else
          var node := FreshNode(config, report, clock.update);
          Move(w, t, Learning(if sshOk then node else node.(row := node.row.(blacklist := Some(clock.start)))))
    case Loaded(n) =>
      Move(w.(db := DbSeen(w.db, n.nodeId, n.row.address, clock.start)), t, Compared(n))
    case Compared(n) =>
      if TimeFilter(n.row, config.blacklistFor, clock.filter) then Move(w, t, Finished)
      else if CheckRespondd(n.row.settings, n.respondd) || sshOk then Move(w, t, Publishing(n))
      else Move(w, t, Refused(n))
    case Refused(n) =>
      Move(w.(db := DbBlacklist(w.db, n.nodeId, clock.start)), t, Finished)
    case Learning(n) =>
      var (db, ok) := DbCreate(w.db, n.nodeId, n.row);
      Move(Log(w.(db := db), LearnWrite(n.nodeId, n.row.settings, ok)), t,
           if n.row.blacklist.None? then Publishing(n) else Finished)
    case Publishing(n) => Move(w.(sent := w.sent + [n]), t, Finished)
    case _ => w
  }

  ghost function EditStep(config: Config, loggedIn: bool, body: Option<Edit>, writeOk: bool,
                          cached: Option<Report>, now: int, w: World, t: nat): World
    requires t < |w.places|
  {
    match w.places[t]
    case Start =>
      if !loggedIn || body.None? || body.value.nodeId == "" then Move(w, t, Answering(false))
      else
        var id := body.value.nodeId;
        Move(w, t, EditLoaded(body.value, if id in w.db then Some(w.db[id]) else None))
    case EditLoaded(Edit(id, settings), origin) =>
      var (db, ok) := if !writeOk then (w.db, false)
                      else if origin.Some? then (w.db[id := origin.value.(settings := settings)], true)
                      else DbCreate(w.db, id, Row(None, None, "", settings));
      Move(Log(w.(db := db), EditWrite(t, id, settings, ok)), t, Written(Edit(id, settings), ok))
    case Written(edit, ok) =>
      Move(Log(w, Answer(t, ok)), t,
           if ok then Publishing(Shown(config, edit.nodeId, edit.settings, cached, now)) else Finished)
    case Answering(ok) => Move(Log(w, Answer(t, ok)), t, Finished)
    case Publishing(n) => Move(w.(sent := w.sent + [n]), t, Finished)
    case _ => w
  }

  ghost function Execute(config: Config, jobs: seq<Job>, db: map<string, Row>, schedule: seq<nat>): World {
    if schedule == [] then World(db, seq(|jobs|, _ => Start), [], [])
    else Step(config, jobs, Execute(config, jobs, db, schedule[..|schedule| - 1]), schedule[|schedule| - 1])
  }

  // ----- the desired tuple, read off the log

  /** The tuple of the latest edit whose write took effect. */
  function LatestEdit(log: seq<Entry>, id: string): Option<Settings> {
    if log == [] then None
    else match log[|log| - 1]
      case EditWrite(_, i, settings, true) => if i == id then Some(settings) else LatestEdit(log[..|log| - 1], id)
      case _ => LatestEdit(log[..|log| - 1], id)
  }

  function LatestLearned(log: seq<Entry>, id: string): Option<Settings> {
    if log == [] then None
    else match log[|log| - 1]
      case LearnWrite(i, settings, true) => if i == id then Some(settings) else LatestLearned(log[..|log| - 1], id)
      case _ => LatestLearned(log[..|log| - 1], id)
  }

  /** The latest effective edit; without one, what was learned; without that, what was there at first. */
  function Desired(db: map<string, Row>, log: seq<Entry>, id: string): Option<Settings> {
    if LatestEdit(log, id).Some? then LatestEdit(log, id)
    else if LatestLearned(log, id).Some? then LatestLearned(log, id)
    else if id in db then Some(db[id].settings)
    else None
  }

  ghost predicate TableIsDesired(db: map<string, Row>, w: World) {
    forall id ::
      Desired(db, w.log, id) == if id in w.db then Some(w.db[id].settings) else None
  }

  ghost predicate Effective(log: seq<Entry>, t: nat) {
    exists k :: 0 <= k < |log| && log[k].EditWrite? && log[k].job == t && log[k].ok
  }

  /** What the place of a handler says about its entries in the log. */
  ghost predicate PlaceIsLogged(jobs: seq<Job>, w: World, t: nat) {
    t < |jobs| == |w.places| && jobs[t].EditJob? ==>
      match w.places[t]
      case Start => !Effective(w.log, t) && !Answered(w.log, t)
      case EditLoaded(_, _) => !Effective(w.log, t) && !Answered(w.log, t)
      case Answering(ok) => !ok && !Effective(w.log, t) && !Answered(w.log, t)
      case Written(_, ok) => (ok <==> Effective(w.log, t)) && !Answered(w.log, t)
      case Publishing(_) => Effective(w.log, t) && Answered(w.log, t)
      case Finished => Answered(w.log, t)
      case _ => true
  }

  ghost predicate Answered(log: seq<Entry>, t: nat) {
    exists k :: 0 <= k < |log| && log[k].Answer? && log[k].job == t
  }

  /** Every answer given says whether the write of that handler took effect, and no handler answers twice. */
  ghost predicate AnswersAreTrue(log: seq<Entry>) {
    && (forall k | 0 <= k < |log| && log[k].Answer? :: log[k].ok <==> Effective(log, log[k].job))
    && (forall i, k | 0 <= i < k < |log| && log[i].Answer? && log[k].Answer? :: log[i].job != log[k].job)
  }

  ghost predicate AnswersFit(jobs: seq<Job>, w: World) {
    && |w.places| == |jobs|
    && AnswersAreTrue(w.log)
    && (forall t | 0 <= t < |jobs| :: PlaceIsLogged(jobs, w, t))
    && (forall k | 0 <= k < |w.log| && !w.log[k].LearnWrite? :: w.log[k].job < |jobs| && jobs[w.log[k].job].EditJob?)
    && (forall t | 0 <= t < |jobs| && jobs[t].EditJob? && Answered(w.log, t) :: w.places[t].Publishing? || w.places[t].Finished?)
  }

  lemma LogGrows(log: seq<Entry>, entry: Entry, t: nat)
    ensures Effective(log + [entry], t) <==> Effective(log, t) || (entry.EditWrite? && entry.job == t && entry.ok)
    ensures Answered(log + [entry], t) <==> Answered(log, t) || (entry.Answer? && entry.job == t)
  {
    var log1 := log + [entry];
    assert forall k | 0 <= k < |log| :: log1[k] == log[k];
    assert log1[|log|] == entry;
  }

  lemma DesiredGrows(db: map<string, Row>, log: seq<Entry>, entry: Entry, id: string)
    ensures Desired(db, log + [entry], id) ==
            match entry
            case EditWrite(_, i, settings, true) => if i == id then Some(settings) else Desired(db, log, id)
            case LearnWrite(i, settings, true) =>
              if i == id && LatestEdit(log, id).None? then Some(settings) else Desired(db, log, id)
            case _ => Desired(db, log, id)
  {
    assert (log + [entry])[..|log|] == log;
  }

  /** A report changes named columns of a row, or creates a row where there is none. */
  lemma ReportEffect(config: Config, report: Report, clock: Clock, sshOk: bool, w: World, t: nat)
    requires t < |w.places|
    ensures var w1 := ReportStep(config, report, clock, sshOk, w, t);
            || (w1.log == w.log && SameTuples(w.db, w1.db))
            || exists id, row :: Learns(w, w1, id, row)
  {
    if w.places[t].Learning? {
      var n := w.places[t].n;
      assert Learns(w, ReportStep(config, report, clock, sshOk, w, t), n.nodeId, n.row);
    }
  }

  ghost predicate Learns(w: World, w1: World, id: string, row: Row) {
    && w1.log == w.log + [LearnWrite(id, row.settings, id !in w.db)]
    && w1.db == if id in w.db then w.db else w.db[id := row]
  }

  ghost predicate Writes(w: World, w1: World, t: nat, id: string, row: Row, ok: bool) {
    && w1.log == w.log + [EditWrite(t, id, row.settings, ok)]
    && w1.db == if ok then w.db[id := row] else w.db
  }

  ghost predicate OnlyAnswers(w: World, w1: World, t: nat, ok: bool) {
    w1.log == w.log + [Answer(t, ok)] && w1.db == w.db
  }

  /** An edit writes its tuple, or does not take effect. */
  lemma EditEffect(config: Config, loggedIn: bool, body: Option<Edit>, writeOk: bool, cached: Option<Report>, now: int, w: World, t: nat)
    requires t < |w.places|
    ensures var w1 := EditStep(config, loggedIn, body, writeOk, cached, now, w, t);
            || (w1.log == w.log && w1.db == w.db)
            || (exists ok :: OnlyAnswers(w, w1, t, ok))
            || exists id, row, ok :: Writes(w, w1, t, id, row, ok)
  {
    if w.places[t].EditLoaded? {
      var EditLoaded(Edit(id, settings), origin) := w.places[t];
      var w1 := EditStep(config, loggedIn, body, writeOk, cached, now, w, t);
      var row := if origin.Some? then origin.value.(settings := settings) else Row(None, None, "", settings);
      var ok := writeOk && (origin.Some? || id !in w.db);
      assert Writes(w, w1, t, id, row, ok);
    } else if w.places[t].Written? || w.places[t].Answering? {
      assert OnlyAnswers(w, EditStep(config, loggedIn, body, writeOk, cached, now, w, t), t, w.places[t].ok);
    }
  }

  ghost predicate SameTuples(db: map<string, Row>, db1: map<string, Row>) {
    db1.Keys == db.Keys && forall id | id in db :: db1[id].settings == db[id].settings
  }

  /** No step breaks the link between table and log. */
  lemma StepKeepsTable(config: Config, jobs: seq<Job>, db: map<string, Row>, w: World, t: nat)
    requires TableIsDesired(db, w)
    ensures TableIsDesired(db, Step(config, jobs, w, t))
  {
    if t < |jobs| && t < |w.places| {
      if jobs[t].ReportJob? {
        ReportEffect(config, jobs[t].report, jobs[t].clock, jobs[t].sshOk, w, t);
      } else {
        EditEffect(config, jobs[t].loggedIn, jobs[t].body, jobs[t].writeOk, jobs[t].cached, jobs[t].now, w, t);
      }
      EffectKeepsTable(db, w, Step(config, jobs, w, t));
    }
  }

  lemma EffectKeepsTable(db: map<string, Row>, w: World, w1: World)
    requires TableIsDesired(db, w)
    requires
      || (w1.log == w.log && SameTuples(w.db, w1.db))
      || (exists t, ok :: OnlyAnswers(w, w1, t, ok))
      || (exists id, row :: Learns(w, w1, id, row))
      || (exists t, id, row, ok :: Writes(w, w1, t, id, row, ok))
    ensures TableIsDesired(db, w1)
  {
    forall id
      ensures Desired(db, w1.log, id) == if id in w1.db then Some(w1.db[id].settings) else None
    {
      assert Desired(db, w.log, id) == if id in w.db then Some(w.db[id].settings) else None;
      if w1.log != w.log {
        assert w1.log == w.log + [w1.log[|w.log|]];
        DesiredGrows(db, w.log, w1.log[|w.log|], id);
      }
    }
  }

  /** From w to w1 only handler t moved, and the log grew by at most one entry; an edit's entries name its job. */
  ghost predicate OnlyMoves(w: World, w1: World, t: nat, edit: bool) {
    && |w1.places| == |w.places|
    && (forall u | 0 <= u < |w.places| && u != t :: w1.places[u] == w.places[u])
    && (w1.log == w.log || (|w1.log| == |w.log| + 1 && w1.log == w.log + [w1.log[|w.log|]]))
    && (w1.log != w.log && !w1.log[|w.log|].LearnWrite? ==> edit && w1.log[|w.log|].job == t)
  }

  lemma StepShape(config: Config, jobs: seq<Job>, w: World, t: nat)
    requires |w.places| == |jobs|
    ensures OnlyMoves(w, Step(config, jobs, w, t), t, t < |jobs| && jobs[t].EditJob?)
  {
    if t < |jobs| {
      if jobs[t].ReportJob? {
        ReportMoves(config, jobs[t].report, jobs[t].clock, jobs[t].sshOk, w, t);
      } else {
        EditMoves(config, jobs[t].loggedIn, jobs[t].body, jobs[t].writeOk, jobs[t].cached, jobs[t].now, w, t);
      }
    }
  }

  lemma ReportMoves(config: Config, report: Report, clock: Clock, sshOk: bool, w: World, t: nat)
    requires t < |w.places|
    ensures OnlyMoves(w, ReportStep(config, report, clock, sshOk, w, t), t, false)
  {
  }

  lemma EditMoves(config: Config, loggedIn: bool, body: Option<Edit>, writeOk: bool, cached: Option<Report>, now: int, w: World, t: nat)
    requires t < |w.places|
    ensures OnlyMoves(w, EditStep(config, loggedIn, body, writeOk, cached, now, w, t), t, true)
  {
  }

  lemma StepKeepsPlaces(config: Config, jobs: seq<Job>, w: World, t: nat)
    requires AnswersFit(jobs, w)
    ensures var w1 := Step(config, jobs, w, t);
            && (forall u | 0 <= u < |jobs| :: PlaceIsLogged(jobs, w1, u))
            && (forall u | 0 <= u < |jobs| && jobs[u].EditJob? && Answered(w1.log, u) :: w1.places[u].Publishing? || w1.places[u].Finished?)
  {
    var w1 := Step(config, jobs, w, t);
    StepShape(config, jobs, w, t);
    forall u | 0 <= u < |jobs|
      ensures PlaceIsLogged(jobs, w1, u)
      ensures jobs[u].EditJob? && Answered(w1.log, u) ==> w1.places[u].Publishing? || w1.places[u].Finished?
    {
      assert PlaceIsLogged(jobs, w, u);
      if w1.log != w.log {
        LogGrows(w.log, w1.log[|w.log|], u);
      }
    }
  }

  lemma StepKeepsAnswers(config: Config, jobs: seq<Job>, w: World, t: nat)
    requires AnswersFit(jobs, w)
    ensures AnswersFit(jobs, Step(config, jobs, w, t))
  {
    var w1 := Step(config, jobs, w, t);
    StepShape(config, jobs, w, t);
    StepKeepsPlaces(config, jobs, w, t);
    if w1.log != w.log {
      var n, entry := |w.log|, w1.log[|w.log|];
      assert forall k | 0 <= k < n :: w1.log[k] == w.log[k];
      forall k | 0 <= k <= n && w1.log[k].Answer?
        ensures w1.log[k].ok <==> Effective(w1.log, w1.log[k].job)
        ensures k < n && entry.Answer? ==> w1.log[k].job != entry.job
      {
        LogGrows(w.log, entry, w1.log[k].job);
        if !entry.LearnWrite? {
          assert PlaceIsLogged(jobs, w, t);
        }
        if k < n {
          assert Answered(w.log, w.log[k].job);
        }
      }
    }
  }

  /**
   * In every interleaving: the stored tuple of every node is the tuple of the
   * latest edit that took effect, or what was learned if there was none; every
   * answer is true exactly if the write of that edit took effect, also when
   * several handlers race to create one node; and every edit that is done, or
   * only has its broadcast left, has been answered.
   */
  lemma {:induction false} EditsSurvive(config: Config, jobs: seq<Job>, db: map<string, Row>, schedule: seq<nat>)
    ensures var w := Execute(config, jobs, db, schedule);
            && TableIsDesired(db, w) && AnswersFit(jobs, w)
            && forall t | 0 <= t < |jobs| && jobs[t].EditJob? ::
                 w.places[t].Publishing? || w.places[t].Finished? <==> Answered(w.log, t)
    decreases |schedule|
  {
    if schedule == [] {
    } else {
      var n := |schedule| - 1;
      EditsSurvive(config, jobs, db, schedule[..n]);
      var w := Execute(config, jobs, db, schedule[..n]);
      StepShape(config, jobs, w, schedule[n]);
      StepKeepsTable(config, jobs, db, w, schedule[n]);
      StepKeepsAnswers(config, jobs, w, schedule[n]);
    }
    var w := Execute(config, jobs, db, schedule);
    forall t | 0 <= t < |jobs| && jobs[t].EditJob?
      ensures w.places[t].Publishing? || w.places[t].Finished? <==> Answered(w.log, t)
    {
      assert PlaceIsLogged(jobs, w, t);
    }
  }

  // ----- a handler that is never interrupted

  /** Four turns are enough for any handler. */
  ghost function Alone(config: Config, jobs: seq<Job>, w: World, t: nat): World {
    Step(config, jobs, ThreeMore(config, jobs, w, t), t)
  }

  ghost function ThreeMore(config: Config, jobs: seq<Job>, w: World, t: nat): World {
    Step(config, jobs, Step(config, jobs, Step(config, jobs, w, t), t), t)
  }

  lemma AloneIsScheduled(config: Config, jobs: seq<Job>, db: map<string, Row>, schedule: seq<nat>, t: nat)
    ensures Execute(config, jobs, db, schedule + [t] + [t] + [t] + [t]) == Alone(config, jobs, Execute(config, jobs, db, schedule), t)
  {
    OneMoreTurn(config, jobs, db, schedule, t);
    OneMoreTurn(config, jobs, db, schedule + [t], t);
    OneMoreTurn(config, jobs, db, schedule + [t] + [t], t);
    OneMoreTurn(config, jobs, db, schedule + [t] + [t] + [t], t);
  }

  lemma OneMoreTurn(config: Config, jobs: seq<Job>, db: map<string, Row>, schedule: seq<nat>, t: nat)
    ensures Execute(config, jobs, db, schedule + [t]) == Step(config, jobs, Execute(config, jobs, db, schedule), t)
  {
    assert (schedule + [t])[..|schedule|] == schedule;
  }

  lemma LoadedAlone(config: Config, jobs: seq<Job>, w: World, t: nat, n: Node)
    requires t < |jobs| == |w.places| && jobs[t].ReportJob? && w.places[t] == Loaded(n)
    ensures var w1 := ThreeMore(config, jobs, w, t);
            var db := DbSeen(w.db, n.nodeId, n.row.address, jobs[t].clock.start);
            if TimeFilter(n.row, config.blacklistFor, jobs[t].clock.filter) then w1.db == db && w1.sent == w.sent
            else if CheckRespondd(n.row.settings, n.respondd) || jobs[t].sshOk then w1.db == db && w1.sent == w.sent + [n]
            else w1.db == DbBlacklist(db, n.nodeId, jobs[t].clock.start) && w1.sent == w.sent
  {
    var w1 := Step(config, jobs, w, t);
    assert w1.places[t] == Compared(n);
    var w2 := Step(config, jobs, w1, t);
    assert w2.places[t].Finished? || w2.places[t] == Refused(n) || w2.places[t] == Publishing(n);
  }

  lemma LearningAlone(config: Config, jobs: seq<Job>, w: World, t: nat, n: Node)
    requires t < |jobs| == |w.places| && jobs[t].ReportJob? && w.places[t] == Learning(n)
    ensures var w1 := ThreeMore(config, jobs, w, t);
            w1.db == DbCreate(w.db, n.nodeId, n.row).0 && w1.sent == if n.row.blacklist.None? then w.sent + [n] else w.sent
  {
    var w1 := Step(config, jobs, w, t);
    assert w1.places[t] == if n.row.blacklist.None? then Publishing(n) else Finished;
    var w2 := Step(config, jobs, w1, t);
    assert w2.places[t].Finished?;
  }

  /** Whether the push to a known node gets a connection, or the first probe of an unknown one succeeds. */
  ghost predicate SshWorks(config: Config, oracle: nat -> bool, db: map<string, Row>, wire: Wire, report: Report, clock: Clock)
    requires report.nodeinfo.Some?
  {
    var id := report.nodeinfo.value.nodeId;
    if id in db then Push(oracle, config.plan, Updated(config, Load(id, db[id]), report, clock.update), wire).0
    else Probe(oracle, wire).0
  }

  /** A report handler that is never interrupted does what the atomic handler does. */
  lemma SoloReportIsAtomic(config: Config, jobs: seq<Job>, w: World, t: nat, oracle: nat -> bool, wire: Wire)
    requires t < |jobs| == |w.places| && w.places[t].Start? && jobs[t].ReportJob?
    requires jobs[t].report.nodeinfo.Some? ==> jobs[t].sshOk == SshWorks(config, oracle, w.db, wire, jobs[t].report, jobs[t].clock)
    ensures var w1 := Alone(config, jobs, w, t);
            State(w1.db, w1.sent) == AfterReport(config, oracle, State(w.db, w.sent), wire, jobs[t].report, jobs[t].clock).0
  {
    var ReportJob(report, clock, sshOk) := jobs[t];
    var w1 := Step(config, jobs, w, t);
    assert Alone(config, jobs, w, t) == ThreeMore(config, jobs, w1, t);
    if report.nodeinfo.Some? {
      var id := report.nodeinfo.value.nodeId;
      if id in w.db {
        LoadedAlone(config, jobs, w1, t, Updated(config, Load(id, w.db[id]), report, clock.update));
      } else {
        var node := FreshNode(config, report, clock.update);
        LearningAlone(config, jobs, w1, t, if sshOk then node else node.(row := node.row.(blacklist := Some(clock.start))));
      }
    } else {
      assert w1.places[t].Finished?;
    }
  }

  /** An edit handler that is never interrupted does, and answers, what the atomic handler does. */
  lemma SoloEditIsAtomic(config: Config, jobs: seq<Job>, w: World, t: nat)
    requires t < |jobs| == |w.places| && w.places[t].Start? && jobs[t].EditJob?
    ensures var w1 := Alone(config, jobs, w, t);
            var EditJob(loggedIn, body, writeOk, cached, now) := jobs[t];
            var (s1, answer) := AfterEdit(config, State(w.db, w.sent), loggedIn, body, writeOk, cached, now);
            && State(w1.db, w1.sent) == s1
            && w1.log != [] && w1.log[|w1.log| - 1] == Answer(t, answer)
  {
    var EditJob(loggedIn, body, writeOk, cached, now) := jobs[t];
    var w1 := Step(config, jobs, w, t);
    var w2 := Step(config, jobs, w1, t);
    var w3 := Step(config, jobs, w2, t);
    if !loggedIn || body.None? || body.value.nodeId == "" {
      assert w1.places[t] == Answering(false) && w2.places[t].Finished?;
    } else {
      var ok := writeOk;
      assert w2.places[t] == Written(body.value, ok);
      assert w3.places[t] == if ok then Publishing(Shown(config, body.value.nodeId, body.value.settings, cached, now)) else Finished;
    }
  }

  // ----- what single statements read and write

  /** All rows but that of node id stay, and none comes or goes but that one. */
  ghost predicate OthersStay(w: World, w1: World, id: string) {
    && w.db.Keys <= w1.db.Keys <= w.db.Keys + {id}
    && forall other | other in w.db && other != id :: w1.db[other] == w.db[other]
  }

  /**
   * The statements of a report. The first one reads the stored row; the next
   * one writes address and last-seen time of the row as it is then; a failure
   * writes the mark only; a row is created only where there is none; and the
   * broadcast is of what was read. No statement writes anything else.
   */
  lemma ReportStatements(config: Config, jobs: seq<Job>, w: World, t: nat)
    requires config.plan.Valid() && t < |jobs| == |w.places| && jobs[t].ReportJob?
    ensures var ReportJob(report, clock, sshOk) := jobs[t];
            var w1 := Step(config, jobs, w, t);
            match w.places[t]
            case Start =>
              && w1.db == w.db && w1.sent == w.sent
              && (report.nodeinfo.Some? && report.nodeinfo.value.nodeId in w.db ==>
                    && w1.places[t].Loaded?
                    && Overlays(config, Load(report.nodeinfo.value.nodeId, w.db[report.nodeinfo.value.nodeId]), report, clock.update, w1.places[t].n))
            case Loaded(n) =>
              && w1.sent == w.sent && OthersStay(w, w1, n.nodeId) && w1.db.Keys == w.db.Keys
              && (n.nodeId in w.db ==> SeenRow(w.db[n.nodeId], w1.db[n.nodeId], n.row.address, clock.start))
            case Refused(n) =>
              && w1.sent == w.sent && OthersStay(w, w1, n.nodeId) && w1.db.Keys == w.db.Keys
              && (n.nodeId in w.db ==> MarkedRow(w.db[n.nodeId], w1.db[n.nodeId], clock.start))
            case Learning(n) =>
              && w1.sent == w.sent && OthersStay(w, w1, n.nodeId)
              && n.nodeId in w1.db && w1.db[n.nodeId] == (if n.nodeId in w.db then w.db[n.nodeId] else n.row)
            case Publishing(n) => w1.db == w.db && w1.sent == w.sent + [n]
            case _ => w1.db == w.db && w1.sent == w.sent
  {
    if w.places[t].Start? && jobs[t].report.nodeinfo.Some? && jobs[t].report.nodeinfo.value.nodeId in w.db {
      var id := jobs[t].report.nodeinfo.value.nodeId;
      UpdatedOverlays(config, Load(id, w.db[id]), jobs[t].report, jobs[t].clock.update);
    }
  }

  predicate SeenRow(before: Row, after: Row, address: string, now: int) {
    && after.settings == before.settings && after.blacklist == before.blacklist
    && after.address == address && after.lastseen == Some(now)
  }

  predicate MarkedRow(before: Row, after: Row, now: int) {
    && after.settings == before.settings && after.address == before.address && after.lastseen == before.lastseen
    && after.blacklist == Some(now)
  }

  /**
   * The statements of an edit. The first one reads the stored row, if there is
   * one; the second saves the new tuple with all other columns as they were
   * read, or creates a row with nothing else in it where there is none.
   */
  lemma EditStatements(config: Config, jobs: seq<Job>, w: World, t: nat)
    requires t < |jobs| == |w.places| && jobs[t].EditJob?
    ensures var w1 := Step(config, jobs, w, t);
            match w.places[t]
            case Start =>
              && w1.db == w.db && w1.sent == w.sent
              && (w1.places[t].EditLoaded? <==> jobs[t].loggedIn && jobs[t].body.Some? && jobs[t].body.value.nodeId != "")
              && (w1.places[t].EditLoaded? ==>
                    && w1.places[t].edit == jobs[t].body.value
                    && (w1.places[t].origin.Some? <==> w1.places[t].edit.nodeId in w.db)
                    && (w1.places[t].origin.Some? ==> w1.places[t].origin.value == w.db[w1.places[t].edit.nodeId]))
            case EditLoaded(Edit(id, settings), origin) =>
              && w1.sent == w.sent && OthersStay(w, w1, id)
              && (!jobs[t].writeOk || (origin.None? && id in w.db) ==> w1.db == w.db)
              && (jobs[t].writeOk && (origin.Some? || id !in w.db) ==>
                    && id in w1.db && w1.db[id].settings == settings
                    && w1.db[id].lastseen == (if origin.Some? then origin.value.lastseen else None)
                    && w1.db[id].blacklist == (if origin.Some? then origin.value.blacklist else None)
                    && w1.db[id].address == (if origin.Some? then origin.value.address else ""))
            case Publishing(n) => w1.db == w.db && w1.sent == w.sent + [n]
            case _ => w1.db == w.db && w1.sent == w.sent
  {
  }

  // ----- the columns outside the tuple

  /** A property of a row that does not look at the desired tuple. */
  ghost predicate TupleBlind(fits: Row -> bool) {
    forall row: Row, settings: Settings :: fits(row.(settings := settings)) == fits(row)
  }

  ghost predicate FitsAt(w: World, id: string, fits: Row -> bool) {
    id in w.db && fits(w.db[id])
  }

  /** The next step of handler t is one of a report, and itself makes the row of node id unfit. */
  ghost predicate Unfits(config: Config, jobs: seq<Job>, w: World, t: nat, id: string, fits: Row -> bool) {
    && t < |jobs| && jobs[t].ReportJob?
    && FitsAt(w, id, fits) && !FitsAt(Step(config, jobs, w, t), id, fits)
  }

  /** Handler t is an edit of node id about to save a row it read that does not fit. */
  ghost predicate HoldsUnfitRow(jobs: seq<Job>, w: World, t: nat, id: string, fits: Row -> bool) {
    && t < |jobs| == |w.places| && jobs[t].EditJob? && jobs[t].writeOk
    && w.places[t].EditLoaded? && w.places[t].edit.nodeId == id
    && w.places[t].origin.Some? && !fits(w.places[t].origin.value)
  }

  /** After `schedule`, no report makes the row of node id unfit in `more`. */
  ghost predicate NoneUnfits(config: Config, jobs: seq<Job>, db: map<string, Row>, schedule: seq<nat>, more: seq<nat>, id: string, fits: Row -> bool) {
    forall k | 0 <= k < |more| :: !Unfits(config, jobs, Execute(config, jobs, db, schedule + more[..k]), more[k], id, fits)
  }

  ghost predicate Safely(jobs: seq<Job>, w: World, id: string, fits: Row -> bool) {
    && |w.places| == |jobs| && FitsAt(w, id, fits)
    && forall t | 0 <= t < |jobs| :: !HoldsUnfitRow(jobs, w, t, id, fits)
  }

  lemma StepKeepsFit(config: Config, jobs: seq<Job>, w: World, t: nat, id: string, fits: Row -> bool)
    requires TupleBlind(fits) && Safely(jobs, w, id, fits) && !Unfits(config, jobs, w, t, id, fits)
    ensures Safely(jobs, Step(config, jobs, w, t), id, fits)
  {
    StepShape(config, jobs, w, t);
    var w1 := Step(config, jobs, w, t);
    if t < |jobs| && jobs[t].EditJob? {
      assert !HoldsUnfitRow(jobs, w, t, id, fits);
      EditKeepsFit(config, jobs, w, t, id, fits);
    }
    forall u | 0 <= u < |jobs|
      ensures !HoldsUnfitRow(jobs, w1, u, id, fits)
    {
      assert !HoldsUnfitRow(jobs, w, u, id, fits);
    }
  }

  lemma EditKeepsFit(config: Config, jobs: seq<Job>, w: World, t: nat, id: string, fits: Row -> bool)
    requires TupleBlind(fits)
    requires t < |jobs| == |w.places| && jobs[t].EditJob? && FitsAt(w, id, fits) && !HoldsUnfitRow(jobs, w, t, id, fits)
    ensures FitsAt(Step(config, jobs, w, t), id, fits) && !HoldsUnfitRow(jobs, Step(config, jobs, w, t), t, id, fits)
  {
  }

  /** The worlds passed through from `ws[0]` on, without a report that makes the row unfit. */
  ghost predicate FittingPath(config: Config, jobs: seq<Job>, ws: seq<World>, more: seq<nat>, id: string, fits: Row -> bool) {
    && |ws| == |more| + 1
    && forall k | 0 <= k < |more| :: ws[k + 1] == Step(config, jobs, ws[k], more[k]) && !Unfits(config, jobs, ws[k], more[k], id, fits)
  }

  lemma {:induction false} FitStays(config: Config, jobs: seq<Job>, ws: seq<World>, more: seq<nat>, n: nat, id: string, fits: Row -> bool)
    requires TupleBlind(fits)
    requires FittingPath(config, jobs, ws, more, id, fits) && Safely(jobs, ws[0], id, fits) && n < |ws|
    ensures Safely(jobs, ws[n], id, fits)
  {
    if n == 0 {
    } else {
      FitStays(config, jobs, ws, more, n - 1, id, fits);
      StepKeepsFit(config, jobs, ws[n - 1], more[n - 1], id, fits);
    }
  }

  /** The worlds an execution passes through. */
  lemma ExecutionIsPath(config: Config, jobs: seq<Job>, db: map<string, Row>, schedule: seq<nat>, more: seq<nat>)
    returns (ws: seq<World>)
    ensures |ws| == |more| + 1
    ensures forall k | 0 <= k < |ws| :: ws[k] == Execute(config, jobs, db, schedule + more[..k])
    ensures forall k | 0 <= k < |more| :: ws[k + 1] == Step(config, jobs, ws[k], more[k])
    ensures ws[0] == Execute(config, jobs, db, schedule) && ws[|more|] == Execute(config, jobs, db, schedule + more)
  {
    var prefixes := seq(|more| + 1, k requires 0 <= k <= |more| => schedule + more[..k]);
    assert prefixes[0] == schedule && prefixes[|more|] == schedule + more;
    ws := seq(|more| + 1, k requires 0 <= k <= |more| => Execute(config, jobs, db, prefixes[k]));
    forall k | 0 <= k < |more|
      ensures ws[k + 1] == Step(config, jobs, ws[k], more[k])
    {
      assert prefixes[k] == schedule + more[..k] && prefixes[k + 1] == schedule + more[..k + 1];
      TurnOfContinuation(config, jobs, db, schedule, more, k);
    }
  }

  lemma TurnOfContinuation(config: Config, jobs: seq<Job>, db: map<string, Row>, schedule: seq<nat>, more: seq<nat>, k: nat)
    requires k < |more|
    ensures Execute(config, jobs, db, schedule + more[..k + 1]) == Step(config, jobs, Execute(config, jobs, db, schedule + more[..k]), more[k])
  {
    assert schedule + more[..k + 1] == schedule + more[..k] + [more[k]];
    OneMoreTurn(config, jobs, db, schedule + more[..k], more[k]);
  }

  lemma FitSurvives(config: Config, jobs: seq<Job>, db: map<string, Row>, schedule: seq<nat>, more: seq<nat>, id: string, fits: Row -> bool)
    requires TupleBlind(fits)
    requires Safely(jobs, Execute(config, jobs, db, schedule), id, fits)
    requires NoneUnfits(config, jobs, db, schedule, more, id, fits)
    ensures FitsAt(Execute(config, jobs, db, schedule + more), id, fits)
  {
    var ws := ExecutionIsPath(config, jobs, db, schedule, more);
    FitStays(config, jobs, ws, more, |more|, id, fits);
  }

  lemma UnfitRowBreaks(config: Config, jobs: seq<Job>, db: map<string, Row>, schedule: seq<nat>, t: nat, id: string, fits: Row -> bool)
    requires TupleBlind(fits) && HoldsUnfitRow(jobs, Execute(config, jobs, db, schedule), t, id, fits)
    ensures !FitsAt(Execute(config, jobs, db, schedule + [t]), id, fits)
  {
    OneMoreTurn(config, jobs, db, schedule, t);
  }

  /**
   * Exactly when the columns outside the tuple are safe, for any property of
   * them: it survives every continuation in which no report itself ends it, if
   * and only if no edit of the node is about to save a row it read without it.
   */
  lemma RowIsSafeIff(config: Config, jobs: seq<Job>, db: map<string, Row>, schedule: seq<nat>, id: string, fits: Row -> bool)
    requires TupleBlind(fits) && FitsAt(Execute(config, jobs, db, schedule), id, fits)
    ensures (forall more :: NoneUnfits(config, jobs, db, schedule, more, id, fits) ==>
               FitsAt(Execute(config, jobs, db, schedule + more), id, fits)) <==>
            forall t | 0 <= t < |jobs| :: !HoldsUnfitRow(jobs, Execute(config, jobs, db, schedule), t, id, fits)
  {
    EditsSurvive(config, jobs, db, schedule);
    if t :| 0 <= t < |jobs| && HoldsUnfitRow(jobs, Execute(config, jobs, db, schedule), t, id, fits) {
      UnfitRowBreaks(config, jobs, db, schedule, t, id, fits);
      assert NoneUnfits(config, jobs, db, schedule, [t], id, fits);
    } else {
      forall more | NoneUnfits(config, jobs, db, schedule, more, id, fits)
        ensures FitsAt(Execute(config, jobs, db, schedule + more), id, fits)
      {
        FitSurvives(config, jobs, db, schedule, more, id, fits);
      }
    }
  }

  // ----- a stored blacklist mark

  /** A row that carries one of the marks asked for. */
  function Carrying(fits: int -> bool): Row -> bool {
    (row: Row) => row.blacklist.Some? && fits(row.blacklist.value)
  }

  ghost predicate MarkedAs(w: World, id: string, fits: int -> bool) {
    id in w.db && w.db[id].blacklist.Some? && fits(w.db[id].blacklist.value)
  }

  /** The next step of handler t records an SSH failure of node id with a mark that does not fit. */
  ghost predicate Remarks(jobs: seq<Job>, w: World, t: nat, id: string, fits: int -> bool) {
    && t < |jobs| == |w.places| && jobs[t].ReportJob? && w.places[t].Refused? && w.places[t].n.nodeId == id
    && !fits(jobs[t].clock.start)
  }

  /** Handler t is an edit of node id about to save a row it read without a mark that fits. */
  ghost predicate HoldsStaleRow(jobs: seq<Job>, w: World, t: nat, id: string, fits: int -> bool) {
    && t < |jobs| == |w.places| && jobs[t].EditJob? && jobs[t].writeOk
    && w.places[t].EditLoaded? && w.places[t].edit.nodeId == id && w.places[t].origin.Some?
    && !(w.places[t].origin.value.blacklist.Some? && fits(w.places[t].origin.value.blacklist.value))
  }

  /** After `schedule`, no step of `more` marks node id in a way that does not fit. */
  ghost predicate NoneRemarks(config: Config, jobs: seq<Job>, db: map<string, Row>, schedule: seq<nat>, more: seq<nat>, id: string, fits: int -> bool) {
    forall k | 0 <= k < |more| :: !Remarks(jobs, Execute(config, jobs, db, schedule + more[..k]), more[k], id, fits)
  }

  /** The only step of a report that takes a fitting mark away is one that marks anew. */
  lemma UnfitsRemarks(config: Config, jobs: seq<Job>, w: World, t: nat, id: string, fits: int -> bool)
    requires |w.places| == |jobs| && Unfits(config, jobs, w, t, id, Carrying(fits))
    ensures Remarks(jobs, w, t, id, fits)
  {
  }

  lemma NoneRemarksNoneUnfits(config: Config, jobs: seq<Job>, db: map<string, Row>, schedule: seq<nat>, more: seq<nat>, id: string, fits: int -> bool)
    requires NoneRemarks(config, jobs, db, schedule, more, id, fits)
    ensures NoneUnfits(config, jobs, db, schedule, more, id, Carrying(fits))
  {
    forall k | 0 <= k < |more|
      ensures !Unfits(config, jobs, Execute(config, jobs, db, schedule + more[..k]), more[k], id, Carrying(fits))
    {
      EditsSurvive(config, jobs, db, schedule + more[..k]);
      var w := Execute(config, jobs, db, schedule + more[..k]);
      if Unfits(config, jobs, w, more[k], id, Carrying(fits)) {
        UnfitsRemarks(config, jobs, w, more[k], id, fits);
      }
    }
  }

  /**
   * Exactly when a fitting mark is safe, for any choice of marks that fit: it
   * survives every continuation that does not itself record a failure with
   * another mark, if and only if no edit of the node is about to save a row it
   * read without a fitting mark.
   */
  lemma MarkIsSafeIff(config: Config, jobs: seq<Job>, db: map<string, Row>, schedule: seq<nat>, id: string, fits: int -> bool)
    requires MarkedAs(Execute(config, jobs, db, schedule), id, fits)
    ensures (forall more :: NoneRemarks(config, jobs, db, schedule, more, id, fits) ==>
               MarkedAs(Execute(config, jobs, db, schedule + more), id, fits)) <==>
            forall t | 0 <= t < |jobs| :: !HoldsStaleRow(jobs, Execute(config, jobs, db, schedule), t, id, fits)
  {
    var w := Execute(config, jobs, db, schedule);
    EditsSurvive(config, jobs, db, schedule);
    assert TupleBlind(Carrying(fits));
    if t :| 0 <= t < |jobs| && HoldsStaleRow(jobs, w, t, id, fits) {
      assert schedule + [t][..0] == schedule;
      assert NoneRemarks(config, jobs, db, schedule, [t], id, fits);
      UnfitRowBreaks(config, jobs, db, schedule, t, id, Carrying(fits));
    } else {
      assert forall t | 0 <= t < |jobs| :: HoldsUnfitRow(jobs, w, t, id, Carrying(fits)) ==> HoldsStaleRow(jobs, w, t, id, fits);
      forall more | NoneRemarks(config, jobs, db, schedule, more, id, fits)
        ensures MarkedAs(Execute(config, jobs, db, schedule + more), id, fits)
      {
        NoneRemarksNoneUnfits(config, jobs, db, schedule, more, id, fits);
        FitSurvives(config, jobs, db, schedule, more, id, Carrying(fits));
      }
    }
  }

  function Only(mark: int): int -> bool {
    m => m == mark
  }

  /** For one mark: it stays as it is unless the node is marked anew or a row without this mark is saved. */
  lemma MarkIsSafeIffNoStaleRow(config: Config, jobs: seq<Job>, db: map<string, Row>, schedule: seq<nat>, id: string, mark: int)
    requires MarkedAs(Execute(config, jobs, db, schedule), id, Only(mark))
    ensures (forall more :: NoneRemarks(config, jobs, db, schedule, more, id, Only(mark)) ==>
               MarkedAs(Execute(config, jobs, db, schedule + more), id, Only(mark))) <==>
            forall t | 0 <= t < |jobs| :: !HoldsStaleRow(jobs, Execute(config, jobs, db, schedule), t, id, Only(mark))
  {
    MarkIsSafeIff(config, jobs, db, schedule, id, Only(mark));
  }

  /** Handler t is an edit of node id about to save a row it read without any mark. */
  ghost predicate HoldsUnmarkedRow(jobs: seq<Job>, w: World, t: nat, id: string) {
    && t < |jobs| == |w.places| && jobs[t].EditJob? && jobs[t].writeOk
    && w.places[t].EditLoaded? && w.places[t].edit.nodeId == id
    && w.places[t].origin.Some? && w.places[t].origin.value.blacklist.None?
  }

  ghost predicate IsMarked(w: World, id: string) {
    id in w.db && w.db[id].blacklist.Some?
  }

  /**
   * A marked node stays marked in every continuation, whatever happens in it,
   * if and only if no edit of it is about to save a row it read unmarked.
   */
  lemma NodeStaysMarkedIff(config: Config, jobs: seq<Job>, db: map<string, Row>, schedule: seq<nat>, id: string)
    requires IsMarked(Execute(config, jobs, db, schedule), id)
    ensures (forall more :: IsMarked(Execute(config, jobs, db, schedule + more), id)) <==>
            forall t | 0 <= t < |jobs| :: !HoldsUnmarkedRow(jobs, Execute(config, jobs, db, schedule), t, id)
  {
    var any: int -> bool := _ => true;
    var w := Execute(config, jobs, db, schedule);
    MarkIsSafeIff(config, jobs, db, schedule, id, any);
    assert forall more: seq<nat> :: IsMarked(Execute(config, jobs, db, schedule + more), id) <==>
                                    MarkedAs(Execute(config, jobs, db, schedule + more), id, any);
    assert forall more: seq<nat> :: NoneRemarks(config, jobs, db, schedule, more, id, any);
    assert forall t: nat :: HoldsUnmarkedRow(jobs, w, t, id) <==> HoldsStaleRow(jobs, w, t, id, any);
  }

  /**
   * A whole run in which the mark is lost. Handler 0 is an edit and
   * handler 1 a report whose SSH connection fails. When the edit has read the
   * row before the report marks it, its save of the stale row removes the mark.
   */
  lemma StaleSaveDropsMark(config: Config, jobs: seq<Job>, db: map<string, Row>, edit: Edit, cached: Option<Report>, now: int,
                            report: Report, clock: Clock)
    requires jobs == [EditJob(true, Some(edit), true, cached, now), ReportJob(report, clock, false)]
    requires edit.nodeId in db && edit.nodeId != "" && db[edit.nodeId].blacklist.None?
    requires report.nodeinfo.Some? && report.nodeinfo.value.nodeId == edit.nodeId
    requires var n := Updated(config, Load(edit.nodeId, db[edit.nodeId]), report, clock.update);
             !TimeFilter(n.row, config.blacklistFor, clock.filter) && !CheckRespondd(n.row.settings, n.respondd)
    ensures var marked := Execute(config, jobs, db, [0] + [1] + [1] + [1] + [1]).db;
            edit.nodeId in marked && marked[edit.nodeId].blacklist == Some(clock.start)
    ensures var saved := Execute(config, jobs, db, [0] + [1] + [1] + [1] + [1] + [0]).db;
            edit.nodeId in saved && saved[edit.nodeId].blacklist == None
  {
    var id := edit.nodeId;
    var n := Updated(config, Load(id, db[id]), report, clock.update);
    OneMoreTurn(config, jobs, db, [], 0);
    assert [] + [0] == [0];
    var w1 := Execute(config, jobs, db, [0]);
    assert w1.places == [EditLoaded(edit, Some(db[id])), Start] && w1.db == db;
    OneMoreTurn(config, jobs, db, [0], 1);
    var w2 := Step(config, jobs, w1, 1);
    assert w2.places == [w1.places[0], Loaded(n)] && w2.db == db;
    OneMoreTurn(config, jobs, db, [0] + [1], 1);
    var w3 := Step(config, jobs, w2, 1);
    assert w3.places == [w1.places[0], Compared(n)] && id in w3.db;
    OneMoreTurn(config, jobs, db, [0] + [1] + [1], 1);
    OneMoreTurn(config, jobs, db, [0] + [1] + [1] + [1], 1);
    OneMoreTurn(config, jobs, db, [0] + [1] + [1] + [1] + [1], 0);
    MarkThenSave(config, jobs, w3, edit, db[id], n);
  }

  lemma MarkThenSave(config: Config, jobs: seq<Job>, w: World, edit: Edit, origin: Row, n: Node)
    requires |jobs| == 2 && jobs[0].EditJob? && jobs[0].writeOk && jobs[1].ReportJob? && !jobs[1].sshOk
    requires w.places == [EditLoaded(edit, Some(origin)), Compared(n)]
    requires edit.nodeId == n.nodeId && n.nodeId in w.db && origin.blacklist.None?
    requires !TimeFilter(n.row, config.blacklistFor, jobs[1].clock.filter) && !CheckRespondd(n.row.settings, n.respondd)
    ensures var marked := Step(config, jobs, Step(config, jobs, w, 1), 1);
            && n.nodeId in marked.db && marked.db[n.nodeId].blacklist == Some(jobs[1].clock.start)
            && var saved := Step(config, jobs, marked, 0);
            n.nodeId in saved.db && saved.db[n.nodeId].blacklist == None
  {
    var w1 := Step(config, jobs, w, 1);
    assert w1.places == [w.places[0], Refused(n)];
    var w2 := Step(config, jobs, w1, 1);
    assert w2.places[0] == w.places[0];
  }
}
