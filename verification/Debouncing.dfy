/** The debouncer (webroot/js/lib.js): rapid calls are coalesced into one trailing execution per timeout. */
module Debouncing {
  import opened Common

  /** A run of a target function; targets are told apart by number. */
  datatype Execution = Execution(target: nat, start: int, finish: int)

  /** A pending timer closes over the function whose run started it. */
  datatype Timer = Timer(due: int, target: nat)

  datatype State = State(timeoutMsec: nat, timer: Option<Timer>, numCallsSkipped: nat, executions: seq<Execution>)

  function Run(s: State, target: nat, start: int, finish: int): State {
    if s.timer.None? then
      s.(executions := s.executions + [Execution(target, start, finish)],
         timer := Some(Timer(finish + s.timeoutMsec, target)))
    else s.(numCallsSkipped := s.numCallsSkipped + 1)
  }

  /** The timer callback. */
  function Fire(s: State, start: int, finish: int): State
    requires s.timer.Some?
  {
    var s1 := s.(timer := None);
    if s.numCallsSkipped > 0 then Run(s1.(numCallsSkipped := 0), s.timer.value.target, start, finish) else s1
  }

  class Debouncer {
    const timeoutMsec: nat
    var timer: Option<Timer>
    var numCallsSkipped: nat
    ghost var executions: seq<Execution>

    ghost function View(): State
      reads this
    {
      State(timeoutMsec, timer, numCallsSkipped, executions)
    }

    constructor (timeoutMsec: nat)
      ensures View() == State(timeoutMsec, None, 0, [])
    {
      this.timeoutMsec := timeoutMsec;
      timer, numCallsSkipped, executions := None, 0, [];
    }

    method Call(target: nat, start: int, finish: int)
      modifies this
      ensures View() == Run(old(View()), target, start, finish)
    {
      if timer.None? {
        executions := executions + [Execution(target, start, finish)];
        timer := Some(Timer(finish + timeoutMsec, target));
      } else {
        numCallsSkipped := numCallsSkipped + 1;
      }
    }

    method OnTimer(start: int, finish: int)
      requires timer.Some?
      modifies this
      ensures View() == Fire(old(View()), start, finish)
    {
      var target := timer.value.target;
      timer := None;
      if numCallsSkipped > 0 {
        numCallsSkipped := 0;
        Call(target, start, finish);
      }
    }
  }

  // ----- schedules

  /** A call, or the timer firing; `start` and `finish` are the times a run then takes, should there be one. */
  datatype Event =
    | Calls(target: nat, start: int, finish: int)
    | Fires(start: int, finish: int)

  /** Time does not go back, and a timer does not fire early. */
  ghost predicate Possible(s: State, now: int, e: Event) {
    && now <= e.start <= e.finish
    && (e.Fires? ==> s.timer.Some? && s.timer.value.due <= e.start)
  }

  function Next(s: State, e: Event): State
    requires e.Fires? ==> s.timer.Some?
  {
    match e
    case Calls(target, start, finish) => Run(s, target, start, finish)
    case Fires(start, finish) => Fire(s, start, finish)
  }

  /** One possible history of a debouncer from its making at time `now`, and the states it goes through. */
  ghost predicate History(timeoutMsec: nat, now: int, events: seq<Event>, states: seq<State>) {
    && |states| == |events| + 1
    && states[0] == State(timeoutMsec, None, 0, [])
    && forall k | 0 <= k < |events| :: Happens(now, events, states, k)
  }

  /** Event k is possible in its state and leads to the next one. */
  ghost predicate Happens(now: int, events: seq<Event>, states: seq<State>, k: nat) {
    && k < |events| && |states| == |events| + 1
    && Possible(states[k], if k == 0 then now else events[k - 1].finish, events[k])
    && states[k + 1] == Next(states[k], events[k])
  }

  ghost predicate Spaced(s: State) {
    forall k | 0 <= k < |s.executions| - 1 ::
      s.executions[k].start + s.timeoutMsec <= s.executions[k].finish + s.timeoutMsec <= s.executions[k + 1].start
  }

  /** A pending timer belongs to the latest run; with no timer pending nothing waits, and the latest timeout is over. */
  ghost predicate Inv(s: State, now: int) {
    && Spaced(s)
    && (forall e | e in s.executions :: e.start <= e.finish <= now)
    && match s.timer
       case Some(Timer(due, target)) =>
         && s.executions != []
         && var last := s.executions[|s.executions| - 1];
         due == last.finish + s.timeoutMsec && target == last.target
       case None =>
         && s.numCallsSkipped == 0
         && (s.executions != [] ==> s.executions[|s.executions| - 1].finish + s.timeoutMsec <= now)
  }

  function CountCalls(events: seq<Event>): nat {
    if events == [] then 0
    else CountCalls(events[..|events| - 1]) + if events[|events| - 1].Calls? then 1 else 0
  }

  /** Runs started by a timer that found skipped calls, and how many calls these runs stood for. */
  function Trailing(states: seq<State>, events: seq<Event>): (nat, nat)
    requires |states| == |events| + 1
  {
    if events == [] then (0, 0)
    else
      var n := |events| - 1;
      var (runs, served) := Trailing(states[..n + 1], events[..n]);
      if events[n].Fires? && states[n].numCallsSkipped > 0 then (runs + 1, served + states[n].numCallsSkipped) else (runs, served)
  }

  /**
   * For every history: runs are at least a timeout apart, the skipped counter
   * is zero whenever no timer is pending, and every call was run at once, was
   * served by a trailing run, or is waiting for the pending timer.
   */
  lemma {:induction false} TraceLaw(timeoutMsec: nat, now: int, events: seq<Event>, states: seq<State>)
    requires History(timeoutMsec, now, events, states)
    ensures var s := states[|events|];
            var (runs, served) := Trailing(states, events);
            && Inv(s, if events == [] then now else events[|events| - 1].finish)
            && s.timeoutMsec == timeoutMsec
            && runs <= |s.executions|
            && CountCalls(events) == (|s.executions| - runs) + served + s.numCallsSkipped
    decreases |events|
  {
    if events == [] {
    } else {
      var n := |events| - 1;
      HistoryPrefix(timeoutMsec, now, events, states, n);
      TraceLaw(timeoutMsec, now, events[..n], states[..n + 1]);
      assert Happens(now, events, states, n);
      NextKeeps(states[n], if n == 0 then now else events[n - 1].finish, events[n]);
    }
  }

  /**
   * The same of single fields: a pending timer is due exactly one timeout after
   * the end of the last run, without one nothing is counted as skipped, and each
   * run starts no sooner than one timeout after the end of the one before.
   */
  lemma TimerLaw(timeoutMsec: nat, now: int, events: seq<Event>, states: seq<State>)
    requires History(timeoutMsec, now, events, states)
    ensures var s := states[|events|];
            && (s.timer.Some? ==> s.executions != [] && s.timer.value.due == s.executions[|s.executions| - 1].finish + timeoutMsec)
            && (s.timer.None? ==> s.numCallsSkipped == 0)
            && (forall k | 0 <= k < |s.executions| - 1 :: s.executions[k].finish + timeoutMsec <= s.executions[k + 1].start)
  {
    TraceLaw(timeoutMsec, now, events, states);
  }

  lemma NextKeeps(s: State, now: int, e: Event)
    requires Inv(s, now) && Possible(s, now, e)
    ensures Inv(Next(s, e), e.finish) && Next(s, e).timeoutMsec == s.timeoutMsec
    ensures var s1 := Next(s, e);
            var runsNow := if s.timer.None? || (e.Fires? && s.numCallsSkipped > 0) then 1 else 0;
            && |s1.executions| == |s.executions| + runsNow
            && s1.numCallsSkipped == if e.Fires? then 0 else s.numCallsSkipped + 1 - runsNow
  {
    if s.executions != [] {
      assert s.executions[|s.executions| - 1] in s.executions;
    }
    if e.Fires? {
      if s.numCallsSkipped > 0 {
        RunKeeps(s.(timer := None, numCallsSkipped := 0), e.start, s.timer.value.target, e.start, e.finish);
      }
    } else if s.timer.None? {
      RunKeeps(s, now, e.target, e.start, e.finish);
    }
  }

  /** Starting a run with no timer pending. */
  lemma RunKeeps(s: State, now: int, target: nat, start: int, finish: int)
    requires Inv(s, now) && s.timer.None? && now <= start <= finish
    ensures Inv(Run(s, target, start, finish), finish)
  {
    var s1 := Run(s, target, start, finish);
    assert forall k | 0 <= k < |s.executions| :: s1.executions[k] == s.executions[k] && s.executions[k] in s.executions;
  }

  /** In state s a call is waiting for the timer that was pending in state s0, and nothing ran in between. */
  ghost predicate Waiting(s0: State, s: State) {
    s0.timer.Some? && s.timer == s0.timer && s.executions == s0.executions && s.numCallsSkipped > 0
  }

  /**
   * What becomes of each call of a history. With no timer pending it is run at
   * once. Otherwise it waits through all further calls, however many, and the
   * next firing runs the function that started the timer; so the call gets its
   * own function run exactly if that is the same one.
   */
  lemma {:induction false} EachCallIsServed(timeoutMsec: nat, now: int, events: seq<Event>, states: seq<State>, k: nat, j: nat)
    requires History(timeoutMsec, now, events, states)
    requires k < j <= |events| && events[k].Calls?
    requires forall i | k < i < j :: events[i].Calls?
    ensures states[k].timer.None? ==>
              states[k + 1].executions == states[k].executions + [Execution(events[k].target, events[k].start, events[k].finish)]
    ensures states[k].timer.Some? ==> Waiting(states[k], states[j])
    ensures states[k].timer.Some? && j < |events| && events[j].Fires? ==>
              && states[k].timer.value.due <= events[j].start
              && states[j + 1].executions ==
                 states[k].executions + [Execution(states[k].timer.value.target, events[j].start, events[j].finish)]
    decreases j
  {
    assert Happens(now, events, states, k);
    if j == k + 1 {
    } else {
      EachCallIsServed(timeoutMsec, now, events, states, k, j - 1);
      assert Happens(now, events, states, j - 1);
    }
    if j < |events| {
      assert Happens(now, events, states, j);
    }
  }

  /**
   * A firing with no call since the timer was started runs nothing and leaves
   * no timer; so the next call runs at once.
   */
  lemma {:induction false} IdleFiring(timeoutMsec: nat, now: int, events: seq<Event>, states: seq<State>, k: nat)
    requires History(timeoutMsec, now, events, states)
    requires k + 1 < |events| && states[k + 1].timer.Some? && events[k + 1].Fires?
    requires states[k].timer.None? || events[k].Fires?
    ensures states[k + 2].timer.None? && states[k + 2].executions == states[k + 1].executions
    ensures k + 2 < |events| && events[k + 2].Calls? ==>
              states[k + 3].executions ==
              states[k + 2].executions + [Execution(events[k + 2].target, events[k + 2].start, events[k + 2].finish)]
  {
    HistoryPrefix(timeoutMsec, now, events, states, k);
    TraceLaw(timeoutMsec, now, events[..k], states[..k + 1]);
    assert Happens(now, events, states, k) && Happens(now, events, states, k + 1);
    if k + 2 < |events| {
      assert Happens(now, events, states, k + 2);
    }
  }

  lemma HistoryPrefix(timeoutMsec: nat, now: int, events: seq<Event>, states: seq<State>, n: nat)
    requires History(timeoutMsec, now, events, states) && n <= |events|
    ensures History(timeoutMsec, now, events[..n], states[..n + 1])
  {
    var before, through := events[..n], states[..n + 1];
    forall k | 0 <= k < n
      ensures Happens(now, before, through, k)
    {
      assert Happens(now, events, states, k);
    }
  }

  function RunAll(s: State, calls: seq<Event>): State
    requires forall e | e in calls :: e.Calls?
    requires s.timer.Some?
    ensures RunAll(s, calls).timer.Some?
  {
    if calls == [] then s else Next(RunAll(s, calls[..|calls| - 1]), calls[|calls| - 1])
  }

  /**
   * Calls made while a timer is pending run nothing themselves; when the timer
   * fires, one run follows at that very moment for all of them. It is a run of
   * the function that started the timer, so a coalesced call gets its own
   * function run exactly if that is the same one.
   */
  lemma {:induction false} CoalescedCallsAreServed(s: State, calls: seq<Event>, start: int, finish: int)
    requires s.timer.Some? && calls != []
    requires forall e | e in calls :: e.Calls?
    ensures RunAll(s, calls).executions == s.executions && RunAll(s, calls).timer == s.timer
    ensures var s1 := Fire(RunAll(s, calls), start, finish);
            && s1.executions == s.executions + [Execution(s.timer.value.target, start, finish)]
            && s1.numCallsSkipped == 0 && s1.timer == Some(Timer(finish + s.timeoutMsec, s.timer.value.target))
  {
    RunAllSkips(s, calls);
  }

  lemma {:induction false} RunAllSkips(s: State, calls: seq<Event>)
    requires s.timer.Some?
    requires forall e | e in calls :: e.Calls?
    ensures RunAll(s, calls) == s.(numCallsSkipped := s.numCallsSkipped + |calls|)
    decreases |calls|
  {
    if calls == [] {
    } else {
      RunAllSkips(s, calls[..|calls| - 1]);
    }
  }

  /** In particular a function first passed while a timer of another one is pending is not run by it. */
  lemma CoalescedTargetIsLost(timeoutMsec: nat, f: nat, g: nat)
    requires f != g
    ensures var s := Run(Run(State(timeoutMsec, None, 0, []), f, 0, 0), g, 0, 0);
            var s1 := Fire(s, timeoutMsec, timeoutMsec);
            s1.executions == [Execution(f, 0, 0), Execution(f, timeoutMsec, timeoutMsec)] && s1.numCallsSkipped == 0
  {
  }
}
