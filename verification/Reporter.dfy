/** The agent-state reporter (runner/agent.go): what it sends, how often, and what it owes. Time is a
    number; a timer may run arbitrarily late. The empty state is "". */
module Reporter {
  import opened Wrappers

  type AgentState = string

  /** One report: when, and which entry of the state history it is. */
  datatype Sent = Sent(state: AgentState, time: int, at: nat)

  /** The reporter's fields, and beside them what happened: every state the agent has been in, every
      report, and how many of them preceded `close`. */
  datatype Machine = Machine(interval: int, current: AgentState, sent: AgentState, lastSent: Option<int>, due: Option<int>,
                             closing: bool, clock: int, history: seq<AgentState>, sends: seq<Sent>, early: nat, stopped: bool)

  function Initial(interval: int): Machine {
    Machine(if interval <= 0 then 2_000_000_000 else interval, "", "", None, None, false, 0, [], [], 0, false)
  }

  /** `now` is the reading the code compares with, `later` the one it stores or arms the timer at. */
  datatype Event =
    | Apply(next: AgentState, now: int, later: int)
    | Fire(now: int)       // the pending timer runs its flush
    | Stop(now: int)       // the first half of close
    | Flush(now: int)      // its second half, or a timer that had already fired when it was stopped

  function Send(m: Machine, time: int): Machine {
    var sends := m.sends + [Sent(m.current, time, if m.history == [] then 0 else |m.history| - 1)];
    m.(sent := m.current, lastSent := Some(time), clock := time, sends := sends,
       early := if m.stopped then m.early else |sends|)
  }

  function Applied(m: Machine, next: AgentState, now: int, later: int): Machine {
    var m := m.(current := next, history := m.history + [next], clock := later);
    if m.current == m.sent || m.current == "" then m
    else if m.lastSent.None? || m.interval - (now - m.lastSent.value) <= 0 then Send(m, later)
    else if m.due.None? then m.(due := Some(later + (m.interval - (now - m.lastSent.value))))
    else m
  }

  function Flushed(m: Machine, now: int): Machine {
    var m := m.(due := None, closing := false, clock := now);
    if m.current != m.sent && m.current != "" then Send(m, now) else m
  }

  /** When an event can happen: time goes on, and only a pending, due timer fires. */
  predicate Enabled(m: Machine, e: Event) {
    match e
    case Apply(_, now, later) => m.clock <= now <= later
    case Fire(now) => m.clock <= now && m.due.Some? && m.due.value <= now
    case Stop(now) => m.clock <= now
    case Flush(now) => m.clock <= now && m.stopped
  }

  function Next(m: Machine, e: Event): Machine {
    match e
    case Apply(next, now, later) => Applied(m, next, now, later)
    case Fire(now) => Flushed(m, now)
    case Stop(now) => m.(due := None, closing := true, clock := now, stopped := true)
    case Flush(now) => Flushed(m, now)
  }

  /** The machine after a sequence of events, when each was enabled in its turn. */
  ghost predicate Runs(m: Machine, events: seq<Event>, m': Machine)
    decreases |events|
  {
    if events == [] then m' == m
    else Enabled(m, events[0]) && Runs(Next(m, events[0]), events[1..], m')
  }

  // The class

  class StateReporter {
    const interval: int
    const next: (string, AgentState) -> AgentState
    var current: AgentState
    var sent: AgentState
    var lastSent: Option<int>
    var pending: Option<int>
    ghost var closing: bool
    ghost var clock: int
    ghost var history: seq<AgentState>
    ghost var sends: seq<Sent>
    ghost var early: nat
    ghost var stopped: bool

    ghost function State(): Machine
      reads this
    {
      Machine(interval, current, sent, lastSent, pending, closing, clock, history, sends, early, stopped)
    }

    constructor (interval: int, next: (string, AgentState) -> AgentState)
      ensures State() == Initial(interval) && this.next == next
    {
      this.interval := if interval <= 0 then 2_000_000_000 else interval;
      this.next := next;
      current, sent, lastSent, pending := "", "", None, None;
      closing, clock, history, sends, early, stopped := false, 0, [], [], 0, false;
    }

    method SendLocked(time: int)
      modifies this
      ensures State() == Send(old(State()), time)
    {
      sent, lastSent := current, Some(time);
      sends := sends + [Sent(current, time, if history == [] then 0 else |history| - 1)];
      clock := time;
      if !stopped { early := |sends|; }
    }

    method Apply(event: string, now: int, later: int)
      modifies this
      ensures State() == Next(old(State()), Event.Apply(next(event, old(current)), now, later))
    {
      current := next(event, current);
      history, clock := history + [current], later;
      if current == sent || current == "" { return; }
      if lastSent.None? {
        SendLocked(later);
        return;
      }
      var wait := interval - (now - lastSent.value);
      if wait <= 0 {
        SendLocked(later);
      } else if pending.None? {
        pending := Some(later + wait);
      }
    }

    method Flush(now: int)
      modifies this
      ensures State() == Flushed(old(State()), now)
    {
      pending := None;
      closing, clock := false, now;
      if current != sent && current != "" { SendLocked(now); }
    }

    /** Both halves, when nothing comes between them. */
    method Close(now: int)
      modifies this
      ensures State() == Next(Next(old(State()), Event.Stop(now)), Event.Flush(now))
    {
      if pending.Some? { pending := None; }
      closing, clock, stopped := true, now, true;
      Flush(now);
    }
  }

  // What every run keeps

  ghost predicate Faithful(m: Machine) {
    && m.interval > 0
    && m.current == (if m.history == [] then "" else m.history[|m.history| - 1])
    && (m.lastSent.None? <==> m.sends == []) && (m.sends == [] ==> m.sent == "")
    && (m.sends != [] ==> m.lastSent == Some(Last(m).time) && m.sent == Last(m).state && Last(m).time <= m.clock)
    && (forall i :: 0 <= i < |m.sends| ==> IsReport(m, m.sends[i]))
    && (forall i :: 0 < i < |m.sends| ==> Follows(m.sends[i - 1], m.sends[i]))
    && m.early <= |m.sends| && (!m.stopped ==> m.early == |m.sends| && !m.closing)
  }

  function Last(m: Machine): Sent
    requires m.sends != []
  {
    m.sends[|m.sends| - 1]
  }

  /** A report is an entry of the history, and not the empty state. */
  ghost predicate IsReport(m: Machine, s: Sent) {
    s.at < |m.history| && m.history[s.at] == s.state && s.state != ""
  }

  /** The next report is of a later entry, of another state, and no earlier. */
  ghost predicate Follows(a: Sent, b: Sent) {
    a.at < b.at && a.state != b.state && a.time <= b.time
  }

  /** A change that has not been reported is held by a timer, or by a close in progress. */
  ghost predicate Owed(m: Machine) {
    m.current != m.sent && m.current != "" ==> m.due.Some? || m.closing
  }

  ghost predicate TwoApart(m: Machine) {
    forall i :: 0 <= i < m.early - 2 ==> Apart(m.sends, m.interval, i, 2)
  }

  predicate Apart(sends: seq<Sent>, interval: int, i: nat, distance: nat) {
    i + distance < |sends| && sends[i + distance].time - sends[i].time >= interval
  }

  /** Why a late timer cannot break the bound: it was armed after the last report, or the last report
      itself kept the interval. */
  ghost predicate TimerIsSafe(m: Machine) {
    var n := |m.sends|;
    m.due.Some? && !m.stopped ==>
      n > 0 && (m.due.value >= m.sends[n - 1].time + m.interval
                || (n > 1 && m.sends[n - 1].time >= m.sends[n - 2].time + m.interval))
  }

  ghost predicate Inv(m: Machine) {
    Faithful(m) && Owed(m) && TwoApart(m) && TimerIsSafe(m)
  }

  lemma SendKeeps(m: Machine, time: int)
    requires Faithful(m) && m.current != m.sent && m.current != "" && m.clock <= time
    ensures Faithful(Send(m, time))
  {
    var m' := Send(m, time);
    forall i | 0 <= i < |m'.sends| ensures IsReport(m', m'.sends[i]) {
      if i < |m.sends| { assert IsReport(m, m.sends[i]); }
    }
    forall i | 0 < i < |m'.sends| ensures Follows(m'.sends[i - 1], m'.sends[i]) {
      if i < |m.sends| { assert Follows(m.sends[i - 1], m.sends[i]); } else { assert IsReport(m, Last(m)); }
    }
  }

  lemma HistoryKeeps(m: Machine, next: AgentState, later: int)
    requires Faithful(m) && m.clock <= later
    ensures Faithful(m.(current := next, history := m.history + [next], clock := later))
  {
    var m' := m.(current := next, history := m.history + [next], clock := later);
    forall i | 0 <= i < |m'.sends| ensures IsReport(m', m'.sends[i]) { assert IsReport(m, m.sends[i]); }
  }

  /** Only the timer, the clock and the phase change. */
  lemma QuietKeeps(m: Machine, m': Machine)
    requires Faithful(m) && m.clock <= m'.clock && (m.stopped ==> m'.stopped) && (!m'.stopped ==> !m'.closing)
    requires m' == m.(due := m'.due, closing := m'.closing, clock := m'.clock, stopped := m'.stopped)
    ensures Faithful(m')
  {
    forall i | 0 <= i < |m'.sends| ensures IsReport(m', m'.sends[i]) { assert IsReport(m, m.sends[i]); }
  }

  lemma FlushKeepsFaithful(m: Machine, now: int)
    requires Faithful(m) && m.clock <= now
    ensures Faithful(Flushed(m, now))
  {
    var quiet := m.(due := None, closing := false, clock := now);
    QuietKeeps(m, quiet);
    if quiet.current != quiet.sent && quiet.current != "" { SendKeeps(quiet, now); }
  }

  lemma ApplyKeepsFaithful(m: Machine, next: AgentState, now: int, later: int)
    requires Faithful(m) && m.clock <= now <= later
    ensures Faithful(Applied(m, next, now, later))
  {
    HistoryKeeps(m, next, later);
    var a := m.(current := next, history := m.history + [next], clock := later);
    if a.current != a.sent && a.current != "" {
      SendKeeps(a, later);
      if Applied(m, next, now, later) != Send(a, later) { QuietKeeps(a, Applied(m, next, now, later)); }
    }
  }

  lemma StepKeepsFaithful(m: Machine, e: Event)
    requires Faithful(m) && Enabled(m, e)
    ensures Faithful(Next(m, e))
  {
    match e
    case Apply(next, now, later) => ApplyKeepsFaithful(m, next, now, later);
    case Fire(now) => FlushKeepsFaithful(m, now);
    case Stop(now) => QuietKeeps(m, Next(m, e));
    case Flush(now) => FlushKeepsFaithful(m, now);
  }

  /** A report keeps the bound when it comes an interval after the one before the last. */
  lemma SendKeepsTwoApart(m: Machine, time: int)
    requires TwoApart(m) && m.early <= |m.sends|
    requires !m.stopped ==> m.early == |m.sends| && (|m.sends| > 1 ==> time - m.sends[|m.sends| - 2].time >= m.interval)
    ensures TwoApart(Send(m, time))
  {
    var m' := Send(m, time);
    forall i | 0 <= i < m'.early - 2 ensures Apart(m'.sends, m'.interval, i, 2) {
      if i < m.early - 2 { assert Apart(m.sends, m.interval, i, 2); }
    }
  }

  lemma StepKeepsTwoApart(m: Machine, e: Event)
    requires Inv(m) && Enabled(m, e)
    ensures TwoApart(Next(m, e))
  {
    var n := |m.sends|;
    assert n > 1 ==> Follows(m.sends[n - 2], m.sends[n - 1]);
    match e
    case Apply(next, now, later) =>
      var a := m.(current := next, history := m.history + [next], clock := later);
      assert TwoApart(a);
      if Applied(m, next, now, later).sends != a.sends { SendKeepsTwoApart(a, later); }
    case Fire(now) => FlushKeepsTwoApart(m, now);
    case Stop(now) =>
    case Flush(now) => FlushKeepsTwoApart(m, now);
  }

  lemma FlushKeepsTwoApart(m: Machine, now: int)
    requires TwoApart(m) && m.early <= |m.sends|
    requires !m.stopped ==> m.early == |m.sends| && (|m.sends| > 1 ==> now - m.sends[|m.sends| - 2].time >= m.interval)
    ensures TwoApart(Flushed(m, now))
  {
    var quiet := m.(due := None, closing := false, clock := now);
    assert TwoApart(quiet);
    if quiet.current != quiet.sent && quiet.current != "" { SendKeepsTwoApart(quiet, now); }
  }

  lemma StepKeepsTimer(m: Machine, e: Event)
    requires Inv(m) && Enabled(m, e)
    ensures Owed(Next(m, e)) && TimerIsSafe(Next(m, e))
  {}

  lemma StepKeeps(m: Machine, e: Event)
    requires Inv(m) && Enabled(m, e)
    ensures Inv(Next(m, e))
  {
    StepKeepsFaithful(m, e);
    StepKeepsTwoApart(m, e);
    StepKeepsTimer(m, e);
  }

  lemma {:induction false} RunsKeep(m: Machine, events: seq<Event>, m': Machine)
    requires Inv(m) && Runs(m, events, m')
    ensures Inv(m')
    decreases |events|
  {
    if events != [] {
      StepKeeps(m, events[0]);
      RunsKeep(Next(m, events[0]), events[1..], m');
    }
  }

  /** The states the agent has been in: one for each event applied, in order. */
  function States(events: seq<Event>): seq<AgentState> {
    if events == [] then [] else (if events[0].Apply? then [events[0].next] else []) + States(events[1..])
  }

  lemma {:induction false} HistoryIs(m: Machine, events: seq<Event>, m': Machine)
    requires Runs(m, events, m')
    ensures m'.history == m.history + States(events) && m'.interval == m.interval
    ensures m'.stopped <==> m.stopped || exists i :: 0 <= i < |events| && events[i].Stop?
    decreases |events|
  {
    if events != [] {
      HistoryIs(Next(m, events[0]), events[1..], m');
      assert forall i :: 0 < i < |events| ==> events[i] == events[1..][i - 1];
    }
  }

  function LastState(m: Machine): AgentState { if m.sends == [] then "" else Last(m).state }

  /** When a state is reported: at once if it is not empty, is not the one reported last and the interval
      since then is over, or nothing was reported yet; else a timer waits for the interval's end, the one
      that is pending or a new one. */
  lemma ReportedWhen(m: Machine, next: AgentState, now: int, later: int)
    requires Inv(m) && Enabled(m, Apply(next, now, later))
    ensures var m' := Next(m, Apply(next, now, later));
            if next == "" || next == LastState(m) then m'.sends == m.sends && m'.due == m.due
            else if m.sends == [] || now >= Last(m).time + m.interval then
              m'.sends == m.sends + [Sent(next, later, |m.history|)] && m'.due == m.due
            else m'.sends == m.sends && m'.due == if m.due.Some? then m.due else Some(Last(m).time + m.interval + (later - now))
  {}

  /** What a timer does, and the second half of close: it reports the state the agent is in by then, if
      that is not empty and not the one reported last. */
  lemma FlushedWhen(m: Machine, e: Event)
    requires Inv(m) && Enabled(m, e) && (e.Fire? || e.Flush?)
    ensures var m', state := Next(m, e), if m.history == [] then "" else m.history[|m.history| - 1];
            m'.due.None? && m'.history == m.history &&
            m'.sends == m.sends + if state == "" || state == LastState(m) then [] else [Sent(state, e.now, |m.history| - 1)]
  {}

  /** For every run with timers however late: the reports are a subsequence of the state history,
      none empty, no two neighbours equal; before close, any two that are two apart are at least the
      interval apart; and an unreported change is always owed. */
  lemma Reports(interval: int, events: seq<Event>, m: Machine)
    requires Runs(Initial(interval), events, m)
    ensures m.history == States(events) && m.interval == if interval <= 0 then 2_000_000_000 else interval
    ensures forall i :: 0 <= i < |m.sends| ==> IsReport(m, m.sends[i])
    ensures forall i :: 0 < i < |m.sends| ==> Follows(m.sends[i - 1], m.sends[i])
    ensures forall i :: 0 <= i < m.early - 2 ==> Apart(m.sends, m.interval, i, 2)
    ensures (forall i :: 0 <= i < |events| ==> !events[i].Stop?) ==> m.early == |m.sends| && !m.closing
    ensures m.history != [] && m.history[|m.history| - 1] !in ["", LastState(m)] ==> m.due.Some? || m.closing
  {
    AllKept(interval, events, m);
    HistoryIs(Initial(interval), events, m);
    NotStopped(interval, events, m);
  }

  lemma AllKept(interval: int, events: seq<Event>, m: Machine)
    requires Runs(Initial(interval), events, m)
    ensures Inv(m)
  {
    RunsKeep(Initial(interval), events, m);
  }

  lemma NotStopped(interval: int, events: seq<Event>, m: Machine)
    requires Runs(Initial(interval), events, m)
    ensures (forall i :: 0 <= i < |events| ==> !events[i].Stop?) ==> !m.stopped
  {
    HistoryIs(Initial(interval), events, m);
  }

  /** However many events come between its two halves: once close has returned, the last report is the
      current state, and no timer is left to report it again. */
  lemma CloseReportsTheLast(interval: int, events: seq<Event>, m: Machine, now: int)
    requires Runs(Initial(interval), events, m) && m.stopped && m.clock <= now
    ensures var closed := Next(m, Flush(now));
            closed.current == m.current && closed.due.None? && !closed.closing &&
            (m.current != "" ==> closed.sends != [] && Last(closed).state == m.current)
  {
    RunsKeep(Initial(interval), events, m);
    StepKeeps(m, Flush(now));
  }

  /** And after that, with no further state, nothing is reported any more. */
  lemma {:induction false} QuietAfterClose(m: Machine, events: seq<Event>, m': Machine)
    requires Inv(m) && m.stopped && m.due.None? && (m.current != "" ==> m.sent == m.current)
    requires Runs(m, events, m') && forall i :: 0 <= i < |events| ==> !events[i].Apply?
    ensures m'.sends == m.sends && m'.current == m.current
    decreases |events|
  {
    if events != [] {
      StepKeeps(m, events[0]);
      QuietAfterClose(Next(m, events[0]), events[1..], m');
    }
  }

  // At most one report per interval: when

  /** Every due timer runs before any later event, and is armed at the reading it was computed from. */
  predicate Prompt(m: Machine, e: Event) {
    e.Apply? ==> e.later == e.now && (m.due.Some? ==> e.now < m.due.value)
  }

  ghost predicate RunsPromptly(m: Machine, events: seq<Event>, m': Machine)
    decreases |events|
  {
    if events == [] then m' == m
    else Enabled(m, events[0]) && Prompt(m, events[0]) && RunsPromptly(Next(m, events[0]), events[1..], m')
  }

  ghost predicate Spaced(m: Machine) {
    forall i :: 0 <= i < m.early - 1 ==> Apart(m.sends, m.interval, i, 1)
  }

  ghost predicate TimerIsExact(m: Machine) {
    m.due.Some? && !m.stopped ==> m.lastSent.Some? && m.due.value == m.lastSent.value + m.interval
  }

  lemma PromptStepKeeps(m: Machine, e: Event)
    requires Inv(m) && Spaced(m) && TimerIsExact(m) && Enabled(m, e) && Prompt(m, e)
    ensures Spaced(Next(m, e)) && TimerIsExact(Next(m, e))
  {
    var m' := Next(m, e);
    forall i | 0 <= i < m'.early - 1 ensures Apart(m'.sends, m'.interval, i, 1) {
      if i < m.early - 1 { assert Apart(m.sends, m.interval, i, 1); }
    }
  }

  lemma {:induction false} PromptRunsKeep(m: Machine, events: seq<Event>, m': Machine)
    requires Inv(m) && Spaced(m) && TimerIsExact(m) && RunsPromptly(m, events, m')
    ensures Spaced(m')
    decreases |events|
  {
    if events != [] {
      StepKeeps(m, events[0]);
      PromptStepKeeps(m, events[0]);
      PromptRunsKeep(Next(m, events[0]), events[1..], m');
    }
  }

  /** For every run with prompt timers, before close: at most one report per interval. */
  lemma PromptTimersSpaceReports(interval: int, events: seq<Event>, m: Machine)
    requires RunsPromptly(Initial(interval), events, m)
    ensures forall i :: 0 <= i < m.early - 1 ==> Apart(m.sends, m.interval, i, 1)
  {
    PromptRunsKeep(Initial(interval), events, m);
  }

  /** A timer armed before the last report is pending, the interval after that report is not over, and
      there is a change to report. */
  ghost predicate Stale(m: Machine) {
    && m.due.Some? && m.lastSent.Some? && m.due.value < m.lastSent.value + m.interval && m.clock < m.lastSent.value + m.interval
    && m.current != m.sent && m.current != ""
  }

  /** Where the documented bound fails, before close: some event can report within the interval after the
      last report exactly when a timer armed before that report is still pending with a change, and the
      interval is not over; and then that event is the timer. */
  lemma TooSoonExactly(m: Machine)
    requires Inv(m) && !m.stopped && m.sends != []
    ensures (exists e :: Enabled(m, e) && TooSoon(m, e)) <==> Stale(m)
    ensures forall e :: Enabled(m, e) && TooSoon(m, e) ==> e.Fire?
  {
    if Stale(m) {
      var e := Fire(if m.due.value < m.clock then m.clock else m.due.value);
      assert Enabled(m, e) && TooSoon(m, e);
    }
    forall e | Enabled(m, e) && TooSoon(m, e) ensures e.Fire? && Stale(m) { SoonIsStale(m, e); }
  }

  /** Another report, less than the interval after the last. */
  ghost predicate TooSoon(m: Machine, e: Event)
    requires m.sends != []
  {
    |Next(m, e).sends| > |m.sends| && Last(Next(m, e)).time - Last(m).time < m.interval
  }

  lemma SoonIsStale(m: Machine, e: Event)
    requires Inv(m) && !m.stopped && m.sends != [] && Enabled(m, e) && TooSoon(m, e)
    ensures e.Fire? && Stale(m)
  {}

  /** It does fail: a state held at 5 is overtaken by a report at 30, and its late timer reports again
      at 31. */
  lemma TwoReportsInOneInterval() returns (events: seq<Event>, m: Machine)
    ensures Runs(Initial(20), events, m) && !m.stopped
    ensures |m.sends| == 3 && m.sends[2].time - m.sends[1].time == 1 < m.interval
  {
    var a, b, c, d, e := Apply("working", 0, 0), Apply("idle", 5, 5), Apply("asked", 30, 30), Apply("idle", 30, 30), Fire(31);
    events := [a, b, c, d, e];
    var m0 := Initial(20);
    var m1 := Next(m0, a);
    var m2 := Next(m1, b);
    var m3 := Next(m2, c);
    var m4 := Next(m3, d);
    m := Next(m4, e);
    assert events[1..] == [b, c, d, e] && events[1..][1..] == [c, d, e] && events[1..][1..][1..] == [d, e];
    assert Runs(m4, [e], m) by { assert Runs(m, [], m) && [e][1..] == []; }
    assert Runs(m3, [d, e], m) by { assert [d, e][1..] == [e]; }
    assert Runs(m2, [c, d, e], m) by { assert [c, d, e][1..] == [d, e]; }
    assert Runs(m1, [b, c, d, e], m) by { assert [b, c, d, e][1..] == [c, d, e]; }
  }
}
