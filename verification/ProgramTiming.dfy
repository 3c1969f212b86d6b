/** When the signals of a call are sent, in terms of the arguments of the call. */
module ProgramTiming {
  import opened ProgramMachine
  import opened ProgramSafety

  /** How long a call waits before SIGTERM: `kill` and `__aexit__` do not. */
  function UntilTerm(e: Event): int
    requires IsCall(e)
  {
    match e
    case WaitCall(timeout, _) => Max0(timeout)
    case KillCall(_) => 0
    case ExitCall => 0
  }

  /** How long it waits between SIGTERM and SIGKILL: 10 seconds for `__aexit__`. */
  function UntilKill(e: Event): int
    requires IsCall(e)
  {
    match e
    case WaitCall(_, termTimeout) => Max0(termTimeout)
    case KillCall(term) => Max0(term)
    case ExitCall => 10_000_000
  }

  lemma CallArguments(s: State, e: Event)
    requires Inv(s) && IsCall(e) && Enabled(s, e) && s.child.Live?
    ensures var s1 := Step(s, e);
            && s1.signals == [] && s1.now == s.now && s1.task.Created? && !s1.cancelling
            && Max0(s1.task.timeout) == UntilTerm(e) && Max0(s1.task.termTimeout) == UntilKill(e)
  {
  }

  // ---- not too early ----

  predicate NotTooEarly(s: State, start: int, term: int, kill: int) {
    && start <= s.now && !s.task.NoTask?
    && (s.task.Created? ==> Max0(s.task.timeout) == term && Max0(s.task.termTimeout) == kill)
    && (s.task.BeforeTerm? ==> start + term <= s.task.until && Max0(s.task.termTimeout) == kill)
    && (s.task.BeforeKill? ==> |s.signals| == 1 && s.signals[0].at + kill <= s.task.until)
    && (|s.signals| >= 1 ==> start + term <= s.signals[0].at)
    && (|s.signals| == 2 ==> s.signals[0].at + kill <= s.signals[1].at)
    && (s.task.BeforeGiveUp? ==> |s.signals| == 2 && s.signals[1].at + 1_000_000 <= s.task.until)
    && (s.task == Done(GaveUp) ==> |s.signals| == 2 && s.signals[1].at + 1_000_000 <= s.now)
  }

  lemma NotTooEarlyStep(s: State, e: Event, start: int, term: int, kill: int)
    requires Inv(s) && Enabled(s, e) && NotTooEarly(s, start, term, kill) && 0 <= term && 0 <= kill
    ensures NotTooEarly(Step(s, e), start, term, kill)
  {
  }

  lemma {:induction false} NotTooEarlyExec(s: State, es: seq<Event>, start: int, term: int, kill: int)
    requires Inv(s) && Legal(s, es) && NotTooEarly(s, start, term, kill) && 0 <= term && 0 <= kill
    ensures NotTooEarly(Exec(s, es), start, term, kill) && Inv(Exec(s, es))
    decreases |es|
  {
    if es == [] {
    } else {
      InvStep(s, es[0]);
      NotTooEarlyStep(s, es[0], start, term, kill);
      NotTooEarlyExec(Step(s, es[0]), es[1..], start, term, kill);
    }
  }

  /** Whatever follows a call on a running child, SIGTERM is not sent before the call's timeout, nor
      SIGKILL before its term timeout after that; the escalation gives up no earlier than one second
      after SIGKILL. */
  lemma SignalsKeepTheirTimes(start: int, before: seq<Event>, e: Event, es: seq<Event>)
    requires Legal(Start(start), before) && IsCall(e) && Enabled(Exec(Start(start), before), e)
    requires Exec(Start(start), before).child.Live?
    requires Legal(Step(Exec(Start(start), before), e), es)
    ensures var s := Exec(Start(start), before);
            var signals := Exec(Step(s, e), es).signals;
            && |signals| <= 2
            && (|signals| >= 1 ==> signals[0].signal == SIGTERM && s.now + UntilTerm(e) <= signals[0].at)
            && (|signals| == 2 ==> signals[1].signal == SIGKILL && signals[0].at + UntilKill(e) <= signals[1].at)
            && (Exec(Step(s, e), es).task == Done(GaveUp) ==>
                  |signals| == 2 && signals[1].at + 1_000_000 <= Exec(Step(s, e), es).now)
  {
    InvExec(Start(start), before);
    var s := Exec(Start(start), before);
    InvStep(s, e);
    CallArguments(s, e);
    NotTooEarlyExec(Step(s, e), es, s.now, UntilTerm(e), UntilKill(e));
  }

  // ---- not too late ----

  /** The loop is punctual: the clock waits for the task, and stops at its deadlines. */
  predicate Punctual(s: State, e: Event) {
    && Enabled(s, e)
    && (e.Tick? ==>
          && !CanTaskRun(s)
          && (s.task.BeforeTerm? || s.task.BeforeKill? ==> s.now + e.elapsed <= s.task.until))
  }

  predicate PunctualRun(s: State, es: seq<Event>)
    decreases |es|
  {
    es == [] || (Punctual(s, es[0]) && PunctualRun(Step(s, es[0]), es[1..]))
  }

  predicate Ended(s: State) {
    s.cancelling || s.task.Done?
  }

  /** All times so far are the exact ones, and no signal is overdue unless the escalation has ended. */
  predicate OnTheDot(s: State, start: int, term: int, kill: int) {
    && !s.task.NoTask?
    && (s.task.Created? ==> (s.now == start && Max0(s.task.timeout) == term && Max0(s.task.termTimeout) == kill))
    && (s.task.BeforeTerm? ==>
          s.task.until == start + term && s.now <= s.task.until && Max0(s.task.termTimeout) == kill)
    && (s.task.BeforeKill? ==>
          |s.signals| == 1 && s.task.until == s.signals[0].at + kill && s.now <= s.task.until)
    && (|s.signals| >= 1 ==> s.signals[0].at == start + term)
    && (|s.signals| == 2 ==> s.signals[1].at == start + term + kill)
    && (|s.signals| == 0 && start + term < s.now ==> Ended(s) && s.task != Done(GroupGone) && s.task != Done(GaveUp))
    && (|s.signals| == 1 && start + term + kill < s.now ==> Ended(s) && s.task != Done(DeadAtStart))
  }

  lemma OnTheDotStep(s: State, e: Event, start: int, term: int, kill: int)
    requires Inv(s) && Punctual(s, e) && OnTheDot(s, start, term, kill) && 0 <= term && 0 <= kill
    ensures OnTheDot(Step(s, e), start, term, kill)
  {
  }

  lemma {:induction false} OnTheDotExec(s: State, es: seq<Event>, start: int, term: int, kill: int)
    requires Inv(s) && PunctualRun(s, es) && OnTheDot(s, start, term, kill) && 0 <= term && 0 <= kill
    ensures Legal(s, es) && Inv(Exec(s, es)) && OnTheDot(Exec(s, es), start, term, kill)
    decreases |es|
  {
    if es == [] {
    } else {
      InvStep(s, es[0]);
      OnTheDotStep(s, es[0], start, term, kill);
      OnTheDotExec(Step(s, es[0]), es[1..], start, term, kill);
    }
  }

  /** In every punctual run after a call on a running child, SIGTERM is sent exactly at the call's
      timeout and SIGKILL exactly at its term timeout after that. Past these times the signal has been
      sent, unless the escalation ended before: it found the child dead at its start or, for SIGKILL,
      the process group gone, or `communicate()` completed. */
  lemma SignalsAreOnTime(start: int, before: seq<Event>, e: Event, es: seq<Event>)
    requires Legal(Start(start), before) && IsCall(e) && Enabled(Exec(Start(start), before), e)
    requires Exec(Start(start), before).child.Live?
    requires PunctualRun(Step(Exec(Start(start), before), e), es)
    ensures var s := Exec(Start(start), before);
            var s1 := Step(s, e);
            && Legal(s1, es)
            && (var end := Exec(s1, es);
                && (|end.signals| >= 1 ==> end.signals[0] == Sent(SIGTERM, s.now + UntilTerm(e)))
                && (|end.signals| == 2 ==> end.signals[1] == Sent(SIGKILL, s.now + UntilTerm(e) + UntilKill(e)))
                && (s.now + UntilTerm(e) < end.now && !end.completed ==>
                      |end.signals| >= 1 || end.task == Done(DeadAtStart))
                && (s.now + UntilTerm(e) + UntilKill(e) < end.now && !end.completed ==>
                      |end.signals| == 2 || end.task == Done(DeadAtStart) || end.task == Done(GroupGone)))
  {
    InvExec(Start(start), before);
    var s := Exec(Start(start), before);
    InvStep(s, e);
    CallArguments(s, e);
    OnTheDotExec(Step(s, e), es, s.now, UntilTerm(e), UntilKill(e));
  }
}
