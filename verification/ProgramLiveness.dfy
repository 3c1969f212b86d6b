/** When a `wait` or `kill` returns. The loop is prompt: the clock does not advance while a
    callback is ready, nor past the next deadline. The environment keeps one promise: once the
    escalation has made its last move, the child ends and its pipe closes within one second. */
module ProgramLiveness {
  import opened Options
  import opened ProgramMachine
  import opened ProgramSafety

  /** The time of the escalation's last move, once it has none left but to give up. */
  function LastMove(s: State): Option<int> {
    if s.task.NoTask? || s.task.Done? || s.task.BeforeGiveUp? then Some(s.settled) else None
  }

  predicate PromptTick(s: State, elapsed: nat) {
    && 0 < elapsed
    && !CanTaskRun(s) && !CanCommunicateEnd(s)
    && (s.task.BeforeTerm? || s.task.BeforeKill? ==> s.now + elapsed <= s.task.until)
    && (LastMove(s).Some? ==> s.now + elapsed < LastMove(s).value + SECOND)
  }

  predicate Prompt(s: State, e: Event) {
    Enabled(s, e) && (e.Tick? ==> PromptTick(s, e.elapsed))
  }

  predicate PromptRun(s: State, es: seq<Event>)
    decreases |es|
  {
    es == [] || (s.caller.In? && Prompt(s, es[0]) && PromptRun(Step(s, es[0]), es[1..]))
  }

  lemma {:induction false} PromptRunIsLegal(s: State, es: seq<Event>)
    requires PromptRun(s, es)
    ensures Legal(s, es)
    decreases |es|
  {
    if es == [] {
    } else {
      PromptRunIsLegal(Step(s, es[0]), es[1..]);
    }
  }

  /** No deadline has been missed so far. */
  predicate InTime(s: State) {
    && (s.task.BeforeTerm? || s.task.BeforeKill? ==> s.now <= s.task.until)
    && (s.task.BeforeGiveUp? ==> s.task.until == s.settled + SECOND)
    && (LastMove(s).Some? ==> s.settled <= s.now < s.settled + SECOND)
  }

  /** The last moment at which the suspended call can still be suspended. */
  function Latest(s: State): int {
    match s.task
    case Created(timeout, termTimeout) => s.now + Max0(timeout) + Max0(termTimeout) + SECOND
    case BeforeTerm(until, termTimeout) => until + Max0(termTimeout) + SECOND
    case BeforeKill(until) => until + SECOND
    case _ => s.settled + SECOND
  }

  function Stage(t: Task): nat {
    match t
    case Created(_, _) => 4
    case BeforeTerm(_, _) => 3
    case BeforeKill(_) => 2
    case BeforeGiveUp(_) => 1
    case _ => 0
  }

  /** The variant of a suspended call: time left, escalation stages left, events still to come. */
  function Rank(s: State): int {
    Latest(s) - s.now + Stage(s.task) + (if s.child.Live? then 1 else 0) + (if s.pipe.Open? then 1 else 0)
  }

  /** After a prompt step of a suspended call no deadline is missed and the rank is lower. */
  predicate Progress(s: State, s': State) {
    && s'.task != Done(GaveUp)
    && s'.now <= Latest(s)
    && (s'.caller.In? ==> InTime(s') && Latest(s') <= Latest(s) && 0 <= Rank(s') < Rank(s))
  }

  lemma TaskProgress(s: State, groupExists: bool)
    requires Inv(s) && InTime(s) && s.caller.In? && s.task != Done(GaveUp) && Prompt(s, TaskRuns(groupExists))
    ensures Progress(s, Step(s, TaskRuns(groupExists)))
  {
  }

  lemma EndProgress(s: State)
    requires Inv(s) && InTime(s) && s.caller.In? && s.task != Done(GaveUp) && Prompt(s, CommunicateEnds)
    ensures Progress(s, Step(s, CommunicateEnds))
  {
  }

  lemma TickProgress(s: State, elapsed: nat)
    requires Inv(s) && InTime(s) && s.caller.In? && s.task != Done(GaveUp) && Prompt(s, Tick(elapsed))
    ensures Progress(s, Step(s, Tick(elapsed)))
  {
  }

  lemma OutsideProgress(s: State, e: Event)
    requires Inv(s) && InTime(s) && s.caller.In? && s.task != Done(GaveUp) && Prompt(s, e)
    requires e.ChildExits? || e.PipeCloses?
    ensures Progress(s, Step(s, e))
  {
  }

  lemma PromptStep(s: State, e: Event)
    requires Inv(s) && InTime(s) && s.caller.In? && s.task != Done(GaveUp) && Prompt(s, e)
    ensures Progress(s, Step(s, e))
  {
    match e {
      case TaskRuns(groupExists) => TaskProgress(s, groupExists);
      case CommunicateEnds => EndProgress(s);
      case Tick(elapsed) => TickProgress(s, elapsed);
      case _ => OutsideProgress(s, e);
    }
  }

  /** A run that leaves the call suspended is shorter than the rank, never gives up on the child,
      and stays within the time limit. */
  lemma {:induction false} PromptRunIsBounded(s: State, es: seq<Event>)
    requires Inv(s) && InTime(s) && s.caller.In? && s.task != Done(GaveUp) && PromptRun(s, es)
    ensures Legal(s, es)
    ensures var s' := Exec(s, es);
            && s'.now <= Latest(s)
            && s'.task != Done(GaveUp)
            && (s'.caller.In? ==> |es| <= Rank(s) - Rank(s') && 0 <= Rank(s') && InTime(s'))
            && (!s'.caller.In? ==> |es| <= Rank(s) + 1)
    decreases |es|
  {
    PromptRunIsLegal(s, es);
    if es == [] {
    } else {
      InvStep(s, es[0]);
      PromptStep(s, es[0]);
      var s1 := Step(s, es[0]);
      if s1.caller.In? {
        PromptRunIsBounded(s1, es[1..]);
      } else {
        assert es[1..] == [];
      }
    }
  }

  /** A suspended call is never stuck: the loop or a promise-keeping environment can move. */
  lemma NeverStuck(s: State) returns (e: Event)
    requires s.caller.In? && Inv(s)
    ensures Prompt(s, e) && !e.Tick?
  {
    e := if CanCommunicateEnd(s) then CommunicateEnds
         else if s.child.Live? then ChildExits(0) else PipeCloses(Some(""));
  }

  /** Only a run that cannot be continued promptly counts as finished. */
  ghost predicate Maximal(s: State, es: seq<Event>)
    requires Legal(s, es)
  {
    !exists e :: Exec(s, es).caller.In? && Prompt(Exec(s, es), e)
  }

  /** How long a call may take. */
  function Limit(e: Event): int
    requires IsCall(e)
  {
    match e
    case WaitCall(timeout, termTimeout) => Max0(timeout) + Max0(termTimeout) + SECOND
    case KillCall(term) => Max0(term) + SECOND
    case ExitCall => DEFAULT_TERM_TIMEOUT + SECOND
  }

  lemma CallStartsInTime(s: State, e: Event)
    requires Inv(s) && IsCall(e) && Enabled(s, e)
    ensures Inv(Step(s, e))
    ensures Step(s, e).caller.In? ==>
              && InTime(Step(s, e)) && Step(s, e).task != Done(GaveUp)
              && Step(s, e).now == s.now && Latest(Step(s, e)) <= s.now + Limit(e)
              && Resumed(Step(s, e).caller) == if e.ExitCall? then Left else Idle
    ensures !Step(s, e).caller.In? ==>
              Step(s, e).now == s.now && Step(s, e).caller == if e.ExitCall? then Left else Idle
  {
    InvStep(s, e);
  }

  /** Where a suspended caller continues. */
  function Resumed(c: Caller): Caller {
    if c == In(Leave) || c == In(LeaveDied) then Left else if c.In? then Idle else c
  }

  lemma {:induction false} CallReturns(s: State, es: seq<Event>)
    requires Inv(s) && s.caller.In? && PromptRun(s, es) && Legal(s, es)
    ensures Resumed(Exec(s, es).caller) == Resumed(s.caller)
    ensures Exec(s, es).caller.In? || !Running(Exec(s, es))
    decreases |es|
  {
    if es == [] {
    } else {
      InvStep(s, es[0]);
      var s1 := Step(s, es[0]);
      if s1.caller.In? {
        CallReturns(s1, es[1..]);
      } else {
        assert es[1..] == [];
      }
    }
  }

  /** `wait(timeout, term_timeout)`, `kill(term)` and `__aexit__`: from any reachable state every
      prompt run is finite and ends in a return or raise, with no child running, no later than the
      call's timeouts and one second after it started; "failed to kill" is never raised on the way. */
  lemma EveryCallReturns(start: int, before: seq<Event>, e: Event, es: seq<Event>)
    requires Legal(Start(start), before) && IsCall(e)
    requires Enabled(Exec(Start(start), before), e)
    requires PromptRun(Step(Exec(Start(start), before), e), es)
    ensures var s := Exec(Start(start), before);
            var s1 := Step(s, e);
            && Legal(s1, es)
            && Exec(s1, es).now <= s.now + Limit(e)
            && |es| <= Limit(e) + 7
            && (es != [] ==> Exec(s1, es).task != Done(GaveUp))
            && (Maximal(s1, es) ==>
                  && Exec(s1, es).caller == (if e.ExitCall? then Left else Idle)
                  && !Running(Exec(s1, es)))
  {
    InvExec(Start(start), before);
    var s := Exec(Start(start), before);
    var s1 := Step(s, e);
    CallStartsInTime(s, e);
    PromptRunIsLegal(s1, es);
    InvExec(s1, es);
    if s1.caller.In? {
      PromptRunIsBounded(s1, es);
      CallReturns(s1, es);
      if Exec(s1, es).caller.In? {
        var next := NeverStuck(Exec(s1, es));
      }
    } else {
      assert es == [];
    }
  }

  /** Without the promise `kill` may never return: when the child is seen to be dead before the
      escalation starts, nothing is sent, and if a descendant holds the pipe the call outlasts any
      number of seconds. */
  lemma {:induction false} KillCanWaitForever(seconds: nat) returns (es: seq<Event>)
    ensures |es| == 4 + seconds && Legal(Start(0), es)
    ensures Exec(Start(0), es).caller == In(Kill)
    ensures Exec(Start(0), es).now == seconds * SECOND
    ensures Exec(Start(0), es).task == Done(DeadAtStart)
    ensures Exec(Start(0), es).signals == [] && Exec(Start(0), es).pipe.Open?
  {
    if seconds == 0 {
      es := Extend(Start(0), [], Spawn(true));
      es := Extend(Start(0), es, KillCall(5));
      es := Extend(Start(0), es, ChildExits(0));
      es := Extend(Start(0), es, TaskRuns(true));
    } else {
      es := KillCanWaitForever(seconds - 1);
      es := Extend(Start(0), es, Tick(SECOND));
    }
  }
}
