/** What holds in every interleaving of a `Program`: one escalation at most, its signals and their
    times, silence after `communicate()`, the verdict of `wait`, and no child left behind. */
module ProgramSafety {
  import opened ProgramMachine

  function Kinds(sent: seq<Sent>): seq<Signal> {
    seq(|sent|, i requires 0 <= i < |sent| => sent[i].signal)
  }

  /** How many signals a task suspended at this point has sent. */
  predicate SentBy(t: Task, sent: nat) {
    match t
    case BeforeKill(_) => sent == 1
    case BeforeGiveUp(_) => sent == 2
    case Done(DeadAtStart) => sent == 0
    case Done(Cancelled) => sent <= 2
    case Done(GroupGone) => sent == 1 || sent == 2
    case Done(GaveUp) => sent == 2
    case _ => sent == 0
  }

  /** The deadlines of the suspended task, and the signals sent, respect what `wait` was given. */
  predicate OnTime(s: State, ask: Ask) {
    && ask.at <= s.now
    && (s.task.Created? ==> s.task == Created(ask.timeout, ask.termTimeout))
    && (s.task.BeforeTerm? ==> ask.at + ask.timeout <= s.task.until && s.task.termTimeout == ask.termTimeout)
    && (|s.signals| >= 1 ==>
          && s.signals[0].signal == SIGTERM
          && ask.at + ask.timeout <= s.signals[0].at <= s.now
          && (s.task.BeforeKill? ==> s.signals[0].at + ask.termTimeout <= s.task.until))
    && (|s.signals| >= 2 ==>
          && s.signals[1].signal == SIGKILL
          && s.signals[0].at + ask.termTimeout <= s.signals[1].at <= s.now)
  }

  predicate EscalationInv(s: State) {
    && s.tasksCreated == (if s.task.NoTask? then 0 else 1)
    && (s.asked.Some? <==> !s.task.NoTask?)
    && SentBy(s.task, |s.signals|)
    && (s.asked.Some? ==> OnTime(s, s.asked.value))
    && (s.sigkillSent <==> |s.signals| == 2)
  }

  predicate CallInv(s: State) {
    && (s.caller.Outside? ==> s.child.Absent? && s.ending.NoEnding?)
    && (s.caller.In? <==> s.ending.Suspended?)
    && (s.caller == In(LeaveDied) ==> s.task.NoTask? && !s.child.Live?)
    && (s.ending.NoEnding? || s.ending.Spent? || s.caller.Left? ==> !s.child.Live?)
    && (s.child.Absent? ==> s.ending.NoEnding?)
    && (s.ending.Fresh? ==> s.task.NoTask? && s.caller.Idle?)
    && (s.caller.In? && s.child.Live? ==> !s.task.NoTask?)
    && (s.caller.Outside? || s.child.Absent? ==> s.task.NoTask?)
  }

  predicate CompletionInv(s: State) {
    && (s.completed ==>
          (Pending(s.task) ==> s.cancelling) && s.child.Exited? && (s.ending.NoEnding? || s.ending.Spent?))
    && (s.cancelling || s.task == Done(Cancelled) ==> s.completed)
    && (s.task == Done(DeadAtStart) ==> !s.child.Live?)
    && (s.ending.Spent? ==> s.completed)
    && (s.child.Exited? && s.ending.NoEnding? ==> s.completed)
  }

  predicate Inv(s: State) {
    EscalationInv(s) && CallInv(s) && CompletionInv(s)
  }

  lemma SendKeepsInv(s: State, termTimeout: int, groupExists: bool)
    requires Inv(s) && !s.cancelling && (s.task.Created? || s.task.BeforeTerm?)
    requires s.asked.value.at + s.asked.value.timeout <= s.now && termTimeout == s.asked.value.termTimeout
    ensures Inv(SendTerm(s, termTimeout, groupExists))
  {
  }

  lemma SendKillKeepsInv(s: State, groupExists: bool)
    requires Inv(s) && !s.cancelling && s.task.BeforeKill? && s.task.until <= s.now
    ensures Inv(SendKill(s, groupExists))
  {
  }

  lemma TaskKeepsInv(s: State, groupExists: bool)
    requires Inv(s) && Enabled(s, TaskRuns(groupExists))
    ensures Inv(Step(s, TaskRuns(groupExists)))
  {
    if !s.cancelling && (s.task.BeforeTerm? || (s.task.Created? && s.child.Live? && s.task.timeout == 0)) {
      SendKeepsInv(s, s.task.termTimeout, groupExists);
    } else if !s.cancelling && s.task.BeforeKill? {
      SendKillKeepsInv(s, groupExists);
    }
  }

  lemma WaitKeepsInv(s: State, call: Call, timeout: int, termTimeout: int)
    requires Inv(s) && s.caller.Idle? && (call.LeaveDied? ==> !s.child.Live?) && (call.Leave? ==> s.child.Live?)
    ensures Inv(BeginWait(s, call, timeout, termTimeout))
  {
  }

  lemma CallKeepsInv(s: State, e: Event)
    requires Inv(s) && Enabled(s, e) && IsCall(e)
    ensures Inv(Step(s, e))
  {
    match e {
      case WaitCall(timeout, termTimeout) => WaitKeepsInv(s, Wait, timeout, termTimeout);
      case KillCall(term) => WaitKeepsInv(s, Kill, 0, term);
      case ExitCall => ExitKeepsInv(s);
    }
  }

  lemma ExitKeepsInv(s: State)
    requires Inv(s) && s.caller.Idle?
    ensures Inv(BeginExit(s))
  {
    if s.child.Live? {
      WaitKeepsInv(s, Leave, 0, DEFAULT_TERM_TIMEOUT);
    }
  }

  lemma EndKeepsInv(s: State)
    requires Inv(s) && Enabled(s, CommunicateEnds)
    ensures Inv(Step(s, CommunicateEnds))
  {
  }

  lemma OutsideKeepsInv(s: State, e: Event)
    requires Inv(s) && Enabled(s, e) && (e.Spawn? || e.ChildExits? || e.PipeCloses? || e.Tick?)
    ensures Inv(Step(s, e))
  {
  }

  lemma InvStep(s: State, e: Event)
    requires Inv(s) && Enabled(s, e)
    ensures Inv(Step(s, e))
  {
    match e {
      case TaskRuns(groupExists) => TaskKeepsInv(s, groupExists);
      case CommunicateEnds => EndKeepsInv(s);
      case _ =>
        if IsCall(e) {
          CallKeepsInv(s, e);
        } else {
          OutsideKeepsInv(s, e);
        }
    }
  }

  lemma {:induction false} InvExec(s: State, es: seq<Event>)
    requires Inv(s) && Legal(s, es)
    ensures Inv(Exec(s, es))
    decreases |es|
  {
    if es == [] {
    } else {
      InvStep(s, es[0]);
      InvExec(Step(s, es[0]), es[1..]);
    }
  }

  /** At most one escalation task is ever created; the signals of the whole life are a prefix of
      SIGTERM, SIGKILL; each is sent no earlier than the timeouts given to `wait` allow. */
  lemma EscalationDiscipline(start: int, es: seq<Event>)
    requires Legal(Start(start), es)
    ensures var s := Exec(Start(start), es);
            && s.tasksCreated <= 1
            && Kinds(s.signals) <= [SIGTERM, SIGKILL]
            && (s.signals != [] ==>
                  && s.asked.Some?
                  && s.asked.value.at + s.asked.value.timeout <= s.signals[0].at)
            && (|s.signals| == 2 ==> s.signals[0].at + s.asked.value.termTimeout <= s.signals[1].at)
            && (s.sigkillSent <==> SIGKILL in Kinds(s.signals))
  {
    InvExec(Start(start), es);
    var s := Exec(Start(start), es);
    assert |s.signals| == 2 ==> Kinds(s.signals)[1] == SIGKILL;
    assert |s.signals| <= 1 ==> forall k | 0 <= k < |s.signals| :: Kinds(s.signals)[k] == SIGTERM;
  }

  lemma SilentStep(s: State, e: Event)
    requires Inv(s) && Enabled(s, e) && s.completed
    ensures Step(s, e).completed && Step(s, e).signals == s.signals && Step(s, e).tasksCreated == s.tasksCreated
  {
  }

  lemma {:induction false} SilentExec(s: State, es: seq<Event>)
    requires Inv(s) && Legal(s, es) && s.completed
    ensures Exec(s, es).completed && Exec(s, es).signals == s.signals
    ensures Exec(s, es).tasksCreated == s.tasksCreated
    decreases |es|
  {
    if es == [] {
    } else {
      InvStep(s, es[0]);
      SilentStep(s, es[0]);
      SilentExec(Step(s, es[0]), es[1..]);
    }
  }

  /** Whatever happens after `communicate()` has completed, no signal is sent and no further
      escalation starts: also when the task never ran, failed its liveness assertion, or had
      already found the process group gone. */
  lemma SilenceAfterCommunicate(start: int, before: seq<Event>, after: seq<Event>)
    requires Legal(Start(start), before + after)
    requires Legal(Start(start), before) && Exec(Start(start), before).completed
    ensures Exec(Start(start), before + after).signals == Exec(Start(start), before).signals
    ensures Exec(Start(start), before + after).tasksCreated == Exec(Start(start), before).tasksCreated
  {
    ExecConcat(Start(start), before, after);
    InvExec(Start(start), before);
    SilentExec(Exec(Start(start), before), after);
  }

  /** One more step at the end of a run. */
  lemma Extend(s: State, es: seq<Event>, e: Event) returns (longer: seq<Event>)
    requires Legal(s, es) && Enabled(Exec(s, es), e)
    ensures longer == es + [e] && Legal(s, longer) && Exec(s, longer) == Step(Exec(s, es), e)
    decreases |es|
  {
    longer := es + [e];
    if es == [] {
      assert longer[1..] == [];
    } else {
      var rest := Extend(Step(s, es[0]), es[1..], e);
      assert longer[1..] == rest;
    }
  }

  /** Some signal can still be sent: the escalation is past its liveness assertion, or it would pass
      it, and it has not been cancelled. */
  predicate CanStillSignal(s: State) {
    match s.task
    case NoTask => s.caller.Outside? || s.child.Live?
    case Created(_, _) => s.child.Live?
    case BeforeTerm(_, _) => !s.cancelling
    case BeforeKill(_) => !s.cancelling
    case _ => false
  }

  lemma MuteStep(s: State, e: Event)
    requires Inv(s) && Enabled(s, e) && !CanStillSignal(s)
    ensures !CanStillSignal(Step(s, e)) && Step(s, e).signals == s.signals
  {
  }

  lemma {:induction false} MuteExec(s: State, es: seq<Event>)
    requires Inv(s) && Legal(s, es) && !CanStillSignal(s)
    ensures Exec(s, es).signals == s.signals
    decreases |es|
  {
    if es == [] {
    } else {
      InvStep(s, es[0]);
      MuteStep(s, es[0]);
      MuteExec(Step(s, es[0]), es[1..]);
    }
  }

  /** A run up to the next signal. */
  lemma NextSignal(s: State) returns (es: seq<Event>)
    requires Inv(s) && CanStillSignal(s)
    ensures Legal(s, es) && |Exec(s, es).signals| == |s.signals| + 1
  {
    es := [];
    if s.caller.Outside? {
      es := Extend(s, es, Spawn(true));
    }
    if s.task.NoTask? {
      es := Extend(s, es, KillCall(0));
    } else if s.task.Created? && s.task.timeout != 0 {
      es := Extend(s, es, TaskRuns(true));
    }
    var t := Exec(s, es).task;
    if !t.Created? && Exec(s, es).now < t.until {
      es := Extend(s, es, Tick(t.until - Exec(s, es).now));
    }
    es := Extend(s, es, TaskRuns(true));
  }

  /** From any reachable state a signal can follow exactly when the escalation can still send one. */
  lemma SignalsCanFollow(start: int, before: seq<Event>)
    requires Legal(Start(start), before)
    ensures var s := Exec(Start(start), before);
            (exists es :: Legal(s, es) && Exec(s, es).signals != s.signals) <==> CanStillSignal(s)
  {
    InvExec(Start(start), before);
    var s := Exec(Start(start), before);
    if CanStillSignal(s) {
      var es := NextSignal(s);
      assert Exec(s, es).signals != s.signals;
    } else {
      forall es | Legal(s, es)
        ensures Exec(s, es).signals == s.signals
      {
        MuteExec(s, es);
      }
    }
  }

  /** The observed exit is not enough for silence: after it a signal can follow exactly when the
      escalation had passed its liveness assertion before, has a signal left, and has not been
      cancelled by the completion of `communicate()`. */
  lemma SignalsAfterTheExit(start: int, before: seq<Event>)
    requires Legal(Start(start), before) && Exec(Start(start), before).child.Exited?
    ensures var s := Exec(Start(start), before);
            (exists es :: Legal(s, es) && Exec(s, es).signals != s.signals)
            <==> !s.cancelling && (s.task.BeforeTerm? || s.task.BeforeKill?)
  {
    InvExec(Start(start), before);
    SignalsCanFollow(start, before);
  }

  /** An example: the pipe outlives the child, and SIGKILL still goes to its process group. */
  lemma SignalsMayFollowTheExit() returns (before: seq<Event>, after: seq<Event>)
    ensures Legal(Start(0), before) && Exec(Start(0), before).child == Exited(0)
    ensures Exec(Start(0), before).signals == [Sent(SIGTERM, 0)]
    ensures Legal(Start(0), after) && before <= after
    ensures Exec(Start(0), after).signals == [Sent(SIGTERM, 0), Sent(SIGKILL, 5)]
  {
    before := Extend(Start(0), [], Spawn(true));
    before := Extend(Start(0), before, KillCall(5));
    before := Extend(Start(0), before, TaskRuns(true));
    before := Extend(Start(0), before, ChildExits(0));
    after := Extend(Start(0), before, Tick(5));
    after := Extend(Start(0), after, TaskRuns(true));
  }

  /** However `__aexit__` or a failed `__aenter__` ends, by return or by raise, no child runs. */
  lemma NothingRunsAfterLeaving(start: int, es: seq<Event>)
    requires Legal(Start(start), es) && Exec(Start(start), es).caller.Left?
    ensures !Running(Exec(Start(start), es))
  {
    InvExec(Start(start), es);
  }
}
