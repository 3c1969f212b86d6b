/** When a `wait`, a `kill` or `__aexit__` is guaranteed to return. The loop is prompt, as for
    `ProgramLiveness`, but the environment promises less. */
module ProgramGuarantee {
  import opened ProgramMachine
  import opened ProgramSafety
  import opened ProgramLiveness

  /** What the environment promises: only that the child has ended and its pipe has closed within one
      second of SIGKILL; or also that a process group is gone only when its leader is, so that the
      exit of the child is then observed before the clock advances. Without the second promise
      `GroupGone` stands for any `killpg` that fails, also on a group that lives on. */
  datatype Promise = EndsAfterKill | LeaderIsGone

  predicate KeptTick(p: Promise, s: State, elapsed: nat) {
    && 0 < elapsed
    && !CanTaskRun(s) && !CanCommunicateEnd(s)
    && (s.task.BeforeTerm? || s.task.BeforeKill? ==> s.now + elapsed <= s.task.until)
    && (|s.signals| == 2 ==> s.now + elapsed < s.signals[1].at + SECOND)
    && (p.LeaderIsGone? && s.task == Done(GroupGone) ==> !s.child.Live?)
  }

  predicate Kept(p: Promise, s: State, e: Event) {
    Enabled(s, e) && (e.Tick? ==> KeptTick(p, s, e.elapsed))
  }

  /** A run of a suspended call in which the promise is kept. */
  predicate KeptRun(p: Promise, s: State, es: seq<Event>)
    decreases |es|
  {
    es == [] || (s.caller.In? && Kept(p, s, es[0]) && KeptRun(p, Step(s, es[0]), es[1..]))
  }

  /** The call will return: some limit bounds the length and the duration of every run that leaves it
      suspended, and a suspended call can always move on (`NeverStuck`). */
  ghost predicate Guaranteed(p: Promise, s: State) {
    exists limit: nat :: Within(p, s, limit)
  }

  ghost predicate Within(p: Promise, s: State, limit: nat) {
    forall es | Legal(s, es) && KeptRun(p, s, es) && Exec(s, es).caller.In? ::
      |es| <= limit && Exec(s, es).now <= s.now + limit
  }

  predicate Collectable(s: State) {
    s.child.Exited? && s.pipe.Eof?
  }

  /** The output needs nothing more than the child's exit, which is promised, or is known already. */
  predicate WillBeCollectable(p: Promise, s: State) {
    s.pipe.Eof? && (p.LeaderIsGone? || s.child.Exited?)
  }

  /** What makes a suspended call return: the output can be collected, or SIGKILL has been reached or
      will be, because SIGTERM has found the process group. */
  predicate Sure(p: Promise, s: State) {
    WillBeCollectable(p, s) || s.sigkillSent || s.task.BeforeKill?
  }

  // ---- sure calls return ----

  function Max(a: int, b: int): int {
    if a < b then b else a
  }

  /** The last moment at which a sure call can be suspended. */
  function Deadline(s: State): int {
    if Collectable(s) then s.now
    else if |s.signals| == 2 then Max(s.now, s.signals[1].at + SECOND)
    else
      match s.task
      case Created(timeout, termTimeout) => s.now + Max0(timeout) + Max0(termTimeout) + SECOND
      case BeforeTerm(until, termTimeout) => Max(s.now, until) + Max0(termTimeout) + SECOND
      case BeforeKill(until) => Max(s.now, until) + SECOND
      case _ => s.now
  }

  function StepsLeft(s: State): int {
    Deadline(s) - s.now + Stage(s.task) + (if s.child.Live? then 1 else 0) + (if s.pipe.Open? then 1 else 0)
  }

  /** A sure call comes closer to its deadline, and does not postpone it. */
  predicate Closer(p: Promise, s: State, s': State) {
    s'.caller.In? ==>
      && Sure(p, s')
      && s'.now <= Deadline(s') <= Deadline(s)
      && 0 <= StepsLeft(s') < StepsLeft(s)
  }

  lemma TaskComesCloser(p: Promise, s: State, groupExists: bool)
    requires Inv(s) && Sure(p, s) && s.caller.In? && Kept(p, s, TaskRuns(groupExists))
    ensures Closer(p, s, Step(s, TaskRuns(groupExists)))
  {
  }

  lemma TickComesCloser(p: Promise, s: State, elapsed: nat)
    requires Inv(s) && Sure(p, s) && s.caller.In? && Kept(p, s, Tick(elapsed))
    ensures Closer(p, s, Step(s, Tick(elapsed)))
  {
  }

  lemma OthersComeCloser(p: Promise, s: State, e: Event)
    requires Inv(s) && Sure(p, s) && s.caller.In? && Kept(p, s, e) && !e.TaskRuns? && !e.Tick?
    ensures Closer(p, s, Step(s, e))
  {
  }

  lemma ComesCloser(p: Promise, s: State, e: Event)
    requires Inv(s) && Sure(p, s) && s.caller.In? && Kept(p, s, e)
    ensures Closer(p, s, Step(s, e))
  {
    match e {
      case TaskRuns(groupExists) => TaskComesCloser(p, s, groupExists);
      case Tick(elapsed) => TickComesCloser(p, s, elapsed);
      case _ => OthersComeCloser(p, s, e);
    }
  }

  lemma {:induction false} SureIsBounded(p: Promise, s: State, es: seq<Event>)
    requires Inv(s) && Sure(p, s) && s.caller.In?
    requires Legal(s, es) && KeptRun(p, s, es) && Exec(s, es).caller.In?
    ensures |es| + StepsLeft(Exec(s, es)) <= StepsLeft(s) && 0 <= StepsLeft(Exec(s, es))
    ensures Exec(s, es).now <= Deadline(s)
    decreases |es|
  {
    if es == [] {
    } else {
      var s1 := Step(s, es[0]);
      InvStep(s, es[0]);
      ComesCloser(p, s, es[0]);
      SureIsBounded(p, s1, es[1..]);
    }
  }

  // ---- other calls can outlast any time ----

  lemma Longer(p: Promise, s: State, es: seq<Event>, e: Event) returns (longer: seq<Event>)
    requires Legal(s, es) && KeptRun(p, s, es) && Exec(s, es).caller.In? && Kept(p, Exec(s, es), e)
    ensures longer == es + [e] && Legal(s, longer) && KeptRun(p, s, longer)
    ensures Exec(s, longer) == Step(Exec(s, es), e)
    decreases |es|
  {
    longer := es + [e];
    if es == [] {
      assert longer[1..] == [];
    } else {
      var rest := Longer(p, Step(s, es[0]), es[1..], e);
      assert longer[1..] == rest;
    }
  }

  /** The escalation of an unsure call can end before SIGKILL: it finds the child dead, or the process
      group gone. */
  lemma EscalationEnds(p: Promise, s: State) returns (es: seq<Event>)
    requires Inv(s) && s.caller.In? && !Sure(p, s)
    ensures Legal(s, es) && KeptRun(p, s, es)
    ensures var t := Exec(s, es);
            && t.caller.In? && !Sure(p, t) && !Pending(t.task) && s.now <= t.now
            && (p.LeaderIsGone? ==> !t.child.Live?)
  {
    es := [];
    if s.child.Live? && s.pipe.Open? {
      es := Longer(p, s, es, ChildExits(0));
    }
    if s.task.Created? && Exec(s, es).child.Live? && s.task.timeout != 0 {
      es := Longer(p, s, es, TaskRuns(false));
    }
    var t := Exec(s, es);
    if t.task.BeforeTerm? && t.now < t.task.until {
      es := Longer(p, s, es, Tick(t.task.until - t.now));
    }
    if Pending(t.task) {
      es := Longer(p, s, es, TaskRuns(false));
    }
  }

  lemma UnsureOutlasts(p: Promise, s: State, duration: nat) returns (es: seq<Event>)
    requires Inv(s) && s.caller.In? && !Sure(p, s)
    ensures Legal(s, es) && KeptRun(p, s, es)
    ensures Exec(s, es).caller.In? && s.now + duration < Exec(s, es).now
  {
    es := EscalationEnds(p, s);
    InvExec(s, es);
    es := Longer(p, s, es, Tick(duration + 1));
  }

  // ---- the exact condition ----

  /** From every reachable state, a suspended call is guaranteed to return exactly when SIGKILL has been
      sent or is due, or the pipe has closed and the child has ended; the child need not have ended if
      the leader is promised to be gone with its group. */
  lemma GuaranteedIffSure(p: Promise, start: int, before: seq<Event>)
    requires Legal(Start(start), before) && Exec(Start(start), before).caller.In?
    ensures Guaranteed(p, Exec(Start(start), before)) <==> Sure(p, Exec(Start(start), before))
  {
    InvExec(Start(start), before);
    ExactCondition(p, Exec(Start(start), before));
  }

  lemma ExactCondition(p: Promise, s: State)
    requires Inv(s) && s.caller.In?
    ensures Guaranteed(p, s) <==> Sure(p, s)
  {
    if Sure(p, s) {
      var limit := Max(StepsLeft(s), Deadline(s) - s.now);
      forall es | Legal(s, es) && KeptRun(p, s, es) && Exec(s, es).caller.In?
        ensures |es| <= limit && Exec(s, es).now <= s.now + limit
      {
        SureIsBounded(p, s, es);
      }
      assert Within(p, s, limit);
    } else {
      forall limit: nat
        ensures !Within(p, s, limit)
      {
        var es := UnsureOutlasts(p, s, limit);
      }
    }
  }

  /** Before the call: `wait`, `kill` and `__aexit__` are guaranteed to return exactly when there is
      nothing left to await, or the pipe has closed and the child is known to have exited; on a running
      child, then, only with the second promise, and only once its pipe has closed. */
  lemma GuaranteedBeforeTheCall(p: Promise, start: int, before: seq<Event>, e: Event)
    requires Legal(Start(start), before) && IsCall(e) && Enabled(Exec(Start(start), before), e)
    ensures var s := Exec(Start(start), before);
            (Step(s, e).caller.In? ==> Guaranteed(p, Step(s, e)))
            <==> (s.ending.Fresh? ==> s.pipe.Eof? && (p.LeaderIsGone? || s.child.Exited?))
  {
    InvExec(Start(start), before);
    var s := Exec(Start(start), before);
    InvStep(s, e);
    if Step(s, e).caller.In? {
      ExactCondition(p, Step(s, e));
    }
  }

  // ---- the escalation never gives up ----

  /** SIGKILL is less than a second ago, if it has been sent. */
  predicate NotGivenUp(s: State) {
    && s.task != Done(GaveUp)
    && (|s.signals| == 2 ==> s.now < s.signals[1].at + SECOND)
    && (s.task.BeforeGiveUp? ==> |s.signals| == 2 && s.task.until == s.signals[1].at + SECOND)
  }

  lemma KeptStepGoesOn(p: Promise, s: State, e: Event)
    requires Inv(s) && NotGivenUp(s) && s.caller.In? && Kept(p, s, e)
    ensures NotGivenUp(Step(s, e))
  {
  }

  lemma {:induction false} KeptRunGoesOn(p: Promise, s: State, es: seq<Event>)
    requires Inv(s) && NotGivenUp(s) && KeptRun(p, s, es) && Legal(s, es)
    ensures NotGivenUp(Exec(s, es))
    decreases |es|
  {
    if es == [] {
    } else {
      InvStep(s, es[0]);
      KeptStepGoesOn(p, s, es[0]);
      KeptRunGoesOn(p, Step(s, es[0]), es[1..]);
    }
  }

  /** "failed to kill" is never raised while a call made in a reachable state is suspended, nor by its
      last step, under either promise. */
  lemma NeverGivesUp(p: Promise, start: int, before: seq<Event>, e: Event, es: seq<Event>)
    requires Legal(Start(start), before) && IsCall(e) && Enabled(Exec(Start(start), before), e)
    requires Step(Exec(Start(start), before), e).caller.In?
    requires KeptRun(p, Step(Exec(Start(start), before), e), es)
    requires Legal(Step(Exec(Start(start), before), e), es)
    ensures Exec(Step(Exec(Start(start), before), e), es).task != Done(GaveUp)
  {
    InvExec(Start(start), before);
    var s := Exec(Start(start), before);
    InvStep(s, e);
    KeptRunGoesOn(p, Step(s, e), es);
  }
}
