/** What a `wait`, a `kill` and `__aexit__` give their caller, over whole runs. */
module ProgramResults {
  import opened Options
  import opened ProgramMachine
  import opened ProgramSafety

  /** The rest of a call: a run during which the caller stays suspended up to the last step. */
  predicate CallRun(s: State, es: seq<Event>)
    decreases |es|
  {
    es == [] || (s.caller.In? && Enabled(s, es[0]) && CallRun(Step(s, es[0]), es[1..]))
  }

  /** What was collected before: nothing, a text, or bytes that are not UTF-8. */
  predicate HistoryInv(s: State) {
    && (s.caller.Idle? || s.caller.In? ==> !s.child.Absent?)
    && (s.completed ==> s.pipe.Eof?)
    && (s.completed && s.pipe.Eof? && s.pipe.text.Some? ==> s.output == s.pipe.text.value)
    && (s.completed && !s.caller.Left? ==> (s.ending.NoEnding? <==> s.pipe.text.Some?))
  }

  lemma HistoryInvStep(s: State, e: Event)
    requires Inv(s) && HistoryInv(s) && Enabled(s, e)
    ensures HistoryInv(Step(s, e))
  {
  }

  lemma {:induction false} HistoryInvExec(s: State, es: seq<Event>)
    requires Inv(s) && HistoryInv(s) && Legal(s, es)
    ensures HistoryInv(Exec(s, es))
    decreases |es|
  {
    if es == [] {
    } else {
      InvStep(s, es[0]);
      HistoryInvStep(s, es[0]);
      HistoryInvExec(Step(s, es[0]), es[1..]);
    }
  }

  /** The result of the call `e` made in `s`, when it ends in `end`. Output that an earlier call
      collected is not waited for again: a further call then returns in silence, also when the earlier
      one raised, unless that output was not UTF-8. */
  function CallResult(s: State, e: Event, end: State): Result
    requires IsCall(e) && end.child.Exited? && end.pipe.Eof?
  {
    if s.completed then (if end.pipe.text.Some? then Returned else Raised(Reused))
    else if end.pipe.text.None? then Raised(NotUtf8)
    else if e.ExitCall? && !s.child.Live? then Raised(Died)
    else if !e.WaitCall? || end.child.code == 0 then Returned
    else if SIGKILL in Kinds(end.signals) then Raised(Refused)
    else Raised(ClosedWith(end.child.code))
  }

  /** What the suspended caller will be given. */
  function Awaited(s: State, end: State): Result
    requires s.caller.In? && end.child.Exited? && end.pipe.Eof?
  {
    if end.pipe.text.None? then Raised(NotUtf8)
    else match s.caller.call
      case LeaveDied => Raised(Died)
      case Wait =>
        if end.child.code == 0 then Returned
        else if SIGKILL in Kinds(end.signals) then Raised(Refused)
        else Raised(ClosedWith(end.child.code))
      case _ => Returned
  }

  lemma KillSent(s: State)
    requires Inv(s)
    ensures s.sigkillSent <==> SIGKILL in Kinds(s.signals)
  {
    if s.sigkillSent {
      assert Kinds(s.signals)[1] == SIGKILL;
    } else {
      assert forall k | 0 <= k < |s.signals| :: Kinds(s.signals)[k] == SIGTERM;
    }
  }

  lemma LastStep(s: State, e: Event)
    requires Inv(s) && s.caller.In? && Enabled(s, e)
    ensures var s' := Step(s, e);
            if s'.caller.In? then s'.caller == s.caller && !s'.completed
            else s'.completed && s'.child.Exited? && s'.pipe.Eof? && s'.result == Awaited(s, s')
  {
    InvStep(s, e);
    KillSent(s);
  }

  lemma {:induction false} SuspendedEnds(s: State, es: seq<Event>)
    requires Inv(s) && s.caller.In? && CallRun(s, es) && Legal(s, es) && !Exec(s, es).caller.In?
    ensures var end := Exec(s, es);
            end.completed && end.child.Exited? && end.pipe.Eof? && end.result == Awaited(s, end)
    decreases |es|
  {
    var s1 := Step(s, es[0]);
    InvStep(s, es[0]);
    LastStep(s, es[0]);
    if s1.caller.In? {
      SuspendedEnds(s1, es[1..]);
    } else {
      assert es[1..] == [];
    }
  }

  lemma {:induction false} CallRunIsLegal(s: State, es: seq<Event>)
    requires CallRun(s, es)
    ensures Legal(s, es)
    decreases |es|
  {
    if es == [] {
    } else {
      CallRunIsLegal(Step(s, es[0]), es[1..]);
    }
  }

  /** Every call, made in any reachable state and ending after any run, ends with the child exited,
      its output collected and stored, and exactly the result above; one after collected output ends
      at once. */
  lemma CallEndsWith(start: int, before: seq<Event>, e: Event, es: seq<Event>)
    requires Legal(Start(start), before) && IsCall(e)
    requires Enabled(Exec(Start(start), before), e)
    requires CallRun(Step(Exec(Start(start), before), e), es)
    ensures var s := Exec(Start(start), before);
            var s1 := Step(s, e);
            && Legal(s1, es)
            && (s.completed ==> !s1.caller.In?)
            && (!Exec(s1, es).caller.In? ==>
                  var end := Exec(s1, es);
                  && end.completed && end.child.Exited? && end.pipe.Eof?
                  && end.result == CallResult(s, e, end)
                  && (end.pipe.text.Some? ==> end.output == end.pipe.text.value))
  {
    InvExec(Start(start), before);
    HistoryInvExec(Start(start), before);
    var s := Exec(Start(start), before);
    var s1 := Step(s, e);
    InvStep(s, e);
    CallRunIsLegal(s1, es);
    HistoryInvStep(s, e);
    HistoryInvExec(s1, es);
    if s1.caller.In? {
      if !Exec(s1, es).caller.In? {
        SuspendedEnds(s1, es);
      }
    } else {
      assert es == [];
    }
  }

  /** A failure is reported once: when the child has failed, a `wait` returns in silence exactly when
      an earlier call has collected its output, and that was UTF-8. */
  lemma FailureIsReportedOnce(start: int, before: seq<Event>, timeout: int, termTimeout: int, es: seq<Event>)
    requires Legal(Start(start), before) && Enabled(Exec(Start(start), before), WaitCall(timeout, termTimeout))
    requires CallRun(Step(Exec(Start(start), before), WaitCall(timeout, termTimeout)), es)
    ensures var s := Exec(Start(start), before);
            var s1 := Step(s, WaitCall(timeout, termTimeout));
            && Legal(s1, es)
            && (var end := Exec(s1, es);
                !end.caller.In? && end.child.Exited? && end.child.code != 0 ==>
                  (end.result == Returned <==> s.completed && end.pipe == Eof(Some(end.output))))
  {
    CallEndsWith(start, before, WaitCall(timeout, termTimeout), es);
  }
}
