/** When a failed `__aenter__` and an `__aexit__` of a display server end. The loop is prompt and the
    environment keeps its promise, as for `ProgramLiveness`. */
module DisplayServerLiveness {
  import opened ProgramMachine
  import opened ProgramSafety
  import opened ProgramLiveness
  import opened DisplayServerMachine

  /** Suspended in `__aenter__` or `__aexit__`. */
  predicate Waiting(s: Server) {
    s.phase.Failing? || s.phase.Settling? || s.phase.Stopping?
  }

  /** During the sleep the clock stops at its end and for callbacks that are ready; otherwise the step
      is prompt for the program inside. */
  predicate ServerPrompt(s: Server, e: ServerEvent) {
    && ServerEnabled(s, e)
    && (e.Inner? ==>
          if s.phase.Settling?
          then e.event.Tick? ==> !CanTaskRun(s.program) && s.program.now + e.event.elapsed <= s.phase.until
          else Prompt(s.program, e.event))
  }

  predicate PromptServerRun(s: Server, es: seq<ServerEvent>)
    decreases |es|
  {
    es == [] || (Waiting(s) && ServerPrompt(s, es[0]) && PromptServerRun(ServerStep(s, es[0]), es[1..]))
  }

  lemma {:induction false} PromptServerRunIsLegal(s: Server, es: seq<ServerEvent>)
    requires PromptServerRun(s, es)
    ensures ServerLegal(s, es)
    decreases |es|
  {
    if es == [] {
    } else {
      PromptServerRunIsLegal(ServerStep(s, es[0]), es[1..]);
    }
  }

  const KILL_LIMIT := Limit(KillCall(DEFAULT_TERM_TIMEOUT))

  predicate ServerInTime(s: Server) {
    match s.phase
    case Settling(_, until) => s.program.now <= until
    case Failing => InTime(s.program) && s.program.task != Done(GaveUp)
    case Stopping(_) => InTime(s.program) && s.program.task != Done(GaveUp)
    case _ => true
  }

  /** The last moment at which the object can still be waiting. */
  function ServerLatest(s: Server): int {
    if s.phase.Settling? then s.phase.until + KILL_LIMIT else Latest(s.program)
  }

  function ServerRank(s: Server): int {
    if s.phase.Settling? then
      ServerLatest(s) - s.program.now + 5 + Stage(s.program.task)
      + (if s.program.child.Live? then 1 else 0) + (if s.program.pipe.Open? then 1 else 0)
    else Rank(s.program)
  }

  /** After a prompt step of a waiting object no deadline is missed and the rank is lower. */
  predicate ServerProgress(s: Server, s': Server) {
    && s'.program.now <= ServerLatest(s)
    && (Waiting(s') ==> ServerInTime(s') && ServerLatest(s') <= ServerLatest(s) && 0 <= ServerRank(s') < ServerRank(s))
  }

  /** A kill that starts now. */
  lemma KillStarts(s: Server, phase: Phase, whenReturned: ServerResult)
    requires Inv(s.program) && s.program.caller.Idle? && (phase.Failing? || phase.Stopping?)
    ensures var s' := KillServer(s, phase, whenReturned);
            && s'.program.now == s.program.now
            && (Waiting(s') ==>
                  && s'.program.caller.In? && ServerInTime(s')
                  && ServerLatest(s') <= s.program.now + KILL_LIMIT
                  && 0 <= ServerRank(s') <= KILL_LIMIT + 6)
            && (!Waiting(s') ==> s'.phase.Over?)
  {
    CallStartsInTime(s.program, KillCall(DEFAULT_TERM_TIMEOUT));
  }

  lemma SettlingProgress(s: Server, e: ServerEvent)
    requires ServerInv(s) && ServerInTime(s) && s.phase.Settling? && ServerPrompt(s, e)
    ensures ServerProgress(s, ServerStep(s, e))
  {
    match e {
      case SettlingEnds =>
        KillEndsSettling(s);
      case Inner(event) =>
    }
  }

  lemma KillEndsSettling(s: Server)
    requires ServerInv(s) && ServerInTime(s) && s.phase.Settling? && ServerEnabled(s, SettlingEnds)
    ensures ServerProgress(s, ServerStep(s, SettlingEnds))
  {
    var s' := ServerStep(s, SettlingEnds);
    KillStarts(s, Stopping(s.phase.startTime), Closed);
    assert s'.program.child == s.program.child && s'.program.pipe == s.program.pipe;
    assert Stage(s'.program.task) <= 4;
  }

  lemma KillingProgress(s: Server, e: ServerEvent)
    requires ServerInv(s) && ServerInTime(s) && (s.phase.Failing? || s.phase.Stopping?) && ServerPrompt(s, e)
    ensures ServerProgress(s, ServerStep(s, e))
  {
    PromptStep(s.program, e.event);
  }

  lemma ServerPromptStep(s: Server, e: ServerEvent)
    requires ServerInv(s) && ServerInTime(s) && Waiting(s) && ServerPrompt(s, e)
    ensures ServerProgress(s, ServerStep(s, e))
    ensures Waiting(ServerStep(s, e)) || ServerStep(s, e).phase.Over?
  {
    if s.phase.Settling? {
      SettlingProgress(s, e);
    } else {
      KillingProgress(s, e);
    }
  }

  lemma {:induction false} ServerRunIsBounded(s: Server, es: seq<ServerEvent>)
    requires ServerInv(s) && ServerInTime(s) && Waiting(s) && PromptServerRun(s, es) && ServerLegal(s, es)
    ensures var end := ServerExec(s, es);
            && ServerInv(end)
            && end.program.now <= Max(s.program.now, ServerLatest(s))
            && |es| <= Max(ServerRank(s), 0) + 1
            && (Waiting(end) ==> ServerInTime(end))
            && (!Waiting(end) ==> end.phase.Over?)
    decreases |es|
  {
    if es == [] {
    } else {
      var s1 := ServerStep(s, es[0]);
      ServerInvStep(s, es[0]);
      ServerPromptStep(s, es[0]);
      if Waiting(s1) {
        ServerRunIsBounded(s1, es[1..]);
      } else {
        assert es[1..] == [];
      }
    }
  }

  function Max(a: int, b: int): int {
    if a < b then b else a
  }

  /** A waiting object is never stuck. */
  lemma ServerNeverStuck(s: Server) returns (e: ServerEvent)
    requires ServerInv(s) && Waiting(s)
    ensures ServerPrompt(s, e)
  {
    if s.phase.Settling? {
      if s.phase.until <= s.program.now {
        e := SettlingEnds;
      } else if CanTaskRun(s.program) {
        e := Inner(TaskRuns(true));
      } else {
        e := Inner(Tick(s.phase.until - s.program.now));
      }
    } else {
      var event := NeverStuck(s.program);
      e := Inner(event);
    }
  }

  /** Only a run that cannot be continued promptly counts as finished. */
  ghost predicate ServerMaximal(s: Server, es: seq<ServerEvent>)
    requires ServerLegal(s, es)
  {
    !exists e :: Waiting(ServerExec(s, es)) && ServerPrompt(ServerExec(s, es), e)
  }

  /** The time until which an enter or exit may be waiting: the rest of the minimum run time for an
      exit, then the timeout before SIGKILL and one second. */
  function LatestEnd(s: Server, e: ServerEvent): int
    requires ServerEnabled(s, e) && (e.Enter? || e.Exit?)
  {
    match e
    case Enter(_, waited, _) => s.program.now + waited + DEFAULT_TERM_TIMEOUT + SECOND
    case Exit => Max(s.program.now, s.phase.startTime + MIN_RUN_TIME) + DEFAULT_TERM_TIMEOUT + SECOND
  }

  lemma ServerCallStarts(s: Server, e: ServerEvent)
    requires ServerInv(s) && ServerEnabled(s, e) && (e.Enter? || e.Exit?)
    ensures var s1 := ServerStep(s, e);
            && ServerInv(s1) && s.program.now <= s1.program.now <= LatestEnd(s, e)
            && (Waiting(s1) ==>
                  && ServerInTime(s1)
                  && ServerLatest(s1) <= LatestEnd(s, e)
                  && ServerRank(s1) <= LatestEnd(s, e) - s.program.now + 11)
            && (!Waiting(s1) ==> s1.phase.Over? || (e.Enter? && s1.phase.Up?))
  {
    ServerInvStep(s, e);
    match e {
      case Enter(spawned, waited, appeared) =>
        if spawned && !appeared {
          InvStep(s.program, Spawn(true));
          var p := Step(s.program, Spawn(true));
          WaitedInv(p, waited);
          KillStarts(s.(program := p.(now := p.now + waited)), Failing, NotAppeared);
        }
      case Exit =>
        if s.phase.startTime + MIN_RUN_TIME <= s.program.now {
          KillStarts(s, Stopping(s.phase.startTime), Closed);
        }
    }
  }

  lemma ServerCallEnds(s: Server, e: ServerEvent, es: seq<ServerEvent>)
    requires ServerInv(s) && ServerEnabled(s, e) && (e.Enter? || e.Exit?) && PromptServerRun(ServerStep(s, e), es)
    ensures var s1 := ServerStep(s, e);
            && ServerLegal(s1, es)
            && (var end := ServerExec(s1, es);
                && end.program.now <= LatestEnd(s, e)
                && |es| <= LatestEnd(s, e) - s.program.now + 12
                && (end.phase.Failing? || end.phase.Stopping? ==> end.program.task != Done(GaveUp))
                && (ServerMaximal(s1, es) ==>
                      if e.Enter? && s1.phase.Up? then end == s1
                      else end.phase.Over? && !Running(end.program)))
  {
    var s1 := ServerStep(s, e);
    ServerCallStarts(s, e);
    PromptServerRunIsLegal(s1, es);
    if Waiting(s1) {
      ServerRunIsBounded(s1, es);
      if Waiting(ServerExec(s1, es)) {
        var next := ServerNeverStuck(ServerExec(s1, es));
      }
    } else {
      assert es == [];
    }
  }

  /** From every reachable state, every prompt run of an `__aenter__` that fails and of an `__aexit__` is
      finite and ends in time, with no server running; and "failed to kill" is never raised on the way. */
  lemma ServerCallsReturn(start: int, before: seq<ServerEvent>, e: ServerEvent, es: seq<ServerEvent>)
    requires ServerLegal(NewServer(start), before) && (e.Enter? || e.Exit?)
    requires ServerEnabled(ServerExec(NewServer(start), before), e)
    requires PromptServerRun(ServerStep(ServerExec(NewServer(start), before), e), es)
    ensures var s := ServerExec(NewServer(start), before);
            var s1 := ServerStep(s, e);
            && ServerLegal(s1, es)
            && (var end := ServerExec(s1, es);
                && end.program.now <= LatestEnd(s, e)
                && |es| <= LatestEnd(s, e) - s.program.now + 12
                && (end.phase.Failing? || end.phase.Stopping? ==> end.program.task != Done(GaveUp))
                && (ServerMaximal(s1, es) ==>
                      if e.Enter? && s1.phase.Up? then end == s1
                      else end.phase.Over? && !Running(end.program)))
  {
    ServerInvExec(NewServer(start), before);
    ServerCallEnds(ServerExec(NewServer(start), before), e, es);
  }
}
