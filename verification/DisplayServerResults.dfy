/** What the enter and the exit of a display server end with, and when leaving may send signals, over
    whole runs and in terms of the clock. */
module DisplayServerResults {
  import opened Options
  import opened ProgramMachine
  import opened ProgramSafety
  import opened ProgramResults
  import opened DisplayServerMachine
  import opened DisplayServerLiveness

  // ---- when leaving sends signals ----

  /** The step from `s` to `s'` sends signals, if any, at its own time, and keeps those sent before. */
  predicate SendsNow(s: State, s': State) {
    && s.signals <= s'.signals
    && (forall k | |s.signals| <= k < |s'.signals| :: s'.signals[k].at == s.now)
    && s.now <= s'.now
  }

  lemma TaskSendsNow(s: State, groupExists: bool)
    requires Enabled(s, TaskRuns(groupExists))
    ensures SendsNow(s, Step(s, TaskRuns(groupExists)))
  {
  }

  lemma CallSendsNothing(s: State, e: Event)
    requires Enabled(s, e) && (IsCall(e) || e.CommunicateEnds?)
    ensures Step(s, e).signals == s.signals && Step(s, e).now == s.now
  {
  }

  lemma OutsideSendsNothing(s: State, e: Event)
    requires Enabled(s, e) && !IsCall(e) && !e.CommunicateEnds? && !e.TaskRuns?
    ensures Step(s, e).signals == s.signals && s.now <= Step(s, e).now
  {
  }

  lemma SignalsAreNow(s: State, e: Event)
    requires Enabled(s, e)
    ensures SendsNow(s, Step(s, e))
  {
    if e.TaskRuns? {
      TaskSendsNow(s, e.groupExists);
    } else if IsCall(e) || e.CommunicateEnds? {
      CallSendsNothing(s, e);
    } else {
      OutsideSendsNothing(s, e);
    }
  }

  /** Nothing can be sent without a further call. */
  predicate Quiet(s: State) {
    s.task.NoTask? || !CanStillSignal(s)
  }

  lemma IdleIsQuiet(s: State)
    requires Inv(s) && s.caller.Idle?
    ensures Quiet(s)
  {
  }

  /** An exit that began with `sent` signals: those it adds are no earlier than `earliest`. */
  predicate LateSignals(s: Server, sent: nat, earliest: int) {
    && sent <= |s.program.signals|
    && (forall k | sent <= k < |s.program.signals| :: earliest <= s.program.signals[k].at)
    && match s.phase
       case Settling(_, until) => earliest <= until && Quiet(s.program) && |s.program.signals| == sent
       case Stopping(_) => earliest <= s.program.now
       case Over => earliest <= s.program.now
       case _ => false
  }

  lemma KillIsLate(s: Server, sent: nat, earliest: int)
    requires ServerInv(s) && s.program.caller.Idle? && earliest <= s.program.now
    requires s.phase.Up? || s.phase.Settling?
    requires sent == |s.program.signals|
    ensures LateSignals(KillServer(s, Stopping(s.phase.startTime), Closed), sent, earliest)
  {
  }

  lemma LateSignalsStep(s: Server, e: ServerEvent, sent: nat, earliest: int)
    requires ServerInv(s) && ServerEnabled(s, e) && LateSignals(s, sent, earliest)
    ensures LateSignals(ServerStep(s, e), sent, earliest)
  {
    match e {
      case SettlingEnds => KillIsLate(s, sent, earliest);
      case Inner(event) =>
        SignalsAreNow(s.program, event);
        if s.phase.Settling? {
          QuietStep(s.program, event);
        }
    }
  }

  lemma QuietStep(s: State, e: Event)
    requires Inv(s) && Quiet(s) && Enabled(s, e) && s.caller.Idle? && !IsCall(e) && !e.Spawn?
    ensures Quiet(Step(s, e)) && Step(s, e).signals == s.signals
  {
    if !CanStillSignal(s) {
      MuteStep(s, e);
    }
  }

  lemma {:induction false} LateSignalsExec(s: Server, es: seq<ServerEvent>, sent: nat, earliest: int)
    requires ServerInv(s) && ServerLegal(s, es) && LateSignals(s, sent, earliest)
    ensures LateSignals(ServerExec(s, es), sent, earliest)
    decreases |es|
  {
    if es == [] {
    } else {
      ServerInvStep(s, es[0]);
      LateSignalsStep(s, es[0], sent, earliest);
      LateSignalsExec(ServerStep(s, es[0]), es[1..], sent, earliest);
    }
  }

  /** An object that came up at `up` and has not begun to leave. */
  lemma {:induction false} StaysUp(s: Server, es: seq<ServerEvent>, up: int)
    requires ServerInv(s) && ServerLegal(s, es) && ServerEnabled(ServerExec(s, es), Exit) && s.phase == Up(up)
    ensures ServerInv(ServerExec(s, es)) && ServerExec(s, es).phase == Up(up)
    decreases |es|
  {
    if es == [] {
    } else {
      var s1 := ServerStep(s, es[0]);
      ServerInvStep(s, es[0]);
      if s1.phase == Up(up) {
        StaysUp(s1, es[1..], up);
      } else {
        NeverUpAgain(s1, es[1..]);
      }
    }
  }

  lemma {:induction false} NeverUpAgain(s: Server, es: seq<ServerEvent>)
    requires ServerInv(s) && ServerLegal(s, es) && (Waiting(s) || s.phase.Over?)
    ensures !ServerExec(s, es).phase.Up?
    decreases |es|
  {
    if es == [] {
    } else {
      ServerInvStep(s, es[0]);
      NeverUpAgain(ServerStep(s, es[0]), es[1..]);
    }
  }

  /** The states of a run with an enter that succeeds, an exit, and what comes between and after. */
  ghost predicate UpAndDown(start: int, before: seq<ServerEvent>, waited: nat, between: seq<ServerEvent>) {
    && ServerLegal(NewServer(start), before)
    && ServerEnabled(ServerExec(NewServer(start), before), Enter(true, waited, true))
    && ServerLegal(Entered(start, before, waited), between)
    && ServerEnabled(ServerExec(Entered(start, before, waited), between), Exit)
  }

  function Entered(start: int, before: seq<ServerEvent>, waited: nat): Server
    requires ServerLegal(NewServer(start), before)
    requires ServerEnabled(ServerExec(NewServer(start), before), Enter(true, waited, true))
  {
    ServerStep(ServerExec(NewServer(start), before), Enter(true, waited, true))
  }

  lemma UpUntilExit(start: int, before: seq<ServerEvent>, waited: nat, between: seq<ServerEvent>)
    requires UpAndDown(start, before, waited, between)
    ensures var came := Entered(start, before, waited);
            && came.program.now == ServerExec(NewServer(start), before).program.now + waited
            && ServerInv(ServerExec(came, between))
            && ServerExec(came, between).phase == Up(came.program.now)
  {
    ServerInvExec(NewServer(start), before);
    var s := ServerExec(NewServer(start), before);
    ServerInvStep(s, Enter(true, waited, true));
    StaysUp(Entered(start, before, waited), between, Entered(start, before, waited).program.now);
  }

  /** Leaving sends no signal earlier than 0.1 seconds after the display came up, which is when the wait
      of its enter was over: in every run, and for whatever the exit meets. */
  lemma LeavingIsLate(start: int, before: seq<ServerEvent>, waited: nat, between: seq<ServerEvent>,
                      after: seq<ServerEvent>)
    requires UpAndDown(start, before, waited, between)
    requires ServerLegal(ServerStep(ServerExec(Entered(start, before, waited), between), Exit), after)
    ensures var came := Entered(start, before, waited);
            var s := ServerExec(came, between);
            var end := ServerExec(ServerStep(s, Exit), after);
            && came.program.now == ServerExec(NewServer(start), before).program.now + waited
            && s.program.signals <= end.program.signals
            && (forall k | |s.program.signals| <= k < |end.program.signals| ::
                  came.program.now + 100_000 <= end.program.signals[k].at)
            && (end.phase.Over? || end.phase.Stopping? ==> came.program.now + 100_000 <= end.program.now)
  {
    UpUntilExit(start, before, waited, between);
    var came := Entered(start, before, waited);
    var s := ServerExec(came, between);
    var earliest := came.program.now + MIN_RUN_TIME;
    IdleIsQuiet(s.program);
    if earliest <= s.program.now {
      KillIsLate(s, |s.program.signals|, earliest);
    }
    ServerInvStep(s, Exit);
    LateSignalsExec(ServerStep(s, Exit), after, |s.program.signals|, earliest);
    SignalsStay(ServerStep(s, Exit), after);
  }

  lemma {:induction false} SignalsStay(s: Server, es: seq<ServerEvent>)
    requires ServerInv(s) && ServerLegal(s, es) && !s.phase.NotEntered?
    ensures s.program.signals <= ServerExec(s, es).program.signals
    decreases |es|
  {
    if es == [] {
    } else {
      ServerInvStep(s, es[0]);
      SignalsStayStep(s, es[0]);
      SignalsStay(ServerStep(s, es[0]), es[1..]);
    }
  }

  lemma SignalsStayStep(s: Server, e: ServerEvent)
    requires ServerInv(s) && ServerEnabled(s, e) && !s.phase.NotEntered?
    ensures s.program.signals <= ServerStep(s, e).program.signals && !ServerStep(s, e).phase.NotEntered?
  {
    if e.Inner? {
      SignalsAreNow(s.program, e.event);
    }
  }

  /** In every prompt run, leaving ends within what is left of 0.1 seconds since the display came up,
      then 10 seconds and one second. */
  lemma LeavingEndsInTime(start: int, before: seq<ServerEvent>, waited: nat, between: seq<ServerEvent>,
                          after: seq<ServerEvent>)
    requires UpAndDown(start, before, waited, between)
    requires PromptServerRun(ServerStep(ServerExec(Entered(start, before, waited), between), Exit), after)
    ensures var came := Entered(start, before, waited);
            var s := ServerExec(came, between);
            && ServerLegal(ServerStep(s, Exit), after)
            && ServerExec(ServerStep(s, Exit), after).program.now
               <= Max(s.program.now, came.program.now + 100_000) + 11_000_000
  {
    UpUntilExit(start, before, waited, between);
    var s := ServerExec(Entered(start, before, waited), between);
    ServerCallEnds(s, Exit, after);
  }

  // ---- results ----

  /** The rest of an enter or exit. */
  predicate ServerCallRun(s: Server, es: seq<ServerEvent>)
    decreases |es|
  {
    es == [] || (Waiting(s) && ServerEnabled(s, es[0]) && ServerCallRun(ServerStep(s, es[0]), es[1..]))
  }

  lemma {:induction false} ServerCallRunIsLegal(s: Server, es: seq<ServerEvent>)
    requires ServerCallRun(s, es)
    ensures ServerLegal(s, es)
    decreases |es|
  {
    if es == [] {
    } else {
      ServerCallRunIsLegal(ServerStep(s, es[0]), es[1..]);
    }
  }

  /** What an exit gives that finds, or has to await, this output. */
  function ExitResult(completed: bool, text: Option<string>): ServerResult {
    if text.Some? then Closed else if completed then Failed(Reused) else Failed(NotUtf8)
  }

  /** What a failed enter gives. */
  function NotAppearedResult(text: Option<string>): ServerResult {
    if text.Some? then NotAppeared else Failed(NotUtf8)
  }

  lemma ServerHistoryStep(s: Server, e: ServerEvent)
    requires ServerInv(s) && HistoryInv(s.program) && ServerEnabled(s, e)
    ensures HistoryInv(ServerStep(s, e).program)
  {
    match e {
      case Enter(spawned, waited, appeared) =>
        InvStep(s.program, Spawn(spawned));
        HistoryInvStep(s.program, Spawn(spawned));
        var p := Step(s.program, Spawn(spawned));
        WaitedInv(p, waited);
        if spawned && !appeared {
          HistoryInvStep(p.(now := p.now + waited), KillCall(DEFAULT_TERM_TIMEOUT));
        }
      case Exit =>
        HistoryInvStep(s.program, KillCall(DEFAULT_TERM_TIMEOUT));
      case SettlingEnds =>
        HistoryInvStep(s.program, KillCall(DEFAULT_TERM_TIMEOUT));
      case Inner(event) =>
        HistoryInvStep(s.program, event);
    }
  }

  lemma {:induction false} ServerHistory(s: Server, es: seq<ServerEvent>)
    requires ServerInv(s) && HistoryInv(s.program) && ServerLegal(s, es)
    ensures HistoryInv(ServerExec(s, es).program)
    decreases |es|
  {
    if es == [] {
    } else {
      ServerInvStep(s, es[0]);
      ServerHistoryStep(s, es[0]);
      ServerHistory(ServerStep(s, es[0]), es[1..]);
    }
  }

  /** The result a waiting object is heading for. */
  function Heading(s: Server, end: Server): ServerResult
    requires Waiting(s) && end.program.pipe.Eof?
  {
    match s.phase
    case Failing => NotAppearedResult(end.program.pipe.text)
    case Stopping(_) => ExitResult(false, end.program.pipe.text)
    case Settling(_, _) => ExitResult(s.program.completed, end.program.pipe.text)
  }

  predicate Stopped(s: Server) {
    s.phase.Over? && s.program.child.Exited? && s.program.pipe.Eof?
  }

  lemma KillGives(s: Server, phase: Phase, whenReturned: ServerResult)
    requires Inv(s.program) && HistoryInv(s.program) && s.program.caller.Idle? && (phase.Failing? || phase.Stopping?)
    ensures var s' := KillServer(s, phase, whenReturned);
            if s.program.completed
            then Stopped(s') && s'.result == (if s'.program.pipe.text.Some? then whenReturned else Failed(Reused))
            else s'.phase == phase && s'.program.caller.In? && !s'.program.completed
  {
  }

  lemma WaitingStep(s: Server, e: ServerEvent)
    requires ServerInv(s) && HistoryInv(s.program) && Waiting(s) && ServerEnabled(s, e)
    ensures var s' := ServerStep(s, e);
            if Waiting(s')
            then (s.phase.Failing? <==> s'.phase.Failing?)
                 && (s.phase.Settling? ==> s'.program.completed == s.program.completed)
                 && (s'.phase.Stopping? && s.phase.Settling? ==> !s.program.completed)
                 && (s.phase.Stopping? ==> s'.phase.Stopping?)
            else Stopped(s') && s'.result == Heading(s, s')
  {
    match e {
      case SettlingEnds => KillGives(s, Stopping(s.phase.startTime), Closed);
      case Inner(event) =>
        if !s.phase.Settling? {
          LastStep(s.program, event);
        }
    }
  }

  lemma {:induction false} WaitingEnds(s: Server, es: seq<ServerEvent>)
    requires ServerInv(s) && HistoryInv(s.program) && Waiting(s)
    requires ServerCallRun(s, es) && ServerLegal(s, es) && !Waiting(ServerExec(s, es))
    ensures Stopped(ServerExec(s, es)) && ServerExec(s, es).result == Heading(s, ServerExec(s, es))
    decreases |es|
  {
    var s1 := ServerStep(s, es[0]);
    ServerInvStep(s, es[0]);
    ServerHistoryStep(s, es[0]);
    WaitingStep(s, es[0]);
    if Waiting(s1) {
      WaitingEnds(s1, es[1..]);
    } else {
      assert es[1..] == [];
    }
  }

  /** The result of an enter or an exit made in `s` that ends in `end`. */
  ghost predicate EndsWith(s: Server, e: ServerEvent, end: Server)
    requires e.Enter? || e.Exit?
  {
    match e
    case Enter(spawned, _, appeared) =>
      if !spawned then end.phase.Over? && end.result == Failed(SpawnFailed)
      else if appeared then end.phase.Up? && end.result == DisplayServerMachine.Entered
      else Stopped(end) && end.result == NotAppearedResult(end.program.pipe.text)
    case Exit => Stopped(end) && end.result == ExitResult(s.program.completed, end.program.pipe.text)
  }

  lemma CallStartsOrEnds(s: Server, e: ServerEvent)
    requires ServerInv(s) && HistoryInv(s.program) && ServerEnabled(s, e) && (e.Enter? || e.Exit?)
    ensures var s1 := ServerStep(s, e);
            if Waiting(s1)
            then forall end | Stopped(end) && end.result == Heading(s1, end) :: EndsWith(s, e, end)
            else EndsWith(s, e, s1)
  {
    match e {
      case Enter(spawned, waited, appeared) =>
        if spawned && !appeared {
          InvStep(s.program, Spawn(true));
          HistoryInvStep(s.program, Spawn(true));
          var p := Step(s.program, Spawn(true));
          WaitedInv(p, waited);
          KillGives(s.(program := p.(now := p.now + waited)), Failing, NotAppeared);
        }
      case Exit =>
        if s.phase.startTime + MIN_RUN_TIME <= s.program.now {
          KillGives(s, Stopping(s.phase.startTime), Closed);
        }
    }
  }

  /** Every enter and every exit, in every run: an enter gives the failure to start the process, or the
      object, or, when the display does not appear, that error, with the process stopped; an exit returns
      with the process stopped; but where the output to be awaited is not UTF-8, or was found not to be
      by an earlier call, that is raised instead. */
  lemma ServerCallEndsWith(start: int, before: seq<ServerEvent>, e: ServerEvent, es: seq<ServerEvent>)
    requires ServerLegal(NewServer(start), before) && (e.Enter? || e.Exit?)
    requires ServerEnabled(ServerExec(NewServer(start), before), e)
    requires ServerCallRun(ServerStep(ServerExec(NewServer(start), before), e), es)
    ensures var s := ServerExec(NewServer(start), before);
            var s1 := ServerStep(s, e);
            && ServerLegal(s1, es)
            && (!Waiting(ServerExec(s1, es)) ==> EndsWith(s, e, ServerExec(s1, es)))
  {
    ServerInvExec(NewServer(start), before);
    ServerHistory(NewServer(start), before);
    var s := ServerExec(NewServer(start), before);
    var s1 := ServerStep(s, e);
    ServerInvStep(s, e);
    ServerHistoryStep(s, e);
    CallStartsOrEnds(s, e);
    ServerCallRunIsLegal(s1, es);
    if Waiting(s1) {
      if !Waiting(ServerExec(s1, es)) {
        WaitingEnds(s1, es);
      }
    } else {
      assert es == [];
    }
  }
}
