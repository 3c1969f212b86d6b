/** `DisplayServer`: a `Program` that is killed when its display does not appear, and that is never
    asked to stop before it has run for a minimum time. */
module DisplayServerMachine {
  import opened ProgramMachine
  import opened ProgramSafety

  const MIN_RUN_TIME := 100_000

  /** Where the object is: `Failing` and `Stopping` are its two awaits of `kill`, `Settling` the
      sleep that makes up the minimum run time. */
  datatype Phase = NotEntered | Failing | Up(startTime: int) | Settling(startTime: int, until: int)
                 | Stopping(startTime: int) | Over

  datatype ServerResult = NoServerResult | Entered | NotAppeared | Closed | Failed(error: Error)

  datatype Server = Server(program: State, phase: Phase, result: ServerResult)

  datatype ServerEvent =
    | Enter(spawned: bool, waited: nat, appeared: bool)
    | Exit
    | SettlingEnds
    | Inner(event: Event)

  function NewServer(now: int): Server {
    Server(Start(now), NotEntered, NoServerResult)
  }

  predicate ServerEnabled(s: Server, e: ServerEvent) {
    match e
    case Enter(_, _, _) => s.phase.NotEntered? && s.program.caller.Outside?
    case Exit => s.phase.Up? && s.program.caller.Idle?
    case SettlingEnds => s.phase.Settling? && s.phase.until <= s.program.now && s.program.caller.Idle?
    case Inner(event) =>
      && Enabled(s.program, event)
      && !event.Spawn? && !event.ExitCall?
      && (event.WaitCall? || event.KillCall? ==> s.phase.Up?)
  }

  /** The end of the object's life, once the `kill` it awaits has returned or raised. */
  function Finish(s: Server, whenReturned: ServerResult): Server {
    if s.program.caller.In? then s
    else if s.program.result.Raised? then s.(phase := Over, result := Failed(s.program.result.error))
    else s.(phase := Over, result := whenReturned)
  }

  /** `self.server.kill()` and what follows it. */
  function KillServer(s: Server, phase: Phase, whenReturned: ServerResult): Server
    requires s.program.caller.Idle?
  {
    Finish(s.(program := Step(s.program, KillCall(DEFAULT_TERM_TIMEOUT)), phase := phase), whenReturned)
  }

  function ServerStep(s: Server, e: ServerEvent): Server
    requires ServerEnabled(s, e)
  {
    match e
    case Enter(spawned, waited, appeared) =>
      var p := Step(s.program, Spawn(spawned));
      var p := p.(now := p.now + waited); // the wait for the display blocks the loop
      if !spawned then s.(program := p, phase := Over, result := Failed(SpawnFailed))
      else if appeared then s.(program := p, phase := Up(p.now), result := Entered)
      else KillServer(s.(program := p), Failing, NotAppeared)
    case Exit =>
      var until := s.phase.startTime + MIN_RUN_TIME;
      if s.program.now < until then s.(phase := Settling(s.phase.startTime, until))
      else KillServer(s, Stopping(s.phase.startTime), Closed)
    case SettlingEnds => KillServer(s, Stopping(s.phase.startTime), Closed)
    case Inner(event) =>
      var s := s.(program := Step(s.program, event));
      match s.phase
      case Failing => Finish(s, NotAppeared)
      case Stopping(_) => Finish(s, Closed)
      case _ => s
  }

  predicate ServerLegal(s: Server, es: seq<ServerEvent>)
    decreases |es|
  {
    es == [] || (ServerEnabled(s, es[0]) && ServerLegal(ServerStep(s, es[0]), es[1..]))
  }

  function ServerExec(s: Server, es: seq<ServerEvent>): Server
    requires ServerLegal(s, es)
    decreases |es|
  {
    if es == [] then s else ServerExec(ServerStep(s, es[0]), es[1..])
  }

  /** The server's `Program` keeps its own invariant, is in use exactly while the object is, and is
      not running once the object's life is over. An escalation started by leaving begins no
      earlier than the minimum run time. */
  predicate ServerInv(s: Server) {
    && Inv(s.program)
    && (s.phase.NotEntered? <==> s.program.caller.Outside?)
    && (s.phase.Failing? || s.phase.Stopping? ==> s.program.caller == In(Kill))
    && (s.phase.Up? ==> s.program.caller.Idle? || s.program.caller == In(Wait) || s.program.caller == In(Kill))
    && (s.phase.Settling? ==> s.program.caller.Idle? && s.phase.until == s.phase.startTime + MIN_RUN_TIME)
    && (s.phase.Over? ==> !Running(s.program) && !s.program.caller.In?)
    && (s.phase.Stopping? ==>
          && (s.program.child.Live? ==> s.program.asked.Some?)
          && (s.program.asked.Some? ==>
                && s.phase.startTime + MIN_RUN_TIME <= s.program.asked.value.at
                && s.program.asked.value.timeout == 0
                && s.program.asked.value.termTimeout == DEFAULT_TERM_TIMEOUT))
  }

  lemma ProgramStepInv(s: State, e: Event)
    requires Inv(s) && Enabled(s, e)
    ensures Inv(Step(s, e))
    ensures !Step(s, e).caller.In? && s.caller == In(Kill) ==> !Running(Step(s, e)) && Step(s, e).caller.Idle?
    ensures e.KillCall? && !Step(s, e).caller.In? ==> !Running(Step(s, e))
  {
    InvStep(s, e);
  }

  lemma WaitedInv(s: State, waited: nat)
    requires Inv(s)
    ensures Inv(s.(now := s.now + waited))
  {
  }

  lemma KillKeepsInv(s: Server, phase: Phase, whenReturned: ServerResult)
    requires Inv(s.program) && s.program.caller.Idle?
    requires phase.Failing? || (phase.Stopping? && phase.startTime + MIN_RUN_TIME <= s.program.now)
    ensures ServerInv(KillServer(s, phase, whenReturned))
  {
    ProgramStepInv(s.program, KillCall(DEFAULT_TERM_TIMEOUT));
  }

  lemma InnerKeepsInv(s: Server, e: Event)
    requires ServerInv(s) && ServerEnabled(s, Inner(e))
    ensures ServerInv(ServerStep(s, Inner(e)))
  {
    ProgramStepInv(s.program, e);
  }

  lemma ServerInvStep(s: Server, e: ServerEvent)
    requires ServerInv(s) && ServerEnabled(s, e)
    ensures ServerInv(ServerStep(s, e))
  {
    match e {
      case Enter(spawned, waited, appeared) =>
        ProgramStepInv(s.program, Spawn(spawned));
        var p := Step(s.program, Spawn(spawned));
        WaitedInv(p, waited);
        if spawned && !appeared {
          KillKeepsInv(s.(program := p.(now := p.now + waited)), Failing, NotAppeared);
        }
      case Exit =>
        if s.phase.startTime + MIN_RUN_TIME <= s.program.now {
          KillKeepsInv(s, Stopping(s.phase.startTime), Closed);
        }
      case SettlingEnds =>
        KillKeepsInv(s, Stopping(s.phase.startTime), Closed);
      case Inner(event) =>
        InnerKeepsInv(s, event);
    }
  }

  lemma {:induction false} ServerInvExec(s: Server, es: seq<ServerEvent>)
    requires ServerInv(s) && ServerLegal(s, es)
    ensures ServerInv(ServerExec(s, es))
    decreases |es|
  {
    if es == [] {
    } else {
      ServerInvStep(s, es[0]);
      ServerInvExec(ServerStep(s, es[0]), es[1..]);
    }
  }

  /** When `__aenter__` has raised, for whatever reason, or `__aexit__` has finished, in whatever
      way, no server process runs; and no step is left that could start one. */
  lemma NoServerLeftBehind(now: int, es: seq<ServerEvent>)
    requires ServerLegal(NewServer(now), es)
    ensures ServerExec(NewServer(now), es).phase.Over? ==> !Running(ServerExec(NewServer(now), es).program)
  {
    ServerInvExec(NewServer(now), es);
  }

  /** Leaving asks the server to stop no earlier than the minimum run time after it came up, in
      every interleaving, whether or not the sleep was needed. */
  lemma MinimumRunTime(now: int, es: seq<ServerEvent>)
    requires ServerLegal(NewServer(now), es)
    ensures var s := ServerExec(NewServer(now), es);
            s.phase.Stopping? ==>
              && (Running(s.program) ==> s.program.asked.Some?)
              && (s.program.asked.Some? ==> s.phase.startTime + MIN_RUN_TIME <= s.program.asked.value.at)
              && forall k | 0 <= k < |s.program.signals| :: s.phase.startTime + MIN_RUN_TIME <= s.program.signals[k].at
  {
    ServerInvExec(NewServer(now), es);
    assert |ServerExec(NewServer(now), es).program.signals| <= 2;
  }
}
