/** No program outlives the benchmarker that entered it: the awaits of `Benchmarker`, composed with the
    step machines of the programs and display servers that it manages. */
module ResourceSafety {
  import opened Options
  import opened ProgramMachine
  import opened ProgramSafety
  import opened DisplayServerMachine
  import opened BenchmarkerRuns
  import B = Benchmarking

  /** A program managed directly, or the one inside a display server. */
  datatype Managed = Direct(program: State) | Served(server: Server)

  /** All machines, and the benchmarker's log. */
  datatype World = World(managed: seq<Managed>, log: seq<B.Event>)

  /** The benchmarker awaits the enter or the exit of a program, which begins and ends; it reads a
      cgroup; and at any time a machine makes a step of its own. */
  datatype Move =
    | EnterBegins(id: nat, spawned: bool, waited: nat, appeared: bool)
    | EnterEnds(id: nat)
    | ExitBegins(id: nat)
    | ExitEnds(id: nat, message: string)
    | Sample(id: nat)
    | Work(id: nat, event: ServerEvent)

  predicate StillRunning(m: Managed) {
    match m
    case Direct(program) => Running(program)
    case Served(server) => Running(server.program)
  }

  predicate NotYetEntered(m: Managed) {
    match m
    case Direct(program) => program.caller.Outside?
    case Served(server) => server.phase.NotEntered? && server.program.caller.Outside?
  }

  /** Its `__aenter__` has returned. */
  predicate IsUp(m: Managed) {
    match m
    case Direct(program) => !program.caller.Outside? && !program.caller.Left?
    case Served(server) => server.phase.Up?
  }

  /** Its `__aexit__` has finished, or its `__aenter__` has raised. */
  predicate IsOver(m: Managed) {
    match m
    case Direct(program) => program.caller.Left?
    case Served(server) => server.phase.Over?
  }

  /** The last of its calls raised. */
  predicate Raises(m: Managed) {
    match m
    case Direct(program) => program.result.Raised?
    case Served(server) => server.result.Failed? || server.result.NotAppeared?
  }

  // ---- the composition ----

  function Entered(m: Managed, spawned: bool, waited: nat, appeared: bool): Managed
    requires NotYetEntered(m)
  {
    match m
    case Direct(program) => Direct(Step(program, Spawn(spawned)))
    case Served(server) => Served(ServerStep(server, Enter(spawned, waited, appeared)))
  }

  predicate CanExit(m: Managed) {
    match m
    case Direct(program) => Enabled(program, ExitCall)
    case Served(server) => ServerEnabled(server, Exit)
  }

  function Exited(m: Managed): Managed
    requires CanExit(m)
  {
    match m
    case Direct(program) => Direct(Step(program, ExitCall))
    case Served(server) => Served(ServerStep(server, Exit))
  }

  predicate CanWork(m: Managed, e: ServerEvent) {
    match m
    case Direct(program) => e.Inner? && Enabled(program, e.event) && !e.event.Spawn? && !e.event.ExitCall?
    case Served(server) => ServerEnabled(server, e) && !e.Enter? && !e.Exit?
  }

  function Worked(m: Managed, e: ServerEvent): Managed
    requires CanWork(m, e)
  {
    match m
    case Direct(program) => Direct(Step(program, e.event))
    case Served(server) => Served(ServerStep(server, e))
  }

  /** What the benchmarker sees of a finished exit. */
  function OutcomeOf(m: Managed, message: string): B.Outcome {
    if Raises(m) then B.Fails(message) else B.Fine
  }

  predicate CanMove(w: World, move: Move) {
    && move.id < |w.managed|
    && var m := w.managed[move.id];
       match move
       case EnterBegins(_, _, _, _) => NotYetEntered(m)
       case EnterEnds(_) => IsUp(m) || IsOver(m)
       case ExitBegins(_) => CanExit(m)
       case ExitEnds(_, _) => IsOver(m)
       case Sample(_) => true
       case Work(_, e) => CanWork(m, e)
  }

  /** What a move adds to the log. */
  function Logged(w: World, move: Move): seq<B.Event>
    requires CanMove(w, move)
  {
    var m := w.managed[move.id];
    match move
    case EnterBegins(id, _, _, _) => [B.Entering(id)]
    case EnterEnds(id) => [if IsOver(m) then B.EnterFailed(id) else B.Entered(id)]
    case ExitBegins(id) => [B.Exiting(id)]
    case ExitEnds(id, message) => [B.Left(id, OutcomeOf(m, message))]
    case Sample(id) => [B.Read(id)]
    case Work(_, _) => []
  }

  /** What a move makes of its machine. */
  function Moved(m: Managed, move: Move): Managed
    requires move.EnterBegins? ==> NotYetEntered(m)
    requires move.ExitBegins? ==> CanExit(m)
    requires move.Work? ==> CanWork(m, move.event)
  {
    match move
    case EnterBegins(_, spawned, waited, appeared) => Entered(m, spawned, waited, appeared)
    case ExitBegins(_) => Exited(m)
    case Work(_, e) => Worked(m, e)
    case _ => m
  }

  function Apply(w: World, move: Move): World
    requires CanMove(w, move)
  {
    World(w.managed[move.id := Moved(w.managed[move.id], move)], w.log + Logged(w, move))
  }

  predicate CanRun(w: World, moves: seq<Move>)
    decreases |moves|
  {
    moves == [] || (CanMove(w, moves[0]) && CanRun(Apply(w, moves[0]), moves[1..]))
  }

  function After(w: World, moves: seq<Move>): World
    requires CanRun(w, moves)
    decreases |moves|
  {
    if moves == [] then w else After(Apply(w, moves[0]), moves[1..])
  }

  predicate IsNew(m: Managed) {
    match m
    case Direct(program) => program == Start(program.now)
    case Served(server) => server == NewServer(server.program.now)
  }

  ghost predicate Fresh(w: World) {
    w.log == [] && forall id | 0 <= id < |w.managed| :: IsNew(w.managed[id])
  }

  // ---- the log fits the machines ----

  predicate Sound(m: Managed) {
    match m
    case Direct(program) => Inv(program)
    case Served(server) => ServerInv(server)
  }

  /** What the log says about a program is true of it. */
  ghost predicate Fits(log: seq<B.Event>, id: nat, m: Managed) {
    && Sound(m)
    && (B.Entering(id) !in log ==> NotYetEntered(m))
    && (B.EnterFailed(id) in log ==> IsOver(m))
    && (forall outcome :: B.Left(id, outcome) in log ==> IsOver(m) && (outcome.Fails? <==> Raises(m)))
  }

  ghost predicate AllFit(w: World) {
    forall id: nat | id < |w.managed| :: Fits(w.log, id, w.managed[id])
  }

  lemma MovedIsSound(m: Managed, move: Move)
    requires Sound(m)
    requires move.EnterBegins? ==> NotYetEntered(m)
    requires move.ExitBegins? ==> CanExit(m)
    requires move.Work? ==> CanWork(m, move.event)
    ensures Sound(Moved(m, move))
  {
    match m {
      case Direct(program) =>
        match move {
          case EnterBegins(_, spawned, _, _) => InvStep(program, Spawn(spawned));
          case ExitBegins(_) => InvStep(program, ExitCall);
          case Work(_, e) => InvStep(program, e.event);
          case _ =>
        }
      case Served(server) =>
        match move {
          case EnterBegins(_, spawned, waited, appeared) => ServerInvStep(server, Enter(spawned, waited, appeared));
          case ExitBegins(_) => ServerInvStep(server, Exit);
          case Work(_, e) => ServerInvStep(server, e);
          case _ =>
        }
    }
  }

  /** Once over, a machine stays over, and its result stays. */
  lemma OverIsFinal(m: Managed, move: Move)
    requires Sound(m) && IsOver(m)
    requires move.EnterBegins? ==> NotYetEntered(m)
    requires move.ExitBegins? ==> CanExit(m)
    requires move.Work? ==> CanWork(m, move.event)
    ensures IsOver(Moved(m, move)) && (Raises(Moved(m, move)) <==> Raises(m))
  {
  }

  /** A machine is entered by `EnterBegins` only. */
  lemma StaysNew(m: Managed, move: Move)
    requires Sound(m) && NotYetEntered(m) && !move.EnterBegins?
    requires move.ExitBegins? ==> CanExit(m)
    requires move.Work? ==> CanWork(m, move.event)
    ensures NotYetEntered(Moved(m, move))
  {
  }

  lemma MoverFits(w: World, move: Move)
    requires CanMove(w, move) && Fits(w.log, move.id, w.managed[move.id])
    ensures Fits(Apply(w, move).log, move.id, Apply(w, move).managed[move.id])
  {
    var m := w.managed[move.id];
    MovedIsSound(m, move);
    if IsOver(m) {
      OverIsFinal(m, move);
    }
    if NotYetEntered(m) && !move.EnterBegins? {
      StaysNew(m, move);
    }
  }

  lemma OthersFit(w: World, move: Move, id: nat)
    requires CanMove(w, move) && id != move.id && id < |w.managed| && Fits(w.log, id, w.managed[id])
    ensures Fits(Apply(w, move).log, id, Apply(w, move).managed[id])
  {
  }

  /** In every run of the composition the log fits the machines. */
  lemma {:induction false} LogFits(w: World, moves: seq<Move>)
    requires AllFit(w) && CanRun(w, moves)
    ensures AllFit(After(w, moves)) && |After(w, moves).managed| == |w.managed|
    decreases |moves|
  {
    if moves == [] {
    } else {
      var next := Apply(w, moves[0]);
      forall id: nat | id < |next.managed|
        ensures Fits(next.log, id, next.managed[id])
      {
        if id == moves[0].id {
          MoverFits(w, moves[0]);
        } else {
          OthersFit(w, moves[0], id);
        }
      }
      LogFits(next, moves[1..]);
    }
  }

  lemma FreshFits(w: World)
    requires Fresh(w)
    ensures AllFit(w)
  {
  }

  lemma RunFits(w: World, moves: seq<Move>)
    requires Fresh(w) && CanRun(w, moves)
    ensures AllFit(After(w, moves)) && |After(w, moves).managed| == |w.managed|
  {
    FreshFits(w);
    LogFits(w, moves);
  }

  /** What a program or display server promises whoever enters and exits it. */
  lemma OverMeansStopped(m: Managed)
    requires Sound(m) && (IsOver(m) || NotYetEntered(m))
    ensures !StillRunning(m)
  {
  }

  // ---- after a complete use ----

  /** When `Benchmarker.__aexit__` has finished, by return or by raise, with any subset of the exits
      failing, any schedule of the sampling task and any steps of the machines in between, nothing it
      entered is running; and the outcomes in the log are those of the machines. */
  lemma NothingOutlivesTheBenchmarker(w: World, moves: seq<Move>, ids: seq<nat>, leaving: nat -> B.Outcome)
    requires Fresh(w) && CanRun(w, moves)
    requires After(w, moves).log == FullLog(|w.managed|, ids, leaving)
    ensures |After(w, moves).managed| == |w.managed|
    ensures forall id: nat | id < |w.managed| ::
              && !StillRunning(After(w, moves).managed[id])
              && (leaving(id).Fails? <==> Raises(After(w, moves).managed[id]))
  {
    var n, end := |w.managed|, After(w, moves);
    RunFits(w, moves);
    forall id: nat | id < n
      ensures !StillRunning(end.managed[id]) && (leaving(id).Fails? <==> Raises(end.managed[id]))
    {
      ExitedPrograms(n, n, leaving, id);
      assert B.Left(id, leaving(id)) in end.log;
      assert Fits(end.log, id, end.managed[id]);
      OverMeansStopped(end.managed[id]);
    }
  }

  // ---- after a failed enter ----

  /** The log of an enter that fails at program `k`, with `m` unwinding exits. */
  function FailedLog(k: nat, m: nat, leaving: nat -> B.Outcome): seq<B.Event>
    requires m <= k
  {
    B.EnterLog(k) + [B.Entering(k), B.EnterFailed(k)] + ExitLog(k, m, leaving)
  }

  lemma FailedLogEvents(k: nat, m: nat, leaving: nat -> B.Outcome, id: nat)
    requires m <= k
    ensures B.Entering(id) in FailedLog(k, m, leaving) <==> id <= k
    ensures B.EnterFailed(id) in FailedLog(k, m, leaving) <==> id == k
    ensures k - m <= id < k ==> B.Left(id, leaving(id)) in FailedLog(k, m, leaving)
  {
    EnterLogAt(k);
    ExitLogAt(k, m, leaving);
    ExitedPrograms(k, m, leaving, id);
    if id < k {
      assert B.EnterLog(k)[2 * id] == EnterEvent(2 * id) == B.Entering(id);
    }
  }

  ghost predicate NothingRuns(w: World) {
    forall id: nat | id < |w.managed| :: !StillRunning(w.managed[id])
  }

  lemma UnwoundMachine(log: seq<B.Event>, k: nat, leaving: nat -> B.Outcome, id: nat, m: Managed)
    requires log == FailedLog(k, k, leaving) && Fits(log, id, m)
    ensures !StillRunning(m)
  {
    FailedLogEvents(k, k, leaving, id);
    OverMeansStopped(m);
  }

  lemma UnwoundWorld(w: World, moves: seq<Move>, k: nat, leaving: nat -> B.Outcome)
    requires Fresh(w) && CanRun(w, moves) && After(w, moves).log == FailedLog(k, k, leaving)
    ensures NothingRuns(After(w, moves))
  {
    var end := After(w, moves);
    RunFits(w, moves);
    forall id: nat | id < |end.managed|
      ensures !StillRunning(end.managed[id])
    {
      UnwoundMachine(end.log, k, leaving, id, end.managed[id]);
    }
  }

  /** A failed `Benchmarker.__aenter__` leaves nothing running, in any run of the composition, if and
      only if unwinding reached the first program, that is if no unwinding exit but the last one
      raised. */
  lemma NothingOutlivesAFailedEnter(n: nat, k: nat, m: nat, leaving: nat -> B.Outcome)
    requires k < n && UnwindsTo(leaving, k, m)
    ensures (forall id: nat | 0 < id < k :: leaving(id).Fine?)
       <==> forall w, moves | Fresh(w) && |w.managed| == n && CanRun(w, moves)
                              && After(w, moves).log == FailedLog(k, m, leaving) :: NothingRuns(After(w, moves))
  {
    FailedEnter(k, m, leaving, "");
    if m == k {
      forall w, moves | Fresh(w) && |w.managed| == n && CanRun(w, moves)
                        && After(w, moves).log == FailedLog(k, m, leaving)
        ensures NothingRuns(After(w, moves))
      {
        UnwoundWorld(w, moves, k, leaving);
      }
    } else {
      var moves := FailedRun(n, k, m, leaving);
      assert !NothingRuns(After(NewWorld(n), moves));
    }
  }

  // ---- every log has a run ----

  const NEW := Direct(Start(0))
  const UP := Direct(Step(Start(0), Spawn(true)))
  const UNENTERED := Direct(Step(Start(0), Spawn(false)))
  const LEAVING := Direct(Step(Step(Step(Start(0), Spawn(true)), ExitCall), ChildExits(0)))

  function NewWorld(n: nat): World {
    World(seq(n, _ => NEW), [])
  }

  lemma {:induction false} MoveOn(w: World, moves: seq<Move>, move: Move) returns (longer: seq<Move>)
    requires CanRun(w, moves) && CanMove(After(w, moves), move)
    ensures longer == moves + [move] && CanRun(w, longer)
    ensures After(w, longer) == Apply(After(w, moves), move)
    decreases |moves|
  {
    longer := moves + [move];
    if moves == [] {
      assert longer[1..] == [];
    } else {
      var rest := MoveOn(Apply(w, moves[0]), moves[1..], move);
      assert longer[1..] == rest;
    }
  }

  /** One more program, entered or not. */
  lemma EnterOne(w: World, moves: seq<Move>, id: nat, spawned: bool) returns (longer: seq<Move>)
    requires CanRun(w, moves) && id < |After(w, moves).managed| && After(w, moves).managed[id] == NEW
    ensures CanRun(w, longer)
    ensures var now, next := After(w, moves), After(w, longer);
            && next.managed == now.managed[id := if spawned then UP else UNENTERED]
            && next.log == now.log + [B.Entering(id), if spawned then B.Entered(id) else B.EnterFailed(id)]
  {
    longer := MoveOn(w, moves, EnterBegins(id, spawned, 0, true));
    longer := MoveOn(w, longer, EnterEnds(id));
  }

  /** A program that is up begins to leave, and exits. */
  lemma LeaveBegins(w: World, moves: seq<Move>, id: nat) returns (longer: seq<Move>)
    requires CanRun(w, moves) && id < |After(w, moves).managed| && After(w, moves).managed[id] == UP
    ensures CanRun(w, longer)
    ensures After(w, longer) == World(After(w, moves).managed[id := LEAVING], After(w, moves).log + [B.Exiting(id)])
  {
    longer := MoveOn(w, moves, ExitBegins(id));
    longer := MoveOn(w, longer, Work(id, Inner(ChildExits(0))));
  }

  /** Its exit ends with any outcome: its output is UTF-8, or it is not. */
  lemma LeaveEnds(w: World, moves: seq<Move>, id: nat, outcome: B.Outcome) returns (longer: seq<Move>)
    requires CanRun(w, moves) && id < |After(w, moves).managed| && After(w, moves).managed[id] == LEAVING
    ensures CanRun(w, longer)
    ensures var now, next := After(w, moves), After(w, longer);
            && next.managed == now.managed[id := Gone(outcome)]
            && next.log == now.log + [B.Left(id, outcome)]
  {
    longer := OutputCloses(w, moves, id, outcome);
    GoneMachine(outcome);
    longer := MoveOn(w, longer, ExitEnds(id, if outcome.Fails? then outcome.error else ""));
  }

  lemma OutputCloses(w: World, moves: seq<Move>, id: nat, outcome: B.Outcome) returns (longer: seq<Move>)
    requires CanRun(w, moves) && id < |After(w, moves).managed| && After(w, moves).managed[id] == LEAVING
    ensures CanRun(w, longer)
    ensures After(w, longer) == World(After(w, moves).managed[id := Gone(outcome)], After(w, moves).log)
  {
    longer := MoveOn(w, moves, Work(id, Inner(PipeCloses(TextFor(outcome)))));
    longer := MoveOn(w, longer, Work(id, Inner(CommunicateEnds)));
  }

  function TextFor(outcome: B.Outcome): Option<string> {
    if outcome.Fine? then Some("") else None
  }

  function Gone(outcome: B.Outcome): Managed {
    Direct(Step(Step(LEAVING.program, PipeCloses(TextFor(outcome))), CommunicateEnds))
  }

  lemma GoneMachine(outcome: B.Outcome)
    ensures IsOver(Gone(outcome)) && (Raises(Gone(outcome)) <==> outcome.Fails?)
  {
  }

  lemma LeaveOne(w: World, moves: seq<Move>, id: nat, outcome: B.Outcome) returns (longer: seq<Move>)
    requires CanRun(w, moves) && id < |After(w, moves).managed| && After(w, moves).managed[id] == UP
    ensures CanRun(w, longer)
    ensures var now, next := After(w, moves), After(w, longer);
            && |next.managed| == |now.managed|
            && (forall i | 0 <= i < |now.managed| && i != id :: next.managed[i] == now.managed[i])
            && next.log == now.log + [B.Exiting(id), B.Left(id, outcome)]
  {
    longer := LeaveBegins(w, moves, id);
    longer := LeaveEnds(w, longer, id, outcome);
  }

  lemma {:induction false} EnterMany(n: nat, k: nat) returns (moves: seq<Move>)
    requires k <= n
    ensures CanRun(NewWorld(n), moves)
    ensures After(NewWorld(n), moves) == World(Ups(n, k), B.EnterLog(k))
  {
    if k == 0 {
      moves := [];
    } else {
      moves := EnterMany(n, k - 1);
      UpsNext(n, k - 1);
      moves := EnterOne(NewWorld(n), moves, k - 1, true);
    }
  }

  /** The first `k` of `n` programs are up. */
  function Ups(n: nat, k: nat): (managed: seq<Managed>)
    ensures |managed| == n && forall i | 0 <= i < n :: managed[i] == if i < k then UP else NEW
  {
    seq(n, i => if i < k then UP else NEW)
  }

  lemma UpsNext(n: nat, k: nat)
    requires k < n
    ensures Ups(n, k)[k := UP] == Ups(n, k + 1)
  {
  }

  lemma {:induction false} LeaveMany(w: World, moves: seq<Move>, k: nat, m: nat, leaving: nat -> B.Outcome)
    returns (longer: seq<Move>)
    requires CanRun(w, moves) && m <= k <= |After(w, moves).managed|
    requires forall i | 0 <= i < k :: After(w, moves).managed[i] == UP
    ensures CanRun(w, longer)
    ensures |After(w, longer).managed| == |After(w, moves).managed|
    ensures After(w, longer).log == After(w, moves).log + ExitLog(k, m, leaving)
    ensures forall i | 0 <= i < k - m :: After(w, longer).managed[i] == UP
  {
    if m == 0 {
      longer := moves;
    } else {
      longer := LeaveMany(w, moves, k, m - 1, leaving);
      longer := LeaveOne(w, longer, k - m, leaving(k - m));
    }
  }

  lemma {:induction false} SampleMany(w: World, moves: seq<Move>, ids: seq<nat>) returns (longer: seq<Move>)
    requires CanRun(w, moves) && forall i | 0 <= i < |ids| :: ids[i] < |After(w, moves).managed|
    ensures CanRun(w, longer)
    ensures After(w, longer) == World(After(w, moves).managed, After(w, moves).log + B.ReadLog(ids))
    decreases |ids|
  {
    if ids == [] {
      longer := moves;
    } else {
      var last := |ids| - 1;
      longer := SampleMany(w, moves, ids[..last]);
      longer := MoveOn(w, longer, Sample(ids[last]));
      B.ReadLogConcat(ids[..last], [ids[last]]);
      assert ids == ids[..last] + [ids[last]];
    }
  }

  /** Every failed enter that the benchmarker allows happens in some run; when unwinding did not reach
      the first program, that one is still running. */
  lemma FailedRun(n: nat, k: nat, m: nat, leaving: nat -> B.Outcome) returns (moves: seq<Move>)
    requires m <= k < n
    ensures Fresh(NewWorld(n)) && CanRun(NewWorld(n), moves)
    ensures After(NewWorld(n), moves).log == FailedLog(k, m, leaving)
    ensures |After(NewWorld(n), moves).managed| == n
    ensures m < k ==> StillRunning(After(NewWorld(n), moves).managed[0])
  {
    moves := EnterMany(n, k);
    moves := EnterOne(NewWorld(n), moves, k, false);
    moves := LeaveMany(NewWorld(n), moves, k, m, leaving);
  }

  /** Every complete use happens in some run: any samples, and any outcomes of the exits. */
  lemma FullRun(n: nat, ids: seq<nat>, leaving: nat -> B.Outcome) returns (moves: seq<Move>)
    requires forall i | 0 <= i < |ids| :: ids[i] < n
    ensures Fresh(NewWorld(n)) && CanRun(NewWorld(n), moves)
    ensures After(NewWorld(n), moves).log == FullLog(n, ids, leaving)
  {
    moves := EnterMany(n, n);
    moves := SampleMany(NewWorld(n), moves, ids);
    moves := LeaveMany(NewWorld(n), moves, n, n, leaving);
  }
}
