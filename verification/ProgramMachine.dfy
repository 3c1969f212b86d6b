/** The supervision of one child process (`Program`), as a step machine.

    An atomic step is the code that runs between two `await`s; the remaining steps belong to the
    environment: the child exits, its output pipe reaches end of file, the clock advances. All
    times and durations are integers in microseconds. */
module ProgramMachine {
  import opened Options

  const SECOND := 1_000_000
  const DEFAULT_TERM_TIMEOUT := 10 * SECOND

  /** The child as the event loop has observed it; `Exited` carries the return code. */
  datatype Child = Absent | Live | Exited(code: int)

  /** The output pipe; at end of file the collected bytes decode to a text, or are not UTF-8. */
  datatype Pipe = Open | Eof(text: Option<string>)

  /** `process_end`: unset, a coroutine not yet awaited, one being awaited, or one that was
      awaited to its end and is still stored. */
  datatype Ending = NoEnding | Fresh | Suspended | Spent

  datatype Stop = Cancelled | DeadAtStart | GroupGone | GaveUp

  /** `send_signals_task`, with the point it is suspended at. */
  datatype Task =
    | NoTask
    | Created(timeout: int, termTimeout: int)
    | BeforeTerm(until: int, termTimeout: int)
    | BeforeKill(until: int)
    | BeforeGiveUp(until: int)
    | Done(why: Stop)

  datatype Signal = SIGTERM | SIGKILL
  datatype Sent = Sent(signal: Signal, at: int)

  /** The `wait` that created the escalation task. */
  datatype Ask = Ask(at: int, timeout: int, termTimeout: int)

  /** The four ways a caller can be suspended: in `wait`, in `kill`, in the `kill` of `__aexit__`,
      and in the branch of `__aexit__` for a process that died. */
  datatype Call = Wait | Kill | Leave | LeaveDied
  datatype Caller = Outside | Idle | In(call: Call) | Left

  datatype Error =
    | SpawnFailed
    | Refused
    | ClosedWith(code: int)
    | NotUtf8
    | Reused
    | Died
  datatype Result = NoResult | Returned | Raised(error: Error)

  /** The fields of a `Program` (`child` to `output`), the loop around it (`caller`, `pipe`,
      `now`), and a record of what happened (`result` to `completed`). `settled` is the time of
      the escalation's last move, or of the call when there is no escalation. */
  datatype State = State(
    child: Child,
    ending: Ending,
    task: Task,
    cancelling: bool,
    sigkillSent: bool,
    output: string,
    caller: Caller,
    pipe: Pipe,
    now: int,
    result: Result,
    tasksCreated: nat,
    asked: Option<Ask>,
    signals: seq<Sent>,
    settled: int,
    completed: bool)

  datatype Event =
    | Spawn(spawned: bool)
    | WaitCall(timeout: int, termTimeout: int)
    | KillCall(term: int)
    | ExitCall
    | TaskRuns(groupExists: bool)
    | CommunicateEnds
    | ChildExits(code: int)
    | PipeCloses(text: Option<string>)
    | Tick(elapsed: nat)

  function Start(now: int): State {
    State(Absent, NoEnding, NoTask, false, false, "", Outside, Open, now, NoResult, 0, None, [], now, false)
  }

  function Max0(d: int): int {
    if d < 0 then 0 else d
  }

  /** A task for which `done()` is false. */
  predicate Pending(t: Task) {
    !t.NoTask? && !t.Done?
  }

  /** The escalation task is in the loop's ready queue. */
  predicate CanTaskRun(s: State) {
    && Pending(s.task)
    && (s.cancelling || s.task.Created? || s.task.until <= s.now)
  }

  /** `process.communicate()` needs both the end of file and the return code. */
  predicate CanCommunicateEnd(s: State) {
    s.caller.In? && s.ending.Suspended? && s.child.Exited? && s.pipe.Eof?
  }

  /** Sequential use: one enter, then calls one at a time, then one exit. */
  predicate Enabled(s: State, e: Event) {
    match e
    case Spawn(_) => s.caller.Outside?
    case WaitCall(_, _) => s.caller.Idle?
    case KillCall(_) => s.caller.Idle?
    case ExitCall => s.caller.Idle?
    case TaskRuns(_) => CanTaskRun(s)
    case CommunicateEnds => CanCommunicateEnd(s)
    case ChildExits(_) => s.child.Live?
    case PipeCloses(_) => s.pipe.Open? && !s.caller.Outside?
    case Tick(elapsed) => 0 < elapsed
  }

  /** The calls that can suspend. */
  predicate IsCall(e: Event) {
    e.WaitCall? || e.KillCall? || e.ExitCall?
  }

  function Return(s: State, call: Call, r: Result): State {
    s.(caller := if call.Leave? || call.LeaveDied? then Left else Idle, result := r)
  }

  /** `wait` up to its `await`; `kill` and `__aexit__` reach it with timeout 0. */
  function BeginWait(s: State, call: Call, timeout: int, termTimeout: int): State {
    var s := if s.child.Live? then
               s.(task := Created(timeout, termTimeout), cancelling := false,
               tasksCreated := s.tasksCreated + 1, asked := Some(Ask(s.now, timeout, termTimeout)))
             else s;
    match s.ending
    case NoEnding => Return(s, call, Returned)
    case Fresh => s.(ending := Suspended, caller := In(call), settled := s.now)
    case Suspended => Return(s, call, Raised(Reused))
    case Spent => Return(s, call, Raised(Reused))
  }

  function BeginExit(s: State): State {
    if s.ending.NoEnding? then Return(s, Leave, Returned)
    else if s.child.Live? then BeginWait(s, Leave, 0, DEFAULT_TERM_TIMEOUT)
    else if s.ending.Fresh? then s.(ending := Suspended, caller := In(LeaveDied), settled := s.now)
    else Return(s, LeaveDied, Raised(Reused))
  }

  function SendTerm(s: State, termTimeout: int, groupExists: bool): State {
    var s := s.(signals := s.signals + [Sent(SIGTERM, s.now)]);
    if groupExists then s.(task := BeforeKill(s.now + Max0(termTimeout)))
    else s.(task := Done(GroupGone), settled := s.now)
  }

  function SendKill(s: State, groupExists: bool): State {
    var s := s.(sigkillSent := true, signals := s.signals + [Sent(SIGKILL, s.now)], settled := s.now);
    if groupExists then s.(task := BeforeGiveUp(s.now + SECOND)) else s.(task := Done(GroupGone))
  }

  /** One resumption of `send_kill_signals`. */
  function RunTask(s: State, groupExists: bool): State {
    if s.cancelling then s.(task := Done(Cancelled)) else
    match s.task
    case NoTask => s
    case Created(timeout, termTimeout) =>
      if !s.child.Live? then s.(task := Done(DeadAtStart), settled := s.now)
      else if timeout != 0 then s.(task := BeforeTerm(s.now + Max0(timeout), termTimeout))
      else SendTerm(s, termTimeout, groupExists)
    case BeforeTerm(_, termTimeout) => SendTerm(s, termTimeout, groupExists)
    case BeforeKill(_) => SendKill(s, groupExists)
    case BeforeGiveUp(_) => s.(task := Done(GaveUp), settled := s.now)
    case Done(_) => s
  }

  function Verdict(code: int, sigkillSent: bool): Result {
    if code == 0 then Returned else if sigkillSent then Raised(Refused) else Raised(ClosedWith(code))
  }

  /** `kill` drops a `ProgramError`, and only that. */
  function Outcome(call: Call, verdict: Result): Result {
    if call.Wait? then verdict else Returned
  }

  /** The inner `communicate` from its `await` to its end, and then the caller up to its return. */
  function EndCommunicate(s: State): State
    requires CanCommunicateEnd(s)
  {
    var call := s.caller.call;
    var s := s.(completed := true, cancelling := s.cancelling || Pending(s.task));
    match s.pipe.text
    case None => Return(s.(ending := Spent), call, Raised(NotUtf8))
    case Some(text) =>
      var s := s.(output := text);
      if call.LeaveDied? then Return(s.(ending := Spent), call, Raised(Died))
      else Return(s.(ending := NoEnding), call, Outcome(call, Verdict(s.child.code, s.sigkillSent)))
  }

  function Step(s: State, e: Event): State
    requires Enabled(s, e)
  {
    match e
    case Spawn(spawned) =>
      if spawned then s.(child := Live, ending := Fresh, caller := Idle, result := Returned)
      else s.(caller := Left, result := Raised(SpawnFailed))
    case WaitCall(timeout, termTimeout) => BeginWait(s, Wait, timeout, termTimeout)
    case KillCall(term) => BeginWait(s, Kill, 0, term)
    case ExitCall => BeginExit(s)
    case TaskRuns(groupExists) => RunTask(s, groupExists)
    case CommunicateEnds => EndCommunicate(s)
    case ChildExits(code) => s.(child := Exited(code))
    case PipeCloses(text) => s.(pipe := Eof(text))
    case Tick(elapsed) => s.(now := s.now + elapsed)
  }

  predicate Legal(s: State, es: seq<Event>)
    decreases |es|
  {
    es == [] || (Enabled(s, es[0]) && Legal(Step(s, es[0]), es[1..]))
  }

  function Exec(s: State, es: seq<Event>): State
    requires Legal(s, es)
    decreases |es|
  {
    if es == [] then s else Exec(Step(s, es[0]), es[1..])
  }

  predicate Running(s: State) {
    s.child.Live?
  }

  lemma {:induction false} ExecConcat(s: State, a: seq<Event>, b: seq<Event>)
    requires Legal(s, a + b)
    ensures Legal(s, a) && Legal(Exec(s, a), b) && Exec(s, a + b) == Exec(Exec(s, a), b)
    decreases |a|
  {
    if a == [] {
      assert a + b == b;
    } else {
      assert (a + b)[0] == a[0] && (a + b)[1..] == a[1..] + b;
      ExecConcat(Step(s, a[0]), a[1..], b);
    }
  }
}
