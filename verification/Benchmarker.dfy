/** `Benchmarker`: programs entered in order and exited in reverse, around a sampling task that the
    event loop may run whenever the benchmarker is suspended. */
module Benchmarking {
  import opened Cgroups

  /** What awaiting a program's `__aenter__` or `__aexit__` gives; programs are known by position. */
  datatype Outcome = Fine | Fails(error: string)

  datatype Event =
    | Entering(id: nat)
    | Entered(id: nat)
    | EnterFailed(id: nat)
    | Exiting(id: nat)
    | Left(id: nat, outcome: Outcome)
    | Read(id: nat)

  datatype Result = Returned | Raised(error: string)

  /** The sampling task: not created, created but not started, awaiting a program's cgroup, in the
      sleep between polls, or ended. */
  datatype Task = NoTask | Scheduled | Polling(index: nat) | Sleeping | Ended(how: Ending)
  datatype Ending = WasCancelled | Broke(error: string) | RanOut

  /** What an awaited `get_cgroup` and the reads after it give: a reading, an exception that `poll`
      does not catch, or a cancellation that comes from the program's own cgroup task. */
  datatype Wake = Reads(reading: Reading) | Breaks(error: string) | Lost

  /** What the benchmarker awaits of its programs: the enter of the `id`-th, and the exits by position. */
  datatype Await = EnterOf(id: nat) | ExitAt(position: nat)

  // ---- logs ----

  /** Programs 0 to k-1 entered, in order. */
  function EnterLog(k: nat): seq<Event> {
    if k == 0 then [] else EnterLog(k - 1) + [Entering(k - 1), Entered(k - 1)]
  }

  /** k-1 down to 0. */
  function Descending(k: nat): (ids: seq<nat>)
    ensures |ids| == k && forall j | 0 <= j < k :: ids[j] == k - 1 - j
  {
    if k == 0 then [] else [k - 1] + Descending(k - 1)
  }

  /** The first `j` exits of the programs `ids`; the `i`-th exit has the `i`-th outcome. */
  function ExitsOf(ids: seq<nat>, j: nat, outcomes: nat -> Outcome): seq<Event>
    requires j <= |ids|
  {
    if j == 0 then []
    else ExitsOf(ids, j - 1, outcomes) + [Exiting(ids[j - 1]), Left(ids[j - 1], outcomes(j - 1))]
  }

  function ReadLog(readIds: seq<nat>): seq<Event> {
    seq(|readIds|, i requires 0 <= i < |readIds| => Read(readIds[i]))
  }

  /** The errors of the first `j` exits, in exit order. */
  function ErrorsOf(j: nat, outcomes: nat -> Outcome): seq<string> {
    if j == 0 then []
    else ErrorsOf(j - 1, outcomes) + if outcomes(j - 1).Fails? then [outcomes(j - 1).error] else []
  }

  function Join(parts: seq<string>): string {
    if parts == [] then "" else if |parts| == 1 then parts[0] else parts[0] + "; " + Join(parts[1..])
  }

  /** The first program that cannot be entered, or `n`. */
  ghost predicate FirstFailure(entering: nat -> Outcome, n: nat, k: nat) {
    k <= n && (forall i: nat | i < k :: entering(i).Fine?) && (k < n ==> entering(k).Fails?)
  }

  /** Unwinding over `n` programs stops after `m` exits: at the first that raises, or when all are done. */
  ghost predicate StopsAfter(outcomes: nat -> Outcome, n: nat, m: nat) {
    && m <= n
    && (forall j: nat | j < n && j + 1 < m :: outcomes(j).Fine?)
    && (m < n ==> 0 < m && outcomes(m - 1).Fails?)
  }

  /** What a failed enter raises: the original error, unless the unwinding raised. */
  function UnwindError(outcomes: nat -> Outcome, m: nat, original: string): Result {
    if 0 < m && outcomes(m - 1).Fails? then Raised(outcomes(m - 1).error) else Raised(original)
  }

  /** The program after `id`, or the first one again. */
  function After(id: nat, programs: nat): nat {
    if id + 1 >= programs then 0 else id + 1
  }

  /** The program whose turn it is. */
  function Following(readIds: seq<nat>, programs: nat): nat {
    if readIds == [] then 0 else After(readIds[|readIds| - 1], programs)
  }

  /** The programs are read in turn, again and again, from the first one on. */
  predicate InTurn(readIds: seq<nat>, programs: nat) {
    readIds != [] ==>
      var before, last := readIds[..|readIds| - 1], readIds[|readIds| - 1];
      InTurn(before, programs) && last < programs && last == Following(before, programs)
  }

  lemma NextTurn(readIds: seq<nat>, programs: nat, id: nat)
    requires InTurn(readIds, programs) && id < programs && id == Following(readIds, programs)
    ensures InTurn(readIds + [id], programs)
    ensures Following(readIds + [id], programs) == After(id, programs)
  {
    assert (readIds + [id])[..|readIds|] == readIds;
  }

  /** The next poll, or the end of the loop of `_run`. */
  function NextPoll(running: bool, programs: nat): Task {
    if !running then Ended(RanOut) else if 0 < programs then Polling(0) else Sleeping
  }

  /** Where the task is suspended after one resumption. */
  function NextTask(t: Task, cancelled: bool, running: bool, programs: nat, wake: Wake): Task {
    if cancelled then Ended(WasCancelled) else
    match t
    case Scheduled => NextPoll(running, programs)
    case Sleeping => NextPoll(running, programs)
    case Polling(i) => (
      match wake
      case Breaks(error) => Ended(Broke(error))
      case Lost => Ended(WasCancelled)
      case Reads(_) => if i + 1 < programs then Polling(i + 1) else Sleeping)
    case _ => t
  }

  /** The samples of all programs once `name` has been polled. */
  ghost function AfterWake(history: map<string, seq<Sample>>, name: string, wake: Wake): map<string, seq<Sample>> {
    if wake.Reads? && name in history then history[name := Polled(history[name], wake.reading)] else history
  }

  class Benchmarker {
    /** The names of the programs, the keys of a dictionary. */
    const programs: seq<string>
    const backend: CgroupsBackend
    var running: bool
    var task: Task
    var cancelRequested: bool
    /** Positions of the programs to exit; the last entered comes first. */
    var runningPrograms: seq<nat>
    ghost var log: seq<Event>
    ghost var readIds: seq<nat>

    /** What holds between the calls, on a first use and on any later one. */
    ghost predicate Valid()
      reads this, backend
    {
      && backend.Valid() && backend.names <= programs
      && Distinct(programs)
      && (forall i | 0 <= i < |runningPrograms| :: runningPrograms[i] < |programs|)
      && InTurn(readIds, |programs|)
      && (Runnable() ==> running && !cancelRequested && Ready())
    }

    /** Never used. */
    ghost predicate Fresh()
      reads this, backend
    {
      && Valid() && !running && task.NoTask?
      && backend.names == [] && runningPrograms == [] && log == [] && readIds == []
    }

    /** All programs are known to the backend, and the task is at the program whose turn it is; it
        sleeps only when all have had their turn. */
    ghost predicate Ready()
      reads this, backend
    {
      && backend.Valid() && |backend.names| == |programs|
      && InTurn(readIds, |programs|)
      && (task.Scheduled? ==> readIds == [])
      && (task.Polling? ==> task.index < |programs| && task.index == Following(readIds, |programs|))
      && (task.Sleeping? ==> |programs| == 0 || Following(readIds, |programs|) == 0)
    }

    /** Since `before` the log holds nothing but reads. */
    ghost predicate OnlyReadsSince(before: seq<Event>)
      reads this
    {
      log == before + ReadLog(readIds)
    }

    predicate Runnable()
      reads this
    {
      task.Scheduled? || task.Polling? || task.Sleeping?
    }

    constructor (programs: seq<string>)
      requires Distinct(programs)
      ensures Fresh() && this.programs == programs && fresh(backend)
    {
      this.programs := programs;
      backend := new CgroupsBackend();
      running, task, cancelRequested, runningPrograms := false, NoTask, false, [];
      log, readIds := [], [];
    }

    /** One resumption of `_run`, from the `await` it is suspended at to the next one. */
    method TaskStep(wake: Wake)
      requires Ready() && Runnable()
      modifies this`task, this`log, this`readIds, backend
      ensures Ready() && backend.names == old(backend.names)
      ensures task == NextTask(old(task), cancelRequested, running, |programs|, wake)
      ensures var ids := if old(task).Polling? && !cancelRequested then [old(task).index] else [];
              readIds == old(readIds) + ids && log == old(log) + ReadLog(ids)
      ensures old(task).Polling? && !cancelRequested ==>
                backend.history == AfterWake(old(backend.history), old(backend.names[task.index]), wake)
      ensures !old(task).Polling? || cancelRequested ==> backend.history == old(backend.history)
    {
      if cancelRequested {
        task := Ended(WasCancelled);
        return;
      }
      match task {
        case Scheduled => StartPoll();
        case Sleeping => StartPoll();
        case Polling(_) => ReadNext(wake);
      }
    }

    /** The read of the program whose turn it is. */
    method ReadNext(wake: Wake)
      requires Ready() && task.Polling?
      modifies this`task, this`log, this`readIds, backend
      ensures Ready() && backend.names == old(backend.names)
      ensures task == NextTask(old(task), false, true, |programs|, wake)
      ensures readIds == old(readIds) + [old(task).index] && log == old(log) + ReadLog([old(task).index])
      ensures backend.history == AfterWake(old(backend.history), old(backend.names[task.index]), wake)
    {
      NextTurn(readIds, |programs|, task.index);
      LogRead(task.index);
      Record(wake);
    }

    method LogRead(id: nat)
      modifies this`log, this`readIds
      ensures log == old(log) + ReadLog([id]) && readIds == old(readIds) + [id]
    {
      log, readIds := log + ReadLog([id]), readIds + [id];
    }

    /** The body of the loop of `poll` once its reads are made. */
    method Record(wake: Wake)
      requires backend.Valid() && task.Polling? && task.index < |backend.names|
      modifies this`task, backend
      ensures backend.Valid() && backend.names == old(backend.names)
      ensures task == NextTask(old(task), false, true, |backend.names|, wake)
      ensures backend.history == AfterWake(old(backend.history), old(backend.names[task.index]), wake)
    {
      assert backend.names[task.index] in backend.records;
      match wake {
        case Breaks(error) => task := Ended(Broke(error));
        case Lost => task := Ended(WasCancelled);
        case Reads(reading) =>
          backend.PollOne(task.index, reading);
          task := if task.index + 1 < |backend.names| then Polling(task.index + 1) else Sleeping;
      }
    }

    method StartPoll()
      modifies this`task
      ensures task == NextPoll(running, |backend.names|)
    {
      task := if !running then Ended(RanOut) else if |backend.names| > 0 then Polling(0) else Sleeping;
    }

    /** One await: before it ends, the loop gives the task as many turns as it likes. */
    method Turns(wakes: seq<Wake>) returns (ghost seen: seq<nat>)
      requires Runnable() ==> Ready()
      modifies this`task, this`log, this`readIds, backend
      ensures readIds == old(readIds) + seen && log == old(log) + ReadLog(seen)
      ensures old(Runnable()) ==> Ready() && backend.names == old(backend.names)
      ensures !old(Runnable()) ==> unchanged(this) && unchanged(backend)
    {
      seen := [];
      if !Runnable() {
        return;
      }
      for i := 0 to |wakes|
        invariant readIds == old(readIds) + seen && log == old(log) + ReadLog(seen)
        invariant Ready() && backend.names == old(backend.names)
      {
        ghost var more := Turn(wakes[i]);
        ReadLogConcat(seen, more);
        seen := seen + more;
      }
    }

    method Turn(wake: Wake) returns (ghost seen: seq<nat>)
      requires Ready()
      modifies this`task, this`log, this`readIds, backend
      ensures Ready() && backend.names == old(backend.names)
      ensures readIds == old(readIds) + seen && log == old(log) + ReadLog(seen)
    {
      seen := [];
      if Runnable() {
        seen := if task.Polling? && !cancelRequested then [task.index] else [];
        TaskStep(wake);
      }
    }

    /** The user's code: any number of turns. */
    method Suspend(wakes: seq<Wake>, ghost before: seq<Event>)
      requires Valid() && OnlyReadsSince(before)
      modifies this`task, this`log, this`readIds, backend
      ensures Valid() && OnlyReadsSince(before) && old(readIds) <= readIds
      ensures !old(Runnable()) ==> task == old(task) && readIds == old(readIds)
    {
      ghost var seen := Turns(wakes);
      ReadLogConcat(old(readIds), seen);
    }

    /** `__aenter__`; the instance may have been used before, and then `runningPrograms` still holds
        the programs of its earlier uses. */
    method Enter(entering: nat -> Outcome, outcomes: nat -> Outcome, turns: Await -> seq<Wake>)
      returns (result: Result, ghost k: nat, ghost m: nat)
      requires Valid()
      modifies this, backend
      ensures Valid()
      ensures old(running) ==> result.Returned? && unchanged(this) && unchanged(backend)
      ensures !old(running) ==>
                && FirstFailure(entering, |programs|, k) && running
                && runningPrograms == Descending(k) + old(runningPrograms)
                && readIds == []
      ensures !old(running) && k == |programs| ==>
                && result.Returned? && task.Scheduled? && backend.names == programs
                && log == old(log) + EnterLog(k)
      ensures !old(running) && k < |programs| ==>
                && StopsAfter(outcomes, |runningPrograms|, m)
                && result == UnwindError(outcomes, m, entering(k).error)
                && log == old(log) + EnterLog(k) + [Entering(k), EnterFailed(k)] + ExitsOf(runningPrograms, m, outcomes)
                && task == old(task)
    {
      if running {
        return Returned, 0, 0;
      }
      result, k, m := EnterStopped(entering, outcomes, turns);
    }

    /** `__aenter__` of an instance that is not in use. */
    method EnterStopped(entering: nat -> Outcome, outcomes: nat -> Outcome, turns: Await -> seq<Wake>)
      returns (result: Result, ghost k: nat, ghost m: nat)
      requires Valid() && !running
      modifies this, backend
      ensures Valid() && running && readIds == []
      ensures FirstFailure(entering, |programs|, k)
      ensures runningPrograms == Descending(k) + old(runningPrograms)
      ensures k == |programs| ==>
                && result.Returned? && task.Scheduled? && backend.names == programs
                && log == old(log) + EnterLog(k)
      ensures k < |programs| ==>
                && StopsAfter(outcomes, |runningPrograms|, m)
                && result == UnwindError(outcomes, m, entering(k).error)
                && log == old(log) + EnterLog(k) + [Entering(k), EnterFailed(k)] + ExitsOf(runningPrograms, m, outcomes)
                && task == old(task)
    {
      running, readIds, m := true, [], 0;
      result, k := EnterAll(entering, turns);
      if result.Raised? {
        result, m := Unwind(outcomes, turns, result.error);
      } else {
        task, cancelRequested := Scheduled, false;
      }
    }

    /** The loop of `__aenter__`, up to its end or to the first program that cannot be entered. There is
        no task to take a turn while a program's enter is awaited. */
    method EnterAll(entering: nat -> Outcome, turns: Await -> seq<Wake>) returns (result: Result, ghost k: nat)
      requires backend.Valid() && backend.names <= programs && Distinct(programs)
      requires !Runnable()
      modifies this`runningPrograms, this`task, this`log, this`readIds, backend
      ensures task == old(task) && readIds == old(readIds)
      ensures FirstFailure(entering, |programs|, k)
      ensures runningPrograms == Descending(k) + old(runningPrograms)
      ensures backend.Valid() && backend.names <= programs && k <= |backend.names|
      ensures k == |programs| ==> result.Returned? && log == old(log) + EnterLog(k)
      ensures k < |programs| ==>
                && result == Raised(entering(k).error)
                && log == old(log) + EnterLog(k) + [Entering(k), EnterFailed(k)]
    {
      for i := 0 to |programs|
        invariant backend.Valid() && backend.names <= programs && i <= |backend.names|
        invariant runningPrograms == Descending(i) + old(runningPrograms)
        invariant task == old(task) && readIds == old(readIds)
        invariant log == old(log) + EnterLog(i)
        invariant forall j: nat | j < i :: entering(j).Fine?
      {
        var outcome := entering(i);
        AwaitEnter(i, outcome, turns);
        if outcome.Fails? {
          return Raised(outcome.error), i;
        }
      }
      return Returned, |programs|;
    }

    /** One enter; there is no task to take a turn while it is awaited. */
    method AwaitEnter(i: nat, outcome: Outcome, turns: Await -> seq<Wake>)
      requires backend.Valid() && backend.names <= programs && Distinct(programs) && !Runnable()
      requires i < |programs| && i <= |backend.names|
      modifies this`runningPrograms, this`task, this`log, this`readIds, backend
      ensures task == old(task) && readIds == old(readIds)
      ensures backend.Valid() && backend.names <= programs && i <= |backend.names|
      ensures log == old(log) + [Entering(i), if outcome.Fine? then Entered(i) else EnterFailed(i)]
      ensures outcome.Fails? ==> runningPrograms == old(runningPrograms) && unchanged(backend)
      ensures outcome.Fine? ==> runningPrograms == [i] + old(runningPrograms) && i < |backend.names|
    {
      log := log + [Entering(i)];
      ghost var seen := Turns(turns(EnterOf(i)));
      if outcome.Fails? {
        log := log + [EnterFailed(i)];
        return;
      }
      log := log + [Entered(i)];
      Register(i);
    }

    /** What follows a successful enter. */
    method Register(i: nat)
      requires backend.Valid() && backend.names <= programs && Distinct(programs)
      requires i < |programs| && i <= |backend.names|
      modifies this`runningPrograms, backend
      ensures backend.Valid() && backend.names <= programs && i < |backend.names|
      ensures runningPrograms == [i] + old(runningPrograms)
    {
      runningPrograms := [i] + runningPrograms;
      KnownOrNext(programs, |backend.names|, i);
      backend.Add(programs[i]);
    }

    /** The `except` branch of `__aenter__`: the exits end at the first that raises. */
    method Unwind(outcomes: nat -> Outcome, turns: Await -> seq<Wake>, original: string)
      returns (result: Result, ghost m: nat)
      requires !Runnable()
      modifies this`task, this`log, this`readIds, backend
      ensures task == old(task) && readIds == old(readIds) && unchanged(backend)
      ensures StopsAfter(outcomes, |runningPrograms|, m) && result == UnwindError(outcomes, m, original)
      ensures log == old(log) + ExitsOf(runningPrograms, m, outcomes)
    {
      m := 0;
      for j := 0 to |runningPrograms|
        invariant m == j && log == old(log) + ExitsOf(runningPrograms, j, outcomes)
        invariant task == old(task) && readIds == old(readIds) && unchanged(backend)
        invariant forall i: nat | i < j :: outcomes(i).Fine?
      {
        AwaitExit(j, outcomes(j), turns);
        m := j + 1;
        if outcomes(j).Fails? {
          return Raised(outcomes(j).error), m;
        }
      }
      result := Raised(original);
    }

    /** One exit, of the program at that position; there is no task, or not any more, to take a turn
        while it is awaited. */
    method AwaitExit(position: nat, outcome: Outcome, turns: Await -> seq<Wake>)
      requires position < |runningPrograms| && !Runnable()
      modifies this`task, this`log, this`readIds, backend
      ensures log == old(log) + [Exiting(runningPrograms[position]), Left(runningPrograms[position], outcome)]
      ensures task == old(task) && readIds == old(readIds) && unchanged(backend)
    {
      var id := runningPrograms[position];
      log := log + [Exiting(id)];
      ghost var seen := Turns(turns(ExitAt(position)));
      log := log + [Left(id, outcome)];
    }

    /** `__aexit__`: also after an enter that failed, which leaves the instance in use. */
    method Exit(outcomes: nat -> Outcome, turns: Await -> seq<Wake>, wake: Wake) returns (result: Result)
      requires Valid()
      modifies this, backend
      ensures Valid() && !running && !Runnable()
      ensures !old(running) ==> result.Returned? && unchanged(this) && unchanged(backend)
      ensures old(running) ==>
                && runningPrograms == old(runningPrograms)
                && log == old(log) + ExitsOf(runningPrograms, |runningPrograms|, outcomes)
                && readIds == old(readIds)
                && task == (if old(Runnable()) then Ended(WasCancelled) else old(task))
                && backend.history == old(backend.history) && backend.names == old(backend.names)
                && result == ExitResult(ErrorsOf(|runningPrograms|, outcomes), task)
    {
      if !running {
        return Returned;
      }
      running := false;
      Cancel(wake);
      var errors := ExitAll(outcomes, turns);
      result := if errors != [] then Raised(Join(errors))
                else if task.Ended? && task.how.Broke? then Raised(task.how.error)
                else Returned;
    }

    /** `self.task.cancel()`, and the await of the task that suppresses the cancellation. */
    method Cancel(wake: Wake)
      requires backend.Valid() && (Runnable() ==> Ready() && !cancelRequested)
      modifies this`task, this`cancelRequested, this`log, this`readIds, backend
      ensures log == old(log) && readIds == old(readIds)
      ensures task == (if old(Runnable()) then Ended(WasCancelled) else old(task))
      ensures backend.Valid() && backend.history == old(backend.history) && backend.names == old(backend.names)
    {
      if Runnable() {
        cancelRequested := true;
        TaskStep(wake);
      }
    }

    /** The `finally` branch of `__aexit__`: every exit is made, and the errors are kept. */
    method ExitAll(outcomes: nat -> Outcome, turns: Await -> seq<Wake>) returns (errors: seq<string>)
      requires !Runnable()
      modifies this`task, this`log, this`readIds, backend
      ensures task == old(task) && readIds == old(readIds) && unchanged(backend)
      ensures log == old(log) + ExitsOf(runningPrograms, |runningPrograms|, outcomes)
      ensures errors == ErrorsOf(|runningPrograms|, outcomes)
    {
      errors := [];
      for j := 0 to |runningPrograms|
        invariant log == old(log) + ExitsOf(runningPrograms, j, outcomes)
        invariant errors == ErrorsOf(j, outcomes)
        invariant task == old(task) && readIds == old(readIds) && unchanged(backend)
      {
        AwaitExit(j, outcomes(j), turns);
        if outcomes(j).Fails? {
          errors := errors + [outcomes(j).error];
        }
      }
    }
  }

  /** The combined exit errors come before the task's own error. */
  function ExitResult(errors: seq<string>, task: Task): Result {
    if errors != [] then Raised(Join(errors))
    else if task.Ended? && task.how.Broke? then Raised(task.how.error)
    else Returned
  }

  /** A program that is entered is known to the backend already, or is the next one it gets to know. */
  lemma KnownOrNext(programs: seq<string>, known: nat, i: nat)
    requires i <= known <= |programs| && i < |programs| && Distinct(programs)
    ensures programs[i] in programs[..known] <==> i < known
    ensures i == known ==> programs[..known] + [programs[i]] == programs[..known + 1]
  {
  }

  lemma ReadLogConcat(ids: seq<nat>, more: seq<nat>)
    ensures ReadLog(ids + more) == ReadLog(ids) + ReadLog(more)
  {
  }
}
