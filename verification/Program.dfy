/** `Program` as an object whose methods assign its fields. Each method is the code between two
    `await`s and is proved to be one step of `ProgramMachine`. */
module SupervisedProgram {
  import opened Options
  import opened ProgramMachine

  class Program {
    var process: Child
    var processEnd: Ending
    var sendSignalsTask: Task
    var cancelRequested: bool
    var sigkillSent: bool
    var output: string

    // the event loop around the object
    var caller: Caller
    var pipe: Pipe
    var now: int
    var result: Result

    // what happened so far
    ghost var tasksCreated: nat
    ghost var asked: Option<Ask>
    ghost var signals: seq<Sent>
    ghost var settled: int
    ghost var completed: bool

    ghost function View(): State
      reads this
    {
      State(process, processEnd, sendSignalsTask, cancelRequested, sigkillSent, output,
            caller, pipe, now, result, tasksCreated, asked, signals, settled, completed)
    }

    constructor (start: int)
      ensures View() == Start(start)
    {
      process, processEnd, sendSignalsTask := Absent, NoEnding, NoTask;
      cancelRequested, sigkillSent, output := false, false, "";
      caller, pipe, now, result := Outside, Open, start, NoResult;
      tasksCreated, asked, signals, settled, completed := 0, None, [], start, false;
    }

    predicate IsRunning()
      reads this
    {
      process.Live?
    }

    method Aenter(spawned: bool)
      requires Enabled(View(), Spawn(spawned))
      modifies this
      ensures View() == Step(old(View()), Spawn(spawned))
    {
      if spawned {
        process := Live;
        processEnd := Fresh;
        caller, result := Idle, Returned;
      } else {
        caller, result := Left, Raised(SpawnFailed);
      }
    }

    /** `send_kill_signals` from the point it is suspended at to its next `await`, its end, or the
        cancellation thrown into it. */
    method SendKillSignals(groupExists: bool)
      requires Enabled(View(), TaskRuns(groupExists))
      modifies this
      ensures View() == Step(old(View()), TaskRuns(groupExists))
    {
      if cancelRequested {
        sendSignalsTask := Done(Cancelled);
        return;
      }
      match sendSignalsTask {
        case Created(timeout, termTimeout) =>
          if !IsRunning() {
            sendSignalsTask, settled := Done(DeadAtStart), now;
          } else if timeout != 0 {
            sendSignalsTask := BeforeTerm(now + Max0(timeout), termTimeout);
          } else {
            Terminate(termTimeout, groupExists);
          }
        case BeforeTerm(_, termTimeout) =>
          Terminate(termTimeout, groupExists);
        case BeforeKill(_) =>
          sigkillSent := true;
          signals := signals + [Sent(SIGKILL, now)];
          settled := now;
          sendSignalsTask := if groupExists then BeforeGiveUp(now + SECOND) else Done(GroupGone);
        case BeforeGiveUp(_) =>
          sendSignalsTask, settled := Done(GaveUp), now;
      }
    }

    method Terminate(termTimeout: int, groupExists: bool)
      modifies this
      ensures View() == SendTerm(old(View()), termTimeout, groupExists)
    {
      signals := signals + [Sent(SIGTERM, now)];
      if groupExists {
        sendSignalsTask := BeforeKill(now + Max0(termTimeout));
      } else {
        sendSignalsTask, settled := Done(GroupGone), now;
      }
    }

    /** `wait` up to its `await`, on behalf of the given caller. */
    method Wait(call: Call, timeout: int, termTimeout: int)
      modifies this
      ensures View() == BeginWait(old(View()), call, timeout, termTimeout)
    {
      if IsRunning() {
        sendSignalsTask, cancelRequested := Created(timeout, termTimeout), false;
        tasksCreated, asked := tasksCreated + 1, Some(Ask(now, timeout, termTimeout));
      }
      match processEnd {
        case NoEnding => Resume(call, Returned);
        case Fresh => Suspend(call);
        case _ => Resume(call, Raised(Reused));
      }
    }

    method Kill(timeout: int := DEFAULT_TERM_TIMEOUT)
      requires Enabled(View(), KillCall(timeout))
      modifies this
      ensures View() == Step(old(View()), KillCall(timeout))
    {
      Wait(ProgramMachine.Kill, 0, timeout);
    }

    method Aexit()
      requires Enabled(View(), ExitCall)
      modifies this
      ensures View() == Step(old(View()), ExitCall)
    {
      if !processEnd.NoEnding? {
        if !IsRunning() {
          if processEnd.Fresh? {
            Suspend(LeaveDied);
          } else {
            Resume(LeaveDied, Raised(Reused));
          }
        } else {
          Wait(Leave, 0, DEFAULT_TERM_TIMEOUT);
        }
      } else {
        Resume(Leave, Returned);
      }
    }

    /** The inner `communicate` from its `await`, and then the suspended caller to its end. */
    method Communicate()
      requires Enabled(View(), CommunicateEnds)
      modifies this
      ensures View() == Step(old(View()), CommunicateEnds)
    {
      var call := caller.call;
      completed := true;
      if Pending(sendSignalsTask) {
        cancelRequested := true;
      }
      if pipe.text.None? {
        processEnd := Spent;
        Resume(call, Raised(NotUtf8));
        return;
      }
      output := pipe.text.value;
      if call.LeaveDied? {
        processEnd := Spent;
        Resume(call, Raised(Died));
        return;
      }
      processEnd := NoEnding;
      if process.code != 0 && call.Wait? {
        Resume(call, Raised(if sigkillSent then Refused else ClosedWith(process.code)));
      } else {
        Resume(call, Returned);
      }
    }

    method Suspend(call: Call)
      modifies this
      ensures View() == old(View()).(ending := Suspended, caller := In(call), settled := old(now))
    {
      processEnd, caller, settled := Suspended, In(call), now;
    }

    method Resume(call: Call, r: Result)
      modifies this
      ensures View() == Return(old(View()), call, r)
    {
      caller, result := if call.Leave? || call.LeaveDied? then Left else Idle, r;
    }

    /** The steps the program does not take itself. */
    method Observe(e: Event)
      requires e.ChildExits? || e.PipeCloses? || e.Tick?
      requires Enabled(View(), e)
      modifies this
      ensures View() == Step(old(View()), e)
    {
      match e {
        case ChildExits(code) => process := Exited(code);
        case PipeCloses(text) => pipe := Eof(text);
        case Tick(elapsed) => now := now + elapsed;
      }
    }

    /** One step of the event loop. */
    method Dispatch(e: Event)
      requires Enabled(View(), e)
      modifies this
      ensures View() == Step(old(View()), e)
    {
      match e {
        case Spawn(spawned) => Aenter(spawned);
        case WaitCall(timeout, termTimeout) => Wait(ProgramMachine.Wait, timeout, termTimeout);
        case KillCall(term) => Kill(term);
        case ExitCall => Aexit();
        case TaskRuns(groupExists) => SendKillSignals(groupExists);
        case CommunicateEnds => Communicate();
        case _ => Observe(e);
      }
    }

    /** The event loop: whatever it interleaves is a run of the machine. */
    method Interleave(es: seq<Event>)
      requires Legal(View(), es)
      modifies this
      ensures View() == Exec(old(View()), es)
    {
      for i := 0 to |es|
        invariant Legal(View(), es[i..])
        invariant Exec(View(), es[i..]) == Exec(old(View()), es)
      {
        assert es[i..][1..] == es[i + 1..];
        Dispatch(es[i]);
      }
    }
  }
}
