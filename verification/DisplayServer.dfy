/** `DisplayServer` as an object, over a `Program` object. Each method is the code between two
    `await`s and is proved to be one step of `DisplayServerMachine`. */
module SupervisedDisplayServer {
  import opened ProgramMachine
  import opened DisplayServerMachine
  import opened SupervisedProgram

  class DisplayServer {
    const server: Program
    var phase: Phase
    var result: ServerResult

    ghost function View(): Server
      reads this, server
    {
      Server(server.View(), phase, result)
    }

    constructor (start: int)
      ensures View() == NewServer(start) && fresh(server)
    {
      server := new Program(start);
      phase, result := NotEntered, NoServerResult;
    }

    /** `__aenter__` to its end, or to its await of `kill` when no display has appeared. */
    method Aenter(spawned: bool, waited: nat, appeared: bool)
      requires ServerEnabled(View(), Enter(spawned, waited, appeared))
      modifies this, server
      ensures View() == ServerStep(old(View()), Enter(spawned, waited, appeared))
    {
      server.Aenter(spawned);
      server.now := server.now + waited;
      if !spawned {
        phase, result := Over, Failed(SpawnFailed);
      } else if appeared {
        phase, result := Up(server.now), Entered;
      } else {
        KillServer(Failing, NotAppeared);
      }
    }

    /** `__aexit__` to its first await. */
    method Aexit()
      requires ServerEnabled(View(), Exit)
      modifies this, server
      ensures View() == ServerStep(old(View()), Exit)
    {
      var sleepTime := phase.startTime + MIN_RUN_TIME - server.now;
      if sleepTime > 0 {
        phase := Settling(phase.startTime, server.now + sleepTime);
      } else {
        KillServer(Stopping(phase.startTime), Closed);
      }
    }

    /** `__aexit__` from the end of its sleep. */
    method AfterSleep()
      requires ServerEnabled(View(), SettlingEnds)
      modifies this, server
      ensures View() == ServerStep(old(View()), SettlingEnds)
    {
      KillServer(Stopping(phase.startTime), Closed);
    }

    /** The end of the server's `communicate`, and then whoever awaited it: user code, the failed
        `__aenter__`, or `__aexit__`. */
    method Communicate()
      requires ServerEnabled(View(), Inner(CommunicateEnds))
      modifies this, server
      ensures View() == ServerStep(old(View()), Inner(CommunicateEnds))
    {
      server.Communicate();
      match phase {
        case Failing => Conclude(NotAppeared);
        case Stopping(_) => Conclude(Closed);
        case _ =>
      }
    }

    /** A step of the program inside, and then the end of what awaits it, if it has ended. */
    method Inside(event: Event)
      requires ServerEnabled(View(), Inner(event))
      modifies this, server
      ensures View() == ServerStep(old(View()), Inner(event))
    {
      if event.CommunicateEnds? {
        Communicate();
        return;
      }
      server.Dispatch(event);
      match phase {
        case Failing => Conclude(NotAppeared);
        case Stopping(_) => Conclude(Closed);
        case _ =>
      }
    }

    /** The event loop: whatever it interleaves is a run of the machine. */
    method Interleave(es: seq<ServerEvent>)
      requires ServerLegal(View(), es)
      modifies this, server
      ensures View() == ServerExec(old(View()), es)
    {
      for i := 0 to |es|
        invariant ServerLegal(View(), es[i..])
        invariant ServerExec(View(), es[i..]) == ServerExec(old(View()), es)
      {
        assert es[i..][1..] == es[i + 1..];
        match es[i] {
          case Enter(spawned, waited, appeared) => Aenter(spawned, waited, appeared);
          case Exit => Aexit();
          case SettlingEnds => AfterSleep();
          case Inner(event) => Inside(event);
        }
      }
    }

    method KillServer(awaiting: Phase, whenReturned: ServerResult)
      requires server.caller.Idle?
      modifies this, server
      ensures View() == DisplayServerMachine.KillServer(old(View()), awaiting, whenReturned)
    {
      server.Kill();
      phase := awaiting;
      Conclude(whenReturned);
    }

    method Conclude(whenReturned: ServerResult)
      modifies this
      ensures View() == Finish(old(View()), whenReturned)
    {
      if !server.caller.In? {
        phase := Over;
        result := if server.result.Raised? then Failed(server.result.error) else whenReturned;
      }
    }
  }
}
