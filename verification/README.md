# Verified model of mir-ci

mir-ci starts Mir display servers and their clients, watches them, measures them and decides which
snaps have to be rebuilt. This project models the parts of it that have state, interleaving or
arithmetic, and proves what they promise. `dafny verify dfyconfig.toml` checks all of it.

Objects whose methods update fields are classes here, with the same fields. Where awaits interleave,
the code between two awaits is one step of a state machine: each method of the class is proved to be
exactly that step, and the properties are proved about every run of the machine. What the program
cannot decide (exits of children, end of pipes, the clock, failures of programs, answers of services,
events of a compositor) is an input, in every order and with every value. No proof relies on automatic
induction.

| file | what it models |
|---|---|
| `ProgramMachine.dfy`, `Program.dfy` | the supervision of one child process: `communicate()`, the escalation from SIGTERM to SIGKILL, `wait`, `kill` and the context manager |
| `ProgramSafety.dfy`, `ProgramTiming.dfy`, `ProgramResults.dfy`, `ProgramLiveness.dfy`, `ProgramGuarantee.dfy` | what holds in every interleaving, when signals are sent, what calls give, when they return and when that is guaranteed |
| `DisplayServerMachine.dfy`, `DisplayServer.dfy`, `DisplayServerLiveness.dfy`, `DisplayServerResults.dfy` | the server that is killed when its display does not appear and that runs for a minimum time |
| `Benchmarker.dfy`, `BenchmarkerRuns.dfy` | the stack of entered programs around a cancellable sampling task |
| `CgroupsBackend.dfy` | the accumulators of the samples and the report |
| `ResourceSafety.dfy` | the composition: what is left running by a benchmarker over programs and servers |
| `ScreencopyTracker.dfy`, `Damage.dfy` | the client side of wlr-screencopy-unstable-v1 and its damage accounting, related to sets of pixels |
| `WaylandHid.dfy`, `PointerPath.dfy` | the pointer keywords and the geometry of a walk |
| `Regex.dfy`, `MirVersion.dfy`, `SnapVersion.dfy` | a priority-ordered backtracking matcher, and the two version expressions over it |
| `RebuildLoop.dfy`, `RebuildMeaning.dfy` | the loop that requests builds, and its decision written out |
| `Assets.dfy` | the layered dictionary of robot files |
| `Prelude.dfy`, `Division.dfy` | an option type, and facts about sequences and quotients |

Some expectations do not hold of the code; each is answered by the exact condition under which it does.

- No signal after the observed exit of the child: a signal can follow exactly when the escalation is past
  its liveness assertion and not cancelled (`ProgramSafety.SignalsAfterTheExit`, with an example in
  `ProgramSafety.SignalsMayFollowTheExit`); the completion of `communicate()` ends all signals.
- `kill` returns: when no more is promised than that the child and its pipe end within one second of
  SIGKILL, that is guaranteed exactly when the child has exited with its pipe closed, or SIGKILL was
  reached or is due (`ProgramGuarantee.GuaranteedIffSure`, with an example in
  `ProgramLiveness.KillCanWaitForever`: the child is seen dead before the escalation starts, and a
  descendant keeps the pipe open). There `killpg` may fail for any reason, also on a group that lives on;
  when it is promised to fail only once the leader is gone, a closed pipe is enough. If the child and its
  pipe also end within one second of any other last move of the escalation, every call returns
  (`ProgramLiveness.EveryCallReturns`).
- A failed `Benchmarker.__aenter__` leaves nothing running: exactly when no unwinding exit but the last
  one raises (`ResourceSafety.NothingOutlivesAFailedEnter`).
- `Benchmarker.__aexit__` exits each program once: exactly on a first use of the instance
  (`BenchmarkerRuns.ExitedOnceIffFirstUse`).

The comparison of store versions allows for a missing store answer (`bin/process_snaps.py:408`), but
such an answer has already raised an exception in the filter before it (`bin/process_snaps.py:389`);
the model follows the code.

## Model

| member | source | states |
|---|---|---|
| ProgramSafety.EscalationDiscipline | mir-ci/mir_ci/program/program.py:69-90 | In every interleaving at most one escalation task is created; the signals of the whole life are a prefix of SIGTERM, SIGKILL; SIGTERM is no earlier than `timeout` after `wait`, SIGKILL no earlier than `term_timeout` after SIGTERM; `sigkill_sent` holds exactly when SIGKILL was reached |
| ProgramTiming.SignalsKeepTheirTimes | mir-ci/mir_ci/program/program.py:69-103 | Over every run after a call on a running child, read from the arguments of the call: SIGTERM is not sent before `timeout` (0 for `kill` and on leaving), SIGKILL not before `term_timeout` after that (10 seconds on leaving), and the escalation does not give up before one more second |
| ProgramTiming.SignalsAreOnTime | mir-ci/mir_ci/program/program.py:69-103 | In every run of a punctual loop both signals are sent exactly at these times, unless the escalation ended before |
| ProgramSafety.SilenceAfterCommunicate | mir-ci/mir_ci/program/program.py:135-139 | Once `communicate()` has completed, no continuation of any run sends a signal or creates a task, also when the task never ran, failed its liveness assertion or found the group gone |
| ProgramSafety.SignalsAfterTheExit | mir-ci/mir_ci/program/program.py:69-81 | From any reachable state with an exited child a signal can follow if and only if the escalation is waiting before SIGTERM or SIGKILL and has not been cancelled |
| ProgramSafety.SignalsCanFollow | mir-ci/mir_ci/program/program.py:69-90 | From any reachable state a further signal is possible if and only if the escalation is waiting uncancelled, or has been created or can still be created for a running or future child |
| ProgramResults.CallEndsWith | mir-ci/mir_ci/program/program.py:83-103 | What every call that ends gives, over whole runs: a `wait` raises "refused to terminate" exactly when the code is non-zero and SIGKILL was reached, "closed with exit code" exactly when it is non-zero otherwise; `kill` swallows both; leaving a process that died unnoticed is an error; undecodable output reaches the caller that awaits it, and every later one as a reused coroutine; after decodable output was collected every call returns in silence, also when the earlier one raised |
| ProgramResults.FailureIsReportedOnce | mir-ci/mir_ci/program/program.py:86-97 | When the child has failed, a `wait` returns in silence if and only if an earlier call has collected its output and that was UTF-8 |
| ProgramSafety.NothingRunsAfterLeaving | mir-ci/mir_ci/program/program.py:147-155 | However `__aexit__` or a failed `__aenter__` ends, the child is not running |
| ProgramSafety.InvExec | mir-ci/mir_ci/program/program.py:61-155 | The invariant over fields, deadlines, signals and suspended callers is kept by every run |
| ProgramSafety.InvStep | mir-ci/mir_ci/program/program.py:61-155 | Every atomic step keeps that invariant |
| ProgramLiveness.EveryCallReturns | mir-ci/mir_ci/program/program.py:69-103 | From every reachable state, `wait`, `kill` and `__aexit__` end within their timeouts and one second, in a bounded number of steps, with no child running and without "failed to kill", if the child and its pipe end within one second of the escalation's last move |
| ProgramLiveness.PromptStep | mir-ci/mir_ci/program/program.py:69-81 | Every step of a suspended call lowers the rank made of time left, escalation stage and pending events, and misses no deadline |
| ProgramLiveness.PromptRunIsBounded | mir-ci/mir_ci/program/program.py:69-103 | Runs of a suspended call are no longer than the rank |
| ProgramLiveness.NeverStuck | mir-ci/mir_ci/program/program.py:86-87 | A suspended call can always move on without the clock |
| ProgramGuarantee.GuaranteedIffSure | mir-ci/mir_ci/program/program.py:69-90 | When only little is promised: from every reachable suspended state the call is bounded in steps and time if and only if SIGKILL was sent, or is due because SIGTERM found the process group, or the pipe has closed and the child has ended; the last is not needed when a group is promised to be gone only with its leader. Otherwise some run outlasts any time |
| ProgramGuarantee.GuaranteedBeforeTheCall | mir-ci/mir_ci/program/program.py:83-103 | Before the call: `wait`, `kill` and leaving are guaranteed to return if and only if nothing is left to await, or the pipe has closed and, unless the leader is promised to be gone with its group, the child has exited |
| ProgramGuarantee.NeverGivesUp | mir-ci/mir_ci/program/program.py:78-81 | "failed to kill" is not raised while a call made in a reachable state is suspended, or by its last step, when the child and its pipe end within one second of SIGKILL |
| SupervisedProgram.Program.Interleave | mir-ci/mir_ci/program/program.py:61-155 | Whatever the event loop interleaves on the object is a run of the machine, so that all properties of runs hold of the object |
| SupervisedProgram.Program.Observe | mir-ci/mir_ci/program/program.py:61-62 | The exit, the closed pipe and the clock, as the object sees them |
| SupervisedProgram.Program.SendKillSignals | mir-ci/mir_ci/program/program.py:69-81 | One resumption of the escalation is exactly one task step of the machine |
| SupervisedProgram.Program.Wait | mir-ci/mir_ci/program/program.py:83-87 | `wait` up to its await |
| SupervisedProgram.Program.Kill | mir-ci/mir_ci/program/program.py:99-103 | `kill` up to its await is `wait` without a delay before SIGTERM |
| SupervisedProgram.Program.Aenter | mir-ci/mir_ci/program/program.py:124-145 | A spawned child with an unawaited `communicate()`, or nothing |
| SupervisedProgram.Program.Aexit | mir-ci/mir_ci/program/program.py:147-155 | The three branches of leaving |
| SupervisedProgram.Program.Communicate | mir-ci/mir_ci/program/program.py:86-97 | The end of `communicate()` and of the caller that awaits it, with the result it gets |
| DisplayServerMachine.NoServerLeftBehind | mir-ci/mir_ci/program/display_server.py:75-94 | After a failed enter or a finished exit, whatever raised, the server is not running |
| DisplayServerMachine.MinimumRunTime | mir-ci/mir_ci/program/display_server.py:87-94 | An exit asks the server to stop, and signals it, no earlier than the minimum run time after it came up, in every interleaving |
| DisplayServerResults.LeavingIsLate | mir-ci/mir_ci/program/display_server.py:75-94 | In every run, leaving sends no signal earlier than 0.1 seconds after the clock at which the wait for the display was over |
| DisplayServerResults.LeavingEndsInTime | mir-ci/mir_ci/program/display_server.py:87-94 | In every prompt run it ends within the rest of these 0.1 seconds, 10 seconds and one second |
| DisplayServerResults.ServerCallEndsWith | mir-ci/mir_ci/program/display_server.py:75-94 | What every enter and exit ends with, over whole runs: the failure to start, the object, or the missing display with the process stopped; an exit returns with the process stopped; output that is not UTF-8 is raised instead |
| DisplayServerLiveness.ServerCallsReturn | mir-ci/mir_ci/program/display_server.py:75-94 | From every reachable state a failing enter and an exit end, in a bounded number of steps, within the rest of the minimum run time, the timeout before SIGKILL and one second, with no server running, under the promise of `ProgramLiveness.EveryCallReturns` |
| DisplayServerLiveness.ServerPromptStep | mir-ci/mir_ci/program/display_server.py:87-94 | Every step of a waiting server lowers its rank and misses no deadline |
| DisplayServerMachine.ServerInvExec | mir-ci/mir_ci/program/display_server.py:75-94 | The invariant over the object and its program is kept by every run |
| SupervisedDisplayServer.DisplayServer.Aenter | mir-ci/mir_ci/program/display_server.py:75-85 | Enter, with the kill when the display does not appear, is exactly one step of the machine |
| SupervisedDisplayServer.DisplayServer.Aexit | mir-ci/mir_ci/program/display_server.py:87-94 | Leave, with the sleep or without it |
| SupervisedDisplayServer.DisplayServer.AfterSleep | mir-ci/mir_ci/program/display_server.py:92-94 | The kill after the sleep |
| SupervisedDisplayServer.DisplayServer.Communicate | mir-ci/mir_ci/program/display_server.py:81-94 | The end of the awaited kill and what the object raises or returns |
| SupervisedDisplayServer.DisplayServer.Interleave | mir-ci/mir_ci/program/display_server.py:75-94 | Whatever the event loop interleaves on the object is a run of its machine |
| ResourceSafety.LogFits | mir-ci/mir_ci/lib/benchmarker.py:27-65 | In every run of the composition of the benchmarker's awaits with the machines of its programs and servers, which make steps at any time, what the log says of a program is true of its machine, and outcomes are the machine's results |
| ResourceSafety.NothingOutlivesTheBenchmarker | mir-ci/mir_ci/lib/benchmarker.py:45-65 | In every run of the composition whose log is that of a complete use, no program or server is running at the end, for every subset of failing exits and every schedule, and the outcomes in the log are those the machines produced |
| ResourceSafety.NothingOutlivesAFailedEnter | mir-ci/mir_ci/lib/benchmarker.py:27-40 | No run of the composition with the log of a failed enter leaves anything running if and only if no unwinding exit but the last one raises |
| ResourceSafety.FullRun | mir-ci/mir_ci/lib/benchmarker.py:27-65 | Every pattern of samples and of outcomes of the exits happens in some run of the composition |
| ResourceSafety.FailedRun | mir-ci/mir_ci/lib/benchmarker.py:27-40 | So does every failed enter, with the first program still running when unwinding did not reach it |
| ResourceSafety.OverMeansStopped | mir-ci/mir_ci/program/program.py:147-155 | What a reachable program or server promises whoever enters and exits it |
| Benchmarking.Benchmarker.Enter | mir-ci/mir_ci/lib/benchmarker.py:27-43 | On a first or any later use, and with any turns of the event loop during each await: all programs are entered in order and the task is scheduled, or the first failure unwinds in reverse, over the programs of earlier uses too, up to the first exit that raises; a second enter changes nothing |
| Benchmarking.Benchmarker.EnterAll | mir-ci/mir_ci/lib/benchmarker.py:32-36 | The enters up to the first failure, with the stack of programs to exit and the backend's records; the awaited enters give turns, but there is no task to take them |
| Benchmarking.Benchmarker.Turns | mir-ci/mir_ci/lib/benchmarker.py:22-25 | What an await gives the task: any number of resumptions, which add nothing but reads, and nothing at all when no task can run |
| Benchmarking.Benchmarker.AwaitEnter | mir-ci/mir_ci/lib/benchmarker.py:33-36 | One awaited enter, with its turns, and what follows it |
| Benchmarking.Benchmarker.AwaitExit | mir-ci/mir_ci/lib/benchmarker.py:58-63 | One awaited exit, with its turns: no read comes between its beginning and its end when no task can run |
| Benchmarking.Benchmarker.Unwind | mir-ci/mir_ci/lib/benchmarker.py:37-40 | The exits up to the first that raises, and the error that results |
| Benchmarking.Benchmarker.TaskStep | mir-ci/mir_ci/lib/benchmarker.py:22-25 | One resumption of the sampling task: at most one read, of the program whose turn it is, and one whole record, none when cancelled; the task sleeps only when all programs have had their turn |
| Benchmarking.Benchmarker.Record | mir-ci/mir_ci/lib/benchmarker.py:90-106 | What a poll does with a reading, an uncaught exception or a cancellation |
| Benchmarking.Benchmarker.Suspend | mir-ci/mir_ci/lib/benchmarker.py:22-25 | Any number of task steps leave the benchmarker as it is, with nothing but reads added |
| Benchmarking.Benchmarker.Cancel | mir-ci/mir_ci/lib/benchmarker.py:51-54 | Cancelling ends the task without a further read or a changed record, wherever it is suspended |
| Benchmarking.Benchmarker.ExitAll | mir-ci/mir_ci/lib/benchmarker.py:58-63 | Every exit is made in reverse order and all errors are kept; the awaited exits give turns, and the cancelled task takes none |
| Benchmarking.Benchmarker.Exit | mir-ci/mir_ci/lib/benchmarker.py:45-65 | Exits of all listed programs, also after a failed enter or an earlier use, then the combined exit errors if there are any, otherwise the task's own error |
| BenchmarkerRuns.ReadsBetweenEntersAndExits | mir-ci/mir_ci/lib/benchmarker.py:22-56 | In the log that `UseOnce` and `NestedBlocks` prove for every schedule of the task, with turns during every await, every cgroup read is after the last enter and before the first exit |
| BenchmarkerRuns.ExitsInReverseOrder | mir-ci/mir_ci/lib/benchmarker.py:35-39 | Exits follow the reverse of the enters, one after the other has finished |
| BenchmarkerRuns.ExitedPrograms | mir-ci/mir_ci/lib/benchmarker.py:58-63 | Exactly which programs are exited |
| BenchmarkerRuns.EachProgramOnce | mir-ci/mir_ci/lib/benchmarker.py:27-65 | Each program is entered once and exited once, whichever exits fail |
| BenchmarkerRuns.FailedEnter | mir-ci/mir_ci/lib/benchmarker.py:37-40 | After a failed enter of the k-th program exactly k-1 to k-m are exited, the k-th never; all are reached exactly when only the last exit may raise; the original error is raised when no exit raises, otherwise that of the first one that does |
| BenchmarkerRuns.NestedBlocks | mir-ci/mir_ci/lib/benchmarker.py:27-29 | Blocks nested to any depth over a fresh instance enter and exit each program once |
| BenchmarkerRuns.UnwindingOfAFirstUse | mir-ci/mir_ci/lib/benchmarker.py:37-40 | The unwinding of a first use, by program |
| BenchmarkerRuns.ExitedOnceIffFirstUse | mir-ci/mir_ci/lib/benchmarker.py:58-63 | Leaving exits each program exactly once if and only if no earlier use of the instance has left programs in the list |
| BenchmarkerRuns.UseOnce | mir-ci/mir_ci/lib/benchmarker.py:27-65 | One complete use of an instance with any past, with turns during every await: enters, then reads, then exits |
| BenchmarkerRuns.SampleFor | mir-ci/mir_ci/lib/benchmarker.py:22-25 | Over any number of readings given to an uncancelled task: it reads the programs from the first to the last, sleeps exactly after the last and starts again; every complete poll adds to each program's history its own reading, if that was good, and nothing else |
| BenchmarkerRuns.ReadsAreCyclic | mir-ci/mir_ci/lib/benchmarker.py:22-25 | Under every schedule, the j-th read of a use is of program j modulo the number of programs: all contracts keep the reads in turn |
| BenchmarkerRuns.SlotIs | mir-ci/mir_ci/lib/benchmarker.py:22-25 | Which wake of the task reads which program in which poll |
| BenchmarkerRuns.LeavingRaises | mir-ci/mir_ci/lib/benchmarker.py:57-65 | When some exit raised, leaving raises one error that contains the messages of all that did, whatever became of the task; otherwise the task's own error, if it broke; otherwise it returns |
| BenchmarkerRuns.Joined | mir-ci/mir_ci/lib/benchmarker.py:65-65 | The messages are separated by "; " |
| BenchmarkerRuns.ErrorsInOrder | mir-ci/mir_ci/lib/benchmarker.py:58-63 | The errors of the exits that raise are kept in exit order |
| BenchmarkerRuns.RepeatedUse | mir-ci/mir_ci/lib/benchmarker.py:20-63 | Since the list is never emptied, the i-th use of an instance enters each program once and exits it i times |
| Cgroups.CgroupsBackend.PollOne | mir-ci/mir_ci/lib/benchmarker.py:91-106 | A good reading sets the cpu time, adds the memory and one point, and replaces the maximum by the peak, or by the sample if that is larger and no peak was read; a failed one changes nothing; no other record changes |
| Cgroups.CgroupsBackend.Poll | mir-ci/mir_ci/lib/benchmarker.py:90-106 | One poll of all programs, each from its own reading |
| Cgroups.EachProgramIsPolledOnce | mir-ci/mir_ci/lib/benchmarker.py:91-106 | A poll adds each program's reading to its own history only |
| Cgroups.CgroupsBackend.Add | mir-ci/mir_ci/lib/benchmarker.py:87-88 | A program starts with an empty record, also when its name is reused |
| Cgroups.MaximumHoldsIffPeaksAreRealistic | mir-ci/mir_ci/lib/benchmarker.py:96-105 | With any pattern of failed peak reads, the stored maximum is monotone and bounds every sample exactly when each peak read is at least all samples and peaks so far |
| Cgroups.AverageAtMostMaximum | mir-ci/mir_ci/lib/benchmarker.py:115-117 | With such peaks the reported average is at most the reported maximum |
| Cgroups.CgroupsBackend.GenerateReport | mir-ci/mir_ci/lib/benchmarker.py:108-118 | The three values of every program, or the first program without data; for every program with realistic peaks the reported average is at most the reported maximum |
| Cgroups.PrintedKeysAreDistinct | mir-ci/mir_ci/lib/benchmarker.py:115-117 | Printed keys never collide, whatever the programs are called |
| Cgroups.ReportSize | mir-ci/mir_ci/lib/benchmarker.py:108-118 | A successful report has exactly three printed keys for each program |
| Cgroups.PrintedEntries | mir-ci/mir_ci/lib/benchmarker.py:115-117 | Which key each of the three values of a program is printed under |
| Damage.AreaCountsPixels | mir-ci/mir_ci/wayland/screencopy_tracker.py:93-94 | The accumulated area of a rectangle is its number of pixels |
| Damage.SumAgainstUnion | mir-ci/mir_ci/wayland/screencopy_tracker.py:93-105 | The sum of areas is at least the number of pixels in the union, and equal exactly when the rectangles are pairwise disjoint |
| Damage.DisjointDamageFits | mir-ci/mir_ci/wayland/data/wlr-screencopy-unstable-v1.xml:192-209 | Disjoint damage inside the buffer sums to at most width times height |
| Screencopy.TotalFits | mir-ci/mir_ci/wayland/screencopy_tracker.py:99-104 | Over a whole run with such damage the total is at most frames times width times height |
| Screencopy.FrameCounts | mir-ci/mir_ci/wayland/screencopy_tracker.py:99-104 | A ready frame counts the pixels in the union of its damage, if that is disjoint, and the whole buffer without any |
| Screencopy.PercentInRange | mir-ci/mir_ci/wayland/screencopy_tracker.py:128-137 | `percent_damage` is within 0 to 100 whatever the compositor reports: the plain ratio below the possible pixels, and 100 from there on |
| Screencopy.PercentIsExact | mir-ci/mir_ci/wayland/screencopy_tracker.py:128-137 | With disjoint damage inside the buffer it is the exact ratio of the total to frames times width times height |
| Screencopy.RequestsOfARun | mir-ci/mir_ci/wayland/screencopy_tracker.py:110-126 | All captured frames but the newest are destroyed, each frame is asked to be copied exactly once, the first by `copy`, the others by `copy_with_damage`, and no request is repeated |
| Screencopy.FramesDoNotOverlap | mir-ci/mir_ci/wayland/data/wlr-screencopy-unstable-v1.xml:128-130 | A frame is destroyed before the next one is captured and copied only after it was captured |
| Screencopy.ScreencopyTracker.FrameBuffer | mir-ci/mir_ci/wayland/screencopy_tracker.py:74-91 | Exactly when the assertions hold; the buffer is allocated once, and for positive dimensions width, height, size and stride never change afterwards |
| Screencopy.ScreencopyTracker.FrameDamage | mir-ci/mir_ci/wayland/screencopy_tracker.py:93-94 | The pending damage stays the sum over the rectangles received |
| Screencopy.ScreencopyTracker.FrameReady | mir-ci/mir_ci/wayland/screencopy_tracker.py:99-108 | The frame is counted with its damage, or whole without any; the tracker is quiescent again with one live frame, exactly when the new buffer information is consistent |
| Screencopy.ScreencopyTracker.CopyFrame | mir-ci/mir_ci/wayland/screencopy_tracker.py:110-126 | Exactly one frame live afterwards and one copy request for it, whatever buffer events the roundtrip dispatches; when it succeeds |
| Screencopy.ScreencopyTracker.Connected | mir-ci/mir_ci/wayland/screencopy_tracker.py:66-67 | The first frame, when the compositor announces one buffer |
| Screencopy.ScreencopyTracker.Dispatch | mir-ci/mir_ci/wayland/screencopy_tracker.py:116-119 | Every event keeps the tracker quiescent; events of destroyed frames change nothing |
| Screencopy.ScreencopyTracker.Properties | mir-ci/mir_ci/wayland/screencopy_tracker.py:128-137 | At any time the number of ready frames, their total damage and a percentage within 0 to 100 of frames times width times height; after a run with a fixed buffer and disjoint damage the exact one |
| PointerPath.StepsAreShort | mir-ci/mir_ci/tests/robot/platforms/wayland/WaylandHid.py:56-65 | Consecutive points of a walk are at most `step_distance` apart |
| PointerPath.JumpsAreShort | mir-ci/mir_ci/wayland/virtual_pointer.py:62-69 | Truncated coordinates jump by at most `step_distance` on each axis |
| PointerPath.AlongMonotone | mir-ci/mir_ci/tests/robot/platforms/wayland/WaylandHid.py:61-64 | Each axis is monotone before and after truncation |
| PointerPath.TruncateMeans | mir-ci/mir_ci/wayland/virtual_pointer.py:69-69 | Coordinates are truncated towards zero |
| PointerPath.WalkIsShortest | mir-ci/mir_ci/tests/robot/platforms/wayland/WaylandHid.py:56-59 | No path through whatever points between the same ends has fewer steps within the step distance |
| PointerPath.PathReach | mir-ci/mir_ci/tests/robot/platforms/wayland/WaylandHid.py:56-59 | A path of short steps ends no farther than the sum of their lengths |
| PointerPath.Steps | mir-ci/mir_ci/tests/robot/platforms/wayland/WaylandHid.py:59-59 | The step count is the least n with (n s) squared at least the squared distance |
| PointerKeywords.WalkedPath | mir-ci/mir_ci/tests/robot/platforms/wayland/WaylandHid.py:48-68 | The coordinates a walk sends start at the tracked position, end exactly at the target and move each axis one way, by at most the step distance at a time |
| PointerKeywords.WalkedPixel | mir-ci/mir_ci/tests/robot/platforms/wayland/WaylandHid.py:61-65 | The i-th of n points a walk sends is, on each axis, the floor of (n a + i (b - a)) / n |
| PointerKeywords.FirstWalk | mir-ci/mir_ci/tests/robot/platforms/wayland/WaylandHid.py:52-66 | A first walk moves to the corner before it starts |
| PointerKeywords.AbsoluteTarget | mir-ci/mir_ci/tests/robot/platforms/wayland/WaylandHid.py:34-68 | Moves send just their target, and moves and walks end at it |
| PointerKeywords.ProportionalTarget | mir-ci/mir_ci/tests/robot/platforms/wayland/WaylandHid.py:40-77 | Proportional moves and walks end at the pixel that is the floor of these parts of the width and the height |
| PointerKeywords.KeywordKeepsTrack | mir-ci/mir_ci/tests/robot/platforms/wayland/WaylandHid.py:34-77 | A keyword succeeds exactly when its arguments are in range; then the tracked position is the last one sent; even a failing keyword sends nothing outside the extent |
| PointerKeywords.KeywordSequence | mir-ci/mir_ci/wayland/virtual_pointer.py:62-74 | For a fixed output size a sequence of keywords trips no assertion exactly when all are in range, and every coordinate sent lies within the extent |
| PointerKeywords.WaylandHid.Move | mir-ci/mir_ci/wayland/virtual_pointer.py:62-71 | The assertions and the truncated motion request |
| PointerKeywords.WaylandHid.MovePointerToAbsolute | mir-ci/mir_ci/tests/robot/platforms/wayland/WaylandHid.py:34-37 | The keyword on the object |
| PointerKeywords.WaylandHid.MovePointerToProportional | mir-ci/mir_ci/tests/robot/platforms/wayland/WaylandHid.py:40-45 | The keyword on the object |
| PointerKeywords.WaylandHid.GetAbsoluteFromProportional | mir-ci/mir_ci/tests/robot/platforms/wayland/WaylandHid.py:101-117 | The truncated proportions of the output, exactly when the assertions hold |
| PointerKeywords.WaylandHid.CountSteps | mir-ci/mir_ci/tests/robot/platforms/wayland/WaylandHid.py:56-59 | The rounded-up root of the squared distance over the step distance |
| PointerKeywords.WaylandHid.WalkPointerToAbsolute | mir-ci/mir_ci/tests/robot/platforms/wayland/WaylandHid.py:48-68 | The keyword on the object, from an unknown position too |
| PointerKeywords.WaylandHid.MakeSteps | mir-ci/mir_ci/tests/robot/platforms/wayland/WaylandHid.py:61-66 | The loop sends the points of the walk in order |
| PointerKeywords.WaylandHid.WalkPointerToProportional | mir-ci/mir_ci/tests/robot/platforms/wayland/WaylandHid.py:71-77 | The keyword on the object |
| PointerKeywords.UsableOnceSized | mir-ci/mir_ci/wayland/virtual_pointer.py:56-66 | A client that has sent nothing can be used, and tracks its position from then on, exactly when both scaled sizes are at least 1; otherwise every keyword fails |
| PointerKeywords.ScaledSizes | mir-ci/mir_ci/wayland/virtual_pointer.py:56-60 | The width and the height of the output are its scaled sizes in whole pixels |
| PointerKeywords.WalkAfterResize | mir-ci/mir_ci/wayland/virtual_pointer.py:56-66 | After a change of the output size a walk to a target on the output succeeds exactly when the tracked position is still on it |
| MirVersion.Accepted | bin/process_snaps.py:150-154 | A string is accepted exactly when it is the text of well-formed parts |
| MirVersion.Characters | bin/process_snaps.py:150-154 | Which characters the parts are made of |
| MirVersion.Reassembles | bin/process_snaps.py:150-154 | An accepted string reassembles from its groups, and the distribution runs to the next dash or the end |
| MirVersion.Unique | bin/process_snaps.py:150-154 | Version, build and commit are the same in all decompositions of a string; with maximal distributions there is only one |
| MirVersion.ExtractedIsPlain | bin/process_snaps.py:350-354 | What is extracted is non-empty and has no dash and no newline |
| MirVersion.ExtractedRoundTrip | bin/process_snaps.py:150-158 | An extracted version printed into a store version is matched there with exactly its server, mir and snap parts if and only if the server is a non-empty line and the snap a non-empty line in which "-mir" is never followed by a further character |
| SnapVersion.RoundTrip | bin/process_snaps.py:156-158 | The same for every dash-free line, not only extracted ones |
| SnapVersion.PrintedText | bin/process_snaps.py:156-158 | How a store version is put together |
| SnapVersion.MatchIsClean | bin/process_snaps.py:156-158 | Whatever is matched, the captured server and snap parts are non-empty lines |
| SnapVersion.SnapMatch | bin/process_snaps.py:156-158 | The greedy server group takes the last "-mir" that has something on both sides |
| SnapVersion.OptionalServer | bin/process_snaps.py:156-156 | The same before any rest that matches the non-empty remainders |
| Regex.LazyGroup | bin/process_snaps.py:157-157 | A lazy group ends at the first place from which the rest matches |
| Regex.FirstThen | bin/process_snaps.py:150-158 | A concatenation matches from the first hit of its first part that can be continued |
| Regex.FirstSplits | bin/process_snaps.py:150-158 | Where the preferred match of a concatenation comes from |
| RebuildLoop.Script.ProcessPair | bin/process_snaps.py:311-445 | One turn of the loop requests a build exactly for a pair that is due in the closed form, records exactly the errors of the closed form, and throws exactly when an answer does, with exactly the errors recorded up to there |
| RebuildMeaning.DueMeans | bin/process_snaps.py:311-445 | The closed form, written out over the answers of the services: a build is requested exactly when there is a recipe without pending builds, the latest source of a configured archive is published, parsed, unfailed and finished for all processors, and some version in the store was not built from it or the notices are due |
| RebuildMeaning.ErrorsMean | bin/process_snaps.py:319-425 | Which errors a pair records, written out likewise |
| RebuildMeaning.ThrowsMeans | bin/process_snaps.py:389-416 | When an answer throws, written out likewise |
| RebuildMeaning.SourceMirOfText | bin/process_snaps.py:350-354 | From a source version the upstream version with its build tag is taken, without commit, distribution and the rest |
| RebuildMeaning.SourceMirNone | bin/process_snaps.py:350-353 | Nothing is taken exactly when the version is not one of the accepted form |
| RebuildMeaning.LatestMeans | bin/process_snaps.py:337-346 | The latest source is the first that is neither deleted nor obsolete |
| RebuildLoop.Script.Run | bin/process_snaps.py:308-451 | Over any table the requests and errors are those of the pairs in order up to the first that throws, and then the errors which that pair had recorded before; the exit status is 1 exactly when an error was recorded or an answer threw |
| RebuildLoop.Script.CheckSource | bin/process_snaps.py:324-380 | The part for a configured archive goes on exactly when the latest source is ready, with its version; a failed build is recorded |
| RebuildLoop.Script.CheckStore | bin/process_snaps.py:389-437 | From the store answers to the decision |
| RebuildLoop.Script.AllCurrent | bin/process_snaps.py:408-411 | The comparison stops at the first version that is not current, and throws exactly when that one cannot be matched |
| RebuildLoop.Script.NoticesDue | bin/process_snaps.py:413-437 | The decision on notices and its error |
| RebuildLoop.Script.GetSeries | bin/process_snaps.py:295-303 | The cached lookup answers like the uncached one |
| RebuildLoop.Script.FindLatest | bin/process_snaps.py:337-346 | The first source that is not ignored |
| RebuildLoop.LatestIsFirst | bin/process_snaps.py:337-346 | What the latest source is, in terms of positions |
| RebuildLoop.RequestedOnceIffDue | bin/process_snaps.py:310-445 | Each pair of a table is requested exactly once if it is due and never otherwise |
| RebuildLoop.RequestsAreDue | bin/process_snaps.py:439-445 | Every request comes from a pair that is due |
| RebuildLoop.FlatSplit | bin/process_snaps.py:310-311 | Every channel of every snap has its turn, in the order of the table |
| RebuildLoop.TwoRuns | bin/process_snaps.py:295-445 | Two runs of fresh scripts over tables, each listing a pair once, that have a pair in common which comes before the first that throws in both: they request it equally often, once or never, and record the same errors for it, whatever else the tables contain |
| RebuildLoop.PrintedIsCurrent | bin/process_snaps.py:350-354 | A store version printed from a source version is recognised as having its mir version |
| RebuildLoop.RebuiltSnapsRest | bin/process_snaps.py:408-437 | Snaps built from the latest source do not make a rebuild due by their versions |
| Assets.CollectedIsSearched | mir-ci/mir_ci/tests/test_osk.py:19-36 | The dictionary maps each name to the first hit of the search from the most specific directory: suite, later resources, earlier resources, platform; within each the longest variant first and the base last |
| Assets.MostSpecificWins | mir-ci/mir_ci/tests/test_osk.py:27-36 | A file overrides those of its name in less specific directories, by position in the search |
| Assets.LayerWins | mir-ci/mir_ci/tests/test_osk.py:19-36 | The rule of overriding, written out: the suite before the resources, a later resource before an earlier one, and these before the platform; in each of them a longer part of the variant before a shorter one, and the asset itself last |
| Assets.NoNameIsLost | mir-ci/mir_ci/tests/test_osk.py:27-36 | A name is collected exactly when some directory has a file of that name |
| Assets.ListingOrderIsIrrelevant | mir-ci/mir_ci/tests/test_osk.py:21-24 | The order in which directories list their items does not matter |
| Assets.VariantsArePrefixes | mir-ci/mir_ci/tests/test_osk.py:19-21 | The variants are the non-empty prefixes of the path, the least specific first |
| Assets.AssetIsSearched | mir-ci/mir_ci/tests/test_osk.py:19-24 | What one asset yields is in the opposite order of its search |

## Left out

- Calls that overlap, cancellation of `wait` from outside, and a second enter of a finished program: sequential use is modelled.
- `Program.get_cgroup`, `Cgroup.create` and its cancellation, the check for cgroup support, and an exception from them inside `__aenter__`: cgroup access is an input of the benchmarker.
- `format_output`, the environment and the command line of a child, and the stripping of its output: text without further use.
- `DisplayServer` without a successful enter before its exit, and waiting for the display by inotify: the wait is a duration and a success or failure.
- Two uses of one `Benchmarker` at the same time, and the machines of programs that a later use enters again: the composition covers one use.
- Exceptions that are not `Exception` subclasses, apart from the cancellation of the sampling task.
- A `warnings.warn` that raises because of a warning filter: it returns here.
- Float rounding of the average, of percentages and of pointer coordinates: exact rationals, and floor division for the average.
- `ScreencopyTracker.disconnected`, shared memory, the format of a buffer, the failed event, which has no handler, and a ready event after the display is gone.
- Buffer events with a zero width, height or stride: accepted and refused as in the code, but without a statement about what stays fixed.
- A change of the output size during a walk, which is over before the events of the next roundtrip here; `set_output_scale`; buttons; connecting and disconnecting.
- Character classes of regular expressions over code points outside what `char` holds, and features of `re` that the two expressions do not use.
- Launchpad, the store, downloads, `unsquashfs` and the notices tool: their answers are inputs of the loop, constant for each pair.
- Exceptions of Launchpad calls other than a recipe that is not found, and the log output of the script.
- Absolute variant paths, hidden or linked files and changes of the directories during a collection.
- `Vnc.walk_pointer_to_absolute` and the other copies of `collect_assets`: duplicates of what is modelled.
- The `xdg` fixture, server capabilities, installation of dependencies and the on-screen-keyboard tables: simple or finite.
