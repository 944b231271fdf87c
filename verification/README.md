# A verified model of the JaeOs16 nucleus

JaeOs16 is a small kernel for the uARM simulator. This project models its nucleus and proves
what it keeps, step by step and over whole runs.

**Two layers.** `Nucleus` and `Runs` describe the nucleus as a transition system on values:
queues as sequences, the semaphores as a map from address to waiting line, the semaphore
descriptors as an assignment to addresses and a list of free ones (`Shelves`), a process forest,
counters, 32-bit clocks. An event is one entry into the nucleus: a system call, a trap,
a timer or a device interrupt. `Clist`, `Machine`, `Pcb`, `Asl`, `Clockwork`, `Exceptions`,
`Interrupt`, `Scheduling`, `Handlers` and `Init` are the same nucleus as it works on memory: the
static tables are index arenas, the link cells `p_list`, `p_siblings` and `s_link` are arrays
that the list operations rewrite in place, the other fields are columns of the `Kernel` object,
and each C function is a method. `Kernel.Valid` says that the memory represents a state
(`Machine.Rep`), and every method is proved to compute the function of the first layer.
`Handlers.Handle` closes the gap: one entry into the nucleus, on memory, is one `Runs.Step`, for
every event that can happen; where the step is `Broken`, and only there, the memory represents no
state afterwards.

**What is proved of the states.** `Invariant.Inv` (each process is on exactly one of the free
list, the ready queue, one semaphore's line, the processor; the forest is well formed; the
counters count; all time is accounted for) is kept by every step, hence holds in every run.
`Fifo` defines an ideal first-come-first-served semaphore on histories alone, and every run
is shown to be a history of it, with values conserved. `Casualties` relates
`g_soft_block_count` to the same history, `Leaks` counts the semaphore descriptors that are left.
`Effects` and `Ticks` say what each system call and interrupt does to the state as a whole,
`Accounts` who pays for the time. `Semaphores`, `Verdicts`, `Pids`, `Deadline`, `Slices`,
`Waiting` and `Progeny` derive the properties listed below. `Reach.BootedRun` states them from power on. `Defects` says what goes
wrong on memory, and `Scenarios` gives the event sequences from power on that bring it about.

**Two builds.** The number of process descriptors is a parameter (20 in the source). So is the
build. `Shipped` is the code as written. `Repaired` differs in three places: it clears
`p_cursem` of a process woken by a V, passes the semaphore's address to `isDev` when a blocked
process is terminated, and tests `g_current_process` for null in `handleTimer`. Theorems hold of
both builds unless they mention one.

**Where the code departs from its intent.**

- `p_cursem` is never cleared on wake-up (src/exceptions.c:128-134, src/asl.c:98-110), and
  `terminateProgeny` takes a non-null one for "blocked". If the process is ready, it is enqueued on
  the free list without leaving the ready queue, and the memory represents no state any more
  (`Defects.BuriedIff`, `Exceptions.TerminateProgeny`, `Verdicts.BrokenExactly`;
  `Scenarios.BrokenMemory` gets there with six system calls from power on). The model stops there,
  the code does not notice.
- If it is the running process, the lists stay sound, but its old descriptor, unless it serves some
  semaphore, is enqueued on the free list a second time, and descriptors behind it are lost
  (`Clist.EnqueuedTwice`, `Leaks.LossExactly`). When none is left, a P stops the nucleus:
  `Verdicts.DescriptorRunsOut`, and `Scenarios.DescriptorMissing` from power on. It does not as
  long as there are as many descriptors as live processes, which the repaired build keeps:
  `Verdicts.DescriptorAlwaysFound`, `Leaks.ExecSlots`.
- `handleTimer` follows a null `g_current_process` when nobody runs (src/interrupt.c:49):
  `Verdicts.AstrayExactly`.
- `terminateProgeny` asks `isDev` about the descriptor's address (src/exceptions.c:38), so
  `g_soft_block_count` exceeds the number of processes blocked on devices or the clock by the
  number of those terminated while blocked there (`Casualties.ReapedAccounted`, and over runs
  `Reach.ExecGood`), and a deadlock is taken for a wait if and only if that is not zero:
  `Casualties.DeadlockMissedIff`, and `Scenarios.DeadlockMissed` from power on.
- `childByPid` gives up after the first child that has children (src/pcb.c:96), against its
  header comment: `Progeny.CompleteIff` says when that does no harm.
- `semop` compares a signed stock with an unsigned request (src/exceptions.c:128):
  `Semaphores.FitsLongestIff`.
- The tick performs V with n, n - 1, ..., 1 (src/interrupt.c:42-46) and leaves surplus tokens:
  `Semaphores.TickWakesAll` gives the amount.
- Terminating the head of a line does not re-examine the line (src/exceptions.c:40):
  `Semaphores.DeathUnsettles`, `Semaphores.DeathSettledIff`.

**Beyond the shipped table size.** With a table of 31 descriptors (MAXPROC is 20,
incl/const.h:19) one process identifier below creation number 2^27 would equal the error value
of `createProcess`: `Pids.PidIsErrorIff`. With at most 30 none does: `Pids.NoPidIsError`.

## Model

| member | source | states |
|---|---|---|
| Clist.OneReading | incl/clist.h:14-19 | A tail pointer and the links determine the listed sequence: the pointer graph has one reading |
| Clist.Enqueue | incl/clist.h:24-28 | Exactly the links of the macro change, whatever the memory; a new element is thereby appended and only links of listed elements and of the new one change |
| Clist.Push | incl/clist.h:34-38 | Prepends, although the last assignment stands outside the else branch |
| Clist.Dequeue | incl/clist.h:62-65 | Drops the first element, nothing if empty; only links of listed elements change |
| Clist.Head | incl/clist.h:47-49 | The first element, null if there is none |
| Clist.Tail | incl/clist.h:54-56 | The last element, null if there is none |
| Clist.Delete | incl/clist.h:71-96 | Removes exactly the given element, keeping order, circle and tail; reports absence, changing nothing, if and only if it was not there |
| Clist.EnqueuedTwice | src/asl.c:119-126 | Enqueueing a listed element again leaves exactly the elements up to it, or itself alone if it was last |
| Clist.RestIsLost | src/asl.c:119-126 | In every reading of the memory that is left, the elements behind it are gone, or all others if it was last |
| Clist.Foreach | incl/clist.h:104-107 | Meets each element once, in order, and rests at the first one at which the body breaks |
| Clist.ForeachAll | incl/clist.h:112-113 | True if and only if the loop ended without a break |
| Clist.ForeachDelete | incl/clist.h:117-125 | In-loop deletion removes exactly the current element and keeps circle and tail |
| Clist.ForeachAdd | incl/clist.h:129-132 | In-loop insertion puts the new element right before the current one |
| Threads.ScanDecides | src/asl.c:18-30 | In ascending order the early exit of the scans decides membership exactly and finds the right descriptor |
| Machine.Kernel.constructor | src/init.c:38-46 | Static storage with the globals as main sets them: every list empty |
| Pcb.InsertReady | src/pcb.c:34-36 | The ready queue gains the process at its end; all else is unchanged |
| Pcb.FreePcb | src/pcb.c:30-32 | The descriptor is enqueued on the free list, even when it is still linked elsewhere; all else is unchanged |
| Pcb.RemoveProcQ | src/pcb.c:38-44 | Returns and removes the first element of a queue, null if it is empty |
| Pcb.RemoveReady | src/pcb.c:38-44 | The ready queue loses its first process, which is returned |
| Pcb.OutProcQ | src/pcb.c:46-57 | Removes exactly the given process, in place, found if and only if it was queued; otherwise memory is untouched |
| Pcb.OutReady | src/pcb.c:46-57 | The ready queue loses the process if it was on it; every other queue is unchanged |
| Pcb.EmptyChild | src/pcb.c:63-65 | True if and only if the child list is empty |
| Pcb.InsertChild | src/pcb.c:67-70 | The process becomes the last child of its parent; the forest stays well formed |
| Pcb.RemoveChild | src/pcb.c:72-80 | The first child is taken off and has no parent any more; all other lists are unchanged |
| Pcb.OutChild | src/pcb.c:82-88 | The process is taken out of its parent's list, found if and only if it had a parent |
| Pcb.KinDetach | src/pcb.c:82-88 | Cutting a process off its parent keeps parent links and child lists an agreeing acyclic forest |
| Pcb.AllocPcb | src/pcb.c:16-28 | Returns the first free descriptor with every field zeroed and its links reset, null and no change if none is free |
| Pcb.ChildByPid | src/pcb.c:90-98 | The loop with its recursion computes the search function, and terminates on every forest |
| Asl.HeadBlocked | src/asl.c:134-162 | The first process of the semaphore's line, null if nobody waits |
| Asl.InsertBlocked | src/asl.c:12-73 | The process joins the end of the line, with the first free descriptor at its sorted place if needed; fails, changing nothing, if and only if the line is empty and no descriptor is free |
| Asl.RemoveBlocked | src/asl.c:75-111 | The line loses its first process; an emptied line gives its descriptor back at the end of the free list; p_cursem stays |
| Asl.OutBlocked | src/asl.c:113-132 | A blocked process leaves its line, wherever it stands in it, and an emptied line gives its descriptor back; with a stale p_cursem the result is null, and the descriptor, unless it serves some semaphore, is enqueued on the free list, where it may stand already |
| Asl.Shelve | src/asl.c:101-109 | A descriptor moves from the active to the end of the free list; one that is not active is enqueued there just the same, which may cut the free list short |
| Asl.Unshelve | src/asl.c:36-54 | The first free descriptor is linked in before the first larger address; no descriptor is lost or doubled |
| Asl.SlotsListed | src/asl.c:32-34 | There are as many active descriptors as semaphores with waiters, and with the free ones as many as Slots says |
| Clockwork.OnHandlerEnter | lib/aux.c:21-41 | Updates countdown, time columns and interval timer as the time function says, touching no list |
| Clockwork.OnHandlerExit | lib/aux.c:43-64 | The same on exit, charging the running process only if told to |
| Clockwork.CountDown | lib/aux.c:23-26 | Unsigned subtraction, clamped to zero when it wraps below zero |
| Clock.EnterConserves | lib/aux.c:21-41 | Entry keeps the books of time: total, dead and unattributed time add up to the time since the start; each column is true time modulo 2^32; own time is part of total time |
| Clock.ExitConserves | lib/aux.c:43-64 | Exit keeps the books of time |
| Clock.RebirthConserves | src/pcb.c:24-25 | Zeroing the times of a reused descriptor keeps the books: the former incarnation's time counts as dead |
| Clock.EnterCharges | lib/aux.c:21-41 | On entry the interval is added to the total and the own time of the running process and taken from its slice, in true time and in the 32-bit fields; without one it is lost; nobody else is charged |
| Clock.ExitCharges | lib/aux.c:43-64 | On exit it is added to the total time of the running process if the flag is set, and lost otherwise; own time and slices never pay |
| Accounts.StepPays | lib/aux.c:21-64 | In one step the running process pays for its own code up to the handler, and in total time for the service: all of a system call or the part before it is put to sleep, a forbidden call up to the trap, a timer interrupt that takes the processor away; everybody else pays nothing, and a new process has no time |
| Accounts.ExecTimes | lib/aux.c:21-64 | Over every run the own and the total time of each living process are the sums of these since its creation |
| Accounts.ColumnsTell | src/exceptions.c:209-214 | p_user_time and p_global_time, which SYS8 reports, are these sums modulo 2^32 |
| Accounts.StepSlice | src/scheduler.c:14 | The process that runs after a step has a slice of 5000 if the step dispatched it, and otherwise what its own code has left of the old one |
| Clock.EnterOnDeadline | lib/aux.c:23-28 | The countdown stays equal to what remains until 100000 after the last tick's base, for gaps below 2^32 - 100000 |
| Clock.ExitOnDeadline | lib/aux.c:53-57 | The same on exit |
| Clock.TicksAtDeadline | src/interrupt.c:35-38 | For such gaps the modular test fires if and only if 100000 has passed since the base |
| Clock.TicksExactly | src/interrupt.c:35-38 | For gaps of any length: the exact window of the gap modulo 2^32 in which the test fires |
| Clock.TimerMeetsDeadline | lib/aux.c:34-40 | The interval loaded never ends after the deadline |
| Clock.OverdrawnIff | src/interrupt.c:49 | The 32-bit slice exceeds 5000 if and only if the true one does so modulo 2^32; above 5000 - 2^32 that means overdrawn |
| Clock.TimerMeetsSlice | lib/aux.c:34-40 | The interval loaded for a running process never ends after its slice |
| Slices.PreemptedIffOverdrawn | src/interrupt.c:48-56 | A timer interrupt preempts the running process, to the end of the ready queue, if and only if what is left of its slice exceeds 5000 modulo 2^32; unless overdrawn by 2^32 - 5000 or more, if and only if it is overdrawn |
| Deadline.ExecOnDeadline | lib/aux.c:21-64 | Over every run with such gaps the 32-bit countdown is the absolute deadline |
| Deadline.TimerTicksOnTime | src/interrupt.c:32-47 | In such a run a timer interrupt ticks if and only if the deadline has been reached at its second clock reading |
| Ticks.TickTicks | src/interrupt.c:41-46 | A tick performs V with n, n - 1, ..., 1 on the clock's semaphore, ends with n = 0 and touches no other semaphore |
| Ticks.TimerActs | src/interrupt.c:32-57 | On any state: if the modular test fires, the countdown is 100000 again from the entry of the handler and the tick takes place, otherwise neither; then the running process gives way if its slice exceeds 5000; nothing else changes |
| Ticks.TimerInterrupt | src/interrupt.c:32-57 | In a run with such gaps the interrupt restarts the countdown and ticks if and only if 100000 has passed since the base; all who wait for the clock are then woken in order and v + n(n+1)/2 - k is left |
| Deadline.ExecArmed | lib/aux.c:34-40 | In every live state of a run the interval timer holds what remains until the tick, or of the slice of the running process if that is less |
| Deadline.TimerInTime | lib/aux.c:34-40 | Hence, in runs with such gaps, it ends no later than the tick, or at once, and within the slice |
| Semaphores.FitsLongest | src/exceptions.c:127-138 | The greedy loop serves exactly the longest prefix of the line whose summed requests the stock covers |
| Semaphores.FitsLongestIff | src/exceptions.c:124-128 | With the unsigned comparison that holds if and only if the stock is not negative or nobody waits |
| Semaphores.NegativeStockWakes | src/exceptions.c:128 | In a state of the invariant with the value -5, a V of one token wakes two waiters neither of whom it covers |
| Semaphores.ReleaseWakesLongestPrefix | src/exceptions.c:123-143 | V wakes a prefix, appends it to the ready queue in order, leaves the difference and touches no other semaphore; the prefix is the longest one covered if and only if the new stock is not negative or nobody waits |
| Semaphores.ReleaseSettles | src/exceptions.c:127-142 | After V the line is empty or its head asks for more than the value, also for a negative one |
| Semaphores.AcquireSettles | src/exceptions.c:145-158 | P keeps it so, whether it blocks or not |
| Semaphores.ReleaseSolvent | src/exceptions.c:124-140 | V leaves no semaphore below zero if none was |
| Effects.SemOpRaises | src/exceptions.c:119-143 | SYS3 with a positive weight is that V, and changes nothing else |
| Effects.SemOpProbes | src/exceptions.c:145-158 | SYS3 with a negative weight: the caller takes the tokens if nobody waits and they are there; otherwise it goes to the end of the line, on its descriptor or the first free one, and nobody runs; or the nucleus lacks a descriptor; nothing else changes |
| Effects.ClockWait | src/exceptions.c:217-221 | SYS9 is such a P for one token on the clock's semaphore and counts the caller for the next tick, unless a descriptor is lacking |
| Effects.DeviceWait | src/exceptions.c:223-252 | SYS10 is such a P for one token on the semaphore of the device |
| Effects.OtherCalls | src/exceptions.c:160-161 | SYS3 with weight 0 stops the nucleus |
| Effects.CallWorks | src/exceptions.c:370-399 | The handler of a system call does what these members say of the call, and a passed-up exception does nothing |
| Semaphores.DeathUnsettles | src/exceptions.c:40 | A concrete state, with a running parent and two children blocked on one semaphore, in which terminating the first leaves an affordable request waiting |
| Semaphores.DeathSettledIff | src/exceptions.c:34-45 | A settled semaphore stays so through terminations if and only if the first waiter who does not die, if any, asks for more than the value |
| Semaphores.DevRelease | src/exceptions.c:123-143 | V with weight w on a nucleus semaphore serves min(w + value, waiters) of its waiters |
| Semaphores.ReapedUnits | src/exceptions.c:34-45 | Terminations keep "somebody waits on a nucleus semaphore implies its value is 0", device semaphores within 0 and 1, and no more clock waiters than g_pseudoClockBlk |
| Semaphores.TickWakesAll | src/interrupt.c:41-46 | A tick wakes all k clock waiters in order, ends with n = 0 and an empty line, and leaves v + n(n+1)/2 - k |
| Semaphores.DeviceStatusToWoken | src/interrupt.c:112-124 | If somebody waits, the first one is woken and gets the status, and the value is 0; if nobody does, the value is 1 and no status changes; one token is put unless one was there, and no other semaphore changes |
| Effects.DeviceServes | src/interrupt.c:112-124 | That is what the handler of a device interrupt does |
| Effects.DeviceActs | src/interrupt.c:112-124 | On any state: nothing if the value is positive, otherwise exactly one V of one token, and the status for the former head if and only if somebody was woken |
| Fifo.ServedInOrder | src/exceptions.c:119-161 | In every history of the ideal semaphore requests are met in the order made, and all pending ones are younger |
| Fifo.NothingForgotten | src/exceptions.c:119-161 | Met and pending requests together are exactly the requests made less those whose process was terminated waiting |
| Fifo.ReleaseBooks | src/exceptions.c:123-143 | V is a run of events of the ideal semaphore: line, order and value agree with the history, at every semaphore |
| Fifo.AcquireBooks | src/exceptions.c:145-158 | P is one too: it blocks behind any waiter even when the value suffices, otherwise it takes its tokens |
| Fifo.ReapedBooks | src/exceptions.c:34-45 | Terminating blocked processes withdraws their requests and changes no value |
| Exceptions.Serve | src/exceptions.c:124-140 | The loop on memory wakes as many waiters as the function says, leaves the rest of the stock, and terminates |
| Exceptions.Semop | src/exceptions.c:119-161 | V, P and the PANIC on weight 0 on memory are the functions Release, Acquire and stop |
| Exceptions.WaitClock | src/exceptions.c:217-221 | P on the clock's semaphore, then g_pseudoClockBlk counts one more |
| Exceptions.PidSelector | src/exceptions.c:26-32 | 32-bit increment, shift and or give the identifier of the true creation number |
| Exceptions.CreateProcess | src/exceptions.c:87-99 | Allocation, counting, numbering, adoption and queueing on memory are the function Create |
| Exceptions.Bury | src/exceptions.c:37-44 | A process without relatives leaves whatever queue it is on and is freed, counters follow; exactly if it is ready with a stale p_cursem the memory represents no state afterwards |
| Exceptions.TerminateProgeny | src/exceptions.c:34-45 | The recursion inside a loop that takes the tree apart terminates and amounts to removing the subtree, in post-order, at once, a stale p_cursem of the running process included; exactly if somebody in the subtree is ready with a stale one, it comes to a memory that represents no state |
| Exceptions.TerminateProcess | src/exceptions.c:102-115 | Terminates the caller, or the process found by pid, or nobody; or comes to such a memory |
| Reaping.StagePost | src/exceptions.c:36 | After any number of rounds the subtree of the next child is still what it was |
| Reaping.StageNext | src/exceptions.c:36 | Removing that subtree completes one round |
| Reaping.StageEnd | src/exceptions.c:37-44 | After the rounds, removing the root itself has removed the whole subtree |
| Reaping.ReapedTwice | src/exceptions.c:34-45 | Removing two disjoint batches one after the other is removing them together: queues, lines, forest, counters and history |
| Forest.PostIsSubtree | src/exceptions.c:34-45 | The order of terminateProgeny lists exactly the process and its descendants |
| Forest.PostNoDup | src/exceptions.c:34-45 | and each of them once |
| Progeny.KillsExactlySubtree | src/exceptions.c:34-45 | Exactly the subtree is freed and counted off; everyone else keeps place, parent, children and order; no value changes |
| Progeny.NewChild | src/exceptions.c:87-96 | With room left, the zeroed first free descriptor becomes the last child of the caller and the last ready process, its identifier is returned, nobody else's relatives change |
| Effects.Creation | src/exceptions.c:87-99 | SYS1 makes that child, or returns the error value, and changes nothing else |
| Effects.Termination | src/exceptions.c:102-115 | SYS2 removes the caller and its progeny, and nobody runs; or the first examined process with the pid and its progeny, and the caller runs on; or, if there is none, changes nothing |
| Effects.TrapTerminates | src/exceptions.c:305-325 | A trap without a handler is SYS2 of the process itself |
| Effects.ForbiddenTerminates | src/exceptions.c:379-387 | So is the program trap of a system call in user mode, once the caller has been charged for it; if the process has a handler, the charge is all |
| Progeny.FindsIffExamined | src/pcb.c:90-98 | childByPid finds somebody if and only if one of the processes it examines has the pid |
| Progeny.FindsFirst | src/pcb.c:90-98 | What it finds is the first of them with the pid |
| Progeny.CompleteIff | src/pcb.c:94-96 | It examines the whole progeny if and only if, from the caller down, only the last child of each process has children |
| Progeny.ChildMissed | src/pcb.c:96 | A concrete forest in which it misses a child of the caller |
| Invariant.SearchFinds | src/pcb.c:90-98 | What childByPid finds has the pid and is a proper descendant of the caller |
| Invariant.DescendantSparesCurrent | src/exceptions.c:102-110 | The death of a proper descendant never touches the running process |
| Invariant.ReleaseInv | src/exceptions.c:123-143 | V keeps the invariant |
| Invariant.AcquireInv | src/exceptions.c:145-158 | P keeps the invariant |
| Invariant.CreateInv | src/exceptions.c:87-99 | createProcess keeps the invariant: its unchecked allocPcb never yields null |
| Invariant.TerminateInv | src/exceptions.c:102-115 | terminateProcess keeps the invariant |
| Invariant.DispatchInv | src/scheduler.c:10-18 | Dispatching keeps the invariant |
| Effects.DispatchGives | src/scheduler.c:10-18 | The first ready process gets the processor and a slice of 5000; nothing else changes but the clocks |
| Effects.StepLeaves | src/scheduler.c:6-37 | How a handler ends: return to the running process, dispatch of the first ready one, HALT, WAIT or PANIC, each exactly when; nothing else changes but the clocks |
| Effects.ExecBusy | src/scheduler.c:10-35 | In every live state of a run somebody is running, or nobody is ready and the machine waits |
| Runs.HandleTimerInv | src/interrupt.c:32-57 | A timer interrupt, tick loop and preemption included, keeps the invariant |
| Runs.HandleDeviceInv | src/interrupt.c:112-124 | A device interrupt keeps the invariant |
| Runs.Step | src/exceptions.c:370-436 | One entry into the nucleus keeps the invariant, whatever the event, a user-mode system call with its nested program trap included |
| Runs.Exec | src/interrupt.c:127-178 | Every run keeps the invariant |
| Verdicts.LinesFewerThanProcesses | src/exceptions.c:148-156 | While a process runs, fewer semaphores have waiters than processes live |
| Verdicts.DescriptorAlwaysFound | src/exceptions.c:155-156 | The PANIC for want of a semaphore descriptor cannot occur while as many descriptors are left as processes live, hence never in the repaired build |
| Verdicts.DescriptorRunsOut | src/exceptions.c:145-156 | It occurs if and only if a P has to wait where nobody waits yet and as many semaphores have waiters as descriptors are left |
| Verdicts.SchedulerVerdict | src/scheduler.c:20-35 | HALT if and only if nobody lives; PANIC only when every live process is blocked on a semaphore no device or clock raises, and in the repaired build if and only if |
| Verdicts.RepairedIsClean | src/exceptions.c:37-42 | In the repaired build a non-null p_cursem in a live subtree always means blocked |
| Verdicts.AstrayExactly | src/interrupt.c:49 | A null pointer is followed exactly when the shipped build gets a timer interrupt with nobody running; allocPcb always yields a descriptor |
| Verdicts.BrokenExactly | src/exceptions.c:34-45 | An event breaks the lists exactly when it terminates somebody at or below whom a process is ready with a stale p_cursem, in the shipped build only |
| Verdicts.WokenThenKilled | src/exceptions.c:37-43 | Terminating somebody at or below whom a process is that a V has just woken breaks them in the shipped build, and never in the repaired one |
| Leaks.OwnDeath | src/exceptions.c:34-45 | When a caller terminates itself, its progeny loses no descriptor; its own stale p_cursem has that descriptor enqueued on the free list |
| Leaks.LossExactly | src/asl.c:119-126 | How many descriptors that costs: none if it serves some semaphore, otherwise those behind it on the free list, or all others there if it is last; one that had been lost comes back |
| Leaks.StepSlots | src/exceptions.c:37-42 | No other event changes the number of descriptors left |
| Leaks.ExecSlots | src/exceptions.c:37-42 | A run in which no caller with a stale p_cursem is terminated keeps all descriptors |
| Pids.PidFields | src/exceptions.c:28-31 | Below 2^27 creations and 32 processes the or of the two fields is their sum |
| Pids.CreatePids | src/exceptions.c:87-99 | createProcess keeps the book of identifiers: each live process holds the one of its own creation |
| Pids.PidsDistinct | src/exceptions.c:26-32 | Identifiers of a run are pairwise distinct, never 0, and never again 1 |
| Pids.LivePidsDiffer | src/exceptions.c:91 | Two live processes never share an identifier |
| Pids.PidIsErrorIff | src/exceptions.c:96-97 | An identifier equals the error value if and only if it is creation 2^27 - 1 with 31 processes |
| Pids.NoPidIsError | src/exceptions.c:96-97 | With at most 30 descriptors none does |
| Interrupt.TickLoop | src/interrupt.c:42-46 | The loop on memory is the function Tick, and terminates |
| Interrupt.HandleTimer | src/interrupt.c:32-57 | Tick, slice expiry and preemption on memory are the function HandleTimer |
| Interrupt.HandleDevice | src/interrupt.c:112-124 | The semaphore tail on memory is the function HandleDevice; the pointer followed is never null |
| Scheduling.Scheduler | src/scheduler.c:6-37 | Dispatch, HALT, WAIT and PANIC on memory are the function Scheduler |
| Waiting.StepAt | src/scheduler.c:10-13 | No event moves a ready process back, and one that ends with a dispatch moves it forward |
| Waiting.LeavesByDispatchOrDeath | src/scheduler.c:10-17 | A process leaves the ready queue only by becoming the running one or by being freed |
| Waiting.BoundedWaiting | src/scheduler.c:10-13 | In every run a process at position k of the ready queue stays on it until an event that dispatches or frees it, which comes with the (k + 1)-th dispatch at the latest |
| Handlers.Handle | src/exceptions.c:370-436 | For every event that can happen, a whole handler on memory, from its first clock reading to the dispatch, is one step of the transition system; exactly if that step is Broken the memory represents no state |
| Init.InitTables | src/pcb.c:7-14 | The loops of initPcbs and initASL put every descriptor, in order, on the free lists |
| Init.PowerOn | src/init.c:14-66 | main brings blank memory to the state in which the first process runs |
| Init.Run | src/init.c:65 | From power on through any possible sequence of events the memory represents the state of that run, with the invariant, the books and the verdicts; or, exactly if the run has broken the lists, no state |
| Reach.StartedOnDeadline | src/init.c:42-44 | The countdown starts out as a deadline |
| Reach.StartedTimes | src/pcb.c:24-25 | At the start of a run from power on nobody has any time, so that the sums of Accounts are those since creation |
| Reach.ExecGood | src/exceptions.c:119-161 | In every run each semaphore is the ideal one with the same history: its value is the initial one plus tokens put minus requests met; none goes below zero if none started there; identifiers belong to their holders; g_soft_block_count exceeds the processes blocked on devices or the clock by the number of processes terminated there in the shipped build, by nothing in the repaired one; nucleus semaphores keep their bounds if user processes leave them alone |
| Reach.ExecSane | src/scheduler.c:20-35 | In every run: PANIC for want of a descriptor only when fewer are left than processes live, PANIC of the scheduler only in a deadlock, HALT only when nobody lives; the repaired build follows no null pointer, breaks no list and never lacks a descriptor |
| Reach.BootedRun | src/init.c:14-66 | All of this in every state reached from power on; somebody is running or nobody is ready; the interval timer is loaded accordingly, and the countdown is its deadline if readings come close enough; no descriptor is ever missing if no caller with a stale p_cursem is terminated |
| Defects.FreedWhileReady | src/exceptions.c:37-43 | Freeing a process that is still on the ready queue leaves a ready queue that represents no sequence at all, or, if it was last, one that is the free list |
| Defects.BuriedIff | src/exceptions.c:43 | Freeing a process without relatives leaves a memory that represents the state in which it is free if it was on no queue, and one that represents no state if it was on the ready queue |
| Casualties.ExcessGrows | src/exceptions.c:38-39 | By how much each termination in the shipped build makes g_soft_block_count overstate |
| Casualties.ReapedAccounted | src/exceptions.c:38-39 | A batch of terminations keeps the account: the overstatement is the number of processes terminated while blocked on a device or the clock in the shipped build, zero in the repaired one |
| Casualties.DeadlockMissedIff | src/scheduler.c:23-35 | In a deadlock the scheduler stops with PANIC if and only if the count overstates nothing |
| Scenarios.BrokenMemory | src/exceptions.c:34-45 | Six system calls from power on, the last of which terminates a ready child: the code, run on memory, leaves one that represents no state |
| Scenarios.DescriptorMissing | src/exceptions.c:155-156 | Eleven system calls from power on, after which the shipped nucleus, on memory, stops for want of a descriptor, with two processes and one semaphore in use |
| Scenarios.DeadlockMissed | src/scheduler.c:23-35 | Calls from power on after which every live process is blocked for good and the shipped scheduler waits, the count being one too high |

## Left out

- Exceptions.TerminateProgeny: stops at the first process that is freed while on the ready queue; what the shipped code goes on to do with that memory is not modelled.
- Exceptions.TerminateProcess: the same.
- Handlers.Handle: after a null g_current_process has been followed in handleTimer, the mode Astray, nothing further is modelled.
- Overflow of the int semaphore values and of weight plus value is not modelled.
- Semaphores.TickWakesAll: assumes, as do all bounds on nucleus semaphores, that user processes do not name the nucleus's semaphores in SEMOP (Polite) and that the clock's semaphore is not a device's.
- Semaphores.DeviceStatusToWoken: the device's semaphore is given; the bitmap, the registers, the status decoding and the row chosen for terminals are not modelled.
- Deadline.ExecOnDeadline: assumes that all clock readings of a handler come less than 2^32 - 100000 after the last update before that handler; TicksExactly covers single gaps of any length.
- Pids.PidsDistinct: below 2^27 creations and 32 descriptors; beyond, the shift loses bits and identifiers repeat.
- Waiting.BoundedWaiting: counts dispatches, not time.
- The link cells are arrays; the other fields of process and semaphore descriptors are columns held as sequences in the Kernel object, so that aliasing between these fields and other memory is not captured.
- SYS4 to SYS8 and SYS11 change nothing that the model holds but the returned register: they are one passive call, and what exitTrap and getPid return is not modelled, nor the PANIC of exitTrap for an unknown kind. A second SYS4, SYS5 or SYS6 is SYS2 of the caller. A passed-up exception is the event PassUp; which registers it passes on is not modelled.
- LDST, WAIT, HALT and PANIC are outcomes (Mode); setTIMER is a recorded value; getTODLO is a true time given with each event, of which the nucleus sees the low 32 bits.
- Which of several pending interrupts is served first (src/interrupt.c:140-167): an event names the one that is.
- isDev is membership in a set of addresses; its actual address range, whose upper end lies past the array, is not modelled.
- SYS10 is a P for one token on a given device semaphore; its command word and line decoding are not modelled.
- src/p2test.c, src/debug.c, the register setup in src/init.c and the Makefile.
