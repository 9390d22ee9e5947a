/**
 The graceful-shutdown protocol of the proxy as interleaved atomic steps.

 One phase cell and one cancellation token are shared by any number of signal-handler tasks, one
 waiter and the drain tasks it spawns. Each action below is one access to the shared state, made by
 one task at one program point; any task may move next.
 */
module Shutdown {
  datatype Phase = Running | Draining | Drained | Aborted {
    function Rank(): nat {
      match this
      case Running => 0
      case Draining => 1
      case Drained => 2
      case Aborted => 3
    }
  }

  // Milliseconds.
  const SECOND_SIGNAL_WINDOW: nat := 5_000
  const DRAIN_HARD_DEADLINE: nat := 30_000

  datatype DrainResult = Clean | TimedOut

  datatype Task = Working | Returned(result: DrainResult) | Panicked {
    // What the collecting loop records for a finished task.
    function Verdict(): DrainResult {
      if Returned? then result else TimedOut
    }
  }

  // Where a signal handler stands.
  datatype Handler =
    | AwaitingFirst
    | FirstReceived              // about to read the phase
    | FoundDraining              // read a phase past Running; about to abort
    | FoundRunning               // read Running; about to start the drain
    | BeforeCancel               // has written the phase; about to cancel the token
    | InWindow(since: nat)       // waiting for a second signal
    | SecondReceived(since: nat, at: nat) // about to abort
    | Done

  // Where the waiter stands.
  datatype Waiter =
    | Registering
    | AwaitingDrain
    | DrainSeen                  // about to read the phase
    | Collecting(deadline: nat)
    | AbortPending(cause: Cause)
    | DrainedPending
    | Returning(verdict: Phase)

  // Why the phase cell was asked to become Aborted.
  datatype Cause =
    | LateSignal(handler: nat)
    | SecondSignal(handler: nat, since: nat, at: nat)
    | DeadlinePassed(deadline: nat, at: nat)
    | UncleanDrain(results: seq<DrainResult>)
    | AbortObserved              // the waiter saw somebody else's abort
  {
    predicate ByHandler() {
      LateSignal? || SecondSignal?
    }
  }

  datatype State = State(
    phase: Phase,
    cancelled: bool,
    now: nat,
    handlers: seq<Handler>,
    waiter: Waiter,
    registered: nat,
    tasks: seq<Task>,
    collected: seq<nat>,         // task numbers, in the order their results were taken
    results: seq<DrainResult>,
    aborts: seq<Cause>           // every call that asks for Aborted, oldest first
  )

  const INITIAL := State(Running, false, 0, [], Registering, 0, [], [], [], [])

  datatype Action =
    | Tick
    | Register
    | SpawnHandler
    | ReceiveFirst(h: nat)
    | ReadPhase(h: nat)
    | AbortLate(h: nat)
    | StartDrain(h: nat)
    | Cancel(h: nat)
    | ReceiveSecond(h: nat)
    | AbortSecond(h: nat)
    | CloseWindow(h: nat)
    | KillHandler(h: nat)
    | StartWaiting
    | SeeDrain
    | SpawnTasks
    | EndTask(task: nat, outcome: Task)
    | Collect(task: nat)
    | FinishCollecting
    | ReachDeadline
    | ObserveAbort
    | WriteAbort
    | WriteDrained

  predicate At(s: State, h: nat, pc: Handler) {
    h < |s.handlers| && s.handlers[h] == pc
  }

  predicate AllTaken(s: State) {
    forall i :: 0 <= i < |s.tasks| ==> i in s.collected
  }

  predicate Enabled(s: State, a: Action) {
    match a
    case Tick => true
    case Register => s.waiter.Registering?
    case SpawnHandler => s.waiter.Registering?
    case ReceiveFirst(h) => At(s, h, AwaitingFirst)
    case ReadPhase(h) => At(s, h, FirstReceived)
    case AbortLate(h) => At(s, h, FoundDraining)
    case StartDrain(h) => At(s, h, FoundRunning)
    case Cancel(h) => At(s, h, BeforeCancel)
    case ReceiveSecond(h) => h < |s.handlers| && s.handlers[h].InWindow?
    case AbortSecond(h) => h < |s.handlers| && s.handlers[h].SecondReceived?
    case CloseWindow(h) =>
      h < |s.handlers| && s.handlers[h].InWindow? && s.handlers[h].since + SECOND_SIGNAL_WINDOW <= s.now
    case KillHandler(h) => h < |s.handlers| && (s.handlers[h].AwaitingFirst? || s.handlers[h].InWindow?)
    case StartWaiting => s.waiter.Registering?
    case SeeDrain => s.waiter.AwaitingDrain? && s.phase != Running
    case SpawnTasks => s.waiter.DrainSeen?
    case EndTask(task, outcome) => task < |s.tasks| && s.tasks[task].Working? && !outcome.Working?
    case Collect(task) =>
      s.waiter.Collecting? && task < |s.tasks| && !s.tasks[task].Working? && task !in s.collected
    case FinishCollecting => s.waiter.Collecting? && AllTaken(s)
    case ReachDeadline => s.waiter.Collecting? && s.waiter.deadline <= s.now
    case ObserveAbort => s.waiter.Collecting? && s.phase == Aborted
    case WriteAbort => s.waiter.AbortPending?
    case WriteDrained => s.waiter.DrainedPending?
  }

  function MoveHandler(s: State, h: nat, pc: Handler): State
    requires h < |s.handlers|
  {
    s.(handlers := s.handlers[h := pc])
  }

  // The phase only ever advances to Aborted here.
  function Abort(s: State, cause: Cause): State {
    s.(phase := Aborted, aborts := s.aborts + [cause])
  }

  function Apply(s: State, a: Action): State
    requires Enabled(s, a)
  {
    match a
    case Tick => s.(now := s.now + 1)
    case Register => s.(registered := s.registered + 1)
    case SpawnHandler => s.(handlers := s.handlers + [AwaitingFirst])
    case ReceiveFirst(h) => MoveHandler(s, h, FirstReceived)
    case ReadPhase(h) => MoveHandler(s, h, if s.phase.Rank() >= Draining.Rank() then FoundDraining else FoundRunning)
    case AbortLate(h) => MoveHandler(Abort(s, LateSignal(h)), h, Done)
    case StartDrain(h) =>
      MoveHandler(if s.phase == Running then s.(phase := Draining) else s, h, BeforeCancel)
    case Cancel(h) => MoveHandler(s.(cancelled := true), h, InWindow(s.now))
    case ReceiveSecond(h) => MoveHandler(s, h, SecondReceived(s.handlers[h].since, s.now))
    case AbortSecond(h) =>
      MoveHandler(Abort(s, SecondSignal(h, s.handlers[h].since, s.handlers[h].at)), h, Done)
    case CloseWindow(h) => MoveHandler(s, h, Done)
    case KillHandler(h) => MoveHandler(s, h, Done)
    case StartWaiting => s.(waiter := AwaitingDrain)
    case SeeDrain => s.(waiter := DrainSeen)
    case SpawnTasks =>
      if s.phase == Aborted then s.(waiter := Returning(Aborted))
      else s.(waiter := Collecting(s.now + DRAIN_HARD_DEADLINE), tasks := seq(s.registered, _ => Working))
    case EndTask(task, outcome) => s.(tasks := s.tasks[task := outcome])
    case Collect(task) =>
      s.(collected := s.collected + [task], results := s.results + [s.tasks[task].Verdict()])
    case FinishCollecting =>
      s.(waiter := if TimedOut in s.results then AbortPending(UncleanDrain(s.results)) else DrainedPending)
    case ReachDeadline => s.(waiter := AbortPending(DeadlinePassed(s.waiter.deadline, s.now)))
    case ObserveAbort => s.(waiter := AbortPending(AbortObserved))
    case WriteAbort => Abort(s, s.waiter.cause).(waiter := Returning(Aborted))
    case WriteDrained =>
      s.(phase := if s.phase == Draining then Drained else s.phase, waiter := Returning(Drained))
  }

  // `states` is what `actions` do, from the start.
  ghost predicate IsRun(states: seq<State>, actions: seq<Action>) {
    && |states| == |actions| + 1
    && states[0] == INITIAL
    && forall i :: 0 <= i < |actions| ==>
         Enabled(states[i], actions[i]) && states[i + 1] == Apply(states[i], actions[i])
  }

  ghost predicate Reachable(s: State) {
    exists states, actions :: IsRun(states, actions) && states[|actions|] == s
  }
}
