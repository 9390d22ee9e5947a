/**
 What every run of the shutdown protocol keeps, however its tasks interleave.
 */
module ShutdownSafety {
  import opened Shutdown

  // The handler has passed its write of the phase.
  predicate PastDrainWrite(pc: Handler) {
    pc.BeforeCancel? || pc.InWindow? || pc.SecondReceived? || pc.Done?
  }

  /// The inductive invariant, one predicate for each concern.

  ghost predicate HandlersAgree(s: State) {
    forall h :: 0 <= h < |s.handlers| ==>
      match s.handlers[h]
      case FoundDraining => s.phase != Running
      case BeforeCancel => s.phase != Running
      case InWindow(since) => s.phase != Running && s.cancelled && since <= s.now
      case SecondReceived(since, at) => s.phase != Running && s.cancelled && since <= at <= s.now
      case _ => true
  }

  ghost predicate TokenAgrees(s: State) {
    && (s.cancelled ==> s.phase != Running)
    && (s.phase != Running && !s.cancelled ==> exists h :: 0 <= h < |s.handlers| && s.handlers[h] == BeforeCancel)
  }

  ghost predicate SomebodyStarted(s: State) {
    s.phase != Running ==> exists h :: 0 <= h < |s.handlers| && PastDrainWrite(s.handlers[h])
  }

  // Every recorded cause is true to its name.
  ghost predicate CauseIsReal(s: State, c: Cause) {
    match c
    case LateSignal(h) => h < |s.handlers|
    case SecondSignal(h, since, at) => h < |s.handlers| && since <= at <= s.now
    case DeadlinePassed(deadline, at) => DRAIN_HARD_DEADLINE <= deadline <= at <= s.now
    case UncleanDrain(results) => TimedOut in results && results == s.results
    case AbortObserved => s.phase == Aborted
  }

  ghost predicate AbortsAgree(s: State) {
    && (s.phase == Aborted <==> s.aborts != [])
    && (s.aborts != [] ==> s.aborts[0] != AbortObserved)
    && (forall k :: 0 <= k < |s.aborts| ==> CauseIsReal(s, s.aborts[k]))
    && (forall k :: 0 <= k < |s.aborts| && !s.aborts[k].ByHandler() ==> s.waiter == Returning(Aborted))
  }

  ghost predicate CollectionAgrees(s: State) {
    && |s.collected| == |s.results|
    && (forall k :: 0 <= k < |s.collected| ==>
          && s.collected[k] < |s.tasks| && !s.tasks[s.collected[k]].Working?
          && s.results[k] == s.tasks[s.collected[k]].Verdict())
    && (forall j, k :: 0 <= j < k < |s.collected| ==> s.collected[j] != s.collected[k])
  }

  ghost predicate WaiterAgrees(s: State) {
    && (s.phase == Drained ==> s.waiter == Returning(Drained))
    && match s.waiter
       case Registering => s.tasks == []
       case AwaitingDrain => s.tasks == []
       case DrainSeen => s.tasks == [] && s.phase != Running
       case Collecting(deadline) => |s.tasks| == s.registered && s.phase != Running && DRAIN_HARD_DEADLINE <= deadline
       case AbortPending(cause) => s.phase != Running && !cause.ByHandler() && CauseIsReal(s, cause)
       case DrainedPending => CleanlyDrained(s) && s.phase != Running
       case Returning(verdict) =>
         && (verdict == Aborted ==> s.phase == Aborted)
         && (verdict == Drained ==> CleanlyDrained(s) && s.phase in {Drained, Aborted})
         && verdict in {Drained, Aborted}
  }

  // One result for every registered subsystem, all of them clean.
  ghost predicate CleanlyDrained(s: State) {
    && |s.tasks| == s.registered
    && AllTaken(s)
    && TimedOut !in s.results
  }

  ghost predicate Inv(s: State) {
    && HandlersAgree(s) && TokenAgrees(s) && SomebodyStarted(s)
    && AbortsAgree(s) && CollectionAgrees(s) && WaiterAgrees(s)
  }

  predicate HandlerMoves(a: Action) {
    || a.ReceiveFirst? || a.ReadPhase? || a.AbortLate? || a.StartDrain? || a.Cancel? || a.ReceiveSecond?
    || a.AbortSecond? || a.CloseWindow? || a.KillHandler?
  }

  // A move of a handler leaves the waiter and its tasks alone, and any other move the handlers.
  lemma WhoMoves(s: State, a: Action)
    requires Enabled(s, a)
    ensures var s' := Apply(s, a);
            && |s.handlers| <= |s'.handlers| && s.now <= s'.now && |s.aborts| <= |s'.aborts|
            && (forall k :: 0 <= k < |s.aborts| ==> s'.aborts[k] == s.aborts[k])
            && (s.phase == Aborted ==> s'.phase == Aborted) && (s.phase != Running ==> s'.phase != Running)
            && (s.cancelled ==> s'.cancelled)
            && if HandlerMoves(a)
               then s'.waiter == s.waiter && s'.tasks == s.tasks && s'.collected == s.collected
                 && s'.results == s.results
                    && s'.registered == s.registered && s'.now == s.now && |s'.handlers| == |s.handlers|
                    && (s'.phase == Drained ==> s.phase == Drained)
               else (forall h :: 0 <= h < |s.handlers| ==> s'.handlers[h] == s.handlers[h])
                    && s'.cancelled == s.cancelled && (WaiterAgrees(s) && s.phase == Running ==> s'.phase == Running)
                    && (forall h :: |s.handlers| <= h < |s'.handlers| ==> s'.handlers[h] == AwaitingFirst)
  {
  }

  lemma StepKeepsPositions(s: State, a: Action)
    requires HandlersAgree(s) && Enabled(s, a)
    ensures HandlersAgree(Apply(s, a))
  {
    WhoMoves(s, a);
    if !HandlerMoves(a) {
      hide Enabled, Apply;
    }
  }

  lemma StepKeepsToken(s: State, a: Action)
    requires HandlersAgree(s) && TokenAgrees(s) && WaiterAgrees(s) && Enabled(s, a)
    ensures TokenAgrees(Apply(s, a))
  {
    var s' := Apply(s, a);
    WhoMoves(s, a);
    if s'.phase != Running && !s'.cancelled {
      if s.phase == Running {
        assert a.StartDrain? && s'.handlers[a.h] == BeforeCancel;
      } else {
        var b :| 0 <= b < |s.handlers| && s.handlers[b] == BeforeCancel;
        assert s'.handlers[b] == BeforeCancel;
      }
    }
  }

  lemma StepKeepsStarter(s: State, a: Action)
    requires HandlersAgree(s) && SomebodyStarted(s) && WaiterAgrees(s) && Enabled(s, a)
    ensures SomebodyStarted(Apply(s, a))
  {
    var s' := Apply(s, a);
    WhoMoves(s, a);
    if s'.phase != Running {
      if s.phase == Running {
        assert a.StartDrain? && s'.handlers[a.h] == BeforeCancel;
      } else {
        var h :| 0 <= h < |s.handlers| && PastDrainWrite(s.handlers[h]);
        assert PastDrainWrite(s'.handlers[h]);
      }
    }
  }

  lemma HandlerKeepsAborts(s: State, a: Action)
    requires HandlersAgree(s) && AbortsAgree(s) && Enabled(s, a) && HandlerMoves(a)
    ensures AbortsAgree(Apply(s, a))
  {
    hide AllTaken;
  }

  lemma WaiterKeepsAborts(s: State, a: Action)
    requires WaiterAgrees(s) && AbortsAgree(s) && Enabled(s, a) && !HandlerMoves(a)
    ensures AbortsAgree(Apply(s, a))
  {
    hide CleanlyDrained, AllTaken;
  }

  lemma StepKeepsCollection(s: State, a: Action)
    requires CollectionAgrees(s) && WaiterAgrees(s) && Enabled(s, a)
    ensures CollectionAgrees(Apply(s, a))
  {
    hide CauseIsReal, CleanlyDrained;
    if HandlerMoves(a) {
      WhoMoves(s, a);
      hide Enabled, Apply, WaiterAgrees;
    }
  }

  lemma HandlerKeepsWaiter(s: State, a: Action)
    requires WaiterAgrees(s) && HandlersAgree(s) && Enabled(s, a) && HandlerMoves(a)
    ensures WaiterAgrees(Apply(s, a))
  {
    WhoMoves(s, a);
    assert Apply(s, a).phase == s.phase || s.phase == Running || Apply(s, a).phase == Aborted;
    hide Enabled, Apply, HandlersAgree, PastDrainWrite;
  }

  lemma WaiterKeepsWaiter(s: State, a: Action)
    requires WaiterAgrees(s) && Enabled(s, a) && !HandlerMoves(a)
    ensures WaiterAgrees(Apply(s, a))
  {
    hide TokenAgrees, SomebodyStarted, CollectionAgrees, HandlersAgree, AbortsAgree;
  }

  lemma InvAlongRun(states: seq<State>, actions: seq<Action>, i: nat)
    requires IsRun(states, actions) && i < |states|
    ensures Inv(states[i])
  {
    if i > 0 {
      InvAlongRun(states, actions, i - 1);
      hide Enabled, Apply, HandlersAgree, TokenAgrees, SomebodyStarted, AbortsAgree, CollectionAgrees, WaiterAgrees;
      StepKeepsPositions(states[i - 1], actions[i - 1]);
      StepKeepsToken(states[i - 1], actions[i - 1]);
      StepKeepsStarter(states[i - 1], actions[i - 1]);
      StepKeepsCollection(states[i - 1], actions[i - 1]);
      if HandlerMoves(actions[i - 1]) {
        HandlerKeepsAborts(states[i - 1], actions[i - 1]);
        HandlerKeepsWaiter(states[i - 1], actions[i - 1]);
      } else {
        WaiterKeepsAborts(states[i - 1], actions[i - 1]);
        WaiterKeepsWaiter(states[i - 1], actions[i - 1]);
      }
    }
  }

  lemma ReachableInv(s: State)
    requires Reachable(s)
    ensures Inv(s)
  {
    var states, actions :| IsRun(states, actions) && states[|actions|] == s;
    InvAlongRun(states, actions, |actions|);
  }

  /// The phase

  // What one step may do to the phase.
  predicate PhaseStep(p: Phase, q: Phase) {
    || p == q
    || (p == Running && q == Draining)
    || (p == Draining && q in {Drained, Aborted})
    || (p == Drained && q == Aborted)
  }

  lemma OneStepOfThePhase(s: State, a: Action)
    requires Inv(s) && Enabled(s, a)
    ensures PhaseStep(s.phase, Apply(s, a).phase)
  {
  }

  // Over any stretch of any run the rank never falls, Aborted is never left, and Running is left
  // only through a state that is Draining.
  lemma PhaseMovesForward(states: seq<State>, actions: seq<Action>, i: nat, j: nat)
    requires IsRun(states, actions) && i <= j < |states|
    ensures states[i].phase.Rank() <= states[j].phase.Rank()
    ensures states[i].phase == Aborted ==> states[j].phase == Aborted
    ensures states[i].phase == Running && states[j].phase != Running
        ==> exists k :: i < k <= j && states[k].phase == Draining && states[k - 1].phase == Running
    decreases j - i
  {
    hide Inv, Enabled, Apply;
    if i < j {
      PhaseMovesForward(states, actions, i, j - 1);
      InvAlongRun(states, actions, j - 1);
      OneStepOfThePhase(states[j - 1], actions[j - 1]);
      if states[i].phase == Running && states[j].phase != Running && states[j - 1].phase == Running {
        assert states[j].phase == Draining;
      }
    }
  }

  /// The token

  // The token lags the phase only while some handler is between its two writes.
  lemma TokenFollowsPhase(s: State)
    requires Reachable(s)
    ensures s.cancelled ==> s.phase.Rank() >= Draining.Rank()
    ensures s.phase != Running && !s.cancelled ==> exists h :: At(s, h, BeforeCancel)
    ensures (forall h :: !At(s, h, BeforeCancel)) ==> (s.cancelled <==> s.phase != Running)
  {
    ReachableInv(s);
    if s.phase != Running && !s.cancelled {
      var h :| 0 <= h < |s.handlers| && s.handlers[h] == BeforeCancel;
      assert At(s, h, BeforeCancel);
    }
  }

  /// The verdict

  // A verdict of Aborted is the phase from then on. A verdict of Drained means one clean result for
  // every registered subsystem. The phase is Drained only after that verdict.
  lemma VerdictIsTrue(states: seq<State>, actions: seq<Action>, i: nat, j: nat)
    requires IsRun(states, actions) && i <= j < |states|
    ensures states[i].waiter == Returning(Aborted) ==> states[j].phase == Aborted
    ensures states[i].waiter == Returning(Drained) ==>
              && |states[i].results| == |states[i].tasks| == states[i].registered
              && (forall k :: 0 <= k < |states[i].results| ==> states[i].results[k] == Clean)
              && (forall t :: 0 <= t < states[i].registered ==> states[i].tasks[t] == Task.Returned(Clean))
              && states[j].phase in {Drained, Aborted}
    ensures states[j].phase == Drained ==> states[j].waiter == Returning(Drained)
  {
    InvAlongRun(states, actions, i);
    InvAlongRun(states, actions, j);
    PhaseMovesForward(states, actions, i, j);
    var s := states[i];
    if s.waiter == Returning(Drained) {
      EachTaskOnce(s.collected, |s.tasks|);
      forall t | 0 <= t < s.registered ensures s.tasks[t] == Task.Returned(Clean) {
        assert t in s.collected;
        var k :| 0 <= k < |s.collected| && s.collected[k] == t;
        assert s.results[k] == s.tasks[t].Verdict() && s.results[k] in s.results;
      }
    }
  }

  // Distinct numbers below `n` that cover all of them are `n` numbers.
  lemma EachTaskOnce(taken: seq<nat>, n: nat)
    requires forall k :: 0 <= k < |taken| ==> taken[k] < n
    requires forall j, k :: 0 <= j < k < |taken| ==> taken[j] != taken[k]
    requires forall t :: 0 <= t < n ==> t in taken
    ensures |taken| == n
  {
    if n == 0 {
      return;
    }
    assert n - 1 in taken;
    var p :| 0 <= p < |taken| && taken[p] == n - 1;
    var rest := taken[..p] + taken[p + 1..];
    forall t | 0 <= t < n - 1 ensures t in rest {
      assert t in taken;
      var k :| 0 <= k < |taken| && taken[k] == t;
      assert k < p ==> rest[k] == t;
      assert k > p ==> rest[k - 1] == t;
    }
    EachTaskOnce(rest, n - 1);
  }

  /// Why a run aborts

  // Before step `i`, handler `h` cancelled the token at time `since`, and its window opened.
  ghost predicate Cancelled(states: seq<State>, actions: seq<Action>, i: nat, h: nat, since: nat)
    requires |states| == |actions| + 1 && i < |states|
  {
    exists j :: 0 <= j < i && actions[j] == Cancel(h) && states[j].now == since
  }

  // After that it received a second signal, at time `at`.
  ghost predicate SignalledTwice(states: seq<State>, actions: seq<Action>, i: nat, h: nat, since: nat, at: nat)
    requires |states| == |actions| + 1 && i < |states|
  {
    exists k :: 0 <= k < i && actions[k] == ReceiveSecond(h) && states[k].now == at
      && Cancelled(states, actions, k, h, since)
  }

  // The drain tasks were spawned 30 seconds before `deadline`.
  ghost predicate SpawnedFor(states: seq<State>, actions: seq<Action>, i: nat, deadline: nat)
    requires |states| == |actions| + 1 && i < |states|
  {
    exists j :: 0 <= j < i && actions[j] == SpawnTasks && deadline == states[j].now + 30_000
  }

  // The waiter was still collecting results at time `at`, when the deadline had passed.
  ghost predicate RanOut(states: seq<State>, actions: seq<Action>, i: nat, deadline: nat, at: nat)
    requires |states| == |actions| + 1 && i < |states|
  {
    exists k :: 0 <= k < i && actions[k] == ReachDeadline && states[k].now == at && deadline <= at
             && SpawnedFor(states, actions, k, deadline)
  }

  // The events a cause speaks of are steps of the run.
  ghost predicate Happened(states: seq<State>, actions: seq<Action>, i: nat, c: Cause)
    requires |states| == |actions| + 1 && i < |states|
  {
    match c
    case SecondSignal(h, since, at) => SignalledTwice(states, actions, i, h, since, at)
    case DeadlinePassed(deadline, at) => RanOut(states, actions, i, deadline, at)
    case _ => true
  }

  ghost predicate HandlerAnchored(states: seq<State>, actions: seq<Action>, i: nat, h: nat, pc: Handler)
    requires |states| == |actions| + 1 && i < |states|
  {
    match pc
    case InWindow(since) => Cancelled(states, actions, i, h, since)
    case SecondReceived(since, at) => SignalledTwice(states, actions, i, h, since, at)
    case _ => true
  }

  ghost predicate HandlersAnchored(states: seq<State>, actions: seq<Action>, i: nat)
    requires |states| == |actions| + 1 && i < |states|
  {
    forall h: nat :: h < |states[i].handlers| ==> HandlerAnchored(states, actions, i, h, states[i].handlers[h])
  }

  ghost predicate WaiterAnchored(states: seq<State>, actions: seq<Action>, i: nat)
    requires |states| == |actions| + 1 && i < |states|
  {
    match states[i].waiter
    case Collecting(deadline) => SpawnedFor(states, actions, i, deadline)
    case AbortPending(cause) => Happened(states, actions, i, cause)
    case _ => true
  }

  ghost predicate AbortsAnchored(states: seq<State>, actions: seq<Action>, i: nat)
    requires |states| == |actions| + 1 && i < |states|
  {
    forall k :: 0 <= k < |states[i].aborts| ==> Happened(states, actions, i, states[i].aborts[k])
  }

  lemma StillHappened(states: seq<State>, actions: seq<Action>, i: nat, c: Cause)
    requires |states| == |actions| + 1 && i + 1 < |states| && Happened(states, actions, i, c)
    ensures Happened(states, actions, i + 1, c)
  {
    hide Cancelled, SpawnedFor;
  }

  lemma HandlersStayAnchored(states: seq<State>, actions: seq<Action>, i: nat)
    requires IsRun(states, actions) && i < |actions| && HandlersAnchored(states, actions, i)
    ensures HandlersAnchored(states, actions, i + 1)
  {
    var s, a, s' := states[i], actions[i], states[i + 1];
    forall h: nat | h < |s'.handlers|
      ensures HandlerAnchored(states, actions, i + 1, h, s'.handlers[h])
    {
      if a == Cancel(h) {
      } else if a == ReceiveSecond(h) {
        assert Cancelled(states, actions, i, h, s.handlers[h].since);
      } else if h < |s.handlers| && s'.handlers[h] == s.handlers[h] {
        if s.handlers[h].SecondReceived? {
          StillHappened(states, actions, i, SecondSignal(h, s.handlers[h].since, s.handlers[h].at));
        }
      }
    }
  }

  lemma WaiterStaysAnchored(states: seq<State>, actions: seq<Action>, i: nat)
    requires IsRun(states, actions) && i < |actions| && WaiterAnchored(states, actions, i)
    ensures WaiterAnchored(states, actions, i + 1)
  {
    var s, a := states[i], actions[i];
    WhoMoves(s, a);
    if s.waiter.AbortPending? {
      StillHappened(states, actions, i, s.waiter.cause);
    }
  }

  lemma AbortsStayAnchored(states: seq<State>, actions: seq<Action>, i: nat)
    requires IsRun(states, actions) && i < |actions|
    requires HandlersAnchored(states, actions, i) && WaiterAnchored(states, actions, i)
        && AbortsAnchored(states, actions, i)
    ensures AbortsAnchored(states, actions, i + 1)
  {
    var s, a, s' := states[i], actions[i], states[i + 1];
    forall k | 0 <= k < |s'.aborts| ensures Happened(states, actions, i + 1, s'.aborts[k]) {
      NewAbort(s, a, k);
      if k < |s.aborts| {
        StillHappened(states, actions, i, s.aborts[k]);
      } else if a.WriteAbort? {
        StillHappened(states, actions, i, s.waiter.cause);
      } else if a.AbortSecond? {
        StillHappened(states, actions, i, SecondSignal(a.h, s.handlers[a.h].since, s.handlers[a.h].at));
      }
    }
  }

  lemma NewAbort(s: State, a: Action, k: nat)
    requires Enabled(s, a) && k < |Apply(s, a).aborts|
    ensures var c := Apply(s, a).aborts[k];
            || (k < |s.aborts| && c == s.aborts[k])
            || (a.WriteAbort? && c == s.waiter.cause)
            || (a.AbortSecond? && c == SecondSignal(a.h, s.handlers[a.h].since, s.handlers[a.h].at))
            || c.LateSignal?
  {
  }

  lemma {:induction false} Anchored(states: seq<State>, actions: seq<Action>, i: nat)
    requires IsRun(states, actions) && i < |states|
    ensures HandlersAnchored(states, actions, i) && WaiterAnchored(states, actions, i)
        && AbortsAnchored(states, actions, i)
  {
    if i > 0 {
      Anchored(states, actions, i - 1);
      HandlersStayAnchored(states, actions, i - 1);
      WaiterStaysAnchored(states, actions, i - 1);
      AbortsStayAnchored(states, actions, i - 1);
    }
  }

  // A drain task has returned `TimedOut` or panicked.
  ghost predicate SomeTaskFailed(s: State) {
    exists t :: 0 <= t < |s.tasks| && s.tasks[t] in [Task.Returned(TimedOut), Panicked]
  }

  // Aborted always has a first cause, and the steps it speaks of are in the run: a second signal received
  // by a handler whose window was open, a deadline 30 seconds after the drain tasks were spawned, a
  // failed task. It is never only an observed abort.
  lemma AbortHasACause(states: seq<State>, actions: seq<Action>, i: nat)
    requires IsRun(states, actions) && i < |states|
    ensures states[i].phase == Aborted <==> states[i].aborts != []
    ensures states[i].phase == Aborted ==>
              match states[i].aborts[0]
              case LateSignal(h) => |states[i].handlers| >= 2
              case SecondSignal(h, since, at) => SignalledTwice(states, actions, i, h, since, at)
              case DeadlinePassed(deadline, at) => RanOut(states, actions, i, deadline, at)
              case UncleanDrain(results) => SomeTaskFailed(states[i])
              case AbortObserved => false
  {
    InvAlongRun(states, actions, i);
    Anchored(states, actions, i);
    hide SignalledTwice, RanOut;
    var s := states[i];
    if s.phase == Aborted {
      var c := s.aborts[0];
      assert Happened(states, actions, i, c) && CauseIsReal(s, c);
      if c.LateSignal? {
        LateSignalsNeedTwoHandlers(states, actions, i, 0);
      } else if c.UncleanDrain? {
        var k :| 0 <= k < |s.results| && s.results[k] == TimedOut;
        assert s.tasks[s.collected[k]] in [Task.Returned(TimedOut), Panicked];
      }
    }
  }

  lemma {:induction false} LateSignalsNeedTwoHandlers(states: seq<State>, actions: seq<Action>, i: nat, k: nat)
    requires IsRun(states, actions) && i < |states|
    requires k < |states[i].aborts| && states[i].aborts[k].LateSignal?
    ensures |states[i].handlers| >= 2
  {
    if i > 0 {
      InvAlongRun(states, actions, i - 1);
      LateSignalStep(states[i - 1], actions[i - 1], k);
      if k < |states[i - 1].aborts| {
        LateSignalsNeedTwoHandlers(states, actions, i - 1, k);
      }
    }
  }

  lemma LateSignalStep(s: State, a: Action, k: nat)
    requires Inv(s) && Enabled(s, a)
    requires k < |Apply(s, a).aborts| && Apply(s, a).aborts[k].LateSignal?
    ensures |s.handlers| <= |Apply(s, a).handlers|
    ensures if k < |s.aborts| then s.aborts[k].LateSignal? else |s.handlers| >= 2
  {
    hide TokenAgrees, CollectionAgrees, CleanlyDrained;
    if k >= |s.aborts| {
      var h :| 0 <= h < |s.handlers| && PastDrainWrite(s.handlers[h]);
      assert a.AbortLate? && s.handlers[a.h] == FoundDraining && h != a.h;
    }
  }

  // Time does not run past the end of a signal window before its handler has looked.
  ghost predicate Prompt(states: seq<State>, actions: seq<Action>)
    requires IsRun(states, actions)
  {
    forall i, h :: 0 <= i < |actions| && 0 <= h < |states[i].handlers| && actions[i] == Tick
        && states[i].handlers[h].InWindow?
      ==> states[i].now < states[i].handlers[h].since + SECOND_SIGNAL_WINDOW
  }

  predicate SignalInWindow(c: Cause) {
    c.SecondSignal? ==> c.at <= c.since + 5_000
  }

  ghost predicate WindowsOpen(s: State) {
    && (forall h :: 0 <= h < |s.handlers| && s.handlers[h].InWindow? ==>
          s.now <= s.handlers[h].since + SECOND_SIGNAL_WINDOW)
    && (forall h :: 0 <= h < |s.handlers| && s.handlers[h].SecondReceived? ==>
          s.handlers[h].at <= s.handlers[h].since + SECOND_SIGNAL_WINDOW)
    && (forall k :: 0 <= k < |s.aborts| ==> SignalInWindow(s.aborts[k]))
    && (s.waiter.AbortPending? ==> SignalInWindow(s.waiter.cause))
  }

  // With a prompt scheduler a second signal aborts only if it comes within 5 seconds of the moment its
  // handler cancelled the token.
  lemma {:induction false} SecondSignalsComeInTime(states: seq<State>, actions: seq<Action>, i: nat)
    requires IsRun(states, actions) && Prompt(states, actions) && i < |states|
    ensures WindowsOpen(states[i])
    ensures forall k :: 0 <= k < |states[i].aborts| ==>
              SignalInWindow(states[i].aborts[k]) && Happened(states, actions, i, states[i].aborts[k])
  {
    hide Happened;
    Anchored(states, actions, i);
    if i > 0 {
      SecondSignalsComeInTime(states, actions, i - 1);
      var s, a := states[i - 1], actions[i - 1];
      if a == Tick {
        forall h | 0 <= h < |s.handlers| && s.handlers[h].InWindow?
          ensures s.now < s.handlers[h].since + SECOND_SIGNAL_WINDOW
        {
          assert actions[i - 1] == Tick;
        }
      }
      WindowStep(s, a);
    }
  }

  lemma WindowStep(s: State, a: Action)
    requires WindowsOpen(s) && Enabled(s, a)
    requires a == Tick ==> forall h :: 0 <= h < |s.handlers| && s.handlers[h].InWindow? ==>
               s.now < s.handlers[h].since + SECOND_SIGNAL_WINDOW
    ensures WindowsOpen(Apply(s, a))
  {
  }

  // With one handler, the token is cancelled once, by that handler.
  predicate CancelledByTheOne(s: State) {
    |s.handlers| <= 1 && s.cancelled ==>
      && |s.handlers| == 1
      && (s.handlers[0].InWindow? || s.handlers[0].SecondReceived? || s.handlers[0].Done?)
  }

  lemma CancelStep(s: State, a: Action)
    requires Enabled(s, a) && CancelledByTheOne(s)
    ensures CancelledByTheOne(Apply(s, a))
  {
    WhoMoves(s, a);
  }

  lemma StepOf(states: seq<State>, actions: seq<Action>, i: nat)
    requires IsRun(states, actions) && i < |actions|
    ensures |states| == |actions| + 1 && Enabled(states[i], actions[i]) && states[i + 1] == Apply(states[i], actions[i])
    ensures |states[i].handlers| <= |states[i + 1].handlers|
  {
    WhoMoves(states[i], actions[i]);
  }

  lemma {:induction false} OneHandlerCancelsOnce(states: seq<State>, actions: seq<Action>, i: nat)
    requires IsRun(states, actions) && i < |states|
    ensures CancelledByTheOne(states[i])
  {
    hide Enabled, Apply, CancelledByTheOne;
    if i > 0 {
      StepOf(states, actions, i - 1);
      OneHandlerCancelsOnce(states, actions, i - 1);
      CancelStep(states[i - 1], actions[i - 1]);
    } else {
      assert CancelledByTheOne(INITIAL) by { StartsUncancelled(); }
    }
  }

  lemma StartsUncancelled()
    ensures CancelledByTheOne(INITIAL)
  {
  }

  lemma {:induction false} HandlersOnlyGrow(states: seq<State>, actions: seq<Action>, j: nat, i: nat)
    requires IsRun(states, actions) && j <= i < |states|
    ensures |states[j].handlers| <= |states[i].handlers|
    decreases i - j
  {
    hide Enabled, Apply;
    if j < i {
      HandlersOnlyGrow(states, actions, j, i - 1);
      StepOf(states, actions, i - 1);
    }
  }

  // The handler cancelled the token, and then received a second signal: within 5 seconds if the
  // scheduler is prompt.
  ghost predicate SecondSignalCame(states: seq<State>, actions: seq<Action>, i: nat)
    requires IsRun(states, actions) && i < |states|
  {
    exists j, k :: 0 <= j < k < i && actions[j] == Cancel(0) && actions[k] == ReceiveSecond(0)
                && !states[j].cancelled && states[j + 1].cancelled
                && (Prompt(states, actions) ==> states[k].now <= states[j].now + 5_000)
  }

  // The drain tasks were spawned, and 30 seconds later the waiter was still collecting.
  ghost predicate DrainedTooLong(states: seq<State>, actions: seq<Action>, i: nat)
    requires |states| == |actions| + 1 && i < |states|
  {
    exists j, k :: 0 <= j < k < i && actions[j] == SpawnTasks && actions[k] == ReachDeadline
                && states[j].now + 30_000 <= states[k].now
  }

  lemma TooLong(states: seq<State>, actions: seq<Action>, i: nat, deadline: nat, at: nat)
    requires |states| == |actions| + 1 && i < |states| && RanOut(states, actions, i, deadline, at)
    ensures DrainedTooLong(states, actions, i)
  {
    var k :| 0 <= k < i && actions[k] == ReachDeadline && states[k].now == at && deadline <= at
          && SpawnedFor(states, actions, k, deadline);
  }

  lemma FirstCancel(states: seq<State>, actions: seq<Action>, j: nat)
    requires IsRun(states, actions) && j < |actions| && actions[j].Cancel? && |states[j].handlers| <= 1
    ensures actions[j] == Cancel(0) && !states[j].cancelled && states[j + 1].cancelled
  {
    OneHandlerCancelsOnce(states, actions, j);
    StepOf(states, actions, j);
  }

  lemma SecondCame(states: seq<State>, actions: seq<Action>, i: nat, c: Cause)
    requires IsRun(states, actions) && i < |states| && |states[i].handlers| <= 1
    requires c.SecondSignal? && SignalledTwice(states, actions, i, c.handler, c.since, c.at)
    requires Prompt(states, actions) ==> SignalInWindow(c)
    ensures SecondSignalCame(states, actions, i)
  {
    hide Enabled, Apply, Prompt;
    var k :| 0 <= k < i && actions[k] == ReceiveSecond(c.handler) && states[k].now == c.at
          && Cancelled(states, actions, k, c.handler, c.since);
    var j :| 0 <= j < k && actions[j] == Cancel(c.handler) && states[j].now == c.since;
    HandlersOnlyGrow(states, actions, j, i);
    FirstCancel(states, actions, j);
  }

  // With the one signal handler the proxy spawns, only three things abort: a second signal, 30 seconds of
  // draining, and a drain task that failed.
  lemma OneHandlerAbortsForThreeReasons(states: seq<State>, actions: seq<Action>, i: nat)
    requires IsRun(states, actions) && i < |states| && |states[i].handlers| <= 1 && states[i].phase == Aborted
    ensures SecondSignalCame(states, actions, i) || DrainedTooLong(states, actions, i) || SomeTaskFailed(states[i])
  {
    AbortHasACause(states, actions, i);
    hide Enabled, Apply, Prompt, SignalledTwice, RanOut, SecondSignalCame, DrainedTooLong, SomeTaskFailed;
    var c := states[i].aborts[0];
    if c.SecondSignal? {
      if Prompt(states, actions) {
        SecondSignalsComeInTime(states, actions, i);
      }
      SecondCame(states, actions, i, c);
    } else if c.DeadlinePassed? {
      TooLong(states, actions, i, c.deadline, c.at);
    }
  }

  /// The value returned

  predicate AbortsByHandler(a: Action) {
    a.AbortLate? || a.AbortSecond?
  }

  ghost predicate HandlerAborted(s: State) {
    exists k :: 0 <= k < |s.aborts| && s.aborts[k].ByHandler()
  }

  lemma HandlerAbortStep(s: State, a: Action)
    requires Enabled(s, a) && WaiterAgrees(s)
    ensures HandlerAborted(Apply(s, a)) <==> HandlerAborted(s) || AbortsByHandler(a)
  {
    var s' := Apply(s, a);
    WhoMoves(s, a);
    if HandlerAborted(s) {
      var k :| 0 <= k < |s.aborts| && s.aborts[k].ByHandler();
      assert s'.aborts[k].ByHandler();
    }
    if AbortsByHandler(a) {
      assert s'.aborts[|s.aborts|].ByHandler();
    }
    if HandlerAborted(s') {
      var k :| 0 <= k < |s'.aborts| && s'.aborts[k].ByHandler();
      NewAbort(s, a, k);
      assert k < |s.aborts| ==> s.aborts[k].ByHandler();
    }
  }

  lemma DrainedStep(s: State, a: Action)
    requires Enabled(s, a)
    ensures Apply(s, a).waiter == Returning(Drained) <==> s.waiter == Returning(Drained) || a == WriteDrained
  {
  }

  // What the waiter has returned and whether a handler has aborted is decided by the steps taken.
  lemma {:induction false} DecidedBySteps(states: seq<State>, actions: seq<Action>, i: nat)
    requires IsRun(states, actions) && i < |states|
    ensures states[i].waiter == Returning(Drained) <==> exists j :: 0 <= j < i && actions[j] == WriteDrained
    ensures HandlerAborted(states[i]) <==> exists k :: 0 <= k < i && AbortsByHandler(actions[k])
  {
    hide Enabled, Apply, HandlerAborted, AbortsByHandler, Inv;
    if i > 0 {
      DecidedBySteps(states, actions, i - 1);
      StepOf(states, actions, i - 1);
      WaiterAgreesAlongRun(states, actions, i - 1);
      HandlerAbortStep(states[i - 1], actions[i - 1]);
      DrainedStep(states[i - 1], actions[i - 1]);
    } else {
      assert !HandlerAborted(INITIAL) by { NobodyAborted(); }
    }
  }

  lemma NobodyAborted()
    ensures !HandlerAborted(INITIAL)
  {
  }

  lemma WaiterAgreesAlongRun(states: seq<State>, actions: seq<Action>, i: nat)
    requires IsRun(states, actions) && i < |states|
    ensures WaiterAgrees(states[i])
  {
    hide WaiterAgrees;
    InvAlongRun(states, actions, i);
  }

  lemma DrainedUnlessAborted(s: State)
    requires Inv(s) && s.waiter.Returning?
    ensures s.waiter.verdict == s.phase <==> !(s.waiter == Returning(Drained) && HandlerAborted(s))
  {
    if s.waiter.verdict == Drained && s.aborts != [] {
      assert s.aborts[0].ByHandler();
    }
  }

  // `wait_for_drained` is documented to return the final phase. It does exactly if the run does not hold both
  // the waiter's last write and, before it or after it, the write of a handler that aborts.
  lemma VerdictIsThePhaseUnlessAHandlerAborted(states: seq<State>, actions: seq<Action>, i: nat)
    requires IsRun(states, actions) && i < |states| && states[i].waiter.Returning?
    ensures states[i].waiter.verdict == states[i].phase <==>
            !((exists j :: 0 <= j < i && actions[j] == WriteDrained)
              && exists k :: 0 <= k < i && AbortsByHandler(actions[k]))
  {
    InvAlongRun(states, actions, i);
    DecidedBySteps(states, actions, i);
    hide Inv, HandlerAborted, AbortsByHandler, Shutdown.IsRun;
    DrainedUnlessAborted(states[i]);
  }

  /// Drained is not final

  lemma Extend(s: State, a: Action)
    requires Reachable(s) && Enabled(s, a)
    ensures Reachable(Apply(s, a))
  {
    var states, actions :| IsRun(states, actions) && states[|actions|] == s;
    var states', actions' := states + [Apply(s, a)], actions + [a];
    assert IsRun(states', actions') && states'[|actions'|] == Apply(s, a);
  }

  function Start(pc: Handler, phase: Phase, cancelled: bool, waiter: Waiter): State {
    State(phase, cancelled, 0, [pc], waiter, 0, [], [], [], [])
  }

  lemma Move(s: State, a: Action, s': State)
    requires Reachable(s) && Enabled(s, a) && Apply(s, a) == s'
    ensures Reachable(s')
  {
    Extend(s, a);
  }

  // One handler, no subsystems: the waiter waits and the first signal comes.
  lemma SignalJustCame() returns (s: State)
    ensures Reachable(s) && s == Start(FirstReceived, Running, false, AwaitingDrain)
  {
    var none: seq<Action> := [];
    assert IsRun([INITIAL], none) && [INITIAL][|none|] == INITIAL;
    hide Shutdown.Reachable;
    Move(INITIAL, SpawnHandler, Start(AwaitingFirst, Running, false, Registering));
    Move(Start(AwaitingFirst, Running, false, Registering), StartWaiting,
         Start(AwaitingFirst, Running, false, AwaitingDrain));
    s := Start(FirstReceived, Running, false, AwaitingDrain);
    Move(Start(AwaitingFirst, Running, false, AwaitingDrain), ReceiveFirst(0), s);
  }

  lemma DrainJustStarted() returns (s: State)
    ensures Reachable(s) && s == Start(InWindow(0), Draining, true, AwaitingDrain)
  {
    hide Shutdown.Reachable;
    s := SignalJustCame();
    Move(s, ReadPhase(0), Start(FoundRunning, Running, false, AwaitingDrain));
    Move(Start(FoundRunning, Running, false, AwaitingDrain), StartDrain(0),
         Start(BeforeCancel, Draining, false, AwaitingDrain));
    s := Start(InWindow(0), Draining, true, AwaitingDrain);
    Move(Start(BeforeCancel, Draining, false, AwaitingDrain), Cancel(0), s);
  }

  // The drain has just been found complete, inside the signal window.
  lemma DrainJustCompleted() returns (s: State)
    ensures Reachable(s) && s == Start(InWindow(0), Draining, true, DrainedPending)
  {
    hide Shutdown.Reachable;
    s := DrainJustStarted();
    Move(s, SeeDrain, Start(InWindow(0), Draining, true, DrainSeen));
    Move(Start(InWindow(0), Draining, true, DrainSeen), SpawnTasks,
         Start(InWindow(0), Draining, true, Collecting(DRAIN_HARD_DEADLINE)));
    s := Start(InWindow(0), Draining, true, DrainedPending);
    Move(Start(InWindow(0), Draining, true, Collecting(DRAIN_HARD_DEADLINE)), FinishCollecting, s);
  }

  // A second signal still turns Drained into Aborted, after the waiter has returned Drained.
  lemma DrainedCanBecomeAborted() returns (before: State, after: State)
    ensures Reachable(before) && before.phase == Drained && before.waiter == Returning(Drained)
    ensures Reachable(after) && after.phase == Aborted && after.waiter == Returning(Drained)
    ensures Enabled(before, AbortSecond(0)) && after == Apply(before, AbortSecond(0))
  {
    hide Shutdown.Reachable;
    var s := DrainJustCompleted();
    Extend(s, WriteDrained);     s := Apply(s, WriteDrained);
    Extend(s, ReceiveSecond(0)); before := Apply(s, ReceiveSecond(0));
    Extend(before, AbortSecond(0));
    after := Apply(before, AbortSecond(0));
  }

  // The waiter can even return Drained when the phase never was: the abort came first, the write of
  // Drained did nothing, and the value returned was not read back.
  lemma DrainedCanBeReturnedWhileAborted() returns (before: State, after: State)
    ensures Reachable(before) && before.phase == Aborted && before.waiter == DrainedPending
    ensures Reachable(after) && after.phase == Aborted && after.waiter == Returning(Drained)
    ensures Enabled(before, WriteDrained) && after == Apply(before, WriteDrained)
  {
    hide Shutdown.Reachable;
    var s := DrainJustCompleted();
    Extend(s, ReceiveSecond(0)); s := Apply(s, ReceiveSecond(0));
    Extend(s, AbortSecond(0));   before := Apply(s, AbortSecond(0));
    Extend(before, WriteDrained);
    after := Apply(before, WriteDrained);
  }
}
