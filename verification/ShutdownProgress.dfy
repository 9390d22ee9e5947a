/**
 What the shutdown protocol can still do: every signal has its effect, the waiter can always return, and each
 way of ending leads to the verdict it stands for.
 */
module ShutdownProgress {
  import opened Wrappers
  import opened Shutdown
  import opened ShutdownSafety

  // The state after these steps, if each of them can be taken.
  function Follow(s: State, actions: seq<Action>): Option<State>
    decreases |actions|
  {
    if actions == [] then Some(s)
    else if !Enabled(s, actions[0]) then None
    else Follow(Apply(s, actions[0]), actions[1..])
  }

  lemma FollowOne(s: State, a: Action)
    requires Enabled(s, a)
    ensures Follow(s, [a]) == Some(Apply(s, a))
  {
    assert [a][1..] == [];
  }

  lemma FollowTwo(s: State, a: Action, b: Action)
    requires Enabled(s, a) && Enabled(Apply(s, a), b)
    ensures Follow(s, [a, b]) == Some(Apply(Apply(s, a), b))
  {
    assert [a, b][1..] == [b];
    FollowOne(Apply(s, a), b);
  }

  lemma FollowThree(s: State, a: Action, b: Action, c: Action)
    requires Enabled(s, a) && Enabled(Apply(s, a), b) && Enabled(Apply(Apply(s, a), b), c)
    ensures Follow(s, [a, b, c]) == Some(Apply(Apply(Apply(s, a), b), c))
  {
    assert [a, b, c][1..] == [b, c];
    FollowTwo(Apply(s, a), b, c);
  }

  /// Signals

  // The first signal of a running proxy starts the drain and then cancels the token; the window opens.
  lemma FirstSignalDrains(s: State, h: nat)
    requires At(s, h, AwaitingFirst) && s.phase == Running
    ensures var t := Follow(s, [ReceiveFirst(h), ReadPhase(h), StartDrain(h)]);
            && t.Some? && t.value.phase == Draining && t.value.cancelled == s.cancelled
            && var u := Follow(t.value, [Cancel(h)]);
               && u.Some? && u.value.phase == Draining && u.value.cancelled && At(u.value, h, InWindow(s.now))
               && u.value.aborts == s.aborts
  {
    FollowThree(s, ReceiveFirst(h), ReadPhase(h), StartDrain(h));
    var t := Follow(s, [ReceiveFirst(h), ReadPhase(h), StartDrain(h)]).value;
    hide Follow;
    FollowOne(t, Cancel(h));
  }

  // A first signal that finds the drain started aborts, and so does a second signal while the window is open.
  lemma LaterSignalsAbort(s: State, h: nat)
    ensures At(s, h, AwaitingFirst) && s.phase != Running ==>
      var t := Follow(s, [ReceiveFirst(h), ReadPhase(h), AbortLate(h)]);
      t.Some? && t.value.phase == Aborted && At(t.value, h, Done)
    ensures h < |s.handlers| && s.handlers[h].InWindow? ==>
      var t := Follow(s, [ReceiveSecond(h), AbortSecond(h)]);
      t.Some? && t.value.phase == Aborted && At(t.value, h, Done)
  {
    if At(s, h, AwaitingFirst) && s.phase != Running {
      FollowThree(s, ReceiveFirst(h), ReadPhase(h), AbortLate(h));
    }
    if h < |s.handlers| && s.handlers[h].InWindow? {
      FollowTwo(s, ReceiveSecond(h), AbortSecond(h));
    }
  }

  // What a handler has read, it acts on: whether the phase was past Running decides between abort and drain.
  lemma HandlersActOnWhatTheyRead(s: State, h: nat)
    requires At(s, h, FirstReceived)
    ensures Enabled(s, ReadPhase(h))
    ensures var t := Apply(s, ReadPhase(h));
            && (Enabled(t, AbortLate(h)) <==> s.phase != Running)
            && (Enabled(t, StartDrain(h)) <==> s.phase == Running)
  {
  }

  // A window is closed at the earliest 5 seconds after its handler cancelled the token.
  lemma WindowsStayOpen(states: seq<State>, actions: seq<Action>, i: nat, h: nat)
    requires IsRun(states, actions) && i < |actions| && actions[i] == CloseWindow(h)
    ensures exists j :: 0 <= j < i && actions[j] == Cancel(h) && states[j].now + 5_000 <= states[i].now
  {
    Anchored(states, actions, i);
    StepOf(states, actions, i);
    assert HandlerAnchored(states, actions, i, h, states[i].handlers[h]);
  }

  /// The waiter

  // All results taken and clean: drained. All taken and one not clean, the deadline passed, or an abort seen:
  // aborted, whatever the phase was.
  lemma EachEndHasItsVerdict(s: State)
    requires s.waiter.Collecting?
    ensures AllTaken(s) && (forall k :: 0 <= k < |s.results| ==> s.results[k] == Clean) ==>
      var t := Follow(s, [FinishCollecting, WriteDrained]);
      && t.Some? && t.value.waiter == Returning(Drained)
      && (t.value.phase == if s.phase == Draining then Drained else s.phase) && t.value.aborts == s.aborts
    ensures AllTaken(s) && TimedOut in s.results ==>
      var t := Follow(s, [FinishCollecting, WriteAbort]);
      t.Some? && t.value.waiter == Returning(Aborted) && t.value.phase == Aborted
    ensures s.waiter.deadline <= s.now ==>
      var t := Follow(s, [ReachDeadline, WriteAbort]);
      t.Some? && t.value.waiter == Returning(Aborted) && t.value.phase == Aborted
    ensures s.phase == Aborted ==>
      var t := Follow(s, [ObserveAbort, WriteAbort]);
      t.Some? && t.value.waiter == Returning(Aborted) && t.value.phase == Aborted
  {
    hide *;
    if AllTaken(s) && forall k :: 0 <= k < |s.results| ==> s.results[k] == Clean {
      CleanEnd(s);
    }
    if AllTaken(s) && TimedOut in s.results {
      UncleanEnd(s);
    }
    if s.waiter.deadline <= s.now {
      LateEnd(s);
    }
    if s.phase == Aborted {
      AbortedEnd(s);
    }
  }

  lemma CleanEnd(s: State)
    requires s.waiter.Collecting? && AllTaken(s) && forall k :: 0 <= k < |s.results| ==> s.results[k] == Clean
    ensures var t := Follow(s, [FinishCollecting, WriteDrained]);
            && t.Some? && t.value.waiter == Returning(Drained)
            && (t.value.phase == if s.phase == Draining then Drained else s.phase) && t.value.aborts == s.aborts
  {
    assert TimedOut !in s.results;
    hide Follow, AllTaken;
    FollowTwo(s, FinishCollecting, WriteDrained);
  }

  lemma UncleanEnd(s: State)
    requires s.waiter.Collecting? && AllTaken(s) && TimedOut in s.results
    ensures var t := Follow(s, [FinishCollecting, WriteAbort]);
            t.Some? && t.value.waiter == Returning(Aborted) && t.value.phase == Aborted
  {
    hide Follow, AllTaken;
    FollowTwo(s, FinishCollecting, WriteAbort);
  }

  lemma LateEnd(s: State)
    requires s.waiter.Collecting? && s.waiter.deadline <= s.now
    ensures var t := Follow(s, [ReachDeadline, WriteAbort]);
            t.Some? && t.value.waiter == Returning(Aborted) && t.value.phase == Aborted
  {
    hide Follow, AllTaken;
    FollowTwo(s, ReachDeadline, WriteAbort);
  }

  lemma AbortedEnd(s: State)
    requires s.waiter.Collecting? && s.phase == Aborted
    ensures var t := Follow(s, [ObserveAbort, WriteAbort]);
            t.Some? && t.value.waiter == Returning(Aborted) && t.value.phase == Aborted
  {
    hide Follow, AllTaken;
    FollowTwo(s, ObserveAbort, WriteAbort);
  }

  // A finished task's result is taken once, a panic as one that is not clean.
  lemma ResultsAreTaken(s: State, task: nat)
    requires s.waiter.Collecting? && task < |s.tasks| && !s.tasks[task].Working? && task !in s.collected
    ensures Enabled(s, Collect(task)) && !Enabled(Apply(s, Collect(task)), Collect(task))
    ensures Apply(s, Collect(task)).results ==
            s.results + [if s.tasks[task] == Task.Returned(Clean) then Clean else TimedOut]
  {
    assert (s.collected + [task])[|s.collected|] == task;
    var outcome := s.tasks[task];
    assert outcome.Returned? ==> outcome.result == Clean || outcome.result == TimedOut;
  }

  predicate WaitersStep(a: Action) {
    || a.Tick? || a.StartWaiting? || a.SeeDrain? || a.SpawnTasks? || a.ReachDeadline? || a.WriteAbort?
    || a.WriteDrained?
  }

  function StepsLeft(waiter: Waiter): nat {
    match waiter
    case Registering => 6
    case AwaitingDrain => 5
    case DrainSeen => 4
    case Collecting(_) => 3
    case AbortPending(_) => 2
    case DrainedPending => 2
    case Returning(_) => 0
  }

  lemma FollowOn(s: State, a: Action, more: seq<Action>)
    requires Enabled(s, a)
    ensures Follow(s, [a] + more) == Follow(Apply(s, a), more)
  {
    assert ([a] + more)[1..] == more;
  }

  // The time that can still pass.
  function TimeLeft(s: State): nat {
    match s.waiter
    case Collecting(deadline) => if deadline > s.now then deadline - s.now else 0
    case Registering => 30_000
    case AwaitingDrain => 30_000
    case DrainSeen => 30_000
    case _ => 0
  }

  // Once the drain has started the waiter can return by steps of its own and the passing of time up to its
  // deadline, whatever signal handlers and drain tasks do.
  lemma {:induction false} WaiterCanReturn(s: State) returns (actions: seq<Action>)
    requires s.phase != Running
    ensures forall k :: 0 <= k < |actions| ==> WaitersStep(actions[k])
    ensures var t := Follow(s, actions); t.Some? && t.value.waiter.Returning? && t.value.now <= s.now + TimeLeft(s)
    decreases StepsLeft(s.waiter), TimeLeft(s)
  {
    hide Follow;
    if s.waiter.Returning? {
      actions := [];
      assert Follow(s, []) == Some(s) by { FollowNone(s); }
    } else {
      var a := match s.waiter
        case Registering => StartWaiting
        case AwaitingDrain => SeeDrain
        case DrainSeen => SpawnTasks
        case Collecting(deadline) => if deadline <= s.now then ReachDeadline else Tick
        case AbortPending(_) => WriteAbort
        case _ => WriteDrained;
      var more := WaiterCanReturn(Apply(s, a));
      actions := [a] + more;
      FollowOn(s, a, more);
    }
  }

  lemma FollowNone(s: State)
    ensures Follow(s, []) == Some(s)
  {
  }

  // In a run the deadline is never further away than that, so the waiter can return from every state.
  lemma DeadlineIsNear(states: seq<State>, actions: seq<Action>, i: nat)
    requires IsRun(states, actions) && i < |states| && states[i].waiter.Collecting?
    ensures TimeLeft(states[i]) <= 30_000
  {
    Anchored(states, actions, i);
    var j :| 0 <= j < i && actions[j] == SpawnTasks && states[i].waiter.deadline == states[j].now + 30_000;
    TimeGoesOn(states, actions, j, i);
  }

  lemma {:induction false} TimeGoesOn(states: seq<State>, actions: seq<Action>, j: nat, i: nat)
    requires IsRun(states, actions) && j <= i < |states|
    ensures states[j].now <= states[i].now
    decreases i - j
  {
    hide Enabled, Apply;
    if j < i {
      TimeGoesOn(states, actions, j, i - 1);
      assert states[i].now >= states[i - 1].now by { ClockStep(states, actions, i - 1); }
    }
  }

  lemma ClockStep(states: seq<State>, actions: seq<Action>, i: nat)
    requires IsRun(states, actions) && i < |actions|
    ensures states[i].now <= states[i + 1].now
  {
    WhoMoves(states[i], actions[i]);
  }
}
