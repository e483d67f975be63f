/** Taking back an assignment that was never confirmed: exactly when it can do no harm. */
module Reaping {
  import opened Options
  import opened Wire
  import opened Replay
  import opened ReplayTheorems
  import opened Jobs

  // ---------------------------------------------------------------------
  // Undisturbed runs from one state to another
  // ---------------------------------------------------------------------

  /** Some undisturbed run leads from `y` to `z`. */
  ghost predicate Reaches(y: System, z: System) {
    exists acts :: SystemRun(y, acts) && Undisturbed(acts) && SystemAfter(y, acts) == z
  }

  lemma Stays(y: System)
    ensures Reaches(y, y)
  {
    assert SystemRun(y, []) && Undisturbed([]) && SystemAfter(y, []) == y;
  }

  lemma Step(y: System, a: SystemAction)
    requires CanDo(y, a) && !a.Reap? && a != Core(Restart)
    ensures Reaches(y, Perform(y, a))
  {
    var acts := [a];
    assert acts[1..] == [];
    assert SystemRun(Perform(y, a), []) && SystemAfter(Perform(y, a), []) == Perform(y, a);
    assert SystemRun(y, acts) && Undisturbed(acts) && SystemAfter(y, acts) == Perform(y, a);
  }

  lemma {:induction false} SystemJoin(y: System, first: seq<SystemAction>, second: seq<SystemAction>)
    requires SystemRun(y, first) && SystemRun(SystemAfter(y, first), second)
    ensures SystemRun(y, first + second) && SystemAfter(y, first + second) == SystemAfter(SystemAfter(y, first), second)
    decreases |first|
  {
    if first == [] {
      assert first + second == second;
    } else {
      var joined, next := first + second, Perform(y, first[0]);
      assert joined[0] == first[0] && joined[1..] == first[1..] + second;
      assert SystemAfter(y, first) == SystemAfter(next, first[1..]);
      SystemJoin(next, first[1..], second);
    }
  }

  lemma Chain(x: System, y: System, z: System)
    requires Reaches(x, y) && Reaches(y, z)
    ensures Reaches(x, z)
  {
    var first :| SystemRun(x, first) && Undisturbed(first) && SystemAfter(x, first) == y;
    var second :| SystemRun(y, second) && Undisturbed(second) && SystemAfter(y, second) == z;
    SystemJoin(x, first, second);
    assert Undisturbed(first + second);
  }

  lemma Next(x: System, y: System, a: SystemAction)
    requires Reaches(x, y) && CanDo(y, a) && !a.Reap? && a != Core(Restart)
    ensures Reaches(x, Perform(y, a))
  {
    Step(y, a);
    Chain(x, y, Perform(y, a));
  }

  /** Whatever the protocol can do alone the system can do. */
  lemma {:induction false} Reconnected(y: System, acts: seq<Action>) returns (z: System)
    requires Run(y.core, acts) && Reconnects(acts)
    ensures Reaches(y, z) && z.core == After(y.core, acts)
    decreases |acts|
  {
    z := y;
    Stays(y);
    if acts != [] {
      assert acts[0] in acts && forall a :: a in acts[1..] ==> a in acts;
      Step(y, Core(acts[0]));
      z := Reconnected(Perform(y, Core(acts[0])), acts[1..]);
      Chain(y, Perform(y, Core(acts[0])), z);
    }
  }

  // ---------------------------------------------------------------------
  // The ways to the loss
  // ---------------------------------------------------------------------

  predicate SameEvents(y: System, z: System) {
    z.core.stamped == y.core.stamped && z.core.cp == y.core.cp
  }

  /** Numbers are in order, the events below `reach` have been applied and the pending ones are the last produced. */
  predicate Counted(s: State, reach: nat) {
    && WellStamped(s.stamped) && Covered(s.stamped, s.cp, reach)
    && Follow(s.stamped, s.pending, PendingFrom(s))
  }

  /** The worker is idle and the control plane believes it free, but not every event has been applied. */
  predicate Exposed(y: System, reach: nat) {
    y.slot.Free? && y.executor.Idle? && Counted(y.core, reach) && reach < |y.core.stamped|
  }

  lemma {:induction false} EnqueueAll(y: System, reach: nat) returns (z: System)
    requires Exposed(y, reach)
    ensures Reaches(y, z) && Exposed(z, reach) && z.core.pending == [] && SameEvents(y, z)
    decreases |y.core.pending|
  {
    z := y;
    Stays(y);
    if y.core.pending != [] {
      var next := Perform(y, Core(Enqueue(0)));
      Step(y, Core(Enqueue(0)));
      assert next.core.pending == y.core.pending[1..];
      z := EnqueueAll(next, reach);
      Chain(y, next, z);
    }
  }

  /** A session has just been acknowledged. */
  predicate Greeted(y: System) {
    y.core.phase.Acked? && CurrentOpen(y.core)
  }

  lemma Reconnect(y: System, reach: nat) returns (z: System)
    requires Exposed(y, reach) && y.core.pending == []
    ensures Reaches(y, z) && Exposed(z, reach) && z.core.pending == [] && SameEvents(y, z)
    ensures z.down == [] && Greeted(z)
  {
    Stays(y);
    z := y;
    if !y.core.phase.Offline? {
      Next(y, z, Core(Disconnect));
      z := Perform(z, Core(Disconnect));
    }
    Next(y, z, Core(Connect));
    z := Perform(z, Core(Connect));
    Next(y, z, Core(Ack));
    z := Perform(z, Core(Ack));
  }

  /** The replay is sent to its end; nothing is read on the way. */
  lemma {:induction false} SentAll(y: System) returns (z: System)
    requires y.core.phase.Replaying? && y.core.phase.sent <= |y.core.outbox|
    ensures Reaches(y, z) && Ready(z.core) && (CurrentOpen(y.core) ==> CurrentOpen(z.core))
    ensures z == y.(core := y.core.(links := z.core.links, phase := z.core.phase)) && z.core.phase.Replaying?
    decreases |y.core.outbox| - y.core.phase.sent
  {
    z := y;
    Stays(y);
    if y.core.phase.sent < |y.core.outbox| {
      var next := Perform(y, Core(ReplayOne));
      Step(y, Core(ReplayOne));
      z := SentAll(next);
      Chain(y, next, z);
    }
  }

  /** The next job reaches a worker that is ready for it. */
  lemma Offered(y: System, reach: nat, job: JobId) returns (z: System)
    requires Exposed(y, reach)
    ensures Reaches(y, z) && SameEvents(y, z) && Ready(z.core) && z.executor.Idle? && z.down == [job]
    ensures z.core.pending == [] && z.core.queue == []
  {
    var queued := EnqueueAll(y, reach);
    var greeted := Reconnect(queued, reach);
    Chain(y, queued, greeted);
    Next(y, greeted, PumpAssign(job));
    var offered := Perform(greeted, PumpAssign(job));
    Next(y, offered, Core(Resume));
    var resumed := Perform(offered, Core(Resume));
    z := SentAll(resumed);
    Chain(y, resumed, z);
  }

  /** It accepts the job, starts it, and has nothing recorded but that. */
  lemma Started(y: System, job: JobId) returns (z: System, e: Event)
    requires Ready(y.core) && y.executor.Idle? && y.down == [job] && y.core.pending == [] && y.core.queue == []
    ensures Reaches(y, z) && z.core.cp == y.core.cp && z.core.stamped == y.core.stamped + [e] && e.number == |y.core.stamped|
    ensures z.core.outbox + z.core.queue == [e]
  {
    Step(y, TakeAssign(false));
    var taken := Perform(y, TakeAssign(false));
    var body := JobStarted(|y.core.stamped|, job);
    e := Event(|y.core.stamped|, body);
    Next(y, taken, Emit(body));
    var emitted := Perform(taken, Emit(body));
    assert emitted.core.pending == [e];
    Next(y, emitted, Core(Enqueue(0)));
    z := Perform(emitted, Core(Enqueue(0)));
  }

  /** A worker believed free too early can be handed a job, and what was not applied is then lost for good. */
  lemma ExposedLoses(y: System, reach: nat) returns (z: System)
    requires Exposed(y, reach)
    ensures Reaches(y, z) && !Safe(z.core) && !Gapless(z.core.cp.applied)
  {
    var offered := Offered(y, reach, "next");
    var started, e := Started(offered, "next");
    Chain(y, offered, started);
    assert started.core.outbox + started.core.queue == [] + [e];
    var acts := ReplayLeavesGap(started.core, [], e, reach);
    z := Reconnected(started, acts);
    Chain(y, started, z);
  }

  lemma Emitted(y: System, reach: nat, body: WorkerToCp) returns (z: System)
    requires Counted(y.core, reach) && CanDo(y, Emit(body))
    ensures z == Perform(y, Emit(body)) && Reaches(y, z) && Counted(z.core, reach) && |z.core.stamped| == |y.core.stamped| + 1
  {
    z := Perform(y, Emit(body));
    Step(y, Emit(body));
  }

  /** So can one that is still busy: its job ends with an event that has not been applied. */
  lemma BusyLoses(y: System, reach: nat) returns (z: System)
    requires y.slot.Free? && !y.executor.Idle? && Counted(y.core, reach)
    ensures Reaches(y, z) && !Safe(z.core) && !Gapless(z.core.cp.applied)
  {
    var job, working := y.executor.job, y;
    Stays(y);
    if y.executor.Fresh? {
      working := Emitted(y, reach, JobStarted(|y.core.stamped|, job));
    }
    var done := Emitted(working, reach, JobExited(|working.core.stamped|, job, 0));
    Chain(y, working, done);
    z := ExposedLoses(done, reach);
    Chain(y, done, z);
  }

  /** A session that has been acknowledged can be brought to its event loop, with nothing read on the way. */
  lemma MadeReady(y: System, reach: nat) returns (z: System)
    requires Attached(y.core) && Inv(y.core, reach)
    ensures Reaches(y, z) && Ready(z.core) && SameEvents(y, z) && z.core.pending == y.core.pending
    ensures z.slot == y.slot && z.executor == y.executor && z.down == y.down
  {
    z := y;
    Stays(y);
    if y.core.phase.Acked? {
      Next(y, z, Core(Resume));
      z := Perform(z, Core(Resume));
    }
    if z.core.phase.Replaying? {
      var sent := SentAll(z);
      Chain(y, z, sent);
      z := sent;
    }
  }

  /** And one that an assignment is still under way to. */
  lemma UnderWayLoses(y: System, reach: nat) returns (z: System)
    requires y.slot.Free? && y.executor.Idle? && |y.down| == 1 && Attached(y.core) && Inv(y.core, reach)
    ensures Reaches(y, z) && !Safe(z.core) && !Gapless(z.core.cp.applied)
  {
    var ready := MadeReady(y, reach);
    var taken := Perform(ready, TakeAssign(false));
    Next(y, ready, TakeAssign(false));
    assert Counted(taken.core, reach);
    z := BusyLoses(taken, reach);
    Chain(y, taken, z);
  }

  // ---------------------------------------------------------------------
  // The exact condition
  // ---------------------------------------------------------------------

  /** No undisturbed run after taking the assignment back applies anything but a prefix of the events. */
  ghost predicate ReapHarmless(y: System)
    requires CanDo(y, Reap)
  {
    forall z :: Reaches(Perform(y, Reap), z) ==> Safe(z.core)
  }

  /** The executor is idle, no assignment is under way, and everything produced has been applied. */
  predicate AtRest(y: System) {
    y.executor.Idle? && y.down == [] && y.core.cp.applied == y.core.stamped
  }

  lemma RestIsHarmless(y: System, reach: nat)
    requires SystemInv(y, reach) && CanDo(y, Reap) && AtRest(y)
    ensures ReapHarmless(y)
  {
    var z := Perform(y, Reap);
    assert SystemInv(z, reach);
    forall w | Reaches(z, w)
      ensures Safe(w.core)
    {
      var acts :| SystemRun(z, acts) && Undisturbed(acts) && SystemAfter(z, acts) == w;
      var reach' := SystemReachable(z, reach, acts);
    }
  }

  /**
   * Taking an unconfirmed assignment back is harmless if and only if the worker is at rest; otherwise some undisturbed
   * run after it loses an event for good.
   */
  lemma {:induction false} ReapIsExact(acts: seq<SystemAction>)
    requires SystemRun(SystemInitial, acts) && Undisturbed(acts)
    ensures var y := SystemAfter(SystemInitial, acts);
            CanDo(y, Reap) ==> (ReapHarmless(y) <==> AtRest(y))
  {
    InitialOk();
    var reach := SystemReachable(SystemInitial, 0, acts);
    var y := SystemAfter(SystemInitial, acts);
    if CanDo(y, Reap) {
      if AtRest(y) {
        RestIsHarmless(y, reach);
      } else {
        var z, lost := Perform(y, Reap), y;
        if !y.executor.Idle? {
          lost := BusyLoses(z, reach);
        } else if y.down != [] {
          lost := UnderWayLoses(z, reach);
        } else {
          lost := ExposedLoses(z, reach);
        }
        assert Reaches(z, lost) && !Safe(lost.core);
      }
    }
  }

  lemma FirstOffer() returns (y: System, reach: nat)
    ensures Reaches(SystemInitial, y) && CanDo(y, Reap) && SystemInv(y, reach)
    ensures y.executor.Idle? && |y.down| == 1
  {
    y := SystemInitial;
    Stays(y);
    Next(SystemInitial, y, Core(Connect));
    y := Perform(y, Core(Connect));
    Next(SystemInitial, y, Core(Ack));
    y := Perform(y, Core(Ack));
    Next(SystemInitial, y, PumpAssign("first"));
    y := Perform(y, PumpAssign("first"));
    reach := ReachedInv(y);
  }

  lemma ReachedInv(y: System) returns (reach: nat)
    requires Reaches(SystemInitial, y)
    ensures SystemInv(y, reach)
  {
    InitialOk();
    var acts :| SystemRun(SystemInitial, acts) && Undisturbed(acts) && SystemAfter(SystemInitial, acts) == y;
    reach := SystemReachable(SystemInitial, 0, acts);
  }

  /** A worker that is not at rest when its assignment is taken back is easily found: the assignment is under way. */
  lemma ReapLoses() returns (y: System, z: System)
    ensures Reaches(SystemInitial, y) && CanDo(y, Reap) && Reaches(Perform(y, Reap), z)
    ensures !Safe(z.core) && !Gapless(z.core.cp.applied)
  {
    var reach;
    y, reach := FirstOffer();
    z := UnderWayLoses(Perform(y, Reap), reach);
  }
}
