/**
 * Where the assignment condition of the replay protocol comes from: the control plane hands a worker a job
 * only while it believes the worker free, and an uncancelled job's stream ends with one terminal event. The
 * worker is a persistent one: it keeps its job when its socket dies.
 */
module Jobs {
  import opened Options
  import opened Wire
  import opened Replay
  import opened ReplayTheorems

  /** The executor's stream: started, then data, then one terminal event. */
  datatype Executor = Idle | Fresh(job: JobId) | Working(job: JobId)

  /** What the control plane's store says of the worker's current run. */
  datatype Slot = Free | Assigned(job: JobId) | Confirmed(job: JobId)

  datatype System = System(
    core: State,
    executor: Executor,
    slot: Slot,
    down: seq<JobId>)       // assignments under way on the current socket

  datatype SystemAction =
    | Core(action: Action)        // any protocol step but stamping and accepting a job
    | Emit(body: WorkerToCp)      // the executor stamps the next event of its job
    | PumpAssign(job: JobId)      // the scheduler assigns a queued run; one it cannot send is requeued at once, which changes nothing
    | TakeAssign(draining: bool)  // the worker reads an assignment and accepts or ignores it
    | Reap                        // an assignment that was never confirmed is taken back

  const SystemInitial := System(Initial, Idle, Free, [])

  predicate MayEmit(executor: Executor, body: WorkerToCp) {
    match executor
    case Idle => false
    case Fresh(_) => body.JobStarted?
    case Working(_) => StreamedSeq(body).Some? && !body.JobStarted?
  }

  predicate CanDo(y: System, a: SystemAction) {
    match a
    case Core(action) =>
      && !action.Stamp? && !action.Assign? && (action.Enqueue? ==> action.i == 0)
      && Enabled(y.core, action)
    case Emit(body) => MayEmit(y.executor, body) && StreamedSeq(body) == Some(|y.core.stamped|)
    case PumpAssign(_) => y.slot.Free?
    case TakeAssign(_) => y.down != [] && Ready(y.core)
    case Reap => y.slot.Assigned?
  }

  /** What the store records when an event has been applied. */
  function SlotAfter(slot: Slot, before: Receiver, after: Receiver): Slot {
    if |after.applied| <= |before.applied| then slot
    else
      var body := after.applied[|after.applied| - 1].body;
      if Terminal(body) then Free
      else if body.JobStarted? && slot.Assigned? then Confirmed(slot.job)
      else slot
  }

  /** What an applied event makes of the slot: an end frees it, a start confirms the assignment, anything else leaves it. */
  lemma SlotFollows(slot: Slot, before: Receiver, after: Receiver, e: Event)
    requires after.applied == before.applied + [e]
    ensures e.body.JobExited? || e.body.JobKilled? ==> SlotAfter(slot, before, after) == Free
    ensures e.body.JobStarted? ==> SlotAfter(slot, before, after) == if slot.Assigned? then Confirmed(slot.job) else slot
    ensures !e.body.JobExited? && !e.body.JobKilled? && !e.body.JobStarted? ==> SlotAfter(slot, before, after) == slot
  {
  }

  /** An assignment reaches the worker only over an acknowledged socket that the control plane still serves. */
  predicate Attached(s: State) {
    !s.phase.Offline? && !s.phase.Greeting? && CurrentOpen(s)
  }

  function Perform(y: System, a: SystemAction): System
    requires CanDo(y, a)
  {
    match a
    case Core(action) =>
      var core := Do(y.core, action);
      y.(core := core, slot := SlotAfter(y.slot, y.core.cp, core.cp),
         down := if action.Connect? || action.Disconnect? || action.Restart? then [] else y.down)
    case Emit(body) =>
      y.(core := Do(y.core, Stamp(Event(|y.core.stamped|, body))),
         executor := if Terminal(body) then Idle else Working(y.executor.job))
    case PumpAssign(job) =>
      y.(slot := Assigned(job), down := if Attached(y.core) then y.down + [job] else y.down)
    case TakeAssign(draining) =>
      if draining || !y.executor.Idle? then y.(down := y.down[1..])
      else y.(core := Do(y.core, Assign), executor := Fresh(y.down[0]), down := y.down[1..])
    case Reap => y.(slot := Free)
  }

  predicate SystemRun(y: System, acts: seq<SystemAction>)
    decreases |acts|
  {
    acts == [] || (CanDo(y, acts[0]) && SystemRun(Perform(y, acts[0]), acts[1..]))
  }

  function SystemAfter(y: System, acts: seq<SystemAction>): System
    requires SystemRun(y, acts)
    decreases |acts|
  {
    if acts == [] then y else SystemAfter(Perform(y, acts[0]), acts[1..])
  }

  predicate NoReap(acts: seq<SystemAction>) {
    forall a :: a in acts ==> !a.Reap?
  }

  predicate NoRestart(acts: seq<SystemAction>) {
    forall a :: a in acts ==> a != Core(Restart)
  }

  /** No control-plane restart and no assignment taken back from a worker that may have started it. */
  predicate Undisturbed(acts: seq<SystemAction>) {
    NoReap(acts) && NoRestart(acts)
  }

  /**
   * Jobs follow each other: an unapplied terminal event is the last event there is, and while the
   * control plane believes the worker free or an assignment is under way, everything has been applied.
   */
  predicate InTurn(y: System, reach: nat) {
    && (forall k {:trigger y.core.stamped[k]} :: reach <= k < |y.core.stamped| && Terminal(y.core.stamped[k].body)
          ==> k == |y.core.stamped| - 1 && y.executor.Idle?)
    && (y.slot.Free? || y.down != [] ==> reach == |y.core.stamped| && y.executor.Idle?)
    && |y.down| <= 1 && (y.slot.Free? ==> y.down == []) && (y.down != [] ==> Attached(y.core))
  }

  ghost predicate SystemInv(y: System, reach: nat) {
    Inv(y.core, reach) && Exact(y.core, reach) && InTurn(y, reach)
  }

  lemma StaysAttached(y: System, action: Action)
    requires CanDo(y, Core(action)) && (y.down != [] ==> Attached(y.core))
    ensures Perform(y, Core(action)).down != [] ==> Attached(Do(y.core, action))
  {
  }

  lemma CoreInTurn(y: System, reach: nat, action: Action)
    requires SystemInv(y, reach) && CanDo(y, Core(action)) && !action.Restart?
    requires Exact(Do(y.core, action), NextReach(y.core, reach, action))
    ensures InTurn(Perform(y, Core(action)), NextReach(y.core, reach, action))
  {
    StaysAttached(y, action);
    var after, reach' := Do(y.core, action), NextReach(y.core, reach, action);
    if action.Deliver? && |after.cp.applied| > |y.core.cp.applied| {
      assert reach' == reach + 1;
      assert after.cp.applied[reach] == y.core.stamped[reach];
    } else {
      assert reach' == reach;
    }
  }

  lemma SystemKeeps(y: System, reach: nat, a: SystemAction) returns (reach': nat)
    requires SystemInv(y, reach) && CanDo(y, a) && Undisturbed([a])
    ensures SystemInv(Perform(y, a), reach')
  {
    reach' := reach;
    assert a in [a];
    match a {
      case Core(action) =>
        Keep(y.core, reach, action);
        KeepExact(y.core, reach, action);
        CoreInTurn(y, reach, action);
        reach' := NextReach(y.core, reach, action);
      case Emit(body) =>
        Keep(y.core, reach, Stamp(Event(|y.core.stamped|, body)));
        KeepExact(y.core, reach, Stamp(Event(|y.core.stamped|, body)));
      case TakeAssign(draining) =>
        if !draining && y.executor.Idle? {
          assert Orderly(y.core, Assign);
          Keep(y.core, reach, Assign);
          KeepExact(y.core, reach, Assign);
        }
      case PumpAssign(_) =>
      case Reap =>
    }
  }

  lemma {:induction false} SystemReachable(y: System, reach: nat, acts: seq<SystemAction>) returns (reach': nat)
    requires SystemInv(y, reach) && SystemRun(y, acts) && Undisturbed(acts)
    ensures SystemInv(SystemAfter(y, acts), reach')
    decreases |acts|
  {
    reach' := reach;
    if acts != [] {
      assert acts[0] in acts && forall a :: a in acts[1..] ==> a in acts;
      reach' := SystemKeeps(y, reach, acts[0]);
      reach' := SystemReachable(Perform(y, acts[0]), reach', acts[1..]);
    }
  }

  /**
   * Main result: with jobs assigned by the scheduler and streamed by the executor, over any sockets, every
   * undisturbed run applies a prefix of the events produced; no accepted job ever clears an unapplied event.
   */
  lemma {:induction false} JobsApplyPrefix(acts: seq<SystemAction>)
    requires SystemRun(SystemInitial, acts) && Undisturbed(acts)
    ensures var y := SystemAfter(SystemInitial, acts);
            && Safe(y.core)
            && (forall draining :: CanDo(y, TakeAssign(draining)) ==> Orderly(y.core, Assign))
  {
    InitialOk();
    var reach := SystemReachable(SystemInitial, 0, acts);
  }
}
