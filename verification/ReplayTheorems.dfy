/** What the survive-disconnect protocol guarantees, and exactly what it relies on. */
module ReplayTheorems {
  import opened Options
  import opened Wire
  import opened Replay

  // ---------------------------------------------------------------------
  // Exactly once, in order, while the control plane keeps its mark
  // ---------------------------------------------------------------------

  /** The applied events are the first `reach` stamped ones and the mark is the last of them. */
  predicate Exact(s: State, reach: nat) {
    && reach <= |s.stamped| && s.cp.applied == s.stamped[..reach]
    && s.cp.mark == (if reach == 0 then None else Some(reach - 1))
  }

  lemma InitialOk()
    ensures Inv(Initial, 0) && Exact(Initial, 0)
  {
  }

  lemma DeliverExact(s: State, reach: nat, link: nat)
    requires Inv(s, reach) && Exact(s, reach) && Enabled(s, Deliver(link))
    ensures Exact(Do(s, Deliver(link)), NextReach(s, reach, Deliver(link)))
  {
    var frames := s.links[link].frames;
    assert LinkOk(s.stamped, reach, QueueFrom(s), s.links[link]);
    var hi :| hi <= QueueFrom(s) && InOrder(s.stamped, reach, frames, hi);
    var lo: nat :| lo <= reach && Flows(s.stamped, frames, lo, hi);
    if frames[0].Numbered? {
      assert frames[0].event == s.stamped[lo] && s.stamped[lo].number == lo;
      if lo == reach {
        assert s.stamped[..reach + 1] == s.stamped[..reach] + [s.stamped[reach]];
      }
    }
  }

  lemma KeepExact(s: State, reach: nat, a: Action)
    requires Inv(s, reach) && Exact(s, reach) && Enabled(s, a) && !a.Restart?
    ensures Exact(Do(s, a), NextReach(s, reach, a))
  {
    if a.Deliver? {
      DeliverExact(s, reach, a.link);
    } else if a.Stamp? {
      assert (s.stamped + [a.event])[..reach] == s.stamped[..reach];
    }
  }

  /** The invariant holds after every orderly run, and so does exactness if the run has no restart. */
  lemma {:induction false} Reachable(s: State, reach: nat, acts: seq<Action>) returns (reach': nat)
    requires Inv(s, reach) && OrderlyRun(s, acts)
    ensures Run(s, acts) && Inv(After(s, acts), reach')
    ensures Exact(s, reach) && KeepsMark(acts) ==> Exact(After(s, acts), reach')
    decreases |acts|
  {
    reach' := reach;
    if acts != [] {
      Keep(s, reach, acts[0]);
      if Exact(s, reach) && !acts[0].Restart? {
        KeepExact(s, reach, acts[0]);
      }
      assert acts[0] in acts && forall a :: a in acts[1..] ==> a in acts;
      reach' := Reachable(Do(s, acts[0]), NextReach(s, reach, acts[0]), acts[1..]);
    }
  }

  /** The applied events are a prefix of the events produced: no duplicate, no gap, no reordering. */
  predicate Safe(s: State) {
    s.cp.applied <= s.stamped
  }

  /** Main result: every orderly run in which the control plane keeps its mark applies a prefix of the events, in order. */
  lemma {:induction false} PrefixApplied(acts: seq<Action>)
    requires OrderlyRun(Initial, acts) && KeepsMark(acts)
    ensures Run(Initial, acts) && Safe(After(Initial, acts))
  {
    InitialOk();
    var reach := Reachable(Initial, 0, acts);
  }

  /** Heartbeats, host samples and the drained signal never move the mark or apply anything. */
  lemma AsidesMoveNothing(cp: Receiver, m: WorkerToCp)
    requires m.Heartbeat? || m.Drained? || m.Hello? || (m.Metric? && m.owner.None?)
    ensures OnMessage(cp, FrameOf(m)) == cp
  {
  }

  // ---------------------------------------------------------------------
  // What the handshake tells, and what is replayed
  // ---------------------------------------------------------------------

  /** While the mark is kept the handshake echoes the number of the last event applied, or 0 if there is none. */
  lemma {:induction false} HandshakeEchoes(acts: seq<Action>)
    requires OrderlyRun(Initial, acts) && KeepsMark(acts)
    ensures Run(Initial, acts)
    ensures var s := After(Initial, acts);
            Enabled(s, Ack) ==>
              Do(s, Ack).phase == Acked(if s.cp.applied == [] then 0 else s.cp.applied[|s.cp.applied| - 1].number)
  {
    InitialOk();
    var reach := Reachable(Initial, 0, acts);
    var s := After(Initial, acts);
    if reach > 0 {
      assert s.cp.applied[reach - 1] == s.stamped[reach - 1];
    }
  }

  /** Steps between the answer to a handshake and the worker's resuming. */
  predicate Waiting(acts: seq<Action>) {
    forall a :: a in acts ==> !a.Restart? && !a.Disconnect? && !a.Resume?
  }

  lemma {:induction false} WaitingKeepsEcho(s: State, acts: seq<Action>)
    requires OrderlyRun(s, acts) && Run(s, acts) && Waiting(acts) && s.phase.Acked?
    ensures After(s, acts).phase == s.phase && s.stamped <= After(s, acts).stamped
    decreases |acts|
  {
    if acts != [] {
      assert acts[0] in acts && forall a :: a in acts[1..] ==> a in acts;
      WaitingKeepsEcho(Do(s, acts[0]), acts[1..]);
    }
  }

  /** Everything above the mark is at the end of consecutive entries. */
  lemma {:induction false} AboveIsSuffix(stamped: seq<Event>, events: seq<Event>, from: int, mark: nat) returns (cut: nat)
    requires WellStamped(stamped) && Follow(stamped, events, from)
    ensures cut <= |events| && Above(events, mark) == events[cut..]
    ensures forall i :: 0 <= i < |events| ==> (i < cut <==> events[i].number <= mark)
  {
    cut := 0;
    if events != [] {
      if events[0].number > mark {
        AboveAll(stamped, events, from, mark);
      } else {
        cut := AboveIsSuffix(stamped, events[1..], from + 1, mark);
        cut := cut + 1;
      }
    }
  }

  /** Of consecutive events those not above the echoed number are those applied then, but for event 0 when 0 is echoed. */
  lemma EchoedIsApplied(stamped: seq<Event>, reach: nat, e: Event)
    requires WellStamped(stamped) && reach <= |stamped| && e in stamped
    ensures var mark := if reach == 0 then 0 else reach - 1;
            (mark > 0 && e.number <= mark) <==> (e in stamped[..reach] && reach != 1)
  {
    var k :| 0 <= k < |stamped| && stamped[k] == e;
    if e in stamped[..reach] {
      var j :| 0 <= j < reach && stamped[j] == e;
    }
    assert k < reach ==> stamped[..reach][k] == e;
  }

  /**
   * While the mark is kept, resuming leaves in the outbox, in order, exactly the recorded events that had not been applied
   * when the handshake was answered; the one exception is event 0, which is kept as well if it was the only one applied,
   * because nothing applied reads as 0 too.
   */
  lemma {:induction false} ResumeKeepsUnapplied(before: seq<Action>, between: seq<Action>) returns (cut: nat)
    requires OrderlyRun(Initial, before) && KeepsMark(before) && Run(Initial, before)
    requires Enabled(After(Initial, before), Ack)
    requires OrderlyRun(Do(After(Initial, before), Ack), between) && Run(Do(After(Initial, before), Ack), between) && Waiting(between)
    ensures var applied := After(Initial, before).cp.applied;
            var s := After(Do(After(Initial, before), Ack), between);
            var recorded := s.outbox + s.queue;
            && Enabled(s, Resume) && cut <= |recorded| && Do(s, Resume).outbox == recorded[cut..]
            && forall i :: 0 <= i < |recorded| ==> (i < cut <==> recorded[i] in applied && |applied| != 1)
  {
    var at := After(Initial, before);
    var reach := EchoAt(before);
    var t := Do(at, Ack);
    WaitingKeepsEcho(t, between);
    var reach' := Reachable(t, reach, between);
    cut := ResumeCuts(After(t, between), reach', at.cp.applied);
  }

  lemma {:induction false} EchoAt(before: seq<Action>) returns (reach: nat)
    requires OrderlyRun(Initial, before) && KeepsMark(before) && Run(Initial, before) && Enabled(After(Initial, before), Ack)
    ensures var at := After(Initial, before);
            && Inv(Do(at, Ack), reach) && at.cp.applied <= at.stamped
            && Do(at, Ack).phase == Acked(if |at.cp.applied| == 0 then 0 else |at.cp.applied| - 1)
  {
    InitialOk();
    reach := Reachable(Initial, 0, before);
    Keep(After(Initial, before), reach, Ack);
  }

  lemma {:induction false} ResumeCuts(s: State, reach: nat, applied: seq<Event>) returns (cut: nat)
    requires Inv(s, reach) && applied <= s.stamped && s.phase == Acked(if |applied| == 0 then 0 else |applied| - 1)
    ensures var recorded := s.outbox + s.queue;
            && cut <= |recorded| && Do(s, Resume).outbox == recorded[cut..]
            && forall i :: 0 <= i < |recorded| ==> (i < cut <==> recorded[i] in applied && |applied| != 1)
  {
    var recorded := s.outbox + s.queue;
    FollowJoin(s.stamped, s.outbox, s.queue, OutboxFrom(s));
    cut := 0;
    if s.phase.echoed > 0 {
      cut := AboveIsSuffix(s.stamped, recorded, OutboxFrom(s), s.phase.echoed);
    }
    forall i | 0 <= i < |recorded|
      ensures i < cut <==> recorded[i] in applied && |applied| != 1
    {
      assert recorded[i] == s.stamped[OutboxFrom(s) + i];
      EchoedIsApplied(s.stamped, |applied|, recorded[i]);
    }
  }

  // ---------------------------------------------------------------------
  // At least once, whatever the control plane forgets
  // ---------------------------------------------------------------------

  /** Numbers in the outbox strictly ascend. */
  predicate Ascending(events: seq<Event>) {
    forall i, j :: 0 <= i < j < |events| ==> events[i].number < events[j].number
  }

  /**
   * After any orderly run, restarts included: the applied events are exactly those numbered below some
   * bound, each applied at least once, and the outbox still holds every recorded event from the bound on.
   */
  lemma AtLeastOnce(acts: seq<Action>) returns (reach: nat)
    requires OrderlyRun(Initial, acts)
    ensures Run(Initial, acts)
    ensures var s := After(Initial, acts);
            && Ascending(s.outbox + s.queue)
            && reach <= |s.stamped|
            && (forall e :: e in s.cp.applied <==> exists k :: 0 <= k < reach && e == s.stamped[k])
            && (forall k :: reach <= k < |s.stamped| - |s.pending| ==> s.stamped[k] in s.outbox + s.queue)
  {
    InitialOk();
    reach := Reachable(Initial, 0, acts);
    var s := After(Initial, acts);
    FollowJoin(s.stamped, s.outbox, s.queue, OutboxFrom(s));
    forall k | reach <= k < |s.stamped| - |s.pending|
      ensures s.stamped[k] in s.outbox + s.queue
    {
      assert (s.outbox + s.queue)[k - OutboxFrom(s)] == s.stamped[k];
    }
  }

  /** Trimming never drops an event the control plane has not applied. */
  lemma {:induction false} TrimDropsOnlyApplied(acts: seq<Action>, e: Event)
    requires OrderlyRun(Initial, acts)
    ensures Run(Initial, acts)
    ensures var s := After(Initial, acts);
            Enabled(s, Resume) && e in s.outbox + s.queue && e !in Do(s, Resume).outbox ==> e in s.cp.applied
  {
    InitialOk();
    var reach := Reachable(Initial, 0, acts);
    var s := After(Initial, acts);
    if Enabled(s, Resume) && e in s.outbox + s.queue && e !in Do(s, Resume).outbox {
      AboveMembers(s.outbox + s.queue, s.phase.echoed);
      AppliedUpToMark(s, reach, e);
    }
  }

  lemma AppliedUpToMark(s: State, reach: nat, e: Event)
    requires CoreOk(s, reach) && e in s.outbox + s.queue && e.number < reach
    ensures e in s.cp.applied
  {
    FollowJoin(s.stamped, s.outbox, s.queue, OutboxFrom(s));
    var i :| 0 <= i < |s.outbox + s.queue| && (s.outbox + s.queue)[i] == e;
    assert e == s.stamped[OutboxFrom(s) + i];
  }

  /** A session has caught up: its replay is over, its socket is open, and nothing numbered is under way. */
  predicate CaughtUp(s: State) {
    && Ready(s) && CurrentOpen(s) && s.queue == [] && s.pending == []
    && forall frame :: frame in s.links[|s.links| - 1].frames ==> frame.Aside?
  }

  lemma {:induction false} AsidesFlow(stamped: seq<Event>, frames: seq<Frame>, lo: nat, hi: int)
    requires Flows(stamped, frames, lo, hi) && forall frame :: frame in frames ==> frame.Aside?
    ensures lo == hi
  {
    if frames != [] {
      AsidesFlow(stamped, frames[1..], lo, hi);
    }
  }

  /**
   * Whenever a session has caught up, every event ever produced has been applied, also when the control
   * plane was restarted any number of times on the way; without a restart, each exactly once and in order.
   */
  lemma {:induction false} CaughtUpAppliesAll(acts: seq<Action>)
    requires OrderlyRun(Initial, acts)
    ensures Run(Initial, acts)
    ensures var s := After(Initial, acts);
            CaughtUp(s) ==> && (forall e :: e in s.stamped ==> e in s.cp.applied)
                            && (KeepsMark(acts) ==> s.cp.applied == s.stamped)
  {
    InitialOk();
    var reach := Reachable(Initial, 0, acts);
    var s := After(Initial, acts);
    if CaughtUp(s) {
      var last := |s.links| - 1;
      var lo: nat :| lo <= reach && Flows(s.stamped, s.links[last].frames, lo, SentTo(s));
      AsidesFlow(s.stamped, s.links[last].frames, lo, SentTo(s));
      assert reach == |s.stamped|;
    }
  }

  // ---------------------------------------------------------------------
  // Exactly what the protocol relies on
  // ---------------------------------------------------------------------

  function ReceiveAll(cp: Receiver, events: seq<Event>): Receiver
    decreases |events|
  {
    if events == [] then cp else ReceiveAll(OnMessage(cp, Numbered(events[0])), events[1..])
  }

  /** An event the mark has passed without applying it stays out, whatever is received, until the mark is forgotten. */
  lemma {:induction false} PassedStaysOut(cp: Receiver, events: seq<Event>, number: nat)
    requires cp.mark.Some? && number <= cp.mark.value && !NumberApplied(cp.applied, number)
    ensures var after := ReceiveAll(cp, events);
            after.mark.Some? && number <= after.mark.value && !NumberApplied(after.applied, number)
    decreases |events|
  {
    if events != [] {
      PassedStaysOut(OnMessage(cp, Numbered(events[0])), events[1..], number);
    }
  }

  /** Receiving events below `e` that are not numbered `hole`, and then `e`, applies `e` and never `hole`. */
  lemma {:induction false} HoleStays(cp: Receiver, events: seq<Event>, e: Event, hole: nat)
    requires hole < e.number
    requires cp.mark.Some? ==> cp.mark.value < e.number
    requires forall m :: m in cp.applied ==> m.number != hole
    requires forall i :: 0 <= i < |events| ==> events[i].number != hole && events[i].number < e.number
    ensures var after := ReceiveAll(cp, events + [e]);
            e in after.applied && forall m :: m in after.applied ==> m.number != hole
    decreases |events|
  {
    if events == [] {
      assert ([] + [e])[1..] == [];
      assert events + [e] == [e];
    } else {
      HoleStays(OnMessage(cp, Numbered(events[0])), events[1..], e, hole);
      assert (events + [e])[1..] == events[1..] + [e];
    }
  }

  predicate NumberApplied(applied: seq<Event>, number: nat) {
    exists m :: m in applied && m.number == number
  }

  /** No event has been applied whose predecessors have not all been. */
  predicate Gapless(applied: seq<Event>) {
    forall e, number: nat :: e in applied && number < e.number ==> NumberApplied(applied, number)
  }

  /** A prefix has no gap. */
  lemma SafeIsGapless(s: State)
    requires WellStamped(s.stamped) && Safe(s)
    ensures Gapless(s.cp.applied)
  {
    forall e, number: nat | e in s.cp.applied && number < e.number
      ensures NumberApplied(s.cp.applied, number)
    {
      var i :| 0 <= i < |s.cp.applied| && s.cp.applied[i] == e;
      assert s.stamped[i].number == i;
      assert s.cp.applied[number] in s.cp.applied && s.cp.applied[number] == s.stamped[number];
    }
  }

  lemma CoveredIsGapless(s: State, reach: nat)
    requires WellStamped(s.stamped) && Covered(s.stamped, s.cp, reach)
    ensures Gapless(s.cp.applied)
  {
    forall e, number: nat | e in s.cp.applied && number < e.number
      ensures NumberApplied(s.cp.applied, number)
    {
      assert s.stamped[number] in s.cp.applied && s.stamped[number].number == number;
    }
  }

  lemma HoleIsGap(s: State, e: Event, hole: nat)
    requires e in s.cp.applied && hole < e.number
    requires forall m :: m in s.cp.applied ==> m.number != hole
    ensures !Gapless(s.cp.applied)
    ensures WellStamped(s.stamped) ==> !Safe(s)
  {
    assert !NumberApplied(s.cp.applied, hole);
    if WellStamped(s.stamped) && Safe(s) {
      SafeIsGapless(s);
    }
  }

  lemma {:induction false} RunJoin(s: State, first: seq<Action>, second: seq<Action>)
    requires OrderlyRun(s, first) && Run(s, first) && OrderlyRun(After(s, first), second) && Run(After(s, first), second)
    ensures OrderlyRun(s, first + second) && Run(s, first + second)
    ensures After(s, first + second) == After(After(s, first), second)
    decreases |first|
  {
    if first == [] {
      assert first + second == second;
    } else {
      RunJoin(Do(s, first[0]), first[1..], second);
      assert (first + second)[1..] == first[1..] + second;
    }
  }

  function Frames(events: seq<Event>): (frames: seq<Frame>)
    ensures |frames| == |events| && forall i :: 0 <= i < |events| ==> frames[i] == Numbered(events[i])
  {
    seq(|events|, i requires 0 <= i < |events| => Numbered(events[i]))
  }

  /** Steps of the session and of the control plane's reading only: nothing is produced, no job accepted, no mark forgotten. */
  predicate Reconnects(acts: seq<Action>) {
    forall a :: a in acts ==> a.Disconnect? || a.Connect? || a.Ack? || a.Resume? || a.ReplayOne? || a.Deliver?
  }

  /** A replay can be sent to its end. */
  lemma {:induction false} SendRest(s: State) returns (acts: seq<Action>)
    requires s.phase.Replaying? && s.phase.sent <= |s.outbox| && CurrentOpen(s)
    ensures OrderlyRun(s, acts) && Run(s, acts) && Reconnects(acts)
    ensures var t, last := After(s, acts), |s.links| - 1;
            && t.stamped == s.stamped && t.cp == s.cp && |t.links| == |s.links|
            && t.links[last] == Link(s.links[last].frames + Frames(s.outbox[s.phase.sent..]), true)
    decreases |s.outbox| - s.phase.sent
  {
    var last := |s.links| - 1;
    if s.phase.sent == |s.outbox| {
      acts := [];
      assert s.links[last].frames + Frames(s.outbox[s.phase.sent..]) == s.links[last].frames;
    } else {
      var t := Do(s, ReplayOne);
      var more := SendRest(t);
      acts := [ReplayOne] + more;
      assert acts[1..] == more;
      assert s.links[last].frames + Frames(s.outbox[s.phase.sent..])
          == t.links[last].frames + Frames(t.outbox[t.phase.sent..]);
    }
  }

  /** What was sent can be delivered to its end. */
  lemma {:induction false} DeliverRest(s: State, events: seq<Event>) returns (acts: seq<Action>)
    requires CurrentOpen(s)
    requires s.links[|s.links| - 1].frames == Frames(events)
    ensures OrderlyRun(s, acts) && Run(s, acts) && Reconnects(acts)
    ensures After(s, acts).cp == ReceiveAll(s.cp, events) && After(s, acts).stamped == s.stamped
    decreases |events|
  {
    var last := |s.links| - 1;
    if events == [] {
      acts := [];
    } else {
      var t := Do(s, Deliver(last));
      assert t.links[last].frames == Frames(events[1..]);
      var more := DeliverRest(t, events[1..]);
      acts := [Deliver(last)] + more;
      assert acts[1..] == more;
    }
  }

  lemma {:induction false} Prepend(s: State, a: Action, rest: seq<Action>)
    requires Enabled(s, a) && Orderly(s, a) && !a.Restart?
    requires OrderlyRun(Do(s, a), rest) && Run(Do(s, a), rest) && KeepsMark(rest)
    ensures OrderlyRun(s, [a] + rest) && Run(s, [a] + rest) && KeepsMark([a] + rest)
    ensures After(s, [a] + rest) == After(Do(s, a), rest)
    ensures Reconnects([a]) && Reconnects(rest) ==> Reconnects([a] + rest)
  {
    assert ([a] + rest)[0] == a && ([a] + rest)[1..] == rest;
    assert a in [a];
  }

  lemma ReplayAndRead(s: State) returns (acts: seq<Action>)
    requires s.phase == Replaying(0) && CurrentOpen(s) && s.links[|s.links| - 1].frames == []
    ensures OrderlyRun(s, acts) && Run(s, acts) && Reconnects(acts)
    ensures After(s, acts).cp == ReceiveAll(s.cp, s.outbox) && After(s, acts).stamped == s.stamped
  {
    var send := SendRest(s);
    var sent := After(s, send);
    assert sent.links[|s.links| - 1].frames == Frames(s.outbox);
    var read := DeliverRest(sent, s.outbox);
    RunJoin(s, send, read);
    acts := send + read;
  }

  /** From any state a fresh session can replay everything recorded and have it all delivered. */
  lemma Recover(s: State) returns (acts: seq<Action>)
    ensures OrderlyRun(s, acts) && Run(s, acts) && Reconnects(acts)
    ensures After(s, acts).stamped == s.stamped
    ensures After(s, acts).cp == ReceiveAll(s.cp, Trim(s.outbox + s.queue, ReportedMark(s.cp)))
  {
    var off := if s.phase.Offline? then s else Do(s, Disconnect);
    var up := Do(off, Connect);
    var known := Do(up, Ack);
    acts := ReplayAndRead(Do(known, Resume));
    Prepend(known, Resume, acts);
    acts := [Resume] + acts;
    Prepend(up, Ack, acts);
    acts := [Ack] + acts;
    Prepend(off, Connect, acts);
    acts := [Connect] + acts;
    if !s.phase.Offline? {
      Prepend(s, Disconnect, acts);
      acts := [Disconnect] + acts;
    }
  }

  /** Nothing an orderly, restart-free continuation does after this step can make the applied events anything but a prefix. */
  ghost predicate Harmless(s: State, a: Action)
    requires Enabled(s, a)
  {
    forall acts :: OrderlyRun(Do(s, a), acts) && Run(Do(s, a), acts) && KeepsMark(acts) ==> Safe(After(Do(s, a), acts))
  }

  /** Nothing an orderly continuation does after this step, restarts included, can leave a gap in what is applied. */
  ghost predicate NeverGaps(s: State, a: Action)
    requires Enabled(s, a)
  {
    forall acts :: OrderlyRun(Do(s, a), acts) && Run(Do(s, a), acts) ==> Gapless(After(Do(s, a), acts).cp.applied)
  }

  /** If an event above `hole` ends the channel and `hole` is nowhere, the next replay leaves a gap. */
  lemma ReplayLeavesGap(s: State, events: seq<Event>, e: Event, hole: nat) returns (acts: seq<Action>)
    requires WellStamped(s.stamped)
    requires s.outbox + s.queue == events + [e] && hole < e.number
    requires s.cp.mark.Some? ==> s.cp.mark.value < e.number
    requires forall m :: m in s.cp.applied ==> m.number != hole
    requires forall m :: m in events ==> m.number != hole && m.number < e.number
    ensures OrderlyRun(s, acts) && Run(s, acts) && Reconnects(acts)
    ensures !Safe(After(s, acts)) && !Gapless(After(s, acts).cp.applied)
  {
    acts := Recover(s);
    var mark := ReportedMark(s.cp);
    var kept := Trim(events, mark);
    AboveLast(events, e, mark);
    AboveMembers(events, mark);
    assert Trim(events + [e], mark) == kept + [e];
    assert forall i :: 0 <= i < |kept| ==> kept[i] in events;
    HoleStays(s.cp, kept, e, hole);
    HoleIsGap(After(s, acts), e, hole);
  }

  lemma OutOfOrderHarms(s: State, reach: nat, i: nat)
    requires Inv(s, reach) && 0 < i < |s.pending|
    ensures !Harmless(s, Enqueue(i)) && !NeverGaps(s, Enqueue(i))
  {
    var t, e, hole := Do(s, Enqueue(i)), s.pending[i], PendingFrom(s);
    var events := s.outbox + s.queue;
    assert t.outbox + t.queue == events + [e];
    FollowJoin(s.stamped, s.outbox, s.queue, OutboxFrom(s));
    forall m | m in events
      ensures m.number < hole
    {
      var j :| 0 <= j < |events| && events[j] == m;
    }
    var acts := ReplayLeavesGap(t, events, e, hole);
  }

  lemma UnappliedIsBeyondReach(s: State, reach: nat)
    requires Inv(s, reach) && !Orderly(s, Assign)
    ensures reach < QueueFrom(s)
  {
    var lost :| lost in s.outbox && lost !in s.cp.applied;
    var j :| 0 <= j < |s.outbox| && s.outbox[j] == lost;
    assert lost == s.stamped[OutboxFrom(s) + j];
  }

  lemma EarlyAssignHarms(s: State, reach: nat)
    requires Inv(s, reach) && Enabled(s, Assign) && !Orderly(s, Assign)
    ensures !Harmless(s, Assign) && !NeverGaps(s, Assign)
  {
    UnappliedIsBeyondReach(s, reach);
    var t := Do(s, Assign);
    var before, v, e := ProduceOne(t);
    var acts := ReplayLeavesGap(v, s.queue, e, reach) by {
      assert v.outbox + v.queue == s.queue + [e];
      forall m | m in s.queue
        ensures reach < m.number < e.number
      {
        var q :| 0 <= q < |s.queue| && s.queue[q] == m;
      }
    }
    RunJoin(t, before, acts);
  }

  /** One more event can always reach the channel in order. */
  lemma ProduceOne(t: State) returns (acts: seq<Action>, v: State, e: Event)
    requires WellStamped(t.stamped) && Follow(t.stamped, t.pending, PendingFrom(t))
    ensures OrderlyRun(t, acts) && Run(t, acts) && KeepsMark(acts) && v == After(t, acts)
    ensures WellStamped(v.stamped) && v.outbox == t.outbox && v.cp == t.cp
    ensures v.queue == t.queue + [e] && e.number == PendingFrom(t)
    ensures v.phase == t.phase && v.links == t.links
  {
    var next := Event(|t.stamped|, Heartbeat);
    e := if t.pending == [] then next else t.pending[0];
    if t.pending == [] {
      var u := Do(t, Stamp(next));
      v := Do(u, Enqueue(0));
      acts := [Stamp(next), Enqueue(0)];
      assert acts[1..] == [Enqueue(0)] && [Enqueue(0)][1..] == [];
      assert OrderlyRun(u, [Enqueue(0)]) && Run(u, [Enqueue(0)]) && After(u, [Enqueue(0)]) == v;
    } else {
      v := Do(t, Enqueue(0));
      acts := [Enqueue(0)];
      assert acts[1..] == [];
    }
  }

  lemma OrderlyIsHarmless(s: State, reach: nat, a: Action)
    requires Inv(s, reach) && Exact(s, reach) && Enabled(s, a) && Orderly(s, a) && !a.Restart?
    ensures Harmless(s, a)
  {
    Keep(s, reach, a);
    KeepExact(s, reach, a);
    forall acts | OrderlyRun(Do(s, a), acts) && Run(Do(s, a), acts) && KeepsMark(acts)
      ensures Safe(After(Do(s, a), acts))
    {
      var reach' := Reachable(Do(s, a), NextReach(s, reach, a), acts);
    }
  }

  /**
   * The two orderliness conditions are exactly what the prefix guarantee needs: in every state an orderly run
   * reaches while the mark is kept, a step is harmless to all continuations if and only if it is orderly. Two tasks
   * reaching the channel out of stamp order, or a job accepted over unapplied events, can lose events for good.
   */
  lemma {:induction false} OrderlinessIsExact(history: seq<Action>, a: Action)
    requires OrderlyRun(Initial, history) && KeepsMark(history)
    ensures Run(Initial, history)
    ensures var s := After(Initial, history);
            Enabled(s, a) && !a.Restart? ==> (Harmless(s, a) <==> Orderly(s, a))
  {
    InitialOk();
    var reach := Reachable(Initial, 0, history);
    var s := After(Initial, history);
    if Enabled(s, a) && !a.Restart? {
      if Orderly(s, a) {
        OrderlyIsHarmless(s, reach, a);
      } else if a.Enqueue? {
        OutOfOrderHarms(s, reach, a.i);
      } else {
        EarlyAssignHarms(s, reach);
      }
    }
  }

  lemma OrderlyNeverGaps(s: State, reach: nat, a: Action)
    requires Inv(s, reach) && Enabled(s, a) && Orderly(s, a)
    ensures NeverGaps(s, a)
  {
    Keep(s, reach, a);
    forall acts | OrderlyRun(Do(s, a), acts) && Run(Do(s, a), acts)
      ensures Gapless(After(Do(s, a), acts).cp.applied)
    {
      var reach' := Reachable(Do(s, a), NextReach(s, reach, a), acts);
      CoveredIsGapless(After(Do(s, a), acts), reach');
    }
  }

  /**
   * The same with restarts, before the step and after it: a step can never lead to a gap in what is applied if and only
   * if it is orderly.
   */
  lemma {:induction false} OrderlinessIsExactThroughRestarts(history: seq<Action>, a: Action)
    requires OrderlyRun(Initial, history)
    ensures Run(Initial, history)
    ensures var s := After(Initial, history);
            Enabled(s, a) ==> (NeverGaps(s, a) <==> Orderly(s, a))
  {
    InitialOk();
    var reach := Reachable(Initial, 0, history);
    var s := After(Initial, history);
    if Enabled(s, a) {
      if Orderly(s, a) {
        OrderlyNeverGaps(s, reach, a);
      } else if a.Enqueue? {
        OutOfOrderHarms(s, reach, a.i);
      } else {
        EarlyAssignHarms(s, reach);
      }
    }
  }
}
