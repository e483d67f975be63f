/**
 * What a failing store does to delivery. A worker that cannot be noted as seen has its message dropped, and an event the
 * store does not take has moved the mark already; either way the connection is kept and the next message is read.
 */
module Faults {
  import opened Options
  import opened Wire
  import opened Replay
  import opened ReplayTheorems

  /** How the store treats one message: it works, or fails to note the worker, or fails to take the event. */
  datatype Fate = Fine | Unseen | Unstored

  function Handle(cp: Receiver, frame: Frame, fate: Fate): Receiver {
    match fate
    case Fine => OnMessage(cp, frame)
    case Unseen => cp
    case Unstored => OnMessage(cp, frame).(applied := cp.applied)
  }

  // ---------------------------------------------------------------------
  // Which events are applied
  // ---------------------------------------------------------------------

  datatype Delivery = Delivery(event: Event, fate: Fate)

  function HandleAll(cp: Receiver, deliveries: seq<Delivery>): Receiver
    decreases |deliveries|
  {
    if deliveries == [] then cp
    else HandleAll(Handle(cp, Numbered(deliveries[0].event), deliveries[0].fate), deliveries[1..])
  }

  /** Delivery `i` brings the number and is taken, and before it only smaller numbers were seen. */
  predicate TakenAt(deliveries: seq<Delivery>, number: nat, i: nat) {
    && i < |deliveries| && deliveries[i].event.number == number && deliveries[i].fate.Fine?
    && forall j :: 0 <= j < i ==> deliveries[j].fate.Unseen? || deliveries[j].event.number < number
  }

  /** Of the deliveries that are seen, the first of this number or a greater one is of this number, and is taken. */
  ghost predicate TakenFirst(deliveries: seq<Delivery>, number: nat) {
    exists i: nat :: TakenAt(deliveries, number, i)
  }

  lemma {:induction false} TakenFirstStep(deliveries: seq<Delivery>, number: nat)
    requires deliveries != []
    ensures var d := deliveries[0];
            TakenFirst(deliveries, number)
            <==> if d.fate.Unseen? || d.event.number < number then TakenFirst(deliveries[1..], number)
                 else d.event.number == number && d.fate.Fine?
  {
    var d, rest := deliveries[0], deliveries[1..];
    if i: nat :| TakenAt(deliveries, number, i) && i > 0 {
      assert deliveries[0].fate.Unseen? || deliveries[0].event.number < number;
      assert forall j :: 0 <= j < i - 1 ==> rest[j] == deliveries[j + 1];
      assert TakenAt(rest, number, i - 1);
    }
    if d.fate.Unseen? || d.event.number < number {
      if k: nat :| TakenAt(rest, number, k) {
        assert forall j :: 0 < j < k + 1 ==> deliveries[j] == rest[j - 1];
        assert TakenAt(deliveries, number, k + 1);
      }
    } else if d.event.number == number && d.fate.Fine? {
      assert TakenAt(deliveries, number, 0);
    }
  }

  predicate AboveMark(cp: Receiver, number: nat) {
    cp.mark.Some? ==> cp.mark.value < number
  }

  lemma NumberAppliedMore(applied: seq<Event>, e: Event, number: nat)
    ensures NumberApplied(applied + [e], number) <==> NumberApplied(applied, number) || e.number == number
  {
    assert e in applied + [e];
    assert forall m :: m in applied ==> m in applied + [e];
  }

  /**
   * Exactly which numbers are applied, whatever is delivered and however the store fails: those applied before, and those
   * above the mark that are taken before any greater number is seen.
   */
  lemma {:induction false} AppliedIff(cp: Receiver, deliveries: seq<Delivery>, number: nat)
    ensures NumberApplied(HandleAll(cp, deliveries).applied, number)
       <==> NumberApplied(cp.applied, number) || (AboveMark(cp, number) && TakenFirst(deliveries, number))
    decreases |deliveries|
  {
    if deliveries != [] {
      var d := deliveries[0];
      AppliedIff(Handle(cp, Numbered(d.event), d.fate), deliveries[1..], number);
      TakenFirstStep(deliveries, number);
      NumberAppliedMore(cp.applied, d.event, number);
    }
  }

  /** An event the store fails to take is never applied while the mark is kept, whatever is delivered after it. */
  lemma {:induction false} FailedWriteIsFinal(cp: Receiver, event: Event, later: seq<Delivery>)
    requires !NumberApplied(cp.applied, event.number)
    ensures !NumberApplied(HandleAll(cp, [Delivery(event, Unstored)] + later).applied, event.number)
  {
    var all := [Delivery(event, Unstored)] + later;
    AppliedIff(cp, all, event.number);
    TakenFirstStep(all, event.number);
  }

  /** Nor is one whose worker could not be noted as seen, once a greater number has been. */
  lemma {:induction false} UnseenIsBuried(cp: Receiver, event: Event, next: Event, fate: Fate, later: seq<Delivery>)
    requires !NumberApplied(cp.applied, event.number) && event.number < next.number && !fate.Unseen?
    ensures !NumberApplied(HandleAll(cp, [Delivery(event, Unseen), Delivery(next, fate)] + later).applied, event.number)
  {
    var all := [Delivery(event, Unseen), Delivery(next, fate)] + later;
    AppliedIff(cp, all, event.number);
    TakenFirstStep(all, event.number);
    TakenFirstStep(all[1..], event.number);
    assert all[1..][0] == Delivery(next, fate);
  }

  // ---------------------------------------------------------------------
  // Failures in the protocol
  // ---------------------------------------------------------------------

  /** A step of the protocol, or the reading of a socket's next frame while the store fails. */
  datatype Happening = Step(action: Action) | Fault(link: nat, fate: Fate)

  predicate CanHappen(s: State, h: Happening) {
    match h
    case Step(action) => Enabled(s, action)
    case Fault(link, fate) => Enabled(s, Deliver(link)) && !fate.Fine?
  }

  function Happen(s: State, h: Happening): State
    requires CanHappen(s, h)
  {
    match h
    case Step(action) => Do(s, action)
    case Fault(link, fate) =>
      s.(links := s.links[link := s.links[link].(frames := s.links[link].frames[1..])],
         cp := Handle(s.cp, s.links[link].frames[0], fate))
  }

  /** No event is among the frames. */
  predicate AllAside(frames: seq<Frame>) {
    forall frame :: frame in frames ==> frame.Aside?
  }

  /** The session is still sending on this socket. */
  predicate Sending(s: State, link: nat) {
    link == |s.links| - 1 && (s.phase.Replaying? || s.phase.Live?)
  }

  /**
   * A step is tolerable if it is orderly. A failure is tolerable if there is no event to lose or it has been applied
   * before; or if the worker was not noted as seen, and neither is another event behind this one nor does the session
   * still send on that socket, so that the next to come is a replay.
   */
  predicate Tolerable(s: State, h: Happening)
    requires CanHappen(s, h)
  {
    match h
    case Step(action) => Orderly(s, action)
    case Fault(link, fate) =>
      var frames := s.links[link].frames;
      || frames[0].Aside?
      || frames[0].event in s.cp.applied
      || (fate.Unseen? && AllAside(frames[1..]) && !Sending(s, link))
  }

  predicate TolerableRun(s: State, hs: seq<Happening>)
    decreases |hs|
  {
    hs == [] || (CanHappen(s, hs[0]) && Tolerable(s, hs[0]) && TolerableRun(Happen(s, hs[0]), hs[1..]))
  }

  function Outcome(s: State, hs: seq<Happening>): State
    requires TolerableRun(s, hs)
    decreases |hs|
  {
    if hs == [] then s else Outcome(Happen(s, hs[0]), hs[1..])
  }

  // ---------------------------------------------------------------------
  // Tolerable failures keep the invariant
  // ---------------------------------------------------------------------

  lemma {:induction false} AsidesStay(stamped: seq<Event>, frames: seq<Frame>, at: nat)
    requires AllAside(frames)
    ensures Flows(stamped, frames, at, at)
  {
    if frames != [] {
      AsidesStay(stamped, frames[1..], at);
    }
  }

  /** The event at the head of frames in order is the one its number says, and known to be applied if below `reach`. */
  lemma HeadOf(stamped: seq<Event>, cp: Receiver, reach: nat, frames: seq<Frame>, lo: nat, hi: int)
    requires WellStamped(stamped) && Covered(stamped, cp, reach) && frames != [] && Flows(stamped, frames, lo, hi)
    ensures frames[0].Aside? ==> Flows(stamped, frames[1..], lo, hi)
    ensures frames[0].Numbered? ==>
              && frames[0].event.number == lo < |stamped| && frames[0].event == stamped[lo]
              && Flows(stamped, frames[1..], lo + 1, hi) && (frames[0].event in cp.applied <==> lo < reach)
  {
  }

  /** The frames behind a lost one still follow on from what has been applied, if it was an aside or had been applied. */
  lemma BehindInOrder(stamped: seq<Event>, cp: Receiver, reach: nat, frames: seq<Frame>, hi: int)
    requires WellStamped(stamped) && Covered(stamped, cp, reach) && frames != [] && InOrder(stamped, reach, frames, hi)
    requires frames[0].Aside? || frames[0].event in cp.applied
    ensures InOrder(stamped, reach, frames[1..], hi)
  {
    var lo: nat :| lo <= reach && Flows(stamped, frames, lo, hi);
    HeadOf(stamped, cp, reach, frames, lo, hi);
    var next: nat := if frames[0].Aside? then lo else lo + 1;
    assert next <= reach && Flows(stamped, frames[1..], next, hi);
  }

  lemma FaultCore(s: State, reach: nat, link: nat, fate: Fate)
    requires Inv(s, reach) && CanHappen(s, Fault(link, fate)) && Tolerable(s, Fault(link, fate))
    ensures CoreOk(Happen(s, Fault(link, fate)), reach)
  {
  }

  lemma FaultLinks(s: State, reach: nat, link: nat, fate: Fate)
    requires Inv(s, reach) && CanHappen(s, Fault(link, fate)) && Tolerable(s, Fault(link, fate))
    ensures LinksOk(Happen(s, Fault(link, fate)), reach)
  {
    var t, frames := Happen(s, Fault(link, fate)), s.links[link].frames;
    assert LinkOk(s.stamped, reach, QueueFrom(s), s.links[link]);
    var hi :| hi <= QueueFrom(s) && InOrder(s.stamped, reach, frames, hi);
    if frames[0].Aside? || frames[0].event in s.cp.applied {
      BehindInOrder(s.stamped, s.cp, reach, frames, hi);
      assert LinkOk(t.stamped, reach, QueueFrom(t), t.links[link]);
    } else {
      AsidesStay(s.stamped, frames[1..], reach);
      assert InOrder(t.stamped, reach, t.links[link].frames, reach);
      assert LinkOk(t.stamped, reach, QueueFrom(t), t.links[link]);
    }
    forall i | 0 <= i < |t.links|
      ensures LinkOk(t.stamped, reach, QueueFrom(t), t.links[i])
    {
      assert LinkOk(s.stamped, reach, QueueFrom(s), s.links[i]);
    }
  }

  lemma FaultSession(s: State, reach: nat, link: nat, fate: Fate)
    requires Inv(s, reach) && CanHappen(s, Fault(link, fate)) && Tolerable(s, Fault(link, fate))
    ensures SessionOk(Happen(s, Fault(link, fate)), reach)
  {
    if Sending(s, link) {
      BehindInOrder(s.stamped, s.cp, reach, s.links[link].frames, SentTo(s));
    }
  }

  lemma KeepTolerable(s: State, reach: nat, h: Happening) returns (reach': nat)
    requires Inv(s, reach) && CanHappen(s, h) && Tolerable(s, h)
    ensures Inv(Happen(s, h), reach')
  {
    match h
    case Step(action) =>
      Keep(s, reach, action);
      reach' := NextReach(s, reach, action);
    case Fault(link, fate) =>
      FaultCore(s, reach, link, fate);
      FaultLinks(s, reach, link, fate);
      FaultSession(s, reach, link, fate);
      reach' := reach;
  }

  lemma {:induction false} TolerableReachable(s: State, reach: nat, hs: seq<Happening>) returns (reach': nat)
    requires Inv(s, reach) && TolerableRun(s, hs)
    ensures Inv(Outcome(s, hs), reach')
    decreases |hs|
  {
    reach' := reach;
    if hs != [] {
      reach' := KeepTolerable(s, reach, hs[0]);
      reach' := TolerableReachable(Happen(s, hs[0]), reach', hs[1..]);
    }
  }

  // ---------------------------------------------------------------------
  // Every other failure can lead to a gap
  // ---------------------------------------------------------------------

  /** Nothing tolerable that happens after this can leave a gap in what is applied. */
  ghost predicate StaysGapless(s: State, h: Happening)
    requires CanHappen(s, h)
  {
    forall hs :: TolerableRun(Happen(s, h), hs) ==> Gapless(Outcome(Happen(s, h), hs).cp.applied)
  }

  function Steps(acts: seq<Action>): seq<Happening> {
    seq(|acts|, i requires 0 <= i < |acts| => Step(acts[i]))
  }

  /** Orderly runs are tolerable. */
  lemma {:induction false} OrderlyIsTolerable(s: State, acts: seq<Action>)
    requires OrderlyRun(s, acts) && Run(s, acts)
    ensures TolerableRun(s, Steps(acts)) && Outcome(s, Steps(acts)) == After(s, acts)
    decreases |acts|
  {
    if acts != [] {
      OrderlyIsTolerable(Do(s, acts[0]), acts[1..]);
      assert Steps(acts)[1..] == Steps(acts[1..]);
    }
  }

  /** An orderly run from here leads to a gap. */
  ghost predicate CanGap(t: State) {
    exists acts :: OrderlyRun(t, acts) && Run(t, acts) && !Gapless(After(t, acts).cp.applied)
  }

  lemma GapSpoils(s: State, h: Happening)
    requires CanHappen(s, h) && CanGap(Happen(s, h))
    ensures !StaysGapless(s, h)
  {
    var acts :| OrderlyRun(Happen(s, h), acts) && Run(Happen(s, h), acts) && !Gapless(After(Happen(s, h), acts).cp.applied);
    OrderlyIsTolerable(Happen(s, h), acts);
  }

  /** A gap that a run ahead can reach can be reached from here. */
  lemma {:induction false} GapAhead(t: State, acts: seq<Action>)
    requires OrderlyRun(t, acts) && Run(t, acts) && CanGap(After(t, acts))
    ensures CanGap(t)
  {
    var more :| OrderlyRun(After(t, acts), more) && Run(After(t, acts), more) && !Gapless(After(After(t, acts), more).cp.applied);
    RunJoin(t, acts, more);
  }

  lemma OneAhead(t: State, a: Action)
    requires Enabled(t, a) && Orderly(t, a) && CanGap(Do(t, a))
    ensures CanGap(t)
  {
    assert [a][1..] == [];
    assert OrderlyRun(Do(t, a), []) && Run(Do(t, a), []) && After(Do(t, a), []) == Do(t, a);
    assert OrderlyRun(t, [a]) && Run(t, [a]) && After(t, [a]) == Do(t, a);
    GapAhead(t, [a]);
  }

  lemma GapNow(t: State, number: nat, hole: nat)
    requires NumberApplied(t.cp.applied, number) && hole < number && !NumberApplied(t.cp.applied, hole)
    ensures CanGap(t)
  {
    var e :| e in t.cp.applied && e.number == number;
    assert OrderlyRun(t, []) && Run(t, []) && After(t, []) == t;
  }

  /** The first event among the frames has a number above `hole`. */
  predicate NextAbove(frames: seq<Frame>, hole: nat) {
    frames != [] && if frames[0].Aside? then NextAbove(frames[1..], hole) else frames[0].event.number > hole
  }

  lemma {:induction false} FlowsAbove(stamped: seq<Event>, frames: seq<Frame>, lo: nat, hi: int, hole: nat)
    requires WellStamped(stamped) && Flows(stamped, frames, lo, hi) && hole < lo && !AllAside(frames)
    ensures NextAbove(frames, hole)
  {
    if frames[0].Aside? {
      assert frames == [frames[0]] + frames[1..];
      FlowsAbove(stamped, frames[1..], lo, hi, hole);
    }
  }

  lemma {:induction false} AsidesThenAbove(frames: seq<Frame>, e: Event, hole: nat)
    requires AllAside(frames) && hole < e.number
    ensures NextAbove(frames + [Numbered(e)], hole)
  {
    if frames != [] {
      assert frames[0] in frames;
      AsidesThenAbove(frames[1..], e, hole);
      assert (frames + [Numbered(e)])[1..] == frames[1..] + [Numbered(e)];
    }
  }

  /** Reading on leaves a gap. */
  lemma {:induction false} ReadingOnGaps(t: State, link: nat, hole: nat)
    requires link < |t.links| && t.links[link].open && NextAbove(t.links[link].frames, hole)
    requires !NumberApplied(t.cp.applied, hole) && (t.cp.mark.Some? ==> t.cp.mark.value <= hole)
    ensures CanGap(t)
    decreases |t.links[link].frames|
  {
    var frames, next := t.links[link].frames, Do(t, Deliver(link));
    if frames[0].Aside? {
      ReadingOnGaps(next, link, hole);
    } else {
      NumberAppliedMore(t.cp.applied, frames[0].event, hole);
      NumberAppliedMore(t.cp.applied, frames[0].event, frames[0].event.number);
      GapNow(next, frames[0].event.number, hole);
    }
    OneAhead(t, Deliver(link));
  }

  /** Sending on leaves a gap. */
  lemma SendingOnGaps(t: State, a: Action, e: Event, hole: nat)
    requires Enabled(t, a) && (a.ReplayOne? || a.StreamOne?) && Sent(t, a) == Numbered(e) && hole < e.number
    requires CurrentOpen(t) && AllAside(t.links[|t.links| - 1].frames)
    requires !NumberApplied(t.cp.applied, hole) && (t.cp.mark.Some? ==> t.cp.mark.value <= hole)
    ensures CanGap(t)
  {
    var last := |t.links| - 1;
    AsidesThenAbove(t.links[last].frames, e, hole);
    assert Do(t, a).links[last].frames == t.links[last].frames + [Numbered(e)];
    ReadingOnGaps(Do(t, a), last, hole);
    OneAhead(t, a);
  }

  /** An event was not seen, and the session goes on. */
  lemma UnseenWhileSending(t: State, hole: nat)
    requires WellStamped(t.stamped) && Sliced(t) && CurrentOpen(t) && AllAside(t.links[|t.links| - 1].frames)
    requires t.phase.Live? || (t.phase.Replaying? && t.phase.sent <= |t.outbox|)
    requires hole < SentTo(t) && !NumberApplied(t.cp.applied, hole) && (t.cp.mark.Some? ==> t.cp.mark.value <= hole)
    ensures CanGap(t)
  {
    if t.phase.Replaying? && t.phase.sent < |t.outbox| {
      SendingOnGaps(t, ReplayOne, t.outbox[t.phase.sent], hole);
    } else if t.queue != [] {
      SendingOnGaps(t, StreamOne, t.queue[0], hole);
    } else {
      var acts, v, e := ProduceOne(t);
      assert v.queue == [e];
      SendingOnGaps(v, StreamOne, e, hole);
      GapAhead(t, acts);
    }
  }

  lemma {:induction false} LastIsApplied(cp: Receiver, events: seq<Event>, e: Event)
    requires AboveMark(cp, e.number) && forall m :: m in events ==> m.number < e.number
    ensures NumberApplied(ReceiveAll(cp, events + [e]).applied, e.number)
    decreases |events|
  {
    if events == [] {
      var after := OnMessage(cp, Numbered(e));
      assert events + [e] == [e] && [e][1..] == [];
      assert ReceiveAll(cp, [e]) == ReceiveAll(after, []) == after;
      NumberAppliedMore(cp.applied, e, e.number);
    } else {
      assert events[0] in events && forall m :: m in events[1..] ==> m in events;
      LastIsApplied(OnMessage(cp, Numbered(events[0])), events[1..], e);
      assert (events + [e])[1..] == events[1..] + [e];
    }
  }

  /** The mark has passed an event that was not taken, and a replay brings a later one. */
  lemma PassedGaps(v: State, events: seq<Event>, e: Event, hole: nat)
    requires v.outbox + v.queue == events + [e] && forall m :: m in events ==> m.number < e.number
    requires v.cp.mark.Some? && hole <= v.cp.mark.value < e.number && !NumberApplied(v.cp.applied, hole)
    ensures CanGap(v)
  {
    var acts := Recover(v);
    var mark := ReportedMark(v.cp);
    AboveLast(events, e, mark);
    AboveMembers(events, mark);
    var kept := Trim(events, mark);
    assert Trim(events + [e], mark) == kept + [e];
    PassedStaysOut(v.cp, kept + [e], hole);
    LastIsApplied(v.cp, kept, e);
    GapNow(After(v, acts), e.number, hole);
    GapAhead(v, acts);
  }

  /** The store did not take an event. */
  lemma UnstoredGaps(t: State, hole: nat)
    requires WellStamped(t.stamped) && Sliced(t) && hole < QueueFrom(t)
    requires t.cp.mark == Some(hole) && !NumberApplied(t.cp.applied, hole)
    ensures CanGap(t)
  {
    var acts, v, e := ProduceOne(t);
    var events := t.outbox + t.queue;
    assert v.outbox + v.queue == events + [e];
    FollowJoin(t.stamped, t.outbox, t.queue, OutboxFrom(t));
    forall m | m in events
      ensures m.number < e.number
    {
      var j :| 0 <= j < |events| && events[j] == m;
    }
    PassedGaps(v, events, e, hole);
    GapAhead(t, acts);
  }

  lemma NotYetApplied(s: State, reach: nat)
    requires Covered(s.stamped, s.cp, reach)
    ensures !NumberApplied(s.cp.applied, reach) && (s.cp.mark.Some? ==> s.cp.mark.value < reach)
  {
  }

  /** The event that a failure loses is the next to apply. */
  lemma LosesTheNext(s: State, reach: nat, link: nat, fate: Fate) returns (hi: int)
    requires Inv(s, reach) && CanHappen(s, Fault(link, fate)) && !Tolerable(s, Fault(link, fate))
    ensures s.links[link].frames[0].event.number == reach < QueueFrom(s)
    ensures Flows(s.stamped, s.links[link].frames[1..], reach + 1, hi)
    ensures Sending(s, link) ==> hi == SentTo(s)
  {
    var frames := s.links[link].frames;
    assert LinkOk(s.stamped, reach, QueueFrom(s), s.links[link]);
    hi :| hi <= QueueFrom(s) && InOrder(s.stamped, reach, frames, hi);
    var lo: nat :| lo <= reach && Flows(s.stamped, frames, lo, hi);
    HeadOf(s.stamped, s.cp, reach, frames, lo, hi);
    FlowsBounds(s.stamped, frames[1..], lo + 1, hi);
    if Sending(s, link) {
      var lo': nat :| lo' <= reach && Flows(s.stamped, frames, lo', SentTo(s));
      HeadOf(s.stamped, s.cp, reach, frames, lo', SentTo(s));
      hi := SentTo(s);
    }
  }

  lemma NotSeen(s: State, reach: nat, link: nat) returns (t: State)
    requires Inv(s, reach) && CanHappen(s, Fault(link, Unseen))
    ensures t == Happen(s, Fault(link, Unseen)) && t.cp == s.cp && WellStamped(t.stamped) && Sliced(t) && |t.links| == |s.links|
    ensures t.links[link] == Link(s.links[link].frames[1..], true) && t.phase == s.phase && SentTo(t) == SentTo(s)
    ensures t.phase.Replaying? ==> t.phase.sent <= |t.outbox|
  {
    t := Happen(s, Fault(link, Unseen));
  }

  lemma UnseenGaps(s: State, reach: nat, link: nat)
    requires Inv(s, reach) && CanHappen(s, Fault(link, Unseen)) && !Tolerable(s, Fault(link, Unseen))
    ensures CanGap(Happen(s, Fault(link, Unseen)))
  {
    var t := NotSeen(s, reach, link);
    var behind := s.links[link].frames[1..];
    var hi := LosesTheNext(s, reach, link, Unseen);
    NotYetApplied(s, reach);
    if !AllAside(behind) {
      FlowsAbove(s.stamped, behind, reach + 1, hi, reach);
      ReadingOnGaps(t, link, reach);
    } else {
      AsidesFlow(s.stamped, behind, reach + 1, hi);
      UnseenWhileSending(t, reach);
    }
  }

  lemma NotTaken(s: State, reach: nat, link: nat) returns (t: State)
    requires Inv(s, reach) && CanHappen(s, Fault(link, Unstored)) && !Tolerable(s, Fault(link, Unstored))
    ensures t == Happen(s, Fault(link, Unstored)) && t.cp == Receiver(Some(reach), s.cp.applied)
    ensures WellStamped(t.stamped) && Sliced(t) && reach < QueueFrom(t)
  {
    t := Happen(s, Fault(link, Unstored));
    var hi := LosesTheNext(s, reach, link, Unstored);
    NotYetApplied(s, reach);
  }

  lemma IntolerableGaps(s: State, reach: nat, link: nat, fate: Fate)
    requires Inv(s, reach) && CanHappen(s, Fault(link, fate)) && !Tolerable(s, Fault(link, fate))
    ensures CanGap(Happen(s, Fault(link, fate)))
  {
    if fate.Unseen? {
      UnseenGaps(s, reach, link);
    } else {
      var t := NotTaken(s, reach, link);
      NotYetApplied(s, reach);
      UnstoredGaps(t, reach);
    }
  }

  /**
   * Exactly what the protocol can bear: after any run of orderly steps and tolerable failures, restarts included, what
   * happens next can never lead to a gap in what is applied if and only if it is tolerable.
   */
  lemma {:induction false} ToleranceIsExact(history: seq<Happening>, h: Happening)
    requires TolerableRun(Initial, history)
    ensures var s := Outcome(Initial, history);
            CanHappen(s, h) ==> (StaysGapless(s, h) <==> Tolerable(s, h))
  {
    InitialOk();
    var reach := TolerableReachable(Initial, 0, history);
    var s := Outcome(Initial, history);
    if CanHappen(s, h) {
      if Tolerable(s, h) {
        TolerableStays(s, reach, h);
      } else {
        match h
        case Fault(link, fate) =>
          IntolerableGaps(s, reach, link, fate);
          GapSpoils(s, h);
        case Step(action) =>
          DisorderGaps(s, reach, action);
          GapSpoils(s, h);
      }
    }
  }

  lemma DisorderGaps(s: State, reach: nat, a: Action)
    requires Inv(s, reach) && Enabled(s, a) && !Orderly(s, a)
    ensures CanGap(Do(s, a))
  {
    if a.Enqueue? {
      OutOfOrderHarms(s, reach, a.i);
    } else {
      EarlyAssignHarms(s, reach);
    }
  }

  lemma TolerableStays(s: State, reach: nat, h: Happening)
    requires Inv(s, reach) && CanHappen(s, h) && Tolerable(s, h)
    ensures StaysGapless(s, h)
  {
    var kept := KeepTolerable(s, reach, h);
    forall hs | TolerableRun(Happen(s, h), hs)
      ensures Gapless(Outcome(Happen(s, h), hs).cp.applied)
    {
      var reach' := TolerableReachable(Happen(s, h), kept, hs);
      CoveredIsGapless(Outcome(Happen(s, h), hs), reach');
    }
  }
}
