/**
 * The survive-disconnect protocol: a worker stamps events from one counter, queues them, records them
 * in an outbox, and after every reconnect drains, trims and replays against the mark the control plane
 * echoed. Sockets may die at any point; frames of dead sockets may still arrive, interleaved with those
 * of their successors.
 */
module Replay {
  import opened Options
  import opened Wire

  // ---------------------------------------------------------------------
  // The receiver
  // ---------------------------------------------------------------------

  /** What the control plane keeps for one worker: its mark, and the streamed events it has applied. */
  datatype Receiver = Receiver(mark: Option<nat>, applied: seq<Event>)

  /** One inbound message: a streamed event at or below the mark is a replay and is dropped. */
  function OnMessage(cp: Receiver, frame: Frame): Receiver {
    match frame
    case Aside(_) => cp
    case Numbered(event) =>
      if cp.mark.Some? && event.number <= cp.mark.value then cp
      else Receiver(Some(event.number), cp.applied + [event])
  }

  /** The mark as echoed in the handshake: nothing acknowledged reads as the origin. */
  function ReportedMark(cp: Receiver): nat {
    if cp.mark.Some? then cp.mark.value else SEQ_ORIGIN
  }

  // ---------------------------------------------------------------------
  // The worker's outbox
  // ---------------------------------------------------------------------

  /** The outbox entries a worker keeps once it has learnt the echoed mark. */
  function Trim(outbox: seq<Event>, mark: nat): seq<Event> {
    if mark > SEQ_ORIGIN then Above(outbox, mark) else outbox
  }

  function Above(outbox: seq<Event>, mark: nat): seq<Event> {
    if outbox == [] then []
    else if outbox[0].number > mark then [outbox[0]] + Above(outbox[1..], mark)
    else Above(outbox[1..], mark)
  }

  lemma {:induction false} AboveMembers(outbox: seq<Event>, mark: nat)
    ensures forall m :: m in Above(outbox, mark) <==> m in outbox && m.number > mark
  {
    if outbox != [] {
      AboveMembers(outbox[1..], mark);
      assert outbox == [outbox[0]] + outbox[1..];
    }
  }

  lemma {:induction false} AboveLast(events: seq<Event>, e: Event, mark: nat)
    ensures Above(events + [e], mark) == Above(events, mark) + if e.number > mark then [e] else []
  {
    if events == [] {
      assert (events + [e])[1..] == [];
    } else {
      AboveLast(events[1..], e, mark);
      assert (events + [e])[1..] == events[1..] + [e];
    }
  }

  /** What is kept are the entries at these places, in order, each once: exactly those above the mark. */
  lemma {:induction false} AboveIndices(outbox: seq<Event>, mark: nat) returns (at: seq<nat>)
    ensures |Above(outbox, mark)| == |at| && forall i, j :: 0 <= i < j < |at| ==> at[i] < at[j]
    ensures forall k :: 0 <= k < |at| ==> at[k] < |outbox| && Above(outbox, mark)[k] == outbox[at[k]]
    ensures forall i :: 0 <= i < |outbox| ==> (i in at <==> outbox[i].number > mark)
  {
    at := [];
    if outbox != [] {
      var last := |outbox| - 1;
      at := AboveIndices(outbox[..last], mark);
      assert outbox == outbox[..last] + [outbox[last]];
      AboveLast(outbox[..last], outbox[last], mark);
      if outbox[last].number > mark {
        at := at + [last];
      }
    }
  }

  // ---------------------------------------------------------------------
  // The protocol as a transition system
  // ---------------------------------------------------------------------

  /** Where the worker's session stands. */
  datatype Phase = Offline | Greeting | Acked(echoed: nat) | Replaying(sent: nat) | Live

  /** Frames in flight on one socket; `open` is the control plane's end. */
  datatype Link = Link(frames: seq<Frame>, open: bool)

  datatype State = State(
    stamped: seq<Event>,   // every event ever given a number, in that order
    pending: seq<Event>,   // stamped by some task but not yet on the queue
    queue: seq<Event>,     // the executor's event channel
    outbox: seq<Event>,    // recorded for replay
    phase: Phase,
    links: seq<Link>,           // one per socket ever opened; the last is the worker's current one
    cp: Receiver)

  datatype Action =
    | Stamp(event: Event)            // a task draws the next number
    | Enqueue(i: nat)                     // a task puts its stamped event on the channel
    | Connect                             // open a socket, send hello
    | Ack                                 // the control plane answers with its mark
    | Resume                              // drain the channel, trim, start the replay
    | ReplayOne
    | StreamOne                           // take an event from the channel, record it, send it
    | OutOfBand(frame: Frame)        // heartbeat, host sample, drained
    | Disconnect
    | Lose(link: nat, keep: nat)          // a dead socket loses the frames after the first `keep`
    | Deliver(link: nat)                  // the control plane reads the next frame of a socket
    | Assign                              // the worker accepts a job and clears its outbox
    | Restart                             // the control plane forgets marks and sockets

  const Initial := State([], [], [], [], Offline, [], Receiver(None, []))

  predicate CurrentOpen(s: State) {
    |s.links| > 0 && s.links[|s.links| - 1].open
  }

  function Send(links: seq<Link>, m: Frame): seq<Link> {
    if |links| == 0 || !links[|links| - 1].open then links
    else
      var last := links[|links| - 1];
      links[|links| - 1 := last.(frames := last.frames + [m])]
  }

  predicate Enabled(s: State, a: Action) {
    match a
    case Stamp(event) => event.number == |s.stamped|
    case Enqueue(i) => i < |s.pending|
    case Connect => s.phase.Offline?
    case Ack => s.phase.Greeting? && CurrentOpen(s)
    case Resume => s.phase.Acked?
    case ReplayOne => s.phase.Replaying? && s.phase.sent < |s.outbox|
    case StreamOne => Ready(s) && s.queue != []
    case OutOfBand(frame) => Ready(s) && frame.Aside?
    case Disconnect => !s.phase.Offline?
    case Lose(link, keep) =>
      && link < |s.links| && keep <= |s.links[link].frames|
      && (s.phase.Offline? || link + 1 < |s.links|)
    case Deliver(link) => link < |s.links| && s.links[link].open && s.links[link].frames != []
    case Assign => Ready(s)
    case Restart => true
  }

  /** The session has finished its replay and sits in the event loop. */
  predicate Ready(s: State) {
    s.phase.Live? || (s.phase.Replaying? && s.phase.sent == |s.outbox|)
  }

  function Do(s: State, a: Action): State
    requires Enabled(s, a)
  {
    match a
    case Stamp(event) => s.(stamped := s.stamped + [event], pending := s.pending + [event])
    case Enqueue(i) =>
      s.(pending := s.pending[..i] + s.pending[i + 1..], queue := s.queue + [s.pending[i]])
    case Connect => s.(phase := Greeting, links := s.links + [Link([], true)])
    case Ack => s.(phase := Acked(ReportedMark(s.cp)))
    case Resume =>
      s.(queue := [], outbox := Trim(s.outbox + s.queue, s.phase.echoed), phase := Replaying(0))
    case ReplayOne =>
      s.(links := Send(s.links, Numbered(s.outbox[s.phase.sent])), phase := Replaying(s.phase.sent + 1))
    case StreamOne =>
      s.(queue := s.queue[1..], outbox := s.outbox + [s.queue[0]],
         links := Send(s.links, Numbered(s.queue[0])), phase := Live)
    case OutOfBand(frame) => s.(links := Send(s.links, frame), phase := Live)
    case Disconnect => s.(phase := Offline)
    case Lose(link, keep) =>
      s.(links := s.links[link := s.links[link].(frames := s.links[link].frames[..keep])])
    case Deliver(link) =>
      s.(links := s.links[link := s.links[link].(frames := s.links[link].frames[1..])],
         cp := OnMessage(s.cp, s.links[link].frames[0]))
    case Assign => s.(outbox := [], phase := Live)
    case Restart =>
      s.(links := seq(|s.links|, _ => Link([], false)), cp := s.cp.(mark := None))
  }

  /** Runs that are enabled step by step. */
  predicate Run(s: State, acts: seq<Action>)
    decreases |acts|
  {
    acts == [] || (Enabled(s, acts[0]) && Run(Do(s, acts[0]), acts[1..]))
  }

  function After(s: State, acts: seq<Action>): State
    requires Run(s, acts)
    decreases |acts|
  {
    if acts == [] then s else After(Do(s, acts[0]), acts[1..])
  }

  /**
   * The two steps the protocol relies on others for. Tasks must reach the channel in the order they drew
   * their numbers, and a job may be accepted only when every recorded event has been applied, because
   * accepting it clears the outbox.
   */
  predicate Orderly(s: State, a: Action) {
    match a
    case Enqueue(i) => i == 0
    case Assign => forall m :: m in s.outbox ==> m in s.cp.applied
    case _ => true
  }

  predicate OrderlyRun(s: State, acts: seq<Action>)
    decreases |acts|
  {
    acts == []
    || (Enabled(s, acts[0]) && Orderly(s, acts[0]) && OrderlyRun(Do(s, acts[0]), acts[1..]))
  }

  lemma {:induction false} OrderlyRunIsRun(s: State, acts: seq<Action>)
    requires OrderlyRun(s, acts)
    ensures Run(s, acts)
    decreases |acts|
  {
    if acts != [] {
      OrderlyRunIsRun(Do(s, acts[0]), acts[1..]);
    }
  }

  predicate KeepsMark(acts: seq<Action>) {
    forall a :: a in acts ==> !a.Restart?
  }

  // ---------------------------------------------------------------------
  // The invariant
  // ---------------------------------------------------------------------

  /** `events` are the stamped events from number `from` on. */
  predicate Follow(stamped: seq<Event>, events: seq<Event>, from: int) {
    && 0 <= from && from + |events| <= |stamped|
    && forall i :: 0 <= i < |events| ==> events[i] == stamped[from + i]
  }

  /** The numbered frames in flight are exactly the stamped events `lo` up to `hi`, in order. */
  predicate Flows(stamped: seq<Event>, frames: seq<Frame>, lo: nat, hi: int) {
    if frames == [] then lo == hi
    else if frames[0].Aside? then Flows(stamped, frames[1..], lo, hi)
    else lo < |stamped| && frames[0].event == stamped[lo] && Flows(stamped, frames[1..], lo + 1, hi)
  }

  /** Frames in flight that begin without a gap after what was applied. */
  ghost predicate InOrder(stamped: seq<Event>, reach: nat, frames: seq<Frame>, hi: int) {
    exists lo: nat :: lo <= reach && Flows(stamped, frames, lo, hi)
  }

  /** Where the numbers of the pending events, the channel and the outbox begin. */
  function PendingFrom(s: State): int { |s.stamped| - |s.pending| }
  function QueueFrom(s: State): int { PendingFrom(s) - |s.queue| }
  function OutboxFrom(s: State): int { QueueFrom(s) - |s.outbox| }

  /** How far the current session has sent, as a number in the stamped sequence. */
  function SentTo(s: State): int {
    if s.phase.Replaying? then OutboxFrom(s) + s.phase.sent else QueueFrom(s)
  }

  predicate WellStamped(stamped: seq<Event>) {
    forall k :: 0 <= k < |stamped| ==> stamped[k].number == k
  }

  /** Outbox, channel and pending events are consecutive and end at the last number drawn. */
  predicate Sliced(s: State) {
    && Follow(s.stamped, s.outbox, OutboxFrom(s))
    && Follow(s.stamped, s.queue, QueueFrom(s))
    && Follow(s.stamped, s.pending, PendingFrom(s))
  }

  /** The control plane has applied exactly the stamped events numbered below `reach`, each at least once. */
  predicate Covered(stamped: seq<Event>, cp: Receiver, reach: nat) {
    && reach <= |stamped|
    && (forall m :: m in cp.applied ==> m.number < reach && m == stamped[m.number])
    && (forall k :: 0 <= k < reach ==> stamped[k] in cp.applied)
    && (cp.mark.Some? ==> cp.mark.value < reach)
  }

  ghost predicate CoreOk(s: State, reach: nat) {
    && WellStamped(s.stamped) && Sliced(s) && Covered(s.stamped, s.cp, reach)
    && OutboxFrom(s) <= reach <= QueueFrom(s)
  }

  ghost predicate SessionOk(s: State, reach: nat) {
    && (!s.phase.Offline? ==> |s.links| > 0)
    && match s.phase
       case Offline => true
       case Greeting => s.links[|s.links| - 1].frames == []
       case Acked(echoed) =>
         && s.links[|s.links| - 1].frames == []
         && (echoed == SEQ_ORIGIN || echoed < reach)
       case Replaying(sent) => sent <= |s.outbox| && CurrentOk(s, reach, SentTo(s))
       case Live => CurrentOk(s, reach, SentTo(s))
  }

  ghost predicate CurrentOk(s: State, reach: nat, hi: int) {
    CurrentOpen(s) ==> InOrder(s.stamped, reach, s.links[|s.links| - 1].frames, hi)
  }

  /** Whatever socket a frame is on, it was recorded before it was sent. */
  ghost predicate LinksOk(s: State, reach: nat) {
    forall i :: 0 <= i < |s.links| ==> LinkOk(s.stamped, reach, QueueFrom(s), s.links[i])
  }

  ghost predicate LinkOk(stamped: seq<Event>, reach: nat, recorded: int, link: Link) {
    exists hi :: hi <= recorded && InOrder(stamped, reach, link.frames, hi)
  }

  ghost predicate Inv(s: State, reach: nat) {
    CoreOk(s, reach) && SessionOk(s, reach) && LinksOk(s, reach)
  }

  /** How far the control plane has come once a step has been taken. */
  function NextReach(s: State, reach: nat, a: Action): nat
    requires Enabled(s, a)
  {
    if a.Deliver? then ReadReach(s.links[a.link].frames[0], reach) else reach
  }

  function ReadReach(frame: Frame, reach: nat): nat {
    if frame.Numbered? && frame.event.number + 1 > reach then frame.event.number + 1 else reach
  }

  // ---------------------------------------------------------------------
  // Facts about frames in flight
  // ---------------------------------------------------------------------

  /** Frames stay in order while more is stamped. */
  lemma {:induction false} FlowsGrow(stamped: seq<Event>, more: seq<Event>, frames: seq<Frame>, lo: nat, hi: int)
    requires Flows(stamped, frames, lo, hi) && stamped <= more
    ensures Flows(more, frames, lo, hi)
  {
    if frames != [] {
      FlowsGrow(stamped, more, frames[1..], if frames[0].Aside? then lo else lo + 1, hi);
    }
  }

  /** Sending the next recorded event keeps the socket in order. */
  lemma {:induction false} FlowsAppend(stamped: seq<Event>, frames: seq<Frame>, lo: nat, hi: int, m: Frame)
    requires Flows(stamped, frames, lo, hi)
    requires m.Numbered? ==> 0 <= hi < |stamped| && m.event == stamped[hi]
    ensures Flows(stamped, frames + [m], lo, if m.Numbered? then hi + 1 else hi)
  {
    if frames == [] {
      assert (frames + [m])[1..] == [];
    } else {
      FlowsAppend(stamped, frames[1..], if frames[0].Aside? then lo else lo + 1, hi, m);
      assert (frames + [m])[1..] == frames[1..] + [m];
    }
  }

  /** Losing the end of the frames leaves them in order. */
  lemma {:induction false} FlowsTake(stamped: seq<Event>, frames: seq<Frame>, lo: nat, hi: int, keep: nat)
    returns (hi': int)
    requires Flows(stamped, frames, lo, hi) && keep <= |frames|
    ensures lo <= hi' <= hi && Flows(stamped, frames[..keep], lo, hi')
  {
    if keep == 0 {
      hi' := lo;
      FlowsBounds(stamped, frames, lo, hi);
    } else {
      hi' := FlowsTake(stamped, frames[1..], if frames[0].Aside? then lo else lo + 1, hi, keep - 1);
      assert frames[..keep][1..] == frames[1..][..keep - 1];
    }
  }

  lemma {:induction false} FlowsBounds(stamped: seq<Event>, frames: seq<Frame>, lo: nat, hi: int)
    requires Flows(stamped, frames, lo, hi)
    ensures lo <= hi
  {
    if frames != [] {
      FlowsBounds(stamped, frames[1..], if frames[0].Aside? then lo else lo + 1, hi);
    }
  }

  lemma InOrderGrows(stamped: seq<Event>, reach: nat, more: seq<Event>, reach': nat, frames: seq<Frame>, hi: int)
    requires InOrder(stamped, reach, frames, hi)
    requires stamped <= more && reach <= reach'
    ensures InOrder(more, reach', frames, hi)
  {
    var lo: nat :| lo <= reach && Flows(stamped, frames, lo, hi);
    FlowsGrow(stamped, more, frames, lo, hi);
  }

  lemma LinkOkGrows(stamped: seq<Event>, reach: nat, recorded: int, more: seq<Event>, reach': nat, recorded': int, link: Link)
    requires LinkOk(stamped, reach, recorded, link)
    requires stamped <= more && reach <= reach' && recorded <= recorded'
    ensures LinkOk(more, reach', recorded', link)
  {
    var hi :| hi <= recorded && InOrder(stamped, reach, link.frames, hi);
    InOrderGrows(stamped, reach, more, reach', link.frames, hi);
  }

  lemma EmptyLinkOk(stamped: seq<Event>, reach: nat, recorded: int, link: Link)
    requires link.frames == [] && 0 <= recorded
    ensures LinkOk(stamped, reach, recorded, link)
  {
    assert Flows(stamped, link.frames, 0, 0);
    assert InOrder(stamped, reach, link.frames, 0);
  }

  /** The sockets survive any step that leaves them alone. */
  lemma LinksGrow(s: State, t: State, reach: nat)
    requires LinksOk(s, reach) && s.links == t.links
    requires s.stamped <= t.stamped && QueueFrom(s) <= QueueFrom(t)
    ensures LinksOk(t, reach)
  {
    forall i | 0 <= i < |t.links|
      ensures LinkOk(t.stamped, reach, QueueFrom(t), t.links[i])
    {
      LinkOkGrows(s.stamped, reach, QueueFrom(s), t.stamped, reach, QueueFrom(t), s.links[i]);
    }
  }

  /** So does the session, when neither its phase nor its socket changed. */
  lemma SessionGrows(s: State, t: State, reach: nat)
    requires SessionOk(s, reach) && s.stamped <= t.stamped
    requires s.links == t.links && s.phase == t.phase && SentTo(s) == SentTo(t) && |s.outbox| == |t.outbox|
    ensures SessionOk(t, reach)
  {
    if CurrentOpen(s) && (s.phase.Replaying? || s.phase.Live?) {
      InOrderGrows(s.stamped, reach, t.stamped, reach, s.links[|s.links| - 1].frames, SentTo(s));
    }
  }

  // ---------------------------------------------------------------------
  // Every step keeps the invariant
  // ---------------------------------------------------------------------

  lemma KeepStamp(s: State, reach: nat, event: Event)
    requires Inv(s, reach) && Enabled(s, Stamp(event))
    ensures Inv(Do(s, Stamp(event)), reach)
  {
    LinksGrow(s, Do(s, Stamp(event)), reach);
    SessionGrows(s, Do(s, Stamp(event)), reach);
  }

  lemma KeepEnqueue(s: State, reach: nat)
    requires Inv(s, reach) && Enabled(s, Enqueue(0))
    ensures Inv(Do(s, Enqueue(0)), reach)
  {
    LinksGrow(s, Do(s, Enqueue(0)), reach);
    SessionGrows(s, Do(s, Enqueue(0)), reach);
  }

  lemma KeepConnect(s: State, reach: nat)
    requires Inv(s, reach) && Enabled(s, Connect)
    ensures Inv(Do(s, Connect), reach)
  {
    EmptyLinkOk(s.stamped, reach, QueueFrom(s), Link([], true));
  }

  lemma KeepHandshake(s: State, reach: nat, a: Action)
    requires Inv(s, reach) && Enabled(s, a) && (a.Ack? || a.Disconnect?)
    ensures Inv(Do(s, a), reach)
  {
    LinksGrow(s, Do(s, a), reach);
  }

  lemma KeepRestart(s: State, reach: nat)
    requires Inv(s, reach)
    ensures Inv(Do(s, Restart), reach)
  {
    EmptyLinkOk(s.stamped, reach, QueueFrom(s), Link([], false));
  }

  lemma KeepAssign(s: State, reach: nat)
    requires Inv(s, reach) && Enabled(s, Assign) && Orderly(s, Assign)
    ensures Inv(Do(s, Assign), reach)
  {
    var t := Do(s, Assign);
    assert s.outbox != [] ==> s.outbox[|s.outbox| - 1] in s.cp.applied;
    LinksGrow(s, t, reach);
    assert SentTo(t) == SentTo(s);
  }

  /** Trimming consecutive events leaves consecutive events, and cuts no deeper than the mark. */
  lemma {:induction false} AboveFollow(stamped: seq<Event>, events: seq<Event>, from: int, mark: nat)
    returns (kept: seq<Event>, cut: int)
    requires WellStamped(stamped)
    requires Follow(stamped, events, from)
    ensures kept == Above(events, mark)
    ensures cut + |kept| == from + |events| && Follow(stamped, kept, cut)
    ensures from <= cut && (cut == from || cut <= mark + 1)
  {
    kept, cut := events, from;
    if events != [] {
      if events[0].number > mark {
        AboveAll(stamped, events, from, mark);
      } else {
        kept, cut := AboveFollow(stamped, events[1..], from + 1, mark);
      }
    }
  }

  lemma {:induction false} AboveAll(stamped: seq<Event>, events: seq<Event>, from: int, mark: nat)
    requires WellStamped(stamped)
    requires Follow(stamped, events, from) && from > mark
    ensures Above(events, mark) == events
  {
    if events != [] {
      AboveAll(stamped, events[1..], from + 1, mark);
    }
  }

  lemma FollowJoin(stamped: seq<Event>, first: seq<Event>, second: seq<Event>, from: int)
    requires Follow(stamped, first, from) && Follow(stamped, second, from + |first|)
    ensures Follow(stamped, first + second, from)
  {
  }

  lemma KeepResume(s: State, reach: nat)
    requires Inv(s, reach) && Enabled(s, Resume)
    ensures Inv(Do(s, Resume), reach)
  {
    var t := Do(s, Resume);
    FollowJoin(s.stamped, s.outbox, s.queue, OutboxFrom(s));
    var kept, cut := AboveFollow(s.stamped, s.outbox + s.queue, OutboxFrom(s), s.phase.echoed);
    LinksGrow(s, t, reach);
    assert SentTo(t) == OutboxFrom(t) && Flows(t.stamped, [], OutboxFrom(t), OutboxFrom(t));
  }

  /** The frame a sending step puts on the current socket. */
  function Sent(s: State, a: Action): Frame
    requires Enabled(s, a) && (a.ReplayOne? || a.StreamOne? || a.OutOfBand?)
  {
    match a
    case ReplayOne => Numbered(s.outbox[s.phase.sent])
    case StreamOne => Numbered(s.queue[0])
    case OutOfBand(frame) => frame
  }

  /** Sending the next recorded event keeps every socket in order. */
  lemma SendLinks(stamped: seq<Event>, reach: nat, recorded: int, recorded': int, links: seq<Link>, sent: int, m: Frame)
    requires links != [] && recorded <= recorded'
    requires forall i :: 0 <= i < |links| ==> LinkOk(stamped, reach, recorded, links[i])
    requires links[|links| - 1].open ==> InOrder(stamped, reach, links[|links| - 1].frames, sent)
    requires m.Numbered? ==> 0 <= sent < |stamped| && m.event == stamped[sent]
    requires (if m.Numbered? then sent + 1 else sent) <= recorded'
    ensures var links', sent' := Send(links, m), if m.Numbered? then sent + 1 else sent;
            && (forall i :: 0 <= i < |links'| ==> LinkOk(stamped, reach, recorded', links'[i]))
            && (links'[|links| - 1].open ==> InOrder(stamped, reach, links'[|links| - 1].frames, sent'))
  {
    var last := |links| - 1;
    if links[last].open {
      var lo: nat :| lo <= reach && Flows(stamped, links[last].frames, lo, sent);
      FlowsAppend(stamped, links[last].frames, lo, sent, m);
      assert InOrder(stamped, reach, Send(links, m)[last].frames, if m.Numbered? then sent + 1 else sent);
    }
    forall i | 0 <= i < |links|
      ensures LinkOk(stamped, reach, recorded', Send(links, m)[i])
    {
      if !(links[last].open && i == last) {
        LinkOkGrows(stamped, reach, recorded, stamped, reach, recorded', links[i]);
      }
    }
  }

  lemma FollowShift(stamped: seq<Event>, outbox: seq<Event>, queue: seq<Event>, from: int)
    requires queue != [] && Follow(stamped, outbox, from) && Follow(stamped, queue, from + |outbox|)
    ensures Follow(stamped, outbox + [queue[0]], from) && Follow(stamped, queue[1..], from + |outbox| + 1)
  {
  }

  lemma StreamCore(s: State, reach: nat)
    requires CoreOk(s, reach) && Enabled(s, StreamOne)
    ensures CoreOk(Do(s, StreamOne), reach)
  {
    FollowShift(s.stamped, s.outbox, s.queue, OutboxFrom(s));
  }

  lemma SendCore(s: State, reach: nat, a: Action)
    requires CoreOk(s, reach) && Enabled(s, a) && (a.ReplayOne? || a.StreamOne? || a.OutOfBand?)
    ensures var t, m := Do(s, a), Sent(s, a);
            && CoreOk(t, reach)
            && t.stamped == s.stamped && QueueFrom(s) <= QueueFrom(t)
            && (m.Numbered? ==> 0 <= SentTo(s) < |s.stamped| && m.event == s.stamped[SentTo(s)])
            && SentTo(t) == (if m.Numbered? then SentTo(s) + 1 else SentTo(s))
            && SentTo(t) <= QueueFrom(t)
  {
    if a.StreamOne? {
      StreamCore(s, reach);
    }
  }

  lemma KeepSend(s: State, reach: nat, a: Action)
    requires Inv(s, reach) && Enabled(s, a) && (a.ReplayOne? || a.StreamOne? || a.OutOfBand?)
    ensures Inv(Do(s, a), reach)
  {
    SendCore(s, reach, a);
    SendLinks(s.stamped, reach, QueueFrom(s), QueueFrom(Do(s, a)), s.links, SentTo(s), Sent(s, a));
  }

  lemma KeepLose(s: State, reach: nat, a: Action)
    requires Inv(s, reach) && Enabled(s, a) && a.Lose?
    ensures Inv(Do(s, a), reach)
  {
    var t := Do(s, a);
    var link := s.links[a.link];
    assert LinkOk(s.stamped, reach, QueueFrom(s), link);
    var hi :| hi <= QueueFrom(s) && InOrder(s.stamped, reach, link.frames, hi);
    var lo: nat :| lo <= reach && Flows(s.stamped, link.frames, lo, hi);
    var hi' := FlowsTake(s.stamped, link.frames, lo, hi, a.keep);
    assert InOrder(s.stamped, reach, t.links[a.link].frames, hi');
    assert LinkOk(t.stamped, reach, QueueFrom(t), t.links[a.link]);
    assert !s.phase.Offline? ==> t.links[|t.links| - 1] == s.links[|s.links| - 1];
  }

  /** The receiver stays covered when the event it reads is not beyond its reach. */
  lemma ReceiveCovered(stamped: seq<Event>, cp: Receiver, reach: nat, m: Event)
    requires Covered(stamped, cp, reach)
    requires m.number <= reach && m.number < |stamped| && m == stamped[m.number]
    ensures Covered(stamped, OnMessage(cp, Numbered(m)), ReadReach(Numbered(m), reach))
  {
    var after, reach' := OnMessage(cp, Numbered(m)), ReadReach(Numbered(m), reach);
    assert forall e :: e in after.applied <==> e in cp.applied || (e == m && after != cp);
  }

  /** Frames in order stay in order past the first of them, once the receiver has read it. */
  lemma ReadInOrder(stamped: seq<Event>, cp: Receiver, reach: nat, frames: seq<Frame>, hi: int)
    requires frames != [] && WellStamped(stamped) && Covered(stamped, cp, reach)
    requires InOrder(stamped, reach, frames, hi)
    ensures var reach' := ReadReach(frames[0], reach);
            && Covered(stamped, OnMessage(cp, frames[0]), reach')
            && (reach' == reach || reach' <= hi)
            && InOrder(stamped, reach', frames[1..], hi)
  {
    var lo: nat :| lo <= reach && Flows(stamped, frames, lo, hi);
    if frames[0].Numbered? {
      ReceiveCovered(stamped, cp, reach, frames[0].event);
      FlowsBounds(stamped, frames[1..], lo + 1, hi);
      var lo': nat := lo + 1;
      assert lo' <= ReadReach(frames[0], reach) && Flows(stamped, frames[1..], lo', hi);
    } else {
      assert Flows(stamped, frames[1..], lo, hi);
    }
  }

  lemma DeliverLinks(s: State, reach: nat, link: nat)
    requires WellStamped(s.stamped) && Covered(s.stamped, s.cp, reach) && LinksOk(s, reach)
    requires Enabled(s, Deliver(link))
    ensures var t, reach' := Do(s, Deliver(link)), NextReach(s, reach, Deliver(link));
            && LinksOk(t, reach') && Covered(t.stamped, t.cp, reach')
            && (reach' == reach || reach' <= QueueFrom(s))
  {
    var t, reach' := Do(s, Deliver(link)), NextReach(s, reach, Deliver(link));
    assert LinkOk(s.stamped, reach, QueueFrom(s), s.links[link]);
    var hi :| hi <= QueueFrom(s) && InOrder(s.stamped, reach, s.links[link].frames, hi);
    ReadInOrder(s.stamped, s.cp, reach, s.links[link].frames, hi);
    forall i | 0 <= i < |t.links|
      ensures LinkOk(t.stamped, reach', QueueFrom(t), t.links[i])
    {
      if i != link {
        LinkOkGrows(s.stamped, reach, QueueFrom(s), s.stamped, reach', QueueFrom(t), s.links[i]);
      }
    }
  }

  lemma DeliverSession(s: State, reach: nat, link: nat)
    requires WellStamped(s.stamped) && Covered(s.stamped, s.cp, reach) && SessionOk(s, reach)
    requires Enabled(s, Deliver(link))
    ensures SessionOk(Do(s, Deliver(link)), NextReach(s, reach, Deliver(link)))
  {
    var last := |s.links| - 1;
    if CurrentOpen(s) && (s.phase.Replaying? || s.phase.Live?) {
      if link == last {
        ReadInOrder(s.stamped, s.cp, reach, s.links[last].frames, SentTo(s));
      } else {
        InOrderGrows(s.stamped, reach, s.stamped, NextReach(s, reach, Deliver(link)), s.links[last].frames, SentTo(s));
      }
    }
  }

  lemma DeliverCore(s: State, reach: nat, link: nat)
    requires CoreOk(s, reach) && LinksOk(s, reach) && Enabled(s, Deliver(link))
    ensures CoreOk(Do(s, Deliver(link)), NextReach(s, reach, Deliver(link)))
    ensures LinksOk(Do(s, Deliver(link)), NextReach(s, reach, Deliver(link)))
  {
    DeliverLinks(s, reach, link);
  }

  lemma KeepDeliver(s: State, reach: nat, link: nat)
    requires Inv(s, reach) && Enabled(s, Deliver(link))
    ensures Inv(Do(s, Deliver(link)), NextReach(s, reach, Deliver(link)))
  {
    DeliverCore(s, reach, link);
    DeliverSession(s, reach, link);
  }

  /** Every orderly step keeps the invariant, restarts of the control plane included. */
  lemma Keep(s: State, reach: nat, a: Action)
    requires Inv(s, reach) && Enabled(s, a) && Orderly(s, a)
    ensures Inv(Do(s, a), NextReach(s, reach, a))
  {
    match a
    case Stamp(event) => KeepStamp(s, reach, event);
    case Enqueue(_) => KeepEnqueue(s, reach);
    case Connect => KeepConnect(s, reach);
    case Ack => KeepHandshake(s, reach, a);
    case Resume => KeepResume(s, reach);
    case ReplayOne => KeepSend(s, reach, a);
    case StreamOne => KeepSend(s, reach, a);
    case OutOfBand(_) => KeepSend(s, reach, a);
    case Disconnect => KeepHandshake(s, reach, a);
    case Lose(_, _) => KeepLose(s, reach, a);
    case Deliver(link) => KeepDeliver(s, reach, link);
    case Assign => KeepAssign(s, reach);
    case Restart => KeepRestart(s, reach);
  }
}
