/**
 * The two ends of the survive-disconnect protocol as the programs they are: a worker that updates its
 * counter, channel, outbox and slot in place, and a hub that updates its marks. Every method is shown
 * to take exactly the steps of the transition system.
 */
module Worker {
  import opened Options
  import opened Wire
  import opened Replay
  import opened ReplayTheorems
  import opened Faults

  /** The worker-lifetime sequence counter. */
  class Seq {
    var value: nat

    constructor ()
      ensures value == SEQ_ORIGIN
    {
      value := SEQ_ORIGIN;
    }

    method Next() returns (n: nat)
      modifies this
      ensures n == old(value) && value == old(value) + 1
    {
      n := value;
      value := value + 1;
    }
  }

  datatype WorkerClass = Leased | Persistent

  /** What a reconnecting worker tells the control plane. */
  datatype Resumption = Resumption(worker: string, running: Option<JobId>, highWater: nat)

  datatype Running = Running(job: JobId, finished: bool)

  /** Outbox entries for events taken from the channel. */
  function Recorded(events: seq<WorkerToCp>): (entries: seq<Event>)
    ensures |entries| == |events|
    ensures forall i :: 0 <= i < |events| ==> entries[i] == Event(EventSeq(events[i]), events[i])
  {
    seq(|events|, i requires 0 <= i < |events| => Event(EventSeq(events[i]), events[i]))
  }

  predicate IsSuffix(end: seq<Frame>, frames: seq<Frame>) {
    |end| <= |frames| && frames[|frames| - |end|..] == end
  }

  class Worker {
    const counter: Seq
    var queue: seq<WorkerToCp>
    var outbox: seq<Event>
    var current: Option<Running>
    var identity: Option<string>
    var klass: WorkerClass
    var draining: bool
    var sent: seq<Frame>   // what this session has put on its socket

    constructor ()
      ensures fresh(counter) && identity == None && current == None
      ensures Shows(Initial)
    {
      counter := new Seq();
      queue, outbox, current, draining, sent := [], [], None, false, [];
      identity, klass := None, Leased;
    }

    /** The worker's fields are the worker's part of the protocol state `s`. */
    ghost predicate Shows(s: State)
      reads this, counter
    {
      && s.pending == [] && |s.stamped| == counter.value
      && s.queue == Recorded(queue) && s.outbox == outbox
      && (forall m :: m in queue ==> Streamed(m))
      && (CurrentOpen(s) && !s.phase.Offline? ==> IsSuffix(s.links[|s.links| - 1].frames, sent))
    }

    /** Everything that happens outside the worker leaves it as it is. */
    lemma OthersStep(s: State, a: Action)
      requires Shows(s) && Enabled(s, a) && (a.Ack? || a.Deliver? || a.Lose? || a.Restart?)
      ensures Shows(Do(s, a))
    {
    }

    /** Stamp an event and put it on the channel. */
    method Emit(make: nat -> WorkerToCp, ghost s: State)
      requires Shows(s) && forall n: nat :: StreamedSeq(make(n)) == Some(n)
      modifies counter, `queue
      ensures var event := Event(old(counter.value), make(old(counter.value)));
              && Enabled(s, Stamp(event)) && Enabled(Do(s, Stamp(event)), Enqueue(0))
              && Shows(Do(Do(s, Stamp(event)), Enqueue(0)))
    {
      var n := counter.Next();
      queue := queue + [make(n)];
      ReadingsAgree(make(n));
    }

    /**
     * A new session has opened its socket. It says hello, with what it resumes if it has an identity: the job still
     * running and the last number recorded.
     */
    method Connected(ghost s: State) returns (resume: Option<Resumption>)
      requires Shows(s) && s.phase.Offline?
      modifies `sent, `draining
      ensures Shows(Do(s, Connect)) && !draining
      ensures resume.Some? <==> identity.Some?
      ensures resume.Some? ==>
        && resume.value.worker == identity.value
        && resume.value.running == (if current.Some? && !current.value.finished then Some(current.value.job) else None)
        && resume.value.highWater == if outbox == [] then SEQ_ORIGIN else outbox[|outbox| - 1].number
    {
      sent, draining := [], false;
      resume := None;
      if identity.Some? {
        var running := None;
        if current.Some? && !current.value.finished {
          running := Some(current.value.job);
        }
        resume := Some(Resumption(identity.value, running, if outbox == [] then SEQ_ORIGIN else outbox[|outbox| - 1].number));
      }
    }

    /** Sweep up what the executor produced while no session was there to stream it. */
    method DrainChannel()
      modifies `queue, `outbox
      ensures queue == [] && outbox == old(outbox) + Recorded(old(queue))
    {
      while queue != []
        invariant outbox + Recorded(queue) == old(outbox) + Recorded(old(queue))
        decreases |queue|
      {
        var event := queue[0];
        assert outbox + Recorded(queue) == (outbox + [Event(EventSeq(event), event)]) + Recorded(queue[1..]);
        queue, outbox := queue[1..], outbox + [Event(EventSeq(event), event)];
      }
    }

    /** Drop, in place, the entries the control plane has already applied. */
    method TrimToHighWater(mark: nat)
      modifies `outbox
      ensures outbox == Trim(old(outbox), mark)
    {
      if mark > SEQ_ORIGIN {
        var i := 0;
        while i < |outbox|
          invariant 0 <= i <= |outbox|
          invariant forall j :: 0 <= j < i ==> outbox[j].number > mark
          invariant Above(outbox, mark) == Above(old(outbox), mark)
          decreases |outbox| - i
        {
          if outbox[i].number > mark {
            i := i + 1;
          } else {
            AboveWithout(outbox, i, mark);
            outbox := outbox[..i] + outbox[i + 1..];
          }
        }
        AboveKeepsAll(outbox, mark);
      }
    }

    /** Resend the outbox until it ends or, after `room` frames, the socket proves dead. */
    method ResendOutbox(room: nat, ghost s: State) returns (alive: bool, ghost acts: seq<Action>)
      requires Shows(s) && s.phase == Replaying(0)
      modifies `sent
      ensures alive <==> |outbox| <= room
      ensures sent == old(sent) + Frames(outbox[..if alive then |outbox| else room])
      ensures OrderlyRun(s, acts) && Run(s, acts) && KeepsMark(acts)
      ensures Shows(After(s, acts)) && After(s, acts).phase == Replaying(if alive then |outbox| else room)
    {
      var i := 0;
      acts := [];
      ghost var t := s;
      while i < |outbox|
        invariant 0 <= i <= |outbox| && i <= room
        invariant sent == old(sent) + Frames(outbox[..i])
        invariant OrderlyRun(s, acts) && Run(s, acts) && KeepsMark(acts)
        invariant t == After(s, acts) && Shows(t) && t.phase == Replaying(i)
      {
        if i == room {
          return false, acts;
        }
        Append(s, acts, ReplayOne);
        SuffixSent(t, ReplayOne);
        sent := sent + [Numbered(outbox[i])];
        assert outbox[..i + 1] == outbox[..i] + [outbox[i]];
        acts, t := acts + [ReplayOne], Do(t, ReplayOne);
        i := i + 1;
      }
      assert outbox[..i] == outbox;
      alive := true;
    }

    /**
     * The handshake has been answered: take on the identity, and the class that decides what a disconnect does, then
     * drain, trim to the mark and replay, all before the event loop.
     */
    method Resumed(given: string, givenClass: WorkerClass, mark: nat, room: nat, ghost s: State)
      returns (alive: bool, ghost acts: seq<Action>)
      requires Shows(s) && s.phase == Acked(mark)
      modifies `queue, `outbox, `sent, `identity, `klass
      ensures identity == Some(given) && klass == givenClass
      ensures outbox == Trim(old(outbox) + Recorded(old(queue)), mark) && queue == []
      ensures alive <==> |outbox| <= room
      ensures sent == old(sent) + Frames(outbox[..if alive then |outbox| else room])
      ensures OrderlyRun(s, acts) && Run(s, acts) && KeepsMark(acts)
      ensures Shows(After(s, acts)) && After(s, acts).phase == Replaying(if alive then |outbox| else room)
    {
      identity, klass := Some(given), givenClass;
      DrainChannel();
      TrimToHighWater(mark);
      assert Shows(Do(s, Resume));
      alive, acts := ResendOutbox(room, Do(s, Resume));
      Prepend(s, Resume, acts);
      acts := [Resume] + acts;
    }

    /** The event loop takes the next event off the channel: record it first, then stream it. */
    method OnEvent(ghost s: State)
      requires Shows(s) && Ready(s) && queue != []
      modifies `queue, `outbox, `sent
      ensures Enabled(s, StreamOne) && Shows(Do(s, StreamOne))
    {
      var event := queue[0];
      ReadingsAgree(event);
      assert event in queue && FrameOf(event) == Sent(s, StreamOne);
      SuffixSent(s, StreamOne);
      queue, outbox := queue[1..], outbox + [Event(EventSeq(event), event)];
      sent := sent + [FrameOf(event)];
    }

    /** A heartbeat, a host sample or the drained signal: straight to the socket, never recorded. */
    method SendAside(m: WorkerToCp, ghost s: State)
      requires Shows(s) && Ready(s) && !Streamed(m)
      modifies `sent
      ensures Enabled(s, OutOfBand(FrameOf(m))) && Shows(Do(s, OutOfBand(FrameOf(m))))
    {
      SuffixSent(s, OutOfBand(FrameOf(m)));
      sent := sent + [FrameOf(m)];
    }

    /** An assignment is ignored while draining or busy; otherwise it starts a fresh outbox. */
    method OnAssign(job: JobId, ghost s: State) returns (accepted: bool)
      requires Shows(s) && Ready(s)
      modifies `outbox, `current
      ensures accepted <==> !draining && (old(current).Some? ==> old(current).value.finished)
      ensures current == if accepted then Some(Running(job, false)) else old(current)
      ensures Shows(if accepted then Do(s, Assign) else s)
    {
      if draining {
        return false;
      }
      if current.Some? && !current.value.finished {
        return false;
      }
      outbox := [];
      current := Some(Running(job, false));
      accepted := true;
    }

    /** A cancel always reports a killed job: the one in the slot, or the one asked for when the slot is empty. */
    method OnCancel(job: JobId, ghost s: State) returns (killed: JobId)
      requires Shows(s)
      modifies counter, `queue, `current
      ensures current == None
      ensures killed == if old(current).Some? then old(current).value.job else job
      ensures var event := Event(old(counter.value), JobKilled(old(counter.value), killed, Cancel));
              && queue == old(queue) + [event.body]
              && Enabled(s, Stamp(event)) && Enabled(Do(s, Stamp(event)), Enqueue(0))
              && Shows(Do(Do(s, Stamp(event)), Enqueue(0)))
    {
      killed := job;
      if current.Some? {
        killed := current.value.job;
        current := None;
      }
      var n := counter.Next();
      queue := queue + [JobKilled(n, killed, Cancel)];
    }

    /** A drain order: take no further work this session, and say so out of band. */
    method OnDrain(ghost s: State)
      requires Shows(s) && Ready(s)
      modifies `draining, `sent
      ensures draining && Shows(Do(s, OutOfBand(FrameOf(Drained))))
    {
      draining := true;
      SendAside(Drained, s);
    }

    /** The session is over. A leased worker abandons its job; a persistent one leaves it running. */
    method Disconnected(ghost s: State)
      requires Shows(s) && !s.phase.Offline?
      modifies `current
      ensures current == if klass.Leased? then None else old(current)
      ensures Shows(Do(s, Disconnect))
    {
      if klass.Leased? {
        current := None;
      }
    }

    lemma SuffixSent(s: State, a: Action)
      requires Shows(s) && Enabled(s, a) && (a.ReplayOne? || a.StreamOne? || a.OutOfBand?)
      ensures CurrentOpen(s) ==>
                IsSuffix(Do(s, a).links[|s.links| - 1].frames, sent + [Sent(s, a)])
    {
    }
  }

  lemma {:induction false} AboveKeepsAll(outbox: seq<Event>, mark: nat)
    requires forall j :: 0 <= j < |outbox| ==> outbox[j].number > mark
    ensures Above(outbox, mark) == outbox
  {
    if outbox != [] {
      AboveKeepsAll(outbox[1..], mark);
    }
  }

  lemma {:induction false} AboveWithout(outbox: seq<Event>, i: nat, mark: nat)
    requires i < |outbox| && outbox[i].number <= mark
    ensures Above(outbox[..i] + outbox[i + 1..], mark) == Above(outbox, mark)
  {
    if i == 0 {
      assert outbox[..0] + outbox[1..] == outbox[1..];
    } else {
      AboveWithout(outbox[1..], i - 1, mark);
      assert (outbox[..i] + outbox[i + 1..])[1..] == outbox[1..][..i - 1] + outbox[1..][i..];
    }
  }

  /** One more orderly step at the end of a run. */
  lemma {:induction false} Append(s: State, acts: seq<Action>, a: Action)
    requires OrderlyRun(s, acts) && Run(s, acts) && KeepsMark(acts)
    requires Enabled(After(s, acts), a) && Orderly(After(s, acts), a) && !a.Restart?
    ensures OrderlyRun(s, acts + [a]) && Run(s, acts + [a]) && KeepsMark(acts + [a])
    ensures After(s, acts + [a]) == Do(After(s, acts), a)
  {
    Prepend(After(s, acts), a, []);
    assert [a] + [] == [a];
    RunJoin(s, acts, [a]);
  }

  // ---------------------------------------------------------------------
  // The hub's end
  // ---------------------------------------------------------------------

  type WorkerId = string

  class Hub {
    var highWater: map<WorkerId, nat>
    var applied: map<WorkerId, seq<Event>>   // what the store has been told, worker by worker

    constructor ()
      ensures forall w :: Of(w) == Receiver(None, [])
    {
      highWater, applied := map[], map[];
    }

    /** The protocol's receiver for one worker. */
    function Of(w: WorkerId): Receiver
      reads this
    {
      Receiver(if w in highWater then Some(highWater[w]) else None, if w in applied then applied[w] else [])
    }

    /** The mark echoed to a worker that says hello. */
    method ResumeHighWater(w: WorkerId) returns (mark: nat)
      ensures mark == ReportedMark(Of(w))
      ensures w in highWater ==> mark == highWater[w]
      ensures w !in highWater ==> mark == 0
    {
      mark := if w in highWater then highWater[w] else 0;
    }

    /**
     * A message from one worker: dropped as a replay, or applied; other workers' marks are their own. If the store cannot
     * note that the worker was seen the message is dropped before the mark is looked at; if it cannot take the event the
     * mark has moved all the same. Either way the connection is kept: see `Faults`.
     */
    method OnMessage(w: WorkerId, m: WorkerToCp, fate: Fate)
      modifies this
      ensures Of(w) == Handle(old(Of(w)), FrameOf(m), fate)
      ensures forall other :: other != w ==> Of(other) == old(Of(other))
    {
      if fate.Unseen? {
        return;
      }
      var number := StreamedSeq(m);
      if number.Some? {
        if w in highWater && number.value <= highWater[w] {
          return;
        }
        highWater := highWater[w := number.value];
        if fate.Fine? {
          applied := applied[w := (if w in applied then applied[w] else []) + [Event(number.value, m)]];
        }
      }
    }

    /** A restart forgets every mark; what was applied stays applied. */
    method Restart()
      modifies this
      ensures forall w :: Of(w) == old(Of(w)).(mark := None)
    {
      highWater := map[];
    }
  }
}
