/** The durable reporting outbox: enqueue, attempt, back off, sweep. Operations run one at a time; server replies are parameters. */
module Reporting {
  import opened Options

  type RunId = string

  datatype RunState = Queued | Assigned | Running | Completed | Failed | Cancelled

  datatype Event =
    | Created(train: bool, ref: Option<string>)
    | State(state: RunState)
    | Checkpoint(uri: Option<string>)      // none: no uri the server accepts
    | Result(name: string, value: real)

  datatype Payload = Parsed(event: Event) | Corrupt

  datatype Row = Row(run: RunId, payload: Payload, attempts: nat, nextAt: real, createdAt: real, done: bool)

  /** What a request asks of the experiments server. */
  datatype Request =
    | EnsureExperiment
    | CreateRun
    | LinkRun(linked: string)
    | ReportState(status: string)
    | ReportCheckpoint(uri: string)
    | ReportResult(name: string, value: real)

  /** What happens, in order: a row is stored, a request for a row is made, accepted or not, a run's external id is recorded. */
  datatype Entry =
    | Stored(row: nat, run: RunId)
    | Sent(row: nat, run: RunId, request: Request, ext: string, accepted: bool)
    | Recorded(run: RunId, ext: string)

  datatype HttpReply = NoReply | Replied(status: int)

  /** The server's side of one attempt. */
  datatype Net = Net(ensure: HttpReply, reply: HttpReply, created: Option<string>, linkback: HttpReply, took: real)

  const CONFLICT := 409
  const SWEEP_BATCH: nat := 20
  const BASE_BACKOFF_SECS: nat := 30
  const MAX_BACKOFF_SECS: nat := 3600

  predicate Accepted(reply: HttpReply) {
    reply.Replied? && 200 <= reply.status < 300
  }

  // ---------------------------------------------------------------------
  // Backing off
  // ---------------------------------------------------------------------

  function Pow2(n: nat): nat {
    if n == 0 then 1 else 2 * Pow2(n - 1)
  }

  function Min(a: nat, b: nat): nat {
    if a <= b then a else b
  }

  /** The wait before the next attempt when `attempts` have failed before the one that just failed. */
  function BackoffFor(attempts: nat): nat {
    Min(BASE_BACKOFF_SECS * Pow2(Min(attempts, 10)), MAX_BACKOFF_SECS)
  }

  lemma {:induction false} Pow2Grows(a: nat, b: nat)
    requires a <= b
    ensures Pow2(a) <= Pow2(b)
    decreases b
  {
    if a < b {
      Pow2Grows(a, b - 1);
    }
  }

  /** Clamping the exponent changes nothing: the wait doubles from thirty seconds up to an hour. */
  lemma {:induction false} BackoffDoubles(attempts: nat)
    ensures BackoffFor(attempts) == Min(BASE_BACKOFF_SECS * Pow2(attempts), MAX_BACKOFF_SECS)
  {
    if attempts > 10 {
      Pow2Grows(10, attempts);
      assert Pow2(10) == 1024 by {
        assert Pow2(5) == 32;
        assert Pow2(8) == 8 * Pow2(5);
      }
    }
  }

  // ---------------------------------------------------------------------
  // What a row needs
  // ---------------------------------------------------------------------

  function MapStatus(state: RunState): Option<string> {
    match state
    case Running => Some("running")
    case Completed => Some("completed")
    case Failed => Some("failed")
    case Cancelled => Some("cancelled")
    case _ => None
  }

  predicate NeedsNoSending(event: Event) {
    (event.Created? && !event.train) || (event.State? && MapStatus(event.state).None?)
  }

  /** The request that delivers an event, if there is one. */
  function RequestFor(event: Event): Option<Request> {
    match event
    case Created(train, ref) =>
      if !train then None else if ref.Some? then Some(LinkRun(ref.value)) else Some(CreateRun)
    case State(state) =>
      var status := MapStatus(state);
      if status.Some? then Some(ReportState(status.value)) else None
    case Checkpoint(uri) => if uri.Some? then Some(ReportCheckpoint(uri.value)) else None
    case Result(name, value) => Some(ReportResult(name, value))
  }

  // ---------------------------------------------------------------------
  // One attempt
  // ---------------------------------------------------------------------

  predicate Ensures(ensured: bool, net: Net) {
    ensured || Accepted(net.ensure) || net.ensure == Replied(CONFLICT)
  }

  /** Whether an attempt at an event succeeds. */
  predicate Succeeds(event: Event, net: Net, ensured: bool, known: bool) {
    match event
    case Created(train, ref) =>
      !train || (if ref.Some? then Accepted(net.reply) else Ensures(ensured, net) && Accepted(net.reply) && net.created.Some?)
    case Checkpoint(None) => false
    case _ => known && (NeedsNoSending(event) || Accepted(net.reply))
  }

  /** Creating a run: the experiment first, then the run, then the link back, whatever comes of it, and the id. */
  function CreateTrace(row: nat, run: RunId, net: Net, ensured: bool): seq<Entry> {
    var ensure := if ensured then [] else [Sent(row, run, EnsureExperiment, "", Accepted(net.ensure))];
    if !Ensures(ensured, net) then ensure
    else
      var create := ensure + [Sent(row, run, CreateRun, "", Accepted(net.reply))];
      if !Accepted(net.reply) || net.created.None? then create
      else create + [Sent(row, run, LinkRun(net.created.value), net.created.value, Accepted(net.linkback)), Recorded(run, net.created.value)]
  }

  /** What an attempt adds to the log. */
  function Trace(row: nat, run: RunId, event: Event, net: Net, ensured: bool, known: Option<string>): seq<Entry> {
    match event
    case Created(train, ref) =>
      if !train then []
      else if ref.Some? then
        [Sent(row, run, LinkRun(ref.value), ref.value, Accepted(net.reply))]
        + if Accepted(net.reply) then [Recorded(run, ref.value)] else []
      else CreateTrace(row, run, net, ensured)
    case _ =>
      if known.None? || RequestFor(event).None? then []
      else [Sent(row, run, RequestFor(event).value, known.value, Accepted(net.reply))]
  }

  function ExtOf(ext: map<RunId, string>, run: RunId): Option<string> {
    if run in ext then Some(ext[run]) else None
  }

  // ---------------------------------------------------------------------
  // What the log shows
  // ---------------------------------------------------------------------

  /** Requests that speak of a run the server already knows. */
  predicate NeedsExt(request: Request) {
    request.ReportState? || request.ReportCheckpoint? || request.ReportResult?
  }

  /** Before any such request, the run's external id was recorded. */
  predicate IdFirst(log: seq<Entry>) {
    forall i :: 0 <= i < |log| && log[i].Sent? && NeedsExt(log[i].request) ==> Recorded(log[i].run, log[i].ext) in log[..i]
  }

  predicate IdsRecorded(log: seq<Entry>, ext: map<RunId, string>) {
    forall run :: run in ext ==> Recorded(run, ext[run]) in log
  }

  /** The log holds an accepted request that delivers this row's event. */
  predicate Delivered(log: seq<Entry>, row: nat, event: Event) {
    exists e :: e in log && e.Sent? && e.row == row && e.accepted && RequestFor(event) == Some(e.request)
  }

  /** The status that tells the server this state, word for word; the others are not told. */
  predicate TellsState(payload: Payload, status: string) {
    && payload.Parsed? && payload.event.State?
    && match payload.event.state
       case Running => status == "running"
       case Completed => status == "completed"
       case Failed => status == "failed"
       case Cancelled => status == "cancelled"
       case _ => false
  }

  /** Every state the server was ever told, accepted or not, is the state of the row it was sent for, and of its run. */
  predicate StatesTold(log: seq<Entry>, rows: seq<Row>) {
    forall e :: e in log && e.Sent? && e.request.ReportState? ==>
      e.row < |rows| && rows[e.row].run == e.run && TellsState(rows[e.row].payload, e.request.status)
  }

  /** A request for this row has told the server this state of this run, accepted or not. */
  predicate Told(log: seq<Entry>, row: nat, run: RunId, state: RunState) {
    exists e :: e in log && e.Sent? && e.row == row && e.run == run && e.request.ReportState?
                && TellsState(Parsed(State(state)), e.request.status)
  }

  lemma StateIsTold(log: seq<Entry>, row: nat, run: RunId, state: RunState, net: Net, ensured: bool, known: Option<string>)
    requires known.Some? && !state.Queued? && !state.Assigned?
    ensures Told(log + Trace(row, run, State(state), net, ensured, known), row, run, state)
  {
    var trace := Trace(row, run, State(state), net, ensured, known);
    assert trace[0] in log + trace;
  }

  lemma ToldStays(log: seq<Entry>, more: seq<Entry>, row: nat, run: RunId, state: RunState)
    requires log <= more
    ensures Told(log, row, run, state) ==> Told(more, row, run, state)
  {
    assert forall e :: e in log ==> e in more;
  }

  /** Rows keep their runs and payloads, and there may be more of them. */
  predicate SameEvents(before: seq<Row>, rows: seq<Row>) {
    |before| <= |rows| && forall id :: 0 <= id < |before| ==> rows[id].run == before[id].run && rows[id].payload == before[id].payload
  }

  lemma StatesKept(log: seq<Entry>, rows: seq<Row>, more: seq<Row>)
    requires StatesTold(log, rows) && SameEvents(rows, more)
    ensures StatesTold(log, more)
  {
  }

  lemma TraceTells(log: seq<Entry>, rows: seq<Row>, id: nat, net: Net, ensured: bool, known: Option<string>)
    requires StatesTold(log, rows) && id < |rows| && rows[id].payload.Parsed?
    ensures StatesTold(log + Trace(id, rows[id].run, rows[id].payload.event, net, ensured, known), rows)
  {
  }

  predicate DoneOk(log: seq<Entry>, rows: seq<Row>) {
    forall id :: 0 <= id < |rows| && rows[id].done ==>
      rows[id].payload.Corrupt? || NeedsNoSending(rows[id].payload.event) || Delivered(log, id, rows[id].payload.event)
  }

  lemma LogGrows(log: seq<Entry>, more: seq<Entry>, rows: seq<Row>, ext: map<RunId, string>)
    requires log <= more
    ensures DoneOk(log, rows) ==> DoneOk(more, rows)
    ensures IdsRecorded(log, ext) ==> IdsRecorded(more, ext)
  {
    assert forall e :: e in log ==> e in more;
    forall id | 0 <= id < |rows| && rows[id].payload.Parsed? && Delivered(log, id, rows[id].payload.event)
      ensures Delivered(more, id, rows[id].payload.event)
    {
      var e :| e in log && e.Sent? && e.row == id && e.accepted && RequestFor(rows[id].payload.event) == Some(e.request);
    }
  }

  /** An attempt that succeeds leaves the request that delivers the event, accepted, in the log, if there is one. */
  lemma TraceDelivers(log: seq<Entry>, row: nat, run: RunId, event: Event, net: Net, ensured: bool, known: Option<string>)
    ensures Succeeds(event, net, ensured, known.Some?) ==>
              NeedsNoSending(event) || Delivered(log + Trace(row, run, event, net, ensured, known), row, event)
  {
    if Succeeds(event, net, ensured, known.Some?) && !NeedsNoSending(event) {
      var trace := Trace(row, run, event, net, ensured, known);
      var k := if event.Created? && event.ref.None? && !ensured then 1 else 0;
      assert trace[k].Sent? && trace[k].row == row && trace[k].accepted && RequestFor(event) == Some(trace[k].request);
      assert trace[k] in log + trace;
    }
  }

  lemma DoneStep(log: seq<Entry>, more: seq<Entry>, rows: seq<Row>, id: nat, row: Row)
    requires log <= more && DoneOk(log, rows) && id < |rows| && row.payload == rows[id].payload && row.payload.Parsed?
    requires row.done ==> NeedsNoSending(row.payload.event) || Delivered(more, id, row.payload.event)
    ensures DoneOk(more, rows[id := row])
  {
    LogGrows(log, more, rows, map[]);
  }

  lemma IdFirstAppend(log: seq<Entry>, e: Entry)
    requires IdFirst(log) && (e.Sent? && NeedsExt(e.request) ==> Recorded(e.run, e.ext) in log)
    ensures IdFirst(log + [e])
  {
    forall i | 0 <= i < |log + [e]|
      ensures (log + [e])[..i] == log[..i]
    {
    }
    assert log[..|log|] == log;
  }

  // ---------------------------------------------------------------------
  // Tries
  // ---------------------------------------------------------------------

  /** One attempt at a row: when it started, when it ended, and how. */
  datatype Try = Try(start: real, end: real, ok: bool)

  /** A row's tries: all but the last failed, and none started before the wait after the one before was over. */
  predicate Spaced(tries: seq<Try>) {
    && (forall k :: 0 <= k < |tries| ==> tries[k].start <= tries[k].end)
    && (forall k :: 0 <= k < |tries| - 1 ==> !tries[k].ok && tries[k + 1].start >= tries[k].end + BackoffFor(k) as real)
  }

  /** The row counts its failed tries and is due when the wait after the last of them is over. */
  predicate Tracked(row: Row, tries: seq<Try>, clock: real) {
    && Spaced(tries) && (row.payload.Corrupt? ==> tries == [])
    && (tries != [] ==> tries[|tries| - 1].end <= clock)
    && if tries != [] && tries[|tries| - 1].ok then row.done
       else
         && (row.done ==> row.payload.Corrupt?)
         && row.attempts == |tries|
         && (tries != [] ==> row.nextAt == tries[|tries| - 1].end + BackoffFor(|tries| - 1) as real)
  }

  predicate AllTracked(rows: seq<Row>, tries: seq<seq<Try>>, clock: real) {
    |tries| == |rows| && forall id :: 0 <= id < |rows| ==> Tracked(rows[id], tries[id], clock)
  }

  /** A row after an attempt that ended at `end`. */
  function After(row: Row, end: real, ok: bool): Row {
    if ok then row.(done := true) else row.(attempts := row.attempts + 1, nextAt := end + BackoffFor(row.attempts) as real)
  }

  lemma TryTracked(row: Row, tries: seq<Try>, start: real, end: real, ok: bool)
    requires Tracked(row, tries, start) && !row.done && row.nextAt <= start <= end && row.payload.Parsed?
    ensures Tracked(After(row, end, ok), tries + [Try(start, end, ok)], end)
  {
  }

  lemma AllTrackedStep(rows: seq<Row>, tries: seq<seq<Try>>, id: nat, start: real, end: real, ok: bool)
    requires AllTracked(rows, tries, start) && id < |rows| && start <= end
    requires rows[id].payload.Parsed? && !rows[id].done && rows[id].nextAt <= start
    ensures AllTracked(rows[id := After(rows[id], end, ok)], tries[id := tries[id] + [Try(start, end, ok)]], end)
  {
    TryTracked(rows[id], tries[id], start, end, ok);
  }

  // ---------------------------------------------------------------------
  // Which rows are due
  // ---------------------------------------------------------------------

  predicate IsDue(row: Row, now: real) {
    !row.done && row.nextAt <= now
  }

  /** The first `limit` due rows from row `from` on; rows stand in the order they were created. */
  function Due(rows: seq<Row>, from: nat, now: real, limit: nat): (due: seq<nat>)
    requires from <= |rows|
    ensures |due| <= limit
    ensures forall a :: 0 <= a < |due| ==> from <= due[a] < |rows| && !rows[due[a]].done && rows[due[a]].nextAt <= now
    ensures forall a, b :: 0 <= a < b < |due| ==> due[a] < due[b]
    ensures forall id :: from <= id < |rows| && !rows[id].done && rows[id].nextAt <= now ==> id in due || (|due| == limit && forall a :: 0 <= a < limit ==> due[a] < id)
    decreases |rows| - from
  {
    if from == |rows| || limit == 0 then []
    else if IsDue(rows[from], now) then [from] + Due(rows, from + 1, now, limit - 1)
    else Due(rows, from + 1, now, limit)
  }

  /** A pass over these rows tries row `later` without having tried row `earlier`. */
  predicate TriedAhead(due: seq<nat>, earlier: nat, later: nat) {
    exists a :: 0 <= a < |due| && due[a] == later && earlier !in due[..a]
  }

  /**
   * When a pass that tries a run's event tries it ahead of the run's own undelivered creation event: exactly when the
   * creation event is waiting for its next attempt. What then keeps the event from being sent is the missing id.
   */
  lemma {:induction false} TriedAheadIff(rows: seq<Row>, created: nat, event: nat, now: real, limit: nat)
    requires created < event < |rows| && rows[created].run == rows[event].run && !rows[created].done
    requires rows[created].payload.Parsed? && rows[created].payload.event.Created?
    requires event in Due(rows, 0, now, limit)
    ensures TriedAhead(Due(rows, 0, now, limit), created, event) <==> rows[created].nextAt > now
  {
    var due := Due(rows, 0, now, limit);
    var a :| 0 <= a < |due| && due[a] == event;
    if !IsDue(rows[created], now) {
      assert created !in due[..a];
    } else {
      var c :| 0 <= c < |due| && due[c] == created;
      assert c < a;
    }
  }

  /** A row after a pass between these times has tried it: a corrupt one is dropped, one delivered is done, any other put off. */
  predicate Tried(was: Row, row: Row, from: real, to: real, net: Net) {
    if was.payload.Corrupt? then row == was.(done := true)
    else if row.done then row == was.(done := true) && (NeedsNoSending(was.payload.event) || Accepted(net.reply))
    else
      && row == was.(attempts := was.attempts + 1, nextAt := row.nextAt)
      && from <= row.nextAt - BackoffFor(was.attempts) as real <= to
  }

  lemma TriedWidens(was: Row, row: Row, earlier: real, from: real, to: real, net: Net)
    requires Tried(was, row, from, to, net) && earlier <= from
    ensures Tried(was, row, earlier, to, net)
  {
  }

  /** The first `k` of the listed rows have been tried and nothing else has changed. */
  predicate SweptUpTo(before: seq<Row>, rows: seq<Row>, due: seq<nat>, k: nat, from: real, to: real, net: nat -> Net) {
    && |rows| == |before| && k <= |due|
    && (forall a :: 0 <= a < |due| ==> due[a] < |rows|) && (forall a, b :: 0 <= a < b < |due| ==> due[a] < due[b])
    && (forall id :: 0 <= id < |rows| && id !in due ==> rows[id] == before[id])
    && (forall a :: 0 <= a < k ==> Tried(before[due[a]], rows[due[a]], from, to, net(due[a])))
    && (forall a :: k <= a < |due| ==> rows[due[a]] == before[due[a]])
  }

  lemma SweptStep(
      before: seq<Row>, rows: seq<Row>, due: seq<nat>, k: nat, from: real, to: real, net: nat -> Net, row: Row, later: real)
    requires SweptUpTo(before, rows, due, k, from, to, net) && k < |due| && to <= later
    requires Tried(rows[due[k]], row, from, later, net(due[k]))
    ensures SweptUpTo(before, rows[due[k] := row], due, k + 1, from, later, net)
  {
    assert due[k] in due;
  }

  /** From row `first` on: a run's state and then its final metrics, in order, as far as there are rows. */
  predicate Reported(rows: seq<Row>, first: nat, run: RunId, state: RunState, finals: seq<(string, real)>) {
    && first < |rows| <= first + 1 + |finals|
    && rows[first].run == run && rows[first].payload == Parsed(State(state))
    && forall k :: first < k < |rows| ==>
         rows[k].run == run && rows[k].payload == Parsed(Result(finals[k - first - 1].0, finals[k - first - 1].1))
  }

  lemma ReportedStep(before: seq<Row>, rows: seq<Row>, first: nat, run: RunId, state: RunState, finals: seq<(string, real)>)
    requires Reported(before, first, run, state, finals) && |before| < first + 1 + |finals|
    requires |rows| == |before| + 1 && rows[..|before|] == before && rows[|before|].run == run
    requires rows[|before|].payload == Parsed(Result(finals[|before| - first - 1].0, finals[|before| - first - 1].1))
    ensures Reported(rows, first, run, state, finals)
  {
    assert forall j :: 0 <= j < |before| ==> rows[j] == rows[..|before|][j];
  }

  class Reporter {
    var rows: seq<Row>
    var ext: map<RunId, string>     // external ids, as the store holds them
    var ensured: bool
    var clock: real
    var log: seq<Entry>
    ghost var tries: seq<seq<Try>>

    constructor ()
      ensures Valid() && rows == [] && log == [] && ext == map[] && !ensured && clock == 0.0
    {
      rows, ext, ensured, clock, log, tries := [], map[], false, 0.0, [], [];
    }

    /** No report of a run before its id; rows done for good reasons; retries spaced. */
    ghost predicate Valid()
      reads this
    {
      && IdFirst(log) && IdsRecorded(log, ext)
      && DoneOk(log, rows) && StatesTold(log, rows)
      && AllTracked(rows, tries, clock)
    }

    method Send(row: nat, run: RunId, request: Request, to: string, reply: HttpReply) returns (ok: bool)
      requires NeedsExt(request) ==> run in ext && to == ext[run]
      modifies `log
      ensures ok <==> reply.Replied? && 200 <= reply.status <= 299
      ensures ok == Accepted(reply) && log == old(log) + [Sent(row, run, request, to, ok)]
      ensures old(IdFirst(log) && IdsRecorded(log, ext)) ==> IdFirst(log) && IdsRecorded(log, ext)
    {
      ok := Accepted(reply);
      var e := Sent(row, run, request, to, ok);
      if IdFirst(log) && IdsRecorded(log, ext) {
        IdFirstAppend(log, e);
      }
      LogGrows(log, log + [e], [], ext);
      log := log + [e];
    }

    method Record(run: RunId, id: string)
      modifies `log, `ext
      ensures ext == old(ext)[run := id] && log == old(log) + [Recorded(run, id)]
      ensures old(IdFirst(log) && IdsRecorded(log, ext)) ==> IdFirst(log) && IdsRecorded(log, ext)
    {
      if IdFirst(log) && IdsRecorded(log, ext) {
        IdFirstAppend(log, Recorded(run, id));
        LogGrows(log, log + [Recorded(run, id)], [], ext);
      }
      ext := ext[run := id];
      log := log + [Recorded(run, id)];
    }

    /** The default experiment exists, or is created now; already existing is what is wanted. */
    method Ensure(row: nat, run: RunId, reply: HttpReply) returns (ok: bool)
      modifies `log, `ensured
      ensures ok <==> old(ensured) || Accepted(reply) || reply == Replied(409)
      ensures ensured == ok
      ensures log == if old(ensured) then old(log) else old(log) + [Sent(row, run, EnsureExperiment, "", Accepted(reply))]
      ensures old(IdFirst(log) && IdsRecorded(log, ext)) ==> IdFirst(log) && IdsRecorded(log, ext)
    {
      if ensured {
        return true;
      }
      ok := Send(row, run, EnsureExperiment, "", reply);
      ok := ok || reply == Replied(CONFLICT);
      ensured := ok;
    }

    /** Create the run, link back as best one can, and record the id the server gave it. */
    method TryCreate(row: nat, run: RunId, net: Net) returns (ok: bool)
      modifies `log, `ensured, `ext
      ensures ok <==> Ensures(old(ensured), net) && Accepted(net.reply) && net.created.Some?
      ensures ensured == Ensures(old(ensured), net)
      ensures log == old(log) + CreateTrace(row, run, net, old(ensured))
      ensures ok ==> var id := net.created.value;
        log == old(log) + (if old(ensured) then [] else [Sent(row, run, EnsureExperiment, "", Accepted(net.ensure))])
               + [Sent(row, run, CreateRun, "", true), Sent(row, run, LinkRun(id), id, Accepted(net.linkback)), Recorded(run, id)]
      ensures ext == if ok then old(ext)[run := net.created.value] else old(ext)
      ensures old(IdFirst(log) && IdsRecorded(log, ext)) ==> IdFirst(log) && IdsRecorded(log, ext)
    {
      ok := Ensure(row, run, net.ensure);
      if !ok {
        return;
      }
      ok := Send(row, run, CreateRun, "", net.reply);
      if !ok || net.created.None? {
        return false;
      }
      var linked := Send(row, run, LinkRun(net.created.value), net.created.value, net.linkback);
      Record(run, net.created.value);
    }

    /** Attach to a run that exists already: the id is recorded only if the server knows it. */
    method TryAttach(row: nat, run: RunId, id: string, net: Net) returns (ok: bool)
      modifies `log, `ext
      ensures ok <==> Accepted(net.reply)
      ensures log == old(log) + [Sent(row, run, LinkRun(id), id, ok)] + if ok then [Recorded(run, id)] else []
      ensures ext == if ok then old(ext)[run := id] else old(ext)
      ensures old(IdFirst(log) && IdsRecorded(log, ext)) ==> IdFirst(log) && IdsRecorded(log, ext)
    {
      ok := Send(row, run, LinkRun(id), id, net.reply);
      if ok {
        Record(run, id);
      }
    }

    /** A report on a run: a retryable failure while the run's id is not recorded, and no request then. */
    method TryReport(row: nat, run: RunId, event: Event, net: Net) returns (ok: bool)
      requires !event.Created?
      modifies `log
      ensures ok <==> Succeeds(event, net, ensured, run in ext)
      ensures log == old(log) + Trace(row, run, event, net, ensured, ExtOf(ext, run))
      ensures event.State? && run in ext ==>
        && (event.state.Running? ==> log == old(log) + [Sent(row, run, ReportState("running"), ext[run], Accepted(net.reply))])
        && (event.state.Completed? ==> log == old(log) + [Sent(row, run, ReportState("completed"), ext[run], Accepted(net.reply))])
        && (event.state.Failed? ==> log == old(log) + [Sent(row, run, ReportState("failed"), ext[run], Accepted(net.reply))])
        && (event.state.Cancelled? ==> log == old(log) + [Sent(row, run, ReportState("cancelled"), ext[run], Accepted(net.reply))])
        && (event.state.Queued? || event.state.Assigned? ==> log == old(log) && ok)
      ensures event.Checkpoint? && run in ext ==>
        log == old(log) + if event.uri.None? then [] else [Sent(row, run, ReportCheckpoint(event.uri.value), ext[run], Accepted(net.reply))]
      ensures event.Result? && run in ext ==>
        log == old(log) + [Sent(row, run, ReportResult(event.name, event.value), ext[run], Accepted(net.reply))]
      ensures run !in ext ==> log == old(log) && !ok
      ensures old(IdFirst(log) && IdsRecorded(log, ext)) ==> IdFirst(log) && IdsRecorded(log, ext)
    {
      if run !in ext {
        return false;
      }
      match event
      case State(state) =>
        var status := MapStatus(state);
        if status.None? {
          return true;
        }
        ok := Send(row, run, ReportState(status.value), ext[run], net.reply);
      case Checkpoint(uri) =>
        if uri.None? {
          return false;
        }
        ok := Send(row, run, ReportCheckpoint(uri.value), ext[run], net.reply);
      case Result(name, value) =>
        ok := Send(row, run, ReportResult(name, value), ext[run], net.reply);
    }

    method Deliver(row: nat, run: RunId, event: Event, net: Net) returns (ok: bool)
      modifies `log, `ensured, `ext
      ensures ok <==> Succeeds(event, net, old(ensured), run in old(ext))
      ensures log == old(log) + Trace(row, run, event, net, old(ensured), ExtOf(old(ext), run))
      ensures old(IdFirst(log) && IdsRecorded(log, ext)) ==> IdFirst(log) && IdsRecorded(log, ext)
    {
      match event
      case Created(train, ref) =>
        if !train {
          ok := true;
        } else if ref.Some? {
          ok := TryAttach(row, run, ref.value, net);
        } else {
          ok := TryCreate(row, run, net);
        }
      case _ =>
        ok := TryReport(row, run, event, net);
    }

    /** Deliver one due row, or put it off; a corrupt row is not for attempting. */
    method Attempt(id: nat, net: Net) returns (ok: bool)
      requires Valid() && id < |rows| && rows[id].payload.Parsed? && IsDue(rows[id], clock)
      modifies this
      ensures Valid() && clock == (if net.took > 0.0 then old(clock) + net.took else old(clock))
      ensures var row := old(rows)[id];
              && (ok <==> Succeeds(row.payload.event, net, old(ensured), row.run in old(ext)))
              && log == old(log) + Trace(id, row.run, row.payload.event, net, old(ensured), ExtOf(old(ext), row.run))
      ensures rows == old(rows)[id := After(old(rows)[id], clock, ok)]
      ensures tries == old(tries)[id := old(tries)[id] + [Try(old(clock), clock, ok)]]
    {
      var row := rows[id];
      ok := Deliver(id, row.run, row.payload.event, net);
      if net.took > 0.0 {
        clock := clock + net.took;
      }
      TraceDelivers(old(log), id, row.run, row.payload.event, net, old(ensured), ExtOf(old(ext), row.run));
      DoneStep(old(log), log, rows, id, After(row, clock, ok));
      TraceTells(old(log), rows, id, net, old(ensured), ExtOf(old(ext), row.run));
      StatesKept(log, rows, rows[id := After(row, clock, ok)]);
      Settle(id, ok, old(clock));
    }

    /** The row is done, or put off. */
    method Settle(id: nat, ok: bool, ghost start: real)
      requires id < |rows| && rows[id].payload.Parsed? && IsDue(rows[id], start) && start <= clock && AllTracked(rows, tries, start)
      modifies `rows, `tries
      ensures rows == old(rows)[id := After(old(rows)[id], clock, ok)]
      ensures tries == old(tries)[id := old(tries)[id] + [Try(start, clock, ok)]]
      ensures AllTracked(rows, tries, clock)
    {
      AllTrackedStep(rows, tries, id, start, clock, ok);
      var row := rows[id];
      if ok {
        rows := rows[id := row.(done := true)];
      } else {
        rows := rows[id := row.(attempts := row.attempts + 1, nextAt := clock + BackoffFor(row.attempts) as real)];
      }
      tries := tries[id := tries[id] + [Try(start, clock, ok)]];
    }

    method Store(run: RunId, event: Event) returns (id: nat)
      requires Valid()
      modifies `rows, `tries, `log
      ensures Valid() && id == |old(rows)| && log == old(log) + [Stored(id, run)]
      ensures rows == old(rows) + [Row(run, Parsed(event), 0, clock, clock, false)] && tries == old(tries) + [[]]
    {
      id := |rows|;
      IdFirstAppend(log, Stored(id, run));
      LogGrows(log, log + [Stored(id, run)], rows, ext);
      StatesKept(log, rows, rows + [Row(run, Parsed(event), 0, clock, clock, false)]);
      rows := rows + [Row(run, Parsed(event), 0, clock, clock, false)];
      tries := tries + [[]];
      log := log + [Stored(id, run)];
    }

    /** Store an event, then try it once at once. */
    method EnqueueAndAttempt(run: RunId, event: Event, net: Net) returns (id: nat)
      requires Valid()
      modifies this
      ensures Valid() && clock >= old(clock)
      ensures id == |old(rows)| && |rows| == id + 1 && rows[..id] == old(rows)
      ensures clock == (if net.took > 0.0 then old(clock) + net.took else old(clock))
      ensures rows[id] == After(Row(run, Parsed(event), 0, old(clock), old(clock), false), clock, rows[id].done)
      ensures rows[id].done <==> Succeeds(event, net, old(ensured), run in old(ext))
      ensures log == old(log) + [Stored(id, run)] + Trace(id, run, event, net, old(ensured), ExtOf(old(ext), run))
    {
      id := Store(run, event);
      var ok := Attempt(id, net);
    }

    /** Mirror a fresh run; runs that are not training runs are not reported. */
    method ReportCreated(run: RunId, train: bool, ref: Option<string>, net: Net)
      requires Valid()
      modifies this
      ensures Valid() && |rows| == |old(rows)| + if train then 1 else 0
      ensures train ==> rows[|old(rows)|].run == run && rows[|old(rows)|].payload == Parsed(Created(train, ref))
    {
      if train {
        var id := EnqueueAndAttempt(run, Created(train, ref), net);
      }
    }

    /** Mirror a transition. */
    method EnqueueState(run: RunId, state: RunState, net: Net) returns (id: nat)
      requires Valid()
      modifies this
      ensures Valid() && id == |old(rows)| && |rows| == id + 1
      ensures rows[id].run == run && rows[id].payload == Parsed(State(state))
      ensures run in old(ext) && !state.Queued? && !state.Assigned? ==> Told(log, id, run, state)
    {
      id := EnqueueAndAttempt(run, State(state), net);
      if run in old(ext) && !state.Queued? && !state.Assigned? {
        StateIsTold(old(log) + [Stored(id, run)], id, run, state, net, old(ensured), ExtOf(old(ext), run));
      }
    }

    /** One result per final metric, in order, behind the state's row. */
    method EnqueueFinals(run: RunId, state: RunState, finals: seq<(string, real)>, net: nat -> Net)
      requires Valid() && |rows| > 0 && Reported(rows, |rows| - 1, run, state, finals)
      modifies this
      ensures Valid() && |rows| == |old(rows)| + |finals| && Reported(rows, |old(rows)| - 1, run, state, finals)
      ensures old(log) <= log
    {
      var k := 0;
      while k < |finals|
        invariant Valid() && 0 <= k <= |finals| && |rows| == |old(rows)| + k && old(log) <= log
        invariant Reported(rows, |old(rows)| - 1, run, state, finals)
      {
        ghost var before := rows;
        var id := EnqueueAndAttempt(run, Result(finals[k].0, finals[k].1), net(|rows|));
        ReportedStep(before, rows, |old(rows)| - 1, run, state, finals);
        k := k + 1;
      }
    }

    /** Mirror a transition and, on completion, one result per final metric, in order. */
    method ReportRunState(run: RunId, state: RunState, finals: seq<(string, real)>, net: nat -> Net)
      requires Valid()
      modifies this
      ensures Valid() && |rows| == |old(rows)| + 1 + if state.Completed? then |finals| else 0
      ensures StatesTold(log, rows)
      ensures run in old(ext) && !state.Queued? && !state.Assigned? ==> Told(log, |old(rows)|, run, state)
      ensures Reported(rows, |old(rows)|, run, state, finals)
    {
      var id := EnqueueState(run, state, net(|rows|));
      ghost var told := log;
      if state.Completed? {
        EnqueueFinals(run, state, finals, net);
      }
      ToldStays(told, log, id, run, state);
    }

    /** Time passes. */
    method Wait(took: real)
      requires Valid()
      modifies `clock
      ensures Valid() && clock == if took > 0.0 then old(clock) + took else old(clock)
    {
      if took > 0.0 {
        clock := clock + took;
      }
    }

    /** One due row of a pass: a corrupt one is dropped, any other tried. */
    method SweepRow(id: nat, net: Net) returns (delivered: bool)
      requires Valid() && id < |rows| && IsDue(rows[id], clock)
      modifies this
      ensures Valid() && clock == (if old(rows)[id].payload.Parsed? && net.took > 0.0 then old(clock) + net.took else old(clock))
      ensures |rows| == |old(rows)| && rows == old(rows)[id := rows[id]]
      ensures Tried(old(rows)[id], rows[id], old(clock), clock, net)
      ensures delivered <==> rows[id].payload.Parsed? && rows[id].done
      ensures old(log) <= log
    {
      delivered := false;
      if rows[id].payload.Corrupt? {
        StatesKept(log, rows, rows[id := rows[id].(done := true)]);
        rows := rows[id := rows[id].(done := true)];
      } else {
        delivered := Attempt(id, net);
      }
    }

    /** One pass over the due rows, oldest first. */
    method Sweep(net: nat -> Net) returns (delivered: nat)
      requires Valid()
      modifies this
      ensures Valid() && clock >= old(clock)
      ensures (forall id :: net(id).took <= 0.0) ==> clock == old(clock)
      ensures StatesTold(log, rows)
      ensures var due := Due(old(rows), 0, old(clock), 20);
              SweptUpTo(old(rows), rows, due, |due|, old(clock), clock, net)
      ensures old(log) <= log
    {
      var due := Due(rows, 0, clock, SWEEP_BATCH);
      delivered := 0;
      var k := 0;
      while k < |due|
        invariant Valid() && clock >= old(clock) && 0 <= k <= |due|
        invariant (forall id :: net(id).took <= 0.0) ==> clock == old(clock)
        invariant SweptUpTo(old(rows), rows, due, k, old(clock), clock, net)
        invariant old(log) <= log
      {
        ghost var before, from := rows, clock;
        var ok := SweepRow(due[k], net(due[k]));
        if ok {
          delivered := delivered + 1;
        }
        TriedWidens(before[due[k]], rows[due[k]], old(clock), from, clock, net(due[k]));
        SweptStep(old(rows), before, due, k, old(clock), from, net, rows[due[k]], clock);
        k := k + 1;
      }
    }
  }

  /** However often a row has failed, its next try waits for thirty seconds doubled each time, up to an hour. */
  lemma RetriesWait(reporter: Reporter, id: nat, k: nat)
    requires reporter.Valid() && id < |reporter.rows| && 0 < k <= |reporter.tries[id]|
    ensures var tries, row := reporter.tries[id], reporter.rows[id];
            var due := tries[k - 1].end + Min(30 * Pow2(k - 1), 3600) as real;
            && (k < |tries| ==> !tries[k - 1].ok && tries[k].start >= due)
            && (k == |tries| && !row.done ==> row.attempts == k && row.nextAt == due)
  {
    BackoffDoubles(k - 1);
  }

  /** When a state's row is done, the server has accepted that very state for that very run. */
  lemma DoneStateWasTold(reporter: Reporter, id: nat)
    requires reporter.Valid() && id < |reporter.rows| && reporter.rows[id].done
    requires reporter.rows[id].payload.Parsed? && reporter.rows[id].payload.event.State?
    requires !reporter.rows[id].payload.event.state.Queued? && !reporter.rows[id].payload.event.state.Assigned?
    ensures exists e :: e in reporter.log && e.Sent? && e.row == id && e.run == reporter.rows[id].run && e.accepted
                        && e.request.ReportState? && TellsState(reporter.rows[id].payload, e.request.status)
  {
    var event := reporter.rows[id].payload.event;
    var e :| e in reporter.log && e.Sent? && e.row == id && e.accepted && RequestFor(event) == Some(e.request);
  }

  /** A server that does not answer. */
  const DEAD := Net(NoReply, NoReply, None, NoReply, 0.0)

  /** A run is created and, a second later, starts, while the server is down; then 29 seconds pass. */
  method BothFail(run: RunId) returns (reporter: Reporter)
    ensures fresh(reporter) && reporter.Valid() && reporter.clock == 30.0
    ensures reporter.rows == [Row(run, Parsed(Created(true, None)), 1, 30.0, 0.0, false), Row(run, Parsed(State(Running)), 1, 31.0, 1.0, false)]
  {
    reporter := new Reporter();
    var created := reporter.EnqueueAndAttempt(run, Created(true, None), DEAD);
    reporter.Wait(1.0);
    ghost var first := reporter.rows[0];
    var state := reporter.EnqueueAndAttempt(run, State(Running), DEAD);
    assert reporter.rows[..1][0] == first;
    reporter.Wait(29.0);
  }

  /**
   * It happens: with the server down, a run is created and starts a second later. Half a minute on the creation is tried
   * again and put off for longer; a second after that the next pass tries the state ahead of it.
   */
  method LaterEventTriedFirst(run: RunId) returns (reporter: Reporter)
    ensures reporter.Valid() && |reporter.rows| == 2 && reporter.rows[0].run == reporter.rows[1].run
    ensures reporter.rows[0].payload == Parsed(Created(true, None)) && !reporter.rows[0].done
    ensures TriedAhead(Due(reporter.rows, 0, reporter.clock, SWEEP_BATCH), 0, 1)
  {
    reporter := BothFail(run);
    OnlyFirstDue(reporter.rows, 30.0);
    var delivered := reporter.Sweep(_ => DEAD);
    reporter.Wait(1.0);
    assert IsDue(reporter.rows[1], reporter.clock);
    TriedAheadIff(reporter.rows, 0, 1, reporter.clock, SWEEP_BATCH);
  }

  lemma {:induction false} OnlyFirstDue(rows: seq<Row>, now: real)
    requires |rows| == 2 && IsDue(rows[0], now) && !IsDue(rows[1], now)
    ensures Due(rows, 0, now, SWEEP_BATCH) == [0]
  {
    assert Due(rows, 2, now, SWEEP_BATCH - 1) == [];
    assert Due(rows, 1, now, SWEEP_BATCH - 1) == [];
  }
}
