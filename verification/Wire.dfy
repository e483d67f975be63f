/** The messages a worker sends to the control plane, and the sequence number each end reads from them. */
module Wire {
  import opened Options

  type JobId = string

  datatype KillReason = Wall | MaxRuntime | Cancel | Drain | OomGuard

  datatype WorkerToCp =
    | Hello(token: string)
    | Heartbeat
    | JobStarted(stamp: nat, job: JobId)
    | JobExited(stamp: nat, job: JobId, code: int)
    | JobKilled(stamp: nat, job: JobId, reason: KillReason)
    | ServiceReady(stamp: nat, job: JobId, ports: seq<int>)
    | Log(stamp: nat, job: JobId, line: string)
    | Metric(stamp: nat, owner: Option<JobId>, step: Option<nat>, values: map<string, real>)
    | Artifact(stamp: nat, job: JobId, class_: string, uri: string)
    | Drained

  /** The origin of the sequence space, also reported for "nothing acknowledged". */
  const SEQ_ORIGIN: nat := 0

  /** The worker's reading: total, with the origin for messages that carry no number. */
  function EventSeq(m: WorkerToCp): nat {
    match m
    case Hello(_) => SEQ_ORIGIN
    case Heartbeat => SEQ_ORIGIN
    case Drained => SEQ_ORIGIN
    case _ => m.stamp
  }

  /**
   * The control plane's reading: only messages of a job's replayable stream have a number.
   * A metric without a job is host telemetry and takes no part in the stream.
   */
  function StreamedSeq(m: WorkerToCp): Option<nat> {
    match m
    case Hello(_) => None
    case Heartbeat => None
    case Drained => None
    case Metric(stamp, owner, _, _) => if owner.Some? then Some(stamp) else None
    case _ => Some(m.stamp)
  }

  predicate Streamed(m: WorkerToCp) {
    StreamedSeq(m).Some?
  }

  /** An event that ends a job's stream. */
  predicate Terminal(m: WorkerToCp) {
    m.JobExited? || m.JobKilled?
  }

  /** An outbox entry: an event of a job's stream beside the number it carries. */
  datatype Event = Event(number: nat, body: WorkerToCp)

  /** A frame on the wire, as the control plane reads it. */
  datatype Frame = Numbered(event: Event) | Aside(body: WorkerToCp)

  function FrameOf(m: WorkerToCp): Frame {
    match StreamedSeq(m)
    case Some(k) => Numbered(Event(k, m))
    case None => Aside(m)
  }

  /** Wherever the control plane reads a number the worker reads the same one; host telemetry is the only other message with one. */
  lemma ReadingsAgree(m: WorkerToCp)
    ensures FrameOf(m).Numbered? ==> FrameOf(m).event == Event(EventSeq(m), m)
    ensures FrameOf(m).Aside? ==> EventSeq(m) == SEQ_ORIGIN || (m.Metric? && m.owner.None?)
  {
  }
}
