/** The resumable chunked upload: a retry loop that resynchronises its offset against a server that may keep part of a chunk and lose replies. */
module Upload {
  import opened Options
  import opened Numbers
  import Text

  type Byte = bv8

  const UPLOAD_CHUNK: nat := 8 * 1024 * 1024
  const MAX_CHUNK_RETRIES: nat := 4

  // ---------------------------------------------------------------------
  // Header texts
  // ---------------------------------------------------------------------

  /** The range of the bytes from `start` up to, not including, `end`. */
  function ContentRange(start: nat, end: nat, total: nat): string
    requires start < end
  {
    "bytes " + (Digits(start) + "-" + RangeEnd(end, total))
  }

  function RangeEnd(end: nat, total: nat): string
    requires 0 < end
  {
    Digits(end - 1) + "/" + Digits(total)
  }

  lemma RangeEndTells(end: nat, total: nat, end': nat, total': nat)
    requires 0 < end && 0 < end' && RangeEnd(end, total) == RangeEnd(end', total')
    ensures end == end' && total == total'
  {
    NumberThen(end - 1, end' - 1, '/', Digits(total), Digits(total'));
    DigitsDiffer(total, total');
  }

  /** A range text tells its start, end and total (section 14.4 of RFC 9110). */
  lemma ContentRangeTells(start: nat, end: nat, total: nat, start': nat, end': nat, total': nat)
    requires start < end && start' < end'
    requires ContentRange(start, end, total) == ContentRange(start', end', total')
    ensures start == start' && end == end' && total == total'
  {
    var rest, rest' := RangeEnd(end, total), RangeEnd(end', total');
    assert ContentRange(start, end, total)[6..] == Digits(start) + ['-'] + rest;
    assert ContentRange(start', end', total')[6..] == Digits(start') + ['-'] + rest';
    NumberThen(start, start', '-', rest, rest');
    RangeEndTells(end, total, end', total');
  }

  /** How a server reads a content range: first and last position and total, in bytes (section 14.4 of RFC 9110). */
  function ReadContentRange(text: string): Option<(nat, nat, nat)> {
    var range := Text.StripPrefix("bytes ", text);
    if range.None? then None
    else
      var dashed := Text.SplitOnce(range.value, '-');
      if dashed.None? then None
      else
        var slashed := Text.SplitOnce(dashed.value.1, '/');
        if slashed.None? then None
        else
          var first, last, total := ParseU64(dashed.value.0), ParseU64(slashed.value.0), ParseU64(slashed.value.1);
          if first.Some? && last.Some? && total.Some? then Some((first.value, last.value, total.value)) else None
  }

  lemma {:induction false} ReadParts(first: string, last: string, total: string)
    requires AllDigits(first) && AllDigits(last)
    requires ParseU64(first).Some? && ParseU64(last).Some? && ParseU64(total).Some?
    ensures ReadContentRange("bytes " + (first + "-" + (last + "/" + total)))
         == Some((ParseU64(first).value, ParseU64(last).value, ParseU64(total).value))
  {
    var rest := last + "/" + total;
    assert first + "-" + rest == first + ['-'] + rest && rest == last + ['/'] + total;
    Text.StripPrefixOf("bytes ", first + "-" + rest);
    NoneAmongDigits(first, '-');
    NoneAmongDigits(last, '/');
    Text.SplitOnceAt(first, '-', rest);
    Text.SplitOnceAt(last, '/', total);
  }

  lemma NoneAmongDigits(digits: string, c: char)
    requires AllDigits(digits) && !IsDigit(c)
    ensures c !in digits
  {
  }

  /** A chunk's range reads as its first and its last byte and the total: it is as long as the chunk and inside the object. */
  lemma {:induction false} ContentRangeReads(start: nat, end: nat, total: nat)
    requires start < end <= total <= U64_MAX
    ensures ReadContentRange(ContentRange(start, end, total)) == Some((start, end - 1, total))
  {
    ParseDigits(start);
    ParseDigits(end - 1);
    ParseDigits(total);
    ReadParts(Digits(start), Digits(end - 1), Digits(total));
  }

  /** What follows the last dash, or everything if there is none. */
  function AfterLastDash(s: string): string {
    if s == "" then ""
    else if s[|s| - 1] == '-' then ""
    else AfterLastDash(s[..|s| - 1]) + [s[|s| - 1]]
  }

  lemma {:induction false} AfterLastDashFinds(before: string, after: string)
    requires '-' !in after
    ensures AfterLastDash(before + "-" + after) == after
  {
    var s := before + "-" + after;
    if after == "" {
      assert s == before + ['-'];
    } else {
      var last := |after| - 1;
      AfterLastDashFinds(before, after[..last]);
      assert s[..|s| - 1] == before + "-" + after[..last];
      assert after[last] in after && after == after[..last] + [after[last]];
    }
  }

  function ParseCommittedEnd(range: string): Option<nat> {
    ParseU64(AfterLastDash(range))
  }

  /** What an honest server answers when it holds `held` bytes: nothing is said about an empty session. */
  function HonestRange(held: nat): Option<string> {
    if held == 0 then None else Some("bytes=0-" + Digits(held - 1))
  }

  function OffsetFrom(range: Option<string>): nat {
    if range.None? then 0
    else
      var last := ParseCommittedEnd(range.value);
      if last.Some? then last.value + 1 else 0
  }

  /** The offset read from an honest answer is the number of bytes held. */
  lemma {:induction false} HonestOffset(held: nat)
    requires held <= U64_MAX
    ensures OffsetFrom(HonestRange(held)) == held
    ensures HonestRange(held) == if held == 0 then None else Some("bytes=0-" + Digits(held - 1))
  {
    if held > 0 {
      ParseDigits(held - 1);
      assert '-' !in Digits(held - 1);
      assert "bytes=0-" + Digits(held - 1) == "bytes=0" + "-" + Digits(held - 1);
      AfterLastDashFinds("bytes=0", Digits(held - 1));
    }
  }

  /** The first chunk's range, up to its slash, names the same last byte as an honest range of as many bytes. */
  lemma FirstRangeIsHonest(end: nat, total: nat) returns (before: string)
    requires 0 < end <= total <= U64_MAX
    ensures ContentRange(0, end, total) == before + "/" + Digits(total)
    ensures OffsetFrom(Some(before)) == OffsetFrom(HonestRange(end)) == end
  {
    before := "bytes 0" + "-" + Digits(end - 1);
    FirstDigits();
    RegroupRange("bytes ", "0", Digits(end - 1), Digits(total));
    NoneAmongDigits(Digits(end - 1), '-');
    AfterLastDashFinds("bytes 0", Digits(end - 1));
    ParseDigits(end - 1);
    HonestOffset(end);
  }

  lemma FirstDigits()
    ensures Digits(0) == "0" && "bytes " + "0" == "bytes 0"
  {
  }

  lemma RegroupRange(a: string, b: string, c: string, d: string)
    ensures a + (b + "-" + (c + "/" + d)) == a + b + "-" + c + "/" + d
  {
  }

  // ---------------------------------------------------------------------
  // The server's side of a session
  // ---------------------------------------------------------------------

  /** The answer to a chunk: 308, success with an id that can be read or not, another status, or none at all. */
  datatype Reply = Incomplete | Success(id: Option<string>) | Failure | Lost

  /** The answer to a status query: none at all, an error without a range, success, or another answer and its range header. */
  datatype Status = Unanswered | Errored | Finished | Holding(range: Option<string>)

  /** The answers of a server that does not lie about the bytes it holds. */
  predicate Truthful(status: Status, held: nat, total: nat) {
    status.Unanswered? || status.Errored? || status == if held == total then Finished else Holding(HonestRange(held))
  }

  /** What a chunk that begins at `start` has beyond the bytes held, unless it leaves a gap or ends before them. */
  function Beyond(held: nat, start: nat, chunk: seq<Byte>): seq<Byte> {
    if start <= held <= start + |chunk| then chunk[held - start..] else []
  }

  /** A request that needs no retry: success with an id, or 308 while bytes are missing. */
  predicate Smooth(reply: Reply, held: nat, total: nat) {
    (reply.Success? && reply.id.Some?) || (reply.Incomplete? && held < total)
  }

  /**
   * A session holds a prefix of an object of known size. It only ever appends, skipping what it already holds of a
   * chunk, and says success only when it holds everything; it may keep part of a chunk and lose any answer. A strict
   * server moreover says 308 only when it then holds everything up to the chunk's end, and does not lie about the bytes
   * it holds; any request may still fail and any query go unanswered or end in an error. `lapses`, if given, bounds
   * how often a strict server's queries end in an error while it holds bytes.
   */
  class Session {
    const total: nat
    const strict: bool
    const lapses: Option<nat>
    var held: seq<Byte>
    ghost var requests: nat
    ghost var troubles: nat     // chunk requests that were not smooth
    ghost var streak: nat       // chunk requests since the last that was accepted or completed the object
    ghost var unanswered: nat   // status queries without an answer
    var stale: nat              // status queries that ended in an error while bytes were held

    constructor (total: nat, strict: bool, lapses: Option<nat>)
      ensures this.total == total && this.strict == strict && this.lapses == lapses && held == []
      ensures requests == 0 && troubles == 0 && streak == 0 && unanswered == 0 && stale == 0
    {
      this.total, this.strict, this.lapses, held := total, strict, lapses, [];
      requests, troubles, streak, unanswered, stale := 0, 0, 0, 0, 0;
    }

    /**
     * A chunk beside its range, which must tell where the chunk begins and ends; all but the last are of eight mebibytes.
     * What is appended is put where the range says.
     */
    method Put(range: string, chunk: seq<Byte>) returns (reply: Reply, ghost kept: nat, ghost start: nat)
      requires ReadContentRange(range).Some?
      requires var (first, last, complete) := ReadContentRange(range).value;
               && complete == total && first <= last < total && |chunk| == last - first + 1
               && |chunk| <= 8_388_608 && (last + 1 < total ==> |chunk| == 8_388_608)
      modifies this
      ensures start == ReadContentRange(range).value.0
      ensures requests == old(requests) + 1 && unanswered == old(unanswered) && stale == old(stale)
      ensures kept <= |Beyond(|old(held)|, start, chunk)|
      ensures held == old(held) + Beyond(|old(held)|, start, chunk)[..kept]
      ensures reply.Success? ==> |held| == total
      ensures strict && reply.Incomplete? ==> start + |chunk| <= |held|
      ensures troubles == old(troubles) + if Smooth(reply, |held|, total) then 0 else 1
      ensures streak == if reply.Success? || reply.Incomplete? then 0 else old(streak) + 1
    {
      requests := requests + 1;
      var from := ReadContentRange(range).value.0;
      start := from;
      var rest := Beyond(|held|, from, chunk);
      var n: int := *;
      var k := if n < 0 then 0 else if n <= |rest| then n else |rest|;
      held := held + rest[..k];
      kept := k;
      reply := *;
      if reply.Success? && |held| != total {
        reply := Failure;
      }
      if reply.Incomplete? && strict && |held| < from + |chunk| {
        reply := Lost;
      }
      troubles := troubles + if Smooth(reply, |held|, total) then 0 else 1;
      streak := if reply.Success? || reply.Incomplete? then 0 else streak + 1;
    }

    method Query() returns (status: Status)
      modifies `unanswered, `stale
      ensures unanswered == old(unanswered) + if status.Unanswered? then 1 else 0
      ensures stale == old(stale) + if status.Errored? && held != [] then 1 else 0
      ensures strict ==> Truthful(status, |held|, total)
      ensures strict && lapses.Some? && old(stale) <= lapses.value ==> stale <= lapses.value
    {
      status := *;
      if strict && !Truthful(status, |held|, total) {
        status := if |held| == total then Finished else Holding(HonestRange(|held|));
      }
      if strict && lapses.Some? && stale >= lapses.value && status.Errored? {
        status := Unanswered;
      }
      unanswered := unanswered + if status.Unanswered? then 1 else 0;
      stale := stale + if status.Errored? && held != [] then 1 else 0;
    }

    /** The single zero-length request that finalises an empty object. */
    method PutEmpty() returns (reply: Reply)
      modifies this
      ensures held == old(held) && requests == old(requests) + 1 && stale == old(stale)
      ensures reply.Success? ==> |held| == total
      ensures troubles == old(troubles) + (if reply.Success? && reply.id.Some? then 0 else 1)
    {
      requests := requests + 1;
      reply := *;
      if reply.Success? && |held| != total {
        reply := Failure;
      }
      if !(reply.Success? && reply.id.Some?) {
        troubles := troubles + 1;
      }
    }
  }

  // ---------------------------------------------------------------------
  // The client
  // ---------------------------------------------------------------------

  datatype Result = Uploaded(id: string) | Failed

  function Ceil(total: nat): nat {
    (total + UPLOAD_CHUNK - 1) / UPLOAD_CHUNK
  }

  function ChunkEnd(offset: nat, total: nat): nat {
    if offset + UPLOAD_CHUNK <= total then offset + UPLOAD_CHUNK else total
  }

  /** What the client makes of the answer to a status query; an error reads like a session that holds nothing. */
  function OffsetOf(status: Status, total: nat): Option<nat> {
    match status
    case Unanswered => None
    case Finished => Some(total)
    case Holding(range) => Some(OffsetFrom(range))
    case Errored => Some(OffsetFrom(None))
  }

  /** Where a retry resumes is not the committed prefix exactly when the query ended in an error while bytes were held. */
  lemma OffsetIsCommitted(status: Status, held: nat, total: nat)
    requires held <= total <= U64_MAX && Truthful(status, held, total)
    ensures OffsetOf(status, total).None? <==> status.Unanswered?
    ensures OffsetOf(status, total).Some? ==>
              (OffsetOf(status, total).value != held <==> status.Errored? && held > 0)
  {
    HonestOffset(held);
  }

  /** So it can happen: three bytes are held and the upload resumes at the start. */
  lemma ErrorReadsAsNothing()
    ensures Truthful(Errored, 3, 10) && OffsetOf(Errored, 10) == Some(0)
  {
  }

  /** Where a retry resumes, or none when the status query goes unanswered. */
  method CommittedOffset(server: Session) returns (offset: Option<nat>, ghost status: Status)
    modifies server`unanswered, server`stale
    ensures server.unanswered == old(server.unanswered) + if offset.None? then 1 else 0
    ensures server.stale == old(server.stale) + if status.Errored? && server.held != [] then 1 else 0
    ensures offset == OffsetOf(status, server.total)
    ensures server.strict ==> Truthful(status, |server.held|, server.total)
    ensures server.strict && server.lapses.Some? && old(server.stale) <= server.lapses.value ==> server.stale <= server.lapses.value
  {
    var answer := server.Query();
    status := answer;
    match answer
    case Unanswered => offset := None;
    case Finished => offset := Some(server.total);
    case Holding(range) => offset := Some(OffsetFrom(range));
    case Errored => offset := Some(OffsetFrom(None));
  }

  /** The session holds a prefix of the object. */
  predicate HoldsPrefix(server: Session, bytes: seq<Byte>)
    reads server
  {
    server.total == |bytes| && server.held <= bytes
  }

  /** One turn of the loop, given the reply to the chunk and, where it is asked, the status. */
  function Turn(offset: nat, retries: nat, total: nat, reply: Reply, status: Status): (nat, nat, Option<Result>) {
    match reply
    case Incomplete => (ChunkEnd(offset, total), 0, None)
    case Success(id) => (offset, retries, Some(if id.Some? then Uploaded(id.value) else Failed))
    case _ =>
      if retries >= MAX_CHUNK_RETRIES then (offset, retries, Some(Failed))
      else if OffsetOf(status, total).None? then (offset, retries + 1, Some(Failed))
      else (OffsetOf(status, total).value, retries + 1, None)
  }

  /** What a strict server may answer to the chunk at `offset` when it holds `held` bytes, and hold afterwards. */
  predicate StrictTurn(held: nat, offset: nat, total: nat, held': nat, reply: Reply, status: Status) {
    && held <= held' <= total
    && (held' > held ==> offset <= held && held' <= ChunkEnd(offset, total))
    && (reply.Success? ==> held' == total)
    && (reply.Incomplete? ==> ChunkEnd(offset, total) <= held')
    && Truthful(status, held', total)
  }

  /** The status query ended in an error while bytes were held. */
  predicate Lapse(reply: Reply, status: Status, held: nat) {
    !reply.Success? && !reply.Incomplete? && status.Errored? && held > 0
  }

  /** Whatever of a chunk of the object a server appends, it holds a prefix of the object. */
  lemma {:induction false} StillPrefix(held: seq<Byte>, bytes: seq<Byte>, start: nat, end: nat, kept: nat)
    requires held <= bytes && start <= end <= |bytes| && kept <= |Beyond(|held|, start, bytes[start..end])|
    ensures var after := held + Beyond(|held|, start, bytes[start..end])[..kept];
            after <= bytes && (|after| > |held| ==> start <= |held| && |after| <= end)
  {
    if start <= |held| <= end {
      assert bytes[start..end][|held| - start..][..kept] == bytes[|held|..|held| + kept];
    }
  }

  /** Send the chunk at `offset` beside its range. */
  method SendChunk(server: Session, bytes: seq<Byte>, offset: nat) returns (reply: Reply)
    requires HoldsPrefix(server, bytes) && offset < |bytes| && |bytes| <= U64_MAX
    modifies server
    ensures HoldsPrefix(server, bytes) && |old(server.held)| <= |server.held|
    ensures |server.held| > |old(server.held)| ==> offset <= |old(server.held)| && |server.held| <= ChunkEnd(offset, |bytes|)
    ensures server.requests == old(server.requests) + 1 && server.unanswered == old(server.unanswered) && server.stale == old(server.stale)
    ensures reply.Success? ==> server.held == bytes
    ensures server.strict && reply.Incomplete? ==> ChunkEnd(offset, |bytes|) <= |server.held|
    ensures server.troubles == old(server.troubles) + if Smooth(reply, |server.held|, |bytes|) then 0 else 1
    ensures server.streak == if reply.Success? || reply.Incomplete? then 0 else old(server.streak) + 1
  {
    var end := ChunkEnd(offset, |bytes|);
    ghost var before, kept, start := server.held, 0, 0;
    ContentRangeReads(offset, end, |bytes|);
    reply, kept, start := server.Put(ContentRange(offset, end, |bytes|), bytes[offset..end]);
    StillPrefix(before, bytes, offset, end, kept);
  }

  /** A chunk request and, unless it was accepted, a status query. */
  method Attempt(server: Session, bytes: seq<Byte>, offset: nat, retries: nat)
    returns (offset': nat, retries': nat, result: Option<Result>, ghost said: Reply, ghost status: Status)
    requires HoldsPrefix(server, bytes) && offset < |bytes| && |bytes| <= U64_MAX
    modifies server
    ensures HoldsPrefix(server, bytes)
    ensures (offset', retries', result) == Turn(offset, retries, |bytes|, said, status)
    ensures server.requests == old(server.requests) + 1
    ensures said.Success? ==> server.held == bytes
    ensures server.strict ==> StrictTurn(|old(server.held)|, offset, |bytes|, |server.held|, said, status)
    ensures server.strict && result.None? && !said.Incomplete? ==>
              (offset' != |server.held| <==> Lapse(said, status, |server.held|))
    ensures server.stale == old(server.stale) + if Lapse(said, status, |server.held|) then 1 else 0
    ensures server.strict && server.lapses.Some? && old(server.stale) <= server.lapses.value ==> server.stale <= server.lapses.value
    ensures server.troubles == old(server.troubles) + if Smooth(said, |server.held|, |bytes|) then 0 else 1
    ensures server.streak == if said.Success? || said.Incomplete? then 0 else old(server.streak) + 1
    ensures server.unanswered >= old(server.unanswered)
    ensures result == Some(Failed) ==>
              retries >= MAX_CHUNK_RETRIES || server.unanswered > old(server.unanswered) || server.held == bytes
  {
    offset', retries', result := offset, retries, None;
    status := Unanswered;
    var reply := SendChunk(server, bytes, offset);
    said := reply;
    match reply
    case Incomplete =>
      offset', retries' := ChunkEnd(offset, |bytes|), 0;
    case Success(id) =>
      result := Some(if id.Some? then Uploaded(id.value) else Failed);
    case _ =>
      if retries >= MAX_CHUNK_RETRIES {
        result := Some(Failed);
        return;
      }
      retries' := retries + 1;
      var committed;
      committed, status := CommittedOffset(server);
      if server.strict {
        OffsetIsCommitted(status, |server.held|, |bytes|);
      }
      if committed.None? {
        result := Some(Failed);
        return;
      }
      offset' := committed.value;
  }

  // ---------------------------------------------------------------------
  // How many requests an upload makes
  // ---------------------------------------------------------------------

  /** Each chunk but the last once, and once more after each lapse, each with its retries, and the last with its own. */
  function Bound(total: nat, lapses: nat): nat {
    if total == 0 then 1 else (MAX_CHUNK_RETRIES + 1) * (1 + (1 + lapses) * (Ceil(total) - 1))
  }

  lemma BoundInFigures(total: nat, lapses: nat)
    requires total > 0
    ensures Bound(total, lapses) == 5 * (1 + (1 + lapses) * ((total + 8_388_607) / 8_388_608 - 1))
  {
  }

  /** Without lapses that is every chunk with its retries. */
  lemma BoundWithoutLapses(total: nat)
    requires total > 0
    ensures Bound(total, 0) == (MAX_CHUNK_RETRIES + 1) * Ceil(total) == 5 * ((total + 8_388_607) / 8_388_608)
  {
  }

  /** Chunks accepted short of the end, in all and since the last lapse. */
  datatype Pace = Pace(accepted: nat, since: nat)

  /** What the loop against a strict server keeps: each accepted chunk moved the offset on, and only a lapse set it back. */
  predicate Paced(pace: Pace, held: nat, total: nat, offset: nat, retries: nat, requests: nat, lapses: nat) {
    && 0 < total && offset <= held <= total && retries <= MAX_CHUNK_RETRIES
    && pace.since * UPLOAD_CHUNK <= offset && pace.since < Ceil(total)
    && pace.accepted <= lapses * (Ceil(total) - 1) + pace.since
    && requests <= pace.accepted * (MAX_CHUNK_RETRIES + 1) + if offset < total then retries else MAX_CHUNK_RETRIES + 1
  }

  function NextPace(pace: Pace, total: nat, offset: nat, held: nat, reply: Reply, status: Status): Pace {
    if Lapse(reply, status, held) then Pace(pace.accepted, 0)
    else if reply.Incomplete? && ChunkEnd(offset, total) < total then Pace(pace.accepted + 1, pace.since + 1)
    else pace
  }

  lemma {:induction false} ChunksFit(since: nat, offset: nat, total: nat)
    requires since * UPLOAD_CHUNK <= offset < total
    ensures since < Ceil(total)
    ensures ChunkEnd(offset, total) < total ==> since + 1 < Ceil(total) && (since + 1) * UPLOAD_CHUNK <= ChunkEnd(offset, total)
  {
  }

  lemma {:induction false} OneMoreLapse(lapses: nat, chunks: nat)
    ensures (lapses + 1) * chunks == lapses * chunks + chunks
  {
  }

  lemma {:induction false} PacedStep(
      pace: Pace, held: nat, total: nat, offset: nat, retries: nat, requests: nat, lapses: nat,
      held': nat, reply: Reply, status: Status)
    requires Paced(pace, held, total, offset, retries, requests, lapses) && offset < total <= U64_MAX
    requires StrictTurn(held, offset, total, held', reply, status)
    ensures var next := Turn(offset, retries, total, reply, status);
            next.2.None? ==> Paced(NextPace(pace, total, offset, held', reply, status), held', total, next.0, next.1,
                                   requests + 1, lapses + if Lapse(reply, status, held') then 1 else 0)
  {
    ChunksFit(pace.since, offset, total);
    OneMoreLapse(lapses, Ceil(total) - 1);
    OffsetIsCommitted(status, held', total);
  }

  /** Chunks that can still be accepted before the next lapse. */
  function ChunksLeft(pace: Pace, offset: nat, total: nat): nat
    requires pace.since <= Ceil(total)
  {
    if offset < total then Ceil(total) - pace.since else 0
  }

  /** A turn without a result is a lapse, accepts a chunk, or ends the loop, or there are fewer retries left. */
  lemma {:induction false} Progress(
      pace: Pace, total: nat, offset: nat, retries: nat, held: nat, reply: Reply, status: Status, next: Pace, offset': nat, retries': nat)
    requires pace.since < Ceil(total) && next.since < Ceil(total) && offset < total
    requires next == NextPace(pace, total, offset, held, reply, status)
    requires (offset', retries', None) == Turn(offset, retries, total, reply, status)
    ensures Lapse(reply, status, held) || ChunksLeft(next, offset', total) < ChunksLeft(pace, offset, total)
            || (ChunksLeft(next, offset', total) == ChunksLeft(pace, offset, total) && retries < retries' <= MAX_CHUNK_RETRIES)
  {
  }

  lemma {:induction false} PacedBound(pace: Pace, held: nat, total: nat, offset: nat, retries: nat, requests: nat, lapses: nat)
    requires Paced(pace, held, total, offset, retries, requests, lapses)
    ensures requests <= Bound(total, lapses) && (offset < total ==> requests + 1 <= Bound(total, lapses))
  {
    OneMoreLapse(lapses, Ceil(total) - 1);
  }

  lemma {:induction false} MoreOf(lapses: nat, more: nat, chunks: nat)
    requires lapses <= more
    ensures (1 + lapses) * chunks <= (1 + more) * chunks
  {
    assert (1 + more) * chunks == (1 + lapses) * chunks + (more - lapses) * chunks;
  }

  lemma {:induction false} BoundGrows(total: nat, lapses: nat, more: nat)
    requires lapses <= more
    ensures Bound(total, lapses) <= Bound(total, more)
  {
    if total > 0 {
      MoreOf(lapses, more, Ceil(total) - 1);
    }
  }

  /**
   * The upload against a strict server that lapses no more than a given number of times: it ends, within the bound for
   * the lapses there were; a returned id means that the stored object is the input, an untroubled session succeeds, and
   * an upload is given up only after too many troubled requests in a row, an unanswered query, or when everything is
   * held but the last answer did not say so.
   */
  method PutChunks(server: Session, bytes: seq<Byte>) returns (result: Result)
    requires server.strict && server.lapses.Some? && server.stale <= server.lapses.value
    requires server.held == [] && server.streak == 0 && server.total == |bytes| <= U64_MAX
    modifies server
    ensures HoldsPrefix(server, bytes)
    ensures result.Uploaded? ==> server.held == bytes
    ensures server.troubles == old(server.troubles) ==> result.Uploaded?
    ensures result.Failed? && |bytes| > 0 ==>
              server.streak > MAX_CHUNK_RETRIES || server.unanswered > old(server.unanswered) || server.held == bytes
    ensures server.stale >= old(server.stale)
    ensures server.requests - old(server.requests) <= Bound(|bytes|, server.stale - old(server.stale))
  {
    var total := |bytes|;
    if total == 0 {
      var reply := server.PutEmpty();
      return if reply.Success? && reply.id.Some? then Uploaded(reply.id.value) else Failed;
    }
    var offset: nat, retries: nat := 0, 0;
    ghost var pace := Pace(0, 0);
    while offset < total
      invariant HoldsPrefix(server, bytes) && server.troubles >= old(server.troubles)
      invariant old(server.stale) <= server.stale <= server.lapses.value && server.requests >= old(server.requests)
      invariant Paced(pace, |server.held|, total, offset, retries,
                      server.requests - old(server.requests), server.stale - old(server.stale))
      invariant server.troubles == old(server.troubles) ==> offset == |server.held| < total
      invariant retries == server.streak && server.unanswered >= old(server.unanswered)
      invariant offset >= total ==> server.held == bytes
      decreases server.lapses.value - server.stale, ChunksLeft(pace, offset, total), MAX_CHUNK_RETRIES - retries
    {
      var finished;
      ghost var said, status;
      ghost var held, from, tries, requests, lapses :=
        |server.held|, offset, retries, server.requests - old(server.requests), server.stale - old(server.stale);
      PacedBound(pace, held, total, offset, retries, requests, lapses);
      offset, retries, finished, said, status := Attempt(server, bytes, offset, retries);
      PacedStep(pace, held, total, from, tries, requests, lapses, |server.held|, said, status);
      BoundGrows(total, lapses, server.stale - old(server.stale));
      if finished.Some? {
        return finished.value;
      }
      ghost var next := NextPace(pace, total, from, |server.held|, said, status);
      Progress(pace, total, from, tries, |server.held|, said, status, next, offset, retries);
      pace := next;
    }
    PacedBound(pace, |server.held|, total, offset, retries, server.requests - old(server.requests), server.stale - old(server.stale));
    result := Failed;
  }

  /**
   * The same loop cut off after any number of turns: against any server, the session holds a prefix of the input, and
   * a returned id means that it holds all of it; against a strict one, however often it lapses, the bound for the lapses
   * there were holds, so that the loop can be cut off before its end only by more of them.
   */
  method PutChunksFor(server: Session, bytes: seq<Byte>, patience: nat) returns (result: Option<Result>)
    requires server.held == [] && server.total == |bytes| <= U64_MAX
    modifies server
    ensures HoldsPrefix(server, bytes)
    ensures result.Some? && result.value.Uploaded? ==> server.held == bytes
    ensures server.stale >= old(server.stale)
    ensures server.strict ==> server.requests - old(server.requests) <= Bound(|bytes|, server.stale - old(server.stale))
    ensures result.None? ==> server.requests - old(server.requests) == patience
  {
    var total := |bytes|;
    if total == 0 {
      var reply := server.PutEmpty();
      return Some(if reply.Success? && reply.id.Some? then Uploaded(reply.id.value) else Failed);
    }
    var offset: nat, retries: nat, turns := 0, 0, 0;
    ghost var pace := Pace(0, 0);
    while offset < total && turns < patience
      invariant HoldsPrefix(server, bytes) && turns <= patience
      invariant old(server.stale) <= server.stale && server.requests - old(server.requests) == turns
      invariant server.strict ==>
                  Paced(pace, |server.held|, total, offset, retries, turns, server.stale - old(server.stale))
      decreases patience - turns
    {
      ghost var said, status;
      ghost var held, from, tries, lapses := |server.held|, offset, retries, server.stale - old(server.stale);
      offset, retries, result, said, status := Attempt(server, bytes, offset, retries);
      if server.strict {
        PacedBound(pace, held, total, from, tries, turns, lapses);
        PacedStep(pace, held, total, from, tries, turns, lapses, |server.held|, said, status);
        BoundGrows(total, lapses, server.stale - old(server.stale));
      }
      if result.Some? {
        return;
      }
      pace := NextPace(pace, total, from, |server.held|, said, status);
      turns := turns + 1;
    }
    if server.strict {
      PacedBound(pace, |server.held|, total, offset, retries, turns, server.stale - old(server.stale));
    }
    result := if offset < total then None else Some(Failed);
  }

  // ---------------------------------------------------------------------
  // Why the bound asks what it asks
  // ---------------------------------------------------------------------

  /** A reply, the status where it is asked, and the bytes then held. */
  datatype Answer = Answer(reply: Reply, status: Status, held: nat)

  /** Turns of the loop until the answers run out or there is a result. */
  function Turns(offset: nat, retries: nat, total: nat, answers: seq<Answer>): (nat, nat, Option<Result>)
    decreases |answers|
  {
    if answers == [] || offset >= total then (offset, retries, None)
    else
      var next := Turn(offset, retries, total, answers[0].reply, answers[0].status);
      if next.2.Some? then next else Turns(next.0, next.1, total, answers[1..])
  }

  /** All of them are the answers of a strict server. */
  predicate StrictTurns(held: nat, offset: nat, retries: nat, total: nat, answers: seq<Answer>)
    decreases |answers|
  {
    answers == [] || offset >= total
    || (var a := answers[0];
        var next := Turn(offset, retries, total, a.reply, a.status);
        StrictTurn(held, offset, total, a.held, a.reply, a.status)
        && (next.2.Some? || StrictTurns(a.held, next.0, next.1, total, answers[1..])))
  }

  /** Pairs of turns in which the second chunk fails, the query ends in an error, and the first chunk is sent again. */
  function Lapsing(n: nat): (answers: seq<Answer>)
    ensures |answers| == 2 * n
  {
    if n == 0 then []
    else [Answer(Failure, Errored, UPLOAD_CHUNK), Answer(Incomplete, Unanswered, UPLOAD_CHUNK)] + Lapsing(n - 1)
  }

  /** The first chunk accepted, and then those. */
  function FirstThenLapsing(n: nat): seq<Answer> {
    [Answer(Incomplete, Unanswered, UPLOAD_CHUNK)] + Lapsing(n)
  }

  lemma {:induction false} LapsingNeverEnds(total: nat, n: nat)
    requires UPLOAD_CHUNK < total
    ensures StrictTurns(UPLOAD_CHUNK, UPLOAD_CHUNK, 0, total, Lapsing(n))
    ensures Turns(UPLOAD_CHUNK, 0, total, Lapsing(n)) == (UPLOAD_CHUNK, 0, None)
    decreases n
  {
    if n > 0 {
      var answers := Lapsing(n);
      var first, second := answers[0], answers[1..][0];
      assert first == Answer(Failure, Errored, UPLOAD_CHUNK) && second == Answer(Incomplete, Unanswered, UPLOAD_CHUNK);
      assert answers[1..][1..] == Lapsing(n - 1);
      assert Turn(UPLOAD_CHUNK, 0, total, Failure, Errored) == (0, 1, None);
      assert Turn(0, 1, total, Incomplete, Unanswered) == (UPLOAD_CHUNK, 0, None);
      assert StrictTurn(UPLOAD_CHUNK, UPLOAD_CHUNK, total, UPLOAD_CHUNK, Failure, Errored);
      assert StrictTurn(UPLOAD_CHUNK, 0, total, UPLOAD_CHUNK, Incomplete, Unanswered);
      LapsingNeverEnds(total, n - 1);
    }
  }

  /** Why lapses are counted: against a strict server that never stops lapsing, any number of turns end without a result. */
  lemma {:induction false} LapsesNeverEnd(total: nat, n: nat)
    requires UPLOAD_CHUNK < total
    ensures StrictTurns(0, 0, 0, total, FirstThenLapsing(n)) && Turns(0, 0, total, FirstThenLapsing(n)).2 == None
  {
    var answers := FirstThenLapsing(n);
    assert answers[0] == Answer(Incomplete, Unanswered, UPLOAD_CHUNK) && answers[1..] == Lapsing(n);
    assert Turn(0, 0, total, Incomplete, Unanswered) == (UPLOAD_CHUNK, 0, None);
    LapsingNeverEnds(total, n);
  }

  /** The answers of a server that keeps nothing: it says 308 all the same, and the truth when asked. */
  function Forgetful(n: nat): (answers: seq<Answer>)
    ensures |answers| == 2 * n
  {
    if n == 0 then [] else [Answer(Incomplete, Unanswered, 0), Answer(Failure, Holding(HonestRange(0)), 0)] + Forgetful(n - 1)
  }

  /**
   * Why the bound is for strict servers: one that says 308 without keeping the chunk can be asked any number of times,
   * because every 308 resets the retry counter.
   */
  lemma {:induction false} ForgetfulNeverEnds(total: nat, retries: nat, n: nat)
    requires UPLOAD_CHUNK < total && retries <= 1
    ensures var last := Turns(0, retries, total, Forgetful(n));
            last.0 == 0 && last.1 <= 1 && last.2 == None
    decreases n
  {
    if n > 0 {
      var answers := Forgetful(n);
      assert answers[0] == Answer(Incomplete, Unanswered, 0) && answers[1..][0] == Answer(Failure, Holding(None), 0);
      assert answers[1..][1..] == Forgetful(n - 1);
      assert Turn(UPLOAD_CHUNK, 0, total, Failure, Holding(None)) == (0, 1, None);
      ForgetfulNeverEnds(total, 1, n - 1);
    }
  }
}
