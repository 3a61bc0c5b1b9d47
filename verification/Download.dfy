/**
 The download transfer loop: Reading and Sending phases, pause and resume, the retried chunk and the authoritative
 result. Sockets, the file and the scheduler of the runtime are an environment that answers each `select!`; one
 `Turn` holds its answers for one iteration of the loop.
 */
module Download {
  import opened Wire
  import opened Messaging
  import opened Frames

  const DOWNLOAD_CHUNK_SIZE: nat := 65536

  datatype Result = Pending | PrimaryError(msg: string) | PeerTerminal(msg: string) | CleanEof

  datatype Control = Pause | Resume | Close | Eof | Error(msg: string) | Ignored

  function Classify(m: Incoming): Control {
    match m
    case StreamEnd => Eof
    case CloseFrame => Close
    case Binary(data) =>
      var id := Parse(data).id;
      if id == PAUSE_FILE_CHUNK_STREAM then Pause
      else if id == RESUME_FILE_CHUNK_STREAM then Resume
      else Ignored
    case OtherFrame => Ignored
    case StreamError(e) => Error(e)
  }

  predicate Terminal(m: Incoming) {
    m.StreamEnd? || m.CloseFrame? || m.StreamError?
  }

  datatype Phase = Reading | Sending

  /** What happened, in order; the byte and pause properties are about this log. */
  datatype Action =
    | Paused | Resumed
    | Released                       // a wait ended through the stored resume permit
    | ReadStarted | ReadDone(data: Bytes)
    | SendStarted | SendDone(wire: Bytes)

  datatype Transfer = Transfer(
    phase: Phase,
    pending: Option<Bytes>,          // the encoded chunk awaiting its send
    pendingLen: nat,
    transmitted: nat,
    expected: nat,
    authoritative: Result,
    paused: bool,
    permit: bool,                    // stored by resume_notify.notify_one()
    log: seq<Action>)

  function Start(expected: nat): Transfer {
    Transfer(Reading, None, 0, 0, expected, Pending, false, false, [])
  }

  /** `Panic` stands for the failing `expect` of the Sending phase. */
  datatype LoopStep = Continue | SetState(next: Phase) | Finish(result: Result) | Panic

  // ----- result selection

  function SetAuthoritative(s: Transfer, r: Result): Transfer {
    if s.authoritative.PrimaryError? && !r.PrimaryError? then s else s.(authoritative := r)
  }

  function RecordPrimary(s: Transfer, msg: string): (Transfer, Result) {
    (SetAuthoritative(s, PrimaryError(msg)), PrimaryError(msg))
  }

  function RecordPeerTerminal(s: Transfer, msg: string): (Transfer, Result) {
    if s.authoritative.PrimaryError? then (s, s.authoritative)
    else (s.(authoritative := PeerTerminal(msg)), PeerTerminal(msg))
  }

  // ----- one iteration

  datatype ReadAnswer =
    | ReadInterrupted(m: Incoming)                 // peer input won the select
    | ReadEof(boundary: Option<Incoming>)          // zero bytes, then the zero-duration poll
    | ReadData(data: Bytes)
    | ReadError

  datatype SendAnswer = SendInterrupted(m: Incoming) | SendResolved(ok: bool)

  /** `Waited(None)`: the stored resume permit ended the wait. `Stopped`: draining met a terminal event. */
  datatype Answer = Stopped | Waited(m: Option<Incoming>) | Read(r: ReadAnswer) | Sent(a: SendAnswer)

  datatype Turn = Turn(drained: seq<Incoming>, answer: Answer)

  function Handle(s: Transfer, m: Incoming): (Transfer, LoopStep) {
    match Classify(m)
    case Pause => (s.(paused := true, log := s.log + [Paused]), Continue)
    case Resume => (s.(paused := false, permit := true, log := s.log + [Resumed]), Continue)
    case Close => var (t, r) := RecordPeerTerminal(s, "peer Close"); (t, Finish(r))
    case Eof => var (t, r) := RecordPeerTerminal(s, "peer EOF"); (t, Finish(r))
    case Error(e) => var (t, r) := RecordPeerTerminal(s, "peer receive error: " + e); (t, Finish(r))
    case Ignored => (s, Continue)
  }

  function Drain(s: Transfer, ms: seq<Incoming>): (Transfer, LoopStep)
    decreases |ms|
  {
    if ms == [] then (s, Continue)
    else
      var (t, step) := Handle(s, ms[0]);
      if step.Continue? then Drain(t, ms[1..]) else (t, step)
  }

  function ChunkImage(uuid: Bytes, data: Bytes): Bytes
    requires |uuid| <= U64_MAX && |data| <= U64_MAX
  {
    Header(uuid, FILE_CHUNK) + EncodeBlob(data)
  }

  /** What the server takes out of a chunk message. */
  function ChunkPayload(wire: Bytes): Bytes {
    PopBlob(Parse(wire).payload).0
  }

  /** A message the server takes for a chunk of this transfer, with nothing behind its data. */
  predicate IsChunk(uuid: Bytes, wire: Bytes) {
    var p := Parse(wire);
    p.source == uuid && p.id == FILE_CHUNK && PopBlob(p.payload).1 == Cursor(wire, |wire|)
  }

  lemma ChunkRoundTrip(uuid: Bytes, data: Bytes)
    requires IsSource(uuid) && |data| <= U64_MAX
    ensures IsChunk(uuid, ChunkImage(uuid, data)) && ChunkPayload(ChunkImage(uuid, data)) == data
  {
    ParseMessage(uuid, FILE_CHUNK, EncodeBlob(data));
    PopBlobEncoded(Parse(ChunkImage(uuid, data)).payload, data);
  }

  function Boundary(s: Transfer, m: Option<Incoming>): (Transfer, LoopStep) {
    match m
    case Some(CloseFrame) => var (t, r) := RecordPeerTerminal(s, "peer Close"); (t, Finish(r))
    case Some(StreamError(_)) => var (t, r) := RecordPeerTerminal(s, "peer EOF"); (t, Finish(r))
    case Some(StreamEnd) => var (t, r) := RecordPeerTerminal(s, "peer EOF"); (t, Finish(r))
    case _ => (s, Finish(CleanEof))
  }

  function Decimal(n: nat): string {
    if n < 10 then [('0' as int + n) as char] else Decimal(n / 10) + [('0' as int + n % 10) as char]
  }

  function DigitsValue(s: string): int {
    if s == [] then 0 else 10 * DigitsValue(s[..|s| - 1]) + (s[|s| - 1] as int - '0' as int)
  }

  /** The sizes in error texts are decimal numbers without leading zeros. */
  lemma {:induction false} DecimalReadsBack(n: nat)
    ensures DigitsValue(Decimal(n)) == n
    ensures Decimal(n) != [] && (n > 0 ==> Decimal(n)[0] != '0')
    ensures forall c | c in Decimal(n) :: '0' <= c <= '9'
  {
    if n < 10 {
      assert Decimal(n)[..0] == [];
    } else {
      DecimalReadsBack(n / 10);
      assert Decimal(n)[..|Decimal(n)| - 1] == Decimal(n / 10);
    }
  }

  function UnexpectedEof(transmitted: nat, expected: nat): string {
    "unexpected EOF: transmitted " + Decimal(transmitted) + " of " + Decimal(expected) + " bytes"
  }

  function ReadPhase(s: Transfer, uuid: Bytes, a: ReadAnswer): (Transfer, LoopStep)
    requires IsSource(uuid) && (a.ReadData? ==> |a.data| <= DOWNLOAD_CHUNK_SIZE)
  {
    var s1 := s.(log := s.log + [ReadStarted]);
    match a
    case ReadInterrupted(m) => Handle(s1, m)
    case ReadEof(boundary) =>
      if s.transmitted == s.expected && !s.authoritative.PrimaryError? then Boundary(s1, boundary)
      else (s1, Finish(PrimaryError(UnexpectedEof(s.transmitted, s.expected))))
    case ReadData(data) =>
      (s1.(log := s1.log + [ReadDone(data)], pending := Some(ChunkImage(uuid, data)), pendingLen := |data|), SetState(Sending))
    case ReadError => var (t, r) := RecordPrimary(s1, "file read failed"); (t, Finish(r))
  }

  function SendPhase(s: Transfer, a: SendAnswer): (Transfer, LoopStep) {
    if s.pending.None? then (s, Panic)
    else
    var s1 := s.(log := s.log + [SendStarted]);
    match a
    case SendInterrupted(m) => Handle(s1, m)
    case SendResolved(ok) =>
      var s2 := s1.(pending := None, pendingLen := 0);
      if ok then
        (s2.(transmitted := s.transmitted + s.pendingLen, log := s2.log + [SendDone(s.pending.value)]), SetState(Reading))
      else var (t, r) := RecordPrimary(s2, "chunk send failed"); (t, Finish(r))
  }

  function WaitPhase(s: Transfer, m: Option<Incoming>): (Transfer, LoopStep) {
    match m
    case Some(m) => Handle(s, m)
    case None => (s.(paused := false, permit := false, log := s.log + [Released]), Continue)
  }

  /** The environment answers the question that is asked: it drains up to a terminal event and polls what is polled. */
  predicate Possible(s: Transfer, t: Turn) {
    (forall i | 0 <= i < |t.drained| - 1 :: !Terminal(t.drained[i]))
    && var (s1, step) := Drain(s, t.drained);
       if !step.Continue? then t.answer.Stopped?
       else if s1.paused then t.answer.Waited? && (t.answer.m.None? ==> s1.permit)
       else if s1.phase.Reading? then
         t.answer.Read? && (t.answer.r.ReadData? ==> 0 < |t.answer.r.data| <= DOWNLOAD_CHUNK_SIZE)
       else t.answer.Sent?
  }

  function Iterate(s: Transfer, uuid: Bytes, t: Turn): (Transfer, LoopStep)
    requires IsSource(uuid) && Possible(s, t)
  {
    var (s1, step) := Drain(s, t.drained);
    match t.answer
    case Stopped => (s1, step)
    case Waited(m) => WaitPhase(s1, m)
    case Read(r) => ReadPhase(s1, uuid, r)
    case Sent(a) => SendPhase(s1, a)
  }

  function Apply(s: Transfer, step: LoopStep): Transfer {
    match step
    case Continue => s
    case SetState(next) => s.(phase := next)
    case Finish(r) => SetAuthoritative(s, r)
    case Panic => s
  }

  function Next(s: Transfer, uuid: Bytes, t: Turn): Transfer
    requires IsSource(uuid) && Possible(s, t)
  {
    var (s1, step) := Iterate(s, uuid, t);
    Apply(s1, step)
  }

  predicate Finishes(s: Transfer, uuid: Bytes, t: Turn)
    requires IsSource(uuid) && Possible(s, t)
  {
    var step := Iterate(s, uuid, t).1;
    step.Finish? || step.Panic?
  }

  // ----- whole runs; only the last turn may finish

  predicate Run(s: Transfer, uuid: Bytes, ts: seq<Turn>)
    requires IsSource(uuid)
    decreases |ts|
  {
    ts == []
    || (Possible(s, ts[0]) && (Finishes(s, uuid, ts[0]) ==> |ts| == 1) && Run(Next(s, uuid, ts[0]), uuid, ts[1..]))
  }

  function After(s: Transfer, uuid: Bytes, ts: seq<Turn>): Transfer
    requires IsSource(uuid) && Run(s, uuid, ts)
    decreases |ts|
  {
    if ts == [] then s else After(Next(s, uuid, ts[0]), uuid, ts[1..])
  }

  predicate Finished(s: Transfer, uuid: Bytes, ts: seq<Turn>)
    requires IsSource(uuid) && Run(s, uuid, ts)
    decreases |ts|
  {
    ts != [] && (Finishes(s, uuid, ts[0]) || Finished(Next(s, uuid, ts[0]), uuid, ts[1..]))
  }

  // ===== bytes

  function BytesRead(log: seq<Action>): Bytes {
    if log == [] then []
    else BytesRead(log[..|log| - 1]) + (if log[|log| - 1].ReadDone? then log[|log| - 1].data else [])
  }

  /** The decoded payloads of the sends that resolved. */
  function BytesSent(log: seq<Action>): Bytes {
    if log == [] then []
    else BytesSent(log[..|log| - 1]) + (if log[|log| - 1].SendDone? then ChunkPayload(log[|log| - 1].wire) else [])
  }

  lemma LogSnoc(log: seq<Action>, a: Action)
    ensures BytesRead(log + [a]) == BytesRead(log) + (if a.ReadDone? then a.data else [])
    ensures BytesSent(log + [a]) == BytesSent(log) + (if a.SendDone? then ChunkPayload(a.wire) else [])
  {
    assert (log + [a])[..|log + [a]| - 1] == log;
  }

  function InFlight(s: Transfer): Bytes {
    if s.pending.Some? then ChunkPayload(s.pending.value) else []
  }

  ghost predicate Exact(s: Transfer) {
    BytesRead(s.log) == BytesSent(s.log) + InFlight(s)
    && s.transmitted == |BytesSent(s.log)|
    && s.pendingLen == |InFlight(s)|
  }

  /** The state at the head of the loop. */
  ghost predicate Head(s: Transfer) {
    (s.phase.Sending? <==> s.pending.Some?) && s.authoritative == Pending && Exact(s)
  }

  lemma HandleExact(s: Transfer, m: Incoming)
    requires Exact(s)
    ensures var t := Handle(s, m).0;
            Exact(t) && t.phase == s.phase && t.pending == s.pending
            && t.transmitted == s.transmitted && t.expected == s.expected
    ensures Handle(s, m).1.Continue? <==> !Terminal(m)
    ensures !Terminal(m) ==> Handle(s, m).0.authoritative == s.authoritative
    ensures Terminal(m) ==> Handle(s, m).1.Finish? && !Handle(s, m).1.result.CleanEof?
  {
    hide ChunkPayload, Parse, BytesRead, BytesSent;
    LogSnoc(s.log, Paused);
    LogSnoc(s.log, Resumed);
  }

  lemma {:induction false} DrainExact(s: Transfer, ms: seq<Incoming>)
    requires Exact(s)
    ensures var t := Drain(s, ms).0;
            Exact(t) && t.phase == s.phase && t.pending == s.pending
            && t.transmitted == s.transmitted && t.expected == s.expected
    ensures Drain(s, ms).1.Continue? ==>
              Drain(s, ms).0.authoritative == s.authoritative && forall i | 0 <= i < |ms| :: !Terminal(ms[i])
    ensures !Drain(s, ms).1.Continue? ==> Drain(s, ms).1.Finish?
    decreases |ms|
  {
    hide Exact, Handle, Terminal;
    if ms != [] {
      HandleExact(s, ms[0]);
      if !Terminal(ms[0]) {
        DrainExact(Handle(s, ms[0]).0, ms[1..]);
      }
    }
  }

  lemma SendExact(s: Transfer, a: SendAnswer)
    requires Head(s) && s.phase.Sending?
    ensures var (t, step) := SendPhase(s, a);
            !step.Panic? && (step.Finish? || Head(Apply(t, step))) && t.expected == s.expected
            && (step.Finish? ==> t.transmitted == |BytesSent(t.log)| && BytesSent(t.log) <= BytesRead(t.log))
  {
    hide ChunkPayload, Handle, BytesRead, BytesSent;
    var s1 := s.(log := s.log + [SendStarted]);
    LogSnoc(s.log, SendStarted);
    LogSnoc(s1.log, SendDone(s.pending.value));
    if a.SendInterrupted? {
      HandleExact(s1, a.m);
    }
  }

  lemma ReadExact(s: Transfer, uuid: Bytes, a: ReadAnswer)
    requires Head(s) && s.phase.Reading? && IsSource(uuid) && (a.ReadData? ==> |a.data| <= DOWNLOAD_CHUNK_SIZE)
    ensures var (t, step) := ReadPhase(s, uuid, a);
            !step.Panic? && (step.Finish? || Head(Apply(t, step))) && t.expected == s.expected
            && (step.Finish? ==> Exact(t) && t.pending.None?)
            && (step == Finish(CleanEof) ==> t.transmitted == t.expected)
  {
    hide ChunkPayload, ChunkImage, Handle, BytesRead, BytesSent, IsSource;
    var s1 := s.(log := s.log + [ReadStarted]);
    LogSnoc(s.log, ReadStarted);
    if a.ReadInterrupted? {
      HandleExact(s1, a.m);
    } else if a.ReadData? {
      LogSnoc(s1.log, ReadDone(a.data));
      ChunkRoundTrip(uuid, a.data);
    }
  }

  // ===== which event decides

  function PeerVerdict(m: Incoming): Option<Result> {
    match m
    case CloseFrame => Some(PeerTerminal("peer Close"))
    case StreamEnd => Some(PeerTerminal("peer EOF"))
    case StreamError(e) => Some(PeerTerminal("peer receive error: " + e))
    case _ => None
  }

  /** The result a turn leads to, read off the environment's answers alone; `None` keeps the loop going. */
  function Verdict(s: Transfer, t: Turn): Option<Result> {
    match t.answer
    case Stopped => if t.drained == [] then None else PeerVerdict(t.drained[|t.drained| - 1])
    case Waited(None) => None
    case Waited(Some(m)) => PeerVerdict(m)
    case Read(ReadInterrupted(m)) => PeerVerdict(m)
    case Read(ReadEof(boundary)) =>
      if s.transmitted != s.expected then
        Some(PrimaryError("unexpected EOF: transmitted " + Decimal(s.transmitted) + " of " + Decimal(s.expected) + " bytes"))
      else if boundary == Some(CloseFrame) then Some(PeerTerminal("peer Close"))
      else if boundary.Some? && Terminal(boundary.value) then Some(PeerTerminal("peer EOF"))
      else Some(CleanEof)
    case Read(ReadData(_)) => None
    case Read(ReadError) => Some(PrimaryError("file read failed"))
    case Sent(SendInterrupted(m)) => PeerVerdict(m)
    case Sent(SendResolved(ok)) => if ok then None else Some(PrimaryError("chunk send failed"))
  }

  ghost predicate Decides(t: Transfer, step: LoopStep, v: Option<Result>) {
    match v
    case None => !step.Finish? && !step.Panic? && t.authoritative == Pending
    case Some(r) => step == Finish(r) && SetAuthoritative(t, r).authoritative == r
  }

  lemma HandleDecides(s: Transfer, m: Incoming)
    requires s.authoritative == Pending
    ensures Decides(Handle(s, m).0, Handle(s, m).1, PeerVerdict(m))
  {
    hide Parse;
  }

  lemma {:induction false} DrainDecides(s: Transfer, ms: seq<Incoming>)
    requires s.authoritative == Pending && forall i | 0 <= i < |ms| - 1 :: !Terminal(ms[i])
    ensures Decides(Drain(s, ms).0, Drain(s, ms).1, if ms == [] then None else PeerVerdict(ms[|ms| - 1]))
    ensures Drain(s, ms).0.transmitted == s.transmitted && Drain(s, ms).0.expected == s.expected
    ensures Drain(s, ms).0.pending == s.pending && Drain(s, ms).0.phase == s.phase
    ensures Drain(s, ms).1.Continue? || Drain(s, ms).1.Finish?
    decreases |ms|
  {
    hide Handle, Terminal;
    if ms != [] {
      HandleDecides(s, ms[0]);
      HandleKeeps(s, ms[0]);
      if |ms| > 1 {
        assert !Terminal(ms[0]);
        DrainDecides(Handle(s, ms[0]).0, ms[1..]);
        assert ms[1..][|ms[1..]| - 1] == ms[|ms| - 1];
      } else {
        assert ms[1..] == [];
      }
    }
  }

  lemma HandleKeeps(s: Transfer, m: Incoming)
    ensures var t := Handle(s, m).0;
            t.transmitted == s.transmitted && t.expected == s.expected && t.pending == s.pending && t.phase == s.phase
    ensures if Terminal(m) then Handle(s, m).1.Finish? else Handle(s, m).1.Continue?
  {
    hide Parse;
  }

  /** A turn ends the loop exactly when it brings a terminal event, and then that event is the result. */
  lemma TurnDecides(s: Transfer, uuid: Bytes, t: Turn)
    requires Head(s) && IsSource(uuid) && Possible(s, t)
    ensures Finishes(s, uuid, t) <==> Verdict(s, t).Some?
    ensures Next(s, uuid, t).authoritative == if Verdict(s, t).Some? then Verdict(s, t).value else Pending
  {
    hide Handle, Exact, IsSource, ChunkImage, Drain;
    DrainDecides(s, t.drained);
    var s1 := Drain(s, t.drained).0;
    match t.answer
    case Stopped => assert Finishes(s, uuid, t);
    case Waited(m) => if m.Some? { HandleDecides(s1, m.value); }
    case Read(r) => if r.ReadInterrupted? { HandleDecides(s1.(log := s1.log + [ReadStarted]), r.m); }
    case Sent(a) => if a.SendInterrupted? { HandleDecides(s1.(log := s1.log + [SendStarted]), a.m); }
  }

  /** What is known of a state in which the loop has ended. */
  ghost predicate Ended(s: Transfer) {
    s.transmitted == |BytesSent(s.log)| && BytesSent(s.log) <= BytesRead(s.log)
    && (s.authoritative.CleanEof? ==> BytesSent(s.log) == BytesRead(s.log) && |BytesSent(s.log)| == s.expected)
  }

  lemma NextExact(s: Transfer, uuid: Bytes, t: Turn)
    requires Head(s) && IsSource(uuid) && Possible(s, t)
    ensures !Iterate(s, uuid, t).1.Panic?
    ensures if Finishes(s, uuid, t) then Ended(Next(s, uuid, t)) else Head(Next(s, uuid, t))
    ensures Next(s, uuid, t).expected == s.expected
  {
    hide ReadPhase, SendPhase, Drain, ChunkPayload, Handle, BytesRead, BytesSent, IsSource, Verdict;
    TurnDecides(s, uuid, t);
    DrainExact(s, t.drained);
    var s1 := Drain(s, t.drained).0;
    match t.answer
    case Stopped => StopsUnclean(s, t);
    case Waited(m) =>
      if m.Some? {
        HandleExact(s1, m.value);
      } else {
        LogSnoc(s1.log, Released);
      }
    case Read(r) => ReadExact(s1, uuid, r);
    case Sent(a) => SendExact(s1, a); StopsUnclean(s, t);
  }

  lemma StopsUnclean(s: Transfer, t: Turn)
    requires t.answer.Stopped? || t.answer.Sent?
    ensures Verdict(s, t) != Some(CleanEof)
  {
  }

  /**
   At every loop head a chunk is pending exactly in the Sending phase and what was sent, followed by that chunk, is
   what was read; the `expect` never fails; a clean end of file means exactly `expected` bytes went out.
   */
  lemma {:induction false} DownloadExact(s: Transfer, uuid: Bytes, ts: seq<Turn>)
    requires Head(s) && IsSource(uuid) && Run(s, uuid, ts)
    ensures var t := After(s, uuid, ts);
            if Finished(s, uuid, ts) then Ended(t) else Head(t)
    decreases |ts|
  {
    hide Head, Ended, IsSource, Next, Finishes;
    if ts != [] {
      NextExact(s, uuid, ts[0]);
      if Finishes(s, uuid, ts[0]) {
        assert ts[1..] == [];
      } else {
        DownloadExact(Next(s, uuid, ts[0]), uuid, ts[1..]);
      }
    }
  }

  lemma StartIsHead(expected: nat)
    ensures Head(Start(expected))
  {
  }
}
