/** Whole download runs: their result, their length and their pauses. */
module DownloadRuns {
  import opened Wire
  import opened Messaging
  import opened Frames
  import opened Download

  // ===== the result is that of the first terminal event

  function FirstVerdict(s: Transfer, uuid: Bytes, ts: seq<Turn>): Result
    requires IsSource(uuid) && Run(s, uuid, ts)
    decreases |ts|
  {
    if ts == [] then Pending
    else if Verdict(s, ts[0]).Some? then Verdict(s, ts[0]).value
    else FirstVerdict(Next(s, uuid, ts[0]), uuid, ts[1..])
  }

  lemma {:induction false} RunOutcome(s: Transfer, uuid: Bytes, ts: seq<Turn>)
    requires Head(s) && IsSource(uuid) && Run(s, uuid, ts)
    ensures After(s, uuid, ts).authoritative == FirstVerdict(s, uuid, ts)
    ensures Finished(s, uuid, ts) <==> After(s, uuid, ts).authoritative != Pending
    decreases |ts|
  {
    hide Head, IsSource, Next, Finishes, Possible;
    if ts != [] {
      TurnDecides(s, uuid, ts[0]);
      VerdictIsResult(s, ts[0]);
      NextExact(s, uuid, ts[0]);
      if Finishes(s, uuid, ts[0]) {
        assert ts[1..] == [];
      } else {
        RunOutcome(Next(s, uuid, ts[0]), uuid, ts[1..]);
      }
    } else {
      HeadIsPending(s);
    }
  }

  lemma HeadIsPending(s: Transfer)
    requires Head(s)
    ensures s.authoritative == Pending
  {
  }

  lemma VerdictIsResult(s: Transfer, t: Turn)
    ensures Verdict(s, t) != Some(Pending)
  {
  }

  // ===== from the file to the server

  /** The file contents the reads of a run yield. */
  function FileBytes(ts: seq<Turn>): Bytes {
    if ts == [] then [] else TurnBytes(ts[0]) + FileBytes(ts[1..])
  }

  function TurnBytes(t: Turn): Bytes {
    if t.answer.Read? && t.answer.r.ReadData? then t.answer.r.data else []
  }

  function SendsOk(ts: seq<Turn>): nat {
    if ts == [] then 0 else (if ts[0].answer == Sent(SendResolved(true)) then 1 else 0) + SendsOk(ts[1..])
  }

  function Dones(log: seq<Action>): nat {
    if log == [] then 0 else Dones(log[..|log| - 1]) + (if log[|log| - 1].SendDone? then 1 else 0)
  }

  /** What the peer asked for: its Pause and Resume messages, recognised by their ids. */
  function Asked(m: Incoming): seq<Action> {
    if m.Binary? && Parse(m.data).id == PAUSE_FILE_CHUNK_STREAM then [Paused]
    else if m.Binary? && Parse(m.data).id == RESUME_FILE_CHUNK_STREAM then [Resumed]
    else []
  }

  function AskedAll(ms: seq<Incoming>): seq<Action> {
    if ms == [] then [] else Asked(ms[0]) + AskedAll(ms[1..])
  }

  function AskedIn(t: Turn): seq<Action> {
    AskedAll(t.drained)
    + match t.answer
      case Waited(Some(m)) => Asked(m)
      case Read(ReadInterrupted(m)) => Asked(m)
      case Sent(SendInterrupted(m)) => Asked(m)
      case _ => []
  }

  function AskedOver(ts: seq<Turn>): seq<Action> {
    if ts == [] then [] else AskedIn(ts[0]) + AskedOver(ts[1..])
  }

  /** The Pauses and Resumes in a log. */
  function Controls(log: seq<Action>): seq<Action> {
    if log == [] then []
    else Controls(log[..|log| - 1])
         + if log[|log| - 1].Paused? || log[|log| - 1].Resumed? then [log[|log| - 1]] else []
  }

  // ----- what a turn adds to the log

  /** The actions of one turn; `pending` is the chunk awaiting its send. */
  function TurnActs(pending: Option<Bytes>, t: Turn): seq<Action> {
    AskedAll(t.drained) + AnswerActs(pending, t.answer)
  }

  function AnswerActs(pending: Option<Bytes>, a: Answer): seq<Action> {
    match a
    case Stopped => []
    case Waited(Some(m)) => Asked(m)
    case Waited(None) => [Released]
    case Read(ReadInterrupted(m)) => [ReadStarted] + Asked(m)
    case Read(ReadData(data)) => [ReadStarted, ReadDone(data)]
    case Read(_) => [ReadStarted]
    case Sent(SendInterrupted(m)) => [SendStarted] + Asked(m)
    case Sent(SendResolved(ok)) => if ok && pending.Some? then [SendStarted, SendDone(pending.value)] else [SendStarted]
  }

  lemma HandleLog(s: Transfer, m: Incoming)
    ensures Handle(s, m).0.log == s.log + Asked(m)
  {
    hide Parse;
  }

  lemma {:induction false} DrainLog(s: Transfer, ms: seq<Incoming>)
    requires forall i | 0 <= i < |ms| - 1 :: !Terminal(ms[i])
    ensures Drain(s, ms).0.log == s.log + AskedAll(ms)
    decreases |ms|
  {
    hide Handle, Asked, Terminal;
    if ms != [] {
      HandleLog(s, ms[0]);
      HandleKeeps(s, ms[0]);
      if !Terminal(ms[0]) {
        DrainLog(Handle(s, ms[0]).0, ms[1..]);
        assert s.log + Asked(ms[0]) + AskedAll(ms[1..]) == s.log + (Asked(ms[0]) + AskedAll(ms[1..]));
      } else {
        assert ms[1..] == [];
      }
    }
  }

  lemma ReadLog(s: Transfer, uuid: Bytes, r: ReadAnswer)
    requires IsSource(uuid) && (r.ReadData? ==> |r.data| <= DOWNLOAD_CHUNK_SIZE)
    ensures ReadPhase(s, uuid, r).0.log == s.log + AnswerActs(s.pending, Read(r))
  {
    hide Handle, Asked, IsSource, ChunkImage;
    if r.ReadInterrupted? {
      HandleLog(s.(log := s.log + [ReadStarted]), r.m);
    }
  }

  lemma SendLog(s: Transfer, a: SendAnswer)
    requires s.pending.Some?
    ensures SendPhase(s, a).0.log == s.log + AnswerActs(s.pending, Sent(a))
  {
    hide Handle, Asked;
    if a.SendInterrupted? {
      HandleLog(s.(log := s.log + [SendStarted]), a.m);
    }
  }

  lemma WaitLog(s: Transfer, m: Option<Incoming>, pending: Option<Bytes>)
    ensures WaitPhase(s, m).0.log == s.log + AnswerActs(pending, Waited(m))
    ensures AnswerActs(pending, Stopped) == []
  {
    hide Handle, Asked;
    if m.Some? {
      HandleLog(s, m.value);
    }
  }

  lemma IterateLog(s: Transfer, uuid: Bytes, t: Turn)
    requires Head(s) && IsSource(uuid) && Possible(s, t)
    ensures Iterate(s, uuid, t).0.log == Drain(s, t.drained).0.log + AnswerActs(s.pending, t.answer)
  {
    DrainDecides(s, t.drained);
    hide Drain, Handle, ReadPhase, SendPhase, WaitPhase, AnswerActs, IsSource, Exact;
    var s1 := Drain(s, t.drained).0;
    match t.answer {
      case Stopped =>
        WaitLog(s1, None, s.pending);
        assert s1.log + [] == s1.log;
      case Waited(m) => WaitLog(s1, m, s.pending);
      case Read(r) => ReadLog(s1, uuid, r);
      case Sent(a) => SendLog(s1, a);
    }
  }

  lemma OnlyLastIsTerminal(s: Transfer, t: Turn)
    requires Possible(s, t)
    ensures forall i | 0 <= i < |t.drained| - 1 :: !Terminal(t.drained[i])
  {
    hide Drain, Terminal;
  }

  lemma NextLog(s: Transfer, uuid: Bytes, t: Turn)
    requires Head(s) && IsSource(uuid) && Possible(s, t)
    ensures Next(s, uuid, t).log == s.log + TurnActs(s.pending, t)
  {
    hide Drain, Iterate, Possible, Head, AnswerActs, AskedAll, IsSource, Terminal;
    OnlyLastIsTerminal(s, t);
    DrainLog(s, t.drained);
    IterateLog(s, uuid, t);
    assert Next(s, uuid, t).log == Iterate(s, uuid, t).0.log;
    var acts := AnswerActs(s.pending, t.answer);
    assert s.log + AskedAll(t.drained) + acts == s.log + (AskedAll(t.drained) + acts);
  }

  // ----- what that amounts to

  lemma {:induction false} ReadAppend(log: seq<Action>, acts: seq<Action>)
    ensures BytesRead(log + acts) == BytesRead(log) + BytesRead(acts)
    decreases |acts|
  {
    if acts == [] {
      assert log + acts == log;
    } else {
      var init, last := acts[..|acts| - 1], acts[|acts| - 1];
      ReadAppend(log, init);
      assert (log + acts)[..|log + acts| - 1] == log + init && (log + acts)[|log + acts| - 1] == last;
      var more := if last.ReadDone? then last.data else [];
      assert BytesRead(log) + BytesRead(init) + more == BytesRead(log) + (BytesRead(init) + more);
    }
  }

  lemma {:induction false} ControlsAppend(log: seq<Action>, acts: seq<Action>)
    ensures Controls(log + acts) == Controls(log) + Controls(acts)
    decreases |acts|
  {
    if acts == [] {
      assert log + acts == log;
    } else {
      ControlsAppend(log, acts[..|acts| - 1]);
      assert (log + acts)[..|log + acts| - 1] == log + acts[..|acts| - 1];
    }
  }

  lemma {:induction false} DonesAppend(log: seq<Action>, acts: seq<Action>)
    ensures Dones(log + acts) == Dones(log) + Dones(acts)
    decreases |acts|
  {
    if acts == [] {
      assert log + acts == log;
    } else {
      DonesAppend(log, acts[..|acts| - 1]);
      assert (log + acts)[..|log + acts| - 1] == log + acts[..|acts| - 1];
    }
  }

  lemma LogAppend(log: seq<Action>, acts: seq<Action>)
    ensures BytesRead(log + acts) == BytesRead(log) + BytesRead(acts)
    ensures Controls(log + acts) == Controls(log) + Controls(acts)
    ensures Dones(log + acts) == Dones(log) + Dones(acts)
  {
    hide BytesRead, Controls, Dones;
    ReadAppend(log, acts);
    ControlsAppend(log, acts);
    DonesAppend(log, acts);
  }

  lemma AskedActs(m: Incoming)
    ensures BytesRead(Asked(m)) == [] && Controls(Asked(m)) == Asked(m) && Dones(Asked(m)) == 0
  {
    hide Parse;
    SingleAct(Paused);
    SingleAct(Resumed);
  }

  lemma SingleAct(a: Action)
    ensures BytesRead([a]) == (if a.ReadDone? then a.data else [])
    ensures Controls([a]) == (if a.Paused? || a.Resumed? then [a] else [])
    ensures Dones([a]) == (if a.SendDone? then 1 else 0)
  {
    assert [a][..0] == [];
  }

  lemma {:induction false} AskedAllActs(ms: seq<Incoming>)
    ensures BytesRead(AskedAll(ms)) == [] && Controls(AskedAll(ms)) == AskedAll(ms) && Dones(AskedAll(ms)) == 0
  {
    hide Asked, BytesRead, Controls, Dones;
    if ms == [] {
      NoActs();
    } else {
      AskedAllActs(ms[1..]);
      AskedActs(ms[0]);
      LogAppend(Asked(ms[0]), AskedAll(ms[1..]));
    }
  }

  lemma NoActs()
    ensures BytesRead([]) == [] && Controls([]) == [] && Dones([]) == 0
  {
  }

  lemma AnswerActsAmount(pending: Option<Bytes>, t: Turn)
    requires t.answer.Sent? ==> pending.Some?
    ensures var acts := AnswerActs(pending, t.answer);
            BytesRead(acts) == TurnBytes(t)
            && AskedAll(t.drained) + Controls(acts) == AskedIn(t)
            && Dones(acts) == if t.answer == Sent(SendResolved(true)) then 1 else 0
  {
    hide Asked, BytesRead, Controls, Dones;
    NoActs();
    SingleAct(Released);
    SingleAct(ReadStarted);
    SingleAct(SendStarted);
    match t.answer
    case Stopped =>
    case Waited(m) => if m.Some? { AskedActs(m.value); }
    case Read(r) =>
      if r.ReadInterrupted? {
        AskedActs(r.m);
        LogAppend([ReadStarted], Asked(r.m));
      } else if r.ReadData? {
        SingleAct(ReadDone(r.data));
        LogAppend([ReadStarted], [ReadDone(r.data)]);
        assert [ReadStarted] + [ReadDone(r.data)] == [ReadStarted, ReadDone(r.data)];
      }
    case Sent(a) =>
      if a.SendInterrupted? {
        AskedActs(a.m);
        LogAppend([SendStarted], Asked(a.m));
      } else if a.ok {
        SingleAct(SendDone(pending.value));
        LogAppend([SendStarted], [SendDone(pending.value)]);
        assert [SendStarted] + [SendDone(pending.value)] == [SendStarted, SendDone(pending.value)];
      }
  }

  lemma NextAmount(s: Transfer, uuid: Bytes, t: Turn)
    requires Head(s) && IsSource(uuid) && Possible(s, t)
    ensures var log := Next(s, uuid, t).log;
            BytesRead(log) == BytesRead(s.log) + TurnBytes(t)
            && Controls(log) == Controls(s.log) + AskedIn(t)
            && Dones(log) == Dones(s.log) + if t.answer == Sent(SendResolved(true)) then 1 else 0
  {
    NextLog(s, uuid, t);
    SentIsPending(s, t);
    hide Next, Possible, BytesRead, Controls, Dones, AskedAll, AnswerActs, TurnBytes, AskedIn, Head, IsSource;
    var (asked, acts) := (AskedAll(t.drained), AnswerActs(s.pending, t.answer));
    AskedAllActs(t.drained);
    AnswerActsAmount(s.pending, t);
    LogAppend(asked, acts);
    LogAppend(s.log, asked + acts);
    assert [] + TurnBytes(t) == TurnBytes(t);
  }

  lemma SentIsPending(s: Transfer, t: Turn)
    requires Head(s) && Possible(s, t)
    ensures t.answer.Sent? ==> s.pending.Some?
  {
    hide Drain, Exact;
    DrainDecides(s, t.drained);
  }

  /**
   A run reads what the file yields, in order, handles every Pause and Resume the peer sent, in order, and completes as
   many sends as resolved: nothing is skipped, repeated or made up.
   */
  lemma {:induction false} RunAmount(s: Transfer, uuid: Bytes, ts: seq<Turn>)
    requires Head(s) && IsSource(uuid) && Run(s, uuid, ts)
    ensures var log := After(s, uuid, ts).log;
            BytesRead(log) == BytesRead(s.log) + FileBytes(ts)
            && Controls(log) == Controls(s.log) + AskedOver(ts)
            && Dones(log) == Dones(s.log) + SendsOk(ts)
    decreases |ts|
  {
    hide Head, IsSource, Next, Finishes, Possible, TurnBytes, AskedIn, BytesRead, Controls, Dones;
    if ts != [] {
      var s1 := Next(s, uuid, ts[0]);
      NextAmount(s, uuid, ts[0]);
      NextExact(s, uuid, ts[0]);
      if Finishes(s, uuid, ts[0]) {
        assert ts[1..] == [];
        assert After(s, uuid, ts) == s1;
      } else {
        RunAmount(s1, uuid, ts[1..]);
      }
      assert BytesRead(s.log) + TurnBytes(ts[0]) + FileBytes(ts[1..]) == BytesRead(s.log) + FileBytes(ts);
      assert Controls(s.log) + AskedIn(ts[0]) + AskedOver(ts[1..]) == Controls(s.log) + AskedOver(ts);
    }
  }

  // ----- what the server recognises

  /** Every completed send and the pending chunk carry this transfer's id as their source, and the id of a chunk. */
  ghost predicate Recognised(s: Transfer, uuid: Bytes) {
    AllChunks(s.log, uuid) && PendingIsChunk(s.pending, uuid)
  }

  ghost predicate AllChunks(log: seq<Action>, uuid: Bytes) {
    forall i | 0 <= i < |log| && log[i].SendDone? :: IsChunk(uuid, log[i].wire)
  }

  lemma {:induction false} AskedAllChunks(ms: seq<Incoming>, uuid: Bytes)
    ensures AllChunks(AskedAll(ms), uuid)
  {
    hide Parse, IsChunk;
    if ms != [] {
      AskedAllChunks(ms[1..], uuid);
    }
  }

  lemma AnswerChunks(pending: Option<Bytes>, a: Answer, uuid: Bytes)
    requires PendingIsChunk(pending, uuid)
    ensures AllChunks(AnswerActs(pending, a), uuid)
  {
    hide Parse, IsChunk;
  }

  ghost predicate PendingIsChunk(pending: Option<Bytes>, uuid: Bytes) {
    pending.Some? ==> IsChunk(uuid, pending.value)
  }

  lemma ReadPending(s: Transfer, uuid: Bytes, r: ReadAnswer)
    requires PendingIsChunk(s.pending, uuid) && IsSource(uuid) && (r.ReadData? ==> |r.data| <= DOWNLOAD_CHUNK_SIZE)
    ensures PendingIsChunk(ReadPhase(s, uuid, r).0.pending, uuid)
  {
    hide Handle, IsSource, IsChunk, ChunkImage;
    if r.ReadInterrupted? {
      HandleKeeps(s.(log := s.log + [ReadStarted]), r.m);
    } else if r.ReadData? {
      ChunkRoundTrip(uuid, r.data);
    }
  }

  lemma SendPending(s: Transfer, uuid: Bytes, a: SendAnswer)
    requires PendingIsChunk(s.pending, uuid)
    ensures PendingIsChunk(SendPhase(s, a).0.pending, uuid)
  {
    hide Handle, IsChunk;
    if a.SendInterrupted? {
      HandleKeeps(s.(log := s.log + [SendStarted]), a.m);
    }
  }

  lemma NextPending(s: Transfer, uuid: Bytes, t: Turn)
    requires Head(s) && IsSource(uuid) && Possible(s, t) && PendingIsChunk(s.pending, uuid)
    ensures PendingIsChunk(Next(s, uuid, t).pending, uuid)
  {
    DrainDecides(s, t.drained);
    hide Drain, Handle, IsSource, PendingIsChunk, Exact, ReadPhase, SendPhase;
    var s1 := Drain(s, t.drained).0;
    match t.answer
    case Stopped =>
    case Waited(m) => if m.Some? { HandleKeeps(s1, m.value); }
    case Read(r) => ReadPending(s1, uuid, r);
    case Sent(a) => SendPending(s1, uuid, a);
  }

  lemma {:induction false} RunRecognised(s: Transfer, uuid: Bytes, ts: seq<Turn>)
    requires Head(s) && Recognised(s, uuid) && IsSource(uuid) && Run(s, uuid, ts)
    ensures Recognised(After(s, uuid, ts), uuid)
    decreases |ts|
  {
    hide Head, IsSource, Next, Finishes, Possible, IsChunk, AskedAll, AnswerActs;
    if ts != [] {
      NextLog(s, uuid, ts[0]);
      AskedAllChunks(ts[0].drained, uuid);
      AnswerChunks(s.pending, ts[0].answer, uuid);
      NextPending(s, uuid, ts[0]);
      NextExact(s, uuid, ts[0]);
      if Finishes(s, uuid, ts[0]) {
        assert ts[1..] == [];
      } else {
        RunRecognised(Next(s, uuid, ts[0]), uuid, ts[1..]);
      }
    }
  }

  /** What a server puts together that takes chunks of this transfer only. */
  function Received(log: seq<Action>, uuid: Bytes): Bytes {
    if log == [] then []
    else
      var a := log[|log| - 1];
      Received(log[..|log| - 1], uuid) + if a.SendDone? && IsChunk(uuid, a.wire) then ChunkPayload(a.wire) else []
  }

  lemma {:induction false} ReceivedIsSent(log: seq<Action>, uuid: Bytes)
    requires AllChunks(log, uuid)
    ensures Received(log, uuid) == BytesSent(log)
  {
    hide IsChunk, ChunkPayload;
    if log != [] {
      ReceivedIsSent(log[..|log| - 1], uuid);
    }
  }

  // ===== what is reported

  /** `Pending` would be the report of a loop that ended without a result. */
  datatype Report = PrimaryReport(msg: string) | PeerReport(msg: string) | CleanReport

  function IntoOutcome(r: Result): Report {
    match r
    case Pending => PeerReport("exited without result")
    case PrimaryError(msg) => PrimaryReport(msg)
    case PeerTerminal(msg) => PeerReport(msg)
    case CleanEof => CleanReport
  }

  /**
   A finished loop reports the first terminal event, and success only for a transfer of which the server has received
   the file: the bytes that were read, under this transfer's id, of the announced size.
   */
  lemma CleanReportIsEarned(expected: nat, uuid: Bytes, ts: seq<Turn>)
    requires IsSource(uuid) && Run(Start(expected), uuid, ts) && Finished(Start(expected), uuid, ts)
    ensures var t := After(Start(expected), uuid, ts);
            var report := IntoOutcome(t.authoritative);
            var verdict := FirstVerdict(Start(expected), uuid, ts);
            t.authoritative == verdict != Pending
            && (report.CleanReport? <==> verdict == CleanEof)
            && (forall msg :: report == PrimaryReport(msg) <==> verdict == PrimaryError(msg))
            && (forall msg :: report == PeerReport(msg) <==> verdict == PeerTerminal(msg))
            && (report.CleanReport? ==>
                  Received(t.log, uuid) == FileBytes(ts) && |FileBytes(ts)| == expected)
  {
    hide Run, After, Finished, IsSource, FirstVerdict, Received, FileBytes, AskedOver, SendsOk, IsChunk;
    StartIsHead(expected);
    RunOutcome(Start(expected), uuid, ts);
    DownloadExact(Start(expected), uuid, ts);
    RunAmount(Start(expected), uuid, ts);
    RunRecognised(Start(expected), uuid, ts);
    ReceivedIsSent(After(Start(expected), uuid, ts).log, uuid);
    ExpectedStays(Start(expected), uuid, ts);
    assert BytesRead([]) + FileBytes(ts) == FileBytes(ts);
  }

  lemma {:induction false} ExpectedStays(s: Transfer, uuid: Bytes, ts: seq<Turn>)
    requires Head(s) && IsSource(uuid) && Run(s, uuid, ts)
    ensures After(s, uuid, ts).expected == s.expected
    decreases |ts|
  {
    hide Head, IsSource, Next, Finishes, Possible;
    if ts != [] {
      NextExact(s, uuid, ts[0]);
      if Finishes(s, uuid, ts[0]) {
        assert ts[1..] == [];
      } else {
        ExpectedStays(Next(s, uuid, ts[0]), uuid, ts[1..]);
      }
    }
  }

  /** Anything that may still touch the result afterwards. */
  datatype Later = Set(r: Result) | Primary(msg: string) | Peer(msg: string)

  function TouchOnce(s: Transfer, op: Later): Transfer {
    match op
    case Set(r) => SetAuthoritative(s, r)
    case Primary(msg) => RecordPrimary(s, msg).0
    case Peer(msg) => RecordPeerTerminal(s, msg).0
  }

  function Touch(s: Transfer, ops: seq<Later>): Transfer
    decreases |ops|
  {
    if ops == [] then s else Touch(TouchOnce(s, ops[0]), ops[1..])
  }

  /** The result an event stands for. */
  function ResultOf(op: Later): Result {
    match op
    case Set(r) => r
    case Primary(msg) => PrimaryError(msg)
    case Peer(msg) => PeerTerminal(msg)
  }

  /** The last primary error of a history, if it has one. */
  function LastPrimary(ops: seq<Later>): Option<Result> {
    if ops == [] then None
    else if LastPrimary(ops[1..]).Some? then LastPrimary(ops[1..])
    else if ResultOf(ops[0]).PrimaryError? then Some(ResultOf(ops[0]))
    else None
  }

  /**
   The last primary error of a history wins; a primary error that stands yields to nothing else; and without any primary
   error the last event decides. Nothing but the result changes.
   */
  lemma {:induction false} PrimaryErrorSticks(s: Transfer, ops: seq<Later>)
    ensures Touch(s, ops) == s.(authoritative := Touch(s, ops).authoritative)
    ensures Touch(s, ops).authoritative ==
            if LastPrimary(ops).Some? then LastPrimary(ops).value
            else if s.authoritative.PrimaryError? || ops == [] then s.authoritative
            else ResultOf(ops[|ops| - 1])
    decreases |ops|
  {
    if ops != [] {
      PrimaryErrorSticks(TouchOnce(s, ops[0]), ops[1..]);
    }
  }

  // ===== length of a run

  function Messages(t: Turn): nat {
    |t.drained|
    + match t.answer
      case Waited(Some(_)) => 1
      case Read(ReadInterrupted(_)) => 1
      case Read(ReadEof(Some(_))) => 1
      case Sent(SendInterrupted(_)) => 1
      case _ => 0
  }

  function Reads(t: Turn): nat {
    if t.answer.Read? && t.answer.r.ReadData? then 1 else 0
  }

  function TotalMessages(ts: seq<Turn>): nat {
    if ts == [] then 0 else Messages(ts[0]) + TotalMessages(ts[1..])
  }

  function TotalReads(ts: seq<Turn>): nat {
    if ts == [] then 0 else Reads(ts[0]) + TotalReads(ts[1..])
  }

  /** Turns already paid for: the send of a chunk that was read, the wait ended by a stored permit. */
  function Credit(s: Transfer): nat {
    (if s.phase.Sending? then 1 else 0) + (if s.permit then 1 else 0)
  }

  lemma HandlePermit(s: Transfer, m: Incoming)
    ensures s.permit ==> Handle(s, m).0.permit
    ensures Handle(s, m).0.phase == s.phase
  {
    hide Parse;
  }

  lemma {:induction false} DrainPermit(s: Transfer, ms: seq<Incoming>)
    ensures Drain(s, ms).0.permit ==> s.permit || |ms| > 0
    ensures Drain(s, ms).0.phase == s.phase
    decreases |ms|
  {
    hide Handle;
    if ms != [] {
      HandlePermit(s, ms[0]);
      DrainPermit(Handle(s, ms[0]).0, ms[1..]);
    }
  }

  lemma TurnIsPaid(s: Transfer, uuid: Bytes, t: Turn)
    requires Head(s) && IsSource(uuid) && Possible(s, t) && !Finishes(s, uuid, t)
    ensures 1 + Credit(Next(s, uuid, t)) <= 2 * Messages(t) + 2 * Reads(t) + Credit(s)
  {
    hide Handle, Exact, IsSource, ChunkImage, Drain;
    DrainPermit(s, t.drained);
    DrainDecides(s, t.drained);
    var s1 := Drain(s, t.drained).0;
    match t.answer
    case Stopped =>
    case Waited(m) => if m.Some? { HandlePermit(s1, m.value); HandleKeeps(s1, m.value); }
    case Read(r) =>
      if r.ReadInterrupted? {
        HandlePermit(s1.(log := s1.log + [ReadStarted]), r.m);
        HandleKeeps(s1.(log := s1.log + [ReadStarted]), r.m);
      }
    case Sent(a) =>
      if a.SendInterrupted? {
        HandlePermit(s1.(log := s1.log + [SendStarted]), a.m);
        HandleKeeps(s1.(log := s1.log + [SendStarted]), a.m);
      }
  }

  lemma {:induction false} RunIsPaid(s: Transfer, uuid: Bytes, ts: seq<Turn>)
    requires Head(s) && IsSource(uuid) && Run(s, uuid, ts)
    ensures |ts| <= 2 * TotalMessages(ts) + 2 * TotalReads(ts) + Credit(s) + 1
    decreases |ts|
  {
    hide Head, IsSource, Next, Finishes, Possible, Credit, Messages, Reads;
    if ts != [] {
      if Finishes(s, uuid, ts[0]) {
        assert |ts| == 1;
      } else {
        NextExact(s, uuid, ts[0]);
        TurnIsPaid(s, uuid, ts[0]);
        RunIsPaid(Next(s, uuid, ts[0]), uuid, ts[1..]);
      }
    }
  }

  /** The loop cannot spin: its turns are bounded by what the peer sends and what the file yields. */
  lemma DownloadStepBound(expected: nat, uuid: Bytes, ts: seq<Turn>)
    requires IsSource(uuid) && Run(Start(expected), uuid, ts)
    ensures |ts| <= 2 * TotalMessages(ts) + 2 * TotalReads(ts) + 1
  {
    StartIsHead(expected);
    RunIsPaid(Start(expected), uuid, ts);
  }

  // ===== pauses

  function Count(log: seq<Action>, a: Action): nat {
    if log == [] then 0 else Count(log[..|log| - 1], a) + (if log[|log| - 1] == a then 1 else 0)
  }

  /** The last word on pausing in a log. */
  function PausedAfter(log: seq<Action>): bool {
    if log == [] then false
    else match log[|log| - 1]
         case Paused => true
         case Resumed => false
         case Released => false
         case _ => PausedAfter(log[..|log| - 1])
  }

  predicate Starts(a: Action) {
    a.ReadStarted? || a.SendStarted?
  }

  /** No read or send starts while paused; at no point have more waits been released by the permit than Resumes came in. */
  ghost predicate PausesHonoured(log: seq<Action>) {
    log == []
    || (PausesHonoured(log[..|log| - 1])
        && (Starts(log[|log| - 1]) ==> !PausedAfter(log[..|log| - 1]))
        && Count(log, Released) <= Count(log, Resumed))
  }

  /** A Resume came in since the permit last ended a wait. */
  ghost predicate ResumeUnspent(log: seq<Action>) {
    exists i | 0 <= i < |log| :: log[i] == Resumed && forall k | i < k < |log| :: log[k] != Released
  }

  ghost predicate PauseInv(s: Transfer) {
    PausesHonoured(s.log) && s.paused == PausedAfter(s.log) && s.permit == ResumeUnspent(s.log)
    && Count(s.log, Released) + (if s.permit then 1 else 0) <= Count(s.log, Resumed)
  }

  lemma PauseSnoc(log: seq<Action>, a: Action)
    ensures Count(log + [a], Released) == Count(log, Released) + (if a == Released then 1 else 0)
    ensures Count(log + [a], Resumed) == Count(log, Resumed) + (if a == Resumed then 1 else 0)
    ensures PausedAfter(log + [a]) ==
            if a.Paused? then true else if a.Resumed? || a.Released? then false else PausedAfter(log)
    ensures PausesHonoured(log + [a]) <==>
            PausesHonoured(log) && (Starts(a) ==> !PausedAfter(log)) && Count(log + [a], Released) <= Count(log + [a], Resumed)
    ensures ResumeUnspent(log + [a]) <==> a == Resumed || (a != Released && ResumeUnspent(log))
  {
    assert (log + [a])[..|log + [a]| - 1] == log;
    UnspentSnoc(log, a);
  }

  lemma UnspentSnoc(log: seq<Action>, a: Action)
    ensures ResumeUnspent(log + [a]) <==> a == Resumed || (a != Released && ResumeUnspent(log))
  {
    var more := log + [a];
    if a == Resumed {
      assert more[|log|] == Resumed;
    } else if a != Released && ResumeUnspent(log) {
      var i :| 0 <= i < |log| && log[i] == Resumed && forall k | i < k < |log| :: log[k] != Released;
      assert more[i] == Resumed && forall k | i < k < |more| :: more[k] != Released;
    }
    if ResumeUnspent(more) && a != Resumed {
      var i :| 0 <= i < |more| && more[i] == Resumed && forall k | i < k < |more| :: more[k] != Released;
      assert more[|log|] != Released;
      assert log[i] == Resumed && forall k | i < k < |log| :: log[k] == more[k];
    }
  }

  lemma HandlePause(s: Transfer, m: Incoming)
    requires PauseInv(s)
    ensures PauseInv(Handle(s, m).0)
  {
    hide Parse, Count, PausesHonoured, PausedAfter, ResumeUnspent;
    PauseSnoc(s.log, Paused);
    PauseSnoc(s.log, Resumed);
  }

  lemma {:induction false} DrainPause(s: Transfer, ms: seq<Incoming>)
    requires PauseInv(s)
    ensures PauseInv(Drain(s, ms).0)
    decreases |ms|
  {
    hide PauseInv, Handle;
    if ms != [] {
      HandlePause(s, ms[0]);
      DrainPause(Handle(s, ms[0]).0, ms[1..]);
    }
  }

  lemma ReadPause(s: Transfer, uuid: Bytes, a: ReadAnswer)
    requires PauseInv(s) && !s.paused && IsSource(uuid) && (a.ReadData? ==> |a.data| <= DOWNLOAD_CHUNK_SIZE)
    ensures PauseInv(ReadPhase(s, uuid, a).0)
  {
    hide Handle, Count, PausesHonoured, PausedAfter, ResumeUnspent, ChunkImage, IsSource;
    var s1 := s.(log := s.log + [ReadStarted]);
    PauseSnoc(s.log, ReadStarted);
    if a.ReadInterrupted? {
      HandlePause(s1, a.m);
    } else if a.ReadData? {
      PauseSnoc(s1.log, ReadDone(a.data));
    }
  }

  lemma SendPause(s: Transfer, a: SendAnswer)
    requires PauseInv(s) && !s.paused
    ensures PauseInv(SendPhase(s, a).0)
  {
    hide Handle, Count, PausesHonoured, PausedAfter, ResumeUnspent;
    if s.pending.Some? {
      var s1 := s.(log := s.log + [SendStarted]);
      PauseSnoc(s.log, SendStarted);
      PauseSnoc(s1.log, SendDone(s.pending.value));
      if a.SendInterrupted? {
        HandlePause(s1, a.m);
      }
    }
  }

  lemma NextPause(s: Transfer, uuid: Bytes, t: Turn)
    requires PauseInv(s) && IsSource(uuid) && Possible(s, t)
    ensures PauseInv(Next(s, uuid, t))
  {
    hide Drain, Handle, ReadPhase, SendPhase, Count, PausesHonoured, PausedAfter, ResumeUnspent, IsSource;
    DrainPause(s, t.drained);
    var s1 := Drain(s, t.drained).0;
    match t.answer
    case Stopped =>
    case Waited(m) =>
      if m.Some? {
        HandlePause(s1, m.value);
      } else {
        PauseSnoc(s1.log, Released);
      }
    case Read(r) => ReadPause(s1, uuid, r);
    case Sent(a) => SendPause(s1, a);
  }

  lemma {:induction false} PauseAccounting(s: Transfer, uuid: Bytes, ts: seq<Turn>)
    requires PauseInv(s) && IsSource(uuid) && Run(s, uuid, ts)
    ensures PauseInv(After(s, uuid, ts))
    decreases |ts|
  {
    hide PauseInv, Next, Finishes, Possible, IsSource;
    if ts != [] {
      NextPause(s, uuid, ts[0]);
      PauseAccounting(Next(s, uuid, ts[0]), uuid, ts[1..]);
    }
  }

  lemma {:induction false} HonouredPrefix(log: seq<Action>, k: nat)
    requires PausesHonoured(log) && k <= |log|
    ensures PausesHonoured(log[..k])
  {
    if k < |log| {
      HonouredPrefix(log[..|log| - 1], k);
      assert log[..|log| - 1][..k] == log[..k];
    } else {
      assert log[..k] == log;
    }
  }

  lemma {:induction false} CountZero(log: seq<Action>, a: Action)
    ensures Count(log, a) == 0 <==> a !in log
  {
    if log != [] {
      CountZero(log[..|log| - 1], a);
      assert log == log[..|log| - 1] + [log[|log| - 1]];
    }
  }

  lemma {:induction false} StaysPaused(log: seq<Action>, i: nat, k: nat)
    requires i < k <= |log| && log[i] == Paused && Resumed !in log[..k] && Released !in log[..k]
    ensures PausedAfter(log[..k])
    decreases k
  {
    assert log[..k][..|log[..k]| - 1] == log[..k - 1];
    assert log[..k][k - 1] == log[k - 1];
    if i < k - 1 {
      assert forall a | a in log[..k - 1] :: a in log[..k];
      StaysPaused(log, i, k - 1);
    }
  }

  /** Before the first Resume of a transfer a Pause holds: nothing is read or sent any more. */
  lemma PauseHoldsUntilResume(expected: nat, uuid: Bytes, ts: seq<Turn>, i: nat, j: nat)
    requires IsSource(uuid) && Run(Start(expected), uuid, ts)
    requires i < j < |After(Start(expected), uuid, ts).log|
    requires After(Start(expected), uuid, ts).log[i] == Paused
    requires Resumed !in After(Start(expected), uuid, ts).log[..j]
    ensures !Starts(After(Start(expected), uuid, ts).log[j])
  {
    var log := After(Start(expected), uuid, ts).log;
    PauseAccounting(Start(expected), uuid, ts);
    HonouredPrefix(log, j);
    HonouredPrefix(log, j + 1);
    CountZero(log[..j], Resumed);
    CountZero(log[..j], Released);
    StaysPaused(log, i, j);
    assert log[..j + 1][..|log[..j + 1]| - 1] == log[..j];
  }

  // ----- exactly when a Pause holds

  /** From position `k` of the log on: a Resume was handled, or the transfer is paused for good and silent. */
  ghost predicate Silent(k: nat, s: Transfer) {
    k <= |s.log|
    && ((exists i | k <= i < |s.log| :: s.log[i] == Resumed)
        || (s.paused && !s.permit && forall i | k <= i < |s.log| :: !Starts(s.log[i])))
  }

  lemma SilentAfterResume(k: nat, s: Transfer, t: Transfer)
    requires Silent(k, s) && s.log <= t.log && !s.paused
    ensures Silent(k, t)
  {
    var i :| k <= i < |s.log| && s.log[i] == Resumed;
    assert t.log[i] == Resumed;
  }

  lemma PermitSpent(k: nat, s: Transfer)
    requires Silent(k, s) && s.permit
    ensures Silent(k, WaitPhase(s, None).0)
  {
    var i :| k <= i < |s.log| && s.log[i] == Resumed;
    assert WaitPhase(s, None).0.log[i] == Resumed;
  }

  lemma HandleSilent(k: nat, s: Transfer, m: Incoming)
    requires Silent(k, s)
    ensures Silent(k, Handle(s, m).0)
  {
    hide Parse;
    var t := Handle(s, m).0;
    if i :| k <= i < |s.log| && s.log[i] == Resumed {
      assert t.log[i] == Resumed;
    } else if Classify(m).Resume? {
      assert t.log[|s.log|] == Resumed;
    }
  }

  lemma {:induction false} DrainSilent(k: nat, s: Transfer, ms: seq<Incoming>)
    requires Silent(k, s)
    ensures Silent(k, Drain(s, ms).0)
    decreases |ms|
  {
    hide Silent, Handle;
    if ms != [] {
      HandleSilent(k, s, ms[0]);
      DrainSilent(k, Handle(s, ms[0]).0, ms[1..]);
    }
  }

  lemma ReadGrows(s: Transfer, uuid: Bytes, a: ReadAnswer)
    requires IsSource(uuid) && (a.ReadData? ==> |a.data| <= DOWNLOAD_CHUNK_SIZE)
    ensures s.log <= ReadPhase(s, uuid, a).0.log
  {
    hide Classify, IsSource, ChunkImage;
  }

  lemma SendGrows(s: Transfer, a: SendAnswer)
    ensures s.log <= SendPhase(s, a).0.log
  {
    hide Classify;
  }

  lemma ApplySilent(k: nat, s: Transfer, step: LoopStep)
    requires Silent(k, s)
    ensures Silent(k, Apply(s, step))
  {
  }

  lemma NextSilent(k: nat, s: Transfer, uuid: Bytes, t: Turn)
    requires Silent(k, s) && IsSource(uuid) && Possible(s, t)
    ensures Silent(k, Next(s, uuid, t))
  {
    hide Silent, Drain, Handle, IsSource, ReadPhase, SendPhase, Apply;
    DrainSilent(k, s, t.drained);
    var s1 := Drain(s, t.drained).0;
    var (s2, step) := Iterate(s, uuid, t);
    match t.answer {
      case Stopped =>
      case Waited(m) =>
        if m.Some? {
          HandleSilent(k, s1, m.value);
        } else {
          PermitSpent(k, s1);
        }
      case Read(r) =>
        ReadGrows(s1, uuid, r);
        SilentAfterResume(k, s1, s2);
      case Sent(a) =>
        SendGrows(s1, a);
        SilentAfterResume(k, s1, s2);
    }
    ApplySilent(k, s2, step);
  }

  lemma {:induction false} RunSilent(k: nat, s: Transfer, uuid: Bytes, ts: seq<Turn>)
    requires Silent(k, s) && IsSource(uuid) && Run(s, uuid, ts)
    ensures Silent(k, After(s, uuid, ts))
    decreases |ts|
  {
    hide Silent, Next, Finishes, Possible, IsSource;
    if ts != [] {
      NextSilent(k, s, uuid, ts[0]);
      RunSilent(k, Next(s, uuid, ts[0]), uuid, ts[1..]);
    }
  }

  /** Work started after position `k` of the log without a Resume in between. */
  ghost predicate StartsUnresumed(k: nat, log: seq<Action>) {
    (forall i | k <= i < |log| :: log[i] != Resumed) && exists i | k <= i < |log| :: Starts(log[i])
  }

  lemma PermitLetsGo(s: Transfer, uuid: Bytes) returns (ts: seq<Turn>)
    requires Head(s) && s.paused && s.permit && IsSource(uuid)
    ensures Run(s, uuid, ts) && StartsUnresumed(|s.log|, After(s, uuid, ts).log)
  {
    hide Exact, IsSource;
    var t1 := Turn([], Waited(None));
    var s1 := s.(paused := false, permit := false, log := s.log + [Released]);
    assert Next(s, uuid, t1) == s1;
    var t2 := Turn([], if s.phase.Reading? then Read(ReadError) else Sent(SendResolved(false)));
    var s2 := Next(s1, uuid, t2);
    assert s2.log == s1.log + [if s.phase.Reading? then ReadStarted else SendStarted];
    ts := [t1, t2];
    assert ts[1..] == [t2] && [t2][1..] == [];
    assert Run(s2, uuid, []) && Run(s1, uuid, [t2]) && After(s1, uuid, [t2]) == s2;
    assert Starts(s2.log[|s.log| + 1]);
  }

  /** A paused transfer can start a read or a send without another Resume iff a resume permit is stored. */
  lemma PauseEndsEarlyIffPermit(s: Transfer, uuid: Bytes)
    requires Head(s) && s.paused && IsSource(uuid)
    ensures (exists ts :: Run(s, uuid, ts) && StartsUnresumed(|s.log|, After(s, uuid, ts).log)) <==> s.permit
  {
    hide Head, IsSource, Run, After;
    if s.permit {
      var ts := PermitLetsGo(s, uuid);
    } else {
      forall ts | Run(s, uuid, ts)
        ensures !StartsUnresumed(|s.log|, After(s, uuid, ts).log)
      {
        RunSilent(|s.log|, s, uuid, ts);
      }
    }
  }

  /**
   In every reachable state: a paused transfer can start a read or a send without another Resume iff a Resume came in
   since the permit last ended a wait.
   */
  lemma PauseEndsEarlyIffResumeUnspent(expected: nat, uuid: Bytes, ts: seq<Turn>)
    requires IsSource(uuid) && Run(Start(expected), uuid, ts) && !Finished(Start(expected), uuid, ts)
    requires After(Start(expected), uuid, ts).paused
    ensures var s := After(Start(expected), uuid, ts);
            (exists more :: Run(s, uuid, more) && StartsUnresumed(|s.log|, After(s, uuid, more).log))
            <==> ResumeUnspent(s.log)
  {
    hide Run, After, Finished, IsSource, StartsUnresumed;
    StartIsHead(expected);
    DownloadExact(Start(expected), uuid, ts);
    PauseAccounting(Start(expected), uuid, ts);
    PauseEndsEarlyIffPermit(After(Start(expected), uuid, ts), uuid);
  }

  function ControlFrame(id: u32): Incoming {
    Binary(Header([], id))
  }

  /** A message pauses or resumes by its id, whatever its source and payload; other ids are ignored. */
  lemma ControlMessages(s: Transfer, source: Bytes, id: u32, payload: Bytes)
    requires IsSource(source)
    ensures var m := Binary(Header(source, id) + payload);
            Asked(m) == (if id == PAUSE_FILE_CHUNK_STREAM then [Paused]
                         else if id == RESUME_FILE_CHUNK_STREAM then [Resumed] else [])
            && (id != PAUSE_FILE_CHUNK_STREAM && id != RESUME_FILE_CHUNK_STREAM ==> Handle(s, m) == (s, Continue))
    ensures Handle(s, OtherFrame) == (s, Continue)
  {
    hide Parse, Header;
    ParseMessage(source, id, payload);
  }

  lemma ControlFrames()
    ensures Classify(ControlFrame(RESUME_FILE_CHUNK_STREAM)) == Resume
    ensures Classify(ControlFrame(PAUSE_FILE_CHUNK_STREAM)) == Pause
  {
    hide Parse, Header;
    ParseMessage([], RESUME_FILE_CHUNK_STREAM, []);
    ParseMessage([], PAUSE_FILE_CHUNK_STREAM, []);
    assert Header([], RESUME_FILE_CHUNK_STREAM) + [] == Header([], RESUME_FILE_CHUNK_STREAM);
    assert Header([], PAUSE_FILE_CHUNK_STREAM) + [] == Header([], PAUSE_FILE_CHUNK_STREAM);
  }

  /** After a Resume this is no longer so: every Resume stores a permit, which ends the next wait. */
  lemma StalePermitEndsPause(expected: nat, uuid: Bytes) returns (ts: seq<Turn>)
    requires IsSource(uuid)
    ensures Run(Start(expected), uuid, ts)
    ensures After(Start(expected), uuid, ts).log == [Resumed, Paused, Released, ReadStarted]
  {
    hide IsSource, Classify;
    ControlFrames();
    var resume, pause := ControlFrame(RESUME_FILE_CHUNK_STREAM), ControlFrame(PAUSE_FILE_CHUNK_STREAM);
    var s0 := Start(expected);
    var s1 := s0.(permit := true, log := [Resumed]);
    var s2 := s1.(paused := true, log := [Resumed, Paused]);
    assert s0.log + [Resumed] == s1.log && s1.log + [Paused] == s2.log;
    assert Handle(s0, resume) == (s1, Continue) && Handle(s1, pause) == (s2, Continue);
    var ms := [resume, pause];
    assert Drain(s2, []) == (s2, Continue) && [pause][1..] == [];
    assert Drain(s1, [pause]) == (s2, Continue) && ms[1..] == [pause];
    assert Drain(s0, ms) == (s2, Continue);
    var t1, t2 := Turn(ms, Waited(None)), Turn([], Read(ReadError));
    var s3 := s2.(paused := false, permit := false, log := [Resumed, Paused, Released]);
    assert s2.log + [Released] == s3.log && s3.log + [ReadStarted] == [Resumed, Paused, Released, ReadStarted];
    assert Next(s0, uuid, t1) == s3;
    ts := [t1, t2];
    assert ts[1..] == [t2] && [t2][1..] == [];
    assert Run(Next(s3, uuid, t2), uuid, []);
    assert Run(s3, uuid, [t2]) && After(s3, uuid, [t2]) == Next(s3, uuid, t2);
  }
}
