/** The transfer loop as it is written, on fields updated in place; each method is tied to its step of the machine. */
module TransferLoop {
  import opened Wire
  import opened Messaging
  import opened Frames
  import opened Download
  import Utf8

  class Supervisor {
    var authoritative: Result
    var transmittedBytes: nat
    var expectedSize: nat
    var pendingChunkBytes: Option<Bytes>
    var pendingChunkLen: nat
    var isPaused: bool
    var resumePermit: bool
    const uuid: Bytes
    ghost var log: seq<Action>

    constructor (uuid: Bytes, fileSize: nat)
      ensures this.uuid == uuid && View(Reading) == Start(fileSize)
    {
      this.uuid := uuid;
      authoritative := Pending;
      transmittedBytes := 0;
      expectedSize := fileSize;
      pendingChunkBytes := None;
      pendingChunkLen := 0;
      isPaused := false;
      resumePermit := false;
      log := [];
    }

    ghost function View(phase: Phase): Transfer
      reads this
    {
      Transfer(phase, pendingChunkBytes, pendingChunkLen, transmittedBytes, expectedSize, authoritative,
               isPaused, resumePermit, log)
    }

    method SetResult(r: Result)
      modifies this`authoritative
      ensures forall p :: View(p) == SetAuthoritative(old(View(p)), r)
    {
      if authoritative.PrimaryError? && !r.PrimaryError? {
        return;
      }
      authoritative := r;
    }

    method PeerTerminated(msg: string) returns (r: Result)
      modifies this`authoritative
      ensures forall p :: (View(p), r) == RecordPeerTerminal(old(View(p)), msg)
    {
      if authoritative.PrimaryError? {
        return authoritative;
      }
      r := PeerTerminal(msg);
      authoritative := r;
    }

    method HandleIncomingEvent(m: Incoming) returns (step: LoopStep)
      modifies this
      ensures forall p :: (View(p), step) == Handle(old(View(p)), m)
    {
      hide Parse;
      var r: Result;
      match Classify(m) {
        case Pause =>
          isPaused := true;
          log := log + [Paused];
          step := Continue;
        case Resume =>
          isPaused := false;
          resumePermit := true;
          log := log + [Resumed];
          step := Continue;
        case Close =>
          r := PeerTerminated("peer Close");
          step := Finish(r);
        case Eof =>
          r := PeerTerminated("peer EOF");
          step := Finish(r);
        case Error(e) =>
          r := PeerTerminated("peer receive error: " + e);
          step := Finish(r);
        case Ignored =>
          step := Continue;
      }
    }

    /** `ready` is what the receive buffer yields without blocking. */
    method DrainPendingIncoming(ready: seq<Incoming>) returns (step: LoopStep)
      modifies this
      ensures forall p :: (View(p), step) == Drain(old(View(p)), ready)
    {
      hide Handle;
      var i := 0;
      step := Continue;
      while i < |ready|
        invariant i <= |ready| && step.Continue?
        invariant forall p :: Drain(old(View(p)), ready) == Drain(View(p), ready[i..])
      {
        step := HandleIncomingEvent(ready[i]);
        if !step.Continue? {
          return;
        }
        i := i + 1;
      }
    }

    method WaitForTerminalOrResume(m: Option<Incoming>) returns (step: LoopStep)
      modifies this
      ensures forall p :: (View(p), step) == WaitPhase(old(View(p)), m)
    {
      hide Handle;
      match m {
        case Some(m) =>
          step := HandleIncomingEvent(m);
        case None =>
          isPaused := false;
          resumePermit := false;
          log := log + [Released];
          step := Continue;
      }
    }

    method RunReadingPhase(t: Turn) returns (step: LoopStep)
      requires IsSource(uuid) && Possible(View(Reading), t)
      modifies this
      ensures (View(Reading), step) == Iterate(old(View(Reading)), uuid, t)
    {
      hide Handle, Drain, IsSource;
      step := DrainPendingIncoming(t.drained);
      if !step.Continue? {
        return;
      }
      if isPaused {
        step := WaitForTerminalOrResume(t.answer.m);
        return;
      }
      log := log + [ReadStarted];
      match t.answer.r {
        case ReadInterrupted(m) =>
          step := HandleIncomingEvent(m);
        case ReadEof(boundary) =>
          step := AtEndOfFile(boundary);
        case ReadData(data) =>
          log := log + [ReadDone(data)];
          var bytes := BuildChunk(data);
          pendingChunkBytes := Some(bytes);
          pendingChunkLen := |data|;
          step := SetState(Sending);
        case ReadError =>
          SetResult(PrimaryError("file read failed"));
          step := Finish(PrimaryError("file read failed"));
      }
    }

    method BuildChunk(data: Bytes) returns (bytes: Bytes)
      requires IsSource(uuid) && |data| <= DOWNLOAD_CHUNK_SIZE
      ensures bytes == ChunkImage(uuid, data)
    {
      hide Header, EncodeBlob, Utf8.Valid;
      var chunk := new Message.New(FILE_CHUNK, Highest, uuid);
      chunk.PushBytes(data);
      bytes := chunk.data;
    }

    method AtEndOfFile(boundary: Option<Incoming>) returns (step: LoopStep)
      modifies this
      ensures forall p ::
                var s := old(View(p));
                (View(p), step) ==
                if s.transmitted == s.expected && !s.authoritative.PrimaryError? then Boundary(s, boundary)
                else (s, Finish(PrimaryError(UnexpectedEof(s.transmitted, s.expected))))
    {
      var r: Result;
      if transmittedBytes == expectedSize && !authoritative.PrimaryError? {
        match boundary {
          case Some(CloseFrame) =>
            r := PeerTerminated("peer Close");
            step := Finish(r);
          case Some(StreamError(_)) =>
            r := PeerTerminated("peer EOF");
            step := Finish(r);
          case Some(StreamEnd) =>
            r := PeerTerminated("peer EOF");
            step := Finish(r);
          case _ =>
            step := Finish(CleanEof);
        }
      } else {
        step := Finish(PrimaryError(UnexpectedEof(transmittedBytes, expectedSize)));
      }
    }

    /** The pending chunk is taken out for the send and put back when peer input interrupts it. */
    method RunSendingPhase(t: Turn) returns (step: LoopStep)
      requires IsSource(uuid) && Possible(View(Sending), t)
      modifies this
      ensures (View(Sending), step) == Iterate(old(View(Sending)), uuid, t)
    {
      hide Handle, Drain, IsSource;
      step := DrainPendingIncoming(t.drained);
      if !step.Continue? {
        return;
      }
      if isPaused {
        step := WaitForTerminalOrResume(t.answer.m);
        return;
      }
      if pendingChunkBytes.None? {
        return Panic;
      }
      var bytes := pendingChunkBytes.value;
      var chunkLen := pendingChunkLen;
      pendingChunkBytes := None;
      log := log + [SendStarted];
      match t.answer.a {
        case SendResolved(ok) =>
          pendingChunkLen := 0;
          if ok {
            transmittedBytes := transmittedBytes + chunkLen;
            log := log + [SendDone(bytes)];
            step := SetState(Reading);
          } else {
            SetResult(PrimaryError("chunk send failed"));
            step := Finish(PrimaryError("chunk send failed"));
          }
        case SendInterrupted(m) =>
          pendingChunkBytes := Some(bytes);
          step := HandleIncomingEvent(m);
      }
    }

    /**
     Runs the loop for the given turns of the environment; `finished` tells whether it broke out of the loop, and the
     fields then hold what the machine computes for that run.
     */
    method RunTransferLoop(ts: seq<Turn>) returns (phase: Phase, finished: bool)
      requires IsSource(uuid) && Run(View(Reading), uuid, ts)
      modifies this
      ensures View(phase) == After(old(View(Reading)), uuid, ts)
      ensures finished <==> old(Finished(View(Reading), uuid, ts))
    {
      hide Iterate, IsSource, Possible;
      ghost var start := View(Reading);
      phase, finished := Reading, false;
      var i := 0;
      while i < |ts| && !finished
        invariant i <= |ts|
        invariant Run(View(phase), uuid, ts[i..])
        invariant After(View(phase), uuid, ts[i..]) == After(start, uuid, ts)
        invariant if finished then i == |ts| && Finished(start, uuid, ts)
                  else Finished(start, uuid, ts) == Finished(View(phase), uuid, ts[i..])
        decreases |ts| - i
      {
        ghost var s := View(phase);
        assert ts[i..][0] == ts[i] && ts[i..][1..] == ts[i + 1..];
        var step;
        match phase {
          case Reading => step := RunReadingPhase(ts[i]);
          case Sending => step := RunSendingPhase(ts[i]);
        }
        assert (View(phase), step) == Iterate(s, uuid, ts[i]);
        match step {
          case Continue =>
          case SetState(next) =>
            phase := next;
          case Finish(r) =>
            SetResult(r);
            finished := true;
          case Panic =>
            finished := true;
        }
        assert View(phase) == Next(s, uuid, ts[i]);
        i := i + 1;
      }
    }
  }
}
