/** The upload receive loop: chunks are appended until the peer completes, fails or disappears. */
module Upload {
  import opened Wire
  import opened Messaging
  import opened Frames
  import Utf8

  datatype Kind = Chunk(data: Bytes) | Complete | Stop | Skip

  function KindOf(m: Incoming): (k: Kind)
    ensures k.Chunk? ==> |k.data| <= U64_MAX
  {
    match m
    case Binary(data) =>
      SpanValues();
      var p := Parse(data);
      if p.id == FILE_UPLOAD_CHUNK then Chunk(PopBlob(p.payload).0)
      else if p.id == FILE_UPLOAD_COMPLETE then Complete
      else Skip
    case OtherFrame => Skip
    case CloseFrame => Stop
    case StreamEnd => Stop
    case StreamError(_) => Stop
  }

  datatype Failure = SizeMismatch(expected: u64, got: u64) | WriteFailed | FinalizeFailed

  datatype Outcome = Completed | Failed(why: Failure) | ConnectionLost

  /** How the file system behaves: each write by frame number, then flush, sync and removal. */
  datatype Disk = Disk(writeOk: seq<bool>, flushOk: bool, syncOk: bool, removeOk: bool)

  // ----- the reference: where the conversation ends and what was sent until then

  function EndOf(ks: seq<Kind>): (n: nat)
    ensures n <= |ks|
    ensures forall i | 0 <= i < n :: ks[i].Chunk? || ks[i].Skip?
    ensures n < |ks| ==> ks[n].Complete? || ks[n].Stop?
  {
    if ks == [] || ks[0].Complete? || ks[0].Stop? then 0 else 1 + EndOf(ks[1..])
  }

  function Chunks(ks: seq<Kind>): Bytes {
    if ks == [] then []
    else Chunks(ks[..|ks| - 1]) + (if ks[|ks| - 1].Chunk? then ks[|ks| - 1].data else [])
  }

  lemma ChunksSnoc(ks: seq<Kind>, i: nat)
    requires i < |ks|
    ensures Chunks(ks[..i + 1]) == Chunks(ks[..i]) + (if ks[i].Chunk? then ks[i].data else [])
  {
    assert ks[..i + 1][..|ks[..i + 1]| - 1] == ks[..i];
  }

  lemma ChunksNone(ks: seq<Kind>)
    ensures Chunks(ks[..0]) == []
  {
  }

  lemma {:induction false} ChunksGrow(ks: seq<Kind>, i: nat, j: nat)
    requires i <= j <= |ks|
    ensures Chunks(ks[..i]) <= Chunks(ks[..j])
    decreases j - i
  {
    if i < j {
      ChunksGrow(ks, i, j - 1);
      ChunksSnoc(ks, j - 1);
    }
  }

  predicate WritesSucceed(ks: seq<Kind>, writeOk: seq<bool>, n: nat)
    requires n <= |ks| == |writeOk|
  {
    forall i | 0 <= i < n && ks[i].Chunk? :: writeOk[i]
  }

  /** Completion arrived, with the announced size, and everything reached the disk. */
  predicate Accepted(ks: seq<Kind>, fileSize: u64, disk: Disk)
    requires |ks| == |disk.writeOk|
  {
    var n := EndOf(ks);
    n < |ks| && ks[n].Complete?
    && |Chunks(ks[..n])| == fileSize
    && WritesSucceed(ks, disk.writeOk, n)
    && disk.flushOk && disk.syncOk
  }

  function Kinds(ms: seq<Incoming>): (ks: seq<Kind>)
    ensures |ks| == |ms|
  {
    seq(|ms|, i requires 0 <= i < |ms| => KindOf(ms[i]))
  }

  // ----- what is reported

  /** The chunk at `i` does not fit the announced size, or cannot be written. */
  predicate Bad(ks: seq<Kind>, fileSize: u64, writeOk: seq<bool>, i: nat)
    requires i < |ks| == |writeOk|
  {
    ks[i].Chunk? && (|Chunks(ks[..i + 1])| > fileSize || !writeOk[i])
  }

  /** The first such chunk before the conversation ends, or where it ends. */
  function FirstBad(ks: seq<Kind>, fileSize: u64, writeOk: seq<bool>, i: nat): (n: nat)
    requires |ks| == |writeOk| && i <= EndOf(ks)
    ensures i <= n <= EndOf(ks)
    ensures forall k | i <= k < n :: !Bad(ks, fileSize, writeOk, k)
    ensures n < EndOf(ks) ==> Bad(ks, fileSize, writeOk, n)
    decreases |ks| - i
  {
    if i == EndOf(ks) || Bad(ks, fileSize, writeOk, i) then i else FirstBad(ks, fileSize, writeOk, i + 1)
  }

  function Capped(n: nat): u64 {
    if n > U64_MAX then U64_MAX else n
  }

  /** The outcome of a conversation: its first bad chunk decides, then how it ends, then the disk. */
  function Judged(ks: seq<Kind>, fileSize: u64, disk: Disk): Outcome
    requires |ks| == |disk.writeOk|
  {
    var n := FirstBad(ks, fileSize, disk.writeOk, 0);
    if n < EndOf(ks) then
      var total := |Chunks(ks[..n + 1])|;
      if total > fileSize then Failed(SizeMismatch(fileSize, Capped(total))) else Failed(WriteFailed)
    else if n == |ks| || ks[n].Stop? then ConnectionLost
    else if |Chunks(ks[..n])| != fileSize then Failed(SizeMismatch(fileSize, Capped(|Chunks(ks[..n])|)))
    else if !disk.flushOk || !disk.syncOk then Failed(FinalizeFailed)
    else Completed
  }

  lemma JudgedIsAccepted(ks: seq<Kind>, fileSize: u64, disk: Disk)
    requires |ks| == |disk.writeOk|
    ensures Judged(ks, fileSize, disk).Completed? <==> Accepted(ks, fileSize, disk)
  {
    hide EndOf, Chunks;
    var n := FirstBad(ks, fileSize, disk.writeOk, 0);
    var end := EndOf(ks);
    if n < end {
      ChunksGrow(ks, n + 1, end);
    } else {
      forall i | 0 <= i < end && ks[i].Chunk?
        ensures disk.writeOk[i]
      {
        assert !Bad(ks, fileSize, disk.writeOk, i);
      }
    }
  }

  // ----- frames that do not matter

  /** Text, ping and pong frames, and binary messages of another kind. */
  predicate Noise(m: Incoming) {
    m.OtherFrame? || (m.Binary? && Parse(m.data).id != FILE_UPLOAD_CHUNK && Parse(m.data).id != FILE_UPLOAD_COMPLETE)
  }

  lemma {:induction false} EndAppend(pre: seq<Kind>, post: seq<Kind>)
    ensures EndOf(pre + post) == if EndOf(pre) < |pre| then EndOf(pre) else |pre| + EndOf(post)
    decreases |pre|
  {
    if pre == [] {
      assert pre + post == post;
    } else if !(pre[0].Complete? || pre[0].Stop?) {
      EndAppend(pre[1..], post);
      assert (pre + post)[1..] == pre[1..] + post;
    }
  }

  lemma EndSkips(pre: seq<Kind>, post: seq<Kind>)
    ensures EndOf(pre + [Skip] + post) == if EndOf(pre) < |pre| then EndOf(pre) else |pre| + 1 + EndOf(post)
    ensures EndOf(pre + post) == if EndOf(pre) < |pre| then EndOf(pre) else |pre| + EndOf(post)
  {
    EndAppend(pre, post);
    EndAppend(pre, [Skip] + post);
    assert ([Skip] + post)[1..] == post;
    assert EndOf([Skip] + post) == 1 + EndOf(post);
    hide EndOf;
    assert pre + [Skip] + post == pre + ([Skip] + post);
  }

  lemma {:induction false} ChunksSkip(pre: seq<Kind>, post: seq<Kind>)
    ensures Chunks(pre + [Skip] + post) == Chunks(pre + post)
    decreases |post|
  {
    if post == [] {
      assert pre + [Skip] + post == pre + [Skip] && (pre + [Skip])[..|pre|] == pre && pre + post == pre;
    } else {
      var init, last := post[..|post| - 1], post[|post| - 1];
      ChunksSkip(pre, init);
      var a, b := pre + [Skip] + post, pre + post;
      assert a[..|a| - 1] == pre + [Skip] + init && b[..|b| - 1] == pre + init;
      assert a[|a| - 1] == last == b[|b| - 1];
    }
  }

  lemma SkipDoesNotMatter(p: seq<Kind>, q: seq<Kind>, fileSize: u64, a: seq<bool>, ok: bool, b: seq<bool>, disk: Disk)
    requires |a| == |p| && |b| == |q|
    ensures var ks := p + q;
            var ks' := p + [Skip] + q;
            Chunks(ks'[..EndOf(ks')]) == Chunks(ks[..EndOf(ks)])
            && (Accepted(ks', fileSize, disk.(writeOk := a + [ok] + b)) <==> Accepted(ks, fileSize, disk.(writeOk := a + b)))
  {
    hide EndOf, Chunks, WritesSucceed;
    var (ks, ks') := (p + q, p + [Skip] + q);
    EndSkips(p, q);
    if EndOf(p) < |p| {
      var n := EndOf(p);
      assert ks[..n] == p[..n] == ks'[..n] && ks[n] == p[n] == ks'[n];
      WritesPrefix(p, q, a, ok, b, n);
    } else {
      var n := EndOf(q);
      assert ks[..|p| + n] == p + q[..n] && ks'[..|p| + 1 + n] == p + [Skip] + q[..n];
      assert n < |q| ==> ks[|p| + n] == q[n] == ks'[|p| + 1 + n];
      ChunksSkip(p, q[..n]);
      WritesSkip(p, q, a, ok, b, n);
    }
  }

  lemma WritesPrefix(p: seq<Kind>, q: seq<Kind>, a: seq<bool>, ok: bool, b: seq<bool>, n: nat)
    requires |a| == |p| && |b| == |q| && n <= |p|
    ensures WritesSucceed(p + [Skip] + q, a + [ok] + b, n) <==> WritesSucceed(p + q, a + b, n)
  {
    var (ks, ks', w, w') := (p + q, p + [Skip] + q, a + b, a + [ok] + b);
    assert forall i | 0 <= i < n :: ks[i] == ks'[i] && w[i] == w'[i];
  }

  /** Noise anywhere in a conversation changes neither whether the upload is accepted nor what is stored. */
  lemma NoiseDoesNotMatter(pre: seq<Incoming>, m: Incoming, post: seq<Incoming>, fileSize: u64,
                           a: seq<bool>, ok: bool, b: seq<bool>, disk: Disk)
    requires Noise(m) && |a| == |pre| && |b| == |post|
    ensures var ks := Kinds(pre + post);
            var ks' := Kinds(pre + [m] + post);
            Chunks(ks'[..EndOf(ks')]) == Chunks(ks[..EndOf(ks)])
            && (Accepted(ks', fileSize, disk.(writeOk := a + [ok] + b)) <==> Accepted(ks, fileSize, disk.(writeOk := a + b)))
  {
    hide KindOf, EndOf, Chunks, Accepted, Noise;
    NoiseIsSkipped(m);
    assert Kinds(pre + post) == Kinds(pre) + Kinds(post);
    assert Kinds(pre + [m] + post) == Kinds(pre) + [Skip] + Kinds(post);
    SkipDoesNotMatter(Kinds(pre), Kinds(post), fileSize, a, ok, b, disk);
  }

  lemma NoiseIsSkipped(m: Incoming)
    requires Noise(m)
    ensures KindOf(m) == Skip
  {
  }

  lemma WritesSkip(p: seq<Kind>, q: seq<Kind>, a: seq<bool>, ok: bool, b: seq<bool>, n: nat)
    requires |a| == |p| && |b| == |q| && n <= |q|
    ensures WritesSucceed(p + [Skip] + q, a + [ok] + b, |p| + 1 + n) <==> WritesSucceed(p + q, a + b, |p| + n)
  {
    var (ks, ks', w, w') := (p + q, p + [Skip] + q, a + b, a + [ok] + b);
    assert forall i | 0 <= i < |p| :: ks[i] == ks'[i] && w[i] == w'[i];
    assert forall i | |p| <= i < |p| + n :: ks[i] == ks'[i + 1] && w[i] == w'[i + 1];
    if WritesSucceed(ks, w, |p| + n) {
      forall i | 0 <= i < |p| + 1 + n && ks'[i].Chunk? ensures w'[i] {
        if i > |p| {
          assert ks[i - 1] == ks'[i] && w[i - 1] == w'[i];
        }
      }
    }
  }

  /** A conversation that breaks off before its completion message is not accepted and is reported as lost or failed. */
  lemma BrokenOffIsNotAccepted(ms: seq<Incoming>, n: nat, fileSize: u64, disk: Disk)
    requires |disk.writeOk| == |ms| && n < |ms| && (ms[n].CloseFrame? || ms[n].StreamEnd? || ms[n].StreamError?)
    requires forall i | 0 <= i < n :: ms[i].Binary? ==> Parse(ms[i].data).id != FILE_UPLOAD_COMPLETE
    ensures !Accepted(Kinds(ms), fileSize, disk)
  {
    hide Parse, EndOf, Chunks;
    var ks := Kinds(ms);
    assert ks[n] == KindOf(ms[n]) == Stop;
    if EndOf(ks) < n {
      assert ks[EndOf(ks)] == KindOf(ms[EndOf(ks)]);
    }
  }

  // ----- a well-behaved peer

  function ChunkFrame(uuid: Bytes, data: Bytes): Incoming
    requires IsSource(uuid) && |data| <= U64_MAX
  {
    Binary(Header(uuid, FILE_UPLOAD_CHUNK) + EncodeBlob(data))
  }

  function CompleteFrame(uuid: Bytes): Incoming
    requires IsSource(uuid)
  {
    Binary(Header(uuid, FILE_UPLOAD_COMPLETE))
  }

  lemma FramesAreUnderstood(uuid: Bytes, data: Bytes)
    requires IsSource(uuid) && |data| <= U64_MAX
    ensures KindOf(ChunkFrame(uuid, data)) == Chunk(data)
    ensures KindOf(CompleteFrame(uuid)) == Complete
  {
    hide Header, EncodeBlob, Utf8.Valid;
    ParseMessage(uuid, FILE_UPLOAD_CHUNK, EncodeBlob(data));
    PopBlobEncoded(Parse(Header(uuid, FILE_UPLOAD_CHUNK) + EncodeBlob(data)).payload, data);
    ParseMessage(uuid, FILE_UPLOAD_COMPLETE, []);
    assert Header(uuid, FILE_UPLOAD_COMPLETE) + [] == Header(uuid, FILE_UPLOAD_COMPLETE);
  }

  ghost function Conversation(uuid: Bytes, parts: seq<Bytes>): seq<Incoming>
    requires IsSource(uuid) && forall i | 0 <= i < |parts| :: |parts[i]| <= U64_MAX
  {
    seq(|parts|, i requires 0 <= i < |parts| => ChunkFrame(uuid, parts[i])) + [CompleteFrame(uuid)]
  }

  function Joined(parts: seq<Bytes>): Bytes {
    if parts == [] then [] else Joined(parts[..|parts| - 1]) + parts[|parts| - 1]
  }

  lemma {:induction false} ChunksOfParts(ks: seq<Kind>, parts: seq<Bytes>, n: nat)
    requires n <= |parts| <= |ks| && forall i | 0 <= i < |parts| :: ks[i] == Chunk(parts[i])
    ensures Chunks(ks[..n]) == Joined(parts[..n])
  {
    if n > 0 {
      ChunksOfParts(ks, parts, n - 1);
      ChunksSnoc(ks, n - 1);
      assert parts[..n][..|parts[..n]| - 1] == parts[..n - 1];
    }
  }

  lemma {:induction false} EndIsFirstStop(ks: seq<Kind>, n: nat)
    requires n < |ks| && ks[n].Complete? && forall i | 0 <= i < n :: ks[i].Chunk?
    ensures EndOf(ks) == n
    decreases n
  {
    if n > 0 {
      EndIsFirstStop(ks[1..], n - 1);
    }
  }

  /** Whatever way a peer cuts a file into chunks, the upload is accepted and what is stored is that file. */
  lemma HonestUploadIsStored(uuid: Bytes, parts: seq<Bytes>, disk: Disk)
    requires IsSource(uuid) && (forall i | 0 <= i < |parts| :: |parts[i]| <= U64_MAX) && |Joined(parts)| <= U64_MAX
    requires |disk.writeOk| == |parts| + 1 && (forall i | 0 <= i < |parts| :: disk.writeOk[i]) && disk.flushOk && disk.syncOk
    ensures var ks := Kinds(Conversation(uuid, parts));
            Accepted(ks, |Joined(parts)|, disk) && Chunks(ks[..EndOf(ks)]) == Joined(parts)
  {
    hide KindOf, EndOf, Chunks, Joined, ChunkFrame, CompleteFrame, IsSource;
    var ms := Conversation(uuid, parts);
    var ks := Kinds(ms);
    var n := |parts|;
    FramesAreUnderstood(uuid, []);
    assert ms[n] == CompleteFrame(uuid);
    forall i | 0 <= i < n
      ensures ks[i] == Chunk(parts[i])
    {
      FramesAreUnderstood(uuid, parts[i]);
      assert ms[i] == ChunkFrame(uuid, parts[i]);
    }
    EndIsFirstStop(ks, n);
    ChunksOfParts(ks, parts, n);
    assert parts[..n] == parts;
  }

  function SaturatingAdd(a: u64, b: u64): u64 {
    if a + b > U64_MAX then U64_MAX else a + b
  }

  function SaturatingSub(a: u64, b: u64): u64 {
    if a < b then 0 else a - b
  }

  /**
   Runs once the target file has been created. The file is left behind exactly when the upload is accepted, and then
   holds the concatenation of the chunks; otherwise it is removed (or, where removal fails, holds a prefix of them).
   The counter never passes the announced size, so it cannot overflow.
   */
  method ReceiveUpload(fileSize: u64, ms: seq<Incoming>, disk: Disk)
    returns (outcome: Outcome, file: Option<Bytes>, receivedSize: u64)
    requires |disk.writeOk| == |ms|
    ensures outcome == Judged(Kinds(ms), fileSize, disk)
    ensures outcome.Completed? <==> Accepted(Kinds(ms), fileSize, disk)
    ensures outcome.Completed? ==> file == Some(Chunks(Kinds(ms)[..EndOf(Kinds(ms))]))
    ensures !outcome.Completed? && disk.removeOk ==> file.None?
    ensures !outcome.Completed? && !disk.removeOk ==> file.Some? && file.value <= Chunks(Kinds(ms)[..EndOf(Kinds(ms))])
    ensures receivedSize <= fileSize
  {
    hide KindOf, EndOf, Chunks;
    ghost var ks := Kinds(ms);
    JudgedIsAccepted(ks, fileSize, disk);
    ghost var bad := FirstBad(ks, fileSize, disk.writeOk, 0);
    ghost var end := EndOf(ks);
    var contents: Bytes := [];
    ChunksNone(ks);
    receivedSize := 0;
    var i := 0;
    while i < |ms|
      invariant i <= bad
      invariant contents == Chunks(ks[..i]) && receivedSize == |contents| <= fileSize
    {
      var kind := KindOf(ms[i]);
      assert kind == ks[i];
      if kind.Chunk? {
        var chunkLen: u64 := |kind.data|;
        ChunksSnoc(ks, i);
        ChunksGrow(ks, i, end);
        ChunksGrow(ks, i + 1, end);
        if chunkLen > SaturatingSub(fileSize, receivedSize) {
          assert Bad(ks, fileSize, disk.writeOk, i) && bad == i;
          outcome := Failed(SizeMismatch(fileSize, SaturatingAdd(receivedSize, chunkLen)));
          file := if disk.removeOk then None else Some(contents);
          return;
        }
        if !disk.writeOk[i] {
          assert Bad(ks, fileSize, disk.writeOk, i) && bad == i;
          outcome := Failed(WriteFailed);
          var written :| 0 <= written <= |kind.data|;
          file := if disk.removeOk then None else Some(contents + kind.data[..written]);
          return;
        }
        contents := contents + kind.data;
        receivedSize := receivedSize + chunkLen;
      } else if kind.Complete? {
        if receivedSize != fileSize {
          outcome := Failed(SizeMismatch(fileSize, receivedSize));
          file := if disk.removeOk then None else Some(contents);
        } else if !disk.flushOk || !disk.syncOk {
          outcome := Failed(FinalizeFailed);
          file := if disk.removeOk then None else Some(contents);
        } else {
          outcome := Completed;
          file := Some(contents);
        }
        return;
      } else if kind.Stop? {
        break;
      } else {
        ChunksSnoc(ks, i);
      }
      i := i + 1;
    }
    ChunksGrow(ks, i, end);
    outcome := ConnectionLost;
    file := if disk.removeOk then None else Some(contents);
  }
}
