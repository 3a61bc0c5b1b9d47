/** Job and status records as they cross the wire, list responses and the request-id envelope. */
module Records {
  import opened Wire
  import opened Messaging
  import Utf8

  datatype Job = Job(
    id: i64,
    jobId: Option<i64>,
    schedulerId: Option<i64>,
    submitting: bool,
    submittingCount: i32,
    bundleHash: Bytes,
    workingDirectory: Bytes,
    running: bool,
    deleting: bool,
    deleted: bool)
  {
    predicate WellFormed() {
      IsSource(bundleHash) && IsSource(workingDirectory)
    }
  }

  datatype Status = Status(id: i64, jobId: i64, what: Bytes, state: i32)

  // ----- saturating conversions

  /** u64::try_from(v).unwrap_or(0) */
  function IdToWire(v: i64): u64 {
    if v < 0 then 0 else v
  }

  /** i64::try_from(n).unwrap_or(i64::MAX) */
  function IdFromWire(n: u64): i64 {
    if n > I64_MAX then I64_MAX else n
  }

  /** u32::try_from(v).unwrap_or(u32::MAX) */
  function StateToU32(v: i32): u32 {
    if v < 0 then U32_MAX else v
  }

  /** i32::try_from(n).unwrap_or(i32::MAX) */
  function StateToI32(n: u32): i32 {
    if n > I32_MAX then I32_MAX else n
  }

  function OrZero(v: Option<i64>): i64 {
    match v case None => 0 case Some(i) => i
  }

  function NonZero(v: i64): Option<i64> {
    if v != 0 then Some(v) else None
  }

  function CapCount(len: nat): u32 {
    if len > U32_MAX then U32_MAX else len
  }

  // ----- what is written

  function U64(n: u64): Bytes {
    SpanValues();
    Encode(UnsignedInt(8, n))
  }

  function U32(n: u32): Bytes {
    SpanValues();
    Encode(UnsignedInt(4, n))
  }

  function Flag(b: bool): Bytes {
    Encode(Boolean(b))
  }

  function FlagsImage(j: Job): Bytes {
    Flag(j.running) + (Flag(j.deleting) + Flag(j.deleted))
  }

  function TextsImage(j: Job): Bytes
    requires j.WellFormed()
  {
    EncodeBlob(j.bundleHash) + EncodeBlob(j.workingDirectory)
  }

  function CountersImage(j: Job): Bytes {
    Flag(j.submitting) + U32(StateToU32(j.submittingCount))
  }

  function IdsImage(j: Job): Bytes {
    U64(IdToWire(j.id)) + (U64(IdToWire(OrZero(j.jobId))) + U64(IdToWire(OrZero(j.schedulerId))))
  }

  function JobImage(j: Job): Bytes
    requires j.WellFormed()
  {
    (IdsImage(j) + CountersImage(j)) + (TextsImage(j) + FlagsImage(j))
  }

  function StatusImage(s: Status): Bytes
    requires IsSource(s.what)
  {
    (U64(IdToWire(s.id)) + U64(IdToWire(s.jobId))) + (EncodeBlob(s.what) + U32(StateToU32(s.state)))
  }

  // ----- what is read

  function PopId(c: Cursor): (r: (i64, Cursor))
    requires c.Valid()
    ensures r.1.Valid() && r.1.data == c.data
  {
    SpanValues();
    var (n, d) := PopUnsigned(c, 8);
    (IdFromWire(n), d)
  }

  function PopState(c: Cursor): (r: (i32, Cursor))
    requires c.Valid()
    ensures r.1.Valid() && r.1.data == c.data
  {
    SpanValues();
    var (n, d) := PopUnsigned(c, 4);
    (StateToI32(n), d)
  }

  function PopFlag(c: Cursor): (r: (bool, Cursor))
    requires c.Valid()
    ensures r.1.Valid() && r.1.data == c.data
  {
    var (n, d) := PopUnsigned(c, 1);
    (n == 1, d)
  }

  function PopText(c: Cursor): (r: (Bytes, Cursor))
    requires c.Valid()
    ensures r.1.Valid() && r.1.data == c.data
  {
    var (b, d) := PopBlob(c);
    (Utf8.Lossy(b), d)
  }

  function ParseIds(c: Cursor): (r: (i64, i64, i64, Cursor))
    requires c.Valid()
    ensures r.3.Valid() && r.3.data == c.data
  {
    var (id, c1) := PopId(c);
    var (jobId, c2) := PopId(c1);
    var (schedulerId, c3) := PopId(c2);
    (id, jobId, schedulerId, c3)
  }

  function ParseCounters(c: Cursor): (r: (bool, i32, Cursor))
    requires c.Valid()
    ensures r.2.Valid() && r.2.data == c.data
  {
    var (submitting, c1) := PopFlag(c);
    var (count, c2) := PopState(c1);
    (submitting, count, c2)
  }

  function ParseTexts(c: Cursor): (r: (Bytes, Bytes, Cursor))
    requires c.Valid()
    ensures r.2.Valid() && r.2.data == c.data
  {
    var (hash, c1) := PopText(c);
    var (dir, c2) := PopText(c1);
    (hash, dir, c2)
  }

  function ParseFlags(c: Cursor): (r: (bool, bool, bool, Cursor))
    requires c.Valid()
    ensures r.3.Valid() && r.3.data == c.data
  {
    var (running, c1) := PopFlag(c);
    var (deleting, c2) := PopFlag(c1);
    var (deleted, c3) := PopFlag(c2);
    (running, deleting, deleted, c3)
  }

  function ParseJob(c: Cursor): (r: (Job, Cursor))
    requires c.Valid()
    ensures r.1.Valid() && r.1.data == c.data
  {
    var (id, jobId, schedulerId, c1) := ParseIds(c);
    var (submitting, count, c2) := ParseCounters(c1);
    var (hash, dir, c3) := ParseTexts(c2);
    var (running, deleting, deleted, c4) := ParseFlags(c3);
    (Job(id, NonZero(jobId), NonZero(schedulerId), submitting, count, hash, dir, running, deleting, deleted), c4)
  }

  function ParseStatus(c: Cursor): (r: (Status, Cursor))
    requires c.Valid()
    ensures r.1.Valid() && r.1.data == c.data
  {
    var (id, c1) := PopId(c);
    var (jobId, c2) := PopId(c1);
    var (what, c3) := PopText(c2);
    var (state, c4) := PopState(c3);
    (Status(id, jobId, what, state), c4)
  }

  // ----- what survives a save: negative ids are lost, a negative count becomes the largest one

  function Normalise(j: Job): Job {
    j.(id := IdToWire(j.id),
       jobId := NonZero(IdToWire(OrZero(j.jobId))),
       schedulerId := NonZero(IdToWire(OrZero(j.schedulerId))),
       submittingCount := StateToI32(StateToU32(j.submittingCount)))
  }

  function NormaliseStatus(s: Status): Status {
    s.(id := IdToWire(s.id), jobId := IdToWire(s.jobId), state := StateToI32(StateToU32(s.state)))
  }

  /** Ids and states saturate: what is stored or sent is the nearest value that fits. */
  lemma SaturatesToNearest(v: i64, n: u64, m: u32, x: u64, y: i64, z: i32)
    ensures v <= IdToWire(v) && (v >= 0 ==> IdToWire(v) == v) && IdToWire(v) - v <= (if x >= v then x - v else v - x)
    ensures IdFromWire(n) <= n && n - IdFromWire(n) <= (if y >= n then y - n else n - y)
    ensures StateToI32(m) <= m && m - StateToI32(m) <= (if z >= m then z - m else m - z)
    ensures z >= 0 ==> StateToU32(z) == z
    ensures z < 0 ==> StateToU32(z) == U32_MAX
  {
  }

  /** What saving keeps of a job, and what it makes of the rest. */
  lemma NormaliseExactly(j: Job)
    ensures Normalise(j) == j <==>
            j.id >= 0 && (j.jobId.Some? ==> j.jobId.value > 0) && (j.schedulerId.Some? ==> j.schedulerId.value > 0)
            && j.submittingCount >= 0
    ensures j.id < 0 ==> Normalise(j).id == 0
    ensures j.jobId.Some? && j.jobId.value <= 0 ==> Normalise(j).jobId == None
    ensures j.schedulerId.Some? && j.schedulerId.value <= 0 ==> Normalise(j).schedulerId == None
    ensures j.submittingCount < 0 ==> Normalise(j).submittingCount == I32_MAX
    ensures Normalise(j).(id := j.id, jobId := j.jobId, schedulerId := j.schedulerId, submittingCount := j.submittingCount) == j
    ensures Normalise(Normalise(j)) == Normalise(j)
  {
  }

  /** `part` stands at position `at` of `whole`. */
  predicate Part(whole: Bytes, at: nat, part: Bytes) {
    at + |part| <= |whole| && whole[at..at + |part|] == part
  }

  lemma PartSplit(whole: Bytes, at: nat, a: Bytes, b: Bytes)
    requires Part(whole, at, a + b)
    ensures Part(whole, at, a) && Part(whole, at + |a|, b)
  {
    var ab := whole[at..at + |a + b|];
    assert whole[at..at + |a|] == ab[..|a|] == a;
    assert whole[at + |a|..at + |a| + |b|] == ab[|a|..] == b;
  }

  /** Fixed-width fields: their length and their bytes, least significant first. */
  lemma FieldLayout(n: u64, m: u32, b: bool)
    ensures |U64(n)| == 8 && ImageAt(U64(n), 0, n, 8)
    ensures |U32(m)| == 4 && ImageAt(U32(m), 0, m, 4)
    ensures Flag(b) == [if b then 1 else 0]
  {
    SpanValues();
    UnsignedImage(n, 8);
    UnsignedImage(m, 4);
  }

  /** Where the fields of a saved job are. */
  lemma JobLayout(j: Job)
    requires j.WellFormed()
    ensures var im, h, d := JobImage(j), |j.bundleHash|, |j.workingDirectory|;
            |im| == 48 + h + d
            && Part(im, 0, U64(IdToWire(j.id)))
            && Part(im, 8, U64(IdToWire(OrZero(j.jobId))))
            && Part(im, 16, U64(IdToWire(OrZero(j.schedulerId))))
            && Part(im, 24, Flag(j.submitting))
            && Part(im, 25, U32(StateToU32(j.submittingCount)))
            && Part(im, 29, EncodeBlob(j.bundleHash))
            && Part(im, 37 + h, EncodeBlob(j.workingDirectory))
            && Part(im, 45 + h + d, Flag(j.running))
            && Part(im, 46 + h + d, Flag(j.deleting))
            && Part(im, 47 + h + d, Flag(j.deleted))
  {
    var im := JobImage(j);
    var (ids, counters, texts, flags) := (IdsImage(j), CountersImage(j), TextsImage(j), FlagsImage(j));
    assert Part(im, 0, im);
    hide Part, IdsImage, CountersImage, TextsImage, FlagsImage, U64, U32, Flag, EncodeBlob;
    PartSplit(im, 0, ids + counters, texts + flags);
    PartSplit(im, 0, ids, counters);
    IdsParts(im, 0, j);
    CountersParts(im, 24, j);
    PartSplit(im, 29, texts, flags);
    TextsParts(im, 29, j);
    FlagsParts(im, 29 + |texts|, j);
  }

  lemma IdsParts(whole: Bytes, at: nat, j: Job)
    requires Part(whole, at, IdsImage(j))
    ensures |IdsImage(j)| == 24
    ensures Part(whole, at, U64(IdToWire(j.id)))
    ensures Part(whole, at + 8, U64(IdToWire(OrZero(j.jobId))))
    ensures Part(whole, at + 16, U64(IdToWire(OrZero(j.schedulerId))))
  {
    var (a, b, c) := (U64(IdToWire(j.id)), U64(IdToWire(OrZero(j.jobId))), U64(IdToWire(OrZero(j.schedulerId))));
    hide Part;
    PartSplit(whole, at, a, b + c);
    PartSplit(whole, at + 8, b, c);
  }

  lemma CountersParts(whole: Bytes, at: nat, j: Job)
    requires Part(whole, at, CountersImage(j))
    ensures |CountersImage(j)| == 5
    ensures Part(whole, at, Flag(j.submitting)) && Part(whole, at + 1, U32(StateToU32(j.submittingCount)))
  {
    hide Part;
    PartSplit(whole, at, Flag(j.submitting), U32(StateToU32(j.submittingCount)));
  }

  lemma TextsParts(whole: Bytes, at: nat, j: Job)
    requires j.WellFormed() && Part(whole, at, TextsImage(j))
    ensures |TextsImage(j)| == 16 + |j.bundleHash| + |j.workingDirectory|
    ensures Part(whole, at, EncodeBlob(j.bundleHash))
    ensures Part(whole, at + 8 + |j.bundleHash|, EncodeBlob(j.workingDirectory))
  {
    BlobLayout(j.bundleHash);
    BlobLayout(j.workingDirectory);
    hide Part, EncodeBlob, ImageAt;
    PartSplit(whole, at, EncodeBlob(j.bundleHash), EncodeBlob(j.workingDirectory));
  }

  lemma FlagsParts(whole: Bytes, at: nat, j: Job)
    requires Part(whole, at, FlagsImage(j))
    ensures |FlagsImage(j)| == 3
    ensures Part(whole, at, Flag(j.running)) && Part(whole, at + 1, Flag(j.deleting)) && Part(whole, at + 2, Flag(j.deleted))
  {
    hide Part;
    PartSplit(whole, at, Flag(j.running), Flag(j.deleting) + Flag(j.deleted));
    PartSplit(whole, at + 1, Flag(j.deleting), Flag(j.deleted));
  }

  /** Where the fields of a saved status are. */
  lemma StatusLayout(s: Status)
    requires IsSource(s.what)
    ensures var im, n := StatusImage(s), |s.what|;
            |im| == 28 + n && Part(im, 0, U64(IdToWire(s.id))) && Part(im, 8, U64(IdToWire(s.jobId)))
            && Part(im, 16, EncodeBlob(s.what)) && Part(im, 24 + n, U32(StateToU32(s.state)))
  {
    var im := StatusImage(s);
    var (a, b, c, d) := (U64(IdToWire(s.id)), U64(IdToWire(s.jobId)), EncodeBlob(s.what), U32(StateToU32(s.state)));
    FieldLayout(IdToWire(s.id), StateToU32(s.state), true);
    FieldLayout(IdToWire(s.jobId), 0, true);
    BlobLayout(s.what);
    assert Part(im, 0, im);
    hide Part, U64, U32, EncodeBlob, ImageAt;
    PartSplit(im, 0, a + b, c + d);
    PartSplit(im, 0, a, b);
    PartSplit(im, 16, c, d);
  }

  // ----- reading back one field, then one group of fields

  lemma PopIdAt(c: Cursor, n: u64)
    requires At(c, U64(n))
    ensures PopId(c) == (IdFromWire(n), Advance(c, |U64(n)|))
  {
    SpanValues();
    PopUnsignedEncoded(c, n, 8);
  }

  lemma PopStateAt(c: Cursor, n: u32)
    requires At(c, U32(n))
    ensures PopState(c) == (StateToI32(n), Advance(c, |U32(n)|))
  {
    SpanValues();
    PopUnsignedEncoded(c, n, 4);
  }

  lemma PopFlagAt(c: Cursor, b: bool)
    requires At(c, Flag(b))
    ensures PopFlag(c) == (b, Advance(c, |Flag(b)|))
  {
    PopEncoded(c, Boolean(b));
  }

  lemma PopTextAt(c: Cursor, s: Bytes)
    requires IsSource(s) && At(c, EncodeBlob(s))
    ensures PopText(c) == (s, Advance(c, |EncodeBlob(s)|))
  {
    PopBlobEncoded(c, s);
    Utf8.LossyKeepsValid(s);
  }

  lemma IdsAt(c: Cursor, a: u64, b: u64, d: u64)
    requires At(c, U64(a) + (U64(b) + U64(d)))
    ensures ParseIds(c) == (IdFromWire(a), IdFromWire(b), IdFromWire(d), Advance(c, |U64(a) + (U64(b) + U64(d))|))
  {
    AtSplit(c, U64(a), U64(b) + U64(d));
    PopIdAt(c, a);
    var c1 := Advance(c, |U64(a)|);
    AtSplit(c1, U64(b), U64(d));
    PopIdAt(c1, b);
    PopIdAt(Advance(c1, |U64(b)|), d);
  }

  lemma CountersAt(c: Cursor, b: bool, n: u32)
    requires At(c, Flag(b) + U32(n))
    ensures ParseCounters(c) == (b, StateToI32(n), Advance(c, |Flag(b) + U32(n)|))
  {
    AtSplit(c, Flag(b), U32(n));
    PopFlagAt(c, b);
    PopStateAt(Advance(c, |Flag(b)|), n);
  }

  lemma TextsAt(c: Cursor, s: Bytes, t: Bytes)
    requires IsSource(s) && IsSource(t) && At(c, EncodeBlob(s) + EncodeBlob(t))
    ensures ParseTexts(c) == (s, t, Advance(c, |EncodeBlob(s) + EncodeBlob(t)|))
  {
    hide EncodeBlob, PopText, Utf8.Valid;
    AtSplit(c, EncodeBlob(s), EncodeBlob(t));
    PopTextAt(c, s);
    PopTextAt(Advance(c, |EncodeBlob(s)|), t);
  }

  lemma FlagsAt(c: Cursor, x: bool, y: bool, z: bool)
    requires At(c, Flag(x) + (Flag(y) + Flag(z)))
    ensures ParseFlags(c) == (x, y, z, Advance(c, |Flag(x) + (Flag(y) + Flag(z))|))
  {
    AtSplit(c, Flag(x), Flag(y) + Flag(z));
    PopFlagAt(c, x);
    var c1 := Advance(c, |Flag(x)|);
    AtSplit(c1, Flag(y), Flag(z));
    PopFlagAt(c1, y);
    PopFlagAt(Advance(c1, |Flag(y)|), z);
  }

  /** A saved job reads back as its normal form, and the cursor lands right behind it. */
  lemma JobRoundTrip(c: Cursor, j: Job)
    requires j.WellFormed() && At(c, JobImage(j))
    ensures ParseJob(c) == (Normalise(j), Advance(c, |JobImage(j)|))
  {
    hide PopId, PopFlag, PopState, PopText, ParseIds, ParseCounters, ParseTexts, ParseFlags, EncodeBlob, U64, U32, Flag;
    var (ids, counters, texts, flags) := (IdsImage(j), CountersImage(j), TextsImage(j), FlagsImage(j));
    AtSplit(c, ids + counters, texts + flags);
    AtSplit(c, ids, counters);
    IdsAt(c, IdToWire(j.id), IdToWire(OrZero(j.jobId)), IdToWire(OrZero(j.schedulerId)));
    CountersAt(Advance(c, |ids|), j.submitting, StateToU32(j.submittingCount));
    var c2 := Advance(c, |ids + counters|);
    AtSplit(c2, texts, flags);
    TextsAt(c2, j.bundleHash, j.workingDirectory);
    FlagsAt(Advance(c2, |texts|), j.running, j.deleting, j.deleted);
  }

  lemma StatusRoundTrip(c: Cursor, s: Status)
    requires IsSource(s.what) && At(c, StatusImage(s))
    ensures ParseStatus(c) == (NormaliseStatus(s), Advance(c, |StatusImage(s)|))
  {
    hide PopId, PopState, PopText, EncodeBlob, U64, U32;
    var (id, jobId) := (U64(IdToWire(s.id)), U64(IdToWire(s.jobId)));
    var (what, state) := (EncodeBlob(s.what), U32(StateToU32(s.state)));
    AtSplit(c, id + jobId, what + state);
    AtSplit(c, id, jobId);
    PopIdAt(c, IdToWire(s.id));
    PopIdAt(Advance(c, |id|), IdToWire(s.jobId));
    var c2 := Advance(c, |id + jobId|);
    AtSplit(c2, what, state);
    PopTextAt(c2, s.what);
    PopStateAt(Advance(c2, |what|), StateToU32(s.state));
  }

  /** Saving what was read changes nothing: normal forms are fixed points, for every record that can be parsed. */
  lemma ParsedJobIsNormal(c: Cursor)
    requires c.Valid()
    ensures var j := ParseJob(c).0;
            Normalise(j) == j && Utf8.Valid(j.bundleHash) && Utf8.Valid(j.workingDirectory)
  {
    var c2 := ParseCounters(ParseIds(c).3).2;
    Utf8.LossyIsValid(PopBlob(c2).0);
    Utf8.LossyIsValid(PopBlob(PopText(c2).1).0);
  }

  // ----- list responses

  function JobsImage(js: seq<Job>): Bytes
    requires forall i | 0 <= i < |js| :: js[i].WellFormed()
  {
    if js == [] then [] else JobImage(js[0]) + JobsImage(js[1..])
  }

  function ParseJobs(c: Cursor, n: nat): (r: (seq<Job>, Cursor))
    requires c.Valid()
    ensures |r.0| == n && r.1.Valid() && r.1.data == c.data
    decreases n
  {
    if n == 0 then ([], c)
    else
      var (j, d) := ParseJob(c);
      var (js, e) := ParseJobs(d, n - 1);
      ([j] + js, e)
  }

  /** The announced count, clamped to the bytes that are left. */
  function PopCount(c: Cursor): (r: (nat, Cursor))
    requires c.Valid()
    ensures r.1.Valid() && r.1.data == c.data && r.0 <= |r.1.Remaining()|
  {
    var (n, d) := PopUnsigned(c, 4);
    (if n < |d.Remaining()| then n else |d.Remaining()|, d)
  }

  /** The clamp takes the smaller of what is announced and what is left, on any bytes. */
  lemma PopCountExactly(c: Cursor)
    requires c.Valid()
    ensures var r := c.Remaining();
            if |r| < 4 then PopCount(c) == (0, c)
            else PopCount(c).1 == Advance(c, 4)
                 && PopCount(c).0 == if Weighted(r, 4) <= |r| - 4 then Weighted(r, 4) else |r| - 4
  {
    PopUnsignedExactly(c, 4);
  }

  function DecodeJobs(c: Cursor): (js: seq<Job>)
    requires c.Valid()
  {
    var (n, d) := PopCount(c);
    ParseJobs(d, n).0
  }

  function NormaliseAll(js: seq<Job>): (r: seq<Job>)
    ensures |r| == |js|
  {
    if js == [] then [] else [Normalise(js[0])] + NormaliseAll(js[1..])
  }

  lemma {:induction false} JobsRoundTrip(c: Cursor, js: seq<Job>)
    requires forall i | 0 <= i < |js| :: js[i].WellFormed()
    requires At(c, JobsImage(js))
    ensures ParseJobs(c, |js|) == (NormaliseAll(js), Advance(c, |JobsImage(js)|))
    ensures |JobsImage(js)| >= |js|
    decreases |js|
  {
    hide ParseJob, JobImage, Normalise;
    if js != [] {
      var (head, tail) := (JobImage(js[0]), JobsImage(js[1..]));
      AtSplit(c, head, tail);
      JobRoundTrip(c, js[0]);
      JobsRoundTrip(Advance(c, |head|), js[1..]);
      JobImageNonEmpty(js[0]);
    }
  }

  lemma JobImageNonEmpty(j: Job)
    requires j.WellFormed()
    ensures |JobImage(j)| >= 1
  {
    assert |FlagsImage(j)| == 3;
  }

  /** The count clamp never bites on a well-formed list: all `k` records come back, in order. */
  lemma ListRoundTrip(c: Cursor, js: seq<Job>)
    requires forall i | 0 <= i < |js| :: js[i].WellFormed()
    requires |js| <= U32_MAX && At(c, U32(|js|) + JobsImage(js))
    ensures DecodeJobs(c) == NormaliseAll(js)
  {
    hide ParseJob, JobImage, Normalise;
    AtSplit(c, U32(|js|), JobsImage(js));
    SpanValues();
    PopUnsignedEncoded(c, |js|, 4);
    JobsRoundTrip(Advance(c, 4), js);
  }

  // ----- the request envelope: the request id goes between the header and the payload

  lemma EnvelopeRoundTrip(source: Bytes, id: u32, payload: Bytes, requestId: u32)
    requires IsSource(source)
    ensures var data := Header(source, id) + (U32(requestId) + payload);
            var p := Parse(data);
            p.source == source && p.id == id
            && PopUnsigned(p.payload, 4).0 == requestId
            && PopUnsigned(p.payload, 4).1.data == data
            && PopUnsigned(p.payload, 4).1.index == |data| - |payload|
            && PopUnsigned(p.payload, 4).1.Remaining() == payload
  {
    var body := U32(requestId) + payload;
    var data := Header(source, id) + body;
    ParseMessage(source, id, body);
    var c := Parse(data).payload;
    SpanValues();
    assert At(c, ToLE(requestId, 4));
    PopUnsignedEncoded(c, requestId, 4);
    assert Advance(c, 4).Remaining() == body[4..] == payload;
  }

  const DATABASE: Bytes := [0x64, 0x61, 0x74, 0x61, 0x62, 0x61, 0x73, 0x65]

  lemma DatabaseIsSource()
    ensures IsSource(DATABASE)
  {
    hide Utf8.Valid;
    Utf8.AsciiIsValid(DATABASE);
  }

  /** A saved job, wrapped for sending, is received as the same request carrying the normal form of the job. */
  lemma SavedJobRoundTrip(source: Bytes, id: u32, j: Job, requestId: u32)
    requires IsSource(source) && j.WellFormed()
    ensures var data := Header(source, id) + (U32(requestId) + JobImage(j));
            var p := Parse(data);
            var (r, body) := PopUnsigned(p.payload, 4);
            p.source == source && p.id == id && r == requestId && body.Valid()
            && ParseJob(body) == (Normalise(j), Cursor(data, |data|))
  {
    hide ParseJob, JobImage, Normalise;
    EnvelopeRoundTrip(source, id, JobImage(j), requestId);
    var data := Header(source, id) + (U32(requestId) + JobImage(j));
    var body := PopUnsigned(Parse(data).payload, 4).1;
    JobRoundTrip(body, j);
    assert Advance(body, |JobImage(j)|) == Cursor(data, |data|);
  }

  // ----- the code that pushes and pops

  method WrapRequest(m: Message, requestId: u32) returns (wrapped: Message)
    requires m.Valid() && IsSource(m.source)
    ensures fresh(wrapped) && wrapped.Valid() && wrapped.id == m.id && wrapped.priority == m.priority
    ensures wrapped.data == Header(m.source, m.id) + (U32(requestId) + Parse(m.data).payload.Remaining())
  {
    wrapped := new Message.New(m.id, m.priority, m.source);
    SpanValues();
    wrapped.PushUnsigned(requestId, 4);
    var payload := m.ClonePayloadBytes();
    wrapped.AppendRawBytes(payload);
  }

  method EncodeSaveJob(j: Job) returns (m: Message)
    requires j.WellFormed()
    ensures fresh(m) && m.Valid()
    ensures IsSource(DATABASE) && m.source == DATABASE && m.id == DB_JOB_SAVE && m.priority == Medium
    ensures m.data == Header(DATABASE, DB_JOB_SAVE) + JobImage(j)
  {
    hide Utf8.Valid, Header, Encode, Parse, IdsImage, CountersImage, TextsImage, FlagsImage;
    DatabaseIsSource();
    m := new Message.New(DB_JOB_SAVE, Medium, DATABASE);
    PushIds(m, j);
    PushCounters(m, j);
    PushTexts(m, j);
    PushFlags(m, j);
  }

  /** A save request from the job to what the other side reads off the wire, and the bytes it has left. */
  method ExchangeSaveJob(j: Job, requestId: u32) returns (source: Bytes, id: u32, request: u32, saved: Job, left: nat)
    requires j.WellFormed()
    ensures source == DATABASE && id == DB_JOB_SAVE && request == requestId && saved == Normalise(j) && left == 0
  {
    hide Utf8.Valid, Header, Encode, Parse, JobImage, ParseJob, Normalise, U32;
    var m := EncodeSaveJob(j);
    ParseMessage(DATABASE, DB_JOB_SAVE, JobImage(j));
    var wrapped := WrapRequest(m, requestId);
    SavedJobRoundTrip(DATABASE, DB_JOB_SAVE, j, requestId);
    var received := new Message.FromData(wrapped.data);
    source, id := received.source, received.id;
    var n := received.PopUnsigned(4);
    assert n <= U32_MAX by { SpanValues(); }
    request := n;
    saved := PopJob(received);
    left := received.RemainingLen();
  }

  method PushIds(m: Message, j: Job)
    requires m.Valid()
    modifies m`data
    ensures m.Valid() && m.data == old(m.data) + IdsImage(j)
  {
    SpanValues();
    hide Encode;
    m.PushUnsigned(IdToWire(j.id), 8);
    m.PushUnsigned(IdToWire(OrZero(j.jobId)), 8);
    m.PushUnsigned(IdToWire(OrZero(j.schedulerId)), 8);
  }

  method PushCounters(m: Message, j: Job)
    requires m.Valid()
    modifies m`data
    ensures m.Valid() && m.data == old(m.data) + CountersImage(j)
  {
    SpanValues();
    hide Encode;
    m.PushBool(j.submitting);
    m.PushUnsigned(StateToU32(j.submittingCount), 4);
  }

  method PushTexts(m: Message, j: Job)
    requires m.Valid() && j.WellFormed()
    modifies m`data
    ensures m.Valid() && m.data == old(m.data) + TextsImage(j)
  {
    hide EncodeBlob;
    m.PushString(j.bundleHash);
    m.PushString(j.workingDirectory);
  }

  method PushFlags(m: Message, j: Job)
    requires m.Valid()
    modifies m`data
    ensures m.Valid() && m.data == old(m.data) + FlagsImage(j)
  {
    hide Encode;
    m.PushBool(j.running);
    m.PushBool(j.deleting);
    m.PushBool(j.deleted);
  }

  method PushStatus(m: Message, s: Status)
    requires m.Valid() && IsSource(s.what)
    modifies m`data
    ensures m.Valid() && m.data == old(m.data) + StatusImage(s)
  {
    hide EncodeBlob, Utf8.Valid, ToLE;
    SpanValues();
    m.PushUnsigned(IdToWire(s.id), 8);
    m.PushUnsigned(IdToWire(s.jobId), 8);
    m.PushString(s.what);
    m.PushUnsigned(StateToU32(s.state), 4);
  }

  method PopStatus(m: Message) returns (s: Status)
    requires m.Valid()
    modifies m`index
    ensures m.Valid() && (s, m.Reader()) == old(ParseStatus(m.Reader()))
  {
    SpanValues();
    var id := m.PopUnsigned(8);
    var jobId := m.PopUnsigned(8);
    var what := m.PopString();
    var state := m.PopUnsigned(4);
    s := Status(IdFromWire(id), IdFromWire(jobId), what, StateToI32(state));
  }

  method PopIds(m: Message) returns (id: i64, jobId: i64, schedulerId: i64)
    requires m.Valid()
    modifies m`index
    ensures m.Valid() && (id, jobId, schedulerId, m.Reader()) == old(ParseIds(m.Reader()))
  {
    SpanValues();
    var a := m.PopUnsigned(8);
    var b := m.PopUnsigned(8);
    var c := m.PopUnsigned(8);
    return IdFromWire(a), IdFromWire(b), IdFromWire(c);
  }

  method PopJob(m: Message) returns (j: Job)
    requires m.Valid()
    modifies m`index
    ensures m.Valid() && (j, m.Reader()) == old(ParseJob(m.Reader()))
  {
    var id, jobId, schedulerId := PopIds(m);
    label afterIds:
    var submitting := m.PopBool();
    SpanValues();
    var count := m.PopUnsigned(4);
    assert (submitting, StateToI32(count), m.Reader()) == old@afterIds(ParseCounters(m.Reader()));
    label afterCounters:
    var hash := m.PopString();
    var dir := m.PopString();
    assert (hash, dir, m.Reader()) == old@afterCounters(ParseTexts(m.Reader()));
    label afterTexts:
    var running := m.PopBool();
    var deleting := m.PopBool();
    var deleted := m.PopBool();
    assert (running, deleting, deleted, m.Reader()) == old@afterTexts(ParseFlags(m.Reader()));
    j := Job(id, NonZero(jobId), NonZero(schedulerId),
             submitting, StateToI32(count), hash, dir, running, deleting, deleted);
  }

  /** The loop of get_running_jobs over a delivered response. */
  method ReadJobs(raw: Message) returns (jobs: seq<Job>)
    requires raw.Valid()
    ensures jobs == DecodeJobs(if raw.index == 0 then Parse(raw.data).payload else raw.Reader())
  {
    hide ParseJob, Parse;
    var resp := raw.CloneForPayloadReading();
    ghost var start := resp.Reader();
    var announced := resp.PopUnsigned(4);
    ghost var body := resp.Reader();
    var count := if announced < resp.RemainingLen() then announced else resp.RemainingLen();
    assert PopCount(start) == (count, body);
    jobs := [];
    for i := 0 to count
      invariant resp.Valid() && |jobs| == i
      invariant ParseJobs(body, count).0 == jobs + ParseJobs(resp.Reader(), count - i).0
    {
      var j := PopJob(resp);
      jobs := jobs + [j];
    }
  }
}
