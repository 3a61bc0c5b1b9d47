/**
 Claiming and finishing a submission of one job. The block under SUBMIT_MUTEX is one step; what the submitter does
 afterwards (save the working directory, run the bundle, record the result) interleaves with further submits and with
 the status checks that submits and the periodic poll spawn, each of which works on its own copy of the row.
 Database operations succeed; a submitter that stops for any reason is abandoned.
 */
module Submit {
  import opened Wire
  import opened Records

  const MAX_SUBMIT_COUNT: nat := 60

  const DEFAULT_JOB: Job := Job(0, None, None, false, 0, [], [], false, false, false)

  function Increment(count: i32): i32 {
    if count == I32_MAX then count else count + 1
  }

  /** The stored row of the job, and the id the next new row gets. */
  datatype Store = Store(row: Option<Job>, nextId: i64)

  function FollowingId(id: i64): i64 {
    if id == I64_MAX then id else id + 1
  }

  /** Saving a record without an id creates the row, otherwise it overwrites it. */
  function Save(db: Store, j: Job): (r: (Store, Job)) {
    if j.id == 0
    then (Store(Some(j.(id := db.nextId)), FollowingId(db.nextId)), j.(id := db.nextId))
    else (db.(row := Some(j)), j)
  }

  /** What a submit does after the mutex block: nothing, a status check of the settled job, or the submission. */
  datatype Decision = Counted | CheckStatus(job: Job) | Proceed(job: Job)

  /** The mutex block: what is stored, and how this submit goes on. */
  function Claim(db: Store, jobId: i64, hash: Bytes): (Store, Decision) {
    var found := match db.row case None => DEFAULT_JOB case Some(j) => j;
    var count := Increment(found.submittingCount);
    if found.submitting && count < MAX_SUBMIT_COUNT then
      (Save(db, found.(submittingCount := count)).0, Counted)
    else
      var job := if found.submitting then found.(submittingCount := 0, jobId := Some(0)) else found;
      if jobId != 0 && job.jobId == Some(jobId) then (db, CheckStatus(job))
      else
        var (db', saved) := Save(db, job.(jobId := Some(jobId), bundleHash := hash, submitting := true, workingDirectory := []));
        (db', Proceed(saved))
  }

  /** cap_scheduler_id */
  function CapSchedulerId(n: u64): i64 {
    IdFromWire(n)
  }

  /** What the submitter records when the bundle returns: scheduler id 0 means the submission failed. */
  function Finish(db: Store, copy: Job, schedulerId: u64): (Store, Job) {
    var job := copy.(schedulerId := Some(CapSchedulerId(schedulerId)));
    if schedulerId == 0 then (db.(row := None), job)
    else Save(db, job.(submitting := false, running := true))
  }

  // ----- one job, any number of submits

  datatype Stage = Claimed | Bundling | Ended | Abandoned

  /** `copy` is the submitter's own record of the job; `duplicates` counts the submits that arrived since its claim. */
  datatype Submission = Submission(stage: Stage, copy: Job, duplicates: nat)

  /** `checks` holds the copies of the status checks under way. */
  datatype State = State(db: Store, subs: seq<Submission>, checks: seq<Job>)

  datatype Event =
    | SubmitJob(hash: Bytes)
    | SaveDirectory(i: nat, dir: Bytes)
    | BundleReturns(i: nat, schedulerId: u64)
    | Abandon(i: nat)
    | Poll                             // check_all_jobs_status finds the job running
    | CheckEnds(k: nat, over: bool)    // the job turns out to be over, or not

  predicate InFlight(s: Submission) {
    s.stage.Claimed? || s.stage.Bundling?
  }

  predicate Enabled(st: State, e: Event) {
    match e
    case SubmitJob(_) => true
    case SaveDirectory(i, _) => i < |st.subs| && st.subs[i].stage.Claimed?
    case BundleReturns(i, _) => i < |st.subs| && st.subs[i].stage.Bundling?
    case Abandon(i) => i < |st.subs| && InFlight(st.subs[i])
    case Poll => st.db.row.Some? && st.db.row.value.running
    case CheckEnds(k, _) => k < |st.checks|
  }

  function Notice(subs: seq<Submission>): (r: seq<Submission>)
    ensures |r| == |subs|
  {
    seq(|subs|, i requires 0 <= i < |subs| => subs[i].(duplicates := subs[i].duplicates + 1))
  }

  function Step(jobId: i64, st: State, e: Event): State
    requires Enabled(st, e)
  {
    match e
    case SubmitJob(hash) =>
      var (db, decision) := Claim(st.db, jobId, hash);
      State(db,
            Notice(st.subs) + (if decision.Proceed? then [Submission(Claimed, decision.job, 0)] else []),
            st.checks + (if decision.CheckStatus? then [decision.job] else []))
    case SaveDirectory(i, dir) =>
      var (db, saved) := Save(st.db, st.subs[i].copy.(workingDirectory := dir));
      st.(db := db, subs := st.subs[i := st.subs[i].(stage := Bundling, copy := saved)])
    case BundleReturns(i, schedulerId) =>
      var (db, saved) := Finish(st.db, st.subs[i].copy, schedulerId);
      st.(db := db, subs := st.subs[i := st.subs[i].(stage := Ended, copy := saved)])
    case Abandon(i) => st.(subs := st.subs[i := st.subs[i].(stage := Abandoned)])
    case Poll => st.(checks := st.checks + [st.db.row.value])
    case CheckEnds(k, over) =>
      st.(db := if over then Save(st.db, st.checks[k].(running := false)).0 else st.db,
          checks := st.checks[..k] + st.checks[k + 1..])
  }

  ghost predicate Run(jobId: i64, st: State, es: seq<Event>)
    decreases |es|
  {
    es == [] || (Enabled(st, es[0]) && Run(jobId, Step(jobId, st, es[0]), es[1..]))
  }

  ghost function After(jobId: i64, st: State, es: seq<Event>): State
    requires Run(jobId, st, es)
    decreases |es|
  {
    if es == [] then st else After(jobId, Step(jobId, st, es[0]), es[1..])
  }

  const EMPTY: Store := Store(None, 1)

  /** A client that starts on what is stored. */
  function Started(db: Store): State {
    State(db, [], [])
  }

  /** The stored row of the job as this client leaves it, if it is stored at all. */
  ghost predicate Stored(jobId: i64, db: Store) {
    db.nextId > 0
    && (db.row.Some? ==>
          var j := db.row.value;
          j.jobId == Some(jobId) && j.id != 0 && j.submittingCount >= 0 && !(j.submitting && j.running))
  }

  /** Fewer than 60 submits have arrived during any submission still in flight. */
  ghost predicate Calm(st: State) {
    forall i | 0 <= i < |st.subs| && InFlight(st.subs[i]) :: st.subs[i].duplicates < MAX_SUBMIT_COUNT
  }

  ghost predicate CalmRun(jobId: i64, st: State, es: seq<Event>)
    requires Run(jobId, st, es)
    decreases |es|
  {
    Calm(st) && (es != [] ==> CalmRun(jobId, Step(jobId, st, es[0]), es[1..]))
  }

  ghost predicate SingleFlight(st: State) {
    forall i, k | 0 <= i < k < |st.subs| :: !(InFlight(st.subs[i]) && InFlight(st.subs[k]))
  }

  /** The copy of a status check differs from a settled row in `running` only. */
  predicate Agrees(copy: Job, db: Store) {
    db.row.Some? && !db.row.value.submitting && copy.(running := db.row.value.running) == db.row.value
  }

  /** While a submission is in flight the row says so, and its counter lags behind the duplicates seen. */
  ghost predicate Inv(jobId: i64, st: State) {
    SingleFlight(st) && Stored(jobId, st.db)
    && (forall i | 0 <= i < |st.subs| && InFlight(st.subs[i]) ::
          st.db.row.Some? && st.db.row.value.submitting
          && st.db.row.value.submittingCount <= st.subs[i].duplicates
          && st.subs[i].copy.submitting && !st.subs[i].copy.running && st.subs[i].copy.id != 0
          && st.subs[i].copy.submittingCount == 0 && st.subs[i].copy.jobId == Some(jobId))
    && forall k | 0 <= k < |st.checks| :: Agrees(st.checks[k], st.db)
  }

  lemma InvStep(jobId: i64, st: State, e: Event)
    requires jobId != 0 && Inv(jobId, st) && Enabled(st, e) && Calm(Step(jobId, st, e))
    ensures Inv(jobId, Step(jobId, st, e))
  {
    if e.SubmitJob? {
      SubmitStep(jobId, st, e.hash);
    }
  }

  lemma SubmitStep(jobId: i64, st: State, hash: Bytes)
    requires jobId != 0 && Inv(jobId, st) && Calm(Step(jobId, st, SubmitJob(hash)))
    ensures Inv(jobId, Step(jobId, st, SubmitJob(hash)))
  {
    var t := Step(jobId, st, SubmitJob(hash));
    forall i | 0 <= i < |st.subs| && InFlight(st.subs[i])
      ensures |t.subs| == |st.subs|
    {
      assert InFlight(t.subs[i]) && t.subs[i].duplicates == st.subs[i].duplicates + 1;
    }
  }

  lemma {:induction false} InvRun(jobId: i64, st: State, es: seq<Event>)
    requires jobId != 0 && Inv(jobId, st) && Run(jobId, st, es) && CalmRun(jobId, st, es)
    ensures Inv(jobId, After(jobId, st, es))
    decreases |es|
  {
    hide Inv, Step, Enabled, Calm;
    if es != [] {
      InvStep(jobId, st, es[0]);
      InvRun(jobId, Step(jobId, st, es[0]), es[1..]);
    }
  }

  /**
   For a nonzero job id, two submissions are never in flight together if each sees fewer than 60 duplicates, whatever
   is stored when the client starts; and what it leaves stored is again such a start.
   */
  lemma NeverTwoInFlight(jobId: i64, db: Store, es: seq<Event>)
    requires jobId != 0 && Stored(jobId, db) && Run(jobId, Started(db), es) && CalmRun(jobId, Started(db), es)
    ensures SingleFlight(After(jobId, Started(db), es)) && Stored(jobId, After(jobId, Started(db), es).db)
  {
    InvRun(jobId, Started(db), es);
  }

  function Submits(hashes: seq<Bytes>): (es: seq<Event>)
    ensures |es| == |hashes|
  {
    seq(|hashes|, i requires 0 <= i < |hashes| => SubmitJob(hashes[i]))
  }

  /** The row of a job whose submission is taken over: all else stays. */
  function TakenOver(j: Job, jobId: i64, hash: Bytes): Job {
    j.(submittingCount := 0, jobId := Some(jobId), submitting := true, bundleHash := hash, workingDirectory := [])
  }

  /** One more submit of a job that is being submitted. */
  lemma OneMoreSubmit(jobId: i64, st: State, hash: Bytes)
    requires jobId != 0 && st.db.row.Some? && st.db.row.value.submitting && st.db.row.value.id != 0
    requires 0 <= st.db.row.value.submittingCount < MAX_SUBMIT_COUNT
    ensures var t := Step(jobId, st, SubmitJob(hash));
            var row := st.db.row.value;
            t.checks == st.checks && |t.subs| >= |st.subs|
            && (forall i | 0 <= i < |st.subs| :: t.subs[i].stage == st.subs[i].stage)
            && if row.submittingCount + 1 < MAX_SUBMIT_COUNT then
                 |t.subs| == |st.subs| && t.db.row == Some(row.(submittingCount := row.submittingCount + 1))
               else
                 |t.subs| == |st.subs| + 1 && t.subs[|st.subs|].stage == Claimed
                 && t.db.row == Some(t.subs[|st.subs|].copy) && t.subs[|st.subs|].copy == TakenOver(row, jobId, hash)
  {
  }

  /**
   With a row marked as submitting whose counter stands at `c`, nothing is claimed by the next submits until exactly
   the one that brings the counter to 60, and that one claims again, for its own bundle; so after a claim (counter 0)
   it is the 60th.
   */
  lemma {:induction false} ReclaimedExactlyAtSixty(jobId: i64, st: State, hashes: seq<Bytes>)
    requires jobId != 0 && st.db.row.Some? && st.db.row.value.submitting && st.db.row.value.id != 0
    requires 0 <= st.db.row.value.submittingCount < MAX_SUBMIT_COUNT
    requires st.db.row.value.submittingCount + |hashes| <= MAX_SUBMIT_COUNT
    ensures Run(jobId, st, Submits(hashes))
    ensures var t := After(jobId, st, Submits(hashes));
            var c := st.db.row.value.submittingCount;
            (forall i | 0 <= i < |st.subs| :: i < |t.subs| && t.subs[i].stage == st.subs[i].stage)
            && t.checks == st.checks
            && if c + |hashes| < MAX_SUBMIT_COUNT then
                 |t.subs| == |st.subs| && t.db.row == Some(st.db.row.value.(submittingCount := c + |hashes|))
               else
                 |t.subs| == |st.subs| + 1 && t.subs[|st.subs|].stage == Claimed
                 && t.db.row == Some(t.subs[|st.subs|].copy)
                 && t.subs[|st.subs|].copy == TakenOver(st.db.row.value, jobId, hashes[|hashes| - 1])
    decreases |hashes|
  {
    hide Step;
    if hashes != [] {
      var t := Step(jobId, st, SubmitJob(hashes[0]));
      OneMoreSubmit(jobId, st, hashes[0]);
      assert Submits(hashes)[1..] == Submits(hashes[1..]);
      if st.db.row.value.submittingCount + 1 < MAX_SUBMIT_COUNT {
        ReclaimedExactlyAtSixty(jobId, t, hashes[1..]);
      } else {
        assert hashes[1..] == [];
      }
    }
  }

  /** The bound is sharp for any bundles: the first submit and 60 duplicates put two submissions in flight. */
  lemma SixtyDuplicatesClaimTwice(jobId: i64, hash: Bytes, hashes: seq<Bytes>)
    requires jobId != 0 && |hashes| == MAX_SUBMIT_COUNT
    ensures Run(jobId, Started(EMPTY), [SubmitJob(hash)] + Submits(hashes))
    ensures !SingleFlight(After(jobId, Started(EMPTY), [SubmitJob(hash)] + Submits(hashes)))
  {
    var first := Step(jobId, Started(EMPTY), SubmitJob(hash));
    assert first.subs[0].stage == Claimed && |first.subs| == 1;
    ReclaimedExactlyAtSixty(jobId, first, hashes);
    assert ([SubmitJob(hash)] + Submits(hashes))[1..] == Submits(hashes);
    var t := After(jobId, first, Submits(hashes));
    assert InFlight(t.subs[0]) && InFlight(t.subs[1]);
  }

  /** The mutex block of handle_job_submit as written, on the job record and the stored row. */
  class Handler {
    var db: Store

    method SaveJob(j: Job) returns (saved: Job)
      modifies this
      ensures (db, saved) == Save(old(db), j)
    {
      saved := j;
      if j.id == 0 {
        saved := j.(id := db.nextId);
        db := db.(nextId := FollowingId(db.nextId));
      }
      db := db.(row := Some(saved));
    }

    method ClaimSubmission(jobId: i64, hash: Bytes) returns (decision: Decision)
      modifies this
      ensures (db, decision) == Claim(old(db), jobId, hash)
    {
      var job := if db.row.Some? then db.row.value else DEFAULT_JOB;
      if job.submitting {
        job := job.(submittingCount := Increment(job.submittingCount));
        if job.submittingCount >= MAX_SUBMIT_COUNT {
          job := job.(submittingCount := 0);
          job := job.(jobId := Some(0));
        } else {
          var _ := SaveJob(job);
          return Counted;
        }
      }
      if jobId != 0 && job.jobId == Some(jobId) {
        return CheckStatus(job);
      }
      job := job.(jobId := Some(jobId));
      job := job.(bundleHash := hash);
      job := job.(submitting := true);
      job := job.(workingDirectory := []);
      job := SaveJob(job);
      decision := Proceed(job);
    }

    method FinishSubmission(copy: Job, schedulerId: u64) returns (job: Job)
      modifies this
      ensures (db, job) == Finish(old(db), copy, schedulerId)
    {
      job := copy.(schedulerId := Some(CapSchedulerId(schedulerId)));
      if schedulerId == 0 {
        db := db.(row := None);
      } else {
        job := job.(submitting := false);
        job := job.(running := true);
        job := SaveJob(job);
      }
    }

    /** The end of check_job_status for a job that is over. */
    method SaveOver(copy: Job)
      modifies this
      ensures db == Save(old(db), copy.(running := false)).0
    {
      var job := copy;
      job := job.(running := false);
      var _ := SaveJob(job);
    }
  }
}
