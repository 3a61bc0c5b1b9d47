/** What becomes of a submission once its bundle has returned, and of a settled job under submits, polls and checks. */
module Settlement {
  import opened Wire
  import opened Records
  import opened Submit

  /** The job is submitted and nothing is in flight; status checks may be under way. */
  ghost predicate Settled(jobId: i64, st: State) {
    st.db.row.Some? && !st.db.row.value.submitting && st.db.row.value.jobId == Some(jobId) && st.db.row.value.id != 0
    && (forall i | 0 <= i < |st.subs| :: !InFlight(st.subs[i]))
    && forall k | 0 <= k < |st.checks| :: Agrees(st.checks[k], st.db)
  }

  /** Some status check found that the job is over. */
  ghost predicate FoundOver(es: seq<Event>) {
    exists i | 0 <= i < |es| :: es[i].CheckEnds? && es[i].over
  }

  /** The row of a settled job: as it was, and no longer running once it is known to be over. */
  function Ran(j: Job, over: bool): Job {
    j.(running := j.running && !over)
  }

  lemma SettledStep(jobId: i64, st: State, e: Event)
    requires jobId != 0 && Settled(jobId, st) && Enabled(st, e)
    ensures var t := Step(jobId, st, e);
            Settled(jobId, t) && |t.subs| == |st.subs| && t.db.nextId == st.db.nextId
            && t.db.row == Some(Ran(st.db.row.value, e.CheckEnds? && e.over))
            && (e.SubmitJob? || e.Poll? ==> t.checks == st.checks + [st.db.row.value])
            && (e.CheckEnds? ==> |t.checks| == |st.checks| - 1)
  {
    if e.CheckEnds? {
      assert Agrees(st.checks[e.k], st.db);
    }
  }

  /**
   No further submit, poll or status check claims a settled job or changes anything of its row but `running`, which
   stays exactly until a check finds the job over and is never set again.
   */
  lemma {:induction false} SettledJobIsNeverClaimed(jobId: i64, st: State, es: seq<Event>)
    requires jobId != 0 && Settled(jobId, st) && Run(jobId, st, es)
    ensures var t := After(jobId, st, es);
            Settled(jobId, t) && |t.subs| == |st.subs| && t.db.nextId == st.db.nextId
            && t.db.row == Some(Ran(st.db.row.value, FoundOver(es)))
    decreases |es|
  {
    hide Agrees, Step, Enabled;
    if es != [] {
      SettledStep(jobId, st, es[0]);
      SettledJobIsNeverClaimed(jobId, Step(jobId, st, es[0]), es[1..]);
      assert FoundOver(es) <==> (es[0].CheckEnds? && es[0].over) || FoundOver(es[1..]) by {
        FoundOverCons(es);
      }
    }
  }

  lemma FoundOverCons(es: seq<Event>)
    requires es != []
    ensures FoundOver(es) <==> (es[0].CheckEnds? && es[0].over) || FoundOver(es[1..])
  {
    if FoundOver(es[1..]) {
      var i :| 0 <= i < |es[1..]| && es[1..][i].CheckEnds? && es[1..][i].over;
      assert es[i + 1].CheckEnds? && es[i + 1].over;
    }
    if FoundOver(es) && !(es[0].CheckEnds? && es[0].over) {
      var i :| 0 <= i < |es| && es[i].CheckEnds? && es[i].over;
      assert es[1..][i - 1].CheckEnds? && es[1..][i - 1].over;
    }
  }

  /** The first submit of a job creates its row, for its own bundle. */
  lemma FirstSubmitClaims(jobId: i64, nextId: i64, hash: Bytes)
    requires jobId != 0 && nextId > 0
    ensures var r := Claim(Store(None, nextId), jobId, hash);
            r.1 == Proceed(Job(nextId, Some(jobId), None, true, 0, hash, [], false, false, false))
            && r.0.row == Some(r.1.job) && r.0.nextId >= nextId
  {
  }

  /** The bundle of a submission is that of a submit, and its directory the one that was saved for it. */
  lemma {:induction false} CopiesComeFromSubmits(jobId: i64, st: State, es: seq<Event>, i: nat)
    requires Run(jobId, st, es) && i < |After(jobId, st, es).subs|
    ensures var s := After(jobId, st, es).subs[i];
            ((i < |st.subs| && s.copy.bundleHash == st.subs[i].copy.bundleHash) || SubmitJob(s.copy.bundleHash) in es)
            && (s.stage.Bundling? ==>
                  (i < |st.subs| && st.subs[i].stage.Bundling? && s.copy.workingDirectory == st.subs[i].copy.workingDirectory)
                  || SaveDirectory(i, s.copy.workingDirectory) in es)
    decreases |es|
  {
    if es != [] {
      CopiesComeFromSubmits(jobId, Step(jobId, st, es[0]), es[1..], i);
    }
  }

  /**
   When the bundle of a submission returns: with a scheduler id the job is settled under it, runs until a status check
   finds it over, is never claimed again, and keeps the bundle and the directory it was submitted with; without one the
   job is gone and the next submit claims it afresh.
   */
  lemma BundleDecides(jobId: i64, db: Store, es: seq<Event>, i: nat, schedulerId: u64, fs: seq<Event>, hash: Bytes)
    requires jobId != 0 && Stored(jobId, db) && Run(jobId, Started(db), es) && CalmRun(jobId, Started(db), es)
    requires Enabled(After(jobId, Started(db), es), BundleReturns(i, schedulerId))
    requires Run(jobId, Step(jobId, After(jobId, Started(db), es), BundleReturns(i, schedulerId)), fs)
    ensures var t := Step(jobId, After(jobId, Started(db), es), BundleReturns(i, schedulerId));
            if schedulerId != 0 then
              var u := After(jobId, t, fs);
              u.db.row.Some? && u.db.row.value.running == !FoundOver(fs) && !u.db.row.value.submitting
              && u.db.row.value.schedulerId == Some(if schedulerId <= I64_MAX then schedulerId else I64_MAX)
              && u.db.row.value.jobId == Some(jobId) && |u.subs| == |t.subs|
              && SubmitJob(u.db.row.value.bundleHash) in es
              && SaveDirectory(i, u.db.row.value.workingDirectory) in es
            else
              t.db.row.None? &&
              var d := Claim(t.db, jobId, hash).1;
              d.Proceed? && d.job.schedulerId.None?
  {
    InvRun(jobId, Started(db), es);
    CopiesComeFromSubmits(jobId, Started(db), es, i);
    var t := Step(jobId, After(jobId, Started(db), es), BundleReturns(i, schedulerId));
    if schedulerId != 0 {
      assert Settled(jobId, t);
      SettledJobIsNeverClaimed(jobId, t, fs);
    }
  }
}
