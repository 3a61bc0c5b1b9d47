/** Reconciling the stored statuses of a job with what its bundle reports, and deciding whether the job is over. */
module StatusSync {
  import opened Wire
  import opened Records

  const ERROR: u32 := 400
  const COMPLETED: u32 := 500

  // ----- the report

  datatype JsonStatus = Null | Number(n: u64) | NotANumber

  datatype Entry = Entry(what: Bytes, json: JsonStatus)

  datatype Update = Update(what: Bytes, status: u32)

  /** capped_status_from_json */
  function Capped(j: JsonStatus): u32 {
    match j
    case Number(n) => if n > U32_MAX then U32_MAX else n
    case _ => 0
  }

  // ----- the table

  datatype Table = Table(rows: seq<Status>, nextId: i64)

  ghost predicate UniqueIds(rows: seq<Status>) {
    forall i, k | 0 <= i < k < |rows| :: rows[i].id != rows[k].id
  }

  ghost predicate TableOk(t: Table) {
    UniqueIds(t.rows) && 0 < t.nextId && forall i | 0 <= i < |t.rows| :: 0 < t.rows[i].id < t.nextId
  }

  predicate IsFor(r: Status, job: i64, what: Bytes) {
    r.jobId == job && r.what == what
  }

  function Matching(rows: seq<Status>, job: i64, what: Bytes): seq<Status> {
    if rows == [] then []
    else Matching(rows[..|rows| - 1], job, what)
         + if IsFor(rows[|rows| - 1], job, what) then [rows[|rows| - 1]] else []
  }

  function Without(rows: seq<Status>, ids: seq<i64>): seq<Status> {
    if rows == [] then []
    else Without(rows[..|rows| - 1], ids) + if rows[|rows| - 1].id in ids then [] else [rows[|rows| - 1]]
  }

  function Ids(rows: seq<Status>): (ids: seq<i64>)
    ensures |ids| == |rows|
    ensures forall i | 0 <= i < |rows| :: ids[i] == rows[i].id
  {
    seq(|rows|, i requires 0 <= i < |rows| => rows[i].id)
  }

  /** delete_status_by_id_list sends at most u32::MAX ids. */
  function Delete(t: Table, ids: seq<i64>): Table {
    t.(rows := Without(t.rows, ids[..CapCount(|ids|)]))
  }

  function Replaced(rows: seq<Status>, s: Status): (r: seq<Status>)
    ensures |r| == |rows|
  {
    seq(|rows|, i requires 0 <= i < |rows| => if rows[i].id == s.id then s else rows[i])
  }

  function Save(t: Table, s: Status): Table {
    if s.id == 0
    then Table(t.rows + [s.(id := t.nextId)], if t.nextId == I64_MAX then I64_MAX else t.nextId + 1)
    else t.(rows := Replaced(t.rows, s))
  }

  // ----- one reported status

  function Deduplicated(t: Table, job: i64, what: Bytes): Table {
    var v := Matching(t.rows, job, what);
    if |v| > 1 then Delete(t, Ids(v)) else t
  }

  predicate NeedsUpdate(v: seq<Status>, status: u32, force: bool) {
    force || |v| != 1 || status != StateToU32(v[0].state)
  }

  function Reconcile(t: Table, job: i64, e: Entry, force: bool): (Table, seq<Update>) {
    if e.json.Null? then (t, [])
    else
      var status := Capped(e.json);
      var v := Matching(t.rows, job, e.what);
      var d := Deduplicated(t, job, e.what);
      if NeedsUpdate(v, status, force) then
        var item := if |v| == 1 then v[0] else Status(0, job, e.what, StateToI32(status));
        (Save(d, item.(what := e.what, state := StateToI32(status))), [Update(e.what, status)])
      else (d, [])
  }

  function Pass(t: Table, job: i64, report: seq<Entry>, force: bool): (Table, seq<Update>)
    decreases |report|
  {
    if report == [] then (t, [])
    else
      var (t1, u1) := Reconcile(t, job, report[0], force);
      var (t2, u2) := Pass(t1, job, report[1..], force);
      (t2, u1 + u2)
  }

  // ===== lookups after each table operation

  lemma {:induction false} MatchingBounded(rows: seq<Status>, job: i64, what: Bytes)
    ensures |Matching(rows, job, what)| <= |rows|
    ensures forall r | r in Matching(rows, job, what) :: r in rows && IsFor(r, job, what)
    ensures forall r | r in rows && IsFor(r, job, what) :: r in Matching(rows, job, what)
  {
    if rows != [] {
      MatchingBounded(rows[..|rows| - 1], job, what);
      assert rows == rows[..|rows| - 1] + [rows[|rows| - 1]];
    }
  }

  lemma MatchingSnoc(rows: seq<Status>, s: Status, job: i64, what: Bytes)
    ensures Matching(rows + [s], job, what) == Matching(rows, job, what) + if IsFor(s, job, what) then [s] else []
  {
    assert (rows + [s])[..|rows + [s]| - 1] == rows;
  }

  /** Removing ids that only rows of one status have leaves the other lookups alone and empties that one. */
  lemma {:induction false} MatchingWithout(rows: seq<Status>, ids: seq<i64>, job: i64, what: Bytes)
    requires forall r | r in rows && IsFor(r, job, what) :: r.id !in ids
    ensures Matching(Without(rows, ids), job, what) == Matching(rows, job, what)
  {
    if rows != [] {
      var init, last := rows[..|rows| - 1], rows[|rows| - 1];
      assert rows == init + [last];
      MatchingWithout(init, ids, job, what);
      if last.id !in ids {
        MatchingSnoc(Without(init, ids), last, job, what);
      } else {
        assert Without(rows, ids) == Without(init, ids);
      }
    }
  }

  lemma {:induction false} MatchingAllRemoved(rows: seq<Status>, ids: seq<i64>, job: i64, what: Bytes)
    requires forall r | r in rows && IsFor(r, job, what) :: r.id in ids
    ensures Matching(Without(rows, ids), job, what) == []
  {
    if rows != [] {
      var init, last := rows[..|rows| - 1], rows[|rows| - 1];
      assert rows == init + [last];
      MatchingAllRemoved(init, ids, job, what);
      if last.id !in ids {
        MatchingSnoc(Without(init, ids), last, job, what);
      } else {
        assert Without(rows, ids) == Without(init, ids);
      }
    }
  }

  lemma {:induction false} WithoutIsSubset(rows: seq<Status>, ids: seq<i64>)
    requires UniqueIds(rows)
    ensures UniqueIds(Without(rows, ids)) && |Without(rows, ids)| <= |rows|
    ensures forall r | r in Without(rows, ids) :: r in rows
  {
    if rows != [] {
      var init, last := rows[..|rows| - 1], rows[|rows| - 1];
      assert rows == init + [last];
      WithoutIsSubset(init, ids);
      forall r | r in Without(init, ids) ensures r.id != last.id {
        var i :| 0 <= i < |init| && init[i] == r;
      }
    }
  }

  /** Overwriting a row by one for the same status changes only that row in the lookups. */
  lemma {:induction false} MatchingReplaced(rows: seq<Status>, s: Status, job: i64, what: Bytes)
    requires forall r | r in rows && r.id == s.id :: r.jobId == s.jobId && r.what == s.what
    ensures Matching(Replaced(rows, s), job, what) == Replaced(Matching(rows, job, what), s)
  {
    if rows != [] {
      var init, last := rows[..|rows| - 1], rows[|rows| - 1];
      assert rows == init + [last];
      MatchingReplaced(init, s, job, what);
      assert Replaced(rows, s)[..|rows| - 1] == Replaced(init, s);
    }
  }

  // ===== one pass

  /** Neither row ids nor the wire's 32-bit count run out during `n` more saves. */
  ghost predicate Room(t: Table, n: nat) {
    |t.rows| + n <= U32_MAX && t.nextId + n <= I64_MAX
  }

  /** A row stands for a reported status: as it was saved, or because it already reads back as that status. */
  predicate Shows(state: i32, status: u32) {
    state == StateToI32(status) || StateToU32(state) == status
  }

  ghost predicate OneRow(t: Table, job: i64, what: Bytes, status: u32) {
    |Matching(t.rows, job, what)| == 1 && Shows(Matching(t.rows, job, what)[0].state, status)
  }

  ghost predicate SameElsewhere(t: Table, t': Table, job: i64, what: Bytes) {
    forall j, w | j != job || w != what :: Matching(t'.rows, j, w) == Matching(t.rows, j, w)
  }

  lemma DeduplicatedClears(t: Table, job: i64, what: Bytes)
    requires TableOk(t) && |t.rows| <= U32_MAX && |Matching(t.rows, job, what)| != 1
    ensures var d := Deduplicated(t, job, what);
            TableOk(d) && Matching(d.rows, job, what) == [] && SameElsewhere(t, d, job, what)
            && |d.rows| <= |t.rows| && d.nextId == t.nextId
  {
    var v := Matching(t.rows, job, what);
    MatchingBounded(t.rows, job, what);
    if |v| > 1 {
      var ids := Ids(v);
      assert ids[..CapCount(|ids|)] == ids;
      WithoutIsSubset(t.rows, ids);
      MatchingIdsExact(t.rows, job, what);
      MatchingAllRemoved(t.rows, ids, job, what);
      forall j, w | j != job || w != what
        ensures Matching(Without(t.rows, ids), j, w) == Matching(t.rows, j, w)
      {
        MatchingWithout(t.rows, ids, j, w);
      }
    }
  }

  /** The ids of a lookup belong to its own rows only. */
  lemma MatchingIdsExact(rows: seq<Status>, job: i64, what: Bytes)
    requires UniqueIds(rows)
    ensures forall r | r in rows :: r.id in Ids(Matching(rows, job, what)) <==> IsFor(r, job, what)
  {
    var v := Matching(rows, job, what);
    MatchingBounded(rows, job, what);
    forall r | r in rows
      ensures r.id in Ids(v) <==> IsFor(r, job, what)
    {
      if IsFor(r, job, what) {
        var k :| 0 <= k < |v| && v[k] == r;
        assert Ids(v)[k] == r.id;
      }
      if r.id in Ids(v) {
        var k :| 0 <= k < |v| && Ids(v)[k] == r.id;
        assert v[k] in v && v[k] in rows;
        var a :| 0 <= a < |rows| && rows[a] == r;
        var b :| 0 <= b < |rows| && rows[b] == v[k];
        assert a == b;
      }
    }
  }

  lemma AppendedRow(t: Table, s: Status)
    requires TableOk(t) && t.nextId < I64_MAX && s.id == 0 && Matching(t.rows, s.jobId, s.what) == []
    ensures TableOk(Save(t, s)) && SameElsewhere(t, Save(t, s), s.jobId, s.what)
    ensures Matching(Save(t, s).rows, s.jobId, s.what) == [s.(id := t.nextId)]
  {
    var r := s.(id := t.nextId);
    forall j, w
      ensures Matching(t.rows + [r], j, w) == Matching(t.rows, j, w) + if IsFor(r, j, w) then [r] else []
    {
      MatchingSnoc(t.rows, r, j, w);
    }
  }

  lemma OverwrittenRow(t: Table, s: Status)
    requires TableOk(t) && s.id != 0
    requires exists old_ :: Matching(t.rows, s.jobId, s.what) == [old_] && old_.id == s.id
    ensures TableOk(Save(t, s)) && SameElsewhere(t, Save(t, s), s.jobId, s.what)
    ensures Matching(Save(t, s).rows, s.jobId, s.what) == [s]
  {
    MatchingIdsExact(t.rows, s.jobId, s.what);
    MatchingBounded(t.rows, s.jobId, s.what);
    var v := Matching(t.rows, s.jobId, s.what);
    assert Ids(v) == [s.id];
    forall j, w
      ensures Matching(Replaced(t.rows, s), j, w) == Replaced(Matching(t.rows, j, w), s)
    {
      MatchingReplaced(t.rows, s, j, w);
    }
    forall j, w | j != s.jobId || w != s.what
      ensures Replaced(Matching(t.rows, j, w), s) == Matching(t.rows, j, w)
    {
      MatchingBounded(t.rows, j, w);
    }
  }

  lemma ReconcileOne(t: Table, job: i64, e: Entry, force: bool)
    requires TableOk(t) && Room(t, 1) && !e.json.Null?
    ensures var t' := Reconcile(t, job, e, force).0;
            TableOk(t') && OneRow(t', job, e.what, Capped(e.json)) && SameElsewhere(t, t', job, e.what)
            && |t'.rows| <= |t.rows| + 1 && t'.nextId <= t.nextId + 1
  {
    hide UniqueIds, SameElsewhere, Matching;
    var v := Matching(t.rows, job, e.what);
    var status := Capped(e.json);
    MatchingBounded(t.rows, job, e.what);
    if |v| == 1 {
      SameIsSame(t, job, e.what);
      assert v == [v[0]];
      if NeedsUpdate(v, status, force) {
        assert v[0] in t.rows;
        OverwrittenRow(t, v[0].(what := e.what, state := StateToI32(status)));
      }
    } else {
      DeduplicatedClears(t, job, e.what);
      var d := Deduplicated(t, job, e.what);
      var item := Status(0, job, e.what, StateToI32(status));
      AppendedRow(d, item);
      SameTrans(t, d, Save(d, item), job, e.what);
    }
  }

  lemma SameIsSame(t: Table, job: i64, what: Bytes)
    ensures SameElsewhere(t, t, job, what)
  {
  }

  lemma SameTrans(a: Table, b: Table, c: Table, job: i64, what: Bytes)
    requires SameElsewhere(a, b, job, what) && SameElsewhere(b, c, job, what)
    ensures SameElsewhere(a, c, job, what)
  {
  }

  /** The last status reported for `what`, if any. */
  function LastReported(report: seq<Entry>, what: Bytes): Option<u32> {
    if report == [] then None
    else if LastReported(report[1..], what).Some? then LastReported(report[1..], what)
    else if report[0].what == what && !report[0].json.Null? then Some(Capped(report[0].json))
    else None
  }

  /**
   After one pass, from any rows including duplicates, each reported status has exactly one row and it shows the last
   value reported; the rows of every other job and status are as before.
   */
  lemma {:induction false} PassReconciles(t: Table, job: i64, report: seq<Entry>, force: bool)
    requires TableOk(t) && Room(t, |report|)
    ensures TableOk(Pass(t, job, report, force).0)
    ensures forall w | LastReported(report, w).Some? ::
              OneRow(Pass(t, job, report, force).0, job, w, LastReported(report, w).value)
    ensures forall j, w | j != job || LastReported(report, w).None? ::
              Matching(Pass(t, job, report, force).0.rows, j, w) == Matching(t.rows, j, w)
    decreases |report|
  {
    hide Reconcile, TableOk, OneRow;
    if report != [] {
      var t1 := Reconcile(t, job, report[0], force).0;
      if report[0].json.Null? {
        NullIsSkipped(t, job, report[0], force);
      } else {
        ReconcileOne(t, job, report[0], force);
      }
      PassReconciles(t1, job, report[1..], force);
      var t2 := Pass(t, job, report, force).0;
      forall w | LastReported(report, w).Some?
        ensures OneRow(t2, job, w, LastReported(report, w).value)
      {
        if LastReported(report[1..], w).None? {
          OneRowKept(t1, t2, job, w, LastReported(report, w).value);
        }
      }
    }
  }

  lemma NullIsSkipped(t: Table, job: i64, e: Entry, force: bool)
    requires e.json.Null?
    ensures Reconcile(t, job, e, force) == (t, [])
  {
  }

  lemma OneRowKept(t: Table, t': Table, job: i64, what: Bytes, status: u32)
    requires OneRow(t, job, what, status) && Matching(t'.rows, job, what) == Matching(t.rows, job, what)
    ensures OneRow(t', job, what, status)
  {
  }

  // ===== a second pass

  ghost predicate NonNegative(rows: seq<Status>) {
    forall r | r in rows :: r.state >= 0
  }

  /** Every reported status fits the signed column, and a name reported twice is reported with one value. */
  ghost predicate Steady(report: seq<Entry>) {
    (forall i | 0 <= i < |report| && !report[i].json.Null? :: Capped(report[i].json) <= I32_MAX)
    && (forall i, k | 0 <= i < k < |report| && !report[i].json.Null? && !report[k].json.Null? && report[i].what == report[k].what ::
          Capped(report[i].json) == Capped(report[k].json))
  }

  /** An entry the table already shows. */
  ghost predicate Settled(t: Table, job: i64, e: Entry) {
    e.json.Null? || !NeedsUpdate(Matching(t.rows, job, e.what), Capped(e.json), false)
  }

  lemma {:induction false} QuietIffSettled(t: Table, job: i64, report: seq<Entry>)
    ensures Pass(t, job, report, false).1 == [] <==> forall i | 0 <= i < |report| :: Settled(t, job, report[i])
    ensures Pass(t, job, report, false).1 == [] ==> Pass(t, job, report, false).0 == t
    decreases |report|
  {
    hide Matching, NeedsUpdate;
    if report != [] {
      SettledOne(t, job, report[0]);
      var (t1, u1) := Reconcile(t, job, report[0], false);
      if Settled(t, job, report[0]) {
        QuietIffSettled(t, job, report[1..]);
        assert forall i | 1 <= i < |report| :: report[i] == report[1..][i - 1];
      }
    }
  }

  lemma SettledOne(t: Table, job: i64, e: Entry)
    ensures Settled(t, job, e) ==> Reconcile(t, job, e, false) == (t, [])
    ensures !Settled(t, job, e) ==> |Reconcile(t, job, e, false).1| == 1
  {
  }

  lemma {:induction false} SavedStatesAreNonNegative(t: Table, job: i64, report: seq<Entry>, force: bool)
    requires TableOk(t) && Room(t, |report|) && NonNegative(t.rows)
    ensures NonNegative(Pass(t, job, report, force).0.rows)
    decreases |report|
  {
    hide Reconcile, UniqueIds;
    if report != [] {
      if report[0].json.Null? {
        NullIsSkipped(t, job, report[0], force);
      } else {
        ReconcileOne(t, job, report[0], force);
        ReconcileNonNegative(t, job, report[0], force);
      }
      SavedStatesAreNonNegative(Reconcile(t, job, report[0], force).0, job, report[1..], force);
    }
  }

  lemma ReconcileNonNegative(t: Table, job: i64, e: Entry, force: bool)
    requires TableOk(t) && NonNegative(t.rows)
    ensures NonNegative(Reconcile(t, job, e, force).0.rows)
  {
    var v := Matching(t.rows, job, e.what);
    WithoutIsSubset(t.rows, Ids(v)[..CapCount(|v|)]);
  }

  lemma {:induction false} LastIsReported(report: seq<Entry>, i: nat)
    requires i < |report| && !report[i].json.Null?
    ensures LastReported(report, report[i].what).Some?
    ensures Steady(report) ==> LastReported(report, report[i].what).value == Capped(report[i].json)
    decreases |report|
  {
    var w := report[i].what;
    if i > 0 {
      assert report[1..][i - 1] == report[i];
      LastIsReported(report[1..], i - 1);
    } else if LastReported(report[1..], w).Some? {
      var k := LastComesFrom(report[1..], w);
      assert report[1..][k] == report[k + 1];
    }
  }

  lemma {:induction false} LastComesFrom(report: seq<Entry>, what: Bytes) returns (k: nat)
    requires LastReported(report, what).Some?
    ensures k < |report| && report[k].what == what && !report[k].json.Null?
    ensures Capped(report[k].json) == LastReported(report, what).value
    decreases |report|
  {
    if LastReported(report[1..], what).Some? {
      var j := LastComesFrom(report[1..], what);
      k := j + 1;
    } else {
      k := 0;
    }
  }

  /**
   Repeating an unforced pass over the same report is silent exactly when the report is steady: a status above
   i32::MAX is stored capped and so reported again on every pass.
   */
  lemma SecondPassIsQuietIffSteady(t: Table, job: i64, report: seq<Entry>, force: bool)
    requires TableOk(t) && Room(t, |report|) && NonNegative(t.rows)
    ensures Pass(Pass(t, job, report, force).0, job, report, false).1 == [] <==> Steady(report)
  {
    hide Pass, TableOk, Matching, LastReported;
    var t1 := Pass(t, job, report, force).0;
    PassReconciles(t, job, report, force);
    SavedStatesAreNonNegative(t, job, report, force);
    QuietIffSettled(t1, job, report);
    if Steady(report) {
      forall i | 0 <= i < |report|
        ensures Settled(t1, job, report[i])
      {
        if !report[i].json.Null? {
          LastIsReported(report, i);
        }
      }
    } else if forall i | 0 <= i < |report| :: Settled(t1, job, report[i]) {
      SettledIsSteady(t1, job, report);
    }
  }

  lemma SettledIsSteady(t: Table, job: i64, report: seq<Entry>)
    requires NonNegative(t.rows) && forall i | 0 <= i < |report| :: Settled(t, job, report[i])
    ensures Steady(report)
  {
    hide Matching;
    forall i | 0 <= i < |report| && !report[i].json.Null?
      ensures Capped(report[i].json) <= I32_MAX
    {
      assert Settled(t, job, report[i]);
      MatchingBounded(t.rows, job, report[i].what);
      assert Matching(t.rows, job, report[i].what)[0] in t.rows;
    }
    forall i, k | 0 <= i < k < |report| && !report[i].json.Null? && !report[k].json.Null? && report[i].what == report[k].what
      ensures Capped(report[i].json) == Capped(report[k].json)
    {
      assert Settled(t, job, report[i]) && Settled(t, job, report[k]);
    }
  }

  // ===== is the job over?

  predicate IsError(state: i32) {
    StateToU32(state) >= ERROR && StateToU32(state) != COMPLETED
  }

  /** Errors are the stored states from 400 up except 500, and the negative ones. */
  lemma ErrorsExactly(state: i32)
    ensures IsError(state) <==> state < 0 || (400 <= state && state != 500)
  {
  }

  predicate NoError(rows: seq<Status>) {
    forall i | 0 <= i < |rows| :: !IsError(rows[i].state)
  }

  predicate AllCompleted(rows: seq<Status>) {
    forall i | 0 <= i < |rows| :: StateToU32(rows[i].state) == COMPLETED
  }

  predicate IsLastError(rows: seq<Status>, i: nat) {
    i < |rows| && IsError(rows[i].state) && forall k | i < k < |rows| :: !IsError(rows[k].state)
  }

  /** How far from the start the last error is, counting from 1; 0 without an error. */
  function LastError(rows: seq<Status>): (n: nat)
    ensures n == 0 ==> NoError(rows)
    ensures n > 0 ==> IsLastError(rows, n - 1)
  {
    if rows == [] then 0
    else if IsError(rows[|rows| - 1].state) then |rows|
    else LastError(rows[..|rows| - 1])
  }

  /** The most recent error among the stored states, 0 without one. */
  function JobError(rows: seq<Status>): (r: u32)
    ensures r == 0 <==> NoError(rows)
    ensures forall i: nat :: IsLastError(rows, i) ==> r == StateToU32(rows[i].state)
  {
    var n := LastError(rows);
    if n == 0 then 0 else StateToU32(rows[n - 1].state)
  }

  /** The status of the completion message, if the job is over. */
  function Completion(rows: seq<Status>, reportedComplete: bool): (r: Option<u32>)
    ensures r.Some? <==> !NoError(rows) || (reportedComplete && AllCompleted(rows))
    ensures r == Some(COMPLETED) ==> AllCompleted(rows)
    ensures forall i: nat :: IsLastError(rows, i) ==> r == Some(StateToU32(rows[i].state))
  {
    var jobError := JobError(rows);
    if jobError != 0 then Some(jobError)
    else if reportedComplete && AllCompleted(rows) then Some(COMPLETED)
    else None
  }

  /** The loop of check_job_status against the stored table. */
  class Checker {
    var table: Table

    method ReconcileStatuses(job: i64, report: seq<Entry>, force: bool) returns (queued: seq<Update>)
      modifies this
      ensures (table, queued) == Pass(old(table), job, report, force)
    {
      hide Reconcile, Matching;
      queued := [];
      var i := 0;
      assert report[0..] == report;
      while i < |report|
        invariant i <= |report|
        invariant Pass(old(table), job, report, force).0 == Pass(table, job, report[i..], force).0
        invariant Pass(old(table), job, report, force).1 == queued + Pass(table, job, report[i..], force).1
      {
        PassUnfolds(table, job, report, i, force);
        var updates := ReconcileOneStatus(job, report[i], force);
        queued := queued + updates;
        i := i + 1;
      }
      assert report[i..] == [] && queued + [] == queued;
    }

    method ReconcileOneStatus(job: i64, e: Entry, force: bool) returns (queued: seq<Update>)
      modifies this
      ensures (table, queued) == Reconcile(old(table), job, e, force)
    {
      hide Matching;
      queued := [];
      if e.json.Null? {
        return;
      }
      var status := Capped(e.json);
      var v := Matching(table.rows, job, e.what);
      if |v| > 1 {
        table := Delete(table, Ids(v));
        v := [];
      }
      if force || v == [] || status != StateToU32(v[0].state) {
        var item := if v == [] then Status(0, job, e.what, StateToI32(status)) else v[0];
        item := item.(what := e.what);
        item := item.(state := StateToI32(status));
        table := Save(table, item);
        queued := [Update(e.what, status)];
      }
    }
  }

  lemma PassUnfolds(t: Table, job: i64, report: seq<Entry>, i: nat, force: bool)
    requires i < |report|
    ensures var (t1, u1) := Reconcile(t, job, report[i], force);
            var (t2, u2) := Pass(t1, job, report[i + 1..], force);
            Pass(t, job, report[i..], force) == (t2, u1 + u2)
  {
    assert report[i..][0] == report[i] && report[i..][1..] == report[i + 1..];
  }
}
