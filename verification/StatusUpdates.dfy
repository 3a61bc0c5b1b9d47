/** What a status pass tells the server: which updates it queues, in which order, and what the last word on a name is. */
module StatusUpdates {
  import opened Wire
  import opened Records
  import opened StatusSync

  /** A reported number is told as it is up to u32::MAX and as u32::MAX beyond; anything else is told as 0. */
  lemma CappedExactly(n: u64)
    ensures Capped(Number(n)) <= n && (n <= U32_MAX ==> Capped(Number(n)) == n) && (n > U32_MAX ==> Capped(Number(n)) == U32_MAX)
    ensures Capped(NotANumber) == 0
  {
  }

  // ===== which updates are queued

  /** The table holds exactly one row for the entry and it reads back as the reported status. */
  ghost predicate Showing(t: Table, job: i64, e: Entry) {
    var v := Matching(t.rows, job, e.what);
    |v| == 1 && StateToU32(v[0].state) == Capped(e.json)
  }

  ghost predicate Due(t: Table, job: i64, e: Entry, force: bool) {
    !e.json.Null? && (force || !Showing(t, job, e))
  }

  ghost function Telling(due: bool, e: Entry): seq<Update> {
    if due then [Update(e.what, Capped(e.json))] else []
  }

  /** The updates of the first `n` entries: one for each that is due when its turn comes, with its own status. */
  ghost function Told(t: Table, job: i64, report: seq<Entry>, force: bool, n: nat): seq<Update>
    requires n <= |report|
  {
    if n == 0 then []
    else Told(t, job, report, force, n - 1)
         + Telling(Due(Pass(t, job, report[..n - 1], force).0, job, report[n - 1], force), report[n - 1])
  }

  lemma ReconcileTells(t: Table, job: i64, e: Entry, force: bool)
    ensures Reconcile(t, job, e, force).1 == Telling(Due(t, job, e, force), e)
  {
    hide Matching;
  }

  lemma {:induction false} PassSnoc(t: Table, job: i64, report: seq<Entry>, e: Entry, force: bool)
    ensures var (t1, u1) := Pass(t, job, report, force);
            Pass(t, job, report + [e], force) == (Reconcile(t1, job, e, force).0, u1 + Reconcile(t1, job, e, force).1)
    decreases |report|
  {
    hide Reconcile;
    if report == [] {
      var (t1, u1) := Reconcile(t, job, e, force);
      assert report + [e] == [e] && [e][1..] == [];
      assert Pass(t1, job, [], force) == (t1, []) && u1 + [] == u1 == [] + u1;
    } else {
      var (t1, u1) := Reconcile(t, job, report[0], force);
      PassSnoc(t1, job, report[1..], e, force);
      assert (report + [e])[1..] == report[1..] + [e];
      var (t2, u2) := Pass(t1, job, report[1..], force);
      var u3 := Reconcile(t2, job, e, force).1;
      assert u1 + (u2 + u3) == (u1 + u2) + u3;
    }
  }

  /** A pass queues exactly the due updates, each with the status of its entry, in the order of the report. */
  lemma {:induction false} UpdatesExactly(t: Table, job: i64, report: seq<Entry>, force: bool, n: nat)
    requires n <= |report|
    ensures Pass(t, job, report[..n], force).1 == Told(t, job, report, force, n)
  {
    hide Reconcile;
    if n > 0 {
      UpdatesExactly(t, job, report, force, n - 1);
      assert report[..n] == report[..n - 1] + [report[n - 1]];
      PassSnoc(t, job, report[..n - 1], report[n - 1], force);
      ReconcileTells(Pass(t, job, report[..n - 1], force).0, job, report[n - 1], force);
    }
  }

  ghost function AllUpdates(report: seq<Entry>): seq<Update> {
    if report == [] then []
    else AllUpdates(report[..|report| - 1]) + Telling(!report[|report| - 1].json.Null?, report[|report| - 1])
  }

  /** A forced pass tells every status that is reported, whatever is stored. */
  lemma {:induction false} ForcedPassTellsAll(t: Table, job: i64, report: seq<Entry>)
    ensures Pass(t, job, report, true).1 == AllUpdates(report)
    decreases |report|
  {
    if report != [] {
      var init, last := report[..|report| - 1], report[|report| - 1];
      ForcedPassTellsAll(t, job, init);
      assert report == init + [last];
      PassSnoc(t, job, init, last, true);
      ReconcileTells(Pass(t, job, init, true).0, job, last, true);
    }
  }

  // ===== the last word on a name

  ghost function LastTold(us: seq<Update>, what: Bytes): Option<u32> {
    if us == [] then None
    else if us[|us| - 1].what == what then Some(us[|us| - 1].status)
    else LastTold(us[..|us| - 1], what)
  }

  lemma LastToldSnoc(us: seq<Update>, due: bool, e: Entry, what: Bytes)
    ensures LastTold(us + Telling(due, e), what) ==
            if due && e.what == what then Some(Capped(e.json)) else LastTold(us, what)
  {
    if due {
      assert (us + Telling(due, e))[..|us|] == us;
    } else {
      assert us + Telling(due, e) == us;
    }
  }

  lemma {:induction false} LastReportedSnoc(report: seq<Entry>, e: Entry, what: Bytes)
    ensures LastReported(report + [e], what) ==
            if e.what == what && !e.json.Null? then Some(Capped(e.json)) else LastReported(report, what)
    decreases |report|
  {
    if report == [] {
      assert [] + [e] == [e] && [e][1..] == [];
    } else {
      LastReportedSnoc(report[1..], e, what);
      assert (report + [e])[1..] == report[1..] + [e];
    }
  }

  /** The last status reported for `what` other than i32::MAX. */
  ghost function LastOther(report: seq<Entry>, what: Bytes): Option<u32> {
    if report == [] then None
    else
      var e := report[|report| - 1];
      if e.what == what && !e.json.Null? && Capped(e.json) != I32_MAX then Some(Capped(e.json))
      else LastOther(report[..|report| - 1], what)
  }

  lemma LastOtherSnoc(report: seq<Entry>, e: Entry, what: Bytes)
    ensures LastOther(report + [e], what) ==
            if e.what == what && !e.json.Null? && Capped(e.json) != I32_MAX then Some(Capped(e.json))
            else LastOther(report, what)
  {
    assert (report + [e])[..|report|] == report;
  }

  /** The name is last reported as i32::MAX, and before that as something larger. */
  ghost predicate Masked(report: seq<Entry>, what: Bytes) {
    LastReported(report, what) == Some(I32_MAX)
    && LastOther(report, what).Some? && LastOther(report, what).value > I32_MAX
  }

  /** How the last update, the last report and the row of a name hang together during an unforced pass. */
  ghost predicate Linked(t: Table, us: seq<Update>, job: i64, report: seq<Entry>, what: Bytes) {
    var told, last, other := LastTold(us, what), LastReported(report, what), LastOther(report, what);
    var v := Matching(t.rows, job, what);
    if told.Some? then
      last.Some? && |v| == 1 && v[0].state == StateToI32(told.value)
      && (if told.value == I32_MAX then last == told && (other.Some? ==> other.value < I32_MAX)
          else other == told && (last == told || (last == Some(I32_MAX) && told.value > I32_MAX)))
    else
      (last.Some? ==> |v| == 1 && v[0].state == last.value) && (other.Some? ==> other == last)
  }

  lemma LinkedStep(t: Table, us: seq<Update>, job: i64, report: seq<Entry>, e: Entry, what: Bytes)
    requires TableOk(t) && Room(t, 1) && NonNegative(t.rows) && Linked(t, us, job, report, what)
    ensures Linked(Reconcile(t, job, e, false).0, us + Reconcile(t, job, e, false).1, job, report + [e], what)
  {
    ReconcileTells(t, job, e, false);
    LastToldSnoc(us, Due(t, job, e, false), e, what);
    LastReportedSnoc(report, e, what);
    LastOtherSnoc(report, e, what);
    if e.json.Null? {
      NullIsSkipped(t, job, e, false);
    } else {
      ReconcileOne(t, job, e, false);
      RowAfter(t, job, e);
    }
    hide Reconcile, Matching, LastTold, LastReported, LastOther, TableOk, Telling;
    if e.what == what && !e.json.Null? && !Due(t, job, e, false) {
      NonNegativeRow(t, job, what);
    }
  }

  lemma NonNegativeRow(t: Table, job: i64, what: Bytes)
    requires NonNegative(t.rows)
    ensures forall i | 0 <= i < |Matching(t.rows, job, what)| :: Matching(t.rows, job, what)[i].state >= 0
  {
    MatchingBounded(t.rows, job, what);
  }

  /** The row of an entry after it was reconciled: saved if it was due, otherwise as it was. */
  lemma RowAfter(t: Table, job: i64, e: Entry)
    requires TableOk(t) && Room(t, 1) && !e.json.Null?
    ensures var v := Matching(Reconcile(t, job, e, false).0.rows, job, e.what);
            |v| == 1
            && if Due(t, job, e, false) then v[0].state == StateToI32(Capped(e.json))
               else v == Matching(t.rows, job, e.what)
  {
    hide Matching;
    ReconcileOne(t, job, e, false);
    var v := Matching(t.rows, job, e.what);
    MatchingBounded(t.rows, job, e.what);
    if Due(t, job, e, false) {
      var item := if |v| == 1 then v[0] else Status(0, job, e.what, 0);
      item := item.(what := e.what, state := StateToI32(Capped(e.json)));
      if |v| == 1 {
        assert v == [v[0]] && v[0] in t.rows;
        OverwrittenRow(t, item);
      } else {
        DeduplicatedClears(t, job, e.what);
        AppendedRow(Deduplicated(t, job, e.what), item);
      }
    }
  }

  lemma {:induction false} LinkedRun(t: Table, job: i64, report: seq<Entry>, what: Bytes)
    requires TableOk(t) && Room(t, |report|) && NonNegative(t.rows)
    ensures var (t1, us) := Pass(t, job, report, false);
            TableOk(t1) && Room(t1, 0) && NonNegative(t1.rows)
            && |t1.rows| <= |t.rows| + |report| && t1.nextId <= t.nextId + |report|
            && Linked(t1, us, job, report, what)
    decreases |report|
  {
    hide Reconcile, TableOk, NonNegative, Linked, Matching;
    if report == [] {
      NothingLinked(t, job, what);
    } else {
      var init, last := report[..|report| - 1], report[|report| - 1];
      LinkedRun(t, job, init, what);
      assert report == init + [last];
      PassSnoc(t, job, init, last, false);
      var (t1, us) := Pass(t, job, init, false);
      LinkedStep(t1, us, job, init, last, what);
      if last.json.Null? {
        NullIsSkipped(t1, job, last, false);
      } else {
        ReconcileOne(t1, job, last, false);
        ReconcileNonNegative(t1, job, last, false);
      }
    }
  }

  lemma NothingLinked(t: Table, job: i64, what: Bytes)
    ensures Linked(t, [], job, [], what)
  {
  }

  /**
   After an unforced pass the last update on a name carries the status last reported for it, if there is one, exactly
   unless the name is masked: a status above i32::MAX is stored as i32::MAX, so a following i32::MAX is not told.
   */
  lemma LastWordIsTheReportUnlessMasked(t: Table, job: i64, report: seq<Entry>, what: Bytes)
    requires TableOk(t) && Room(t, |report|) && NonNegative(t.rows)
    requires LastTold(Pass(t, job, report, false).1, what).Some?
    ensures LastTold(Pass(t, job, report, false).1, what) == LastReported(report, what) <==> !Masked(report, what)
  {
    hide Pass, LastTold, LastReported, LastOther, Matching;
    LinkedRun(t, job, report, what);
  }

  /** With force the last word on every reported name is the last report. */
  lemma {:induction false} ForcedLastWordIsTheReport(t: Table, job: i64, report: seq<Entry>, what: Bytes)
    ensures LastTold(Pass(t, job, report, true).1, what) == LastReported(report, what)
    decreases |report|
  {
    hide Reconcile;
    if report != [] {
      var init, last := report[..|report| - 1], report[|report| - 1];
      ForcedLastWordIsTheReport(t, job, init, what);
      assert report == init + [last];
      PassSnoc(t, job, init, last, true);
      var (t1, us) := Pass(t, job, init, true);
      ReconcileTells(t1, job, last, true);
      LastToldSnoc(us, Due(t1, job, last, true), last, what);
      LastReportedSnoc(init, last, what);
    }
  }

  lemma LargeIsStoredCapped(job: i64, what: Bytes)
    ensures Reconcile(Table([], 1), job, Entry(what, Number(U32_MAX)), false)
            == (Table([Status(1, job, what, I32_MAX)], 2), [Update(what, U32_MAX)])
  {
    assert Matching([], job, what) == [];
    assert [] + [Status(1, job, what, I32_MAX)] == [Status(1, job, what, I32_MAX)];
  }

  lemma CapIsNotTold(job: i64, what: Bytes)
    ensures var t := Table([Status(1, job, what, I32_MAX)], 2); Reconcile(t, job, Entry(what, Number(I32_MAX)), false) == (t, [])
  {
    var row := Status(1, job, what, I32_MAX);
    assert [row][..0] == [] && Matching([], job, what) == [];
    assert Matching([row], job, what) == [] + [row] == [row];
  }

  /** The masked case occurs: 2^32 - 1 and then i32::MAX for one name, of which only the first is told. */
  lemma MaskedReport(job: i64, what: Bytes)
    ensures var report := [Entry(what, Number(U32_MAX)), Entry(what, Number(I32_MAX))];
            Masked(report, what) && Pass(Table([], 1), job, report, false).1 == [Update(what, U32_MAX)]
  {
    hide Reconcile, Matching;
    var a, b := Entry(what, Number(U32_MAX)), Entry(what, Number(I32_MAX));
    LargeIsStoredCapped(job, what);
    CapIsNotTold(job, what);
    PassSnoc(Table([], 1), job, [], a, false);
    PassSnoc(Table([], 1), job, [a], b, false);
    LastReportedSnoc([a], b, what);
    LastOtherSnoc([], a, what);
    LastOtherSnoc([a], b, what);
    assert [] + [a] == [a] && [a] + [b] == [a, b];
  }
}
