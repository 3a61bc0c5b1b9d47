/**
 What the restart at level 0 does to a waiting level. With two busy levels above it, or with one below level 0 and a
 contended lock after each of its messages, the waiting level is starved: there are runs of every length. From this
 follows exactly when the 16-message cap protects it.
 */
module Starvation {
  import opened Wire
  import opened Outbound
  import opened Scheduler
  import opened Fairness

  /** Level `b` waits, `busy` levels above it receive messages, locks may be contended or not. */
  datatype Scene = Scene(busy: set<nat>, b: nat, contention: bool) {
    ghost predicate Valid() {
      b < PRIORITY_LEVELS
    }

    predicate Admits(e: Event) {
      !e.Disconnect? && (e == Look(true) ==> contention)
    }
  }

  /** `es` leads from `st` to `t` and sends `n` messages at busy levels while `b` is overtaken and nothing is cleared. */
  ghost predicate Leg(st: State, es: seq<Event>, t: State, sc: Scene, n: nat)
    requires sc.Valid()
  {
    Run(st, es) && After(st, es) == t && SendsAbove(st, es, sc.b) == n && Overtaken(st, es, sc.busy, sc.b)
    && forall i | 0 <= i < |es| :: sc.Admits(es[i])
  }

  ghost predicate Waiting(q: Queues, sc: Scene)
    requires sc.Valid()
  {
    Backlog(q, sc.busy, sc.b)
  }

  lemma {:induction false} OvertakenAppend(st: State, es: seq<Event>, fs: seq<Event>, busy: set<nat>, b: nat)
    requires b < PRIORITY_LEVELS && Run(st, es) && Run(After(st, es), fs)
    requires Overtaken(st, es, busy, b) && Overtaken(After(st, es), fs, busy, b)
    ensures Run(st, es + fs) && Overtaken(st, es + fs, busy, b)
    ensures SendsAbove(st, es + fs, b) == SendsAbove(st, es, b) + SendsAbove(After(st, es), fs, b)
    decreases |es|
  {
    hide Step, Enabled, Backlog;
    RunAppend(st, es, fs);
    if es == [] {
      assert es + fs == fs;
    } else {
      OvertakenAppend(Step(st, es[0]), es[1..], fs, busy, b);
      assert (es + fs)[1..] == es[1..] + fs;
    }
  }

  lemma LegAppend(st: State, es: seq<Event>, mid: State, fs: seq<Event>, t: State, sc: Scene, n: nat, m: nat)
    requires sc.Valid() && Leg(st, es, mid, sc, n) && Leg(mid, fs, t, sc, m)
    ensures Leg(st, es + fs, t, sc, n + m)
  {
    hide Run, After, SendsAbove, Overtaken;
    RunAppend(st, es, fs);
    OvertakenAppend(st, es, fs, sc.busy, sc.b);
  }

  lemma OneStep(st: State, e: Event, sc: Scene)
    requires sc.Valid() && Enabled(st, e) && sc.Admits(e) && (e.Send? ==> st.pc.p != sc.b)
    requires Waiting(st.queue, sc) && Waiting(Step(st, e).queue, sc)
    ensures Leg(st, [e], Step(st, e), sc, if e.Send? && st.pc.p < sc.b then 1 else 0)
  {
    hide Backlog;
    assert [e][1..] == [];
    assert Run(Step(st, e), []) && SendsAbove(Step(st, e), [], sc.b) == 0;
    assert Overtaken(Step(st, e), [], sc.busy, sc.b);
    assert Run(st, [e]) && After(st, [e]) == After(Step(st, e), []);
    assert SendsAbove(st, [e], sc.b) == if e.Send? && st.pc.p < sc.b then 1 else 0;
  }

  function Repeat(e: Event, k: nat): (es: seq<Event>)
    ensures |es| == k
  {
    if k == 0 then [] else [e] + Repeat(e, k - 1)
  }

  /** Walking past `k` empty levels. */
  lemma {:induction false} Sweep(st: State, k: nat, sc: Scene)
    requires sc.Valid() && Waiting(st.queue, sc)
    requires st.pc.Scan? && st.pc.count == 0 && st.pc.p + k < PRIORITY_LEVELS
    requires forall l | st.pc.p <= l < st.pc.p + k :: NoData(st.queue[l])
    ensures Leg(st, Repeat(NextLevel, k), st.(pc := Scan(st.pc.p + k, 0, st.pc.had)), sc, 0)
    decreases k
  {
    hide Backlog;
    if k == 0 {
      assert Run(st, []);
    } else {
      var mid := Step(st, NextLevel);
      OneStep(st, NextLevel, sc);
      Sweep(mid, k - 1, sc);
      LegAppend(st, [NextLevel], mid, Repeat(NextLevel, k - 1), st.(pc := Scan(st.pc.p + k, 0, st.pc.had)), sc, 0, 0);
    }
  }

  /** Looking at `k` empty levels after a send. */
  lemma {:induction false} LookPast(st: State, p: nat, count: nat, q: nat, k: nat, sc: Scene)
    requires sc.Valid() && Waiting(st.queue, sc)
    requires st.pc == Looked(p, count, q) && q + k <= p < PRIORITY_LEVELS
    requires forall l | q <= l < q + k :: NoData(st.queue[l])
    ensures Leg(st, Repeat(Look(false), k), st.(pc := Looked(p, count, q + k)), sc, 0)
    decreases k
  {
    hide Backlog;
    if k == 0 {
      assert Run(st, []);
    } else {
      var mid := Step(st, Look(false));
      OneStep(st, Look(false), sc);
      LookPast(mid, p, count, q + 1, k - 1, sc);
      LegAppend(st, [Look(false)], mid, Repeat(Look(false), k - 1), st.(pc := Looked(p, count, q + k)), sc, 0, 0);
    }
  }

  const SOURCE: Source := []
  const MESSAGE: Bytes := []

  lemma Produce(st: State, l: nat, sc: Scene)
    requires sc.Valid() && Waiting(st.queue, sc) && !st.closed && l in sc.busy && l < sc.b
    ensures Waiting(Push(st.queue, l, SOURCE, MESSAGE), sc)
    ensures Leg(st, [Admit, Enqueue(l, SOURCE, MESSAGE)],
                st.(queue := Push(st.queue, l, SOURCE, MESSAGE), notifying := st.notifying + 1), sc, 0)
  {
    hide Leg;
    var mid := Step(st, Admit);
    OneStep(st, Admit, sc);
    var e := Enqueue(l, SOURCE, MESSAGE);
    OneStep(mid, e, sc);
    LegAppend(st, [Admit], mid, [e], Step(mid, e), sc, 0, 0);
    assert [Admit] + [e] == [Admit, e];
  }

  /** Everything above `b` is empty, `b` waits. */
  ghost predicate Idle(q: Queues, sc: Scene)
    requires sc.Valid()
  {
    Backlog(q, {}, sc.b)
  }

  /** The scan is at or before level `v` and finds nothing above `b`. */
  ghost predicate Ready(st: State, v: nat, sc: Scene) {
    sc.Valid() && st.pc.Scan? && st.pc.count == 0 && st.pc.p <= v < sc.b && !st.closed && Idle(st.queue, sc)
  }

  /** A message arrives at `v` and is sent. */
  lemma Serve(st: State, v: nat, sc: Scene) returns (es: seq<Event>, t: State)
    requires Ready(st, v, sc) && v in sc.busy && v > 0
    ensures Leg(st, es, t, sc, 1)
    ensures t.pc == Check(v, 1, 0) && !t.closed && Idle(t.queue, sc)
  {
    hide Leg;
    var k := v - st.pc.p;
    var s1 := st.(queue := Push(st.queue, v, SOURCE, MESSAGE), notifying := st.notifying + 1);
    Produce(st, v, sc);
    Sweep(s1, k, sc);
    var s2 := s1.(pc := Scan(v, 0, st.pc.had));
    LegAppend(st, [Admit, Enqueue(v, SOURCE, MESSAGE)], s1, Repeat(NextLevel, k), s2, sc, 0, 0);
    t := Step(s2, Send(SOURCE, true));
    OneStep(s2, Send(SOURCE, true), sc);
    es := [Admit, Enqueue(v, SOURCE, MESSAGE)] + Repeat(NextLevel, k) + [Send(SOURCE, true)];
    LegAppend(st, [Admit, Enqueue(v, SOURCE, MESSAGE)] + Repeat(NextLevel, k), s2, [Send(SOURCE, true)], t, sc, 0, 1);
  }

  // ===== one busy level and contended locks

  /** A contended lock sends the scan back to level 0 after each message of `v`. */
  lemma ContendedCycle(st: State, v: nat, sc: Scene) returns (es: seq<Event>, t: State)
    requires Ready(st, v, sc) && v in sc.busy && v > 0 && sc.contention
    ensures Leg(st, es, t, sc, 1) && Ready(t, v, sc)
  {
    hide Leg;
    var es1, t1 := Serve(st, v, sc);
    t := Step(t1, Look(true));
    OneStep(t1, Look(true), sc);
    LegAppend(st, es1, t1, [Look(true)], t, sc, 1, 0);
    es := es1 + [Look(true)];
  }

  /** One busy level below level 0 and contended locks: runs with any number of its messages and none of `b`. */
  lemma {:induction false} ContentionStarves(st: State, v: nat, sc: Scene, n: nat) returns (es: seq<Event>)
    requires Ready(st, v, sc) && v in sc.busy && v > 0 && sc.contention
    ensures Run(st, es) && Overtaken(st, es, sc.busy, sc.b) && SendsAbove(st, es, sc.b) == n
    ensures forall i | 0 <= i < |es| :: !es[i].Disconnect?
  {
    var t := st;
    es := [];
    assert Run(st, []);
    for i := 0 to n
      invariant Leg(st, es, t, sc, i) && Ready(t, v, sc)
    {
      var fs, t' := ContendedCycle(t, v, sc);
      LegAppend(st, es, t, fs, t', sc, i, 1);
      es, t := es + fs, t';
    }
  }

  // ===== two busy levels

  /** A message at `u` sends the scan back to level 0 before it reaches `b`. */
  lemma SendBack(st: State, u: nat, v: nat, sc: Scene) returns (es: seq<Event>, t: State)
    requires sc.Valid() && u < v < sc.b && u in sc.busy
    requires st.pc == Check(v, 1, 0) && !st.closed && Idle(st.queue, sc)
    ensures Leg(st, es, t, sc, 0)
    ensures t.pc == Scan(u, 0, false) && !t.closed
    ensures t.queue == Push(st.queue, u, SOURCE, MESSAGE)
  {
    hide Leg;
    var s1 := st.(queue := Push(st.queue, u, SOURCE, MESSAGE), notifying := st.notifying + 1);
    Produce(st, u, sc);
    LookPast(s1, v, 1, 0, u, sc);
    var s2 := s1.(pc := Check(v, 1, u));
    var es2 := [Admit, Enqueue(u, SOURCE, MESSAGE)] + Repeat(Look(false), u);
    LegAppend(st, [Admit, Enqueue(u, SOURCE, MESSAGE)], s1, Repeat(Look(false), u), s2, sc, 0, 0);
    var s3 := s1.(pc := Scan(0, 0, false));
    assert SOURCE in s2.queue[u] && s2.queue[u][SOURCE] != [];
    assert Step(s2, Look(false)) == s3;
    OneStep(s2, Look(false), sc);
    LegAppend(st, es2, s2, [Look(false)], s3, sc, 0, 0);
    Sweep(s3, u, sc);
    t := s3.(pc := Scan(u, 0, false));
    es := es2 + [Look(false)] + Repeat(NextLevel, u);
    LegAppend(st, es2 + [Look(false)], s3, Repeat(NextLevel, u), t, sc, 0, 0);
  }

  lemma ServeUpper(st: State, u: nat, v: nat, sc: Scene) returns (es: seq<Event>, t: State)
    requires sc.Valid() && u < v < sc.b && st.pc == Scan(u, 0, false) && !st.closed
    requires Fifo(st.queue, u, SOURCE) != [] && Waiting(st.queue, sc) && Idle(Take(st.queue, u, SOURCE), sc)
    ensures Leg(st, es, t, sc, 1) && Ready(t, v, sc)
  {
    hide Leg;
    var s1 := Step(st, Send(SOURCE, true));
    OneStep(st, Send(SOURCE, true), sc);
    LookPast(s1, u, 1, 0, u, sc);
    var s2 := s1.(pc := Scan(u, 1, true));
    LegAppend(st, [Send(SOURCE, true)], s1, Repeat(Look(false), u), s2, sc, 1, 0);
    t := Step(s2, NextLevel);
    OneStep(s2, NextLevel, sc);
    es := [Send(SOURCE, true)] + Repeat(Look(false), u) + [NextLevel];
    LegAppend(st, [Send(SOURCE, true)] + Repeat(Look(false), u), s2, [NextLevel], t, sc, 1, 0);
  }

  lemma Cycle(st: State, u: nat, v: nat, sc: Scene) returns (es: seq<Event>, t: State)
    requires Ready(st, v, sc) && u < v && u in sc.busy && v in sc.busy
    ensures Leg(st, es, t, sc, 2) && Ready(t, v, sc)
  {
    hide Leg;
    var es1, t1 := Serve(st, v, sc);
    var es2, t2 := SendBack(t1, u, v, sc);
    assert Idle(Take(t2.queue, u, SOURCE), sc) && Waiting(t2.queue, sc);
    var es3, t3 := ServeUpper(t2, u, v, sc);
    LegAppend(st, es1, t1, es2, t2, sc, 1, 0);
    LegAppend(st, es1 + es2, t2, es3, t3, sc, 1, 1);
    es, t := es1 + es2 + es3, t3;
  }

  /**
   For any two levels `u` and `v` above a waiting level `b` and any `n` there is a run without contention or clears
   that sends `2 * n` messages at these levels and none of `b`.
   */
  lemma {:induction false} TwoBusyLevelsStarve(st: State, u: nat, v: nat, sc: Scene, n: nat) returns (es: seq<Event>)
    requires Ready(st, v, sc) && u < v && u in sc.busy && v in sc.busy && !sc.contention
    ensures Run(st, es) && Overtaken(st, es, sc.busy, sc.b) && SendsAbove(st, es, sc.b) == 2 * n
    ensures Uncontended(es) && forall i | 0 <= i < |es| :: !es[i].Disconnect?
  {
    var t := st;
    es := [];
    assert Run(st, []);
    for i := 0 to n
      invariant Leg(st, es, t, sc, 2 * i) && Ready(t, v, sc)
    {
      var fs, t' := Cycle(t, u, v, sc);
      LegAppend(st, es, t, fs, t', sc, 2 * i, 2);
      es, t := es + fs, t';
    }
  }

  /** Such a state is reached by a fresh connection as soon as one message is queued at `b`. */
  lemma StarvationIsReachable(st: State, v: nat, sc: Scene) returns (es: seq<Event>)
    requires Initial(st) && AllEmpty(st.queue) && sc.Valid() && v < sc.b
    ensures Run(st, es) && Ready(After(st, es), v, sc)
  {
    var enqueue := Enqueue(sc.b, SOURCE, MESSAGE);
    var a1 := Step(st, Admit);
    var s0 := Step(a1, enqueue);
    assert Run(s0, []) && Run(a1, [enqueue]) && Run(st, [Admit, enqueue]);
    var fs := [ServerReady, NotifyOne, Wake, ReadReady, ReadClosed];
    var s1 := Step(s0, ServerReady);
    var s2 := Step(s1, NotifyOne);
    var s3 := Step(s2, Wake);
    var s4 := Step(s3, ReadReady);
    var s5 := Step(s4, ReadClosed);
    assert Run(s5, []) && Run(s4, [ReadClosed]) && Run(s3, [ReadReady, ReadClosed]);
    assert Run(s2, [Wake, ReadReady, ReadClosed]) && Run(s1, [NotifyOne, Wake, ReadReady, ReadClosed]);
    assert After(st, [Admit, enqueue]) == After(a1, [enqueue]) == s0;
    RunAppend(st, [Admit, enqueue], fs);
    es := [Admit, enqueue] + fs;
    assert After(s0, fs) == s5;
    assert SOURCE in s5.queue[sc.b] && s5.queue[sc.b][SOURCE] != [];
  }

  // ===== exactly when the cap protects a waiting level

  /** A run `fs` of a connection after `es`, as the scene has it. */
  ghost predicate Overtakes(st: State, es: seq<Event>, fs: seq<Event>, sc: Scene)
    requires sc.Valid()
  {
    Initial(st) && Run(st, es) && Run(After(st, es), fs) && Overtaken(After(st, es), fs, sc.busy, sc.b)
    && (sc.contention || Uncontended(fs))
  }

  /** No run of any connection sends more than `bound` messages above `b` while `b` waits. */
  ghost predicate BoundedBy(bound: nat, sc: Scene)
    requires sc.Valid()
  {
    forall st, es, fs | Overtakes(st, es, fs, sc) :: SendsAbove(After(st, es), fs, sc.b) <= bound
  }

  ghost predicate Protected(sc: Scene)
    requires sc.Valid()
  {
    exists bound: nat :: BoundedBy(bound, sc)
  }

  lemma NoBound(sc: Scene, u: nat, v: nat, bound: nat)
    requires sc.Valid() && v in sc.busy && 0 < v < sc.b
    requires sc.contention || (u < v && u in sc.busy)
    ensures !BoundedBy(bound, sc)
  {
    hide Run, After, Overtaken, SendsAbove, Uncontended;
    var st := State(seq(PRIORITY_LEVELS, _ => map[]), Parked, false, false, false, 0, 0);
    var es := StarvationIsReachable(st, v, sc);
    var fs;
    if sc.contention {
      fs := ContentionStarves(After(st, es), v, sc, bound + 1);
    } else {
      fs := TwoBusyLevelsStarve(After(st, es), u, v, sc, bound + 1);
    }
    assert Overtakes(st, es, fs, sc) && SendsAbove(After(st, es), fs, sc.b) > bound;
  }

  lemma CapBounds(sc: Scene)
    requires sc.Valid() && forall l | l in sc.busy :: l < sc.b
    requires sc.busy <= {0} || (!sc.contention && |sc.busy| <= 1)
    ensures BoundedBy(CAP, sc)
  {
    hide Run, After, Overtaken, SendsAbove, Uncontended;
    if sc.busy <= {0} {
      Subset(sc.busy, {0});
    }
    forall st, es, fs | Overtakes(st, es, fs, sc)
      ensures SendsAbove(After(st, es), fs, sc.b) <= CAP
    {
      AtMostOneBusyLevel(st, es, fs, sc.busy, sc.b);
    }
  }

  /**
   Over all runs, a waiting level is served after a bounded number of more urgent messages iff no level above it other
   than level 0 is busy; over the runs without contended locks, iff at most one level above it is busy. The bound is 16.
   */
  lemma ProtectedExactly(sc: Scene)
    requires sc.Valid() && forall l | l in sc.busy :: l < sc.b
    ensures Protected(sc) <==> if sc.contention then sc.busy <= {0} else |sc.busy| <= 1
    ensures Protected(sc) ==> BoundedBy(CAP, sc)
  {
    if if sc.contention then sc.busy <= {0} else |sc.busy| <= 1 {
      CapBounds(sc);
    } else {
      var u, v := TwoLevels(sc);
      forall bound: nat
        ensures !BoundedBy(bound, sc)
      {
        NoBound(sc, u, v, bound);
      }
    }
  }

  lemma TwoLevels(sc: Scene) returns (u: nat, v: nat)
    requires if sc.contention then !(sc.busy <= {0}) else |sc.busy| > 1
    ensures v in sc.busy && v > 0 && (sc.contention || (u < v && u in sc.busy))
  {
    if sc.contention {
      u, v := 0, 0;
      v :| v in sc.busy && v > 0;
    } else {
      u :| u in sc.busy;
      assert |sc.busy - {u}| == |sc.busy| - 1;
      v :| v in sc.busy - {u};
      if v < u {
        u, v := v, u;
      }
    }
  }
}
