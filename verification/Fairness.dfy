/** How long a waiting level can be overtaken: exact limits of the 16-message cap. */
module Fairness {
  import opened Outbound
  import opened Scheduler

  const CAP: nat := MAX_CONSECUTIVE_PRIORITY_ITEMS

  /** Number of messages a run sends at level `a`. */
  ghost function SendsAt(st: State, es: seq<Event>, a: nat): nat
    requires Run(st, es)
    decreases |es|
  {
    if es == [] then 0
    else (if es[0].Send? && st.pc.p == a then 1 else 0) + SendsAt(Step(st, es[0]), es[1..], a)
  }

  /** Number of times a contended lock sends the scan back to level 0 right after a message of level `a`. */
  ghost function Restarts(st: State, es: seq<Event>, a: nat): nat
    requires Run(st, es)
    decreases |es|
  {
    if es == [] then 0
    else (if Restart(st, es[0], a) then 1 else 0) + Restarts(Step(st, es[0]), es[1..], a)
  }

  predicate Restart(st: State, e: Event, a: nat) {
    e == Look(true) && st.pc.Check? && st.pc.p == a
  }

  /** After a message of level 0 no lock is looked at. */
  lemma {:induction false} NoRestartsAtTheTop(st: State, es: seq<Event>)
    requires Run(st, es)
    ensures Restarts(st, es, 0) == 0
    decreases |es|
  {
    if es != [] {
      NoRestartsAtTheTop(Step(st, es[0]), es[1..]);
    }
  }

  /** No lock is found contended. */
  ghost predicate Uncontended(es: seq<Event>) {
    forall i | 0 <= i < |es| :: es[i] != Look(true)
  }

  lemma {:induction false} NoRestartsUncontended(st: State, es: seq<Event>, a: nat)
    requires Run(st, es) && Uncontended(es)
    ensures Restarts(st, es, a) == 0
    decreases |es|
  {
    if es != [] {
      NoRestartsUncontended(Step(st, es[0]), es[1..], a);
    }
  }

  // ===== one busy level above a waiting one

  /** Level `b` waits all along, `a` is the only more urgent level that ever holds data. */
  ghost predicate OnlyAbove(st: State, es: seq<Event>, a: nat, b: nat)
    requires Run(st, es) && a < b < PRIORITY_LEVELS
    decreases |es|
  {
    !NoData(st.queue[b])
    && (forall l | 0 <= l < b && l != a :: NoData(st.queue[l]))
    && (es != [] ==>
          (es[0].Send? ==> st.pc.p != b)
          && OnlyAbove(Step(st, es[0]), es[1..], a, b))
  }

  ghost function Allowance(pc: Pc, a: nat, b: nat): (n: nat)
    requires PcOk(pc)
    ensures n <= CAP
  {
    match pc
    case Scan(p, count, _) =>
      if p == a then CAP - count
      else if a < p < b || (p == b && count < CAP) then 0
      else CAP
    case Check(p, count, _) => if p == a then CAP - count else CAP
    case Exited => 0
    case _ => CAP
  }

  lemma AllowanceStep(st: State, e: Event, a: nat, b: nat)
    requires Inv(st) && Enabled(st, e) && a < b < PRIORITY_LEVELS
    requires !NoData(st.queue[b]) && forall l | 0 <= l < b && l != a :: NoData(st.queue[l])
    requires e.Send? ==> st.pc.p != b
    ensures PcOk(Step(st, e).pc)
    ensures (if e.Send? && st.pc.p == a then 1 else 0) + Allowance(Step(st, e).pc, a, b)
            <= Allowance(st.pc, a, b) + (if Restart(st, e, a) then CAP else 0)
  {
    InvStep(st, e);
  }

  lemma {:induction false} SendsWithinAllowance(st: State, es: seq<Event>, a: nat, b: nat)
    requires Inv(st) && Run(st, es) && a < b < PRIORITY_LEVELS && OnlyAbove(st, es, a, b)
    ensures SendsAt(st, es, a) <= Allowance(st.pc, a, b) + CAP * Restarts(st, es, a)
    decreases |es|
  {
    hide Inv, Allowance, Step, Enabled, Restart;
    if es != [] {
      InvStep(st, es[0]);
      AllowanceStep(st, es[0], a, b);
      SendsWithinAllowance(Step(st, es[0]), es[1..], a, b);
    }
  }

  /**
   Bounded overtaking: however fast level `a` fills up, at most 16 of its messages go out while a less urgent level `b`
   waits, and at most 16 more for each time a contended lock restarts the scan, if no other level above `b` holds data.
   */
  lemma BoundedOvertaking(st: State, es: seq<Event>, fs: seq<Event>, a: nat, b: nat)
    requires Initial(st) && Run(st, es) && Run(After(st, es), fs)
    requires a < b < PRIORITY_LEVELS && OnlyAbove(After(st, es), fs, a, b)
    ensures SendsAt(After(st, es), fs, a) <= CAP * (1 + Restarts(After(st, es), fs, a))
    ensures a == 0 || Uncontended(fs) ==> SendsAt(After(st, es), fs, a) <= CAP
  {
    InvRun(st, es);
    SendsWithinAllowance(After(st, es), fs, a, b);
    if a == 0 {
      NoRestartsAtTheTop(After(st, es), fs);
    } else if Uncontended(fs) {
      NoRestartsUncontended(After(st, es), fs, a);
    }
  }

  // ===== any set of busy levels above a waiting one

  /** Number of messages a run sends at levels more urgent than `b`. */
  ghost function SendsAbove(st: State, es: seq<Event>, b: nat): nat
    requires Run(st, es)
    decreases |es|
  {
    if es == [] then 0
    else (if es[0].Send? && st.pc.p < b then 1 else 0) + SendsAbove(Step(st, es[0]), es[1..], b)
  }

  ghost predicate Backlog(q: Queues, busy: set<nat>, b: nat)
    requires b < PRIORITY_LEVELS
  {
    !NoData(q[b]) && forall l: nat | l < b && l !in busy :: NoData(q[l])
  }

  /** Level `b` waits all along, only `busy` levels above it ever hold data. */
  ghost predicate Overtaken(st: State, es: seq<Event>, busy: set<nat>, b: nat)
    requires Run(st, es) && b < PRIORITY_LEVELS
    decreases |es|
  {
    Backlog(st.queue, busy, b)
    && (es != [] ==>
          (es[0].Send? ==> st.pc.p != b)
          && Overtaken(Step(st, es[0]), es[1..], busy, b))
  }

  /** A single busy level is the case of `BoundedOvertaking`. */
  lemma {:induction false} OneBusyLevel(st: State, es: seq<Event>, busy: set<nat>, a: nat, b: nat)
    requires Run(st, es) && a < b < PRIORITY_LEVELS && busy <= {a} && Overtaken(st, es, busy, b)
    ensures OnlyAbove(st, es, a, b) && SendsAbove(st, es, b) == SendsAt(st, es, a)
    decreases |es|
  {
    if es != [] {
      OneBusyLevel(Step(st, es[0]), es[1..], busy, a, b);
    }
  }

  lemma {:induction false} NothingAboveTheTop(st: State, es: seq<Event>)
    requires Run(st, es)
    ensures SendsAbove(st, es, 0) == 0
    decreases |es|
  {
    if es != [] {
      NothingAboveTheTop(Step(st, es[0]), es[1..]);
    }
  }

  lemma AtMostOneBusyLevel(st: State, es: seq<Event>, fs: seq<Event>, busy: set<nat>, b: nat)
    requires Initial(st) && Run(st, es) && Run(After(st, es), fs) && b < PRIORITY_LEVELS
    requires |busy| <= 1 && (forall l | l in busy :: l < b) && Overtaken(After(st, es), fs, busy, b)
    ensures busy <= {0} || Uncontended(fs) ==> SendsAbove(After(st, es), fs, b) <= CAP
  {
    if b == 0 {
      NothingAboveTheTop(After(st, es), fs);
    } else {
      var a: nat := 0;
      if busy != {} {
        a :| a in busy;
        Singleton(busy, a);
      }
      OneBusyLevel(After(st, es), fs, busy, a, b);
      BoundedOvertaking(st, es, fs, a, b);
    }
  }

  lemma Singleton(busy: set<nat>, a: nat)
    requires |busy| <= 1 && a in busy
    ensures busy == {a}
  {
    if x :| x in busy && x != a {
      assert {a, x} <= busy;
      Subset({a, x}, busy);
    }
  }

  lemma {:induction false} Subset(a: set<nat>, b: set<nat>)
    requires a <= b
    ensures |a| <= |b|
  {
    if x :| x in a {
      Subset(a - {x}, b - {x});
    }
  }

  // ===== no level sends more than 16 in a row while a less urgent one waits

  /** Level `r` waits all along and everything sent is of level `a`; nothing is cleared. */
  ghost predicate Streak(st: State, es: seq<Event>, a: nat, r: nat)
    requires Run(st, es) && a < r < PRIORITY_LEVELS
    decreases |es|
  {
    !NoData(st.queue[r])
    && (es != [] ==>
          StreakEvent(st, es[0], a) && Streak(Step(st, es[0]), es[1..], a, r))
  }

  predicate StreakEvent(st: State, e: Event, a: nat) {
    !e.Disconnect? && (e.Send? ==> st.pc.Scan? && st.pc.p == a)
  }

  ghost predicate DataIn(q: Queues, lo: nat, hi: nat)
    requires hi <= PRIORITY_LEVELS
  {
    exists l | lo <= l < hi :: !NoData(q[l])
  }

  /** The scan is bound to send from a level above `a` before it gets to `a`. */
  ghost predicate Diverted(st: State, a: nat)
    requires a < PRIORITY_LEVELS && PcOk(st.pc)
  {
    match st.pc
    case Scan(p, count, _) => p < a && ((count < CAP && !NoData(st.queue[p])) || DataIn(st.queue, p + 1, a))
    case Check(p, _, q) => p == a && DataIn(st.queue, q, a)
    case _ => false
  }

  ghost function StreakAllowance(st: State, a: nat, r: nat): (n: nat)
    requires PcOk(st.pc) && a < r < PRIORITY_LEVELS
    ensures n <= CAP
  {
    if Diverted(st, a) then 0 else Allowance(st.pc, a, r)
  }

  lemma StreakStep(st: State, e: Event, a: nat, r: nat)
    requires Inv(st) && Enabled(st, e) && a < r < PRIORITY_LEVELS
    requires !NoData(st.queue[r]) && StreakEvent(st, e, a)
    ensures PcOk(Step(st, e).pc)
    ensures (if e.Send? then 1 else 0) + StreakAllowance(Step(st, e), a, r)
            <= StreakAllowance(st, a, r) + (if Restart(st, e, a) then CAP else 0)
  {
    InvStep(st, e);
    if Diverted(st, a) && !Restart(st, e, a) {
      DivertedStep(st, e, a);
    }
  }

  lemma DivertedStep(st: State, e: Event, a: nat)
    requires Inv(st) && Enabled(st, e) && a < PRIORITY_LEVELS
    requires StreakEvent(st, e, a) && Diverted(st, a) && !Restart(st, e, a)
    ensures !e.Send? && PcOk(Step(st, e).pc) && Diverted(Step(st, e), a)
  {
    InvStep(st, e);
    var t := Step(st, e);
    if e.Prune? || e.Enqueue? {
      forall l | 0 <= l < PRIORITY_LEVELS && !NoData(st.queue[l])
        ensures !NoData(t.queue[l])
      {
        var s :| s in st.queue[l] && st.queue[l][s] != [];
        assert s in t.queue[l] && t.queue[l][s] != [];
      }
    }
  }

  lemma {:induction false} StreakWithinAllowance(st: State, es: seq<Event>, a: nat, r: nat)
    requires Inv(st) && Run(st, es) && a < r < PRIORITY_LEVELS && Streak(st, es, a, r)
    ensures SendsAt(st, es, a) <= StreakAllowance(st, a, r) + CAP * Restarts(st, es, a)
    decreases |es|
  {
    hide Inv, StreakAllowance, Step, Enabled, Restart;
    if es != [] {
      InvStep(st, es[0]);
      StreakStep(st, es[0], a, r);
      StreakWithinAllowance(Step(st, es[0]), es[1..], a, r);
    }
  }

  /**
   While a less urgent level holds data, at most 16 messages of one level are sent in a row, whatever arrives, and at
   most 16 more for each time a contended lock restarts the scan.
   */
  lemma AtMostSixteenInARow(st: State, es: seq<Event>, fs: seq<Event>, a: nat, r: nat)
    requires Initial(st) && Run(st, es) && Run(After(st, es), fs)
    requires a < r < PRIORITY_LEVELS && Streak(After(st, es), fs, a, r)
    ensures SendsAt(After(st, es), fs, a) <= CAP * (1 + Restarts(After(st, es), fs, a))
    ensures a == 0 || Uncontended(fs) ==> SendsAt(After(st, es), fs, a) <= CAP
  {
    InvRun(st, es);
    StreakWithinAllowance(After(st, es), fs, a, r);
    if a == 0 {
      NoRestartsAtTheTop(After(st, es), fs);
    } else if Uncontended(fs) {
      NoRestartsUncontended(After(st, es), fs, a);
    }
  }
}
