/**
 The scheduler of one connection together with everything that runs beside it: producers, the
 SERVER_READY handler, the pruner and the disconnect handler. Every event is one atomic access to
 the shared state, and carries the choices the environment makes (which source the map yields first,
 which locks are contended), so that a run is a list of events and a next state is a function.
 */
module Scheduler {
  import opened Wire
  import opened Outbound

  const MAX_CONSECUTIVE_PRIORITY_ITEMS: nat := 16

  datatype Pc =
    | Parked                                  // awaiting data_ready.notified()
    | Woken                                   // about to read server_ready
    | SawReady                                // about to read connection_closed
    | Scan(p: nat, count: nat, had: bool)     // head of the inner loop at level p
    | Check(p: nat, count: nat, q: nat)       // after a send at level p, about to look at level q < p
    | Exited

  datatype State = State(
    queue: Queues,
    pc: Pc,
    serverReady: bool,
    closed: bool,
    permit: bool,        // stored by Notify::notify_one
    admitted: nat,       // producers past their connection_closed check
    notifying: nat)      // writers between their write and their notify_one

  datatype Event =
    | Admit
    | Enqueue(l: nat, s: Source, msg: Bytes)
    | NotifyOne
    | ServerReady
    | Prune(skipped: set<nat>)
    | Disconnect(skipped: set<nat>)
    | Wake
    | ReadReady
    | ReadClosed
    | Send(s: Source, delivered: bool)   // not delivered: the writer channel is gone
    | NextLevel
    | Look(contended: bool)

  /** Events of the scheduler task itself. */
  predicate IsScheduler(e: Event) {
    e.Wake? || e.ReadReady? || e.ReadClosed? || e.Send? || e.NextLevel? || e.Look?
  }

  ghost predicate Enabled(st: State, e: Event) {
    match e
    case Admit => !st.closed
    case Enqueue(l, _, _) => st.admitted > 0 && l < PRIORITY_LEVELS
    case NotifyOne => st.notifying > 0
    case ServerReady => true
    case Prune(_) => true
    case Disconnect(_) => true
    case Wake => st.pc.Parked? && st.permit
    case ReadReady => st.pc.Woken?
    case ReadClosed => st.pc.SawReady?
    case Send(s, _) =>
      st.pc.Scan? && st.pc.p < PRIORITY_LEVELS && st.pc.count < MAX_CONSECUTIVE_PRIORITY_ITEMS
      && Fifo(st.queue, st.pc.p, s) != []
    case NextLevel =>
      st.pc.Scan? && st.pc.p < PRIORITY_LEVELS
      && (st.pc.count >= MAX_CONSECUTIVE_PRIORITY_ITEMS || NoData(st.queue[st.pc.p]))
    case Look(_) => st.pc.Check? && st.pc.q < st.pc.p < PRIORITY_LEVELS
  }

  /** Where the scan stands once the levels below `q` have been looked at without finding data. */
  function Looked(p: nat, count: nat, q: nat): Pc {
    if q < p then Check(p, count, q) else Scan(p, count, true)
  }

  ghost function Step(st: State, e: Event): State
    requires Enabled(st, e)
  {
    match e
    case Admit => st.(admitted := st.admitted + 1)
    case Enqueue(l, s, msg) =>
      st.(queue := Push(st.queue, l, s, msg), admitted := st.admitted - 1, notifying := st.notifying + 1)
    case NotifyOne => st.(permit := true, notifying := st.notifying - 1)
    case ServerReady => st.(serverReady := true, notifying := st.notifying + 1)
    case Prune(skipped) => st.(queue := Pruned(st.queue, skipped))
    case Disconnect(skipped) =>
      st.(closed := true, serverReady := false, queue := Cleared(st.queue, skipped))
    case Wake => st.(permit := false, pc := Woken)
    case ReadReady => st.(pc := if st.serverReady then SawReady else Parked)
    case ReadClosed => st.(pc := if st.closed then Exited else Scan(0, 0, false))
    case Send(s, delivered) =>
      st.(queue := Take(st.queue, st.pc.p, s),
          pc := if delivered then Looked(st.pc.p, st.pc.count + 1, 0) else Exited)
    case NextLevel =>
      st.(pc := if st.pc.p + 1 < PRIORITY_LEVELS then Scan(st.pc.p + 1, 0, st.pc.had)
                else if st.pc.had then Scan(0, 0, false)
                else Parked)
    case Look(contended) =>
      st.(pc := if contended || !NoData(st.queue[st.pc.q]) then Scan(0, 0, false)
                else Looked(st.pc.p, st.pc.count, st.pc.q + 1))
  }

  ghost predicate Run(st: State, es: seq<Event>)
    decreases |es|
  {
    es == [] || (Enabled(st, es[0]) && Run(Step(st, es[0]), es[1..]))
  }

  ghost function After(st: State, es: seq<Event>): State
    requires Run(st, es)
    decreases |es|
  {
    if es == [] then st else After(Step(st, es[0]), es[1..])
  }

  lemma {:induction false} RunAppend(st: State, es: seq<Event>, fs: seq<Event>)
    requires Run(st, es) && Run(After(st, es), fs)
    ensures Run(st, es + fs) && After(st, es + fs) == After(After(st, es), fs)
    decreases |es|
  {
    if es == [] {
      assert es + fs == fs;
    } else {
      RunAppend(Step(st, es[0]), es[1..], fs);
      assert (es + fs)[1..] == es[1..] + fs;
    }
  }

  /** The state a new connection's scheduler starts in; older messages may still be queued. */
  ghost predicate Initial(st: State) {
    st.pc == Parked && !st.serverReady && !st.closed
  }

  // ===== no lost wake-up

  predicate Signalled(st: State) {
    st.permit || st.notifying > 0
  }

  ghost predicate PcOk(pc: Pc) {
    match pc
    case Scan(p, count, had) => p < PRIORITY_LEVELS && count <= MAX_CONSECUTIVE_PRIORITY_ITEMS && (count > 0 ==> had)
    case Check(p, count, q) => q < p < PRIORITY_LEVELS && 1 <= count <= MAX_CONSECUTIVE_PRIORITY_ITEMS
    case _ => true
  }

  /** A level the current pass has gone by is empty, or a wake-up is under way, or another pass follows. */
  ghost predicate Inv(st: State) {
    PcOk(st.pc)
    && (st.pc.Parked? && st.serverReady && !AllEmpty(st.queue) ==> Signalled(st))
    && (st.pc.Scan? && !st.pc.had && !Signalled(st) ==> forall l | 0 <= l < st.pc.p :: NoData(st.queue[l]))
  }

  lemma InvStep(st: State, e: Event)
    requires Inv(st) && Enabled(st, e)
    ensures Inv(Step(st, e))
  {
    if IsScheduler(e) {
      InvSchedulerStep(st, e);
    }
  }

  lemma InvSchedulerStep(st: State, e: Event)
    requires Inv(st) && Enabled(st, e) && IsScheduler(e)
    ensures Inv(Step(st, e))
  {
  }

  lemma {:induction false} InvRun(st: State, es: seq<Event>)
    requires Inv(st) && Run(st, es)
    ensures Inv(After(st, es))
    decreases |es|
  {
    if es != [] {
      InvStep(st, es[0]);
      InvRun(Step(st, es[0]), es[1..]);
    }
  }

  /** In every interleaving: parked with work to do means a permit is stored or a notify is on its way. */
  lemma NoLostWakeUp(st: State, es: seq<Event>)
    requires Initial(st) && Run(st, es)
    ensures var t := After(st, es);
            t.pc.Parked? && t.serverReady && !AllEmpty(t.queue) ==> t.permit || t.notifying > 0
  {
    InvRun(st, es);
  }

  // ===== termination and drain

  predicate Internal(e: Event) {
    IsScheduler(e) || e.NotifyOne?
  }

  ghost predicate AllInternal(es: seq<Event>) {
    forall i | 0 <= i < |es| :: Internal(es[i])
  }

  ghost function Rank(pc: Pc): nat
    requires PcOk(pc)
  {
    match pc
    case Parked => 0
    case Exited => 0
    case Woken => 22
    case SawReady => 21
    case Scan(p, _, had) => PRIORITY_LEVELS - p + (if had then PRIORITY_LEVELS else 0)
    case Check(p, _, q) => p - q + 40
  }

  /** Bounds what the scheduler and the pending notifications can still do by themselves. */
  ghost function Work(st: State): nat
    requires PcOk(st.pc)
  {
    60 * |Slots(st.queue)| + 24 * st.notifying + (if st.permit then 23 else 0) + Rank(st.pc)
  }

  lemma InternalStepWorks(st: State, e: Event)
    requires Inv(st) && Enabled(st, e) && Internal(e)
    ensures PcOk(Step(st, e).pc) && Work(Step(st, e)) < Work(st)
  {
    hide NoData, AllEmpty, Slots, Take;
    InvStep(st, e);
    if e.Send? {
      TakeShrinks(st.queue, st.pc.p, e.s);
    }
  }

  /** Without arrivals every run is finite, whatever locks are contended. */
  lemma {:induction false} InternalRunsTerminate(st: State, es: seq<Event>)
    requires Inv(st) && Run(st, es) && AllInternal(es)
    ensures |es| <= Work(st)
    decreases |es|
  {
    if es != [] {
      InternalStepWorks(st, es[0]);
      InvStep(st, es[0]);
      InternalRunsTerminate(Step(st, es[0]), es[1..]);
    }
  }

  ghost predicate Quiescent(st: State) {
    forall e | Internal(e) :: !Enabled(st, e)
  }

  /** The scheduler never blocks anywhere but in `notified()`. */
  lemma OnlyParkedWaits(st: State) returns (e: Event)
    requires PcOk(st.pc) && !st.pc.Exited? && !st.pc.Parked?
    ensures IsScheduler(e) && Enabled(st, e)
  {
    match st.pc
    case Woken => e := ReadReady;
    case SawReady => e := ReadClosed;
    case Check(_, _, _) => e := Look(false);
    case Scan(p, count, _) =>
      if count >= MAX_CONSECUTIVE_PRIORITY_ITEMS || NoData(st.queue[p]) {
        e := NextLevel;
      } else {
        var s :| s in st.queue[p] && st.queue[p][s] != [];
        e := Send(s, true);
      }
  }

  lemma QuiescentIsParked(st: State)
    requires PcOk(st.pc) && Quiescent(st)
    ensures st.pc.Exited? || (st.pc.Parked? && !Signalled(st))
  {
    assert !Enabled(st, NotifyOne) && !Enabled(st, Wake);
    if !st.pc.Exited? && !st.pc.Parked? {
      var e := OnlyParkedWaits(st);
    }
  }

  // ===== conservation

  function Accepted(es: seq<Event>, l: nat, s: Source): seq<Bytes> {
    if es == [] then []
    else (if es[0].Enqueue? && es[0].l == l && es[0].s == s then [es[0].msg] else []) + Accepted(es[1..], l, s)
  }

  /** What one event removes from a FIFO: the head when it is sent, everything when the level is cleared. */
  ghost function Removed(st: State, e: Event, l: nat, s: Source): seq<Bytes>
    requires Enabled(st, e) && l < PRIORITY_LEVELS
  {
    if e.Send? && st.pc.p == l && e.s == s then [Fifo(st.queue, l, s)[0]]
    else if e.Disconnect? && l !in e.skipped then Fifo(st.queue, l, s)
    else []
  }

  ghost function Gone(st: State, es: seq<Event>, l: nat, s: Source): seq<Bytes>
    requires Run(st, es) && l < PRIORITY_LEVELS
    decreases |es|
  {
    if es == [] then [] else Removed(st, es[0], l, s) + Gone(Step(st, es[0]), es[1..], l, s)
  }

  lemma ConservationStep(st: State, e: Event, l: nat, s: Source)
    requires Enabled(st, e) && l < PRIORITY_LEVELS
    ensures Fifo(st.queue, l, s) + Accepted([e], l, s) == Removed(st, e, l, s) + Fifo(Step(st, e).queue, l, s)
  {
    assert Accepted([e], l, s) == (if e.Enqueue? && e.l == l && e.s == s then [e.msg] else []);
    if e.Enqueue? {
    } else if e.Send? {
    } else if e.Prune? {
    }
  }

  /** Per level and source nothing is lost, duplicated or reordered, in any interleaving. */
  lemma {:induction false} Conservation(st: State, es: seq<Event>, l: nat, s: Source)
    requires Run(st, es) && l < PRIORITY_LEVELS
    ensures Fifo(st.queue, l, s) + Accepted(es, l, s) == Gone(st, es, l, s) + Fifo(After(st, es).queue, l, s)
    decreases |es|
  {
    hide Step, Enabled, Fifo, Removed;
    if es != [] {
      var t := Step(st, es[0]);
      ConservationStep(st, es[0], l, s);
      Conservation(t, es[1..], l, s);
      calc {
        Fifo(st.queue, l, s) + Accepted(es, l, s);
        { assert Accepted(es, l, s) == Accepted([es[0]], l, s) + Accepted(es[1..], l, s); }
        Fifo(st.queue, l, s) + Accepted([es[0]], l, s) + Accepted(es[1..], l, s);
        Removed(st, es[0], l, s) + (Fifo(t.queue, l, s) + Accepted(es[1..], l, s));
        Removed(st, es[0], l, s) + Gone(t, es[1..], l, s) + Fifo(After(st, es).queue, l, s);
      }
    }
  }

  lemma {:induction false} InternalAcceptsNothing(es: seq<Event>, l: nat, s: Source)
    requires AllInternal(es)
    ensures Accepted(es, l, s) == []
  {
    if es != [] {
      assert Internal(es[0]);
      InternalAcceptsNothing(es[1..], l, s);
    }
  }

  lemma {:induction false} InternalKeepsConnection(st: State, es: seq<Event>)
    requires Run(st, es) && AllInternal(es) && !st.closed && !st.pc.Exited?
    requires forall i | 0 <= i < |es| && es[i].Send? :: es[i].delivered
    ensures var t := After(st, es); !t.closed && t.serverReady == st.serverReady && !t.pc.Exited?
    decreases |es|
  {
    if es != [] {
      assert Internal(es[0]);
      InternalKeepsConnection(Step(st, es[0]), es[1..]);
    }
  }

  /**
   Once nothing more arrives, the queues of a ready connection drain completely: a run that cannot go on
   has sent every message, those of each level and source in the order they were queued.
   */
  lemma DrainsInOrder(st: State, es: seq<Event>)
    requires Inv(st) && st.serverReady && !st.closed && !st.pc.Exited?
    requires Run(st, es) && AllInternal(es) && Quiescent(After(st, es))
    requires forall i | 0 <= i < |es| && es[i].Send? :: es[i].delivered
    ensures AllEmpty(After(st, es).queue)
    ensures forall l, s | 0 <= l < PRIORITY_LEVELS :: Gone(st, es, l, s) == Fifo(st.queue, l, s)
  {
    hide Step, Enabled, Fifo, Gone, Run, After, AllInternal, Accepted;
    var t := After(st, es);
    InvRun(st, es);
    InternalKeepsConnection(st, es);
    QuiescentIsParked(t);
    forall l, s | 0 <= l < PRIORITY_LEVELS
      ensures Gone(st, es, l, s) == Fifo(st.queue, l, s)
    {
      Conservation(st, es, l, s);
      InternalAcceptsNothing(es, l, s);
      AllEmptyFifo(t.queue, l, s);
      assert Fifo(st.queue, l, s) + [] == Fifo(st.queue, l, s) && Gone(st, es, l, s) + [] == Gone(st, es, l, s);
    }
  }

  // ===== which level is served next

  /** Level of the first message sent by a run. */
  ghost function FirstSend(st: State, es: seq<Event>): Option<nat>
    requires Run(st, es)
    decreases |es|
  {
    if es == [] then None
    else if es[0].Send? then Some(st.pc.p)
    else FirstSend(Step(st, es[0]), es[1..])
  }

  /** The scan passes level `q` before it can send anything less urgent. */
  predicate Heading(pc: Pc, q: nat) {
    q < PRIORITY_LEVELS
    && ((pc.Check? && pc.q <= q < pc.p) || (pc.Scan? && pc.p <= q && pc.count == 0))
  }

  lemma {:induction false} HeadingServesUrgent(st: State, es: seq<Event>, q: nat)
    requires Run(st, es) && Heading(st.pc, q) && !NoData(st.queue[q])
    requires forall i | 0 <= i < |es| :: !es[i].Disconnect?
    ensures FirstSend(st, es).Some? ==> FirstSend(st, es).value <= q
    ensures FirstSend(st, es).Some?
            && (forall l | 0 <= l < q :: NoData(st.queue[l]))
            && (forall i | 0 <= i < |es| && es[i].Enqueue? :: es[i].l >= q)
            ==> FirstSend(st, es).value == q
    decreases |es|
  {
    if es != [] && !es[0].Send? {
      HeadingStep(st, es[0], q);
      HeadingServesUrgent(Step(st, es[0]), es[1..], q);
    }
  }

  lemma HeadingStep(st: State, e: Event, q: nat)
    requires Enabled(st, e) && Heading(st.pc, q) && !NoData(st.queue[q]) && !e.Disconnect? && !e.Send?
    ensures Heading(Step(st, e).pc, q) && !NoData(Step(st, e).queue[q])
    ensures (forall l | 0 <= l < q :: NoData(st.queue[l])) && (e.Enqueue? ==> e.l >= q)
            ==> forall l | 0 <= l < q :: NoData(Step(st, e).queue[l])
  {
    if e.Prune? || e.Enqueue? {
      var s :| s in st.queue[q] && st.queue[q][s] != [];
      assert s in Step(st, e).queue[q] && Step(st, e).queue[q][s] != [];
    }
  }

  /**
   After a send that leaves a more urgent level `q` with data, the next send is at `q` or above, and at `q`
   itself when `q` is the most urgent such level and nothing more urgent arrives.
   */
  lemma NextSendIsMostUrgent(st: State, s: Source, es: seq<Event>, q: nat)
    requires Enabled(st, Send(s, true)) && q < st.pc.p && !NoData(Step(st, Send(s, true)).queue[q])
    requires Run(Step(st, Send(s, true)), es) && forall i | 0 <= i < |es| :: !es[i].Disconnect?
    ensures var t := Step(st, Send(s, true));
            FirstSend(t, es).Some? ==>
              FirstSend(t, es).value <= q
              && ((forall l | 0 <= l < q :: NoData(t.queue[l]))
                  && (forall i | 0 <= i < |es| && es[i].Enqueue? :: es[i].l >= q)
                  ==> FirstSend(t, es).value == q)
  {
    HeadingServesUrgent(Step(st, Send(s, true)), es, q);
  }
}
