/** The client's outbound side as it is written: fields updated in place and the nested scan loops. */
module Sender {
  import opened Wire
  import opened Outbound
  import opened Scheduler

  type Locks = c: seq<bool> | |c| == PRIORITY_LEVELS witness seq(PRIORITY_LEVELS, _ => false)

  /** The levels whose lock somebody else holds. */
  function Held(contended: Locks): set<nat> {
    set l: nat | l < PRIORITY_LEVELS && contended[l]
  }

  datatype Sent = Sent(l: nat, s: Source, msg: Bytes)

  /** What a run of the machine hands to the writer, in order. */
  ghost function SendLog(st: State, es: seq<Event>): seq<Sent>
    requires Run(st, es)
    decreases |es|
  {
    if es == [] then []
    else (if es[0].Send? then [Sent(st.pc.p, es[0].s, Fifo(st.queue, st.pc.p, es[0].s)[0])] else [])
         + SendLog(Step(st, es[0]), es[1..])
  }

  ghost function Pick(x: Sent, l: nat, s: Source): seq<Bytes> {
    if x.l == l && x.s == s then [x.msg] else []
  }

  /** The messages of one level and source in a log. */
  ghost function Only(log: seq<Sent>, l: nat, s: Source): seq<Bytes> {
    if log == [] then [] else Pick(log[0], l, s) + Only(log[1..], l, s)
  }

  lemma {:induction false} OnlyAppend(a: seq<Sent>, b: seq<Sent>, l: nat, s: Source)
    ensures Only(a + b, l, s) == Only(a, l, s) + Only(b, l, s)
  {
    hide Pick;
    if a == [] {
      assert a + b == b;
    } else {
      OnlyAppend(a[1..], b, l, s);
      assert (a + b)[1..] == a[1..] + b;
    }
  }

  lemma {:induction false} LogAppend(st: State, es: seq<Event>, fs: seq<Event>)
    requires Run(st, es) && Run(After(st, es), fs)
    ensures Run(st, es + fs) && SendLog(st, es + fs) == SendLog(st, es) + SendLog(After(st, es), fs)
    decreases |es|
  {
    hide Step, Enabled, Fifo;
    RunAppend(st, es, fs);
    if es == [] {
      assert es + fs == fs;
    } else {
      LogAppend(Step(st, es[0]), es[1..], fs);
      assert (es + fs)[1..] == es[1..] + fs;
    }
  }

  /** A run of the scheduler alone removes exactly what its log shows. */
  lemma {:induction false} LogIsGone(st: State, es: seq<Event>, l: nat, s: Source)
    requires Run(st, es) && AllInternal(es) && l < PRIORITY_LEVELS
    ensures Only(SendLog(st, es), l, s) == Gone(st, es, l, s)
    decreases |es|
  {
    hide Step, Fifo;
    if es != [] {
      assert Internal(es[0]);
      LogIsGone(Step(st, es[0]), es[1..], l, s);
      var rest := SendLog(Step(st, es[0]), es[1..]);
      if es[0].Send? {
        assert SendLog(st, es)[1..] == rest;
      } else {
        assert SendLog(st, es) == rest;
      }
    }
  }

  /** A leg of a scheduler run: what it did, where it ended, what it sent. */
  ghost predicate Did(st: State, es: seq<Event>, t: State, log: seq<Sent>) {
    Run(st, es) && AllInternal(es) && After(st, es) == t && SendLog(st, es) == log
  }

  lemma DidAppend(st: State, es: seq<Event>, mid: State, log: seq<Sent>, fs: seq<Event>, t: State, more: seq<Sent>)
    requires Did(st, es, mid, log) && Did(mid, fs, t, more)
    ensures Did(st, es + fs, t, log + more)
  {
    hide Run, After, SendLog;
    RunAppend(st, es, fs);
    LogAppend(st, es, fs);
  }

  lemma DidOne(st: State, e: Event)
    requires Enabled(st, e) && Internal(e)
    ensures Did(st, [e], Step(st, e), if e.Send? then [Sent(st.pc.p, e.s, Fifo(st.queue, st.pc.p, e.s)[0])] else [])
  {
    assert [e][1..] == [];
    assert Run(Step(st, e), []) && SendLog(Step(st, e), []) == [];
  }

  predicate DataAbove(q: Queues, contended: Locks, p: nat)
    requires p <= PRIORITY_LEVELS
  {
    exists l | 0 <= l < p :: contended[l] || !NoData(q[l])
  }

  /** The looks the machine takes when the code asks whether a more urgent level has data. */
  lemma {:induction false} LookUp(st: State, p: nat, count: nat, q: nat, contended: Locks) returns (es: seq<Event>)
    requires q <= p < PRIORITY_LEVELS && st.pc == Looked(p, count, q)
    requires forall l | 0 <= l < q :: !contended[l] && NoData(st.queue[l])
    ensures Did(st, es, st.(pc := if DataAbove(st.queue, contended, p) then Scan(0, 0, false) else Scan(p, count, true)), [])
    decreases p - q
  {
    if q == p {
      es := [];
      assert Run(st, []);
    } else {
      var e := Look(contended[q]);
      DidOne(st, e);
      if contended[q] || !NoData(st.queue[q]) {
        es := [e];
      } else {
        var rest := LookUp(Step(st, e), p, count, q + 1, contended);
        es := [e] + rest;
        DidAppend(st, [e], Step(st, e), [], rest, After(Step(st, e), rest), []);
      }
    }
  }

  lemma StartsEmpty(st0: State)
    ensures Did(st0, [], st0, [])
  {
  }

  /** Extends the trace of a scan by one send and the looks that follow it. */
  lemma SendAndLook(st0: State, es: seq<Event>, q: Queues, sent: seq<Sent>,
                           p: nat, count: nat, s: Source, contended: Locks) returns (r: seq<Event>)
    requires p < PRIORITY_LEVELS && Fifo(q, p, s) != [] && count < MAX_CONSECUTIVE_PRIORITY_ITEMS
    requires exists had :: Did(st0, es, st0.(queue := q, pc := Scan(p, count, had)), sent)
    ensures var q' := Take(q, p, s);
            Did(st0, r, st0.(queue := q', pc := if DataAbove(q', contended, p) then Scan(0, 0, false) else Scan(p, count + 1, true)),
                sent + [Sent(p, s, Fifo(q, p, s)[0])])
  {
    var had :| Did(st0, es, st0.(queue := q, pc := Scan(p, count, had)), sent);
    var st := st0.(queue := q, pc := Scan(p, count, had));
    var e := Send(s, true);
    DidOne(st, e);
    var t := Step(st, e);
    DidAppend(st0, es, st, sent, [e], t, [Sent(p, s, Fifo(q, p, s)[0])]);
    var looks := LookUp(t, p, count + 1, 0, contended);
    DidAppend(st0, es + [e], t, sent + [Sent(p, s, Fifo(q, p, s)[0])], looks, After(t, looks), []);
    r := es + [e] + looks;
    assert sent + [Sent(p, s, Fifo(q, p, s)[0])] + [] == sent + [Sent(p, s, Fifo(q, p, s)[0])];
  }

  /** Extends the trace by the step to the next level, to the next pass or into the park. */
  lemma MoveOn(st0: State, es: seq<Event>, q: Queues, sent: seq<Sent>, p: nat, count: nat, had: bool)
    returns (r: seq<Event>)
    requires p < PRIORITY_LEVELS && (count >= MAX_CONSECUTIVE_PRIORITY_ITEMS || NoData(q[p]))
    requires Did(st0, es, st0.(queue := q, pc := Scan(p, count, had)), sent)
    ensures Did(st0, r,
                st0.(queue := q,
                     pc := if p + 1 < PRIORITY_LEVELS then Scan(p + 1, 0, had)
                           else if had then Scan(0, 0, false) else Parked),
                sent)
  {
    var st := st0.(queue := q, pc := Scan(p, count, had));
    DidOne(st, NextLevel);
    DidAppend(st0, es, st, sent, [NextLevel], Step(st, NextLevel), []);
    r := es + [NextLevel];
    assert sent + [] == sent;
  }

  lemma CycleConserves(st0: State, es: seq<Event>, q: Queues, sent: seq<Sent>)
    requires Did(st0, es, st0.(queue := q, pc := Parked), sent) && AllEmpty(q)
    ensures forall l, s | 0 <= l < PRIORITY_LEVELS :: Only(sent, l, s) == Fifo(st0.queue, l, s)
  {
    hide Run, After, SendLog, Only, Fifo, Gone, Accepted, AllInternal;
    forall l, s | 0 <= l < PRIORITY_LEVELS
      ensures Only(sent, l, s) == Fifo(st0.queue, l, s)
    {
      LogIsGone(st0, es, l, s);
      Conservation(st0, es, l, s);
      InternalAcceptsNothing(es, l, s);
      AllEmptyFifo(q, l, s);
      assert Fifo(st0.queue, l, s) + [] == Fifo(st0.queue, l, s) && Gone(st0, es, l, s) + [] == Gone(st0, es, l, s);
    }
  }

  class Client {
    var queue: Queues
    var serverReady: bool
    var connectionClosed: bool
    var dataReady: bool            // permit stored in the Notify

    /** Run without interference; `Admit`, `Enqueue` and `NotifyOne` are its three accesses. */
    method QueueMessage(source: Source, data: Bytes, level: nat)
      requires level < PRIORITY_LEVELS
      modifies this`queue, this`dataReady
      ensures old(connectionClosed) ==> queue == old(queue) && dataReady == old(dataReady)
      ensures !old(connectionClosed) ==> dataReady
      ensures !old(connectionClosed) ==>
                forall l, s | 0 <= l < PRIORITY_LEVELS ::
                  Fifo(queue, l, s) == old(Fifo(queue, l, s)) + (if l == level && s == source then [data] else [])
    {
      if connectionClosed {
        return;
      }
      var map_ := queue[level];
      if source !in map_ {
        map_ := map_[source := []];
      }
      map_ := map_[source := map_[source] + [data]];
      queue := queue[level := map_];
      dataReady := true;
    }

    method HigherPriorityDataExists(maxPriority: nat, contended: Locks) returns (found: bool)
      requires maxPriority <= PRIORITY_LEVELS
      ensures found <==> DataAbove(queue, contended, maxPriority)
    {
      for p := 0 to maxPriority
        invariant forall l | 0 <= l < p :: !contended[l] && NoData(queue[l])
      {
        if contended[p] {
          return true;
        }
        if !NoData(queue[p]) {
          return true;
        }
      }
      return false;
    }

    /** The messages of one level, summed over its sources. */
    method CountLevel(p: nat) returns (count: nat)
      requires p < PRIORITY_LEVELS
      ensures count == |Slots(queue)| - |Slots(queue[p := map[]])|
    {
      hide Slots;
      count := 0;
      var left := queue[p];
      assert queue[p := left] == queue;
      while left != map[]
        invariant count + |Slots(queue[p := left])| == |Slots(queue)|
        decreases |left|
      {
        var s :| s in left;
        count := count + |left[s]|;
        ForgetShrinks(queue[p := left], p, s);
        assert queue[p := left][p := left - {s}] == queue[p := left - {s}];
        assert left.Keys - {s} == (left - {s}).Keys;
        left := left - {s};
      }
    }

    method ClearQueuedMessages(contended: Locks) returns (total: nat)
      modifies this`queue
      ensures queue == Cleared(old(queue), Held(contended))
      ensures forall l | 0 <= l < PRIORITY_LEVELS :: queue[l] == if contended[l] then old(queue)[l] else map[]
      ensures total == |Slots(old(queue))| - |Slots(queue)|
    {
      hide Slots;
      total := 0;
      for p := 0 to PRIORITY_LEVELS
        invariant total == |Slots(old(queue))| - |Slots(queue)|
        invariant forall l | 0 <= l < p :: queue[l] == Cleared(old(queue), Held(contended))[l]
        invariant forall l | p <= l < PRIORITY_LEVELS :: queue[l] == old(queue)[l]
      {
        if !contended[p] {
          var count := CountLevel(p);
          total := total + count;
          queue := queue[p := map[]];
        }
      }
    }

    method PruneSources(contended: Locks)
      modifies this`queue
      ensures queue == Pruned(old(queue), Held(contended))
      ensures forall l, s | 0 <= l < PRIORITY_LEVELS ::
                s in queue[l] <==> s in old(queue)[l] && (contended[l] || old(queue)[l][s] != [])
    {
      for p := 0 to PRIORITY_LEVELS
        invariant forall l | 0 <= l < p :: queue[l] == Pruned(old(queue), Held(contended))[l]
        invariant forall l | p <= l < PRIORITY_LEVELS :: queue[l] == old(queue)[l]
      {
        if !contended[p] {
          queue := queue[p := WithoutIdle(queue[p])];
        }
      }
    }

    /**
     One scan cycle with nothing arriving, whatever locks are found contended. It is a run of the machine from
     the start of a pass to the next park; it ends, empties all levels, and sends each FIFO in its order.
     */
    method ScanCycle(ghost st0: State) returns (sent: seq<Sent>, ghost es: seq<Event>)
      requires st0.queue == queue && st0.pc == Scan(0, 0, false)
      modifies this`queue
      ensures Did(st0, es, st0.(queue := queue, pc := Parked), sent)
      ensures AllEmpty(queue)
      ensures forall l, s | 0 <= l < PRIORITY_LEVELS :: Only(sent, l, s) == old(Fifo(queue, l, s))
    {
      hide Did, Slots, DataAbove;
      sent, es := [], [];
      StartsEmpty(st0);
      label reset:
      while true
        invariant Did(st0, es, st0.(queue := queue, pc := Scan(0, 0, false)), sent)
        decreases |Slots(queue)|
      {
        var hadAnyData := false;
        ghost var before := |Slots(queue)|;
        var p := 0;
        while p < PRIORITY_LEVELS
          invariant p <= PRIORITY_LEVELS
          invariant p < PRIORITY_LEVELS ==> Did(st0, es, st0.(queue := queue, pc := Scan(p, 0, hadAnyData)), sent)
          invariant p == PRIORITY_LEVELS ==>
                      Did(st0, es, st0.(queue := queue, pc := if hadAnyData then Scan(0, 0, false) else Parked), sent)
          invariant if hadAnyData then |Slots(queue)| < before else |Slots(queue)| == before
          invariant !hadAnyData ==> forall l | 0 <= l < p :: NoData(queue[l])
          decreases PRIORITY_LEVELS - p
        {
          var consecutive := 0;
          while true
            invariant consecutive <= MAX_CONSECUTIVE_PRIORITY_ITEMS && (consecutive > 0 ==> hadAnyData)
            invariant Did(st0, es, st0.(queue := queue, pc := Scan(p, consecutive, hadAnyData)), sent)
            invariant if hadAnyData then |Slots(queue)| < before else |Slots(queue)| == before
            invariant !hadAnyData ==> forall l | 0 <= l < p :: NoData(queue[l])
            decreases |Slots(queue)|
          {
            if consecutive >= MAX_CONSECUTIVE_PRIORITY_ITEMS {
              break;
            }
            if NoData(queue[p]) {
              break;
            }
            var source :| source in queue[p] && queue[p][source] != [];
            var item := queue[p][source][0];
            var contended: Locks := *;
            ghost var wasQueue, wasSent := queue, sent;
            TakeShrinks(queue, p, source);
            queue := queue[p := queue[p][source := queue[p][source][1..]]];
            hadAnyData := true;
            consecutive := consecutive + 1;
            sent := sent + [Sent(p, source, item)];
            var higher := HigherPriorityDataExists(p, contended);
            es := SendAndLook(st0, es, wasQueue, wasSent, p, consecutive - 1, source, contended);
            if higher {
              continue reset;
            }
          }
          es := MoveOn(st0, es, queue, sent, p, consecutive, hadAnyData);
          p := p + 1;
        }
        if !hadAnyData {
          break;
        }
      }
      CycleConserves(st0, es, queue, sent);
    }
  }
}
