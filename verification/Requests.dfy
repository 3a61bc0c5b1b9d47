/**
 The DB request/response protocol across connection generations. Callers are numbered by the order in which they
 obtain an id (their serial); the id on the wire is the serial modulo 2^32. The steps of `send_db_request` are
 separate events; a handler's generation check and its effect are one event.
 */
module Requests {
  import opened Wire

  const IDS: nat := 0x1_0000_0000

  /** A oneshot channel: its sender is in the promise map exactly while it is open. */
  datatype Channel = Open | Delivered(gen: nat, tag: u32, body: Bytes) | Dropped

  datatype Outcome = Reply(gen: nat, tag: u32, body: Bytes) | Disconnected | TimedOut | ChannelClosed

  datatype Stage =
    | Issued                     // has an id
    | Inserted                   // promise is in the map
    | Queued                     // queue_message has returned
    | Failing                    // re-check saw the connection closed, promise not yet removed
    | Waiting                    // awaiting the reply
    | TimingOut                  // timer fired, promise not yet removed
    | Done(outcome: Outcome)

  datatype Request = Request(
    stage: Stage,
    channel: Channel,
    droppedIn: Option<nat>,      // the epoch in which queue_message dropped the message
    passedIn: Option<nat>,       // the epoch in which the re-check let it through
    cut: bool)                   // a disconnect dropped its promise

  datatype Link = Idle | Connecting | Up

  datatype State = State(
    connectionId: nat,
    epoch: nat,                  // connections established so far
    link: Link,                  // where the supervisor is
    tasks: bool,                 // the tasks of the current generation exist
    closed: bool,
    ready: bool,
    looking: nat,                // callers that have read connection_closed
    admitted: nat,               // callers past both initial checks
    promises: map<u32, nat>,
    requests: seq<Request>)

  datatype Event =
    | Attempt | Established | ConnectFailed | Returned
    | ServerReady(gen: nat)
    | Response(gen: nat, tag: u32, body: Bytes)
    | Disconnect(gen: nat)
    | CheckClosed | CheckReady | Issue
    | Insert(n: nat) | Queue(n: nat) | Recheck(n: nat) | Fail(n: nat)
    | Timer(n: nat) | Expire(n: nat) | Receive(n: nat)

  function IdOf(n: nat): u32 {
    n % IDS
  }

  /** A handler of generation `gen` can still run; only the newest one passes the id check. */
  predicate Alive(st: State, gen: nat) {
    gen < st.connectionId || (gen == st.connectionId && st.tasks)
  }

  predicate At(st: State, n: nat, stage: Stage) {
    n < |st.requests| && st.requests[n].stage == stage
  }

  predicate Enabled(st: State, e: Event) {
    match e
    case Attempt => st.link.Idle? && (st.closed || st.epoch == 0)
    case Established => st.link.Connecting?
    case ConnectFailed => st.link.Connecting?
    case Returned => st.link.Up? && st.closed
    case ServerReady(gen) => Alive(st, gen)
    case Response(gen, _, _) => Alive(st, gen)
    case Disconnect(gen) => Alive(st, gen)
    case CheckClosed => !st.closed
    case CheckReady => st.looking > 0 && st.ready
    case Issue => st.admitted > 0
    case Insert(n) => At(st, n, Issued)
    case Queue(n) => At(st, n, Inserted)
    case Recheck(n) => At(st, n, Queued)
    case Fail(n) => At(st, n, Failing)
    case Timer(n) => At(st, n, Waiting) && st.requests[n].channel.Open?
    case Expire(n) => At(st, n, TimingOut)
    case Receive(n) => At(st, n, Waiting) && !st.requests[n].channel.Open?
  }

  /** The sender of request `n` is the one stored under `id`. */
  predicate Holds(st: State, id: u32, n: nat) {
    id in st.promises && st.promises[id] == n
  }

  /** The promise map after an event. */
  function NextPromises(st: State, e: Event): map<u32, nat> {
    match e
    case Response(gen, tag, _) => if gen == st.connectionId then st.promises - {tag} else st.promises
    case Disconnect(gen) => if gen == st.connectionId then map[] else st.promises
    case Insert(n) => st.promises[IdOf(n) := n]
    case Fail(n) => st.promises - {IdOf(n)}
    case Expire(n) => st.promises - {IdOf(n)}
    case _ => st.promises
  }

  /** A sender that leaves the map without being used is dropped, and its receiver sees the channel closed. */
  function WithoutSender(r: Request, dropped: bool): Request {
    if dropped then r.(channel := Dropped) else r
  }

  /** Request `n` after an event. */
  function NextRequest(st: State, e: Event, n: nat): Request
    requires n < |st.requests|
  {
    var r := st.requests[n];
    match e
    case Response(gen, tag, body) =>
      if gen == st.connectionId && Holds(st, tag, n) then r.(channel := Delivered(gen, tag, body)) else r
    case Disconnect(gen) =>
      if gen == st.connectionId && Holds(st, IdOf(n), n) then r.(channel := Dropped, cut := true) else r
    case Insert(k) => if k == n then r.(stage := Inserted) else WithoutSender(r, Holds(st, IdOf(k), n))
    case Queue(k) => if k == n then r.(stage := Queued, droppedIn := if st.closed then Some(st.epoch) else None) else r
    case Recheck(k) =>
      if k != n then r
      else if st.closed then r.(stage := Failing)
      else r.(stage := Waiting, passedIn := Some(st.epoch))
    case Fail(k) =>
      var d := WithoutSender(r, Holds(st, IdOf(k), n));
      if k == n then d.(stage := Done(Disconnected)) else d
    case Timer(k) => if k == n then r.(stage := TimingOut) else r
    case Expire(k) =>
      var d := WithoutSender(r, Holds(st, IdOf(k), n));
      if k == n then d.(stage := Done(TimedOut)) else d
    case Receive(k) =>
      if k != n then r
      else r.(stage := Done(match r.channel
                            case Delivered(gen, tag, body) => Reply(gen, tag, body)
                            case _ => ChannelClosed))
    case _ => r
  }

  /** The connection state and the admission counters after an event. */
  function NextControl(st: State, e: Event): State
    requires Enabled(st, e)
  {
    match e
    case Attempt => st.(connectionId := st.connectionId + 1, link := Connecting, tasks := false)
    case Established => st.(link := Up, tasks := true, epoch := st.epoch + 1, closed := false, ready := false)
    case ConnectFailed => st.(link := Idle, closed := true, ready := false)
    case Returned => st.(link := Idle)
    case ServerReady(gen) => if gen == st.connectionId then st.(ready := true) else st
    case Disconnect(gen) => if gen == st.connectionId then st.(closed := true, ready := false) else st
    case CheckClosed => st.(looking := st.looking + 1)
    case CheckReady => st.(looking := st.looking - 1, admitted := st.admitted + 1)
    case Issue => st.(admitted := st.admitted - 1)
    case _ => st
  }

  function Step(st: State, e: Event): State
    requires Enabled(st, e)
  {
    NextControl(st, e).(
      promises := NextPromises(st, e),
      requests := seq(|st.requests|, n requires 0 <= n < |st.requests| => NextRequest(st, e, n))
                  + if e.Issue? then [Request(Issued, Open, None, None, false)] else [])
  }

  ghost predicate Run(st: State, es: seq<Event>)
    decreases |es|
  {
    es == [] || (Enabled(st, es[0]) && Run(Step(st, es[0]), es[1..]))
  }

  ghost function After(st: State, es: seq<Event>): State
    requires Run(st, es)
    decreases |es|
  {
    if es == [] then st else After(Step(st, es[0]), es[1..])
  }

  const INITIAL: State := State(0, 0, Idle, false, false, false, 0, 0, map[], [])

  // ===== what holds in every reachable state

  predicate HasPromise(stage: Stage) {
    stage.Inserted? || stage.Queued? || stage.Failing? || stage.Waiting? || stage.TimingOut?
  }

  /** The map holds the senders of open channels and nothing else. */
  ghost predicate MapOk(st: State) {
    forall id | id in st.promises ::
      var n := st.promises[id];
      n < |st.requests| && IdOf(n) == id && st.requests[n].channel.Open? && HasPromise(st.requests[n].stage)
  }

  /** While closed, only requests that have not finished their re-check have a promise. */
  ghost predicate ClosedOk(st: State) {
    st.closed ==>
      forall id | id in st.promises && st.promises[id] < |st.requests| ::
        var r := st.requests[st.promises[id]]; r.stage.Inserted? || r.stage.Queued? || r.stage.Failing?
  }

  /** A live request with an open channel is in the map; channels carry replies with the right tag. */
  ghost predicate PromiseOk(st: State, n: nat)
    requires n < |st.requests|
  {
    var r := st.requests[n];
    && (r.stage.Issued? ==> r.channel.Open?)
    && (HasPromise(r.stage) && r.channel.Open? ==> IdOf(n) in st.promises && st.promises[IdOf(n)] == n)
    && (r.channel.Delivered? ==> r.channel.tag == IdOf(n))
    && (r.stage.Done? && r.stage.outcome.Reply? ==>
          r.channel == Delivered(r.stage.outcome.gen, r.stage.outcome.tag, r.stage.outcome.body))
    && (r.stage.Done? && r.stage.outcome.ChannelClosed? ==> r.channel.Dropped?)
  }

  /** The connection stays closed from the drop of a message to the next establishment. */
  ghost predicate EpochOk(st: State, r: Request) {
    && (r.stage.Issued? || r.stage.Inserted? ==> r.droppedIn.None?)
    && (r.stage.Issued? || r.stage.Inserted? || r.stage.Queued? ==> r.passedIn.None?)
    && (r.droppedIn.Some? ==> r.droppedIn.value <= st.epoch)
    && (r.stage.Queued? && r.droppedIn.Some? && r.droppedIn.value == st.epoch ==> st.closed)
    && (r.droppedIn.Some? && r.passedIn.Some? ==> r.droppedIn.value < r.passedIn.value)
    && (r.passedIn.Some? ==> r.passedIn.value <= st.epoch)
  }

  /** Without a first connection nothing is admitted; afterwards an attempt starts closed. */
  ghost predicate LinkOk(st: State) {
    (st.link.Connecting? ==> !st.tasks)
    && (st.link.Up? ==> st.epoch > 0)
    && (st.epoch == 0 ==> !st.ready && !st.tasks && st.admitted == 0 && st.requests == [])
    && (!st.link.Up? && st.epoch > 0 ==> st.closed)
  }

  ghost predicate Inv(st: State) {
    MapOk(st) && ClosedOk(st) && LinkOk(st)
    && (forall n: nat | n < |st.requests| :: PromiseOk(st, n))
    && (forall n: nat | n < |st.requests| :: EpochOk(st, st.requests[n]))
  }

  lemma LinkStep(st: State, e: Event)
    requires Inv(st) && Enabled(st, e)
    ensures LinkOk(Step(st, e))
  {
    hide MapOk, ClosedOk, PromiseOk, EpochOk, IdOf, NextRequest, NextPromises;
  }

  lemma EpochStep(st: State, e: Event, n: nat)
    requires Inv(st) && Enabled(st, e) && n < |st.requests|
    ensures EpochOk(Step(st, e), NextRequest(st, e, n))
  {
    hide MapOk, ClosedOk, PromiseOk, LinkOk, IdOf, NextPromises, Holds;
    assert EpochOk(st, st.requests[n]);
  }

  lemma MapStep(st: State, e: Event)
    requires Inv(st) && Enabled(st, e)
    ensures MapOk(Step(st, e))
  {
    hide IdOf, EpochOk, ClosedOk, LinkOk, NextControl;
    var t := Step(st, e);
    if e.Insert? {
      assert PromiseOk(st, e.n);
    }
    forall id | id in t.promises
      ensures var n := t.promises[id];
              n < |t.requests| && IdOf(n) == id && t.requests[n].channel.Open? && HasPromise(t.requests[n].stage)
    {
    }
  }

  /** A connection that closes leaves no promise behind. */
  lemma ClosingEmpties(st: State, e: Event)
    requires Inv(st) && Enabled(st, e) && !st.closed && Step(st, e).closed
    ensures Step(st, e).promises == map[]
  {
    hide IdOf, EpochOk, PromiseOk, ClosedOk, NextRequest;
    if e.ConnectFailed? {
      assert st.requests == [];
      assert st.promises == map[];
    }
  }

  lemma ClosedStep(st: State, e: Event)
    requires Inv(st) && Enabled(st, e)
    ensures ClosedOk(Step(st, e))
  {
    hide IdOf, EpochOk, PromiseOk, LinkOk, NextControl;
    if e.Insert? {
      assert PromiseOk(st, e.n);
    }
    if !st.closed && Step(st, e).closed {
      ClosingEmpties(st, e);
    }
  }

  lemma PromiseStep(st: State, e: Event, n: nat)
    requires Inv(st) && Enabled(st, e) && n < |st.requests|
    ensures PromiseOk(Step(st, e), n)
  {
    hide IdOf, ClosedOk, EpochOk, LinkOk, NextControl;
    assert PromiseOk(st, n);
  }

  lemma InvStep(st: State, e: Event)
    requires Inv(st) && Enabled(st, e)
    ensures Inv(Step(st, e))
  {
    hide MapOk, ClosedOk, LinkOk, NextControl, NextRequest, NextPromises;
    LinkStep(st, e);
    MapStep(st, e);
    ClosedStep(st, e);
    var t := Step(st, e);
    forall n: nat | n < |t.requests|
      ensures PromiseOk(t, n) && EpochOk(t, t.requests[n])
    {
      if n < |st.requests| {
        EpochStep(st, e, n);
        PromiseStep(st, e, n);
      }
    }
  }

  lemma {:induction false} InvRun(st: State, es: seq<Event>)
    requires Inv(st) && Run(st, es)
    ensures Inv(After(st, es))
    decreases |es|
  {
    hide Inv, Step, Enabled;
    if es != [] {
      InvStep(st, es[0]);
      InvRun(Step(st, es[0]), es[1..]);
    }
  }

  // ===== no stranded request

  /**
   Whenever the connection is closed, each stored promise belongs to a request still on its way to the end of its
   re-check, and each request that awaits a reply has already been answered or failed.
   */
  lemma NoStrandedRequest(es: seq<Event>)
    requires Run(INITIAL, es) && After(INITIAL, es).closed
    ensures var t := After(INITIAL, es);
            (forall id | id in t.promises ::
               t.promises[id] < |t.requests|
               && var stage := t.requests[t.promises[id]].stage; stage.Inserted? || stage.Queued? || stage.Failing?)
            && (forall n: nat | n < |t.requests| && t.requests[n].stage.Waiting? ::
                  !t.requests[n].channel.Open? && Enabled(t, Receive(n)))
  {
    InvRun(INITIAL, es);
    var t := After(INITIAL, es);
    forall n: nat | n < |t.requests| && t.requests[n].stage.Waiting?
      ensures !t.requests[n].channel.Open?
    {
      assert PromiseOk(t, n);
    }
  }

  /** A message dropped by queue_message is only awaited when the link came back between the drop and the re-check. */
  lemma DroppedRequestAwaitsOnlyAfterReconnect(es: seq<Event>, n: nat)
    requires Run(INITIAL, es) && n < |After(INITIAL, es).requests|
    ensures var r := After(INITIAL, es).requests[n];
            r.droppedIn.Some? && r.passedIn.Some? ==> r.droppedIn.value < r.passedIn.value
  {
    InvRun(INITIAL, es);
    assert EpochOk(After(INITIAL, es), After(INITIAL, es).requests[n]);
  }

  lemma {:induction false} RunAppend(st: State, es: seq<Event>, fs: seq<Event>)
    requires Run(st, es) && Run(After(st, es), fs)
    ensures Run(st, es + fs) && After(st, es + fs) == After(After(st, es), fs)
    decreases |es|
  {
    hide Step, Enabled;
    if es == [] {
      assert es + fs == fs;
    } else {
      RunAppend(Step(st, es[0]), es[1..], fs);
      assert (es + fs)[1..] == es[1..] + fs;
    }
  }

  lemma RunStep(st: State, es: seq<Event>, mid: State, e: Event)
    requires Run(st, es) && After(st, es) == mid && Enabled(mid, e)
    ensures Run(st, es + [e]) && After(st, es + [e]) == Step(mid, e)
  {
    hide Step, Enabled;
    assert [e][1..] == [];
    assert Run(Step(mid, e), []) && After(Step(mid, e), []) == Step(mid, e);
    assert Run(mid, [e]) && After(mid, [e]) == Step(mid, e);
    RunAppend(st, es, [e]);
  }

  /** The first connection is up and ready. */
  lemma ConnectedRun() returns (es: seq<Event>, t: State)
    ensures Run(INITIAL, es) && After(INITIAL, es) == t
    ensures t == State(1, 1, Up, true, false, true, 0, 0, map[], [])
  {
    es, t := [], INITIAL;
    assert Run(INITIAL, []) && After(INITIAL, []) == INITIAL;
    RunStep(INITIAL, es, t, Attempt);
    es, t := es + [Attempt], Step(t, Attempt);
    RunStep(INITIAL, es, t, Established);
    es, t := es + [Established], Step(t, Established);
    RunStep(INITIAL, es, t, ServerReady(1));
    es, t := es + [ServerReady(1)], Step(t, ServerReady(1));
  }

  const FRESH: Request := Request(Issued, Open, None, None, false)

  lemma IssueRun(es: seq<Event>, t: State) returns (fs: seq<Event>, u: State)
    requires Run(INITIAL, es) && After(INITIAL, es) == t && !t.closed && t.ready && t.looking == 0 && t.admitted == 0
    ensures Run(INITIAL, fs) && After(INITIAL, fs) == u
    ensures u == t.(requests := t.requests + [FRESH])
  {
    RunStep(INITIAL, es, t, CheckClosed);
    fs, u := es + [CheckClosed], Step(t, CheckClosed);
    assert u == t.(looking := 1);
    RunStep(INITIAL, fs, u, CheckReady);
    fs, u := fs + [CheckReady], Step(u, CheckReady);
    assert u == t.(admitted := 1);
    RunStep(INITIAL, fs, u, Issue);
    fs, u := fs + [Issue], Step(u, Issue);
  }

  /** Until a reconnect the connection stays closed after a drop, and the re-check fails the request iff it is closed. */
  lemma DroppedRequestFailsIffClosed(es: seq<Event>, n: nat)
    requires Run(INITIAL, es) && n < |After(INITIAL, es).requests|
    requires After(INITIAL, es).requests[n].stage.Queued? && After(INITIAL, es).requests[n].droppedIn.Some?
    ensures var t := After(INITIAL, es);
            (t.requests[n].droppedIn.value == t.epoch ==> t.closed)
            && Enabled(t, Recheck(n))
            && Step(t, Recheck(n)).requests[n].stage == if t.closed then Failing else Waiting
  {
    InvRun(INITIAL, es);
    assert EpochOk(After(INITIAL, es), After(INITIAL, es).requests[n]);
  }

  /**
   The gap the re-check leaves: a request whose message was dropped can end up awaiting a reply on a live connection
   (until its timer fires), because a reconnect between the drop and the re-check reopens the connection.
   */
  lemma ReconnectHidesDroppedMessage() returns (es: seq<Event>)
    ensures Run(INITIAL, es)
    ensures var t := After(INITIAL, es);
            !t.closed && |t.requests| == 1 && t.requests[0].stage.Waiting?
            && t.requests[0].channel.Open? && t.requests[0].droppedIn.Some?
  {
    var t: State;
    es, t := ConnectedRun();
    es, t := IssueRun(es, t);
    es, t := CutOffRun(es, t);
    es, t := ReconnectRun(es, t);
    RunStep(INITIAL, es, t, Recheck(0));
    es, t := es + [Recheck(0)], Step(t, Recheck(0));
  }

  lemma ReconnectRun(es: seq<Event>, t: State) returns (fs: seq<Event>, u: State)
    requires Run(INITIAL, es) && After(INITIAL, es) == t
    requires t == State(1, 1, Up, true, true, false, 0, 0, map[0 := 0], [FRESH.(stage := Queued, droppedIn := Some(1))])
    ensures Run(INITIAL, fs) && After(INITIAL, fs) == u
    ensures u == t.(connectionId := 2, epoch := 2, closed := false)
  {
    hide NextRequest;
    RunStep(INITIAL, es, t, Returned);
    fs, u := es + [Returned], Step(t, Returned);
    KeepsRequests(t, Returned);
    RunStep(INITIAL, fs, u, Attempt);
    KeepsRequests(u, Attempt);
    fs, u := fs + [Attempt], Step(u, Attempt);
    RunStep(INITIAL, fs, u, Established);
    KeepsRequests(u, Established);
    fs, u := fs + [Established], Step(u, Established);
  }

  lemma KeepsRequests(st: State, e: Event)
    requires Enabled(st, e) && (e.Returned? || e.Attempt? || e.Established?)
    ensures Step(st, e).requests == st.requests
  {
  }

  lemma CutOffRun(es: seq<Event>, t: State) returns (fs: seq<Event>, u: State)
    requires Run(INITIAL, es) && After(INITIAL, es) == t
    requires t == State(1, 1, Up, true, false, true, 0, 0, map[], [FRESH])
    ensures Run(INITIAL, fs) && After(INITIAL, fs) == u
    ensures u == State(1, 1, Up, true, true, false, 0, 0, map[0 := 0], [FRESH.(stage := Queued, droppedIn := Some(1))])
  {
    RunStep(INITIAL, es, t, Disconnect(1));
    fs, u := es + [Disconnect(1)], Step(t, Disconnect(1));
    RunStep(INITIAL, fs, u, Insert(0));
    fs, u := fs + [Insert(0)], Step(u, Insert(0));
    RunStep(INITIAL, fs, u, Queue(0));
    fs, u := fs + [Queue(0)], Step(u, Queue(0));
  }

  // ===== correlation

  predicate Completes(e: Event, n: nat) {
    e == Receive(n) || e == Fail(n) || e == Expire(n)
  }

  function Completions(es: seq<Event>, n: nat): nat {
    if es == [] then 0 else (if Completes(es[0], n) then 1 else 0) + Completions(es[1..], n)
  }

  /** Replies handed to the channel of request `n`. */
  ghost function Deliveries(st: State, es: seq<Event>, n: nat): nat
    requires Run(st, es)
    decreases |es|
  {
    if es == [] then 0
    else (if Delivers(st, es[0], n) then 1 else 0)
         + Deliveries(Step(st, es[0]), es[1..], n)
  }

  predicate Delivers(st: State, e: Event, n: nat) {
    e.Response? && e.gen == st.connectionId && Holds(st, e.tag, n)
  }

  predicate IsDone(st: State, n: nat) {
    n < |st.requests| && st.requests[n].stage.Done?
  }

  predicate IsSettled(st: State, n: nat) {
    n < |st.requests| && !st.requests[n].channel.Open?
  }

  lemma FinalityStep(st: State, e: Event, n: nat)
    requires Inv(st) && Enabled(st, e)
    ensures Completes(e, n) ==> !IsDone(st, n) && IsDone(Step(st, e), n)
    ensures IsDone(st, n) ==> IsDone(Step(st, e), n)
    ensures Delivers(st, e, n) ==> !IsSettled(st, n) && IsSettled(Step(st, e), n)
    ensures IsSettled(st, n) ==> IsSettled(Step(st, e), n)
  {
    hide IdOf, ClosedOk, EpochOk, LinkOk, NextControl, NextPromises;
  }

  lemma {:induction false} AtMostOnce(st: State, es: seq<Event>, n: nat)
    requires Inv(st) && Run(st, es)
    ensures Completions(es, n) <= (if IsDone(st, n) then 0 else 1)
    ensures Deliveries(st, es, n) <= (if IsSettled(st, n) then 0 else 1)
    decreases |es|
  {
    hide Inv, Step, Enabled, IsDone, IsSettled, Completes, Delivers;
    if es != [] {
      InvStep(st, es[0]);
      FinalityStep(st, es[0], n);
      AtMostOnce(Step(st, es[0]), es[1..], n);
    }
  }

  /** A frame with this reply comes in after the promise of request `n` was inserted. */
  ghost predicate AnsweredAfterInsert(es: seq<Event>, n: nat, gen: nat, tag: u32, body: Bytes) {
    exists i, j | 0 <= i < j < |es| :: es[i] == Insert(n) && es[j] == Response(gen, tag, body)
  }

  predicate HasInserted(st: State, n: nat) {
    n < |st.requests| && !st.requests[n].stage.Issued?
  }

  lemma DeliveryStep(st: State, e: Event, n: nat)
    requires Inv(st) && Enabled(st, e) && n < |Step(st, e).requests|
    ensures HasInserted(Step(st, e), n) ==> HasInserted(st, n) || e == Insert(n)
    ensures var c := Step(st, e).requests[n].channel;
            c.Delivered? && !(n < |st.requests| && st.requests[n].channel == c) ==>
              HasInserted(st, n) && e == Response(c.gen, c.tag, c.body)
  {
    hide IdOf, ClosedOk, EpochOk, LinkOk, PromiseOk, NextControl, NextPromises;
  }

  /** A delivered reply was received, from the connection that was current then, after the promise was inserted. */
  lemma {:induction false} DeliveredWasReceived(st: State, es: seq<Event>, n: nat)
    requires Inv(st) && Run(st, es) && n < |After(st, es).requests|
    ensures var c := After(st, es).requests[n].channel;
            c.Delivered? ==>
              (n < |st.requests| && st.requests[n].channel == c)
              || (HasInserted(st, n) && Response(c.gen, c.tag, c.body) in es)
              || AnsweredAfterInsert(es, n, c.gen, c.tag, c.body)
    decreases |es|
  {
    hide Inv, Step, Enabled;
    if es != [] {
      var t := Step(st, es[0]);
      InvStep(st, es[0]);
      DeliveredWasReceived(t, es[1..], n);
      var c := After(st, es).requests[n].channel;
      if n < |t.requests| {
        DeliveryStep(st, es[0], n);
      }
      if c.Delivered? {
        if AnsweredAfterInsert(es[1..], n, c.gen, c.tag, c.body) {
          var i, j :| 0 <= i < j < |es[1..]| && es[1..][i] == Insert(n) && es[1..][j] == Response(c.gen, c.tag, c.body);
          assert es[i + 1] == Insert(n) && es[j + 1] == Response(c.gen, c.tag, c.body);
        } else if es[0] == Insert(n) && Response(c.gen, c.tag, c.body) in es[1..] {
          var j :| 0 <= j < |es[1..]| && es[1..][j] == Response(c.gen, c.tag, c.body);
          assert es[0] == Insert(n) && es[j + 1] == Response(c.gen, c.tag, c.body);
        }
      }
    }
  }

  /**
   Over any interleaving a request completes at most once, is handed at most one reply, and completes with a reply
   only if that reply was received with its own id, after its promise was inserted.
   */
  lemma RequestCorrelation(es: seq<Event>, n: nat)
    requires Run(INITIAL, es)
    ensures Completions(es, n) <= 1 && Deliveries(INITIAL, es, n) <= 1
    ensures n < |After(INITIAL, es).requests| ==>
              var stage := After(INITIAL, es).requests[n].stage;
              stage.Done? && stage.outcome.Reply? ==>
                stage.outcome.tag == IdOf(n)
                && AnsweredAfterInsert(es, n, stage.outcome.gen, stage.outcome.tag, stage.outcome.body)
  {
    AtMostOnce(INITIAL, es, n);
    InvRun(INITIAL, es);
    if n < |After(INITIAL, es).requests| {
      assert PromiseOk(After(INITIAL, es), n);
      DeliveredWasReceived(INITIAL, es, n);
    }
  }

  /** A reply on the current connection goes to the request that waits under its id and touches no other. */
  lemma ReplyReachesItsRequest(es: seq<Event>, n: nat, body: Bytes)
    requires Run(INITIAL, es) && n < |After(INITIAL, es).requests|
    requires Enabled(After(INITIAL, es), Response(After(INITIAL, es).connectionId, IdOf(n), body))
    requires After(INITIAL, es).requests[n].stage.Waiting? && After(INITIAL, es).requests[n].channel.Open?
    ensures var t := After(INITIAL, es);
            var u := Step(t, Response(t.connectionId, IdOf(n), body));
            u.requests == t.requests[n := t.requests[n].(channel := Delivered(t.connectionId, IdOf(n), body))]
  {
    hide IdOf;
    InvRun(INITIAL, es);
    assert PromiseOk(After(INITIAL, es), n);
  }

  // ===== isolation

  /** Fewer than 2^32 ids were issued since any unfinished request obtained its own. */
  ghost predicate Spaced(st: State) {
    forall n: nat | n < |st.requests| && !st.requests[n].stage.Done? :: |st.requests| <= n + IDS
  }

  ghost predicate SpacedRun(st: State, es: seq<Event>)
    requires Run(st, es)
    decreases |es|
  {
    Spaced(st) && (es != [] ==> SpacedRun(Step(st, es[0]), es[1..]))
  }

  lemma SameIdIsFar(m: nat, n: nat)
    requires m < n && IdOf(m) == IdOf(n)
    ensures m + IDS <= n
  {
    assert m == IDS * (m / IDS) + IdOf(m) && n == IDS * (n / IDS) + IdOf(n);
  }

  lemma UnfinishedIdsDiffer(st: State, m: nat, n: nat)
    requires Spaced(st) && m < |st.requests| && n < |st.requests| && m != n
    requires !st.requests[m].stage.Done? && !st.requests[n].stage.Done?
    ensures IdOf(m) != IdOf(n)
  {
    if IdOf(m) == IdOf(n) {
      if m < n {
        SameIdIsFar(m, n);
      } else {
        SameIdIsFar(n, m);
      }
    }
  }

  /** The channel of an unfinished request closes only when a disconnect cuts it. */
  ghost predicate Isolated(st: State) {
    forall n: nat | n < |st.requests| ::
      var r := st.requests[n];
      (r.channel.Dropped? && !r.stage.Done? ==> r.cut)
      && (r.stage.Done? && r.stage.outcome.ChannelClosed? ==> r.cut)
  }

  lemma IsolatedStep(st: State, e: Event)
    requires Inv(st) && Spaced(st) && Isolated(st) && Enabled(st, e)
    ensures Isolated(Step(st, e))
  {
    hide IdOf, ClosedOk, EpochOk, LinkOk, NextControl, NextPromises, Spaced;
    var t := Step(st, e);
    forall n: nat | n < |st.requests|
      ensures var r := t.requests[n];
              (r.channel.Dropped? && !r.stage.Done? ==> r.cut)
              && (r.stage.Done? && r.stage.outcome.ChannelClosed? ==> r.cut)
    {
      assert PromiseOk(st, n);
      if (e.Insert? || e.Fail? || e.Expire?) && e.n != n && Holds(st, IdOf(e.n), n) {
        UnfinishedIdsDiffer(st, n, e.n);
      }
    }
  }

  lemma {:induction false} IsolatedRun(st: State, es: seq<Event>)
    requires Inv(st) && Isolated(st) && Run(st, es) && SpacedRun(st, es)
    ensures Isolated(After(st, es))
    decreases |es|
  {
    hide Inv, Isolated, Spaced, Step, Enabled;
    if es != [] {
      IsolatedStep(st, es[0]);
      InvStep(st, es[0]);
      IsolatedRun(Step(st, es[0]), es[1..]);
    }
  }

  /**
   As long as ids do not wrap onto an unfinished request, requests do not disturb each other: one that ends with a
   closed channel was cut by a disconnect, never by another request's insertion, failure or timeout.
   */
  lemma Isolation(es: seq<Event>, n: nat)
    requires Run(INITIAL, es) && SpacedRun(INITIAL, es) && n < |After(INITIAL, es).requests|
    ensures var r := After(INITIAL, es).requests[n];
            r.stage.Done? && r.stage.outcome.ChannelClosed? ==> r.cut
  {
    IsolatedRun(INITIAL, es);
  }

  /** At exactly 2^32 ids the bound is sharp: inserting serial 2^32 drops the promise of serial 0, without a disconnect. */
  lemma WrapDisplaces() returns (es: seq<Event>)
    ensures Run(INITIAL, es)
    ensures var t := After(INITIAL, es);
            |t.requests| == IDS + 1 && t.requests[0].stage.Waiting?
            && t.requests[0].channel.Dropped? && !t.requests[0].cut
  {
    var t: State;
    es, t := ConnectedRun();
    es, t := IssueRun(es, t);
    es, t := AwaitRun(es, t);
    ghost var first := t.requests[0];
    for k := 1 to IDS + 1
      invariant Run(INITIAL, es) && After(INITIAL, es) == t
      invariant !t.closed && t.ready && t.looking == 0 && t.admitted == 0
      invariant |t.requests| == k && t.requests[0] == first && t.promises == map[0 := 0]
      invariant k > 1 ==> t.requests[k - 1] == FRESH
    {
      es, t := IssueRun(es, t);
    }
    assert IdOf(IDS) == 0;
    RunStep(INITIAL, es, t, Insert(IDS));
    es := es + [Insert(IDS)];
  }

  lemma AwaitRun(es: seq<Event>, t: State) returns (fs: seq<Event>, u: State)
    requires Run(INITIAL, es) && After(INITIAL, es) == t
    requires t == State(1, 1, Up, true, false, true, 0, 0, map[], [FRESH])
    ensures Run(INITIAL, fs) && After(INITIAL, fs) == u
    ensures u == t.(promises := map[0 := 0], requests := [FRESH.(stage := Waiting, passedIn := Some(1))])
  {
    RunStep(INITIAL, es, t, Insert(0));
    fs, u := es + [Insert(0)], Step(t, Insert(0));
    RunStep(INITIAL, fs, u, Queue(0));
    fs, u := fs + [Queue(0)], Step(u, Queue(0));
    RunStep(INITIAL, fs, u, Recheck(0));
    fs, u := fs + [Recheck(0)], Step(u, Recheck(0));
  }
}
