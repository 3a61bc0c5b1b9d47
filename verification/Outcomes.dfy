/** What becomes of DB requests, read off the events of a run alone. */
module Outcomes {
  import opened Wire
  import opened Requests

  // ===== the outcome table

  predicate Ends(st: State, n: nat, outcome: Outcome) {
    n < |st.requests| && st.requests[n].stage == Done(outcome)
  }

  predicate EndsWithReply(st: State, n: nat) {
    n < |st.requests| && st.requests[n].stage.Done? && st.requests[n].stage.outcome.Reply?
  }

  predicate IsDelivered(st: State, n: nat) {
    n < |st.requests| && st.requests[n].channel.Delivered?
  }

  lemma DeliveredStep(st: State, e: Event, n: nat)
    requires Inv(st) && Enabled(st, e)
    ensures IsDelivered(Step(st, e), n) <==> IsDelivered(st, n) || Delivers(st, e, n)
    ensures !(IsDelivered(st, n) && Delivers(st, e, n))
  {
    hide IdOf, ClosedOk, EpochOk, LinkOk, NextControl, NextPromises, PromiseOk;
  }

  lemma EndsStep(st: State, e: Event, n: nat)
    requires Inv(st) && Enabled(st, e)
    ensures Ends(Step(st, e), n, TimedOut) <==> Ends(st, n, TimedOut) || e == Expire(n)
    ensures Ends(Step(st, e), n, Disconnected) <==> Ends(st, n, Disconnected) || e == Fail(n)
    ensures EndsWithReply(Step(st, e), n) <==> EndsWithReply(st, n) || (e == Receive(n) && IsDelivered(st, n))
    ensures Ends(Step(st, e), n, ChannelClosed) <==> Ends(st, n, ChannelClosed) || (e == Receive(n) && !IsDelivered(st, n))
    ensures e == Receive(n) ==> IsSettled(st, n) && !IsDone(st, n)
  {
    hide IdOf, ClosedOk, EpochOk, LinkOk, NextControl, NextPromises, PromiseOk, MapOk;
  }

  /** Replies in the channel of request `n` at the start or handed to it during a run. */
  ghost function Replies(st: State, es: seq<Event>, n: nat): nat
    requires Run(st, es)
  {
    (if IsDelivered(st, n) then 1 else 0) + Deliveries(st, es, n)
  }

  lemma {:induction false} TableFrom(st: State, es: seq<Event>, n: nat)
    requires Inv(st) && Run(st, es)
    ensures var t := After(st, es);
            (Ends(t, n, TimedOut) <==> Ends(st, n, TimedOut) || Expire(n) in es)
            && (Ends(t, n, Disconnected) <==> Ends(st, n, Disconnected) || Fail(n) in es)
            && (EndsWithReply(t, n) <==> EndsWithReply(st, n) || (Receive(n) in es && Replies(st, es, n) == 1))
            && (Ends(t, n, ChannelClosed) <==> Ends(st, n, ChannelClosed) || (Receive(n) in es && Replies(st, es, n) == 0))
    decreases |es|
  {
    hide Inv, Step, Enabled, IsDone, IsSettled, Delivers, IsDelivered, Ends, EndsWithReply;
    if es != [] {
      InvStep(st, es[0]);
      EndsStep(st, es[0], n);
      DeliveredStep(st, es[0], n);
      FinalityStep(st, es[0], n);
      AtMostOnce(Step(st, es[0]), es[1..], n);
      TableFrom(Step(st, es[0]), es[1..], n);
      assert es == [es[0]] + es[1..];
    }
  }

  /** How a request ends is decided by the events that end it: all four outcomes, both ways. */
  lemma OutcomeTable(es: seq<Event>, n: nat)
    requires Run(INITIAL, es)
    ensures var t := After(INITIAL, es);
            (Ends(t, n, TimedOut) <==> Expire(n) in es)
            && (Ends(t, n, Disconnected) <==> Fail(n) in es)
            && (EndsWithReply(t, n) <==> Receive(n) in es && Deliveries(INITIAL, es, n) == 1)
            && (Ends(t, n, ChannelClosed) <==> Receive(n) in es && Deliveries(INITIAL, es, n) == 0)
  {
    TableFrom(INITIAL, es, n);
  }

  // ===== an answered request succeeds

  lemma AnswerStays(st: State, e: Event, n: nat, c: Channel)
    requires Inv(st) && Enabled(st, e) && n < |st.requests| && c.Delivered? && st.requests[n].channel == c
    requires st.requests[n].stage == Waiting || st.requests[n].stage == Done(Reply(c.gen, c.tag, c.body))
    ensures n < |Step(st, e).requests| && Step(st, e).requests[n].channel == c
    ensures Step(st, e).requests[n].stage ==
            if e == Receive(n) then Done(Reply(c.gen, c.tag, c.body)) else st.requests[n].stage
  {
    hide IdOf, ClosedOk, EpochOk, LinkOk, NextControl, NextPromises, PromiseOk;
  }

  lemma {:induction false} AnswerStaysFrom(st: State, es: seq<Event>, n: nat, c: Channel)
    requires Inv(st) && Run(st, es) && n < |st.requests| && c.Delivered? && st.requests[n].channel == c
    requires st.requests[n].stage == Waiting || st.requests[n].stage == Done(Reply(c.gen, c.tag, c.body))
    ensures var t := After(st, es);
            n < |t.requests| && t.requests[n].channel == c
            && t.requests[n].stage ==
               if Receive(n) in es then Done(Reply(c.gen, c.tag, c.body)) else st.requests[n].stage
    decreases |es|
  {
    hide Inv, Step, Enabled;
    if es != [] {
      InvStep(st, es[0]);
      AnswerStays(st, es[0], n, c);
      AnswerStaysFrom(Step(st, es[0]), es[1..], n, c);
      assert es == [es[0]] + es[1..];
    }
  }

  /**
   A reply that comes in on the current connection while its request waits is what the request returns: whatever
   happens in between, receiving stays possible, no timer fires any more, and the outcome is that reply.
   */
  lemma AnsweredRequestSucceeds(es: seq<Event>, n: nat, body: Bytes, fs: seq<Event>)
    requires Run(INITIAL, es) && n < |After(INITIAL, es).requests|
    requires After(INITIAL, es).requests[n].stage.Waiting? && After(INITIAL, es).requests[n].channel.Open?
    requires Enabled(After(INITIAL, es), Response(After(INITIAL, es).connectionId, IdOf(n), body))
    requires Run(Step(After(INITIAL, es), Response(After(INITIAL, es).connectionId, IdOf(n), body)), fs)
    ensures var t := After(INITIAL, es);
            var u := After(Step(t, Response(t.connectionId, IdOf(n), body)), fs);
            n < |u.requests|
            && if Receive(n) in fs then u.requests[n].stage == Done(Reply(t.connectionId, IdOf(n), body))
               else Enabled(u, Receive(n)) && Ends(Step(u, Receive(n)), n, Reply(t.connectionId, IdOf(n), body))
  {
    hide IdOf;
    var t := After(INITIAL, es);
    InvRun(INITIAL, es);
    ReplyReachesItsRequest(es, n, body);
    var e := Response(t.connectionId, IdOf(n), body);
    InvStep(t, e);
    AnswerStaysFrom(Step(t, e), fs, n, Delivered(t.connectionId, IdOf(n), body));
  }

  // ===== generations, readiness and closedness by events

  /** Connection attempts among the first `n` events: the current generation. */
  function Attempts(es: seq<Event>, n: nat): nat
    requires n <= |es|
  {
    if n == 0 then 0 else Attempts(es, n - 1) + (if es[n - 1].Attempt? then 1 else 0)
  }

  predicate IsCut(es: seq<Event>, k: nat)
    requires k < |es|
  {
    es[k] == Disconnect(Attempts(es, k))
  }

  ghost predicate ReadyAt(es: seq<Event>, n: nat)
    requires n <= |es|
  {
    exists k | 0 <= k < n ::
      es[k] == ServerReady(Attempts(es, k))
      && forall d | k < d < n :: !es[d].Established? && !es[d].ConnectFailed? && !IsCut(es, d)
  }

  ghost predicate ClosedAt(es: seq<Event>, n: nat)
    requires n <= |es|
  {
    exists k | 0 <= k < n :: (es[k].ConnectFailed? || IsCut(es, k)) && forall d | k < d < n :: !es[d].Established?
  }

  function Times(es: seq<Event>, e: Event, n: nat): nat
    requires n <= |es|
  {
    if n == 0 then 0 else Times(es, e, n - 1) + (if es[n - 1] == e then 1 else 0)
  }

  ghost predicate Controlled(es: seq<Event>, n: nat, st: State)
    requires n <= |es|
  {
    st.connectionId == Attempts(es, n) && (st.ready <==> ReadyAt(es, n)) && (st.closed <==> ClosedAt(es, n))
    && st.looking + Times(es, CheckReady, n) == Times(es, CheckClosed, n)
    && st.admitted + Times(es, Issue, n) == Times(es, CheckReady, n)
    && |st.requests| == Times(es, Issue, n)
  }

  lemma ReadyNext(es: seq<Event>, n: nat)
    requires n < |es|
    ensures ReadyAt(es, n + 1) <==>
            es[n] == ServerReady(Attempts(es, n))
            || (!es[n].Established? && !es[n].ConnectFailed? && !IsCut(es, n) && ReadyAt(es, n))
  {
    hide Attempts;
    if es[n] == ServerReady(Attempts(es, n)) {
      assert es[n] == ServerReady(Attempts(es, n));
    } else if !es[n].Established? && !es[n].ConnectFailed? && !IsCut(es, n) && ReadyAt(es, n) {
      var k :| 0 <= k < n && es[k] == ServerReady(Attempts(es, k))
               && forall d | k < d < n :: !es[d].Established? && !es[d].ConnectFailed? && !IsCut(es, d);
      assert forall d | k < d < n + 1 :: !es[d].Established? && !es[d].ConnectFailed? && !IsCut(es, d);
    }
  }

  lemma ClosedNext(es: seq<Event>, n: nat)
    requires n < |es|
    ensures ClosedAt(es, n + 1) <==> es[n].ConnectFailed? || IsCut(es, n) || (!es[n].Established? && ClosedAt(es, n))
  {
    hide Attempts;
    if es[n].ConnectFailed? || IsCut(es, n) {
      assert es[n].ConnectFailed? || IsCut(es, n);
    } else if !es[n].Established? && ClosedAt(es, n) {
      var k :| 0 <= k < n && (es[k].ConnectFailed? || IsCut(es, k)) && forall d | k < d < n :: !es[d].Established?;
      assert forall d | k < d < n + 1 :: !es[d].Established?;
    }
  }

  lemma ControlStep(es: seq<Event>, n: nat, st: State)
    requires n < |es| && Controlled(es, n, st) && Enabled(st, es[n])
    ensures Controlled(es, n + 1, Step(st, es[n]))
  {
    ReadyNext(es, n);
    ClosedNext(es, n);
    hide ReadyAt, ClosedAt, NextRequest, NextPromises;
  }

  lemma {:induction false} PrefixRun(st: State, es: seq<Event>, n: nat)
    requires Run(st, es) && n < |es|
    ensures Run(st, es[..n]) && Run(st, es[..n + 1])
    ensures Enabled(After(st, es[..n]), es[n])
    ensures After(st, es[..n + 1]) == Step(After(st, es[..n]), es[n])
    decreases |es|
  {
    hide Enabled, Step;
    if n == 0 {
      assert es[..1] == [es[0]] && [es[0]][1..] == [] && Run(Step(st, es[0]), []);
      assert Run(st, [es[0]]) && After(st, [es[0]]) == After(Step(st, es[0]), []);
    } else {
      PrefixRun(Step(st, es[0]), es[1..], n - 1);
      assert es[..n][1..] == es[1..][..n - 1] && es[..n + 1][1..] == es[1..][..n];
    }
  }

  lemma {:induction false} ControlRun(es: seq<Event>, n: nat)
    requires Run(INITIAL, es) && n <= |es|
    ensures Run(INITIAL, es[..n]) && Controlled(es, n, After(INITIAL, es[..n]))
  {
    hide Step, Enabled, ReadyAt, ClosedAt;
    if n == 0 {
      assert es[..0] == [];
      NothingYet(es);
    } else {
      ControlRun(es, n - 1);
      PrefixRun(INITIAL, es, n - 1);
      ControlStep(es, n - 1, After(INITIAL, es[..n - 1]));
    }
  }

  lemma NothingYet(es: seq<Event>)
    ensures !ReadyAt(es, 0) && !ClosedAt(es, 0)
  {
  }

  /**
   Requests are let in by readiness: every caller passes the first check while the connection is open and the second
   while the server is ready, and no more ids are issued than callers passed both.
   */
  lemma AdmissionIsGated(es: seq<Event>, i: nat)
    requires Run(INITIAL, es) && i < |es|
    ensures es[i] == CheckClosed ==> !ClosedAt(es, i)
    ensures es[i] == CheckReady ==> ReadyAt(es, i)
    ensures Times(es, Issue, i) <= Times(es, CheckReady, i) <= Times(es, CheckClosed, i)
  {
    hide ReadyAt, ClosedAt;
    ControlRun(es, i);
    PrefixRun(INITIAL, es, i);
  }

  // ===== what every request has been through

  ghost predicate InsertedBefore(es: seq<Event>, n: nat, k: nat)
    requires k <= |es|
  {
    exists i | 0 <= i < k :: es[i] == Insert(n)
  }

  /** The reply came in on the generation that was current then, after the promise was inserted. */
  ghost predicate AnsweredBefore(es: seq<Event>, n: nat, k: nat, c: Channel)
    requires k <= |es| && c.Delivered?
  {
    exists j | 0 <= j < k ::
      es[j] == Response(c.gen, c.tag, c.body) && c.gen == Attempts(es, j) && InsertedBefore(es, n, j)
  }

  /** The current connection was lost after the promise was inserted. */
  ghost predicate CutBefore(es: seq<Event>, n: nat, k: nat)
    requires k <= |es|
  {
    exists j | 0 <= j < k :: IsCut(es, j) && InsertedBefore(es, n, j)
  }

  /** The re-check saw the connection closed, or open. */
  ghost predicate RecheckedBefore(es: seq<Event>, n: nat, k: nat, closed: bool)
    requires k <= |es|
  {
    exists j | 0 <= j < k :: es[j] == Recheck(n) && (ClosedAt(es, j) <==> closed)
  }

  ghost predicate Told(es: seq<Event>, k: nat, n: nat, r: Request)
    requires k <= |es|
  {
    (!r.stage.Issued? ==> InsertedBefore(es, n, k))
    && (r.channel.Delivered? ==> AnsweredBefore(es, n, k, r.channel))
    && (r.cut ==> CutBefore(es, n, k))
    && (r.stage.Failing? || r.stage == Done(Disconnected) ==> RecheckedBefore(es, n, k, true))
    && (r.stage.Waiting? || r.stage.TimingOut? || (r.stage.Done? && r.stage != Done(Disconnected)) ==>
          RecheckedBefore(es, n, k, false))
  }

  lemma ToldStays(es: seq<Event>, k: nat, n: nat, r: Request)
    requires k < |es| && Told(es, k, n, r)
    ensures Told(es, k + 1, n, r)
  {
    hide Attempts, ClosedAt;
  }

  lemma ToldStep(es: seq<Event>, k: nat, st: State, n: nat)
    requires k < |es| && Inv(st) && Enabled(st, es[k]) && Controlled(es, k, st)
    requires n < |st.requests| && Told(es, k, n, st.requests[n])
    ensures Told(es, k + 1, n, NextRequest(st, es[k], n))
  {
    ToldStays(es, k, n, st.requests[n]);
    var e := es[k];
    if e == Insert(n) {
      assert InsertedBefore(es, n, k + 1);
    } else if e == Recheck(n) {
      assert RecheckedBefore(es, n, k + 1, st.closed);
    } else if e.Response? {
      ReplyTold(es, k, st, n);
    } else if e.Disconnect? {
      CutTold(es, k, st, n);
    }
    hide Inv, Controlled, InsertedBefore, AnsweredBefore, CutBefore, RecheckedBefore, IdOf;
  }

  lemma ReplyTold(es: seq<Event>, k: nat, st: State, n: nat)
    requires k < |es| && Inv(st) && Controlled(es, k, st) && es[k].Response?
    requires n < |st.requests| && Told(es, k, n, st.requests[n])
    ensures Delivers(st, es[k], n) ==>
              AnsweredBefore(es, n, k + 1, Delivered(es[k].gen, es[k].tag, es[k].body))
  {
    hide IdOf, EpochOk, ClosedOk, LinkOk, PromiseOk, ReadyAt, ClosedAt, Attempts;
  }

  lemma CutTold(es: seq<Event>, k: nat, st: State, n: nat)
    requires k < |es| && Inv(st) && Controlled(es, k, st) && es[k].Disconnect?
    requires n < |st.requests| && Told(es, k, n, st.requests[n])
    ensures es[k].gen == st.connectionId && Holds(st, IdOf(n), n) ==> CutBefore(es, n, k + 1)
  {
    hide IdOf, EpochOk, ClosedOk, LinkOk, PromiseOk, ReadyAt, ClosedAt, Attempts;
    if es[k].gen == st.connectionId && Holds(st, IdOf(n), n) {
      assert IsCut(es, k) && InsertedBefore(es, n, k);
    }
  }

  lemma {:induction false} ToldRun(es: seq<Event>, k: nat, n: nat)
    requires Run(INITIAL, es) && k <= |es|
    ensures Run(INITIAL, es[..k])
    ensures n < |After(INITIAL, es[..k]).requests| ==> Told(es, k, n, After(INITIAL, es[..k]).requests[n])
  {
    hide Enabled, Told, Controlled, NextControl, NextRequest, NextPromises, Inv;
    if k == 0 {
      assert es[..0] == [];
    } else {
      ToldRun(es, k - 1, n);
      PrefixRun(INITIAL, es, k - 1);
      var st := After(INITIAL, es[..k - 1]);
      InitialInv();
      InvRun(INITIAL, es[..k - 1]);
      ControlRun(es, k - 1);
      if n < |st.requests| {
        ToldStep(es, k - 1, st, n);
      } else if n < |Step(st, es[k - 1]).requests| {
        FreshIsTold(es, k, n);
        assert Step(st, es[k - 1]).requests[n] == FRESH;
      }
    }
  }

  lemma InitialInv()
    ensures Inv(INITIAL)
  {
  }

  lemma FreshIsTold(es: seq<Event>, k: nat, n: nat)
    requires k <= |es|
    ensures Told(es, k, n, FRESH)
  {
  }

  /**
   What stands behind each outcome: a reply is one that came in on the then current connection, with the request's id,
   after its promise was inserted; a request fails as disconnected only if its re-check saw the connection closed, and
   every other outcome only if it saw it open; and a request that was cut off was so by the loss of the then current
   connection after its insertion.
   */
  lemma OutcomesAreEarned(es: seq<Event>, n: nat)
    requires Run(INITIAL, es) && n < |After(INITIAL, es).requests|
    ensures var r := After(INITIAL, es).requests[n];
            (r.stage.Done? && r.stage.outcome.Reply? ==>
               r.stage.outcome.tag == IdOf(n)
               && var o := r.stage.outcome; AnsweredBefore(es, n, |es|, Delivered(o.gen, o.tag, o.body)))
            && (r.stage == Done(Disconnected) ==> RecheckedBefore(es, n, |es|, true))
            && (r.stage.Done? && r.stage != Done(Disconnected) ==> RecheckedBefore(es, n, |es|, false))
            && (r.cut ==> CutBefore(es, n, |es|))
            && (SpacedRun(INITIAL, es) && r.stage == Done(ChannelClosed) ==> CutBefore(es, n, |es|))
  {
    hide IdOf, Step, Enabled, ClosedOk, EpochOk, LinkOk, MapOk, AnsweredBefore, CutBefore, RecheckedBefore, InsertedBefore;
    assert es[..|es|] == es;
    ToldRun(es, |es|, n);
    InitialInv();
    InvRun(INITIAL, es);
    assert PromiseOk(After(INITIAL, es), n);
    if SpacedRun(INITIAL, es) {
      Isolation(es, n);
    }
  }
}
