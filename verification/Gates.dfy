/** When the scheduler may send at all: what must have happened, in the order of events, before a message goes out. */
module Gates {
  import opened Outbound
  import opened Scheduler

  // ----- read off the events alone, for the first `n` of them

  /** SERVER_READY came in and no disconnect since. */
  ghost predicate ReadyAt(es: seq<Event>, n: nat)
    requires n <= |es|
  {
    exists k | 0 <= k < n :: es[k] == ServerReady && forall d | k < d < n :: !es[d].Disconnect?
  }

  ghost predicate OpenAt(es: seq<Event>, n: nat)
    requires n <= |es|
  {
    forall d | 0 <= d < n :: !es[d].Disconnect?
  }

  /** `w` is the last wake-up. */
  predicate LastWake(es: seq<Event>, w: nat, n: nat)
    requires n <= |es|
  {
    w < n && es[w] == Wake && forall x | w < x < n :: es[x] != Wake
  }

  /** The wake-up `w` has not been followed by a look at the server's readiness. */
  ghost predicate UnreadSince(es: seq<Event>, w: nat, n: nat)
    requires n <= |es|
  {
    forall r | w < r < n :: es[r] != ReadReady
  }

  /** Since the wake-up `w` the scheduler looked, and whenever it did the server was ready. */
  ghost predicate SawReadySince(es: seq<Event>, w: nat, n: nat)
    requires n <= |es|
  {
    (exists r | w < r < n :: es[r] == ReadReady) && forall r | w < r < n && es[r] == ReadReady :: ReadyAt(es, r)
  }

  /** After that it read that the connection is open, while it was. */
  ghost predicate PassedSince(es: seq<Event>, w: nat, n: nat)
    requires n <= |es|
  {
    SawReadySince(es, w, n)
    && exists r: nat, c: nat | w < r < c < n :: es[r] == ReadReady && es[c] == ReadClosed && OpenAt(es, c)
  }

  ghost predicate MayLook(es: seq<Event>, n: nat)
    requires n <= |es|
  {
    exists w: nat :: LastWake(es, w, n) && UnreadSince(es, w, n)
  }

  ghost predicate MayGoOn(es: seq<Event>, n: nat)
    requires n <= |es|
  {
    exists w: nat :: LastWake(es, w, n) && SawReadySince(es, w, n)
  }

  ghost predicate MaySend(es: seq<Event>, n: nat)
    requires n <= |es|
  {
    exists w: nat :: LastWake(es, w, n) && PassedSince(es, w, n)
  }

  /** The scheduler is where its reads since the last wake-up allow it to be. */
  ghost predicate Gated(es: seq<Event>, n: nat, st: State)
    requires n <= |es|
  {
    (st.serverReady <==> ReadyAt(es, n))
    && (st.closed <==> !OpenAt(es, n))
    && (st.pc.Woken? ==> MayLook(es, n))
    && (st.pc.SawReady? ==> MayGoOn(es, n))
    && (st.pc.Scan? || st.pc.Check? ==> MaySend(es, n))
  }

  lemma ReadyNext(es: seq<Event>, n: nat)
    requires n < |es|
    ensures ReadyAt(es, n + 1) <==> es[n] == ServerReady || (!es[n].Disconnect? && ReadyAt(es, n))
  {
    if es[n] == ServerReady {
      assert es[n] == ServerReady;
    } else if !es[n].Disconnect? && ReadyAt(es, n) {
      var k :| 0 <= k < n && es[k] == ServerReady && forall d | k < d < n :: !es[d].Disconnect?;
      assert forall d | k < d < n + 1 :: !es[d].Disconnect?;
    }
  }

  lemma WakeNext(es: seq<Event>, n: nat)
    requires n < |es| && es[n] != Wake && es[n] != ReadReady
    ensures MayLook(es, n) ==> MayLook(es, n + 1)
    ensures MayGoOn(es, n) ==> MayGoOn(es, n + 1)
    ensures MaySend(es, n) ==> MaySend(es, n + 1)
  {
    if MayLook(es, n) {
      var w: nat :| LastWake(es, w, n) && UnreadSince(es, w, n);
      assert LastWake(es, w, n + 1) && UnreadSince(es, w, n + 1);
    }
    if MayGoOn(es, n) {
      var w: nat :| LastWake(es, w, n) && SawReadySince(es, w, n);
      assert LastWake(es, w, n + 1) && SawReadySince(es, w, n + 1);
    }
    if MaySend(es, n) {
      var w: nat :| LastWake(es, w, n) && PassedSince(es, w, n);
      assert LastWake(es, w, n + 1) && PassedSince(es, w, n + 1);
    }
  }

  lemma GateStep(es: seq<Event>, n: nat, st: State)
    requires n < |es| && Gated(es, n, st) && Enabled(st, es[n])
    ensures Gated(es, n + 1, Step(st, es[n]))
  {
    hide ReadyAt, MayLook, MayGoOn, MaySend;
    ReadyNext(es, n);
    var e := es[n];
    if e == Wake {
      WakeStep(es, n);
    } else if e == ReadReady {
      if st.serverReady {
        ReadReadyStep(es, n);
      }
    } else {
      WakeNext(es, n);
      if e == ReadClosed && !st.closed {
        ReadClosedStep(es, n);
      }
    }
  }

  lemma WakeStep(es: seq<Event>, n: nat)
    requires n < |es| && es[n] == Wake
    ensures MayLook(es, n + 1)
  {
    assert LastWake(es, n, n + 1) && UnreadSince(es, n, n + 1);
  }

  lemma ReadReadyStep(es: seq<Event>, n: nat)
    requires n < |es| && es[n] == ReadReady && MayLook(es, n) && ReadyAt(es, n)
    ensures MayGoOn(es, n + 1)
  {
    var w: nat :| LastWake(es, w, n) && UnreadSince(es, w, n);
    assert LastWake(es, w, n + 1) && SawReadySince(es, w, n + 1);
  }

  lemma ReadClosedStep(es: seq<Event>, n: nat)
    requires n < |es| && es[n] == ReadClosed && MayGoOn(es, n) && OpenAt(es, n)
    ensures MaySend(es, n + 1)
  {
    var w: nat :| LastWake(es, w, n) && SawReadySince(es, w, n);
    var r: nat :| w < r < n && es[r] == ReadReady;
    assert LastWake(es, w, n + 1) && PassedSince(es, w, n + 1);
  }

  /** The state in front of each event of a run. */
  lemma {:induction false} PrefixRun(st: State, es: seq<Event>, n: nat)
    requires Run(st, es) && n < |es|
    ensures Run(st, es[..n]) && Run(st, es[..n + 1])
    ensures Enabled(After(st, es[..n]), es[n])
    ensures After(st, es[..n + 1]) == Step(After(st, es[..n]), es[n])
    decreases |es|
  {
    hide Enabled, Step;
    if n == 0 {
      assert es[..1] == [es[0]] && [es[0]][1..] == [] && Run(Step(st, es[0]), []);
      assert Run(st, [es[0]]) && After(st, [es[0]]) == After(Step(st, es[0]), []);
    } else {
      PrefixRun(Step(st, es[0]), es[1..], n - 1);
      assert es[..n][1..] == es[1..][..n - 1] && es[..n + 1][1..] == es[1..][..n];
    }
  }

  lemma {:induction false} GateRun(st: State, es: seq<Event>, n: nat)
    requires Initial(st) && Run(st, es) && n <= |es|
    ensures Run(st, es[..n]) && Gated(es, n, After(st, es[..n]))
  {
    if n == 0 {
      assert es[..0] == [];
    } else {
      GateRun(st, es, n - 1);
      PrefixRun(st, es, n - 1);
      GateStep(es, n - 1, After(st, es[..n - 1]));
    }
  }

  // ===== what this means for sends

  /**
   Every send belongs to a pass that the last wake-up before it let in: since that wake-up the scheduler read that the
   server is ready, while it was, and then that the connection is open, while it was.
   */
  lemma EverySendIsCleared(st: State, es: seq<Event>, i: nat) returns (w: nat)
    requires Initial(st) && Run(st, es) && i < |es| && es[i].Send?
    ensures LastWake(es, w, i) && PassedSince(es, w, i)
  {
    GateRun(st, es, i);
    PrefixRun(st, es, i);
    w :| LastWake(es, w, i) && PassedSince(es, w, i);
  }

  /** Nothing goes out before SERVER_READY. */
  lemma NoSendBeforeServerReady(st: State, es: seq<Event>, i: nat)
    requires Initial(st) && Run(st, es) && i < |es| && es[i].Send?
    ensures exists j | 0 <= j < i :: es[j] == ServerReady
  {
    var w := EverySendIsCleared(st, es, i);
  }

  /** A wake-up that found the server not ready is followed by no send before the next wake-up. */
  lemma NoSendAfterARefusal(st: State, es: seq<Event>, w: nat, r: nat, i: nat)
    requires Initial(st) && Run(st, es) && w < r < i < |es| && es[w] == Wake && es[r] == ReadReady && es[i].Send?
    requires forall x | w < x < i :: es[x] != Wake
    ensures ReadyAt(es, r)
  {
    var v := EverySendIsCleared(st, es, i);
    assert v == w;
  }

  /** After a disconnect only the pass under way may still send: no wake-up after it is followed by a send. */
  lemma NoPassAfterADisconnect(st: State, es: seq<Event>, d: nat, w: nat, i: nat)
    requires Initial(st) && Run(st, es) && d < w < i < |es| && es[d].Disconnect? && es[w] == Wake
    ensures !es[i].Send?
  {
    if es[i].Send? {
      var v := EverySendIsCleared(st, es, i);
      assert false;
    }
  }

  /** Producers are let in before the disconnect only. */
  lemma AdmittedWhileOpen(st: State, es: seq<Event>, i: nat)
    requires Initial(st) && Run(st, es) && i < |es| && es[i] == Admit
    ensures OpenAt(es, i)
  {
    GateRun(st, es, i);
    PrefixRun(st, es, i);
  }

  // ===== leaving for good

  lemma {:induction false} ExitedIsSilent(st: State, es: seq<Event>, i: nat)
    requires Run(st, es) && st.pc.Exited? && i < |es|
    ensures !IsScheduler(es[i])
    decreases |es|
  {
    if i > 0 {
      ExitedIsSilent(Step(st, es[0]), es[1..], i - 1);
    }
  }

  lemma {:induction false} RunSuffix(st: State, es: seq<Event>, n: nat)
    requires Run(st, es) && n <= |es|
    ensures Run(st, es[..n]) && Run(After(st, es[..n]), es[n..])
    decreases |es|
  {
    hide Enabled, Step;
    if n == 0 {
      assert es[..0] == [] && es[0..] == es;
    } else {
      RunSuffix(Step(st, es[0]), es[1..], n - 1);
      assert es[..n][1..] == es[1..][..n - 1] && es[1..][n - 1..] == es[n..];
    }
  }

  /** A scheduler whose writer is gone, or that reads a closed connection, takes no further step. */
  lemma NothingAfterTheExit(st: State, es: seq<Event>, i: nat, k: nat)
    requires Initial(st) && Run(st, es) && i < k < |es|
    requires (es[i].Send? && !es[i].delivered) || (es[i] == ReadClosed && !OpenAt(es, i))
    ensures !IsScheduler(es[k])
  {
    hide MayLook, MayGoOn, MaySend, ReadyAt;
    GateRun(st, es, i);
    PrefixRun(st, es, i);
    RunSuffix(st, es, i + 1);
    ExitedIsSilent(After(st, es[..i + 1]), es[i + 1..], k - (i + 1));
  }
}
