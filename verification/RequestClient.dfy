/** The promise map as the client updates it; each method is tied to its events of the protocol. */
module RequestClient {
  import opened Wire
  import opened Requests

  class Client {
    var connectionId: nat
    var connectionClosed: bool
    var serverReady: bool
    var counter: u32
    var promises: map<u32, nat>
    var requests: seq<Request>
    var epoch: nat                 // bookkeeping for the statements only
    ghost var link: Link
    ghost var tasks: bool

    ghost function View(): State
      reads this
    {
      State(connectionId, epoch, link, tasks, connectionClosed, serverReady, 0, 0, promises, requests)
    }

    /** The counter is the number of ids issued, in 32 bits. */
    ghost predicate Valid()
      reads this
    {
      Inv(View()) && counter == IdOf(|requests|)
    }

    method HandleResponse(gen: nat, tag: u32, body: Bytes)
      requires Valid() && Alive(View(), gen)
      modifies this`promises, this`requests
      ensures Valid() && View() == Step(old(View()), Response(gen, tag, body))
    {
      InvStep(View(), Response(gen, tag, body));
      hide Inv, IdOf;
      if connectionId == gen {
        if tag in promises {
          var n := promises[tag];
          PromiseIsKnown(View(), tag);
          promises := promises - {tag};
          requests := requests[n := requests[n].(channel := Delivered(gen, tag, body))];
        }
      }
      assert View().requests == old(Step(View(), Response(gen, tag, body))).requests;
    }

    /** Dropping the senders of a map that has been taken out, one by one. */
    method DropSenders(senders: map<u32, nat>)
      requires forall id | id in senders :: senders[id] < |requests| && IdOf(senders[id]) == id
      modifies this`requests
      ensures |requests| == |old(requests)|
      ensures forall n: nat | n < |requests| ::
                requests[n] == if IdOf(n) in senders && senders[IdOf(n)] == n
                               then old(requests)[n].(channel := Dropped, cut := true)
                               else old(requests)[n]
    {
      hide IdOf;
      var left := senders.Keys;
      while left != {}
        invariant left <= senders.Keys && |requests| == |old(requests)|
        invariant forall n: nat | n < |requests| ::
                    requests[n] == if IdOf(n) in senders && senders[IdOf(n)] == n && IdOf(n) !in left
                                   then old(requests)[n].(channel := Dropped, cut := true)
                                   else old(requests)[n]
        decreases |left|
      {
        var id :| id in left;
        var n := senders[id];
        requests := requests[n := requests[n].(channel := Dropped, cut := true)];
        left := left - {id};
      }
    }

    method HandleDisconnect(gen: nat)
      requires Valid() && Alive(View(), gen)
      modifies this`connectionClosed, this`serverReady, this`promises, this`requests
      ensures Valid() && View() == Step(old(View()), Disconnect(gen))
    {
      ghost var before := View();
      InvStep(before, Disconnect(gen));
      PromisesAreKnown(before);
      hide Inv, IdOf;
      if connectionId == gen {
        connectionClosed := true;
        serverReady := false;
        var taken := promises;
        promises := map[];
        DropSenders(taken);
      }
      assert requests == Step(before, Disconnect(gen)).requests;
    }

    /** Both checks, then fetch_add on the id counter; a caller that fails a check gets an error and leaves no trace. */
    method IssueId() returns (issued: Option<(nat, u32)>)
      requires Valid()
      modifies this`counter, this`requests
      ensures Valid() && (issued.Some? <==> !connectionClosed && serverReady)
      ensures issued.None? ==> View() == old(View()) && counter == old(counter)
      ensures issued.Some? ==>
                var serial := issued.value.0;
                serial == |old(requests)| && issued.value.1 == IdOf(serial) && At(View(), serial, Issued)
      ensures issued.Some? ==>
                var es := [CheckClosed, CheckReady, Issue]; Run(old(View()), es) && View() == After(old(View()), es)
    {
      if connectionClosed || !serverReady {
        return None;
      }
      ghost var s0 := View();
      ghost var s3 := AdmittedSteps(s0);
      issued := Some((|requests|, counter));
      counter := if counter == U32_MAX then 0 else counter + 1;
      requests := requests + [FRESH];
      hide Inv;
      assert View() == s3;
    }

    /** Inserting under a reused id drops the sender stored there. */
    method InsertPromise(n: nat)
      requires Valid() && At(View(), n, Issued)
      modifies this`promises, this`requests
      ensures Valid() && View() == Step(old(View()), Insert(n))
    {
      ghost var before := View();
      InvStep(before, Insert(n));
      hide Inv, IdOf;
      var id := IdOf(n);
      if id in promises {
        PromiseIsKnown(before, id);
        requests := requests[promises[id] := requests[promises[id]].(channel := Dropped)];
      }
      promises := promises[id := n];
      requests := requests[n := requests[n].(stage := Inserted)];
      assert requests == Step(before, Insert(n)).requests;
    }

    method NoteQueued(n: nat)
      requires Valid() && At(View(), n, Inserted)
      modifies this`requests
      ensures Valid() && View() == Step(old(View()), Queue(n))
    {
      InvStep(View(), Queue(n));
      hide Inv, IdOf;
      ghost var before := View();
      requests := requests[n := requests[n].(stage := Queued, droppedIn := if connectionClosed then Some(epoch) else None)];
      assert requests == Step(before, Queue(n)).requests;
    }

    /** The check after queueing: a request on a closed connection takes its promise back and fails. */
    method RecheckOrFail(n: nat) returns (failed: bool)
      requires Valid() && At(View(), n, Queued)
      modifies this`promises, this`requests
      ensures Valid() && failed == old(connectionClosed)
      ensures !failed ==> View() == Step(old(View()), Recheck(n))
      ensures failed ==>
                var mid := Step(old(View()), Recheck(n));
                Enabled(mid, Fail(n)) && View() == Step(mid, Fail(n))
    {
      ghost var before := View();
      InvStep(before, Recheck(n));
      ghost var mid := Step(before, Recheck(n));
      failed := connectionClosed;
      if !failed {
        requests := requests[n := requests[n].(stage := Waiting, passedIn := Some(epoch))];
        assert requests == mid.requests;
        return;
      }
      InvStep(mid, Fail(n));
      hide Inv, IdOf;
      requests := requests[n := requests[n].(stage := Failing)];
      assert requests == mid.requests;
      var id := IdOf(n);
      if id in promises {
        PromiseIsKnown(mid, id);
        requests := requests[promises[id] := requests[promises[id]].(channel := Dropped)];
      }
      promises := promises - {id};
      requests := requests[n := requests[n].(stage := Done(Disconnected))];
      assert requests == Step(mid, Fail(n)).requests;
    }

    /** The await ends with what is in the channel: the reply, or an error when the sender was dropped. */
    method ReceiveReply(n: nat) returns (outcome: Outcome)
      requires Valid() && At(View(), n, Waiting) && !requests[n].channel.Open?
      modifies this`requests
      ensures Valid() && View() == Step(old(View()), Receive(n))
      ensures var c := old(requests[n].channel);
              outcome == if c.Delivered? then Reply(c.gen, c.tag, c.body) else ChannelClosed
    {
      ghost var before := View();
      InvStep(before, Receive(n));
      hide Inv, IdOf;
      match requests[n].channel {
        case Delivered(gen, tag, body) => outcome := Reply(gen, tag, body);
        case _ => outcome := ChannelClosed;
      }
      requests := requests[n := requests[n].(stage := Done(outcome))];
      assert requests == Step(before, Receive(n)).requests;
    }

    /** The timer fires first: the promise is taken back, dropping whatever sender is stored under the id. */
    method TimeOut(n: nat)
      requires Valid() && At(View(), n, Waiting) && requests[n].channel.Open?
      modifies this`promises, this`requests
      ensures Valid() && Enabled(old(View()), Timer(n)) && At(View(), n, Done(TimedOut))
      ensures var mid := Step(old(View()), Timer(n)); Enabled(mid, Expire(n)) && View() == Step(mid, Expire(n))
    {
      ghost var before := View();
      InvStep(before, Timer(n));
      ghost var mid := Step(before, Timer(n));
      InvStep(mid, Expire(n));
      hide Inv, IdOf;
      requests := requests[n := requests[n].(stage := TimingOut)];
      assert requests == mid.requests;
      var id := IdOf(n);
      if id in promises {
        PromiseIsKnown(mid, id);
        requests := requests[promises[id] := requests[promises[id]].(channel := Dropped)];
      }
      promises := promises - {id};
      requests := requests[n := requests[n].(stage := Done(TimedOut))];
      assert requests == Step(mid, Expire(n)).requests;
    }
  }

  lemma PromiseIsKnown(st: State, id: u32)
    requires Inv(st) && id in st.promises
    ensures st.promises[id] < |st.requests| && IdOf(st.promises[id]) == id && st.requests[st.promises[id]].channel.Open?
  {
  }

  lemma PromisesAreKnown(st: State)
    requires Inv(st)
    ensures forall id | id in st.promises :: st.promises[id] < |st.requests| && IdOf(st.promises[id]) == id
  {
  }

  lemma AdmittedSteps(s0: State) returns (s3: State)
    requires Inv(s0) && !s0.closed && s0.ready && s0.looking == 0 && s0.admitted == 0
    ensures var es := [CheckClosed, CheckReady, Issue]; Run(s0, es) && After(s0, es) == s3
    ensures s3 == s0.(requests := s0.requests + [FRESH]) && Inv(s3)
  {
    var s1 := Step(s0, CheckClosed);
    InvStep(s0, CheckClosed);
    assert s1 == s0.(looking := 1);
    var s2 := Step(s1, CheckReady);
    InvStep(s1, CheckReady);
    assert s2 == s0.(admitted := 1);
    s3 := Step(s2, Issue);
    InvStep(s2, Issue);
    assert [Issue][1..] == [] && Run(s3, []) && After(s3, []) == s3;
    var fs := [CheckReady, Issue];
    assert fs[1..] == [Issue] && Run(s2, [Issue]) && After(s2, [Issue]) == s3;
    assert Run(s1, fs) && After(s1, fs) == s3;
    assert [CheckClosed, CheckReady, Issue][1..] == fs;
  }
}
