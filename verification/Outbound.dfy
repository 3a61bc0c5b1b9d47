/** The outbound queue: 20 priority levels, each a map from a source to the FIFO of its messages. */
module Outbound {
  import opened Wire

  const PRIORITY_LEVELS: nat := 20

  type Source = Bytes
  type Level = map<Source, seq<Bytes>>
  type Queues = q: seq<Level> | |q| == PRIORITY_LEVELS witness seq(PRIORITY_LEVELS, _ => map[])

  /** The FIFO of one source at one level; an absent source has nothing queued. */
  function Fifo(q: Queues, l: nat, s: Source): seq<Bytes>
    requires l < PRIORITY_LEVELS
  {
    if s in q[l] then q[l][s] else []
  }

  predicate NoData(m: Level) {
    forall s | s in m :: m[s] == []
  }

  ghost predicate AllEmpty(q: Queues) {
    forall l | 0 <= l < PRIORITY_LEVELS :: NoData(q[l])
  }

  /** One token per queued message; what the scheduler has left to do. */
  ghost function Slots(q: Queues): set<(nat, Source, nat)> {
    set l: nat, s, i: nat | l < PRIORITY_LEVELS && s in q[l] && i < |q[l][s]| :: (l, s, i)
  }

  function Push(q: Queues, l: nat, s: Source, msg: Bytes): Queues
    requires l < PRIORITY_LEVELS
  {
    q[l := q[l][s := Fifo(q, l, s) + [msg]]]
  }

  function Take(q: Queues, l: nat, s: Source): Queues
    requires l < PRIORITY_LEVELS && Fifo(q, l, s) != []
  {
    q[l := q[l][s := q[l][s][1..]]]
  }

  /** Levels in `skipped` are locked by somebody else and stay as they are. */
  function Cleared(q: Queues, skipped: set<nat>): Queues {
    seq(PRIORITY_LEVELS, l requires 0 <= l < PRIORITY_LEVELS => if l in skipped then q[l] else map[])
  }

  function WithoutIdle(m: Level): Level {
    map s | s in m && m[s] != [] :: m[s]
  }

  function Pruned(q: Queues, skipped: set<nat>): Queues {
    seq(PRIORITY_LEVELS, l requires 0 <= l < PRIORITY_LEVELS => if l in skipped then q[l] else WithoutIdle(q[l]))
  }

  /** Pruning removes exactly the idle sources of the levels it could lock, clearing all sources of these levels. */
  lemma PrunedAndClearedExactly(q: Queues, skipped: set<nat>, l: nat, s: Source)
    requires l < PRIORITY_LEVELS
    ensures s in Pruned(q, skipped)[l] <==> s in q[l] && (l in skipped || q[l][s] != [])
    ensures s in Pruned(q, skipped)[l] ==> Pruned(q, skipped)[l][s] == q[l][s]
    ensures s in Cleared(q, skipped)[l] <==> s in q[l] && l in skipped
    ensures Fifo(Pruned(q, skipped), l, s) == Fifo(q, l, s)
    ensures Fifo(Cleared(q, skipped), l, s) == if l in skipped then Fifo(q, l, s) else []
  {
  }

  lemma AllEmptyFifo(q: Queues, l: nat, s: Source)
    requires AllEmpty(q) && l < PRIORITY_LEVELS
    ensures Fifo(q, l, s) == []
  {
  }

  lemma TakeShrinks(q: Queues, l: nat, s: Source)
    requires l < PRIORITY_LEVELS && Fifo(q, l, s) != []
    ensures |Slots(Take(q, l, s))| == |Slots(q)| - 1
    ensures Slots(Take(q, l, s)) < Slots(q)
  {
    var last := (l, s, |q[l][s]| - 1);
    assert last in Slots(q);
    assert Slots(Take(q, l, s)) == Slots(q) - {last};
  }

  /** Forgetting a source removes as many messages as its FIFO holds. */
  lemma {:induction false} ForgetShrinks(q: Queues, l: nat, s: Source)
    requires l < PRIORITY_LEVELS && s in q[l]
    ensures |Slots(q[l := q[l] - {s}])| == |Slots(q)| - |q[l][s]|
    decreases |q[l][s]|
  {
    if q[l][s] == [] {
      assert Slots(q[l := q[l] - {s}]) == Slots(q);
    } else {
      var t := Take(q, l, s);
      TakeShrinks(q, l, s);
      ForgetShrinks(t, l, s);
      assert t[l] - {s} == q[l] - {s};
      assert t[l := t[l] - {s}] == q[l := q[l] - {s}];
    }
  }
}
