/** What one uncontended steal does to the backlogs (`crates/rollout-coordinator/src/steal.rs`). */
module StealBalance {
  import opened Wrappers
  import opened Ordered
  import opened WorkItems
  import opened Ledger

  function RunningIds(work: Rows): set<WorkId> {
    set id | id in work && work[id].Running?
  }

  /** The rows after `thief` has stolen from `victim`. */
  function AfterStealFrom(work: Rows, thief: WorkerId, victim: WorkerId, now: nat): Rows {
    Reassigned(work, StolenItems(work, victim), thief, now)
  }

  predicate IdleThief(work: Rows, thief: WorkerId, victim: WorkerId) {
    thief != victim && Backlog(work, thief) == 0 && Backlog(work, victim) > 0
  }

  lemma StolenSize(work: Rows, victim: WorkerId) returns (moved: set<WorkId>)
    ensures moved <= ItemsOf(work, victim) && |moved| == StealBatch(Backlog(work, victim))
    ensures forall id :: id in moved <==> id in StolenItems(work, victim)
  {
    var ids := StolenItems(work, victim);
    moved := set id | id in ids;
    SortedUnique(ids, moved);
  }

  lemma StealBatchBounds(b: nat)
    ensures b > 0 ==> 1 <= StealBatch(b) <= b
    ensures b >= 2 ==> StealBatch(b) < b
    ensures StealBatch(b) <= MAX_STEAL_BATCH
    ensures b <= 2 * MAX_STEAL_BATCH ==> b - StealBatch(b) <= StealBatch(b) <= b - StealBatch(b) + 1
  {
  }

  /** The items on the move are the victim's. */
  ghost predicate Moved(work: Rows, victim: WorkerId, moved: set<WorkId>) {
    moved <= ItemsOf(work, victim) && forall id :: id in moved <==> id in StolenItems(work, victim)
  }

  lemma ThiefGains(work: Rows, thief: WorkerId, victim: WorkerId, now: nat, moved: set<WorkId>)
    requires Moved(work, victim, moved) && Backlog(work, thief) == 0
    ensures ItemsOf(AfterStealFrom(work, thief, victim, now), thief) == moved
  {
    var after := AfterStealFrom(work, thief, victim, now);
    assert ItemsOf(work, thief) == {};
    forall id ensures id in ItemsOf(after, thief) <==> id in moved {
      if id in moved {
        assert id in ItemsOf(work, victim);
      } else if id in work {
        assert id !in ItemsOf(work, thief);
      }
    }
  }

  lemma VictimLoses(work: Rows, thief: WorkerId, victim: WorkerId, now: nat, moved: set<WorkId>)
    requires Moved(work, victim, moved) && thief != victim
    ensures ItemsOf(AfterStealFrom(work, thief, victim, now), victim) == ItemsOf(work, victim) - moved
  {
  }

  lemma BystanderKeeps(work: Rows, thief: WorkerId, victim: WorkerId, now: nat, moved: set<WorkId>, w: WorkerId)
    requires Moved(work, victim, moved) && w != thief && w != victim
    ensures ItemsOf(AfterStealFrom(work, thief, victim, now), w) == ItemsOf(work, w)
  {
    forall id ensures id in ItemsOf(AfterStealFrom(work, thief, victim, now), w) <==> id in ItemsOf(work, w) {
      assert id in moved ==> id in ItemsOf(work, victim);
    }
  }

  lemma RunningStays(work: Rows, thief: WorkerId, victim: WorkerId, now: nat, moved: set<WorkId>)
    requires Moved(work, victim, moved)
    ensures RunningIds(AfterStealFrom(work, thief, victim, now)) == RunningIds(work)
  {
    forall id ensures id in RunningIds(AfterStealFrom(work, thief, victim, now)) <==> id in RunningIds(work) {
      assert id in moved ==> id in ItemsOf(work, victim);
    }
  }

  /**
   Half of the victim's items move, rounded up and at most 32, and those it keeps have larger
   ids; no other backlog and no total changes.
   */
  lemma StealMoves(work: Rows, thief: WorkerId, victim: WorkerId, now: nat)
    requires IdleThief(work, thief, victim)
    ensures var b, after := Backlog(work, victim), AfterStealFrom(work, thief, victim, now);
      && Backlog(after, thief) == (if b <= 64 then (b + 1) / 2 else 32)
      && Backlog(after, victim) == b - Backlog(after, thief)
      && (forall id: WorkId, left: WorkId :: HeldBy(after, id, thief) && HeldBy(after, left, victim) ==> id < left)
      && (forall w :: w != thief && w != victim ==> Backlog(after, w) == Backlog(work, w))
      && RunningIds(after) == RunningIds(work)
  {
    var moved := StolenSize(work, victim);
    ThiefGains(work, thief, victim, now, moved);
    VictimLoses(work, thief, victim, now, moved);
    RunningStays(work, thief, victim, now, moved);
    StolenAreSmallest(work, victim);
    forall id: WorkId, left: WorkId | HeldBy(AfterStealFrom(work, thief, victim, now), id, thief)
        && HeldBy(AfterStealFrom(work, thief, victim, now), left, victim)
      ensures id < left
    {
      assert id in ItemsOf(AfterStealFrom(work, thief, victim, now), thief);
    }
    forall w | w != thief && w != victim
      ensures Backlog(AfterStealFrom(work, thief, victim, now), w) == Backlog(work, w)
    {
      BystanderKeeps(work, thief, victim, now, moved, w);
    }
  }

  /** Stealing from the busiest peer never raises the maximum, and halves a backlog within the cap. */
  lemma StealNeverRaisesTheMaximum(work: Rows, thief: WorkerId, victim: WorkerId, now: nat, w: WorkerId)
    requires Backlog(work, thief) == 0 && IsBusiest(work, thief, Some((victim, Backlog(work, victim))))
    ensures var b, after := Backlog(work, victim), AfterStealFrom(work, thief, victim, now);
      && Backlog(after, w) <= b
      && (b <= 2 * MAX_STEAL_BATCH ==>
           Backlog(after, victim) <= Backlog(after, thief) <= Backlog(after, victim) + 1)
  {
    StealMoves(work, thief, victim, now);
    StealBatchBounds(Backlog(work, victim));
  }

  function SumOfSquares(work: Rows, workers: set<WorkerId>): nat
    decreases |workers|
  {
    if workers == {} then 0
    else
      var w := Least(workers);
      Backlog(work, w) * Backlog(work, w) + SumOfSquares(work, workers - {w})
  }

  lemma {:induction false} SumWithout(work: Rows, workers: set<WorkerId>, w: WorkerId)
    requires w in workers
    ensures SumOfSquares(work, workers) == Backlog(work, w) * Backlog(work, w) + SumOfSquares(work, workers - {w})
    decreases |workers|
  {
    var least := Least(workers);
    if least != w {
      SumWithout(work, workers - {least}, w);
      var next := Least(workers - {w});
      assert least in workers - {w} && next in workers;
      assert next == least;
      assert workers - {least} - {w} == workers - {w} - {least};
    }
  }

  lemma {:induction false} SumUnchanged(work: Rows, after: Rows, workers: set<WorkerId>)
    requires forall w :: w in workers ==> Backlog(after, w) == Backlog(work, w)
    ensures SumOfSquares(after, workers) == SumOfSquares(work, workers)
    decreases |workers|
  {
    if workers != {} {
      SumUnchanged(work, after, workers - {Least(workers)});
    }
  }

  lemma SquareDrop(b: nat, n: nat)
    requires n <= b
    ensures b * b == n * n + (b - n) * (b - n) + 2 * n * (b - n)
  {
    var m := b - n;
    assert b == n + m;
    assert (n + m) * (n + m) == n * n + 2 * n * m + m * m;
  }

  lemma SumWithoutBoth(work: Rows, workers: set<WorkerId>, v: WorkerId, w: WorkerId)
    requires v in workers && w in workers && v != w
    ensures SumOfSquares(work, workers) ==
      Backlog(work, v) * Backlog(work, v) + Backlog(work, w) * Backlog(work, w) + SumOfSquares(work, workers - {v} - {w})
  {
    SumWithout(work, workers, v);
    SumWithout(work, workers - {v}, w);
  }

  lemma BatchDrop(b: nat)
    requires b > 0
    ensures var n := StealBatch(b);
      && n <= b && b * b == n * n + (b - n) * (b - n) + 2 * n * (b - n)
      && (2 * n * (b - n) > 0 <==> b >= 2)
  {
    var n := StealBatch(b);
    StealBatchBounds(b);
    SquareDrop(b, n);
    if b >= 2 {
      assert n * (b - n) >= 1 by {
        assert n >= 1 && b - n >= 1;
      }
    }
  }

  /** Every steal levels the load: strictly, exactly when the victim held two items or more. */
  lemma StealLevelsTheLoad(work: Rows, thief: WorkerId, victim: WorkerId, now: nat, workers: set<WorkerId>)
    requires IdleThief(work, thief, victim) && thief in workers && victim in workers
    ensures var b, after := Backlog(work, victim), AfterStealFrom(work, thief, victim, now);
      var n := Backlog(after, thief);
      && n <= b
      && SumOfSquares(work, workers) == SumOfSquares(after, workers) + 2 * n * (b - n)
      && (SumOfSquares(after, workers) < SumOfSquares(work, workers) <==> b >= 2)
  {
    var after := AfterStealFrom(work, thief, victim, now);
    StealMoves(work, thief, victim, now);
    SumWithoutBoth(work, workers, victim, thief);
    SumWithoutBoth(after, workers, victim, thief);
    SumUnchanged(work, after, workers - {victim} - {thief});
    BatchDrop(Backlog(work, victim));
  }
}
