/**
 Dispatch queue and work ledger (`crates/rollout-coordinator/src/ledger.rs`), work stealing
 (`steal.rs`) and the boot replay (`run.rs`), over one store with a single writer at a time.
 Scans read committed rows; a transaction works on its own copy until it commits.
 */
module Ledger {
  import opened Wrappers
  import opened Ordered
  import opened WorkItems
  import opened Lease

  /** What a booting coordinator reconstructs; never persisted. */
  datatype ReplayState = ReplayState(
    epoch: nat,
    inFlight: map<WorkId, WorkerId>,
    pending: seq<WorkId>,
    terminal: nat)

  function RunningOwners(work: Rows): map<WorkId, WorkerId> {
    map id | id in work && work[id].Running? :: work[id].workerId
  }

  function PendingIds(work: Rows): set<WorkId> {
    set id | id in work && work[id].Pending?
  }

  function TerminalIds(work: Rows): set<WorkId> {
    set id | id in work && work[id].Terminal()
  }

  function ReplayOf(epoch: nat, work: Rows): ReplayState {
    ReplayState(epoch, RunningOwners(work), Sorted(PendingIds(work)), |TerminalIds(work)|)
  }

  class LedgerStore {
    var queue: map<nat, Payload>
    var work: Rows
    var txnQueue: map<nat, Payload>
    var txnWork: Rows

    constructor ()
      ensures queue == map[] && work == map[]
    {
      queue, work, txnQueue, txnWork := map[], map[], map[], map[];
    }

    method Begin()
      modifies this`txnQueue, this`txnWork
      ensures txnQueue == queue && txnWork == work
    {
      txnQueue, txnWork := queue, work;
    }

    method Commit()
      modifies this`queue, this`work
      ensures queue == txnQueue && work == txnWork
    {
      queue, work := txnQueue, txnWork;
    }

    method Abort()
      modifies this`txnQueue, this`txnWork
      ensures txnQueue == queue && txnWork == work
    {
      txnQueue, txnWork := queue, work;
    }

    method CasWork(id: WorkId, expected: WorkState, next: WorkState) returns (won: bool)
      modifies this`txnWork
      ensures won <==> RowIs(old(txnWork), WorkItemRecord(id, expected))
      ensures txnWork == if won then old(txnWork)[id := next] else old(txnWork)
    {
      won := id in txnWork && txnWork[id] == expected;
      if won {
        txnWork := txnWork[id := next];
      }
    }

    method TryClaim(rec: WorkItemRecord, worker: WorkerId, now: nat) returns (won: bool)
      modifies this`txnWork
      ensures won <==> rec.state.Pending? && RowIs(old(txnWork), rec)
      ensures txnWork == if won then old(txnWork)[rec.id := Running(worker, now)] else old(txnWork)
    {
      if !rec.state.Pending? {
        return false;
      }
      won := CasWork(rec.id, rec.state, Running(worker, now));
    }

    method TryComplete(rec: WorkItemRecord, result: WorkId) returns (won: bool)
      modifies this`txnWork
      ensures won <==> Current(old(txnWork), rec)
      ensures txnWork == AfterComplete(old(txnWork), rec, result)
    {
      if !rec.state.Running? {
        return false;
      }
      won := CasWork(rec.id, rec.state, Done(result));
    }

    method TryRepending(rec: WorkItemRecord) returns (won: bool)
      modifies this`txnWork
      ensures won <==> Current(old(txnWork), rec)
      ensures txnWork == if won then old(txnWork)[rec.id := Pending] else old(txnWork)
    {
      if !rec.state.Running? {
        return false;
      }
      won := CasWork(rec.id, rec.state, Pending);
    }

    /** Staged under a fresh random key: `Ulid::new()` orders nothing within a millisecond. */
    method Enqueue(payload: Payload) returns (ghost key: nat)
      modifies this`txnQueue
      ensures key !in old(txnQueue) && txnQueue == old(txnQueue)[key := payload]
    {
      FreshExists(txnQueue.Keys);
      var ulid :| ulid !in txnQueue;
      key := ulid;
      txnQueue := txnQueue[ulid := payload];
    }

    /**
     Staged: the lowest-keyed payload leaves the queue and its row, whatever it held, is
     running for `worker`.  The claim inside the transaction cannot be lost.
     */
    method Dispatch(worker: WorkerId, now: nat) returns (r: Option<WorkId>)
      requires txnQueue == queue
      modifies this`txnQueue, this`txnWork
      ensures r.None? <==> queue == map[]
      ensures r.None? ==> txnQueue == old(txnQueue) && txnWork == old(txnWork)
      ensures r.Some? ==>
        var key := Least(queue.Keys);
        && r.value == ContentOf(queue[key])
        && txnQueue == old(txnQueue) - {key}
        && txnWork == old(txnWork)[r.value := Running(worker, now)]
    {
      if queue.Keys == {} {
        assert queue == map[];
        return None;
      }
      var key := Least(queue.Keys);
      assert key in queue;
      var workId := ContentOf(queue[key]);
      var record := WorkItemRecord(workId, Pending);
      txnWork := txnWork[workId := Pending];
      var won := TryClaim(record, worker, now);
      if won {
        txnQueue := txnQueue - {key};
        r := Some(workId);
      } else {
        r := None;
      }
    }

    /** Committed rows, in increasing key order. */
    method ScanWork() returns (scan: Rows, entries: seq<WorkId>)
      ensures scan == work && Increasing(entries)
      ensures forall id :: id in entries <==> id in scan
    {
      scan, entries := work, Sorted(work.Keys);
    }

    method BacklogOf(worker: WorkerId) returns (count: nat)
      ensures count == Backlog(work, worker)
    {
      var scan, entries := ScanWork();
      count := 0;
      for i := 0 to |entries|
        invariant count == CountHeld(scan, entries[..i], worker)
      {
        assert entries[..i + 1][..i] == entries[..i];
        assert entries[i] in entries;
        var state := scan[entries[i]];
        if state.Running? && state.workerId == worker {
          count := count + 1;
        }
      }
      assert entries[..|entries|] == entries;
      ScanCountsBacklog(scan, entries, worker);
    }

    /** The counting half of `busiest`. */
    method CountRunning(exclude: WorkerId) returns (counts: map<WorkerId, nat>)
      ensures forall w :: w in counts <==> w != exclude && Backlog(work, w) > 0
      ensures forall w :: w in counts ==> counts[w] == Backlog(work, w)
    {
      var scan, entries := ScanWork();
      counts := map[];
      for i := 0 to |entries|
        invariant CountsPeers(scan, entries[..i], exclude, counts)
      {
        assert entries[i] in entries;
        assert entries[..i + 1] == entries[..i] + [entries[i]];
        CountsPeersSnoc(scan, entries[..i], entries[i], exclude, counts);
        var state := scan[entries[i]];
        if state.Running? && state.workerId != exclude {
          var w := state.workerId;
          counts := counts[w := (if w in counts then counts[w] else 0) + 1];
        }
      }
      assert entries[..|entries|] == entries;
      forall w {
        ScanCountsBacklog(scan, entries, w);
      }
    }

    /** The counts are walked in an arbitrary order. */
    method Busiest(exclude: WorkerId) returns (r: Option<(WorkerId, nat)>)
      ensures IsBusiest(work, exclude, r)
      ensures r.None? <==> forall w :: w != exclude ==> Backlog(work, w) == 0
      ensures r.Some? ==> r.value.0 != exclude && r.value.1 == Backlog(work, r.value.0) > 0
      ensures r.Some? ==> forall w: WorkerId :: w != exclude ==>
        Backlog(work, w) < r.value.1 || (Backlog(work, w) == r.value.1 && w <= r.value.0)
    {
      var counts := CountRunning(exclude);
      var rest := counts.Keys;
      r := None;
      while rest != {}
        invariant rest <= counts.Keys
        invariant r.None? <==> rest == counts.Keys
        invariant r.Some? ==> r.value.0 in counts && r.value.0 !in rest && r.value.1 == counts[r.value.0]
        invariant r.Some? ==> forall w :: w in counts && w !in rest && w != r.value.0
                                ==> Outranks(r.value.1, r.value.0, counts[w], w)
        decreases |rest|
      {
        var w :| w in rest;
        if r.None? || !Outranks(r.value.1, r.value.0, counts[w], w) {
          r := Some((w, counts[w]));
        }
        rest := rest - {w};
      }
      if r.Some? {
        forall w | w != exclude && w != r.value.0 ensures Outranks(r.value.1, r.value.0, Backlog(work, w), w) {
          if w !in counts {
            assert Backlog(work, w) == 0;
          }
        }
      } else {
        forall w | w != exclude ensures Backlog(work, w) == 0 {
          assert w !in counts;
        }
      }
    }

    /**
     One item's transaction, for a record read at any earlier time: from running for the
     victim straight to running for the thief in one commit, or no change at all.
     */
    method StealOne(running: WorkItemRecord, thief: WorkerId, now: nat) returns (won: bool)
      modifies this
      ensures won <==> Current(old(work), running)
      ensures work == AfterSteal(old(work), running, thief, now) && queue == old(queue)
    {
      Begin();
      var repended := TryRepending(running);
      if !repended {
        Abort();
        return false;
      }
      var pending := WorkItemRecord(running.id, Pending);
      var claimed := TryClaim(pending, thief, now);
      if claimed {
        Commit();
        assert work == old(work)[running.id := Running(thief, now)];
        return true;
      } else {
        Abort();
        return false;
      }
    }

    /** One ack's transaction, for a record read at any earlier time. */
    method CompleteOne(running: WorkItemRecord, result: WorkId) returns (won: bool)
      modifies this
      ensures won <==> Current(old(work), running)
      ensures work == AfterComplete(old(work), running, result) && queue == old(queue)
    {
      Begin();
      won := TryComplete(running, result);
      if won {
        Commit();
      } else {
        Abort();
      }
    }

    /** The running items of a worker, in scan order. */
    method RunningItemsOf(worker: WorkerId) returns (ids: seq<WorkId>)
      ensures ids == Sorted(ItemsOf(work, worker))
    {
      var scan, entries := ScanWork();
      ids := [];
      for i := 0 to |entries|
        invariant Increasing(ids)
        invariant forall x :: x in ids <==> x in entries[..i] && HeldBy(scan, x, worker)
      {
        var id := entries[i];
        assert entries[..i + 1] == entries[..i] + [id];
        assert id in entries;
        if scan[id].Running? && scan[id].workerId == worker {
          forall y | y in ids ensures y < id {
            assert y in entries[..i];
          }
          IncreasingSnoc(ids, id);
          ids := ids + [id];
        }
      }
      assert entries[..|entries|] == entries;
      SortedUnique(ids, ItemsOf(scan, worker));
    }

    /**
     With nothing else writing, an idle thief takes half of the busiest peer's backlog, rounded
     up and at most 32: its smallest ids, which alone change.
     */
    method HandleStealRequest(thief: WorkerId, now: nat)
      returns (stolen: seq<WorkId>, ghost victim: Option<(WorkerId, nat)>)
      modifies this
      ensures IsBusiest(old(work), thief, victim)
      ensures queue == old(queue)
      ensures stolen ==
        if Backlog(old(work), thief) > 0 || victim.None? then []
        else StolenItems(old(work), victim.value.0)
      ensures work == Reassigned(old(work), stolen, thief, now)
      ensures stolen != [] <==> Backlog(old(work), thief) == 0 && victim.Some?
      ensures stolen != [] ==>
        && victim.value.0 != thief && Increasing(stolen)
        && |stolen| == (if victim.value.1 <= 64 then (victim.value.1 + 1) / 2 else 32)
        && (forall id :: id in stolen ==> HeldBy(old(work), id, victim.value.0))
        && (forall id: WorkId, left: WorkId :: id in stolen && HeldBy(work, left, victim.value.0) ==> id < left)
      ensures work.Keys == old(work).Keys
      ensures forall id :: id in work ==> work[id] == if id in stolen then Running(thief, now) else old(work)[id]
    {
      var mine := BacklogOf(thief);
      var busiest := Busiest(thief);
      victim := busiest;
      stolen := [];
      if mine > 0 || busiest.None? {
        assert work == Reassigned(work, [], thief, now);
        return;
      }
      var n := StealBatch(busiest.value.1);
      var items := RunningItemsOf(busiest.value.0);
      StealSpelledOut(work, thief, busiest.value.0, now);
      ghost var before := work;
      stolen := Reassign(work, items[..n], thief, now);
      assert stolen == StolenItems(before, victim.value.0);
    }

    /** The reassignment loop: one transaction for each item of an earlier scan. */
    method Reassign(scan: Rows, items: seq<WorkId>, thief: WorkerId, now: nat) returns (stolen: seq<WorkId>)
      requires scan == work && Increasing(items)
      requires forall id :: id in items ==> id in scan && scan[id].Running?
      modifies this
      ensures stolen == items && queue == old(queue)
      ensures work == Reassigned(old(work), items, thief, now)
    {
      stolen := [];
      assert work == Reassigned(scan, stolen, thief, now);
      for i := 0 to |items|
        invariant stolen == items[..i]
        invariant work == Reassigned(scan, stolen, thief, now) && queue == old(queue)
      {
        var id := items[i];
        assert id in items && id !in items[..i];
        ReassignedSnoc(scan, stolen, id, thief, now);
        var won := StealOne(WorkItemRecord(id, scan[id]), thief, now);
        if won {
          stolen := stolen + [id];
        }
      }
    }

    /** The scan-and-classify loop of `replay_and_serve`: no row is written. */
    method Replay(epoch: nat) returns (state: ReplayState)
      ensures state == ReplayOf(epoch, work)
    {
      var scan, entries := ScanWork();
      state := ReplayState(epoch, map[], [], 0);
      for i := 0 to |entries|
        invariant state == ReplayScan(epoch, scan, entries[..i])
      {
        assert entries[..i + 1][..i] == entries[..i];
        assert entries[i] in entries;
        var id := entries[i];
        match scan[id] {
          case Running(w, _) =>
            state := state.(inFlight := state.inFlight[id := w]);
          case Pending =>
            state := state.(pending := state.pending + [id]);
          case Done(_) =>
            state := state.(terminal := state.terminal + 1);
          case Failed(_) =>
            state := state.(terminal := state.terminal + 1);
        }
      }
      assert entries[..|entries|] == entries;
      ReplayScanIsReplayOf(epoch, scan, entries);
    }
  }

  /** The state after a prefix of the scan. */
  function ReplayScan(epoch: nat, work: Rows, ids: seq<WorkId>): ReplayState
    decreases |ids|
  {
    if ids == [] then ReplayState(epoch, map[], [], 0)
    else
      var last := |ids| - 1;
      var s := ReplayScan(epoch, work, ids[..last]);
      var id := ids[last];
      if id !in work then s
      else
        match work[id]
        case Running(w, _) => s.(inFlight := s.inFlight[id := w])
        case Pending => s.(pending := s.pending + [id])
        case Done(_) => s.(terminal := s.terminal + 1)
        case Failed(_) => s.(terminal := s.terminal + 1)
  }

  /** The rows of some ids. */
  function RowsOf(work: Rows, ids: seq<WorkId>): Rows {
    map id | id in ids && id in work :: work[id]
  }

  lemma {:induction false} ReplayScanSees(epoch: nat, work: Rows, ids: seq<WorkId>)
    requires Increasing(ids) && forall id :: id in ids ==> id in work
    ensures ReplayScan(epoch, work, ids) == ReplayOf(epoch, RowsOf(work, ids))
    decreases |ids|
  {
    if ids == [] {
      assert RunningOwners(RowsOf(work, ids)) == map[];
      assert PendingIds(RowsOf(work, ids)) == {} && TerminalIds(RowsOf(work, ids)) == {};
    } else {
      var last := |ids| - 1;
      var front, id := ids[..last], ids[last];
      assert ids == front + [id];
      ReplayScanSees(epoch, work, front);
      assert id in ids && id !in front;
      ReplayRowAdded(epoch, RowsOf(work, front), id, work[id]);
      assert RowsOf(work, ids) == RowsOf(work, front)[id := work[id]];
    }
  }

  /** One more row, above all the others, adds to exactly one of the three parts. */
  lemma ReplayRowAdded(epoch: nat, work: Rows, id: WorkId, state: WorkState)
    requires forall y :: y in work ==> y < id
    ensures var s, t := ReplayOf(epoch, work), ReplayOf(epoch, work[id := state]);
      t == match state
        case Running(w, _) => s.(inFlight := s.inFlight[id := w])
        case Pending => s.(pending := s.pending + [id])
        case Done(_) => s.(terminal := s.terminal + 1)
        case Failed(_) => s.(terminal := s.terminal + 1)
  {
    RowAddedSets(work, id, state);
    SortedAppendLast(PendingIds(work), id);
  }

  lemma RowAddedSets(work: Rows, id: WorkId, state: WorkState)
    requires id !in work
    ensures var more := work[id := state];
      && RunningOwners(more) == (if state.Running? then RunningOwners(work)[id := state.workerId] else RunningOwners(work))
      && PendingIds(more) == (if state.Pending? then PendingIds(work) + {id} else PendingIds(work))
      && |TerminalIds(more)| == |TerminalIds(work)| + (if state.Terminal() then 1 else 0)
  {
    var more := work[id := state];
    if state.Terminal() {
      assert TerminalIds(more) == TerminalIds(work) + {id};
    } else {
      assert TerminalIds(more) == TerminalIds(work);
    }
  }

  lemma ReplayScanIsReplayOf(epoch: nat, work: Rows, ids: seq<WorkId>)
    requires Increasing(ids) && forall id :: id in ids <==> id in work
    ensures ReplayScan(epoch, work, ids) == ReplayOf(epoch, work)
  {
    ReplayScanSees(epoch, work, ids);
    assert RowsOf(work, ids) == work;
  }

  /** The first `StealBatch` items of a victim, in id order. */
  function StolenItems(work: Rows, victim: WorkerId): (r: seq<WorkId>)
    ensures |r| == StealBatch(Backlog(work, victim))
    ensures forall id :: id in r ==> id in ItemsOf(work, victim)
  {
    var items := Sorted(ItemsOf(work, victim));
    var r := items[..StealBatch(Backlog(work, victim))];
    assert forall id :: id in r ==> id in items;
    r
  }

  /** They are the smallest ids of the victim's. */
  lemma StolenAreSmallest(work: Rows, victim: WorkerId)
    ensures var stolen := StolenItems(work, victim);
      && Increasing(stolen)
      && forall id: WorkId, left: WorkId :: id in stolen && HeldBy(work, left, victim) && left !in stolen ==> id < left
  {
    var items, stolen := Sorted(ItemsOf(work, victim)), StolenItems(work, victim);
    forall id: WorkId, left: WorkId | id in stolen && HeldBy(work, left, victim) && left !in stolen ensures id < left {
      assert left in ItemsOf(work, victim) && left in items;
      var i :| 0 <= i < |stolen| && stolen[i] == id;
      var j :| 0 <= j < |items| && items[j] == left;
      assert i < j;
    }
  }

  /** What a steal takes, and what it leaves the victim. */
  lemma StealSpelledOut(work: Rows, thief: WorkerId, victim: WorkerId, now: nat)
    requires thief != victim && Backlog(work, victim) > 0
    ensures var b, stolen := Backlog(work, victim), StolenItems(work, victim);
      && |stolen| == (if b <= 64 then (b + 1) / 2 else 32)
      && stolen != [] && Increasing(stolen)
      && (forall id :: id in stolen ==> HeldBy(work, id, victim))
      && (forall id: WorkId, left: WorkId ::
            id in stolen && HeldBy(Reassigned(work, stolen, thief, now), left, victim) ==> id < left)
  {
    StolenAreSmallest(work, victim);
  }

  /**
   `replay_and_serve`: take the lease or leave; on a win adopt its epoch and rebuild the
   in-memory state from the rows, which stay as they are.
   */
  method ReplayAndServe(lease: StorageLease, store: LedgerStore, me: CoordId, now: nat, ttl: nat)
    returns (r: Option<ReplayState>, ghost seen: Option<LeaseRecord>, ghost atCas: Option<LeaseRecord>)
    requires lease.Synced()
    modifies lease
    ensures lease.Synced()
    ensures r.Some? <==> atCas == seen && (seen.None? || seen.value.expiresAtMs < now)
    ensures r.Some? ==>
      && lease.row.Some? && lease.row.value.holder == me
      && lease.epochRow == Some(r.value.epoch)
      && r.value.epoch == (if seen.Some? then seen.value.epoch + 1 else 0)
      && r.value == ReplayOf(r.value.epoch, store.work)
  {
    var held;
    held, seen, atCas := lease.TryAcquire(me, now, ttl);
    if held.None? {
      return None, seen, atCas;
    }
    var state := store.Replay(held.value.epoch);
    r := Some(state);
  }
}
