/**
 The whole ledger driver (`crates/rollout-coordinator/src/mock_run.rs`): enqueue, dispatch,
 one real steal, and completion of everything.
 */
module MockRun {
  import opened Wrappers
  import opened Ordered
  import opened WorkItems
  import opened Ledger
  import opened StealBalance
  import M = LedgerMachine

  /** The mock backend's result: the hash of the item id's text. */
  function ResultOf(id: WorkId): WorkId {
    ContentOf(id)
  }

  // ---------- Who gets what ----------

  function FirstShare(items: nat): nat {
    (items + 1) / 2
  }

  /** The index of the worker that the `i`th dispatch goes to. */
  function Assignee(items: nat, workers: nat, i: nat): nat
    requires workers >= 2
  {
    if i < FirstShare(items) then 0 else 1 + i % (workers - 1)
  }

  /** How many of the first `k` dispatches go to worker `j`. */
  function Share(items: nat, workers: nat, j: nat, k: nat): nat
    requires workers >= 2
  {
    if k == 0 then 0
    else Share(items, workers, j, k - 1) + if Assignee(items, workers, k - 1) == j then 1 else 0
  }

  lemma {:induction false} FirstWorkersShare(items: nat, workers: nat, k: nat)
    requires workers >= 2
    ensures Share(items, workers, 0, k) == if k <= FirstShare(items) then k else FirstShare(items)
  {
    if k > 0 {
      FirstWorkersShare(items, workers, k - 1);
    }
  }

  lemma {:induction false} NothingBeforeTheFirstShare(items: nat, workers: nat, j: nat, k: nat)
    requires workers >= 2 && j > 0 && k <= FirstShare(items)
    ensures Share(items, workers, j, k) == 0
  {
    if k > 0 {
      NothingBeforeTheFirstShare(items, workers, j, k - 1);
    }
  }

  lemma ConsecutiveResiduesDiffer(i: nat, m: nat)
    requires m >= 2
    ensures i % m != (i + 1) % m
  {
    var r, t := i % m, (i + 1) % m;
    var d := (i + 1) / m - i / m;
    assert d * m == r + 1 - t;
    assert d <= 0 ==> d * m <= 0;
    assert d >= 1 ==> d * m >= m;
  }

  /** Among three workers or more, none but the first gets two dispatches in a row. */
  lemma {:induction false} AtMostEverySecond(items: nat, workers: nat, j: nat, k: nat)
    requires workers >= 3 && j > 0 && k >= FirstShare(items)
    ensures 2 * Share(items, workers, j, k) <= k - FirstShare(items) + 1
    decreases k
  {
    var first := FirstShare(items);
    if k <= first + 1 {
      NothingBeforeTheFirstShare(items, workers, j, first);
    } else {
      AtMostEverySecond(items, workers, j, k - 2);
      ConsecutiveResiduesDiffer(k - 2, workers - 1);
    }
  }

  /** So the first worker is the busiest peer of the last one, with nobody else level. */
  lemma FirstWorkerIsBusiest(items: nat, workers: nat, j: nat)
    requires workers >= 2 && items >= workers && 0 < j < workers - 1
    ensures Share(items, workers, j, items) < Share(items, workers, 0, items) == FirstShare(items)
  {
    FirstWorkersShare(items, workers, items);
    AtMostEverySecond(items, workers, j, items);
  }

  // ---------- Rows ----------

  function CompletedAmong(work: Rows, ids: seq<WorkId>): Rows {
    map id | id in work :: if id in ids then Done(ResultOf(id)) else work[id]
  }

  function CompletedBy(work: Rows, w: WorkerId): Rows {
    map id | id in work :: if HeldBy(work, id, w) then Done(ResultOf(id)) else work[id]
  }

  lemma CompletedSnoc(work: Rows, ids: seq<WorkId>, id: WorkId)
    requires id in work && work[id].Running? && id !in ids
    ensures Current(CompletedAmong(work, ids), WorkItemRecord(id, work[id]))
    ensures AfterComplete(CompletedAmong(work, ids), WorkItemRecord(id, work[id]), ResultOf(id))
      == CompletedAmong(work, ids + [id])
  {
    assert forall x :: x in ids + [id] <==> x in ids || x == id;
  }

  lemma CompletedBacklogs(work: Rows, w: WorkerId)
    ensures Backlog(CompletedBy(work, w), w) == 0
    ensures forall v :: v != w ==> Backlog(CompletedBy(work, w), v) == Backlog(work, v)
  {
    var after := CompletedBy(work, w);
    assert ItemsOf(after, w) == {};
    forall v | v != w ensures Backlog(after, v) == Backlog(work, v) {
      assert ItemsOf(after, v) == ItemsOf(work, v);
    }
  }

  lemma NewRowBacklogs(work: Rows, id: WorkId, w: WorkerId, now: nat)
    requires id !in work
    ensures forall v :: Backlog(work[id := Running(w, now)], v) == Backlog(work, v) + if v == w then 1 else 0
  {
    var after := work[id := Running(w, now)];
    forall v ensures Backlog(after, v) == Backlog(work, v) + if v == w then 1 else 0 {
      if v == w {
        assert ItemsOf(after, v) == ItemsOf(work, v) + {id};
      } else {
        assert ItemsOf(after, v) == ItemsOf(work, v);
      }
    }
  }

  // ---------- The queue ----------

  /** Queue and rows share the items `0..items` between them. */
  ghost predicate Shared(queue: map<nat, Payload>, work: Rows, items: nat) {
    && (forall j, k :: j in queue && k in queue && j != k ==> queue[j] != queue[k])
    && (forall k :: k in queue ==> queue[k] < items && ContentOf(queue[k]) !in work)
    && work.Keys <= Upto(items)
    && |queue| + |work| == items
  }

  lemma AllDispatched(queue: map<nat, Payload>, work: Rows, items: nat)
    requires Shared(queue, work, items) && |work| == items
    ensures queue == map[] && work.Keys == Upto(items)
  {
    assert |work.Keys| == |work|;
    assert |Upto(items) - work.Keys| == 0;
  }

  lemma DispatchShares(s: M.State, items: nat, worker: WorkerId, now: nat)
    requires Shared(s.queue, s.work, items) && |s.work| < items
    ensures s.queue != map[] && M.Front(s) !in s.work
    ensures var t := M.Apply(s, M.Dispatch(worker, now));
      Shared(t.queue, t.work, items) && |t.work| == |s.work| + 1
  {
    var key := Least(s.queue.Keys);
    assert key in s.queue;
    var t := M.Apply(s, M.Dispatch(worker, now));
    assert t.queue.Keys == s.queue.Keys - {key};
    assert |t.queue.Keys| == |t.queue| && |s.queue.Keys| == |s.queue|;
    assert t.work.Keys == s.work.Keys + {M.Front(s)};
    assert |t.work.Keys| == |t.work| && |s.work.Keys| == |s.work|;
  }

  // ---------- The driver ----------

  /** Every row is done with its result or runs for one of `ids`. */
  predicate Owned(work: Rows, ids: seq<WorkerId>) {
    forall id :: id in work ==> work[id] == Done(ResultOf(id)) || (work[id].Running? && work[id].workerId in ids)
  }

  predicate AllDone(work: Rows, items: nat) {
    work == map id | id in Upto(items) :: Done(ResultOf(id))
  }

  method CompleteWorker(store: LedgerStore, worker: WorkerId) returns (n: nat)
    modifies store
    ensures n == Backlog(old(store.work), worker)
    ensures forall id :: HeldBy(old(store.work), id, worker) ==>
      id in store.work && store.work[id] == Done(ContentOf(id))
    ensures store.work == CompletedBy(old(store.work), worker) && store.queue == old(store.queue)
  {
    var items := store.RunningItemsOf(worker);
    n := CompleteEach(store, store.work, items);
    assert forall id :: id in items <==> HeldBy(old(store.work), id, worker);
  }

  /** One transaction for each item of an earlier scan. */
  method CompleteEach(store: LedgerStore, scan: Rows, items: seq<WorkId>) returns (n: nat)
    requires scan == store.work && Increasing(items)
    requires forall id :: id in items ==> id in scan && scan[id].Running?
    modifies store
    ensures n == |items| && store.queue == old(store.queue)
    ensures store.work == CompletedAmong(scan, items)
  {
    n := 0;
    assert store.work == CompletedAmong(scan, items[..0]);
    for i := 0 to |items|
      invariant n == i
      invariant store.work == CompletedAmong(scan, items[..i]) && store.queue == old(store.queue)
    {
      var id := items[i];
      assert id in items && id !in items[..i];
      assert items[..i + 1] == items[..i] + [id];
      CompletedSnoc(scan, items[..i], id);
      var won := store.CompleteOne(WorkItemRecord(id, scan[id]), ResultOf(id));
      if won {
        n := n + 1;
      }
    }
    assert items[..|items|] == items;
  }

  function DoneAmong(work: Rows, ids: seq<WorkId>): set<WorkId> {
    set id | id in ids && id in work && work[id].Done?
  }

  lemma DoneAmongSnoc(work: Rows, ids: seq<WorkId>, id: WorkId)
    requires id !in ids && id in work
    ensures |DoneAmong(work, ids + [id])| == |DoneAmong(work, ids)| + if work[id].Done? then 1 else 0
  {
    var before, after := DoneAmong(work, ids), DoneAmong(work, ids + [id]);
    forall x ensures x in after <==> x in before || (x == id && work[id].Done?) {
      assert x in ids + [id] <==> x in ids || x == id;
    }
    if work[id].Done? {
      assert after == before + {id};
    } else {
      assert after == before;
    }
  }

  function DoneIds(work: Rows): set<WorkId> {
    set id | id in work && work[id].Done?
  }

  method CountDone(store: LedgerStore) returns (count: nat)
    ensures count == |DoneIds(store.work)|
  {
    var scan, entries := store.ScanWork();
    count := 0;
    for i := 0 to |entries|
      invariant count == |DoneAmong(scan, entries[..i])|
    {
      var id := entries[i];
      assert id in entries && id !in entries[..i];
      assert entries[..i + 1] == entries[..i] + [id];
      DoneAmongSnoc(scan, entries[..i], id);
      if scan[id].Done? {
        count := count + 1;
      }
    }
    assert entries[..|entries|] == entries;
    assert DoneAmong(scan, entries) == DoneIds(scan);
  }

  method EnqueueAll(store: LedgerStore, items: nat)
    requires store.queue == map[] && store.work == map[]
    modifies store
    ensures Shared(store.queue, store.work, items) && store.work == map[]
  {
    store.Begin();
    for i := 0 to items
      invariant store.txnWork == map[]
      invariant |store.txnQueue| == i
      invariant forall k :: k in store.txnQueue ==> store.txnQueue[k] < i
      invariant forall j, k :: j in store.txnQueue && k in store.txnQueue && j != k ==> store.txnQueue[j] != store.txnQueue[k]
    {
      var _ := store.Enqueue(i);
    }
    store.Commit();
  }

  /** The backlogs after `k` dispatches. */
  ghost predicate Shares(work: Rows, items: nat, ids: seq<WorkerId>, k: nat)
    requires |ids| >= 2
  {
    && (forall j :: 0 <= j < |ids| ==> Backlog(work, ids[j]) == Share(items, |ids|, j, k))
    && (forall w :: w !in ids ==> Backlog(work, w) == 0)
  }

  lemma SharesStep(work: Rows, items: nat, ids: seq<WorkerId>, k: nat, id: WorkId, now: nat)
    requires |ids| >= 2 && Different(ids)
    requires Shares(work, items, ids, k) && id !in work
    requires Assignee(items, |ids|, k) < |ids|
    ensures Shares(work[id := Running(ids[Assignee(items, |ids|, k)], now)], items, ids, k + 1)
  {
    NewRowBacklogs(work, id, ids[Assignee(items, |ids|, k)], now);
  }

  /** After `k` dispatches, all of them won. */
  ghost predicate Dispatched(queue: map<nat, Payload>, work: Rows, items: nat, ids: seq<WorkerId>, k: nat)
    requires |ids| >= 2
  {
    Shared(queue, work, items) && |work| == k && Shares(work, items, ids, k) && Owned(work, ids)
  }

  predicate Different(ids: seq<WorkerId>) {
    forall i, j :: 0 <= i < j < |ids| ==> ids[i] != ids[j]
  }

  method DispatchNext(store: LedgerStore, items: nat, ids: seq<WorkerId>, k: nat) returns (r: Option<WorkId>)
    requires |ids| >= 2 && Different(ids) && k < items
    requires Dispatched(store.queue, store.work, items, ids, k)
    modifies store
    ensures r.Some? && Dispatched(store.queue, store.work, items, ids, k + 1)
  {
    var w := if k < FirstShare(items) then ids[0] else ids[1 + k % (|ids| - 1)];
    var now: nat := *;
    ghost var s := M.State(store.queue, store.work, map[], [], {});
    DispatchShares(s, items, w, now);
    SharesStep(s.work, items, ids, k, M.Front(s), now);
    r := M.DispatchAndCommit(store, s, w, now);
  }

  method DispatchAll(store: LedgerStore, items: nat, ids: seq<WorkerId>) returns (dispatched: nat)
    requires |ids| >= 2 && Different(ids)
    requires Dispatched(store.queue, store.work, items, ids, 0)
    modifies store
    ensures dispatched == items && Dispatched(store.queue, store.work, items, ids, items)
  {
    dispatched := 0;
    for i := 0 to items
      invariant dispatched == i && Dispatched(store.queue, store.work, items, ids, i)
    {
      var r := DispatchNext(store, items, ids, i);
      if r.Some? {
        dispatched := dispatched + 1;
      }
    }
  }

  /** Before the steal, the thief is idle and the first worker is its busiest peer. */
  lemma VictimIsTheFirstWorker(work: Rows, items: nat, ids: seq<WorkerId>)
    requires |ids| >= 2 && items >= |ids| && Different(ids)
    requires Shares(work, items, ids, items)
    ensures var before := CompletedBy(work, ids[|ids| - 1]);
      && Backlog(before, ids[|ids| - 1]) == 0
      && IsBusiest(before, ids[|ids| - 1], Some((ids[0], FirstShare(items))))
  {
    var thief := ids[|ids| - 1];
    var before := CompletedBy(work, thief);
    CompletedBacklogs(work, thief);
    FirstWorkersShare(items, |ids|, items);
    assert Backlog(before, ids[0]) == FirstShare(items);
    forall w | w != thief && w != ids[0] ensures Outranks(FirstShare(items), ids[0], Backlog(before, w), w) {
      if w in ids {
        var j :| 0 <= j < |ids| && ids[j] == w;
        FirstWorkerIsBusiest(items, |ids|, j);
      }
    }
  }

  /** The thief completes its own items, then steals half of the first worker's share. */
  method StealPhase(store: LedgerStore, items: nat, ids: seq<WorkerId>)
    returns (stolen: seq<WorkId>, ghost kept: set<WorkId>)
    requires |ids| >= 2 && Different(ids) && items >= |ids|
    requires Shares(store.work, items, ids, items) && Owned(store.work, ids)
    modifies store
    ensures |stolen| == if FirstShare(items) <= 64 then (FirstShare(items) + 1) / 2 else 32
    ensures kept == ItemsOf(store.work, ids[0]) && |kept| == FirstShare(items) - |stolen|
    ensures forall id :: id in stolen ==> id in store.work
    ensures forall id: WorkId, left: WorkId :: id in stolen && left in kept ==> id < left
    ensures Owned(store.work, ids) && store.work.Keys == old(store.work.Keys) && store.queue == old(store.queue)
  {
    var thief := ids[|ids| - 1];
    VictimIsTheFirstWorker(store.work, items, ids);
    var _ := CompleteWorker(store, thief);
    ghost var before := store.work;
    var now: nat := *;
    ghost var victim;
    stolen, victim := store.HandleStealRequest(thief, now);
    BusiestIsUnique(before, thief, victim, Some((ids[0], FirstShare(items))));
    ReassignedOwned(before, stolen, ids, thief, now);
    kept := ItemsOf(store.work, ids[0]);
    StealMoves(before, thief, ids[0], now);
  }

  lemma ReassignedOwned(work: Rows, stolen: seq<WorkId>, ids: seq<WorkerId>, thief: WorkerId, now: nat)
    requires Owned(work, ids) && thief in ids
    ensures Owned(Reassigned(work, stolen, thief, now), ids)
  {
  }

  method CompleteAll(store: LedgerStore, ids: seq<WorkerId>) returns (done: nat)
    requires Owned(store.work, ids)
    modifies store
    ensures Owned(store.work, []) && store.work.Keys == old(store.work.Keys) && store.queue == old(store.queue)
    ensures done == |store.work|
  {
    for j := 0 to |ids|
      invariant Owned(store.work, ids[j..])
      invariant store.work.Keys == old(store.work.Keys) && store.queue == old(store.queue)
    {
      assert ids[j..] == [ids[j]] + ids[j + 1..];
      var _ := CompleteWorker(store, ids[j]);
    }
    done := CountDone(store);
    assert DoneIds(store.work) == store.work.Keys;
    assert |store.work.Keys| == |store.work|;
  }

  lemma NothingDispatched(queue: map<nat, Payload>, items: nat, ids: seq<WorkerId>)
    requires |ids| >= 2 && Shared(queue, map[], items)
    ensures Dispatched(queue, map[], items, ids, 0)
  {
    forall w ensures Backlog(map[], w) == 0 {
      assert ItemsOf(map[], w) == {};
    }
  }

  lemma EverythingDone(work: Rows, items: nat)
    requires Owned(work, []) && work.Keys == Upto(items)
    ensures AllDone(work, items) && |work| == items
  {
    assert |work.Keys| == |work|;
  }

  /**
   On a fresh store, for two workers or more and at least one item each: every item is
   dispatched, half of the first worker's share (at most 32) is stolen, its smallest ids, while
   the victim keeps `kept`, and every item ends done with its own hash as the result, which is
   what the driver counts.
   */
  method Drive(store: LedgerStore, items: nat, ids: seq<WorkerId>) returns (done: nat, stolen: seq<WorkId>, ghost kept: set<WorkId>)
    requires store.queue == map[] && store.work == map[]
    requires |ids| >= 2 && items >= |ids| && Different(ids)
    modifies store
    ensures done == items
    ensures var share := (items + 1) / 2;
      |stolen| == if share <= 64 then (share + 1) / 2 else 32
    ensures |kept| == (items + 1) / 2 - |stolen| && forall id: WorkId, left: WorkId :: id in stolen && left in kept ==> id < left
    ensures forall id :: id in stolen || id in kept ==> id < items
    ensures store.queue == map[]
    ensures forall id: WorkId :: id in store.work <==> id < items
    ensures forall id :: id in store.work ==> store.work[id] == Done(ContentOf(id))
  {
    EnqueueAll(store, items);
    NothingDispatched(store.queue, items, ids);
    var dispatched := DispatchAll(store, items, ids);
    AllDispatched(store.queue, store.work, items);
    stolen, kept := StealPhase(store, items, ids);
    done := CompleteAll(store, ids);
    EverythingDone(store.work, items);
  }
}
