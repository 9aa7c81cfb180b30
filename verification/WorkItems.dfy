/**
 The coordinator's work rows and their compare-and-swap transitions
 (`crates/rollout-coordinator/src/work_item.rs`).  A row's key is its record's id, so the
 ledger is a map from ids to states.
 */
module WorkItems {
  import opened Wrappers

  type WorkId = nat
  type WorkerId = nat
  type Payload = nat

  datatype WorkState =
    | Pending
    | Running(workerId: WorkerId, startedAtMs: nat)
    | Done(resultId: WorkId)
    | Failed(reason: string)
  {
    predicate Terminal() {
      Done? || Failed?
    }
  }

  datatype WorkItemRecord = WorkItemRecord(id: WorkId, state: WorkState)

  type Rows = map<WorkId, WorkState>

  /** The payload's hash.  Hashes do not collide, so any injection serves. */
  function ContentOf(payload: Payload): WorkId {
    payload
  }

  /** The row still holds the very record read before. */
  predicate RowIs(work: Rows, rec: WorkItemRecord) {
    rec.id in work && work[rec.id] == rec.state
  }

  /** The guard a steal or an ack must pass: a running record that is still the row. */
  predicate Current(work: Rows, rec: WorkItemRecord) {
    rec.state.Running? && RowIs(work, rec)
  }

  /** The committed effect of one item's steal transaction. */
  function AfterSteal(work: Rows, rec: WorkItemRecord, thief: WorkerId, now: nat): Rows {
    if Current(work, rec) then work[rec.id := Running(thief, now)] else work
  }

  /** The committed effect of one ack. */
  function AfterComplete(work: Rows, rec: WorkItemRecord, result: WorkId): Rows {
    if Current(work, rec) then work[rec.id := Done(result)] else work
  }

  predicate HeldBy(work: Rows, id: WorkId, w: WorkerId) {
    id in work && work[id].Running? && work[id].workerId == w
  }

  function ItemsOf(work: Rows, w: WorkerId): set<WorkId> {
    set id | id in work && HeldBy(work, id, w)
  }

  function Backlog(work: Rows, w: WorkerId): nat {
    |ItemsOf(work, w)|
  }

  /** How many of some ids `w` holds, counted one row at a time. */
  function CountHeld(work: Rows, ids: seq<WorkId>, w: WorkerId): nat
    decreases |ids|
  {
    if ids == [] then 0
    else
      var last := |ids| - 1;
      CountHeld(work, ids[..last], w) + if HeldBy(work, ids[last], w) then 1 else 0
  }

  function HeldAmong(work: Rows, ids: seq<WorkId>, w: WorkerId): set<WorkId> {
    set id | id in ids && HeldBy(work, id, w)
  }

  lemma HeldAmongSnoc(work: Rows, ids: seq<WorkId>, id: WorkId, w: WorkerId)
    requires id !in ids
    ensures |HeldAmong(work, ids + [id], w)| == |HeldAmong(work, ids, w)| + if HeldBy(work, id, w) then 1 else 0
  {
    var before, after := HeldAmong(work, ids, w), HeldAmong(work, ids + [id], w);
    forall x ensures x in after <==> x in before || (x == id && HeldBy(work, id, w)) {
      assert x in ids + [id] <==> x in ids || x == id;
    }
    if HeldBy(work, id, w) {
      assert after == before + {id};
    } else {
      assert after == before;
    }
  }

  lemma {:induction false} CountHeldIsSize(work: Rows, ids: seq<WorkId>, w: WorkerId)
    requires forall i, j :: 0 <= i < j < |ids| ==> ids[i] != ids[j]
    ensures CountHeld(work, ids, w) == |HeldAmong(work, ids, w)|
    decreases |ids|
  {
    if ids == [] {
      assert HeldAmong(work, ids, w) == {};
    } else {
      var last := |ids| - 1;
      CountHeldIsSize(work, ids[..last], w);
      assert ids == ids[..last] + [ids[last]];
      HeldAmongSnoc(work, ids[..last], ids[last], w);
    }
  }

  /** Counting over a whole scan gives the backlog. */
  lemma ScanCountsBacklog(work: Rows, ids: seq<WorkId>, w: WorkerId)
    requires forall i, j :: 0 <= i < j < |ids| ==> ids[i] != ids[j]
    requires forall id :: id in ids <==> id in work
    ensures CountHeld(work, ids, w) == Backlog(work, w)
  {
    CountHeldIsSize(work, ids, w);
    assert ItemsOf(work, w) == HeldAmong(work, ids, w);
  }

  /** The counts after some rows: one entry for each peer with a running item among them. */
  ghost predicate CountsPeers(work: Rows, ids: seq<WorkId>, exclude: WorkerId, counts: map<WorkerId, nat>) {
    && (forall w :: w in counts <==> w != exclude && CountHeld(work, ids, w) > 0)
    && (forall w :: w in counts ==> counts[w] == CountHeld(work, ids, w))
  }

  lemma CountsPeersSnoc(work: Rows, ids: seq<WorkId>, id: WorkId, exclude: WorkerId, counts: map<WorkerId, nat>)
    requires CountsPeers(work, ids, exclude, counts) && id in work
    ensures CountsPeers(work, ids + [id], exclude,
      if work[id].Running? && work[id].workerId != exclude
      then
        var w := work[id].workerId;
        counts[w := (if w in counts then counts[w] else 0) + 1]
      else counts)
  {
    var more := ids + [id];
    assert more[..|ids|] == ids;
    forall w ensures CountHeld(work, more, w) == CountHeld(work, ids, w) + (if HeldBy(work, id, w) then 1 else 0) {
    }
  }

  /** `(count, worker id)` in lexicographic order: the tie-break of `busiest`. */
  predicate Outranks(c: nat, w: WorkerId, d: nat, v: WorkerId) {
    c > d || (c == d && w > v)
  }

  /** The busiest peer, or nothing when no peer runs anything. */
  ghost predicate IsBusiest(work: Rows, exclude: WorkerId, r: Option<(WorkerId, nat)>) {
    match r
    case None => forall w :: w != exclude ==> Backlog(work, w) == 0
    case Some(p) =>
      && p.0 != exclude && p.1 == Backlog(work, p.0) && p.1 > 0
      && forall w :: w != exclude && w != p.0 ==> Outranks(p.1, p.0, Backlog(work, w), w)
  }

  /** So the choice cannot depend on the order in which a hash map is walked. */
  lemma BusiestIsUnique(work: Rows, exclude: WorkerId, r: Option<(WorkerId, nat)>, q: Option<(WorkerId, nat)>)
    requires IsBusiest(work, exclude, r) && IsBusiest(work, exclude, q)
    ensures r == q
  {
    if r.Some? && q.Some? {
      var v, c, w, d := r.value.0, r.value.1, q.value.0, q.value.1;
      assert v != w ==> Outranks(c, v, Backlog(work, w), w);
      assert v != w ==> Outranks(d, w, Backlog(work, v), v);
    }
  }

  const MAX_STEAL_BATCH: nat := 32

  /** `ceil(backlog / 2)`, capped. */
  function StealBatch(backlog: nat): nat {
    var half := (backlog + 1) / 2;
    if half < MAX_STEAL_BATCH then half else MAX_STEAL_BATCH
  }

  /** All of `ids` handed to `thief`. */
  function Reassigned(work: Rows, ids: seq<WorkId>, thief: WorkerId, now: nat): Rows {
    map id | id in work :: if id in ids then Running(thief, now) else work[id]
  }

  /** The steal loop hands over one more item at each turn. */
  lemma ReassignedSnoc(work: Rows, ids: seq<WorkId>, id: WorkId, thief: WorkerId, now: nat)
    requires id in work && work[id].Running? && id !in ids
    ensures Current(Reassigned(work, ids, thief, now), WorkItemRecord(id, work[id]))
    ensures AfterSteal(Reassigned(work, ids, thief, now), WorkItemRecord(id, work[id]), thief, now)
      == Reassigned(work, ids + [id], thief, now)
  {
    assert forall x :: x in ids + [id] <==> x in ids || x == id;
  }
}
