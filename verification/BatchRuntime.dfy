/**
 The batch runtime as it runs in one task at a time: `BatchWorker::run_one` and
 `run_loop`, and `BatchCoordinator::scan_and_enqueue`, over the sample table, the mirrored
 queue and a non-decreasing clock.
 */
module BatchRuntime {
  import opened Wrappers
  import opened SampleStates
  import Q = Queue

  type Rows = map<SampleId, SampleRecord>
  type SampleItem = Q.Item<SampleId>

  /** What the backend and the object store answer for one sample. */
  datatype GenResult = Completion(blob: BlobId) | BackendError(reason: string)

  type Backend = SampleRecord -> GenResult

  datatype RunOutcome = Completed | BackendFailed | Skipped | Drained

  class Clock {
    var now: nat

    constructor (start: nat)
      ensures now == start
    {
      now := start;
    }

    method Now() returns (t: nat)
      modifies this
      ensures old(now) <= now == t
    {
      var elapsed: nat :| true;
      now := now + elapsed;
      t := now;
    }
  }

  /** The `infer/<run>/samples` rows, written only by compare-and-swap or insertion. */
  class SampleTable {
    var rows: Rows

    constructor ()
      ensures rows == map[]
    {
      rows := map[];
    }

    method Get(sid: SampleId) returns (r: Option<SampleRecord>)
      ensures r == if sid in rows then Some(rows[sid]) else None
    {
      r := if sid in rows then Some(rows[sid]) else None;
    }

    method Put(rec: SampleRecord)
      modifies this
      ensures rows == old(rows)[rec.id := rec]
    {
      rows := rows[rec.id := rec];
    }

    /** One transaction: begin, compare-and-swap, commit or abort. */
    method Cas(expected: SampleRecord, next: SampleRecord) returns (applied: bool)
      requires next.id == expected.id
      modifies this
      ensures applied <==> old(RowIs(rows, expected))
      ensures rows == if applied then old(rows)[next.id := next] else old(rows)
    {
      applied := RowIs(rows, expected);
      if applied {
        rows := rows[next.id := next];
      }
    }

    /** `try_claim`: only a claimable record is swapped at all. */
    method TryClaim(rec: SampleRecord, w: WorkerId, nowMs: nat, staleAfterMs: nat) returns (won: bool)
      modifies this
      ensures won <==> Claimable(rec, nowMs, staleAfterMs) && old(RowIs(rows, rec))
      ensures rows == if won then old(rows)[rec.id := ClaimedBy(rec, w, nowMs)] else old(rows)
      ensures won ==> old(rec.id in rows && rows[rec.id] == rec)
      ensures rec.state.Done? || rec.state.Failed? ==> !won
      ensures rec.state.Pending? ==> (won <==> old(rec.id in rows && rows[rec.id] == rec))
      ensures rec.state.Running? ==>
        (won <==> nowMs > rec.state.startedAtMs + staleAfterMs && old(rec.id in rows && rows[rec.id] == rec))
      ensures won ==>
        rows == old(rows)[rec.id := SampleRecord(rec.id, rec.promptBlob, Running(w, nowMs), rec.createdAtMs, rec.inputIdx)]
    {
      if !Claimable(rec, nowMs, staleAfterMs) {
        return false;
      }
      won := Cas(rec, ClaimedBy(rec, w, nowMs));
    }

    /** `try_complete` or `try_fail`, as the backend answered. */
    method TryFinish(running: SampleRecord, result: GenResult, nowMs: nat) returns (won: bool)
      modifies this
      ensures won <==> running.state.Running? && old(RowIs(rows, running))
      ensures rows == if won then old(rows)[running.id := Finish(running, result, nowMs)] else old(rows)
      ensures won ==>
        var state := match result
          case Completion(blob) => Done(blob, nowMs)
          case BackendError(reason) => Failed(reason, nowMs);
        rows == old(rows)[running.id :=
          SampleRecord(running.id, running.promptBlob, state, running.createdAtMs, running.inputIdx)]
    {
      if !running.state.Running? {
        return false;
      }
      won := Cas(running, Finish(running, result, nowMs));
    }
  }

  // ---------------------------------------------------------------- one queue item

  function Finish(running: SampleRecord, result: GenResult, nowMs: nat): SampleRecord {
    match result
    case Completion(blob) => running.(state := Done(blob, nowMs))
    case BackendError(reason) => running.(state := Failed(reason, nowMs))
  }

  /** What one undisturbed `run_one` does to the rows for a dequeued `sid`. */
  function RunOneSpec(rows: Rows, sid: SampleId, w: WorkerId, claimNow: nat, finishNow: nat,
                      staleAfterMs: nat, backend: Backend): (Rows, RunOutcome)
  {
    if sid !in rows || rows[sid].Terminal() || !Claimable(rows[sid], claimNow, staleAfterMs) then (rows, Skipped)
    else
      var running := ClaimedBy(rows[sid], w, claimNow);
      (rows[sid := Finish(running, backend(running), finishNow)],
       if backend(running).Completion? then Completed else BackendFailed)
  }

  /** The samples that are Done in `after` and were not in `before`. */
  function NewlyDone(before: Rows, after: Rows): set<SampleId> {
    set sid | sid in after && after[sid].state.Done? && !(sid in before && before[sid].state.Done?)
  }

  /** A sample a worker starting now would process. */
  predicate Due(rows: Rows, sid: SampleId, nowMs: nat, staleAfterMs: nat) {
    sid in rows && !rows[sid].Terminal() && Claimable(rows[sid], nowMs, staleAfterMs)
  }

  /** `after` is what the backend made of `before`, claimed by `w` at one time and finished at another. */
  predicate FinishedAt(before: SampleRecord, after: SampleRecord, w: WorkerId, backend: Backend, claimNow: nat, finishNow: nat) {
    after == Finish(ClaimedBy(before, w, claimNow), backend(ClaimedBy(before, w, claimNow)), finishNow)
  }

  ghost predicate FinishedBy(before: SampleRecord, after: SampleRecord, w: WorkerId, backend: Backend, startMs: nat) {
    exists claimNow, finishNow :: startMs <= claimNow <= finishNow && FinishedAt(before, after, w, backend, claimNow, finishNow)
  }

  /**
   How far a drain of the queue has come: the first `k` items of `deque` are processed,
   nothing else has changed, and every change is a sample finished with the backend's answer.
   */
  ghost predicate DrainedTo(before: Rows, after: Rows, deque: seq<SampleItem>, k: nat, startMs: nat, staleAfterMs: nat,
                            w: WorkerId, backend: Backend)
    requires k <= |deque|
  {
    && before.Keys == after.Keys
    && (forall sid :: sid in before && after[sid] != before[sid] ==>
          && after[sid].Terminal()
          && !before[sid].Terminal()
          && after[sid].Core() == before[sid].Core()
          && FinishedBy(before[sid], after[sid], w, backend, startMs)
          && exists i :: 0 <= i < k && deque[i].payload == sid)
    && (forall i :: 0 <= i < k && Due(before, deque[i].payload, startMs, staleAfterMs) ==>
          after[deque[i].payload].Terminal())
  }

  /** A claimable sample gets finished; anything else leaves the rows alone. */
  lemma RunOneEffect(rows: Rows, sid: SampleId, w: WorkerId, claimNow: nat, finishNow: nat,
                     staleAfterMs: nat, backend: Backend)
    requires KeyedById(rows)
    ensures var (after, outcome) := RunOneSpec(rows, sid, w, claimNow, finishNow, staleAfterMs, backend);
      && KeyedById(after)
      && after.Keys == rows.Keys
      && (forall id :: id in rows && id != sid ==> after[id] == rows[id])
      && (outcome.Skipped? <==> !Due(rows, sid, claimNow, staleAfterMs))
      && (outcome.Skipped? ==> after == rows)
      && (!outcome.Skipped? ==>
            && after[sid].Terminal()
            && after[sid].Core() == rows[sid].Core()
            && (outcome.Completed? <==> after[sid].state.Done?))
  {
  }

  /**
   The same spelled out.  A live claim, up to and including the last millisecond of its window,
   is left alone; what is taken is stored as claimed and then as the backend answered.
   */
  lemma RunOneSpelledOut(rows: Rows, sid: SampleId, w: WorkerId, claimNow: nat, finishNow: nat,
                         staleAfterMs: nat, backend: Backend)
    requires KeyedById(rows)
    ensures var (after, outcome) := RunOneSpec(rows, sid, w, claimNow, finishNow, staleAfterMs, backend);
      && (sid !in rows || rows[sid].state.Done? || rows[sid].state.Failed? ==> outcome.Skipped?)
      && (sid in rows && rows[sid].state.Pending? ==> !outcome.Skipped?)
      && (sid in rows && rows[sid].state.Running? ==>
            (outcome.Skipped? <==> claimNow <= rows[sid].state.startedAtMs + staleAfterMs))
      && (outcome.Skipped? ==> after == rows)
      && (!outcome.Skipped? ==>
            var rec := rows[sid];
            var answer := backend(SampleRecord(sid, rec.promptBlob, Running(w, claimNow), rec.createdAtMs, rec.inputIdx));
            var state := match answer
              case Completion(blob) => Done(blob, finishNow)
              case BackendError(reason) => Failed(reason, finishNow);
            && after == rows[sid := SampleRecord(sid, rec.promptBlob, state, rec.createdAtMs, rec.inputIdx)]
            && outcome == if answer.Completion? then Completed else BackendFailed)
  {
  }

  lemma NewlyDoneStep(before: Rows, mid: Rows, after: Rows, sid: SampleId)
    requires mid.Keys == after.Keys && forall id :: id in mid && id != sid ==> after[id] == mid[id]
    requires sid in mid && sid in before && !mid[sid].state.Done? && !before[sid].state.Done?
    ensures |NewlyDone(before, after)| == |NewlyDone(before, mid)| + (if after[sid].state.Done? then 1 else 0)
  {
    if after[sid].state.Done? {
      assert NewlyDone(before, after) == NewlyDone(before, mid) + {sid};
    } else {
      assert NewlyDone(before, after) == NewlyDone(before, mid);
    }
  }

  lemma DrainStep(before: Rows, mid: Rows, deque: seq<SampleItem>, k: nat, startMs: nat, w: WorkerId,
                  claimNow: nat, finishNow: nat, staleAfterMs: nat, backend: Backend)
    requires k < |deque| && startMs <= claimNow <= finishNow
    requires KeyedById(mid) && DrainedTo(before, mid, deque, k, startMs, staleAfterMs, w, backend)
    ensures var (after, outcome) :=
        RunOneSpec(mid, deque[k].payload, w, claimNow, finishNow, staleAfterMs, backend);
      && DrainedTo(before, after, deque, k + 1, startMs, staleAfterMs, w, backend)
      && |NewlyDone(before, after)| == |NewlyDone(before, mid)| + (if outcome.Completed? then 1 else 0)
  {
    var sid := deque[k].payload;
    var (after, outcome) := RunOneSpec(mid, sid, w, claimNow, finishNow, staleAfterMs, backend);
    RunOneEffect(mid, sid, w, claimNow, finishNow, staleAfterMs, backend);
    if !outcome.Skipped? {
      NewlyDoneStep(before, mid, after, sid);
    }
    forall id | id in before && after[id] != before[id]
      ensures after[id].Terminal() && !before[id].Terminal() && after[id].Core() == before[id].Core()
      ensures FinishedBy(before[id], after[id], w, backend, startMs)
      ensures exists i :: 0 <= i < k + 1 && deque[i].payload == id
    {
      if id == sid {
        assert deque[k].payload == id;
        if mid[id] == before[id] {
          assert FinishedAt(before[id], after[id], w, backend, claimNow, finishNow);
        }
      } else {
        assert mid[id] != before[id];
      }
    }
    forall i | 0 <= i < k + 1 && Due(before, deque[i].payload, startMs, staleAfterMs)
      ensures after[deque[i].payload].Terminal()
    {
      var id := deque[i].payload;
      if id == sid && mid[id] == before[id] {
        assert Due(mid, id, claimNow, staleAfterMs);
      }
    }
  }

  ghost function Ids(deque: seq<SampleItem>): set<Q.Ulid> {
    set k | 0 <= k < |deque| :: deque[k].id
  }

  lemma IdsStep<T>(mirror: map<Q.Ulid, T>, deque: seq<SampleItem>, k: nat)
    requires k < |deque|
    ensures mirror - Ids(deque[..k]) - {deque[k].id} == mirror - Ids(deque[..k + 1])
    ensures deque[k..][1..] == deque[k + 1..]
  {
    assert deque[..k + 1] == deque[..k] + [deque[k]];
    assert Ids(deque[..k + 1]) == Ids(deque[..k]) + {deque[k].id};
  }

  class BatchWorker {
    const table: SampleTable
    const queue: Q.InMemQueue<SampleId>
    const clock: Clock
    const id: WorkerId
    const staleAfterMs: nat
    var stopPull: bool

    constructor (table: SampleTable, queue: Q.InMemQueue<SampleId>, clock: Clock, id: WorkerId, staleAfterMs: nat)
      ensures this.table == table && this.queue == queue && this.clock == clock && this.id == id
      ensures this.staleAfterMs == staleAfterMs && !stopPull
    {
      this.table, this.queue, this.clock, this.id := table, queue, clock, id;
      this.staleAfterMs, this.stopPull := staleAfterMs, false;
    }

    ghost predicate Valid()
      reads table, queue
    {
      queue.Valid() && KeyedById(table.rows)
    }

    /** A preemption notice sets the flag; nothing ever clears it. */
    method PollPreemption(signal: Option<nat>) returns (lead: Option<nat>)
      modifies this`stopPull
      ensures lead == signal
      ensures stopPull <==> old(stopPull) || signal.Some?
    {
      lead := signal;
      if lead.Some? {
        stopPull := true;
      }
    }

    /** The drain orchestrator shares the flag and may set it at any time. */
    method LoadStopPull() returns (stop: bool)
      modifies this`stopPull
      ensures old(stopPull) ==> stopPull
      ensures stop == stopPull
    {
      if * {
        stopPull := true;
      }
      stop := stopPull;
    }

    method RunOne(backend: Backend) returns (outcome: RunOutcome, ghost claimNow: nat, ghost finishNow: nat)
      requires Valid()
      modifies table, queue, clock
      ensures Valid()
      ensures old(clock.now) <= claimNow <= finishNow <= clock.now
      ensures old(queue.deque) == [] ==>
        outcome == Drained && table.rows == old(table.rows) && queue.deque == [] && queue.mirror == old(queue.mirror)
      ensures old(queue.deque) != [] ==>
        var front := old(queue.deque)[0];
        && queue.deque == old(queue.deque)[1..]
        && queue.mirror == old(queue.mirror) - {front.id}
        && (table.rows, outcome)
           == RunOneSpec(old(table.rows), front.payload, id, claimNow, finishNow, staleAfterMs, backend)
    {
      claimNow, finishNow := clock.now, clock.now;
      var item := queue.Dequeue();
      if item.None? {
        return Drained, claimNow, finishNow;
      }
      var qid, sid := item.value.id, item.value.payload;
      var row := table.Get(sid);
      if row.None? || row.value.Terminal() {
        queue.Ack(qid);
        return Skipped, claimNow, finishNow;
      }
      var rec := row.value;
      var now := clock.Now();
      claimNow, finishNow := now, now;
      var claimed := table.TryClaim(rec, id, now, staleAfterMs);
      if !claimed {
        queue.Ack(qid);
        return Skipped, claimNow, finishNow;
      }
      var running := ClaimedBy(rec, id, now);
      var result := backend(running);
      now := clock.Now();
      finishNow := now;
      var applied := table.TryFinish(running, result, now);
      outcome := if result.Completion? then Completed else BackendFailed;
      assert table.rows == old(table.rows)[sid := Finish(running, result, now)];
      queue.Ack(qid);
    }

    /**
     Terminates on any queue.  Unless preempted, it returns with the deque empty and the
     mirror without the items that were waiting, every waiting sample that was Pending or
     stale is Done or Failed, and the count is the number of samples that became Done,
     whatever duplicates the queue held.
     */
    method RunLoop(backend: Backend) returns (completed: nat, preempted: bool)
      requires Valid()
      modifies this`stopPull, table, queue, clock
      ensures Valid()
      ensures completed == |NewlyDone(old(table.rows), table.rows)|
      ensures preempted ==> stopPull
      ensures |queue.deque| <= |old(queue.deque)|
      ensures var k := |old(queue.deque)| - |queue.deque|;
        && queue.deque == old(queue.deque)[k..]
        && queue.mirror == old(queue.mirror) - Ids(old(queue.deque)[..k])
        && DrainedTo(old(table.rows), table.rows, old(queue.deque), k, old(clock.now), staleAfterMs, id, backend)
      ensures !preempted ==>
        && queue.deque == []
        && queue.mirror == old(queue.mirror) - Ids(old(queue.deque))
        && (old(queue.mirror).Keys == Ids(old(queue.deque)) ==> queue.mirror == map[])
        && DrainedTo(old(table.rows), table.rows, old(queue.deque), |old(queue.deque)|, old(clock.now), staleAfterMs, id, backend)
    {
      completed, preempted := 0, false;
      ghost var before, deque, mirror := table.rows, queue.deque, queue.mirror;
      ghost var k := 0;
      while true
        invariant 0 <= k <= |deque| && |queue.deque| == |deque| - k
        invariant Valid() && old(clock.now) <= clock.now
        invariant queue.deque == deque[k..] && queue.mirror == mirror - Ids(deque[..k])
        invariant DrainedTo(before, table.rows, deque, k, old(clock.now), staleAfterMs, id, backend)
        invariant completed == |NewlyDone(before, table.rows)|
        invariant !preempted
        decreases |queue.deque|
      {
        var stop := LoadStopPull();
        if stop {
          return completed, true;
        }
        ghost var mid := table.rows;
        var outcome, claimNow, finishNow := RunOne(backend);
        if outcome.Drained? {
          assert deque[..k] == deque;
          return completed, false;
        }
        DrainStep(before, mid, deque, k, old(clock.now), id, claimNow, finishNow, staleAfterMs, backend);
        IdsStep(mirror, deque, k);
        k := k + 1;
        if outcome.Completed? {
          completed := completed + 1;
        }
      }
    }
  }

  // ---------------------------------------------------------------- the scan

  /** One input of a scan: the rows after it, and whether its id is enqueued. */
  function ScanItem(rows: Rows, item: InputItem, nowMs: nat, staleAfterMs: nat): (Rows, bool) {
    if item.sid !in rows then
      (rows[item.sid := SampleRecord(item.sid, item.promptBlob, Pending, nowMs, item.inputIdx)], true)
    else
      var rec := rows[item.sid];
      match rec.state
      case Done(_, _) => (rows, false)
      case Pending => (rows, true)
      case Failed(_, _) => (rows, true)
      case Running(_, started) =>
        if Stale(started, nowMs, staleAfterMs) then (rows[item.sid := rec.(state := Pending)], true)
        else (rows, false)
  }

  /** A whole scan: the rows after it and the ids it enqueued, in order. */
  function ScanSpec(rows: Rows, inputs: seq<InputItem>, nowMs: nat, staleAfterMs: nat): (Rows, seq<SampleId>) {
    if inputs == [] then (rows, [])
    else
      var n := |inputs| - 1;
      var (before, ids) := ScanSpec(rows, inputs[..n], nowMs, staleAfterMs);
      var (after, enqueue) := ScanItem(before, inputs[n], nowMs, staleAfterMs);
      (after, if enqueue then ids + [inputs[n].sid] else ids)
  }

  /** A row is only ever created Pending or put back from a stale claim. */
  ghost predicate ScanChange(before: Rows, after: Rows, sid: SampleId, nowMs: nat, staleAfterMs: nat)
    requires sid in after
  {
    if sid in before then
      || after[sid] == before[sid]
      || (before[sid].state.Running?
          && Stale(before[sid].state.startedAtMs, nowMs, staleAfterMs)
          && after[sid] == before[sid].Core())
    else after[sid].state.Pending?
  }

  /** Rows a scan leaves to others: finished successfully, or held by a live claim. */
  predicate Settled(rec: SampleRecord, nowMs: nat, staleAfterMs: nat) {
    rec.state.Done? || (rec.state.Running? && !Stale(rec.state.startedAtMs, nowMs, staleAfterMs))
  }

  predicate HasStaleClaim(rec: SampleRecord, nowMs: nat, staleAfterMs: nat) {
    rec.state.Running? && Stale(rec.state.startedAtMs, nowMs, staleAfterMs)
  }

  /** Every input has a row without a stale claim, and it is settled or its id was enqueued; no settled id was. */
  ghost predicate Served(after: Rows, ids: seq<SampleId>, inputs: seq<InputItem>, nowMs: nat, staleAfterMs: nat) {
    && (forall k :: 0 <= k < |inputs| ==>
          inputs[k].sid in after
          && !HasStaleClaim(after[inputs[k].sid], nowMs, staleAfterMs)
          && (Settled(after[inputs[k].sid], nowMs, staleAfterMs) || inputs[k].sid in ids))
    && (forall sid :: sid in ids ==> sid in after && !Settled(after[sid], nowMs, staleAfterMs))
  }

  /** Rows are kept, created Pending or put back from a stale claim, and only for the inputs. */
  ghost predicate ScanFrame(before: Rows, after: Rows, inputs: seq<InputItem>, nowMs: nat, staleAfterMs: nat) {
    && KeyedById(after)
    && before.Keys <= after.Keys
    && (forall sid :: sid in after ==> ScanChange(before, after, sid, nowMs, staleAfterMs))
    && (forall sid :: sid in after && !(sid in before && before[sid] == after[sid]) ==> IsInput(inputs, sid))
  }

  ghost predicate IsInput(inputs: seq<InputItem>, sid: SampleId) {
    exists k :: 0 <= k < |inputs| && inputs[k].sid == sid
  }

  /**
   After a scan every input has a row, and it is settled or its id was enqueued; nothing
   but new and stale rows changed; samples outside the inputs were not touched.
   */
  lemma {:induction false} ScanIsComplete(rows: Rows, inputs: seq<InputItem>, nowMs: nat, staleAfterMs: nat)
    requires KeyedById(rows)
    ensures var (after, ids) := ScanSpec(rows, inputs, nowMs, staleAfterMs);
      ScanFrame(rows, after, inputs, nowMs, staleAfterMs) && Served(after, ids, inputs, nowMs, staleAfterMs)
    decreases |inputs|
  {
    if inputs != [] {
      var n := |inputs| - 1;
      ScanIsComplete(rows, inputs[..n], nowMs, staleAfterMs);
      var (before, ids) := ScanSpec(rows, inputs[..n], nowMs, staleAfterMs);
      var (after, enqueue) := ScanItem(before, inputs[n], nowMs, staleAfterMs);
      ScanItemFacts(before, inputs[n], nowMs, staleAfterMs);
      ServedStep(before, ids, inputs, nowMs, staleAfterMs);
      forall sid | sid in after && !(sid in rows && rows[sid] == after[sid]) ensures IsInput(inputs, sid) {
        if sid == inputs[n].sid {
        } else {
          assert IsInput(inputs[..n], sid);
          var k :| 0 <= k < n && inputs[..n][k].sid == sid;
          assert inputs[k].sid == sid;
        }
      }
    }
  }

  lemma ServedStep(before: Rows, ids: seq<SampleId>, inputs: seq<InputItem>, nowMs: nat, staleAfterMs: nat)
    requires inputs != [] && KeyedById(before)
    requires Served(before, ids, inputs[..|inputs| - 1], nowMs, staleAfterMs)
    ensures var item := inputs[|inputs| - 1];
      var (after, enqueue) := ScanItem(before, item, nowMs, staleAfterMs);
      Served(after, if enqueue then ids + [item.sid] else ids, inputs, nowMs, staleAfterMs)
  {
    var n := |inputs| - 1;
    var sid := inputs[n].sid;
    var (after, enqueue) := ScanItem(before, inputs[n], nowMs, staleAfterMs);
    var ids' := if enqueue then ids + [sid] else ids;
    ScanItemFacts(before, inputs[n], nowMs, staleAfterMs);
    assert forall id :: id in ids' <==> id in ids || (enqueue && id == sid);
    forall k | 0 <= k < |inputs|
      ensures inputs[k].sid in after && !HasStaleClaim(after[inputs[k].sid], nowMs, staleAfterMs)
      ensures Settled(after[inputs[k].sid], nowMs, staleAfterMs) || inputs[k].sid in ids'
    {
      if inputs[k].sid != sid {
        assert inputs[..n][k] == inputs[k];
      }
    }
  }

  lemma ScanItemFacts(rows: Rows, item: InputItem, nowMs: nat, staleAfterMs: nat)
    requires KeyedById(rows)
    ensures var (after, enqueue) := ScanItem(rows, item, nowMs, staleAfterMs);
      && KeyedById(after)
      && after.Keys == rows.Keys + {item.sid}
      && ScanChange(rows, after, item.sid, nowMs, staleAfterMs)
      && !HasStaleClaim(after[item.sid], nowMs, staleAfterMs)
      && (forall sid :: sid in rows && sid != item.sid ==> after[sid] == rows[sid])
      && (enqueue <==> !Settled(after[item.sid], nowMs, staleAfterMs))
  {
  }

  /** The scan's branches spelled out; a live claim is left alone to the end of its window. */
  lemma ScanItemSpelledOut(rows: Rows, item: InputItem, nowMs: nat, staleAfterMs: nat)
    requires KeyedById(rows)
    ensures var (after, enqueue) := ScanItem(rows, item, nowMs, staleAfterMs);
      if item.sid !in rows then
        && enqueue
        && after == rows[item.sid := SampleRecord(item.sid, item.promptBlob, Pending, nowMs, item.inputIdx)]
      else
        var rec := rows[item.sid];
        match rec.state
        case Done(_, _) => !enqueue && after == rows
        case Pending => enqueue && after == rows
        case Failed(_, _) => enqueue && after == rows
        case Running(_, started) =>
          && (enqueue <==> nowMs > started + staleAfterMs)
          && after == if enqueue
             then rows[item.sid := SampleRecord(item.sid, rec.promptBlob, Pending, rec.createdAtMs, rec.inputIdx)]
             else rows
  {
  }

  /** Scanning again with the same clock changes no row. */
  lemma {:induction false} ScanTwiceIsScanOnce(rows: Rows, all: seq<InputItem>, inputs: seq<InputItem>, nowMs: nat, staleAfterMs: nat)
    requires KeyedById(rows)
    requires forall k :: 0 <= k < |inputs| ==> inputs[k] in all
    ensures var after := ScanSpec(rows, all, nowMs, staleAfterMs).0;
      ScanSpec(after, inputs, nowMs, staleAfterMs).0 == after
    decreases |inputs|
  {
    if inputs != [] {
      var n := |inputs| - 1;
      ScanTwiceIsScanOnce(rows, all, inputs[..n], nowMs, staleAfterMs);
      ScanIsComplete(rows, all, nowMs, staleAfterMs);
      var (after, ids) := ScanSpec(rows, all, nowMs, staleAfterMs);
      var k :| 0 <= k < |all| && all[k] == inputs[n];
      var sid := inputs[n].sid;
      assert all[k].sid in after;
    }
  }

  /** The generator cannot draw: its random part is used up and the clock has not passed its millisecond. */
  predicate Overflowed(queue: Q.InMemQueue<SampleId>, clock: Clock)
    reads queue, clock
  {
    clock.now <= Q.MsOf(queue.last) && queue.last % Q.RANDOM_SPAN == Q.RANDOM_SPAN - 1
  }

  class BatchCoordinator {
    const table: SampleTable
    const queue: Q.InMemQueue<SampleId>
    const clock: Clock
    const staleAfterMs: nat

    constructor (table: SampleTable, queue: Q.InMemQueue<SampleId>, clock: Clock, staleAfterMs: nat)
      ensures this.table == table && this.queue == queue && this.clock == clock && this.staleAfterMs == staleAfterMs
    {
      this.table, this.queue, this.clock, this.staleAfterMs := table, queue, clock, staleAfterMs;
    }

    method EnqueueId(sid: SampleId) returns (ok: bool)
      modifies queue, clock
      ensures clock.now >= old(clock.now)
      ensures !ok ==> unchanged(queue) && Overflowed(queue, clock)
      ensures ok ==>
        && |queue.deque| == |old(queue.deque)| + 1
        && queue.deque[..|old(queue.deque)|] == old(queue.deque)
        && queue.deque[|old(queue.deque)|].payload == sid
      ensures old(queue.Valid() && queue.InOrderAt(clock.now)) ==> queue.Valid() && queue.InOrderAt(clock.now)
    {
      var random: nat :| random < Q.RANDOM_SPAN;
      var now := clock.Now();
      assert old(queue.InOrderAt(clock.now)) ==> queue.InOrderAt(now);
      var r := queue.Enqueue(sid, now, random);
      ok := r.Some?;
    }

    method ScanOne(item: InputItem, nowMs: nat) returns (enqueue: bool, ok: bool)
      requires KeyedById(table.rows)
      modifies table, queue, clock
      ensures KeyedById(table.rows) && clock.now >= old(clock.now)
      ensures (table.rows, enqueue) == ScanItem(old(table.rows), item, nowMs, staleAfterMs)
      ensures old(item.sid in table.rows && table.rows[item.sid].state.Running?) ==>
        var rec := old(table.rows)[item.sid];
        && (enqueue <==> nowMs > rec.state.startedAtMs + staleAfterMs)
        && table.rows == if enqueue
           then old(table.rows)[item.sid := SampleRecord(item.sid, rec.promptBlob, Pending, rec.createdAtMs, rec.inputIdx)]
           else old(table.rows)
      ensures ok ==> Payloads(queue.deque) == Payloads(old(queue.deque)) + (if enqueue then [item.sid] else [])
      ensures !ok ==> Overflowed(queue, clock)
      ensures old(queue.Valid() && queue.InOrderAt(clock.now)) ==> queue.Valid() && queue.InOrderAt(clock.now)
    {
      enqueue, ok := false, true;
      ScanItemSpelledOut(table.rows, item, nowMs, staleAfterMs);
      var existing := table.Get(item.sid);
      match existing {
        case None =>
          table.Put(SampleRecord(item.sid, item.promptBlob, Pending, nowMs, item.inputIdx));
          enqueue := true;
        case Some(rec) =>
          match rec.state {
            case Done(_, _) =>
            case Pending => enqueue := true;
            case Failed(_, _) => enqueue := true;
            case Running(_, started) =>
              if Stale(started, nowMs, staleAfterMs) {
                enqueue := table.Cas(rec, rec.(state := Pending));
              }
          }
      }
      if enqueue {
        ok := EnqueueId(item.sid);
        if ok {
          PayloadsPush(old(queue.deque), queue.deque, item.sid);
        }
      }
    }

    /**
     The clock is read once, at the start; a failed enqueue ends the scan with an error, and only a
     draw whose random part is used up fails.
     */
    method ScanAndEnqueue(inputs: seq<InputItem>) returns (enqueued: nat, ok: bool, ghost nowMs: nat)
      requires KeyedById(table.rows)
      modifies table, queue, clock
      ensures KeyedById(table.rows)
      ensures old(clock.now) <= nowMs <= clock.now
      ensures ok ==>
        var (rows, ids) := ScanSpec(old(table.rows), inputs, nowMs, staleAfterMs);
        && table.rows == rows
        && enqueued == |ids|
        && Payloads(queue.deque) == Payloads(old(queue.deque)) + ids
      ensures !ok ==>
        && clock.now <= queue.last / 0x1_0000_0000_0000_0000_0000
        && queue.last % 0x1_0000_0000_0000_0000_0000 == 0xffff_ffff_ffff_ffff_ffff
      ensures old(queue.Valid() && queue.InOrderAt(clock.now)) ==> queue.Valid() && queue.InOrderAt(clock.now)
    {
      var now := clock.Now();
      nowMs := now;
      enqueued, ok := 0, true;
      ghost var rows0, deque0 := table.rows, queue.deque;
      var i := 0;
      while i < |inputs|
        invariant 0 <= i <= |inputs| && now <= clock.now && KeyedById(table.rows)
        invariant table.rows == ScanSpec(rows0, inputs[..i], now, staleAfterMs).0
        invariant enqueued == |ScanSpec(rows0, inputs[..i], now, staleAfterMs).1|
        invariant Payloads(queue.deque) == Payloads(deque0) + ScanSpec(rows0, inputs[..i], now, staleAfterMs).1
        invariant old(queue.Valid() && queue.InOrderAt(clock.now)) ==> queue.Valid() && queue.InOrderAt(clock.now)
      {
        ghost var ids := ScanSpec(rows0, inputs[..i], now, staleAfterMs).1;
        assert inputs[..i + 1][..i] == inputs[..i] && inputs[..i + 1][i] == inputs[i];
        var enqueue, pushed := ScanOne(inputs[i], now);
        if !pushed {
          return enqueued, false, nowMs;
        }
        if enqueue {
          enqueued := enqueued + 1;
        }
        i := i + 1;
      }
      assert inputs[..i] == inputs;
    }
  }

  ghost function Payloads(deque: seq<SampleItem>): (r: seq<SampleId>)
    ensures |r| == |deque| && forall k :: 0 <= k < |r| ==> r[k] == deque[k].payload
  {
    seq(|deque|, k requires 0 <= k < |deque| => deque[k].payload)
  }

  lemma PayloadsPush(before: seq<SampleItem>, after: seq<SampleItem>, sid: SampleId)
    requires |after| == |before| + 1 && after[..|before|] == before && after[|before|].payload == sid
    ensures Payloads(after) == Payloads(before) + [sid]
  {
    forall k | 0 <= k < |before| ensures after[k] == before[k] {
      assert after[..|before|][k] == before[k];
    }
  }
}
