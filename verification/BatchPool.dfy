/**
 A whole batch run with one worker (`run_pool` in `crates/rollout-cli/src/infer.rs`): scan,
 drain, collect (`collect_done_records` in `crates/rollout-runtime-batch/src/coordinator.rs`).
 */
module BatchPool {
  import opened SampleStates
  import opened Ordered
  import opened BatchRuntime

  predicate ByIndex(r: seq<SampleRecord>) {
    forall i, j :: 0 <= i < j < |r| ==> r[i].inputIdx <= r[j].inputIdx
  }

  lemma PlaceFirst(r: seq<SampleRecord>, rec: SampleRecord)
    requires ByIndex(r) && (r != [] ==> rec.inputIdx < r[0].inputIdx)
    ensures ByIndex([rec] + r) && multiset([rec] + r) == multiset(r) + multiset{rec}
  {
  }

  lemma PlaceLater(r: seq<SampleRecord>, rec: SampleRecord, t: seq<SampleRecord>)
    requires ByIndex(r) && r != [] && r[0].inputIdx <= rec.inputIdx
    requires ByIndex(t) && multiset(t) == multiset(r[1..]) + multiset{rec}
    ensures ByIndex([r[0]] + t) && multiset([r[0]] + t) == multiset(r) + multiset{rec}
  {
    var s := [r[0]] + t;
    assert r == [r[0]] + r[1..];
    forall i, j | 0 <= i < j < |s| ensures s[i].inputIdx <= s[j].inputIdx {
      if i == 0 {
        assert s[j] in multiset(t);
        assert s[j] == rec || s[j] in r[1..];
      }
    }
  }

  /** After the records of the same index, so that the sort is stable. */
  function Place(r: seq<SampleRecord>, rec: SampleRecord): (s: seq<SampleRecord>)
    requires ByIndex(r)
    ensures ByIndex(s) && multiset(s) == multiset(r) + multiset{rec}
  {
    if r == [] || rec.inputIdx < r[0].inputIdx then
      PlaceFirst(r, rec);
      [rec] + r
    else
      var t := Place(r[1..], rec);
      PlaceLater(r, rec, t);
      [r[0]] + t
  }

  function SortByIndex(s: seq<SampleRecord>): (r: seq<SampleRecord>)
    ensures ByIndex(r) && multiset(r) == multiset(s)
  {
    if s == [] then []
    else
      assert s == s[..|s| - 1] + [s[|s| - 1]];
      Place(SortByIndex(s[..|s| - 1]), s[|s| - 1])
  }

  /** Every Done row once, nothing else, by input index. */
  ghost predicate Collected(rows: Rows, out: seq<SampleRecord>) {
    ByIndex(out) && forall rec :: multiset(out)[rec] == if RowIs(rows, rec) && rec.state.Done? then 1 else 0
  }

  method ScanRows(table: SampleTable) returns (rows: Rows, entries: seq<SampleId>)
    ensures rows == table.rows && Increasing(entries)
    ensures forall sid :: sid in entries <==> sid in rows
  {
    rows, entries := table.rows, Sorted(table.rows.Keys);
  }

  method CollectDoneRecords(table: SampleTable) returns (out: seq<SampleRecord>)
    requires KeyedById(table.rows)
    ensures Collected(table.rows, out)
  {
    var rows, entries := ScanRows(table);
    out := [];
    for i := 0 to |entries|
      invariant Gathered(rows, entries[..i], out)
    {
      var sid := entries[i];
      assert sid in entries && sid !in entries[..i];
      assert entries[..i + 1] == entries[..i] + [sid];
      GatheredSnoc(rows, entries[..i], out, sid);
      if rows[sid].state.Done? {
        out := out + [rows[sid]];
      }
    }
    assert entries[..|entries|] == entries;
    out := SortByIndex(out);
  }

  /** The Done rows of some ids, once each. */
  ghost predicate Gathered(rows: Rows, sids: seq<SampleId>, out: seq<SampleRecord>) {
    forall rec :: multiset(out)[rec] == (if rec.id in sids && RowIs(rows, rec) && rec.state.Done? then 1 else 0)
  }

  lemma GatheredSnoc(rows: Rows, sids: seq<SampleId>, out: seq<SampleRecord>, sid: SampleId)
    requires Gathered(rows, sids, out) && sid in rows && sid !in sids && rows[sid].id == sid
    ensures Gathered(rows, sids + [sid], if rows[sid].state.Done? then out + [rows[sid]] else out)
  {
    assert multiset(out + [rows[sid]]) == multiset(out) + multiset{rows[sid]};
    assert forall x :: x in sids + [sid] <==> x in sids || x == sid;
  }

  // ---------- The output ----------

  function Indices(out: seq<SampleRecord>): seq<nat> {
    seq(|out|, i requires 0 <= i < |out| => out[i].inputIdx)
  }

  /** The rows are those of the inputs, at their positions, and all done. */
  ghost predicate AllDone(rows: Rows, inputs: seq<InputItem>) {
    && KeyedById(rows)
    && (forall i :: 0 <= i < |inputs| ==>
          inputs[i].sid in rows && rows[inputs[i].sid].state.Done? && rows[inputs[i].sid].inputIdx == i)
    && (forall sid :: sid in rows ==> IsInput(inputs, sid))
  }

  lemma CollectedOnce(rows: Rows, inputs: seq<InputItem>, out: seq<SampleRecord>, i: nat)
    requires AllDone(rows, inputs) && Collected(rows, out) && i < |out|
    ensures out[i].inputIdx < |inputs| && out[i] == rows[inputs[out[i].inputIdx].sid]
    ensures forall j :: i < j < |out| ==> out[i].inputIdx < out[j].inputIdx
  {
    assert out[i] in multiset(out);
    var k :| 0 <= k < |inputs| && inputs[k].sid == out[i].id;
    forall j | i < j < |out| ensures out[i].inputIdx < out[j].inputIdx {
      assert out[j] in multiset(out);
      var l :| 0 <= l < |inputs| && inputs[l].sid == out[j].id;
      if k == l {
        TwicePresent(out, i, j);
      }
    }
  }

  lemma TwicePresent(out: seq<SampleRecord>, i: nat, j: nat)
    requires i < j < |out| && out[i] == out[j]
    ensures multiset(out)[out[i]] >= 2
  {
    assert out == out[..j] + out[j..];
    assert out[i] in out[..j] && out[j] == out[j..][0];
    assert out[i] in multiset(out[..j]) && out[j] in multiset(out[j..]);
  }

  lemma IndicesCount(rows: Rows, inputs: seq<InputItem>, out: seq<SampleRecord>)
    requires AllDone(rows, inputs) && Collected(rows, out)
    ensures Indices(out) == Counting(|inputs|)
  {
    var indices := Indices(out);
    forall i, j | 0 <= i < j < |indices| ensures indices[i] < indices[j] {
      CollectedOnce(rows, inputs, out, i);
    }
    forall k: nat ensures k in indices <==> k in Upto(|inputs|) {
      if k in indices {
        var i :| 0 <= i < |out| && indices[i] == k;
        CollectedOnce(rows, inputs, out, i);
      }
      if k < |inputs| {
        var rec := rows[inputs[k].sid];
        assert RowIs(rows, rec) && rec in multiset(out);
        var i :| 0 <= i < |out| && out[i] == rec;
        assert indices[i] == k;
      }
    }
    CountingUnique(indices, |inputs|);
  }

  /** Then the collected records are the inputs' rows in input order. */
  lemma OutputIsInInputOrder(rows: Rows, inputs: seq<InputItem>, out: seq<SampleRecord>)
    requires AllDone(rows, inputs) && Collected(rows, out)
    ensures |out| == |inputs|
    ensures forall i :: 0 <= i < |inputs| ==> out[i] == rows[inputs[i].sid]
  {
    IndicesCount(rows, inputs, out);
    forall i | 0 <= i < |inputs| ensures out[i] == rows[inputs[i].sid] {
      assert Indices(out)[i] == i;
      CollectedOnce(rows, inputs, out, i);
    }
  }

  // ---------- The run ----------

  /** A claim made before the run that the scan still found fresh. */
  predicate LiveClaim(rows: Rows, sid: SampleId, nowMs: nat, staleAfterMs: nat) {
    sid in rows && rows[sid].state.Running? && !Stale(rows[sid].state.startedAtMs, nowMs, staleAfterMs)
  }

  /** What the scan serves, the drain finishes. */
  lemma ScanThenDrain(rows: Rows, after: Rows, inputs: seq<InputItem>, deque: seq<SampleItem>, scanMs: nat,
                      scanStale: nat, startMs: nat, workerStale: nat, w: WorkerId, backend: Backend, sid: SampleId)
    requires KeyedById(rows) && IsInput(inputs, sid)
    requires var (scanned, ids) := ScanSpec(rows, inputs, scanMs, scanStale);
      && (forall id :: id in ids ==> id in Payloads(deque))
      && DrainedTo(scanned, after, deque, |deque|, startMs, workerStale, w, backend)
    ensures sid in after && (after[sid].Terminal() || LiveClaim(rows, sid, scanMs, scanStale))
  {
    ScanIsComplete(rows, inputs, scanMs, scanStale);
    var (scanned, ids) := ScanSpec(rows, inputs, scanMs, scanStale);
    var k :| 0 <= k < |inputs| && inputs[k].sid == sid;
    assert inputs[k].sid in scanned && !HasStaleClaim(scanned[sid], scanMs, scanStale);
    assert ScanChange(rows, scanned, sid, scanMs, scanStale);
    if sid in ids && scanned[sid].state.Pending? {
      var i :| 0 <= i < |Payloads(deque)| && Payloads(deque)[i] == sid;
      assert Due(scanned, deque[i].payload, startMs, workerStale);
    }
  }

  function FreshRow(item: InputItem, nowMs: nat): SampleRecord {
    SampleRecord(item.sid, item.promptBlob, Pending, nowMs, item.inputIdx)
  }

  predicate DistinctSids(inputs: seq<InputItem>) {
    forall i, j :: 0 <= i < j < |inputs| ==> inputs[i].sid != inputs[j].sid
  }

  /** The rows of exactly these inputs, fresh. */
  ghost predicate FreshRows(rows: Rows, inputs: seq<InputItem>, nowMs: nat) {
    && (forall sid :: sid in rows ==> IsInput(inputs, sid))
    && (forall k :: 0 <= k < |inputs| ==> inputs[k].sid in rows && rows[inputs[k].sid] == FreshRow(inputs[k], nowMs))
  }

  lemma FreshRowsSnoc(rows: Rows, inputs: seq<InputItem>, item: InputItem, nowMs: nat)
    requires FreshRows(rows, inputs, nowMs) && !IsInput(inputs, item.sid)
    ensures item.sid !in rows && FreshRows(rows[item.sid := FreshRow(item, nowMs)], inputs + [item], nowMs)
  {
    var more, after := inputs + [item], rows[item.sid := FreshRow(item, nowMs)];
    forall sid | sid in after ensures IsInput(more, sid) {
      if sid == item.sid {
        assert more[|inputs|].sid == sid;
      } else {
        var k :| 0 <= k < |inputs| && inputs[k].sid == sid;
        assert more[k].sid == sid;
      }
    }
  }

  /** Rows a scan of an empty table creates. */
  lemma {:induction false} FreshScan(inputs: seq<InputItem>, nowMs: nat, staleAfterMs: nat)
    requires DistinctSids(inputs)
    ensures FreshRows(ScanSpec(map[], inputs, nowMs, staleAfterMs).0, inputs, nowMs)
    decreases |inputs|
  {
    if inputs != [] {
      var n := |inputs| - 1;
      FreshScan(inputs[..n], nowMs, staleAfterMs);
      assert inputs == inputs[..n] + [inputs[n]];
      FreshRowsSnoc(ScanSpec(map[], inputs[..n], nowMs, staleAfterMs).0, inputs[..n], inputs[n], nowMs);
    }
  }

  function SidsOf(inputs: seq<InputItem>): set<SampleId> {
    set i | 0 <= i < |inputs| :: inputs[i].sid
  }

  lemma {:induction false} SidsSize(inputs: seq<InputItem>)
    requires DistinctSids(inputs)
    ensures |SidsOf(inputs)| == |inputs|
    decreases |inputs|
  {
    if inputs == [] {
      assert SidsOf(inputs) == {};
    } else {
      var n := |inputs| - 1;
      var front := inputs[..n];
      SidsSize(front);
      forall sid ensures sid in SidsOf(inputs) <==> sid in SidsOf(front) || sid == inputs[n].sid {
        if sid in SidsOf(inputs) && sid != inputs[n].sid {
          var i :| 0 <= i < |inputs| && inputs[i].sid == sid;
          assert front[i].sid == sid;
        }
        if sid in SidsOf(front) {
          var i :| 0 <= i < |front| && front[i].sid == sid;
          assert inputs[i].sid == sid;
        }
      }
      assert SidsOf(inputs) == SidsOf(front) + {inputs[n].sid};
    }
  }

  /** The inputs of a file: distinct samples, numbered by line. */
  predicate InputFile(inputs: seq<InputItem>) {
    DistinctSids(inputs) && forall i :: 0 <= i < |inputs| ==> inputs[i].inputIdx == i
  }

  ghost predicate NeverFails(backend: Backend) {
    forall rec :: backend(rec).Completion?
  }

  /** A fresh row that a drain has changed is Done, when the backend never fails. */
  lemma FinishedFreshRow(item: InputItem, after: SampleRecord, w: WorkerId, backend: Backend, scanMs: nat, startMs: nat)
    requires FinishedBy(FreshRow(item, scanMs), after, w, backend, startMs) && NeverFails(backend)
    ensures after.state.Done? && after.Core() == FreshRow(item, scanMs)
  {
  }

  /**
   From an empty table, with a backend that never fails: every input is Done, the collected
   records are the inputs in input order, and all of them are newly Done.
   */
  lemma FreshRunCollectsEverything(inputs: seq<InputItem>, after: Rows, out: seq<SampleRecord>, deque: seq<SampleItem>,
                                   scanMs: nat, stale: nat, startMs: nat, workerStale: nat, w: WorkerId, backend: Backend)
    requires InputFile(inputs) && NeverFails(backend)
    requires KeyedById(after) && Collected(after, out)
    requires var (scanned, ids) := ScanSpec(map[], inputs, scanMs, stale);
      && (forall id :: id in ids ==> id in Payloads(deque))
      && DrainedTo(scanned, after, deque, |deque|, startMs, workerStale, w, backend)
    ensures |out| == |inputs|
    ensures forall i :: 0 <= i < |inputs| ==> out[i].id == inputs[i].sid && out[i].promptBlob == inputs[i].promptBlob
    ensures |NewlyDone(ScanSpec(map[], inputs, scanMs, stale).0, after)| == |inputs|
  {
    FreshScan(inputs, scanMs, stale);
    var scanned := ScanSpec(map[], inputs, scanMs, stale).0;
    forall i | 0 <= i < |inputs|
      ensures inputs[i].sid in after && after[inputs[i].sid].state.Done? && after[inputs[i].sid].Core() == FreshRow(inputs[i], scanMs)
    {
      var sid := inputs[i].sid;
      assert IsInput(inputs, sid);
      ScanThenDrain(map[], after, inputs, deque, scanMs, stale, startMs, workerStale, w, backend, sid);
      assert scanned[sid] == FreshRow(inputs[i], scanMs) && after[sid] != scanned[sid];
      FinishedFreshRow(inputs[i], after[sid], w, backend, scanMs, startMs);
    }
    OutputIsInInputOrder(after, inputs, out);
    forall i | 0 <= i < |inputs| ensures out[i].promptBlob == inputs[i].promptBlob {
      assert out[i].Core() == FreshRow(inputs[i], scanMs);
    }
    AllNewlyDone(scanned, after, inputs);
  }

  lemma AllNewlyDone(scanned: Rows, after: Rows, inputs: seq<InputItem>)
    requires DistinctSids(inputs) && scanned.Keys == after.Keys
    requires forall sid :: sid in scanned ==> IsInput(inputs, sid) && scanned[sid].state.Pending?
    requires forall i :: 0 <= i < |inputs| ==> inputs[i].sid in after && after[inputs[i].sid].state.Done?
    ensures |NewlyDone(scanned, after)| == |inputs|
  {
    SidsSize(inputs);
    forall sid ensures sid in NewlyDone(scanned, after) <==> sid in SidsOf(inputs) {
      if sid in after {
        assert IsInput(inputs, sid);
        var k :| 0 <= k < |inputs| && inputs[k].sid == sid;
      }
    }
    assert NewlyDone(scanned, after) == SidsOf(inputs);
  }

  /** What a successful run leaves behind. */
  ghost predicate PoolServed(before: Rows, after: Rows, inputs: seq<InputItem>, scanMs: nat, stale: nat, w: WorkerId,
                             backend: Backend, completed: nat)
  {
    var scanned := ScanSpec(before, inputs, scanMs, stale).0;
    && completed == |NewlyDone(scanned, after)|
    && scanned.Keys == after.Keys
    && (forall sid :: sid in scanned ==>
          after[sid] == scanned[sid] || FinishedBy(scanned[sid], after[sid], w, backend, scanMs))
    && (forall k :: 0 <= k < |inputs| ==>
          && inputs[k].sid in after
          && (after[inputs[k].sid].Terminal() || LiveClaim(before, inputs[k].sid, scanMs, stale)))
  }

  lemma DrainServes(before: Rows, after: Rows, inputs: seq<InputItem>, deque: seq<SampleItem>, scanMs: nat, stale: nat,
                    startMs: nat, workerStale: nat, w: WorkerId, backend: Backend, completed: nat)
    requires KeyedById(before) && scanMs <= startMs
    requires var (scanned, ids) := ScanSpec(before, inputs, scanMs, stale);
      && (forall id :: id in ids ==> id in Payloads(deque))
      && DrainedTo(scanned, after, deque, |deque|, startMs, workerStale, w, backend)
      && completed == |NewlyDone(scanned, after)|
    ensures PoolServed(before, after, inputs, scanMs, stale, w, backend, completed)
  {
    forall k | 0 <= k < |inputs|
      ensures inputs[k].sid in after
      ensures after[inputs[k].sid].Terminal() || LiveClaim(before, inputs[k].sid, scanMs, stale)
    {
      assert IsInput(inputs, inputs[k].sid);
      ScanThenDrain(before, after, inputs, deque, scanMs, stale, startMs, workerStale, w, backend, inputs[k].sid);
    }
    var scanned := ScanSpec(before, inputs, scanMs, stale).0;
    forall sid | sid in scanned && after[sid] != scanned[sid]
      ensures FinishedBy(scanned[sid], after[sid], w, backend, scanMs)
    {
      var c, f :| startMs <= c <= f && FinishedAt(scanned[sid], after[sid], w, backend, c, f);
      assert scanMs <= c <= f && FinishedAt(scanned[sid], after[sid], w, backend, c, f);
    }
  }

  /**
   Scan, drain, collect.  Unless an enqueue fails or the worker is preempted, every input ends
   Done or Failed as the backend said, or is held by a claim that was live before the run;
   exactly the Done rows are collected, by input index; and the worker counts exactly those
   that became Done.  From an empty table with a backend that never fails, that is every input.
   */
  method RunPool(coord: BatchCoordinator, worker: BatchWorker, inputs: seq<InputItem>, backend: Backend)
    returns (out: seq<SampleRecord>, completed: nat, ok: bool, ghost scanMs: nat)
    requires worker.Valid() && worker.queue.InOrderAt(worker.clock.now)
    requires coord.table == worker.table && coord.queue == worker.queue && coord.clock == worker.clock
    modifies worker.table, worker.queue, worker.clock, worker`stopPull
    ensures Collected(worker.table.rows, out)
    ensures ok ==> worker.queue.deque == []
    ensures !ok ==> worker.stopPull || Overflowed(worker.queue, worker.clock)
    ensures ok ==> PoolServed(old(worker.table.rows), worker.table.rows, inputs, scanMs, coord.staleAfterMs,
                              worker.id, backend, completed)
    ensures ok && old(worker.table.rows) == map[] && InputFile(inputs) && NeverFails(backend) ==>
      && completed == |inputs| == |out|
      && forall i :: 0 <= i < |inputs| ==> out[i].id == inputs[i].sid && out[i].promptBlob == inputs[i].promptBlob
  {
    ghost var before := worker.table.rows;
    var enqueued, scanned, at := coord.ScanAndEnqueue(inputs);
    scanMs := at;
    if !scanned {
      out := CollectDoneRecords(worker.table);
      return out, 0, false, scanMs;
    }
    ghost var deque, mid, start := worker.queue.deque, worker.table.rows, worker.clock.now;
    var preempted;
    completed, preempted := worker.RunLoop(backend);
    ok := !preempted;
    out := CollectDoneRecords(worker.table);
    if ok {
      ghost var after := worker.table.rows;
      assert forall id :: id in ScanSpec(before, inputs, scanMs, coord.staleAfterMs).1 ==> id in Payloads(deque);
      DrainServes(before, after, inputs, deque, scanMs, coord.staleAfterMs, start, worker.staleAfterMs, worker.id,
                  backend, completed);
      if before == map[] && InputFile(inputs) && NeverFails(backend) {
        FreshRunCollectsEverything(inputs, after, out, deque, scanMs, coord.staleAfterMs, start, worker.staleAfterMs,
                                   worker.id, backend);
      }
    }
  }
}
