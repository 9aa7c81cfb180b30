/**
 A pool of workers drains what a scan has enqueued: without crashes or errors an unacked item
 of a Pending sample is always in the deque, in a worker's hands or in the scan's, so when all
 three are empty nothing is left Pending.
 */
module BatchDrain {
  import opened SampleStates
  import opened BatchMachine
  import opened BatchClaims
  import opened BatchNoLoss

  // ---------------------------------------------------------------- nothing is stranded

  predicate Faultless(step: Step) {
    !step.Crash? && !step.ScanError? && !step.StopWorker?
  }

  ghost predicate Placed(s: State, q: QueueItemId) {
    InDeque(s.deque, q) || Held(s, q) || InPush(s.scan, q)
  }

  /** Every Pending sample outside the gap has a reliable item at hand. */
  ghost predicate AtHand(s: State) {
    forall sid :: sid in s.rows && s.rows[sid].state.Pending? && sid !in s.gap ==> HasItemAtHand(s, sid)
  }

  ghost predicate HasItemAtHand(s: State, sid: SampleId) {
    exists q :: Reliable(s.items, s.workers, q, sid) && Placed(s, q)
  }

  lemma HeldBy(s: State, w: WorkerId, q: QueueItemId)
    requires w in s.workers && s.workers[w].Holds(q)
    ensures Held(s, q)
  {
  }

  /** A worker with a reliable item in its hands keeps hold of it. */
  lemma PlacedWorker(s: State, step: Step, q: QueueItemId, sid: SampleId)
    requires MovesWorkerOnly(step) && Faultless(step) && KeyedById(s.rows)
    requires Reliable(s.items, s.workers, q, sid) && Placed(s, q)
    ensures Placed(Apply(s, step), q)
  {
    var t := Apply(s, step);
    WorkerOnlyFrame(s, step);
    if Held(s, q) {
      var v :| v in s.workers && s.workers[v].Holds(q);
      assert Faithful(s.workers[v], q);
      match step {
        case Load(w) => assert t == DoLoad(s, w);
        case SampleClock(w) => assert t == DoSampleClock(s, w);
        case TryClaim(w, stale) => assert t == DoTryClaim(s, w, stale);
        case TryComplete(w, blob) => assert t == DoTryComplete(s, w, blob);
        case TryFail(w, reason) => assert t == DoTryFail(s, w, reason);
      }
      assert t.workers[v].Holds(q);
      HeldBy(t, v, q);
    }
  }

  lemma PlacedDequeue(s: State, w: WorkerId, q: QueueItemId)
    requires PlacesOk(s) && Placed(s, q)
    ensures Placed(DoDequeue(s, w), q)
  {
    var t := DoDequeue(s, w);
    if InDeque(s.deque, q) {
      var k :| 0 <= k < |s.deque| && s.deque[k].qid == q;
      if At(s, w).Idle? {
        if k == 0 {
          assert t.workers[w].Holds(q);
        } else {
          assert t.deque[k - 1].qid == q;
        }
      }
    } else if Held(s, q) {
      var v :| v in s.workers && s.workers[v].Holds(q);
      assert t.workers[v].Holds(q);
    }
  }

  lemma PlacedAck(s: State, w: WorkerId, q: QueueItemId, sid: SampleId)
    requires Reliable(s.items, s.workers, q, sid) && Placed(s, q)
    ensures Reliable(DoAck(s, w).items, DoAck(s, w).workers, q, sid) && Placed(DoAck(s, w), q)
  {
    var t := DoAck(s, w);
    if At(s, w).Acking? {
      assert Faithful(s.workers[w], q);
      if Held(s, q) {
        var v :| v in s.workers && s.workers[v].Holds(q);
        assert v != w && t.workers[v].Holds(q);
      }
    }
  }

  lemma PlacedPush(s: State, q: QueueItemId)
    requires PlacesOk(s) && Placed(s, q)
    ensures Placed(DoScanPush(s), q)
  {
    var t := DoScanPush(s);
    if AtInput(s) && s.scan.phase.Pushing? {
      assert t.deque[|s.deque|].qid == s.scan.phase.qid;
      if InDeque(s.deque, q) {
        var k :| 0 <= k < |s.deque| && s.deque[k].qid == q;
        assert t.deque[k].qid == q;
      }
    }
  }

  lemma PlacedNack(s: State, n: QueueItemId, q: QueueItemId)
    requires Placed(s, q)
    ensures Placed(Apply(s, NackOrphan(n)), q)
  {
    var t := Apply(s, NackOrphan(n));
    if s.up && Orphan(s, n) && InDeque(s.deque, q) {
      var k :| 0 <= k < |s.deque| && s.deque[k].qid == q;
      assert t.deque[k + 1].qid == q;
    }
  }

  lemma PlacedScanOnly(s: State, step: Step, q: QueueItemId)
    requires MovesScanOnly(step) && Faultless(step) && PlacesOk(s) && Placed(s, q)
    ensures Placed(Apply(s, step), q)
  {
    ScanOnlyFrame(s, step);
    if InPush(s.scan, q) {
      match step
      case ScanRead(stale) => assert Apply(s, step) == DoScanRead(s, stale);
      case ScanPut => assert Apply(s, step) == DoScanPut(s);
      case ScanRepend => assert Apply(s, step) == DoScanRepend(s);
      case _ =>
    }
  }

  lemma PlacedOther(s: State, step: Step, q: QueueItemId)
    requires MovesItems(step) && Faultless(step) && s.up && PlacesOk(s) && Placed(s, q)
    ensures Placed(Apply(s, step), q)
  {
    if step.Dequeue? {
      PlacedDequeue(s, step.w, q);
    } else if step.ScanPush? {
      PlacedPush(s, q);
    } else if step.NackOrphan? {
      PlacedNack(s, step.qid, q);
    } else if Held(s, q) {
      var v :| v in s.workers && s.workers[v].Holds(q);
      HeldBy(Apply(s, step), v, q);
    }
  }

  lemma AtHandEnqueue(s: State, sid: SampleId)
    requires AtHand(s) && PlacesOk(s)
    requires var t := DoScanEnqueue(s); sid in t.rows && t.rows[sid].state.Pending? && sid !in t.gap
    ensures HasItemAtHand(DoScanEnqueue(s), sid)
  {
    var t := DoScanEnqueue(s);
    if AtInput(s) && s.scan.phase.Enqueueing? {
      if sid == CurrentInput(s).sid {
        ReliableEnqueue(s, s.nextQid, sid);
        assert InPush(t.scan, s.nextQid);
      } else {
        var q :| Reliable(s.items, s.workers, q, sid) && Placed(s, q);
        ReliableEnqueue(s, q, sid);
        assert Held(s, q) ==> Held(t, q);
        assert Placed(t, q);
      }
    }
  }

  lemma AtHandStep(s: State, step: Step)
    requires LossInv(s) && AtHand(s) && s.up && Faultless(step)
    ensures AtHand(Apply(s, step)) && Apply(s, step).up
  {
    var t := Apply(s, step);
    StaysUp(s, step);
    forall sid | sid in t.rows && t.rows[sid].state.Pending? && sid !in t.gap ensures HasItemAtHand(t, sid) {
      if step.ScanEnqueue? {
        AtHandEnqueue(s, sid);
      } else if MovesWorkerOnly(step) {
        WorkerPending(s, step, sid);
        var q :| Reliable(s.items, s.workers, q, sid) && Placed(s, q);
        ReliableWorker(s, step, q, sid);
        PlacedWorker(s, step, q, sid);
      } else if MovesScanOnly(step) {
        ScanPending(s, step, sid);
        ScanOnlyFrame(s, step);
        var q :| Reliable(s.items, s.workers, q, sid) && Placed(s, q);
        PlacedScanOnly(s, step, q);
      } else if step.Ack? {
        var q :| Reliable(s.items, s.workers, q, sid) && Placed(s, q);
        PlacedAck(s, step.w, q, sid);
      } else {
        ItemsFrame(s, step);
        var q :| Reliable(s.items, s.workers, q, sid) && Placed(s, q);
        ReliableOther(s, step, q, sid);
        PlacedOther(s, step, q);
      }
    }
  }

  lemma StaysUp(s: State, step: Step)
    requires s.up && Faultless(step)
    ensures Apply(s, step).up
  {
  }

  predicate FaultlessRun(steps: seq<Step>) {
    forall k :: 0 <= k < |steps| ==> Faultless(steps[k])
  }

  lemma {:induction false} AtHandRun(s: State, steps: seq<Step>)
    requires LossInv(s) && AtHand(s) && s.up && FaultlessRun(steps)
    ensures var t := Run(s, steps); LossInv(t) && AtHand(t) && t.up
    decreases |steps|
  {
    if steps != [] {
      AtHandStep(s, steps[0]);
      LossInvStep(s, steps[0]);
      assert forall k :: 0 <= k < |steps[1..]| ==> steps[1..][k] == steps[k + 1];
      AtHandRun(Apply(s, steps[0]), steps[1..]);
    }
  }

  // ---------------------------------------------------------------- counting completions

  function DoneIds(rows: Rows): set<SampleId> {
    set sid | sid in rows && rows[sid].state.Done?
  }

  function SidsOf(claims: seq<Claim>): set<SampleId> {
    set i | 0 <= i < |claims| :: claims[i].sid
  }

  lemma {:induction false} DistinctSids(claims: seq<Claim>)
    requires forall i, j :: 0 <= i < j < |claims| ==> claims[i].sid != claims[j].sid
    ensures |SidsOf(claims)| == |claims|
    decreases |claims|
  {
    if claims == [] {
      assert SidsOf(claims) == {};
    } else {
      var n := |claims| - 1;
      var front := claims[..n];
      DistinctSids(front);
      forall sid ensures sid in SidsOf(claims) <==> sid in SidsOf(front) || sid == claims[n].sid {
        if sid in SidsOf(claims) && sid != claims[n].sid {
          var i :| 0 <= i < |claims| && claims[i].sid == sid;
          assert front[i].sid == sid;
        }
        if sid in SidsOf(front) {
          var i :| 0 <= i < |front| && front[i].sid == sid;
          assert claims[i].sid == sid;
        }
      }
      assert SidsOf(claims) == SidsOf(front) + {claims[n].sid};
    }
  }

  /** As many `run_one` calls have returned Completed as there are Done rows. */
  lemma CompletionsAreDoneRows(s: State)
    requires Reachable(s)
    ensures |s.completions| == |DoneIds(s.rows)|
  {
    InvReachable(s);
    DistinctSids(s.completions);
    forall sid ensures sid in SidsOf(s.completions) <==> sid in DoneIds(s.rows) {
      if sid in SidsOf(s.completions) {
        var i :| 0 <= i < |s.completions| && s.completions[i].sid == sid;
        assert s.completions[i] in s.completions;
      }
      if sid in DoneIds(s.rows) {
        var c :| c in s.completions && c.sid == sid;
        var i :| 0 <= i < |s.completions| && s.completions[i] == c;
      }
    }
    assert SidsOf(s.completions) == DoneIds(s.rows);
  }

  lemma ReachableRun(s: State, steps: seq<Step>)
    requires Reachable(s)
    ensures Reachable(Run(s, steps))
  {
    var before :| Run(Init(), before) == s;
    RunAppend(Init(), before, steps);
    assert Run(Init(), before + steps) == Run(s, steps);
  }

  /** Over any run, crashes included, completions and newly Done rows grow alike. */
  lemma CompletionsAreNewlyDone(s: State, steps: seq<Step>)
    requires Reachable(s)
    ensures var t := Run(s, steps);
      |t.completions| - |s.completions| == |DoneIds(t.rows) - DoneIds(s.rows)|
  {
    var t := Run(s, steps);
    ReachableRun(s, steps);
    CompletionsAreDoneRows(s);
    CompletionsAreDoneRows(t);
    forall sid | sid in DoneIds(s.rows) ensures sid in DoneIds(t.rows) {
      TerminalIsFinal(s, steps, sid);
    }
    assert DoneIds(t.rows) == DoneIds(s.rows) + (DoneIds(t.rows) - DoneIds(s.rows));
  }

  // ---------------------------------------------------------------- the drained pool

  /** A process that has just opened: every stored item waits in the deque, nobody works. */
  ghost predicate JustOpened(s: State) {
    s.up && s.scan.NoScan? && forall q :: q in s.items ==> InDeque(s.deque, q)
  }

  lemma OpeningIsJustOpened(s: State, order: seq<QueueItemId>)
    requires Reachable(s) && !s.up && Enumerates(order, s.items)
    ensures JustOpened(DoOpen(s, order))
  {
    LossInvReachable(s);
    var t := DoOpen(s, order);
    forall q | q in t.items ensures InDeque(t.deque, q) {
      assert q in order;
      var k :| 0 <= k < |order| && order[k] == q;
      assert t.deque[k].qid == q;
    }
  }

  /** A scan has been through all its inputs. */
  predicate ScanDone(s: State, inputs: seq<InputItem>) {
    s.scan.Scanning? && s.scan.inputs == inputs && s.scan.i == |inputs|
  }

  /** The deque is empty and no worker has an item in hand. */
  predicate Drained(s: State) {
    s.deque == [] && forall w | w in s.workers :: s.workers[w].Idle? || s.workers[w].Stopped?
  }

  ghost predicate GapKept(s: State, gap: set<SampleId>) {
    s.gap <= gap && !AtInput(s)
  }

  lemma {:induction false} GapShrinks(s: State, steps: seq<Step>, gap: set<SampleId>)
    requires GapKept(s, gap) && forall k :: 0 <= k < |steps| ==> !steps[k].ScanStart?
    ensures GapKept(Run(s, steps), gap)
    decreases |steps|
  {
    if steps != [] {
      GapShrinksStep(s, steps[0], gap);
      assert forall k :: 0 <= k < |steps[1..]| ==> steps[1..][k] == steps[k + 1];
      GapShrinks(Apply(s, steps[0]), steps[1..], gap);
    }
  }

  lemma GapShrinksStep(s: State, step: Step, gap: set<SampleId>)
    requires GapKept(s, gap) && !step.ScanStart?
    ensures GapKept(Apply(s, step), gap)
  {
    match step
    case TryClaim(w, stale) => assert Apply(s, step) == DoTryClaim(s, w, stale);
    case TryComplete(w, blob) => assert Apply(s, step) == DoTryComplete(s, w, blob);
    case TryFail(w, reason) => assert Apply(s, step) == DoTryFail(s, w, reason);
    case _ =>
  }

  lemma RowStays(s: State, step: Step, sid: SampleId)
    requires sid in s.rows
    ensures sid in Apply(s, step).rows
  {
    match step
    case TryClaim(w, stale) => assert Apply(s, step) == DoTryClaim(s, w, stale);
    case TryComplete(w, blob) => assert Apply(s, step) == DoTryComplete(s, w, blob);
    case TryFail(w, reason) => assert Apply(s, step) == DoTryFail(s, w, reason);
    case ScanPut => assert Apply(s, step) == DoScanPut(s);
    case ScanRepend => assert Apply(s, step) == DoScanRepend(s);
    case _ => QuietFrame(s, step);
  }

  lemma {:induction false} RowsStay(s: State, steps: seq<Step>, sid: SampleId)
    requires sid in s.rows
    ensures sid in Run(s, steps).rows
    decreases |steps|
  {
    if steps != [] {
      RowStays(s, steps[0], sid);
      RowsStay(Apply(s, steps[0]), steps[1..], sid);
    }
  }

  /**
   Any number of workers: a process opens, scans its inputs and drains the queue, in any
   interleaving without crashes or errors.  Then no input is left Pending, and since the process
   opened exactly as many `run_one` calls have returned Completed as rows have become Done.
   */
  lemma DrainedPoolLeavesNothingPending(s: State, scanning: seq<Step>, working: seq<Step>, inputs: seq<InputItem>)
    requires Reachable(s) && JustOpened(s)
    requires FaultlessRun(scanning) && ScanDone(Run(s, scanning), inputs)
    requires FaultlessRun(working) && forall k :: 0 <= k < |working| ==> !working[k].ScanStart?
    requires Drained(Run(Run(s, scanning), working))
    ensures var t := Run(Run(s, scanning), working);
      && (forall j :: 0 <= j < |inputs| ==> inputs[j].sid in t.rows && !t.rows[inputs[j].sid].state.Pending?)
      && |t.completions| - |s.completions| == |DoneIds(t.rows) - DoneIds(s.rows)|
  {
    var m := Run(s, scanning);
    var t := Run(m, working);
    OpenedIsAtHand(s);
    AtHandRun(s, scanning);
    AtHandRun(m, working);
    ReachableRun(s, scanning);
    CompletedScanClosesTheGap(m);
    GapShrinks(m, working, m.gap);
    RunAppend(s, scanning, working);
    CompletionsAreNewlyDone(s, scanning + working);
    forall j | 0 <= j < |inputs|
      ensures inputs[j].sid in t.rows && !t.rows[inputs[j].sid].state.Pending?
    {
      assert m.scan.inputs[j] == inputs[j];
      RowsStay(m, working, inputs[j].sid);
      NothingAtHand(t, inputs[j].sid);
    }
  }

  lemma OpenedIsAtHand(s: State)
    requires Reachable(s) && JustOpened(s)
    ensures LossInv(s) && AtHand(s)
  {
    LossInvReachable(s);
    forall sid | sid in s.rows && s.rows[sid].state.Pending? && sid !in s.gap ensures HasItemAtHand(s, sid) {
      var q :| Reliable(s.items, s.workers, q, sid);
      assert Placed(s, q);
    }
  }

  lemma PlacedMeansBusy(s: State, q: QueueItemId)
    requires PlacesOk(s) && Placed(s, q) && !AtInput(s)
    ensures !Drained(s)
  {
  }

  lemma NothingAtHand(s: State, sid: SampleId)
    requires LossInv(s) && AtHand(s) && Drained(s) && !AtInput(s)
    requires sid in s.rows && sid !in s.gap
    ensures !s.rows[sid].state.Pending?
  {
    if s.rows[sid].state.Pending? {
      var q :| Reliable(s.items, s.workers, q, sid) && Placed(s, q);
      PlacedMeansBusy(s, q);
    }
  }
}
