/**
 No sample is lost: a Pending row always has an unacked queue item that will not be acked
 without the row being claimed, except in the window where a scan has made the row Pending
 and has not enqueued it yet.  A crash inside that window is repaired by the next scan.
 */
module BatchNoLoss {
  import opened SampleStates
  import opened BatchMachine
  import opened BatchClaims

  type Items = map<QueueItemId, SampleId>
  type Workers = map<WorkerId, Phase>

  // ---------------------------------------------------------------- where the items are

  /** The sample a held queue item names. */
  function SidOf(p: Phase): SampleId
    requires p.Dequeued? || p.Loaded? || p.Sampled? || p.Generating?
  {
    match p
    case Dequeued(_, sid) => sid
    case Loaded(_, rec) => rec.id
    case Sampled(_, rec, _) => rec.id
    case Generating(_, r) => r.id
  }

  ghost predicate HeldOk(items: Items, p: Phase) {
    !p.Idle? && !p.Stopped? ==> p.qid in items && (p.Acking? || items[p.qid] == SidOf(p))
  }

  /** The item a scan has mirrored into storage and not yet pushed onto the deque. */
  predicate InPush(scan: Scan, q: QueueItemId) {
    scan.Scanning? && scan.phase == Pushing(q)
  }

  /** Every item is in at most one place: the deque, one worker's hands, or the scan's. */
  ghost predicate Places(items: Items, deque: seq<Entry>, nextQid: QueueItemId, workers: Workers, scan: Scan) {
    && (forall q :: q in items ==> q < nextQid)
    && (forall k :: 0 <= k < |deque| ==> deque[k].qid in items && items[deque[k].qid] == deque[k].sid)
    && (forall j, k :: 0 <= j < k < |deque| ==> deque[j].qid != deque[k].qid)
    && (forall w :: w in workers ==> HeldOk(items, workers[w]))
    && (forall w, k :: w in workers && 0 <= k < |deque| ==> !workers[w].Holds(deque[k].qid))
    && (forall w, v, q :: w in workers && v in workers && workers[w].Holds(q) && workers[v].Holds(q) ==> w == v)
    && (forall q :: InPush(scan, q) ==>
          && q in items
          && scan.i < |scan.inputs|
          && items[q] == scan.inputs[scan.i].sid
          && !InDeque(deque, q)
          && forall w :: w in workers ==> !workers[w].Holds(q))
  }

  ghost predicate PlacesOk(s: State) {
    Places(s.items, s.deque, s.nextQid, s.workers, s.scan)
  }

  /** A worker goes on with the item in its hands, or lets go of it. */
  lemma MoveHand(s: State, w: WorkerId, p: Phase)
    requires PlacesOk(s) && w in s.workers && HeldOk(s.items, p)
    requires forall q :: p.Holds(q) ==> s.workers[w].Holds(q)
    ensures Places(s.items, s.deque, s.nextQid, s.workers[w := p], s.scan)
  {
  }

  lemma PlacesDequeue(s: State, w: WorkerId)
    requires PlacesOk(s)
    ensures PlacesOk(DoDequeue(s, w))
  {
    if At(s, w).Idle? && s.deque != [] {
      var t := DoDequeue(s, w);
      var e := s.deque[0];
      assert forall k :: 0 <= k < |t.deque| ==> t.deque[k] == s.deque[k + 1];
      assert forall v :: v in s.workers ==> !s.workers[v].Holds(e.qid);
      assert forall q :: InDeque(t.deque, q) ==> InDeque(s.deque, q);
      assert InDeque(s.deque, e.qid);
      assert forall q :: t.workers[w].Holds(q) <==> q == e.qid;
    }
  }

  lemma PlacesAck(s: State, w: WorkerId)
    requires PlacesOk(s)
    ensures PlacesOk(DoAck(s, w))
  {
    if At(s, w).Acking? {
      var q := At(s, w).qid;
      assert s.workers[w].Holds(q);
    }
  }

  predicate MovesScanOnly(step: Step) {
    step.ScanStart? || step.ScanRead? || step.ScanPut? || step.ScanRepend? || step.ScanFinish? || step.ScanError?
  }

  lemma ScanOnlyFrame(s: State, step: Step)
    requires MovesScanOnly(step)
    ensures var t := Apply(s, step);
      t.items == s.items && t.deque == s.deque && t.workers == s.workers && t.nextQid == s.nextQid
    ensures var t := Apply(s, step); t.scan == s.scan || forall q :: !InPush(t.scan, q)
  {
    match step
    case ScanRead(stale) => assert Apply(s, step) == DoScanRead(s, stale);
    case ScanPut => assert Apply(s, step) == DoScanPut(s);
    case ScanRepend => assert Apply(s, step) == DoScanRepend(s);
    case _ =>
  }

  lemma PlacesEnqueue(s: State)
    requires PlacesOk(s)
    ensures PlacesOk(DoScanEnqueue(s))
  {
  }

  lemma PlacesPush(s: State)
    requires PlacesOk(s)
    ensures PlacesOk(DoScanPush(s))
  {
    if AtInput(s) && s.scan.phase.Pushing? {
      assert InPush(s.scan, s.scan.phase.qid);
    }
  }

  lemma PlacesNack(s: State, q: QueueItemId)
    requires PlacesOk(s)
    ensures PlacesOk(Apply(s, NackOrphan(q)))
  {
    if s.up && Orphan(s, q) {
      var t := Apply(s, NackOrphan(q));
      assert forall k :: 0 < k < |t.deque| ==> t.deque[k] == s.deque[k - 1];
      assert forall k :: 0 <= k < |s.deque| ==> s.deque[k].qid != q;
    }
  }

  lemma PlacesOpen(s: State, order: seq<QueueItemId>)
    requires PlacesOk(s) && (!s.up ==> s.scan.NoScan? && forall w :: w in s.workers ==> s.workers[w].Stopped?)
    ensures PlacesOk(DoOpen(s, order))
  {
  }

  /** While the process is down nothing of it is left. */
  predicate DownOk(s: State) {
    !s.up ==> s.scan.NoScan? && forall w | w in s.workers :: s.workers[w].Stopped?
  }

  predicate MovesWorkerOnly(step: Step) {
    step.Load? || step.SampleClock? || step.TryClaim? || step.TryComplete? || step.TryFail? || step.StopWorker?
  }

  /** The steps of `run_one` between dequeue and ack move one worker and keep its item. */
  lemma WorkerOnlyFrame(s: State, step: Step)
    requires MovesWorkerOnly(step)
    requires KeyedById(s.rows)
    ensures var t := Apply(s, step);
      t.items == s.items && t.deque == s.deque && t.scan == s.scan && t.nextQid == s.nextQid
    ensures var t := Apply(s, step);
      t.workers == s.workers ||
      (step.w in s.workers
       && t.workers == s.workers[step.w := t.workers[step.w]]
       && (HeldOk(s.items, s.workers[step.w]) ==> HeldOk(s.items, t.workers[step.w]))
       && forall q :: t.workers[step.w].Holds(q) ==> s.workers[step.w].Holds(q))
  {
    match step
    case Load(w) => assert Apply(s, step) == DoLoad(s, w);
    case SampleClock(w) => assert Apply(s, step) == DoSampleClock(s, w);
    case TryClaim(w, stale) => assert Apply(s, step) == DoTryClaim(s, w, stale);
    case TryComplete(w, blob) => assert Apply(s, step) == DoTryComplete(s, w, blob);
    case TryFail(w, reason) => assert Apply(s, step) == DoTryFail(s, w, reason);
    case _ =>
  }

  lemma PlacesStep(s: State, step: Step)
    requires PlacesOk(s) && DownOk(s)
    requires KeyedById(s.rows)
    ensures PlacesOk(Apply(s, step))
  {
    if MovesWorkerOnly(step) {
      WorkerOnlyFrame(s, step);
      var t := Apply(s, step);
      if t.workers != s.workers {
        MoveHand(s, step.w, t.workers[step.w]);
      }
    } else if MovesScanOnly(step) {
      ScanOnlyFrame(s, step);
    } else {
      PlacesOtherStep(s, step);
    }
  }

  lemma PlacesOtherStep(s: State, step: Step)
    requires PlacesOk(s) && DownOk(s) && !MovesWorkerOnly(step) && !MovesScanOnly(step)
    ensures PlacesOk(Apply(s, step))
  {
    match step
    case Tick(_) =>
    case Spawn(w) =>
    case Dequeue(w) => PlacesDequeue(s, w);
    case Ack(w) => PlacesAck(s, w);
    case ScanEnqueue => PlacesEnqueue(s);
    case ScanPush => PlacesPush(s);
    case NackOrphan(q) => PlacesNack(s, q);
    case Crash => assert Apply(s, step) == DoCrash(s);
    case Open(order) => PlacesOpen(s, order);
  }

  lemma DownStep(s: State, step: Step)
    requires DownOk(s)
    ensures DownOk(Apply(s, step))
  {
  }

  // ---------------------------------------------------------------- the gap of a scan

  /** Samples in the gap are Pending; those a running scan has passed are not in it. */
  ghost predicate GapOk(s: State) {
    && (forall sid :: sid in s.gap ==> sid in s.rows && s.rows[sid].state.Pending?)
    && (s.scan.Scanning? ==>
          && (forall j :: 0 <= j < s.scan.i && j < |s.scan.inputs| ==> s.scan.inputs[j].sid in s.rows)
          && (forall j :: 0 <= j < s.scan.i && j < |s.scan.inputs| && s.scan.inputs[j].sid in s.gap ==>
                s.scan.phase.Enqueueing? && AtInput(s) && s.scan.inputs[j].sid == CurrentInput(s).sid)
          && (s.scan.phase.Repending? ==> s.scan.phase.rec.id !in s.gap)
          && (AtInput(s) && s.scan.phase.Pushing? ==> CurrentInput(s).sid !in s.gap))
  }

  lemma GapScanRead(s: State, stale: nat)
    requires GapOk(s) && ScanOk(s.rows, s.clock, s.scan)
    requires KeyedById(s.rows)
    ensures GapOk(DoScanRead(s, stale))
  {
    if AtInput(s) && s.scan.phase.AtItem? && CurrentInput(s).sid in s.rows {
      match s.rows[CurrentInput(s).sid].state
      case Running(_, started) =>
      case _ =>
    }
  }

  lemma GapClaim(s: State, w: WorkerId, stale: nat)
    requires GapOk(s)
    ensures GapOk(DoTryClaim(s, w, stale))
  {
    var t := DoTryClaim(s, w, stale);
    assert t.scan == s.scan && t.gap <= s.gap;
    assert forall sid :: sid in t.gap ==> t.rows[sid] == s.rows[sid];
  }

  lemma GapFinish(s: State, step: Step)
    requires GapOk(s) && WorkersOk(s.rows, s.clock, s.claims, s.workers)
    requires step.TryComplete? || step.TryFail?
    ensures GapOk(Apply(s, step))
  {
    var t := Apply(s, step);
    assert t.scan == s.scan && t.gap == s.gap;
    if step.w in s.workers {
      assert PhaseOk(s.rows, s.clock, s.claims, step.w, s.workers[step.w]);
    }
    match step
    case TryComplete(w, blob) => assert Apply(s, step) == DoTryComplete(s, w, blob);
    case TryFail(w, reason) => assert Apply(s, step) == DoTryFail(s, w, reason);
  }

  lemma GapScanWriter(s: State, step: Step)
    requires GapOk(s) && ScanOk(s.rows, s.clock, s.scan)
    requires step.ScanPut? || step.ScanRepend? || step.ScanEnqueue? || step.ScanPush?
    ensures GapOk(Apply(s, step))
  {
    match step
    case ScanPut => assert Apply(s, step) == DoScanPut(s);
    case ScanRepend => assert Apply(s, step) == DoScanRepend(s);
    case ScanEnqueue => assert Apply(s, step) == DoScanEnqueue(s);
    case ScanPush => assert Apply(s, step) == DoScanPush(s);
  }

  lemma GapOther(s: State, step: Step)
    requires GapOk(s) && !WritesRow(step) && !step.ScanRead? && !step.ScanEnqueue? && !step.ScanPush?
    ensures GapOk(Apply(s, step))
  {
    var t := Apply(s, step);
    QuietFrame(s, step);
    assert t.gap == s.gap && (t.scan == s.scan || t.scan.NoScan? || (t.scan.i == 0 && t.scan.phase.AtItem?));
  }

  lemma GapStep(s: State, step: Step)
    requires GapOk(s) && WorkersOk(s.rows, s.clock, s.claims, s.workers) && ScanOk(s.rows, s.clock, s.scan)
    requires KeyedById(s.rows)
    ensures GapOk(Apply(s, step))
  {
    if step.ScanRead? {
      GapScanRead(s, step.staleAfterMs);
    } else if step.TryClaim? {
      GapClaim(s, step.w, step.staleAfterMs);
    } else if step.TryComplete? || step.TryFail? {
      GapFinish(s, step);
    } else if step.ScanPut? || step.ScanRepend? || step.ScanEnqueue? || step.ScanPush? {
      GapScanWriter(s, step);
    } else {
      GapOther(s, step);
    }
  }

  // ---------------------------------------------------------------- no sample is lost

  /** The holder of `q` has not yet decided to ack it for another reason than a claim. */
  predicate Faithful(p: Phase, q: QueueItemId) {
    p.Holds(q) ==> p.Dequeued? || ((p.Loaded? || p.Sampled?) && p.rec.state.Pending?)
  }

  ghost predicate Reliable(items: Items, workers: Workers, q: QueueItemId, sid: SampleId) {
    q in items && items[q] == sid && forall w :: w in workers ==> Faithful(workers[w], q)
  }

  /** Some unacked item names `sid` and still leads to a claim. */
  ghost predicate Queued(items: Items, workers: Workers, sid: SampleId) {
    exists q :: Reliable(items, workers, q, sid)
  }

  ghost predicate NoneLost(s: State) {
    forall sid :: sid in s.rows && s.rows[sid].state.Pending? && sid !in s.gap ==>
      Queued(s.items, s.workers, sid)
  }

  /** A worker about to claim a Pending row that is still Pending cannot lose. */
  lemma PendingClaimWins(s: State, w: WorkerId, stale: nat)
    requires WorkersOk(s.rows, s.clock, s.claims, s.workers) && w in s.workers
    requires s.workers[w].Sampled? && s.workers[w].rec.state.Pending?
    requires s.workers[w].rec.id in s.rows && s.rows[s.workers[w].rec.id].state.Pending?
    ensures ClaimWins(s, w, stale)
  {
    assert PhaseOk(s.rows, s.clock, s.claims, w, s.workers[w]);
  }

  /** A faithful item stays faithful under a worker's step while its row stays Pending. */
  lemma ReliableWorker(s: State, step: Step, q: QueueItemId, sid: SampleId)
    requires MovesWorkerOnly(step) && PlacesOk(s) && WorkersOk(s.rows, s.clock, s.claims, s.workers)
    requires KeyedById(s.rows)
    requires Reliable(s.items, s.workers, q, sid)
    requires sid in s.rows && s.rows[sid].state.Pending?
    requires var t := Apply(s, step); sid in t.rows && t.rows[sid].state.Pending?
    ensures var t := Apply(s, step); Reliable(t.items, t.workers, q, sid)
  {
    WorkerOnlyFrame(s, step);
    var t := Apply(s, step);
    if t.workers != s.workers {
      var w := step.w;
      var p := s.workers[w];
      assert Faithful(p, q) && HeldOk(s.items, p);
      match step {
        case TryClaim(_, stale) =>
          assert t == DoTryClaim(s, w, stale);
          if p.Sampled? && p.Holds(q) {
            PendingClaimWins(s, w, stale);
          }
        case Load(_) => assert t == DoLoad(s, w);
        case SampleClock(_) => assert t == DoSampleClock(s, w);
        case TryComplete(_, blob) => assert t == DoTryComplete(s, w, blob);
        case TryFail(_, reason) => assert t == DoTryFail(s, w, reason);
        case StopWorker(_) =>
      }
      assert Faithful(t.workers[w], q);
      forall v | v in t.workers ensures Faithful(t.workers[v], q) {
        assert v != w ==> t.workers[v] == s.workers[v] && Faithful(s.workers[v], q);
      }
    }
  }

  /** A worker's step leaves no new Pending row behind. */
  lemma WorkerPending(s: State, step: Step, sid: SampleId)
    requires MovesWorkerOnly(step) && WorkersOk(s.rows, s.clock, s.claims, s.workers)
    requires var t := Apply(s, step); sid in t.rows && t.rows[sid].state.Pending? && sid !in t.gap
    ensures sid in s.rows && s.rows[sid].state.Pending? && sid !in s.gap
  {
    match step
    case TryClaim(w, stale) => assert Apply(s, step) == DoTryClaim(s, w, stale);
    case TryComplete(w, blob) => assert Apply(s, step) == DoTryComplete(s, w, blob);
    case TryFail(w, reason) => assert Apply(s, step) == DoTryFail(s, w, reason);
    case Load(w) => assert Apply(s, step) == DoLoad(s, w);
    case SampleClock(w) => assert Apply(s, step) == DoSampleClock(s, w);
    case StopWorker(w) =>
  }

  lemma NoneLostWorker(s: State, step: Step)
    requires MovesWorkerOnly(step) && PlacesOk(s) && WorkersOk(s.rows, s.clock, s.claims, s.workers)
    requires KeyedById(s.rows)
    requires NoneLost(s)
    ensures NoneLost(Apply(s, step))
  {
    var t := Apply(s, step);
    forall sid | sid in t.rows && t.rows[sid].state.Pending? && sid !in t.gap
      ensures Queued(t.items, t.workers, sid)
    {
      WorkerPending(s, step, sid);
      var q :| Reliable(s.items, s.workers, q, sid);
      ReliableWorker(s, step, q, sid);
    }
  }

  /** A scan's step makes a row Pending only inside the gap. */
  lemma ScanPending(s: State, step: Step, sid: SampleId)
    requires MovesScanOnly(step)
    requires var t := Apply(s, step); sid in t.rows && t.rows[sid].state.Pending? && sid !in t.gap
    ensures sid in s.rows && s.rows[sid].state.Pending? && sid !in s.gap
  {
    match step
    case ScanRead(stale) => assert Apply(s, step) == DoScanRead(s, stale);
    case ScanPut => assert Apply(s, step) == DoScanPut(s);
    case ScanRepend => assert Apply(s, step) == DoScanRepend(s);
    case _ =>
  }

  lemma NoneLostScan(s: State, step: Step)
    requires MovesScanOnly(step) && NoneLost(s)
    ensures NoneLost(Apply(s, step))
  {
    ScanOnlyFrame(s, step);
    var t := Apply(s, step);
    forall sid | sid in t.rows && t.rows[sid].state.Pending? && sid !in t.gap
      ensures Queued(t.items, t.workers, sid)
    {
      ScanPending(s, step, sid);
    }
  }

  /** The item just mirrored is in nobody's hands; the others are as they were. */
  lemma ReliableEnqueue(s: State, q: QueueItemId, sid: SampleId)
    requires PlacesOk(s) && AtInput(s) && s.scan.phase.Enqueueing?
    requires Reliable(s.items, s.workers, q, sid) || (q == s.nextQid && sid == CurrentInput(s).sid)
    ensures var t := DoScanEnqueue(s); Reliable(t.items, t.workers, q, sid)
  {
    if q == s.nextQid && sid == CurrentInput(s).sid {
      forall w | w in s.workers ensures Faithful(s.workers[w], q) {
        assert HeldOk(s.items, s.workers[w]);
      }
    }
  }

  lemma NoneLostEnqueue(s: State)
    requires NoneLost(s) && PlacesOk(s)
    ensures NoneLost(DoScanEnqueue(s))
  {
    var t := DoScanEnqueue(s);
    if AtInput(s) && s.scan.phase.Enqueueing? {
      forall sid | sid in t.rows && t.rows[sid].state.Pending? && sid !in t.gap
        ensures Queued(t.items, t.workers, sid)
      {
        if sid == CurrentInput(s).sid {
          ReliableEnqueue(s, s.nextQid, sid);
        } else {
          var q :| Reliable(s.items, s.workers, q, sid);
          ReliableEnqueue(s, q, sid);
        }
      }
    }
  }

  lemma NoneLostAck(s: State, w: WorkerId)
    requires NoneLost(s)
    ensures NoneLost(DoAck(s, w))
  {
    var t := DoAck(s, w);
    if At(s, w).Acking? {
      forall sid | sid in t.rows && t.rows[sid].state.Pending? && sid !in t.gap
        ensures Queued(t.items, t.workers, sid)
      {
        var q :| Reliable(s.items, s.workers, q, sid);
        assert Faithful(s.workers[w], q);
        assert Reliable(t.items, t.workers, q, sid);
      }
    }
  }

  /** Steps after which every worker is at least as faithful and no item is gone. */
  predicate MovesItems(step: Step) {
    step.Tick? || step.Spawn? || step.Dequeue? || step.ScanPush? || step.NackOrphan? || step.Crash? || step.Open?
  }

  lemma ItemsFrame(s: State, step: Step)
    requires MovesItems(step)
    ensures var t := Apply(s, step); t.rows == s.rows && t.gap == s.gap && t.items == s.items
    ensures var t := Apply(s, step);
      forall w :: w in t.workers ==>
        (w in s.workers && t.workers[w] == s.workers[w])
        || t.workers[w].Idle? || t.workers[w].Stopped? || t.workers[w].Dequeued?
  {
  }

  lemma ReliableOther(s: State, step: Step, q: QueueItemId, sid: SampleId)
    requires MovesItems(step) && Reliable(s.items, s.workers, q, sid)
    ensures var t := Apply(s, step); Reliable(t.items, t.workers, q, sid)
  {
    ItemsFrame(s, step);
    var t := Apply(s, step);
    forall w | w in t.workers ensures Faithful(t.workers[w], q) {
      assert w in s.workers ==> Faithful(s.workers[w], q);
    }
  }

  lemma NoneLostOther(s: State, step: Step)
    requires NoneLost(s) && MovesItems(step)
    ensures NoneLost(Apply(s, step))
  {
    var t := Apply(s, step);
    ItemsFrame(s, step);
    forall sid | sid in t.rows && t.rows[sid].state.Pending? && sid !in t.gap
      ensures Queued(t.items, t.workers, sid)
    {
      var q :| Reliable(s.items, s.workers, q, sid);
      ReliableOther(s, step, q, sid);
    }
  }

  ghost predicate LossInv(s: State) {
    Inv(s) && DownOk(s) && PlacesOk(s) && GapOk(s) && NoneLost(s)
  }

  lemma LossInvStep(s: State, step: Step)
    requires LossInv(s)
    ensures LossInv(Apply(s, step))
  {
    InvStep(s, step);
    DownStep(s, step);
    PlacesStep(s, step);
    GapStep(s, step);
    if MovesWorkerOnly(step) {
      NoneLostWorker(s, step);
    } else if MovesScanOnly(step) {
      NoneLostScan(s, step);
    } else if step.ScanEnqueue? {
      NoneLostEnqueue(s);
    } else if step.Ack? {
      NoneLostAck(s, step.w);
    } else {
      NoneLostOther(s, step);
    }
  }

  lemma {:induction false} LossInvRun(s: State, steps: seq<Step>)
    requires LossInv(s)
    ensures LossInv(Run(s, steps))
    decreases |steps|
  {
    if steps != [] {
      LossInvStep(s, steps[0]);
      LossInvRun(Apply(s, steps[0]), steps[1..]);
    }
  }

  lemma LossInvReachable(s: State)
    requires Reachable(s)
    ensures LossInv(s)
  {
    var steps :| Run(Init(), steps) == s;
    LossInvRun(Init(), steps);
  }

  /**
   In every reachable state a Pending sample has an unacked queue item naming it, unless a
   scan made it Pending and has not enqueued it since.
   */
  lemma NoSampleLost(s: State, sid: SampleId) returns (q: QueueItemId)
    requires Reachable(s) && sid in s.rows && s.rows[sid].state.Pending? && sid !in s.gap
    ensures q in s.items && s.items[q] == sid
    ensures forall w :: w in s.workers && s.workers[w].Holds(q) ==> !s.workers[w].Acking?
  {
    LossInvReachable(s);
    q :| Reliable(s.items, s.workers, q, sid);
    forall w | w in s.workers && s.workers[w].Holds(q) ensures !s.workers[w].Acking? {
      assert Faithful(s.workers[w], q);
    }
  }

  /** A scan that has passed all its inputs leaves none of them in the gap, whatever crashed before. */
  lemma CompletedScanClosesTheGap(s: State)
    requires Reachable(s) && s.scan.Scanning? && s.scan.i == |s.scan.inputs|
    ensures forall j :: 0 <= j < |s.scan.inputs| ==>
      s.scan.inputs[j].sid in s.rows && s.scan.inputs[j].sid !in s.gap
  {
    LossInvReachable(s);
  }

  /** After a scan over all the samples, no Pending sample is without a queue item. */
  lemma CompletedScanRestoresEverySample(s: State, sid: SampleId) returns (q: QueueItemId)
    requires Reachable(s) && s.scan.Scanning? && s.scan.i == |s.scan.inputs|
    requires forall id :: id in s.rows ==> exists j :: 0 <= j < |s.scan.inputs| && s.scan.inputs[j].sid == id
    requires sid in s.rows && s.rows[sid].state.Pending?
    ensures q in s.items && s.items[q] == sid
  {
    CompletedScanClosesTheGap(s);
    q := NoSampleLost(s, sid);
  }

  /** The gap is exactly the sample the scan has made Pending and is about to enqueue. */
  ghost predicate GapIsWindow(s: State) {
    forall sid :: sid in s.gap ==> AtInput(s) && s.scan.phase.Enqueueing? && sid == CurrentInput(s).sid
  }

  lemma WindowStep(s: State, step: Step)
    requires GapIsWindow(s) && ScanOk(s.rows, s.clock, s.scan) && !step.Crash? && !step.ScanError?
    ensures GapIsWindow(Apply(s, step))
  {
    match step
    case TryClaim(w, stale) => assert Apply(s, step) == DoTryClaim(s, w, stale);
    case ScanRead(stale) => assert Apply(s, step) == DoScanRead(s, stale);
    case ScanPut => assert Apply(s, step) == DoScanPut(s);
    case ScanRepend => assert Apply(s, step) == DoScanRepend(s);
    case ScanEnqueue => assert Apply(s, step) == DoScanEnqueue(s);
    case ScanPush => assert Apply(s, step) == DoScanPush(s);
    case _ => QuietGap(s, step);
  }

  lemma QuietGap(s: State, step: Step)
    requires !step.TryClaim? && !step.Crash? && !step.ScanError?
    requires !step.ScanRead? && !step.ScanPut? && !step.ScanRepend? && !step.ScanEnqueue? && !step.ScanPush?
    ensures Apply(s, step).gap == s.gap
    ensures Apply(s, step).scan == s.scan || !AtInput(s) || s.scan.NoScan?
  {
  }

  lemma {:induction false} WindowRun(s: State, steps: seq<Step>)
    requires LossInv(s) && GapIsWindow(s)
    requires forall k :: 0 <= k < |steps| ==> !steps[k].Crash? && !steps[k].ScanError?
    ensures GapIsWindow(Run(s, steps)) && NoneLost(Run(s, steps))
    decreases |steps|
  {
    if steps != [] {
      WindowStep(s, steps[0]);
      LossInvStep(s, steps[0]);
      WindowRun(Apply(s, steps[0]), steps[1..]);
    }
  }

  /** Without crashes and scan errors, only the sample in a scan's hands can lack a queue item. */
  lemma OnlyTheScansSampleIsUnqueued(steps: seq<Step>)
    requires forall k :: 0 <= k < |steps| ==> !steps[k].Crash? && !steps[k].ScanError?
    ensures var s := Run(Init(), steps); GapIsWindow(s) && NoneLost(s)
  {
    WindowRun(Init(), steps);
  }
}
