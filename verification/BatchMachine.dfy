/**
 The resumable batch runtime as a small-step machine: one scanning coordinator, any
 number of workers, the queue and its storage mirror, a shared non-decreasing clock and
 process crashes.  Every read, every clock sample and every transaction is a step of its
 own, so a run is any interleaving of `BatchWorker::run_one` and
 `BatchCoordinator::scan_and_enqueue`.
 */
module BatchMachine {
  import opened SampleStates

  type QueueItemId = nat

  datatype Entry = Entry(qid: QueueItemId, sid: SampleId)

  /** Where one worker stands inside `run_one`. */
  datatype Phase =
    | Idle
    | Dequeued(qid: QueueItemId, sid: SampleId)
    | Loaded(qid: QueueItemId, rec: SampleRecord)
    | Sampled(qid: QueueItemId, rec: SampleRecord, claimNow: nat)
    | Generating(qid: QueueItemId, running: SampleRecord)
    | Acking(qid: QueueItemId)
    | Stopped
  {
    predicate Holds(q: QueueItemId) {
      !Idle? && !Stopped? && qid == q
    }
  }

  /** Where the coordinator stands inside `scan_and_enqueue`. */
  datatype ScanPhase =
    | AtItem
    | Creating
    | Repending(rec: SampleRecord)
    | Enqueueing
    | Pushing(qid: QueueItemId)

  datatype Scan =
    | NoScan
    | Scanning(inputs: seq<InputItem>, i: nat, scanNow: nat, phase: ScanPhase)

  /** A won claim: the worker and the start time that went into the row. */
  datatype Claim = Claim(sid: SampleId, w: WorkerId, startedAtMs: nat)

  /**
   `rows` and `items` are durable; `deque`, `workers` and `scan` die with the process.
   `claims`, `completions` and `gap` are history: every claim that won, every claim that
   was completed, and the samples a scan made Pending without having enqueued them yet.
   */
  datatype State = State(
    clock: nat,
    up: bool,
    rows: map<SampleId, SampleRecord>,
    items: map<QueueItemId, SampleId>,
    deque: seq<Entry>,
    nextQid: QueueItemId,
    workers: map<WorkerId, Phase>,
    scan: Scan,
    claims: seq<Claim>,
    completions: seq<Claim>,
    gap: set<SampleId>)

  datatype Step =
    | Tick(now: nat)
    | Spawn(w: WorkerId)
    | Dequeue(w: WorkerId)
    | Load(w: WorkerId)
    | SampleClock(w: WorkerId)
    | TryClaim(w: WorkerId, staleAfterMs: nat)
    | TryComplete(w: WorkerId, blob: BlobId)
    | TryFail(w: WorkerId, reason: string)
    | Ack(w: WorkerId)
    | StopWorker(w: WorkerId)
    | ScanStart(inputs: seq<InputItem>)
    | ScanRead(staleAfterMs: nat)
    | ScanPut
    | ScanRepend
    | ScanEnqueue
    | ScanPush
    | ScanFinish
    | ScanError
    | NackOrphan(qid: QueueItemId)
    | Crash
    | Open(order: seq<QueueItemId>)

  function Init(): State {
    State(0, true, map[], map[], [], 0, map[], NoScan, [], [], {})
  }

  function At(s: State, w: WorkerId): Phase {
    if w in s.workers then s.workers[w] else Stopped
  }

  function Goto(s: State, w: WorkerId, p: Phase): State {
    s.(workers := s.workers[w := p])
  }

  /** `run_one`, dequeue: an empty deque ends the worker's loop. */
  function DoDequeue(s: State, w: WorkerId): State {
    if !At(s, w).Idle? then s
    else if s.deque == [] then Goto(s, w, Stopped)
    else Goto(s, w, Dequeued(s.deque[0].qid, s.deque[0].sid)).(deque := s.deque[1..])
  }

  /** `run_one`, row read outside any transaction: a missing or terminal row is acked. */
  function DoLoad(s: State, w: WorkerId): State {
    var p := At(s, w);
    if !p.Dequeued? then s
    else if p.sid !in s.rows || s.rows[p.sid].Terminal() then Goto(s, w, Acking(p.qid))
    else Goto(s, w, Loaded(p.qid, s.rows[p.sid]))
  }

  /** `claim_now` is sampled before the claim's transaction begins. */
  function DoSampleClock(s: State, w: WorkerId): State {
    var p := At(s, w);
    if !p.Loaded? then s else Goto(s, w, Sampled(p.qid, p.rec, s.clock))
  }

  predicate ClaimWins(s: State, w: WorkerId, staleAfterMs: nat) {
    var p := At(s, w);
    p.Sampled? && Claimable(p.rec, p.claimNow, staleAfterMs) && RowIs(s.rows, p.rec)
  }

  function DoTryClaim(s: State, w: WorkerId, staleAfterMs: nat): State {
    var p := At(s, w);
    if !p.Sampled? then s
    else if ClaimWins(s, w, staleAfterMs) then
      var running := ClaimedBy(p.rec, w, p.claimNow);
      Goto(s, w, Generating(p.qid, running)).(
        rows := s.rows[running.id := running],
        claims := s.claims + [Claim(running.id, w, p.claimNow)],
        gap := s.gap - {running.id})
    else Goto(s, w, Acking(p.qid))
  }

  /** A lost completion is a fatal error: the worker stops and leaves its item unacked. */
  function DoTryComplete(s: State, w: WorkerId, blob: BlobId): State {
    var p := At(s, w);
    if !p.Generating? then s
    else if RowIs(s.rows, p.running) && p.running.state.Running? then
      Goto(s, w, Acking(p.qid)).(
        rows := s.rows[p.running.id := p.running.(state := Done(blob, s.clock))],
        completions := s.completions + [Claim(p.running.id, w, p.running.state.startedAtMs)])
    else Goto(s, w, Stopped)
  }

  /** A lost failure is ignored: the worker acks and goes on. */
  function DoTryFail(s: State, w: WorkerId, reason: string): State {
    var p := At(s, w);
    if !p.Generating? then s
    else if RowIs(s.rows, p.running) then
      Goto(s, w, Acking(p.qid)).(
        rows := s.rows[p.running.id := p.running.(state := Failed(reason, s.clock))])
    else Goto(s, w, Acking(p.qid))
  }

  function DoAck(s: State, w: WorkerId): State {
    var p := At(s, w);
    if !p.Acking? then s else Goto(s, w, Idle).(items := s.items - {p.qid})
  }

  function NextItem(s: State): State
    requires s.scan.Scanning?
  {
    s.(scan := s.scan.(i := s.scan.i + 1, phase := AtItem))
  }

  predicate AtInput(s: State) {
    s.scan.Scanning? && s.scan.i < |s.scan.inputs|
  }

  function CurrentInput(s: State): InputItem
    requires AtInput(s)
  {
    s.scan.inputs[s.scan.i]
  }

  /** `scan_and_enqueue`, the read and the branch on the row's state. */
  function DoScanRead(s: State, staleAfterMs: nat): State {
    if !AtInput(s) || !s.scan.phase.AtItem? then s
    else
      var sid := CurrentInput(s).sid;
      if sid !in s.rows then s.(scan := s.scan.(phase := Creating))
      else
        match s.rows[sid].state
        case Done(_, _) => NextItem(s)
        case Pending => s.(scan := s.scan.(phase := Enqueueing))
        case Failed(_, _) => s.(scan := s.scan.(phase := Enqueueing))
        case Running(_, started) =>
          if Stale(started, s.scan.scanNow, staleAfterMs)
          then s.(scan := s.scan.(phase := Repending(s.rows[sid])))
          else NextItem(s)
  }

  function DoScanPut(s: State): State {
    if !AtInput(s) || !s.scan.phase.Creating? then s
    else
      var item := CurrentInput(s);
      var rec := SampleRecord(item.sid, item.promptBlob, Pending, s.scan.scanNow, item.inputIdx);
      s.(rows := s.rows[item.sid := rec],
         gap := s.gap + {item.sid},
         scan := s.scan.(phase := Enqueueing))
  }

  function DoScanRepend(s: State): State {
    if !AtInput(s) || !s.scan.phase.Repending? then s
    else
      var rec := s.scan.phase.rec;
      if RowIs(s.rows, rec) then
        s.(rows := s.rows[rec.id := rec.(state := Pending)],
           gap := s.gap + {rec.id},
           scan := s.scan.(phase := Enqueueing))
      else NextItem(s)
  }

  /** `InMemQueue::enqueue`, first half: the mirror row commits. */
  function DoScanEnqueue(s: State): State {
    if !AtInput(s) || !s.scan.phase.Enqueueing? then s
    else
      var sid := CurrentInput(s).sid;
      s.(items := s.items[s.nextQid := sid],
         nextQid := s.nextQid + 1,
         gap := s.gap - {sid},
         scan := s.scan.(phase := Pushing(s.nextQid)))
  }

  /** `InMemQueue::enqueue`, second half: the deque push. */
  function DoScanPush(s: State): State {
    if !AtInput(s) || !s.scan.phase.Pushing? then s
    else NextItem(s.(deque := s.deque + [Entry(s.scan.phase.qid, CurrentInput(s).sid)]))
  }

  predicate InDeque(deque: seq<Entry>, q: QueueItemId) {
    exists k :: 0 <= k < |deque| && deque[k].qid == q
  }

  predicate Held(s: State, q: QueueItemId) {
    exists w :: w in s.workers && s.workers[w].Holds(q)
  }

  /** In storage only: neither waiting in the deque nor in anybody's hands. */
  predicate Orphan(s: State, q: QueueItemId) {
    && q in s.items
    && !InDeque(s.deque, q)
    && !Held(s, q)
    && !(s.scan.Scanning? && s.scan.phase == Pushing(q))
  }

  predicate Enumerates(order: seq<QueueItemId>, items: map<QueueItemId, SampleId>) {
    && (forall k :: 0 <= k < |order| ==> order[k] in items)
    && (forall q :: q in items ==> q in order)
    && (forall j, k :: 0 <= j < k < |order| ==> order[j] != order[k])
  }

  function Entries(order: seq<QueueItemId>, items: map<QueueItemId, SampleId>): (r: seq<Entry>)
    requires forall k :: 0 <= k < |order| ==> order[k] in items
    ensures |r| == |order|
    ensures forall k :: 0 <= k < |r| ==> r[k] == Entry(order[k], items[order[k]])
  {
    seq(|order|, k requires 0 <= k < |order| => Entry(order[k], items[order[k]]))
  }

  function DoOpen(s: State, order: seq<QueueItemId>): State {
    if s.up || !Enumerates(order, s.items) then s
    else s.(up := true, deque := Entries(order, s.items))
  }

  function DoCrash(s: State): State {
    s.(up := false,
       deque := [],
       workers := map w | w in s.workers :: Stopped,
       scan := NoScan)
  }

  /** One step; a step that is not enabled leaves the state alone. */
  function Apply(s: State, step: Step): State {
    match step
    case Tick(now) => if s.clock <= now then s.(clock := now) else s
    case Spawn(w) => if s.up && w !in s.workers then Goto(s, w, Idle) else s
    case Dequeue(w) => DoDequeue(s, w)
    case Load(w) => DoLoad(s, w)
    case SampleClock(w) => DoSampleClock(s, w)
    case TryClaim(w, stale) => DoTryClaim(s, w, stale)
    case TryComplete(w, blob) => DoTryComplete(s, w, blob)
    case TryFail(w, reason) => DoTryFail(s, w, reason)
    case Ack(w) => DoAck(s, w)
    case StopWorker(w) => if w in s.workers then Goto(s, w, Stopped) else s
    case ScanStart(inputs) =>
      if s.up && s.scan.NoScan? then s.(scan := Scanning(inputs, 0, s.clock, AtItem)) else s
    case ScanRead(stale) => DoScanRead(s, stale)
    case ScanPut => DoScanPut(s)
    case ScanRepend => DoScanRepend(s)
    case ScanEnqueue => DoScanEnqueue(s)
    case ScanPush => DoScanPush(s)
    case ScanFinish =>
      if s.scan.Scanning? && s.scan.i == |s.scan.inputs| then s.(scan := NoScan) else s
    case ScanError => s.(scan := NoScan)
    case NackOrphan(q) =>
      if s.up && Orphan(s, q) then s.(deque := [Entry(q, s.items[q])] + s.deque) else s
    case Crash => DoCrash(s)
    case Open(order) => DoOpen(s, order)
  }

  /** The state after a whole run. */
  function Run(s: State, steps: seq<Step>): State
    decreases |steps|
  {
    if steps == [] then s else Run(Apply(s, steps[0]), steps[1..])
  }

  ghost predicate Reachable(s: State) {
    exists steps :: Run(Init(), steps) == s
  }

  lemma {:induction false} RunAppend(s: State, a: seq<Step>, b: seq<Step>)
    ensures Run(s, a + b) == Run(Run(s, a), b)
    decreases |a|
  {
    if a == [] {
      assert a + b == b;
    } else {
      assert (a + b)[0] == a[0] && (a + b)[1..] == a[1..] + b;
      RunAppend(Apply(s, a[0]), a[1..], b);
    }
  }

  lemma ReachableStep(s: State, step: Step)
    requires Reachable(s)
    ensures Reachable(Apply(s, step))
  {
    var steps :| Run(Init(), steps) == s;
    RunAppend(Init(), steps, [step]);
    assert Run(s, [step]) == Apply(s, step) by {
      assert [step][1..] == [];
    }
    assert Run(Init(), steps + [step]) == Apply(s, step);
  }
}
