/**
 The order of claims of one sample across workers.  Re-pending writes back the very bytes
 the row had before its first claim, and a worker samples `claim_now` before its claim
 transaction begins; so a worker that read the row long ago can still win, with a start
 time older than a claim that came and went in between.
 */
module BatchClaimOrder {
  import opened SampleStates
  import opened BatchMachine
  import opened BatchClaims

  /** Successive claims of one sample carry strictly increasing start times. */
  ghost predicate InOrder(claims: seq<Claim>) {
    forall i, j :: 0 <= i < j < |claims| && claims[i].sid == claims[j].sid ==>
      claims[i].startedAtMs < claims[j].startedAtMs
  }

  ghost predicate AllBefore(claims: seq<Claim>, sid: SampleId, now: nat) {
    forall c :: c in claims && c.sid == sid ==> c.startedAtMs < now
  }

  /** The claim in a Running row is the latest claim of its sample. */
  ghost predicate RunningIsLatest(rows: Rows, claims: seq<Claim>) {
    forall sid, i :: sid in rows && rows[sid].state.Running? && 0 <= i < |claims| && claims[i].sid == sid ==>
      HasClaimFrom(claims, i, Claim(sid, rows[sid].state.workerId, rows[sid].state.startedAtMs))
  }

  ghost predicate HasClaimFrom(claims: seq<Claim>, i: nat, c: Claim) {
    exists j :: i <= j < |claims| && claims[j] == c
  }

  lemma LatestClaim(s: State, w: WorkerId, stale: nat)
    requires RunningIsLatest(s.rows, s.claims)
    ensures var t := DoTryClaim(s, w, stale); RunningIsLatest(t.rows, t.claims)
  {
    if ClaimWins(s, w, stale) {
      var t := DoTryClaim(s, w, stale);
      var p := At(s, w);
      assert t.claims[|s.claims|] == Claim(p.rec.id, w, p.claimNow);
      forall sid, i | sid in t.rows && t.rows[sid].state.Running? && 0 <= i < |t.claims| && t.claims[i].sid == sid
        ensures HasClaimFrom(t.claims, i, Claim(sid, t.rows[sid].state.workerId, t.rows[sid].state.startedAtMs))
      {
        if sid != p.rec.id {
          var c := Claim(sid, s.rows[sid].state.workerId, s.rows[sid].state.startedAtMs);
          assert HasClaimFrom(s.claims, i, c);
          var j :| i <= j < |s.claims| && s.claims[j] == c;
          assert t.claims[j] == c;
        }
      }
    }
  }

  lemma RunningFinished(s: State, step: Step, sid: SampleId)
    requires step.TryComplete? || step.TryFail?
    requires sid in Apply(s, step).rows && Apply(s, step).rows[sid].state.Running?
    ensures sid in s.rows && s.rows[sid] == Apply(s, step).rows[sid]
    ensures Apply(s, step).claims == s.claims
  {
    if step.TryComplete? {
      assert Apply(s, step) == DoTryComplete(s, step.w, step.blob);
    } else {
      assert Apply(s, step) == DoTryFail(s, step.w, step.reason);
    }
  }

  lemma RunningScanned(s: State, step: Step, sid: SampleId)
    requires ScanOk(s.rows, s.clock, s.scan) && (step.ScanPut? || step.ScanRepend?)
    requires sid in Apply(s, step).rows && Apply(s, step).rows[sid].state.Running?
    ensures sid in s.rows && s.rows[sid] == Apply(s, step).rows[sid]
    ensures Apply(s, step).claims == s.claims
  {
    if step.ScanPut? {
      assert Apply(s, step) == DoScanPut(s);
    } else {
      assert Apply(s, step) == DoScanRepend(s);
    }
  }

  /** Every step but a claim leaves a Running row as it was or makes it something else. */
  lemma RunningUnchanged(s: State, step: Step, sid: SampleId)
    requires WorkersOk(s.rows, s.clock, s.claims, s.workers) && ScanOk(s.rows, s.clock, s.scan)
    requires !step.TryClaim? && sid in Apply(s, step).rows && Apply(s, step).rows[sid].state.Running?
    ensures sid in s.rows && s.rows[sid] == Apply(s, step).rows[sid]
    ensures Apply(s, step).claims == s.claims
  {
    if step.TryComplete? || step.TryFail? {
      RunningFinished(s, step, sid);
    } else if step.ScanPut? || step.ScanRepend? {
      RunningScanned(s, step, sid);
    } else {
      QuietFrame(s, step);
    }
  }

  lemma {:induction false} LatestRun(s: State, steps: seq<Step>)
    requires Inv(s) && RunningIsLatest(s.rows, s.claims)
    ensures var t := Run(s, steps); RunningIsLatest(t.rows, t.claims)
    decreases |steps|
  {
    if steps != [] {
      var t := Apply(s, steps[0]);
      if steps[0].TryClaim? {
        LatestClaim(s, steps[0].w, steps[0].staleAfterMs);
      } else {
        forall sid | sid in t.rows && t.rows[sid].state.Running?
          ensures sid in s.rows && s.rows[sid] == t.rows[sid] && t.claims == s.claims
        {
          RunningUnchanged(s, steps[0], sid);
        }
      }
      InvStep(s, steps[0]);
      LatestRun(t, steps[1..]);
    }
  }

  lemma LatestBound(rows: Rows, claims: seq<Claim>, sid: SampleId)
    requires RunningIsLatest(rows, claims) && InOrder(claims) && sid in rows && rows[sid].state.Running?
    ensures forall c :: c in claims && c.sid == sid ==> c.startedAtMs <= rows[sid].state.startedAtMs
  {
  }

  // ---------------------------------------------------------------- being overtaken

  /** Between its clock sample and its claim, with the record of a Pending row in hand. */
  predicate HoldsPending(s: State, w: WorkerId) {
    At(s, w).Sampled? && At(s, w).rec.state.Pending?
  }

  /** The scan's re-pend is about to win. */
  predicate RependWins(s: State) {
    AtInput(s) && s.scan.phase.Repending? && s.scan.phase.rec.state.Running? && RowIs(s.rows, s.scan.phase.rec)
  }

  /** A re-pend puts back a claim that is no older than the worker's clock sample. */
  predicate Overtakes(s: State, step: Step, w: WorkerId) {
    && step.ScanRepend? && RependWins(s)
    && HoldsPending(s, w) && At(s, w).rec.id == s.scan.phase.rec.id
    && s.scan.phase.rec.state.startedAtMs >= At(s, w).claimNow
  }

  /** The workers overtaken since they sampled their clocks. */
  function OvertakenNext(s: State, over: set<WorkerId>, step: Step): set<WorkerId> {
    set w | w in s.workers && At(Apply(s, step), w) == At(s, w) && (w in over || Overtakes(s, step, w))
  }

  function Overtaken(s: State, over: set<WorkerId>, steps: seq<Step>): set<WorkerId>
    decreases |steps|
  {
    if steps == [] then over else Overtaken(Apply(s, steps[0]), OvertakenNext(s, over, steps[0]), steps[1..])
  }

  predicate OvertakenWins(s: State, over: set<WorkerId>, step: Step) {
    step.TryClaim? && ClaimWins(s, step.w, step.staleAfterMs) && step.w in over
  }

  /** No overtaken worker ever wins a claim. */
  predicate NoOvertakenWins(s: State, over: set<WorkerId>, steps: seq<Step>)
    decreases |steps|
  {
    steps == [] ||
    (!OvertakenWins(s, over, steps[0]) && NoOvertakenWins(Apply(s, steps[0]), OvertakenNext(s, over, steps[0]), steps[1..]))
  }

  /** Claims no older than `now` can only be in a row that is final or held by such a claim. */
  ghost predicate Clear(rows: Rows, claims: seq<Claim>, sid: SampleId, now: nat) {
    || AllBefore(claims, sid, now)
    || (sid in rows && (rows[sid].Terminal() || (rows[sid].state.Running? && rows[sid].state.startedAtMs >= now)))
  }

  /** An overtaken worker has a claim of its sample in its way; any other has none yet. */
  ghost predicate OverOk(s: State, over: set<WorkerId>) {
    && (forall w :: w in over ==>
          w in s.workers && HoldsPending(s, w) && !AllBefore(s.claims, At(s, w).rec.id, At(s, w).claimNow))
    && (forall w :: w in s.workers && HoldsPending(s, w) && w !in over ==>
          Clear(s.rows, s.claims, At(s, w).rec.id, At(s, w).claimNow))
  }

  lemma SampledOnlyBySampling(s: State, step: Step, v: WorkerId)
    requires step != SampleClock(v) && At(Apply(s, step), v).Sampled?
    ensures At(s, v) == At(Apply(s, step), v)
  {
  }

  /** At its own sample a worker is clear: any claim as young as the clock is still the row. */
  lemma ClearAtSample(s: State, v: WorkerId)
    requires Inv(s) && At(s, v).Loaded?
    ensures Clear(s.rows, s.claims, At(s, v).rec.id, s.clock)
  {
    forall c | c in s.claims ensures Accounted(s.rows, s.clock, c) {}
  }

  lemma ClearAfterClaim(s: State, w: WorkerId, stale: nat, sid: SampleId, now: nat)
    requires Clear(s.rows, s.claims, sid, now)
    ensures var t := DoTryClaim(s, w, stale); Clear(t.rows, t.claims, sid, now)
  {
    var t := DoTryClaim(s, w, stale);
    if ClaimWins(s, w, stale) {
      var p := At(s, w);
      assert t.claims == s.claims + [Claim(p.rec.id, w, p.claimNow)];
      if AllBefore(s.claims, sid, now) && !(sid == p.rec.id && p.claimNow >= now) {
        assert AllBefore(t.claims, sid, now);
      }
    }
  }

  lemma ClearAfterFinish(s: State, step: Step, sid: SampleId, now: nat)
    requires Clear(s.rows, s.claims, sid, now) && (step.TryComplete? || step.TryFail?)
    ensures var t := Apply(s, step); Clear(t.rows, t.claims, sid, now)
  {
    if step.TryComplete? {
      assert Apply(s, step) == DoTryComplete(s, step.w, step.blob);
    } else {
      assert Apply(s, step) == DoTryFail(s, step.w, step.reason);
    }
  }

  lemma ClearAfterPut(s: State, sid: SampleId, now: nat)
    requires ScanOk(s.rows, s.clock, s.scan) && Clear(s.rows, s.claims, sid, now) && sid in s.rows
    ensures var t := DoScanPut(s); Clear(t.rows, t.claims, sid, now)
  {
  }

  lemma ClearAfterRepend(s: State, sid: SampleId, now: nat)
    requires Clear(s.rows, s.claims, sid, now) && ScanOk(s.rows, s.clock, s.scan)
    requires RependWins(s) && s.scan.phase.rec.id == sid ==> s.scan.phase.rec.state.startedAtMs < now
    ensures var t := DoScanRepend(s); Clear(t.rows, t.claims, sid, now)
  {
  }

  lemma ClearAfter(s: State, step: Step, sid: SampleId, now: nat)
    requires ScanOk(s.rows, s.clock, s.scan) && Clear(s.rows, s.claims, sid, now) && sid in s.rows
    requires step.ScanRepend? && RependWins(s) && s.scan.phase.rec.id == sid ==> s.scan.phase.rec.state.startedAtMs < now
    ensures var t := Apply(s, step); Clear(t.rows, t.claims, sid, now)
  {
    match step
    case TryClaim(v, stale) => ClearAfterClaim(s, v, stale, sid, now);
    case TryComplete(_, _) => ClearAfterFinish(s, step, sid, now);
    case TryFail(_, _) => ClearAfterFinish(s, step, sid, now);
    case ScanPut => ClearAfterPut(s, sid, now);
    case ScanRepend => ClearAfterRepend(s, sid, now);
    case _ => QuietFrame(s, step);
  }

  lemma ClearStep(s: State, over: set<WorkerId>, step: Step, w: WorkerId)
    requires Inv(s) && OverOk(s, over)
    requires var t := Apply(s, step); w in t.workers && HoldsPending(t, w) && w !in OvertakenNext(s, over, step)
    ensures var t := Apply(s, step); Clear(t.rows, t.claims, At(t, w).rec.id, At(t, w).claimNow)
  {
    if step == SampleClock(w) && At(s, w).Loaded? {
      ClearAtSample(s, w);
    } else {
      if step != SampleClock(w) {
        SampledOnlyBySampling(s, step, w);
      }
      var p := At(s, w);
      assert w in s.workers && w !in over && !Overtakes(s, step, w);
      assert PhaseOk(s.rows, s.clock, s.claims, w, p);
      ClearAfter(s, step, p.rec.id, p.claimNow);
    }
  }

  /** The claim a re-pend puts back is on record. */
  lemma OvertakerOnRecord(s: State, step: Step, w: WorkerId)
    requires HistoryOk(s.rows, s.clock, s.claims) && Overtakes(s, step, w)
    ensures !AllBefore(s.claims, At(s, w).rec.id, At(s, w).claimNow)
  {
    var rec := s.scan.phase.rec;
    assert Claim(rec.id, rec.state.workerId, rec.state.startedAtMs) in s.claims;
  }

  /** One step appends at most one claim. */
  lemma ClaimsGrowStep(s: State, step: Step)
    ensures s.claims <= Apply(s, step).claims
    ensures (step.TryClaim? && ClaimWins(s, step.w, step.staleAfterMs)) || Apply(s, step).claims == s.claims
  {
    match step
    case TryClaim(w, stale) => assert Apply(s, step) == DoTryClaim(s, w, stale);
    case TryComplete(w, blob) => assert Apply(s, step) == DoTryComplete(s, w, blob);
    case TryFail(w, reason) => assert Apply(s, step) == DoTryFail(s, w, reason);
    case ScanPut => assert Apply(s, step) == DoScanPut(s);
    case ScanRepend => assert Apply(s, step) == DoScanRepend(s);
    case _ => QuietFrame(s, step);
  }

  lemma NotAllBeforeGrows(claims: seq<Claim>, more: seq<Claim>, sid: SampleId, now: nat)
    requires claims <= more && !AllBefore(claims, sid, now)
    ensures !AllBefore(more, sid, now)
  {
    var c :| c in claims && c.sid == sid && c.startedAtMs >= now;
    assert c in more;
  }

  lemma OverStep(s: State, over: set<WorkerId>, step: Step)
    requires Inv(s) && OverOk(s, over)
    ensures OverOk(Apply(s, step), OvertakenNext(s, over, step))
  {
    var t, next := Apply(s, step), OvertakenNext(s, over, step);
    ClaimsGrowStep(s, step);
    forall w | w in next
      ensures w in t.workers && HoldsPending(t, w) && !AllBefore(t.claims, At(t, w).rec.id, At(t, w).claimNow)
    {
      if w !in over {
        OvertakerOnRecord(s, step, w);
      }
      NotAllBeforeGrows(s.claims, t.claims, At(s, w).rec.id, At(s, w).claimNow);
    }
    forall w | w in t.workers && HoldsPending(t, w) && w !in next
      ensures Clear(t.rows, t.claims, At(t, w).rec.id, At(t, w).claimNow)
    {
      ClearStep(s, over, step, w);
    }
  }

  /** A won claim keeps the order exactly if its worker was not overtaken. */
  lemma WonClaimOrder(s: State, over: set<WorkerId>, w: WorkerId, stale: nat)
    requires OverOk(s, over) && RunningIsLatest(s.rows, s.claims) && InOrder(s.claims) && ClaimWins(s, w, stale)
    ensures InOrder(DoTryClaim(s, w, stale).claims) <==> w !in over
  {
    var p, t := At(s, w), DoTryClaim(s, w, stale);
    assert t.claims == s.claims + [Claim(p.rec.id, w, p.claimNow)];
    if w in over {
      var c :| c in s.claims && c.sid == p.rec.id && c.startedAtMs >= p.claimNow;
      var i :| 0 <= i < |s.claims| && s.claims[i] == c;
      assert t.claims[i] == c && t.claims[|s.claims|] == Claim(p.rec.id, w, p.claimNow);
    } else if p.rec.state.Pending? {
      assert HoldsPending(s, w) && AllBefore(s.claims, p.rec.id, p.claimNow);
    } else {
      LatestBound(s.rows, s.claims, p.rec.id);
    }
  }

  lemma {:induction false} ClaimsGrow(s: State, steps: seq<Step>)
    ensures s.claims <= Run(s, steps).claims
    decreases |steps|
  {
    if steps != [] {
      ClaimsGrowStep(s, steps[0]);
      ClaimsGrow(Apply(s, steps[0]), steps[1..]);
    }
  }

  lemma LatestStep(s: State, step: Step)
    requires Inv(s) && RunningIsLatest(s.rows, s.claims)
    ensures var t := Apply(s, step); RunningIsLatest(t.rows, t.claims)
  {
    LatestRun(s, [step]);
    assert [step][1..] == [];
    assert Run(s, [step]) == Apply(s, step);
  }

  lemma {:induction false} OrderRun(s: State, over: set<WorkerId>, steps: seq<Step>)
    requires Inv(s) && OverOk(s, over) && RunningIsLatest(s.rows, s.claims) && InOrder(s.claims)
    ensures InOrder(Run(s, steps).claims) <==> NoOvertakenWins(s, over, steps)
    decreases |steps|
  {
    if steps != [] {
      var step, t := steps[0], Apply(s, steps[0]);
      InvStep(s, step);
      OverStep(s, over, step);
      LatestStep(s, step);
      ClaimsGrowStep(s, step);
      if step.TryClaim? && ClaimWins(s, step.w, step.staleAfterMs) {
        WonClaimOrder(s, over, step.w, step.staleAfterMs);
      }
      if InOrder(t.claims) {
        OrderRun(t, OvertakenNext(s, over, step), steps[1..]);
      } else {
        ClaimsGrow(t, steps[1..]);
      }
    }
  }

  /**
   Over every run, claims of every sample carry strictly increasing start times if and only if
   no claim is ever won by an overtaken worker: one that sampled its clock with the Pending
   record in hand, before the scan put back a claim no older than that sample.
   */
  lemma ClaimsInOrderExactly(steps: seq<Step>)
    ensures InOrder(Run(Init(), steps).claims) <==> NoOvertakenWins(Init(), {}, steps)
  {
    OrderRun(Init(), {}, steps);
  }

  lemma {:induction false} OverRun(s: State, over: set<WorkerId>, steps: seq<Step>)
    requires Inv(s) && OverOk(s, over) && RunningIsLatest(s.rows, s.claims)
    ensures var t := Run(s, steps); OverOk(t, Overtaken(s, over, steps)) && RunningIsLatest(t.rows, t.claims)
    decreases |steps|
  {
    if steps != [] {
      InvStep(s, steps[0]);
      OverStep(s, over, steps[0]);
      LatestStep(s, steps[0]);
      OverRun(Apply(s, steps[0]), OvertakenNext(s, over, steps[0]), steps[1..]);
    }
  }

  /** The same for one claim at the end of an ordered run. */
  lemma ClaimKeepsOrderExactly(steps: seq<Step>, w: WorkerId, stale: nat)
    requires var s := Run(Init(), steps); InOrder(s.claims) && ClaimWins(s, w, stale)
    ensures InOrder(DoTryClaim(Run(Init(), steps), w, stale).claims) <==> w !in Overtaken(Init(), {}, steps)
  {
    OverRun(Init(), {}, steps);
    WonClaimOrder(Run(Init(), steps), Overtaken(Init(), {}, steps), w, stale);
  }

  // ---------------------------------------------------------------- a pool's order of steps

  /** Within one process, no re-pend comes after the first worker is spawned. */
  predicate ScanBeforeWorkers(steps: seq<Step>, spawned: bool)
    decreases |steps|
  {
    steps == [] ||
    match steps[0]
    case Crash => ScanBeforeWorkers(steps[1..], false)
    case Spawn(_) => ScanBeforeWorkers(steps[1..], true)
    case ScanRepend => !spawned && ScanBeforeWorkers(steps[1..], spawned)
    case _ => ScanBeforeWorkers(steps[1..], spawned)
  }

  predicate NoWorkers(workers: map<WorkerId, Phase>) {
    forall w :: w in workers ==> workers[w].Stopped?
  }

  lemma NoWorkersStep(s: State, step: Step)
    requires NoWorkers(s.workers) && !step.Spawn?
    ensures NoWorkers(Apply(s, step).workers)
  {
  }

  lemma NobodyOvertaken(s: State, step: Step)
    requires step.ScanRepend? ==> NoWorkers(s.workers)
    ensures OvertakenNext(s, {}, step) == {}
  {
  }

  lemma {:induction false} ScanBeforeWorkersRun(s: State, steps: seq<Step>, spawned: bool)
    requires ScanBeforeWorkers(steps, spawned) && (!spawned ==> NoWorkers(s.workers))
    ensures NoOvertakenWins(s, {}, steps)
    decreases |steps|
  {
    if steps != [] {
      var step := steps[0];
      NobodyOvertaken(s, step);
      if step.Crash? || (!spawned && !step.Spawn?) {
        if step.Crash? {
          assert Apply(s, step) == DoCrash(s);
        } else {
          NoWorkersStep(s, step);
        }
        ScanBeforeWorkersRun(Apply(s, step), steps[1..], false);
      } else {
        ScanBeforeWorkersRun(Apply(s, step), steps[1..], true);
      }
    }
  }

  /**
   When every process re-pends only before it spawns workers, as `run_pool` arranges, claims
   of every sample are strictly ordered over every interleaving and crash.
   */
  lemma ScanFirstKeepsClaimsInOrder(steps: seq<Step>)
    requires ScanBeforeWorkers(steps, false)
    ensures InOrder(Run(Init(), steps).claims)
  {
    ScanBeforeWorkersRun(Init(), steps, false);
    ClaimsInOrderExactly(steps);
  }

  /** Sample 7, Pending since time 0. */
  const SEVEN := SampleRecord(7, 70, Pending, 0, 0)
  const INPUT := [InputItem(7, 70, 0)]

  lemma QueuedOnce()
    ensures Reachable(State(0, true, map[7 := SEVEN], map[0 := 7], [Entry(0, 7)], 1, map[], NoScan, [], [], {}))
  {
    assert Run(Init(), []) == Init();
    var s := Init();
    s := Follow(s, ScanStart(INPUT), s.(scan := Scanning(INPUT, 0, 0, AtItem)));
    s := Follow(s, ScanRead(300000), s.(scan := Scanning(INPUT, 0, 0, Creating)));
    s := Follow(s, ScanPut, s.(rows := map[7 := SEVEN], gap := {7}, scan := Scanning(INPUT, 0, 0, Enqueueing)));
    s := FollowEnqueue(s, {});
  }

  /** Two scans at time 0 leave sample 7 Pending with two queue items. */
  lemma QueuedTwice()
    ensures Reachable(State(0, true, map[7 := SEVEN], map[0 := 7, 1 := 7], [Entry(0, 7), Entry(1, 7)], 2,
                            map[], NoScan, [], [], {}))
  {
    QueuedOnce();
    var s := State(0, true, map[7 := SEVEN], map[0 := 7], [Entry(0, 7)], 1, map[], NoScan, [], [], {});
    s := Follow(s, ScanStart(INPUT), s.(scan := Scanning(INPUT, 0, 0, AtItem)));
    s := Follow(s, ScanRead(300000), s.(scan := Scanning(INPUT, 0, 0, Enqueueing)));
    s := FollowEnqueue(s, {});
    assert s.items == map[0 := 7, 1 := 7];
  }

  lemma Follow(s: State, step: Step, next: State) returns (t: State)
    requires Reachable(s) && Apply(s, step) == next
    ensures Reachable(t) && t == next
  {
    ReachableStep(s, step);
    t := next;
  }

  lemma FollowEnqueue(s: State, gap: set<SampleId>) returns (t: State)
    requires Reachable(s) && s.scan == Scanning(INPUT, 0, 0, Enqueueing) && s.gap - {7} == gap
    ensures Reachable(t)
    ensures t == s.(items := s.items[s.nextQid := 7], nextQid := s.nextQid + 1, gap := gap,
                    deque := s.deque + [Entry(s.nextQid, 7)], scan := NoScan)
  {
    var q := s.nextQid;
    t := Follow(s, ScanEnqueue,
                s.(items := s.items[q := 7], nextQid := q + 1, gap := gap, scan := Scanning(INPUT, 0, 0, Pushing(q))));
    t := Follow(t, ScanPush, t.(deque := s.deque + [Entry(q, 7)], scan := Scanning(INPUT, 1, 0, AtItem)));
    t := Follow(t, ScanFinish, t.(scan := NoScan));
  }

  /** Worker `w`, new, takes the front item of sample 7 and samples its clock. */
  lemma FollowToSample(s: State, w: WorkerId) returns (t: State)
    requires Reachable(s) && s.up && w !in s.workers && s.rows == map[7 := SEVEN]
    requires s.deque != [] && s.deque[0].sid == 7
    ensures Reachable(t)
    ensures t == s.(workers := s.workers[w := Sampled(s.deque[0].qid, SEVEN, s.clock)], deque := s.deque[1..])
  {
    var q := s.deque[0].qid;
    t := Follow(s, Spawn(w), s.(workers := s.workers[w := Idle]));
    t := Follow(t, Dequeue(w), t.(workers := t.workers[w := Dequeued(q, 7)], deque := s.deque[1..]));
    t := Follow(t, Load(w), t.(workers := t.workers[w := Loaded(q, SEVEN)]));
    t := Follow(t, SampleClock(w), t.(workers := t.workers[w := Sampled(q, SEVEN, s.clock)]));
    assert t.workers == s.workers[w := Sampled(q, SEVEN, s.clock)];
  }

  /**
   Otherwise the order can break: worker 2 samples its clock at 0, worker 1
   claims at 5, the scan puts the stale claim back, and worker 2 wins with start time 0.
   */
  lemma ClaimOrderCanBreak() returns (s: State)
    ensures Reachable(s)
    ensures s.claims == [Claim(7, 1, 5), Claim(7, 2, 0)] && !InOrder(s.claims)
  {
    QueuedTwice();
    s := State(0, true, map[7 := SEVEN], map[0 := 7, 1 := 7], [Entry(0, 7), Entry(1, 7)], 2,
               map[], NoScan, [], [], {});
    s := FollowToSample(s, 2);
    s := Follow(s, Tick(5), s.(clock := 5));
    s := FollowToSample(s, 1);
    s := ClaimAndRepend(s);
    s := Follow(s, TryClaim(2, 300000), DoTryClaim(s, 2, 300000));
    assert s.claims[0].startedAtMs == 5 && s.claims[1].startedAtMs == 0;
  }

  /** Worker 1 claims at 5; five minutes later a scan finds the claim stale and puts it back. */
  lemma ClaimAndRepend(s: State) returns (t: State)
    requires Reachable(s) && s.up && s.clock == 5 && s.rows == map[7 := SEVEN] && s.scan.NoScan?
    requires 1 in s.workers && s.workers[1].Sampled? && s.workers[1].rec == SEVEN && s.workers[1].claimNow == 5
    requires 2 in s.workers && s.claims == []
    ensures Reachable(t) && t.rows == map[7 := SEVEN] && t.claims == [Claim(7, 1, 5)]
    ensures At(t, 2) == s.workers[2]
  {
    var running := ClaimedBy(SEVEN, 1, 5);
    t := Follow(s, TryClaim(1, 300000),
                s.(workers := s.workers[1 := Generating(s.workers[1].qid, running)], rows := map[7 := running],
                   claims := [Claim(7, 1, 5)], gap := s.gap - {7}));
    t := Follow(t, Tick(300006), t.(clock := 300006));
    t := Repend7(t, running);
  }

  lemma Repend7(s: State, running: SampleRecord) returns (t: State)
    requires Reachable(s) && s.up && s.clock == 300006 && s.scan.NoScan?
    requires running == ClaimedBy(SEVEN, 1, 5) && s.rows == map[7 := running]
    ensures Reachable(t) && t.rows == map[7 := SEVEN] && t.claims == s.claims && t.workers == s.workers
  {
    t := Follow(s, ScanStart(INPUT), s.(scan := Scanning(INPUT, 0, 300006, AtItem)));
    t := Follow(t, ScanRead(300000), t.(scan := Scanning(INPUT, 0, 300006, Repending(running))));
    t := Follow(t, ScanRepend,
                t.(rows := map[7 := SEVEN], gap := t.gap + {7}, scan := Scanning(INPUT, 0, 300006, Enqueueing)));
  }
}
