/**
 The staleness window in the batch machine: within it, a claim is replaced by nothing but its
 own completion or failure.
 */
module BatchWindow {
  import opened SampleStates
  import opened BatchMachine
  import opened BatchClaims

  /** Workers and scans use a window of at least `window`. */
  predicate Waits(step: Step, window: nat) {
    && (step.TryClaim? ==> step.staleAfterMs >= window)
    && (step.ScanRead? ==> step.staleAfterMs >= window)
  }

  /** A scan goes to put back exactly the claims its clock has left behind by more than the window. */
  lemma ScanReadDecides(s: State, staleAfterMs: nat)
    requires AtInput(s) && s.scan.phase.AtItem? && CurrentInput(s).sid in s.rows
    requires s.rows[CurrentInput(s).sid].state.Running?
    ensures var rec := s.rows[CurrentInput(s).sid];
      var t := DoScanRead(s, staleAfterMs);
      if s.scan.scanNow > rec.state.startedAtMs + staleAfterMs
      then t.scan == s.scan.(phase := Repending(rec))
      else t.scan == s.scan.(i := s.scan.i + 1)
  {
  }

  /** A worker takes a Running row exactly when its clock has left the claim behind by more than the window. */
  lemma ClaimDecides(s: State, w: WorkerId, staleAfterMs: nat)
    requires At(s, w).Sampled? && At(s, w).rec.state.Running?
    ensures ClaimWins(s, w, staleAfterMs) <==>
      && At(s, w).claimNow > At(s, w).rec.state.startedAtMs + staleAfterMs
      && At(s, w).rec.id in s.rows && s.rows[At(s, w).rec.id] == At(s, w).rec
  {
  }

  /** What the scan is about to put back is older than the window by the scan's clock. */
  predicate RependWaits(scan: Scan, window: nat) {
    scan.Scanning? && scan.phase.Repending? && scan.phase.rec.state.Running? ==>
      scan.scanNow > scan.phase.rec.state.startedAtMs + window
  }

  lemma RependWaitsStep(s: State, step: Step, window: nat)
    requires RependWaits(s.scan, window) && Waits(step, window)
    ensures RependWaits(Apply(s, step).scan, window)
  {
    match step
    case ScanRead(stale) => assert Apply(s, step) == DoScanRead(s, stale);
    case ScanPut => assert Apply(s, step) == DoScanPut(s);
    case ScanRepend => assert Apply(s, step) == DoScanRepend(s);
    case _ =>
  }

  lemma {:induction false} RependWaitsRun(s: State, steps: seq<Step>, window: nat)
    requires RependWaits(s.scan, window) && forall k :: 0 <= k < |steps| ==> Waits(steps[k], window)
    ensures RependWaits(Run(s, steps).scan, window)
    decreases |steps|
  {
    if steps != [] {
      RependWaitsStep(s, steps[0], window);
      assert forall k :: 0 <= k < |steps[1..]| ==> steps[1..][k] == steps[k + 1];
      RependWaitsRun(Apply(s, steps[0]), steps[1..], window);
    }
  }

  lemma RunningReplaced(s: State, step: Step, sid: SampleId)
    requires ScanOk(s.rows, s.clock, s.scan) && sid in s.rows && s.rows[sid].state.Running?
    ensures sid in Apply(s, step).rows
    ensures
      || Apply(s, step).rows[sid] == s.rows[sid]
      || Apply(s, step).rows[sid].Terminal()
      || (step.TryClaim? && ClaimWins(s, step.w, step.staleAfterMs) && At(s, step.w).rec == s.rows[sid])
      || (step.ScanRepend? && s.scan.Scanning? && s.scan.phase.Repending? && s.scan.phase.rec == s.rows[sid])
  {
    match step
    case TryClaim(w, stale) => assert Apply(s, step) == DoTryClaim(s, w, stale);
    case TryComplete(w, blob) => assert Apply(s, step) == DoTryComplete(s, w, blob);
    case TryFail(w, reason) => assert Apply(s, step) == DoTryFail(s, w, reason);
    case ScanPut => assert Apply(s, step) == DoScanPut(s);
    case ScanRepend => assert Apply(s, step) == DoScanRepend(s);
    case _ => QuietFrame(s, step);
  }

  /**
   Over every run whose windows are at least `window`: a Running row that a step replaces by
   another claim or by Pending was claimed more than `window` before the clock sample of that
   worker or scan.  Until then only completion and failure end it.
   */
  lemma LiveClaimsAreRespected(steps: seq<Step>, step: Step, sid: SampleId, window: nat)
    requires Waits(step, window) && forall k :: 0 <= k < |steps| ==> Waits(steps[k], window)
    requires sid in Run(Init(), steps).rows && Run(Init(), steps).rows[sid].state.Running?
    ensures sid in Apply(Run(Init(), steps), step).rows
    ensures var s := Run(Init(), steps);
      var before, after := s.rows[sid], Apply(s, step).rows[sid];
      var expiry := before.state.startedAtMs + window;
      || after == before || after.state.Done? || after.state.Failed?
      || (step.TryClaim? && At(s, step.w).Sampled? && At(s, step.w).claimNow > expiry)
      || (step.ScanRepend? && s.scan.Scanning? && s.scan.scanNow > expiry)
  {
    var s := Run(Init(), steps);
    InvRun(Init(), steps);
    RependWaitsRun(Init(), steps, window);
    RunningReplaced(s, step, sid);
    if step.TryClaim? && At(s, step.w).Sampled? && At(s, step.w).rec.state.Running? {
      ClaimDecides(s, step.w, step.staleAfterMs);
    }
  }
}
