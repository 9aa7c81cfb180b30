/**
 Claims in the batch runtime: what every interleaving and every crash keeps, and the
 safety that follows over whole runs.
 */
module BatchClaims {
  import opened SampleStates
  import opened BatchMachine

  type Rows = map<SampleId, SampleRecord>

  // ---------------------------------------------------------------- the invariant

  /** A row exists for `rec` and differs from it at most in its lifecycle state. */
  ghost predicate HasRow(rows: Rows, rec: SampleRecord) {
    rec.id in rows && rows[rec.id].Core() == rec.Core()
  }

  /** What a worker about to claim knows about its own earlier claims of that sample. */
  ghost predicate OwnClaimsBefore(claims: seq<Claim>, w: WorkerId, rec: SampleRecord, now: nat) {
    forall c :: c in claims && c.sid == rec.id && c.w == w ==>
      c.startedAtMs < now || rec.state == Running(w, c.startedAtMs)
  }

  ghost predicate PhaseOk(rows: Rows, clock: nat, claims: seq<Claim>, w: WorkerId, p: Phase) {
    match p
    case Loaded(_, rec) =>
      HasRow(rows, rec) && !rec.Terminal() && OwnClaimsBefore(claims, w, rec, clock)
    case Sampled(_, rec, now) =>
      HasRow(rows, rec) && !rec.Terminal() && now <= clock && OwnClaimsBefore(claims, w, rec, now)
    case Generating(_, r) =>
      && HasRow(rows, r)
      && r.state.Running?
      && r.state.workerId == w
      && Claim(r.id, w, r.state.startedAtMs) in claims
    case _ => true
  }

  ghost predicate WorkersOk(rows: Rows, clock: nat, claims: seq<Claim>, workers: map<WorkerId, Phase>) {
    forall w :: w in workers ==> PhaseOk(rows, clock, claims, w, workers[w])
  }

  ghost predicate ScanOk(rows: Rows, clock: nat, scan: Scan) {
    scan.Scanning? ==>
      && scan.scanNow <= clock
      && scan.i <= |scan.inputs|
      && (!scan.phase.AtItem? ==> scan.i < |scan.inputs|)
      && match scan.phase
         case AtItem => true
         case Creating => scan.inputs[scan.i].sid !in rows
         case Repending(rec) =>
           && rec.id == scan.inputs[scan.i].sid
           && HasRow(rows, rec)
           && rec.state.Running?
           && rec.state.startedAtMs < scan.scanNow
         case Enqueueing => scan.inputs[scan.i].sid in rows
         case Pushing(_) => scan.inputs[scan.i].sid in rows
  }

  /** A won claim is still in the row, or the row is final, or the clock has moved past it. */
  ghost predicate Accounted(rows: Rows, clock: nat, c: Claim) {
    && c.sid in rows
    && c.startedAtMs <= clock
    && (rows[c.sid].state == Running(c.w, c.startedAtMs)
        || rows[c.sid].Terminal()
        || c.startedAtMs < clock)
  }

  ghost predicate HistoryOk(rows: Rows, clock: nat, claims: seq<Claim>) {
    && KeyedById(rows)
    && (forall c :: c in claims ==> Accounted(rows, clock, c))
    && (forall sid :: sid in rows && rows[sid].state.Running? ==>
          Claim(sid, rows[sid].state.workerId, rows[sid].state.startedAtMs) in claims)
  }

  /** One worker's claims of one sample carry strictly increasing start times. */
  ghost predicate NeverRecurs(claims: seq<Claim>) {
    forall i, j :: 0 <= i < j < |claims| && claims[i].sid == claims[j].sid && claims[i].w == claims[j].w ==>
      claims[i].startedAtMs < claims[j].startedAtMs
  }

  /** Every completion was a claim, no sample was completed twice, completed rows are Done. */
  ghost predicate CompletionsOk(rows: Rows, claims: seq<Claim>, completions: seq<Claim>) {
    && (forall c :: c in completions ==> c in claims && c.sid in rows && rows[c.sid].state.Done?)
    && (forall i, j :: 0 <= i < j < |completions| ==> completions[i].sid != completions[j].sid)
    && (forall sid :: sid in rows && rows[sid].state.Done? ==>
          exists c :: c in completions && c.sid == sid)
  }

  ghost predicate Inv(s: State) {
    && WorkersOk(s.rows, s.clock, s.claims, s.workers)
    && ScanOk(s.rows, s.clock, s.scan)
    && HistoryOk(s.rows, s.clock, s.claims)
    && NeverRecurs(s.claims)
    && CompletionsOk(s.rows, s.claims, s.completions)
  }

  // ---------------------------------------------------------------- frames

  /** Rows are never dropped and keep everything but their state; time does not go back. */
  ghost predicate Evolves(rows: Rows, clock: nat, rows': Rows, clock': nat) {
    && clock <= clock'
    && forall sid :: sid in rows ==> sid in rows' && rows'[sid].Core() == rows[sid].Core()
  }

  lemma WorkersFrame(rows: Rows, clock: nat, claims: seq<Claim>, workers: map<WorkerId, Phase>,
                     rows': Rows, clock': nat)
    requires WorkersOk(rows, clock, claims, workers) && Evolves(rows, clock, rows', clock')
    ensures WorkersOk(rows', clock', claims, workers)
  {
    forall w | w in workers ensures PhaseOk(rows', clock', claims, w, workers[w]) {
      assert PhaseOk(rows, clock, claims, w, workers[w]);
    }
  }

  /** A row write that claims nothing: insert, finish, or put a claim in the past back. */
  ghost predicate ClaimlessWrite(rows: Rows, clock: nat, rec: SampleRecord) {
    if rec.id in rows then
      && rec.Core() == rows[rec.id].Core()
      && rows[rec.id].state.Running?
      && (rec.Terminal() || (rec.state.Pending? && rows[rec.id].state.startedAtMs < clock))
    else rec.state.Pending?
  }

  lemma HistoryWrite(rows: Rows, clock: nat, claims: seq<Claim>, rec: SampleRecord)
    requires HistoryOk(rows, clock, claims) && ClaimlessWrite(rows, clock, rec)
    ensures HistoryOk(rows[rec.id := rec], clock, claims)
    ensures Evolves(rows, clock, rows[rec.id := rec], clock)
  {
    var rows' := rows[rec.id := rec];
    forall c | c in claims ensures Accounted(rows', clock, c) {
      assert Accounted(rows, clock, c);
    }
  }

  // ---------------------------------------------------------------- the five writing steps

  /** The five steps that write a row. */
  predicate WritesRow(step: Step) {
    step.TryClaim? || step.TryComplete? || step.TryFail? || step.ScanPut? || step.ScanRepend?
  }

  /** A won claim is later than every earlier claim of the sample by the same worker. */
  lemma ClaimAfterOwn(s: State, w: WorkerId, stale: nat)
    requires WorkersOk(s.rows, s.clock, s.claims, s.workers) && ClaimWins(s, w, stale)
    ensures var p := At(s, w);
      forall c :: c in s.claims && c.sid == p.rec.id && c.w == w ==> c.startedAtMs < p.claimNow
  {
    var p := At(s, w);
    assert PhaseOk(s.rows, s.clock, s.claims, w, p);
  }

  lemma ClaimHistory(rows: Rows, clock: nat, claims: seq<Claim>, rec: SampleRecord, w: WorkerId, now: nat, stale: nat)
    requires HistoryOk(rows, clock, claims) && RowIs(rows, rec) && now <= clock && Claimable(rec, now, stale)
    ensures HistoryOk(rows[rec.id := ClaimedBy(rec, w, now)], clock, claims + [Claim(rec.id, w, now)])
  {
    var rows' := rows[rec.id := ClaimedBy(rec, w, now)];
    var claims' := claims + [Claim(rec.id, w, now)];
    assert claims'[|claims|] == Claim(rec.id, w, now);
    forall c | c in claims' ensures Accounted(rows', clock, c) {
      if c in claims {
        assert Accounted(rows, clock, c);
      }
    }
  }

  lemma ClaimWorkers(s: State, w: WorkerId, stale: nat)
    requires WorkersOk(s.rows, s.clock, s.claims, s.workers) && ClaimWins(s, w, stale)
    ensures var t := DoTryClaim(s, w, stale); WorkersOk(t.rows, t.clock, t.claims, t.workers)
  {
    var t := DoTryClaim(s, w, stale);
    var c := t.claims[|s.claims|];
    assert PhaseOk(s.rows, s.clock, s.claims, w, At(s, w));
    forall v | v in t.workers ensures PhaseOk(t.rows, t.clock, t.claims, v, t.workers[v]) {
      assert v in s.workers && PhaseOk(s.rows, s.clock, s.claims, v, s.workers[v]);
      assert v != w ==> forall d :: d in t.claims && d.w == v ==> d in s.claims;
    }
  }

  lemma InvClaim(s: State, w: WorkerId, stale: nat)
    requires Inv(s)
    ensures Inv(DoTryClaim(s, w, stale))
  {
    var t := DoTryClaim(s, w, stale);
    if ClaimWins(s, w, stale) {
      var p := At(s, w);
      assert PhaseOk(s.rows, s.clock, s.claims, w, p);
      ClaimAfterOwn(s, w, stale);
      ClaimHistory(s.rows, s.clock, s.claims, p.rec, w, p.claimNow, stale);
      ClaimWorkers(s, w, stale);
    }
  }

  lemma CompletionsSnoc(rows: Rows, claims: seq<Claim>, completions: seq<Claim>, rec: SampleRecord, c: Claim)
    requires CompletionsOk(rows, claims, completions)
    requires rec.id in rows && !rows[rec.id].state.Done? && rec.state.Done? && c in claims && c.sid == rec.id
    ensures CompletionsOk(rows[rec.id := rec], claims, completions + [c])
  {
    var rows', more := rows[rec.id := rec], completions + [c];
    assert more[|completions|] == c;
    forall sid | sid in rows' && rows'[sid].state.Done? ensures exists d :: d in more && d.sid == sid {
      if sid != rec.id {
        var d :| d in completions && d.sid == sid;
        assert d in more;
      }
    }
  }

  lemma InvComplete(s: State, w: WorkerId, blob: BlobId)
    requires Inv(s)
    ensures Inv(DoTryComplete(s, w, blob))
  {
    var t := DoTryComplete(s, w, blob);
    var p := At(s, w);
    if p.Generating? && RowIs(s.rows, p.running) {
      assert PhaseOk(s.rows, s.clock, s.claims, w, p);
      var rec := p.running.(state := Done(blob, s.clock));
      HistoryWrite(s.rows, s.clock, s.claims, rec);
      WorkersFrame(s.rows, s.clock, s.claims, s.workers, t.rows, t.clock);
      CompletionsSnoc(s.rows, s.claims, s.completions, rec, t.completions[|s.completions|]);
    }
  }

  lemma InvFail(s: State, w: WorkerId, reason: string)
    requires Inv(s)
    ensures Inv(DoTryFail(s, w, reason))
  {
    var t := DoTryFail(s, w, reason);
    var p := At(s, w);
    if p.Generating? && RowIs(s.rows, p.running) {
      assert PhaseOk(s.rows, s.clock, s.claims, w, p);
      HistoryWrite(s.rows, s.clock, s.claims, p.running.(state := Failed(reason, s.clock)));
      WorkersFrame(s.rows, s.clock, s.claims, s.workers, t.rows, t.clock);
    }
  }

  lemma InvScanPut(s: State)
    requires Inv(s)
    ensures Inv(DoScanPut(s))
  {
    var t := DoScanPut(s);
    if AtInput(s) && s.scan.phase.Creating? {
      HistoryWrite(s.rows, s.clock, s.claims, t.rows[CurrentInput(s).sid]);
      WorkersFrame(s.rows, s.clock, s.claims, s.workers, t.rows, t.clock);
    }
  }

  lemma InvScanRepend(s: State)
    requires Inv(s)
    ensures Inv(DoScanRepend(s))
  {
    var t := DoScanRepend(s);
    if AtInput(s) && s.scan.phase.Repending? && RowIs(s.rows, s.scan.phase.rec) {
      HistoryWrite(s.rows, s.clock, s.claims, s.scan.phase.rec.Core());
      WorkersFrame(s.rows, s.clock, s.claims, s.workers, t.rows, t.clock);
    }
  }

  // ---------------------------------------------------------------- the other steps

  lemma QuietFrame(s: State, step: Step)
    requires !WritesRow(step)
    ensures var t := Apply(s, step);
      t.rows == s.rows && t.claims == s.claims && t.completions == s.completions && s.clock <= t.clock
  {
  }

  lemma QuietHistory(s: State, clock': nat)
    requires HistoryOk(s.rows, s.clock, s.claims) && s.clock <= clock'
    ensures HistoryOk(s.rows, clock', s.claims)
  {
    forall c | c in s.claims ensures Accounted(s.rows, clock', c) {
      assert Accounted(s.rows, s.clock, c);
    }
  }

  lemma ScanReadOk(s: State, stale: nat)
    requires KeyedById(s.rows)
    requires ScanOk(s.rows, s.clock, s.scan)
    ensures ScanOk(s.rows, s.clock, DoScanRead(s, stale).scan)
  {
    if AtInput(s) && s.scan.phase.AtItem? && CurrentInput(s).sid in s.rows {
      var rec := s.rows[CurrentInput(s).sid];
      assert HasRow(s.rows, rec);
      match rec.state
      case Running(_, started) =>
      case _ =>
    }
  }

  lemma QuietScan(s: State, step: Step)
    requires HistoryOk(s.rows, s.clock, s.claims) && ScanOk(s.rows, s.clock, s.scan)
    requires !WritesRow(step)
    ensures var t := Apply(s, step); ScanOk(s.rows, t.clock, t.scan)
  {
    match step
    case ScanRead(stale) => ScanReadOk(s, stale);
    case ScanEnqueue =>
    case ScanPush =>
    case _ =>
  }

  lemma QuietWorkers(s: State, step: Step)
    requires HistoryOk(s.rows, s.clock, s.claims) && WorkersOk(s.rows, s.clock, s.claims, s.workers)
    requires !WritesRow(step)
    ensures var t := Apply(s, step); WorkersOk(t.rows, t.clock, t.claims, t.workers)
  {
    var t := Apply(s, step);
    QuietFrame(s, step);
    WorkersFrame(s.rows, s.clock, s.claims, s.workers, t.rows, t.clock);
    match step
    case Load(w) =>
      var p := At(s, w);
      if p.Dequeued? && p.sid in s.rows {
        forall c | c in s.claims ensures Accounted(s.rows, s.clock, c) {}
      }
    case _ =>
  }

  lemma InvStep(s: State, step: Step)
    requires Inv(s)
    ensures Inv(Apply(s, step))
  {
    match step
    case TryClaim(w, stale) => InvClaim(s, w, stale);
    case TryComplete(w, blob) => InvComplete(s, w, blob);
    case TryFail(w, reason) => InvFail(s, w, reason);
    case ScanPut => InvScanPut(s);
    case ScanRepend => InvScanRepend(s);
    case _ =>
      QuietFrame(s, step);
      QuietHistory(s, Apply(s, step).clock);
      QuietScan(s, step);
      QuietWorkers(s, step);
  }

  // ---------------------------------------------------------------- whole runs

  lemma {:induction false} InvRun(s: State, steps: seq<Step>)
    requires Inv(s)
    ensures Inv(Run(s, steps))
    decreases |steps|
  {
    if steps != [] {
      InvStep(s, steps[0]);
      InvRun(Apply(s, steps[0]), steps[1..]);
    }
  }

  lemma InvReachable(s: State)
    requires Reachable(s)
    ensures Inv(s)
  {
    var steps :| Run(Init(), steps) == s;
    InvRun(Init(), steps);
  }

  /** No claim record is ever written twice, whatever the interleaving. */
  lemma ClaimRecordsNeverRecur(s: State, i: nat, j: nat)
    requires Reachable(s) && i < j < |s.claims|
    ensures s.claims[i] != s.claims[j]
  {
    InvReachable(s);
  }

  /**
   At most one `run_one` completes a sample over the whole history, exactly the Done rows
   were completed, and every completion finished a claim its worker had won.
   */
  lemma AtMostOnceCompletion(s: State)
    requires Reachable(s)
    ensures forall i, j :: 0 <= i < j < |s.completions| ==> s.completions[i].sid != s.completions[j].sid
    ensures forall sid :: sid in s.rows ==>
      (s.rows[sid].state.Done? <==> exists c :: c in s.completions && c.sid == sid)
    ensures forall c :: c in s.completions ==> c in s.claims
  {
    InvReachable(s);
  }

  /** A writing step writes at most one row, and never a Done or Failed one. */
  lemma WriteTargets(s: State, step: Step)
    requires WorkersOk(s.rows, s.clock, s.claims, s.workers) && ScanOk(s.rows, s.clock, s.scan)
    requires WritesRow(step)
    ensures var t := Apply(s, step);
      forall sid :: sid in s.rows && s.rows[sid].Terminal() ==> sid in t.rows && t.rows[sid] == s.rows[sid]
  {
    match step
    case TryClaim(w, stale) => assert Apply(s, step) == DoTryClaim(s, w, stale);
    case TryComplete(w, blob) =>
      assert Apply(s, step) == DoTryComplete(s, w, blob);
      assert w in s.workers ==> PhaseOk(s.rows, s.clock, s.claims, w, s.workers[w]);
    case TryFail(w, reason) =>
      assert Apply(s, step) == DoTryFail(s, w, reason);
      assert w in s.workers ==> PhaseOk(s.rows, s.clock, s.claims, w, s.workers[w]);
    case ScanPut => assert Apply(s, step) == DoScanPut(s);
    case ScanRepend => assert Apply(s, step) == DoScanRepend(s);
  }

  lemma TerminalStep(s: State, step: Step, sid: SampleId)
    requires WorkersOk(s.rows, s.clock, s.claims, s.workers) && ScanOk(s.rows, s.clock, s.scan)
    requires sid in s.rows && s.rows[sid].Terminal()
    ensures var t := Apply(s, step); sid in t.rows && t.rows[sid] == s.rows[sid]
  {
    if WritesRow(step) {
      WriteTargets(s, step);
    } else {
      QuietFrame(s, step);
    }
  }

  /** Done and Failed rows never change again, through scans and crashes alike. */
  lemma {:induction false} TerminalIsFinal(s: State, steps: seq<Step>, sid: SampleId)
    requires Reachable(s) && sid in s.rows && s.rows[sid].Terminal()
    ensures var t := Run(s, steps); sid in t.rows && t.rows[sid] == s.rows[sid]
    decreases |steps|
  {
    if steps != [] {
      InvReachable(s);
      TerminalStep(s, steps[0], sid);
      ReachableStep(s, steps[0]);
      TerminalIsFinal(Apply(s, steps[0]), steps[1..], sid);
    }
  }

  /** A won claim that is no longer in its row and was not completed. */
  ghost predicate Lost(s: State, c: Claim) {
    && c in s.claims
    && c !in s.completions
    && c.sid in s.rows
    && s.rows[c.sid].state != Running(c.w, c.startedAtMs)
  }

  lemma LostStep(s: State, step: Step, c: Claim)
    requires WorkersOk(s.rows, s.clock, s.claims, s.workers) && ScanOk(s.rows, s.clock, s.scan)
    requires Lost(s, c)
    ensures Lost(Apply(s, step), c)
  {
    match step
    case TryClaim(w, stale) =>
      if ClaimWins(s, w, stale) {
        ClaimAfterOwn(s, w, stale);
      }
    case TryComplete(w, blob) =>
      assert w in s.workers ==> PhaseOk(s.rows, s.clock, s.claims, w, s.workers[w]);
    case TryFail(w, reason) =>
    case ScanPut =>
    case ScanRepend =>
    case _ => QuietFrame(s, step);
  }

  /** A worker that lost its claim can never complete it. */
  lemma {:induction false} LostClaimNeverCompletes(s: State, steps: seq<Step>, c: Claim)
    requires Reachable(s) && Lost(s, c)
    ensures c !in Run(s, steps).completions && Lost(Run(s, steps), c)
    decreases |steps|
  {
    if steps != [] {
      InvReachable(s);
      LostStep(s, steps[0], c);
      ReachableStep(s, steps[0]);
      LostClaimNeverCompletes(Apply(s, steps[0]), steps[1..], c);
    }
  }
}
