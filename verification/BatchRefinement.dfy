/**
 The undisturbed `run_one` and `scan_and_enqueue` are runs of the batch machine, so all
 that the machine keeps under interleaving holds of the runtime's own methods.
 */
module BatchRefinement {
  import opened SampleStates
  import M = BatchMachine
  import R = BatchRuntime

  function FinishStep(w: WorkerId, result: R.GenResult): M.Step {
    match result
    case Completion(blob) => M.TryComplete(w, blob)
    case BackendError(reason) => M.TryFail(w, reason)
  }

  /** One `run_one`; after an early ack the remaining steps before the ack are not enabled. */
  function RunOneSteps(w: WorkerId, staleAfterMs: nat, finishNow: nat, result: R.GenResult): seq<M.Step> {
    [M.Dequeue(w), M.Load(w), M.SampleClock(w), M.TryClaim(w, staleAfterMs), M.Tick(finishNow),
     FinishStep(w, result), M.Ack(w)]
  }

  lemma RunSeven(s: M.State, steps: seq<M.Step>)
    requires |steps| == 7
    ensures M.Run(s, steps)
      == M.Apply(M.Apply(M.Apply(M.Apply(M.Apply(M.Apply(M.Apply(s,
           steps[0]), steps[1]), steps[2]), steps[3]), steps[4]), steps[5]), steps[6])
  {
    RunTwo(s, steps[..2]);
    var s2 := M.Apply(M.Apply(s, steps[0]), steps[1]);
    RunTwo(s2, steps[2..4]);
    var s4 := M.Apply(M.Apply(s2, steps[2]), steps[3]);
    RunTwo(s4, steps[4..6]);
    var s6 := M.Apply(M.Apply(s4, steps[4]), steps[5]);
    assert steps[6..][1..] == [];
    assert M.Run(s6, steps[6..]) == M.Apply(s6, steps[6]);
    M.RunAppend(s4, steps[4..6], steps[6..]);
    assert steps[4..6] + steps[6..] == steps[4..];
    M.RunAppend(s2, steps[2..4], steps[4..]);
    assert steps[2..4] + steps[4..] == steps[2..];
    M.RunAppend(s, steps[..2], steps[2..]);
    assert steps[..2] + steps[2..] == steps;
  }

  lemma RunTwo(s: M.State, steps: seq<M.Step>)
    requires |steps| == 2
    ensures M.Run(s, steps) == M.Apply(M.Apply(s, steps[0]), steps[1])
  {
    assert steps[1..][0] == steps[1] && steps[1..][1..] == [];
    assert M.Run(M.Apply(s, steps[0]), steps[1..]) == M.Apply(M.Apply(s, steps[0]), steps[1]);
  }

  /** The claim half: dequeue, read, sample, claim. */
  lemma ClaimHalf(s: M.State, w: WorkerId, staleAfterMs: nat) returns (t: M.State)
    requires w in s.workers && s.workers[w].Idle? && s.deque != []
    requires KeyedById(s.rows)
    ensures t == M.Apply(M.Apply(M.Apply(M.Apply(s, M.Dequeue(w)), M.Load(w)), M.SampleClock(w)), M.TryClaim(w, staleAfterMs))
    ensures t.deque == s.deque[1..] && t.items == s.items && t.clock == s.clock && t.completions == s.completions
    ensures w in t.workers
    ensures var (q, sid) := (s.deque[0].qid, s.deque[0].sid);
      if R.Due(s.rows, sid, s.clock, staleAfterMs) then
        && t.workers[w] == M.Generating(q, ClaimedBy(s.rows[sid], w, s.clock))
        && t.rows == s.rows[sid := ClaimedBy(s.rows[sid], w, s.clock)]
      else
        t.workers[w] == M.Acking(q) && t.rows == s.rows
  {
    var q, sid := s.deque[0].qid, s.deque[0].sid;
    var a := M.Apply(s, M.Dequeue(w));
    assert a == M.Goto(s, w, M.Dequeued(q, sid)).(deque := s.deque[1..]);
    var b := M.Apply(a, M.Load(w));
    if sid !in s.rows || s.rows[sid].Terminal() {
      assert b == M.Goto(a, w, M.Acking(q));
      assert M.Apply(b, M.SampleClock(w)) == b;
      t := M.Apply(b, M.TryClaim(w, staleAfterMs));
      assert t == b;
    } else {
      assert b == M.Goto(a, w, M.Loaded(q, s.rows[sid]));
      var c := M.Apply(b, M.SampleClock(w));
      assert c == M.Goto(b, w, M.Sampled(q, s.rows[sid], s.clock));
      t := M.Apply(c, M.TryClaim(w, staleAfterMs));
      assert t == M.DoTryClaim(c, w, staleAfterMs);
    }
  }

  /** The finishing half: time passes, the result is written, the item is acked. */
  lemma FinishHalf(t: M.State, w: WorkerId, finishNow: nat, result: R.GenResult) returns (u: M.State)
    requires w in t.workers && t.clock <= finishNow
    requires t.workers[w].Acking? || (t.workers[w].Generating? && t.workers[w].running.state.Running? && RowIs(t.rows, t.workers[w].running))
    ensures u == M.Apply(M.Apply(M.Apply(t, M.Tick(finishNow)), FinishStep(w, result)), M.Ack(w))
    ensures u.deque == t.deque && u.items == t.items - {t.workers[w].qid}
    ensures M.At(u, w).Idle?
    ensures t.workers[w].Acking? ==> u.rows == t.rows && u.completions == t.completions
    ensures t.workers[w].Generating? ==>
      && u.rows == t.rows[t.workers[w].running.id := R.Finish(t.workers[w].running, result, finishNow)]
      && (result.Completion? <==> |u.completions| == |t.completions| + 1)
  {
    var a := M.Apply(t, M.Tick(finishNow));
    assert a == t.(clock := finishNow);
    var b := M.Apply(a, FinishStep(w, result));
    match result {
      case Completion(blob) => assert b == M.DoTryComplete(a, w, blob);
      case BackendError(reason) => assert b == M.DoTryFail(a, w, reason);
    }
    u := M.Apply(b, M.Ack(w));
    assert u == M.DoAck(b, w);
  }

  /** `RunOneSpec`, which the method `RunOne` meets, is what the machine's steps compute. */
  lemma RunOneIsARun(s: M.State, w: WorkerId, staleAfterMs: nat, finishNow: nat, backend: R.Backend)
    requires w in s.workers && s.workers[w].Idle? && s.deque != [] && s.clock <= finishNow
    requires KeyedById(s.rows)
    ensures var (q, sid) := (s.deque[0].qid, s.deque[0].sid);
      var result := if sid in s.rows then backend(ClaimedBy(s.rows[sid], w, s.clock)) else R.BackendError("");
      var t := M.Run(s, RunOneSteps(w, staleAfterMs, finishNow, result));
      var (rows, outcome) := R.RunOneSpec(s.rows, sid, w, s.clock, finishNow, staleAfterMs, backend);
      && t.rows == rows
      && t.deque == s.deque[1..]
      && t.items == s.items - {q}
      && M.At(t, w).Idle?
      && (outcome.Completed? <==> |t.completions| == |s.completions| + 1)
  {
    var sid := s.deque[0].sid;
    var result := if sid in s.rows then backend(ClaimedBy(s.rows[sid], w, s.clock)) else R.BackendError("");
    RunSeven(s, RunOneSteps(w, staleAfterMs, finishNow, result));
    var half := ClaimHalf(s, w, staleAfterMs);
    var u := FinishHalf(half, w, finishNow, result);
    if R.Due(s.rows, sid, s.clock, staleAfterMs) {
      var running := ClaimedBy(s.rows[sid], w, s.clock);
      assert half.rows[sid := R.Finish(running, result, finishNow)] == s.rows[sid := R.Finish(running, result, finishNow)];
    }
  }

  // ---------------------------------------------------------------- the scan

  /** One input of a scan; the steps that do not apply are not enabled. */
  function ScanItemSteps(staleAfterMs: nat): seq<M.Step> {
    [M.ScanRead(staleAfterMs), M.ScanPut, M.ScanRepend, M.ScanEnqueue, M.ScanPush]
  }

  function ApplyScanItem(s: M.State, staleAfterMs: nat): M.State {
    M.DoScanPush(M.DoScanEnqueue(M.DoScanRepend(M.DoScanPut(M.DoScanRead(s, staleAfterMs)))))
  }

  lemma RunScanItem(s: M.State, staleAfterMs: nat)
    ensures M.Run(s, ScanItemSteps(staleAfterMs)) == ApplyScanItem(s, staleAfterMs)
  {
    var steps := ScanItemSteps(staleAfterMs);
    RunTwo(s, steps[..2]);
    var s2 := M.DoScanPut(M.DoScanRead(s, staleAfterMs));
    RunTwo(s2, steps[2..4]);
    var s4 := M.DoScanEnqueue(M.DoScanRepend(s2));
    assert steps[4..][1..] == [];
    assert M.Run(s4, steps[4..]) == M.DoScanPush(s4);
    M.RunAppend(s2, steps[2..4], steps[4..]);
    assert steps[2..4] + steps[4..] == steps[2..];
    M.RunAppend(s, steps[..2], steps[2..]);
    assert steps[..2] + steps[2..] == steps;
  }

  /** The deciding half: read, create or put back. */
  lemma ScanDecide(s: M.State, staleAfterMs: nat)
    requires M.AtInput(s) && s.scan.phase.AtItem?
    requires KeyedById(s.rows)
    ensures var t := M.DoScanRepend(M.DoScanPut(M.DoScanRead(s, staleAfterMs)));
      var (rows, enqueue) := R.ScanItem(s.rows, M.CurrentInput(s), s.scan.scanNow, staleAfterMs);
      && t.rows == rows
      && t.deque == s.deque && t.items == s.items && t.nextQid == s.nextQid
      && t.scan == if enqueue then s.scan.(phase := M.Enqueueing) else s.scan.(i := s.scan.i + 1)
  {
    var a := M.DoScanRead(s, staleAfterMs);
    var b := M.DoScanPut(a);
    var item := M.CurrentInput(s);
    if item.sid !in s.rows {
      assert a == s.(scan := s.scan.(phase := M.Creating));
      assert b.scan == s.scan.(phase := M.Enqueueing);
      assert M.DoScanRepend(b) == b;
    } else {
      ScanDecideExisting(s, staleAfterMs);
    }
  }

  lemma ScanDecideExisting(s: M.State, staleAfterMs: nat)
    requires M.AtInput(s) && s.scan.phase.AtItem? && M.CurrentInput(s).sid in s.rows
    requires KeyedById(s.rows)
    ensures var t := M.DoScanRepend(M.DoScanPut(M.DoScanRead(s, staleAfterMs)));
      var (rows, enqueue) := R.ScanItem(s.rows, M.CurrentInput(s), s.scan.scanNow, staleAfterMs);
      && t.rows == rows
      && t.deque == s.deque && t.items == s.items && t.nextQid == s.nextQid
      && t.scan == if enqueue then s.scan.(phase := M.Enqueueing) else s.scan.(i := s.scan.i + 1)
  {
    var a := M.DoScanRead(s, staleAfterMs);
    var rec := s.rows[M.CurrentInput(s).sid];
    assert !a.scan.phase.Creating? && M.DoScanPut(a) == a;
    match rec.state
    case Running(_, started) =>
      if Stale(started, s.scan.scanNow, staleAfterMs) {
        assert a == s.(scan := s.scan.(phase := M.Repending(rec)));
        assert RowIs(a.rows, rec);
      } else {
        assert a == M.NextItem(s);
        assert M.DoScanRepend(a) == a;
      }
    case Done(_, _) =>
      assert a == M.NextItem(s);
      assert M.DoScanRepend(a) == a;
    case _ =>
      assert a == s.(scan := s.scan.(phase := M.Enqueueing));
      assert M.DoScanRepend(a) == a;
  }

  /** The enqueueing half. */
  lemma ScanEnqueueHalf(s: M.State)
    requires M.AtInput(s) && (s.scan.phase.Enqueueing? || s.scan.phase.AtItem?)
    ensures var t := M.DoScanPush(M.DoScanEnqueue(s));
      && t.rows == s.rows
      && (s.scan.phase.Enqueueing? ==>
            t.scan == s.scan.(i := s.scan.i + 1, phase := M.AtItem)
            && t.deque == s.deque + [M.Entry(s.nextQid, M.CurrentInput(s).sid)])
      && (s.scan.phase.AtItem? ==> t.scan == s.scan && t.deque == s.deque)
  {
  }

  lemma ScanItemIsARun(s: M.State, staleAfterMs: nat)
    requires M.AtInput(s) && s.scan.phase.AtItem?
    requires KeyedById(s.rows)
    ensures var t := ApplyScanItem(s, staleAfterMs);
      var item := M.CurrentInput(s);
      var (rows, enqueue) := R.ScanItem(s.rows, item, s.scan.scanNow, staleAfterMs);
      && t.rows == rows
      && t.scan == s.scan.(i := s.scan.i + 1)
      && t.deque == s.deque + (if enqueue then [M.Entry(s.nextQid, item.sid)] else [])
  {
    ScanDecide(s, staleAfterMs);
    var c := M.DoScanRepend(M.DoScanPut(M.DoScanRead(s, staleAfterMs)));
    if c.scan.phase.Enqueueing? || M.AtInput(c) {
      ScanEnqueueHalf(c);
    } else {
      assert M.DoScanEnqueue(c) == c && M.DoScanPush(c) == c;
    }
    assert s.deque + [] == s.deque;
  }

  function ScanSteps(n: nat, staleAfterMs: nat): seq<M.Step> {
    if n == 0 then [] else ScanItemSteps(staleAfterMs) + ScanSteps(n - 1, staleAfterMs)
  }

  /** The payloads of a deque, in order. */
  function Sids(deque: seq<M.Entry>): (r: seq<SampleId>)
    ensures |r| == |deque| && forall k :: 0 <= k < |r| ==> r[k] == deque[k].sid
  {
    seq(|deque|, k requires 0 <= k < |deque| => deque[k].sid)
  }

  lemma ScanSpecStep(rows0: R.Rows, inputs: seq<InputItem>, done: nat, now: nat, staleAfterMs: nat)
    requires done < |inputs|
    ensures var (rows, ids) := R.ScanSpec(rows0, inputs[..done], now, staleAfterMs);
      var (rows', enqueue) := R.ScanItem(rows, inputs[done], now, staleAfterMs);
      R.ScanSpec(rows0, inputs[..done + 1], now, staleAfterMs)
      == (rows', if enqueue then ids + [inputs[done].sid] else ids)
  {
    assert inputs[..done + 1][..done] == inputs[..done] && inputs[..done + 1][done] == inputs[done];
  }

  /** The machine's steps for one input, with the ids counted. */
  lemma ScanItemSids(s: M.State, staleAfterMs: nat)
    requires M.AtInput(s) && s.scan.phase.AtItem?
    requires KeyedById(s.rows)
    ensures var t := M.Run(s, ScanItemSteps(staleAfterMs));
      var item := M.CurrentInput(s);
      var (rows, enqueue) := R.ScanItem(s.rows, item, s.scan.scanNow, staleAfterMs);
      && t.rows == rows
      && t.scan == s.scan.(i := s.scan.i + 1)
      && Sids(t.deque) == Sids(s.deque) + (if enqueue then [item.sid] else [])
  {
    ScanItemIsARun(s, staleAfterMs);
    RunScanItem(s, staleAfterMs);
  }

  /** A scan that started from `rows0` and `sids0` has dealt with `done` inputs. */
  ghost predicate ScannedTo(s: M.State, inputs: seq<InputItem>, now: nat, done: nat, rows0: R.Rows, sids0: seq<SampleId>,
                            staleAfterMs: nat)
  {
    && done <= |inputs| && s.scan == M.Scanning(inputs, done, now, M.AtItem)
    && s.rows == R.ScanSpec(rows0, inputs[..done], now, staleAfterMs).0
    && Sids(s.deque) == sids0 + R.ScanSpec(rows0, inputs[..done], now, staleAfterMs).1
  }

  lemma ScannedNext(s: M.State, inputs: seq<InputItem>, now: nat, done: nat, rows0: R.Rows, sids0: seq<SampleId>,
                    staleAfterMs: nat)
    requires KeyedById(rows0) && done < |inputs| && ScannedTo(s, inputs, now, done, rows0, sids0, staleAfterMs)
    ensures ScannedTo(M.Run(s, ScanItemSteps(staleAfterMs)), inputs, now, done + 1, rows0, sids0, staleAfterMs)
  {
    R.ScanIsComplete(rows0, inputs[..done], now, staleAfterMs);
    ScanItemSids(s, staleAfterMs);
    ScanSpecStep(rows0, inputs, done, now, staleAfterMs);
  }

  lemma {:induction false} ScanRun(s: M.State, inputs: seq<InputItem>, now: nat, done: nat, rows0: R.Rows,
                                   sids0: seq<SampleId>, staleAfterMs: nat)
    requires KeyedById(rows0) && ScannedTo(s, inputs, now, done, rows0, sids0, staleAfterMs)
    ensures ScannedTo(M.Run(s, ScanSteps(|inputs| - done, staleAfterMs)), inputs, now, |inputs|, rows0, sids0, staleAfterMs)
    decreases |inputs| - done
  {
    if done < |inputs| {
      var first, rest := ScanItemSteps(staleAfterMs), ScanSteps(|inputs| - done - 1, staleAfterMs);
      ScannedNext(s, inputs, now, done, rows0, sids0, staleAfterMs);
      M.RunAppend(s, first, rest);
      ScanRun(M.Run(s, first), inputs, now, done + 1, rows0, sids0, staleAfterMs);
    }
  }

  /** `ScanSpec`, which the method `ScanAndEnqueue` meets, is what the machine's scan computes. */
  lemma ScanIsARun(s: M.State, staleAfterMs: nat)
    requires s.scan.Scanning? && s.scan.phase.AtItem? && s.scan.i == 0 && KeyedById(s.rows)
    ensures var t := M.Run(s, ScanSteps(|s.scan.inputs|, staleAfterMs));
      var (rows, ids) := R.ScanSpec(s.rows, s.scan.inputs, s.scan.scanNow, staleAfterMs);
      && t.rows == rows
      && Sids(t.deque) == Sids(s.deque) + ids
      && t.scan == s.scan.(i := |s.scan.inputs|)
  {
    var inputs, now := s.scan.inputs, s.scan.scanNow;
    assert inputs[..0] == [] && Sids(s.deque) + [] == Sids(s.deque);
    ScanRun(s, inputs, now, 0, s.rows, Sids(s.deque), staleAfterMs);
    assert inputs[..|inputs|] == inputs;
  }
}
