/**
 Every interleaving of enqueues, dispatches, steals and acks over one ledger.  A steal or an
 ack commits with any record whatever, so every scan may be arbitrarily stale.
 */
module LedgerMachine {
  import opened Wrappers
  import opened Ordered
  import opened WorkItems
  import opened Ledger

  /** `memory` is the assignment map of a coordinator that never restarts; `finished` lists the
      items of the winning acks and `issued` the payloads ever enqueued.  All three are history. */
  datatype State = State(
    queue: map<nat, Payload>,
    work: Rows,
    memory: map<WorkId, WorkerId>,
    finished: seq<WorkId>,
    issued: set<Payload>)

  datatype Step =
    | Enqueue(key: nat, payload: Payload)
    | Dispatch(worker: WorkerId, now: nat)
    | Steal(rec: WorkItemRecord, thief: WorkerId, at: nat)
    | Ack(done: WorkItemRecord, result: WorkId)

  function Init(): State {
    State(map[], map[], map[], [], {})
  }

  /** Queue keys are fresh random identifiers, so a taken key is never drawn. */
  function DoEnqueue(s: State, key: nat, payload: Payload): State {
    if key in s.queue then s else s.(queue := s.queue[key := payload], issued := s.issued + {payload})
  }

  function Front(s: State): WorkId
    requires s.queue != map[]
  {
    assert s.queue.Keys != {};
    ContentOf(s.queue[Least(s.queue.Keys)])
  }

  function DoDispatch(s: State, worker: WorkerId, now: nat): State {
    if s.queue == map[] then s
    else
      var id := Front(s);
      s.(queue := s.queue - {Least(s.queue.Keys)},
         work := s.work[id := Running(worker, now)],
         memory := s.memory[id := worker])
  }

  function DoSteal(s: State, rec: WorkItemRecord, thief: WorkerId, now: nat): State {
    if Current(s.work, rec)
    then s.(work := AfterSteal(s.work, rec, thief, now), memory := s.memory[rec.id := thief])
    else s
  }

  function DoAck(s: State, rec: WorkItemRecord, result: WorkId): State {
    if Current(s.work, rec)
    then s.(work := AfterComplete(s.work, rec, result), memory := s.memory - {rec.id}, finished := s.finished + [rec.id])
    else s
  }

  function Apply(s: State, step: Step): State {
    match step
    case Enqueue(key, payload) => DoEnqueue(s, key, payload)
    case Dispatch(worker, now) => DoDispatch(s, worker, now)
    case Steal(rec, thief, now) => DoSteal(s, rec, thief, now)
    case Ack(rec, result) => DoAck(s, rec, result)
  }

  function Run(s: State, steps: seq<Step>): State
    decreases |steps|
  {
    if steps == [] then s else Run(Apply(s, steps[0]), steps[1..])
  }

  // ---------- Recovery ----------

  lemma RunCons(s: State, steps: seq<Step>, t: State)
    requires steps != [] && Apply(s, steps[0]) == t
    ensures Run(s, steps) == Run(t, steps[1..])
  {
  }

  /** No committed row is pending, and memory is the running rows. */
  predicate Inv(work: Rows, memory: map<WorkId, WorkerId>) {
    (forall id :: id in work ==> work[id].Running? || work[id].Done?) && memory == RunningOwners(work)
  }

  lemma InvStep(s: State, step: Step)
    requires Inv(s.work, s.memory)
    ensures Inv(Apply(s, step).work, Apply(s, step).memory)
  {
    var t := Apply(s, step);
    match step {
      case Enqueue(_, _) =>
      case Dispatch(worker, now) =>
        if s.queue != map[] {
          assert t.memory == RunningOwners(t.work);
        }
      case Steal(rec, thief, now) =>
        if Current(s.work, rec) {
          assert t.memory == RunningOwners(t.work);
        }
      case Ack(rec, result) =>
        if Current(s.work, rec) {
          assert t.memory == RunningOwners(t.work);
        }
    }
  }

  lemma {:induction false} InvRun(s: State, steps: seq<Step>)
    requires Inv(s.work, s.memory)
    ensures Inv(Run(s, steps).work, Run(s, steps).memory)
    decreases |steps|
  {
    if steps != [] {
      InvStep(s, steps[0]);
      InvRun(Apply(s, steps[0]), steps[1..]);
    }
  }

  /**
   Crash recovery refines memory: after any run from an empty ledger, replaying the rows gives
   the assignment map of a coordinator that was never down, no pending item, and one terminal
   count for every other row.
   */
  lemma RecoveryRefinesMemory(steps: seq<Step>, epoch: nat)
    ensures var s := Run(Init(), steps);
      && ReplayOf(epoch, s.work) == ReplayState(epoch, s.memory, [], |s.work.Keys - s.memory.Keys|)
      && forall id :: id in s.work.Keys - s.memory.Keys <==> id in s.work && s.work[id].Done?
  {
    InvRun(Init(), steps);
    var s := Run(Init(), steps);
    assert PendingIds(s.work) == {};
    assert TerminalIds(s.work) == s.work.Keys - s.memory.Keys;
  }

  // ---------- Done is final ----------

  predicate Redispatches(s: State, step: Step, id: WorkId) {
    step.Dispatch? && s.queue != map[] && Front(s) == id
  }

  /** The one step that can change a finished row: a dispatch of the same content. */
  lemma DoneStep(s: State, step: Step, id: WorkId)
    requires id in s.work && s.work[id].Done?
    ensures id in Apply(s, step).work
    ensures Apply(s, step).work[id] == s.work[id] <==> !Redispatches(s, step, id)
  {
  }

  predicate NeverRedispatched(s: State, steps: seq<Step>, id: WorkId)
    decreases |steps|
  {
    steps == [] || (!Redispatches(s, steps[0], id) && NeverRedispatched(Apply(s, steps[0]), steps[1..], id))
  }

  /** The row is the same in every state of the run. */
  ghost predicate KeepsRow(s: State, steps: seq<Step>, id: WorkId, state: WorkState) {
    forall k :: 0 <= k <= |steps| ==>
      var t := Run(s, steps[..k]);
      id in t.work && t.work[id] == state
  }

  lemma RunPrefixes(s: State, steps: seq<Step>)
    requires steps != []
    ensures Run(s, steps[..0]) == s
    ensures forall k :: 0 < k <= |steps| ==> Run(s, steps[..k]) == Run(Apply(s, steps[0]), steps[1..][..k - 1])
  {
    forall k | 0 < k <= |steps| ensures Run(s, steps[..k]) == Run(Apply(s, steps[0]), steps[1..][..k - 1]) {
      assert steps[..k][0] == steps[0] && steps[..k][1..] == steps[1..][..k - 1];
    }
  }

  lemma KeepsRowUnfolds(s: State, steps: seq<Step>, id: WorkId, state: WorkState)
    requires steps != []
    ensures KeepsRow(s, steps, id, state) <==>
      id in s.work && s.work[id] == state && KeepsRow(Apply(s, steps[0]), steps[1..], id, state)
  {
    RunPrefixes(s, steps);
    if KeepsRow(Apply(s, steps[0]), steps[1..], id, state) && id in s.work && s.work[id] == state {
      forall k | 0 <= k <= |steps|
        ensures var t := Run(s, steps[..k]); id in t.work && t.work[id] == state
      {
        if k > 0 {
          assert Run(s, steps[..k]) == Run(Apply(s, steps[0]), steps[1..][..k - 1]);
        }
      }
    }
    if KeepsRow(s, steps, id, state) {
      forall j | 0 <= j <= |steps[1..]|
        ensures var t := Run(Apply(s, steps[0]), steps[1..][..j]); id in t.work && t.work[id] == state
      {
        assert Run(s, steps[..j + 1]) == Run(Apply(s, steps[0]), steps[1..][..j]);
      }
    }
  }

  /** A finished row is final exactly as long as its content is not dispatched again. */
  lemma {:induction false} DoneIsFinalExactly(s: State, steps: seq<Step>, id: WorkId)
    requires id in s.work && s.work[id].Done?
    ensures KeepsRow(s, steps, id, s.work[id]) <==> NeverRedispatched(s, steps, id)
    decreases |steps|
  {
    if steps == [] {
      assert forall k :: 0 <= k <= |steps| ==> steps[..k] == [];
    } else {
      var t := Apply(s, steps[0]);
      DoneStep(s, steps[0], id);
      KeepsRowUnfolds(s, steps, id, s.work[id]);
      if !Redispatches(s, steps[0], id) {
        DoneIsFinalExactly(t, steps[1..], id);
      } else {
        assert Run(t, steps[1..][..0]) == t;
      }
    }
  }

  /** Two equal payloads: the finished row is overwritten and the item finishes twice. */
  lemma EqualPayloadsFinishTwice(p: Payload, w: WorkerId, r: WorkId)
    ensures
      var id := ContentOf(p);
      var again := [Enqueue(0, p), Dispatch(w, 1), Ack(WorkItemRecord(id, Running(w, 1)), r)];
      Run(Run(Init(), again), again).finished == [id, id]
  {
    var id := ContentOf(p);
    var again := [Enqueue(0, p), Dispatch(w, 1), Ack(WorkItemRecord(id, Running(w, 1)), r)];
    var once := State(map[], map[id := Done(r)], map[], [id], {p});
    RoundTrip(Init(), p, w, r);
    assert Init().finished + [id] == [id];
    assert Run(Init(), again) == once;
    RoundTrip(once, p, w, r);
  }

  lemma AckRoundTrip(s: State, s2: State, rec: WorkItemRecord, w: WorkerId, r: WorkId)
    requires rec.id !in s.memory && rec.state.Running?
    requires s2 == s.(queue := map[], work := s.work[rec.id := rec.state], memory := s.memory[rec.id := w], issued := s2.issued)
    ensures Apply(s2, Ack(rec, r)) ==
      State(map[], s.work[rec.id := Done(r)], s.memory, s.finished + [rec.id], s2.issued)
  {
    assert s.memory[rec.id := w] - {rec.id} == s.memory;
    assert s.work[rec.id := rec.state][rec.id := Done(r)] == s.work[rec.id := Done(r)];
  }

  /** One payload through an empty queue. */
  lemma RoundTrip(s: State, p: Payload, w: WorkerId, r: WorkId)
    requires s.queue == map[] && ContentOf(p) !in s.memory
    ensures
      var id := ContentOf(p);
      var steps := [Enqueue(0, p), Dispatch(w, 1), Ack(WorkItemRecord(id, Running(w, 1)), r)];
      Run(s, steps) == State(map[], s.work[id := Done(r)], s.memory, s.finished + [id], s.issued + {p})
  {
    var id := ContentOf(p);
    var rec := WorkItemRecord(id, Running(w, 1));
    var steps := [Enqueue(0, p), Dispatch(w, 1), Ack(rec, r)];
    var s1 := s.(queue := map[0 := p], issued := s.issued + {p});
    RunCons(s, steps, s1);
    assert s1.queue.Keys == {0} && Least(s1.queue.Keys) in {0};
    var s2 := s1.(queue := map[], work := s.work[id := rec.state], memory := s.memory[id := w]);
    RunCons(s1, steps[1..], s2);
    AckRoundTrip(s, s2, rec, w, r);
    RunCons(s2, steps[2..], Apply(s2, Ack(rec, r)));
    assert steps[3..] == [];
  }

  // ---------- Pairwise distinct payloads ----------

  predicate FreshRun(s: State, steps: seq<Step>)
    decreases |steps|
  {
    steps == [] ||
    ((steps[0].Enqueue? ==> steps[0].payload !in s.issued) && FreshRun(Apply(s, steps[0]), steps[1..]))
  }

  function Ids(payloads: set<Payload>): set<WorkId> {
    set p | p in payloads :: ContentOf(p)
  }

  /** A queued payload is issued, unlike every other queued one, and not yet in the ledger. */
  ghost predicate Distinct(queue: map<nat, Payload>, work: Rows, issued: set<Payload>) {
    && (forall j, k :: j in queue && k in queue && j != k ==> queue[j] != queue[k])
    && (forall k :: k in queue ==> queue[k] in issued && ContentOf(queue[k]) !in work)
    && work.Keys <= Ids(issued)
  }

  /** The finished items are listed once each, and they are the done rows. */
  ghost predicate FinishedOnce(work: Rows, finished: seq<WorkId>) {
    && (forall i, j :: 0 <= i < j < |finished| ==> finished[i] != finished[j])
    && (forall id :: id in finished <==> id in work && work[id].Done?)
  }

  lemma DistinctStep(s: State, step: Step)
    requires Distinct(s.queue, s.work, s.issued) && FinishedOnce(s.work, s.finished)
    requires step.Enqueue? ==> step.payload !in s.issued
    ensures var t := Apply(s, step); Distinct(t.queue, t.work, t.issued) && FinishedOnce(t.work, t.finished)
    ensures forall id :: !Redispatches(s, step, id) || id !in s.work
  {
    var t := Apply(s, step);
    match step {
      case Enqueue(key, payload) =>
        if key !in s.queue {
          assert ContentOf(payload) !in s.work;
        }
      case Dispatch(worker, now) =>
        if s.queue != map[] {
          var key := Least(s.queue.Keys);
          assert key in s.queue && ContentOf(s.queue[key]) in Ids(s.issued);
        }
      case Steal(rec, thief, now) =>
      case Ack(rec, result) =>
        if Current(s.work, rec) {
          FinishedSnoc(s.work, s.finished, rec, result);
        }
    }
  }

  lemma FinishedSnoc(work: Rows, finished: seq<WorkId>, rec: WorkItemRecord, result: WorkId)
    requires FinishedOnce(work, finished) && Current(work, rec)
    ensures FinishedOnce(AfterComplete(work, rec, result), finished + [rec.id])
  {
    assert rec.id !in finished;
    forall id ensures id in finished + [rec.id] <==> id in finished || id == rec.id {
    }
  }

  lemma {:induction false} DistinctRun(s: State, steps: seq<Step>, id: WorkId)
    requires Distinct(s.queue, s.work, s.issued) && FinishedOnce(s.work, s.finished)
    requires FreshRun(s, steps)
    ensures var t := Run(s, steps); Distinct(t.queue, t.work, t.issued) && FinishedOnce(t.work, t.finished)
    ensures id in s.work ==> NeverRedispatched(s, steps, id)
    decreases |steps|
  {
    if steps != [] {
      DistinctStep(s, steps[0]);
      DistinctRun(Apply(s, steps[0]), steps[1..], id);
      assert id in s.work ==> id in Apply(s, steps[0]).work;
    }
  }

  /** With pairwise distinct payloads, each item finishes at most once, whoever races for it. */
  lemma EachItemFinishesOnce(steps: seq<Step>)
    requires FreshRun(Init(), steps)
    ensures var s := Run(Init(), steps); FinishedOnce(s.work, s.finished)
  {
    DistinctRun(Init(), steps, 0);
  }

  lemma {:induction false} RunAppend(s: State, a: seq<Step>, b: seq<Step>)
    ensures Run(s, a + b) == Run(Run(s, a), b)
    ensures FreshRun(s, a + b) <==> FreshRun(s, a) && FreshRun(Run(s, a), b)
    decreases |a|
  {
    if a == [] {
      assert a + b == b;
    } else {
      assert (a + b)[0] == a[0] && (a + b)[1..] == a[1..] + b;
      RunAppend(Apply(s, a[0]), a[1..], b);
    }
  }

  /** And then done is final: no later step of any kind changes the row. */
  lemma DoneIsFinal(before: seq<Step>, after: seq<Step>, id: WorkId)
    requires FreshRun(Init(), before + after)
    requires var s := Run(Init(), before); id in s.work && s.work[id].Done?
    ensures var s := Run(Init(), before); KeepsRow(s, after, id, s.work[id])
  {
    RunAppend(Init(), before, after);
    DistinctRun(Init(), before, id);
    var s := Run(Init(), before);
    DistinctRun(s, after, id);
    DoneIsFinalExactly(s, after, id);
  }

  // ---------- Races ----------

  /** The step hands the item of `rec` to the worker of `rec` with the very timestamp of `rec`. */
  predicate HandsBack(s: State, step: Step, rec: WorkItemRecord)
    requires rec.state.Running?
  {
    match step
    case Dispatch(worker, now) => s.queue != map[] && Front(s) == rec.id && Running(worker, now) == rec.state
    case Steal(held, thief, now) => Current(s.work, held) && held.id == rec.id && Running(thief, now) == rec.state
    case _ => false
  }

  /** Nothing else brings a lost record back. */
  lemma LostStep(s: State, step: Step, rec: WorkItemRecord)
    requires rec.state.Running? && !RowIs(s.work, rec)
    ensures RowIs(Apply(s, step).work, rec) <==> HandsBack(s, step, rec)
  {
  }

  predicate NeverHandedBack(s: State, steps: seq<Step>, rec: WorkItemRecord)
    requires rec.state.Running?
    decreases |steps|
  {
    steps == [] || (!HandsBack(s, steps[0], rec) && NeverHandedBack(Apply(s, steps[0]), steps[1..], rec))
  }

  /** The record is the row in no state of the run. */
  ghost predicate StaysLost(s: State, steps: seq<Step>, rec: WorkItemRecord) {
    forall k :: 0 <= k <= |steps| ==> !RowIs(Run(s, steps[..k]).work, rec)
  }

  lemma {:induction false} StaysLostExactly(s: State, steps: seq<Step>, rec: WorkItemRecord)
    requires rec.state.Running? && !RowIs(s.work, rec)
    ensures StaysLost(s, steps, rec) <==> NeverHandedBack(s, steps, rec)
    decreases |steps|
  {
    if steps == [] {
      assert forall k :: 0 <= k <= |steps| ==> steps[..k] == [];
    } else {
      var t, rest := Apply(s, steps[0]), steps[1..];
      LostStep(s, steps[0], rec);
      RunPrefixes(s, steps);
      if HandsBack(s, steps[0], rec) {
        assert Run(s, steps[..1]) == Run(t, rest[..0]) == t;
      } else {
        StaysLostExactly(t, rest, rec);
        if StaysLost(t, rest, rec) {
          forall k | 0 <= k <= |steps| ensures !RowIs(Run(s, steps[..k]).work, rec) {
            if k > 0 {
              assert Run(s, steps[..k]) == Run(t, rest[..k - 1]);
            }
          }
        }
        if StaysLost(s, steps, rec) {
          forall j | 0 <= j <= |rest| ensures !RowIs(Run(t, rest[..j]).work, rec) {
            assert Run(s, steps[..j + 1]) == Run(t, rest[..j]);
          }
        }
      }
    }
  }

  /**
   A steal and the victim's ack race from the same record: whichever commits first, the other
   changes nothing, however late it comes, unless the victim is handed the item again with the
   old timestamp.
   */
  lemma SingleWinner(s: State, rec: WorkItemRecord, winner: Step, steps: seq<Step>, loser: Step)
    requires Current(s.work, rec)
    requires (winner.Steal? && winner.rec == rec) || (winner.Ack? && winner.done == rec)
    requires (loser.Steal? && loser.rec == rec) || (loser.Ack? && loser.done == rec)
    requires !HandsBack(s, winner, rec) && NeverHandedBack(Apply(s, winner), steps, rec)
    ensures Apply(s, winner) != s
    ensures var t := Run(Apply(s, winner), steps); Apply(t, loser) == t
  {
    assert !RowIs(Apply(s, winner).work, rec);
    StaysLostExactly(Apply(s, winner), steps, rec);
    assert steps[..|steps|] == steps;
  }

  /** The timestamp matters: stolen away and back within one millisecond, the first ack still wins. */
  lemma StolenBackWithinAMillisecond(p: Payload, a: WorkerId, b: WorkerId, at: nat, r: WorkId)
    requires a != b
    ensures
      var id := ContentOf(p);
      var first := WorkItemRecord(id, Running(a, at));
      var away := [Enqueue(0, p), Dispatch(a, at), Steal(first, b, at)];
      var back := [Steal(WorkItemRecord(id, Running(b, at)), a, at), Ack(first, r)];
      && !RowIs(Run(Init(), away).work, first)
      && Run(Run(Init(), away), back).finished == [id]
  {
    var id := ContentOf(p);
    var first, second := WorkItemRecord(id, Running(a, at)), WorkItemRecord(id, Running(b, at));
    var away := [Enqueue(0, p), Dispatch(a, at), Steal(first, b, at)];
    var back := [Steal(second, a, at), Ack(first, r)];
    var s1 := Init().(queue := map[0 := p], issued := {p});
    RunCons(Init(), away, s1);
    assert s1.queue.Keys == {0} && Least(s1.queue.Keys) in {0};
    var s2 := s1.(queue := map[], work := map[id := first.state], memory := map[id := a]);
    RunCons(s1, away[1..], s2);
    var s3 := s2.(work := map[id := second.state], memory := map[id := b]);
    RunCons(s2, away[2..], s3);
    assert away[3..] == [] && Run(Init(), away) == s3;
    var s4 := s3.(work := map[id := first.state], memory := map[id := a]);
    RunCons(s3, back, s4);
    RunCons(s4, back[1..], Apply(s4, Ack(first, r)));
    assert back[2..] == [];
  }

  // ---------- The methods are runs ----------

  /** The transactions of one steal request, all from one scan. */
  function StealSteps(scan: Rows, items: seq<WorkId>, thief: WorkerId, now: nat): seq<Step>
    requires forall id :: id in items ==> id in scan
    decreases |items|
  {
    if items == [] then []
    else
      var last := |items| - 1;
      var front, id := items[..last], items[last];
      assert forall x :: x in front ==> x in items;
      StealSteps(scan, front, thief, now) + [Steal(WorkItemRecord(id, scan[id]), thief, now)]
  }

  lemma RunOne(s: State, step: Step)
    ensures Run(s, [step]) == Apply(s, step)
  {
    assert [step][1..] == [];
  }

  /** `HandleStealRequest`'s new rows are those of a run of steal steps. */
  lemma {:induction false} StealRequestIsARun(s: State, items: seq<WorkId>, thief: WorkerId, now: nat)
    requires Increasing(items)
    requires forall id :: id in items ==> id in s.work && s.work[id].Running?
    ensures Run(s, StealSteps(s.work, items, thief, now)).work == Reassigned(s.work, items, thief, now)
    ensures Run(s, StealSteps(s.work, items, thief, now)).queue == s.queue
    decreases |items|
  {
    if items != [] {
      var last := |items| - 1;
      var front, id := items[..last], items[last];
      assert items == front + [id];
      assert forall x :: x in front ==> x in items;
      assert id !in front;
      StealRequestIsARun(s, front, thief, now);
      ReassignedSnoc(s.work, front, id, thief, now);
      var step := Steal(WorkItemRecord(id, s.work[id]), thief, now);
      var before := StealSteps(s.work, front, thief, now);
      RunAppend(s, before, [step]);
      RunOne(Run(s, before), step);
    }
  }

  /** A dispatch transaction and its commit make one step. */
  method DispatchAndCommit(store: LedgerStore, ghost s: State, worker: WorkerId, now: nat) returns (r: Option<WorkId>)
    requires store.queue == s.queue && store.work == s.work
    modifies store
    ensures r == if s.queue == map[] then None else Some(Front(s))
    ensures var t := Apply(s, Dispatch(worker, now)); store.queue == t.queue && store.work == t.work
  {
    store.Begin();
    r := store.Dispatch(worker, now);
    if r.Some? {
      store.Commit();
    } else {
      store.Abort();
    }
  }
}
