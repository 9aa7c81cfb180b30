/**
 The sample row of the batch runtime and its compare-and-swap transitions
 (`crates/rollout-runtime-batch/src/state.rs`).  Encodings are canonical, so a
 compare-and-swap on bytes is a comparison of records.
 */
module SampleStates {

  type SampleId = nat
  type WorkerId = nat
  type BlobId = nat

  /** An input row; `sid` stands for `sample_id(model, prompt, params, idx)`. */
  datatype InputItem = InputItem(sid: SampleId, promptBlob: BlobId, inputIdx: nat)

  datatype SampleState =
    | Pending
    | Running(workerId: WorkerId, startedAtMs: nat)
    | Done(completionBlob: BlobId, finishedAtMs: nat)
    | Failed(reason: string, failedAtMs: nat)

  datatype SampleRecord = SampleRecord(
    id: SampleId,
    promptBlob: BlobId,
    state: SampleState,
    createdAtMs: nat,
    inputIdx: nat)
  {
    predicate Terminal() {
      state.Done? || state.Failed?
    }

    /** The record with everything but its lifecycle state forgotten. */
    function Core(): SampleRecord {
      this.(state := Pending)
    }
  }

  /** `u64::saturating_sub`. */
  function SaturatingSub(a: nat, b: nat): nat {
    if a < b then 0 else a - b
  }

  /** A claim older than the staleness window; the comparison is strict. */
  predicate Stale(startedAtMs: nat, nowMs: nat, staleAfterMs: nat) {
    SaturatingSub(nowMs, startedAtMs) > staleAfterMs
  }

  /** The guard of `try_claim`. */
  predicate Claimable(rec: SampleRecord, nowMs: nat, staleAfterMs: nat) {
    match rec.state
    case Pending => true
    case Running(_, started) => Stale(started, nowMs, staleAfterMs)
    case Done(_, _) => false
    case Failed(_, _) => false
  }

  function ClaimedBy(rec: SampleRecord, w: WorkerId, nowMs: nat): SampleRecord {
    rec.(state := Running(w, nowMs))
  }

  /** Every row is stored under its own id. */
  ghost predicate KeyedById(rows: map<SampleId, SampleRecord>) {
    forall sid :: sid in rows ==> rows[sid].id == sid
  }

  /** Compare-and-swap of a whole row against the exact record read before. */
  predicate RowIs(rows: map<SampleId, SampleRecord>, rec: SampleRecord) {
    rec.id in rows && rows[rec.id] == rec
  }
}
