/**
 The coordinator lease: one compare-and-swap row with a time to live and an epoch
 (`crates/rollout-coordinator/src/lease.rs`), and the authoritative epoch row written in
 the same transaction.
 */
module Lease {
  import opened Wrappers

  type CoordId = nat

  datatype LeaseRecord = LeaseRecord(holder: CoordId, epoch: nat, expiresAtMs: nat)

  /** What `try_acquire` would write: a fresh lease, or a steal once the lease has expired. */
  function AcquireTarget(cur: Option<LeaseRecord>, me: CoordId, now: nat, ttl: nat): Option<LeaseRecord> {
    match cur
    case None => Some(LeaseRecord(me, 0, now + ttl))
    case Some(c) =>
      if now > c.expiresAtMs then Some(LeaseRecord(me, c.epoch + 1, now + ttl)) else None
  }

  /** What `renew` would write: the same holder and epoch, a later deadline. */
  function RenewTarget(held: LeaseRecord, now: nat, ttl: nat): LeaseRecord {
    LeaseRecord(held.holder, held.epoch, now + ttl)
  }

  /**
   What every coordinator guarantees to the others: the row is never dropped, its epoch
   never decreases, and its holder changes only together with the epoch.
   */
  predicate Guarantee(before: Option<LeaseRecord>, after: Option<LeaseRecord>) {
    before.Some? ==>
      && after.Some?
      && (after.value.epoch > before.value.epoch
          || (after.value.epoch == before.value.epoch && after.value.holder == before.value.holder))
  }

  class StorageLease {
    var row: Option<LeaseRecord>
    var epochRow: Option<nat>

    constructor ()
      ensures row == None && epochRow == None
    {
      row, epochRow := None, None;
    }

    /** The lease row's epoch is the epoch row. */
    predicate Synced()
      reads this
    {
      epochRow == if row.Some? then Some(row.value.epoch) else None
    }

    /** Transactions of other coordinators between two steps of this one. */
    method OtherCoordinators()
      requires Synced()
      modifies this
      ensures Synced() && Guarantee(old(row), row)
    {
      var r: Option<LeaseRecord> := *;
      if Guarantee(row, r) {
        row := r;
        epochRow := if r.Some? then Some(r.value.epoch) else None;
      }
    }

    /** One transaction: compare-and-swap the lease row and, on a win, put the epoch row. */
    method CommitClaim(expected: Option<LeaseRecord>, next: LeaseRecord) returns (won: bool)
      modifies this
      ensures won <==> old(row) == expected
      ensures row == if won then Some(next) else old(row)
      ensures epochRow == if won then Some(next.epoch) else old(epochRow)
    {
      won := row == expected;
      if won {
        row := Some(next);
        epochRow := Some(next.epoch);
      }
    }

    method Current() returns (r: Option<LeaseRecord>)
      ensures r == row
    {
      r := row;
    }

    /**
     `seen` is the row at the read and `atCas` the row at the compare-and-swap.  It wins exactly
     when nothing came between them and the lease was free or had expired; a winner replaces it by
     one of its own with the next epoch, a loser writes nothing.
     */
    method TryAcquire(me: CoordId, now: nat, ttl: nat)
      returns (r: Option<LeaseRecord>, ghost seen: Option<LeaseRecord>, ghost atCas: Option<LeaseRecord>)
      requires Synced()
      modifies this
      ensures Synced() && Guarantee(old(row), seen) && Guarantee(seen, atCas) && Guarantee(atCas, row)
      ensures r.Some? <==> atCas == seen && (seen.None? || seen.value.expiresAtMs < now)
      ensures r.None? ==> row == atCas
      ensures r.Some? ==> row == r && r.value.holder == me && r.value.expiresAtMs == now + ttl
      ensures r.Some? && atCas.None? ==> r.value.epoch == 0
      ensures r.Some? && atCas.Some? ==> r.value.epoch == atCas.value.epoch + 1 && atCas.value.expiresAtMs < now
    {
      OtherCoordinators();
      seen := row;
      var cur := Current();
      OtherCoordinators();
      atCas := row;
      var next := AcquireTarget(cur, me, now, ttl);
      if next.None? {
        return None, seen, atCas;
      }
      var won := CommitClaim(cur, next.value);
      r := if won then next else None;
    }

    /** Succeeds exactly while the row is still the held record; never advances the epoch. */
    method Renew(held: LeaseRecord, now: nat, ttl: nat) returns (renewed: bool, ghost atCas: Option<LeaseRecord>)
      requires Synced()
      modifies this
      ensures Synced() && Guarantee(old(row), atCas) && Guarantee(atCas, row)
      ensures renewed <==> atCas == Some(held)
      ensures row == if renewed then Some(LeaseRecord(held.holder, held.epoch, now + ttl)) else atCas
    {
      OtherCoordinators();
      atCas := row;
      renewed := CommitClaim(Some(held), RenewTarget(held, now, ttl));
    }
  }
}
