/**
 Worker-side fencing: the highest epoch seen, and the rejection of lower ones
 (`crates/rollout-coordinator/src/epoch.rs`).
 */
module Epoch {
  import opened Lease
  import M = LeaseMachine

  predicate Accepts(seenMax: nat, epoch: nat) {
    epoch >= seenMax
  }

  /** The guard after a run of responses, accepted or rejected. */
  function SeenAfter(seenMax: nat, epochs: seq<nat>): nat
    decreases |epochs|
  {
    if epochs == [] then seenMax
    else SeenAfter(if Accepts(seenMax, epochs[0]) then epochs[0] else seenMax, epochs[1..])
  }

  /** Exactly the largest epoch ever offered, or the seed if that is larger. */
  lemma {:induction false} SeenIsTheMaximum(seenMax: nat, epochs: seq<nat>)
    ensures var m := SeenAfter(seenMax, epochs);
      && seenMax <= m
      && (m == seenMax || m in epochs)
      && forall e :: e in epochs ==> e <= m
    decreases |epochs|
  {
    if epochs != [] {
      SeenIsTheMaximum(if Accepts(seenMax, epochs[0]) then epochs[0] else seenMax, epochs[1..]);
      assert forall e :: e in epochs <==> e == epochs[0] || e in epochs[1..];
    }
  }

  class EpochGuard {
    var seenMax: nat
    ghost var offered: seq<nat>
    ghost const seed: nat

    ghost predicate Valid()
      reads this
    {
      seenMax == SeenAfter(seed, offered)
    }

    constructor (seenMax: nat)
      ensures Valid() && this.seenMax == seenMax && seed == seenMax && offered == []
    {
      this.seenMax, offered, seed := seenMax, [], seenMax;
    }

    /** Rejects exactly the responses below the highest epoch offered so far. */
    method Accept(epoch: nat) returns (ok: bool)
      requires Valid()
      modifies this
      ensures Valid() && offered == old(offered) + [epoch]
      ensures ok <==> epoch >= old(seenMax)
      ensures ok <==> epoch >= seed && forall e :: e in old(offered) ==> epoch >= e
      ensures seenMax == if ok then epoch else old(seenMax)
    {
      SeenIsTheMaximum(seed, offered);
      SeenSnoc(seed, offered, epoch);
      ok := epoch >= seenMax;
      if ok {
        seenMax := epoch;
      }
      offered := offered + [epoch];
    }
  }

  lemma {:induction false} SeenSnoc(seenMax: nat, epochs: seq<nat>, e: nat)
    ensures var m := SeenAfter(seenMax, epochs);
      SeenAfter(seenMax, epochs + [e]) == if Accepts(m, e) then e else m
    decreases |epochs|
  {
    if epochs == [] {
      assert epochs + [e] == [e];
    } else {
      assert (epochs + [e])[0] == epochs[0] && (epochs + [e])[1..] == epochs[1..] + [e];
      SeenSnoc(if Accepts(seenMax, epochs[0]) then epochs[0] else seenMax, epochs[1..], e);
    }
  }

  /**
   Fencing end to end: once a worker has been offered the epoch of a lease that deposed
   `c`, every response stamped with the epoch `c` adopted at boot is rejected, whatever
   the coordinators do next and whatever responses the worker sees meanwhile.
   */
  lemma DeposedResponsesAreRejected(s: M.State, steps: seq<M.Step>, c: CoordId, seed: nat,
                                    before: seq<nat>, after: seq<nat>)
    requires M.Reachable(s) && M.Fenced(s, c)
    requires var t := M.Run(s, steps); t.row.Some? && t.row.value.epoch in before
    ensures s.coords[c].adopted.Some?
    ensures !Accepts(SeenAfter(SeenAfter(seed, before), after), s.coords[c].adopted.value)
  {
    M.FencedEpochIsPassed(s, steps, c);
    SeenIsTheMaximum(seed, before);
    SeenIsTheMaximum(SeenAfter(seed, before), after);
  }
}
