/**
 Any number of coordinators over one lease row: boot (`replay_and_serve`), the renew-or-abort
 loop (`spawn_lease_renew_loop`), clock skew and crashes.  A clock sample, a read and a
 transaction are separate steps.
 */
module LeaseMachine {
  import opened Wrappers
  import opened Lease

  datatype Phase =
    | Boot
    | BootSampled(now: nat, ttl: nat)
    | BootDecided(expected: Option<LeaseRecord>, next: LeaseRecord)
    | Serving
    | RenewRead(held: LeaseRecord)
    | RenewDecided(held: LeaseRecord, next: LeaseRecord)
    | Gone

  /** `last`, `lostAt` and `adopted` are the coordinator's history: the record it wrote last,
      when another coordinator replaced it, and the epoch it adopted at boot. */
  datatype Coord = Coord(phase: Phase, last: Option<LeaseRecord>, lostAt: Option<nat>, adopted: Option<nat>)

  /** `time` is true time; every clock reads within `skew` of it.  `written` is history: all
      lease records ever committed. */
  datatype State = State(
    skew: nat,
    time: nat,
    row: Option<LeaseRecord>,
    epochRow: Option<nat>,
    coords: map<CoordId, Coord>,
    written: seq<LeaseRecord>)

  datatype Step =
    | Advance(now: nat)
    | Start(c: CoordId)
    | SampleBoot(c: CoordId, local: nat, ttl: nat)
    | ReadBoot(c: CoordId)
    | CommitBoot(c: CoordId)
    | ReadRenew(c: CoordId)
    | SampleRenew(c: CoordId, local: nat, ttl: nat)
    | CommitRenew(c: CoordId)
    | RenewError(c: CoordId)
    | Stop(c: CoordId)

  function Init(skew: nat): State {
    State(skew, 0, None, None, map[], [])
  }

  predicate ClockReads(s: State, local: nat) {
    local <= s.time + s.skew && s.time <= local + s.skew
  }

  function At(s: State, c: CoordId): Phase {
    if c in s.coords then s.coords[c].phase else Gone
  }

  function Goto(s: State, c: CoordId, p: Phase): State
    requires c in s.coords
  {
    s.(coords := s.coords[c := s.coords[c].(phase := p)])
  }

  /** The coordinator whose record is about to be replaced by another's. */
  function Deposed(coords: map<CoordId, Coord>, row: Option<LeaseRecord>, next: CoordId, time: nat): map<CoordId, Coord> {
    if row.Some? && row.value.holder in coords && row.value.holder != next
    then coords[row.value.holder := coords[row.value.holder].(lostAt := Some(time))]
    else coords
  }

  /** `try_acquire`, the read: decide on a target or exit as the loser. */
  function DoReadBoot(s: State, c: CoordId): State {
    var p := At(s, c);
    if !p.BootSampled? then s
    else
      match AcquireTarget(s.row, c, p.now, p.ttl)
      case None => Goto(s, c, Gone)
      case Some(next) => Goto(s, c, BootDecided(s.row, next))
  }

  function DoCommitBoot(s: State, c: CoordId): State {
    var p := At(s, c);
    if !p.BootDecided? then s
    else if s.row != p.expected then Goto(s, c, Gone)
    else
      s.(row := Some(p.next),
         epochRow := Some(p.next.epoch),
         coords := Deposed(s.coords, s.row, c, s.time)[c := Coord(Serving, Some(p.next), None, Some(p.next.epoch))],
         written := s.written + [p.next])
  }

  /** The renew loop's read: no row is retried later, another holder means abort. */
  function DoReadRenew(s: State, c: CoordId): State {
    if !At(s, c).Serving? || s.row.None? then s
    else if s.row.value.holder != c then Goto(s, c, Gone)
    else Goto(s, c, RenewRead(s.row.value))
  }

  /** A lost renew aborts the process. */
  function DoCommitRenew(s: State, c: CoordId): State {
    var p := At(s, c);
    if !p.RenewDecided? then s
    else if s.row != Some(p.held) then Goto(s, c, Gone)
    else
      s.(row := Some(p.next),
         epochRow := Some(p.next.epoch),
         coords := Deposed(s.coords, s.row, p.next.holder, s.time)
                     [c := s.coords[c].(phase := Serving, last := Some(p.next))],
         written := s.written + [p.next])
  }

  function Apply(s: State, step: Step): State {
    match step
    case Advance(now) => if s.time <= now then s.(time := now) else s
    case Start(c) => if c in s.coords then s else s.(coords := s.coords[c := Coord(Boot, None, None, None)])
    case SampleBoot(c, local, ttl) =>
      if At(s, c).Boot? && ClockReads(s, local) then Goto(s, c, BootSampled(local, ttl)) else s
    case ReadBoot(c) => DoReadBoot(s, c)
    case CommitBoot(c) => DoCommitBoot(s, c)
    case ReadRenew(c) => DoReadRenew(s, c)
    case SampleRenew(c, local, ttl) =>
      if At(s, c).RenewRead? && ClockReads(s, local)
      then Goto(s, c, RenewDecided(At(s, c).held, RenewTarget(At(s, c).held, local, ttl)))
      else s
    case CommitRenew(c) => DoCommitRenew(s, c)
    case RenewError(c) => if At(s, c).RenewRead? || At(s, c).RenewDecided? then Goto(s, c, Serving) else s
    case Stop(c) => if c in s.coords then Goto(s, c, Gone) else s
  }

  function Run(s: State, steps: seq<Step>): State
    decreases |steps|
  {
    if steps == [] then s else Run(Apply(s, steps[0]), steps[1..])
  }

  ghost predicate Reachable(s: State) {
    exists steps :: Run(Init(s.skew), steps) == s
  }

  lemma {:induction false} RunAppend(s: State, a: seq<Step>, b: seq<Step>)
    ensures Run(s, a + b) == Run(Run(s, a), b)
    decreases |a|
  {
    if a == [] {
      assert a + b == b;
    } else {
      assert (a + b)[0] == a[0] && (a + b)[1..] == a[1..] + b;
      RunAppend(Apply(s, a[0]), a[1..], b);
    }
  }

  // ---------------------------------------------------------------- the invariant

  ghost predicate PhaseOk(s: State, c: CoordId, k: Coord) {
    match k.phase
    case Boot => k.last.None?
    case BootSampled(now, _) => k.last.None? && now <= s.time + s.skew
    case BootDecided(expected, next) =>
      && k.last.None?
      && next.holder == c
      && next.epoch == (if expected.Some? then expected.value.epoch + 1 else 0)
      && (expected.Some? ==> expected.value.expiresAtMs < s.time + s.skew)
    case Serving => k.last.Some?
    case RenewRead(held) => k.last.Some? && held.holder == c
    case RenewDecided(held, next) =>
      k.last.Some? && held.holder == c && next.holder == c && next.epoch == held.epoch
    case Gone => true
  }

  /** A coordinator's last record is the row, or was replaced once it had expired by more
      than the skew could hide. */
  ghost predicate LastOk(s: State, c: CoordId, k: Coord) {
    && (k.last.None? ==> k.lostAt.None? && k.adopted.None?)
    && (k.last.Some? ==>
          && k.last.value.holder == c
          && k.adopted == Some(k.last.value.epoch)
          && (k.lostAt.None? ==> s.row == k.last)
          && (k.lostAt.Some? ==>
                && k.lostAt.value <= s.time
                && k.last.value.expiresAtMs < k.lostAt.value + s.skew
                && s.row.Some?
                && s.row.value.holder != c
                && k.last.value.epoch < s.row.value.epoch))
  }

  ghost predicate CoordsOk(s: State) {
    forall c :: c in s.coords ==> PhaseOk(s, c, s.coords[c]) && LastOk(s, c, s.coords[c])
  }

  ghost predicate RowOk(s: State) {
    && s.epochRow == (if s.row.Some? then Some(s.row.value.epoch) else None)
    && (s.row.Some? ==>
          s.row.value.holder in s.coords && s.coords[s.row.value.holder].last == s.row
          && s.coords[s.row.value.holder].lostAt.None?)
  }

  /** Epochs never go down, and a record of the same epoch has the same holder. */
  ghost predicate WrittenOk(s: State) {
    && (s.row.None? <==> s.written == [])
    && (s.row.Some? ==> s.row.value == s.written[|s.written| - 1])
    && (forall i, j :: 0 <= i < j < |s.written| ==>
          && s.written[i].epoch <= s.written[j].epoch
          && (s.written[i].epoch == s.written[j].epoch ==> s.written[i].holder == s.written[j].holder))
  }

  ghost predicate Inv(s: State) {
    CoordsOk(s) && RowOk(s) && WrittenOk(s)
  }

  lemma InvCommitBoot(s: State, c: CoordId)
    requires Inv(s)
    ensures Inv(DoCommitBoot(s, c))
  {
    var t := DoCommitBoot(s, c);
    var p := At(s, c);
    if p.BootDecided? && s.row == p.expected {
      assert PhaseOk(s, c, s.coords[c]) && LastOk(s, c, s.coords[c]);
      forall x | x in t.coords ensures PhaseOk(t, x, t.coords[x]) && LastOk(t, x, t.coords[x]) {
        assert x in s.coords && PhaseOk(s, x, s.coords[x]) && LastOk(s, x, s.coords[x]);
      }
    }
  }

  lemma InvCommitRenew(s: State, c: CoordId)
    requires Inv(s)
    ensures Inv(DoCommitRenew(s, c))
  {
    var t := DoCommitRenew(s, c);
    var p := At(s, c);
    if p.RenewDecided? && s.row == Some(p.held) {
      assert PhaseOk(s, c, s.coords[c]) && LastOk(s, c, s.coords[c]);
      forall x | x in t.coords ensures PhaseOk(t, x, t.coords[x]) && LastOk(t, x, t.coords[x]) {
        assert x in s.coords && PhaseOk(s, x, s.coords[x]) && LastOk(s, x, s.coords[x]);
      }
    }
  }

  /** A coordinator may move on to any phase that is consistent with the state. */
  lemma InvGoto(s: State, c: CoordId, p: Phase)
    requires Inv(s) && c in s.coords && PhaseOk(s, c, s.coords[c].(phase := p))
    ensures Inv(Goto(s, c, p))
  {
    var t := Goto(s, c, p);
    assert LastOk(s, c, s.coords[c]);
    forall x | x in t.coords ensures PhaseOk(t, x, t.coords[x]) && LastOk(t, x, t.coords[x]) {
      assert PhaseOk(s, x, s.coords[x]) && LastOk(s, x, s.coords[x]);
    }
  }

  lemma InvAdvance(s: State, now: nat)
    requires Inv(s) && s.time <= now
    ensures Inv(s.(time := now))
  {
    var t := s.(time := now);
    forall x | x in t.coords ensures PhaseOk(t, x, t.coords[x]) && LastOk(t, x, t.coords[x]) {
      assert PhaseOk(s, x, s.coords[x]) && LastOk(s, x, s.coords[x]);
    }
  }

  lemma InvStart(s: State, c: CoordId)
    requires Inv(s) && c !in s.coords
    ensures Inv(s.(coords := s.coords[c := Coord(Boot, None, None, None)]))
  {
    var t := s.(coords := s.coords[c := Coord(Boot, None, None, None)]);
    forall x | x in t.coords ensures PhaseOk(t, x, t.coords[x]) && LastOk(t, x, t.coords[x]) {
      assert x in s.coords ==> PhaseOk(s, x, s.coords[x]) && LastOk(s, x, s.coords[x]);
    }
  }

  /** Every other step moves one coordinator to a consistent phase or does nothing. */
  lemma OtherMoves(s: State, step: Step)
    requires Inv(s) && !step.CommitBoot? && !step.CommitRenew? && !step.Advance? && !step.Start?
    ensures Apply(s, step) == s ||
      (step.c in s.coords
       && PhaseOk(s, step.c, s.coords[step.c].(phase := At(Apply(s, step), step.c)))
       && Apply(s, step) == Goto(s, step.c, At(Apply(s, step), step.c)))
  {
    if step.c in s.coords {
      assert PhaseOk(s, step.c, s.coords[step.c]);
    }
    match step
    case ReadBoot(c) => assert Apply(s, step) == DoReadBoot(s, c);
    case ReadRenew(c) => assert Apply(s, step) == DoReadRenew(s, c);
    case _ =>
  }

  lemma InvStep(s: State, step: Step)
    requires Inv(s)
    ensures Inv(Apply(s, step)) && Apply(s, step).skew == s.skew
  {
    match step
    case CommitBoot(c) => InvCommitBoot(s, c);
    case CommitRenew(c) => InvCommitRenew(s, c);
    case Advance(now) => if s.time <= now { InvAdvance(s, now); }
    case Start(c) => if c !in s.coords { InvStart(s, c); }
    case _ =>
      OtherMoves(s, step);
      if Apply(s, step) != s {
        InvGoto(s, step.c, At(Apply(s, step), step.c));
      }
  }

  lemma {:induction false} InvRun(s: State, steps: seq<Step>)
    requires Inv(s)
    ensures Inv(Run(s, steps)) && Run(s, steps).skew == s.skew
    decreases |steps|
  {
    if steps != [] {
      InvStep(s, steps[0]);
      InvRun(Apply(s, steps[0]), steps[1..]);
    }
  }

  lemma InvReachable(s: State)
    requires Reachable(s)
    ensures Inv(s)
  {
    var steps :| Run(Init(s.skew), steps) == s;
    InvRun(Init(s.skew), steps);
  }

  // ---------------------------------------------------------------- mutual exclusion

  /** A coordinator whose clock reads `local` finds its last-written lease unexpired. */
  predicate Believes(s: State, c: CoordId, local: nat) {
    && c in s.coords
    && s.coords[c].last.Some?
    && ClockReads(s, local)
    && local <= s.coords[c].last.value.expiresAtMs
  }

  /** A deposed coordinator stops believing within twice the skew of being replaced. */
  lemma DeposedStopsBelieving(s: State, c: CoordId, local: nat)
    requires Reachable(s) && Believes(s, c, local) && s.coords[c].lostAt.Some?
    ensures s.coords[c].lostAt.value <= s.time < s.coords[c].lostAt.value + 2 * s.skew
  {
    InvReachable(s);
    assert LastOk(s, c, s.coords[c]);
  }

  /** Two coordinators believe at once only in the first `2 * skew` after one replaced the other. */
  lemma OverlapIsBounded(s: State, a: CoordId, b: CoordId, localA: nat, localB: nat) returns (loser: CoordId)
    requires Reachable(s) && a != b && Believes(s, a, localA) && Believes(s, b, localB)
    ensures (loser == a || loser == b) && s.coords[loser].lostAt.Some?
    ensures s.coords[loser].lostAt.value <= s.time < s.coords[loser].lostAt.value + 2 * s.skew
  {
    InvReachable(s);
    assert LastOk(s, a, s.coords[a]) && LastOk(s, b, s.coords[b]);
    loser := if s.coords[a].lostAt.Some? then a else b;
    DeposedStopsBelieving(s, loser, if loser == a then localA else localB);
  }

  /** With a shared clock no two coordinators ever hold an unexpired lease. */
  lemma MutualExclusion(s: State, a: CoordId, b: CoordId)
    requires Reachable(s) && s.skew == 0 && a != b
    ensures !(Believes(s, a, s.time) && Believes(s, b, s.time))
  {
    if Believes(s, a, s.time) && Believes(s, b, s.time) {
      var loser := OverlapIsBounded(s, a, b, s.time, s.time);
    }
  }

  // ---------------------------------------------------------------- epochs

  /**
   In every committed state the epoch row is the lease row's epoch; over all leases ever
   written epochs never decrease and no epoch has two holders.
   */
  lemma EpochsAreOrderedAndOwned(s: State, i: nat, j: nat)
    requires Reachable(s) && i <= j < |s.written|
    ensures s.written[i].epoch <= s.written[j].epoch
    ensures s.written[i].epoch == s.written[j].epoch ==> s.written[i].holder == s.written[j].holder
    ensures s.row == Some(s.written[|s.written| - 1]) && s.epochRow == Some(s.row.value.epoch)
  {
    InvReachable(s);
  }

  lemma GuaranteeStep(s: State, step: Step)
    requires Inv(s)
    ensures Guarantee(s.row, Apply(s, step).row)
  {
    match step
    case CommitBoot(c) =>
      assert c in s.coords ==> PhaseOk(s, c, s.coords[c]);
    case CommitRenew(c) =>
      assert c in s.coords ==> PhaseOk(s, c, s.coords[c]);
    case _ =>
  }

  lemma {:induction false} GuaranteeRun(s: State, steps: seq<Step>)
    requires Inv(s)
    ensures Guarantee(s.row, Run(s, steps).row)
    decreases |steps|
  {
    if steps != [] {
      GuaranteeStep(s, steps[0]);
      InvStep(s, steps[0]);
      GuaranteeRun(Apply(s, steps[0]), steps[1..]);
    }
  }

  /** Once an epoch is passed, no renew with a record of that or a lower epoch ever succeeds. */
  lemma PassedEpochNeverRenews(s: State, steps: seq<Step>, held: LeaseRecord)
    requires Reachable(s) && s.row.Some? && held.epoch < s.row.value.epoch
    ensures Run(s, steps).row != Some(held)
  {
    InvReachable(s);
    GuaranteeRun(s, steps);
  }

  // ---------------------------------------------------------------- fencing

  /** The renew loop's test is sound: a row held by `c` carries the epoch `c` adopted at boot. */
  lemma HolderHasItsBootEpoch(s: State, c: CoordId)
    requires Reachable(s) && s.row.Some? && s.row.value.holder == c
    ensures c in s.coords && s.coords[c].adopted == Some(s.row.value.epoch)
  {
    InvReachable(s);
    assert LastOk(s, c, s.coords[c]);
  }

  ghost predicate Fenced(s: State, c: CoordId) {
    c in s.coords && s.coords[c].lostAt.Some?
  }

  lemma FencedStep(s: State, step: Step, c: CoordId)
    requires Inv(s) && Fenced(s, c)
    ensures var t := Apply(s, step);
      && Fenced(t, c)
      && (t.written == s.written || (|t.written| == |s.written| + 1 && t.written[..|s.written|] == s.written
                                     && t.written[|s.written|].holder != c))
  {
    assert PhaseOk(s, c, s.coords[c]) && LastOk(s, c, s.coords[c]);
    match step
    case CommitBoot(x) =>
      if x in s.coords {
        assert PhaseOk(s, x, s.coords[x]) && LastOk(s, x, s.coords[x]);
      }
    case CommitRenew(x) =>
      if x in s.coords {
        assert PhaseOk(s, x, s.coords[x]) && LastOk(s, x, s.coords[x]);
      }
    case _ =>
  }

  /** A deposed coordinator never writes the lease row or the epoch row again. */
  lemma DeposedNeverWrites(s: State, steps: seq<Step>, c: CoordId)
    requires Reachable(s) && Fenced(s, c)
    ensures var t := Run(s, steps);
      && Fenced(t, c)
      && |s.written| <= |t.written|
      && forall i :: |s.written| <= i < |t.written| ==> t.written[i].holder != c
  {
    InvReachable(s);
    FencedRun(s, steps, c);
  }

  lemma {:induction false} FencedRun(s: State, steps: seq<Step>, c: CoordId)
    requires Inv(s) && Fenced(s, c)
    ensures var t := Run(s, steps);
      && Fenced(t, c)
      && |s.written| <= |t.written|
      && forall i :: |s.written| <= i < |t.written| ==> t.written[i].holder != c
    decreases |steps|
  {
    if steps != [] {
      var u := Apply(s, steps[0]);
      FencedStep(s, steps[0], c);
      InvStep(s, steps[0]);
      FencedRun(u, steps[1..], c);
      WrittenGrows(u, steps[1..]);
      var t := Run(s, steps);
      forall i | |s.written| <= i < |t.written| ensures t.written[i].holder != c {
        if i < |u.written| {
          assert t.written[i] == u.written[i];
        }
      }
    }
  }

  lemma {:induction false} WrittenGrows(s: State, steps: seq<Step>)
    ensures var t := Run(s, steps); |s.written| <= |t.written| && t.written[..|s.written|] == s.written
    decreases |steps|
  {
    if steps != [] {
      var u := Apply(s, steps[0]);
      assert |s.written| <= |u.written| && u.written[..|s.written|] == s.written;
      WrittenGrows(u, steps[1..]);
      var t := Run(u, steps[1..]);
      assert t.written[..|s.written|] == t.written[..|u.written|][..|s.written|];
    }
  }

  /** A deposed coordinator's boot epoch is below the epoch of every later lease. */
  lemma FencedEpochIsPassed(s: State, steps: seq<Step>, c: CoordId)
    requires Reachable(s) && Fenced(s, c)
    ensures var t := Run(s, steps);
      s.coords[c].adopted.Some? && t.row.Some? && s.coords[c].adopted.value < t.row.value.epoch
  {
    InvReachable(s);
    assert LastOk(s, c, s.coords[c]);
    GuaranteeRun(s, steps);
  }

  /** Whenever after its replacement a deposed coordinator next reads the row or commits a renewal, it aborts. */
  lemma DeposedLeaves(s: State, steps: seq<Step>, c: CoordId)
    requires Reachable(s) && Fenced(s, c)
    ensures var t := Run(s, steps);
      && (At(t, c).Serving? ==> At(Apply(t, ReadRenew(c)), c).Gone?)
      && (At(t, c).RenewDecided? ==> At(Apply(t, CommitRenew(c)), c).Gone?)
  {
    var t := Run(s, steps);
    InvReachable(s);
    InvRun(s, steps);
    FencedRun(s, steps, c);
    assert PhaseOk(t, c, t.coords[c]) && LastOk(t, c, t.coords[c]);
  }

  // ---------------------------------------------------------------- progress

  lemma RunCons(s: State, steps: seq<Step>, t: State)
    requires steps != [] && Apply(s, steps[0]) == t
    ensures Run(s, steps) == Run(t, steps[1..])
  {
  }

  /**
   A dead coordinator is replaced: a newcomer that finds no lease or one that has expired by its
   own clock, undisturbed, holds the next epoch; one that finds a live lease leaves, and the
   lease stays as it is.
   */
  lemma NewcomerTakesOverExactly(s: State, c: CoordId, local: nat, ttl: nat)
    requires c !in s.coords && ClockReads(s, local)
    ensures var t := Run(s, [Start(c), SampleBoot(c, local, ttl), ReadBoot(c), CommitBoot(c)]);
      if s.row.None? || s.row.value.expiresAtMs < local then
        var epoch := if s.row.None? then 0 else s.row.value.epoch + 1;
        && t.row == Some(LeaseRecord(c, epoch, local + ttl)) && t.epochRow == Some(epoch)
        && At(t, c).Serving? && t.coords[c].adopted == Some(epoch)
      else
        t.row == s.row && t.epochRow == s.epochRow && At(t, c).Gone?
  {
    var steps := [Start(c), SampleBoot(c, local, ttl), ReadBoot(c), CommitBoot(c)];
    var s1 := Apply(s, steps[0]);
    RunCons(s, steps, s1);
    var s2 := Apply(s1, steps[1]);
    RunCons(s1, steps[1..], s2);
    assert At(s2, c) == BootSampled(local, ttl) && s2.row == s.row;
    var s3 := DoReadBoot(s2, c);
    RunCons(s2, steps[2..], s3);
    var s4 := DoCommitBoot(s3, c);
    RunCons(s3, steps[3..], s4);
    assert steps[4..] == [];
  }

  /** A serving holder, undisturbed, renews: same holder and epoch, the new deadline. */
  lemma HolderRenews(s: State, c: CoordId, local: nat, ttl: nat)
    requires At(s, c).Serving? && s.row.Some? && s.row.value.holder == c && ClockReads(s, local)
    ensures var t := Run(s, [ReadRenew(c), SampleRenew(c, local, ttl), CommitRenew(c)]);
      && t.row == Some(LeaseRecord(c, s.row.value.epoch, local + ttl))
      && t.epochRow == Some(s.row.value.epoch) && At(t, c).Serving?
  {
    var steps := [ReadRenew(c), SampleRenew(c, local, ttl), CommitRenew(c)];
    var s1 := DoReadRenew(s, c);
    RunCons(s, steps, s1);
    assert At(s1, c) == RenewRead(s.row.value) && s1.row == s.row;
    var s2 := Apply(s1, steps[1]);
    RunCons(s1, steps[1..], s2);
    var s3 := DoCommitRenew(s2, c);
    RunCons(s2, steps[2..], s3);
    assert steps[3..] == [];
  }
}
