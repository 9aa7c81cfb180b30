/**
 Every interleaving of enqueues, dequeues, acks and nacks on one mirrored queue, with crashes
 and reopenings.  An enqueue draws its id, commits its mirror row and pushes to the deque in
 three steps; any number of enqueues may be under way.  Clients ack and nack only what they
 dequeued.
 */
module QueueMachine {
  import opened Wrappers
  import opened Ordered
  import opened Queue

  type Payload = seq<nat>
  type Entry = Item<Payload>
  type Stored = map<Ulid, Payload>

  /**
   `mirror` is durable; `deque`, `last`, `drafts` (drawn, not committed), `pushing` (committed,
   not pushed) and `held` (dequeued, not acked) die with the process.  An enqueue goes by its
   place in `drawn`.  The rest is history: `live` has the unacked enqueues, those below `base`
   were drawn before the queue was last opened, and `pushed` and `taken` list what went through
   the deque.
   */
  datatype State = State(
    up: bool,
    last: Ulid,
    mirror: Stored,
    deque: seq<Entry>,
    drafts: set<nat>,
    pushing: set<nat>,
    held: set<Ulid>,
    drawn: seq<Entry>,
    base: nat,
    live: set<nat>,
    pushed: seq<Entry>,
    taken: seq<Entry>)

  datatype Step =
    | Draw(payload: Payload, now: nat, random: nat)
    | Commit(n: nat)
    | Push(n: nat)
    | Dequeue
    | Ack(id: Ulid)
    | Nack(id: Ulid)
    | Crash
    | Open

  function Init(): State {
    State(true, 0, map[], [], {}, {}, {}, [], 0, {}, [], [])
  }

  predicate Draws(s: State, step: Step) {
    step.Draw? && s.up && step.random < RANDOM_SPAN && NextUlid(s.last, step.now, step.random).Some?
  }

  function DoDraw(s: State, payload: Payload, now: nat, random: nat): State {
    if Draws(s, Draw(payload, now, random)) then
      var id := NextUlid(s.last, now, random).value;
      s.(last := id, drafts := s.drafts + {|s.drawn|}, drawn := s.drawn + [Item(id, payload)])
    else s
  }

  predicate Drafted(s: State, n: nat) {
    n in s.drafts && n < |s.drawn|
  }

  /** The mirror row commits; a row with the same id is overwritten. */
  function DoCommit(s: State, n: nat): State {
    if Drafted(s, n) then
      s.(mirror := s.mirror[s.drawn[n].id := s.drawn[n].payload], live := s.live + {n},
         drafts := s.drafts - {n}, pushing := s.pushing + {n})
    else s
  }

  function DoPush(s: State, n: nat): State {
    if n in s.pushing && n < |s.drawn| then
      s.(deque := s.deque + [s.drawn[n]], pushed := s.pushed + [s.drawn[n]], pushing := s.pushing - {n})
    else s
  }

  function DoDequeue(s: State): State {
    if s.deque == [] then s
    else s.(deque := s.deque[1..], held := s.held + {s.deque[0].id}, taken := s.taken + [s.deque[0]])
  }

  function DoAck(s: State, id: Ulid): State {
    if id in s.held then
      s.(mirror := s.mirror - {id}, held := s.held - {id},
         live := set n | n in s.live && !(n < |s.drawn| && s.drawn[n].id == id))
    else s
  }

  /** Back to the front, as storage has it; absent from storage it is a fatal error. */
  function DoNack(s: State, id: Ulid): State {
    if id in s.held && id in s.mirror then
      s.(deque := [Item(id, s.mirror[id])] + s.deque, held := s.held - {id})
    else s
  }

  function DoCrash(s: State): State {
    s.(up := false, deque := [], drafts := {}, pushing := {}, held := {})
  }

  function DoOpen(s: State): State {
    if s.up then s else s.(up := true, last := 0, deque := Replay(s.mirror), base := |s.drawn|)
  }

  function Apply(s: State, step: Step): State {
    match step
    case Draw(payload, now, random) => DoDraw(s, payload, now, random)
    case Commit(n) => DoCommit(s, n)
    case Push(n) => DoPush(s, n)
    case Dequeue => DoDequeue(s)
    case Ack(id) => DoAck(s, id)
    case Nack(id) => DoNack(s, id)
    case Crash => DoCrash(s)
    case Open => DoOpen(s)
  }

  function Run(s: State, steps: seq<Step>): State
    decreases |steps|
  {
    if steps == [] then s else Run(Apply(s, steps[0]), steps[1..])
  }

  // ---------- Draws ----------

  /** Ids of one incarnation grow in the order of their draws, up to `last`. */
  ghost predicate Growing(drawn: seq<Entry>, base: nat, last: Ulid) {
    && base <= |drawn|
    && (forall m, n :: base <= m < n < |drawn| ==> drawn[m].id < drawn[n].id)
    && (forall n :: base <= n < |drawn| ==> drawn[n].id <= last)
  }

  ghost predicate Numbered(s: State) {
    && Growing(s.drawn, s.base, s.last)
    && (forall n :: n in s.drafts ==> s.base <= n < |s.drawn| && n !in s.live && n !in s.pushing)
    && (forall n :: n in s.live ==> n < |s.drawn|)
    && (forall n :: n in s.pushing ==> n < |s.drawn|)
    && (!s.up ==> s.drafts == {})
  }

  lemma GrowingMore(drawn: seq<Entry>, base: nat, last: Ulid, e: Entry)
    requires Growing(drawn, base, last) && last < e.id
    ensures Growing(drawn + [e], base, e.id)
  {
  }

  lemma NumberedDraw(s: State, payload: Payload, now: nat, random: nat)
    requires Numbered(s)
    ensures Numbered(DoDraw(s, payload, now, random))
  {
    if Draws(s, Draw(payload, now, random)) {
      var id := NextUlid(s.last, now, random).value;
      NextUlidGrows(s.last, now, random);
      GrowingMore(s.drawn, s.base, s.last, Item(id, payload));
      assert |DoDraw(s, payload, now, random).drawn| == |s.drawn| + 1;
    }
  }

  lemma NumberedOther(s: State, step: Step)
    requires Numbered(s) && !step.Draw? && !step.Open?
    ensures Numbered(Apply(s, step))
  {
  }

  lemma NumberedOpen(s: State)
    requires Numbered(s)
    ensures Numbered(DoOpen(s))
  {
  }

  lemma NumberedStep(s: State, step: Step)
    requires Numbered(s)
    ensures Numbered(Apply(s, step))
  {
    match step
    case Draw(payload, now, random) => NumberedDraw(s, payload, now, random);
    case Open => NumberedOpen(s);
    case _ => NumberedOther(s, step);
  }

  // ---------- What the mirror holds ----------

  function IdsOf(drawn: seq<Entry>, live: set<nat>): set<Ulid> {
    set n | n in live && n < |drawn| :: drawn[n].id
  }

  /** The mirror is exactly the unacked items. */
  ghost predicate Exact(mirror: Stored, drawn: seq<Entry>, live: set<nat>) {
    && (forall m, n :: m in live && n in live && m < n < |drawn| ==> drawn[m].id != drawn[n].id)
    && mirror.Keys == IdsOf(drawn, live)
    && (forall n :: n in live && n < |drawn| ==> drawn[n].id in mirror && mirror[drawn[n].id] == drawn[n].payload)
  }

  predicate Overwrites(s: State, step: Step) {
    step.Commit? && Drafted(s, step.n) && s.drawn[step.n].id in s.mirror
  }

  lemma IdsOfMore(drawn: seq<Entry>, live: set<nat>, n: nat)
    requires n < |drawn|
    ensures IdsOf(drawn, live + {n}) == IdsOf(drawn, live) + {drawn[n].id}
  {
  }

  lemma ExactCommit(mirror: Stored, drawn: seq<Entry>, live: set<nat>, n: nat)
    requires Exact(mirror, drawn, live) && n < |drawn| && n !in live && forall m :: m in live ==> m < |drawn|
    ensures Exact(mirror[drawn[n].id := drawn[n].payload], drawn, live + {n}) <==> drawn[n].id !in mirror
  {
    var id := drawn[n].id;
    IdsOfMore(drawn, live, n);
    if id in mirror {
      assert id in IdsOf(drawn, live);
      var m :| m in live && m < |drawn| && drawn[m].id == id;
      assert m in live + {n} && n in live + {n} && (m < n || n < m);
    } else {
      forall m | m in live ensures drawn[m].id != id {
        assert drawn[m].id in mirror;
      }
    }
  }

  lemma ExactAck(mirror: Stored, drawn: seq<Entry>, live: set<nat>, id: Ulid)
    requires Exact(mirror, drawn, live) && forall m :: m in live ==> m < |drawn|
    ensures Exact(mirror - {id}, drawn, set n | n in live && !(n < |drawn| && drawn[n].id == id))
  {
    var less := set n | n in live && !(n < |drawn| && drawn[n].id == id);
    forall x ensures x in IdsOf(drawn, less) <==> x in IdsOf(drawn, live) && x != id {
      if x in IdsOf(drawn, live) && x != id {
        var m :| m in live && m < |drawn| && drawn[m].id == x;
        assert m in less;
      }
    }
    assert (mirror - {id}).Keys == IdsOf(drawn, less);
  }

  lemma ExactDraw(mirror: Stored, drawn: seq<Entry>, live: set<nat>, e: Entry)
    requires Exact(mirror, drawn, live) && forall m :: m in live ==> m < |drawn|
    ensures Exact(mirror, drawn + [e], live)
  {
    var more := drawn + [e];
    assert forall m :: m in live ==> more[m] == drawn[m];
    assert IdsOf(more, live) == IdsOf(drawn, live);
  }

  lemma ExactStep(s: State, step: Step)
    requires Numbered(s) && Exact(s.mirror, s.drawn, s.live)
    ensures var t := Apply(s, step); Exact(t.mirror, t.drawn, t.live) <==> !Overwrites(s, step)
  {
    match step {
      case Draw(payload, now, random) =>
        if Draws(s, step) {
          ExactDraw(s.mirror, s.drawn, s.live, Item(NextUlid(s.last, now, random).value, payload));
        }
      case Commit(n) =>
        if Drafted(s, n) {
          ExactCommit(s.mirror, s.drawn, s.live, n);
        }
      case Ack(id) =>
        ExactAck(s.mirror, s.drawn, s.live, id);
      case _ =>
    }
  }

  ghost predicate AlwaysExact(s: State, steps: seq<Step>)
    decreases |steps|
  {
    Exact(s.mirror, s.drawn, s.live) && (steps == [] || AlwaysExact(Apply(s, steps[0]), steps[1..]))
  }

  predicate NeverOverwrites(s: State, steps: seq<Step>)
    decreases |steps|
  {
    steps == [] || (!Overwrites(s, steps[0]) && NeverOverwrites(Apply(s, steps[0]), steps[1..]))
  }

  lemma {:induction false} ExactRun(s: State, steps: seq<Step>)
    requires Numbered(s) && Exact(s.mirror, s.drawn, s.live)
    ensures AlwaysExact(s, steps) <==> NeverOverwrites(s, steps)
    decreases |steps|
  {
    if steps != [] {
      NumberedStep(s, steps[0]);
      ExactStep(s, steps[0]);
      if !Overwrites(s, steps[0]) {
        ExactRun(Apply(s, steps[0]), steps[1..]);
      }
    }
  }

  /**
   At every moment of a run the mirror holds exactly the unacked items, if and only if no draw
   ever commits over a stored one.
   */
  lemma MirrorIsUnackedExactly(steps: seq<Step>)
    ensures AlwaysExact(Init(), steps) <==> NeverOverwrites(Init(), steps)
  {
    ExactRun(Init(), steps);
  }

  // ---------- What a crash brings back ----------

  /** Some enqueues, by number. */
  function Listed(drawn: seq<Entry>, ns: seq<nat>): (r: seq<Entry>)
    requires forall n :: n in ns ==> n < |drawn|
    ensures |r| == |ns| && forall i :: 0 <= i < |r| ==> ns[i] in ns && r[i] == drawn[ns[i]]
  {
    assert forall i :: 0 <= i < |ns| ==> ns[i] in ns;
    seq(|ns|, i requires 0 <= i < |ns| => drawn[ns[i]])
  }

  ghost predicate InOrder(drawn: seq<Entry>, live: set<nat>) {
    forall m, n :: m in live && n in live && m < n < |drawn| ==> drawn[m].id < drawn[n].id
  }

  /** A crash now, followed by `open`, brings back the unacked items once each in enqueue order. */
  ghost predicate Replays(s: State)
    requires forall n :: n in s.live ==> n < |s.drawn|
  {
    Replay(s.mirror) == Listed(s.drawn, Sorted(s.live))
  }

  /** Two increasing listings agree exactly if the mirror is exact and ordered. */
  lemma ListingsAgreeExactly(keys: seq<Ulid>, mirror: Stored, ns: seq<nat>, drawn: seq<Entry>, live: set<nat>)
    requires Increasing(keys) && forall k :: k in keys <==> k in mirror
    requires Increasing(ns) && forall n :: n in ns <==> n in live
    requires forall n :: n in live ==> n < |drawn|
    requires forall k :: 0 <= k < |keys| ==> keys[k] in mirror
    ensures ItemsOf(keys, mirror) == Listed(drawn, ns) <==> Exact(mirror, drawn, live) && InOrder(drawn, live)
  {
    if ItemsOf(keys, mirror) == Listed(drawn, ns) {
      AgreeingIsOrdered(keys, mirror, ns, drawn, live);
    }
    if Exact(mirror, drawn, live) && InOrder(drawn, live) {
      OrderedAgrees(keys, mirror, ns, drawn, live);
    }
  }

  lemma OrderedIndices(ns: seq<nat>, i: nat, j: nat)
    requires Increasing(ns) && i < |ns| && j < |ns|
    ensures ns[i] < ns[j] <==> i < j
  {
    if j < i {
      assert ns[j] < ns[i];
    }
  }

  lemma AgreeingIsOrdered(keys: seq<Ulid>, mirror: Stored, ns: seq<nat>, drawn: seq<Entry>, live: set<nat>)
    requires Increasing(keys) && forall k :: k in keys <==> k in mirror
    requires Increasing(ns) && forall n :: n in ns <==> n in live
    requires forall n :: n in live ==> n < |drawn|
    requires forall k :: 0 <= k < |keys| ==> keys[k] in mirror
    requires ItemsOf(keys, mirror) == Listed(drawn, ns)
    ensures Exact(mirror, drawn, live) && InOrder(drawn, live)
  {
    var r := Listed(drawn, ns);
    assert forall i :: 0 <= i < |r| ==> r[i] == Item(keys[i], mirror[keys[i]]);
    forall m, n | m in live && n in live && m < n ensures drawn[m].id < drawn[n].id {
      var i :| 0 <= i < |ns| && ns[i] == m;
      var j :| 0 <= j < |ns| && ns[j] == n;
      OrderedIndices(ns, i, j);
      assert r[i] == drawn[m] && r[j] == drawn[n] && keys[i] < keys[j];
    }
    forall n | n in live ensures drawn[n].id in mirror && mirror[drawn[n].id] == drawn[n].payload {
      var i :| 0 <= i < |ns| && ns[i] == n;
      assert r[i] == drawn[n];
    }
    forall k | k in mirror ensures k in IdsOf(drawn, live) {
      assert k in keys;
      var i :| 0 <= i < |keys| && keys[i] == k;
      assert r[i].id == k && ns[i] in ns && ns[i] in live;
    }
    assert mirror.Keys == IdsOf(drawn, live);
  }

  function IdsIn(r: seq<Entry>): (ids: seq<Ulid>)
    ensures |ids| == |r| && forall i :: 0 <= i < |r| ==> ids[i] == r[i].id
  {
    seq(|r|, i requires 0 <= i < |r| => r[i].id)
  }

  lemma OrderedAgrees(keys: seq<Ulid>, mirror: Stored, ns: seq<nat>, drawn: seq<Entry>, live: set<nat>)
    requires Increasing(keys) && forall k :: k in keys <==> k in mirror
    requires Increasing(ns) && forall n :: n in ns <==> n in live
    requires forall n :: n in live ==> n < |drawn|
    requires forall k :: 0 <= k < |keys| ==> keys[k] in mirror
    requires Exact(mirror, drawn, live) && InOrder(drawn, live)
    ensures ItemsOf(keys, mirror) == Listed(drawn, ns)
  {
    var r := Listed(drawn, ns);
    var ids := IdsIn(r);
    forall i, j | 0 <= i < j < |ids| ensures ids[i] < ids[j] {
      assert ns[i] in ns && ns[j] in ns && ns[i] < ns[j];
    }
    forall k ensures k in ids <==> k in keys {
      if k in ids {
        var i :| 0 <= i < |ids| && ids[i] == k;
        assert ns[i] in ns;
      }
      if k in keys {
        assert k in IdsOf(drawn, live);
        var n :| n in live && n < |drawn| && drawn[n].id == k;
        var i :| 0 <= i < |ns| && ns[i] == n;
        assert ids[i] == k;
      }
    }
    SameListing(ids, keys);
    forall i | 0 <= i < |ns| ensures ItemsOf(keys, mirror)[i] == r[i] {
      assert ns[i] in ns && ids[i] == keys[i];
    }
  }

  lemma SameListing(a: seq<nat>, b: seq<nat>)
    requires Increasing(a) && Increasing(b) && forall k :: k in a <==> k in b
    ensures a == b
  {
    var members := set k | k in a;
    SortedUnique(a, members);
    SortedUnique(b, members);
  }

  lemma ReplaysWhenOrdered(s: State)
    requires forall n :: n in s.live ==> n < |s.drawn|
    ensures Replays(s) <==> Exact(s.mirror, s.drawn, s.live) && InOrder(s.drawn, s.live)
  {
    ListingsAgreeExactly(SortedKeys(s.mirror), s.mirror, Sorted(s.live), s.drawn, s.live);
  }

  /** The committing id is not above some unacked item that was restored by the last open. */
  predicate FallsBehind(s: State, step: Step) {
    step.Commit? && Drafted(s, step.n) &&
    exists m | m in s.live :: m < s.base && m < |s.drawn| && s.drawn[m].id >= s.drawn[step.n].id
  }

  ghost predicate Restorable(s: State) {
    Exact(s.mirror, s.drawn, s.live) && InOrder(s.drawn, s.live)
  }

  lemma InOrderMore(drawn: seq<Entry>, live: set<nat>, base: nat, n: nat)
    requires InOrder(drawn, live) && n < |drawn| && n !in live && forall m :: m in live ==> m < |drawn|
    requires base <= n && forall i, j :: base <= i < j < |drawn| ==> drawn[i].id < drawn[j].id
    ensures InOrder(drawn, live + {n}) <==> forall m :: m in live && m < base ==> drawn[m].id < drawn[n].id
  {
    if InOrder(drawn, live + {n}) {
      forall m | m in live && m < base ensures drawn[m].id < drawn[n].id {
        assert m in live + {n} && n in live + {n};
      }
    }
  }

  lemma OrderedIsFresh(mirror: Stored, drawn: seq<Entry>, live: set<nat>, n: nat)
    requires Exact(mirror, drawn, live) && InOrder(drawn, live + {n}) && n < |drawn| && n !in live
    ensures drawn[n].id !in mirror
  {
    forall m | m in live && m < |drawn| ensures drawn[m].id != drawn[n].id {
      assert m in live + {n} && n in live + {n};
    }
    assert drawn[n].id !in IdsOf(drawn, live);
  }

  lemma OrderCommit(s: State, n: nat)
    requires Numbered(s) && Restorable(s) && Drafted(s, n)
    ensures Restorable(DoCommit(s, n)) <==> !FallsBehind(s, Commit(n))
  {
    ExactCommit(s.mirror, s.drawn, s.live, n);
    InOrderMore(s.drawn, s.live, s.base, n);
    if InOrder(s.drawn, s.live + {n}) {
      OrderedIsFresh(s.mirror, s.drawn, s.live, n);
    }
  }

  lemma OrderStep(s: State, step: Step)
    requires Numbered(s) && Restorable(s)
    ensures Restorable(Apply(s, step)) <==> !FallsBehind(s, step)
  {
    if step.Commit? && Drafted(s, step.n) {
      OrderCommit(s, step.n);
    } else {
      ExactStep(s, step);
    }
  }

  ghost predicate AlwaysReplays(s: State, steps: seq<Step>)
    requires Numbered(s)
    decreases |steps|
  {
    Replays(s) && (steps == [] ||
      (NumberedStep(s, steps[0]); AlwaysReplays(Apply(s, steps[0]), steps[1..])))
  }

  predicate NeverFallsBehind(s: State, steps: seq<Step>)
    decreases |steps|
  {
    steps == [] || (!FallsBehind(s, steps[0]) && NeverFallsBehind(Apply(s, steps[0]), steps[1..]))
  }

  lemma {:induction false} OrderRun(s: State, steps: seq<Step>)
    requires Numbered(s) && Restorable(s)
    ensures AlwaysReplays(s, steps) <==> NeverFallsBehind(s, steps)
    decreases |steps|
  {
    ReplaysWhenOrdered(s);
    if steps != [] {
      var t := Apply(s, steps[0]);
      NumberedStep(s, steps[0]);
      OrderStep(s, steps[0]);
      if Restorable(t) {
        OrderRun(t, steps[1..]);
      } else {
        ReplaysWhenOrdered(t);
      }
    }
  }

  /**
   At every moment of a run, crashes and reopenings included, a crash followed by `open` would
   bring back exactly the unacked items, once each and in enqueue order, if and only if no draw
   after a reopening commits at or below an item that reopening restored and that is still unacked.
   */
  lemma CrashReplaysExactly(steps: seq<Step>)
    ensures AlwaysReplays(Init(), steps) <==> NeverFallsBehind(Init(), steps)
  {
    OrderRun(Init(), steps);
  }

  // ---------- The clock ----------

  /** The first draw of an incarnation comes after the millisecond of every item it restored. */
  predicate ClockHasLeft(s: State, step: Step) {
    Draws(s, step) && |s.drawn| == s.base ==>
      forall m | m in s.live :: m < |s.drawn| ==> MsOf(s.drawn[m].id) < step.now
  }

  predicate ClockAlwaysLeft(s: State, steps: seq<Step>)
    decreases |steps|
  {
    steps == [] || (ClockHasLeft(s, steps[0]) && ClockAlwaysLeft(Apply(s, steps[0]), steps[1..]))
  }

  /** Everything drawn in this incarnation is above every unacked item it restored. */
  ghost predicate AboveRestored(s: State) {
    && (s.up && |s.drawn| == s.base ==> s.last == 0)
    && (forall m, n :: m in s.live && m < s.base <= n < |s.drawn| ==> s.drawn[m].id < s.drawn[n].id)
  }

  lemma DrawAboveRestored(s: State, payload: Payload, now: nat, random: nat, m: nat)
    requires Numbered(s) && AboveRestored(s) && m in s.live && m < s.base
    requires Draws(s, Draw(payload, now, random)) && ClockHasLeft(s, Draw(payload, now, random))
    ensures s.drawn[m].id < NextUlid(s.last, now, random).value
  {
    NextUlidGrows(s.last, now, random);
    if |s.drawn| == s.base {
      assert s.drawn[m].id < (MsOf(s.drawn[m].id) + 1) * RANDOM_SPAN <= now * RANDOM_SPAN;
    } else {
      assert s.drawn[m].id < s.drawn[s.base].id <= s.last;
    }
  }

  lemma AboveRestoredStep(s: State, step: Step)
    requires Numbered(s) && AboveRestored(s) && ClockHasLeft(s, step)
    ensures AboveRestored(Apply(s, step)) && !FallsBehind(s, step)
  {
    match step {
      case Draw(payload, now, random) =>
        if Draws(s, step) {
          forall m | m in s.live && m < s.base ensures s.drawn[m].id < NextUlid(s.last, now, random).value {
            DrawAboveRestored(s, payload, now, random, m);
          }
        }
      case _ =>
    }
  }

  lemma {:induction false} ClockRun(s: State, steps: seq<Step>)
    requires Numbered(s) && AboveRestored(s) && ClockAlwaysLeft(s, steps)
    ensures NeverFallsBehind(s, steps)
    decreases |steps|
  {
    if steps != [] {
      NumberedStep(s, steps[0]);
      AboveRestoredStep(s, steps[0]);
      ClockRun(Apply(s, steps[0]), steps[1..]);
    }
  }

  /** So a clock that leaves the last millisecond across each restart keeps the order, whatever is drawn. */
  lemma LeavingTheMillisecondKeepsOrder(steps: seq<Step>)
    requires ClockAlwaysLeft(Init(), steps)
    ensures AlwaysReplays(Init(), steps)
  {
    ClockRun(Init(), steps);
    CrashReplaysExactly(steps);
  }

  // ---------- At least once ----------

  ghost predicate Waiting(deque: seq<Entry>, id: Ulid) {
    exists k :: 0 <= k < |deque| && deque[k].id == id
  }

  ghost predicate BeingPushed(drawn: seq<Entry>, pushing: set<nat>, id: Ulid) {
    exists n :: n in pushing && n < |drawn| && drawn[n].id == id
  }

  ghost predicate Somewhere(s: State, id: Ulid) {
    Waiting(s.deque, id) || id in s.held || BeingPushed(s.drawn, s.pushing, id)
  }

  /** While the process is up, every stored item is waiting, in a client's hands or about to be pushed. */
  ghost predicate Located(s: State) {
    s.up ==> forall id :: id in s.mirror ==> Somewhere(s, id)
  }

  lemma WaitingAppend(a: seq<Entry>, b: seq<Entry>, id: Ulid)
    ensures Waiting(a + b, id) <==> Waiting(a, id) || Waiting(b, id)
  {
    if Waiting(a, id) {
      var k :| 0 <= k < |a| && a[k].id == id;
      assert (a + b)[k].id == id;
    }
    if Waiting(b, id) {
      var k :| 0 <= k < |b| && b[k].id == id;
      assert (a + b)[|a| + k].id == id;
    }
  }

  lemma WaitingIsFirstOrLater(deque: seq<Entry>, id: Ulid)
    requires Waiting(deque, id)
    ensures deque != [] && (deque[0].id == id || Waiting(deque[1..], id))
  {
    assert deque == deque[..1] + deque[1..];
    WaitingAppend(deque[..1], deque[1..], id);
  }

  lemma WaitingOnce(e: Entry)
    ensures Waiting([e], e.id)
  {
    assert [e][0].id == e.id;
  }

  lemma SomewhereDraw(s: State, step: Step, id: Ulid)
    requires Numbered(s) && Somewhere(s, id) && step.Draw?
    ensures Somewhere(Apply(s, step), id)
  {
    var t := Apply(s, step);
    if BeingPushed(s.drawn, s.pushing, id) {
      var n :| n in s.pushing && n < |s.drawn| && s.drawn[n].id == id;
      assert t.drawn[n].id == id;
    }
  }

  lemma SomewhereCommit(s: State, n: nat, id: Ulid)
    requires Drafted(s, n) && (Somewhere(s, id) || id == s.drawn[n].id)
    ensures Somewhere(DoCommit(s, n), id)
  {
    var t := DoCommit(s, n);
    if BeingPushed(s.drawn, s.pushing, id) {
      var m :| m in s.pushing && m < |s.drawn| && s.drawn[m].id == id;
      assert m in t.pushing;
    } else if id == s.drawn[n].id {
      assert n in t.pushing;
    }
  }

  lemma SomewherePush(s: State, n: nat, id: Ulid)
    requires Somewhere(s, id)
    ensures Somewhere(DoPush(s, n), id)
  {
    var t := DoPush(s, n);
    if n in s.pushing && n < |s.drawn| {
      WaitingAppend(s.deque, [s.drawn[n]], id);
      WaitingOnce(s.drawn[n]);
      if BeingPushed(s.drawn, s.pushing, id) && id != s.drawn[n].id {
        var m :| m in s.pushing && m < |s.drawn| && s.drawn[m].id == id;
        assert m in t.pushing;
      }
    }
  }

  lemma SomewhereDequeue(s: State, id: Ulid)
    requires Somewhere(s, id)
    ensures Somewhere(DoDequeue(s), id)
  {
    if Waiting(s.deque, id) {
      WaitingIsFirstOrLater(s.deque, id);
    }
  }

  lemma SomewhereNack(s: State, i: Ulid, id: Ulid)
    requires Somewhere(s, id)
    ensures Somewhere(DoNack(s, i), id)
  {
    if i in s.held && i in s.mirror {
      var e := Item(i, s.mirror[i]);
      WaitingOnce(e);
      WaitingAppend([e], s.deque, id);
    }
  }

  lemma SomewhereOpen(mirror: Stored, id: Ulid)
    requires id in mirror
    ensures Waiting(Replay(mirror), id)
  {
    ReplayIsExact(mirror);
    var e := Item(id, mirror[id]);
    assert e in Replay(mirror);
    var k :| 0 <= k < |Replay(mirror)| && Replay(mirror)[k] == e;
  }

  lemma LocatedStep(s: State, step: Step)
    requires Numbered(s) && Located(s)
    ensures Located(Apply(s, step))
  {
    var t := Apply(s, step);
    if t.up {
      forall id | id in t.mirror ensures Somewhere(t, id) {
        match step {
          case Draw(_, _, _) => SomewhereDraw(s, step, id);
          case Commit(n) => if Drafted(s, n) { SomewhereCommit(s, n, id); }
          case Push(n) => SomewherePush(s, n, id);
          case Dequeue => SomewhereDequeue(s, id);
          case Ack(_) =>
          case Nack(i) => SomewhereNack(s, i, id);
          case Crash =>
          case Open => if !s.up { SomewhereOpen(s.mirror, id); }
        }
      }
    }
  }

  lemma {:induction false} LocatedRun(s: State, steps: seq<Step>)
    requires Numbered(s) && Located(s)
    ensures Located(Run(s, steps))
    decreases |steps|
  {
    if steps != [] {
      NumberedStep(s, steps[0]);
      LocatedStep(s, steps[0]);
      LocatedRun(Apply(s, steps[0]), steps[1..]);
    }
  }

  /** At least once: after any run a stored item is waiting, in hand or about to be pushed, or the process is down. */
  lemma NoStoredItemIsStranded(steps: seq<Step>, id: Ulid)
    requires var s := Run(Init(), steps); s.up && id in s.mirror
    ensures Somewhere(Run(Init(), steps), id)
  {
    LocatedRun(Init(), steps);
  }

  // ---------- First in, first out ----------

  predicate Calm(steps: seq<Step>) {
    forall k :: 0 <= k < |steps| ==> !steps[k].Nack? && !steps[k].Crash?
  }

  /** Each enqueue ends before the next begins. */
  predicate OneAtATime(s: State, steps: seq<Step>)
    decreases |steps|
  {
    steps == [] ||
    ((steps[0].Draw? ==> s.drafts == {} && s.pushing == {}) && OneAtATime(Apply(s, steps[0]), steps[1..]))
  }

  ghost predicate Flows(s: State) {
    s.up && s.base == 0 && s.taken + s.deque == s.pushed
  }

  /** At most one enqueue is under way, and it is the latest. */
  ghost predicate Single(s: State) {
    && s.drafts <= {|s.drawn| - 1} && s.pushing <= {|s.drawn| - 1}
    && s.pushed == (if s.drafts == {} && s.pushing == {} then s.drawn else s.drawn[..|s.drawn| - 1])
  }

  lemma {:induction false} FlowRun(s: State, steps: seq<Step>)
    requires Numbered(s) && Flows(s) && Calm(steps)
    ensures Flows(Run(s, steps)) && Numbered(Run(s, steps))
    ensures Single(s) && OneAtATime(s, steps) ==> Single(Run(s, steps))
    decreases |steps|
  {
    if steps != [] {
      NumberedStep(s, steps[0]);
      FlowStep(s, steps[0]);
      assert forall k :: 0 <= k < |steps[1..]| ==> steps[1..][k] == steps[k + 1];
      FlowRun(Apply(s, steps[0]), steps[1..]);
    }
  }

  lemma FlowStep(s: State, step: Step)
    requires Numbered(s) && Flows(s) && !step.Nack? && !step.Crash?
    ensures Flows(Apply(s, step))
    ensures Single(s) && (step.Draw? ==> s.drafts == {} && s.pushing == {}) ==> Single(Apply(s, step))
  {
    match step {
      case Push(n) =>
        if n in s.pushing && n < |s.drawn| {
          assert s.taken + (s.deque + [s.drawn[n]]) == s.pushed + [s.drawn[n]];
        }
      case Dequeue =>
        if s.deque != [] {
          assert s.taken + [s.deque[0]] + s.deque[1..] == s.taken + s.deque;
        }
      case _ =>
    }
  }

  /**
   Without nacks or crashes items leave in the order of their pushes; and when enqueues follow
   each other, that is the order of enqueueing, with strictly increasing ids.
   */
  lemma FirstInFirstOut(steps: seq<Step>)
    requires Calm(steps)
    ensures var s := Run(Init(), steps); s.taken + s.deque == s.pushed
    ensures OneAtATime(Init(), steps) ==>
      var s := Run(Init(), steps);
      && s.pushed <= s.drawn
      && forall i, j :: 0 <= i < j < |s.pushed| ==> s.pushed[i].id < s.pushed[j].id
  {
    FlowRun(Init(), steps);
  }

  // ---------- A restart within a millisecond ----------

  /** Item 5.9 is stored; after a restart in the same millisecond the draw falls on `random`. */
  function Restart(p: Payload, q: Payload, random: nat): seq<Step> {
    [Draw(p, 5, 9), Commit(0), Push(0), Crash, Open, Draw(q, 5, random), Commit(1)]
  }

  /** Drawn below the stored item, the new one is replayed before it. */
  lemma RestartReorders(p: Payload, q: Payload)
    ensures var s := Run(Init(), Restart(p, q, 3));
      Replay(s.mirror) == [Item(5 * RANDOM_SPAN + 3, q), Item(5 * RANDOM_SPAN + 9, p)] && s.live == {0, 1}
  {
    RestartRun(p, q, 3);
    TwoReplayed(5 * RANDOM_SPAN + 3, q, 5 * RANDOM_SPAN + 9, p);
  }

  lemma TwoReplayed(a: Ulid, q: Payload, b: Ulid, p: Payload)
    requires a < b
    ensures Replay(map[b := p][a := q]) == [Item(a, q), Item(b, p)]
  {
    var mirror: Stored := map[b := p][a := q];
    SortedUnique([a, b], mirror.Keys);
  }

  /** Drawn on the same value, it replaces it: of two unacked items one is stored. */
  lemma RestartOverwrites(p: Payload, q: Payload)
    ensures var s := Run(Init(), Restart(p, q, 9));
      s.mirror == map[5 * RANDOM_SPAN + 9 := q] && s.live == {0, 1}
  {
    RestartRun(p, q, 9);
  }

  lemma FirstDraw(now: nat, random: nat)
    requires now > 0 && random < RANDOM_SPAN
    ensures NextUlid(0, now, random) == Some(now * RANDOM_SPAN + random)
  {
  }

  lemma RestartRun(p: Payload, q: Payload, random: nat)
    requires random < RANDOM_SPAN
    ensures var s := Run(Init(), Restart(p, q, random));
      s.mirror == map[5 * RANDOM_SPAN + 9 := p][5 * RANDOM_SPAN + random := q] && s.live == {0, 1}
  {
    var steps := Restart(p, q, random);
    FirstDraw(5, 9);
    FirstDraw(5, random);
    var e := Item(5 * RANDOM_SPAN + 9, p);
    var s5 := BeforeRestart(p, e.id, steps);
    AfterRestart(s5, e, q, 5 * RANDOM_SPAN + random, steps[5..], random);
  }

  lemma BeforeRestart(p: Payload, id: Ulid, steps: seq<Step>) returns (s: State)
    requires NextUlid(0, 5, 9) == Some(id) && |steps| >= 5
    requires steps[..5] == [Draw(p, 5, 9), Commit(0), Push(0), Crash, Open]
    ensures Run(Init(), steps) == Run(s, steps[5..])
    ensures s.up && s.last == 0 && s.mirror == map[id := p] && s.live == {0} && s.drafts == {} && s.drawn == [Item(id, p)]
  {
    var e := Item(id, p);
    assert forall i :: 0 <= i < 5 ==> steps[i] == steps[..5][i];
    var s1 := Init().(last := id, drafts := {0}, drawn := [e]);
    RunCons(Init(), steps, s1);
    var s2 := s1.(mirror := map[id := p], live := {0}, drafts := {}, pushing := {0});
    RunCons(s1, steps[1..], s2);
    var s3 := s2.(deque := [e], pushed := [e], pushing := {});
    RunCons(s2, steps[2..], s3);
    var s4 := s3.(up := false, deque := []);
    RunCons(s3, steps[3..], s4);
    s := Apply(s4, Open);
    RunCons(s4, steps[4..], s);
  }

  lemma AfterRestart(s: State, e: Entry, q: Payload, id: Ulid, steps: seq<Step>, random: nat)
    requires s.up && s.last == 0 && s.mirror == map[e.id := e.payload] && s.live == {0} && s.drafts == {} && s.drawn == [e]
    requires random < RANDOM_SPAN && NextUlid(0, 5, random) == Some(id) && steps == [Draw(q, 5, random), Commit(1)]
    ensures var t := Run(s, steps); t.mirror == map[e.id := e.payload][id := q] && t.live == {0, 1}
  {
    var s1 := s.(last := id, drafts := {1}, drawn := [e, Item(id, q)]);
    RunCons(s, steps, s1);
    var s2 := Apply(s1, Commit(1));
    RunCons(s1, steps[1..], s2);
    assert steps[1..][1..] == [];
  }

  lemma RunCons(s: State, steps: seq<Step>, t: State)
    requires steps != [] && Apply(s, steps[0]) == t
    ensures Run(s, steps) == Run(t, steps[1..])
  {
  }

  // ---------- The queue's methods are these steps ----------

  /** A queue between operations. */
  ghost predicate Mirrors(q: InMemQueue<Payload>, s: State)
    reads q
  {
    s.up && q.deque == s.deque && q.mirror == s.mirror && q.last == s.last && s.drafts == {} && s.pushing == {}
  }

  method Reopen(stored: Stored, ghost s: State) returns (q: InMemQueue<Payload>)
    requires !s.up && s.mirror == stored && s.drafts == {} && s.pushing == {}
    ensures fresh(q) && q.Valid() && Mirrors(q, Apply(s, Open))
  {
    q := new InMemQueue.Open(stored);
  }

  method EnqueueOn(q: InMemQueue<Payload>, ghost s: State, payload: Payload, now: nat, random: nat) returns (r: Option<Ulid>)
    requires Mirrors(q, s) && random < RANDOM_SPAN
    modifies q
    ensures r.Some? <==> Draws(s, Draw(payload, now, random))
    ensures Mirrors(q, Apply(Apply(Apply(s, Draw(payload, now, random)), Commit(|s.drawn|)), Push(|s.drawn|)))
  {
    r := q.Enqueue(payload, now, random);
    ghost var t := Apply(s, Draw(payload, now, random));
    if r.Some? {
      assert t.drawn[|s.drawn|] == Item(r.value, payload);
    }
  }

  method DequeueOn(q: InMemQueue<Payload>, ghost s: State) returns (r: Option<Entry>)
    requires Mirrors(q, s) && q.Valid()
    modifies q
    ensures q.Valid() && Mirrors(q, Apply(s, Dequeue))
    ensures r == if s.deque == [] then None else Some(s.deque[0])
  {
    r := q.Dequeue();
  }

  method AckOn(q: InMemQueue<Payload>, ghost s: State, id: Ulid)
    requires Mirrors(q, s) && q.Valid() && id in s.held && (id in q.mirror ==> q.InFlight(id))
    modifies q
    ensures q.Valid() && Mirrors(q, Apply(s, Ack(id)))
  {
    q.Ack(id);
  }

  method NackOn(q: InMemQueue<Payload>, ghost s: State, id: Ulid) returns (ok: bool)
    requires Mirrors(q, s) && q.Valid() && id in s.held && (id in q.mirror ==> q.InFlight(id))
    modifies q
    ensures q.Valid() && Mirrors(q, Apply(s, Nack(id)))
  {
    ok := q.Nack(id);
  }
}
