/** Retention pruning of snapshots (`crates/rollout-snapshots/src/policy.rs`). */
module Prune {
  import opened Wrappers
  import opened Ordered

  /** `tag` is the label.  Times are signed: a creation time may lie after the pruning clock. */
  datatype Snapshot = Snapshot(createdAt: int, tag: Option<string>)

  datatype Retention = Retention(keepLast: nat, keepLabeled: bool, maxAge: Option<nat>)

  /** Snapshots by storage key. */
  type Snapshots = map<nat, Snapshot>

  const U32_MAX: nat := 0xFFFF_FFFF

  /** Newest first; a stable sort leaves equal times in the order of the scan, that is, by key. */
  predicate Newer(snaps: Snapshots, a: nat, b: nat)
    requires a in snaps && b in snaps
  {
    snaps[a].createdAt > snaps[b].createdAt || (snaps[a].createdAt == snaps[b].createdAt && a < b)
  }

  /** The snapshots newer than `k`. */
  function NewerThan(snaps: Snapshots, k: nat): set<nat>
    requires k in snaps
  {
    set x | x in snaps && Newer(snaps, x, k)
  }

  predicate Recent(snaps: Snapshots, keepLast: nat, k: nat)
    requires k in snaps
  {
    |NewerThan(snaps, k)| < keepLast
  }

  /** An age before zero counts as zero. */
  function Age(now: int, createdAt: int): nat {
    if now < createdAt then 0 else now - createdAt
  }

  predicate Excused(snap: Snapshot, policy: Retention, now: int) {
    || (policy.keepLabeled && snap.tag.Some?)
    || (policy.maxAge.Some? && Age(now, snap.createdAt) < policy.maxAge.value)
  }

  predicate Kept(snaps: Snapshots, policy: Retention, now: int, k: nat)
    requires k in snaps
  {
    Recent(snaps, policy.keepLast, k) || Excused(snaps[k], policy, now)
  }

  function Pruned(snaps: Snapshots, policy: Retention, now: int): Snapshots {
    map k | k in snaps && Kept(snaps, policy, now, k) :: snaps[k]
  }

  // ---------- The order ----------

  predicate NewestFirst(snaps: Snapshots, r: seq<nat>) {
    && (forall k :: k in r ==> k in snaps)
    && (forall i, j :: 0 <= i < j < |r| ==> Newer(snaps, r[i], r[j]))
  }

  lemma NewestFirstCons(snaps: Snapshots, k: nat, r: seq<nat>)
    requires NewestFirst(snaps, r) && k in snaps && forall x :: x in r ==> Newer(snaps, k, x)
    ensures NewestFirst(snaps, [k] + r)
  {
    var s := [k] + r;
    forall i, j | 0 <= i < j < |s| ensures Newer(snaps, s[i], s[j]) {
      assert s[j] == r[j - 1] && r[j - 1] in r;
      if i > 0 {
        assert s[i] == r[i - 1];
      }
    }
  }

  /** `k` put in its place. */
  function Insert(snaps: Snapshots, r: seq<nat>, k: nat): (s: seq<nat>)
    requires NewestFirst(snaps, r) && k in snaps && k !in r
    ensures forall x :: x in s <==> x in r || x == k
    ensures |s| == |r| + 1 && NewestFirst(snaps, s)
  {
    if r == [] then [k]
    else
      assert forall x :: x in r <==> x == r[0] || x in r[1..];
      assert forall x :: x in r[1..] ==> Newer(snaps, r[0], x);
      if Newer(snaps, k, r[0]) then
        NewestFirstCons(snaps, k, r);
        [k] + r
      else
        NewestFirstCons(snaps, r[0], Insert(snaps, r[1..], k));
        [r[0]] + Insert(snaps, r[1..], k)
  }

  /** `sort_by` on the scanned rows. */
  function SortNewestFirst(snaps: Snapshots, scan: seq<nat>): (r: seq<nat>)
    requires Increasing(scan) && forall k :: k in scan ==> k in snaps
    ensures |r| == |scan| && NewestFirst(snaps, r)
    ensures forall i, j :: 0 <= i < j < |r| ==>
      && r[i] in snaps && r[j] in snaps && snaps[r[i]].createdAt >= snaps[r[j]].createdAt
      && (snaps[r[i]].createdAt == snaps[r[j]].createdAt ==> r[i] < r[j])
    ensures forall x :: x in r <==> x in scan
    decreases |scan|
  {
    if scan == [] then []
    else
      var rest := scan[1..];
      assert scan == [scan[0]] + rest && scan[0] !in rest;
      Insert(snaps, SortNewestFirst(snaps, rest), scan[0])
  }

  function Members(s: seq<nat>): set<nat> {
    set x | x in s
  }

  lemma {:induction false} DistinctSize(s: seq<nat>)
    requires forall i, j :: 0 <= i < j < |s| ==> s[i] != s[j]
    ensures |Members(s)| == |s|
    decreases |s|
  {
    if s == [] {
      assert Members(s) == {};
    } else {
      var last := |s| - 1;
      DistinctSize(s[..last]);
      assert s == s[..last] + [s[last]] && s[last] !in s[..last];
      assert Members(s) == Members(s[..last]) + {s[last]};
    }
  }

  lemma OrderIsPosition(snaps: Snapshots, r: seq<nat>, i: nat, j: nat)
    requires NewestFirst(snaps, r) && i < |r| && j < |r|
    ensures r[i] in snaps && r[j] in snaps && (Newer(snaps, r[i], r[j]) <==> i < j)
  {
    assert r[i] in r && r[j] in r;
    if j < i {
      assert Newer(snaps, r[j], r[i]);
    }
  }

  /** A position in the sorted rows is the number of newer snapshots. */
  lemma PositionIsRank(snaps: Snapshots, r: seq<nat>, i: nat)
    requires NewestFirst(snaps, r) && (forall k :: k in snaps ==> k in r) && i < |r|
    ensures r[i] in snaps && |NewerThan(snaps, r[i])| == i
  {
    assert r[i] in r;
    var before := r[..i];
    forall x ensures x in NewerThan(snaps, r[i]) <==> x in before {
      if x in before {
        var j :| 0 <= j < i && r[j] == x;
        assert x in r && Newer(snaps, r[j], r[i]);
      }
      if x in NewerThan(snaps, r[i]) {
        var j :| 0 <= j < |r| && r[j] == x;
        OrderIsPosition(snaps, r, j, i);
        assert before[j] == x;
      }
    }
    assert NewerThan(snaps, r[i]) == Members(before);
    DistinctSize(before);
  }

  // ---------- The order in creation times alone ----------

  /** The others created no earlier than `k`. */
  function NoOlder(snaps: Snapshots, k: nat): set<nat>
    requires k in snaps
  {
    set x | x in snaps && x != k && snaps[x].createdAt >= snaps[k].createdAt
  }

  function CreatedLater(snaps: Snapshots, k: nat): set<nat>
    requires k in snaps
  {
    set x | x in snaps && snaps[x].createdAt > snaps[k].createdAt
  }

  /** The rank lies between the two counts, whatever the order among equal times. */
  lemma RankIsBetween(snaps: Snapshots, k: nat)
    requires k in snaps
    ensures |CreatedLater(snaps, k)| <= |NewerThan(snaps, k)| <= |NoOlder(snaps, k)|
  {
    SubsetSize(CreatedLater(snaps, k), NewerThan(snaps, k));
    SubsetSize(NewerThan(snaps, k), NoOlder(snaps, k));
  }

  /** Who is kept, spelled out; an age below zero counts as zero. */
  lemma KeptSpelledOut(snaps: Snapshots, policy: Retention, now: int, k: nat)
    requires k in snaps
    ensures !Kept(snaps, policy, now, k) ==>
      && |NoOlder(snaps, k)| >= policy.keepLast
      && (policy.keepLabeled ==> snaps[k].tag.None?)
      && (policy.maxAge.Some? ==> policy.maxAge.value == 0 || now - snaps[k].createdAt >= policy.maxAge.value)
    ensures Kept(snaps, policy, now, k) ==>
      || (policy.keepLabeled && snaps[k].tag.Some?)
      || (policy.maxAge.Some? && now - snaps[k].createdAt < policy.maxAge.value && policy.maxAge.value > 0)
      || |CreatedLater(snaps, k)| < policy.keepLast
  {
    RankIsBetween(snaps, k);
  }

  // ---------- The prune ----------

  /** Stored rows; `None` is a row that does not decode. */
  class SnapshotStore {
    var rows: Rows

    constructor ()
      ensures rows == map[]
    {
      rows := map[];
    }

    /** Stored keys, in increasing order. */
    method ScanKeys() returns (scan: seq<nat>)
      ensures Increasing(scan) && forall k :: k in scan <==> k in rows
    {
      scan := Sorted(rows.Keys);
    }

    /** Every row decoded, or nothing. */
    method Decode() returns (r: Option<Snapshots>)
      ensures r.None? <==> exists k :: k in rows && rows[k].None?
      ensures r.Some? ==> rows == Encoded(r.value)
    {
      var scan := ScanKeys();
      var stored := rows;
      var snaps: Snapshots := map[];
      for i := 0 to |scan|
        invariant forall k :: k in scan[..i] <==> k in snaps
        invariant forall k :: k in snaps ==> k in stored && stored[k] == Some(snaps[k])
      {
        var k := scan[i];
        assert k in scan && scan[..i + 1] == scan[..i] + [k];
        if stored[k].None? {
          return None;
        }
        snaps := snaps[k := stored[k].value];
      }
      assert scan[..|scan|] == scan;
      r := Some(snaps);
    }

    /**
     A row that does not decode stops the prune before anything is deleted.  Otherwise a deleted
     snapshot is neither labelled nor young and at least `keepLast` others are no older, and a
     surviving one that is neither has fewer than `keepLast` created later.
     */
    method ApplyPrune(policy: Retention, now: int) returns (deleted: Option<nat>, ghost before: Snapshots)
      requires policy.keepLast <= U32_MAX
      modifies this
      ensures deleted.None? <==> exists k :: k in old(rows) && old(rows)[k].None?
      ensures deleted.None? ==> rows == old(rows)
      ensures deleted.Some? ==>
        && old(rows) == Encoded(before)
        && rows == Encoded(Pruned(before, policy, now))
        && deleted.value == |old(rows)| - |rows|
      ensures deleted.Some? ==>
        && before.Keys == old(rows).Keys && (forall k :: k in before ==> old(rows)[k] == Some(before[k]))
        && (forall k :: k in rows ==> k in before && rows[k] == Some(before[k]))
        && (forall k :: k in before && k !in rows ==>
              |NoOlder(before, k)| >= policy.keepLast)
        && (forall k :: k in rows ==>
              || (policy.keepLabeled && before[k].tag.Some?)
              || (policy.maxAge.Some? && now - before[k].createdAt < policy.maxAge.value && policy.maxAge.value > 0)
              || |CreatedLater(before, k)| < policy.keepLast)
        && (forall k :: k in before && k !in rows ==>
              && (policy.keepLabeled ==> before[k].tag.None?)
              && (policy.maxAge.Some? ==> policy.maxAge.value == 0 || now - before[k].createdAt >= policy.maxAge.value))
    {
      before := map[];
      var decoded := Decode();
      if decoded.None? {
        return None, before;
      }
      var snaps := decoded.value;
      before := snaps;
      assert snaps.Keys == rows.Keys;
      var scan := ScanKeys();
      var order := SortNewestFirst(snaps, scan);
      var count := DeleteOld(snaps, order, policy, now);
      AllGone(snaps, policy, now, order);
      deleted := Some(count);
      forall k | k in snaps {
        KeptSpelledOut(snaps, policy, now, k);
      }
    }

    /** One transaction for each row to go. */
    method DeleteOld(snaps: Snapshots, order: seq<nat>, policy: Retention, now: int) returns (deleted: nat)
      requires policy.keepLast <= U32_MAX
      requires NewestFirst(snaps, order) && forall k :: k in order <==> k in snaps
      modifies this
      ensures rows == old(rows) - Gone(snaps, policy, now, order)
      ensures deleted == |Gone(snaps, policy, now, order)|
    {
      deleted := 0;
      ghost var before := rows;
      NothingGone(before, snaps, policy, now);
      for idx := 0 to |order|
        invariant Deleting(before, rows, snaps, policy, now, order[..idx], deleted)
      {
        var k := order[idx];
        assert order[..idx + 1] == order[..idx] + [k];
        SparedIsKept(snaps, order, idx, policy, now);
        DeleteNext(before, rows, snaps, policy, now, order[..idx], k, deleted);
        if !Spared(snaps[k], idx, policy, now) {
          rows := rows - {k};
          deleted := deleted + 1;
        }
      }
      assert order[..|order|] == order;
    }
  }

  type Rows = map<nat, Option<Snapshot>>

  /** The loop has dealt with `ks`. */
  predicate Deleting(before: Rows, rows: Rows, snaps: Snapshots, policy: Retention, now: int, ks: seq<nat>, deleted: nat) {
    rows == before - Gone(snaps, policy, now, ks) && deleted == |Gone(snaps, policy, now, ks)|
  }

  lemma NothingGone(rows: Rows, snaps: Snapshots, policy: Retention, now: int)
    ensures Deleting(rows, rows, snaps, policy, now, [], 0)
  {
    assert Gone(snaps, policy, now, []) == {};
    assert rows - {} == rows;
  }

  lemma DeleteNext(before: Rows, rows: Rows, snaps: Snapshots, policy: Retention, now: int, ks: seq<nat>, k: nat, deleted: nat)
    requires Deleting(before, rows, snaps, policy, now, ks, deleted) && k in snaps && k !in ks
    ensures if Kept(snaps, policy, now, k)
      then Deleting(before, rows, snaps, policy, now, ks + [k], deleted)
      else Deleting(before, rows - {k}, snaps, policy, now, ks + [k], deleted + 1)
  {
    var gone := Gone(snaps, policy, now, ks);
    GoneSnoc(snaps, policy, now, ks, k);
    assert before - gone - {k} == before - (gone + {k});
    assert gone + {} == gone;
  }

  /** The three tests of the loop body; an index past 32 bits is clamped, which spares nobody. */
  predicate Spared(snap: Snapshot, idx: nat, policy: Retention, now: int)
    requires policy.keepLast <= U32_MAX
    ensures Spared(snap, idx, policy, now) <==> idx < policy.keepLast || Excused(snap, policy, now)
  {
    || (if idx <= U32_MAX then idx else U32_MAX) < policy.keepLast
    || (policy.keepLabeled && snap.tag.Some?)
    || match policy.maxAge
       case Some(maxAge) => Age(now, snap.createdAt) < maxAge
       case None => false
  }

  lemma SparedIsKept(snaps: Snapshots, order: seq<nat>, idx: nat, policy: Retention, now: int)
    requires policy.keepLast <= U32_MAX && idx < |order|
    requires NewestFirst(snaps, order) && forall k :: k in order <==> k in snaps
    ensures var k := order[idx];
      k in snaps && k !in order[..idx] && (Spared(snaps[k], idx, policy, now) <==> Kept(snaps, policy, now, k))
  {
    PositionIsRank(snaps, order, idx);
  }

  function Encoded(snaps: Snapshots): map<nat, Option<Snapshot>> {
    map k | k in snaps :: Some(snaps[k])
  }

  /** The victims among the first rows of the order. */
  function Gone(snaps: Snapshots, policy: Retention, now: int, ks: seq<nat>): set<nat> {
    set k | k in ks && k in snaps && !Kept(snaps, policy, now, k)
  }

  lemma GoneSnoc(snaps: Snapshots, policy: Retention, now: int, ks: seq<nat>, k: nat)
    requires k in snaps && k !in ks
    ensures Gone(snaps, policy, now, ks + [k])
      == Gone(snaps, policy, now, ks) + if Kept(snaps, policy, now, k) then {} else {k}
    ensures k !in Gone(snaps, policy, now, ks)
  {
    assert forall x :: x in ks + [k] <==> x in ks || x == k;
  }

  lemma AllGone(snaps: Snapshots, policy: Retention, now: int, order: seq<nat>)
    requires forall k :: k in order <==> k in snaps
    ensures var gone := Gone(snaps, policy, now, order);
      && Encoded(snaps) - gone == Encoded(Pruned(snaps, policy, now))
      && |gone| == |Encoded(snaps)| - |Encoded(Pruned(snaps, policy, now))|
  {
    var gone := Gone(snaps, policy, now, order);
    var all, left := Encoded(snaps), Encoded(Pruned(snaps, policy, now));
    assert left == all - gone;
    assert left.Keys == all.Keys - gone && gone <= all.Keys;
    assert |left.Keys| == |left| && |all.Keys| == |all|;
  }

  // ---------- Laws ----------

  /** Exactly the newest `keepLast`, or all when there are fewer, are kept as recent. */
  lemma RecentAreCounted(snaps: Snapshots, keepLast: nat)
    ensures |set k | k in snaps && Recent(snaps, keepLast, k)| == if |snaps| < keepLast then |snaps| else keepLast
  {
    var order := SortNewestFirst(snaps, Sorted(snaps.Keys));
    assert |snaps.Keys| == |snaps|;
    RecentAreFirst(snaps, keepLast, order);
  }

  lemma RecentAreFirst(snaps: Snapshots, keepLast: nat, order: seq<nat>)
    requires NewestFirst(snaps, order) && forall k :: k in order <==> k in snaps
    ensures |set k | k in snaps && Recent(snaps, keepLast, k)| == if |order| < keepLast then |order| else keepLast
  {
    var n := if |order| < keepLast then |order| else keepLast;
    var recent := set k | k in snaps && Recent(snaps, keepLast, k);
    forall k ensures k in recent <==> k in order[..n] {
      if k in order[..n] {
        var i :| 0 <= i < n && order[i] == k;
        PositionIsRank(snaps, order, i);
      }
      if k in recent {
        assert k in order;
        var i :| 0 <= i < |order| && order[i] == k;
        PositionIsRank(snaps, order, i);
        assert order[..n][i] == k;
      }
    }
    assert recent == Members(order[..n]);
    DistinctSize(order[..n]);
  }

  /** Nothing newer than a recent snapshot is ever pruned. */
  lemma NewerIsRecent(snaps: Snapshots, keepLast: nat, a: nat, b: nat)
    requires a in snaps && b in snaps && Newer(snaps, a, b) && Recent(snaps, keepLast, b)
    ensures Recent(snaps, keepLast, a)
  {
    assert NewerThan(snaps, a) <= NewerThan(snaps, b);
    SubsetSize(NewerThan(snaps, a), NewerThan(snaps, b));
  }

  lemma SubsetSize(a: set<nat>, b: set<nat>)
    requires a <= b
    ensures |a| <= |b|
  {
    assert b == a + (b - a);
  }

  /** A prune does not change who is recent among the survivors. */
  lemma RecentSurvives(snaps: Snapshots, policy: Retention, now: int, k: nat)
    requires k in Pruned(snaps, policy, now)
    ensures Recent(Pruned(snaps, policy, now), policy.keepLast, k) <==> Recent(snaps, policy.keepLast, k)
  {
    var left := Pruned(snaps, policy, now);
    assert NewerThan(left, k) <= NewerThan(snaps, k);
    SubsetSize(NewerThan(left, k), NewerThan(snaps, k));
    if !Recent(snaps, policy.keepLast, k) {
      var recent := set x | x in snaps && Recent(snaps, policy.keepLast, x);
      RecentAreCounted(snaps, policy.keepLast);
      SubsetSize(NewerThan(snaps, k), snaps.Keys);
      forall x | x in recent ensures x in NewerThan(left, k) {
        if !Newer(snaps, x, k) {
          assert x != k && Newer(snaps, k, x);
          NewerIsRecent(snaps, policy.keepLast, k, x);
        }
      }
      SubsetSize(recent, NewerThan(left, k));
      assert |snaps.Keys| == |snaps|;
    }
  }

  /**
   An earlier prune is absorbed by a later one under the same policy: together they leave what
   the later one alone leaves.  At the same instant, the second prune deletes nothing.
   */
  lemma EarlierPruneIsAbsorbed(snaps: Snapshots, policy: Retention, earlier: int, later: int)
    requires earlier <= later
    ensures Pruned(Pruned(snaps, policy, earlier), policy, later) == Pruned(snaps, policy, later)
  {
    var first := Pruned(snaps, policy, earlier);
    forall k | k in snaps ensures k in Pruned(first, policy, later) <==> k in Pruned(snaps, policy, later) {
      if k in first {
        RecentSurvives(snaps, policy, earlier, k);
      }
    }
  }

  /** From the same rows, a later prune only ever deletes more. */
  lemma LaterDeletesMore(snaps: Snapshots, policy: Retention, earlier: int, later: int)
    requires earlier <= later
    ensures Pruned(snaps, policy, later).Keys <= Pruned(snaps, policy, earlier).Keys
  {
  }
}
