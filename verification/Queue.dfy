/**
 `InMemQueue`: a deque mirrored into storage for restart replay
 (`crates/rollout-cloud-local/src/queue.rs`).
 */
module Queue {
  import opened Wrappers
  import opened Ordered

  /** A ULID: 48 bits of milliseconds above 80 random bits. */
  type Ulid = nat

  const RANDOM_SPAN: nat := 0x1_0000_0000_0000_0000_0000

  function MsOf(id: Ulid): nat {
    id / RANDOM_SPAN
  }

  /**
   The monotonic generator of one queue incarnation.  Within a millisecond, or when the
   clock goes back, it increments; it fails when the random part is used up.  A fresh
   generator starts from 0 and knows nothing of the ids already stored.
   */
  function NextUlid(last: Ulid, nowMs: nat, random: nat): Option<Ulid>
    requires random < RANDOM_SPAN
  {
    if nowMs <= MsOf(last) then
      if last % RANDOM_SPAN == RANDOM_SPAN - 1 then None else Some(last + 1)
    else Some(nowMs * RANDOM_SPAN + random)
  }

  /** Ids of one incarnation only grow, whatever the clock does. */
  lemma NextUlidGrows(last: Ulid, nowMs: nat, random: nat)
    requires random < RANDOM_SPAN && NextUlid(last, nowMs, random).Some?
    ensures NextUlid(last, nowMs, random).value > last
  {
    if nowMs > MsOf(last) {
      assert nowMs * RANDOM_SPAN >= (MsOf(last) + 1) * RANDOM_SPAN;
    }
  }

  datatype Item<T> = Item(id: Ulid, payload: T)

  function ItemsOf<T>(ids: seq<Ulid>, mirror: map<Ulid, T>): (r: seq<Item<T>>)
    requires forall k :: 0 <= k < |ids| ==> ids[k] in mirror
    ensures |r| == |ids|
    ensures forall k :: 0 <= k < |r| ==> r[k] == Item(ids[k], mirror[ids[k]])
  {
    seq(|ids|, k requires 0 <= k < |ids| => Item(ids[k], mirror[ids[k]]))
  }

  /** What `open` puts into the deque: the stored items sorted by ULID. */
  function Replay<T>(mirror: map<Ulid, T>): seq<Item<T>> {
    ItemsOf(Sorted(mirror.Keys), mirror)
  }

  /** A replay yields every stored item exactly once, in increasing id order, and nothing else. */
  lemma ReplayIsExact<T>(mirror: map<Ulid, T>)
    ensures |Replay(mirror)| == |mirror|
    ensures forall it: Item<T> :: it in Replay(mirror) <==> it.id in mirror && mirror[it.id] == it.payload
    ensures forall i, j :: 0 <= i < j < |Replay(mirror)| ==> Replay(mirror)[i].id < Replay(mirror)[j].id
  {
    var ids := Sorted(mirror.Keys);
    assert |mirror| == |mirror.Keys|;
    forall it: Item<T> | it.id in mirror && mirror[it.id] == it.payload ensures it in Replay(mirror) {
      assert it.id in ids;
      var k :| 0 <= k < |ids| && ids[k] == it.id;
      assert Replay(mirror)[k] == it;
    }
  }

  /** Two listings agree up to a last item exactly if their ids do. */
  lemma ListingsAgree<T>(a: seq<Ulid>, b: seq<Ulid>, mirror: map<Ulid, T>, id: Ulid, payload: T)
    requires id !in mirror && (forall k :: 0 <= k < |a| ==> a[k] in mirror)
    requires forall k :: 0 <= k < |b| ==> b[k] in mirror[id := payload]
    ensures ItemsOf(b, mirror[id := payload]) == ItemsOf(a, mirror) + [Item(id, payload)] <==> b == a + [id]
  {
    var x, y := ItemsOf(b, mirror[id := payload]), ItemsOf(a, mirror) + [Item(id, payload)];
    if x == y {
      assert |b| == |a| + 1;
      forall k | 0 <= k < |b| ensures b[k] == (a + [id])[k] {
        assert b[k] == x[k].id == y[k].id;
      }
    }
  }

  /** Replay order extends enqueue order exactly if the new id is above all stored ones. */
  lemma ReplayAppendsExactly<T>(mirror: map<Ulid, T>, id: Ulid, payload: T)
    requires id !in mirror
    ensures Replay(mirror[id := payload]) == Replay(mirror) + [Item(id, payload)]
            <==> forall m :: m in mirror ==> m < id
  {
    var a, b := SortedKeys(mirror), SortedKeys(mirror[id := payload]);
    assert mirror[id := payload].Keys == mirror.Keys + {id};
    SortedAppend(mirror.Keys, id);
    ListingsAgree(a, b, mirror, id, payload);
  }

  function SortedKeys<T>(mirror: map<Ulid, T>): (ids: seq<Ulid>)
    ensures ids == Sorted(mirror.Keys) && (forall k :: 0 <= k < |ids| ==> ids[k] in mirror)
    ensures Replay(mirror) == ItemsOf(ids, mirror)
  {
    var ids := Sorted(mirror.Keys);
    assert forall k :: 0 <= k < |ids| ==> ids[k] in ids;
    ids
  }

  /**
   The first enqueue of a reopened queue is stored last in replay order, whatever the
   generator draws, exactly if its clock has left the millisecond of every stored id.
   Within the same millisecond a draw can sort before an older item or overwrite it.
   */
  lemma ReopenKeepsOrderExactly<T>(mirror: map<Ulid, T>, nowMs: nat, payload: T)
    requires nowMs > 0
    ensures (forall random :: 0 <= random < RANDOM_SPAN ==> ReplayedLast(mirror, nowMs, random, payload))
            <==> (forall m :: m in mirror ==> MsOf(m) < nowMs)
  {
    if forall m :: m in mirror ==> MsOf(m) < nowMs {
      forall random | 0 <= random < RANDOM_SPAN ensures ReplayedLast(mirror, nowMs, random, payload) {
        var id := NextUlid(0, nowMs, random).value;
        forall m | m in mirror ensures m < id {
          assert m < (MsOf(m) + 1) * RANDOM_SPAN <= nowMs * RANDOM_SPAN;
        }
        ReplayAppendsExactly(mirror, id, payload);
      }
    } else {
      var m :| m in mirror && MsOf(m) >= nowMs;
      var id := NextUlid(0, nowMs, 0).value;
      assert id <= m;
      if id in mirror {
        assert mirror[id := payload].Keys == mirror.Keys;
        assert |Replay(mirror[id := payload])| == |Replay(mirror)|;
      } else {
        ReplayAppendsExactly(mirror, id, payload);
      }
      assert !ReplayedLast(mirror, nowMs, 0, payload);
    }
  }

  ghost predicate ReplayedLast<T>(mirror: map<Ulid, T>, nowMs: nat, random: nat, payload: T)
    requires nowMs > 0 && random < RANDOM_SPAN
  {
    var id := NextUlid(0, nowMs, random).value;
    Replay(mirror[id := payload]) == Replay(mirror) + [Item(id, payload)]
  }

  // ---------------------------------------------------------------- the queue

  /** `log` is history: the unacked ids in the order they were enqueued. */
  class InMemQueue<T> {
    var deque: seq<Item<T>>
    var mirror: map<Ulid, T>
    var last: Ulid
    ghost var log: seq<Ulid>

    /** The mirror holds exactly the unacked items; the deque holds some of them, once each. */
    ghost predicate Valid()
      reads this
    {
      && (forall k :: 0 <= k < |deque| ==> deque[k].id in mirror && mirror[deque[k].id] == deque[k].payload)
      && (forall j, k :: 0 <= j < k < |deque| ==> deque[j].id != deque[k].id)
      && (forall id :: id in mirror <==> id in log)
      && Distinct(log)
    }

    /** Unacked and already dequeued. */
    ghost predicate InFlight(id: Ulid)
      reads this
    {
      id in mirror && forall k :: 0 <= k < |deque| ==> deque[k].id != id
    }

    /** Ids were given out in increasing order and the generator is above all of them. */
    ghost predicate Ordered()
      reads this
    {
      Increasing(log) && forall m :: m in mirror ==> m <= last
    }

    /**
     The next id will be above all others: the generator is above them already, or the
     clock has left the millisecond of every id this queue knows.
     */
    ghost predicate InOrderAt(nowMs: nat)
      reads this
    {
      && (forall id :: id in mirror <==> id in log)
      && Increasing(log)
      && (Ordered() || (MsOf(last) < nowMs && forall m :: m in mirror ==> MsOf(m) < nowMs))
    }

    constructor Open(stored: map<Ulid, T>)
      ensures Valid() && deque == Replay(stored) && mirror == stored && last == 0
      ensures Increasing(log) && |deque| == |stored|
      ensures forall it: Item<T> :: it in deque <==> it.id in stored && stored[it.id] == it.payload
      ensures forall i, j :: 0 <= i < j < |deque| ==> deque[i].id < deque[j].id
    {
      deque, mirror, last := Replay(stored), stored, 0;
      log := Sorted(stored.Keys);
      ReplayIsExact(stored);
    }

    /**
     Fails only when the clock has not left the last id's millisecond and its 80 random bits are
     used up; the new id is above the last and lies in the later of the two milliseconds.  A draw
     that collides with a stored id would overwrite that item's mirror row.
     */
    method Enqueue(payload: T, nowMs: nat, random: nat) returns (r: Option<Ulid>)
      requires random < RANDOM_SPAN
      modifies this
      ensures r == NextUlid(old(last), nowMs, random)
      ensures r.Some? <==>
        || nowMs > old(last) / 0x1_0000_0000_0000_0000_0000
        || old(last) % 0x1_0000_0000_0000_0000_0000 < 0xffff_ffff_ffff_ffff_ffff
      ensures r.Some? ==>
        var lastMs := old(last) / 0x1_0000_0000_0000_0000_0000;
        && r.value > old(last)
        && r.value / 0x1_0000_0000_0000_0000_0000 == (if nowMs > lastMs then nowMs else lastMs)
        && (if nowMs > lastMs then r.value % 0x1_0000_0000_0000_0000_0000 == random else r.value == old(last) + 1)
      ensures r.None? ==> unchanged(this)
      ensures r.Some? ==>
        && deque == old(deque) + [Item(r.value, payload)]
        && mirror == old(mirror)[r.value := payload]
        && log == old(log) + [r.value]
        && last == r.value
      ensures old(Valid()) && (r.Some? ==> r.value !in old(mirror)) ==> Valid()
      ensures r.Some? && old(InOrderAt(nowMs)) ==> r.value !in old(mirror) && Ordered()
    {
      r := NextUlid(last, nowMs, random);
      if r.Some? {
        NextUlidGrows(last, nowMs, random);
        last := r.value;
        mirror := mirror[r.value := payload];
        deque := deque + [Item(r.value, payload)];
        log := log + [r.value];
        if old(InOrderAt(nowMs)) {
          forall m | m in old(mirror) ensures m < r.value {
            assert m <= old(last) || m < (MsOf(m) + 1) * RANDOM_SPAN <= nowMs * RANDOM_SPAN;
          }
          IncreasingSnoc(old(log), r.value);
        }
      }
    }

    method Dequeue() returns (r: Option<Item<T>>)
      requires Valid()
      modifies this`deque
      ensures Valid()
      ensures old(deque) == [] ==> r.None? && deque == []
      ensures old(deque) != [] ==> r == Some(old(deque)[0]) && deque == old(deque)[1..] && InFlight(r.value.id)
    {
      if deque == [] {
        r := None;
      } else {
        r := Some(deque[0]);
        deque := deque[1..];
      }
    }

    /** The client acks only what it has dequeued. */
    method Ack(id: Ulid)
      requires Valid() && (id in mirror ==> InFlight(id))
      modifies this
      ensures Valid() && deque == old(deque) && last == old(last)
      ensures mirror == old(mirror) - {id} && log == Without(old(log), id)
      ensures old(Ordered()) ==> Ordered()
      ensures old(Increasing(log)) ==> Increasing(log)
      ensures forall nowMs {:trigger InOrderAt(nowMs)} :: old(InOrderAt(nowMs)) ==> InOrderAt(nowMs)
    {
      WithoutKeeps(log, id);
      mirror := mirror - {id};
      log := Without(log, id);
    }

    /** The client nacks only what it has dequeued; an acked item is a fatal error. */
    method Nack(id: Ulid) returns (ok: bool)
      requires Valid() && (id in mirror ==> InFlight(id))
      modifies this`deque
      ensures Valid()
      ensures ok <==> id in mirror
      ensures deque == if ok then [Item(id, mirror[id])] + old(deque) else old(deque)
    {
      ok := id in mirror;
      if ok {
        deque := [Item(id, mirror[id])] + deque;
      }
    }

    /** Succeeds exactly for items in flight. */
    method ExtendLease(id: Ulid) returns (ok: bool)
      requires Valid()
      ensures ok <==> InFlight(id)
    {
      var inDeque := false;
      var i := 0;
      while i < |deque|
        invariant 0 <= i <= |deque|
        invariant inDeque <==> exists k :: 0 <= k < i && deque[k].id == id
      {
        if deque[i].id == id {
          inDeque := true;
        }
        i := i + 1;
      }
      ok := id in mirror && !inDeque;
    }

    /** What a crash at this point followed by `open` brings back: the unacked items in enqueue order. */
    lemma ReplayIsEnqueueOrder()
      requires Valid() && Increasing(log)
      ensures forall k :: 0 <= k < |log| ==> log[k] in mirror
      ensures Replay(mirror) == ItemsOf(log, mirror)
    {
      SortedUnique(log, mirror.Keys);
    }
  }

  ghost predicate Distinct(s: seq<Ulid>) {
    forall j, k :: 0 <= j < k < |s| ==> s[j] != s[k]
  }

  ghost function Without(s: seq<Ulid>, id: Ulid): (r: seq<Ulid>)
    ensures forall x :: x in r <==> x in s && x != id
  {
    if s == [] then []
    else
      assert forall x :: x in s <==> x == s[0] || x in s[1..];
      if s[0] == id then Without(s[1..], id) else [s[0]] + Without(s[1..], id)
  }

  lemma {:induction false} WithoutKeeps(s: seq<Ulid>, id: Ulid)
    ensures Distinct(s) ==> Distinct(Without(s, id))
    ensures Increasing(s) ==> Increasing(Without(s, id))
  {
    if s != [] {
      var rest := Without(s[1..], id);
      WithoutKeeps(s[1..], id);
      assert Distinct(s) ==> Distinct(s[1..]);
      assert Increasing(s) ==> Increasing(s[1..]);
      forall k | 0 <= k < |rest|
        ensures Distinct(s) ==> rest[k] != s[0]
        ensures Increasing(s) ==> s[0] < rest[k]
      {
        assert rest[k] in s[1..];
      }
    }
  }
}
