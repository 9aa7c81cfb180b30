/**
 The embedded store (`crates/rollout-storage/src/embedded/`): buffered transactions whose
 events are published only after a commit, the watch router and the prefix scan.  One write
 transaction exists at a time; a commit and its publication make one step.
 */
module EmbeddedStore {
  import opened Wrappers
  import opened StoreEvents

  const NAMESPACES: set<string> := {
    "runs", "workers", "heartbeats", "queue", "plugins", "cloudlocal_queue", "infer", "snapshots",
    "coordinator_lease", "epoch", "work", "queue_items", "eval_reports"}

  /** What the queue, the ledger, the lease, the samples and the snapshots write is registered. */
  lemma ComponentsAreRegistered(ns: string)
    requires ns in ["cloudlocal_queue", "infer", "snapshots", "coordinator_lease", "epoch", "work", "queue_items"]
    ensures ns in NAMESPACES
  {
  }

  /** All events sent on a channel since it was opened; a receiver is a position in it. */
  class WatchRouter {
    var channels: map<Key, seq<Event>>

    constructor ()
      ensures channels == map[]
    {
      channels := map[];
    }

    method Subscribe(prefix: Key) returns (at: nat)
      modifies this
      ensures prefix in channels && at == |channels[prefix]|
      ensures channels == if prefix in old(channels) then old(channels) else old(channels)[prefix := []]
    {
      if prefix !in channels {
        channels := channels[prefix := []];
      }
      at := |channels[prefix]|;
    }

    /** The channels are walked in an arbitrary order. */
    method Publish(event: Event)
      modifies this
      ensures channels == Sent(old(channels), [event])
      ensures channels.Keys == old(channels).Keys
      ensures forall p :: p in channels ==>
        channels[p] == old(channels)[p] +
          if p.namespace == event.key.namespace && p.runId == event.key.runId && p.path <= event.key.path
          then [event] else []
    {
      ghost var before := channels;
      var rest := channels.Keys;
      while rest != {}
        invariant rest <= before.Keys && channels.Keys == before.Keys
        invariant forall p :: p in before ==>
          channels[p] == if p in rest then before[p] else before[p] + Received([event], p)
        decreases |rest|
      {
        var prefix :| prefix in rest;
        assert [event][1..] == [];
        if PrefixMatches(prefix, event.key) {
          assert Received([event], prefix) == [event];
          channels := channels[prefix := channels[prefix] + [event]];
        } else {
          assert Received([event], prefix) == [];
          assert channels[prefix] + [] == channels[prefix];
        }
        rest := rest - {prefix};
      }
    }
  }

  function Sent(channels: map<Key, seq<Event>>, events: seq<Event>): map<Key, seq<Event>> {
    map p | p in channels :: channels[p] + Received(events, p)
  }

  lemma SentAppend(channels: map<Key, seq<Event>>, a: seq<Event>, b: seq<Event>)
    ensures Sent(Sent(channels, a), b) == Sent(channels, a + b)
  {
    forall p | p in channels ensures Sent(Sent(channels, a), b)[p] == Sent(channels, a + b)[p] {
      ReceivedAppend(a, b, p);
    }
  }

  lemma SentNothing(channels: map<Key, seq<Event>>)
    ensures Sent(channels, []) == channels
  {
    forall p | p in channels ensures Sent(channels, [])[p] == channels[p] {
      assert channels[p] + [] == channels[p];
    }
  }

  /** What a transaction has staged, and the events it will publish. */
  ghost predicate Staged(base: Table, working: Table, pending: seq<Event>) {
    Complete(base, Commit(pending, working))
  }

  lemma StagePut(base: Table, working: Table, pending: seq<Event>, key: Key, value: Value)
    requires Staged(base, working, pending)
    ensures Staged(base, working[key := value], pending + [Put(key)])
  {
    TrackAppend(base.Keys, pending, [Put(key)]);
    assert [Put(key)][1..] == [];
    MentionsMore(pending, Put(key));
  }

  lemma StageDelete(base: Table, working: Table, pending: seq<Event>, key: Key)
    requires Staged(base, working, pending)
    ensures Staged(base, working - {key}, pending + [Delete(key)])
  {
    TrackAppend(base.Keys, pending, [Delete(key)]);
    assert [Delete(key)][1..] == [];
    MentionsMore(pending, Delete(key));
  }

  lemma MentionsMore(events: seq<Event>, e: Event)
    ensures forall k :: Mentions(events + [e], k) <==> Mentions(events, k) || k == e.key
  {
    forall k ensures Mentions(events + [e], k) <==> Mentions(events, k) || k == e.key {
      assert forall x :: x in events + [e] <==> x in events || x == e;
    }
  }

  class EmbeddedStorage {
    var table: Table
    const watch: WatchRouter

    constructor ()
      ensures table == map[] && fresh(watch) && watch.channels == map[]
    {
      table := map[];
      watch := new WatchRouter();
    }

    method Begin() returns (t: EmbeddedTxn)
      ensures fresh(t) && t.store == this && t.Valid() && t.working == table && t.pending == []
    {
      t := new EmbeddedTxn(this);
    }

    /** `None` for an unregistered namespace. */
    method GetBytes(key: Key) returns (r: Option<Option<Value>>)
      ensures r == if key.namespace in NAMESPACES then Some(Lookup(table, key)) else None
    {
      if key.namespace !in NAMESPACES {
        return None;
      }
      r := Some(if key in table then Some(table[key]) else None);
    }

    /**
     The rows under the prefix in the order of their encoded keys; `entries` is the table's
     iteration, one entry for each key.  A limit is looked at only after a row has been pushed,
     so a limit of zero still returns one.
     */
    method ScanBytes(prefix: Key, limit: Option<nat>, entries: seq<Key>, ghost encode: Key -> nat)
      returns (r: Option<seq<(Key, Value)>>)
      requires forall k :: k in entries <==> k in table && k.namespace == prefix.namespace
      requires KeyOrder(entries, encode)
      ensures r.None? <==> prefix.namespace !in NAMESPACES
      ensures r.Some? ==> KeyOrder(KeysOf(r.value), encode)
      ensures r.Some? ==>
        var all := Matches(table, entries, prefix);
        r.value == match limit
          case None => all
          case Some(n) => all[..ScanSize(n, |all|)]
      ensures r.Some? ==> forall row :: row in r.value ==>
        && row.0 in table && row.1 == table[row.0]
        && row.0.namespace == prefix.namespace && prefix.path <= row.0.path
        && (prefix.runId.Some? ==> row.0.runId == prefix.runId)
      ensures r.Some? && limit.Some? ==> |r.value| <= if limit.value == 0 then 1 else limit.value
      ensures r.Some? ==> forall k ::
        && k in table && k.namespace == prefix.namespace && prefix.path <= k.path
        && (prefix.runId.Some? ==> k.runId == prefix.runId)
        && (k, table[k]) !in r.value ==>
          && limit.Some? && |r.value| == (if limit.value == 0 then 1 else limit.value)
          && forall row :: row in r.value ==> encode(row.0) < encode(k)
    {
      if prefix.namespace !in NAMESPACES {
        return None;
      }
      var out := Collect(prefix, limit, entries);
      MatchesOrdered(table, entries, prefix, encode);
      MatchesAreTheRows(table, entries, prefix);
      LaterAreLarger(Matches(table, entries, prefix), |out|, encode);
      r := Some(out);
    }

    /** The scan loop: push, then look at the limit. */
    method Collect(prefix: Key, limit: Option<nat>, entries: seq<Key>) returns (out: seq<(Key, Value)>)
      requires forall k :: k in entries ==> k in table
      ensures var all := Matches(table, entries, prefix);
        out == match limit
          case None => all
          case Some(n) => all[..ScanSize(n, |all|)]
    {
      var rows := table;
      out := [];
      for i := 0 to |entries|
        invariant out == Matches(rows, entries[..i], prefix)
        invariant limit.Some? ==> |out| == 0 || |out| < limit.value
      {
        var k := entries[i];
        assert k in entries;
        MatchesNext(rows, entries, i, prefix);
        if HasPrefix(k, prefix) {
          out := out + [(k, rows[k])];
          if limit.Some? && |out| >= limit.value {
            MatchesPrefix(rows, entries, i + 1, prefix);
            return;
          }
        }
      }
      assert entries[..|entries|] == entries;
      assert out[..|out|] == out;
    }
  }

  /** Strictly increasing encodings: the order of the table, in which no key comes twice. */
  ghost predicate KeyOrder(keys: seq<Key>, encode: Key -> nat) {
    forall i, j :: 0 <= i < j < |keys| ==> encode(keys[i]) < encode(keys[j])
  }

  function KeysOf(rows: seq<(Key, Value)>): (keys: seq<Key>)
    ensures |keys| == |rows| && forall i :: 0 <= i < |rows| ==> keys[i] == rows[i].0
  {
    seq(|rows|, i requires 0 <= i < |rows| => rows[i].0)
  }

  function Matches(table: Table, entries: seq<Key>, prefix: Key): seq<(Key, Value)> {
    if entries == [] then []
    else
      (if entries[0] in table && HasPrefix(entries[0], prefix) then [(entries[0], table[entries[0]])] else [])
      + Matches(table, entries[1..], prefix)
  }

  lemma {:induction false} MatchesAppend(table: Table, a: seq<Key>, b: seq<Key>, prefix: Key)
    ensures Matches(table, a + b, prefix) == Matches(table, a, prefix) + Matches(table, b, prefix)
    decreases |a|
  {
    if a == [] {
      assert a + b == b;
    } else {
      assert (a + b)[0] == a[0] && (a + b)[1..] == a[1..] + b;
      MatchesAppend(table, a[1..], b, prefix);
    }
  }

  lemma MatchesNext(table: Table, entries: seq<Key>, i: nat, prefix: Key)
    requires i < |entries|
    ensures Matches(table, entries[..i + 1], prefix) == Matches(table, entries[..i], prefix) +
      if entries[i] in table && HasPrefix(entries[i], prefix) then [(entries[i], table[entries[i]])] else []
  {
    assert entries[..i + 1] == entries[..i] + [entries[i]];
    MatchesAppend(table, entries[..i], [entries[i]], prefix);
    assert [entries[i]][1..] == [];
  }

  lemma MatchesPrefix(table: Table, entries: seq<Key>, i: nat, prefix: Key)
    requires i <= |entries|
    ensures Matches(table, entries[..i], prefix) <= Matches(table, entries, prefix)
  {
    assert entries == entries[..i] + entries[i..];
    MatchesAppend(table, entries[..i], entries[i..], prefix);
  }

  /** The listed keys come from the entries, in their order. */
  lemma {:induction false} MatchesOrdered(table: Table, entries: seq<Key>, prefix: Key, encode: Key -> nat)
    requires KeyOrder(entries, encode)
    ensures KeyOrder(KeysOf(Matches(table, entries, prefix)), encode)
    ensures forall row :: row in Matches(table, entries, prefix) ==> row.0 in entries
    decreases |entries|
  {
    if entries != [] {
      var rest := Matches(table, entries[1..], prefix);
      MatchesOrdered(table, entries[1..], prefix, encode);
      var all := Matches(table, entries, prefix);
      var keys := KeysOf(all);
      if entries[0] in table && HasPrefix(entries[0], prefix) {
        assert all == [(entries[0], table[entries[0]])] + rest;
        forall i, j | 0 <= i < j < |keys| ensures encode(keys[i]) < encode(keys[j]) {
          assert keys[j] == KeysOf(rest)[j - 1] && rest[j - 1] in rest;
          if i > 0 {
            assert keys[i] == KeysOf(rest)[i - 1];
          } else {
            var k :| 0 <= k < |entries[1..]| && entries[1..][k] == keys[j];
            assert entries[k + 1] == keys[j];
          }
        }
      } else {
        assert all == rest;
      }
    }
  }

  /** The matches are the rows under the prefix, values included. */
  lemma {:induction false} MatchesAreTheRows(table: Table, entries: seq<Key>, prefix: Key)
    ensures forall k, v :: (k, v) in Matches(table, entries, prefix) <==>
      k in entries && k in table && v == table[k] && HasPrefix(k, prefix)
    decreases |entries|
  {
    if entries != [] {
      MatchesAreTheRows(table, entries[1..], prefix);
      assert forall k :: k in entries <==> k == entries[0] || k in entries[1..];
    }
  }

  /** What a limit cuts off lies above what is returned. */
  lemma LaterAreLarger(all: seq<(Key, Value)>, n: nat, encode: Key -> nat)
    requires KeyOrder(KeysOf(all), encode) && n <= |all|
    ensures forall row, cut :: row in all[..n] && cut in all && cut !in all[..n] ==> encode(row.0) < encode(cut.0)
  {
    forall row, cut | row in all[..n] && cut in all && cut !in all[..n] ensures encode(row.0) < encode(cut.0) {
      var i :| 0 <= i < n && all[i] == row;
      assert all == all[..n] + all[n..];
      var j :| 0 <= j < |all[n..]| && all[n..][j] == cut;
      assert KeysOf(all)[i] == row.0 && KeysOf(all)[n + j] == cut.0;
    }
  }

  lemma ZeroLimitReturnsOne(found: nat)
    requires found > 0
    ensures ScanSize(0, found) == 1
  {
  }

  /** How many of `found` rows a limited scan returns. */
  function ScanSize(limit: nat, found: nat): (size: nat)
    ensures size <= found
    ensures size <= limit <==> limit > 0 || found == 0
  {
    var atLeastOne := if limit == 0 then 1 else limit;
    if atLeastOne < found then atLeastOne else found
  }

  /** An open write transaction: its own view of the table, and the events it will publish. */
  class EmbeddedTxn {
    const store: EmbeddedStorage
    var working: Table
    var pending: seq<Event>

    /** No other write transaction commits meanwhile, so the table is still the one begun on. */
    ghost predicate Valid()
      reads this, store
    {
      Staged(store.table, working, pending)
    }

    constructor (store: EmbeddedStorage)
      ensures this.store == store && Valid() && working == store.table && pending == []
    {
      this.store, working, pending := store, store.table, [];
    }

    /** `false` is the configuration error of an unregistered namespace. */
    method PutBytes(key: Key, value: Value) returns (ok: bool)
      requires Valid()
      modifies this
      ensures Valid() && ok == (key.namespace in NAMESPACES)
      ensures working == if ok then old(working)[key := value] else old(working)
      ensures pending == if ok then old(pending) + [Put(key)] else old(pending)
    {
      if key.namespace !in NAMESPACES {
        return false;
      }
      StagePut(store.table, working, pending, key, value);
      working := working[key := value];
      pending := pending + [Put(key)];
      ok := true;
    }

    /** Only a removal that removed something leaves an event. */
    method Remove(key: Key) returns (ok: bool)
      requires Valid()
      modifies this
      ensures Valid() && ok == (key.namespace in NAMESPACES)
      ensures working == if ok then old(working) - {key} else old(working)
      ensures pending == if ok && key in old(working) then old(pending) + [Delete(key)] else old(pending)
    {
      if key.namespace !in NAMESPACES {
        return false;
      }
      var removed := key in working;
      StageDelete(store.table, working, pending, key);
      assert !removed ==> working - {key} == working;
      working := working - {key};
      if removed {
        pending := pending + [Delete(key)];
      }
      ok := true;
    }

    /** Compare-and-swap against this transaction's own view; absence is a value like another. */
    method CasBytes(key: Key, expected: Option<Value>, next: Option<Value>) returns (r: Option<bool>)
      requires Valid()
      modifies this
      ensures Valid()
      ensures r == if key.namespace in NAMESPACES then Some(Lookup(old(working), key) == expected) else None
      ensures r != Some(true) ==> working == old(working) && pending == old(pending)
      ensures r == Some(true) ==>
        && Lookup(working, key) == next && working - {key} == old(working) - {key}
        && pending == old(pending) + match next
           case Some(_) => [Put(key)]
           case None => if key in old(working) then [Delete(key)] else []
    {
      if key.namespace !in NAMESPACES {
        return None;
      }
      var current := if key in working then Some(working[key]) else None;
      if current != expected {
        return Some(false);
      }
      if next.Some? {
        StagePut(store.table, working, pending, key, next.value);
        working := working[key := next.value];
        pending := pending + [Put(key)];
      } else if current.Some? {
        StageDelete(store.table, working, pending, key);
        working := working - {key};
        pending := pending + [Delete(key)];
      } else {
        assert pending + [] == pending;
      }
      r := Some(true);
    }

    /** All or nothing; on success the events go out once, in order, and account for the change. */
    method Finish(diskFails: bool) returns (ok: bool)
      requires Valid()
      modifies this, store, store.watch
      ensures ok == !diskFails && pending == []
      ensures store.table == if ok then old(working) else old(store.table)
      ensures store.watch.channels == if ok then Sent(old(store.watch.channels), old(pending)) else old(store.watch.channels)
      ensures ok ==> Complete(old(store.table), Commit(old(pending), store.table))
    {
      var events := pending;
      pending := [];
      ok := !diskFails;
      if !ok {
        return;
      }
      store.table := working;
      ghost var channels := store.watch.channels;
      SentNothing(channels);
      for i := 0 to |events|
        invariant store.watch.channels == Sent(channels, events[..i])
        invariant store.table == working == old(working) && pending == []
      {
        store.watch.Publish(events[i]);
        SentAppend(channels, events[..i], [events[i]]);
        assert events[..i + 1] == events[..i] + [events[i]];
      }
      assert events[..|events|] == events;
    }

    /** Nothing reaches the table or any subscriber. */
    method Abort()
      modifies this
      ensures pending == [] && working == store.table
    {
      working := store.table;
      pending := [];
    }
  }

  /**
   A subscription made before a transaction: what it receives from the commit, folded over the
   keys it knew, gives the keys now.
   */
  method CommitAndObserve(t: EmbeddedTxn, prefix: Key, diskFails: bool) returns (ok: bool)
    requires t.Valid() && prefix.runId.Some? && prefix in t.store.watch.channels
    modifies t, t.store, t.store.watch
    ensures ok == !diskFails && t.store.table == if ok then old(t.working) else old(t.store.table)
    ensures prefix in t.store.watch.channels && old(t.store.watch.channels[prefix]) <= t.store.watch.channels[prefix]
    ensures
      var received := t.store.watch.channels[prefix][|old(t.store.watch.channels[prefix])|..];
      Track(Under(old(t.store.table.Keys), prefix), received) == Under(t.store.table.Keys, prefix)
  {
    RunScopedTracks(prefix, t.store.table.Keys, t.pending);
    ok := t.Finish(diskFails);
    if !ok {
      assert Track(Under(t.store.table.Keys, prefix), []) == Under(t.store.table.Keys, prefix);
    }
  }
}
