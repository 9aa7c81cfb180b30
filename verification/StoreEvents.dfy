/**
 Keys, prefixes and change events of the embedded store
 (`crates/rollout-storage/src/encoding.rs`, `embedded/watch.rs`): what a scan of a prefix
 returns against what a watch of the same prefix delivers.
 */
module StoreEvents {
  import opened Wrappers

  type Value = seq<nat>

  datatype Key = Key(namespace: string, runId: Option<nat>, path: seq<string>)

  datatype Event = Put(key: Key) | Delete(key: Key)

  type Table = map<Key, Value>

  /** The scan's test: a prefix without a run is a wildcard. */
  predicate HasPrefix(candidate: Key, prefix: Key) {
    && candidate.namespace == prefix.namespace
    && (prefix.runId.None? || candidate.runId == prefix.runId)
    && prefix.path <= candidate.path
  }

  /** The watch's test: a prefix without a run matches only keys without a run. */
  predicate PrefixMatches(prefix: Key, candidate: Key) {
    && prefix.namespace == candidate.namespace
    && prefix.runId == candidate.runId
    && prefix.path <= candidate.path
  }

  /** Both tests by construction: how a key under the prefix is made. */
  lemma PrefixesByConstruction(prefix: Key, candidate: Key)
    ensures HasPrefix(candidate, prefix) <==>
      exists run: Option<nat>, rest: seq<string> ::
        candidate == Key(prefix.namespace, run, prefix.path + rest) && (prefix.runId.Some? ==> run == prefix.runId)
    ensures PrefixMatches(prefix, candidate) <==>
      exists rest: seq<string> :: candidate == Key(prefix.namespace, prefix.runId, prefix.path + rest)
  {
    if prefix.path <= candidate.path {
      var rest := candidate.path[|prefix.path|..];
      assert candidate == Key(candidate.namespace, candidate.runId, prefix.path + rest);
    }
  }

  function Under(keys: set<Key>, prefix: Key): set<Key> {
    set k | k in keys && HasPrefix(k, prefix)
  }

  function RowsUnder(table: Table, prefix: Key): Table {
    map k | k in table && HasPrefix(k, prefix) :: table[k]
  }

  /** The events a subscriber receives. */
  function Received(events: seq<Event>, prefix: Key): seq<Event> {
    if events == [] then []
    else (if PrefixMatches(prefix, events[0].key) then [events[0]] else []) + Received(events[1..], prefix)
  }

  /** Fold events over a key set. */
  function Track(keys: set<Key>, events: seq<Event>): set<Key>
    decreases |events|
  {
    if events == [] then keys
    else
      var next := match events[0] case Put(k) => keys + {k} case Delete(k) => keys - {k};
      Track(next, events[1..])
  }

  predicate Mentions(events: seq<Event>, k: Key) {
    exists e :: e in events && e.key == k
  }

  lemma {:induction false} TrackAppend(keys: set<Key>, a: seq<Event>, b: seq<Event>)
    ensures Track(keys, a + b) == Track(Track(keys, a), b)
    decreases |a|
  {
    if a == [] {
      assert a + b == b;
    } else {
      assert (a + b)[0] == a[0] && (a + b)[1..] == a[1..] + b;
      TrackAppend(match a[0] case Put(k) => keys + {k} case Delete(k) => keys - {k}, a[1..], b);
    }
  }

  lemma {:induction false} ReceivedAppend(a: seq<Event>, b: seq<Event>, prefix: Key)
    ensures Received(a + b, prefix) == Received(a, prefix) + Received(b, prefix)
    decreases |a|
  {
    if a == [] {
      assert a + b == b;
    } else {
      assert (a + b)[0] == a[0] && (a + b)[1..] == a[1..] + b;
      ReceivedAppend(a[1..], b, prefix);
    }
  }

  /** Whatever the keys and the events, folding what is received tracks what is scanned. */
  ghost predicate WatchTracksScan(prefix: Key) {
    forall keys: set<Key>, events: seq<Event> {:trigger Track(keys, events)} ::
      Track(Under(keys, prefix), Received(events, prefix)) == Under(Track(keys, events), prefix)
  }

  /** Those of the prefix's own run, or without a run if it has none. */
  function OfItsRun(keys: set<Key>, prefix: Key): set<Key> {
    set k | k in keys && k.runId == prefix.runId
  }

  /** Every watch tracks the scanned keys of its own run; without a run, those without one. */
  lemma {:induction false} WatchTracksItsRun(prefix: Key, keys: set<Key>, events: seq<Event>)
    ensures Track(OfItsRun(Under(keys, prefix), prefix), Received(events, prefix))
      == OfItsRun(Under(Track(keys, events), prefix), prefix)
    decreases |events|
  {
    if events != [] {
      var k := events[0].key;
      var next := match events[0] case Put(k) => keys + {k} case Delete(k) => keys - {k};
      var rest := events[1..];
      WatchTracksItsRun(prefix, next, rest);
      var own, ownNext := OfItsRun(Under(keys, prefix), prefix), OfItsRun(Under(next, prefix), prefix);
      if PrefixMatches(prefix, k) {
        var received := Received(events, prefix);
        assert received[0] == events[0] && received[1..] == Received(rest, prefix);
        assert ownNext == match events[0] case Put(k) => own + {k} case Delete(k) => own - {k};
      } else {
        assert ownNext == own;
        assert Received(events, prefix) == Received(rest, prefix);
      }
    }
  }

  /** Under a run that is all the scan returns. */
  lemma RunScopedTracks(prefix: Key, keys: set<Key>, events: seq<Event>)
    requires prefix.runId.Some?
    ensures Track(Under(keys, prefix), Received(events, prefix)) == Under(Track(keys, events), prefix)
  {
    WatchTracksItsRun(prefix, keys, events);
    assert OfItsRun(Under(keys, prefix), prefix) == Under(keys, prefix);
    assert OfItsRun(Under(Track(keys, events), prefix), prefix) == Under(Track(keys, events), prefix);
  }

  /** A wildcard prefix: a put under some run shows in the scan and not in the watch. */
  lemma WildcardMisses(prefix: Key)
    requires prefix.runId.None?
    ensures var missed := Key(prefix.namespace, Some(0), prefix.path);
      && missed in Under(Track({}, [Put(missed)]), prefix)
      && Track(Under({}, prefix), Received([Put(missed)], prefix)) == {}
  {
    var missed := Key(prefix.namespace, Some(0), prefix.path);
    var events := [Put(missed)];
    assert events[1..] == [];
    assert Received(events, prefix) == [];
    assert Track({}, events) == {missed};
    assert Under({}, prefix) == {};
  }

  /** A watch tracks the scan of its prefix exactly when the prefix names a run. */
  lemma TracksExactlyWhenRunScoped(prefix: Key)
    ensures WatchTracksScan(prefix) <==> prefix.runId.Some?
  {
    if prefix.runId.Some? {
      forall keys: set<Key>, events: seq<Event>
        ensures Track(Under(keys, prefix), Received(events, prefix)) == Under(Track(keys, events), prefix)
      {
        RunScopedTracks(prefix, keys, events);
      }
    } else {
      WildcardMisses(prefix);
    }
  }

  // ---------- Histories of commits ----------

  /** What one transaction publishes, and the table it leaves. */
  datatype Commit = Commit(events: seq<Event>, after: Table)

  function Lookup(table: Table, k: Key): Option<Value> {
    if k in table then Some(table[k]) else None
  }

  /** The events account for the new keys, and mention every changed row. */
  ghost predicate Complete(before: Table, c: Commit) {
    && Track(before.Keys, c.events) == c.after.Keys
    && (forall k :: Lookup(before, k) != Lookup(c.after, k) ==> Mentions(c.events, k))
  }

  function TableAfter(table: Table, commits: seq<Commit>): Table {
    if commits == [] then table else commits[|commits| - 1].after
  }

  ghost predicate CompleteHistory(table: Table, commits: seq<Commit>) {
    forall i :: 0 <= i < |commits| ==> Complete(TableAfter(table, commits[..i]), commits[i])
  }

  function Published(commits: seq<Commit>): seq<Event>
    decreases |commits|
  {
    if commits == [] then [] else Published(commits[..|commits| - 1]) + commits[|commits| - 1].events
  }

  /**
   After every commit of any history, folding the events received since the subscription over
   the keys scanned then gives exactly the keys a scan returns now.
   */
  lemma {:induction false} SubscriberKnowsTheKeys(prefix: Key, table: Table, commits: seq<Commit>)
    requires prefix.runId.Some? && CompleteHistory(table, commits)
    ensures Track(Under(table.Keys, prefix), Received(Published(commits), prefix))
      == Under(TableAfter(table, commits).Keys, prefix)
    decreases |commits|
  {
    if commits == [] {
      assert Track(Under(table.Keys, prefix), []) == Under(table.Keys, prefix);
    } else {
      var front, last := commits[..|commits| - 1], commits[|commits| - 1];
      assert forall i :: 0 <= i < |front| ==> commits[..i] == front[..i] && commits[i] == front[i];
      SubscriberKnowsTheKeys(prefix, table, front);
      ReceivedAppend(Published(front), last.events, prefix);
      TrackAppend(Under(table.Keys, prefix), Received(Published(front), prefix), Received(last.events, prefix));
      assert Complete(TableAfter(table, front), last);
      RunScopedTracks(prefix, TableAfter(table, front).Keys, last.events);
    }
  }

  /** A subscriber that reads the mentioned rows again after each commit. */
  function Refresh(mirror: Table, events: seq<Event>, table: Table): Table {
    map k | k in mirror.Keys + table.Keys && (if Mentions(events, k) then k in table else k in mirror)
      :: if Mentions(events, k) then table[k] else mirror[k]
  }

  lemma {:induction false} ReceivedMentions(events: seq<Event>, prefix: Key, k: Key)
    ensures Mentions(Received(events, prefix), k) <==> Mentions(events, k) && PrefixMatches(prefix, k)
    decreases |events|
  {
    if events != [] {
      ReceivedMentions(events[1..], prefix, k);
      assert forall e :: e in events <==> e == events[0] || e in events[1..];
      var received := Received(events, prefix);
      if PrefixMatches(prefix, events[0].key) {
        assert forall e :: e in received <==> e == events[0] || e in Received(events[1..], prefix);
      } else {
        assert received == Received(events[1..], prefix);
      }
      if Mentions(events, k) && events[0].key != k {
        var e :| e in events && e.key == k;
        assert e in events[1..];
      }
      if Mentions(received, k) && events[0].key != k {
        var e :| e in received && e.key == k;
        assert e in Received(events[1..], prefix);
      }
      if events[0].key == k && PrefixMatches(prefix, k) {
        assert events[0] in received && events[0] in events;
      }
    }
  }

  /** So it holds exactly the rows under its prefix, values included. */
  lemma MirrorStaysExact(prefix: Key, before: Table, c: Commit)
    requires prefix.runId.Some? && Complete(before, c)
    ensures Refresh(RowsUnder(before, prefix), Received(c.events, prefix), RowsUnder(c.after, prefix))
      == RowsUnder(c.after, prefix)
  {
    var mirror, now := RowsUnder(before, prefix), RowsUnder(c.after, prefix);
    var events := Received(c.events, prefix);
    forall k ensures Lookup(Refresh(mirror, events, now), k) == Lookup(now, k) {
      ReceivedMentions(c.events, prefix, k);
      if !Mentions(events, k) && HasPrefix(k, prefix) {
        assert Lookup(before, k) == Lookup(c.after, k);
      }
    }
    SameLookups(Refresh(mirror, events, now), now);
  }

  lemma SameLookups(a: Table, b: Table)
    requires forall k :: Lookup(a, k) == Lookup(b, k)
    ensures a == b
  {
    assert forall k :: k in a <==> Lookup(a, k).Some?;
    assert forall k :: k in b <==> Lookup(b, k).Some?;
    forall k | k in a ensures a[k] == b[k] {
      assert Lookup(a, k) == Lookup(b, k);
    }
  }
}
