/**
 * The snapshot store of background/storage-manager.js. The `follower_snapshots`
 * key of chrome.storage.local is the field `snapshots` of a SnapshotStore,
 * newest snapshot first.
 */
module StorageManager {
  import opened Wrappers
  import opened Snapshots

  /** The list saveSnapshot persists: `s` put in front of `stored`, cut to MAX_SNAPSHOTS entries. */
  function Saved(stored: seq<Snapshot>, s: Snapshot): seq<Snapshot> {
    var list := [s] + stored;
    if |list| > MAX_SNAPSHOTS then list[..MAX_SNAPSHOTS] else list
  }

  /** The follower record getSnapshots builds from a legacy `usernames` entry. */
  function LegacyFollowers(usernames: seq<string>): (fs: seq<Follower>)
    ensures |fs| == |usernames|
    ensures forall i :: 0 <= i < |usernames| ==> fs[i] == Follower(usernames[i], "", "")
  {
    seq(|usernames|, i requires 0 <= i < |usernames| => Follower(usernames[i], "", ""))
  }

  /** The on-the-fly upgrade getSnapshots applies to one stored record. */
  function Migrate(s: Snapshot): Snapshot {
    if s.followers.Some? then s
    else if s.usernames.Some? then s.(followers := Some(LegacyFollowers(s.usernames.value)))
    else s
  }

  /** getSnapshots' view of a stored list: every record upgraded, in place. */
  function MigrateAll(stored: seq<Snapshot>): (r: seq<Snapshot>)
    ensures |r| == |stored|
    ensures forall i :: 0 <= i < |stored| ==> r[i] == Migrate(stored[i])
  {
    seq(|stored|, i requires 0 <= i < |stored| => Migrate(stored[i]))
  }

  /** The list deleteSnapshot persists: `stored` without the entries whose timestamp is `timestamp`. */
  function Without(stored: seq<Snapshot>, timestamp: int): seq<Snapshot>
    decreases |stored|
  {
    if stored == [] then []
    else
      var rest := Without(stored[1..], timestamp);
      if stored[0].timestamp != timestamp then [stored[0]] + rest else rest
  }

  class SnapshotStore {
    /** The stored snapshot list, newest first. */
    var snapshots: seq<Snapshot>

    /** An empty store (`data[key] || []` on first use). */
    constructor()
      ensures snapshots == []
    {
      snapshots := [];
    }

    /** saveSnapshot(snapshot): unshift, truncate, persist, and return the persisted list. */
    method SaveSnapshot(snapshot: Snapshot) returns (persisted: seq<Snapshot>)
      modifies this
      ensures snapshots == persisted == Saved(old(snapshots), snapshot)
    {
      var list := [snapshot] + snapshots;
      if |list| > MAX_SNAPSHOTS {
        list := list[..MAX_SNAPSHOTS];
      }
      snapshots := list;
      persisted := list;
    }

    /** getSnapshots(): the stored list with legacy records upgraded; the store is not written. */
    method GetSnapshots() returns (r: seq<Snapshot>)
      ensures r == MigrateAll(snapshots)
    {
      r := MigrateAll(snapshots);
    }

    /** deleteSnapshot(timestamp): filter, persist, and return the persisted list. */
    method DeleteSnapshot(timestamp: int) returns (persisted: seq<Snapshot>)
      modifies this
      ensures snapshots == persisted == Without(old(snapshots), timestamp)
    {
      snapshots := Without(snapshots, timestamp);
      persisted := snapshots;
    }
  }

  // ---------------------------------------------------------------------------
  // saveSnapshot
  // ---------------------------------------------------------------------------

  /**
   * The new snapshot is first, at most MAX_SNAPSHOTS are kept, and the old
   * entries that survive follow it in their old order: only the oldest are
   * dropped, and nothing is de-duplicated by timestamp.
   */
  lemma SavedShape(stored: seq<Snapshot>, s: Snapshot)
    ensures var r := Saved(stored, s);
      && |r| == (if |stored| + 1 <= MAX_SNAPSHOTS then |stored| + 1 else MAX_SNAPSHOTS)
      && r[0] == s
      && forall i :: 1 <= i < |r| ==> r[i] == stored[i - 1]
  {
  }

  /** A store that is not yet full only grows: every old entry is kept. */
  lemma SavedKeepsAllWhenRoom(stored: seq<Snapshot>, s: Snapshot)
    requires |stored| < MAX_SNAPSHOTS
    ensures Saved(stored, s) == [s] + stored
  {
  }

  /** Saving into a full store drops exactly the oldest entry. */
  lemma SavedDropsOldestWhenFull(stored: seq<Snapshot>, s: Snapshot)
    requires |stored| == MAX_SNAPSHOTS
    ensures Saved(stored, s) == [s] + stored[..MAX_SNAPSHOTS - 1]
  {
  }

  // ---------------------------------------------------------------------------
  // getSnapshots
  // ---------------------------------------------------------------------------

  /** A record that already has followers is returned as it is. */
  lemma MigrateKeepsModern(s: Snapshot)
    requires s.followers.Some?
    ensures Migrate(s) == s
  {
  }

  /**
   * A legacy record gains one follower per stored username, with empty name
   * and picture, and keeps every other field, `usernames` included.
   */
  lemma MigrateUpgradesLegacy(s: Snapshot)
    requires s.followers.None? && s.usernames.Some?
    ensures Migrate(s).followers.Some?
    ensures |Migrate(s).followers.value| == |s.usernames.value|
    ensures forall i :: 0 <= i < |s.usernames.value| ==>
              Migrate(s).followers.value[i] == Follower(s.usernames.value[i], "", "")
    ensures Migrate(s).(followers := None) == s
  {
  }

  /** A record with neither field is returned as it is. */
  lemma MigrateKeepsBare(s: Snapshot)
    requires s.followers.None? && s.usernames.None?
    ensures Migrate(s) == s
  {
  }

  /** After migration a record has followers exactly when it had followers or usernames. */
  lemma MigrateHasFollowers(s: Snapshot)
    ensures Migrate(s).followers.Some? <==> s.followers.Some? || s.usernames.Some?
  {
  }

  /** Migrating twice is migrating once, so reading a store again changes nothing more. */
  lemma MigrateAllIdempotent(stored: seq<Snapshot>)
    ensures MigrateAll(MigrateAll(stored)) == MigrateAll(stored)
  {
  }

  // ---------------------------------------------------------------------------
  // deleteSnapshot
  // ---------------------------------------------------------------------------

  /** Every entry with the timestamp is gone, and every other entry is still there. */
  lemma {:induction false} WithoutMembers(stored: seq<Snapshot>, timestamp: int)
    ensures forall s :: s in Without(stored, timestamp) <==> s in stored && s.timestamp != timestamp
    decreases |stored|
  {
    if stored != [] {
      WithoutMembers(stored[1..], timestamp);
      assert stored == [stored[0]] + stored[1..];
    }
  }

  /** Filtering works piecewise, so the kept entries stay in their old relative order. */
  lemma {:induction false} WithoutAppend(a: seq<Snapshot>, b: seq<Snapshot>, timestamp: int)
    ensures Without(a + b, timestamp) == Without(a, timestamp) + Without(b, timestamp)
    decreases |a|
  {
    if a != [] {
      WithoutAppend(a[1..], b, timestamp);
      assert (a + b)[1..] == a[1..] + b;
    } else {
      assert a + b == b;
    }
  }

  /** Deleting a timestamp no entry has leaves the list as it is. */
  lemma {:induction false} WithoutAbsent(stored: seq<Snapshot>, timestamp: int)
    requires forall i :: 0 <= i < |stored| ==> stored[i].timestamp != timestamp
    ensures Without(stored, timestamp) == stored
    decreases |stored|
  {
    if stored != [] {
      WithoutAbsent(stored[1..], timestamp);
      assert stored == [stored[0]] + stored[1..];
    }
  }

  /** Deleting the same timestamp twice is deleting it once. */
  lemma WithoutIdempotent(stored: seq<Snapshot>, timestamp: int)
    ensures Without(Without(stored, timestamp), timestamp) == Without(stored, timestamp)
  {
    var r := Without(stored, timestamp);
    WithoutMembers(stored, timestamp);
    forall i | 0 <= i < |r| ensures r[i].timestamp != timestamp {
      assert r[i] in r;
    }
    WithoutAbsent(r, timestamp);
  }
}
