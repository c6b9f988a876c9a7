/**
 * The message router of background/service-worker.js and the handlers it
 * dispatches to, over a SnapshotStore. Message names are the MSG constants
 * of shared/message-types.js, taken to be spelled as their own names.
 */
module ServiceWorker {
  import opened Wrappers
  import opened Text
  import opened Snapshots
  import opened FollowerTracker
  import opened StorageManager

  const SCAN_FOLLOWERS := "SCAN_FOLLOWERS"
  const SCAN_FOLLOWERS_COMPLETE := "SCAN_FOLLOWERS_COMPLETE"
  const GET_SNAPSHOTS := "GET_SNAPSHOTS"
  const GET_DIFF := "GET_DIFF"
  const DELETE_SNAPSHOT := "DELETE_SNAPSHOT"
  /** Sent by the popup's import; handleMessage has no case for it. */
  const IMPORT_SNAPSHOTS := "IMPORT_SNAPSHOTS"

  /** A runtime message; `followers` and `scannedUser` may be missing. */
  datatype Message = Message(
    kind: string,
    followers: Option<seq<Follower>>,
    scannedUser: Option<string>,
    olderTimestamp: int,
    newerTimestamp: int,
    timestamp: int)

  /** The active tab found by chrome.tabs.query; its `url` may be missing. */
  datatype Tab = Tab(url: Option<string>)

  /** What the listener hands to sendResponse. */
  datatype Response =
    | Error(error: string)
    | Started
    | ScanSaved(snapshot: Snapshot, totalSnapshots: nat)
    | SnapshotList(snapshots: seq<Snapshot>)
    | DiffResult(diff: Diff)
      /** A handler threw (a TypeError on a missing followers array); the listener answers `{ error: err.message }`. */
    | Thrown

  /** The handler `switch (message.type)` selects. */
  datatype Route = ScanFollowers | ScanComplete | ListSnapshots | GetDiff | Delete | Unknown

  function RouteOf(kind: string): Route {
    if kind == SCAN_FOLLOWERS then ScanFollowers
    else if kind == SCAN_FOLLOWERS_COMPLETE then ScanComplete
    else if kind == GET_SNAPSHOTS then ListSnapshots
    else if kind == GET_DIFF then GetDiff
    else if kind == DELETE_SNAPSHOT then Delete
    else Unknown
  }

  /** The import message is not routed anywhere: it gets the unknown-type error. */
  lemma ImportFallsThrough()
    ensures RouteOf(IMPORT_SNAPSHOTS) == Unknown
  {
  }

  /** `snapshots.find((s) => s.timestamp === timestamp)`: the first entry with that timestamp. */
  function FindByTimestamp(snapshots: seq<Snapshot>, timestamp: int): (r: Option<Snapshot>)
    ensures r.None? <==> forall i :: 0 <= i < |snapshots| ==> snapshots[i].timestamp != timestamp
    ensures forall i :: 0 <= i < |snapshots| && snapshots[i].timestamp == timestamp
                        && (forall j :: 0 <= j < i ==> snapshots[j].timestamp != timestamp)
                        ==> r == Some(snapshots[i])
    decreases |snapshots|
  {
    if snapshots == [] then None
    else if snapshots[0].timestamp == timestamp then Some(snapshots[0])
    else
      var r := FindByTimestamp(snapshots[1..], timestamp);
      assert forall i :: 0 < i < |snapshots| ==> snapshots[i] == snapshots[1..][i - 1];
      r
  }

  /** The URL guard of handleScanFollowers: a tab whose URL mentions instagram.com. */
  predicate OnInstagram(tab: Option<Tab>) {
    tab.Some? && tab.value.url.Some? && Contains(tab.value.url.value, "instagram.com")
  }

  /**
   * handleScanFollowers: an error unless the active tab is on instagram.com,
   * otherwise `{ started: true }` (the scan request to the tab is not modelled).
   */
  function ScanFollowersReply(tab: Option<Tab>): (r: Response)
    ensures r == Started || r == Error("Please navigate to an Instagram profile page first.")
    ensures r == Started <==> OnInstagram(tab)
  {
    if !OnInstagram(tab) then Error("Please navigate to an Instagram profile page first.") else Started
  }

  /**
   * The answers handleGetDiff may give for a stored list: an error when a
   * timestamp is not found, otherwise the diff of the first snapshot with
   * each timestamp (or the exception computeDiff raises on one without followers).
   */
  ghost predicate GetDiffReply(stored: seq<Snapshot>, olderTimestamp: int, newerTimestamp: int, resp: Response) {
    var snapshots := MigrateAll(stored);
    var older := FindByTimestamp(snapshots, olderTimestamp);
    var newer := FindByTimestamp(snapshots, newerTimestamp);
    && (older.None? || newer.None? ==> resp == Error("One or both snapshots not found."))
    && (older.Some? && newer.Some? ==>
          if older.value.followers.Some? && newer.value.followers.Some?
          then resp.DiffResult? && IsDiff(older.value, newer.value, resp.diff)
          else resp == Thrown)
  }

  /** handleGetDiff: look both timestamps up in the (migrated) store and diff them. */
  method HandleGetDiff(store: SnapshotStore, olderTimestamp: int, newerTimestamp: int) returns (resp: Response)
    ensures GetDiffReply(store.snapshots, olderTimestamp, newerTimestamp, resp)
  {
    var snapshots := store.GetSnapshots();
    var older := FindByTimestamp(snapshots, olderTimestamp);
    var newer := FindByTimestamp(snapshots, newerTimestamp);
    if older.None? || newer.None? {
      return Error("One or both snapshots not found.");
    }
    if older.value.followers.None? || newer.value.followers.None? {
      return Thrown;
    }
    var diff := ComputeDiff(older.value, newer.value);
    resp := DiffResult(diff);
  }

  /**
   * handleScanComplete: build the snapshot (scannedUser defaulting to ""),
   * save it, and report it with the length of the stored list after the save.
   */
  method HandleScanComplete(store: SnapshotStore, message: Message, now: int, isoDate: string)
    returns (resp: Response)
    modifies store
    ensures message.followers.None? ==> resp == Thrown && store.snapshots == old(store.snapshots)
    ensures message.followers.Some? ==>
      var snapshot := CreateSnapshot(message.followers.value, message.scannedUser.GetOr(""), now, isoDate);
      && store.snapshots == Saved(old(store.snapshots), snapshot)
      && resp == ScanSaved(snapshot, |store.snapshots|)
      && 1 <= resp.totalSnapshots <= MAX_SNAPSHOTS
      && store.snapshots[0] == snapshot
  {
    if message.followers.None? {
      return Thrown;
    }
    var snapshot := CreateSnapshot(message.followers.value, message.scannedUser.GetOr(""), now, isoDate);
    ghost var stored := store.snapshots;
    var snapshots := store.SaveSnapshot(snapshot);
    SavedShape(stored, snapshot);
    resp := ScanSaved(snapshot, |snapshots|);
  }

  /** handleMessage: dispatch on the message type; anything unrecognised gets an error naming it. */
  method HandleMessage(store: SnapshotStore, message: Message, activeTab: Option<Tab>, now: int, isoDate: string)
    returns (resp: Response)
    modifies store
    ensures RouteOf(message.kind) == Unknown ==>
      resp == Error("Unknown message type: " + message.kind) && store.snapshots == old(store.snapshots)
    ensures RouteOf(message.kind) == ScanFollowers ==>
      resp == ScanFollowersReply(activeTab) && store.snapshots == old(store.snapshots)
    ensures RouteOf(message.kind) == ListSnapshots ==>
      resp == SnapshotList(MigrateAll(store.snapshots)) && store.snapshots == old(store.snapshots)
    ensures RouteOf(message.kind) == Delete ==>
      store.snapshots == Without(old(store.snapshots), message.timestamp) && resp == SnapshotList(store.snapshots)
    ensures RouteOf(message.kind) == GetDiff ==>
      store.snapshots == old(store.snapshots)
      && GetDiffReply(store.snapshots, message.olderTimestamp, message.newerTimestamp, resp)
    ensures RouteOf(message.kind) == ScanComplete && message.followers.None? ==>
      resp == Thrown && store.snapshots == old(store.snapshots)
    ensures RouteOf(message.kind) == ScanComplete && message.followers.Some? ==>
      var snapshot := CreateSnapshot(message.followers.value, message.scannedUser.GetOr(""), now, isoDate);
      && store.snapshots == Saved(old(store.snapshots), snapshot)
      && resp == ScanSaved(snapshot, |store.snapshots|)
      && 1 <= resp.totalSnapshots <= MAX_SNAPSHOTS
  {
    match RouteOf(message.kind)
    case ScanFollowers =>
      resp := ScanFollowersReply(activeTab);
    case ScanComplete =>
      resp := HandleScanComplete(store, message, now, isoDate);
    case ListSnapshots =>
      var snapshots := store.GetSnapshots();
      resp := SnapshotList(snapshots);
    case GetDiff =>
      resp := HandleGetDiff(store, message.olderTimestamp, message.newerTimestamp);
    case Delete =>
      var snapshots := store.DeleteSnapshot(message.timestamp);
      resp := SnapshotList(snapshots);
    case Unknown =>
      resp := Error("Unknown message type: " + message.kind);
  }

  /** Deleting through the router with a timestamp that is not stored answers with the list as it was. */
  lemma DeleteAbsentIsNoOp(stored: seq<Snapshot>, timestamp: int)
    requires FindByTimestamp(stored, timestamp).None?
    ensures Without(stored, timestamp) == stored
  {
    WithoutAbsent(stored, timestamp);
  }

  /** A snapshot the scan-complete handler saved can be found again by its timestamp, and comes back as saved. */
  lemma SavedSnapshotIsFound(stored: seq<Snapshot>, snapshot: Snapshot)
    requires snapshot.followers.Some?
    ensures FindByTimestamp(MigrateAll(Saved(stored, snapshot)), snapshot.timestamp) == Some(snapshot)
  {
    var l := MigrateAll(Saved(stored, snapshot));
    assert l[0] == Migrate(snapshot) == snapshot;
  }
}
