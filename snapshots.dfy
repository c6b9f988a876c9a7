/**
 * The records the extension stores and exchanges: a follower, and a snapshot
 * as it sits in the `follower_snapshots` storage key.
 */
module Snapshots {
  import opened Wrappers

  /** One follower row; `username` is the identity key. */
  datatype Follower = Follower(username: string, fullName: string, profilePicUrl: string)

  /**
   * A stored snapshot object. Fields a JavaScript object may lack are options:
   * `date` is written only by createSnapshot, `scannedUser` is absent from
   * old records, and an old-format record carries `usernames` instead of
   * `followers`.
   */
  datatype Snapshot = Snapshot(
    timestamp: int,
    date: Option<string>,
    scannedUser: Option<string>,
    followers: Option<seq<Follower>>,
    usernames: Option<seq<string>>,
    count: int)

  /** CONFIG.MAX_SNAPSHOTS: how many snapshots the store retains. */
  const MAX_SNAPSHOTS: nat := 10
}
