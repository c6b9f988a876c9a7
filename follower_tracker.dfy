/**
 * The snapshot diff engine of background/follower-tracker.js: computeDiff
 * splits two follower lists into unfollowed, new and unchanged records, and
 * createSnapshot deduplicates and sorts a scanned list.
 */
module FollowerTracker {
  import opened Wrappers
  import opened Text
  import opened Snapshots

  // ---------------------------------------------------------------------------
  // Lists keyed by username
  // ---------------------------------------------------------------------------

  /** The usernames occurring in `l`. */
  function Usernames(l: seq<Follower>): set<string> {
    set i | 0 <= i < |l| :: l[i].username
  }

  ghost predicate DistinctUsernames(l: seq<Follower>) {
    forall i, j :: 0 <= i < j < |l| ==> l[i].username != l[j].username
  }

  /** Ascending by username with no username twice. */
  ghost predicate StrictlySorted(l: seq<Follower>) {
    forall i, j :: 0 <= i < j < |l| ==> Less(l[i].username, l[j].username)
  }

  /** Every record of `l` is the one `m` holds for its username. */
  ghost predicate ValuesFrom(l: seq<Follower>, m: map<string, Follower>) {
    forall i :: 0 <= i < |l| ==> l[i].username in m && m[l[i].username] == l[i]
  }

  /**
   * `l` lists the records `m` holds for the usernames in `keys`, one record
   * per username, in ascending username order.
   */
  ghost predicate Listing(l: seq<Follower>, keys: set<string>, m: map<string, Follower>) {
    && StrictlySorted(l)
    && Usernames(l) == keys
    && ValuesFrom(l, m)
  }

  /** No record after position `i` has the username of `l[i]`. */
  ghost predicate LastWithName(l: seq<Follower>, i: int)
    requires 0 <= i < |l|
  {
    forall j :: i < j < |l| ==> l[j].username != l[i].username
  }

  lemma UsernamesSnoc(l: seq<Follower>)
    requires l != []
    ensures Usernames(l) == Usernames(l[..|l| - 1]) + {l[|l| - 1].username}
  {
    var prefix := l[..|l| - 1];
    assert forall i :: 0 <= i < |prefix| ==> prefix[i] == l[i];
  }

  lemma UsernamesEmpty(l: seq<Follower>)
    ensures Usernames(l) == {} <==> l == []
  {
    if l != [] {
      assert l[0].username in Usernames(l);
    }
  }

  lemma UsernamesSingleton(x: Follower)
    ensures Usernames([x]) == {x.username}
  {
    assert [x][0] == x;
  }

  /**
   * `new Map(l.map((f) => [f.username, f]))` read as a dictionary: a later
   * record with the same username overwrites an earlier one.
   */
  function ByUsername(l: seq<Follower>): (m: map<string, Follower>)
    ensures m.Keys == Usernames(l)
    ensures forall u :: u in m ==> m[u].username == u
    decreases |l|
  {
    if l == [] then map[]
    else
      UsernamesSnoc(l);
      ByUsername(l[..|l| - 1])[l[|l| - 1].username := l[|l| - 1]]
  }

  /** Map construction keeps the last record given for each username. */
  lemma {:induction false} ByUsernameKeepsLast(l: seq<Follower>, i: nat)
    requires i < |l| && LastWithName(l, i)
    ensures ByUsername(l)[l[i].username] == l[i]
    decreases |l|
  {
    if i < |l| - 1 {
      var prefix := l[..|l| - 1];
      assert prefix[i] == l[i];
      assert LastWithName(prefix, i) by {
        forall j | i < j < |prefix| ensures prefix[j].username != prefix[i].username {
          assert prefix[j] == l[j];
        }
      }
      ByUsernameKeepsLast(prefix, i);
      assert l[|l| - 1].username != l[i].username;
    }
  }

  /** The key order of that Map: each username once, where it first occurs. */
  function InsertionOrder(l: seq<Follower>): (keys: seq<string>)
    ensures forall i, j :: 0 <= i < j < |keys| ==> keys[i] != keys[j]
    ensures forall k :: k in keys <==> k in Usernames(l)
    decreases |l|
  {
    if l == [] then []
    else
      var prefix := l[..|l| - 1];
      UsernamesSnoc(l);
      var keys := InsertionOrder(prefix);
      if l[|l| - 1].username in keys then keys else keys + [l[|l| - 1].username]
  }

  // ---------------------------------------------------------------------------
  // Sorting (Array.prototype.sort with a username comparator)
  // ---------------------------------------------------------------------------

  function Insert(x: Follower, s: seq<Follower>): (r: seq<Follower>)
    ensures multiset(r) == multiset(s) + multiset{x}
    decreases |s|
  {
    if s == [] then [x]
    else if Less(s[0].username, x.username) then
      assert s == [s[0]] + s[1..];
      [s[0]] + Insert(x, s[1..])
    else [x] + s
  }

  /** `l.sort((a, b) => a.username.localeCompare(b.username))` */
  function SortByUsername(s: seq<Follower>): (r: seq<Follower>)
    ensures multiset(r) == multiset(s)
    decreases |s|
  {
    if s == [] then []
    else
      assert s == [s[0]] + s[1..];
      Insert(s[0], SortByUsername(s[1..]))
  }

  lemma SameMultisetSameUsernames(a: seq<Follower>, b: seq<Follower>)
    requires multiset(a) == multiset(b)
    ensures Usernames(a) == Usernames(b)
  {
    forall u | u in Usernames(a) ensures u in Usernames(b) {
      var i :| 0 <= i < |a| && a[i].username == u;
      assert a[i] in multiset(b);
    }
    forall u | u in Usernames(b) ensures u in Usernames(a) {
      var i :| 0 <= i < |b| && b[i].username == u;
      assert b[i] in multiset(a);
    }
  }

  lemma {:induction false} InsertStrictlySorted(x: Follower, s: seq<Follower>)
    requires StrictlySorted(s) && x.username !in Usernames(s)
    ensures StrictlySorted(Insert(x, s))
    decreases |s|
  {
    if s != [] {
      if Less(s[0].username, x.username) {
        var tail := s[1..];
        assert Usernames(tail) <= Usernames(s) by {
          forall k | 0 <= k < |tail| ensures tail[k].username in Usernames(s) {
            assert tail[k] == s[k + 1];
          }
        }
        InsertStrictlySorted(x, tail);
        InsertBehindHead(x, s);
      } else {
        InsertAtHead(x, s);
      }
    }
  }

  /** A bound below the new record and below every record of `s` stays below every record after the insert. */
  lemma {:induction false} InsertAbove(x: Follower, s: seq<Follower>, low: string)
    requires Less(low, x.username)
    requires forall k :: 0 <= k < |s| ==> Less(low, s[k].username)
    ensures forall j :: 0 <= j < |Insert(x, s)| ==> Less(low, Insert(x, s)[j].username)
    decreases |s|
  {
    if s != [] && Less(s[0].username, x.username) {
      InsertAbove(x, s[1..], low);
      assert Insert(x, s) == [s[0]] + Insert(x, s[1..]);
    }
  }

  /** Inserting past a smaller head keeps the head in front of a sorted rest. */
  lemma InsertBehindHead(x: Follower, s: seq<Follower>)
    requires s != [] && Less(s[0].username, x.username)
    requires StrictlySorted(s) && StrictlySorted(Insert(x, s[1..]))
    ensures StrictlySorted(Insert(x, s))
  {
    var tail := s[1..];
    var t := Insert(x, tail);
    var r := Insert(x, s);
    assert r == [s[0]] + t;
    forall k | 0 <= k < |tail| ensures Less(s[0].username, tail[k].username) {
      assert tail[k] == s[k + 1];
    }
    InsertAbove(x, tail, s[0].username);
    forall i, j | 0 <= i < j < |r| ensures Less(r[i].username, r[j].username) {
      if i > 0 {
        assert r[i] == t[i - 1] && r[j] == t[j - 1];
      } else {
        assert r[j] == t[j - 1];
      }
    }
  }

  /** Inserting before a head that is not smaller puts the new record first. */
  lemma InsertAtHead(x: Follower, s: seq<Follower>)
    requires s != [] && !Less(s[0].username, x.username)
    requires StrictlySorted(s) && x.username !in Usernames(s)
    ensures StrictlySorted(Insert(x, s))
  {
    LessTotal(s[0].username, x.username);
    assert x.username != s[0].username;
    forall k | 0 < k < |s| ensures Less(x.username, s[k].username) {
      LessTransitive(x.username, s[0].username, s[k].username);
    }
    var r := Insert(x, s);
    assert r == [x] + s;
    forall i, j | 0 <= i < j < |r| ensures Less(r[i].username, r[j].username) {
      if i > 0 {
        assert r[i] == s[i - 1] && r[j] == s[j - 1];
      } else {
        assert r[j] == s[j - 1];
      }
    }
  }

  lemma {:induction false} SortStrictlySorted(s: seq<Follower>)
    requires DistinctUsernames(s)
    ensures StrictlySorted(SortByUsername(s))
    decreases |s|
  {
    if s != [] {
      var tail := s[1..];
      SortStrictlySorted(tail);
      SameMultisetSameUsernames(SortByUsername(tail), tail);
      assert s[0].username !in Usernames(tail) by {
        forall k | 0 <= k < |tail| ensures tail[k].username != s[0].username {
          assert s[k + 1] == tail[k];
        }
      }
      InsertStrictlySorted(s[0], SortByUsername(tail));
    }
  }

  /** Sorting a duplicate-free list of records taken from `m` yields its listing. */
  lemma SortIsListing(s: seq<Follower>, keys: set<string>, m: map<string, Follower>)
    requires DistinctUsernames(s) && Usernames(s) == keys && ValuesFrom(s, m)
    ensures Listing(SortByUsername(s), keys, m)
  {
    var r := SortByUsername(s);
    SortStrictlySorted(s);
    SameMultisetSameUsernames(r, s);
    forall i | 0 <= i < |r| ensures r[i].username in m && m[r[i].username] == r[i] {
      assert r[i] in multiset(s);
      var k :| 0 <= k < |s| && s[k] == r[i];
    }
  }

  /** A listing is determined by what it lists. */
  lemma {:induction false} ListingUnique(a: seq<Follower>, b: seq<Follower>, keys: set<string>, m: map<string, Follower>)
    requires Listing(a, keys, m) && Listing(b, keys, m)
    ensures a == b
    decreases |a|
  {
    if a == [] {
      UsernamesEmpty(b);
    } else {
      assert a[0].username in Usernames(b);
      assert b != [];
      var j :| 0 <= j < |b| && b[j].username == a[0].username;
      assert b[0].username in Usernames(a);
      var k :| 0 <= k < |a| && a[k].username == b[0].username;
      if j > 0 {
        if k > 0 {
          LessAsymmetric(a[0].username, b[0].username);
        } else {
          LessIrreflexive(a[0].username);
        }
      }
      assert a[0] == b[0];
      var rest := keys - {a[0].username};
      assert Usernames(a[1..]) == rest by {
        assert forall i :: 0 < i < |a| ==> a[i] == a[1..][i - 1];
        forall i | 0 < i < |a| ensures a[i].username != a[0].username {
          LessIrreflexive(a[0].username);
        }
      }
      assert Usernames(b[1..]) == rest by {
        assert forall i :: 0 < i < |b| ==> b[i] == b[1..][i - 1];
        forall i | 0 < i < |b| ensures b[i].username != b[0].username {
          LessIrreflexive(b[0].username);
        }
      }
      ListingUnique(a[1..], b[1..], rest, m);
      assert a == [a[0]] + a[1..] && b == [b[0]] + b[1..];
    }
  }

  lemma StrictlySortedDistinct(l: seq<Follower>)
    requires StrictlySorted(l)
    ensures DistinctUsernames(l)
  {
    forall i, j | 0 <= i < j < |l| ensures l[i].username != l[j].username {
      LessIrreflexive(l[i].username);
    }
  }

  /** A duplicate-free list has as many usernames as records. */
  lemma {:induction false} DistinctUsernamesCount(l: seq<Follower>)
    requires DistinctUsernames(l)
    ensures |Usernames(l)| == |l|
    decreases |l|
  {
    if l != [] {
      var prefix := l[..|l| - 1];
      assert DistinctUsernames(prefix) by {
        forall i, j | 0 <= i < j < |prefix| ensures prefix[i].username != prefix[j].username {
          assert prefix[i] == l[i] && prefix[j] == l[j];
        }
      }
      DistinctUsernamesCount(prefix);
      UsernamesSnoc(l);
      assert l[|l| - 1].username !in Usernames(prefix) by {
        forall i | 0 <= i < |prefix| ensures prefix[i].username != l[|l| - 1].username {
          assert prefix[i] == l[i];
        }
      }
    }
  }

  // ---------------------------------------------------------------------------
  // computeDiff
  // ---------------------------------------------------------------------------

  /** The object computeDiff returns (its `unchanged` field is `kept` here: `unchanged` is a Dafny keyword). */
  datatype Diff = Diff(
    unfollowed: seq<Follower>,
    newFollowers: seq<Follower>,
    kept: seq<Follower>,
    olderDate: int,
    newerDate: int,
    olderCount: nat,
    newerCount: nat,
    unchangedCount: nat)

  /**
   * `d` is the diff of `older` and `newer`: the older-only usernames with the
   * older records, the newer-only usernames with the newer records, the
   * shared usernames with the newer records, each list ascending by
   * username; the dates copied and the counts as computeDiff reports them.
   */
  ghost predicate IsDiff(older: Snapshot, newer: Snapshot, d: Diff)
    requires older.followers.Some? && newer.followers.Some?
  {
    var olderMap := ByUsername(older.followers.value);
    var newerMap := ByUsername(newer.followers.value);
    && Listing(d.unfollowed, olderMap.Keys - newerMap.Keys, olderMap)
    && Listing(d.newFollowers, newerMap.Keys - olderMap.Keys, newerMap)
    && Listing(d.kept, olderMap.Keys * newerMap.Keys, newerMap)
    && d.olderDate == older.timestamp
    && d.newerDate == newer.timestamp
    && d.olderCount == |older.followers.value|
    && d.newerCount == |newer.followers.value|
    && d.unchangedCount == |d.kept|
  }

  function Elements(keys: seq<string>): set<string> {
    set k | k in keys
  }

  /** `l` holds, once each and in any order, the records `m` has for `keys`. */
  ghost predicate Bucket(l: seq<Follower>, keys: set<string>, m: map<string, Follower>) {
    DistinctUsernames(l) && Usernames(l) == keys && ValuesFrom(l, m)
  }

  /** Pushing the record `m` holds for a username not yet in the bucket. */
  lemma Push(l: seq<Follower>, keys: set<string>, m: map<string, Follower>, u: string)
    requires Bucket(l, keys, m) && u !in keys && u in m && m[u].username == u
    ensures Bucket(l + [m[u]], keys + {u}, m)
  {
    var r := l + [m[u]];
    assert r[..|r| - 1] == l;
    UsernamesSnoc(r);
    forall i | 0 <= i < |l| ensures r[i] == l[i] && l[i].username != u {
      assert l[i].username in Usernames(l);
    }
  }

  /** How the keys seen so far split between "also in `other`" and "not in `other`" after one more key. */
  lemma SplitStep(keys: seq<string>, i: nat, other: set<string>)
    requires i < |keys|
    ensures keys[i] !in other ==> Elements(keys[..i + 1]) - other == (Elements(keys[..i]) - other) + {keys[i]}
    ensures keys[i] !in other ==> Elements(keys[..i + 1]) * other == Elements(keys[..i]) * other
    ensures keys[i] in other ==> Elements(keys[..i + 1]) - other == Elements(keys[..i]) - other
    ensures keys[i] in other ==> Elements(keys[..i + 1]) * other == (Elements(keys[..i]) * other) + {keys[i]}
  {
    assert keys[..i + 1] == keys[..i] + [keys[i]];
  }

  /** Sorting the three buckets computeDiff fills gives the diff. */
  lemma SortedBucketsAreDiff(older: Snapshot, newer: Snapshot,
                             unfollowed: seq<Follower>, newFollowers: seq<Follower>, kept: seq<Follower>)
    requires older.followers.Some? && newer.followers.Some?
    requires
      var olderMap := ByUsername(older.followers.value);
      var newerMap := ByUsername(newer.followers.value);
      && Bucket(unfollowed, olderMap.Keys - newerMap.Keys, olderMap)
      && Bucket(newFollowers, newerMap.Keys - olderMap.Keys, newerMap)
      && Bucket(kept, olderMap.Keys * newerMap.Keys, newerMap)
    ensures
      var sortedKept := SortByUsername(kept);
      IsDiff(older, newer, Diff(SortByUsername(unfollowed), SortByUsername(newFollowers), sortedKept,
                                older.timestamp, newer.timestamp,
                                |older.followers.value|, |newer.followers.value|, |sortedKept|))
  {
    var olderMap := ByUsername(older.followers.value);
    var newerMap := ByUsername(newer.followers.value);
    SortIsListing(unfollowed, olderMap.Keys - newerMap.Keys, olderMap);
    SortIsListing(newFollowers, newerMap.Keys - olderMap.Keys, newerMap);
    SortIsListing(kept, olderMap.Keys * newerMap.Keys, newerMap);
  }

  /** computeDiff's pass over the older usernames: each goes to `unfollowed` or, with its newer record, to `kept`. */
  method SplitOlder(olderKeys: seq<string>, olderMap: map<string, Follower>, newerMap: map<string, Follower>)
    returns (unfollowed: seq<Follower>, kept: seq<Follower>)
    requires forall i, j :: 0 <= i < j < |olderKeys| ==> olderKeys[i] != olderKeys[j]
    requires forall k :: k in olderKeys ==> k in olderMap
    requires forall u :: u in olderMap ==> olderMap[u].username == u
    requires forall u :: u in newerMap ==> newerMap[u].username == u
    ensures Bucket(unfollowed, Elements(olderKeys) - newerMap.Keys, olderMap)
    ensures Bucket(kept, Elements(olderKeys) * newerMap.Keys, newerMap)
  {
    unfollowed, kept := [], [];
    for i := 0 to |olderKeys|
      invariant Bucket(unfollowed, Elements(olderKeys[..i]) - newerMap.Keys, olderMap)
      invariant Bucket(kept, Elements(olderKeys[..i]) * newerMap.Keys, newerMap)
    {
      var username := olderKeys[i];
      assert username !in Elements(olderKeys[..i]);
      SplitStep(olderKeys, i, newerMap.Keys);
      if username !in newerMap {
        Push(unfollowed, Elements(olderKeys[..i]) - newerMap.Keys, olderMap, username);
        unfollowed := unfollowed + [olderMap[username]];
      } else {
        Push(kept, Elements(olderKeys[..i]) * newerMap.Keys, newerMap, username);
        kept := kept + [newerMap[username]];
      }
    }
    assert olderKeys[..|olderKeys|] == olderKeys;
  }

  /** computeDiff's pass over the newer usernames: those the older snapshot lacks go to `newFollowers`. */
  method CollectNew(newerKeys: seq<string>, newerMap: map<string, Follower>, olderMap: map<string, Follower>)
    returns (newFollowers: seq<Follower>)
    requires forall i, j :: 0 <= i < j < |newerKeys| ==> newerKeys[i] != newerKeys[j]
    requires forall k :: k in newerKeys ==> k in newerMap
    requires forall u :: u in newerMap ==> newerMap[u].username == u
    ensures Bucket(newFollowers, Elements(newerKeys) - olderMap.Keys, newerMap)
  {
    newFollowers := [];
    for i := 0 to |newerKeys|
      invariant Bucket(newFollowers, Elements(newerKeys[..i]) - olderMap.Keys, newerMap)
    {
      var username := newerKeys[i];
      assert username !in Elements(newerKeys[..i]);
      SplitStep(newerKeys, i, olderMap.Keys);
      if username !in olderMap {
        Push(newFollowers, Elements(newerKeys[..i]) - olderMap.Keys, newerMap, username);
        newFollowers := newFollowers + [newerMap[username]];
      }
    }
    assert newerKeys[..|newerKeys|] == newerKeys;
  }

  /** computeDiff(older, newer); both arguments must carry a followers array. */
  method ComputeDiff(older: Snapshot, newer: Snapshot) returns (d: Diff)
    requires older.followers.Some? && newer.followers.Some?
    ensures IsDiff(older, newer, d)
  {
    var olderList, newerList := older.followers.value, newer.followers.value;
    var olderMap, newerMap := ByUsername(olderList), ByUsername(newerList);
    var olderKeys, newerKeys := InsertionOrder(olderList), InsertionOrder(newerList);

    var unfollowed, kept := SplitOlder(olderKeys, olderMap, newerMap);
    var newFollowers := CollectNew(newerKeys, newerMap, olderMap);
    assert Elements(olderKeys) == olderMap.Keys && Elements(newerKeys) == newerMap.Keys;
    SortedBucketsAreDiff(older, newer, unfollowed, newFollowers, kept);
    unfollowed := SortByUsername(unfollowed);
    newFollowers := SortByUsername(newFollowers);
    kept := SortByUsername(kept);

    d := Diff(unfollowed, newFollowers, kept,
              older.timestamp, newer.timestamp,
              |olderList|, |newerList|, |kept|);
  }

  /** The diff of two snapshots is unique, whatever order the work is done in. */
  lemma DiffDeterministic(older: Snapshot, newer: Snapshot, d1: Diff, d2: Diff)
    requires older.followers.Some? && newer.followers.Some?
    requires IsDiff(older, newer, d1) && IsDiff(older, newer, d2)
    ensures d1 == d2
  {
    var olderMap := ByUsername(older.followers.value);
    var newerMap := ByUsername(newer.followers.value);
    ListingUnique(d1.unfollowed, d2.unfollowed, olderMap.Keys - newerMap.Keys, olderMap);
    ListingUnique(d1.newFollowers, d2.newFollowers, newerMap.Keys - olderMap.Keys, newerMap);
    ListingUnique(d1.kept, d2.kept, olderMap.Keys * newerMap.Keys, newerMap);
  }

  /**
   * The three lists partition the usernames of both snapshots: together they
   * cover all of them and no username is in two lists.
   */
  lemma DiffPartitions(older: Snapshot, newer: Snapshot, d: Diff)
    requires older.followers.Some? && newer.followers.Some?
    requires IsDiff(older, newer, d)
    ensures Usernames(d.unfollowed) + Usernames(d.newFollowers) + Usernames(d.kept)
         == Usernames(older.followers.value) + Usernames(newer.followers.value)
    ensures Usernames(d.unfollowed) !! Usernames(d.newFollowers)
    ensures Usernames(d.unfollowed) !! Usernames(d.kept)
    ensures Usernames(d.newFollowers) !! Usernames(d.kept)
  {
  }

  /** Comparing a snapshot with itself: nobody left, nobody came, everybody once. */
  lemma DiffWithItself(a: Snapshot, d: Diff)
    requires a.followers.Some? && IsDiff(a, a, d)
    ensures d.unfollowed == [] && d.newFollowers == []
    ensures Usernames(d.kept) == Usernames(a.followers.value)
    ensures d.unchangedCount == |Usernames(a.followers.value)|
  {
    UsernamesEmpty(d.unfollowed);
    UsernamesEmpty(d.newFollowers);
    StrictlySortedDistinct(d.kept);
    DistinctUsernamesCount(d.kept);
  }

  /** The worked example: {a, b} then {b, c} gives unfollowed [a], new [c], unchanged [b]. */
  lemma DiffExample(fa: Follower, fb: Follower, fb': Follower, fc: Follower, d: Diff)
    requires fa.username == "a" && fb.username == "b" && fb'.username == "b" && fc.username == "c"
    requires IsDiff(Snapshot(1, None, None, Some([fa, fb]), None, 2),
                    Snapshot(2, None, None, Some([fb', fc]), None, 2), d)
    ensures d.unfollowed == [fa] && d.newFollowers == [fc] && d.kept == [fb']
    ensures d.unchangedCount == 1 && d.olderCount == 2 && d.newerCount == 2
  {
    var olderMap := ByUsername([fa, fb]);
    var newerMap := ByUsername([fb', fc]);
    ByUsernameKeepsLast([fa, fb], 0);
    ByUsernameKeepsLast([fa, fb], 1);
    ByUsernameKeepsLast([fb', fc], 0);
    ByUsernameKeepsLast([fb', fc], 1);
    assert olderMap.Keys == {"a", "b"} && newerMap.Keys == {"b", "c"};
    UsernamesSingleton(fa);
    UsernamesSingleton(fc);
    UsernamesSingleton(fb');
    ListingUnique(d.unfollowed, [fa], {"a"}, olderMap);
    ListingUnique(d.newFollowers, [fc], {"c"}, newerMap);
    ListingUnique(d.kept, [fb'], {"b"}, newerMap);
  }

  // ---------------------------------------------------------------------------
  // createSnapshot
  // ---------------------------------------------------------------------------

  /** `[...new Map(l.map((f) => [f.username, f])).values()]` */
  function MapValues(l: seq<Follower>): (vs: seq<Follower>)
    ensures DistinctUsernames(vs) && Usernames(vs) == Usernames(l)
    ensures ValuesFrom(vs, ByUsername(l))
  {
    var keys, m := InsertionOrder(l), ByUsername(l);
    var vs := seq(|keys|, i requires 0 <= i < |keys| => m[keys[i]]);
    assert forall i :: 0 <= i < |vs| ==> vs[i] == m[keys[i]] && vs[i].username == keys[i];
    assert Usernames(vs) == Usernames(l) by {
      forall u | u in Usernames(l) ensures u in Usernames(vs) {
        var i :| 0 <= i < |keys| && keys[i] == u;
        assert vs[i].username == u;
      }
    }
    vs
  }

  /**
   * createSnapshot(followers, scannedUser), with the clock readings
   * `Date.now()` and `new Date().toISOString()` passed in as `now` and `isoDate`.
   */
  function CreateSnapshot(followers: seq<Follower>, scannedUser: string, now: int, isoDate: string): (r: Snapshot)
    ensures r.timestamp == now && r.date == Some(isoDate) && r.scannedUser == Some(scannedUser)
    ensures r.usernames == None && r.followers.Some?
    ensures Listing(r.followers.value, Usernames(followers), ByUsername(followers))
    ensures r.count == |r.followers.value| == |Usernames(followers)|
  {
    var unique := MapValues(followers);
    SortIsListing(unique, Usernames(followers), ByUsername(followers));
    var sorted := SortByUsername(unique);
    StrictlySortedDistinct(sorted);
    DistinctUsernamesCount(sorted);
    Snapshot(now, Some(isoDate), Some(scannedUser), Some(sorted), None, |sorted|)
  }

  /** Of several records with one username, the snapshot keeps the last. */
  lemma CreateSnapshotKeepsLast(followers: seq<Follower>, scannedUser: string, now: int, isoDate: string, i: nat)
    requires i < |followers| && LastWithName(followers, i)
    ensures followers[i] in CreateSnapshot(followers, scannedUser, now, isoDate).followers.value
  {
    var kept := CreateSnapshot(followers, scannedUser, now, isoDate).followers.value;
    assert followers[i].username in Usernames(kept);
    var k :| 0 <= k < |kept| && kept[k].username == followers[i].username;
    ByUsernameKeepsLast(followers, i);
  }
}
