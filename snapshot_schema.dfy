/**
 * The import validators of shared/snapshot-schema.js over parsed JSON:
 * validateSnapshot checks and normalises one snapshot object (upgrading the
 * legacy `usernames` form), validateExportData checks a whole export file.
 */
module SnapshotSchema {
  import opened Wrappers
  import opened Text
  import opened Snapshots

  /** A value produced by JSON.parse; numbers are integers in this model. */
  datatype JValue =
    | JNull
    | JBool(b: bool)
    | JNum(n: int)
    | JStr(s: string)
    | JArr(items: seq<JValue>)
    | JObj(fields: map<string, JValue>)

  /** JavaScript truthiness of a parsed value. */
  predicate Truthy(v: JValue) {
    match v
    case JNull => false
    case JBool(b) => b
    case JNum(n) => n != 0
    case JStr(s) => s != ""
    case _ => true
  }

  /** `v && typeof v === "object"`: arrays and objects. */
  predicate IsObject(v: JValue) {
    v.JArr? || v.JObj?
  }

  /** Reading the property `key`; none of the names used here exist on arrays or primitives. */
  function Field(v: JValue, key: string): Option<JValue> {
    if v.JObj? && key in v.fields then Some(v.fields[key]) else None
  }

  predicate IsNumberField(v: JValue, key: string) {
    Field(v, key).Some? && Field(v, key).value.JNum?
  }

  predicate IsStringField(v: JValue, key: string) {
    Field(v, key).Some? && Field(v, key).value.JStr?
  }

  predicate IsArrayField(v: JValue, key: string) {
    Field(v, key).Some? && Field(v, key).value.JArr?
  }

  /** `typeof v[key] === "string" ? v[key] : ""` */
  function StringOrEmpty(v: JValue, key: string): string {
    if IsStringField(v, key) then Field(v, key).value.s else ""
  }

  /** `String(v)`; an array joins its elements with commas, null elements printing as nothing. */
  function ToJsString(v: JValue): string
    decreases v, if v.JArr? then |v.items| + 1 else 0
  {
    match v
    case JNull => "null"
    case JBool(b) => if b then "true" else "false"
    case JNum(n) => IntToString(n)
    case JStr(s) => s
    case JArr(items) => JoinFrom(v, 0)
    case JObj(_) => "[object Object]"
  }

  /** `v.items.slice(from).join(",")` */
  function JoinFrom(v: JValue, from: nat): string
    requires v.JArr? && from <= |v.items|
    decreases v, |v.items| - from
  {
    if from == |v.items| then ""
    else
      var item := v.items[from];
      assert item in v.items;
      var text := if item.JNull? then "" else ToJsString(item);
      if from + 1 == |v.items| then text else text + "," + JoinFrom(v, from + 1)
  }

  /** The least index whose element satisfies `bad`, or `|s|` when none does. */
  function FirstIndex<T>(s: seq<T>, bad: T -> bool): (k: nat)
    ensures k <= |s|
    ensures forall j :: 0 <= j < k ==> !bad(s[j])
    ensures k < |s| ==> bad(s[k])
    decreases |s|
  {
    if s == [] then 0 else if bad(s[0]) then 0 else 1 + FirstIndex(s[1..], bad)
  }

  // ---------------------------------------------------------------------------
  // validateSnapshot
  // ---------------------------------------------------------------------------

  /** `!f || typeof f !== "object" || typeof f.username !== "string"` */
  predicate InvalidFollower(f: JValue) {
    !IsObject(f) || !IsStringField(f, "username")
  }

  /** The follower object the legacy branch synthesises from one `usernames` entry. */
  function LegacyFollower(u: JValue): JValue {
    JObj(map["username" := JStr(ToJsString(u)), "fullName" := JStr(""), "profilePicUrl" := JStr("")])
  }

  function LegacyFollowers(usernames: seq<JValue>): (fs: seq<JValue>)
    ensures |fs| == |usernames|
  {
    seq(|usernames|, i requires 0 <= i < |usernames| => LegacyFollower(usernames[i]))
  }

  /** The follower entries validation goes on with: `followers`, or those synthesised from `usernames`. */
  function FollowerEntries(obj: JValue): Option<seq<JValue>> {
    if IsArrayField(obj, "followers") then Some(Field(obj, "followers").value.items)
    else if IsArrayField(obj, "usernames") then Some(LegacyFollowers(Field(obj, "usernames").value.items))
    else None
  }

  function NormalizeFollower(f: JValue): Follower
    requires !InvalidFollower(f)
  {
    Follower(Field(f, "username").value.s, StringOrEmpty(f, "fullName"), StringOrEmpty(f, "profilePicUrl"))
  }

  /** The normalised snapshot of an object that passed every check. */
  function Normalized(obj: JValue, entries: seq<JValue>): Snapshot
    requires IsNumberField(obj, "timestamp")
    requires forall i :: 0 <= i < |entries| ==> !InvalidFollower(entries[i])
  {
    Snapshot(
      Field(obj, "timestamp").value.n,
      None,
      Some(StringOrEmpty(obj, "scannedUser")),
      Some(seq(|entries|, i requires 0 <= i < |entries| => NormalizeFollower(entries[i]))),
      None,
      if IsNumberField(obj, "count") then Field(obj, "count").value.n else |entries|)
  }

  /** What validateSnapshot answers for `obj`: the first failed check's reason, or the normalised snapshot. */
  function SnapshotVerdict(obj: JValue): Result<Snapshot> {
    if !Truthy(obj) || !IsObject(obj) then Err("Snapshot must be an object.")
    else if !IsNumberField(obj, "timestamp") || Field(obj, "timestamp").value.n <= 0 then
      Err("Snapshot missing valid timestamp.")
    else match FollowerEntries(obj)
      case None => Err("Snapshot missing followers array.")
      case Some(entries) =>
        var k := FirstIndex(entries, InvalidFollower);
        if k < |entries| then Err("Invalid follower at index " + NatToString(k) + ".")
        else Ok(Normalized(obj, entries))
  }

  /** validateSnapshot(obj) */
  method ValidateSnapshot(input: JValue) returns (r: Result<Snapshot>)
    ensures r == SnapshotVerdict(input)
  {
    var obj := input;
    if !Truthy(obj) || !IsObject(obj) {
      return Err("Snapshot must be an object.");
    }
    if !IsNumberField(obj, "timestamp") || Field(obj, "timestamp").value.n <= 0 {
      return Err("Snapshot missing valid timestamp.");
    }
    if !IsArrayField(obj, "followers") {
      if IsArrayField(obj, "usernames") {
        obj := JObj(obj.fields["followers" := JArr(LegacyFollowers(Field(obj, "usernames").value.items))]);
      } else {
        return Err("Snapshot missing followers array.");
      }
    }
    var entries := Field(obj, "followers").value.items;
    assert FollowerEntries(input) == Some(entries);
    for i := 0 to |entries|
      invariant forall j :: 0 <= j < i ==> !InvalidFollower(entries[j])
    {
      if InvalidFollower(entries[i]) {
        return Err("Invalid follower at index " + NatToString(i) + ".");
      }
    }
    var followers := seq(|entries|, i requires 0 <= i < |entries| => NormalizeFollower(entries[i]));
    r := Ok(Snapshot(
      Field(obj, "timestamp").value.n,
      None,
      Some(StringOrEmpty(obj, "scannedUser")),
      Some(followers),
      None,
      if IsNumberField(obj, "count") then Field(obj, "count").value.n else |followers|));
    assert r == Ok(Normalized(input, entries));
  }

  /** A null, falsy or non-object input is rejected before anything else is looked at. */
  lemma RejectsNonObject(obj: JValue)
    requires !Truthy(obj) || !IsObject(obj)
    ensures SnapshotVerdict(obj) == Err("Snapshot must be an object.")
  {
  }

  /** An object without a positive numeric timestamp is rejected. */
  lemma RejectsBadTimestamp(obj: JValue)
    requires obj.JObj?
    requires !IsNumberField(obj, "timestamp") || Field(obj, "timestamp").value.n <= 0
    ensures SnapshotVerdict(obj) == Err("Snapshot missing valid timestamp.")
  {
  }

  /** With neither a followers array nor a usernames array the input is rejected. */
  lemma RejectsMissingFollowers(obj: JValue)
    requires obj.JObj? && IsNumberField(obj, "timestamp") && Field(obj, "timestamp").value.n > 0
    requires !IsArrayField(obj, "followers") && !IsArrayField(obj, "usernames")
    ensures SnapshotVerdict(obj) == Err("Snapshot missing followers array.")
  {
  }

  /**
   * When follower entry `i` is the first that is not an object with a string
   * username, the reason names index `i`, and only that index.
   */
  lemma RejectsFirstInvalidFollower(obj: JValue, i: nat)
    requires obj.JObj? && IsNumberField(obj, "timestamp") && Field(obj, "timestamp").value.n > 0
    requires FollowerEntries(obj).Some?
    requires i < |FollowerEntries(obj).value| && InvalidFollower(FollowerEntries(obj).value[i])
    requires forall j :: 0 <= j < i ==> !InvalidFollower(FollowerEntries(obj).value[j])
    ensures SnapshotVerdict(obj) == Err("Invalid follower at index " + NatToString(i) + ".")
  {
    var entries := FollowerEntries(obj).value;
    var k := FirstIndex(entries, InvalidFollower);
    assert k >= i by {
      assert k < |entries| ==> InvalidFollower(entries[k]);
    }
  }

  /**
   * On success the timestamp is copied, count is `obj.count` when numeric and
   * the follower count otherwise, a non-string scannedUser becomes "", and the
   * followers keep their number, order and usernames, with non-string
   * fullName and profilePicUrl turned into "".
   */
  lemma AcceptedSnapshotShape(obj: JValue)
    requires SnapshotVerdict(obj).Ok?
    ensures FollowerEntries(obj).Some?
    ensures
      var s := SnapshotVerdict(obj).value;
      var entries := FollowerEntries(obj).value;
      && IsNumberField(obj, "timestamp")
      && s.timestamp == Field(obj, "timestamp").value.n > 0
      && s.count == (if IsNumberField(obj, "count") then Field(obj, "count").value.n else |entries|)
      && s.scannedUser == Some(StringOrEmpty(obj, "scannedUser"))
      && s.date.None? && s.usernames.None? && s.followers.Some?
      && |s.followers.value| == |entries|
      && forall i :: 0 <= i < |entries| ==>
           && IsStringField(entries[i], "username")
           && s.followers.value[i].username == Field(entries[i], "username").value.s
           && s.followers.value[i].fullName == StringOrEmpty(entries[i], "fullName")
           && s.followers.value[i].profilePicUrl == StringOrEmpty(entries[i], "profilePicUrl")
  {
    var entries := FollowerEntries(obj).value;
    var k := FirstIndex(entries, InvalidFollower);
    assert k == |entries|;
  }

  /**
   * A legacy object (no followers array, a usernames array) is accepted with
   * one follower per entry: the entry as a string, empty name and picture.
   */
  lemma AcceptsLegacyUsernames(obj: JValue)
    requires obj.JObj? && IsNumberField(obj, "timestamp") && Field(obj, "timestamp").value.n > 0
    requires !IsArrayField(obj, "followers") && IsArrayField(obj, "usernames")
    ensures SnapshotVerdict(obj).Ok?
    ensures
      var usernames := Field(obj, "usernames").value.items;
      var s := SnapshotVerdict(obj).value;
      && s.followers.Some? && |s.followers.value| == |usernames|
      && forall i :: 0 <= i < |usernames| ==> s.followers.value[i] == Follower(ToJsString(usernames[i]), "", "")
  {
    var entries := FollowerEntries(obj).value;
    assert forall i :: 0 <= i < |entries| ==> !InvalidFollower(entries[i]);
    var k := FirstIndex(entries, InvalidFollower);
    assert k == |entries|;
  }

  // ---------------------------------------------------------------------------
  // validateExportData
  // ---------------------------------------------------------------------------

  /** The snapshot list of an export file: the array itself, or the `snapshots` array of a wrapper. */
  function SnapshotArray(data: JValue): Option<seq<JValue>> {
    if data.JArr? then Some(data.items)
    else if IsArrayField(data, "snapshots") then Some(Field(data, "snapshots").value.items)
    else None
  }

  predicate Rejected(v: JValue) {
    SnapshotVerdict(v).Err?
  }

  /** What validateExportData answers for `data`. */
  function ExportVerdict(data: JValue): Result<seq<Snapshot>> {
    if !Truthy(data) then Err("File is empty or not valid JSON.")
    else match SnapshotArray(data)
      case None => Err("Expected an array of snapshots or { snapshots: [...] }.")
      case Some(arr) =>
        if arr == [] then Err("No snapshots found in file.")
        else
          var k := FirstIndex(arr, Rejected);
          if k < |arr| then Err("Snapshot #" + NatToString(k + 1) + ": " + SnapshotVerdict(arr[k]).reason)
          else Ok(seq(|arr|, i requires 0 <= i < |arr| => SnapshotVerdict(arr[i]).value))
  }

  /** validateExportData(data) */
  method ValidateExportData(data: JValue) returns (r: Result<seq<Snapshot>>)
    ensures r == ExportVerdict(data)
  {
    if !Truthy(data) {
      return Err("File is empty or not valid JSON.");
    }
    var arr: seq<JValue>;
    if data.JArr? {
      arr := data.items;
    } else if IsArrayField(data, "snapshots") {
      arr := Field(data, "snapshots").value.items;
    } else {
      return Err("Expected an array of snapshots or { snapshots: [...] }.");
    }
    assert SnapshotArray(data) == Some(arr);
    if |arr| == 0 {
      return Err("No snapshots found in file.");
    }
    var validated: seq<Snapshot> := [];
    for i := 0 to |arr|
      invariant |validated| == i
      invariant forall j :: 0 <= j < i ==> !Rejected(arr[j]) && validated[j] == SnapshotVerdict(arr[j]).value
    {
      var result := ValidateSnapshot(arr[i]);
      if result.Err? {
        ExportNamesFirstRejected(data, i);
        return Err("Snapshot #" + NatToString(i + 1) + ": " + result.reason);
      }
      validated := validated + [result.value];
    }
    ExportAcceptsAll(data, arr);
    assert validated == seq(|arr|, i requires 0 <= i < |arr| => SnapshotVerdict(arr[i]).value);
    r := Ok(validated);
  }

  /** A non-empty list none of whose elements is rejected is accepted, each element normalised. */
  lemma ExportAcceptsAll(data: JValue, arr: seq<JValue>)
    requires Truthy(data) && SnapshotArray(data) == Some(arr) && arr != []
    requires forall j :: 0 <= j < |arr| ==> SnapshotVerdict(arr[j]).Ok?
    ensures ExportVerdict(data) == Ok(seq(|arr|, i requires 0 <= i < |arr| => SnapshotVerdict(arr[i]).value))
  {
    assert FirstIndex(arr, Rejected) == |arr|;
  }

  /** Falsy input, input that is neither an array nor a snapshots wrapper, and an empty list are rejected. */
  lemma ExportRejectsEmptyOrMalformed(data: JValue)
    requires !Truthy(data) || SnapshotArray(data).None? || SnapshotArray(data) == Some([])
    ensures ExportVerdict(data).Err?
  {
  }

  /**
   * Fail-fast: when element `k` is the first invalid one the whole file is
   * rejected with a reason that numbers it from one and quotes its own reason.
   */
  lemma ExportNamesFirstRejected(data: JValue, k: nat)
    requires Truthy(data) && SnapshotArray(data).Some?
    requires k < |SnapshotArray(data).value| && Rejected(SnapshotArray(data).value[k])
    requires forall j :: 0 <= j < k ==> !Rejected(SnapshotArray(data).value[j])
    ensures ExportVerdict(data)
         == Err("Snapshot #" + NatToString(k + 1) + ": " + SnapshotVerdict(SnapshotArray(data).value[k]).reason)
  {
    var arr := SnapshotArray(data).value;
    var first := FirstIndex(arr, Rejected);
    assert first >= k by {
      assert first < |arr| ==> Rejected(arr[first]);
    }
  }

  /** On success the file's snapshots come back normalised, as many and in the same order. */
  lemma ExportAcceptedShape(data: JValue)
    requires ExportVerdict(data).Ok?
    ensures SnapshotArray(data).Some?
    ensures
      var arr := SnapshotArray(data).value;
      var out := ExportVerdict(data).value;
      && |out| == |arr| > 0
      && forall i :: 0 <= i < |arr| ==> SnapshotVerdict(arr[i]) == Ok(out[i])
  {
    var arr := SnapshotArray(data).value;
    assert FirstIndex(arr, Rejected) == |arr|;
  }
}
