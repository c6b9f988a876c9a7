/**
 * The export and import buttons of popup/popup-export-import.js: the export
 * projection of the stored snapshots into a JSON file, and the toast the
 * import shows once the service worker has answered.
 */
module PopupExportImport {
  import opened Wrappers
  import opened Text
  import opened Snapshots
  import opened StorageManager
  import opened ServiceWorker
  import opened SnapshotSchema
  import opened PopupFollowers

  // ---------------------------------------------------------------------------
  // Export
  // ---------------------------------------------------------------------------

  /** One element of the exported array: exactly the four fields the file carries. */
  datatype ExportedSnapshot = ExportedSnapshot(timestamp: int, count: int, scannedUser: string, followers: seq<Follower>)

  /** What the export button ends with. */
  datatype ExportOutcome =
    | NothingToExport(toast: Toast)
    | Exported(data: seq<ExportedSnapshot>, fileName: string, toast: Toast)
      /** `s.followers.map` threw on a record without followers: no file and no toast. */
    | Aborted

  /** `response.snapshots || []`: a reply without a snapshot list exports nothing. */
  function ListedSnapshots(response: Response): seq<Snapshot> {
    if response.SnapshotList? then response.snapshots else []
  }

  /** One follower as written to the file. */
  function ExportFollower(f: Follower, stripPics: bool): (e: Follower)
    ensures e.username == f.username && e.fullName == f.fullName
    ensures e.profilePicUrl == (if stripPics then "" else f.profilePicUrl)
  {
    Follower(f.username, f.fullName, if stripPics then "" else f.profilePicUrl)
  }

  function ExportFollowers(fs: seq<Follower>, stripPics: bool): (r: seq<Follower>)
    ensures |r| == |fs|
    ensures forall i :: 0 <= i < |fs| ==> r[i] == ExportFollower(fs[i], stripPics)
  {
    seq(|fs|, i requires 0 <= i < |fs| => ExportFollower(fs[i], stripPics))
  }

  /** One snapshot as written to the file; a missing `scannedUser` becomes "". */
  function ExportRecord(s: Snapshot, stripPics: bool): ExportedSnapshot
    requires s.followers.Some?
  {
    ExportedSnapshot(
      s.timestamp,
      s.count,
      if s.scannedUser.Some? then s.scannedUser.value else "",
      ExportFollowers(s.followers.value, stripPics))
  }

  /**
   * The nested `map` of handleExportSnapshots: None when some record has no
   * `followers` array, which makes the inner `map` throw.
   */
  function ExportProjection(snapshots: seq<Snapshot>, stripPics: bool): (r: Option<seq<ExportedSnapshot>>)
    ensures r.None? <==> exists i :: 0 <= i < |snapshots| && snapshots[i].followers.None?
    ensures r.Some? ==> |r.value| == |snapshots|
    ensures r.Some? ==> forall i :: 0 <= i < |snapshots| ==>
      && r.value[i].timestamp == snapshots[i].timestamp
      && r.value[i].count == snapshots[i].count
      && r.value[i].scannedUser == (if snapshots[i].scannedUser.Some? then snapshots[i].scannedUser.value else "")
      && r.value[i].followers == ExportFollowers(snapshots[i].followers.value, stripPics)
  {
    if forall i :: 0 <= i < |snapshots| ==> snapshots[i].followers.Some? then
      Some(seq(|snapshots|, i requires 0 <= i < |snapshots| => ExportRecord(snapshots[i], stripPics)))
    else
      None
  }

  /** `ig-followers-${Date.now()}.json` */
  function ExportFileName(now: int): string {
    "ig-followers-" + IntToString(now) + ".json"
  }

  /**
   * handleExportSnapshots: `response` is the service worker's answer to
   * GET_SNAPSHOTS, `stripPics` the checkbox, `now` the clock.
   */
  method HandleExportSnapshots(response: Response, stripPics: bool, now: int) returns (outcome: ExportOutcome)
    ensures ListedSnapshots(response) == [] ==> outcome == NothingToExport(Toast("No snapshots to export.", "error"))
    ensures ListedSnapshots(response) != [] ==>
      (outcome.Aborted? <==> exists i :: 0 <= i < |ListedSnapshots(response)| && ListedSnapshots(response)[i].followers.None?)
    ensures ListedSnapshots(response) != [] ==>
      (outcome.Exported? <==> ExportProjection(ListedSnapshots(response), stripPics).Some?)
    ensures outcome.Exported? ==>
      && ListedSnapshots(response) != []
      && Some(outcome.data) == ExportProjection(ListedSnapshots(response), stripPics)
      && outcome.fileName == ExportFileName(now)
      && outcome.toast == Toast("Exported " + NatToString(|ListedSnapshots(response)|) + " snapshot(s).", "success")
  {
    var snapshots := ListedSnapshots(response);
    if |snapshots| == 0 {
      return NothingToExport(Toast("No snapshots to export.", "error"));
    }
    var exportData := ExportProjection(snapshots, stripPics);
    if exportData.None? {
      return Aborted;
    }
    outcome := Exported(exportData.value, ExportFileName(now),
      Toast("Exported " + NatToString(|snapshots|) + " snapshot(s).", "success"));
  }

  /**
   * The GET_SNAPSHOTS reply is the migrated store, so the export only aborts
   * on a stored record that has neither `followers` nor `usernames`.
   */
  lemma ExportOfStoreSucceeds(stored: seq<Snapshot>, stripPics: bool)
    requires forall i :: 0 <= i < |stored| ==> stored[i].followers.Some? || stored[i].usernames.Some?
    ensures ExportProjection(ListedSnapshots(SnapshotList(MigrateAll(stored))), stripPics).Some?
  {
    var listed := MigrateAll(stored);
    forall i | 0 <= i < |listed|
      ensures listed[i].followers.Some?
    {
      MigrateHasFollowers(stored[i]);
    }
  }

  // ---------------------------------------------------------------------------
  // The file read back by the importer
  // ---------------------------------------------------------------------------

  /** `JSON.parse(JSON.stringify(f))` for an exported follower. */
  function FollowerJson(f: Follower): JValue {
    JObj(map["username" := JStr(f.username), "fullName" := JStr(f.fullName), "profilePicUrl" := JStr(f.profilePicUrl)])
  }

  /** `JSON.parse(JSON.stringify(e))` for an exported snapshot. */
  function SnapshotJson(e: ExportedSnapshot): JValue {
    JObj(map[
      "timestamp" := JNum(e.timestamp),
      "count" := JNum(e.count),
      "scannedUser" := JStr(e.scannedUser),
      "followers" := JArr(seq(|e.followers|, i requires 0 <= i < |e.followers| => FollowerJson(e.followers[i])))])
  }

  /** The parsed export file: an array of snapshot objects. */
  function ExportJson(data: seq<ExportedSnapshot>): JValue {
    JArr(seq(|data|, i requires 0 <= i < |data| => SnapshotJson(data[i])))
  }

  /** What the validator rebuilds from an exported snapshot. */
  function Reimported(e: ExportedSnapshot): Snapshot {
    Snapshot(e.timestamp, None, Some(e.scannedUser), Some(e.followers), None, e.count)
  }

  lemma FollowerJsonValid(f: Follower)
    ensures !InvalidFollower(FollowerJson(f))
    ensures NormalizeFollower(FollowerJson(f)) == f
  {
    var j := FollowerJson(f);
    assert Field(j, "username") == Some(JStr(f.username));
    assert Field(j, "fullName") == Some(JStr(f.fullName));
    assert Field(j, "profilePicUrl") == Some(JStr(f.profilePicUrl));
  }

  /** validateSnapshot accepts an exported snapshot with a positive timestamp and gives its fields back. */
  lemma SnapshotJsonValid(e: ExportedSnapshot)
    requires e.timestamp > 0
    ensures SnapshotVerdict(SnapshotJson(e)) == Ok(Reimported(e))
  {
    var j := SnapshotJson(e);
    var entries := seq(|e.followers|, i requires 0 <= i < |e.followers| => FollowerJson(e.followers[i]));
    assert Field(j, "timestamp") == Some(JNum(e.timestamp));
    assert Field(j, "count") == Some(JNum(e.count));
    assert Field(j, "scannedUser") == Some(JStr(e.scannedUser));
    assert Field(j, "followers") == Some(JArr(entries));
    assert FollowerEntries(j) == Some(entries);
    forall i | 0 <= i < |entries|
      ensures !InvalidFollower(entries[i]) && NormalizeFollower(entries[i]) == e.followers[i]
    {
      FollowerJsonValid(e.followers[i]);
    }
    var k := FirstIndex(entries, InvalidFollower);
    assert k == |entries|;
    var back := Normalized(j, entries).followers.value;
    assert |back| == |e.followers| && forall i :: 0 <= i < |back| ==> back[i] == e.followers[i];
    assert back == e.followers;
    assert IsNumberField(j, "count") && StringOrEmpty(j, "scannedUser") == e.scannedUser;
    assert Normalized(j, entries) == Reimported(e);
  }

  /**
   * Export then import: a non-empty export whose timestamps are positive
   * passes validateExportData, which gives back every snapshot's timestamp,
   * count, user and followers in the same order.
   */
  lemma ExportValidates(data: seq<ExportedSnapshot>)
    requires data != []
    requires forall i :: 0 <= i < |data| ==> data[i].timestamp > 0
    ensures ExportVerdict(ExportJson(data)) == Ok(seq(|data|, i requires 0 <= i < |data| => Reimported(data[i])))
  {
    var arr := ExportJson(data).items;
    assert SnapshotArray(ExportJson(data)) == Some(arr);
    forall i | 0 <= i < |arr|
      ensures SnapshotVerdict(arr[i]) == Ok(Reimported(data[i]))
    {
      SnapshotJsonValid(data[i]);
    }
    var k := FirstIndex(arr, Rejected);
    assert k == |arr|;
    var out := seq(|arr|, i requires 0 <= i < |arr| => SnapshotVerdict(arr[i]).value);
    assert ExportVerdict(ExportJson(data)) == Ok(out);
    assert out == seq(|data|, i requires 0 <= i < |data| => Reimported(data[i]));
  }

  /**
   * Exporting a store and importing the file keeps each follower's username
   * and full name; the picture survives unless pictures were stripped.
   */
  lemma ExportRoundTrip(snapshots: seq<Snapshot>, stripPics: bool)
    requires snapshots != []
    requires forall i :: 0 <= i < |snapshots| ==> snapshots[i].followers.Some? && snapshots[i].timestamp > 0
    ensures ExportProjection(snapshots, stripPics).Some?
    ensures
      var back := ExportVerdict(ExportJson(ExportProjection(snapshots, stripPics).value));
      && back.Ok? && |back.value| == |snapshots|
      && forall i :: 0 <= i < |snapshots| ==>
        && back.value[i].timestamp == snapshots[i].timestamp
        && back.value[i].count == snapshots[i].count
        && back.value[i].followers.Some?
        && |back.value[i].followers.value| == |snapshots[i].followers.value|
        && (!stripPics ==> back.value[i].followers == snapshots[i].followers)
  {
    var data := ExportProjection(snapshots, stripPics).value;
    ExportValidates(data);
    forall i | 0 <= i < |snapshots| && !stripPics
      ensures data[i].followers == snapshots[i].followers.value
    {
      var fs := snapshots[i].followers.value;
      assert forall j :: 0 <= j < |fs| ==> data[i].followers[j] == fs[j];
    }
  }

  // ---------------------------------------------------------------------------
  // Import
  // ---------------------------------------------------------------------------

  /** What the file input delivers to the reader's callbacks. */
  datatype ImportFile =
    | NoFile
      /** reader.onerror */
    | Unreadable
      /** reader.onload; `parsed` is None when JSON.parse throws. */
    | FileText(parsed: Option<JValue>)

  /** The reply to IMPORT_SNAPSHOTS as the popup reads it; an `error` of "" stands for a missing one. */
  datatype ImportReply = ImportReply(error: string, added: int, skipped: int)

  /** `parts.join(sep)` */
  function Join(parts: seq<string>, sep: string): string
    decreases |parts|
  {
    if parts == [] then "" else if |parts| == 1 then parts[0] else parts[0] + sep + Join(parts[1..], sep)
  }

  /** The parts of the success toast: the non-zero counts, in the order added, skipped. */
  function SummaryParts(added: int, skipped: int): seq<string> {
    (if added > 0 then [IntToString(added) + " imported"] else [])
    + (if skipped > 0 then [IntToString(skipped) + " duplicate skipped"] else [])
  }

  /** The success toast's text: the non-zero counts, joined by ", ", and a full stop. */
  function SummaryText(added: int, skipped: int): (message: string)
    ensures added > 0 && skipped > 0 ==>
      message == IntToString(added) + " imported, " + IntToString(skipped) + " duplicate skipped."
    ensures added > 0 && skipped <= 0 ==> message == IntToString(added) + " imported."
    ensures added <= 0 && skipped > 0 ==> message == IntToString(skipped) + " duplicate skipped."
    ensures added <= 0 && skipped <= 0 ==> message == "."
  {
    var parts := SummaryParts(added, skipped);
    if |parts| == 2 then
      assert Join(parts, ", ") == parts[0] + ", " + Join(parts[1..], ", ");
      Join(parts, ", ") + "."
    else
      Join(parts, ", ") + "."
  }

  /** The summary as the reader callback builds it, pushing each part in turn. */
  method ImportSummary(added: int, skipped: int) returns (message: string)
    ensures message == SummaryText(added, skipped)
  {
    var parts: seq<string> := [];
    if added > 0 {
      parts := parts + [IntToString(added) + " imported"];
    }
    if skipped > 0 {
      parts := parts + [IntToString(skipped) + " duplicate skipped"];
    }
    assert parts == SummaryParts(added, skipped);
    message := Join(parts, ", ") + ".";
  }

  /**
   * handleImportFileSelected with its reader callbacks: the parsed file goes
   * to the service worker, whose `reply` decides between an error toast and
   * the summary followed by a reload of the snapshot list.
   */
  method HandleImportFileSelected(file: ImportFile, reply: ImportReply)
    returns (sent: Option<JValue>, toast: Option<Toast>, reload: bool)
    ensures file.NoFile? ==> sent.None? && toast.None? && !reload
    ensures file.Unreadable? ==> sent.None? && toast == Some(Toast("Failed to read file.", "error")) && !reload
    ensures file.FileText? && file.parsed.None? ==>
      sent.None? && toast == Some(Toast("Invalid JSON file.", "error")) && !reload
    ensures file.FileText? && file.parsed.Some? ==> sent == file.parsed
    ensures file.FileText? && file.parsed.Some? && reply.error != "" ==>
      toast == Some(Toast(reply.error, "error")) && !reload
    ensures file.FileText? && file.parsed.Some? && reply.error == "" ==>
      toast == Some(Toast(SummaryText(reply.added, reply.skipped), "success")) && reload
  {
    sent, toast, reload := None, None, false;
    match file
    case NoFile =>
    case Unreadable =>
      toast := Some(Toast("Failed to read file.", "error"));
    case FileText(parsed) =>
      if parsed.None? {
        toast := Some(Toast("Invalid JSON file.", "error"));
        return;
      }
      sent := parsed;
      if reply.error != "" {
        toast := Some(Toast(reply.error, "error"));
        return;
      }
      var message := ImportSummary(reply.added, reply.skipped);
      toast := Some(Toast(message, "success"));
      reload := true;
  }
}
