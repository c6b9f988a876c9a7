/**
 * The followers tab of popup/popup-followers.js: the HTML escaping helpers,
 * the search filter over the open snapshot, the compare guard, the default
 * compare selection, and the scan button's state.
 */
module PopupFollowers {
  import opened Wrappers
  import opened Text
  import opened Snapshots

  // ---------------------------------------------------------------------------
  // escapeHTML / escapeAttr
  // ---------------------------------------------------------------------------

  /** `s.replace(/c/g, rep)` for a single character `c`. */
  function ReplaceAll(s: string, c: char, rep: string): string
    decreases |s|
  {
    if s == [] then [] else (if s[0] == c then rep else [s[0]]) + ReplaceAll(s[1..], c, rep)
  }

  /** escapeHTML(str): the four replacements, `&` first. */
  function EscapeHTML(s: string): string {
    ReplaceAll(ReplaceAll(ReplaceAll(ReplaceAll(s, '&', "&amp;"), '<', "&lt;"), '>', "&gt;"), '"', "&quot;")
  }

  /** escapeAttr(str): only double quotes are replaced. */
  function EscapeAttr(s: string): string {
    ReplaceAll(s, '"', "&quot;")
  }

  /** The entity one character becomes, as a single-pass escaper would write it. */
  function EscapeChar(c: char): string {
    if c == '&' then "&amp;"
    else if c == '<' then "&lt;"
    else if c == '>' then "&gt;"
    else if c == '"' then "&quot;"
    else [c]
  }

  /** A single-pass escaper: every character replaced by its EscapeChar. */
  function EscapeEach(s: string): string
    decreases |s|
  {
    if s == [] then [] else EscapeChar(s[0]) + EscapeEach(s[1..])
  }

  /** Decoding the four entities escapeHTML writes; anything else is copied. */
  function Unescape(t: string): string
    decreases |t|
  {
    if t == [] then []
    else if StartsWith(t, "&amp;") then ['&'] + Unescape(t[5..])
    else if StartsWith(t, "&lt;") then ['<'] + Unescape(t[4..])
    else if StartsWith(t, "&gt;") then ['>'] + Unescape(t[4..])
    else if StartsWith(t, "&quot;") then ['"'] + Unescape(t[6..])
    else [t[0]] + Unescape(t[1..])
  }

  /** `t` begins with one of the entities escapeHTML writes. */
  predicate StartsWithEntity(t: string) {
    StartsWith(t, "&amp;") || StartsWith(t, "&lt;") || StartsWith(t, "&gt;") || StartsWith(t, "&quot;")
  }

  /** A replacement works character by character, so it distributes over concatenation. */
  lemma {:induction false} ReplaceAllAppend(a: string, b: string, c: char, rep: string)
    ensures ReplaceAll(a + b, c, rep) == ReplaceAll(a, c, rep) + ReplaceAll(b, c, rep)
    decreases |a|
  {
    if a == [] {
      assert a + b == b;
    } else {
      assert (a + b)[1..] == a[1..] + b;
      ReplaceAllAppend(a[1..], b, c, rep);
    }
  }

  /** A string without the character is left as it is. */
  lemma {:induction false} ReplaceAllAbsent(s: string, c: char, rep: string)
    requires c !in s
    ensures ReplaceAll(s, c, rep) == s
    decreases |s|
  {
    if s != [] {
      assert s[1..] == s[1..] && forall i :: 0 <= i < |s[1..]| ==> s[1..][i] == s[i + 1];
      ReplaceAllAbsent(s[1..], c, rep);
    }
  }

  /** After the replacement the character is gone, when the replacement does not bring it back. */
  lemma {:induction false} ReplaceAllRemoves(s: string, c: char, rep: string)
    requires c !in rep
    ensures c !in ReplaceAll(s, c, rep)
    decreases |s|
  {
    if s != [] {
      ReplaceAllRemoves(s[1..], c, rep);
    }
  }

  lemma ReplaceAllSingle(x: char, c: char, rep: string)
    ensures ReplaceAll([x], c, rep) == if x == c then rep else [x]
  {
    assert [x][1..] == [];
  }

  /** The later passes leave the entities of the earlier ones alone. */
  lemma AmpStable()
    ensures ReplaceAll("&amp;", '<', "&lt;") == "&amp;"
    ensures ReplaceAll("&amp;", '>', "&gt;") == "&amp;"
    ensures ReplaceAll("&amp;", '"', "&quot;") == "&amp;"
  {
  }

  lemma LtGtStable()
    ensures ReplaceAll("&lt;", '>', "&gt;") == "&lt;"
    ensures ReplaceAll("&lt;", '"', "&quot;") == "&lt;"
    ensures ReplaceAll("&gt;", '"', "&quot;") == "&gt;"
  {
  }

  /** On one character, escapeHTML's four passes give that character's entity. */
  lemma EscapeHTMLChar(x: char)
    ensures EscapeHTML([x]) == EscapeChar(x)
  {
    var r1 := ReplaceAll([x], '&', "&amp;");
    var r2 := ReplaceAll(r1, '<', "&lt;");
    var r3 := ReplaceAll(r2, '>', "&gt;");
    var r4 := ReplaceAll(r3, '"', "&quot;");
    assert EscapeHTML([x]) == r4;
    ReplaceAllSingle(x, '&', "&amp;");
    if x == '&' {
      assert r1 == "&amp;";
      AmpStable();
    } else {
      assert r1 == [x];
      ReplaceAllSingle(x, '<', "&lt;");
      if x == '<' {
        assert r2 == "&lt;";
        LtGtStable();
      } else {
        assert r2 == [x];
        ReplaceAllSingle(x, '>', "&gt;");
        if x == '>' {
          assert r3 == "&gt;";
          LtGtStable();
        } else {
          assert r3 == [x];
          ReplaceAllSingle(x, '"', "&quot;");
        }
      }
    }
  }

  /** escapeHTML distributes over concatenation. */
  lemma EscapeHTMLAppend(a: string, b: string)
    ensures EscapeHTML(a + b) == EscapeHTML(a) + EscapeHTML(b)
  {
    ReplaceAllAppend(a, b, '&', "&amp;");
    var a1, b1 := ReplaceAll(a, '&', "&amp;"), ReplaceAll(b, '&', "&amp;");
    ReplaceAllAppend(a1, b1, '<', "&lt;");
    var a2, b2 := ReplaceAll(a1, '<', "&lt;"), ReplaceAll(b1, '<', "&lt;");
    ReplaceAllAppend(a2, b2, '>', "&gt;");
    var a3, b3 := ReplaceAll(a2, '>', "&gt;"), ReplaceAll(b2, '>', "&gt;");
    ReplaceAllAppend(a3, b3, '"', "&quot;");
  }

  /**
   * Because `&` is replaced first, the chained replacements never re-escape
   * an entity: escapeHTML is the single-pass escaper.
   */
  lemma {:induction false} EscapeHTMLIsSinglePass(s: string)
    ensures EscapeHTML(s) == EscapeEach(s)
    decreases |s|
  {
    if s == [] {
    } else {
      assert s == [s[0]] + s[1..];
      EscapeHTMLAppend([s[0]], s[1..]);
      EscapeHTMLChar(s[0]);
      EscapeHTMLIsSinglePass(s[1..]);
    }
  }

  lemma {:induction false} EscapeEachSafe(s: string)
    ensures '<' !in EscapeEach(s) && '>' !in EscapeEach(s) && '"' !in EscapeEach(s)
    decreases |s|
  {
    if s != [] {
      EscapeEachSafe(s[1..]);
    }
  }

  /** escapeHTML's output holds no `<`, `>` or `"`. */
  lemma EscapeHTMLSafe(s: string)
    ensures '<' !in EscapeHTML(s) && '>' !in EscapeHTML(s) && '"' !in EscapeHTML(s)
  {
    EscapeHTMLIsSinglePass(s);
    EscapeEachSafe(s);
  }

  lemma {:induction false} EscapeEachAmpersands(s: string)
    ensures forall i :: 0 <= i < |EscapeEach(s)| && EscapeEach(s)[i] == '&' ==> StartsWithEntity(EscapeEach(s)[i..])
    decreases |s|
  {
    if s != [] {
      EscapeEachAmpersands(s[1..]);
      var head, rest := EscapeChar(s[0]), EscapeEach(s[1..]);
      var r := head + rest;
      forall i | 0 <= i < |r| && r[i] == '&'
        ensures StartsWithEntity(r[i..])
      {
        if i < |head| {
          assert i == 0 && r[..|head|] == head;
        } else {
          assert r[i..] == rest[i - |head|..];
        }
      }
    }
  }

  /** Every `&` in escapeHTML's output begins `&amp;`, `&lt;`, `&gt;` or `&quot;`. */
  lemma EscapeHTMLAmpersands(s: string)
    ensures forall i :: 0 <= i < |EscapeHTML(s)| && EscapeHTML(s)[i] == '&' ==> StartsWithEntity(EscapeHTML(s)[i..])
  {
    EscapeHTMLIsSinglePass(s);
    EscapeEachAmpersands(s);
  }

  lemma UnescapeStep(c: char, t: string)
    ensures Unescape(EscapeChar(c) + t) == [c] + Unescape(t)
  {
    var e := EscapeChar(c);
    var u := e + t;
    assert u[..|e|] == e && u[|e|..] == t;
    if c == '&' {
      assert StartsWith(u, "&amp;");
    } else if c == '<' {
      assert u[1] == 'l' && !StartsWith(u, "&amp;");
      assert StartsWith(u, "&lt;");
    } else if c == '>' {
      assert u[1] == 'g' && !StartsWith(u, "&amp;") && !StartsWith(u, "&lt;");
      assert StartsWith(u, "&gt;");
    } else if c == '"' {
      assert u[1] == 'q' && !StartsWith(u, "&amp;") && !StartsWith(u, "&lt;") && !StartsWith(u, "&gt;");
      assert StartsWith(u, "&quot;");
    } else {
      assert u[0] == c != '&';
      assert !StartsWith(u, "&amp;") && !StartsWith(u, "&lt;") && !StartsWith(u, "&gt;") && !StartsWith(u, "&quot;");
    }
  }

  /** Decoding the entities gives the original text back. */
  lemma {:induction false} EscapeHTMLRoundTrip(s: string)
    ensures Unescape(EscapeHTML(s)) == s
    decreases |s|
  {
    EscapeHTMLIsSinglePass(s);
    if s != [] {
      UnescapeStep(s[0], EscapeEach(s[1..]));
      EscapeHTMLRoundTrip(s[1..]);
      EscapeHTMLIsSinglePass(s[1..]);
    }
  }

  /** Different texts never render the same. */
  lemma EscapeHTMLInjective(a: string, b: string)
    requires EscapeHTML(a) == EscapeHTML(b)
    ensures a == b
  {
    EscapeHTMLRoundTrip(a);
    EscapeHTMLRoundTrip(b);
  }

  /** escapeAttr leaves no double quote, and changes nothing in a text that has none. */
  lemma EscapeAttrQuotes(s: string)
    ensures '"' !in EscapeAttr(s)
    ensures '"' !in s ==> EscapeAttr(s) == s
  {
    ReplaceAllRemoves(s, '"', "&quot;");
    if '"' !in s {
      ReplaceAllAbsent(s, '"', "&quot;");
    }
  }

  /** escapeAttr works character by character: a quote becomes `&quot;`, any other character is copied. */
  lemma EscapeAttrPerChar(a: string, b: string, x: char)
    ensures EscapeAttr(a + b) == EscapeAttr(a) + EscapeAttr(b)
    ensures EscapeAttr([x]) == if x == '"' then "&quot;" else [x]
  {
    ReplaceAllAppend(a, b, '"', "&quot;");
    ReplaceAllSingle(x, '"', "&quot;");
  }

  /**
   * `&` is not escaped in attributes, so a text already holding `&quot;`
   * renders the same as a bare quote.
   */
  lemma EscapeAttrLeavesAmpersand()
    ensures EscapeAttr("&quot;") == EscapeAttr("\"")
  {
    ReplaceAllAbsent("&quot;", '"', "&quot;");
    ReplaceAllSingle('"', '"', "&quot;");
  }

  // ---------------------------------------------------------------------------
  // filterFollowerList
  // ---------------------------------------------------------------------------

  /** The filter predicate: the lowercased username or full name contains `q`. */
  predicate Matches(f: Follower, q: string) {
    Contains(Lower(f.username), q) || Contains(Lower(f.fullName), q)
  }

  /** `followers.filter(f => Matches(f, q))` */
  function Matching(followers: seq<Follower>, q: string): (r: seq<Follower>)
    ensures |r| <= |followers|
    ensures forall f :: f in r <==> f in followers && Matches(f, q)
    decreases |followers|
  {
    if followers == [] then []
    else
      var rest := Matching(followers[1..], q);
      assert forall f :: f in followers <==> f == followers[0] || f in followers[1..];
      if Matches(followers[0], q) then [followers[0]] + rest else rest
  }

  /** The list filterFollowerList renders for `query`. */
  function FilterFollowers(followers: seq<Follower>, query: string): (r: seq<Follower>)
    ensures Trim(query) == "" ==> r == followers
    ensures Trim(query) != "" ==> r == Matching(followers, Lower(Trim(query)))
  {
    var q := Lower(Trim(query));
    if q == [] then followers else Matching(followers, q)
  }

  /** The filter keeps order: filtering a concatenation filters each part. */
  lemma {:induction false} MatchingAppend(a: seq<Follower>, b: seq<Follower>, q: string)
    ensures Matching(a + b, q) == Matching(a, q) + Matching(b, q)
    decreases |a|
  {
    if a == [] {
      assert a + b == b;
    } else {
      assert (a + b)[1..] == a[1..] + b;
      MatchingAppend(a[1..], b, q);
    }
  }

  /** Filtering again with the same query changes nothing. */
  lemma {:induction false} MatchingIdempotent(followers: seq<Follower>, q: string)
    ensures Matching(Matching(followers, q), q) == Matching(followers, q)
    decreases |followers|
  {
    if followers != [] {
      MatchingIdempotent(followers[1..], q);
      var rest := Matching(followers[1..], q);
      if Matches(followers[0], q) {
        assert ([followers[0]] + rest)[1..] == rest;
      }
    }
  }

  /** Every follower matches the empty text, so a filter can only drop rows for a non-blank query. */
  lemma EmptyQueryKeepsAll(followers: seq<Follower>)
    ensures Matching(followers, "") == followers
    decreases |followers|
  {
    if followers != [] {
      assert Matches(followers[0], "");
      EmptyQueryKeepsAll(followers[1..]);
    }
  }

  // ---------------------------------------------------------------------------
  // Compare
  // ---------------------------------------------------------------------------

  /**
   * A compare select's value after parseInt: None for NaN (the placeholder
   * option's empty value), otherwise the snapshot timestamp.
   */
  type Selected = Option<int>

  /** `!timestamp` is false: a number other than 0 (NaN is falsy too). */
  predicate Chosen(v: Selected) {
    v.Some? && v.value != 0
  }

  datatype CompareAction =
    | CompareToast(message: string)
    | RequestDiff(olderTimestamp: int, newerTimestamp: int)

  /** The guards of handleCompare: a GET_DIFF request, or the error toast it shows instead. */
  function HandleCompare(older: Selected, newer: Selected): (r: CompareAction)
    ensures r.RequestDiff? <==> Chosen(older) && Chosen(newer) && older.value != newer.value
    ensures r.RequestDiff? ==> r.olderTimestamp == older.value && r.newerTimestamp == newer.value
    ensures !Chosen(older) || !Chosen(newer) ==> r == CompareToast("Please select both snapshots to compare.")
  {
    if !Chosen(older) || !Chosen(newer) then CompareToast("Please select both snapshots to compare.")
    else if older.value == newer.value then CompareToast("Please select two different snapshots.")
    else RequestDiff(older.value, newer.value)
  }

  datatype Selection = Selection(older: Selected, newer: Selected)

  /**
   * populateCompareSelects: the values both selects hold after their options
   * are rebuilt; with two or more snapshots, the oldest listed and the newest.
   */
  function DefaultSelection(snapshots: seq<Snapshot>): (r: Selection)
    ensures |snapshots| >= 2 ==>
      r.older == Some(snapshots[|snapshots| - 1].timestamp) && r.newer == Some(snapshots[0].timestamp)
    ensures |snapshots| < 2 ==> r.older.None? && r.newer.None?
  {
    if |snapshots| >= 2 then Selection(Some(snapshots[|snapshots| - 1].timestamp), Some(snapshots[0].timestamp))
    else Selection(None, None)
  }

  /**
   * With the default selection, Compare asks for the diff from the last
   * listed snapshot to the first, as long as their timestamps are set and differ.
   */
  lemma DefaultSelectionCompares(snapshots: seq<Snapshot>)
    requires |snapshots| >= 2
    requires snapshots[0].timestamp != 0 && snapshots[|snapshots| - 1].timestamp != 0
    requires snapshots[0].timestamp != snapshots[|snapshots| - 1].timestamp
    ensures var s := DefaultSelection(snapshots);
      HandleCompare(s.older, s.newer) == RequestDiff(snapshots[|snapshots| - 1].timestamp, snapshots[0].timestamp)
  {
  }

  // ---------------------------------------------------------------------------
  // Scan button and detail view
  // ---------------------------------------------------------------------------

  /** What a click on the scan button sends: a SCAN_FOLLOWERS request, or CANCEL_OPERATION to the tab. */
  datatype ScanRequest = StartScan | CancelScan

  datatype Toast = Toast(message: string, kind: string)

  /** `data.error || "An error occurred during scan."` */
  function ScanErrorText(error: Option<string>): (r: string)
    ensures r != ""
    ensures error.Some? && error.value != "" ==> r == error.value
  {
    if error.Some? && error.value != "" then error.value else "An error occurred during scan."
  }

  class FollowersTab {
    /** `_isScanning` */
    var isScanning: bool
    /** `_currentDetailFollowers` */
    var currentDetailFollowers: seq<Follower>
    /** The followers last rendered into the detail list. */
    var detailList: seq<Follower>

    constructor()
      ensures !isScanning && currentDetailFollowers == [] && detailList == []
    {
      isScanning := false;
      currentDetailFollowers := [];
      detailList := [];
    }

    /** handleScanButtonClick: stop a running scan, otherwise start one. */
    method HandleScanButtonClick() returns (request: ScanRequest)
      modifies this
      ensures request == (if old(isScanning) then CancelScan else StartScan)
      ensures isScanning
      ensures currentDetailFollowers == old(currentDetailFollowers) && detailList == old(detailList)
    {
      if isScanning {
        request := CancelScan;
      } else {
        isScanning := true;
        request := StartScan;
      }
    }

    /** handleScanComplete(data): the scan is over; a toast when a snapshot was saved. */
    method HandleScanComplete(snapshot: Option<Snapshot>) returns (toast: Option<Toast>)
      modifies this
      ensures !isScanning
      ensures toast.Some? <==> snapshot.Some?
      ensures snapshot.Some? ==>
        toast == Some(Toast("Scan complete — " + IntToString(snapshot.value.count) + " followers saved.", "success"))
      ensures currentDetailFollowers == old(currentDetailFollowers) && detailList == old(detailList)
    {
      isScanning := false;
      if snapshot.Some? {
        toast := Some(Toast("Scan complete — " + IntToString(snapshot.value.count) + " followers saved.", "success"));
      } else {
        toast := None;
      }
    }

    /** handleScanError(data): the scan is over, with an error toast. */
    method HandleScanError(error: Option<string>) returns (toast: Toast)
      modifies this
      ensures !isScanning
      ensures toast == Toast(ScanErrorText(error), "error")
      ensures currentDetailFollowers == old(currentDetailFollowers) && detailList == old(detailList)
    {
      isScanning := false;
      toast := Toast(ScanErrorText(error), "error");
    }

    /** The end of startScan: an error in the SCAN_FOLLOWERS response is a scan error. */
    method StartScanReplied(error: Option<string>) returns (toast: Option<Toast>)
      modifies this
      ensures error.Some? && error.value != "" ==> !isScanning && toast == Some(Toast(error.value, "error"))
      ensures !(error.Some? && error.value != "") ==> isScanning == old(isScanning) && toast.None?
      ensures currentDetailFollowers == old(currentDetailFollowers) && detailList == old(detailList)
    {
      if error.Some? && error.value != "" {
        var t := HandleScanError(error);
        toast := Some(t);
      } else {
        toast := None;
      }
    }

    /** openSnapshotDetail(snapshot): show the snapshot's followers (`snapshot.followers || []`), unfiltered. */
    method OpenSnapshotDetail(snapshot: Snapshot)
      modifies this
      ensures currentDetailFollowers == snapshot.followers.GetOr([])
      ensures detailList == currentDetailFollowers
      ensures isScanning == old(isScanning)
    {
      currentDetailFollowers := snapshot.followers.GetOr([]);
      detailList := currentDetailFollowers;
    }

    /** filterFollowerList(query): render the open snapshot's followers that match. */
    method FilterFollowerList(query: string)
      modifies this
      ensures detailList == FilterFollowers(currentDetailFollowers, query)
      ensures isScanning == old(isScanning) && currentDetailFollowers == old(currentDetailFollowers)
    {
      var q := Lower(Trim(query));
      if q != [] {
        detailList := Matching(currentDetailFollowers, q);
      } else {
        detailList := currentDetailFollowers;
      }
    }
  }
}
