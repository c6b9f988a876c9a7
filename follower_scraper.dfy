/**
 * The content script content-scripts/follower-scraper.js: the scan flags, the
 * scroll loop over Instagram's virtualised followers dialog, the extraction
 * of follower rows from the dialog's links, and the batched profile picture
 * conversion. The DOM is given as link records, scroll positions and cancel
 * events as sequences of observations, and picture fetching as a function.
 */
module FollowerScraper {
  import opened Wrappers
  import opened Text
  import opened Snapshots
  import opened FollowerTracker

  // ---------------------------------------------------------------------------
  // Links of the dialog
  // ---------------------------------------------------------------------------

  /** One `a[href^="/"]` element of the dialog as extraction reads it. */
  datatype Link = Link(
    /** getAttribute("href") */
    href: Option<string>,
    /** src of the first img inside the link, when it has one */
    img: Option<string>,
    /** src of the first img under `link.closest("div")`, when there is one */
    closestDivImg: Option<string>,
    /** the textContent of every span under each ancestor, parentElement first */
    ancestors: seq<seq<string>>)

  /** Path names that are never usernames. */
  const EXCLUDED: set<string> := {"explore", "reels", "stories", "p", "accounts", "directory", "about", "static", ""}

  /** `s.replace(/^\/|\/$/g, "")`: one leading and one trailing slash removed. */
  function StripSlashes(s: string): (r: string)
    ensures var a := if |s| > 0 && s[0] == '/' then 1 else 0;
            var b := if |s| > a && s[|s| - 1] == '/' then |s| - 1 else |s|;
            a <= b && r == s[a..b]
  {
    var t := if |s| > 0 && s[0] == '/' then s[1..] else s;
    if |t| > 0 && t[|t| - 1] == '/' then t[..|t| - 1] else t
  }

  /** `[a-zA-Z0-9._-]` */
  predicate UsernameChar(c: char) {
    'a' <= c <= 'z' || 'A' <= c <= 'Z' || '0' <= c <= '9' || c == '.' || c == '_' || c == '-'
  }

  predicate AllUsernameChars(s: string) {
    forall i :: 0 <= i < |s| ==> UsernameChar(s[i])
  }

  /** The username a link names after normalisation, or None when extraction skips the link. */
  function LinkUsername(link: Link): Option<string> {
    var username := Lower(StripSlashes(link.href.GetOr("")));
    if username == "" then None
    else if username in EXCLUDED then None
    else if !AllUsernameChars(username) then None
    else if '/' in username then None
    else Some(username)
  }

  /**
   * A link is kept exactly when its normalised href is non-empty, not a
   * reserved path and made of username characters; the later test for "/"
   * never rejects anything the character test let through.
   */
  lemma LinkUsernameAccepts(link: Link, username: string)
    ensures LinkUsername(link) == Some(username) <==>
      && username == Lower(StripSlashes(link.href.GetOr("")))
      && username != ""
      && username !in EXCLUDED
      && AllUsernameChars(username)
  {
  }

  /** A kept username has no upper-case ASCII letter: the href was lower-cased. */
  lemma LinkUsernameLowerCase(link: Link)
    requires LinkUsername(link).Some?
    ensures forall i :: 0 <= i < |LinkUsername(link).value| ==> !('A' <= LinkUsername(link).value[i] <= 'Z')
  {
  }

  /**
   * The values of rowsByUsername after the first loop, each link named by
   * `name`: a link is recorded for a new username, and replaces the recorded
   * one when it holds an img.
   */
  function RowLinks(links: seq<Link>, name: Link -> Option<string>): map<string, Link>
    decreases |links|
  {
    if links == [] then map[]
    else
      var rows := RowLinks(links[..|links| - 1], name);
      var link := links[|links| - 1];
      var username := name(link);
      if username.Some? && (username.value !in rows || link.img.Some?) then rows[username.value := link] else rows
  }

  /** The index of the first link `name` gives `u`, or |links| when none does. */
  function FirstNamed(links: seq<Link>, name: Link -> Option<string>, u: string): (r: nat)
    ensures r <= |links|
    ensures r < |links| ==> name(links[r]) == Some(u)
    ensures forall k :: 0 <= k < r ==> name(links[k]) != Some(u)
    decreases |links|
  {
    if links == [] then 0
    else
      var p := FirstNamed(links[..|links| - 1], name, u);
      if p < |links| - 1 || name(links[|links| - 1]) == Some(u) then p else |links|
  }

  /** One more link keeps the first index of a username seen before it, and gives its own index to a new one. */
  lemma FirstNamedStep(links: seq<Link>, name: Link -> Option<string>, u: string)
    requires links != []
    ensures var p := FirstNamed(links[..|links| - 1], name, u);
            FirstNamed(links, name, u) == if p < |links| - 1 || name(links[|links| - 1]) == Some(u) then p else |links|
  {
  }

  /** A username is one of rowsByUsername's keys exactly when some link gives it. */
  lemma {:induction false} RowKeysMember(links: seq<Link>, name: Link -> Option<string>, u: string)
    ensures u in RowKeys(links, name) <==> FirstNamed(links, name, u) < |links|
    decreases |links|
  {
    if links != [] {
      RowKeysMember(links[..|links| - 1], name, u);
      FirstNamedStep(links, name, u);
    }
  }

  /** rowsByUsername's keys come in first-seen order: one precedes another exactly when its first link comes first. */
  lemma {:induction false} RowKeysFirstSeen(links: seq<Link>, name: Link -> Option<string>, i: nat, j: nat)
    requires i < |RowKeys(links, name)| && j < |RowKeys(links, name)|
    ensures i < j <==> FirstNamed(links, name, RowKeys(links, name)[i]) < FirstNamed(links, name, RowKeys(links, name)[j])
    decreases |links|
  {
    var prefix := links[..|links| - 1];
    var keys, before := RowKeys(links, name), RowKeys(prefix, name);
    if i < |before| && j < |before| {
      RowKeysFirstSeen(prefix, name, i, j);
      assert keys[i] == before[i] && keys[j] == before[j];
    }
    // A key of the prefix keeps the first index it had there; a key the last link added is first seen there.
    RowKeysMember(prefix, name, keys[i]);
    RowKeysMember(prefix, name, keys[j]);
    FirstNamedStep(links, name, keys[i]);
    FirstNamedStep(links, name, keys[j]);
  }

  /** Whether `name` gives `u` for some link of `links`. */
  predicate NamedBy(links: seq<Link>, name: Link -> Option<string>, u: string)
    decreases |links|
  {
    links != [] && (NamedBy(links[..|links| - 1], name, u) || name(links[|links| - 1]) == Some(u))
  }

  /** NamedBy, unfolded: some index of `links` holds a link named `u`. */
  lemma {:induction false} NamedByMeans(links: seq<Link>, name: Link -> Option<string>, u: string)
    ensures NamedBy(links, name, u) <==> exists i :: 0 <= i < |links| && name(links[i]) == Some(u)
    decreases |links|
  {
    if links != [] {
      var prefix := links[..|links| - 1];
      NamedByMeans(prefix, name, u);
      if exists i :: 0 <= i < |links| && name(links[i]) == Some(u) {
        var i :| 0 <= i < |links| && name(links[i]) == Some(u);
        if i < |prefix| {
          assert prefix[i] == links[i];
        }
      }
      if NamedBy(prefix, name, u) {
        var i :| 0 <= i < |prefix| && name(prefix[i]) == Some(u);
        assert links[i] == prefix[i];
      }
    }
  }

  /** rowsByUsername has a row for exactly the usernames some link gives. */
  lemma {:induction false} RowLinksNamed(links: seq<Link>, name: Link -> Option<string>, u: string)
    ensures u in RowLinks(links, name) <==> NamedBy(links, name, u)
    decreases |links|
  {
    if links != [] {
      RowLinksNamed(links[..|links| - 1], name, u);
    }
  }

  /** The keys of rowsByUsername in insertion order: every kept username once, first occurrence first. */
  function RowKeys(links: seq<Link>, name: Link -> Option<string>): (keys: seq<string>)
    ensures forall i, j :: 0 <= i < j < |keys| ==> keys[i] != keys[j]
    ensures forall u :: u in keys <==> u in RowLinks(links, name)
    decreases |links|
  {
    if links == [] then []
    else
      var keys := RowKeys(links[..|links| - 1], name);
      var username := name(links[|links| - 1]);
      if username.Some? && username.value !in keys then keys + [username.value] else keys
  }

  /** rowsByUsername has exactly the usernames some link names, each mapped to a link naming it. */
  lemma {:induction false} RowLinksKeys(links: seq<Link>, name: Link -> Option<string>)
    ensures forall u :: u in RowLinks(links, name) <==> exists i :: 0 <= i < |links| && name(links[i]) == Some(u)
    ensures forall u :: u in RowLinks(links, name) ==> RowLinks(links, name)[u] in links && name(RowLinks(links, name)[u]) == Some(u)
    decreases |links|
  {
    if links != [] {
      var prefix, last := links[..|links| - 1], links[|links| - 1];
      RowLinksKeys(prefix, name);
      assert links == prefix + [last];
      forall u | exists i :: 0 <= i < |links| && name(links[i]) == Some(u)
        ensures u in RowLinks(links, name)
      {
        var i :| 0 <= i < |links| && name(links[i]) == Some(u);
        if i < |prefix| {
          assert prefix[i] == links[i];
        }
      }
      forall u | u in RowLinks(links, name)
        ensures exists i :: 0 <= i < |links| && name(links[i]) == Some(u)
        ensures RowLinks(links, name)[u] in links && name(RowLinks(links, name)[u]) == Some(u)
      {
        if u in RowLinks(prefix, name) && RowLinks(links, name)[u] == RowLinks(prefix, name)[u] {
          var i :| 0 <= i < |prefix| && name(prefix[i]) == Some(u);
          assert links[i] == prefix[i];
        } else {
          assert name(links[|links| - 1]) == Some(u);
        }
      }
    }
  }

  /** The recorded link is the last link naming the username that holds an img... */
  lemma {:induction false} RowLinksPrefersLastImg(links: seq<Link>, name: Link -> Option<string>, i: nat, username: string)
    requires i < |links| && name(links[i]) == Some(username) && links[i].img.Some?
    requires forall j :: i < j < |links| && name(links[j]) == Some(username) ==> links[j].img.None?
    ensures username in RowLinks(links, name) && RowLinks(links, name)[username] == links[i]
    decreases |links|
  {
    var prefix := links[..|links| - 1];
    if i < |links| - 1 {
      assert forall j :: i < j < |prefix| ==> prefix[j] == links[j];
      RowLinksPrefersLastImg(prefix, name, i, username);
    }
  }

  /** ...and, when no such link holds an img, the first link naming it. */
  lemma {:induction false} RowLinksKeepsFirst(links: seq<Link>, name: Link -> Option<string>, i: nat, username: string)
    requires i < |links| && name(links[i]) == Some(username)
    requires forall j :: 0 <= j < i ==> name(links[j]) != Some(username)
    requires forall j :: 0 <= j < |links| && name(links[j]) == Some(username) ==> links[j].img.None?
    ensures username in RowLinks(links, name) && RowLinks(links, name)[username] == links[i]
    decreases |links|
  {
    var prefix := links[..|links| - 1];
    if i < |links| - 1 {
      assert forall j :: 0 <= j < |prefix| ==> prefix[j] == links[j];
      RowLinksKeepsFirst(prefix, name, i, username);
    } else {
      RowLinksKeys(prefix, name);
      assert forall j :: 0 <= j < |prefix| ==> prefix[j] == links[j];
    }
  }

  // ---------------------------------------------------------------------------
  // Full name and picture of a row
  // ---------------------------------------------------------------------------

  /** How many ancestors of a link the full-name search looks at. */
  const MAX_NAME_DEPTH: nat := 6

  /** `/^\d+$/` */
  predicate AllDigits(s: string) {
    |s| > 0 && forall i :: 0 <= i < |s| ==> IsDigit(s[i])
  }

  /** A trimmed span text that may be taken as the full name of `username`: its JavaScript length is over 1. */
  predicate NameCandidate(text: string, username: string) {
    text != "" && text != username && Utf16Length(text) > 1 && !AllDigits(text)
  }

  /** The first span text of one ancestor that, trimmed, is a candidate. */
  function FirstCandidate(spans: seq<string>, username: string): (r: Option<string>)
    ensures r.Some? ==> NameCandidate(r.value, username)
    ensures r.None? <==> forall k :: 0 <= k < |spans| ==> !NameCandidate(Trim(spans[k]), username)
    ensures forall k :: 0 <= k < |spans| && NameCandidate(Trim(spans[k]), username)
                        && (forall j :: 0 <= j < k ==> !NameCandidate(Trim(spans[j]), username))
                        ==> r == Some(Trim(spans[k]))
    decreases |spans|
  {
    if spans == [] then None
    else if NameCandidate(Trim(spans[0]), username) then Some(Trim(spans[0]))
    else
      assert forall k :: 0 < k < |spans| ==> spans[k] == spans[1..][k - 1];
      FirstCandidate(spans[1..], username)
  }

  /** The full name found from ancestor `from` on, at most MAX_NAME_DEPTH levels up; "" when none is. */
  function FullNameFrom(levels: seq<seq<string>>, username: string, from: nat): (r: string)
    ensures r == "" || NameCandidate(r, username)
    decreases MAX_NAME_DEPTH - from
  {
    if from >= MAX_NAME_DEPTH || from >= |levels| then ""
    else match FirstCandidate(levels[from], username)
      case Some(text) => text
      case None => FullNameFrom(levels, username, from + 1)
  }

  /** The search comes back empty exactly when no ancestor in range has a candidate span. */
  lemma FullNameEmpty(levels: seq<seq<string>>, username: string, from: nat)
    ensures FullNameFrom(levels, username, from) == "" <==>
              forall i :: from <= i < |levels| && i < MAX_NAME_DEPTH ==> FirstCandidate(levels[i], username).None?
  {
    EmptyHasNoCandidate(levels, username, from);
    NoCandidateIsEmpty(levels, username, from);
  }

  lemma {:induction false} EmptyHasNoCandidate(levels: seq<seq<string>>, username: string, from: nat)
    ensures FullNameFrom(levels, username, from) == "" ==>
              forall i :: from <= i < |levels| && i < MAX_NAME_DEPTH ==> FirstCandidate(levels[i], username).None?
    decreases MAX_NAME_DEPTH - from
  {
    if from < MAX_NAME_DEPTH && from < |levels| {
      FoundAt(levels, username, from);
      if FullNameFrom(levels, username, from) == "" {
        var c := FirstCandidate(levels[from], username);
        assert c.None?;
        assert FullNameFrom(levels, username, from + 1) == "";
        EmptyHasNoCandidate(levels, username, from + 1);
        forall i | from <= i < |levels| && i < MAX_NAME_DEPTH
          ensures FirstCandidate(levels[i], username).None?
        {
          if i == from {
            assert FirstCandidate(levels[i], username) == c;
          }
        }
      }
    }
  }

  /** A candidate on ancestor `from` is the (non-empty) name found. */
  lemma FoundAt(levels: seq<seq<string>>, username: string, from: nat)
    requires from < MAX_NAME_DEPTH && from < |levels|
    ensures var c := FirstCandidate(levels[from], username);
            c.Some? ==> FullNameFrom(levels, username, from) == c.value != ""
  {
  }

  lemma {:induction false} NoCandidateIsEmpty(levels: seq<seq<string>>, username: string, from: nat)
    ensures (forall i :: from <= i < |levels| && i < MAX_NAME_DEPTH ==> FirstCandidate(levels[i], username).None?) ==>
              FullNameFrom(levels, username, from) == ""
    decreases MAX_NAME_DEPTH - from
  {
    if from < MAX_NAME_DEPTH && from < |levels| {
      NoCandidateIsEmpty(levels, username, from + 1);
    }
  }

  /** Only the first MAX_NAME_DEPTH ancestors matter to the search. */
  lemma {:induction false} FullNameDepthBound(levels: seq<seq<string>>, username: string, from: nat)
    requires |levels| > MAX_NAME_DEPTH
    ensures FullNameFrom(levels, username, from) == FullNameFrom(levels[..MAX_NAME_DEPTH], username, from)
    decreases MAX_NAME_DEPTH - from
  {
    if from < MAX_NAME_DEPTH {
      assert levels[..MAX_NAME_DEPTH][from] == levels[from];
      FullNameDepthBound(levels, username, from + 1);
    }
  }

  /** The ancestor walk of extractFollowersFromDOM that looks for a full name. */
  method FindFullName(levels: seq<seq<string>>, username: string) returns (fullName: string)
    ensures fullName == FullNameFrom(levels, username, 0)
  {
    fullName := "";
    var i := 0;
    while i < MAX_NAME_DEPTH && i < |levels|
      invariant 0 <= i <= MAX_NAME_DEPTH
      invariant fullName == "" && FullNameFrom(levels, username, i) == FullNameFrom(levels, username, 0)
      decreases MAX_NAME_DEPTH - i
    {
      var spans := levels[i];
      var k := 0;
      while k < |spans|
        invariant 0 <= k <= |spans|
        invariant fullName == ""
        invariant FirstCandidate(spans[k..], username) == FirstCandidate(spans, username)
      {
        var text := Trim(spans[k]);
        assert spans[k..][0] == spans[k] && spans[k..][1..] == spans[k + 1..];
        if NameCandidate(text, username) {
          fullName := text;
          break;
        }
        k := k + 1;
      }
      if fullName != "" {
        return;
      }
      i := i + 1;
    }
  }

  /** `(link.querySelector("img") || link.closest("div")?.querySelector("img"))?.src || ""` */
  function PicOf(link: Link): string {
    if link.img.Some? then link.img.value else link.closestDivImg.GetOr("")
  }

  /** The record stored for a row: a non-empty name or picture already known is kept, a missing one looked up. */
  function Merge(existing: Option<Follower>, username: string, link: Link): (f: Follower)
    ensures f.username == username
    ensures existing.Some? && existing.value.fullName != "" ==> f.fullName == existing.value.fullName
    ensures existing.Some? && existing.value.profilePicUrl != "" ==> f.profilePicUrl == existing.value.profilePicUrl
    ensures existing.None? || existing.value.fullName == "" ==> f.fullName == FullNameFrom(link.ancestors, username, 0)
    ensures existing.None? || existing.value.profilePicUrl == "" ==> f.profilePicUrl == PicOf(link)
  {
    var fullName := if existing.Some? && existing.value.fullName != "" then existing.value.fullName
                    else FullNameFrom(link.ancestors, username, 0);
    var profilePicUrl := if existing.Some? && existing.value.profilePicUrl != "" then existing.value.profilePicUrl
                         else PicOf(link);
    Follower(username, fullName, profilePicUrl)
  }

  function Lookup(collected: map<string, Follower>, username: string): Option<Follower> {
    if username in collected then Some(collected[username]) else None
  }

  /** collectedFollowers after rows `keys` (all recorded in `rows`) have been merged in. */
  function MergeRows(collected: map<string, Follower>, keys: seq<string>, rows: map<string, Link>,
                     merge: (Option<Follower>, string, Link) -> Follower): map<string, Follower>
    requires forall u :: u in keys ==> u in rows
  {
    map u | u in collected.Keys + Elements(keys) ::
      if u in keys then merge(Lookup(collected, u), u, rows[u]) else collected[u]
  }

  /**
   * collectedFollowers after one extraction pass over `links`: every named
   * username is present, nothing is removed, a known non-empty full name or
   * picture is never replaced, and a username no link names is untouched.
   */
  function Extracted(collected: map<string, Follower>, links: seq<Link>): (r: map<string, Follower>)
    ensures r.Keys == collected.Keys + RowLinks(links, LinkUsername).Keys
    ensures forall u :: u in collected && collected[u].fullName != "" ==> r[u].fullName == collected[u].fullName
    ensures forall u :: u in collected && collected[u].profilePicUrl != "" ==> r[u].profilePicUrl == collected[u].profilePicUrl
    ensures forall u :: u in collected && u !in RowLinks(links, LinkUsername) ==> r[u] == collected[u]
    ensures forall u :: u in RowLinks(links, LinkUsername) ==> r[u].username == u
  {
    MergeRows(collected, RowKeys(links, LinkUsername), RowLinks(links, LinkUsername), Merge)
  }

  /** The keys a pass appends to collectedFollowers' order: new usernames, in row order. */
  function NewKeys(keys: seq<string>, known: set<string>): (r: seq<string>)
    ensures forall u :: u in r <==> u in keys && u !in known
    decreases |keys|
  {
    if keys == [] then []
    else
      var r := NewKeys(keys[..|keys| - 1], known);
      var u := keys[|keys| - 1];
      assert forall v :: v in keys <==> v in keys[..|keys| - 1] || v == u;
      if u !in known then r + [u] else r
  }

  // ---------------------------------------------------------------------------
  // The scroll loop and picture conversion: observations
  // ---------------------------------------------------------------------------

  /** Consecutive non-advancing scrolls after which the list counts as fully scrolled. */
  const MAX_NO_ADVANCE: nat := 5
  /** A scroll of less than this many pixels does not count as advancing. */
  const MIN_ADVANCE: int := 5
  /** How many pictures convertProfilePicsToBase64 fetches at once. */
  const BATCH: nat := 10

  /** How many of `n` entries the first `batches` batches cover. */
  function BatchesDone(batches: nat, n: nat): nat {
    if BATCH * batches < n then BATCH * batches else n
  }

  /** One more batch covers the next BATCH entries, or the rest when fewer are left. */
  lemma BatchesDoneStep(batches: nat, n: nat)
    requires BatchesDone(batches, n) < n
    ensures BatchesDone(batches + 1, n) ==
              if BatchesDone(batches, n) + BATCH < n then BatchesDone(batches, n) + BATCH else n
  {
  }

  /**
   * What one pass of the scroll loop observes: the links visible before the
   * scroll, the scrollTop read after the 400 px step and the wait, and whether a
   * cancel (a CANCEL_OPERATION message, a second start, the dialog being
   * closed) arrived during the wait.
   */
  datatype Frame = Frame(links: seq<Link>, scrollTopAfter: int, cancelled: bool)

  function Abs(x: int): nat {
    if x < 0 then -x else x
  }

  /** The scrollTop read at the head of pass `k`: the start value, then the previous pass's reading. */
  function Before(start: int, frames: seq<Frame>, k: nat): int
    requires k <= |frames|
  {
    if k == 0 then start else frames[k - 1].scrollTopAfter
  }

  /** Pass `k` moved the list by MIN_ADVANCE pixels or more. */
  predicate Advanced(start: int, frames: seq<Frame>, k: nat)
    requires k < |frames|
  {
    Abs(frames[k].scrollTopAfter - Before(start, frames, k)) >= MIN_ADVANCE
  }

  /** noAdvanceCount after `n` passes: how many passes in a row, ending at the last one, did not advance. */
  function StallRun(start: int, frames: seq<Frame>, n: nat): nat
    requires n <= |frames|
  {
    if n == 0 then 0
    else if Advanced(start, frames, n - 1) then 0
    else StallRun(start, frames, n - 1) + 1
  }

  /** A run of `m` means the last `m` passes each moved the list less than MIN_ADVANCE pixels. */
  lemma {:induction false} StallRunMeaning(start: int, frames: seq<Frame>, n: nat)
    requires n <= |frames|
    ensures StallRun(start, frames, n) <= n
    ensures forall k :: n - StallRun(start, frames, n) <= k < n ==> !Advanced(start, frames, k)
    ensures StallRun(start, frames, n) < n ==> Advanced(start, frames, n - 1 - StallRun(start, frames, n))
  {
    if n > 0 && !Advanced(start, frames, n - 1) {
      StallRunMeaning(start, frames, n - 1);
    }
  }

  /** A picture worth converting: a non-empty profilePicUrl starting with "http". */
  predicate IsHttp(f: Follower) {
    f.profilePicUrl != "" && StartsWith(f.profilePicUrl, "http")
  }

  /** The entries convertProfilePicsToBase64 works on, in collection order. */
  function HttpEntries(values: seq<Follower>): (r: seq<Follower>)
    ensures forall f :: f in r <==> f in values && IsHttp(f)
    decreases |values|
  {
    if values == [] then []
    else
      var rest := HttpEntries(values[1..]);
      assert forall f :: f in values <==> f == values[0] || f in values[1..];
      if IsHttp(values[0]) then [values[0]] + rest else rest
  }

  /** One entry after its fetch: the converted picture on success, the original URL on failure. */
  function ConvertEntry(f: Follower, fetch: string -> Option<string>): Follower {
    match fetch(f.profilePicUrl)
    case Some(data) => f.(profilePicUrl := data)
    case None => f
  }

  /** collectedFollowers after the entries named in `done` have been converted. */
  function Converted(collected: map<string, Follower>, done: set<string>, fetch: string -> Option<string>): map<string, Follower> {
    map u | u in collected :: if u in done then ConvertEntry(collected[u], fetch) else collected[u]
  }

  /** The values of collectedFollowers in insertion order. */
  function ValuesOf(order: seq<string>, collected: map<string, Follower>): (vs: seq<Follower>)
    requires forall i :: 0 <= i < |order| ==> order[i] in collected
    ensures |vs| == |order|
    ensures forall i :: 0 <= i < |order| ==> vs[i] == collected[order[i]]
  {
    seq(|order|, i requires 0 <= i < |order| => collected[order[i]])
  }

  /** `window.location.pathname.replace(/^\/|\/$/g, "").split("/")[0] || ""`: the first path segment. */
  function FirstSegment(s: string): (r: string)
    ensures '/' !in r
    ensures |r| <= |s| && s[..|r|] == r
    ensures |r| < |s| ==> s[|r|] == '/'
    decreases |s|
  {
    if s == [] || s[0] == '/' then "" else [s[0]] + FirstSegment(s[1..])
  }

  /** Merging one more row: the map takes one step. */
  lemma MergeRowsStep(known: map<string, Follower>, keys: seq<string>, rows: map<string, Link>, j: nat,
                      merge: (Option<Follower>, string, Link) -> Follower)
    requires j < |keys|
    requires forall a, b :: 0 <= a < b < |keys| ==> keys[a] != keys[b]
    requires forall u :: u in keys ==> u in rows
    ensures keys[j] !in keys[..j]
    ensures Lookup(MergeRows(known, keys[..j], rows, merge), keys[j]) == Lookup(known, keys[j])
    ensures MergeRows(known, keys[..j + 1], rows, merge)
         == MergeRows(known, keys[..j], rows, merge)[keys[j] := merge(Lookup(known, keys[j]), keys[j], rows[keys[j]])]
  {
    var u := keys[j];
    assert keys[..j + 1] == keys[..j] + [u];
    assert Elements(keys[..j + 1]) == Elements(keys[..j]) + {u};
  }

  /** Merging one more row: the key order grows by the row's username when it is new. */
  lemma NewKeysStep(keys: seq<string>, known: set<string>, j: nat)
    requires j < |keys|
    ensures NewKeys(keys[..j + 1], known) == NewKeys(keys[..j], known) + (if keys[j] in known then [] else [keys[j]])
  {
    assert keys[..j + 1][..j] == keys[..j];
  }

  /** `order` lists the keys of `collected` once each, and every record is filed under its own username. */
  ghost predicate Keyed(order: seq<string>, collected: map<string, Follower>) {
    && (forall i, j :: 0 <= i < j < |order| ==> order[i] != order[j])
    && (forall u :: u in collected <==> u in order)
    && (forall u :: u in collected ==> collected[u].username == u)
  }

  /** `collectedFollowers.set(f.username, f)`: a new key goes to the end of the order, a known one stays put. */
  lemma SetKeepsKeyed(order: seq<string>, collected: map<string, Follower>, f: Follower)
    requires Keyed(order, collected)
    ensures Keyed(order + (if f.username in collected then [] else [f.username]), collected[f.username := f])
  {
  }

  /** The merge loop of extractFollowersFromDOM after `j` rows, starting from `knownOrder` and `known`. */
  ghost predicate MergedUpTo(knownOrder: seq<string>, known: map<string, Follower>, keys: seq<string>,
                             rows: map<string, Link>, merge: (Option<Follower>, string, Link) -> Follower, j: nat, order: seq<string>, collected: map<string, Follower>)
    requires j <= |keys| && forall u :: u in keys ==> u in rows
  {
    && Keyed(order, collected)
    && order == knownOrder + NewKeys(keys[..j], known.Keys)
    && collected == MergeRows(known, keys[..j], rows, merge)
  }

  /** One pass of the merge loop: the row's existing record is the one known before the pass. */
  lemma MergeLoopStep(knownOrder: seq<string>, known: map<string, Follower>, keys: seq<string>,
                      rows: map<string, Link>, merge: (Option<Follower>, string, Link) -> Follower, j: nat,
                      order: seq<string>, collected: map<string, Follower>)
    requires j < |keys|
    requires forall a, b :: 0 <= a < b < |keys| ==> keys[a] != keys[b]
    requires forall u :: u in keys ==> u in rows
    requires MergedUpTo(knownOrder, known, keys, rows, merge, j, order, collected)
    requires merge(Lookup(known, keys[j]), keys[j], rows[keys[j]]).username == keys[j]
    ensures Lookup(collected, keys[j]) == Lookup(known, keys[j])
    ensures
      var record := merge(Lookup(known, keys[j]), keys[j], rows[keys[j]]);
      MergedUpTo(knownOrder, known, keys, rows, merge, j + 1,
                 order + (if keys[j] in collected then [] else [keys[j]]), collected[keys[j] := record])
  {
    var u := keys[j];
    var record := merge(Lookup(known, u), u, rows[u]);
    assert Lookup(collected, u) == Lookup(known, u) by {
      MergeRowsStep(known, keys, rows, j, merge);
    }
    var order' := order + (if u in collected then [] else [u]);
    assert Keyed(order', collected[u := record]) by {
      SetKeepsKeyed(order, collected, record);
    }
    assert collected[u := record] == MergeRows(known, keys[..j + 1], rows, merge) by {
      MergeRowsStep(known, keys, rows, j, merge);
    }
    assert order' == knownOrder + NewKeys(keys[..j + 1], known.Keys) by {
      NewKeysStep(keys, known.Keys, j);
    }
  }

  /** Every entry picked for conversion is the record collectedFollowers holds for its username. */
  lemma HttpEntriesFrom(order: seq<string>, collected: map<string, Follower>, entries: seq<Follower>)
    requires Keyed(order, collected) && entries == HttpEntries(ValuesOf(order, collected))
    ensures forall j :: 0 <= j < |entries| ==>
              entries[j].username in collected && collected[entries[j].username] == entries[j] && IsHttp(entries[j])
  {
    var values := ValuesOf(order, collected);
    forall j | 0 <= j < |entries|
      ensures entries[j].username in collected && collected[entries[j].username] == entries[j]
    {
      assert entries[j] in values;
    }
  }

  /** Every entry is the record `start` holds for its username. */
  ghost predicate DrawnFrom(entries: seq<Follower>, start: map<string, Follower>) {
    forall j :: 0 <= j < |entries| ==> entries[j].username in start && start[entries[j].username] == entries[j]
  }

  /** Converting one more entry: its record is replaced on success and left alone on failure. */
  lemma ConvertStep(start: map<string, Follower>, entries: seq<Follower>, k: nat, fetch: string -> Option<string>)
    requires k < |entries|
    requires DrawnFrom(entries, start)
    ensures var f := entries[k];
      Converted(start, Usernames(entries[..k + 1]), fetch)
        == if fetch(f.profilePicUrl).Some?
           then Converted(start, Usernames(entries[..k]), fetch)[f.username := f.(profilePicUrl := fetch(f.profilePicUrl).value)]
           else Converted(start, Usernames(entries[..k]), fetch)
  {
    assert entries[..k + 1][..k] == entries[..k];
    UsernamesSnoc(entries[..k + 1]);
  }

  /** No cancel arrived during any of the first `n` batches. */
  ghost predicate NoCancelBefore(cancelled: iset<nat>, n: int) {
    forall b: nat :: b < n ==> b !in cancelled
  }

  lemma NoCancelStep(cancelled: iset<nat>, n: nat)
    requires NoCancelBefore(cancelled, n - 1) && (n > 0 ==> n - 1 !in cancelled)
    ensures NoCancelBefore(cancelled, n)
  {
  }

  /** The conversion loop after `k` entries, with `order` as it was. */
  ghost predicate ConvertedUpTo(order: seq<string>, start: map<string, Follower>, entries: seq<Follower>, k: nat,
                                fetch: string -> Option<string>, collected: map<string, Follower>)
    requires k <= |entries|
  {
    Keyed(order, collected) && collected == Converted(start, Usernames(entries[..k]), fetch)
  }

  /** One pass of the conversion loop: store the fetched picture on success, nothing on failure. */
  lemma ConvertLoopStep(order: seq<string>, start: map<string, Follower>, entries: seq<Follower>, k: nat,
                        fetch: string -> Option<string>, collected: map<string, Follower>)
    requires k < |entries|
    requires DrawnFrom(entries, start)
    requires ConvertedUpTo(order, start, entries, k, fetch, collected)
    ensures var f := entries[k];
      ConvertedUpTo(order, start, entries, k + 1, fetch,
        if fetch(f.profilePicUrl).Some? then collected[f.username := f.(profilePicUrl := fetch(f.profilePicUrl).value)] else collected)
  {
    var f := entries[k];
    ConvertStep(start, entries, k, fetch);
    assert f.username in collected;
    SetKeepsKeyed(order, collected, f.(profilePicUrl := fetch(f.profilePicUrl).GetOr("")));
  }

  /**
   * Conversion never adds or removes a follower and never touches a name;
   * a picture changes only for an http entry whose fetch succeeded, and then
   * to the fetched data.
   */
  lemma ConversionOnlyTouchesHttp(order: seq<string>, collected: map<string, Follower>, n: nat,
                                  fetch: string -> Option<string>, u: string)
    requires Keyed(order, collected) && u in collected
    requires n <= |HttpEntries(ValuesOf(order, collected))|
    ensures var r := Converted(collected, Usernames(HttpEntries(ValuesOf(order, collected))[..n]), fetch);
      && u in r
      && r[u].username == u && r[u].fullName == collected[u].fullName
      && (r[u].profilePicUrl != collected[u].profilePicUrl ==>
            IsHttp(collected[u]) && fetch(collected[u].profilePicUrl) == Some(r[u].profilePicUrl))
  {
    var entries := HttpEntries(ValuesOf(order, collected));
    HttpEntriesFrom(order, collected, entries);
    if u in Usernames(entries[..n]) {
      var j :| 0 <= j < n && entries[..n][j].username == u;
      assert collected[u] == entries[j];
    }
  }

  /** The record extractFollowersFromDOM stores for one row, given the record already collected, if any. */
  method RowRecord(existing: Option<Follower>, username: string, link: Link) returns (record: Follower)
    ensures record == Merge(existing, username, link)
  {
    var fullName := if existing.Some? then existing.value.fullName else "";
    if fullName == "" {
      fullName := FindFullName(link.ancestors, username);
    }
    var profilePicUrl := if existing.Some? then existing.value.profilePicUrl else "";
    if profilePicUrl == "" {
      profilePicUrl := PicOf(link);
    }
    record := Follower(username, fullName, profilePicUrl);
  }

  /** The page a scan runs against. */
  datatype Page = Page(
    /** a `div[role="dialog"]` is already open */
    dialogOpen: bool,
    /** the profile has an `a[href*="/followers"]` link */
    followersLink: bool,
    /** the dialog appeared within 8 seconds of clicking that link */
    dialogAppeared: bool,
    /** The container ScrollAutomation.WaitForScrollContainer finds in 20 attempts, as its scrollTop when scrolling starts */
    container: Option<int>,
    /** a cancel (a CANCEL_OPERATION message, a second start, the dialog closing) arrived during the waits before the scroll loop */
    cancelledBeforeScroll: bool,
    /** the links visible when no container is found */
    visible: seq<Link>,
    /** what each pass of the scroll loop observes */
    frames: seq<Frame>,
    /** the links of the final sweep */
    finalLinks: seq<Link>,
    /** a picture fetch: the data URL, or None when the request fails or is not ok */
    fetch: string -> Option<string>,
    /** the batches of pictures during whose loading a cancel arrived */
    cancelDuringBatch: iset<nat>,
    pathname: string)

  /** The errors startFollowerScan throws when the page is not as it expects. */
  const NO_FOLLOWERS_LINK := "Could not find followers link. Please navigate to an Instagram profile page."
  const NO_DIALOG := "Could not open followers dialog. Please open it manually and try again."
  const NO_CONTAINER := "Could not find scrollable container. Collected what was visible."

  /** What startFollowerScan settles with. */
  datatype ScanReply =
      /** a scan was already running: the request cancelled it, and `[]` is returned */
    | Busy
      /** the promise is rejected with this message */
    | Failed(message: string)
      /** SCAN_FOLLOWERS_COMPLETE is sent with these followers and scanned user, and the followers returned */
    | Completed(followers: seq<Follower>, scannedUser: string)

  /** The first loop of extractFollowersFromDOM: rowsByUsername's keys in insertion order, and its values. */
  method CollectRows(links: seq<Link>) returns (rowKeys: seq<string>, rows: map<string, Link>)
    ensures rowKeys == RowKeys(links, LinkUsername) && rows == RowLinks(links, LinkUsername)
  {
    rowKeys := [];
    rows := map[];
    for i := 0 to |links|
      invariant rowKeys == RowKeys(links[..i], LinkUsername) && rows == RowLinks(links[..i], LinkUsername)
    {
      assert links[..i + 1][..i] == links[..i] && links[..i + 1][i] == links[i];
      var username := LinkUsername(links[i]);
      if username.Some? {
        assert username.value in rowKeys <==> username.value in rows;
        if username.value !in rows {
          rowKeys := rowKeys + [username.value];
          rows := rows[username.value := links[i]];
        } else if links[i].img.Some? {
          rows := rows[username.value := links[i]];
        }
      }
    }
    assert links[..|links|] == links;
  }

  /** `after` keeps every username of `before`, and every name and picture it already had. */
  ghost predicate Grows(before: map<string, Follower>, after: map<string, Follower>) {
    && (forall u :: u in before ==> u in after)
    && (forall u :: u in before && before[u].fullName != "" ==> after[u].fullName == before[u].fullName)
    && (forall u :: u in before && before[u].profilePicUrl != "" ==> after[u].profilePicUrl == before[u].profilePicUrl)
  }

  lemma GrowsTransitive(a: map<string, Follower>, b: map<string, Follower>, c: map<string, Follower>)
    requires Grows(a, b) && Grows(b, c)
    ensures Grows(a, c)
  {
  }

  /** Every row username among `links` is a key of `collected`. */
  ghost predicate HarvestedLinks(links: seq<Link>, collected: map<string, Follower>) {
    forall i :: 0 <= i < |links| && LinkUsername(links[i]).Some? ==> LinkUsername(links[i]).value in collected
  }

  /** The rows of the first `n` scroll passes are all in `collected`. */
  ghost predicate Harvested(frames: seq<Frame>, n: nat, collected: map<string, Follower>)
    requires n <= |frames|
  {
    forall k :: 0 <= k < n ==> HarvestedLinks(frames[k].links, collected)
  }

  /** extractFollowersFromDOM collects every row it sees and blanks nothing it had. */
  lemma ExtractedHarvests(collected: map<string, Follower>, links: seq<Link>)
    ensures Grows(collected, Extracted(collected, links))
    ensures HarvestedLinks(links, Extracted(collected, links))
  {
    RowLinksKeys(links, LinkUsername);
  }

  lemma HarvestStep(frames: seq<Frame>, n: nat, before: map<string, Follower>, after: map<string, Follower>)
    requires n < |frames| && Harvested(frames, n, before) && Grows(before, after)
    requires HarvestedLinks(frames[n].links, after)
    ensures Harvested(frames, n + 1, after)
  {
  }

  /** Some link visible in one of the first `n` scroll passes names `u`. */
  predicate NamedInPasses(frames: seq<Frame>, name: Link -> Option<string>, n: nat, u: string)
    requires n <= |frames|
  {
    n > 0 && (NamedInPasses(frames, name, n - 1, u) || NamedBy(frames[n - 1].links, name, u))
  }

  /** collectedFollowers after the first `n` passes of the scroll loop, each extracting the rows it sees. */
  function Scrolled(collected: map<string, Follower>, frames: seq<Frame>, n: nat): map<string, Follower>
    requires n <= |frames|
  {
    if n == 0 then collected else Extracted(Scrolled(collected, frames, n - 1), frames[n - 1].links)
  }

  /** The key order of collectedFollowers after those passes: each pass appends its new usernames. */
  function ScrolledOrder(order: seq<string>, collected: map<string, Follower>, frames: seq<Frame>, n: nat): seq<string>
    requires n <= |frames|
  {
    if n == 0 then order
    else ScrolledOrder(order, collected, frames, n - 1)
         + NewKeys(RowKeys(frames[n - 1].links, LinkUsername), Scrolled(collected, frames, n - 1).Keys)
  }

  /** `order` and `collected` are what the first `n` passes extracted, starting from `startOrder` and `start`. */
  ghost predicate ScrolledTo(startOrder: seq<string>, start: map<string, Follower>, frames: seq<Frame>, n: nat,
                             order: seq<string>, collected: map<string, Follower>)
  {
    && n <= |frames|
    // Stated for every pass count equal to `n`, so that the folds unfold only where a proof names them.
    && forall k :: k == n ==> collected == Scrolled(start, frames, k) && order == ScrolledOrder(startOrder, start, frames, k)
  }

  /** Pass `n` extends the state the first `n` passes reached by its own extraction. */
  lemma ScrolledToStep(startOrder: seq<string>, start: map<string, Follower>, frames: seq<Frame>, n: nat,
                       order: seq<string>, collected: map<string, Follower>)
    requires n < |frames| && ScrolledTo(startOrder, start, frames, n, order, collected)
    ensures ScrolledTo(startOrder, start, frames, n + 1,
                       order + NewKeys(RowKeys(frames[n].links, LinkUsername), collected.Keys),
                       Extracted(collected, frames[n].links))
  {
    ScrolledUnfold(startOrder, start, frames, n + 1);
    assert collected == Scrolled(start, frames, n) && order == ScrolledOrder(startOrder, start, frames, n);
    forall k | k == n + 1
      ensures Extracted(collected, frames[n].links) == Scrolled(start, frames, k)
      ensures order + NewKeys(RowKeys(frames[n].links, LinkUsername), collected.Keys) == ScrolledOrder(startOrder, start, frames, k)
    {
    }
  }

  /** The fold's last step, written out. */
  lemma ScrolledUnfold(startOrder: seq<string>, start: map<string, Follower>, frames: seq<Frame>, n: nat)
    requires 0 < n <= |frames|
    ensures Scrolled(start, frames, n) == Extracted(Scrolled(start, frames, n - 1), frames[n - 1].links)
    ensures ScrolledOrder(startOrder, start, frames, n) == ScrolledOrder(startOrder, start, frames, n - 1)
              + NewKeys(RowKeys(frames[n - 1].links, LinkUsername), Scrolled(start, frames, n - 1).Keys)
  {
  }

  /** One extraction holds a username exactly when it was held before or a row of the pass names it. */
  lemma ExtractedNames(collected: map<string, Follower>, links: seq<Link>, u: string)
    ensures u in Extracted(collected, links) <==> u in collected || NamedBy(links, LinkUsername, u)
  {
    RowLinksNamed(links, LinkUsername, u);
  }

  /** The usernames held after `n` passes: those held at the start and each pass's row usernames. */
  function PassKeys(collected: map<string, Follower>, frames: seq<Frame>, n: nat): set<string>
    requires n <= |frames|
  {
    if n == 0 then collected.Keys else PassKeys(collected, frames, n - 1) + RowLinks(frames[n - 1].links, LinkUsername).Keys
  }

  /** The passes' extractions keep exactly those keys. */
  lemma {:induction false} ScrolledKeySet(collected: map<string, Follower>, frames: seq<Frame>, n: nat)
    requires n <= |frames|
    ensures Scrolled(collected, frames, n).Keys == PassKeys(collected, frames, n)
  {
    if n > 0 {
      ScrolledKeySet(collected, frames, n - 1);
    }
  }

  /** A username is among them exactly when it was held at the start or a row of some pass named it. */
  lemma {:induction false} PassKeysNamed(collected: map<string, Follower>, frames: seq<Frame>, n: nat, u: string)
    requires n <= |frames|
    ensures u in PassKeys(collected, frames, n) <==> u in collected || NamedInPasses(frames, LinkUsername, n, u)
  {
    if n > 0 {
      PassKeysNamed(collected, frames, n - 1, u);
      RowLinksNamed(frames[n - 1].links, LinkUsername, u);
    }
  }

  /** After `n` passes the collection holds a username exactly when it did before or a row of some pass named it. */
  lemma ScrolledKeys(collected: map<string, Follower>, frames: seq<Frame>, n: nat, u: string)
    requires n <= |frames|
    ensures u in Scrolled(collected, frames, n) <==> u in collected || NamedInPasses(frames, LinkUsername, n, u)
  {
    ScrolledKeySet(collected, frames, n);
    PassKeysNamed(collected, frames, n, u);
  }

  /** NamedInPasses, unfolded: some pass before the `n`-th has a link naming `u`. */
  lemma {:induction false} NamedInPassesMeans(frames: seq<Frame>, name: Link -> Option<string>, n: nat, u: string)
    requires n <= |frames|
    ensures NamedInPasses(frames, name, n, u) <==> exists k :: 0 <= k < n && NamedBy(frames[k].links, name, u)
  {
    if n > 0 {
      NamedInPassesMeans(frames, name, n - 1, u);
      if !NamedInPasses(frames, name, n, u) {
        forall k | 0 <= k < n
          ensures !NamedBy(frames[k].links, name, u)
        {
        }
      }
    }
  }

  /**
   * convertProfilePicsToBase64 run for `batches` batches on `before`, collected
   * in `order`, with the cancel flag `wasCancelled` at its start: the http
   * entries of the batches run are converted and nothing else changes, a batch
   * is skipped only after a cancel, and no cancel arrived before the last batch run.
   */
  ghost predicate PicturesConverted(order: seq<string>, before: map<string, Follower>, after: map<string, Follower>,
                                    fetch: string -> Option<string>, cancelDuringBatch: iset<nat>, batches: nat,
                                    wasCancelled: bool)
  {
    && Keyed(order, before)
    && var entries := HttpEntries(ValuesOf(order, before));
       var done := BatchesDone(batches, |entries|);
       && after == Converted(before, Usernames(entries[..done]), fetch)
       && (done < |entries| ==> wasCancelled || (batches > 0 && batches - 1 in cancelDuringBatch))
       && (batches > 0 ==> !wasCancelled)
       && NoCancelBefore(cancelDuringBatch, batches - 1)
  }

  /** PicturesConverted from the conversion loop's exit state, `done` entries converted. */
  lemma PicturesConvertedAt(order: seq<string>, before: map<string, Follower>, after: map<string, Follower>,
                            fetch: string -> Option<string>, cancelDuringBatch: iset<nat>, batches: nat,
                            wasCancelled: bool, done: nat)
    requires Keyed(order, before)
    requires var entries := HttpEntries(ValuesOf(order, before));
             && done == BatchesDone(batches, |entries|)
             && ConvertedUpTo(order, before, entries, done, fetch, after)
             && (done < |entries| ==> wasCancelled || (batches > 0 && batches - 1 in cancelDuringBatch))
    requires batches > 0 ==> !wasCancelled
    requires NoCancelBefore(cancelDuringBatch, batches - 1)
    ensures PicturesConverted(order, before, after, fetch, cancelDuringBatch, batches, wasCancelled)
  {
  }

  /** Whether the scroll loop, begun with the cancel flag `wasCancelled`, ended cancelled after `passes` passes. */
  predicate ScrollCancelled(frames: seq<Frame>, wasCancelled: bool, passes: nat)
    requires passes <= |frames|
  {
    wasCancelled || (passes > 0 && frames[passes - 1].cancelled)
  }

  /**
   * scrollVirtualizedList's loop, begun at scroll position `start` with the
   * cancel flag `wasCancelled`, ran `passes` passes: it went on after every
   * earlier pass (no cancel, no stall run of MAX_NO_ADVANCE) and stopped early
   * only for a cancel or a full stall run.
   */
  ghost predicate ScrollStopped(start: int, frames: seq<Frame>, wasCancelled: bool, passes: nat)
  {
    && passes <= |frames|
    && (wasCancelled ==> passes == 0)
    && (forall k :: 0 < k < passes ==> StallRun(start, frames, k) < MAX_NO_ADVANCE)
    && (forall k :: 0 <= k < passes - 1 ==> !frames[k].cancelled)
    && (passes < |frames| ==>
          ScrollCancelled(frames, wasCancelled, passes) || StallRun(start, frames, passes) == MAX_NO_ADVANCE)
  }

  /**
   * What a scan that reached its scroll container did, starting from the
   * collection `start` kept in `startOrder` and with the cancel flag
   * `wasCancelled` when scrolling began: `passes` scroll passes, continued while
   * no cancel and no full stall run was seen and stopped only for one of them,
   * each extracting the rows it saw; the final sweep extracting its rows to give
   * `swept`, kept in `order`; then, unless the scroll ended cancelled, `batches`
   * batches of picture conversion giving `final`.
   */
  ghost predicate ScanRan(page: Page, wasCancelled: bool, startOrder: seq<string>, start: map<string, Follower>,
                          passes: nat, swept: map<string, Follower>, order: seq<string>, batches: nat,
                          final: map<string, Follower>)
  {
    && page.container.Some?
    && ScrollStopped(page.container.value, page.frames, wasCancelled, passes)
    && swept == Extracted(Scrolled(start, page.frames, passes), page.finalLinks)
    && order == ScrolledOrder(startOrder, start, page.frames, passes)
                + NewKeys(RowKeys(page.finalLinks, LinkUsername), Scrolled(start, page.frames, passes).Keys)
    && (ScrollCancelled(page.frames, wasCancelled, passes) ==> final == swept && batches == 0)
    && (!ScrollCancelled(page.frames, wasCancelled, passes) ==>
          PicturesConverted(order, swept, final, page.fetch, page.cancelDuringBatch, batches, false))
  }

  /**
   * A scan ends holding a username exactly when it held it at the start or a
   * row of some scroll pass or of the final sweep named it; the conversion
   * adds and removes no key.
   */
  lemma ScanRanCollects(page: Page, wasCancelled: bool, startOrder: seq<string>, start: map<string, Follower>,
                        passes: nat, swept: map<string, Follower>, order: seq<string>, batches: nat,
                        final: map<string, Follower>, u: string)
    requires ScanRan(page, wasCancelled, startOrder, start, passes, swept, order, batches, final)
    ensures final.Keys == swept.Keys
    ensures u in final <==> u in start || NamedInPasses(page.frames, LinkUsername, passes, u) || NamedBy(page.finalLinks, LinkUsername, u)
  {
    ScrolledKeys(start, page.frames, passes, u);
    ExtractedNames(Scrolled(start, page.frames, passes), page.finalLinks, u);
    if !ScrollCancelled(page.frames, wasCancelled, passes) {
      assert final.Keys == swept.Keys;
    }
  }

  class Scraper {
    var isScanning: bool
    var cancelScan: bool
    /** The keys of collectedFollowers, in insertion order. */
    var order: seq<string>
    /** collectedFollowers: username to follower record. */
    var collected: map<string, Follower>

    ghost predicate Valid()
      reads this
    {
      Keyed(order, collected)
    }

    constructor()
      ensures Valid() && !isScanning && !cancelScan && order == [] && collected == map[]
    {
      isScanning := false;
      cancelScan := false;
      order := [];
      collected := map[];
    }

    /** `Array.from(collectedFollowers.values())` */
    function Values(): (vs: seq<Follower>)
      reads this
      requires Valid()
      ensures |vs| == |order| && DistinctUsernames(vs) && Usernames(vs) == collected.Keys
      ensures forall i :: 0 <= i < |vs| ==> vs[i] == collected[order[i]]
    {
      var vs := ValuesOf(order, collected);
      assert forall u :: u in collected ==> exists i :: 0 <= i < |order| && order[i] == u && vs[i].username == u;
      vs
    }

    /** The CANCEL_OPERATION message handler. */
    method CancelOperation()
      modifies this
      ensures cancelScan
      ensures isScanning == old(isScanning) && order == old(order) && collected == old(collected)
    {
      cancelScan := true;
    }

    /** The guard at the top of startFollowerScan: a start while scanning is a cancel. */
    method BeginScan() returns (started: bool)
      requires Valid()
      modifies this
      ensures Valid()
      ensures started == !old(isScanning)
      ensures !started ==> isScanning && cancelScan && order == old(order) && collected == old(collected)
      ensures started ==> isScanning && !cancelScan && order == [] && collected == map[]
    {
      if isScanning {
        cancelScan := true;
        return false;
      }
      isScanning := true;
      cancelScan := false;
      order := [];
      collected := map[];
      return true;
    }

    /** The `finally` block of startFollowerScan. */
    method EndScan()
      modifies this
      ensures !isScanning && !cancelScan
      ensures order == old(order) && collected == old(collected)
    {
      isScanning := false;
      cancelScan := false;
    }

    /** The second loop of extractFollowersFromDOM: each row merged into collectedFollowers. */
    method MergeRowsIntoCollected(rowKeys: seq<string>, rows: map<string, Link>)
      requires Valid()
      requires forall a, b :: 0 <= a < b < |rowKeys| ==> rowKeys[a] != rowKeys[b]
      requires forall u :: u in rowKeys ==> u in rows
      modifies this
      ensures isScanning == old(isScanning) && cancelScan == old(cancelScan)
      ensures MergedUpTo(old(order), old(collected), rowKeys, rows, Merge, |rowKeys|, order, collected)
    {
      assert rowKeys[..0] == [];
      for j := 0 to |rowKeys|
        invariant isScanning == old(isScanning) && cancelScan == old(cancelScan)
        invariant MergedUpTo(old(order), old(collected), rowKeys, rows, Merge, j, order, collected)
      {
        MergeRow(old(order), old(collected), rowKeys, rows, j);
      }
    }

    /** One pass of the merge loop: store the record for row `j`, appending its username when it is new. */
    method MergeRow(ghost knownOrder: seq<string>, ghost known: map<string, Follower>,
                    rowKeys: seq<string>, rows: map<string, Link>, j: nat)
      requires j < |rowKeys|
      requires forall a, b :: 0 <= a < b < |rowKeys| ==> rowKeys[a] != rowKeys[b]
      requires forall u :: u in rowKeys ==> u in rows
      requires MergedUpTo(knownOrder, known, rowKeys, rows, Merge, j, order, collected)
      modifies this
      ensures isScanning == old(isScanning) && cancelScan == old(cancelScan)
      ensures MergedUpTo(knownOrder, known, rowKeys, rows, Merge, j + 1, order, collected)
    {
      var username := rowKeys[j];
      var link := rows[username];
      MergeLoopStep(knownOrder, known, rowKeys, rows, Merge, j, order, collected);
      var record := RowRecord(Lookup(collected, username), username, link);
      if username !in collected {
        order := order + [username];
      }
      collected := collected[username := record];
    }

    /** extractFollowersFromDOM(dialog) over the links of the dialog. */
    method ExtractFollowersFromDOM(links: seq<Link>)
      requires Valid()
      modifies this
      ensures Valid()
      ensures isScanning == old(isScanning) && cancelScan == old(cancelScan)
      ensures order == old(order) + NewKeys(RowKeys(links, LinkUsername), old(collected).Keys)
      ensures collected == Extracted(old(collected), links)
    {
      var rowKeys, rows := CollectRows(links);

      MergeRowsIntoCollected(rowKeys, rows);
      assert rowKeys[..|rowKeys|] == rowKeys;
    }

    /** One extractFollowersFromDOM call as the scroll loop relies on it: every visible row collected, nothing blanked. */
    method HarvestVisible(links: seq<Link>)
      requires Valid()
      modifies this
      ensures Valid() && isScanning == old(isScanning) && cancelScan == old(cancelScan)
      ensures Grows(old(collected), collected) && HarvestedLinks(links, collected)
    {
      ExtractFollowersFromDOM(links);
      ExtractedHarvests(old(collected), links);
    }

    /** One pass's extractFollowersFromDOM: the rows visible in pass `n` added to what the earlier passes collected. */
    method ExtractPass(frames: seq<Frame>, n: nat, ghost startOrder: seq<string>, ghost start: map<string, Follower>)
      requires Valid() && n < |frames|
      requires ScrolledTo(startOrder, start, frames, n, order, collected)
      modifies this
      ensures Valid() && isScanning == old(isScanning) && cancelScan == old(cancelScan)
      ensures ScrolledTo(startOrder, start, frames, n + 1, order, collected)
      ensures Grows(old(collected), collected) && HarvestedLinks(frames[n].links, collected)
    {
      ExtractFollowersFromDOM(frames[n].links);
      ScrolledToStep(startOrder, start, frames, n, old(order), old(collected));
      ExtractedHarvests(old(collected), frames[n].links);
    }

    /** scrollVirtualizedList(container, dialog), the container's scrollTop starting at `start`. */
    method ScrollVirtualizedList(start: int, frames: seq<Frame>) returns (passes: nat)
      requires Valid()
      modifies this
      ensures Valid() && isScanning == old(isScanning)
      ensures passes <= |frames|
      ensures old(cancelScan) ==> passes == 0 && order == old(order) && collected == old(collected)
      // The loop went on after every earlier pass: no stall run of MAX_NO_ADVANCE, no cancel.
      ensures forall k :: 0 < k < passes ==> StallRun(start, frames, k) < MAX_NO_ADVANCE
      ensures forall k :: 0 <= k < passes - 1 ==> !frames[k].cancelled
      ensures cancelScan == (old(cancelScan) || (passes > 0 && frames[passes - 1].cancelled))
      // It stopped early only for a cancel or a full stall run.
      ensures passes < |frames| ==> cancelScan || StallRun(start, frames, passes) == MAX_NO_ADVANCE
      // Each pass extracted the rows it saw: the collection and its order are the fold of those extractions.
      ensures ScrolledTo(old(order), old(collected), frames, passes, order, collected)
      // So every pass harvested its visible rows, and nothing collected is lost or blanked.
      ensures Harvested(frames, passes, collected)
      ensures Grows(old(collected), collected)
    {
      var noAdvanceCount := 0;
      var before := start;
      passes := 0;
      while !cancelScan && passes < |frames|
        invariant passes <= |frames|
        invariant Valid() && isScanning == old(isScanning)
        invariant old(cancelScan) ==> passes == 0 && order == old(order) && collected == old(collected)
        invariant noAdvanceCount == StallRun(start, frames, passes) < MAX_NO_ADVANCE
        invariant before == Before(start, frames, passes)
        invariant forall k :: 0 < k <= passes ==> StallRun(start, frames, k) < MAX_NO_ADVANCE
        invariant forall k :: 0 <= k < passes - 1 ==> !frames[k].cancelled
        invariant cancelScan == (old(cancelScan) || (passes > 0 && frames[passes - 1].cancelled))
        invariant ScrolledTo(old(order), old(collected), frames, passes, order, collected)
        invariant Harvested(frames, passes, collected)
        invariant Grows(old(collected), collected)
        decreases |frames| - passes
      {
        // Harvest what is visible before scrolling it away.
        ghost var prev := collected;
        ExtractPass(frames, passes, old(order), old(collected));
        GrowsTransitive(old(collected), prev, collected);
        HarvestStep(frames, passes, prev, collected);
        // container.scrollTop += 400, then the wait, during which a cancel may arrive.
        if frames[passes].cancelled {
          cancelScan := true;
        }
        var after := frames[passes].scrollTopAfter;
        passes := passes + 1;
        if Abs(after - before) < MIN_ADVANCE {
          noAdvanceCount := noAdvanceCount + 1;
          if noAdvanceCount >= MAX_NO_ADVANCE {
            break;
          }
        } else {
          noAdvanceCount := 0;
        }
        before := after;
      }
    }

    /** One batch of convertProfilePicsToBase64: entries `lo` to `hi` fetched, each success stored. */
    method ConvertBatch(entries: seq<Follower>, lo: nat, hi: nat, fetch: string -> Option<string>,
                        ghost start: map<string, Follower>)
      requires Valid() && lo <= hi <= |entries|
      requires DrawnFrom(entries, start)
      requires ConvertedUpTo(order, start, entries, lo, fetch, collected)
      modifies this
      ensures Valid() && order == old(order) && isScanning == old(isScanning) && cancelScan == old(cancelScan)
      ensures ConvertedUpTo(order, start, entries, hi, fetch, collected)
    {
      for k := lo to hi
        invariant order == old(order) && isScanning == old(isScanning) && cancelScan == old(cancelScan)
        invariant ConvertedUpTo(order, start, entries, k, fetch, collected)
      {
        ConvertOne(entries, k, fetch, start);
      }
    }

    /** One entry of a batch: its picture fetched, and the data URL stored on success. */
    method ConvertOne(entries: seq<Follower>, k: nat, fetch: string -> Option<string>, ghost start: map<string, Follower>)
      requires k < |entries| && DrawnFrom(entries, start)
      requires ConvertedUpTo(order, start, entries, k, fetch, collected)
      modifies this
      ensures order == old(order) && isScanning == old(isScanning) && cancelScan == old(cancelScan)
      ensures ConvertedUpTo(order, start, entries, k + 1, fetch, collected)
    {
      var f := entries[k];
      ConvertLoopStep(order, start, entries, k, fetch, collected);
      var data := fetch(f.profilePicUrl);
      if data.Some? {
        collected := collected[f.username := f.(profilePicUrl := data.value)];
      }
    }

    /** convertProfilePicsToBase64(): fetch the http pictures in batches, checking for a cancel before each batch. */
    method ConvertProfilePicsToBase64(fetch: string -> Option<string>, cancelDuringBatch: iset<nat>)
      returns (batches: nat)
      requires Valid()
      modifies this
      ensures Valid() && order == old(order) && isScanning == old(isScanning)
      ensures PicturesConverted(old(order), old(collected), collected, fetch, cancelDuringBatch, batches, old(cancelScan))
      ensures cancelScan == (old(cancelScan) || (batches > 0 && batches - 1 in cancelDuringBatch))
    {
      var values := Values();
      assert values == ValuesOf(order, collected);
      var entries := HttpEntries(values);
      HttpEntriesFrom(order, collected, entries);
      ghost var start := collected;
      assert collected == Converted(start, Usernames(entries[..0]), fetch);
      batches := 0;
      // The source steps i by BATCH; stopping at the end of the last, shorter batch is the same loop.
      var i := 0;
      while i < |entries|
        invariant i == BatchesDone(batches, |entries|)
        invariant order == old(order) && isScanning == old(isScanning)
        invariant ConvertedUpTo(order, start, entries, i, fetch, collected)
        invariant batches > 0 ==> !old(cancelScan)
        invariant NoCancelBefore(cancelDuringBatch, batches - 1)
        invariant cancelScan == (old(cancelScan) || (batches > 0 && batches - 1 in cancelDuringBatch))
        decreases |entries| - i
      {
        if cancelScan {
          break;
        }
        NoCancelStep(cancelDuringBatch, batches);
        var end := if i + BATCH < |entries| then i + BATCH else |entries|;
        BatchesDoneStep(batches, |entries|);
        ConvertBatch(entries, i, end, fetch, start);
        if batches in cancelDuringBatch {
          cancelScan := true;
        }
        batches := batches + 1;
        i := end;
      }
      assert i < |entries| ==> cancelScan;
      PicturesConvertedAt(order, start, collected, fetch, cancelDuringBatch, batches, old(cancelScan), i);
    }

    /** The body of startFollowerScan's `try`, once the flags are set. */
    method RunScan(page: Page) returns (reply: ScanReply, ghost passes: nat, ghost swept: map<string, Follower>,
                                        ghost batches: nat)
      requires Valid()
      modifies this
      ensures Valid() && isScanning == old(isScanning)
      ensures !page.dialogOpen && !page.followersLink ==>
        reply == Failed(NO_FOLLOWERS_LINK)
      ensures !page.dialogOpen && page.followersLink && !page.dialogAppeared ==>
        reply == Failed(NO_DIALOG)
      ensures (page.dialogOpen || (page.followersLink && page.dialogAppeared)) && page.container.None? ==>
        reply == Failed(NO_CONTAINER)
      ensures (page.dialogOpen || (page.followersLink && page.dialogAppeared)) && page.container.Some? ==>
        reply == Completed(Values(), FirstSegment(StripSlashes(page.pathname)))
      // A completed scan scrolled, swept and converted as ScanRan says, and reports every row it harvested.
      ensures reply.Completed? ==>
        && ScanRan(page, old(cancelScan) || page.cancelledBeforeScroll, old(order), old(collected),
                   passes, swept, order, batches, collected)
        && Grows(old(collected), swept)
        && Usernames(reply.followers) == swept.Keys
      ensures reply.Completed? ==>
        forall i :: 0 <= i < |page.finalLinks| && LinkUsername(page.finalLinks[i]).Some?
          ==> LinkUsername(page.finalLinks[i]).value in Usernames(reply.followers)
    {
      passes, swept, batches := 0, collected, 0;
      if !page.dialogOpen {
        if !page.followersLink {
          return Failed(NO_FOLLOWERS_LINK), passes, swept, batches;
        }
        if !page.dialogAppeared {
          return Failed(NO_DIALOG), passes, swept, batches;
        }
      }
      if page.container.None? {
        HarvestVisible(page.visible);
        return Failed(NO_CONTAINER), passes, swept, batches;
      }
      if page.cancelledBeforeScroll {
        cancelScan := true;
      }
      reply, passes, swept, batches := ScanContainer(page);
    }

    /** RunScan once the scroll container is found: scroll it, sweep, convert, and report the collection. */
    method ScanContainer(page: Page) returns (reply: ScanReply, ghost passes: nat, ghost swept: map<string, Follower>,
                                              ghost batches: nat)
      requires Valid() && page.container.Some?
      modifies this
      ensures Valid() && isScanning == old(isScanning)
      ensures reply == Completed(Values(), FirstSegment(StripSlashes(page.pathname)))
      ensures ScanRan(page, old(cancelScan), old(order), old(collected), passes, swept, order, batches, collected)
      ensures Grows(old(collected), swept)
      ensures Usernames(reply.followers) == swept.Keys
      ensures forall i :: 0 <= i < |page.finalLinks| && LinkUsername(page.finalLinks[i]).Some?
                ==> LinkUsername(page.finalLinks[i]).value in Usernames(reply.followers)
    {
      passes := ScrollVirtualizedList(page.container.value, page.frames);
      assert ScrollStopped(page.container.value, page.frames, old(cancelScan), passes);
      ghost var scrolled := collected;
      assert scrolled == Scrolled(old(collected), page.frames, passes);
      assert order == ScrolledOrder(old(order), old(collected), page.frames, passes);
      swept, batches := SweepAndConvert(page);
      GrowsTransitive(old(collected), scrolled, swept);
      reply := Completed(Values(), FirstSegment(StripSlashes(page.pathname)));
    }

    /** The end of the scan: the final sweep of the rendered rows, then, unless cancelled, the picture conversion. */
    method SweepAndConvert(page: Page) returns (ghost swept: map<string, Follower>, ghost batches: nat)
      requires Valid()
      modifies this
      ensures Valid() && isScanning == old(isScanning)
      ensures swept == Extracted(old(collected), page.finalLinks)
      ensures order == old(order) + NewKeys(RowKeys(page.finalLinks, LinkUsername), old(collected).Keys)
      ensures Grows(old(collected), swept) && HarvestedLinks(page.finalLinks, swept)
      ensures old(cancelScan) ==> collected == swept && batches == 0
      ensures !old(cancelScan) ==>
        PicturesConverted(order, swept, collected, page.fetch, page.cancelDuringBatch, batches, false)
      ensures collected.Keys == swept.Keys
    {
      ExtractFollowersFromDOM(page.finalLinks);
      ExtractedHarvests(old(collected), page.finalLinks);
      swept := collected;
      batches := 0;
      if !cancelScan {
        batches := ConvertProfilePicsToBase64(page.fetch, page.cancelDuringBatch);
        assert collected.Keys == swept.Keys;
      }
    }

    /** startFollowerScan() */
    method StartFollowerScan(page: Page) returns (reply: ScanReply, ghost passes: nat,
                                                  ghost swept: map<string, Follower>, ghost batches: nat)
      requires Valid()
      modifies this
      ensures Valid()
      ensures old(isScanning) ==>
        reply == Busy && isScanning && cancelScan && order == old(order) && collected == old(collected)
      ensures !old(isScanning) ==> !isScanning && !cancelScan
      // A fresh start runs the scan from an empty collection, with RunScan's outcomes.
      ensures !old(isScanning) && !page.dialogOpen && !page.followersLink ==>
        reply == Failed(NO_FOLLOWERS_LINK)
      ensures !old(isScanning) && !page.dialogOpen && page.followersLink && !page.dialogAppeared ==>
        reply == Failed(NO_DIALOG)
      ensures !old(isScanning) && (page.dialogOpen || (page.followersLink && page.dialogAppeared))
              && page.container.None? ==>
        reply == Failed(NO_CONTAINER)
      ensures !old(isScanning) && (page.dialogOpen || (page.followersLink && page.dialogAppeared))
              && page.container.Some? ==>
        reply == Completed(Values(), FirstSegment(StripSlashes(page.pathname)))
      // A completed scan ran as ScanRan says from an empty collection, and reports exactly the rows it saw.
      ensures !old(isScanning) && reply.Completed? ==>
        && ScanRan(page, page.cancelledBeforeScroll, [], map[], passes, swept, order, batches, collected)
        && Usernames(reply.followers) == swept.Keys
        && forall u :: u in Usernames(reply.followers) <==>
             NamedInPasses(page.frames, LinkUsername, passes, u) || NamedBy(page.finalLinks, LinkUsername, u)
    {
      passes, swept, batches := 0, map[], 0;
      var started := BeginScan();
      if !started {
        return Busy, passes, swept, batches;
      }
      reply, passes, swept, batches := RunScan(page);
      EndScan();
      if reply.Completed? {
        forall u
          ensures u in Usernames(reply.followers) <==> NamedInPasses(page.frames, LinkUsername, passes, u) || NamedBy(page.finalLinks, LinkUsername, u)
        {
          ScanRanCollects(page, page.cancelledBeforeScroll, [], map[], passes, swept, order, batches, collected, u);
        }
      }
    }
  }
}
