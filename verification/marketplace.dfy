/** The Marketplace page (src/routes/Marketplace.jsx): the names under
    which a locally stored image counts as installed, the clean-up of stale
    pull progress, the validity of the cached local-image set, the cards
    made from a Docker Hub search, the list on display, and the pull
    bookkeeping. */
module Marketplace {
  import opened Wrappers
  import opened Text
  import opened Seqs
  import opened JsValues
  import opened ContainerUtils

  // ---------------------------------------------------------------------------
  // checkLocalImages: local-name expansion
  // ---------------------------------------------------------------------------

  const ListArgs: seq<string> := ["images", "list", "--format", "json"]

  /** The prefix of official images. */
  const OfficialPrefix: string := "docker.io/library/"

  /** `s.split(':')[0]`: the text before the first colon. */
  function BeforeColon(s: string): (r: string)
    ensures ':' !in r && |r| <= |s| && r == s[..|r|]
  {
    var parts := Split(s, ':');
    JoinStartsWithFirst(parts, ":");
    parts[0]
  }

  /** `s.split('/')` and its last piece. */
  function LastSegment(s: string): (r: string)
    ensures '/' !in r
    ensures '/' !in s ==> r == s
  {
    var parts := Split(s, '/');
    if '/' in s then parts[|parts| - 1]
    else SplitWhole(s, '/'); parts[|parts| - 1]
  }

  /** The names one local image reference contributes: the reference; when
      it splits at `/` into two or more pieces, the last piece up to its
      first `:`; and for an official image, the reference without the
      prefix and that text up to its first `:`. */
  function LocalNames(ref: string): (r: set<string>)
    ensures ref in r
    ensures '/' !in ref ==> r == {ref}
  {
    SplitSingle(ref, '/');
    if |Split(ref, '/')| >= 2 then
      var short := {BeforeColon(LastSegment(ref))};
      if StartsWith(ref, OfficialPrefix) then
        var without := ref[|OfficialPrefix|..];
        {ref} + short + {without, BeforeColon(without)}
      else {ref} + short
    else {ref}
  }

  /** The pieces of a `PATH/NAME:TAG` reference that `LocalNames` reads. */
  lemma ReferencePieces(path: string, name: string, tag: string)
    requires '/' !in name && ':' !in name && '/' !in tag
    ensures var ref := path + "/" + name + ":" + tag;
      |Split(ref, '/')| >= 2 && LastSegment(ref) == name + ":" + tag && BeforeColon(name + ":" + tag) == name
  {
    var last := name + ":" + tag;
    assert path + "/" + name + ":" + tag == path + "/" + last;
    SplitLastAfter(path, '/', last);
    SplitFirstBefore(name, ':', tag);
  }

  /** `LocalNames` of a reference with a slash, in terms of its short name. */
  lemma LocalNamesWithPath(ref: string, short: string)
    requires |Split(ref, '/')| >= 2 && BeforeColon(LastSegment(ref)) == short
    ensures StartsWith(ref, OfficialPrefix) ==>
      LocalNames(ref) == {ref, short, ref[|OfficialPrefix|..], BeforeColon(ref[|OfficialPrefix|..])}
    ensures !StartsWith(ref, OfficialPrefix) ==> LocalNames(ref) == {ref, short}
  {
  }

  /** An official image `docker.io/library/NAME:TAG` counts as installed
      under its reference, under `NAME` and under `NAME:TAG`. */
  lemma OfficialLocalNames(name: string, tag: string)
    requires '/' !in name && ':' !in name && '/' !in tag
    ensures LocalNames(OfficialPrefix + name + ":" + tag) == {OfficialPrefix + name + ":" + tag, name, name + ":" + tag}
  {
    var last := name + ":" + tag;
    var ref := OfficialPrefix + last;
    assert OfficialPrefix + name + ":" + tag == ref;
    assert ref == "docker.io/library" + "/" + name + ":" + tag;
    ReferencePieces("docker.io/library", name, tag);
    assert ref[..|OfficialPrefix|] == OfficialPrefix;
    assert ref[|OfficialPrefix|..] == last;
    LocalNamesWithPath(ref, name);
  }

  /** Any other reference with a path, `PATH/NAME:TAG`, counts as installed
      under its reference and `NAME`. */
  lemma PathLocalNames(path: string, name: string, tag: string)
    requires !StartsWith(path + "/", OfficialPrefix)
    requires '/' !in name && ':' !in name && '/' !in tag
    ensures LocalNames(path + "/" + name + ":" + tag) == {path + "/" + name + ":" + tag, name}
  {
    var last := name + ":" + tag;
    var ref := path + "/" + last;
    assert path + "/" + name + ":" + tag == ref;
    ReferencePieces(path, name, tag);
    NotOfficial(path, last);
    LocalNamesWithPath(ref, name);
  }

  /** A reference whose path and slash do not start the official prefix,
      followed by a slash-free last part, is not official. */
  lemma NotOfficial(path: string, last: string)
    requires !StartsWith(path + "/", OfficialPrefix) && '/' !in last
    ensures !StartsWith(path + "/" + last, OfficialPrefix)
  {
    var ref := path + "/" + last;
    assert |ref| >= 18 ==> ref[..18][17] == ref[17];
    assert |path| < 17 && |ref| > 17 ==> ref[17] == last[16 - |path|];
    assert |path| >= 17 && |ref| >= 18 ==> ref[..18] == (path + "/")[..18];
  }

  /** The reference of one listed image, when the page reads it: None for
      an item without a truthy reference. */
  function ReferenceOf(item: Json): Option<Json> {
    var ref := Member(item, "reference");
    if Truthy(ref) then ref else None
  }

  /** An item that makes `forEach` throw: `null`, or a truthy reference that
      is not a string (added, then `split` fails). */
  predicate Throws(item: Json) {
    item == JNull || (ReferenceOf(item).Some? && !ReferenceOf(item).value.JStr?)
  }

  /** The names collected from the listed items, front to back, up to the
      first item that throws. */
  function Collect(items: seq<Json>): (r: set<string>)
    decreases |items|
  {
    if |items| == 0 || Throws(items[0]) then {}
    else
      var rest := Collect(items[1..]);
      match ReferenceOf(items[0])
      case None => rest
      case Some(ref) => LocalNames(ref.s) + rest
  }

  /** Without a throwing item, a name is collected exactly when some item's
      reference contributes it. */
  lemma {:induction false} CollectMembers(items: seq<Json>, x: string)
    requires forall k :: 0 <= k < |items| ==> !Throws(items[k])
    ensures x in Collect(items) <==>
      exists k :: 0 <= k < |items| && ReferenceOf(items[k]).Some? && ReferenceOf(items[k]).value.JStr? && x in LocalNames(ReferenceOf(items[k]).value.s)
    decreases |items|
  {
    if |items| > 0 {
      CollectMembers(items[1..], x);
      assert forall k :: 0 < k < |items| ==> items[1..][k - 1] == items[k];
      if x in Collect(items[1..]) {
        var k :| 0 <= k < |items| - 1 && ReferenceOf(items[1..][k]).Some? && ReferenceOf(items[1..][k]).value.JStr? && x in LocalNames(ReferenceOf(items[1..][k]).value.s);
        assert items[1..][k] == items[k + 1];
      }
    }
  }

  /** A throwing item ends the collection: nothing after it counts. */
  lemma CollectStops(items: seq<Json>, more: seq<Json>, bad: Json)
    requires Throws(bad)
    ensures Collect(items + [bad] + more) == Collect(items + [bad])
    decreases |items|
  {
    if |items| > 0 {
      assert (items + [bad] + more)[1..] == items[1..] + [bad] + more;
      assert (items + [bad])[1..] == items[1..] + [bad];
      CollectStops(items[1..], more, bad);
    } else {
      assert (items + [bad] + more)[0] == bad;
      assert (items + [bad])[0] == bad;
    }
  }

  /** The local-image set after `checkLocalImages`, given `JSON.parse`;
      None when it is left as it was (the call fails, prints nothing or
      rejects). Output that is not a JSON array gives the empty set. */
  function CheckLocalImages(inv: Invocation, parse: string -> Parsed): (r: Option<set<string>>)
    ensures r.None? <==> !(inv.Completed? && inv.result.success && inv.result.stdout != [])
    ensures r.Some? && !(parse(inv.result.stdout).Parsed? && parse(inv.result.stdout).value.JArr?) ==> r.value == {}
  {
    match inv
    case Rejected(_) => None
    case Completed(res) =>
      if !res.success || res.stdout == [] then None
      else match parse(res.stdout)
        case Parsed(JArr(items)) => Some(Collect(items))
        case _ => Some({})
  }

  // ---------------------------------------------------------------------------
  // cleanupOldProgress
  // ---------------------------------------------------------------------------

  /** A progress entry stuck in flight: its image is no longer pulling and
      its text is neither empty nor a completion or an error. */
  predicate Stale(pulling: set<string>, key: string, progress: string) {
    key !in pulling && progress != [] && !Contains(progress, "completed") && !Contains(progress, "Error")
  }

  /** `cleanupOldProgress()`: the progress map without its stale entries;
      None when nothing is stale and the map is not updated. */
  function CleanupOldProgress(pulling: set<string>, progress: map<string, string>): (r: Option<map<string, string>>)
    ensures r.None? <==> forall k :: k in progress ==> !Stale(pulling, k, progress[k])
    ensures r.Some? ==> forall k :: k in r.value <==> k in progress && !Stale(pulling, k, progress[k])
    ensures r.Some? ==> forall k :: k in r.value ==> r.value[k] == progress[k]
  {
    if exists k :: k in progress && Stale(pulling, k, progress[k]) then
      Some(map k | k in progress && !Stale(pulling, k, progress[k]) :: progress[k])
    else None
  }

  /** A cleaned map has nothing left to clean. */
  lemma CleanupIdempotent(pulling: set<string>, progress: map<string, string>)
    requires CleanupOldProgress(pulling, progress).Some?
    ensures CleanupOldProgress(pulling, CleanupOldProgress(pulling, progress).value).None?
  {
  }

  // ---------------------------------------------------------------------------
  // The local-image cache
  // ---------------------------------------------------------------------------

  /** `CACHE_DURATION`: five minutes in milliseconds. */
  const CacheDuration: int := 5 * 60 * 1000

  predicate CacheValid(now: int, timestamp: int) {
    now - timestamp < CacheDuration
  }

  /** The local-image set the page starts with: the cached names while the
      cache is valid, else the empty set. */
  function InitialLocalImages(now: int, timestamp: int, cached: set<string>): (r: set<string>)
    ensures r == cached || r == {}
    ensures CacheValid(now, timestamp) ==> r == cached
  {
    if CacheValid(now, timestamp) then cached else {}
  }

  /** Whether the page checks the local images on mounting. */
  predicate NeedsRefresh(now: int, timestamp: int, local: set<string>) {
    now - timestamp >= CacheDuration || |local| == 0
  }

  /** What mounting the page leaves behind: the starting set, the time
      stamp in storage, and whether the local images are listed again. */
  datatype Mount = Mount(local: set<string>, stamp: int, relist: bool)

  /** Mounting the page with `cached` names stored at `timestamp`. The set
      is taken at `start`. React runs effects in the order they are
      declared, so the save effect runs before the mount effect: it stores
      the set and, when the set is non-empty, a fresh stamp read at `saved`.
      The mount effect then reads that stamp and tests it at `checked`. */
  function MountPage(start: int, saved: int, checked: int, timestamp: int, cached: set<string>): (m: Mount)
    ensures m.local == InitialLocalImages(start, timestamp, cached)
    ensures m.local != {} ==> m.stamp == saved
    ensures m.local == {} ==> m.stamp == timestamp && m.relist
    ensures m.relist <==> NeedsRefresh(checked, m.stamp, m.local)
  {
    var local := InitialLocalImages(start, timestamp, cached);
    var stamp := if |local| > 0 then saved else timestamp;
    Mount(local, stamp, NeedsRefresh(checked, stamp, local))
  }

  /** When the mount effect follows the save effect within the cache's
      lifetime, the local images are listed again exactly when the page
      starts with none: from an expired or empty cache. A non-empty cached
      set is never listed again on mounting, whatever its age when it was
      read, and the mount restarts its five minutes. */
  lemma InitialThenRefresh(start: int, saved: int, checked: int, timestamp: int, cached: set<string>)
    requires saved <= checked < saved + CacheDuration
    ensures var m := MountPage(start, saved, checked, timestamp, cached);
      && (m.relist <==> m.local == {})
      && (m.local == {} <==> !CacheValid(start, timestamp) || cached == {})
      && (m.local != {} ==> CacheValid(checked, m.stamp))
  {
  }

  // ---------------------------------------------------------------------------
  // Search
  // ---------------------------------------------------------------------------

  /** An image card: what a search result or a featured image shows. */
  datatype Card = Card(
    name: Option<Json>, fullName: Option<Json>, namespace: string, description: Json,
    stars: Json, pulls: Json, official: Json, automated: Json, category: string)

  /** `v || fallback` for a non-text fallback. */
  function Or(v: Option<Json>, fallback: Json): (r: Json)
    ensures Truthy(v) ==> r == v.value
    ensures !Truthy(v) ==> r == fallback
  {
    if Truthy(v) then v.value else fallback
  }

  /** The card of one search result; None where mapping it throws (a `null`
      result, or a repository name that is neither text nor nullish). */
  function CardOf(result: Json): (r: Option<Card>)
    ensures r.Some? ==> r.value.category == "search-result" && r.value.fullName == Member(result, "repo_name")
  {
    if result == JNull then None
    else
      var repo := Member(result, "repo_name");
      var rest := Card(None, repo, "library",
        Or(Member(result, "short_description"), JStr("No description available")),
        Or(Member(result, "star_count"), JNum(0)), Or(Member(result, "pull_count"), JNum(0)),
        Or(Member(result, "is_official"), JBool(false)), Or(Member(result, "is_automated"), JBool(false)),
        "search-result");
      match repo
      case None => Some(rest)
      case Some(JNull) => Some(rest.(name := repo))
      case Some(JStr(s)) =>
        var last := LastSegment(s);
        Some(rest.(name := Some(JStr(if last == [] then s else last)),
                   namespace := if '/' in s then Split(s, '/')[0] else "library"))
      case Some(_) => None
  }

  /** A repository name `NAMESPACE/NAME` gives a card named `NAME` in
      `NAMESPACE`; a name without a slash is an official image. */
  lemma CardNames(result: Json, namespace: string, name: string)
    requires result.JObj? && name != [] && '/' !in namespace && '/' !in name
    ensures Member(result, "repo_name") == Some(JStr(namespace + "/" + name)) ==>
      CardOf(result).Some? && CardOf(result).value.name == Some(JStr(name)) && CardOf(result).value.namespace == namespace
    ensures Member(result, "repo_name") == Some(JStr(name)) ==>
      CardOf(result).Some? && CardOf(result).value.name == Some(JStr(name)) && CardOf(result).value.namespace == "library"
  {
    var s := namespace + "/" + name;
    if Member(result, "repo_name") == Some(JStr(s)) {
      assert s == Join([namespace, name], "/");
      SplitJoin([namespace, name], '/');
      assert s[|namespace|] == '/';
    }
    if Member(result, "repo_name") == Some(JStr(name)) {
      assert Split(name, '/') == [name];
    }
  }

  /** `searchImages(query)`: whether the page asks Docker Hub at all, and
      the results it shows given the response body (None when the request
      or its decoding fails). Anything that throws shows no results. */
  function Search(query: string, data: Option<Json>): (r: (bool, seq<Card>))
    ensures !r.0 <==> IsBlank(query)
    ensures IsBlank(query) ==> r.1 == []
    ensures forall k :: 0 <= k < |r.1| ==> r.1[k].category == "search-result"
  {
    if IsBlank(query) then (false, [])
    else if data.None? || data.value == JNull then (true, [])
    else match Member(data.value, "results")
      case Some(JArr(items)) =>
        (match MapAll(items, CardOf)
         case Some(cards) => (true, cards)
         case None => (true, []))
      case _ => (true, [])
  }

  // ---------------------------------------------------------------------------
  // What is on display, and pulling
  // ---------------------------------------------------------------------------

  /** `getDisplayImages()`: the search results for a non-blank query, else
      the featured images, filtered by category unless it is `all`. */
  function DisplayImages(query: string, results: seq<Card>, featured: seq<Card>, category: string): (r: seq<Card>)
    ensures category == "all" ==> r == (if IsBlank(query) then featured else results)
    ensures category != "all" ==> forall k :: 0 <= k < |r| ==> r[k].category == category
  {
    var images := if IsBlank(query) then featured else results;
    if category == "all" then images else Filter(images, InCategory(category))
  }

  /** `img => img.category === category`. */
  function InCategory(category: string): Card -> bool {
    (c: Card) => c.category == category
  }

  /** While a query is typed, only `all` and the search category show
      anything: every other category filter hides all search results. */
  lemma CategoryHidesSearch(query: string, q: string, featured: seq<Card>, category: string, data: Option<Json>)
    requires !IsBlank(query) && category != "all" && category != "search-result"
    ensures DisplayImages(query, Search(q, data).1, featured, category) == []
  {
    HiddenByCategory(query, Search(q, data).1, featured, category);
  }

  lemma HiddenByCategory(query: string, results: seq<Card>, featured: seq<Card>, category: string)
    requires !IsBlank(query) && category != "all" && category != "search-result"
    requires forall k :: 0 <= k < |results| ==> results[k].category == "search-result"
    ensures DisplayImages(query, results, featured, category) == []
  {
    FilterNone(results, InCategory(category));
  }

  /** `isImageLocal(image)`: its full name or its name is a local name. */
  predicate IsImageLocal(local: set<string>, c: Card) {
    (c.fullName.Some? && c.fullName.value.JStr? && c.fullName.value.s in local)
    || (c.name.Some? && c.name.value.JStr? && c.name.value.s in local)
  }

  /** The pull button acts only for an image neither local nor pulling. */
  predicate CanPull(local: set<string>, pulling: set<string>, c: Card) {
    !IsImageLocal(local, c) && !(c.fullName.Some? && c.fullName.value.JStr? && c.fullName.value.s in pulling)
  }

  /** The pull state: the images being pulled and their progress text. */
  datatype PullState = PullState(pulling: set<string>, progress: map<string, string>)

  /** `handlePullImage` starting: the image joins the pulling set with its
      progress shown, and the vector to run. */
  function StartPull(s: PullState, key: string): (r: (PullState, seq<string>))
    ensures r.0.pulling == s.pulling + {key}
    ensures key in r.0.progress && r.0.progress[key] == "Downloading layers..."
    ensures forall k :: k in s.progress && k != key ==> k in r.0.progress && r.0.progress[k] == s.progress[k]
    ensures r.1 == ["images", "pull", key]
  {
    (PullState(s.pulling + {key}, s.progress[key := "Downloading layers..."]), ["images", "pull", key])
  }

  /** An image that has started pulling cannot be pulled again. */
  lemma StartedCannotPull(s: PullState, local: set<string>, c: Card)
    requires c.fullName.Some? && c.fullName.value.JStr?
    ensures !CanPull(local, StartPull(s, c.fullName.value.s).0.pulling, c)
  {
  }

  /** The progress text when the pull ends. */
  function PullOutcome(inv: Invocation): (r: string)
    ensures inv.Completed? && inv.result.success ==> Contains(r, "completed")
    ensures !(inv.Completed? && inv.result.success) ==> StartsWith(r, "Error: ")
  {
    match inv
    case Completed(res) =>
      if res.success then
        assert OccursAt("Pull completed!", "completed", 5);
        "Pull completed!"
      else "Error: " + res.stderr
    case Rejected(e) => "Error: " + e
  }

  /** An ended pull's progress is never stale, so the clean-up keeps it until
      the page removes it itself. */
  lemma EndedPullNotStale(pulling: set<string>, key: string, inv: Invocation)
    ensures !Stale(pulling, key, PullOutcome(inv))
  {
    var p := PullOutcome(inv);
    if !(inv.Completed? && inv.result.success) {
      assert OccursAt(p, "Error", 0);
    }
  }

  /** The state after the pull ends, and after the delay that follows. */
  function FinishPull(s: PullState, key: string, inv: Invocation): (r: PullState)
    ensures r.pulling == s.pulling && key in r.progress && r.progress[key] == PullOutcome(inv)
  {
    s.(progress := s.progress[key := PullOutcome(inv)])
  }

  function ClearPull(s: PullState, key: string): (r: PullState)
    ensures r.pulling == s.pulling - {key} && key !in r.progress
    ensures forall k :: k in s.progress && k != key ==> k in r.progress && r.progress[k] == s.progress[k]
  {
    PullState(s.pulling - {key}, s.progress - {key})
  }
}
