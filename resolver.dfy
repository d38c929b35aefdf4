/**
 * Per-tab metadata resolution of the popup (src/popup/popup.js): a baseline
 * record from the tab's own fields, the in-page probe, the network fallback
 * for YouTube, and the settle-all aggregation over the selected tabs.
 */
module Resolver {
  import opened Wrappers
  import opened JsString
  import opened Seqs
  import opened Records

  /* ---------- Title normalisation: title.replace(/^\(\d+\)\s*\/, '') ---------- */

  /** The title starts with a parenthesised, non-empty run of digits. */
  ghost predicate HasCountPrefix(s: string) {
    exists j :: 1 < j < |s| && s[0] == '(' && AllDigits(s[1..j]) && s[j] == ')'
  }

  /** `p` is exactly "(" digits ")" followed by white space: what the pattern matches. */
  ghost predicate IsCountMarker(p: string) {
    exists j :: 1 < j < |p| && p[0] == '(' && AllDigits(p[1..j]) && p[j] == ')' && AllSpaces(p[j + 1..])
  }

  /** Length of the match of `^\(\d+\)\s*` at the start of `s`, or 0 when it does not match. */
  function CountMarkerLength(s: string): (n: nat)
    ensures n <= |s|
  {
    if |s| > 0 && s[0] == '(' then
      var d := DigitRun(s[1..]);
      if d > 0 && 1 + d < |s| && s[1 + d] == ')' then 2 + d + SpaceRun(s[2 + d..]) else 0
    else 0
  }

  lemma {:induction false} DigitRunUpTo(s: string, j: int)
    requires 1 < j < |s| && s[0] == '(' && AllDigits(s[1..j]) && s[j] == ')'
    ensures DigitRun(s[1..]) == j - 1
  {
    assert forall k :: 0 <= k < j - 1 ==> s[1..][k] == s[1..j][k];
    assert !IsDigit(s[1..][j - 1]);
  }

  /** The unread-count marker YouTube puts in front of a title ("(4) Title") is removed; other titles are kept. */
  function NormalizeTitle(s: string): (r: string)
    ensures |r| <= |s| && r == s[|s| - |r|..]
    ensures |r| < |s| <==> HasCountPrefix(s)
    ensures |r| < |s| ==> IsCountMarker(s[..|s| - |r|]) && (r == [] || !IsSpace(r[0]))
  {
    var n := CountMarkerLength(s);
    if n > 0 then
      var d := DigitRun(s[1..]);
      var w := SpaceRun(s[2 + d..]);
      assert s[1..][..d] == s[1..1 + d];
      assert s[..n][1..1 + d] == s[1..1 + d];
      assert s[..n][2 + d..] == s[2 + d..][..w];
      assert HasCountPrefix(s) by {
        assert 1 < 1 + d < |s| && s[0] == '(' && AllDigits(s[1..1 + d]) && s[1 + d] == ')';
      }
      assert IsCountMarker(s[..n]) by {
        var p := s[..n];
        assert 1 < 1 + d < |p| && p[0] == '(' && AllDigits(p[1..1 + d]) && p[1 + d] == ')' && AllSpaces(p[1 + d + 1..]);
      }
      assert s[n..] == [] || s[n..][0] == s[2 + d..][w];
      s[n..]
    else
      assert !HasCountPrefix(s) by {
        if j :| 1 < j < |s| && s[0] == '(' && AllDigits(s[1..j]) && s[j] == ')' {
          DigitRunUpTo(s, j);
        }
      }
      s
  }

  /* ---------- The baseline record built from the tab alone ---------- */

  /** Placeholder used for a tab without a title. */
  const Untitled: string := "제목 없음"

  /**
   * `pathname.split('/')[1]`, defined whenever the path holds a "/@": the
   * text after the first '/' up to the next '/' or the end of the path.
   */
  function PathSegment(p: string): (r: string)
    requires Includes(p, "/@")
    ensures '/' in p
    ensures '/' !in r
    ensures var t := p[FirstIndex(p, '/') + 1..];
      |r| <= |t| && t[..|r|] == r && (|r| == |t| || t[|r|] == '/')
  {
    var i := JsString.IndexOf(p, "/@").value;
    assert p[i..i + 2][0] == '/';
    SplitSecond(p, '/');
    SplitFirst(p[FirstIndex(p, '/') + 1..], '/');
    Split(p, '/')[1]
  }

  /** On a path that starts with "/@", the first segment is the "@handle". */
  lemma {:induction false} PathSegmentHandle(p: string)
    requires StartsWith(p, "/@")
    ensures Includes(p, "/@")
    ensures PathSegment(p) != [] && PathSegment(p)[0] == '@'
  {
    StartsWithIncludes(p, "/@");
    assert p[..2][0] == '/' && p[..2][1] == '@';
    assert FirstIndex(p, '/') == 0;
    var rest := p[1..];
    assert Split(p, '/') == [p[..0]] + Split(rest, '/');
    var r0 := Split(rest, '/')[0];
    assert rest[0] == '@';
    assert r0[0] == rest[..|r0|][0];
  }

  /** The `hostname` of the tab's URL names YouTube. */
  predicate IsYouTubeHost(u: UrlParts) {
    Includes(u.hostname, YouTube)
  }

  /**
   * The record kept when the page cannot be read: normalised title, the raw
   * hostname as domain, the favicon (or the video thumbnail) in full mode,
   * and the "@handle" path segment as channel on YouTube.
   */
  function Baseline(tab: Tab, u: UrlParts, mode: Mode): (m: Metadata)
    ensures m.url == tab.url && m.domain == u.hostname
    ensures m.tabId == Some(tab.id) && m.windowId == Some(tab.windowId)
    ensures tab.title != "" ==> m.title == NormalizeTitle(tab.title)
    ensures tab.title == "" ==> m.title == Untitled
    ensures m.thumbnail.None? <==> mode == Quick
    ensures mode == Full && !(IsYouTubeHost(u) && Truthy(u.v)) ==> m.thumbnail == Some(tab.favIconUrl)
    ensures mode == Full && IsYouTubeHost(u) && Truthy(u.v) ==> m.thumbnail == Some(VideoThumbnail(u.v.value))
    ensures m.channel.Some? <==> IsYouTubeHost(u) && Includes(u.pathname, "/@")
    ensures m.channel.Some? ==> '/' !in m.channel.value
    ensures m.channel.Some? ==> m.channel.value == PathSegment(u.pathname)
  {
    var title := NormalizeTitle(if tab.title == "" then Untitled else tab.title);
    var yt := IsYouTubeHost(u);
    var thumbnail :=
      if mode == Quick then None
      else if yt && Truthy(u.v) then Some(VideoThumbnail(u.v.value))
      else Some(tab.favIconUrl);
    var channel := if yt && Includes(u.pathname, "/@") then Some(PathSegment(u.pathname)) else None;
    assert NormalizeTitle(Untitled) == Untitled by {
      assert Untitled[0] != '(';
    }
    Metadata(title, tab.url, u.hostname, thumbnail, channel, Some(tab.id), Some(tab.windowId))
  }

  /** Pages into which no script can be injected. */
  predicate IsRestricted(url: string) {
    StartsWith(url, "chrome://") || StartsWith(url, "edge://")
    || StartsWith(url, "chrome-extension://") || StartsWith(url, "about:")
  }

  /* ---------- The in-page probe (extractMetadata, run inside the tab) ---------- */

  /**
   * What the injected function reads from the page: `location.hostname`,
   * `location.href`, `document.title`, the `v` search parameter, the first
   * image of the og:image / twitter:image / apple-touch-icon / icon chain
   * (`""` when there is none), and the answer of the YouTube channel
   * heuristics (`None` when they find nothing).
   */
  datatype Page = Page(
    hostname: string,
    href: string,
    title: string,
    v: Option<string>,
    imageMeta: string,
    channelName: Option<string>)

  /** The record the probe returns from inside the page. */
  function ExtractMetadata(page: Page, mode: Mode): (m: Metadata)
    ensures m.url == page.href && m.title == page.title
    ensures m.domain == ReplaceFirst(page.hostname, "www.", "")
    ensures !Includes(page.hostname, "www.") ==> m.domain == page.hostname
    ensures m.thumbnail.None? <==> mode == Quick
    ensures mode == Full && Includes(page.hostname, YouTube) && Truthy(page.v) ==>
      m.thumbnail == Some(VideoThumbnail(page.v.value))
    ensures mode == Full && !(Includes(page.hostname, YouTube) && Truthy(page.v)) ==>
      m.thumbnail == Some(page.imageMeta)
    ensures !Includes(page.hostname, YouTube) ==> m.channel.None?
    ensures m.channel.Some? ==> m.channel == page.channelName
    ensures m.tabId.None? && m.windowId.None?
  {
    var thumbnail :=
      if mode == Quick then None
      else if Includes(page.hostname, YouTube) && Truthy(page.v) then Some(VideoThumbnail(page.v.value))
      else Some(page.imageMeta);
    var channel := if Includes(page.hostname, YouTube) then page.channelName else None;
    Metadata(page.title, page.href, ReplaceFirst(page.hostname, "www.", ""), thumbnail, channel, None, None)
  }

  /** Outcome of `executeScript`: the probe's record, no usable result, or a thrown error. */
  datatype Probe = Ran(page: Page) | NoResult | Threw

  /* ---------- Network fallback: fetchYouTubeMetadata ---------- */

  /** What `JSON.parse` made of the `ytInitialData` block: the two channel fields read, or a parse error. */
  datatype InitialData = Malformed | Parsed(channelTitle: Option<string>, ownerRun: Option<string>)

  /**
   * Outcome of fetching the page: a failed request, or the first author
   * match of the three patterns and the `ytInitialData` block, if found.
   */
  datatype HttpOutcome = NetworkError | Fetched(author: Option<string>, initialData: Option<InitialData>)

  /** The channel the fallback reports (`null` is `None`). */
  function FetchYouTubeMetadata(h: HttpOutcome): (channel: Option<string>)
    ensures h.NetworkError? ==> channel.None?
    ensures h.Fetched? && Truthy(h.author) ==> channel == h.author
    ensures h.Fetched? && !Truthy(h.author) && (h.initialData.None? || h.initialData == Some(Malformed)) ==>
      channel == h.author
    ensures channel.Some? ==>
      h.Fetched? && (channel == h.author
        || (h.initialData.Some? && h.initialData.value.Parsed?
            && (channel == h.initialData.value.channelTitle || channel == h.initialData.value.ownerRun)))
  {
    match h
    case NetworkError => None
    case Fetched(author, initialData) =>
      if Truthy(author) then author
      else
        match initialData
        case None => author
        case Some(Malformed) => author
        case Some(Parsed(title, owner)) => if Truthy(title) then title else owner
  }

  /* ---------- The per-tab chain ---------- */

  /** What the host tells about one tab: the probe's outcome and the fallback fetch's outcome. */
  datatype TabEnv = TabEnv(probe: Probe, http: HttpOutcome)

  /** A settled per-tab promise. */
  datatype Settled = Fulfilled(value: Metadata) | Rejected

  /**
   * Resolve one tab: reject when its URL does not parse; keep the baseline
   * for restricted pages; otherwise take the probe's record wholesale, or
   * on a thrown probe for a YouTube URL take the fetched channel over the
   * baseline when it is non-empty.
   */
  function ResolveTab(tab: Tab, mode: Mode, parse: UrlParser, env: TabEnv): (r: Settled)
    ensures r.Rejected? <==> parse(tab.url).None?
    ensures r.Fulfilled? ==> r.value.tabId == Some(tab.id) && r.value.windowId == Some(tab.windowId)
    ensures r.Fulfilled? && IsRestricted(tab.url) ==> r.value == Baseline(tab, parse(tab.url).value, mode)
    ensures r.Fulfilled? && !IsRestricted(tab.url) && env.probe.Ran? ==>
      var page := ExtractMetadata(env.probe.page, mode);
      r.value == page.(tabId := Some(tab.id), windowId := Some(tab.windowId))
    ensures r.Fulfilled? && !IsRestricted(tab.url) && env.probe.NoResult? ==>
      r.value == Baseline(tab, parse(tab.url).value, mode)
    ensures r.Fulfilled? && !IsRestricted(tab.url) && env.probe.Threw? ==>
      var base := Baseline(tab, parse(tab.url).value, mode);
      var fetched := FetchYouTubeMetadata(env.http);
      r.value == if Includes(tab.url, YouTube) && Truthy(fetched) then base.(channel := fetched) else base
  {
    match parse(tab.url)
    case None => Rejected
    case Some(u) =>
      var base := Baseline(tab, u, mode);
      if IsRestricted(tab.url) then Fulfilled(base)
      else
        match env.probe
        case Ran(page) =>
          Fulfilled(ExtractMetadata(page, mode).(tabId := Some(tab.id), windowId := Some(tab.windowId)))
        case NoResult => Fulfilled(base)
        case Threw =>
          var fetched := FetchYouTubeMetadata(env.http);
          if Includes(tab.url, YouTube) && Truthy(fetched) then Fulfilled(base.(channel := fetched))
          else Fulfilled(base)
  }

  /** A restricted page is never probed: the outcome does not depend on the probe or the fetch. */
  lemma {:induction false} RestrictedIgnoresPage(tab: Tab, mode: Mode, parse: UrlParser, e1: TabEnv, e2: TabEnv)
    requires IsRestricted(tab.url)
    ensures ResolveTab(tab, mode, parse, e1) == ResolveTab(tab, mode, parse, e2)
  {
  }

  /** The network is consulted only when the probe threw on a YouTube URL. */
  lemma {:induction false} FetchOnlyAfterThrow(tab: Tab, mode: Mode, parse: UrlParser, p: Probe, h1: HttpOutcome, h2: HttpOutcome)
    requires !p.Threw? || !Includes(tab.url, YouTube)
    ensures ResolveTab(tab, mode, parse, TabEnv(p, h1)) == ResolveTab(tab, mode, parse, TabEnv(p, h2))
  {
  }

  /** The fallback never erases anything: it only replaces the channel, and only by a non-empty name. */
  lemma {:induction false} FallbackOnlySetsChannel(tab: Tab, mode: Mode, parse: UrlParser, env: TabEnv)
    requires parse(tab.url).Some? && !IsRestricted(tab.url) && env.probe.Threw?
    ensures ResolveTab(tab, mode, parse, env).value.(channel := None)
         == Baseline(tab, parse(tab.url).value, mode).(channel := None)
    ensures ResolveTab(tab, mode, parse, env).value.channel != Baseline(tab, parse(tab.url).value, mode).channel ==>
      Truthy(ResolveTab(tab, mode, parse, env).value.channel)
  {
  }

  /* ---------- All selected tabs ---------- */

  /** Resolve every tab with its own environment (`targetTabs.map(...)`). */
  function Settle(tabs: seq<Tab>, envs: seq<TabEnv>, mode: Mode, parse: UrlParser): (r: seq<Settled>)
    requires |envs| == |tabs|
    ensures |r| == |tabs|
    ensures forall i :: 0 <= i < |tabs| ==> r[i] == ResolveTab(tabs[i], mode, parse, envs[i])
  {
    if tabs == [] then []
    else [ResolveTab(tabs[0], mode, parse, envs[0])] + Settle(tabs[1..], envs[1..], mode, parse)
  }

  /** Keep the values of the fulfilled outcomes, in order (`filter(fulfilled).map(value)`). */
  function Aggregate(outcomes: seq<Settled>): (r: seq<Metadata>)
    ensures |r| <= |outcomes|
    ensures forall m :: m in r <==> Fulfilled(m) in outcomes
  {
    if outcomes == [] then []
    else
      var rest := Aggregate(outcomes[1..]);
      assert outcomes == [outcomes[0]] + outcomes[1..];
      match outcomes[0]
      case Fulfilled(m) => [m] + rest
      case Rejected => rest
  }

  /** Aggregation keeps the order of the outcomes. */
  lemma {:induction false} AggregateAppend(a: seq<Settled>, b: seq<Settled>)
    ensures Aggregate(a + b) == Aggregate(a) + Aggregate(b)
  {
    if a == [] {
      assert a + b == b;
    } else {
      assert (a + b)[1..] == a[1..] + b;
      AggregateAppend(a[1..], b);
    }
  }

  /** Number of tabs whose URL parses. */
  function CountParsable(tabs: seq<Tab>, parse: UrlParser): (n: nat)
    ensures n <= |tabs|
  {
    if tabs == [] then 0
    else (if parse(tabs[0].url).Some? then 1 else 0) + CountParsable(tabs[1..], parse)
  }

  /** `performExtraction`: `None` when no tab is targeted, else the settled records. */
  function PerformExtraction(tabs: seq<Tab>, envs: seq<TabEnv>, mode: Mode, parse: UrlParser): (r: Option<seq<Metadata>>)
    requires |envs| == |tabs|
    ensures r.None? <==> tabs == []
    ensures r.Some? ==> |r.value| <= |tabs|
  {
    if tabs == [] then None else Some(Aggregate(Settle(tabs, envs, mode, parse)))
  }

  /** One record per tab whose URL parses, and no other. */
  lemma {:induction false} ExtractionCount(tabs: seq<Tab>, envs: seq<TabEnv>, mode: Mode, parse: UrlParser)
    requires |envs| == |tabs|
    ensures |Aggregate(Settle(tabs, envs, mode, parse))| == CountParsable(tabs, parse)
  {
    if tabs != [] {
      var s := Settle(tabs, envs, mode, parse);
      assert s[1..] == Settle(tabs[1..], envs[1..], mode, parse);
      ExtractionCount(tabs[1..], envs[1..], mode, parse);
    }
  }

  /**
   * Every tab whose URL parses contributes its resolved record, and every
   * record carries the id and window of a targeted tab whose URL parses.
   */
  lemma {:induction false} ExtractionComplete(tabs: seq<Tab>, envs: seq<TabEnv>, mode: Mode, parse: UrlParser)
    requires |envs| == |tabs| && tabs != []
    ensures var r := PerformExtraction(tabs, envs, mode, parse);
      r.Some? && |r.value| == CountParsable(tabs, parse)
      && (forall i :: 0 <= i < |tabs| && parse(tabs[i].url).Some? ==>
            ResolveTab(tabs[i], mode, parse, envs[i]).value in r.value)
      && (forall m :: m in r.value ==>
            exists i :: 0 <= i < |tabs| && parse(tabs[i].url).Some?
              && m.tabId == Some(tabs[i].id) && m.windowId == Some(tabs[i].windowId))
  {
    ExtractionCount(tabs, envs, mode, parse);
    var s := Settle(tabs, envs, mode, parse);
    forall i | 0 <= i < |tabs| && parse(tabs[i].url).Some?
      ensures ResolveTab(tabs[i], mode, parse, envs[i]).value in Aggregate(s)
    {
      assert s[i] == Fulfilled(ResolveTab(tabs[i], mode, parse, envs[i]).value);
    }
    forall m | m in Aggregate(s)
      ensures exists i :: 0 <= i < |tabs| && parse(tabs[i].url).Some?
                          && m.tabId == Some(tabs[i].id) && m.windowId == Some(tabs[i].windowId)
    {
      var i :| 0 <= i < |s| && s[i] == Fulfilled(m);
      assert ResolveTab(tabs[i], mode, parse, envs[i]) == Fulfilled(m);
    }
  }

  /* ---------- Which tabs are targeted: getTargetTabs ---------- */

  /** The checked scope radio: `'current'`, or a selection from the tab list. */
  datatype Scope = Current | Selected

  /**
   * The active tab of the current window for the `current` scope; otherwise
   * the host's tabs whose id is among the parsed checkbox values, in the
   * host's order (`NaN` matches nothing).
   */
  function TargetTabs(scope: Scope, active: Option<Tab>, checkedIds: seq<ParsedInt>, allTabs: seq<Tab>): (r: seq<Tab>)
    ensures scope == Current ==> |r| <= 1 && (r == [] <==> active.None?) && (active.Some? ==> r == [active.value])
    ensures scope == Selected ==> forall t :: t in r <==> t in allTabs && Num(t.id) in checkedIds
  {
    if scope == Current then
      (if active.Some? then [active.value] else [])
    else
      Filter(allTabs, (t: Tab) => Num(t.id) in checkedIds)
  }

  /** The selection keeps the host's order: it distributes over concatenation of the tab list. */
  lemma {:induction false} TargetTabsAppend(active: Option<Tab>, checkedIds: seq<ParsedInt>, a: seq<Tab>, b: seq<Tab>)
    ensures TargetTabs(Selected, active, checkedIds, a + b)
         == TargetTabs(Selected, active, checkedIds, a) + TargetTabs(Selected, active, checkedIds, b)
  {
    FilterAppend(a, b, (t: Tab) => Num(t.id) in checkedIds);
  }

  /** The selection keeps each checked tab as often as the host lists it, and no other tab. */
  lemma {:induction false} TargetTabsCounts(active: Option<Tab>, checkedIds: seq<ParsedInt>, allTabs: seq<Tab>, t: Tab)
    ensures multiset(TargetTabs(Selected, active, checkedIds, allTabs))[t]
         == if Num(t.id) in checkedIds then multiset(allTabs)[t] else 0
  {
    FilterMultiset(allTabs, (t: Tab) => Num(t.id) in checkedIds, t);
  }
}
