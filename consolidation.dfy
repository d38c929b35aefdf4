/**
 * The planning half of `handleSortTabs` (src/list/list.js): enriching live
 * tabs with a channel (and writing it back into the stored records),
 * grouping the sorted tabs by domain, and relabelling the stored records
 * with the window their tab was moved to.
 */
module Consolidation {
  import opened Wrappers
  import opened JsString
  import opened Seqs
  import opened Sorting
  import opened Records
  import opened SortKeys

  /* ---------- Channel precedence and write-back ---------- */

  /** The live probe's answers by tab id (`ytChannelData`): only YouTube tabs, only non-empty answers. */
  function LiveChannels(tabs: seq<Tab>, probe: int -> Option<string>): (m: map<int, string>)
    ensures forall id :: id in m ==> m[id] != "" && Some(m[id]) == probe(id)
    ensures forall k :: 0 <= k < |tabs| && Includes(tabs[k].url, YouTube) && Truthy(probe(tabs[k].id)) ==> tabs[k].id in m
    ensures forall id :: id in m ==> exists k :: 0 <= k < |tabs| && tabs[k].id == id && Includes(tabs[k].url, YouTube)
  {
    if tabs == [] then map[]
    else
      var t := tabs[|tabs| - 1];
      var m := LiveChannels(tabs[..|tabs| - 1], probe);
      if Includes(t.url, YouTube) && Truthy(probe(t.id)) then m[t.id := probe(t.id).value] else m
  }

  /** `live || saved || fallback || ''`: the first non-empty of the three. */
  function FinalChannel(live: Option<string>, saved: Option<string>, fallback: string): (r: string)
    ensures Truthy(live) ==> r == live.value
    ensures !Truthy(live) && Truthy(saved) ==> r == saved.value
    ensures !Truthy(live) && !Truthy(saved) ==> r == fallback
    ensures r == "" <==> !Truthy(live) && !Truthy(saved) && fallback == ""
  {
    if Truthy(live) then live.value else if Truthy(saved) then saved.value else fallback
  }

  /** Index of the first record for tab `id` (`savedLinks.find(l => l.tabId === id)`). */
  function FindByTab(links: seq<SavedLink>, id: int): (r: Option<nat>)
    ensures r.Some? ==> r.value < |links| && links[r.value].meta.tabId == Some(id)
    ensures r.Some? ==> forall k :: 0 <= k < r.value ==> links[k].meta.tabId != Some(id)
    ensures r.None? ==> forall k :: 0 <= k < |links| ==> links[k].meta.tabId != Some(id)
  {
    if links == [] then None
    else if links[0].meta.tabId == Some(id) then Some(0)
    else
      var r := FindByTab(links[1..], id);
      if r.Some? then Some(r.value + 1) else None
  }

  /** Index of the first record for the tab, by id or by URL. */
  function FindByTabOrUrl(links: seq<SavedLink>, tab: Tab): (r: Option<nat>)
    ensures r.Some? ==>
      r.value < |links| && (links[r.value].meta.tabId == Some(tab.id) || links[r.value].meta.url == tab.url)
    ensures r.Some? ==> forall k :: 0 <= k < r.value ==>
      links[k].meta.tabId != Some(tab.id) && links[k].meta.url != tab.url
    ensures r.None? ==> forall k :: 0 <= k < |links| ==>
      links[k].meta.tabId != Some(tab.id) && links[k].meta.url != tab.url
  {
    if links == [] then None
    else if links[0].meta.tabId == Some(tab.id) || links[0].meta.url == tab.url then Some(0)
    else
      var r := FindByTabOrUrl(links[1..], tab);
      if r.Some? then Some(r.value + 1) else None
  }

  /** The record with its channel replaced. */
  function WithChannel(l: SavedLink, channel: string): SavedLink {
    l.(meta := l.meta.(channel := Some(channel)))
  }

  /** Two record lists that differ at most in their channels. */
  ghost predicate SameButChannels(a: seq<SavedLink>, b: seq<SavedLink>) {
    |a| == |b| && forall k :: 0 <= k < |a| ==> b[k] == a[k].(meta := a[k].meta.(channel := b[k].meta.channel))
  }

  /** What `new URL(tab.url || 'about:blank')` is given. */
  function Href(tab: Tab): (r: string)
    ensures tab.url != "" ==> r == tab.url
    ensures r != ""
  {
    if tab.url == "" then "about:blank" else tab.url
  }

  /** The tab's URL makes the URL constructor throw. */
  predicate Unparsable(tab: Tab, parse: UrlParser) {
    parse(Href(tab)).None?
  }

  /** The item sorting sees for one tab, or `None` when `new URL(tab.url || 'about:blank')` throws. */
  datatype Step = Step(item: SortItem, links: seq<SavedLink>)

  /**
   * One tab of `allTabs.map(...)`: the channel by precedence (live probe,
   * then the tab's stored record, then the URL heuristic), written back
   * into the first record of the tab or its URL when non-empty.
   */
  function EnrichTab(links: seq<SavedLink>, tab: Tab, live: map<int, string>, parse: UrlParser): (r: Option<Step>)
    ensures r.None? <==> Unparsable(tab, parse)
    ensures r.Some? ==>
      var item := r.value.item;
      var saved := FindByTab(links, tab.id);
      && item.tabId == tab.id && item.url == tab.url && item.title == tab.title && item.windowId == tab.windowId
      && item.domain == ReplaceFirst(parse(Href(tab)).value.hostname, "www.", "")
      && item.channel == FinalChannel(if tab.id in live then Some(live[tab.id]) else None,
                                      if saved.Some? then links[saved.value].meta.channel else None,
                                      ExtractYouTubeChannel(tab.url, parse))
    ensures r.Some? ==> SameButChannels(links, r.value.links)
    ensures r.Some? ==> forall k :: 0 <= k < |links| && r.value.links[k] != links[k] ==>
      Some(k) == FindByTabOrUrl(links, tab) && r.value.links[k].meta.channel == Some(r.value.item.channel)
      && r.value.item.channel != ""
    ensures r.Some? && FindByTabOrUrl(links, tab).Some? && r.value.item.channel != "" ==>
      var k := FindByTabOrUrl(links, tab).value;
      r.value.links[k] == WithChannel(links[k], r.value.item.channel)
  {
    var saved := FindByTab(links, tab.id);
    match parse(Href(tab))
    case None => None
    case Some(u) =>
      var channel := FinalChannel(if tab.id in live then Some(live[tab.id]) else None,
                                  if saved.Some? then links[saved.value].meta.channel else None,
                                  ExtractYouTubeChannel(tab.url, parse));
      var target := FindByTabOrUrl(links, tab);
      var links' := if target.Some? && channel != "" then links[target.value := WithChannel(links[target.value], channel)] else links;
      Some(Step(SortItem(tab.id, tab.url, ReplaceFirst(u.hostname, "www.", ""), channel, tab.title, tab.windowId), links'))
  }

  /** What mapping over the tabs produced: the items and the updated records, or an abort with the records as updated so far. */
  datatype Enriched = Built(items: seq<SortItem>, links: seq<SavedLink>) | Aborted(links: seq<SavedLink>)

  /** `allTabs.map(...)` with its write-backs, tab by tab. */
  function Enrich(links: seq<SavedLink>, tabs: seq<Tab>, live: map<int, string>, parse: UrlParser): (r: Enriched)
    ensures r.Built? ==> |r.items| == |tabs|
  {
    if tabs == [] then Built([], links)
    else
      match Enrich(links, tabs[..|tabs| - 1], live, parse)
      case Aborted(l) => Aborted(l)
      case Built(items, l) =>
        match EnrichTab(l, tabs[|tabs| - 1], live, parse)
        case None => Aborted(l)
        case Some(step) => Built(items + [step.item], step.links)
  }

  lemma {:induction false} SameButChannelsTrans(a: seq<SavedLink>, b: seq<SavedLink>, c: seq<SavedLink>)
    requires SameButChannels(a, b) && SameButChannels(b, c)
    ensures SameButChannels(a, c)
  {
  }

  /** Enrichment only ever changes the channels of the stored records, whether it completes or aborts. */
  lemma {:induction false} EnrichOnlyChannels(links: seq<SavedLink>, tabs: seq<Tab>, live: map<int, string>, parse: UrlParser)
    ensures SameButChannels(links, Enrich(links, tabs, live, parse).links)
    decreases |tabs|
  {
    if tabs != [] {
      var init := tabs[..|tabs| - 1];
      EnrichOnlyChannels(links, init, live, parse);
      var prev := Enrich(links, init, live, parse);
      if prev.Built? {
        var step := EnrichTab(prev.links, tabs[|tabs| - 1], live, parse);
        if step.Some? {
          SameButChannelsTrans(links, prev.links, step.value.links);
        }
      }
    }
  }

  /** The item carries the tab's own id, URL, title and window. */
  predicate FromTab(item: SortItem, tab: Tab) {
    item.tabId == tab.id && item.url == tab.url && item.title == tab.title && item.windowId == tab.windowId
  }

  /** A completed enrichment of several tabs completed on all but the last and then on the last. */
  lemma {:induction false} EnrichBuiltStep(links: seq<SavedLink>, tabs: seq<Tab>, live: map<int, string>, parse: UrlParser)
    requires tabs != [] && Enrich(links, tabs, live, parse).Built?
    ensures var prev := Enrich(links, tabs[..|tabs| - 1], live, parse);
      && prev.Built?
      && var step := EnrichTab(prev.links, tabs[|tabs| - 1], live, parse);
      && step.Some?
      && Enrich(links, tabs, live, parse).items == prev.items + [step.value.item]
  {
  }

  lemma {:induction false} FromTabSnoc(items: seq<SortItem>, tabs: seq<Tab>, item: SortItem)
    requires tabs != [] && |items| == |tabs| - 1
    requires forall k :: 0 <= k < |items| ==> FromTab(items[k], tabs[..|tabs| - 1][k])
    requires FromTab(item, tabs[|tabs| - 1])
    ensures forall k :: 0 <= k < |tabs| ==> FromTab((items + [item])[k], tabs[k])
  {
    forall k | 0 <= k < |tabs|
      ensures FromTab((items + [item])[k], tabs[k])
    {
      if k < |items| {
        assert (items + [item])[k] == items[k] && tabs[..|tabs| - 1][k] == tabs[k];
      }
    }
  }

  /** A completed enrichment has one item per tab, in tab order, carrying the tab's own fields. */
  lemma {:induction false} EnrichItemsFollowTabs(links: seq<SavedLink>, tabs: seq<Tab>, live: map<int, string>, parse: UrlParser)
    requires Enrich(links, tabs, live, parse).Built?
    ensures forall k :: 0 <= k < |tabs| ==> FromTab(Enrich(links, tabs, live, parse).items[k], tabs[k])
    decreases |tabs|
  {
    if tabs != [] {
      var init := tabs[..|tabs| - 1];
      var prev := Enrich(links, init, live, parse);
      var step := EnrichTab(prev.links, tabs[|tabs| - 1], live, parse);
      EnrichBuiltStep(links, tabs, live, parse);
      EnrichItemsFollowTabs(links, init, live, parse);
      FromTabSnoc(prev.items, tabs, step.value.item);
    }
  }

  /** One more tab: the map throws when it had thrown before or this tab's URL does not parse. */
  lemma {:induction false} EnrichSnocAborts(links: seq<SavedLink>, tabs: seq<Tab>, live: map<int, string>, parse: UrlParser)
    requires tabs != []
    ensures Enrich(links, tabs, live, parse).Aborted? <==>
      Enrich(links, tabs[..|tabs| - 1], live, parse).Aborted? || Unparsable(tabs[|tabs| - 1], parse)
  {
  }

  /** Some tab's URL does not parse, looked for from the last tab back. */
  predicate SomeUnparsable(tabs: seq<Tab>, parse: UrlParser)
    decreases |tabs|
  {
    tabs != [] && (Unparsable(tabs[|tabs| - 1], parse) || SomeUnparsable(tabs[..|tabs| - 1], parse))
  }

  lemma {:induction false} EnrichAbortsOnUnparsable(links: seq<SavedLink>, tabs: seq<Tab>, live: map<int, string>, parse: UrlParser)
    ensures Enrich(links, tabs, live, parse).Aborted? <==> SomeUnparsable(tabs, parse)
    decreases |tabs|
  {
    if tabs != [] {
      EnrichSnocAborts(links, tabs, live, parse);
      EnrichAbortsOnUnparsable(links, tabs[..|tabs| - 1], live, parse);
    }
  }

  lemma {:induction false} SomeUnparsableExists(tabs: seq<Tab>, parse: UrlParser)
    ensures SomeUnparsable(tabs, parse) <==> exists k :: 0 <= k < |tabs| && Unparsable(tabs[k], parse)
    decreases |tabs|
  {
    if tabs != [] {
      var init := tabs[..|tabs| - 1];
      SomeUnparsableExists(init, parse);
      forall k | 0 <= k < |tabs| && Unparsable(tabs[k], parse)
        ensures SomeUnparsable(tabs, parse)
      {
        if k < |init| {
          assert init[k] == tabs[k];
        }
      }
      if SomeUnparsable(tabs, parse) && !Unparsable(tabs[|tabs| - 1], parse) {
        var k :| 0 <= k < |init| && Unparsable(init[k], parse);
        assert tabs[k] == init[k];
      }
    }
  }

  /** Enrichment aborts exactly when some tab's URL (or "about:blank" for none) does not parse. */
  lemma {:induction false} EnrichAbortsOnBadUrl(links: seq<SavedLink>, tabs: seq<Tab>, live: map<int, string>, parse: UrlParser)
    ensures Enrich(links, tabs, live, parse).Aborted? <==>
      exists k :: 0 <= k < |tabs| && Unparsable(tabs[k], parse)
  {
    EnrichAbortsOnUnparsable(links, tabs, live, parse);
    SomeUnparsableExists(tabs, parse);
  }

  /** One more tab after a completed prefix: the step the `map` callback takes for it. */
  lemma {:induction false} EnrichNext(links: seq<SavedLink>, tabs: seq<Tab>, i: nat, live: map<int, string>, parse: UrlParser)
    requires i < |tabs| && Enrich(links, tabs[..i], live, parse).Built?
    ensures var prev := Enrich(links, tabs[..i], live, parse);
      var step := EnrichTab(prev.links, tabs[i], live, parse);
      Enrich(links, tabs[..i + 1], live, parse)
        == if step.None? then Aborted(prev.links) else Built(prev.items + [step.value.item], step.value.links)
  {
    var t := tabs[..i + 1];
    assert t[..|t| - 1] == tabs[..i] && t[|t| - 1] == tabs[i];
  }

  /** Once a prefix aborts, the whole enrichment aborts with the records of that moment (the `map` is left by the throw). */
  lemma {:induction false} EnrichAbortPersists(links: seq<SavedLink>, tabs: seq<Tab>, i: nat, live: map<int, string>, parse: UrlParser)
    requires i <= |tabs| && Enrich(links, tabs[..i], live, parse).Aborted?
    ensures Enrich(links, tabs, live, parse) == Enrich(links, tabs[..i], live, parse)
    decreases |tabs| - i
  {
    if i == |tabs| {
      assert tabs[..i] == tabs;
    } else {
      var t := tabs[..i + 1];
      assert t[..|t| - 1] == tabs[..i];
      assert Enrich(links, t, live, parse) == Enrich(links, tabs[..i], live, parse);
      EnrichAbortPersists(links, tabs, i + 1, live, parse);
    }
  }

  /** Records that differ only in their channels are matched by the same tab at the same index. */
  lemma {:induction false} FindByTabOrUrlSame(a: seq<SavedLink>, b: seq<SavedLink>, tab: Tab)
    requires SameButChannels(a, b)
    ensures FindByTabOrUrl(a, tab) == FindByTabOrUrl(b, tab)
    decreases |a|
  {
    if a != [] {
      assert b[0].meta.tabId == a[0].meta.tabId && b[0].meta.url == a[0].meta.url;
      FindByTabOrUrlSame(a[1..], b[1..], tab);
    }
  }

  /** Tab `tab`, whose item is `item`, writes its channel into record `j`. */
  predicate WritesTo(links: seq<SavedLink>, tab: Tab, item: SortItem, j: nat) {
    FindByTabOrUrl(links, tab) == Some(j) && item.channel != ""
  }

  /** The completed enrichment of one more tab: the earlier tabs' result, then that tab's step. */
  lemma {:induction false} EnrichSnoc(links: seq<SavedLink>, tabs: seq<Tab>, live: map<int, string>, parse: UrlParser)
    requires tabs != [] && Enrich(links, tabs, live, parse).Built?
    ensures var prev := Enrich(links, tabs[..|tabs| - 1], live, parse);
      && prev.Built?
      && var step := EnrichTab(prev.links, tabs[|tabs| - 1], live, parse);
      && step.Some?
      && Enrich(links, tabs, live, parse).links == step.value.links
      && |prev.items| == |tabs| - 1
      && (forall i :: 0 <= i < |tabs| - 1 ==> Enrich(links, tabs, live, parse).items[i] == prev.items[i])
      && Enrich(links, tabs, live, parse).items[|tabs| - 1] == step.value.item
  {
  }

  /** One tab's step, seen from the original records: it writes record `j` exactly when it `WritesTo` it. */
  lemma {:induction false} StepWrite(links: seq<SavedLink>, l: seq<SavedLink>, tab: Tab, live: map<int, string>, parse: UrlParser, j: nat)
    requires SameButChannels(links, l) && EnrichTab(l, tab, live, parse).Some? && j < |links|
    ensures var step := EnrichTab(l, tab, live, parse).value;
      && |step.links| == |links|
      && (WritesTo(links, tab, step.item, j) ==> step.links[j] == WithChannel(links[j], step.item.channel))
      && (!WritesTo(links, tab, step.item, j) ==> step.links[j] == l[j])
  {
    FindByTabOrUrlSame(links, l, tab);
  }

  /**
   * The write-back over all tabs: record `j` ends with the channel of the
   * last tab that writes into it (later writes overwrite earlier ones).
   */
  lemma {:induction false} EnrichLastWrite(links: seq<SavedLink>, tabs: seq<Tab>, live: map<int, string>, parse: UrlParser, i: nat, j: nat)
    requires Enrich(links, tabs, live, parse).Built? && i < |tabs|
    requires var items := Enrich(links, tabs, live, parse).items;
      && WritesTo(links, tabs[i], items[i], j)
      && forall i' :: i < i' < |tabs| ==> !WritesTo(links, tabs[i'], items[i'], j)
    ensures j < |links| == |Enrich(links, tabs, live, parse).links|
    ensures var r := Enrich(links, tabs, live, parse);
      r.links[j] == WithChannel(links[j], r.items[i].channel)
    decreases |tabs|
  {
    var init := tabs[..|tabs| - 1];
    EnrichSnoc(links, tabs, live, parse);
    var prev := Enrich(links, init, live, parse);
    EnrichOnlyChannels(links, init, live, parse);
    StepWrite(links, prev.links, tabs[|tabs| - 1], live, parse, j);
    if i < |tabs| - 1 {
      forall i' | i < i' < |init|
        ensures !WritesTo(links, init[i'], prev.items[i'], j)
      {
        assert tabs[i'] == init[i'];
      }
      assert tabs[i] == init[i];
      EnrichLastWrite(links, init, live, parse, i, j);
    }
  }

  /** A record no tab writes into leaves the enrichment unchanged. */
  lemma {:induction false} EnrichUnwritten(links: seq<SavedLink>, tabs: seq<Tab>, live: map<int, string>, parse: UrlParser, j: nat)
    requires Enrich(links, tabs, live, parse).Built? && j < |links|
    requires var items := Enrich(links, tabs, live, parse).items;
      forall i :: 0 <= i < |tabs| ==> !WritesTo(links, tabs[i], items[i], j)
    ensures |Enrich(links, tabs, live, parse).links| == |links|
    ensures Enrich(links, tabs, live, parse).links[j] == links[j]
    decreases |tabs|
  {
    EnrichOnlyChannels(links, tabs, live, parse);
    if tabs != [] {
      var init := tabs[..|tabs| - 1];
      EnrichSnoc(links, tabs, live, parse);
      var prev := Enrich(links, init, live, parse);
      EnrichOnlyChannels(links, init, live, parse);
      StepWrite(links, prev.links, tabs[|tabs| - 1], live, parse, j);
      forall i | 0 <= i < |init|
        ensures !WritesTo(links, init[i], prev.items[i], j)
      {
        assert tabs[i] == init[i];
      }
      EnrichUnwritten(links, init, live, parse, j);
    }
  }

  /* ---------- Grouping by domain ---------- */

  /** The domains of the items, in order. */
  function Domains(items: seq<SortItem>): (r: seq<string>)
    ensures |r| == |items| && forall k :: 0 <= k < |r| ==> r[k] == items[k].domain
  {
    if items == [] then [] else Domains(items[..|items| - 1]) + [items[|items| - 1].domain]
  }

  /** The distinct values of `s`, in order of first occurrence. */
  function FirstOccurrences(s: seq<string>): (r: seq<string>)
    ensures forall x :: x in r <==> x in s
  {
    if s == [] then []
    else
      var r := FirstOccurrences(s[..|s| - 1]);
      assert forall x :: x in s <==> x in s[..|s| - 1] || x == s[|s| - 1];
      if s[|s| - 1] in r then r else r + [s[|s| - 1]]
  }

  /** Each domain is visited once. */
  lemma {:induction false} FirstOccurrencesDistinct(s: seq<string>)
    ensures NoDuplicates(FirstOccurrences(s))
    decreases |s|
  {
    if s != [] {
      FirstOccurrencesDistinct(s[..|s| - 1]);
    }
  }

  /** The tab ids of the items in domain `d`, in item order. */
  function IdsIn(items: seq<SortItem>, d: string): (r: seq<int>)
    ensures |r| <= |items|
  {
    if items == [] then []
    else
      var r := IdsIn(items[..|items| - 1], d);
      if items[|items| - 1].domain == d then r + [items[|items| - 1].tabId] else r
  }

  /** A domain without items has an empty group. */
  lemma {:induction false} IdsInAbsent(items: seq<SortItem>, d: string)
    requires d !in Domains(items)
    ensures IdsIn(items, d) == []
    decreases |items|
  {
    if items != [] {
      var init := items[..|items| - 1];
      assert Domains(items) == Domains(init) + [items[|items| - 1].domain];
      IdsInAbsent(init, d);
    }
  }

  /** One step of the loop: the domains and groups of the first `i + 1` items. */
  lemma {:induction false} GroupStep(items: seq<SortItem>, i: nat)
    requires i < |items|
    ensures Domains(items[..i + 1]) == Domains(items[..i]) + [items[i].domain]
    ensures forall d :: IdsIn(items[..i + 1], d)
                     == if items[i].domain == d then IdsIn(items[..i], d) + [items[i].tabId] else IdsIn(items[..i], d)
  {
    assert items[..i + 1][..i] == items[..i];
  }

  lemma {:induction false} FirstOccurrencesStep(s: seq<string>, x: string)
    ensures FirstOccurrences(s + [x]) ==
      if x in FirstOccurrences(s) then FirstOccurrences(s) else FirstOccurrences(s) + [x]
  {
    assert (s + [x])[..|s|] == s;
  }

  /** The loop's invariant: the keys and id lists of the first `i` items. */
  ghost predicate GroupedUpTo(items: seq<SortItem>, i: nat, order: seq<string>, groups: map<string, seq<int>>)
    requires i <= |items|
  {
    && order == FirstOccurrences(Domains(items[..i]))
    && (forall d :: d in groups <==> d in order)
    && (forall d :: d in groups ==> groups[d] == IdsIn(items[..i], d))
  }

  lemma {:induction false} KnownDomainOrder(items: seq<SortItem>, i: nat, order: seq<string>, groups: map<string, seq<int>>)
    requires i < |items| && GroupedUpTo(items, i, order, groups) && items[i].domain in groups
    ensures order == FirstOccurrences(Domains(items[..i + 1]))
  {
    GroupStep(items, i);
    FirstOccurrencesStep(Domains(items[..i]), items[i].domain);
    assert items[i].domain in order;
  }

  lemma {:induction false} KnownDomainGroups(items: seq<SortItem>, i: nat, order: seq<string>, groups: map<string, seq<int>>)
    requires i < |items| && GroupedUpTo(items, i, order, groups) && items[i].domain in groups
    ensures var groups' := groups[items[i].domain := groups[items[i].domain] + [items[i].tabId]];
      forall x :: x in groups' ==> groups'[x] == IdsIn(items[..i + 1], x)
  {
    GroupStep(items, i);
  }

  lemma {:induction false} GroupedStepKnown(items: seq<SortItem>, i: nat, order: seq<string>, groups: map<string, seq<int>>)
    requires i < |items| && GroupedUpTo(items, i, order, groups) && items[i].domain in groups
    ensures GroupedUpTo(items, i + 1, order, groups[items[i].domain := groups[items[i].domain] + [items[i].tabId]])
  {
    KnownDomainOrder(items, i, order, groups);
    KnownDomainGroups(items, i, order, groups);
  }

  lemma {:induction false} GroupedStepNew(items: seq<SortItem>, i: nat, order: seq<string>, groups: map<string, seq<int>>)
    requires i < |items| && GroupedUpTo(items, i, order, groups) && items[i].domain !in groups
    ensures GroupedUpTo(items, i + 1, order + [items[i].domain], groups[items[i].domain := [items[i].tabId]])
  {
    var d := items[i].domain;
    var groups' := groups[d := [items[i].tabId]];
    assert order + [d] == FirstOccurrences(Domains(items[..i + 1])) by {
      GroupStep(items, i);
      FirstOccurrencesStep(Domains(items[..i]), d);
    }
    assert forall x :: x in groups' <==> x in order + [d];
    assert forall x :: x in groups' ==> groups'[x] == IdsIn(items[..i + 1], x) by {
      GroupStep(items, i);
      IdsInAbsent(items[..i], d);
    }
  }

  /**
   * `domainGroups`: fill a dictionary of id lists keyed by domain, in item
   * order; the keys come out in order of first insertion.
   */
  method GroupByDomain(items: seq<SortItem>) returns (order: seq<string>, groups: map<string, seq<int>>)
    ensures order == FirstOccurrences(Domains(items))
    ensures forall d :: d in groups <==> d in order
    ensures forall d :: d in groups ==> groups[d] == IdsIn(items, d)
  {
    order := [];
    groups := map[];
    for i := 0 to |items|
      invariant GroupedUpTo(items, i, order, groups)
    {
      var item := items[i];
      if item.domain in groups {
        GroupedStepKnown(items, i, order, groups);
        groups := groups[item.domain := groups[item.domain] + [item.tabId]];
      } else {
        GroupedStepNew(items, i, order, groups);
        groups := groups[item.domain := [item.tabId]];
        order := order + [item.domain];
      }
    }
    assert items[..|items|] == items;
  }

  /** The tab ids of each domain in `order`, one list per domain: `domainGroups[domain]` in key order. */
  function GroupList(order: seq<string>, items: seq<SortItem>): (r: seq<seq<int>>)
    ensures |r| == |order|
  {
    seq(|order|, j requires 0 <= j < |order| => IdsIn(items, order[j]))
  }

  /** A tab id is in a domain's group exactly when an item of that domain carries it. */
  lemma {:induction false} IdsInMember(items: seq<SortItem>, d: string, t: int)
    ensures t in IdsIn(items, d) <==> exists k :: 0 <= k < |items| && items[k].tabId == t && items[k].domain == d
    decreases |items|
  {
    if items != [] {
      var init := items[..|items| - 1];
      IdsInMember(init, d, t);
      assert forall k :: 0 <= k < |init| ==> init[k] == items[k];
      if t in IdsIn(init, d) {
        var k :| 0 <= k < |init| && init[k].tabId == t && init[k].domain == d;
        assert items[k].tabId == t && items[k].domain == d;
      }
    }
  }

  /** With distinct tab ids the groups of two different domains share no tab. */
  lemma {:induction false} GroupsDisjoint(items: seq<SortItem>, d: string, e: string, t: int)
    requires NoDuplicates(TabIds(items)) && d != e
    ensures t in IdsIn(items, d) ==> t !in IdsIn(items, e)
  {
    IdsInMember(items, d, t);
    IdsInMember(items, e, t);
    if t in IdsIn(items, d) {
      var k :| 0 <= k < |items| && items[k].tabId == t && items[k].domain == d;
      forall m | 0 <= m < |items| && items[m].tabId == t
        ensures items[m].domain == d
      {
        assert TabIds(items)[m] == TabIds(items)[k];
      }
    }
  }


  /** The groups of the domains in `order`, concatenated in that order. */
  function ConcatIds(order: seq<string>, items: seq<SortItem>): seq<int> {
    if order == [] then [] else ConcatIds(order[..|order| - 1], items) + IdsIn(items, order[|order| - 1])
  }

  /** The tab ids of the items, in order. */
  function TabIds(items: seq<SortItem>): (r: seq<int>)
    ensures |r| == |items| && forall k :: 0 <= k < |r| ==> r[k] == items[k].tabId
  {
    if items == [] then [] else TabIds(items[..|items| - 1]) + [items[|items| - 1].tabId]
  }

  function ItemId(item: SortItem): int {
    item.tabId
  }

  lemma {:induction false} TabIdsIsMap(items: seq<SortItem>)
    ensures TabIds(items) == Map(items, ItemId)
  {
    forall k | 0 <= k < |items|
      ensures TabIds(items)[k] == Map(items, ItemId)[k]
    {
      MapAt(items, ItemId, k);
    }
  }

  /** Sorting the items keeps their tab ids distinct. */
  lemma {:induction false} SortKeepsIdsDistinct(items: seq<SortItem>, cmp: Comparator<SortItem>)
    requires NoDuplicates(TabIds(items))
    ensures NoDuplicates(TabIds(SortBy(items, cmp)))
  {
    TabIdsIsMap(items);
    TabIdsIsMap(SortBy(items, cmp));
    SortByMapMultiset(items, cmp, ItemId);
    NoDuplicatesPermutation(TabIds(items), TabIds(SortBy(items, cmp)));
  }

  /** Every group, visited in key order and concatenated. */
  function AllGroups(items: seq<SortItem>): seq<int> {
    ConcatIds(FirstOccurrences(Domains(items)), items)
  }

  lemma {:induction false} IdsInSnoc(items: seq<SortItem>, last: SortItem, x: string)
    ensures IdsIn(items + [last], x) == if last.domain == x then IdsIn(items, x) + [last.tabId] else IdsIn(items, x)
  {
    assert (items + [last])[..|items|] == items;
  }

  /** Groups of domains other than the new item's are not affected by it. */
  lemma {:induction false} ConcatOther(order: seq<string>, items: seq<SortItem>, last: SortItem)
    requires last.domain !in order
    ensures ConcatIds(order, items + [last]) == ConcatIds(order, items)
    decreases |order|
  {
    if order != [] {
      var init := order[..|order| - 1];
      assert last.domain !in init by {
        assert forall x :: x in init ==> x in order;
      }
      ConcatOther(init, items, last);
      IdsInSnoc(items, last, order[|order| - 1]);
    }
  }

  /** A new item of a visited domain adds its id once to the concatenation. */
  lemma {:induction false} ConcatGrow(order: seq<string>, items: seq<SortItem>, last: SortItem)
    requires NoDuplicates(order) && last.domain in order
    ensures multiset(ConcatIds(order, items + [last])) == multiset(ConcatIds(order, items)) + multiset{last.tabId}
    decreases |order|
  {
    var init := order[..|order| - 1];
    var top := order[|order| - 1];
    IdsInSnoc(items, last, top);
    if top == last.domain {
      assert last.domain !in init by {
        forall k | 0 <= k < |init| ensures init[k] != last.domain {
          assert order[k] == init[k];
        }
      }
      ConcatOther(init, items, last);
    } else {
      assert last.domain in init;
      ConcatGrow(init, items, last);
    }
  }

  /** The groups partition the tabs: together they hold every sorted tab id exactly as often as it occurs. */
  lemma {:induction false} GroupsPartition(items: seq<SortItem>)
    ensures multiset(AllGroups(items)) == multiset(TabIds(items))
    decreases |items|
  {
    if items != [] {
      var init := items[..|items| - 1];
      var last := items[|items| - 1];
      assert items == init + [last];
      GroupsPartition(init);
      FirstOccurrencesDistinct(Domains(init));
      var order := FirstOccurrences(Domains(init));
      assert Domains(items) == Domains(init) + [last.domain];
      FirstOccurrencesStep(Domains(init), last.domain);
      assert TabIds(items) == TabIds(init) + [last.tabId];
      if last.domain in order {
        ConcatGrow(order, init, last);
      } else {
        var order' := order + [last.domain];
        assert order'[..|order'| - 1] == order;
        ConcatOther(order, init, last);
        IdsInAbsent(init, last.domain);
        IdsInSnoc(init, last, last.domain);
      }
    }
  }

  /** Index of the first item of each domain. */
  lemma {:induction false} FirstOccurrenceOrder(s: seq<string>, i: nat, j: nat)
    requires i < j < |FirstOccurrences(s)|
    ensures var r := FirstOccurrences(s);
      r[i] in s && r[j] in s && Seqs.IndexOf(s, r[i]) < Seqs.IndexOf(s, r[j])
    decreases |s|
  {
    var init := s[..|s| - 1];
    var last := s[|s| - 1];
    var r0 := FirstOccurrences(init);
    var r := FirstOccurrences(s);
    assert forall x :: x in init ==> Seqs.IndexOf(s, x) == Seqs.IndexOf(init, x) by {
      forall x | x in init ensures Seqs.IndexOf(s, x) == Seqs.IndexOf(init, x) {
        IndexOfPrefix(init, [last], x);
        assert init + [last] == s;
      }
    }
    if last in r0 {
      FirstOccurrenceOrder(init, i, j);
    } else if j < |r0| {
      FirstOccurrenceOrder(init, i, j);
    } else {
      assert r[j] == last && last !in init;
      assert r[i] == r0[i] && r0[i] in init;
      assert Seqs.IndexOf(s, last) == |s| - 1 by {
        assert s[..|s| - 1] == init;
      }
    }
  }

  lemma {:induction false} IndexOfPrefix(a: seq<string>, b: seq<string>, x: string)
    requires x in a
    ensures Seqs.IndexOf(a + b, x) == Seqs.IndexOf(a, x)
  {
    var i := Seqs.IndexOf(a, x);
    assert (a + b)[..i] == a[..i] && (a + b)[i] == x;
    Seqs.IndexOfFirst(a + b, x, i);
  }

  /**
   * When the items are sorted by the tab comparator under a strict
   * collation, the groups are visited in strictly increasing domain order.
   */
  lemma {:induction false} GroupsInDomainOrder(items: seq<SortItem>, coll: Collation)
    requires IsStrictCollation(coll) && SortedBy(items, TabOrder(coll))
    ensures var order := FirstOccurrences(Domains(items));
      forall i, j :: 0 <= i < j < |order| ==> coll(order[i], order[j]) == LT
  {
    var ds := Domains(items);
    var order := FirstOccurrences(ds);
    forall i, j | 0 <= i < j < |order|
      ensures coll(order[i], order[j]) == LT
    {
      FirstOccurrenceOrder(ds, i, j);
      var p := Seqs.IndexOf(ds, order[i]);
      var q := Seqs.IndexOf(ds, order[j]);
      assert items[p].domain == order[i] && items[q].domain == order[j];
      SortedDomainsLess(items, coll, p, q);
    }
  }

  /** Two sorted items of different domains are in strictly increasing domain order. */
  lemma {:induction false} SortedDomainsLess(items: seq<SortItem>, coll: Collation, p: nat, q: nat)
    requires IsStrictCollation(coll) && SortedBy(items, TabOrder(coll))
    requires p < q < |items| && items[p].domain != items[q].domain
    ensures coll(items[p].domain, items[q].domain) == LT
  {
    var a, b := items[p], items[q];
    assert TabOrder(coll)(a, b) != GT;
    CompareTabsShape(a, b, coll);
    StrictLess(coll, a.domain, b.domain);
  }

  /* ---------- Window relabelling ---------- */

  /** `if (ids.includes(link.tabId)) link.windowId = w` for one record. */
  function Relabel(l: SavedLink, ids: seq<int>, w: int): (r: SavedLink)
    ensures r.meta.tabId.Some? && r.meta.tabId.value in ids ==> r.meta.windowId == Some(w)
    ensures !(r.meta.tabId.Some? && r.meta.tabId.value in ids) ==> r == l
    ensures r == l.(meta := l.meta.(windowId := r.meta.windowId))
  {
    if l.meta.tabId.Some? && l.meta.tabId.value in ids then l.(meta := l.meta.(windowId := Some(w))) else l
  }

  /** Two record lists that differ at most in their window ids. */
  ghost predicate SameButWindows(a: seq<SavedLink>, b: seq<SavedLink>) {
    |a| == |b| && forall k :: 0 <= k < |a| ==> b[k] == a[k].(meta := a[k].meta.(windowId := b[k].meta.windowId))
  }

  /** The stored comparator does not look at window ids, so relabelling keeps a sorted list sorted. */
  lemma {:induction false} RelabelKeepsOrder(a: seq<SavedLink>, b: seq<SavedLink>, coll: Collation)
    requires SameButWindows(a, b) && SortedBy(a, LinkOrder(coll))
    ensures SortedBy(b, LinkOrder(coll))
  {
    forall i, j | 0 <= i < j < |b|
      ensures LinkOrder(coll)(b[i], b[j]) != GT
    {
      assert LinkOrder(coll)(a[i], a[j]) != GT;
      assert NormDomain(b[i]) == NormDomain(a[i]) && NormDomain(b[j]) == NormDomain(a[j]);
    }
  }

  /** Every record after the groups in `done` moved to the windows in `wins`, one after the other. */
  function RelabelGroups(l: SavedLink, done: seq<seq<int>>, wins: seq<int>): (r: SavedLink)
    requires |done| == |wins|
    ensures r == l.(meta := l.meta.(windowId := r.meta.windowId))
    ensures (forall j :: 0 <= j < |done| ==> !(l.meta.tabId.Some? && l.meta.tabId.value in done[j])) ==> r == l
  {
    if done == [] then l
    else Relabel(RelabelGroups(l, done[..|done| - 1], wins[..|wins| - 1]), done[|done| - 1], wins[|wins| - 1])
  }

  /** A record whose tab lies in exactly one moved group carries that group's window. */
  lemma {:induction false} RelabelGroupsHit(l: SavedLink, done: seq<seq<int>>, wins: seq<int>, j: nat)
    requires |done| == |wins| && j < |done|
    requires l.meta.tabId.Some? && l.meta.tabId.value in done[j]
    requires forall j' :: 0 <= j' < |done| && j' != j ==> l.meta.tabId.value !in done[j']
    ensures RelabelGroups(l, done, wins).meta.windowId == Some(wins[j])
    decreases |done|
  {
    var n := |done| - 1;
    if j < n {
      RelabelGroupsHit(l, done[..n], wins[..n], j);
      assert done[n] == done[n];
    }
  }

  /** Relabelling after one more completed group is one more `Relabel`. */
  lemma {:induction false} RelabelGroupsSnoc(l: SavedLink, done: seq<seq<int>>, wins: seq<int>, ids: seq<int>, w: int)
    requires |done| == |wins|
    ensures RelabelGroups(l, done + [ids], wins + [w]) == Relabel(RelabelGroups(l, done, wins), ids, w)
  {
    assert (done + [ids])[..|done|] == done && (wins + [w])[..|wins|] == wins;
  }
}
