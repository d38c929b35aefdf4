/**
 * The saved-links page (src/list/list.js): its in-memory `savedLinks` list,
 * edited in place by closing, deleting and drag-and-drop, and the
 * sort-and-consolidate action that regroups the browser's tabs into windows.
 */
module ListPage {
  import opened Wrappers
  import opened Seqs
  import opened Sorting
  import opened Records
  import opened Store
  import opened SortKeys
  import opened Consolidation

  /* ---------- The browser's tab and window calls ---------- */

  /** A `chrome.tabs.move` that went through: which tabs, to which window, at which index. */
  datatype Move = Move(tabIds: seq<int>, windowId: int, index: int)

  /** Where `chrome.tabs.get` says a tab is. */
  datatype Place = Place(windowId: int, index: int)

  /** A window `chrome.windows.create` opened: its id and the blank tab it came with, if any. */
  datatype Window = Window(id: int, autoTab: Option<int>)

  /**
   * The browser as the page sees it. Every call may fail (the promise
   * rejects); the effects of the calls that went through are logged.
   */
  class Host {
    var moves: seq<Move>
    var closed: seq<int>
    var created: seq<Window>

    constructor Idle()
      ensures moves == [] && closed == [] && created == []
    {
      moves := [];
      closed := [];
      created := [];
    }

    /** `chrome.tabs.get(tabId)`: the tab's place, or `None` when the call fails. */
    method GetTab(tabId: int) returns (r: Option<Place>)
    {
      var failed: bool :| true;
      var place: Place :| true;
      r := if failed then None else Some(place);
    }

    /** `chrome.tabs.move(tabIds, {windowId, index})` */
    method MoveTabs(tabIds: seq<int>, windowId: int, index: int) returns (ok: bool)
      modifies this
      ensures moves == if ok then old(moves) + [Move(tabIds, windowId, index)] else old(moves)
      ensures closed == old(closed) && created == old(created)
    {
      ok :| true;
      if ok {
        moves := moves + [Move(tabIds, windowId, index)];
      }
    }

    /** `chrome.tabs.remove(tabId)` */
    method RemoveTab(tabId: int) returns (ok: bool)
      modifies this
      ensures closed == if ok then old(closed) + [tabId] else old(closed)
      ensures moves == old(moves) && created == old(created)
    {
      ok :| true;
      if ok {
        closed := closed + [tabId];
      }
    }

    /** `chrome.windows.create(...)`: the new window, or `None` when the call fails. */
    method CreateWindow() returns (r: Option<Window>)
      modifies this
      ensures created == if r.Some? then old(created) + [r.value] else old(created)
      ensures moves == old(moves) && closed == old(closed)
    {
      var failed: bool :| true;
      var w: Window :| true;
      r := if failed then None else Some(w);
      if r.Some? {
        created := created + [r.value];
      }
    }
  }

  /* ---------- Removing records ---------- */

  /** `links.filter(item => !ids.includes(item.id))` */
  function WithoutIds(links: seq<SavedLink>, ids: seq<string>): seq<SavedLink> {
    Filter(links, (l: SavedLink) => l.id !in ids)
  }

  /** Removal is exact: a record goes iff its id is listed, and every other record keeps its multiplicity. */
  lemma {:induction false} WithoutIdsCounts(links: seq<SavedLink>, ids: seq<string>, l: SavedLink)
    ensures multiset(WithoutIds(links, ids))[l] == if l.id in ids then 0 else multiset(links)[l]
  {
    FilterMultiset(links, (l: SavedLink) => l.id !in ids, l);
  }

  /** Removing the same ids twice removes nothing more. */
  lemma {:induction false} WithoutIdsIdempotent(links: seq<SavedLink>, ids: seq<string>)
    ensures WithoutIds(WithoutIds(links, ids), ids) == WithoutIds(links, ids)
  {
    var once := WithoutIds(links, ids);
    FilterAll(once, (l: SavedLink) => l.id !in ids);
  }

  /** `links.findIndex(l => l.id === id)`, with `None` for -1. */
  function FindId(links: seq<SavedLink>, id: string): (r: Option<nat>)
    ensures r.Some? ==> r.value < |links| && links[r.value].id == id
    ensures r.Some? ==> forall k :: 0 <= k < r.value ==> links[k].id != id
    ensures r.None? ==> forall k :: 0 <= k < |links| ==> links[k].id != id
  {
    if links == [] then None
    else if links[0].id == id then Some(0)
    else
      match FindId(links[1..], id)
      case None => None
      case Some(k) => Some(k + 1)
  }

  /** `links.find(l => l.id === id)?.tabId` is truthy. */
  predicate HasTab(links: seq<SavedLink>, id: string) {
    var k := FindId(links, id);
    k.Some? && TruthyId(links[k.value].meta.tabId)
  }

  /** The record with its window id replaced. */
  function InWindow(l: SavedLink, w: int): (r: SavedLink)
    ensures r.meta.windowId == Some(w)
    ensures r.(meta := r.meta.(windowId := l.meta.windowId)) == l
  {
    l.(meta := l.meta.(windowId := Some(w)))
  }

  /* ---------- What a completed consolidation did ---------- */

  /** The groups the tabs are moved in: all sorted tabs at once, or each domain's tabs in key order. */
  function Groups(single: bool, items: seq<SortItem>): seq<seq<int>> {
    if single then [TabIds(items)] else GroupList(FirstOccurrences(Domains(items)), items)
  }

  /**
   * A completed consolidation starting from the records `links0`: every
   * tab parsed, the groups of the sorted items were moved (the log went
   * from `moves0` to `moves`) to the windows `wins`, and `links` is the
   * enriched, sorted record list with each group's records in its window.
   */
  ghost predicate SortOutcome(links0: seq<SavedLink>, tabs: seq<Tab>, single: bool, coll: Collation, parse: UrlParser,
                              probe: int -> Option<string>, moves0: seq<Move>, moves: seq<Move>, links: seq<SavedLink>, wins: seq<int>)
  {
    var e := Enrich(links0, tabs, LiveChannels(tabs, probe), parse);
    && e.Built?
    && var groups := Groups(single, SortBy(e.items, TabOrder(coll)));
    && MovedAs(moves0, moves, groups, wins)
    && RelabelledBy(SortBy(e.links, LinkOrder(coll)), links, groups, wins)
  }

  /**
   * A consolidation that failed after `|wins|` of its groups: every tab
   * parsed, the first `|wins|` groups of the sorted items were moved and
   * their records relabelled, and of the remaining groups at most the
   * first was moved (a later call for it failed) and none relabelled.
   */
  ghost predicate SortStopped(links0: seq<SavedLink>, tabs: seq<Tab>, single: bool, coll: Collation, parse: UrlParser,
                              probe: int -> Option<string>, moves0: seq<Move>, moves: seq<Move>, links: seq<SavedLink>, wins: seq<int>)
  {
    var e := Enrich(links0, tabs, LiveChannels(tabs, probe), parse);
    && e.Built?
    && var groups := Groups(single, SortBy(e.items, TabOrder(coll)));
    && StoppedAt(moves0, moves, groups, wins)
    && RelabelledBy(SortBy(e.links, LinkOrder(coll)), links, groups[..|wins|], wins)
  }

  /** Enriching, sorting and relabelling the records keeps every id, as often as it occurred. */
  lemma {:induction false} SortedLinksKeepIds(a: seq<SavedLink>, enriched: seq<SavedLink>, sorted: seq<SavedLink>,
                                              relabelled: seq<SavedLink>, coll: Collation)
    requires SameButChannels(a, enriched) && sorted == SortBy(enriched, LinkOrder(coll))
    requires SameButWindows(sorted, relabelled)
    ensures multiset(Map(relabelled, IdOf)) == multiset(Map(a, IdOf))
  {
    SameButChannelsIds(a, enriched);
    SortByMapMultiset(enriched, LinkOrder(coll), IdOf);
    SameButWindowsIds(sorted, relabelled);
  }

  /** A consolidation keeps every record's id, as often as it occurred. */
  lemma {:induction false} ConsolidationKeepsIds(links0: seq<SavedLink>, tabs: seq<Tab>, single: bool, coll: Collation, parse: UrlParser,
                                                 probe: int -> Option<string>, moves0: seq<Move>, moves: seq<Move>, links: seq<SavedLink>, wins: seq<int>)
    requires SortOutcome(links0, tabs, single, coll, parse, probe, moves0, moves, links, wins)
    ensures multiset(Map(links, IdOf)) == multiset(Map(links0, IdOf))
  {
    var e := Enrich(links0, tabs, LiveChannels(tabs, probe), parse);
    var sorted := SortBy(e.links, LinkOrder(coll));
    var groups := Groups(single, SortBy(e.items, TabOrder(coll)));
    EnrichOnlyChannels(links0, tabs, LiveChannels(tabs, probe), parse);
    RelabelledBySame(sorted, links, groups, wins);
    SortedLinksKeepIds(links0, e.links, sorted, links, coll);
  }

  lemma {:induction false} SortOutcomeIntro(links0: seq<SavedLink>, tabs: seq<Tab>, single: bool, coll: Collation, parse: UrlParser,
                                            probe: int -> Option<string>, moves0: seq<Move>, moves: seq<Move>, links: seq<SavedLink>,
                                            wins: seq<int>, items: seq<SortItem>)
    requires Enrich(links0, tabs, LiveChannels(tabs, probe), parse).Built?
    requires items == SortBy(Enrich(links0, tabs, LiveChannels(tabs, probe), parse).items, TabOrder(coll))
    requires MovedAs(moves0, moves, Groups(single, items), wins)
    requires RelabelledBy(SortBy(Enrich(links0, tabs, LiveChannels(tabs, probe), parse).links, LinkOrder(coll)), links,
                          Groups(single, items), wins)
    ensures SortOutcome(links0, tabs, single, coll, parse, probe, moves0, moves, links, wins)
  {
  }

  lemma {:induction false} SortStoppedIntro(links0: seq<SavedLink>, tabs: seq<Tab>, single: bool, coll: Collation, parse: UrlParser,
                                            probe: int -> Option<string>, moves0: seq<Move>, moves: seq<Move>, links: seq<SavedLink>,
                                            wins: seq<int>, items: seq<SortItem>)
    requires Enrich(links0, tabs, LiveChannels(tabs, probe), parse).Built?
    requires items == SortBy(Enrich(links0, tabs, LiveChannels(tabs, probe), parse).items, TabOrder(coll))
    requires StoppedAt(moves0, moves, Groups(single, items), wins)
    requires RelabelledBy(SortBy(Enrich(links0, tabs, LiveChannels(tabs, probe), parse).links, LinkOrder(coll)), links,
                          Groups(single, items)[..|wins|], wins)
    ensures SortStopped(links0, tabs, single, coll, parse, probe, moves0, moves, links, wins)
  {
  }

  /** A consolidation that stopped partway keeps every record's id too. */
  lemma {:induction false} StoppedKeepsIds(links0: seq<SavedLink>, tabs: seq<Tab>, single: bool, coll: Collation, parse: UrlParser,
                                           probe: int -> Option<string>, moves0: seq<Move>, moves: seq<Move>, links: seq<SavedLink>, wins: seq<int>)
    requires SortStopped(links0, tabs, single, coll, parse, probe, moves0, moves, links, wins)
    ensures multiset(Map(links, IdOf)) == multiset(Map(links0, IdOf))
  {
    var e := Enrich(links0, tabs, LiveChannels(tabs, probe), parse);
    var sorted := SortBy(e.links, LinkOrder(coll));
    var groups := Groups(single, SortBy(e.items, TabOrder(coll)));
    EnrichOnlyChannels(links0, tabs, LiveChannels(tabs, probe), parse);
    RelabelledBySame(sorted, links, groups[..|wins|], wins);
    SortedLinksKeepIds(links0, e.links, sorted, links, coll);
  }

  /** Under a strict collation the stored records come out ordered by the record comparator. */
  lemma {:induction false} ConsolidationSortsLinks(links0: seq<SavedLink>, tabs: seq<Tab>, single: bool, coll: Collation, parse: UrlParser,
                                                   probe: int -> Option<string>, moves0: seq<Move>, moves: seq<Move>, links: seq<SavedLink>, wins: seq<int>)
    requires SortOutcome(links0, tabs, single, coll, parse, probe, moves0, moves, links, wins)
    requires IsStrictCollation(coll)
    ensures SortedBy(links, LinkOrder(coll))
  {
    var e := Enrich(links0, tabs, LiveChannels(tabs, probe), parse);
    var sorted := SortBy(e.links, LinkOrder(coll));
    var groups := Groups(single, SortBy(e.items, TabOrder(coll)));
    RelabelledBySame(sorted, links, groups, wins);
    LinkOrderIsTotalPreorder(coll);
    SortBySorted(e.links, LinkOrder(coll));
    RelabelKeepsOrder(sorted, links, coll);
  }

  /** No two tabs share an id. */
  predicate DistinctTabIds(tabs: seq<Tab>) {
    forall i, j :: 0 <= i < j < |tabs| ==> tabs[i].id != tabs[j].id
  }

  /** The items of a completed enrichment carry the tabs' distinct ids. */
  lemma {:induction false} EnrichedIdsDistinct(links: seq<SavedLink>, tabs: seq<Tab>, live: map<int, string>, parse: UrlParser)
    requires DistinctTabIds(tabs) && Enrich(links, tabs, live, parse).Built?
    ensures NoDuplicates(TabIds(Enrich(links, tabs, live, parse).items))
  {
    var items := Enrich(links, tabs, live, parse).items;
    EnrichItemsFollowTabs(links, tabs, live, parse);
    forall i, j | 0 <= i < j < |items|
      ensures TabIds(items)[i] != TabIds(items)[j]
    {
      assert FromTab(items[i], tabs[i]) && FromTab(items[j], tabs[j]);
    }
  }

  /**
   * In the separate mode, with distinct tab ids, a record whose tab is in
   * the j-th domain's group ends in the j-th new window, and a record whose
   * tab was in no group keeps its window.
   */
  lemma {:induction false} SeparateModeWindows(links0: seq<SavedLink>, tabs: seq<Tab>, coll: Collation, parse: UrlParser,
                                               probe: int -> Option<string>, moves0: seq<Move>, moves: seq<Move>,
                                               links: seq<SavedLink>, wins: seq<int>, k: nat, j: nat)
    requires SortOutcome(links0, tabs, false, coll, parse, probe, moves0, moves, links, wins)
    requires DistinctTabIds(tabs) && k < |links|
    requires var e := Enrich(links0, tabs, LiveChannels(tabs, probe), parse);
      var items := SortBy(e.items, TabOrder(coll));
      var order := FirstOccurrences(Domains(items));
      var tab := SortBy(e.links, LinkOrder(coll))[k].meta.tabId;
      j < |order| && tab.Some? && tab.value in IdsIn(items, order[j])
    ensures links[k].meta.windowId == Some(wins[j])
  {
    var e := Enrich(links0, tabs, LiveChannels(tabs, probe), parse);
    var items := SortBy(e.items, TabOrder(coll));
    var order := FirstOccurrences(Domains(items));
    var sorted := SortBy(e.links, LinkOrder(coll));
    var groups := GroupList(order, items);
    var t := sorted[k].meta.tabId.value;
    EnrichedIdsDistinct(links0, tabs, LiveChannels(tabs, probe), parse);
    SortKeepsIdsDistinct(e.items, TabOrder(coll));
    FirstOccurrencesDistinct(Domains(items));
    forall j' | 0 <= j' < |groups| && j' != j
      ensures t !in groups[j']
    {
      GroupsDisjoint(items, order[j], order[j'], t);
    }
    RelabelGroupsHit(sorted[k], groups, wins, j);
  }

  /** A record whose tab was moved in no group keeps its window (and everything else). */
  lemma {:induction false} UnmovedKeepWindow(links0: seq<SavedLink>, tabs: seq<Tab>, single: bool, coll: Collation, parse: UrlParser,
                                             probe: int -> Option<string>, moves0: seq<Move>, moves: seq<Move>,
                                             links: seq<SavedLink>, wins: seq<int>, k: nat)
    requires SortOutcome(links0, tabs, single, coll, parse, probe, moves0, moves, links, wins)
    requires k < |links|
    requires var e := Enrich(links0, tabs, LiveChannels(tabs, probe), parse);
      var groups := Groups(single, SortBy(e.items, TabOrder(coll)));
      var tab := SortBy(e.links, LinkOrder(coll))[k].meta.tabId;
      forall g :: g in groups ==> !(tab.Some? && tab.value in g)
    ensures var e := Enrich(links0, tabs, LiveChannels(tabs, probe), parse);
      links[k] == SortBy(e.links, LinkOrder(coll))[k]
  {
    var e := Enrich(links0, tabs, LiveChannels(tabs, probe), parse);
    var groups := Groups(single, SortBy(e.items, TabOrder(coll)));
    var sorted := SortBy(e.links, LinkOrder(coll));
    assert forall m :: 0 <= m < |groups| ==> groups[m] in groups;
    assert links[k] == RelabelGroups(sorted[k], groups, wins);
  }

  /* ---------- The page ---------- */

  datatype CloseStatus = Closed | ListedOnly | CloseFailed
  datatype DeleteStatus = NothingSelected | Declined | Deleted | DeleteFailed
  datatype DropStatus = SameRow | NoTab | MoveFailed | Dropped | DropSaveFailed
  datatype SortStatus = NoTabs | SortFailed | Sorted

  /** The moves the separate mode makes: each group to its own new window, appended at the end. */
  function GroupMoves(groups: seq<seq<int>>, wins: seq<int>): (r: seq<Move>)
    requires |groups| == |wins|
    ensures |r| == |groups|
    ensures forall j :: 0 <= j < |r| ==> r[j] == Move(groups[j], wins[j], -1)
  {
    if groups == [] then []
    else GroupMoves(groups[..|groups| - 1], wins[..|wins| - 1]) + [Move(groups[|groups| - 1], wins[|wins| - 1], -1)]
  }

  /** `b` is `a` after the groups in `done` moved to the windows in `wins`. */
  ghost predicate RelabelledBy(a: seq<SavedLink>, b: seq<SavedLink>, done: seq<seq<int>>, wins: seq<int>) {
    |done| == |wins| && |b| == |a| && forall k :: 0 <= k < |a| ==> b[k] == RelabelGroups(a[k], done, wins)
  }

  lemma {:induction false} RelabelledByOne(a: seq<SavedLink>, b: seq<SavedLink>, ids: seq<int>, w: int)
    requires |b| == |a| && forall k :: 0 <= k < |a| ==> b[k] == Relabel(a[k], ids, w)
    ensures RelabelledBy(a, b, [ids], [w])
  {
    forall k | 0 <= k < |a|
      ensures b[k] == RelabelGroups(a[k], [ids], [w])
    {
      RelabelGroupsSnoc(a[k], [], [], ids, w);
    }
  }

  lemma {:induction false} RelabelledByStep(a: seq<SavedLink>, b: seq<SavedLink>, c: seq<SavedLink>,
                                            done: seq<seq<int>>, wins: seq<int>, ids: seq<int>, w: int)
    requires RelabelledBy(a, b, done, wins) && RelabelledBy(b, c, [ids], [w])
    ensures RelabelledBy(a, c, done + [ids], wins + [w])
  {
    forall k | 0 <= k < |a|
      ensures c[k] == RelabelGroups(a[k], done + [ids], wins + [w])
    {
      RelabelGroupsSnoc(a[k], done, wins, ids, w);
      RelabelGroupsSnoc(b[k], [], [], ids, w);
    }
  }

  /** Relabelling touches window ids only. */
  lemma {:induction false} RelabelledBySame(a: seq<SavedLink>, b: seq<SavedLink>, done: seq<seq<int>>, wins: seq<int>)
    requires RelabelledBy(a, b, done, wins)
    ensures SameButWindows(a, b)
  {
    forall k | 0 <= k < |a|
      ensures b[k] == a[k].(meta := a[k].meta.(windowId := b[k].meta.windowId))
    {
      assert b[k] == RelabelGroups(a[k], done, wins);
    }
  }

  /** `moves` is the log `start` followed by one move per completed group. */
  ghost predicate MovedAs(start: seq<Move>, moves: seq<Move>, done: seq<seq<int>>, wins: seq<int>) {
    |done| == |wins| && moves == start + GroupMoves(done, wins)
  }

  /**
   * `moves` is the log `start` after a run over `groups` that completed
   * the first `|wins|` groups and failed on the next: at most one move of
   * that group follows, and no later group is moved.
   */
  ghost predicate StoppedAt(start: seq<Move>, moves: seq<Move>, groups: seq<seq<int>>, wins: seq<int>) {
    && |wins| < |groups|
    && var done := start + GroupMoves(groups[..|wins|], wins);
    && (moves == done || (|moves| == |done| + 1 && moves[..|done|] == done && moves[|done|].tabIds == groups[|wins|]))
  }

  /** The blank tabs the windows came with, in order. */
  function Blanks(ws: seq<Window>): (r: seq<int>)
    ensures |r| <= |ws|
  {
    if ws == [] then []
    else Blanks(ws[..|ws| - 1]) + (if ws[|ws| - 1].autoTab.Some? then [ws[|ws| - 1].autoTab.value] else [])
  }

  /** The tabs `Blanks` lists are exactly the windows' blank tabs. */
  lemma {:induction false} BlanksAreAutoTabs(ws: seq<Window>, t: int)
    ensures t in Blanks(ws) <==> exists k :: 0 <= k < |ws| && ws[k].autoTab == Some(t)
    decreases |ws|
  {
    if ws != [] {
      var init := ws[..|ws| - 1];
      BlanksAreAutoTabs(init, t);
      if exists k :: 0 <= k < |init| && init[k].autoTab == Some(t) {
        var k :| 0 <= k < |init| && init[k].autoTab == Some(t);
        assert ws[k] == init[k];
      }
      if exists k :: 0 <= k < |ws| && ws[k].autoTab == Some(t) {
        var k :| 0 <= k < |ws| && ws[k].autoTab == Some(t);
        if k < |init| {
          assert init[k] == ws[k];
        }
      }
    }
  }

  /** The ids of the windows, in order. */
  function WindowIds(ws: seq<Window>): (r: seq<int>)
    ensures |r| == |ws| && forall k :: 0 <= k < |ws| ==> r[k] == ws[k].id
  {
    if ws == [] then [] else WindowIds(ws[..|ws| - 1]) + [ws[|ws| - 1].id]
  }

  /**
   * The windows `made` by a run: one per completed group (their ids are
   * `wins`), plus at most one more when the run `failed`; the close log
   * went from `closed0` to `closed` by the blank tabs of the completed
   * groups' windows and nothing else.
   */
  predicate Opened(made: seq<Window>, closed0: seq<int>, closed: seq<int>, wins: seq<int>, failed: bool) {
    && |wins| <= |made| <= |wins| + (if failed then 1 else 0)
    && WindowIds(made[..|wins|]) == wins
    && closed == closed0 + Blanks(made[..|wins|])
  }

  /** The window log went from `created0` to `created` by the windows a run `Opened`. */
  ghost predicate OpenedFor(created0: seq<Window>, created: seq<Window>, closed0: seq<int>, closed: seq<int>,
                            wins: seq<int>, failed: bool)
  {
    && |created0| <= |created| && created[..|created0|] == created0
    && Opened(created[|created0|..], closed0, closed, wins, failed)
  }

  /** A run that did not start opens and closes nothing. */
  lemma {:induction false} OpenedForNone(created: seq<Window>, closed: seq<int>, failed: bool)
    ensures OpenedFor(created, created, closed, closed, [], failed)
  {
    assert created[..|created|] == created && created[|created|..] == [];
    assert closed + [] == closed;
  }

  /** Two runs one after the other: the log's new part is the first run's windows, then the second's. */
  lemma {:induction false} LogSuffix(created0: seq<Window>, created: seq<Window>, created': seq<Window>)
    requires |created0| <= |created| <= |created'|
    requires created[..|created0|] == created0 && created'[..|created|] == created
    ensures created'[..|created0|] == created0
    ensures created'[|created0|..] == created[|created0|..] + created'[|created|..]
  {
    assert created'[..|created0|] == created'[..|created|][..|created0|];
  }

  lemma {:induction false} OpenedStep(made: seq<Window>, more: seq<Window>, closed0: seq<int>, closed: seq<int>, closed': seq<int>,
                                      wins: seq<int>, w: int)
    requires Opened(made, closed0, closed, wins, false) && Opened(more, closed, closed', [w], false)
    ensures Opened(made + more, closed0, closed', wins + [w], false)
  {
    assert made[..|wins|] == made && more[..1] == more && |more| == 1;
    var all := made + more;
    assert all[..|all|] == all && all[..|all| - 1] == made && all[|all| - 1] == more[0];
    assert Blanks(more) == Blanks(more[..0]) + Blanks([more[0]]) by {
      assert more == [more[0]];
    }
    AppendAssoc(closed0, Blanks(made), Blanks(more));
  }

  lemma {:induction false} OpenedForStep(created0: seq<Window>, created: seq<Window>, created': seq<Window>,
                                         closed0: seq<int>, closed: seq<int>, closed': seq<int>, wins: seq<int>, w: int)
    requires OpenedFor(created0, created, closed0, closed, wins, false)
    requires OpenedFor(created, created', closed, closed', [w], false)
    ensures OpenedFor(created0, created', closed0, closed', wins + [w], false)
  {
    LogSuffix(created0, created, created');
    OpenedStep(created[|created0|..], created'[|created|..], closed0, closed, closed', wins, w);
  }

  /** A run that completed the groups of `wins` and then failed on the next. */
  lemma {:induction false} OpenedForFail(created0: seq<Window>, created: seq<Window>, created': seq<Window>,
                                         closed0: seq<int>, closed: seq<int>, closed': seq<int>, wins: seq<int>)
    requires OpenedFor(created0, created, closed0, closed, wins, false)
    requires OpenedFor(created, created', closed, closed', [], true)
    ensures OpenedFor(created0, created', closed0, closed', wins, true)
  {
    LogSuffix(created0, created, created');
    var made := created[|created0|..];
    var more := created'[|created|..];
    assert (made + more)[..|wins|] == made[..|wins|];
    assert closed' == closed + [];
  }

  lemma {:induction false} MovedAsStep(start: seq<Move>, moves: seq<Move>, moves': seq<Move>,
                                       done: seq<seq<int>>, wins: seq<int>, ids: seq<int>, w: int)
    requires MovedAs(start, moves, done, wins) && moves' == moves + [Move(ids, w, -1)]
    ensures MovedAs(start, moves', done + [ids], wins + [w])
  {
    GroupMovesSnoc(done, wins, ids, w);
  }

  lemma {:induction false} GroupListSnoc(order: seq<string>, j: nat, items: seq<SortItem>)
    requires j < |order|
    ensures GroupList(order[..j + 1], items) == GroupList(order[..j], items) + [IdsIn(items, order[j])]
  {
  }

  /** The first `j` groups in key order are the groups of the first `j` keys, and the next is key `j`'s. */
  lemma {:induction false} GroupListPrefix(order: seq<string>, j: nat, items: seq<SortItem>)
    requires j < |order|
    ensures GroupList(order, items)[..j] == GroupList(order[..j], items)
    ensures GroupList(order, items)[j] == IdsIn(items, order[j])
  {
  }

  lemma {:induction false} GroupMovesSnoc(groups: seq<seq<int>>, wins: seq<int>, ids: seq<int>, w: int)
    requires |groups| == |wins|
    ensures GroupMoves(groups + [ids], wins + [w]) == GroupMoves(groups, wins) + [Move(ids, w, -1)]
  {
    assert (groups + [ids])[..|groups|] == groups && (wins + [w])[..|wins|] == wins;
  }

  /** A record's id. */
  function IdOf(l: SavedLink): string {
    l.id
  }

  /** Records that differ only in their window ids have the same ids in the same order. */
  lemma {:induction false} SameButWindowsIds(a: seq<SavedLink>, b: seq<SavedLink>)
    requires SameButWindows(a, b)
    ensures Map(a, IdOf) == Map(b, IdOf)
  {
    forall k | 0 <= k < |a|
      ensures Map(a, IdOf)[k] == Map(b, IdOf)[k]
    {
      MapAt(a, IdOf, k);
      MapAt(b, IdOf, k);
    }
  }

  /** Records that differ only in their channels have the same ids in the same order. */
  lemma {:induction false} SameButChannelsIds(a: seq<SavedLink>, b: seq<SavedLink>)
    requires SameButChannels(a, b)
    ensures Map(a, IdOf) == Map(b, IdOf)
  {
    forall k | 0 <= k < |a|
      ensures Map(a, IdOf)[k] == Map(b, IdOf)[k]
    {
      MapAt(a, IdOf, k);
      MapAt(b, IdOf, k);
    }
  }

  class LinkList {
    var savedLinks: seq<SavedLink>
    const store: Storage
    const host: Host

    /** The page after `loadData` read `links` from the store. */
    constructor (store: Storage, host: Host, links: seq<SavedLink>)
      ensures this.store == store && this.host == host && savedLinks == links
    {
      this.store := store;
      this.host := host;
      savedLinks := links;
    }

    /**
     * `handleIndividualTabClose(id, tabId)`: the tab (when the record has a
     * truthy tab id) is closed, and the records with this id leave the
     * list on both the success and the failure path. `CloseFailed` is the
     * rejection that escapes when the write in the failure path fails too.
     */
    method CloseTab(id: string, tabId: Option<int>) returns (status: CloseStatus)
      modifies this, store, host
      ensures savedLinks == WithoutIds(old(savedLinks), [id])
      ensures status != CloseFailed ==> store.savedLinks == savedLinks
      ensures status == CloseFailed ==> store.savedLinks == old(store.savedLinks)
      ensures store.profileName == old(store.profileName)
      ensures host.moves == old(host.moves) && host.created == old(host.created)
      ensures status == Closed ==>
        host.closed == if TruthyId(tabId) then old(host.closed) + [tabId.value] else old(host.closed)
      ensures host.closed == old(host.closed) || (TruthyId(tabId) && host.closed == old(host.closed) + [tabId.value])
    {
      var removed := true;
      if TruthyId(tabId) {
        removed := host.RemoveTab(tabId.value);
      }
      if removed {
        savedLinks := WithoutIds(savedLinks, [id]);
        var ok := store.Set(savedLinks, None);
        if ok {
          return Closed;
        }
      }
      // The catch block filters again (a no-op when the try block already did) and writes again.
      WithoutIdsIdempotent(old(savedLinks), [id]);
      savedLinks := WithoutIds(savedLinks, [id]);
      var ok := store.Set(savedLinks, None);
      status := if ok then ListedOnly else CloseFailed;
    }

    /**
     * The delete button: nothing happens without a selection or without
     * the user's confirmation; otherwise the selected records leave the
     * list (which stays filtered even when the write fails).
     */
    method DeleteSelected(selected: seq<string>, confirmed: bool) returns (status: DeleteStatus)
      modifies this, store
      ensures status == NothingSelected <==> selected == []
      ensures status == Declined <==> selected != [] && !confirmed
      ensures status in {NothingSelected, Declined} ==>
        savedLinks == old(savedLinks) && store.savedLinks == old(store.savedLinks)
      ensures status in {Deleted, DeleteFailed} ==> savedLinks == WithoutIds(old(savedLinks), selected)
      ensures status == Deleted ==> store.savedLinks == savedLinks
      ensures status != Deleted ==> store.savedLinks == old(store.savedLinks)
      ensures store.profileName == old(store.profileName)
    {
      if selected == [] {
        return NothingSelected;
      }
      if !confirmed {
        return Declined;
      }
      savedLinks := WithoutIds(savedLinks, selected);
      var ok := store.Set(savedLinks, None);
      status := if ok then Deleted else DeleteFailed;
    }

    /**
     * `handleDrop`: the dragged record's tab is moved to where the target
     * record's tab is; then the dragged record is spliced out of the list
     * and back in at the target's index as it was before the removal, and
     * takes the target tab's window id.
     */
    method HandleDrop(dragged: string, target: string) returns (status: DropStatus)
      modifies this, store, host
      ensures status == SameRow <==> dragged == target
      ensures status == NoTab <==> dragged != target && !(HasTab(old(savedLinks), dragged) && HasTab(old(savedLinks), target))
      ensures status in {SameRow, NoTab, MoveFailed} ==> savedLinks == old(savedLinks) && host.moves == old(host.moves)
      ensures status in {Dropped, DropSaveFailed} ==>
        var from := FindId(old(savedLinks), dragged).value;
        var to := FindId(old(savedLinks), target).value;
        && |host.moves| == |old(host.moves)| + 1
        && var move := host.moves[|old(host.moves)|];
        && move.tabIds == [old(savedLinks)[from].meta.tabId.value]
        && |savedLinks| == |old(savedLinks)|
        && savedLinks[to] == InWindow(old(savedLinks)[from], move.windowId)
        && RemoveAt(savedLinks, to) == RemoveAt(old(savedLinks), from)
      ensures status == Dropped ==> store.savedLinks == savedLinks
      ensures status != Dropped ==> store.savedLinks == old(store.savedLinks)
      ensures store.profileName == old(store.profileName) && host.closed == old(host.closed)
      ensures host.created == old(host.created)
    {
      if dragged == target {
        return SameRow;
      }
      var from := FindId(savedLinks, dragged);
      var to := FindId(savedLinks, target);
      if !(HasTab(savedLinks, dragged) && HasTab(savedLinks, target)) {
        return NoTab;
      }
      var place := host.GetTab(savedLinks[to.value].meta.tabId.value);
      if place.None? {
        return MoveFailed;
      }
      var moved := host.MoveTabs([savedLinks[from.value].meta.tabId.value], place.value.windowId, place.value.index);
      if !moved {
        return MoveFailed;
      }
      var item := savedLinks[from.value];
      var rest := RemoveAt(savedLinks, from.value);
      savedLinks := InsertAt(rest, to.value, InWindow(item, place.value.windowId));
      RemoveInsert(rest, to.value, InWindow(item, place.value.windowId));
      var ok := store.Set(savedLinks, None);
      status := if ok then Dropped else DropSaveFailed;
    }
 
    /** `savedLinks.forEach(link => { if (ids.includes(link.tabId)) link.windowId = w; })` */
    method AssignWindow(ids: seq<int>, w: int)
      modifies this
      ensures |savedLinks| == |old(savedLinks)|
      ensures forall k :: 0 <= k < |savedLinks| ==> savedLinks[k] == Relabel(old(savedLinks)[k], ids, w)
    {
      var k := 0;
      while k < |savedLinks|
        invariant 0 <= k <= |savedLinks| == |old(savedLinks)|
        invariant forall j :: 0 <= j < k ==> savedLinks[j] == Relabel(old(savedLinks)[j], ids, w)
        invariant forall j :: k <= j < |savedLinks| ==> savedLinks[j] == old(savedLinks)[j]
      {
        savedLinks := savedLinks[k := Relabel(savedLinks[k], ids, w)];
        k := k + 1;
      }
    }

    /**
     * `allTabs.map(...)` building the sortable items, writing channels back
     * into `savedLinks` as it goes; `None` when a tab's URL makes the URL
     * constructor throw, with the write-backs made up to that tab kept.
     */
    method BuildSortableItems(tabs: seq<Tab>, live: map<int, string>, parse: UrlParser) returns (items: Option<seq<SortItem>>)
      modifies this
      ensures savedLinks == Enrich(old(savedLinks), tabs, live, parse).links
      ensures items.Some? <==> Enrich(old(savedLinks), tabs, live, parse).Built?
      ensures items.Some? ==> items.value == Enrich(old(savedLinks), tabs, live, parse).items
    {
      var acc := [];
      for i := 0 to |tabs|
        invariant Enrich(old(savedLinks), tabs[..i], live, parse) == Built(acc, savedLinks)
      {
        EnrichNext(old(savedLinks), tabs, i, live, parse);
        var step := EnrichTab(savedLinks, tabs[i], live, parse);
        if step.None? {
          EnrichAbortPersists(old(savedLinks), tabs, i + 1, live, parse);
          return None;
        }
        acc := acc + [step.value.item];
        savedLinks := step.value.links;
      }
      assert tabs[..|tabs|] == tabs;
      items := Some(acc);
    }

    /**
     * One group to a new window: the window is created, the tabs are moved
     * to its end, the blank tab it opened with is closed, and the records
     * of the moved tabs take the window's id. `None` when a call fails,
     * which abandons the rest (the move may already have happened).
     */
    method MoveGroup(ids: seq<int>) returns (w: Option<int>)
      modifies this, host
      ensures w.Some? ==> host.moves == old(host.moves) + [Move(ids, w.value, -1)]
      ensures w.Some? ==> RelabelledBy(old(savedLinks), savedLinks, [ids], [w.value])
      ensures w.None? ==> savedLinks == old(savedLinks)
      ensures w.None? ==> (host.moves == old(host.moves)
        || (|host.moves| == |old(host.moves)| + 1 && host.moves[..|old(host.moves)|] == old(host.moves)
            && host.moves[|old(host.moves)|].tabIds == ids))
      ensures OpenedFor(old(host.created), host.created, old(host.closed), host.closed, if w.Some? then [w.value] else [], w.None?)
    {
      var win := host.CreateWindow();
      if win.None? {
        return None;
      }
      var moved := host.MoveTabs(ids, win.value.id, -1);
      if !moved {
        return None;
      }
      if win.value.autoTab.Some? {
        var removed := host.RemoveTab(win.value.autoTab.value);
        if !removed {
          assert host.moves[..|old(host.moves)|] == old(host.moves);
          return None;
        }
      }
      AssignWindow(ids, win.value.id);
      RelabelledByOne(old(savedLinks), savedLinks, ids, win.value.id);
      w := Some(win.value.id);
    }

    /**
     * The separate mode: each domain's group, in key order, to a window of
     * its own; `wins` are the windows of the groups that completed. The
     * first failure abandons the remaining groups.
     */
    method MoveGroups(items: seq<SortItem>) returns (ok: bool, wins: seq<int>)
      modifies this, host
      ensures var groups := GroupList(FirstOccurrences(Domains(items)), items);
        ok ==> (|wins| == |groups| && MovedAs(old(host.moves), host.moves, groups, wins)
                && RelabelledBy(old(savedLinks), savedLinks, groups, wins))
      ensures var groups := GroupList(FirstOccurrences(Domains(items)), items);
        !ok ==> (StoppedAt(old(host.moves), host.moves, groups, wins)
                 && RelabelledBy(old(savedLinks), savedLinks, groups[..|wins|], wins))
      ensures OpenedFor(old(host.created), host.created, old(host.closed), host.closed, wins, !ok)
      ensures SameButWindows(old(savedLinks), savedLinks)
    {
      var order, groups := GroupByDomain(items);
      ghost var done: seq<seq<int>> := [];
      wins := [];
      OpenedForNone(host.created, host.closed, false);
      for j := 0 to |order|
        invariant |done| == |wins| == j
        invariant done == GroupList(order[..j], items)
        invariant MovedAs(old(host.moves), host.moves, done, wins)
        invariant RelabelledBy(old(savedLinks), savedLinks, done, wins)
        invariant OpenedFor(old(host.created), host.created, old(host.closed), host.closed, wins, false)
      {
        var ids := groups[order[j]];
        GroupListSnoc(order, j, items);
        ghost var before := savedLinks;
        ghost var movesBefore := host.moves;
        ghost var createdBefore, closedBefore := host.created, host.closed;
        var w := MoveGroup(ids);
        if w.None? {
          OpenedForFail(old(host.created), createdBefore, host.created, old(host.closed), closedBefore, host.closed, wins);
          GroupListPrefix(order, j, items);
          RelabelledBySame(old(savedLinks), savedLinks, done, wins);
          return false, wins;
        }
        RelabelledByStep(old(savedLinks), before, savedLinks, done, wins, ids, w.value);
        MovedAsStep(old(host.moves), movesBefore, host.moves, done, wins, ids, w.value);
        OpenedForStep(old(host.created), createdBefore, host.created, old(host.closed), closedBefore, host.closed, wins, w.value);
        done := done + [ids];
        wins := wins + [w.value];
      }
      assert order[..|order|] == order;
      RelabelledBySame(old(savedLinks), savedLinks, done, wins);
      ok := true;
    }
 
    /**
     * The move phase of the consolidation: all sorted tabs to one new
     * window, or each domain's group to a window of its own. `wins` are the
     * windows of the groups that completed; a failure stops the phase.
     */
    method MovePhase(items: seq<SortItem>, single: bool) returns (ok: bool, wins: seq<int>)
      modifies this, host
      ensures ok ==> MovedAs(old(host.moves), host.moves, Groups(single, items), wins)
                     && RelabelledBy(old(savedLinks), savedLinks, Groups(single, items), wins)
      ensures !ok ==> StoppedAt(old(host.moves), host.moves, Groups(single, items), wins)
                      && RelabelledBy(old(savedLinks), savedLinks, Groups(single, items)[..|wins|], wins)
      ensures OpenedFor(old(host.created), host.created, old(host.closed), host.closed, wins, !ok)
    {
      if single {
        var w := MoveGroup(TabIds(items));
        if w.None? {
          assert GroupMoves([], []) == [] && old(host.moves) + [] == old(host.moves);
          return false, [];
        }
        ok, wins := true, [w.value];
        assert MovedAs(old(host.moves), old(host.moves), [], []);
        MovedAsStep(old(host.moves), old(host.moves), host.moves, [], [], TabIds(items), w.value);
      } else {
        ok, wins := MoveGroups(items);
      }
    }

    /**
     * `handleSortTabs`: every tab is enriched (live channel, saved channel,
     * URL heuristic; channels written back into `savedLinks`), the items
     * and `savedLinks` are sorted, the tabs are moved (all to one new
     * window, or each domain's group to its own), and `savedLinks` is
     * written. `allTabs` is what `chrome.tabs.query({})` answered (`None`
     * when it failed), `probe` what the live YouTube probe found per tab.
     * Any failure skips the remaining moves and the write.
     */
    method SortTabs(allTabs: Option<seq<Tab>>, single: bool, coll: Collation, parse: UrlParser, probe: int -> Option<string>)
      returns (status: SortStatus, wins: seq<int>)
      modifies this, store, host
      ensures allTabs.None? ==> status == SortFailed
      ensures status == NoTabs <==> allTabs == Some([])
      ensures allTabs.Some? && allTabs.value != [] && Enrich(old(savedLinks), allTabs.value, LiveChannels(allTabs.value, probe), parse).Aborted? ==>
        && status == SortFailed && host.moves == old(host.moves)
        && host.created == old(host.created) && host.closed == old(host.closed)
        && savedLinks == Enrich(old(savedLinks), allTabs.value, LiveChannels(allTabs.value, probe), parse).links
      ensures status == SortFailed && allTabs.Some? && Enrich(old(savedLinks), allTabs.value, LiveChannels(allTabs.value, probe), parse).Built? ==>
        || SortOutcome(old(savedLinks), allTabs.value, single, coll, parse, probe, old(host.moves), host.moves, savedLinks, wins)
        || SortStopped(old(savedLinks), allTabs.value, single, coll, parse, probe, old(host.moves), host.moves, savedLinks, wins)
      ensures status != Sorted && (allTabs.None? || allTabs == Some([])) ==>
        && savedLinks == old(savedLinks) && host.moves == old(host.moves)
        && host.created == old(host.created) && host.closed == old(host.closed)
      ensures OpenedFor(old(host.created), host.created, old(host.closed), host.closed, wins, status == SortFailed)
      ensures status == Sorted ==> store.savedLinks == savedLinks
      ensures status != Sorted ==> store.savedLinks == old(store.savedLinks)
      ensures store.profileName == old(store.profileName)
      ensures status == Sorted ==>
        allTabs.Some? && SortOutcome(old(savedLinks), allTabs.value, single, coll, parse, probe, old(host.moves), host.moves, savedLinks, wins)
    {
      wins := [];
      if allTabs.None? {
        return SortFailed, wins;
      }
      var tabs := allTabs.value;
      if tabs == [] {
        return NoTabs, wins;
      }
      var live := LiveChannels(tabs, probe);
      var built := BuildSortableItems(tabs, live, parse);
      if built.None? {
        return SortFailed, wins;
      }
      var items := SortBy(built.value, TabOrder(coll));
      savedLinks := SortBy(savedLinks, LinkOrder(coll));
      ghost var movesBefore := host.moves;
      var ok;
      ok, wins := MovePhase(items, single);
      if !ok {
        SortStoppedIntro(old(savedLinks), tabs, single, coll, parse, probe, movesBefore, host.moves, savedLinks, wins, items);
        return SortFailed, wins;
      }
      SortOutcomeIntro(old(savedLinks), tabs, single, coll, parse, probe, movesBefore, host.moves, savedLinks, wins, items);
      var saved := store.Set(savedLinks, None);
      status := if saved then Sorted else SortFailed;
    }
  }
}
