/**
 * Sort keys of the list page (src/list/list.js): the URL heuristic for a
 * YouTube channel, and the two comparators of `handleSortTabs` — one over
 * live tabs, one over the stored records.
 */
module SortKeys {
  import opened Wrappers
  import opened JsString
  import opened Sorting
  import opened Records

  /* ---------- extractYouTubeChannel ---------- */

  /** The maximal run of non-'/' characters of `p` from index `k` (what `[^\/]+` captures there). */
  function Segment(p: string, k: nat): (r: string)
    requires k <= |p|
    ensures '/' !in r && k + |r| <= |p| && p[k..k + |r|] == r
    ensures k + |r| == |p| || p[k + |r|] == '/'
  {
    var n := RunWithout(p[k..], '/');
    assert p[k..k + n] == p[k..][..n];
    p[k..k + n]
  }

  /** The path matches `^\/(@[^\/]+)`. */
  predicate HasHandle(p: string) {
    StartsWith(p, "/@") && |p| > 2 && p[2] != '/'
  }

  /** The path matches `^\/channel\/([^\/]+)`. */
  predicate HasChannelId(p: string) {
    StartsWith(p, "/channel/") && |p| > 9 && p[9] != '/'
  }

  /** The first two non-empty path segments, when the first is `c`, `user` or `v`. */
  function LegacyPathName(p: string): (r: Option<string>)
    ensures r.Some? ==> '/' !in r.value
  {
    var parts := NonEmpty(Split(p, '/'));
    if |parts| > 0 && parts[0] in ["c", "user", "v"] then
      Some(if |parts| > 1 then parts[1] else "")
    else None
  }

  /**
   * The channel the list page guesses from a URL alone: `""` unless the
   * URL parses and its host names YouTube; then the "@handle" segment, a
   * shortened "/channel/" id, or the name after `c`, `user` or `v`.
   */
  function ExtractYouTubeChannel(url: string, parse: UrlParser): (r: string)
    ensures parse(url).None? || !Includes(parse(url).value.hostname, YouTube) ==> r == ""
    ensures parse(url).Some? && Includes(parse(url).value.hostname, YouTube) ==>
      var p := parse(url).value.pathname;
      && (HasHandle(p) ==> r == Segment(p, 1) && |r| >= 2 && r[0] == '@')
      && (!HasHandle(p) && HasChannelId(p) ==> r == "ID:" + Take(Segment(p, 9), 8) + "...")
      && (!HasHandle(p) && !HasChannelId(p) ==> r == OrEmpty(LegacyPathName(p)))
    ensures '/' !in r
  {
    match parse(url)
    case None => ""
    case Some(u) =>
      if !Includes(u.hostname, YouTube) then ""
      else
        var p := u.pathname;
        if HasHandle(p) then
          var s := Segment(p, 1);
          assert s[0] == p[1];
          assert |s| >= 2 by {
            assert p[1..][..2] == p[1..3];
          }
          s
        else if HasChannelId(p) then
          var r := "ID:" + Take(Segment(p, 9), 8) + "...";
          assert r[3..] == Take(Segment(p, 9), 8) + "...";
          r
        else OrEmpty(LegacyPathName(p))
  }

  /* ---------- Comparator keys ---------- */

  /** `localeCompare`: the user's collation, a parameter of the model. */
  type Collation = Comparator<string>

  /** A collation that is a total preorder and ties only equal strings. */
  ghost predicate IsStrictCollation(coll: Collation) {
    IsTotalPreorder(coll) && forall x, y :: coll(x, y) == EQ ==> x == y
  }

  /** The YouTube key: "(channel) title", or the bare title when the channel is empty or "YouTube". */
  function DisplayKey(channel: string, title: string): (k: string)
    ensures channel == "" || channel == "YouTube" ==> k == title
    ensures channel != "" && channel != "YouTube" ==>
      && |k| == |channel| + |title| + 3
      && k[..1] == "(" && k[1..|channel| + 1] == channel
      && k[|channel| + 1..|channel| + 3] == ") " && k[|channel| + 3..] == title
  {
    if channel != "" && channel != "YouTube" then "(" + channel + ") " + title else title
  }

  /** Compare by a string key; fall back to `tie` when the keys are equal (`x !== y ? x.localeCompare(y) : ...`). */
  function ThenBy(coll: Collation, x: string, y: string, tie: Ordering): Ordering {
    if x != y then coll(x, y) else tie
  }

  lemma {:induction false} ThenByFlip(coll: Collation, x: string, y: string, o: Ordering, o': Ordering)
    requires IsTotalPreorder(coll) && (x == y ==> o == Flip(o'))
    ensures ThenBy(coll, x, y, o) == Flip(ThenBy(coll, y, x, o'))
  {
  }

  lemma {:induction false} StrictLess(coll: Collation, x: string, y: string)
    requires IsStrictCollation(coll) && x != y && coll(x, y) != GT
    ensures coll(x, y) == LT
  {
  }

  /** Key-then-tie comparison is transitive when the tie comparison is transitive on equal keys. */
  lemma {:induction false} ThenByTransitive(coll: Collation, x: string, y: string, z: string,
                                            oxy: Ordering, oyz: Ordering, oxz: Ordering)
    requires IsStrictCollation(coll)
    requires x == y == z && oxy != GT && oyz != GT ==> oxz != GT
    requires ThenBy(coll, x, y, oxy) != GT && ThenBy(coll, y, z, oyz) != GT
    ensures ThenBy(coll, x, z, oxz) != GT
  {
    if x != y && y != z {
      StrictLess(coll, x, y);
      StrictLess(coll, y, z);
      LessThenNotGreater(coll, x, y, z);
    }
  }

  /* ---------- Live tabs (the first comparator) ---------- */

  /** A live tab enriched for sorting. */
  datatype SortItem = SortItem(tabId: int, url: string, domain: string, channel: string, title: string, windowId: int)

  /** Domain first; on YouTube domains the display key; elsewhere channel, then title. */
  function CompareTabs(a: SortItem, b: SortItem, coll: Collation): Ordering {
    if a.domain != b.domain then coll(a.domain, b.domain)
    else if Includes(a.domain, YouTube) then coll(DisplayKey(a.channel, a.title), DisplayKey(b.channel, b.title))
    else if a.channel != b.channel then coll(a.channel, b.channel)
    else coll(a.title, b.title)
  }

  function TabOrder(coll: Collation): Comparator<SortItem> {
    (a: SortItem, b: SortItem) => CompareTabs(a, b, coll)
  }

  /** What the comparator does once the domains are equal. */
  function TabTie(a: SortItem, b: SortItem, coll: Collation): Ordering {
    if Includes(a.domain, YouTube) then coll(DisplayKey(a.channel, a.title), DisplayKey(b.channel, b.title))
    else ThenBy(coll, a.channel, b.channel, coll(a.title, b.title))
  }

  lemma {:induction false} CompareTabsShape(a: SortItem, b: SortItem, coll: Collation)
    ensures CompareTabs(a, b, coll) == ThenBy(coll, a.domain, b.domain, TabTie(a, b, coll))
  {
  }

  lemma {:induction false} TabTieTransitive(a: SortItem, b: SortItem, c: SortItem, coll: Collation)
    requires IsStrictCollation(coll) && a.domain == b.domain == c.domain
    requires TabTie(a, b, coll) != GT && TabTie(b, c, coll) != GT
    ensures TabTie(a, c, coll) != GT
  {
    if !Includes(a.domain, YouTube) {
      ThenByTransitive(coll, a.channel, b.channel, c.channel,
        coll(a.title, b.title), coll(b.title, c.title), coll(a.title, c.title));
    }
  }

  /** Under a strict collation the tab comparator is consistent, so the stable sort is well defined. */
  lemma {:induction false} TabOrderIsTotalPreorder(coll: Collation)
    requires IsStrictCollation(coll)
    ensures IsTotalPreorder(TabOrder(coll))
  {
    var cmp := TabOrder(coll);
    forall a, b
      ensures cmp(a, b) == Flip(cmp(b, a))
    {
      CompareTabsShape(a, b, coll);
      CompareTabsShape(b, a, coll);
      ThenByFlip(coll, a.domain, b.domain, TabTie(a, b, coll), TabTie(b, a, coll));
    }
    forall a, b, c | cmp(a, b) != GT && cmp(b, c) != GT
      ensures cmp(a, c) != GT
    {
      CompareTabsShape(a, b, coll);
      CompareTabsShape(b, c, coll);
      CompareTabsShape(a, c, coll);
      if a.domain == b.domain == c.domain {
        TabTieTransitive(a, b, c, coll);
      }
      ThenByTransitive(coll, a.domain, b.domain, c.domain,
        TabTie(a, b, coll), TabTie(b, c, coll), TabTie(a, c, coll));
    }
  }

  /* ---------- Stored records (the second comparator) ---------- */

  /** `(domain || '').replace('www.', '')` */
  function NormDomain(l: SavedLink): string {
    ReplaceFirst(l.meta.domain, "www.", "")
  }

  /**
   * Domain first; equal domains that are exactly "youtube.com" by the display
   * key; any other equal domains are a tie (the comparator returns nothing,
   * which the sort reads as 0).
   */
  function CompareSavedLinks(a: SavedLink, b: SavedLink, coll: Collation): Ordering {
    var domA := NormDomain(a);
    var domB := NormDomain(b);
    if domA != domB then coll(domA, domB)
    else if domA == YouTube then
      coll(DisplayKey(OrEmpty(a.meta.channel), a.meta.title), DisplayKey(OrEmpty(b.meta.channel), b.meta.title))
    else EQ
  }

  function LinkOrder(coll: Collation): Comparator<SavedLink> {
    (a: SavedLink, b: SavedLink) => CompareSavedLinks(a, b, coll)
  }

  function LinkTie(a: SavedLink, b: SavedLink, coll: Collation): Ordering {
    if NormDomain(a) == YouTube then
      coll(DisplayKey(OrEmpty(a.meta.channel), a.meta.title), DisplayKey(OrEmpty(b.meta.channel), b.meta.title))
    else EQ
  }

  lemma {:induction false} CompareSavedLinksShape(a: SavedLink, b: SavedLink, coll: Collation)
    ensures CompareSavedLinks(a, b, coll) == ThenBy(coll, NormDomain(a), NormDomain(b), LinkTie(a, b, coll))
  {
  }

  /** Under a strict collation the record comparator is consistent too. */
  lemma {:induction false} LinkOrderIsTotalPreorder(coll: Collation)
    requires IsStrictCollation(coll)
    ensures IsTotalPreorder(LinkOrder(coll))
  {
    var cmp := LinkOrder(coll);
    forall a, b
      ensures cmp(a, b) == Flip(cmp(b, a))
    {
      CompareSavedLinksShape(a, b, coll);
      CompareSavedLinksShape(b, a, coll);
      ThenByFlip(coll, NormDomain(a), NormDomain(b), LinkTie(a, b, coll), LinkTie(b, a, coll));
    }
    forall a, b, c | cmp(a, b) != GT && cmp(b, c) != GT
      ensures cmp(a, c) != GT
    {
      CompareSavedLinksShape(a, b, coll);
      CompareSavedLinksShape(b, c, coll);
      CompareSavedLinksShape(a, c, coll);
      ThenByTransitive(coll, NormDomain(a), NormDomain(b), NormDomain(c),
        LinkTie(a, b, coll), LinkTie(b, c, coll), LinkTie(a, c, coll));
    }
  }

  /**
   * Records of one domain other than "youtube.com" all tie, so the stable
   * sort keeps them in the order they had: the records tied with `pivot`
   * appear in the sorted list in their original relative order.
   */
  lemma {:induction false} SameDomainKeepsOrder(links: seq<SavedLink>, pivot: SavedLink, coll: Collation)
    requires IsStrictCollation(coll) && NormDomain(pivot) != YouTube
    ensures Ties(SortBy(links, LinkOrder(coll)), pivot, LinkOrder(coll)) == Ties(links, pivot, LinkOrder(coll))
    ensures forall l :: NormDomain(l) == NormDomain(pivot) ==> LinkOrder(coll)(l, pivot) == EQ
  {
    LinkOrderIsTotalPreorder(coll);
    SortByStable(links, pivot, LinkOrder(coll));
  }

  /* ---------- Why the collation must be strict ---------- */

  /** Compares strings by length only: a total preorder that ties different strings. */
  function ByLength(x: string, y: string): Ordering {
    if |x| < |y| then LT else if |x| > |y| then GT else EQ
  }

  /**
   * With a collation that ties different domains, the tab comparator is not
   * transitive: a ≤ b and b ≤ c (different, equally long domains) but a > c
   * (same domain, longer channel).
   */
  lemma LengthCollationBreaksTabOrder()
    ensures IsTotalPreorder(ByLength)
    ensures var a := SortItem(1, "", "a.com", "zzz", "", 0);
      var b := SortItem(2, "", "b.com", "", "", 0);
      var c := SortItem(3, "", "a.com", "x", "", 0);
      CompareTabs(a, b, ByLength) == EQ && CompareTabs(b, c, ByLength) == EQ && CompareTabs(a, c, ByLength) == GT
  {
    var a := SortItem(1, "", "a.com", "zzz", "", 0);
    assert !Includes("a.com", YouTube) by {
      assert forall k :: !OccursAt("a.com", YouTube, k);
    }
  }

  /* ---------- Scenarios ---------- */

  /** Tabs of different domains are ordered by domain alone, whatever their titles. */
  lemma {:induction false} DomainFirstScenario(coll: Collation)
    requires IsTotalPreorder(coll) && coll("a.com", "b.com") == LT
    ensures var a := SortItem(1, "https://a.com", "a.com", "", "Z", 0);
      var b := SortItem(2, "https://b.com", "b.com", "", "A", 0);
      SortBy([b, a], TabOrder(coll)) == [a, b] && SortBy([a, b], TabOrder(coll)) == [a, b]
  {
    var a := SortItem(1, "https://a.com", "a.com", "", "Z", 0);
    var b := SortItem(2, "https://b.com", "b.com", "", "A", 0);
    assert a.domain != b.domain by {
      assert a.domain[0] != b.domain[0];
    }
    assert coll(b.domain, a.domain) == Flip(coll(a.domain, b.domain));
    assert TabOrder(coll)(b, a) == GT && TabOrder(coll)(a, b) == LT;
    SortPair(b, a, TabOrder(coll));
    SortPair(a, b, TabOrder(coll));
  }

  /** Two videos on youtube.com sort by "(channel) title": "(Alpha) Y" before "(Bravo) X". */
  lemma {:induction false} ChannelKeyScenario(coll: Collation)
    requires IsTotalPreorder(coll) && coll("(Alpha) Y", "(Bravo) X") == LT
    ensures var x := SortItem(1, "", "youtube.com", "Bravo", "X", 0);
      var y := SortItem(2, "", "youtube.com", "Alpha", "Y", 0);
      SortBy([x, y], TabOrder(coll)) == [y, x]
  {
    var x := SortItem(1, "", "youtube.com", "Bravo", "X", 0);
    var y := SortItem(2, "", "youtube.com", "Alpha", "Y", 0);
    assert CompareTabs(x, y, coll) == GT by {
      StartsWithIncludes("youtube.com", YouTube);
      ScenarioKeys();
      assert coll("(Bravo) X", "(Alpha) Y") == Flip(coll("(Alpha) Y", "(Bravo) X"));
    }
    SortPair(x, y, TabOrder(coll));
  }

  lemma ScenarioKeys()
    ensures DisplayKey("Bravo", "X") == "(Bravo) X" && DisplayKey("Alpha", "Y") == "(Alpha) Y"
    ensures "(Bravo) X" != "(Alpha) Y"
  {
    assert "(Bravo) X"[1] != "(Alpha) Y"[1];
  }
}
