/**
 * `saveLinksToStorage` (src/popup/popup.js and the older popup.js): stamp
 * the extracted records and either replace the stored collection or append
 * the records whose URL is not stored yet.
 */
module Merge {
  import opened Wrappers
  import opened Seqs
  import opened Records
  import opened Store

  /** The `id` and `createdAt` given to one record (`Date.now()` plus a random suffix, and the ISO time). */
  datatype Stamp = Stamp(id: string, createdAt: string)

  /** The host's clock and random source, queried once per stamped record. */
  type Clock = nat -> Stamp

  /** The records inside a stored collection. */
  function Metas(links: seq<SavedLink>): (r: seq<Metadata>)
    ensures |r| == |links| && forall k :: 0 <= k < |r| ==> r[k] == links[k].meta
  {
    if links == [] then [] else [links[0].meta] + Metas(links[1..])
  }

  /** The URLs already stored: `new Set(savedLinks.map(l => l.url))`. */
  function UrlSet(links: seq<SavedLink>): set<string> {
    set l | l in links :: l.meta.url
  }

  /** `links.map(l => ({...l, id, createdAt}))`, the k-th record taking the clock's k-th reading after `from`. */
  function Stamped(links: seq<Metadata>, clock: Clock, from: nat): (r: seq<SavedLink>)
    ensures |r| == |links| && Metas(r) == links
    ensures forall k :: 0 <= k < |r| ==> r[k] == SavedLink(links[k], clock(from + k).id, clock(from + k).createdAt)
  {
    if links == [] then []
    else [SavedLink(links[0], clock(from).id, clock(from).createdAt)] + Stamped(links[1..], clock, from + 1)
  }

  /** The incoming records whose URL is not stored yet, in order (duplicates among them are all kept). */
  function NovelLinks(existing: seq<SavedLink>, incoming: seq<Metadata>): seq<Metadata> {
    var urls := UrlSet(existing);
    Filter(incoming, (m: Metadata) => m.url !in urls)
  }

  /**
   * The collection to write, or `None` when appending finds nothing new (the
   * function returns before writing).
   */
  function MergeLinks(existing: seq<SavedLink>, incoming: seq<Metadata>, overwrite: bool, clock: Clock): (r: Option<seq<SavedLink>>)
    ensures overwrite ==> r.Some? && Metas(r.value) == incoming
    ensures !overwrite ==> (r.None? <==> forall k :: 0 <= k < |incoming| ==> incoming[k].url in UrlSet(existing))
    ensures !overwrite && r.Some? ==>
      |existing| <= |r.value| && r.value[..|existing|] == existing
      && Metas(r.value[|existing|..]) == NovelLinks(existing, incoming)
  {
    if overwrite then Some(Stamped(incoming, clock, 0))
    else
      var novel := NovelLinks(existing, incoming);
      if novel == [] then
        None
      else
        var r := existing + Stamped(novel, clock, 0);
        assert r[|existing|..] == Stamped(novel, clock, 0);
        Some(r)
  }

  /** Every incoming URL is stored after an append that wrote something. */
  lemma {:induction false} AppendStoresEveryUrl(existing: seq<SavedLink>, incoming: seq<Metadata>, clock: Clock)
    requires MergeLinks(existing, incoming, false, clock).Some?
    ensures var r := MergeLinks(existing, incoming, false, clock).value;
      UrlSet(existing) <= UrlSet(r)
      && forall k :: 0 <= k < |incoming| ==> incoming[k].url in UrlSet(r)
  {
    var r := MergeLinks(existing, incoming, false, clock).value;
    var tail := r[|existing|..];
    forall l | l in existing
      ensures l.meta.url in UrlSet(r)
    {
      var i :| 0 <= i < |existing| && existing[i] == l;
      assert r[i] == l;
    }
    forall k | 0 <= k < |incoming|
      ensures incoming[k].url in UrlSet(r)
    {
      if incoming[k].url !in UrlSet(existing) {
        var novel := NovelLinks(existing, incoming);
        assert incoming[k] in novel;
        var j :| 0 <= j < |novel| && novel[j] == incoming[k];
        assert Metas(tail)[j] == tail[j].meta;
        assert r[|existing| + j] == tail[j];
      }
    }
  }

  /** Appending the same records a second time writes nothing. */
  lemma {:induction false} AppendIdempotent(existing: seq<SavedLink>, incoming: seq<Metadata>, clock: Clock, clock2: Clock)
    requires MergeLinks(existing, incoming, false, clock).Some?
    ensures MergeLinks(MergeLinks(existing, incoming, false, clock).value, incoming, false, clock2).None?
  {
    AppendStoresEveryUrl(existing, incoming, clock);
  }

  /** Records whose URL is already stored are dropped; the others are appended as often as they come. */
  lemma {:induction false} AppendMultiplicity(existing: seq<SavedLink>, incoming: seq<Metadata>, clock: Clock, m: Metadata)
    requires MergeLinks(existing, incoming, false, clock).Some?
    ensures var tail := MergeLinks(existing, incoming, false, clock).value[|existing|..];
      multiset(Metas(tail))[m] == if m.url in UrlSet(existing) then 0 else multiset(incoming)[m]
  {
    var urls := UrlSet(existing);
    FilterMultiset(incoming, (x: Metadata) => x.url !in urls, m);
  }

  /** No two records of the list share a URL. */
  predicate DistinctUrls(ms: seq<Metadata>) {
    forall i, j :: 0 <= i < j < |ms| ==> ms[i].url != ms[j].url
  }

  lemma {:induction false} FilterDistinctUrls(s: seq<Metadata>, keep: Metadata -> bool)
    requires DistinctUrls(s)
    ensures DistinctUrls(Filter(s, keep))
  {
    if s != [] {
      FilterDistinctUrls(s[1..], keep);
      var rest := Filter(s[1..], keep);
      forall k | 0 <= k < |rest|
        ensures rest[k].url != s[0].url
      {
        var j :| 0 <= j < |s[1..]| && s[1..][j] == rest[k];
        assert s[1 + j] == rest[k];
      }
    }
  }

  /** Stored URLs stay unique when both the stored list and the batch have unique URLs. */
  lemma {:induction false} AppendKeepsUrlsUnique(existing: seq<SavedLink>, incoming: seq<Metadata>, clock: Clock)
    requires DistinctUrls(Metas(existing)) && DistinctUrls(incoming)
    requires MergeLinks(existing, incoming, false, clock).Some?
    ensures DistinctUrls(Metas(MergeLinks(existing, incoming, false, clock).value))
  {
    var r := MergeLinks(existing, incoming, false, clock).value;
    var n := |existing|;
    var novel := NovelLinks(existing, incoming);
    var urls := UrlSet(existing);
    FilterDistinctUrls(incoming, (x: Metadata) => x.url !in urls);
    var ms := Metas(r);
    forall i, j | 0 <= i < j < |ms|
      ensures ms[i].url != ms[j].url
    {
      if j < n {
        assert ms[i] == Metas(existing)[i] && ms[j] == Metas(existing)[j];
      } else if i < n {
        assert ms[j] == Metas(r[n..])[j - n] == novel[j - n];
        assert ms[i].url in urls;
      } else {
        assert ms[i] == Metas(r[n..])[i - n] == novel[i - n];
        assert ms[j] == Metas(r[n..])[j - n] == novel[j - n];
      }
    }
  }

  /** Appending a record whose URL is already stored leaves the collection as it is and writes nothing. */
  lemma KnownUrlScenario(clock: Clock)
    ensures var stored := Metadata("", "https://x.com", "x.com", None, None, None, None);
      var existing := [SavedLink(stored, "1", "")];
      var incoming := [Metadata("", "https://x.com", "x.com", None, None, Some(7), Some(1))];
      MergeLinks(existing, incoming, false, clock).None?
  {
    var stored := Metadata("", "https://x.com", "x.com", None, None, None, None);
    assert stored.url in UrlSet([SavedLink(stored, "1", "")]);
  }

  /** The profile name written when the caller passes none ('사용자', "user"). */
  const DefaultProfile: string := "\U{C0AC}\U{C6A9}\U{C790}"

  /** How a save ended. */
  datatype SaveStatus = NothingNew | ReadFailed | WriteFailed | Saved

  /**
   * `saveLinksToStorage(newLinks, overwrite, profileName)`: read the stored
   * list when appending, merge, and write; every failure is swallowed and
   * leaves the store as it was. A successful write also stores the profile
   * name, `DefaultProfile` when the caller omits it (`profile == None`).
   */
  method SaveLinksToStorage(store: Storage, newLinks: seq<Metadata>, overwrite: bool, profile: Option<string>, clock: Clock)
    returns (status: SaveStatus)
    modifies store
    ensures status == Saved ==>
      MergeLinks(old(store.savedLinks), newLinks, overwrite, clock) == Some(store.savedLinks)
      && store.profileName == Some(if profile.Some? then profile.value else DefaultProfile)
    ensures status == NothingNew ==>
      !overwrite && MergeLinks(old(store.savedLinks), newLinks, overwrite, clock).None?
    ensures status == ReadFailed ==> !overwrite
    ensures status != Saved ==> store.savedLinks == old(store.savedLinks) && store.profileName == old(store.profileName)
  {
    var existing: seq<SavedLink> := [];
    if !overwrite {
      var read := store.Get();
      if read.None? {
        return ReadFailed;
      }
      existing := read.value;
    }
    var merged := MergeLinks(existing, newLinks, overwrite, clock);
    if merged.None? {
      return NothingNew;
    }
    var ok := store.Set(merged.value, Some(if profile.Some? then profile.value else DefaultProfile));
    status := if ok then Saved else WriteFailed;
  }
}
