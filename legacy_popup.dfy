/**
 * The older popup (popup.js at the repository root): tab ids instead of tab
 * objects, a sequential extraction loop, and records without a channel or
 * tab identifiers.
 */
module LegacyPopup {
  import opened Wrappers
  import opened JsString
  import opened Records
  import opened Store
  import Resolver
  import Merge
  import Seqs

  /** The ids to extract from: the active tab's id, or the parsed checkbox values in document order. */
  function GetTargetTabIds(scope: Resolver.Scope, active: Option<Tab>, checked: seq<ParsedInt>): (r: seq<ParsedInt>)
    ensures scope == Resolver.Current ==> |r| <= 1 && (r == [] <==> active.None?)
    ensures scope == Resolver.Current && active.Some? ==> r == [Num(active.value.id)]
    ensures scope == Resolver.Selected ==> r == checked
  {
    match scope
    case Current => if active.Some? then [Num(active.value.id)] else []
    case Selected => checked
  }

  /** The record this version's probe returns: the raw hostname as domain, and no channel. */
  function ExtractMetadata(page: Resolver.Page, mode: Mode): (m: Metadata)
    ensures m.url == page.href && m.title == page.title && m.domain == page.hostname
    ensures m.thumbnail.None? <==> mode == Quick
    ensures mode == Full && Includes(page.hostname, YouTube) && Truthy(page.v) ==>
      m.thumbnail == Some(VideoThumbnail(page.v.value))
    ensures mode == Full && !(Includes(page.hostname, YouTube) && Truthy(page.v)) ==>
      m.thumbnail == Some(page.imageMeta)
    ensures m.channel.None? && m.tabId.None? && m.windowId.None?
  {
    var thumbnail :=
      if mode == Quick then None
      else if Includes(page.hostname, YouTube) && Truthy(page.v) then Some(VideoThumbnail(page.v.value))
      else Some(page.imageMeta);
    Metadata(page.title, page.href, page.hostname, thumbnail, None, None, None)
  }

  /** The two probes agree on everything but the domain's "www." prefix and the channel. */
  lemma {:induction false} ProbesAgreeButDomain(page: Resolver.Page, mode: Mode)
    ensures Resolver.ExtractMetadata(page, mode).(domain := page.hostname, channel := None)
         == ExtractMetadata(page, mode)
    ensures !Includes(page.hostname, "www.") && !Includes(page.hostname, YouTube) ==>
      Resolver.ExtractMetadata(page, mode) == ExtractMetadata(page, mode)
  {
  }

  /** What one loop iteration contributes: nothing for `NaN`, the probe's record when it ran. */
  function Contribution(id: ParsedInt, mode: Mode, probe: int -> Resolver.Probe): (r: seq<Metadata>)
    ensures |r| <= 1
    ensures r != [] <==> id.Num? && probe(id.n).Ran?
  {
    if id.NaN? then []
    else
      match probe(id.n)
      case Ran(page) => [ExtractMetadata(page, mode)]
      case NoResult => []
      case Threw => []
  }

  /** The results the loop has pushed after visiting `ids`. */
  function Collected(ids: seq<ParsedInt>, mode: Mode, probe: int -> Resolver.Probe): (r: seq<Metadata>)
    ensures |r| <= |ids|
  {
    if ids == [] then []
    else Collected(ids[..|ids| - 1], mode, probe) + Contribution(ids[|ids| - 1], mode, probe)
  }

  /** The loop's results are the tabs' contributions concatenated in id order. */
  lemma {:induction false} CollectedAppend(a: seq<ParsedInt>, b: seq<ParsedInt>, mode: Mode, probe: int -> Resolver.Probe)
    ensures Collected(a + b, mode, probe) == Collected(a, mode, probe) + Collected(b, mode, probe)
    decreases |b|
  {
    if b == [] {
      assert a + b == a;
    } else {
      var b' := b[..|b| - 1];
      var c := Contribution(b[|b| - 1], mode, probe);
      Seqs.AppendInit(a, b);
      CollectedAppend(a, b', mode, probe);
      assert Collected(a + b, mode, probe) == Collected(a + b', mode, probe) + c;
      assert Collected(b, mode, probe) == Collected(b', mode, probe) + c;
    }
  }

  /** A `NaN` id, and a tab whose probe threw or returned nothing, are skipped without affecting the others. */
  lemma {:induction false} SkippedTabs(a: seq<ParsedInt>, id: ParsedInt, b: seq<ParsedInt>, mode: Mode, probe: int -> Resolver.Probe)
    requires id.NaN? || !probe(id.n).Ran?
    ensures Collected(a + [id] + b, mode, probe) == Collected(a + b, mode, probe)
  {
    var one := [id];
    assert one[..|one| - 1] == [];
    assert Collected(one, mode, probe) == [];
    CollectedAppend(a, one, mode, probe);
    var left := Collected(a + one, mode, probe);
    assert left == Collected(a, mode, probe);
    CollectedAppend(a + one, b, mode, probe);
    CollectedAppend(a, b, mode, probe);
  }

  /** Every result comes from a probe that ran on one of the ids. */
  lemma {:induction false} CollectedFromProbes(ids: seq<ParsedInt>, mode: Mode, probe: int -> Resolver.Probe, k: nat)
    requires k < |Collected(ids, mode, probe)|
    ensures exists i :: 0 <= i < |ids| && ids[i].Num? && probe(ids[i].n).Ran?
                        && Collected(ids, mode, probe)[k] == ExtractMetadata(probe(ids[i].n).page, mode)
    decreases |ids|
  {
    var init := ids[..|ids| - 1];
    if k < |Collected(init, mode, probe)| {
      CollectedFromProbes(init, mode, probe, k);
      var i :| 0 <= i < |init| && init[i].Num? && probe(init[i].n).Ran?
        && Collected(init, mode, probe)[k] == ExtractMetadata(probe(init[i].n).page, mode);
      assert ids[i] == init[i];
    } else {
      var i := |ids| - 1;
      assert Collected(ids, mode, probe)[k] == Contribution(ids[i], mode, probe)[0];
    }
  }

  /** `performExtraction`: `None` when no id is targeted; otherwise the loop's results. */
  method PerformExtraction(ids: seq<ParsedInt>, mode: Mode, probe: int -> Resolver.Probe)
    returns (results: Option<seq<Metadata>>)
    ensures results.None? <==> ids == []
    ensures results.Some? ==> results.value == Collected(ids, mode, probe)
  {
    if |ids| == 0 {
      return None;
    }
    var acc: seq<Metadata> := [];
    for i := 0 to |ids|
      invariant acc == Collected(ids[..i], mode, probe)
    {
      assert ids[..i + 1][..i] == ids[..i];
      var id := ids[i];
      if id.NaN? {
        continue;
      }
      var outcome := probe(id.n);
      if outcome.Ran? {
        acc := acc + [ExtractMetadata(outcome.page, mode)];
      }
    }
    assert ids[..|ids|] == ids;
    results := Some(acc);
  }

  /** `saveLinksToStorage`: the same merge, without a profile name. */
  method SaveLinksToStorage(store: Storage, newLinks: seq<Metadata>, overwrite: bool, clock: Merge.Clock)
    returns (status: Merge.SaveStatus)
    modifies store
    ensures status == Merge.Saved ==>
      Merge.MergeLinks(old(store.savedLinks), newLinks, overwrite, clock) == Some(store.savedLinks)
    ensures status == Merge.NothingNew ==>
      !overwrite && Merge.MergeLinks(old(store.savedLinks), newLinks, overwrite, clock).None?
    ensures status == Merge.ReadFailed ==> !overwrite
    ensures store.profileName == old(store.profileName)
    ensures status != Merge.Saved ==> store.savedLinks == old(store.savedLinks)
  {
    var existing: seq<SavedLink> := [];
    if !overwrite {
      var read := store.Get();
      if read.None? {
        return Merge.ReadFailed;
      }
      existing := read.value;
    }
    var merged := Merge.MergeLinks(existing, newLinks, overwrite, clock);
    if merged.None? {
      return Merge.NothingNew;
    }
    var ok := store.Set(merged.value, None);
    status := if ok then Merge.Saved else Merge.WriteFailed;
  }
}
