/**
 * The extension's persistent store (`chrome.storage.local`), as far as the
 * core uses it: the `savedLinks` collection and the `profileName` entry.
 * Every call may fail; a failed write changes nothing.
 */
module Store {
  import opened Wrappers
  import opened Records

  class Storage {
    var savedLinks: seq<SavedLink>
    var profileName: Option<string>

    /** An empty store: a missing `savedLinks` key reads as `[]`. */
    constructor Empty()
      ensures savedLinks == [] && profileName.None?
    {
      savedLinks := [];
      profileName := None;
    }

    /** `chrome.storage.local.get('savedLinks')`: the stored list, or `None` when the call fails. */
    method Get() returns (r: Option<seq<SavedLink>>)
      ensures r.Some? ==> r.value == savedLinks
    {
      var failed: bool :| true;
      r := if failed then None else Some(savedLinks);
    }

    /**
     * `chrome.storage.local.set(...)`: on success the list is replaced (and
     * the profile name, when one is passed); on failure nothing changes.
     */
    method Set(links: seq<SavedLink>, profile: Option<string>) returns (ok: bool)
      modifies this
      ensures ok ==> savedLinks == links
      ensures ok ==> profileName == if profile.Some? then profile else old(profileName)
      ensures !ok ==> savedLinks == old(savedLinks) && profileName == old(profileName)
    {
      ok :| true;
      if ok {
        savedLinks := links;
        if profile.Some? {
          profileName := profile;
        }
      }
    }
  }
}
