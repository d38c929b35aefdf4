/** The values the extension passes around: live tabs, parsed URLs and link records. */
module Records {
  import opened Wrappers

  /** The checked extraction mode: the radio value `'full'`, or anything else (quick). */
  datatype Mode = Quick | Full

  /**
   * What `new URL(url)` exposes that the extension reads: `hostname`,
   * `pathname` and `searchParams.get('v')`.
   */
  datatype UrlParts = UrlParts(hostname: string, pathname: string, v: Option<string>)

  /** The host's URL parser: `None` when `new URL(url)` throws. */
  type UrlParser = string -> Option<UrlParts>

  /** A live tab as the host reports it; an absent `url`, `title` or `favIconUrl` is `""`. */
  datatype Tab = Tab(id: int, url: string, title: string, favIconUrl: string, windowId: int)

  /** A resolved record before it is admitted into the collection. */
  datatype Metadata = Metadata(
    title: string,
    url: string,
    domain: string,
    thumbnail: Option<string>,
    channel: Option<string>,
    tabId: Option<int>,
    windowId: Option<int>)

  /** A record of the persisted `savedLinks` collection. */
  datatype SavedLink = SavedLink(meta: Metadata, id: string, createdAt: string)

  /** `parseInt` of a checkbox value: a number, or `NaN`. */
  datatype ParsedInt = Num(n: int) | NaN

  /** JavaScript truthiness of an optional string: present and non-empty. */
  predicate Truthy(s: Option<string>) {
    s.Some? && s.value != ""
  }

  /** JavaScript truthiness of an optional number: present and non-zero. */
  predicate TruthyId(t: Option<int>) {
    t.Some? && t.value != 0
  }

  /** The value of `s || ''`. */
  function OrEmpty(s: Option<string>): string {
    if s.Some? then s.value else ""
  }

  const YouTube: string := "youtube.com"

  /** The thumbnail address the extension synthesises for a YouTube video id. */
  function VideoThumbnail(v: string): string {
    "https://i.ytimg.com/vi/" + v + "/hqdefault.jpg"
  }
}
