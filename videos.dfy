/**
 * Item descriptors of the source account and how `get_all_tiktok_videos`
 * builds them from the flat listing the extractor reports.
 */
module Videos {
  import opened Wrappers

  /** One listing entry as the extractor reports it; every key may be missing. */
  datatype Entry = Entry(id: Option<string>, title: Option<string>,
                         url: Option<string>, webpageUrl: Option<string>)

  /**
   * An item descriptor. Descriptors built by `ListVideos` carry no
   * description; the pass still reads one if present.
   */
  datatype Video = Video(id: string, title: string, url: string, description: Option<string>)

  const UnknownId := "unknown"
  const DefaultTitle := "TikTok Video"
  const SiteRoot := "https://www.tiktok.com/@"

  /** Python truthiness of an optional string: present and not empty. */
  predicate Truthy(s: Option<string>) {
    s.Some? && s.value != ""
  }

  /** How an f-string renders an optional string: `None` when it is missing. */
  function Render(s: Option<string>): string {
    if s.Some? then s.value else "None"
  }

  /** The page of one video, built from the account name and the raw entry id. */
  function VideoPage(username: string, id: Option<string>): (page: string)
    ensures SiteRoot <= page
    ensures |page| == |SiteRoot| + |username| + |"/video/"| + |Render(id)|
    ensures page[|SiteRoot|..|SiteRoot| + |username|] == username
    ensures page[|SiteRoot| + |username|..] == "/video/" + Render(id)
  {
    SiteRoot + username + "/video/" + Render(id)
  }

  /**
   * The descriptor of one entry: missing id and title take their defaults,
   * and the locator is the first truthy of `url`, `webpage_url`, and the
   * video page (whose id part renders a missing id as `None`, not `unknown`).
   */
  function Describe(username: string, e: Entry): (v: Video)
    ensures v.id == e.id.GetOr(UnknownId)
    ensures v.title == e.title.GetOr(DefaultTitle)
    ensures Truthy(e.url) ==> v.url == e.url.value
    ensures !Truthy(e.url) && Truthy(e.webpageUrl) ==> v.url == e.webpageUrl.value
    ensures !Truthy(e.url) && !Truthy(e.webpageUrl) ==> v.url == VideoPage(username, e.id)
    ensures v.url != ""
    ensures v.description == None
  {
    var url :=
      if Truthy(e.url) then e.url.value
      else if Truthy(e.webpageUrl) then e.webpageUrl.value
      else VideoPage(username, e.id);
    Video(e.id.GetOr(UnknownId), e.title.GetOr(DefaultTitle), url, None)
  }

  /** The descriptors of the entries, in the order the entries come. */
  function DescribeAll(username: string, entries: seq<Entry>): (vs: seq<Video>)
    ensures |vs| == |entries|
    ensures forall i :: 0 <= i < |entries| ==> vs[i] == Describe(username, entries[i])
  {
    if entries == [] then []
    else [Describe(username, entries[0])] + DescribeAll(username, entries[1..])
  }

  function Reverse<T>(s: seq<T>): (r: seq<T>)
    ensures |r| == |s|
    ensures forall k :: 0 <= k < |s| ==> r[k] == s[|s| - 1 - k]
  {
    if s == [] then [] else Reverse(s[1..]) + [s[0]]
  }

  /**
   * `get_all_tiktok_videos`: `listing` is None when the extractor raised or
   * reported no `entries`, and then the list is empty; otherwise the
   * descriptors come oldest first, the reverse of the newest-first listing.
   */
  function ListVideos(username: string, listing: Option<seq<Entry>>): (vs: seq<Video>)
    ensures listing.None? ==> vs == []
    ensures listing.Some? ==> |vs| == |listing.value|
    ensures listing.Some? ==>
      forall i :: 0 <= i < |vs| ==> vs[i] == Describe(username, listing.value[|vs| - 1 - i])
  {
    if listing.None? then [] else Reverse(DescribeAll(username, listing.value))
  }
}
