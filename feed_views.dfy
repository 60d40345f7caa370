/** The video feeds: OpenSearch parameters, slicing, thumbnail sizes and
    the per-item RSS fields (localtv/feeds/views.py). The parameters are
    those of the "OpenSearch 1.1 parameters" section of OpenSearch 1.1:
    count, startIndex and startPage. */
module FeedViews {
  import opened Common
  import opened Strings
  import SearchUtils
  import SearchViews
  import VideoModel

  /** LOCALTV_FEED_LENGTH */
  const FeedLength: int := 30
  /** FLASH_ENCLOSURE_STATIC_LENGTH */
  const FlashEnclosureStaticLength: int := 1
  const FlashMimeType := "application/x-shockwave-flash"

  /** THUMBNAIL_SIZES, largest first. */
  const ThumbnailSizes: seq<(int, int)> := [(375, 295), (222, 169), (140, 110), (88, 68)]

  /** _normalize_param: the parameter as an int, or the default when it is
      missing or not an int, or (unless negatives are allowed) negative.
      A None default compares below 0 in Python 2, so it is returned
      as is. */
  function NormalizeParam(raw: Option<string>, default: Option<int>, allowNegative: bool): (r: Option<int>)
    ensures raw.Some? && ParseInt(raw.value).Some? && (allowNegative || ParseInt(raw.value).value >= 0) ==>
              r == ParseInt(raw.value)
    ensures raw.None? || ParseInt(raw.value).None? ==> r == default
    ensures raw.Some? && ParseInt(raw.value).Some? && !allowNegative && ParseInt(raw.value).value < 0 ==> r == default
    ensures !allowNegative && r.Some? && (default.Some? ==> default.value >= 0) ==> r.value >= 0
  {
    var value := if raw.Some? && ParseInt(raw.value).Some? then ParseInt(raw.value) else default;
    if !allowNegative && (value.None? || value.value < 0) then default else value
  }

  /** Every non-negative integer written into a parameter is read back. */
  lemma NormalizeParamRoundTrip(n: nat, default: Option<int>)
    ensures NormalizeParam(Some(ShowInt(n)), default, false) == Some(n)
  {
    ParseShowInt(n);
  }

  function Param(get: map<string, string>, name: string): Option<string> {
    if name in get then Some(get[name]) else None
  }

  /** The opensearch data of a request: start index and items per page. */
  datatype OpenSearchData = OpenSearchData(startIndex: int, itemsPerPage: int)

  /** What _get_opensearch_data computes on its first call: count defaults
      to 30; the start index comes from 'startIndex', else 'start-index';
      when it is 0, it is startPage * count. */
  function OpenSearchSpec(get: map<string, string>): (d: OpenSearchData)
    ensures d.itemsPerPage >= 0 && d.startIndex >= 0
    ensures Param(get, "count").None? ==> d.itemsPerPage == FeedLength
  {
    var count := NonNegativeParam(get, "count", FeedLength);
    var startIndex := NormalizeParam(Param(get, "startIndex"), None, false);
    var startIndex: int := if startIndex.None? then NonNegativeParam(get, "start-index", 0) else startIndex.value;
    if startIndex == 0 then
      var page := NonNegativeParam(get, "startPage", 0);
      MulNat(page, count);
      OpenSearchData(page * count, count)
    else OpenSearchData(startIndex, count)
  }

  lemma MulNat(a: nat, b: nat)
    ensures a * b >= 0
  {
  }

  /** A parameter with a non-negative default. */
  function NonNegativeParam(get: map<string, string>, name: string, default: nat): (n: nat)
    ensures name in get && ParseInt(get[name]).Some? && ParseInt(get[name]).value >= 0 ==>
              n == ParseInt(get[name]).value
    ensures !(name in get && ParseInt(get[name]).Some? && ParseInt(get[name]).value >= 0) ==> n == default
  {
    NormalizeParam(Param(get, name), Some(default), false).value
  }

  /** A nonsense count falls back to 30, and a start index given under
      either name wins over startPage. */
  lemma OpenSearchDefaults(get: map<string, string>)
    ensures "count" in get && ParseInt(get["count"]).None? ==> OpenSearchSpec(get).itemsPerPage == FeedLength
    ensures "count" in get && ParseInt(get["count"]).Some? && ParseInt(get["count"]).value >= 0 ==>
              OpenSearchSpec(get).itemsPerPage == ParseInt(get["count"]).value
    ensures "startIndex" in get && ParseInt(get["startIndex"]).Some? && ParseInt(get["startIndex"]).value > 0 ==>
              OpenSearchSpec(get).startIndex == ParseInt(get["startIndex"]).value
    ensures "startIndex" !in get && "start-index" in get && ParseInt(get["start-index"]).Some? &&
            ParseInt(get["start-index"]).value > 0 ==>
              OpenSearchSpec(get).startIndex == ParseInt(get["start-index"]).value
    ensures Param(get, "startIndex").None? && Param(get, "start-index").None? && "startPage" in get &&
            ParseInt(get["startPage"]).Some? && ParseInt(get["startPage"]).value >= 0 ==>
              OpenSearchSpec(get).startIndex == ParseInt(get["startPage"]).value * OpenSearchSpec(get).itemsPerPage
  {
  }

  /** The `obj` dict a feed builds per request, holding the memoised
      opensearch data and the total it records. */
  class FeedRequest {
    const get: map<string, string>
    var opensearch: Option<OpenSearchData>
    var totalResults: Option<int>

    /** The memoised data is what the request's parameters give. */
    ghost predicate Valid()
      reads this
    {
      opensearch.Some? ==> opensearch.value == OpenSearchSpec(get)
    }

    constructor (get: map<string, string>)
      ensures this.get == get && opensearch.None? && totalResults.None?
      ensures Valid()
    {
      this.get := get;
      opensearch := None;
      totalResults := None;
    }

    /** _get_opensearch_data: computed on the first call and stored; later
        calls return the stored value. */
    method GetOpenSearchData() returns (d: OpenSearchData)
      requires Valid()
      modifies this
      ensures Valid()
      ensures old(opensearch).Some? ==> d == old(opensearch).value
      ensures d == OpenSearchSpec(get)
      ensures opensearch == Some(d) && totalResults == old(totalResults)
    {
      if opensearch.None? {
        opensearch := Some(OpenSearchSpec(get));
      }
      d := opensearch.value;
    }

    /** _opensearch_items: the slice items[start:start+count], after
        recording the unfiltered length as totalresults. */
    method OpenSearchItems(items: SearchUtils.VideoList) returns (r: Result<seq<SearchUtils.Listed>, string>)
      requires Valid()
      modifies this
      ensures Valid() && opensearch == Some(OpenSearchSpec(get))
      ensures totalResults == Some(SearchUtils.Len(items))
      ensures r == OpenSearchPage(items, OpenSearchSpec(get))
    {
      var d := GetOpenSearchData();
      totalResults := Some(SearchUtils.Len(items));
      r := OpenSearchPage(items, d);
    }
  }

  /** items[start:start+count]: never more than `count` videos; from a
      search index, the normalised hits of exactly that slice (or the
      ValueError of an unparsable pk); from a queryset, exactly the rows
      of that slice. */
  function OpenSearchPage(items: SearchUtils.VideoList, d: OpenSearchData): (r: Result<seq<SearchUtils.Listed>, string>)
    requires d.startIndex >= 0 && d.itemsPerPage >= 0
    ensures r.Ok? ==> |r.value| <= d.itemsPerPage
    ensures items.HaystackList? ==>
              var hits := PySlice(items.results, d.startIndex, d.startIndex + d.itemsPerPage);
              if !SearchUtils.PksParse(hits) then r == Err("ValueError")
              else r == Ok(SearchUtils.Normalized(hits, SearchUtils.InBulk(items.videos, hits).value))
    ensures items.DbList? ==>
              var rows := PySlice(items.rows, d.startIndex, d.startIndex + d.itemsPerPage);
              r.Ok? && |r.value| == |rows| && forall i :: 0 <= i < |rows| ==> r.value[i].video == rows[i]
  {
    SearchUtils.GetSlice(items, d.startIndex, d.startIndex + d.itemsPerPage)
  }

  /** The thumbnail sizes _bulk_adjusted_items prepares: all four for a
      JSON feed, the first two otherwise. */
  function SizesFor(isJson: bool): (s: seq<(int, int)>)
    ensures isJson ==> s == ThumbnailSizes
    ensures !isJson ==> s == ThumbnailSizes[..2]
    ensures ThumbnailSizes[1] in s
  {
    if isJson then ThumbnailSizes else ThumbnailSizes[..2]
  }

  /** The adjustment information daguerre returns for one size. */
  datatype AdjustInfo = AdjustInfo(url: string, width: int, height: int)

  /** A feed item: the video and the private `_adjusted` dict the bulk
      adjustment fills in, with the description thumbnail. */
  class FeedItem {
    const video: Video
    var adjusted: map<(int, int), AdjustInfo>
    var descriptionThumbnail: Option<AdjustInfo>

    constructor (video: Video)
      ensures this.video == video && adjusted == map[] && descriptionThumbnail.None?
    {
      this.video := video;
      adjusted := map[];
      descriptionThumbnail := None;
    }
  }

  /** The entries the adjustment adds for `sizes`. */
  function Adjustments(v: Video, sizes: seq<(int, int)>, info: (Video, (int, int)) -> AdjustInfo)
    : (m: map<(int, int), AdjustInfo>)
    ensures m.Keys == set s | s in sizes
    ensures forall s :: s in m ==> m[s] == info(v, s)
  {
    map s | s in sizes :: info(v, s)
  }

  /** One pass of _bulk_adjusted_items' loop: every item records the
      adjustment for `size` in its `_adjusted` dict. The same item listed
      twice gets the same entry twice. */
  method AdjustSize(items: seq<FeedItem>, size: (int, int), info: (Video, (int, int)) -> AdjustInfo)
    modifies set it | it in items
    ensures forall it :: it in items ==> it.adjusted == old(it.adjusted)[size := info(it.video, size)]
    ensures forall it :: it in items ==> it.descriptionThumbnail == old(it.descriptionThumbnail)
  {
    var j := 0;
    while j < |items|
      invariant 0 <= j <= |items|
      invariant forall it :: it in items ==> it.descriptionThumbnail == old(it.descriptionThumbnail)
      invariant forall it :: it in items ==>
                  it.adjusted == if it in items[..j] then old(it.adjusted)[size := info(it.video, size)] else old(it.adjusted)
    {
      var it := items[j];
      it.adjusted := it.adjusted[size := info(it.video, size)];
      assert items[..j + 1] == items[..j] + [it];
      j := j + 1;
    }
    assert items[..j] == items;
  }

  lemma AdjustmentsSnoc(m: map<(int, int), AdjustInfo>, v: Video, sizes: seq<(int, int)>, size: (int, int),
                        info: (Video, (int, int)) -> AdjustInfo)
    ensures m + Adjustments(v, sizes + [size], info) == (m + Adjustments(v, sizes, info))[size := info(v, size)]
  {
    assert (set s | s in sizes + [size]) == (set s | s in sizes) + {size};
  }

  /** _bulk_adjusted_items: every item gets an adjustment for each size,
      then its description thumbnail is the 222x169 one. `info` stands for
      daguerre's AdjustmentHelper. */
  method BulkAdjustedItems(items: seq<FeedItem>, isJson: bool, info: (Video, (int, int)) -> AdjustInfo)
    modifies set it | it in items
    ensures forall it :: it in items ==>
              it.adjusted == old(it.adjusted) + Adjustments(it.video, SizesFor(isJson), info)
    ensures forall it :: it in items ==>
              ThumbnailSizes[1] in it.adjusted &&
              it.descriptionThumbnail == Some(it.adjusted[ThumbnailSizes[1]]) &&
              it.descriptionThumbnail == Some(info(it.video, ThumbnailSizes[1]))
  {
    var sizes := SizesFor(isJson);
    var i := 0;
    while i < |sizes|
      invariant 0 <= i <= |sizes|
      invariant forall it :: it in items ==>
                  it.adjusted == old(it.adjusted) + Adjustments(it.video, sizes[..i], info)
    {
      AdjustSize(items, sizes[i], info);
      forall it | it in items
        ensures it.adjusted == old(it.adjusted) + Adjustments(it.video, sizes[..i + 1], info)
      {
        assert sizes[..i + 1] == sizes[..i] + [sizes[i]];
        AdjustmentsSnoc(old(it.adjusted), it.video, sizes[..i], sizes[i], info);
      }
      i := i + 1;
    }
    assert sizes[..i] == sizes;
    var j := 0;
    while j < |items|
      invariant 0 <= j <= |items|
      invariant forall it :: it in items ==> it.adjusted == old(it.adjusted) + Adjustments(it.video, sizes, info)
      invariant forall it :: it in items[..j] ==> it.descriptionThumbnail == Some(it.adjusted[ThumbnailSizes[1]])
    {
      var it := items[j];
      it.descriptionThumbnail := Some(it.adjusted[ThumbnailSizes[1]]);
      assert items[..j + 1] == items[..j] + [it];
      j := j + 1;
    }
    assert items[..j] == items;
  }

  /** item_pubdate: only a published video has a publication date, its
      `when()`. */
  function ItemPubdate(v: Video): (r: Option<Time>)
    ensures r.Some? <==> v.status == Active
    ensures r.Some? ==> r.value == VideoModel.When(v)
  {
    if v.status != Active then None else Some(VideoModel.When(v))
  }

  /** An absolute URL as add_domain sees one: http, https or mailto. */
  predicate AbsoluteUrl(url: string) {
    StartsWith(url, "http://") || StartsWith(url, "https://") || StartsWith(url, "mailto:")
  }

  /** django.contrib.syndication's add_domain over http: a
      protocol-relative URL gets 'http:'; a relative one is put after the
      scheme and domain and passed through iri_to_uri, which is the given
      `iriToUri`; absolute URLs are kept. */
  function AddDomain(domain: string, url: string, iriToUri: string -> string): (r: string)
    ensures AbsoluteUrl(url) ==> r == url
    ensures StartsWith(url, "//") ==> r == "http:" + url
    ensures !StartsWith(url, "//") && !AbsoluteUrl(url) ==> r == iriToUri("http://" + domain + url)
  {
    if StartsWith(url, "//") then
      assert url[0] == url[..2][0];
      "http:" + url
    else if !AbsoluteUrl(url) then iriToUri("http://" + domain + url)
    else url
  }

  /** Whatever URL add_domain is given, it hands back an absolute one, and
      a second application keeps it, as long as iri_to_uri keeps the
      'http://' it is given (it only percent-quotes characters outside the
      ASCII set it leaves alone, and ':' and '/' are in that set). */
  lemma AddDomainIdempotent(domain: string, url: string, iriToUri: string -> string)
    requires forall s :: StartsWith(s, "http://") ==> StartsWith(iriToUri(s), "http://")
    ensures AbsoluteUrl(AddDomain(domain, url, iriToUri))
    ensures AddDomain(domain, AddDomain(domain, url, iriToUri), iriToUri) == AddDomain(domain, url, iriToUri)
  {
    var r := AddDomain(domain, url, iriToUri);
    if StartsWith(url, "//") {
      assert r[..7] == "http://" by { assert url[..2] == "//"; assert r[..5] == "http:"; }
    } else if !AbsoluteUrl(url) {
      var full := "http://" + domain + url;
      assert full[..7] == "http://";
      assert StartsWith(full, "http://");
    }
  }

  /** item_guid: the video's guid, else its absolute URL on the site's
      domain. */
  function ItemGuid(v: Video, domain: string, absoluteUrl: string, iriToUri: string -> string): (r: string)
    ensures v.guid != "" ==> r == v.guid
    ensures v.guid == "" ==> r == AddDomain(domain, absoluteUrl, iriToUri)
  {
    if v.guid != "" then v.guid else AddDomain(domain, absoluteUrl, iriToUri)
  }

  /** item_enclosure_url: file_url, else flash_enclosure_url, else None. */
  function EnclosureUrl(v: Video): (r: Option<string>)
    ensures v.fileUrl != "" ==> r == Some(v.fileUrl)
    ensures v.fileUrl == "" && v.flashEnclosureUrl != "" ==> r == Some(v.flashEnclosureUrl)
    ensures r.None? <==> v.fileUrl == "" && v.flashEnclosureUrl == ""
  {
    if v.fileUrl != "" then Some(v.fileUrl)
    else if v.flashEnclosureUrl != "" then Some(v.flashEnclosureUrl)
    else None
  }

  /** item_enclosure_length: file_url_length when set and non-zero, else 1. */
  function EnclosureLength(v: Video): (r: int)
    ensures v.fileUrlLength.Some? && v.fileUrlLength.value != 0 ==> r == v.fileUrlLength.value
    ensures v.fileUrlLength.None? || v.fileUrlLength.value == 0 ==> r == FlashEnclosureStaticLength
  {
    if v.fileUrlLength.Some? && v.fileUrlLength.value != 0 then v.fileUrlLength.value else FlashEnclosureStaticLength
  }

  /** item_enclosure_mime_type */
  function EnclosureMimeType(v: Video): (r: string)
    ensures v.fileUrlMimetype != "" ==> r == v.fileUrlMimetype
    ensures v.fileUrlMimetype == "" && v.flashEnclosureUrl != "" ==> r == FlashMimeType
    ensures v.fileUrlMimetype == "" && v.flashEnclosureUrl == "" ==> r == ""
  {
    if v.fileUrlMimetype != "" then v.fileUrlMimetype
    else if v.flashEnclosureUrl != "" then FlashMimeType
    else ""
  }

  /** The enclosure describes the URL it names: a flash enclosure without a
      recorded MIME type is announced as flash, and a video with no
      enclosure URL and no MIME type announces none. */
  lemma EnclosureFieldsAgree(v: Video)
    ensures EnclosureUrl(v) == Some(v.flashEnclosureUrl) && v.fileUrl == "" && v.fileUrlMimetype == "" ==>
              EnclosureMimeType(v) == FlashMimeType
    ensures EnclosureUrl(v).None? && v.fileUrlMimetype == "" ==> EnclosureMimeType(v) == ""
    ensures EnclosureUrl(v).None? ==> EnclosureLength(v) == FlashEnclosureStaticLength || v.fileUrlLength.Some?
  {
  }

  /** BaseVideosFeed.get_form_data: the mixin's data with sort 'latest'
      read as 'newest'. */
  function GetFormData(cfg: SearchViews.ViewConfig, base: Option<SearchViews.FormData>, filterValue: SearchViews.FormValue)
    : (data: SearchViews.FormData)
    ensures "sort" in data ==> data["sort"] != SearchViews.Text("latest")
    ensures data.Keys == SearchViews.GetFormData(cfg, base, filterValue).Keys
    ensures forall k :: k in data && k != "sort" ==> data[k] == SearchViews.GetFormData(cfg, base, filterValue)[k]
  {
    var data := SearchViews.GetFormData(cfg, base, filterValue);
    if "sort" in data && data["sort"] == SearchViews.Text("latest") then data["sort" := SearchViews.Text("newest")] else data
  }
}
