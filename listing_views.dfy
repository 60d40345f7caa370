/** The backwards-compatible listing view: page size from 'count', the
    'query' and 'latest' aliases, the approved-since window and the
    context aliases (localtv/listing/views.py). */
module ListingViews {
  import opened Common
  import opened Strings
  import opened Query
  import SearchViews
  import SearchUtils

  /** VIDEOS_PER_PAGE */
  const VideosPerPage := 15

  /** What get_paginate_by hands to the list view: a page size, or the
      empty string that switches pagination off. */
  datatype PageSize = PerPage(n: int) | Unpaginated

  /** get_paginate_by: a parseable 'count' is the page size, whatever its
      sign; an absent or unparsable one gives the default; an empty one
      is passed through and disables pagination. */
  function GetPaginateBy(count: Option<string>, default: int): (r: PageSize)
    ensures count.None? ==> r == PerPage(default)
    ensures count == Some("") ==> r == Unpaginated
    ensures count.Some? && count.value != "" && ParseInt(count.value).Some? ==> r == PerPage(ParseInt(count.value).value)
    ensures count.Some? && ParseInt(count.value).None? && count.value != "" ==> r == PerPage(default)
  {
    if count.None? then PerPage(default)
    else if count.value == "" then Unpaginated
    else
      var n := ParseInt(count.value);
      if n.None? then PerPage(default) else PerPage(n.value)
  }

  /** Any integer written into 'count' comes back as the page size. */
  lemma CountRoundTrip(n: int, default: int)
    ensures GetPaginateBy(Some(ShowInt(n)), default) == PerPage(n)
  {
    ParseShowInt(n);
    assert ShowInt(n) != "" by { DigitsOfShowNat(if n < 0 then -n else n); }
  }

  /** CompatibleListingView.get_form_data: after the mixin's data, 'query'
      fills 'q' when 'q' is absent, and sort 'latest' becomes 'newest'. */
  function GetFormData(cfg: SearchViews.ViewConfig, base: Option<SearchViews.FormData>, filterValue: SearchViews.FormValue)
    : (data: SearchViews.FormData)
    ensures "q" in data
    ensures var d0 := SearchViews.GetFormData(cfg, base, filterValue);
            data["q"] == (if "q" in d0 then d0["q"] else if "query" in d0 then d0["query"] else SearchViews.Text(""))
    ensures "sort" in data ==> data["sort"] != SearchViews.Text("latest")
    ensures var d0 := SearchViews.GetFormData(cfg, base, filterValue);
            "sort" in d0 && d0["sort"] == SearchViews.Text("latest") ==> "sort" in data && data["sort"] == SearchViews.Text("newest")
    ensures var d0 := SearchViews.GetFormData(cfg, base, filterValue);
            forall k :: k != "q" && k != "sort" ==> (k in data <==> k in d0) && (k in data ==> data[k] == d0[k])
  {
    var data := SearchViews.GetFormData(cfg, base, filterValue);
    var data := if "q" !in data then data["q" := if "query" in data then data["query"] else SearchViews.Text("")] else data;
    if "sort" in data && data["sort"] == SearchViews.Text("latest") then data["sort" := SearchViews.Text("newest")] else data
  }

  /** The aliases settle: rebuilding the form data from its own output
      changes nothing. */
  lemma GetFormDataSettles(cfg: SearchViews.ViewConfig, base: Option<SearchViews.FormData>, filterValue: SearchViews.FormValue)
    requires cfg.sort != Some("latest")
    ensures GetFormData(cfg, Some(GetFormData(cfg, base, filterValue)), filterValue) == GetFormData(cfg, base, filterValue)
  {
  }

  /** The approved-since window of get_queryset: videos never approved are
      excluded (the placeholder on the index, null on the database) and
      the rest must be approved after `now - period`. */
  function ApprovedSince(qs: QuerySet, period: Option<int>, now: Time): (r: QuerySet)
    ensures period.None? ==> r == qs
    ensures r.haystack == qs.haystack
    ensures period.Some? && !qs.haystack ==>
              forall v :: v in r.rows <==> v in qs.rows && v.whenApproved.Some? && v.whenApproved.value > now - period.value
    ensures period.Some? && qs.haystack ==>
              forall v :: v in r.rows <==>
                (v in qs.rows && StoredDate(v.whenApproved, true) != Some(DatetimeNullPlaceholder) &&
                 StoredDate(v.whenApproved, true).value > now - period.value)
  {
    if period.None? then qs
    else
      var q := if qs.haystack then ExactQ(WhenApproved, TimeVal(DatetimeNullPlaceholder)) else NullQ(WhenApproved);
      var approved := ExcludeQ(qs, q);
      Where(approved, (v: Video) => StoredDate(v.whenApproved, qs.haystack).Some? &&
                                    StoredDate(v.whenApproved, qs.haystack).value > now - period.value)
  }

  /** Whenever the window starts after the placeholder date, both
      backends keep exactly the videos approved inside the window. */
  lemma ApprovedSinceBackendsAgree(rows: seq<Video>, period: int, now: Time, v: Video)
    requires now - period >= DatetimeNullPlaceholder
    ensures v in ApprovedSince(QuerySet(true, rows), Some(period), now).rows <==>
            v in ApprovedSince(QuerySet(false, rows), Some(period), now).rows
  {
  }

  /** get_queryset's wrapping in a NormalizedVideoList: an index result
      carries the pk as a string and the indexed watch count. */
  function ToVideoList(qs: QuerySet, videos: seq<Video>, indexedWatchCount: Video -> int): (l: SearchUtils.VideoList)
    ensures SearchUtils.Len(l) == |qs.rows|
    ensures qs.haystack <==> l.HaystackList?
  {
    if qs.haystack then
      SearchUtils.HaystackList(
        MapSeq(qs.rows, (v: Video) => SearchUtils.SearchResult(SearchUtils.StrPk(ShowNat(v.id)), Some(indexedWatchCount(v)))),
        videos)
    else SearchUtils.DbList(qs.rows)
  }

  /** An index hit's string pk names the indexed video again. */
  lemma IndexPkRoundTrip(v: Video)
    ensures SearchUtils.PkInt(SearchUtils.StrPk(ShowNat(v.id))) == Some(v.id as int)
  {
    ParseShowInt(v.id);
  }

  /** The listing context: the query string as bound in the form, and
      'video_list' as another name for the page's 'videos'. */
  datatype ListingContext = ListingContext(base: SearchViews.Context, query: SearchViews.FormValue,
                                           videos: seq<Video>, videoList: seq<Video>)

  function GetContextData(cfg: SearchViews.ViewConfig, form: SearchViews.FormData, obj: Option<SearchViews.FilterObject>,
                          videos: seq<Video>): (c: ListingContext)
    ensures c.base == SearchViews.GetContextData(cfg, form, obj)
    ensures c.videoList == c.videos == videos
    ensures c.query == if "q" in form then form["q"] else SearchViews.NoValue
  {
    ListingContext(SearchViews.GetContextData(cfg, form, obj),
                   if "q" in form then form["q"] else SearchViews.NoValue, videos, videos)
  }
}
