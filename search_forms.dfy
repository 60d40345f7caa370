/** The search form: choice cleaning, the filter fields and the search
    pipeline (localtv/search/forms.py). */
module SearchForms {
  import opened Common
  import opened Query
  import SearchUtils
  import SearchIndexes
  import Sorting
  import Managers

  /** DefaultChoiceField.clean: an empty or unknown choice gives the
      field's initial value instead of an error. */
  function DefaultChoiceClean(value: string, choices: seq<string>, initial: string): (r: string)
    ensures r == value <==> (value != "" && value in choices) || value == initial
    ensures r != value ==> r == initial
  {
    if value != "" && value in choices then value else initial
  }

  /** A cleaned choice is a valid choice, and cleaning it again keeps it. */
  lemma DefaultChoiceIdempotent(value: string, choices: seq<string>, initial: string)
    requires initial != "" && initial in choices
    ensures DefaultChoiceClean(value, choices, initial) in choices
    ensures DefaultChoiceClean(DefaultChoiceClean(value, choices, initial), choices, initial) ==
            DefaultChoiceClean(value, choices, initial)
  {
  }

  /** The keys of SearchForm.sorts, in order. */
  const SortKeys: seq<string> := ["newest", "oldest", "popular", "featured", "relevant"]

  const InitialSort := "relevant"

  /** SearchForm.sorts */
  function SortFor(key: string): (s: SearchUtils.Sort)
    requires key in SortKeys
    ensures key == "relevant" <==> s.DummySort?
    ensures key == "newest" ==> s == SearchUtils.BestDateSort(None, true)
    ensures key == "oldest" ==> s == SearchUtils.BestDateSort(None, false)
  {
    if key == "newest" then SearchUtils.BestDateSort(None, true)
    else if key == "oldest" then SearchUtils.BestDateSort(None, false)
    else if key == "popular" then SearchUtils.PopularSort("Popularity", true)
    else if key == "featured" then SearchUtils.FieldSort("Recently featured", "featured_datetime", true)
    else SearchUtils.DummySort("Relevance")
  }

  /** The form's cleaned data. The model filters hold the pks of the
      chosen instances, the tag filter the tag names. */
  datatype CleanedData = CleanedData(
    q: string,
    sort: string,
    tag: seq<string>,
    category: seq<nat>,
    author: seq<nat>,
    playlist: seq<nat>,
    feed: seq<nat>,
    featured: bool)

  /** SearchForm.clean: the 'featured' sort turns the featured filter on,
      and without a query 'relevant' becomes 'newest'. */
  function FormClean(cd: CleanedData): (r: CleanedData)
    ensures r.sort == "featured" ==> r.featured
    ensures r.featured == (cd.featured || cd.sort == "featured")
    ensures cd.q == "" && cd.sort == "relevant" ==> r.sort == "newest"
    ensures !(cd.q == "" && cd.sort == "relevant") ==> r.sort == cd.sort
    ensures r.(sort := cd.sort, featured := cd.featured) == cd
  {
    var cd1 := if cd.sort == "featured" then cd.(featured := true) else cd;
    if cd1.q == "" && cd1.sort == "relevant" then cd1.(sort := "newest") else cd1
  }

  /** Cleaning twice changes nothing more, and an empty query never keeps
      the relevance sort. */
  lemma FormCleanIdempotent(cd: CleanedData)
    ensures FormClean(FormClean(cd)) == FormClean(cd)
    ensures FormClean(cd).q == "" ==> FormClean(cd).sort != "relevant"
  {
  }

  /** TagFilterField.clean; `parse` stands for tagging's get_tag_list,
      None when it raises ValueError. */
  function TagFilterClean(value: string, required: bool, parse: string -> Option<seq<string>>)
    : (r: Result<seq<string>, string>)
    ensures value == "" && required ==> r == Err("required")
    ensures value == "" && !required ==> r == Ok([])
    ensures value != "" ==> (r.Ok? <==> parse(value).Some?)
    ensures value != "" && r.Ok? ==> r.value == parse(value).value
    ensures r.Err? ==> r.error == "required" || r.error == "list"
  {
    if required && value == "" then Err("required")
    else if !required && value == "" then Ok([])
    else
      var tags := parse(value);
      if tags.None? then Err("list") else Ok(tags.value)
  }

  /** The values whose presence DateTimeFilterField treats as "no date" on
      a search-index queryset: the null placeholder, datetime.max and
      datetime.max without microseconds. */
  const NoDateValues: seq<Option<Value>> :=
    [Some(TimeVal(DatetimeNullPlaceholder)), Some(TimeVal(DatetimeMax)), Some(TimeVal(DatetimeMaxNoMicro))]

  /** Whether a video passes an active featured filter. */
  predicate HasFeaturedDate(v: Video, haystack: bool) {
    if haystack then
      StoredDate(v.lastFeatured, true) !in {Some(DatetimeNullPlaceholder), Some(DatetimeMax), Some(DatetimeMaxNoMicro)}
    else v.lastFeatured.Some?
  }

  /** DateTimeFilterField.filter on the featured_datetime lookup. */
  function DateTimeFilter(qs: QuerySet, value: bool): (r: QuerySet)
    ensures !value ==> r == qs
    ensures r.haystack == qs.haystack
    ensures forall v :: v in r.rows <==> v in qs.rows && (!value || HasFeaturedDate(v, qs.haystack))
  {
    if !value then qs
    else
      var values := if qs.haystack then NoDateValues else [None];
      var r := ExcludeQ(qs, MakeQs([FeaturedDatetime], values));
      forall v ensures Holds(MakeQs([FeaturedDatetime], values), v, qs.haystack) <==> !HasFeaturedDate(v, qs.haystack) {
        NoDateMeaning(v, qs.haystack);
      }
      r
  }

  lemma NoDateMeaning(v: Video, haystack: bool)
    ensures Holds(MakeQs([FeaturedDatetime], if haystack then NoDateValues else [None]), v, haystack)
            <==> !HasFeaturedDate(v, haystack)
  {
    var values := if haystack then NoDateValues else [None];
    assert MakeQs([FeaturedDatetime], values) == QForQueryset(FeaturedDatetime, values);
    QForQuerysetMeaning(FeaturedDatetime, values, v, haystack);
    if haystack {
      var d := StoredDate(v.lastFeatured, true);
      if !HasFeaturedDate(v, haystack) {
        if d == Some(DatetimeNullPlaceholder) {
          assert HasValue(v, FeaturedDatetime, values[0].value, haystack);
        } else if d == Some(DatetimeMax) {
          assert HasValue(v, FeaturedDatetime, values[1].value, haystack);
        } else {
          assert HasValue(v, FeaturedDatetime, values[2].value, haystack);
        }
      }
    }
  }

  /** Whichever backend, an active featured filter drops every video that
      was never featured; on the database it keeps every featured one. */
  lemma FeaturedFilterDropsUnfeatured(qs: QuerySet, v: Video)
    ensures v in DateTimeFilter(qs, true).rows ==> v.lastFeatured.Some?
    ensures !qs.haystack ==> (v in DateTimeFilter(qs, true).rows <==> v in qs.rows && v.lastFeatured.Some?)
  {
  }

  /** The lookups of each model filter field. */
  const CategoryLookups: seq<Field> := [Categories]
  const AuthorLookups: seq<Field> := [Authors, UserField]
  const PlaylistLookups: seq<Field> := [Playlists]
  const FeedLookups: seq<Field> := [FeedField]

  function PkValues(pks: seq<nat>): (r: seq<Option<Value>>)
    ensures |r| == |pks|
    ensures forall i :: 0 <= i < |pks| ==> r[i] == Some(IntVal(pks[i]))
  {
    MapSeq(pks, (p: nat) => Some(IntVal(p)))
  }

  /** Whether a video stores one of the pks under one of the lookups. */
  predicate MatchesAny(v: Video, lookups: seq<Field>, pks: seq<nat>, haystack: bool) {
    exists k, i :: 0 <= k < |lookups| && 0 <= i < |pks| && HasValue(v, lookups[k], IntVal(pks[i]), haystack)
  }

  /** ModelFilterField.filter: the rows matching any pk under any lookup. */
  function ModelFilter(qs: QuerySet, lookups: seq<Field>, pks: seq<nat>): (r: QuerySet)
    requires lookups != []
    ensures r.haystack == qs.haystack
    ensures forall v :: v in r.rows <==> v in qs.rows && MatchesAny(v, lookups, pks, qs.haystack)
  {
    var q := MakeQs(lookups, PkValues(pks));
    forall v ensures Holds(q, v, qs.haystack) <==> MatchesAny(v, lookups, pks, qs.haystack) {
      ModelQMeaning(lookups, pks, v, qs.haystack);
    }
    FilterQ(qs, q)
  }

  lemma ModelQMeaning(lookups: seq<Field>, pks: seq<nat>, v: Video, haystack: bool)
    requires lookups != []
    ensures Holds(MakeQs(lookups, PkValues(pks)), v, haystack) <==> MatchesAny(v, lookups, pks, haystack)
  {
    var values := PkValues(pks);
    MakeQsMeaning(lookups, values, v, haystack);
    forall k | 0 <= k < |lookups|
      ensures Holds(QForQueryset(lookups[k], values), v, haystack) <==>
              exists i :: 0 <= i < |pks| && HasValue(v, lookups[k], IntVal(pks[i]), haystack)
    {
      QForQuerysetMeaning(lookups[k], values, v, haystack);
    }
    if MatchesAny(v, lookups, pks, haystack) {
      var k, i :| 0 <= k < |lookups| && 0 <= i < |pks| && HasValue(v, lookups[k], IntVal(pks[i]), haystack);
      assert Holds(QForQueryset(lookups[k], values), v, haystack);
    }
  }

  /** The tag filter: TaggedItem's union lookup on the database, the
      `tags` Q lookup on the index; both keep the videos with any of the
      tags. */
  function TagFilter(qs: QuerySet, tags: seq<string>): (r: QuerySet)
    ensures r.haystack == qs.haystack
    ensures forall v :: v in r.rows <==> v in qs.rows && exists t :: t in tags && t in v.tags
  {
    if !qs.haystack then Where(qs, (v: Video) => exists t :: t in tags && t in v.tags)
    else
      var values := MapSeq(tags, (t: string) => Some(StrVal(t)));
      var q := MakeQs([Tags], values);
      forall v ensures Holds(q, v, true) <==> exists t :: t in tags && t in v.tags {
        assert q == QForQueryset(Tags, values);
        QForQuerysetMeaning(Tags, values, v, true);
        if exists t :: t in tags && t in v.tags {
          var t :| t in tags && t in v.tags;
          var i :| 0 <= i < |tags| && tags[i] == t;
          assert HasValue(v, Tags, values[i].value, true);
        }
      }
      FilterQ(qs, q)
  }

  /** The filter fields of SearchForm, in declaration order. */
  datatype FilterName = TagF | CategoryF | AuthorF | PlaylistF | FeedF | FeaturedF

  const FilterFields: seq<FilterName> := [TagF, CategoryF, AuthorF, PlaylistF, FeedF, FeaturedF]

  /** Whether a video passes the field's filter; a falsy cleaned value
      passes everything. */
  predicate Passes(name: FilterName, cd: CleanedData, v: Video, haystack: bool) {
    match name
    case TagF => cd.tag == [] || exists t :: t in cd.tag && t in v.tags
    case CategoryF => cd.category == [] || MatchesAny(v, CategoryLookups, cd.category, haystack)
    case AuthorF => cd.author == [] || MatchesAny(v, AuthorLookups, cd.author, haystack)
    case PlaylistF => cd.playlist == [] || MatchesAny(v, PlaylistLookups, cd.playlist, haystack)
    case FeedF => cd.feed == [] || MatchesAny(v, FeedLookups, cd.feed, haystack)
    case FeaturedF => !cd.featured || HasFeaturedDate(v, haystack)
  }

  /** A video passes every filter field of the form. */
  predicate PassesAll(cd: CleanedData, v: Video, haystack: bool) {
    forall k :: 0 <= k < |FilterFields| ==> Passes(FilterFields[k], cd, v, haystack)
  }

  /** A video that passes the form's filters matches its categories, when
      any are given. */
  lemma PassesCategories(cd: CleanedData, v: Video, haystack: bool)
    requires PassesAll(cd, v, haystack)
    ensures cd.category == [] || MatchesAny(v, CategoryLookups, cd.category, haystack)
  {
    assert FilterFields[1] == CategoryF;
  }

  predicate Truthy(name: FilterName, cd: CleanedData) {
    match name
    case TagF => cd.tag != []
    case CategoryF => cd.category != []
    case AuthorF => cd.author != []
    case PlaylistF => cd.playlist != []
    case FeedF => cd.feed != []
    case FeaturedF => cd.featured
  }

  /** One step of _filter: the field filters the queryset only when its
      cleaned value is truthy. */
  function ApplyFilter(name: FilterName, qs: QuerySet, cd: CleanedData): (r: QuerySet)
    ensures !Truthy(name, cd) ==> r == qs
    ensures r.haystack == qs.haystack
    ensures forall v :: v in r.rows <==> v in qs.rows && Passes(name, cd, v, qs.haystack)
  {
    if !Truthy(name, cd) then qs
    else
      match name
      case TagF => TagFilter(qs, cd.tag)
      case CategoryF => ModelFilter(qs, CategoryLookups, cd.category)
      case AuthorF => ModelFilter(qs, AuthorLookups, cd.author)
      case PlaylistF => ModelFilter(qs, PlaylistLookups, cd.playlist)
      case FeedF => ModelFilter(qs, FeedLookups, cd.feed)
      case FeaturedF => DateTimeFilter(qs, true)
  }

  /** The fields applied one after another. */
  function FilterFold(names: seq<FilterName>, qs: QuerySet, cd: CleanedData): QuerySet {
    if names == [] then qs
    else ApplyFilter(names[|names| - 1], FilterFold(names[..|names| - 1], qs, cd), cd)
  }

  /** After the fields in `names`, exactly the rows that pass each of them
      remain, in the same backend. */
  lemma {:induction false} FilterFoldMeaning(names: seq<FilterName>, qs: QuerySet, cd: CleanedData)
    ensures FilterFold(names, qs, cd).haystack == qs.haystack
    ensures forall v :: v in FilterFold(names, qs, cd).rows <==>
              v in qs.rows && forall k :: 0 <= k < |names| ==> Passes(names[k], cd, v, qs.haystack)
  {
    if names != [] {
      var init := names[..|names| - 1];
      FilterFoldMeaning(init, qs, cd);
      forall v ensures v in FilterFold(names, qs, cd).rows <==>
              v in qs.rows && forall k :: 0 <= k < |names| ==> Passes(names[k], cd, v, qs.haystack)
      {
        if v in qs.rows && forall k :: 0 <= k < |init| ==> Passes(init[k], cd, v, qs.haystack) {
          if Passes(names[|names| - 1], cd, v, qs.haystack) {
            forall k | 0 <= k < |names| ensures Passes(names[k], cd, v, qs.haystack) {
              if k < |init| { assert names[k] == init[k]; }
            }
          }
        } else if v in qs.rows {
          var k :| 0 <= k < |init| && !Passes(init[k], cd, v, qs.haystack);
          assert names[k] == init[k];
        }
      }
    }
  }

  /** _filter: runs every filter field over the queryset. */
  method FilterAll(qs: QuerySet, cd: CleanedData) returns (r: QuerySet)
    ensures r == FilterFold(FilterFields, qs, cd)
  {
    r := qs;
    var i := 0;
    while i < |FilterFields|
      invariant 0 <= i <= |FilterFields|
      invariant r == FilterFold(FilterFields[..i], qs, cd)
    {
      assert FilterFields[..i + 1][..i] == FilterFields[..i];
      r := ApplyFilter(FilterFields[i], r, cd);
      i := i + 1;
    }
    assert FilterFields[..i] == FilterFields;
  }

  /** With every cleaned filter value falsy, _filter returns the queryset
      untouched. */
  lemma {:induction false} NoFiltersNoChange(names: seq<FilterName>, qs: QuerySet, cd: CleanedData)
    requires forall k :: 0 <= k < |names| ==> !Truthy(names[k], cd)
    ensures FilterFold(names, qs, cd) == qs
  {
    if names != [] {
      NoFiltersNoChange(names[..|names| - 1], qs, cd);
    }
  }

  /** SearchForm.get_queryset: the database one holds the PUBLISHED
      videos, the index one the indexed (ACTIVE) videos; both are limited
      to SITE_ID. */
  function BaseQueryset(videos: seq<Video>, siteId: nat, useHaystack: bool): (r: QuerySet)
    ensures r.haystack == useHaystack
    ensures forall v :: v in r.rows <==> v in videos && v.status == Active && v.site == siteId
  {
    if useHaystack then Where(QuerySet(true, SearchIndexes.IndexQueryset(videos)), (v: Video) => v.site == siteId)
    else Where(QuerySet(false, videos), (v: Video) => v.status == Active && v.site == siteId)
  }

  /** `order_by('-localtv_video.id = pk1', '-localtv_video.id = pk2', ...)`:
      the key that puts the videos in the order of the search hits. */
  function HitOrderKey(pks: seq<nat>): Video -> seq<int> {
    (v: Video) => MapSeq(pks, (p: nat) => if v.id == p then 0 else 1)
  }

  /** What the rest of the search works with: the site settings, the
      backend choice, and the search backend's answer to the query (None
      when it raised). */
  datatype SearchEnv = SearchEnv(
    videos: seq<Video>,
    siteId: nat,
    useHaystack: bool,
    autoQuery: string -> Option<seq<Video>>,
    sortContext: SearchUtils.SortContext)

  /** The search backend runs auto_query on the index queryset of
      get_queryset(use_haystack=True), so whatever it answers is among the
      indexed (ACTIVE) videos of the site. */
  ghost predicate ValidSearchEnv(env: SearchEnv) {
    forall q :: env.autoQuery(q).Some? ==>
      forall h :: h in env.autoQuery(q).value ==> h in BaseQueryset(env.videos, env.siteId, true).rows
  }

  /** _search: without a query the base queryset; otherwise the search
      backend's hits, which on the database select the published site
      videos they name, in the order of the hits. Either way only the
      site's ACTIVE videos are found. */
  function BasicSearch(cd: CleanedData, env: SearchEnv): (r: QuerySet)
    requires ValidSearchEnv(env)
    ensures r.haystack == env.useHaystack
    ensures forall v :: v in r.rows ==> v in env.videos && v.site == env.siteId && v.status == Active
    ensures cd.q == "" ==> r == BaseQueryset(env.videos, env.siteId, env.useHaystack)
    ensures cd.q != "" && env.autoQuery(cd.q).None? ==> r.rows == []
    ensures cd.q != "" && env.useHaystack && env.autoQuery(cd.q).Some? ==>
              r == QuerySet(true, env.autoQuery(cd.q).value)
    ensures cd.q != "" && !env.useHaystack && env.autoQuery(cd.q).Some? ==>
              Sorting.SortedBy(r.rows, HitOrderKey(MapSeq(env.autoQuery(cd.q).value, (h: Video) => h.id)), false)
    ensures cd.q != "" && !env.useHaystack ==>
              forall v :: v in r.rows <==>
                (v in BaseQueryset(env.videos, env.siteId, false).rows &&
                 env.autoQuery(cd.q).Some? && exists h :: h in env.autoQuery(cd.q).value && h.id == v.id)
  {
    if cd.q == "" then BaseQueryset(env.videos, env.siteId, env.useHaystack)
    else
      var results := env.autoQuery(cd.q);
      if results.None? then QuerySet(env.useHaystack, [])
      else if env.useHaystack then QuerySet(true, results.value)
      else if results.value == [] then QuerySet(false, [])
      else
        var pks := MapSeq(results.value, (h: Video) => h.id);
        var hits := Where(BaseQueryset(env.videos, env.siteId, false), (v: Video) => v.id in pks);
        forall v: Video ensures v.id in pks <==> exists h :: h in results.value && h.id == v.id {
          if v.id in pks {
            var i :| 0 <= i < |pks| && pks[i] == v.id;
            assert results.value[i] in results.value;
          }
        }
        QuerySet(false, Sorting.SortBy(hits.rows, HitOrderKey(pks), false))
  }

  /** SearchForm.search: an invalid form gives an empty result; otherwise
      the search, the filters and the sort, in that order. */
  function Search(valid: bool, cd: CleanedData, env: SearchEnv): (r: QuerySet)
    requires ValidSearchEnv(env)
    requires cd.sort in SortKeys
    ensures !valid ==> r.rows == []
    ensures valid ==>
              r == SearchUtils.ApplySort(SortFor(cd.sort), FilterFold(FilterFields, BasicSearch(cd, env), cd), env.sortContext)
    ensures valid ==>
              multiset(r.rows) == multiset(FilterFold(FilterFields, BasicSearch(cd, env), cd).rows)
    ensures valid ==> forall v :: v in r.rows ==> PassesAll(cd, v, BasicSearch(cd, env).haystack)
  {
    if !valid then QuerySet(env.useHaystack, [])
    else
      var base := BasicSearch(cd, env);
      var filtered := FilterFold(FilterFields, base, cd);
      FilterFoldMeaning(FilterFields, base, cd);
      var r := SearchUtils.ApplySort(SortFor(cd.sort), filtered, env.sortContext);
      forall v | v in r.rows ensures v in filtered.rows {
        assert v in multiset(r.rows);
      }
      r
  }

  /** The order of a search's result for each sort: 'relevant' keeps the
      order of the search, 'newest' and 'oldest' order by the best date,
      'featured' by the featured date, and 'popular' puts the most watched
      first, on the database the unwatched videos after them. */
  lemma SearchOrder(valid: bool, cd: CleanedData, env: SearchEnv)
    requires ValidSearchEnv(env)
    requires valid && cd.sort in SortKeys
    ensures cd.sort == "relevant" ==> Search(valid, cd, env) == FilterFold(FilterFields, BasicSearch(cd, env), cd)
    ensures cd.sort == "newest" ==>
              Sorting.SortedBy(Search(valid, cd, env).rows, SearchUtils.BestDateKey(env.sortContext.useOriginalDate), true)
    ensures cd.sort == "oldest" ==>
              Sorting.SortedBy(Search(valid, cd, env).rows, SearchUtils.BestDateKey(env.sortContext.useOriginalDate), false)
    ensures cd.sort == "featured" ==> Sorting.SortedBy(Search(valid, cd, env).rows, SearchUtils.FeaturedKey(env.useHaystack), true)
    ensures cd.sort == "popular" && env.useHaystack ==>
              Sorting.SortedBy(Search(valid, cd, env).rows, (v: Video) => [env.sortContext.indexedWatchCount(v)], true)
    ensures cd.sort == "popular" && !env.useHaystack ==>
              var filtered := FilterFold(FilterFields, BasicSearch(cd, env), cd).rows;
              var ctx := env.sortContext;
              Search(valid, cd, env).rows == Managers.Popular(filtered, ctx.watches, ctx.since) +
                                             Managers.NotPopular(filtered, ctx.watches, ctx.since)
  {
    var filtered := FilterFold(FilterFields, BasicSearch(cd, env), cd);
    var sort := SortFor(cd.sort);
    assert Search(valid, cd, env) == SearchUtils.ApplySort(sort, filtered, env.sortContext);
    assert filtered.haystack == env.useHaystack by {
      FilterFoldMeaning(FilterFields, BasicSearch(cd, env), cd);
    }
  }

  /** Whatever the filters and the sort, a search finds only ACTIVE
      videos of the site. */
  lemma SearchStaysOnSite(valid: bool, cd: CleanedData, env: SearchEnv, v: Video)
    requires ValidSearchEnv(env)
    requires cd.sort in SortKeys
    requires v in Search(valid, cd, env).rows
    ensures v in env.videos && v.site == env.siteId && v.status == Active
  {
    var base := BasicSearch(cd, env);
    FilterFoldMeaning(FilterFields, base, cd);
    assert v in FilterFold(FilterFields, base, cd).rows;
  }

  /** Without a query the two backends give the same videos. */
  lemma BaseQuerysetsAgree(videos: seq<Video>, siteId: nat, v: Video)
    ensures v in BaseQueryset(videos, siteId, true).rows <==> v in BaseQueryset(videos, siteId, false).rows
  {
  }
}
