/** Sorts and the normalised video list (localtv/search/utils.py). The Q
    builders of the same file are in module Query. */
module SearchUtils {
  import opened Common
  import opened Strings
  import opened Sorting
  import opened Query
  import Managers
  import SearchIndexes

  /** The sort objects: a plain field sort, the no-op sort, the best-date
      sort and the popularity sort. A verbose name of None on a best-date
      sort means the default one. */
  datatype Sort =
    | FieldSort(verboseName: string, fieldLookup: string, descending: bool)
    | DummySort(dummyName: string)
    | BestDateSort(givenName: Option<string>, bestDescending: bool)
    | PopularSort(popularName: string, popularDescending: bool)

  /** The sort's name: a best-date sort without one is 'Newest' when
      descending and 'Oldest' otherwise. */
  function VerboseName(s: Sort): (r: string)
    ensures s.BestDateSort? && s.givenName.None? ==> (r == "Newest" <==> s.bestDescending)
    ensures s.BestDateSort? && s.givenName.None? ==> (r == "Oldest" <==> !s.bestDescending)
    ensures s.BestDateSort? && s.givenName.Some? ==> r == s.givenName.value
  {
    match s
    case FieldSort(n, _, _) => n
    case DummySort(n) => n
    case BestDateSort(n, d) => if n.Some? then n.value else if d then "Newest" else "Oldest"
    case PopularSort(n, _) => n
  }

  function Descending(s: Sort): bool
    requires !s.DummySort?
  {
    match s
    case FieldSort(_, _, d) => d
    case BestDateSort(_, d) => d
    case PopularSort(_, d) => d
  }

  /** get_field_lookup: best-date sorts read 'best_date_with_published'
      only on a search-index queryset of a site using original dates. */
  function FieldLookup(s: Sort, haystack: bool, useOriginalDate: bool): (r: string)
    requires !s.DummySort?
    ensures s.BestDateSort? ==> (r == "best_date_with_published" <==> haystack && useOriginalDate)
    ensures s.BestDateSort? ==> (r == "best_date" <==> !(haystack && useOriginalDate))
    ensures s.PopularSort? ==> r == "watch_count"
    ensures s.FieldSort? ==> r == s.fieldLookup
  {
    match s
    case FieldSort(_, l, _) => l
    case BestDateSort(_, _) => if haystack && useOriginalDate then "best_date_with_published" else "best_date"
    case PopularSort(_, _) => "watch_count"
  }

  /** get_order_by: the lookup behind a '-' when descending. */
  function OrderBy(s: Sort, haystack: bool, useOriginalDate: bool): string
    requires !s.DummySort?
  {
    (if Descending(s) then "-" else "") + FieldLookup(s, haystack, useOriginalDate)
  }

  /** How `order_by` reads an ordering string back: a leading '-' means
      descending. */
  function ParseOrderBy(o: string): (string, bool) {
    if |o| > 0 && o[0] == '-' then (o[1..], true) else (o, false)
  }

  /** The ordering string carries the sort's direction and lookup intact,
      for every lookup that does not itself start with '-'. */
  lemma OrderByRoundTrip(s: Sort, haystack: bool, useOriginalDate: bool)
    requires !s.DummySort?
    requires !StartsWith(FieldLookup(s, haystack, useOriginalDate), "-")
    ensures ParseOrderBy(OrderBy(s, haystack, useOriginalDate)) == (FieldLookup(s, haystack, useOriginalDate), Descending(s))
  {
    var l := FieldLookup(s, haystack, useOriginalDate);
    if Descending(s) {
      assert ("-" + l)[1..] == l;
    } else {
      assert "" + l == l;
      if |l| > 0 {
        assert l[..1] == [l[0]];
      }
    }
  }

  /** The best-date key of a video; the index stores the same value (see
      Managers.BestDateAgreesWithIndex). */
  function BestDateKey(useOriginalDate: bool): Video -> seq<int> {
    (v: Video) => [Managers.WithBestDate(v, useOriginalDate)]
  }

  /** A nullable date as an ordering key: a null date (only on the
      database; the index stores the placeholder) orders before every
      date. */
  function DateKey(d: Option<Time>): (r: seq<int>)
    ensures d.None? <==> r == []
    ensures d.Some? ==> r == [d.value]
  {
    if d.Some? then [d.value] else []
  }

  /** The key of the 'featured_datetime' lookup: the video's last_featured
      as the backend stores it. */
  function FeaturedKey(haystack: bool): Video -> seq<int> {
    (v: Video) => DateKey(StoredDate(v.lastFeatured, haystack))
  }

  /** The key a plain field sort orders by. 'featured_datetime' is the only
      lookup a plain field sort is given; any other lookup is read as a
      constant key, which keeps the order. */
  function FieldKey(lookup: string, haystack: bool): Video -> seq<int> {
    if lookup == "featured_datetime" then FeaturedKey(haystack) else (v: Video) => []
  }

  /** In the featured order, of two videos featured at some time the more
      recently featured one comes first; on the database a video never
      featured comes after every featured one. */
  lemma FeaturedOrder(rows: seq<Video>, haystack: bool, i: int, j: int)
    requires Sorting.SortedBy(rows, FeaturedKey(haystack), true)
    requires 0 <= i < j < |rows|
    ensures rows[i].lastFeatured.Some? && rows[j].lastFeatured.Some? ==>
              rows[i].lastFeatured.value >= rows[j].lastFeatured.value
    ensures !haystack && rows[j].lastFeatured.Some? ==> rows[i].lastFeatured.Some?
  {
    assert Sorting.Precedes(FeaturedKey(haystack), true, rows[i], rows[j]);
  }

  /** What `sort` needs besides the queryset: the current site's
      use_original_date, the recorded watches, the watch count the index
      holds, and the popular window. */
  datatype SortContext = SortContext(
    useOriginalDate: bool,
    watches: seq<Watch>,
    indexedWatchCount: Video -> int,
    since: Time)

  /** Sort.sort and its subclasses, with the popular sort's chain on the
      database made a list as intended (see SortAsWritten for the chain
      itself). On the database the popular sort is popular() followed by
      not_popular(): the watched videos first, most watched first
      whatever the sort's direction, then the others. */
  function ApplySort(s: Sort, qs: QuerySet, ctx: SortContext): (r: QuerySet)
    ensures r.haystack == qs.haystack
    ensures multiset(r.rows) == multiset(qs.rows)
    ensures s.DummySort? ==> r == qs
    ensures s.FieldSort? ==> SortedBy(r.rows, FieldKey(s.fieldLookup, qs.haystack), s.descending)
    ensures s.BestDateSort? ==> SortedBy(r.rows, BestDateKey(ctx.useOriginalDate), s.bestDescending)
    ensures s.PopularSort? && qs.haystack ==>
              SortedBy(r.rows, (v: Video) => [ctx.indexedWatchCount(v)], s.popularDescending)
    ensures s.PopularSort? && !qs.haystack ==>
              forall i, j :: 0 <= i < j < |r.rows| && Managers.WatchedSince(r.rows[j], ctx.watches, ctx.since) ==>
                Managers.WatchedSince(r.rows[i], ctx.watches, ctx.since)
    ensures s.PopularSort? && !qs.haystack ==>
              r.rows == Managers.Popular(qs.rows, ctx.watches, ctx.since) + Managers.NotPopular(qs.rows, ctx.watches, ctx.since)
    ensures s.PopularSort? && !qs.haystack ==>
              var watched := |Managers.Popular(qs.rows, ctx.watches, ctx.since)|;
              SortedBy(r.rows[..watched], (v: Video) => [Managers.WatchCount(v, ctx.watches, ctx.since)], true)
  {
    match s
    case DummySort(_) => qs
    case FieldSort(_, l, d) => QuerySet(qs.haystack, SortBy(qs.rows, FieldKey(l, qs.haystack), d))
    case BestDateSort(_, d) => QuerySet(qs.haystack, SortBy(qs.rows, BestDateKey(ctx.useOriginalDate), d))
    case PopularSort(_, d) =>
      if qs.haystack then QuerySet(true, SortBy(qs.rows, (v: Video) => [ctx.indexedWatchCount(v)], d))
      else
        var p := Managers.Popular(qs.rows, ctx.watches, ctx.since);
        var np := Managers.NotPopular(qs.rows, ctx.watches, ctx.since);
        Managers.PopularPartition(qs.rows, ctx.watches, ctx.since);
        ChainWatchedFirst(p, np, ctx.watches, ctx.since);
        QuerySet(false, p + np)
  }

  lemma ChainWatchedFirst(p: seq<Video>, np: seq<Video>, watches: seq<Watch>, since: Time)
    requires forall v :: v in p ==> Managers.WatchedSince(v, watches, since)
    requires forall v :: v in np ==> !Managers.WatchedSince(v, watches, since)
    ensures forall i, j :: 0 <= i < j < |p + np| && Managers.WatchedSince((p + np)[j], watches, since) ==>
              Managers.WatchedSince((p + np)[i], watches, since)
  {
    forall i, j | 0 <= i < j < |p + np| && Managers.WatchedSince((p + np)[j], watches, since)
      ensures Managers.WatchedSince((p + np)[i], watches, since)
    {
      if j >= |p| {
        assert false;
      }
      assert (p + np)[i] == p[i];
      assert p[i] in p;
    }
  }

  /** What Sort.sort returns as written: a queryset, except that the
      popular sort on the database returns `itertools.chain(popular,
      not_popular)`, an iterator that has none of a queryset's methods. */
  datatype SortResult = Ordered(qs: QuerySet) | Chained(items: seq<Video>)

  /** PopularSort.sort as written: on the database the chain of popular()
      and not_popular(), which yields the rows of the corrected sort. */
  function SortAsWritten(s: Sort, qs: QuerySet, ctx: SortContext): (r: SortResult)
    ensures r.Chained? <==> s.PopularSort? && !qs.haystack
    ensures r.Ordered? ==> r.qs == ApplySort(s, qs, ctx)
    ensures r.Chained? ==> r.items == ApplySort(s, qs, ctx).rows
  {
    if s.PopularSort? && !qs.haystack then
      Chained(Managers.Popular(qs.rows, ctx.watches, ctx.since) + Managers.NotPopular(qs.rows, ctx.watches, ctx.since))
    else Ordered(ApplySort(s, qs, ctx))
  }

  /** A queryset method (`select_related` in NormalizedVideoList.__init__,
      `exclude` in CompatibleListingView.get_queryset) called on what the
      sort returned: a chain has no such attribute. */
  function QuerySetCall(r: SortResult): (q: Result<QuerySet, string>)
    ensures q.Err? <==> r.Chained?
    ensures q.Err? ==> q.error == "AttributeError"
    ensures q.Ok? ==> q.value == r.qs
  {
    if r.Chained? then Err("AttributeError") else Ok(r.qs)
  }

  /** As written, every database search sorted by popularity raises
      AttributeError where its result is wrapped in a NormalizedVideoList,
      while the corrected sort gives the watched videos first. */
  lemma PopularChainRaises(name: string, desc: bool, qs: QuerySet, ctx: SortContext)
    requires !qs.haystack
    ensures QuerySetCall(SortAsWritten(PopularSort(name, desc), qs, ctx)) == Err("AttributeError")
    ensures ApplySort(PopularSort(name, desc), qs, ctx).rows ==
              Managers.Popular(qs.rows, ctx.watches, ctx.since) + Managers.NotPopular(qs.rows, ctx.watches, ctx.since)
  {
  }

  /** Every other sort, and every sort on the index, returns a queryset
      the callers can go on with: the corrected sort's. */
  lemma OtherSortsAreQuerySets(s: Sort, qs: QuerySet, ctx: SortContext)
    requires !(s.PopularSort? && !qs.haystack)
    ensures QuerySetCall(SortAsWritten(s, qs, ctx)) == Ok(ApplySort(s, qs, ctx))
  {
  }

  /** The pk of a search hit: the index returns strings; an integer pk is
      what the stale-variable path below reacts to. */
  datatype ResultPk = StrPk(s: string) | IntPk(n: int)

  datatype SearchResult = SearchResult(pk: ResultPk, watchCount: Option<int>)

  /** A video handed out by the list, with the watch count copied from its
      search hit. */
  datatype Listed = Listed(video: Video, watchCount: int)

  /** `int(r.pk)` */
  function PkInt(pk: ResultPk): (r: Option<int>)
    ensures pk.IntPk? ==> r == Some(pk.n)
    ensures pk.StrPk? ==> r == ParseInt(pk.s)
  {
    match pk
    case IntPk(n) => Some(n)
    case StrPk(s) => ParseInt(s)
  }

  /** `r.pk in video_dict`: the dict is keyed by integers, so no string is
      ever a key. */
  predicate PkIsKey(pk: ResultPk, dict: map<int, Video>) {
    pk.IntPk? && pk.n in dict
  }

  /** The active videos named by some hit's pk, keyed by id. */
  function ActiveById(videos: seq<Video>, results: seq<SearchResult>): (d: map<int, Video>)
    ensures forall k :: k in d ==> d[k].id == k && d[k].status == Active && d[k] in videos
    ensures forall k :: k in d ==> exists r :: r in results && PkInt(r.pk) == Some(k)
    ensures forall v :: v in videos && v.status == Active && (exists r :: r in results && PkInt(r.pk) == Some(v.id as int)) ==>
              v.id as int in d
  {
    if videos == [] then map[]
    else
      var v := videos[0];
      var rest := ActiveById(videos[1..], results);
      if v.status == Active && (exists r :: r in results && PkInt(r.pk) == Some(v.id as int))
      then rest[v.id as int := v]
      else rest
  }

  /** Every hit's pk reads as an integer. */
  predicate PksParse(results: seq<SearchResult>) {
    forall r :: r in results ==> PkInt(r.pk).Some?
  }

  /** `Video.objects.filter(status=ACTIVE).in_bulk(pks)`: the pks go into
      an integer-field lookup, which raises ValueError for a pk that is
      not an integer; otherwise exactly the active videos some hit names,
      keyed by id. */
  function InBulk(videos: seq<Video>, results: seq<SearchResult>): (r: Result<map<int, Video>, string>)
    ensures r.Err? <==> !PksParse(results)
    ensures r.Err? ==> r.error == "ValueError"
    ensures r.Ok? ==> forall k :: k in r.value ==>
              r.value[k].id == k && r.value[k].status == Active && r.value[k] in videos &&
              exists h :: h in results && PkInt(h.pk) == Some(k)
    ensures r.Ok? ==> forall v ::
              (v in videos && v.status == Active && exists h :: h in results && PkInt(h.pk) == Some(v.id as int)) ==>
              v.id as int in r.value
  {
    if !PksParse(results) then Err("ValueError") else Ok(ActiveById(videos, results))
  }

  /** The intended result of slicing a search-index list: for each hit in
      order, the active video its pk names, with `watch_count or 0`; hits
      that name no active video are dropped. */
  function Normalized(results: seq<SearchResult>, dict: map<int, Video>): (r: seq<Listed>)
    ensures |r| <= |results|
    ensures forall l :: l in r ==> l.video in dict.Values
  {
    if results == [] then []
    else HitListed(results[0], dict) + Normalized(results[1..], dict)
  }

  /** What one hit contributes: its video, looked up by the hit's pk when
      that is a key of the dictionary and by the pk read as an integer
      otherwise, or nothing when neither names a video. */
  function HitListed(h: SearchResult, dict: map<int, Video>): (r: seq<Listed>)
    ensures |r| <= 1
    ensures forall l :: l in r ==> l.video in dict.Values && l.watchCount == h.watchCount.GetOr(0)
  {
    var key := if PkIsKey(h.pk, dict) then Some(h.pk.n) else PkInt(h.pk);
    if key.Some? && key.value in dict then [Listed(dict[key.value], h.watchCount.GetOr(0))] else []
  }

  /** The loop of NormalizedVideoList.__getitem__ as written: `pk` is
      reassigned only when `r.pk` is not a key, and an unparsable pk keeps
      the previous value. `pk == None` stands for the variable not yet
      being bound, where reading it raises NameError. */
  function NormalizedAsWritten(results: seq<SearchResult>, dict: map<int, Video>, pk: Option<int>)
    : (r: Result<seq<Listed>, string>)
    ensures r.Err? ==> r.error == "NameError"
  {
    if results == [] then Ok([])
    else
      var h := results[0];
      var pk' := if !PkIsKey(h.pk, dict) && PkInt(h.pk).Some? then PkInt(h.pk) else pk;
      if pk'.None? then Err("NameError")
      else
        var rest := NormalizedAsWritten(results[1..], dict, pk');
        if rest.Err? then rest
        else if pk'.value in dict then Ok([Listed(dict[pk'.value], h.watchCount.GetOr(0))] + rest.value)
        else rest
  }

  /** With the string pks the index hands out, all parsable, the loop as
      written gives the intended list. */
  lemma {:induction false} AsWrittenOnStringPks(results: seq<SearchResult>, dict: map<int, Video>, pk: Option<int>)
    requires forall i :: 0 <= i < |results| ==> results[i].pk.StrPk? && ParseInt(results[i].pk.s).Some?
    ensures NormalizedAsWritten(results, dict, pk) == Ok(Normalized(results, dict))
  {
    if results != [] {
      var h := results[0];
      assert h.pk.StrPk? && ParseInt(h.pk.s).Some?;
      assert !PkIsKey(h.pk, dict) && PkInt(h.pk).Some?;
      var k := PkInt(h.pk);
      AsWrittenOnStringPks(results[1..], dict, k);
      var rest := Normalized(results[1..], dict);
      var here := if k.value in dict then [Listed(dict[k.value], h.watchCount.GetOr(0))] else [];
      assert Normalized(results, dict) == here + rest;
      assert NormalizedAsWritten(results[1..], dict, k) == Ok(rest);
      assert [] + rest == rest;
    }
  }

  /** A first hit whose integer pk is a key leaves `pk` unbound. */
  lemma IntPkRaises(v: Video)
    requires v.status == Active
    ensures var dict := map[v.id as int := v];
            NormalizedAsWritten([SearchResult(IntPk(v.id), None)], dict, None) == Err("NameError")
    ensures Normalized([SearchResult(IntPk(v.id), None)], map[v.id as int := v]) == [Listed(v, 0)]
  {
  }

  /** The loop of __getitem__, with the variable handling corrected: each
      hit is looked up by its own pk. */
  method NormalizeSlice(results: seq<SearchResult>, dict: map<int, Video>) returns (videos: seq<Listed>)
    ensures videos == Normalized(results, dict)
  {
    videos := [];
    var i := 0;
    while i < |results|
      invariant 0 <= i <= |results|
      invariant videos + Normalized(results[i..], dict) == Normalized(results, dict)
    {
      var h := results[i];
      var key := if PkIsKey(h.pk, dict) then Some(h.pk.n) else PkInt(h.pk);
      assert results[i..][1..] == results[i + 1..];
      ghost var before := videos;
      if key.Some? && key.value in dict {
        videos := videos + [Listed(dict[key.value], h.watchCount.GetOr(0))];
      }
      assert videos == before + HitListed(h, dict);
      assert Normalized(results[i..], dict) == HitListed(h, dict) + Normalized(results[i + 1..], dict);
      ConcatAssoc(before, HitListed(h, dict), Normalized(results[i + 1..], dict));
      i := i + 1;
    }
  }

  /** A NormalizedVideoList over a search-index result list or over a
      database queryset. */
  datatype VideoList = HaystackList(results: seq<SearchResult>, videos: seq<Video>) | DbList(rows: seq<Video>)

  /** __len__: the length of the wrapped queryset, hits naming no active
      video included. */
  function Len(l: VideoList): (n: nat)
    ensures l.HaystackList? ==> n == |l.results|
    ensures l.DbList? ==> n == |l.rows|
  {
    if l.HaystackList? then |l.results| else |l.rows|
  }

  /** __getitem__ with a slice: a negative bound fails the assertion both
      QuerySet and SearchQuerySet make on slices; otherwise, over a search
      index, the normalised hits of the slice, or the ValueError in_bulk
      raises; over a queryset, the rows of the slice themselves
      (watch_count is not set on them, and counts as 0). */
  function GetSlice(l: VideoList, start: int, stop: int): (r: Result<seq<Listed>, string>)
    ensures start < 0 || stop < 0 ==> r == Err("AssertionError")
    ensures 0 <= start && 0 <= stop && l.HaystackList? ==>
              var hits := PySlice(l.results, start, stop);
              if !PksParse(hits) then r == Err("ValueError")
              else r == Ok(Normalized(hits, InBulk(l.videos, hits).value))
    ensures 0 <= start && 0 <= stop && l.DbList? ==>
              r.Ok? && |r.value| == |PySlice(l.rows, start, stop)| &&
              forall i :: 0 <= i < |r.value| ==> r.value[i] == Listed(PySlice(l.rows, start, stop)[i], 0)
    ensures r.Ok? && l.HaystackList? ==> forall x :: x in r.value ==> x.video.status == Active && x.video in l.videos
  {
    if start < 0 || stop < 0 then Err("AssertionError")
    else if l.HaystackList? then
      var hits := PySlice(l.results, start, stop);
      var dict := InBulk(l.videos, hits);
      if dict.Err? then Err(dict.error)
      else
        var r := Normalized(hits, dict.value);
        assert forall x :: x in r ==> x.video in dict.value.Values;
        Ok(r)
    else
      Ok(MapSeq(PySlice(l.rows, start, stop), (v: Video) => Listed(v, 0)))
  }

  /** A slice never hands out more videos than __len__ reports, and from a
      search index only active videos. */
  lemma SliceWithinLen(l: VideoList, start: int, stop: int)
    ensures GetSlice(l, start, stop).Ok? ==> |GetSlice(l, start, stop).value| <= Len(l)
  {
  }
}
