/** The source administration page (manage_sources in
    localtv/admin/legacy/sources_views.py): which feeds and saved searches
    are listed and in what order, the page shown, the removal of sources
    with or without their videos, and the redirect after a save. */
module SourcesViews {
  import opened Common
  import opened Strings
  import opened Sorting
  import Paging
  import Store

  /** A row of the list: a feed or a saved search. */
  datatype Source = FeedSource(feed: Feed) | SearchSource(search: SavedSearch)

  /** The sortable columns: Source (name__lower), Type and Auto Approve. */
  datatype SortField = NameLower | TypeSort | AutoApprove

  /** The order SortHeaders asks for: a column, '-' meaning descending. */
  datatype SortSpec = SortSpec(field: SortField, desc: bool)

  /** The order the database is asked for: sorting on type first sorts
      on the name in the same direction. */
  function OrmSort(sort: SortSpec): (r: SortSpec)
    ensures r.desc == sort.desc && r.field != TypeSort
    ensures sort.field != TypeSort ==> r == sort
  {
    if sort.field == TypeSort then SortSpec(NameLower, sort.desc) else sort
  }

  /** The value a source is ordered by: the lower-cased name (the query
      string for a saved search), or the auto_approve flag as the text
      Python gives it ('False' < 'True'). */
  function SortKey(field: SortField, s: Source): seq<int> {
    match s
    case FeedSource(f) =>
      if field == AutoApprove then BoolText(f.autoApprove) else Codes(Lower(f.name))
    case SearchSource(q) =>
      if field == AutoApprove then BoolText(q.autoApprove) else Codes(Lower(q.queryString))
  }

  function BoolText(b: bool): seq<int> {
    Codes(if b then "True" else "False")
  }

  function NameKey(s: Source): seq<int> {
    SortKey(NameLower, s)
  }

  /** The source_type().lower() key of the type column; source_type is
      not part of this model and comes in as a function. */
  function TypeKey(sourceType: Source -> string): Source -> seq<int> {
    (s: Source) => Codes(Lower(sourceType(s)))
  }

  function Site(s: Source): nat {
    match s
    case FeedSource(f) => f.site
    case SearchSource(q) => q.site
  }

  /** Case-insensitive `__icontains`. */
  predicate IContains(haystack: string, needle: string) {
    Contains(Lower(haystack), Lower(needle))
  }

  /** The text search `q`: feed URL, name, webpage or description of a
      feed, the query string of a saved search. */
  predicate MatchesText(s: Source, q: string) {
    match s
    case FeedSource(f) =>
      IContains(f.feedUrl, q) || IContains(f.name, q) || IContains(f.webpage, q) || IContains(f.description, q)
    case SearchSource(x) => IContains(x.queryString, q)
  }

  function AutoCategories(s: Source): seq<nat> {
    match s
    case FeedSource(f) => f.autoCategories
    case SearchSource(q) => q.autoCategories
  }

  function AutoAuthors(s: Source): seq<nat> {
    match s
    case FeedSource(f) => f.autoAuthors
    case SearchSource(q) => q.autoAuthors
  }

  /** Why the page cannot be shown: a 404, or an error the view lets
      escape (a non-integer pk or page number). */
  datatype Failure = NotFound | ServerError

  /** `GET.get(name)` taken as a truthy value. */
  predicate Given(param: Option<string>) {
    param.Some? && param.value != ""
  }

  /** The category or author narrowing: a given pk must parse and name an
      existing row, and then only sources with that auto-category (or
      auto-author) are kept. */
  function NarrowBy(sources: seq<Source>, param: Option<string>, exists_: nat -> bool, has: (Source, nat) -> bool)
    : (r: Result<seq<Source>, Failure>)
    ensures !Given(param) ==> r == Ok(sources)
    ensures Given(param) && ParseInt(param.value).None? ==> r == Err(ServerError)
    ensures Given(param) && ParseInt(param.value).Some? ==>
              (r == Err(NotFound) <==> ParseInt(param.value).value < 0 || !exists_(ParseInt(param.value).value))
    ensures r.Ok? && Given(param) ==>
              ParseInt(param.value).Some? && ParseInt(param.value).value >= 0 &&
              forall s :: s in r.value <==> s in sources && has(s, ParseInt(param.value).value)
    ensures r.Ok? ==> forall s :: s in r.value ==> s in sources
  {
    if !Given(param) then Ok(sources)
    else
      match ParseInt(param.value)
      case None => Err(ServerError)
      case Some(pk) =>
        if pk < 0 || !exists_(pk) then Err(NotFound)
        else Ok(Filter(sources, (s: Source) => has(s, pk)))
  }

  predicate HasCategory(s: Source, pk: nat) {
    pk in AutoCategories(s)
  }

  predicate HasAuthor(s: Source, pk: nat) {
    pk in AutoAuthors(s)
  }

  /** The query parameters of the list. */
  datatype ListParams = ListParams(q: string, category: Option<string>, author: Option<string>,
                                   filter: Option<string>, sort: SortSpec)

  /** The sources of the site that pass the text, category and author
      narrowing, feeds first. */
  function Narrowed(feeds: seq<Feed>, searches: seq<SavedSearch>, categories: seq<Category>, users: seq<User>,
                    site: nat, p: ListParams): (r: Result<(seq<Source>, seq<Source>), Failure>)
    ensures r.Ok? ==> (forall s :: s in r.value.0 ==> s.FeedSource? && s.feed in feeds && s.feed.site == site) &&
                      (forall s :: s in r.value.1 ==> s.SearchSource? && s.search in searches && s.search.site == site)
    ensures r.Ok? ==> forall s :: s in r.value.0 + r.value.1 ==> p.q == "" || MatchesText(s, p.q)
  {
    var fs := MapSeq(Filter(feeds, (f: Feed) => f.site == site), (f: Feed) => FeedSource(f));
    var ss := MapSeq(Filter(searches, (q: SavedSearch) => q.site == site), (q: SavedSearch) => SearchSource(q));
    var fs1 := if p.q != "" then Filter(fs, (s: Source) => MatchesText(s, p.q)) else fs;
    var ss1 := if p.q != "" then Filter(ss, (s: Source) => MatchesText(s, p.q)) else ss;
    var catExists := (pk: nat) => exists c :: c in categories && c.id == pk;
    var userExists := (pk: nat) => exists u :: u in users && u.pk == pk;
    var fc := NarrowBy(fs1, p.category, catExists, HasCategory);
    var sc := NarrowBy(ss1, p.category, catExists, HasCategory);
    if fc.Err? then Err(fc.error)
    else if sc.Err? then Err(sc.error)
    else
      var fa := NarrowBy(fc.value, p.author, userExists, HasAuthor);
      var sa := NarrowBy(sc.value, p.author, userExists, HasAuthor);
      if fa.Err? then Err(fa.error)
      else if sa.Err? then Err(sa.error)
      else Ok((fa.value, sa.value))
  }

  /** The unfiltered list: the feeds and the saved searches, each sorted,
      joined, and sorted again on the same key. */
  function Merged(fs: seq<Source>, ss: seq<Source>, orm: SortSpec): seq<Source> {
    var key := (s: Source) => SortKey(orm.field, s);
    SortBy(SortBy(fs, key, orm.desc) + SortBy(ss, key, orm.desc), key, orm.desc)
  }

  /** The key of the Auto Approve column. */
  function ApproveKey(s: Source): seq<int> {
    SortKey(AutoApprove, s)
  }

  /** The joined list is a permutation of its two parts, ordered on the
      text of the sort value: the name, or the auto_approve flag. */
  lemma MergedSorted(fs: seq<Source>, ss: seq<Source>, orm: SortSpec)
    requires orm.field != TypeSort
    ensures multiset(Merged(fs, ss, orm)) == multiset(fs) + multiset(ss)
    ensures orm.field == NameLower ==> SortedBy(Merged(fs, ss, orm), NameKey, orm.desc)
    ensures orm.field == AutoApprove ==> SortedBy(Merged(fs, ss, orm), ApproveKey, orm.desc)
  {
    var key := (s: Source) => SortKey(orm.field, s);
    var merged := Merged(fs, ss, orm);
    assert merged == SortBy(SortBy(fs, key, orm.desc) + SortBy(ss, key, orm.desc), key, orm.desc);
    if orm.field == NameLower {
      assert forall s :: key(s) == NameKey(s);
      forall i, j | 0 <= i < j < |merged| ensures Precedes(NameKey, orm.desc, merged[i], merged[j]) {
        assert Precedes(key, orm.desc, merged[i], merged[j]);
      }
    } else {
      assert forall s :: key(s) == ApproveKey(s);
      forall i, j | 0 <= i < j < |merged| ensures Precedes(ApproveKey, orm.desc, merged[i], merged[j]) {
        assert Precedes(key, orm.desc, merged[i], merged[j]);
      }
    }
  }

  /** The list before paging. 'search' lists the saved searches, 'user'
      the feeds of video services, 'feed' the other feeds, each in the
      database order; with no filter, feeds and searches are merged and
      sorted on the text of the sort value. Sorting on type then re-sorts
      (stably) on the lower-cased source type. */
  function SourceList(feeds: seq<Feed>, searches: seq<SavedSearch>, categories: seq<Category>, users: seq<User>,
                      site: nat, p: ListParams, sourceType: Source -> string): (r: Result<seq<Source>, Failure>)
    ensures r.Err? <==> Narrowed(feeds, searches, categories, users, site, p).Err?
    ensures r.Err? ==> r.error == Narrowed(feeds, searches, categories, users, site, p).error
    ensures r.Ok? ==> var (fs, ss) := Narrowed(feeds, searches, categories, users, site, p).value;
                      forall s :: s in r.value ==> s in fs || s in ss
  {
    var n := Narrowed(feeds, searches, categories, users, site, p);
    if n.Err? then Err(n.error)
    else
      var (fs, ss) := n.value;
      var orm := OrmSort(p.sort);
      var key := (s: Source) => SortKey(orm.field, s);
      var listed :=
        if p.filter == Some("search") then
          Ok(SortBy(ss, key, orm.desc))
        else if p.filter == Some("user") then
          Ok(SortBy(Filter(fs, (s: Source) => s.FeedSource? && s.feed.isServiceFeed), key, orm.desc))
        else if p.filter == Some("feed") then
          Ok(SortBy(Filter(fs, (s: Source) => s.FeedSource? && !s.feed.isServiceFeed), key, orm.desc))
        else Ok(Merged(fs, ss, orm));
      if listed.Err? || p.sort.field != TypeSort then listed
      else Ok(SortBy(listed.value, TypeKey(sourceType), p.sort.desc))
  }

  /** The filters: 'search' lists exactly the narrowed saved searches,
      'user' exactly the narrowed feeds of video services and 'feed'
      exactly the other narrowed feeds. */
  lemma FilterBranches(feeds: seq<Feed>, searches: seq<SavedSearch>, categories: seq<Category>, users: seq<User>,
                       site: nat, p: ListParams, sourceType: Source -> string)
    requires Narrowed(feeds, searches, categories, users, site, p).Ok?
    ensures var (fs, ss) := Narrowed(feeds, searches, categories, users, site, p).value;
            var r := SourceList(feeds, searches, categories, users, site, p, sourceType);
            (p.filter == Some("search") ==>
               r.Ok? && forall s :: s in r.value <==> s in ss) &&
            (p.filter == Some("user") ==>
               r.Ok? && forall s :: s in r.value <==> s in fs && s.feed.isServiceFeed) &&
            (p.filter == Some("feed") ==>
               r.Ok? && forall s :: s in r.value <==> s in fs && !s.feed.isServiceFeed)
  {
  }

  /** With no filter every narrowed source is listed once, ordered on the
      text of the sort value, the name or 'False'/'True' (reversed for a
      '-' sort), unless the sort is on type,
      when the list is ordered on the type and, within a type, on the
      name in the same direction. */
  lemma {:induction false} MergedOrder(feeds: seq<Feed>, searches: seq<SavedSearch>, categories: seq<Category>,
                                       users: seq<User>, site: nat, p: ListParams, sourceType: Source -> string)
    requires Narrowed(feeds, searches, categories, users, site, p).Ok?
    requires p.filter !in {Some("search"), Some("user"), Some("feed")}
    ensures var (fs, ss) := Narrowed(feeds, searches, categories, users, site, p).value;
            var r := SourceList(feeds, searches, categories, users, site, p, sourceType);
            r.Ok? && multiset(r.value) == multiset(fs) + multiset(ss) &&
            (p.sort.field == NameLower ==> SortedBy(r.value, NameKey, p.sort.desc)) &&
            (p.sort.field == AutoApprove ==> SortedBy(r.value, ApproveKey, p.sort.desc)) &&
            (p.sort.field == TypeSort ==>
               SortedBy(r.value, TypeKey(sourceType), p.sort.desc) &&
               TiesOrdered(r.value, TypeKey(sourceType), NameKey, p.sort.desc))
  {
    var (fs, ss) := Narrowed(feeds, searches, categories, users, site, p).value;
    var merged := Merged(fs, ss, OrmSort(p.sort));
    MergedSorted(fs, ss, OrmSort(p.sort));
    var r := SourceList(feeds, searches, categories, users, site, p, sourceType);
    assert r == if p.sort.field == TypeSort then Ok(SortBy(merged, TypeKey(sourceType), p.sort.desc)) else Ok(merged);
    if p.sort.field == TypeSort {
      SortByKeepsTies(merged, TypeKey(sourceType), p.sort.desc, NameKey, p.sort.desc);
    }
  }

  /** Sources per page of the list. */
  const PerPage := 15

  /** paginator.page(int(GET.get('page', 1))): a page number that is not
      an integer escapes as an error, one out of range is a 404. */
  function SourcePage(sources: seq<Source>, page: Option<string>): (r: Result<seq<Source>, Failure>)
    ensures page.None? ==> r.Ok? && r.value == Paging.Window(sources, 0, PerPage)
    ensures r.Ok? ==> |r.value| <= PerPage && forall s :: s in r.value ==> s in sources
    ensures page.Some? && ParseInt(page.value).None? ==> r == Err(ServerError)
    ensures page.Some? && ParseInt(page.value).Some? ==>
              (r == Err(NotFound) <==> !(1 <= ParseInt(page.value).value <= Paging.NumPages(|sources|, PerPage)))
    ensures r.Ok? ==> Some(r.value) == Paging.Page(sources, PerPage, if page.None? then 1 else ParseInt(page.value).value)
  {
    var number := if page.None? then Some(1) else ParseInt(page.value);
    if number.None? then Err(ServerError)
    else
      var p := Paging.Page(sources, PerPage, number.value);
      if p.None? then Err(NotFound)
      else
        assert page.None? ==> p.value == Paging.Window(sources, 0, PerPage);
        Ok(p.value)
  }

  // ------------------------------------------------------------------ POST

  /** The rows removing sources touches. */
  datatype Tables = Tables(videos: seq<Video>, feeds: seq<Feed>, searches: seq<SavedSearch>)

  predicate FromSource(v: Video, s: Source) {
    match s
    case FeedSource(f) => v.feed == Some(f.id)
    case SearchSource(q) => v.search == Some(q.id)
  }

  function Detach(v: Video, s: Source): Video {
    if FromSource(v, s) then v.(feed := None, search := None) else v
  }

  /** Removing one source: with 'keep' its videos lose both their feed and
      their search and stay; then the source is deleted, and any video
      still pointing at it is deleted with it. */
  function RemoveOne(t: Tables, s: Source, keep: bool): (r: Tables)
    ensures forall v :: v in r.videos ==> !FromSource(v, s)
    ensures keep ==> |r.videos| == |t.videos|
    ensures !keep ==> r.videos == Filter(t.videos, (v: Video) => !FromSource(v, s))
  {
    var videos := if keep then MapSeq(t.videos, (v: Video) => Detach(v, s)) else t.videos;
    var kept := Filter(videos, (v: Video) => !FromSource(v, s));
    assert keep ==> kept == videos by {
      if keep {
        FilterKeepsAll(videos, (v: Video) => !FromSource(v, s));
      }
    }
    match s
    case FeedSource(f) => Tables(kept, Filter(t.feeds, (g: Feed) => g.id != f.id), t.searches)
    case SearchSource(q) => Tables(kept, t.feeds, Filter(t.searches, (x: SavedSearch) => x.id != q.id))
  }

  /** The removals in order. */
  function RemoveAll(t: Tables, sources: seq<Source>, keep: bool): Tables
    decreases |sources|
  {
    if sources == [] then t
    else RemoveOne(RemoveAll(t, sources[..|sources| - 1], keep), sources[|sources| - 1], keep)
  }

  lemma RemoveAllSnoc(t: Tables, sources: seq<Source>, i: nat, keep: bool)
    requires i < |sources|
    ensures RemoveAll(t, sources[..i + 1], keep) == RemoveOne(RemoveAll(t, sources[..i], keep), sources[i], keep)
  {
    assert sources[..i + 1][..i] == sources[..i];
  }

  /** After the removals no removed feed or search is left, and no video
      points at one. With 'keep' every video survives, at worst detached;
      without it, every video that pointed at no removed source survives. */
  lemma {:induction false} RemoveAllEffect(t: Tables, sources: seq<Source>, keep: bool)
    ensures var r := RemoveAll(t, sources, keep);
            (forall s, v :: s in sources && v in r.videos ==> !FromSource(v, s)) &&
            (forall s :: s in sources && s.FeedSource? ==> forall f :: f in r.feeds ==> f.id != s.feed.id) &&
            (forall s :: s in sources && s.SearchSource? ==> forall q :: q in r.searches ==> q.id != s.search.id) &&
            (keep ==> |r.videos| == |t.videos|) &&
            (!keep ==> forall v :: v in t.videos && (forall s :: s in sources ==> !FromSource(v, s)) ==> v in r.videos) &&
            (!keep ==> forall v :: v in r.videos ==> v in t.videos)
    decreases |sources|
  {
    if sources != [] {
      var init := sources[..|sources| - 1];
      var last := sources[|sources| - 1];
      RemoveAllEffect(t, init, keep);
      var m := RemoveAll(t, init, keep);
      var r := RemoveOne(m, last, keep);
      assert r == RemoveAll(t, sources, keep);
      assert forall s :: s in sources ==> s in init || s == last;
      assert forall s :: s in init ==> s in sources;
      if keep {
        MapKeepsDetached(m.videos, last, init);
      }
    }
  }

  /** Detaching a source's videos never re-attaches another source. */
  lemma MapKeepsDetached(videos: seq<Video>, s: Source, others: seq<Source>)
    requires forall o, v :: o in others && v in videos ==> !FromSource(v, o)
    ensures forall o, v :: o in others && v in MapSeq(videos, (w: Video) => Detach(w, s)) ==> !FromSource(v, o)
  {
    var d := MapSeq(videos, (w: Video) => Detach(w, s));
    forall o, v | o in others && v in d ensures !FromSource(v, o) {
      var i :| 0 <= i < |d| && d[i] == v;
      assert videos[i] in videos;
    }
  }

  /** The POST branch once the formset is valid: the checked sources are
      removed when the bulk action is 'remove', then the sources marked
      for deletion. */
  method RemoveSources(db: Store.Db, bulk: seq<Source>, bulkAction: string, deleted: seq<Source>, keep: bool)
    modifies db`videos, db`feeds, db`searches
    ensures Tables(db.videos, db.feeds, db.searches) ==
            RemoveAll(Tables(old(db.videos), old(db.feeds), old(db.searches)),
                      (if bulkAction == "remove" then bulk else []) + deleted, keep)
  {
    var sources := (if bulkAction == "remove" then bulk else []) + deleted;
    ghost var t0 := Tables(db.videos, db.feeds, db.searches);
    for i := 0 to |sources|
      invariant Tables(db.videos, db.feeds, db.searches) == RemoveAll(t0, sources[..i], keep)
    {
      RemoveAllSnoc(t0, sources, i, keep);
      var r := RemoveOne(Tables(db.videos, db.feeds, db.searches), sources[i], keep);
      db.videos, db.feeds, db.searches := r.videos, r.feeds, r.searches;
    }
    assert sources[..|sources|] == sources;
  }

  /** The redirect after a successful save: the full path with
      'successful' added as a further query parameter, or as the query
      when there is none. */
  function SuccessRedirect(path: string): (r: string)
    ensures |r| == |path| + 11 && r[..|path|] == path
    ensures '?' in path ==> r == path + "&successful"
    ensures '?' !in path ==> r == path + "?successful"
  {
    if '?' in path then path + "&successful" else path + "?successful"
  }

  /** The redirect always carries a query string that ends in the flag. */
  lemma SuccessRedirectHasQuery(path: string)
    ensures '?' in SuccessRedirect(path)
    ensures SuccessRedirect(path)[|SuccessRedirect(path)| - 10..] == "successful"
  {
    var r := SuccessRedirect(path);
    if '?' in path {
      var i :| 0 <= i < |path| && path[i] == '?';
      assert r[i] == '?';
    } else {
      assert r[|path|] == '?';
    }
  }
}
