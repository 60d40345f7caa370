/** The bulk video editor's list (bulk_edit in
    localtv/admin/legacy/bulk_edit_views.py): which videos it lists, in
    what order, which page of them, and the redirect after a save. */
module BulkEdit {
  import opened Common
  import opened Strings
  import opened Sorting
  import Paging
  import Managers

  /** The starting set: the site's published videos, narrowed to featured,
      unattributed or uncategorised ones by those filters; 'rejected' and
      'unapproved' start over from every hidden or queued video, on any
      site. */
  function BaseSet(videos: seq<Video>, site: nat, filter: Option<string>): (r: seq<Video>)
    ensures filter == Some("rejected") ==> forall v :: v in r <==> v in videos && v.status == Rejected
    ensures filter == Some("unapproved") ==> forall v :: v in r <==> v in videos && v.status == Unapproved
    ensures filter != Some("rejected") && filter != Some("unapproved") ==>
              forall v :: v in r <==>
                v in videos && v.status == Active && v.site == site &&
                (filter == Some("featured") ==> v.lastFeatured.Some?) &&
                (filter == Some("no-attribution") ==> v.authors == {}) &&
                (filter == Some("no-category") ==> v.categories == [])
  {
    var published := Filter(videos, (v: Video) => v.status == Active && v.site == site);
    if filter == Some("featured") then Filter(published, (v: Video) => v.lastFeatured.Some?)
    else if filter == Some("rejected") then Filter(videos, (v: Video) => v.status == Rejected)
    else if filter == Some("no-attribution") then Filter(published, (v: Video) => v.authors == {})
    else if filter == Some("no-category") then Filter(published, (v: Video) => v.categories == [])
    else if filter == Some("unapproved") then Filter(videos, (v: Video) => v.status == Unapproved)
    else published
  }

  /** int(GET.get(name, '')), with a ValueError meaning "no filter". */
  function IntParam(param: Option<string>): (r: Option<int>)
    ensures param.None? ==> r.None?
    ensures param.Some? ==> r == ParseInt(param.value)
  {
    if param.None? then None else ParseInt(param.value)
  }

  /** The text search: description, name, the names of its categories,
      its user's names, the service user or the feed name contain the
      text, ignoring case. The related names are a parameter. */
  predicate MatchesText(v: Video, q: string, related: Video -> seq<string>) {
    Contains(Lower(v.description), Lower(q)) || Contains(Lower(v.name), Lower(q)) ||
    exists i :: 0 <= i < |related(v)| && Contains(Lower(related(v)[i]), Lower(q))
  }

  /** The request's list parameters. */
  datatype ListParams = ListParams(filter: Option<string>, category: Option<string>, author: Option<string>,
                                   q: string, sort: BulkSort, desc: bool)

  /** The sortable columns: the title (lower-cased), the source
      (calculated_source_type) and the two dates. */
  datatype BulkSort = ByName | BySource | ByPublished | BySubmitted

  /** The key order_by uses: 'name' becomes name_lower, 'source' becomes
      calculated_source_type (a parameter), any other column its field. */
  function SortKey(sort: BulkSort, sourceType: Video -> string): Video -> seq<int> {
    match sort
    case ByName => (v: Video) => Codes(Lower(v.name))
    case BySource => (v: Video) => Codes(sourceType(v))
    case ByPublished => (v: Video) => Managers.DateKey(v.whenPublished)
    case BySubmitted => (v: Video) => [v.whenSubmitted]
  }

  /** The list: the starting set narrowed by the category, the author
      and the text, then sorted. A category or author that is not an
      integer is ignored. */
  function Listed(videos: seq<Video>, site: nat, p: ListParams, related: Video -> seq<string>,
                  sourceType: Video -> string): (r: seq<Video>)
    ensures SortedBy(r, SortKey(p.sort, sourceType), p.desc)
    ensures forall v :: v in r <==>
              v in BaseSet(videos, site, p.filter) &&
              (IntParam(p.category).Some? ==> IntParam(p.category).value in v.categories) &&
              (IntParam(p.author).Some? ==> IntParam(p.author).value in v.authors) &&
              (p.q != "" ==> MatchesText(v, p.q, related))
  {
    var base := BaseSet(videos, site, p.filter);
    var byText := ByText(ByAuthor(ByCategory(base, IntParam(p.category)), IntParam(p.author)), p.q, related);
    SortBy(byText, SortKey(p.sort, sourceType), p.desc)
  }

  /** filter(categories=...) when the parameter is an integer. */
  function ByCategory(s: seq<Video>, c: Option<int>): (r: seq<Video>)
    ensures c.None? ==> r == s
    ensures forall v :: v in r <==> v in s && (c.Some? ==> c.value in v.categories)
  {
    if c.Some? then Filter(s, (v: Video) => c.value in v.categories) else s
  }

  /** filter(authors=...) when the parameter is an integer. */
  function ByAuthor(s: seq<Video>, a: Option<int>): (r: seq<Video>)
    ensures a.None? ==> r == s
    ensures forall v :: v in r <==> v in s && (a.Some? ==> a.value in v.authors)
  {
    if a.Some? then Filter(s, (v: Video) => a.value in v.authors) else s
  }

  /** The text search, when there is a query. */
  function ByText(s: seq<Video>, q: string, related: Video -> seq<string>): (r: seq<Video>)
    ensures q == "" ==> r == s
    ensures forall v :: v in r <==> v in s && (q != "" ==> MatchesText(v, q, related))
  {
    if q != "" then Filter(s, (v: Video) => MatchesText(v, q, related)) else s
  }

  /** A category or author parameter that is not an integer narrows
      nothing. */
  lemma NonIntegerIgnored(videos: seq<Video>, site: nat, p: ListParams, related: Video -> seq<string>,
                          sourceType: Video -> string)
    requires IntParam(p.category).None? && IntParam(p.author).None? && p.q == ""
    ensures multiset(Listed(videos, site, p, related, sourceType)) == multiset(BaseSet(videos, site, p.filter))
  {
  }

  /** Videos per page of the editor. */
  const PerPage := 30

  /** The page shown: a page number that is not an integer is a 400 'Not
      a page number'; no page shows page 1, and a number with no page
      (past the end, or below 1) shows the last page. */
  function BulkPage(listed: seq<Video>, page: Option<string>): (r: Result<seq<Video>, string>)
    ensures (page.Some? && ParseInt(page.value).None?) <==> r == Err("Not a page number")
    ensures r.Ok? ==> |r.value| <= PerPage && forall v :: v in r.value ==> v in listed
    ensures page.None? ==> r.Ok? && Some(r.value) == Paging.Page(listed, PerPage, 1)
    ensures page.Some? && ParseInt(page.value).Some? ==>
              r == Ok(Paging.PageOrLast(listed, PerPage, ParseInt(page.value).value))
    ensures page.Some? && ParseInt(page.value).Some? && 1 <= ParseInt(page.value).value <= Paging.NumPages(|listed|, PerPage) ==>
              r.Ok? && Some(r.value) == Paging.Page(listed, PerPage, ParseInt(page.value).value)
    ensures page.Some? && ParseInt(page.value).Some? && !(1 <= ParseInt(page.value).value <= Paging.NumPages(|listed|, PerPage)) ==>
              r.Ok? && Some(r.value) == Paging.Page(listed, PerPage, Paging.NumPages(|listed|, PerPage))
  {
    var n := if page.None? then Some(1) else ParseInt(page.value);
    if n.None? then Err("Not a page number") else Ok(Paging.PageOrLast(listed, PerPage, n.value))
  }

  /** The redirect after a valid save: the full path as it is when the
      query already has 'successful', otherwise with 'successful' added
      after '&' or '?'. */
  function SuccessRedirect(path: string, getKeys: set<string>): (r: string)
    ensures "successful" in getKeys ==> r == path
    ensures "successful" !in getKeys ==> r == path + (if '?' in path then "&" else "?") + "successful"
  {
    if "successful" in getKeys then path
    else if '?' in path then path + "&successful"
    else path + "?successful"
  }

  /** Following the redirect does not add the flag again: the redirected
      request has 'successful' among its GET keys, so its own redirect is
      its path unchanged. */
  lemma RedirectSettles(path: string, getKeys: set<string>)
    ensures SuccessRedirect(SuccessRedirect(path, getKeys), getKeys + {"successful"}) == SuccessRedirect(path, getKeys)
  {
  }
}
