/** The video page (VideoView in localtv/views.py): which videos it can
    show, the slug redirect and the recorded watch, the category the page
    is shown under, and the playlist items it lists. */
module VideoPage {
  import opened Common
  import opened Strings
  import Sorting
  import Store
  import SearchForms
  import PlaylistViews
  import VideoModel

  /** get_queryset: the videos of the current site, and for a visitor who
      is not an admin only the published ones. */
  function VisibleVideos(videos: seq<Video>, isAdmin: bool, siteId: nat): (r: seq<Video>)
    ensures forall v :: v in r <==> v in videos && v.site == siteId && (isAdmin || v.status == Active)
  {
    Filter(videos, (v: Video) => (isAdmin || v.status == Active) && v.site == siteId)
  }

  /** get_object: the video with the pk among the visible ones; None is
      the 404. */
  function GetObject(videos: seq<Video>, pk: nat, isAdmin: bool, siteId: nat): (r: Option<Video>)
    ensures r.Some? ==> r.value in videos && r.value.id == pk && r.value.site == siteId
    ensures r.Some? && !isAdmin ==> r.value.status == Active
    ensures r.None? ==> forall v :: v in videos && v.id == pk && v.site == siteId ==> !isAdmin && v.status != Active
  {
    var vis := VisibleVideos(videos, isAdmin, siteId);
    var k := Store.FindById(vis, pk);
    if k.None? then
      assert forall v :: v in vis ==> v.id != pk;
      None
    else Some(vis[k.value])
  }

  /** Whatever a visitor can open, an admin of the site can open too. */
  lemma AdminSeesAllVisitorSees(videos: seq<Video>, pk: nat, siteId: nat)
    requires GetObject(videos, pk, false, siteId).Some?
    ensures GetObject(videos, pk, true, siteId).Some?
  {
    var v := GetObject(videos, pk, false, siteId).value;
    assert v in VisibleVideos(videos, true, siteId);
  }

  /** `s.index(needle, i)` searched from position i: the first position
      where the needle occurs, None for the ValueError. */
  function IndexFrom(s: string, needle: string, i: nat): (r: Option<nat>)
    decreases |s| - i
    ensures r.Some? ==> i <= r.value && OccursAt(s, needle, r.value)
    ensures r.Some? ==> forall j :: i <= j < r.value ==> !OccursAt(s, needle, j)
    ensures r.None? ==> forall j :: i <= j ==> !OccursAt(s, needle, j)
  {
    if i + |needle| > |s| then None
    else if s[i..i + |needle|] == needle then Some(i)
    else IndexFrom(s, needle, i + 1)
  }

  /** In a URL that starts with a scheme the first '://' ends the scheme. */
  lemma SchemeSeparator(s: string, scheme: string)
    requires scheme == "http" || scheme == "https"
    requires StartsWith(s, scheme + "://")
    ensures IndexFrom(s, "://", 0) == Some(|scheme|)
  {
    assert OccursAt(s, "://", |scheme|) by {
      assert s[|scheme|..|scheme| + 3] == (scheme + "://")[|scheme|..];
    }
    forall j | 0 <= j < |scheme|
      ensures !OccursAt(s, "://", j)
    {
      assert s[j] == (scheme + "://")[j] == scheme[j];
    }
  }

  /** The referrer with its scheme cut off, when it has one. */
  function StripScheme(s: string): (r: string)
    ensures StartsWith(s, "http://") ==> r == s[7..]
    ensures StartsWith(s, "https://") ==> r == s[8..]
    ensures !StartsWith(s, "http://") && !StartsWith(s, "https://") ==> r == s
  {
    if StartsWith(s, "http://") then
      assert s[..7][4] == ':' && s[4] == ':';
      s[7..]
    else if StartsWith(s, "https://") then s[8..]
    else s
  }

  /** The path the view tries to resolve: only for a non-empty referrer
      and host, and only when the referrer, without its scheme, starts
      with the host; the path is what follows the host. */
  function ReferredPath(referrer: Option<string>, host: Option<string>): (r: Option<string>)
    ensures r.Some? <==> referrer.Some? && referrer.value != "" && host.Some? && host.value != "" &&
                         StartsWith(StripScheme(referrer.value), host.value)
    ensures r.Some? ==> StripScheme(referrer.value) == host.value + r.value
  {
    if referrer.None? || referrer.value == "" || host.None? || host.value == "" then None
    else
      var rest := StripScheme(referrer.value);
      if StartsWith(rest, host.value) then
        assert rest == host.value + rest[|host.value|..];
        Some(rest[|host.value|..])
      else None
  }

  /** The referrer handling as get_context_data does it: the string is
      cut after the first '://' when it starts with a scheme, then after
      the host. */
  method ReferredPathOf(referrer: Option<string>, host: Option<string>) returns (r: Option<string>)
    ensures r == ReferredPath(referrer, host)
  {
    if referrer.None? || referrer.value == "" || host.None? || host.value == "" {
      return None;
    }
    var ref := referrer.value;
    if StartsWith(ref, "http://") || StartsWith(ref, "https://") {
      if StartsWith(ref, "http://") {
        SchemeSeparator(ref, "http");
      } else {
        SchemeSeparator(ref, "https");
      }
      ref := ref[IndexFrom(ref, "://", 0).value + 3..];
    }
    if StartsWith(ref, host.value) {
      ref := ref[|host.value|..];
      return Some(ref);
    }
    return None;
  }

  /** A link followed from a page of this host gives that page's path,
      whether it came over http or https. */
  lemma ReferrerOfOwnPage(scheme: string, host: string, path: string)
    requires scheme == "http://" || scheme == "https://"
    requires host != ""
    ensures ReferredPath(Some(scheme + host + path), Some(host)) == Some(path)
  {
    var s := scheme + host + path;
    assert StartsWith(s, scheme);
    assert StripScheme(s) == host + path by {
      assert s[|scheme|..] == host + path;
      if scheme == "https://" {
        assert s[4] == 's';
      }
    }
    assert StartsWith(host + path, host);
  }

  /** The video's categories, in the model's name order. */
  function VideoCategories(v: Video, cats: seq<Category>): (r: seq<Category>)
    ensures forall c :: c in r <==> c in cats && c.id in v.categories
  {
    var own := Filter(cats, (c: Category) => c.id in v.categories);
    var r := Sorting.SortBy(own, (c: Category) => Codes(c.name), false);
    assert multiset(r) == multiset(own);
    assert forall c :: c in r <==> c in multiset(own);
    r
  }

  /** The category the page is shown under: none when the video has no
      category; the referred category when the referrer resolves to a
      category page whose slug names one of the video's categories on
      this site; otherwise the video's first category. `resolve` stands
      for the URL resolver: the slug when the path is a category page. */
  function ChooseCategory(videoCats: seq<Category>, referred: Option<string>, resolve: string -> Option<string>,
                          site: nat): (r: Option<Category>)
    ensures r.None? <==> videoCats == []
    ensures r.Some? ==> r.value in videoCats
    ensures videoCats != [] && (referred.None? || resolve(referred.value).None?) ==> r == Some(videoCats[0])
    ensures referred.Some? && resolve(referred.value).Some? && r.Some? && r != Some(videoCats[0]) ==>
              r.value.slug == resolve(referred.value).value && r.value.site == site
    ensures referred.Some? && resolve(referred.value).Some? &&
            (exists c :: c in videoCats && c.slug == resolve(referred.value).value && c.site == site) ==>
              r.value.slug == resolve(referred.value).value && r.value.site == site
  {
    if videoCats == [] then None
    else if referred.None? then Some(videoCats[0])
    else
      var slug := resolve(referred.value);
      if slug.None? then Some(videoCats[0])
      else
        var hits := Filter(videoCats, (c: Category) => c.slug == slug.value && c.site == site);
        if hits == [] then Some(videoCats[0])
        else
          assert hits[0] in hits;
          Some(hits[0])
  }

  /** The popular-videos form data: the 'popular' sort, narrowed to the
      chosen category when there is one. */
  function PopularFormData(category: Option<Category>): (cd: SearchForms.CleanedData)
    ensures cd.sort == "popular" && cd.q == "" && cd.sort in SearchForms.SortKeys
    ensures cd.category == (if category.Some? then [category.value.id] else [])
    ensures cd.tag == [] && cd.author == [] && cd.playlist == [] && cd.feed == [] && !cd.featured
  {
    assert SearchForms.SortKeys[2] == "popular";
    SearchForms.CleanedData("", "popular", [], if category.Some? then [category.value.id] else [], [], [], [], false)
  }

  /** The popular videos next to a video shown under a category all
      belong to that category. */
  lemma PopularLimitedToCategory(c: Category, env: SearchForms.SearchEnv, v: Video)
    requires SearchForms.ValidSearchEnv(env)
    requires v in SearchForms.Search(true, PopularFormData(Some(c)), env).rows
    ensures SearchForms.MatchesAny(v, SearchForms.CategoryLookups, [c.id],
                                   SearchForms.BasicSearch(PopularFormData(Some(c)), env).haystack)
  {
    var cd := PopularFormData(Some(c));
    SearchForms.PassesCategories(cd, v, SearchForms.BasicSearch(cd, env).haystack);
  }

  /** Who may see a playlist on the video page: anyone when it is public,
      an admin always, and its owner when logged in. */
  predicate CanSee(p: Playlist, user: User, isAdmin: bool) {
    p.status == Public || isAdmin || (user.authenticated && p.user == user.pk)
  }

  /** The playlist items listed with the video, as the three branches
      filter them: all for an admin, public or own for a logged-in user,
      public only for an anonymous visitor. */
  function ShownItems(items: seq<Playlist>, user: User, isAdmin: bool): (r: seq<Playlist>)
    ensures |r| <= |items|
    ensures forall p :: p in r ==> p in items
  {
    if isAdmin then items
    else if user.authenticated then Filter(items, (p: Playlist) => p.status == Public || p.user == user.pk)
    else Filter(items, (p: Playlist) => p.status == Public)
  }

  /** The listing and the single-item check agree: an item is listed
      exactly when its playlist could be asked for by ?playlist. */
  lemma ShownItemsAreVisible(items: seq<Playlist>, user: User, isAdmin: bool)
    ensures forall p :: p in ShownItems(items, user, isAdmin) <==> p in items && CanSee(p, user, isAdmin)
  {
    if !isAdmin && user.authenticated {
      var r := Filter(items, (p: Playlist) => p.status == Public || p.user == user.pk);
      assert forall p :: p in r <==> p in items && (p.status == Public || p.user == user.pk);
    } else if !isAdmin {
      var r := Filter(items, (p: Playlist) => p.status == Public);
      assert forall p :: p in r <==> p in items && p.status == Public;
    }
  }

  /** ?playlist: an absent, non-integer or unknown playlist is ignored; a
      known one gives its item on this video when the user may see the
      playlist and the video is in it. */
  function PlaylistItem(param: Option<string>, playlists: seq<Playlist>, itemIds: seq<nat>, user: User, isAdmin: bool)
    : (r: Option<Playlist>)
    ensures r.Some? ==> param.Some? && ParseInt(param.value) == Some(r.value.id as int)
    ensures r.Some? ==> r.value in playlists && r.value.id in itemIds && CanSee(r.value, user, isAdmin)
  {
    if param.None? then None
    else
      var pk := ParseInt(param.value);
      if pk.None? || pk.value < 0 then None
      else
        var k := PlaylistViews.FindPlaylist(playlists, pk.value);
        if k.None? then None
        else
          var p := playlists[k.value];
          if CanSee(p, user, isAdmin) && p.id in itemIds then Some(p) else None
  }

  /** Playlists with distinct primary keys. */
  predicate UniquePlaylistIds(ps: seq<Playlist>) {
    forall i, j :: 0 <= i < j < |ps| ==> ps[i].id != ps[j].id
  }

  /** With distinct primary keys the item is shown exactly when the
      parameter names a playlist the user may see and the video is in. */
  lemma PlaylistItemShownIff(param: string, playlists: seq<Playlist>, itemIds: seq<nat>, user: User, isAdmin: bool)
    requires UniquePlaylistIds(playlists)
    ensures PlaylistItem(Some(param), playlists, itemIds, user, isAdmin).Some? <==>
              exists p :: p in playlists && ParseInt(param) == Some(p.id as int) && CanSee(p, user, isAdmin) && p.id in itemIds
  {
    var pk := ParseInt(param);
    if p :| p in playlists && pk == Some(p.id as int) && CanSee(p, user, isAdmin) && p.id in itemIds {
      var i :| 0 <= i < |playlists| && playlists[i] == p;
      var k := PlaylistViews.FindPlaylist(playlists, p.id);
      assert k.Some?;
    }
  }

  /** What the template receives; the optional entries are None when the
      view does not set them. */
  datatype VideoContext = VideoContext(
    currentVideo: Video,
    sidebarModules: seq<string>,
    editVideoForm: bool,
    category: Option<Category>,
    popularForm: SearchForms.CleanedData,
    popularVideos: seq<Video>,
    playlists: Option<seq<Playlist>>,
    playlistItems: Option<seq<Playlist>>,
    playlistItem: Option<Playlist>)

  /** The request as the view reads it. */
  datatype Request = Request(
    user: User,
    isAdmin: bool,
    path: string,
    referrer: Option<string>,
    host: Option<string>,
    meta: map<string, string>,  // request.META, for the watch address
    playlistParam: Option<string>)

  /** Everything outside the request the page depends on: the URL
      resolver, the video URLs, iri_to_uri, whether the popular form
      validates, and the search the popular form runs. */
  datatype PageEnv = PageEnv(
    settings: SiteSettings,
    resolve: string -> Option<string>,
    absoluteUrl: Video -> string,
    iriToUri: string -> string,
    popularValid: bool,
    search: SearchForms.SearchEnv)

  const SidebarModules: seq<string> := ["localtv/_modules/suggested_videos.html"]

  /** get_context_data */
  function ContextFor(v: Video, req: Request, env: PageEnv, cats: seq<Category>, playlists: seq<Playlist>)
    : (ctx: VideoContext)
    requires SearchForms.ValidSearchEnv(env.search)
    ensures ctx.currentVideo == v && ctx.editVideoForm == req.isAdmin && ctx.sidebarModules == SidebarModules
    ensures ctx.category == ChooseCategory(VideoCategories(v, cats), ReferredPath(req.referrer, req.host),
                                           env.resolve, env.settings.site)
    ensures ctx.popularForm == PopularFormData(ctx.category)
    ensures ctx.popularVideos == SearchForms.Search(env.popularValid, ctx.popularForm, env.search).rows
    ensures ctx.playlists.Some? <==>
              env.settings.playlistsEnabled != 0 && req.user.authenticated &&
              (req.isAdmin || env.settings.playlistsEnabled == 1)
    ensures ctx.playlists.Some? ==> forall p :: p in ctx.playlists.value <==> p in playlists && p.user == req.user.pk
    ensures ctx.playlistItems.Some? <==> env.settings.playlistsEnabled != 0
    ensures ctx.playlistItems.Some? ==>
              forall p :: p in ctx.playlistItems.value <==>
                p in playlists && p.id in v.playlists && CanSee(p, req.user, req.isAdmin)
    ensures ctx.playlistItem.Some? ==>
              env.settings.playlistsEnabled != 0 && ctx.playlistItem.value.id in v.playlists &&
              CanSee(ctx.playlistItem.value, req.user, req.isAdmin)
  {
    var category := ChooseCategory(VideoCategories(v, cats), ReferredPath(req.referrer, req.host),
                                   env.resolve, env.settings.site);
    var form := PopularFormData(category);
    var popular := SearchForms.Search(env.popularValid, form, env.search).rows;
    VideoContext(v, SidebarModules, req.isAdmin, category, form, popular,
                 OwnPlaylists(req, env.settings, playlists),
                 PlaylistItems(v, req, env.settings, playlists),
                 RequestedItem(v, req, env.settings, playlists))
  }

  /** The 'playlists' entry: the user's own playlists, offered when
      playlists are enabled for everyone, or for admins and the user is
      one. */
  function OwnPlaylists(req: Request, settings: SiteSettings, playlists: seq<Playlist>): (r: Option<seq<Playlist>>)
    ensures r.Some? <==>
              settings.playlistsEnabled != 0 && req.user.authenticated &&
              (req.isAdmin || settings.playlistsEnabled == 1)
    ensures r.Some? ==> forall p :: p in r.value <==> p in playlists && p.user == req.user.pk
  {
    if settings.playlistsEnabled != 0 && req.user.authenticated && (req.isAdmin || settings.playlistsEnabled == 1)
    then Some(Filter(playlists, (p: Playlist) => p.user == req.user.pk)) else None
  }

  /** The playlists holding the video, as far as the visitor may see
      them. */
  function VideoPlaylists(v: Video, playlists: seq<Playlist>): (r: seq<Playlist>)
    ensures forall p :: p in r <==> p in playlists && p.id in v.playlists
  {
    Filter(playlists, (p: Playlist) => p.id in v.playlists)
  }

  /** The 'playlistitem_set' entry, present when playlists are enabled. */
  function PlaylistItems(v: Video, req: Request, settings: SiteSettings, playlists: seq<Playlist>)
    : (r: Option<seq<Playlist>>)
    ensures r.Some? <==> settings.playlistsEnabled != 0
    ensures r.Some? ==>
              forall p :: p in r.value <==> p in playlists && p.id in v.playlists && CanSee(p, req.user, req.isAdmin)
  {
    var items := VideoPlaylists(v, playlists);
    ShownItemsAreVisible(items, req.user, req.isAdmin);
    if settings.playlistsEnabled != 0 then Some(ShownItems(items, req.user, req.isAdmin)) else None
  }

  /** The 'playlistitem' entry for a ?playlist= parameter: only a playlist
      holding the video that the visitor may see. */
  function RequestedItem(v: Video, req: Request, settings: SiteSettings, playlists: seq<Playlist>)
    : (r: Option<Playlist>)
    ensures r.Some? ==>
              settings.playlistsEnabled != 0 && r.value.id in v.playlists && CanSee(r.value, req.user, req.isAdmin)
  {
    var items := VideoPlaylists(v, playlists);
    var itemIds := MapSeq(items, (p: Playlist) => p.id);
    var item := if settings.playlistsEnabled != 0
                then PlaylistItem(req.playlistParam, playlists, itemIds, req.user, req.isAdmin) else None;
    assert item.Some? ==> item.value.id in v.playlists by {
      if item.Some? {
        var i :| 0 <= i < |itemIds| && itemIds[i] == item.value.id;
        assert items[i] in items;
      }
    }
    item
  }

  /** What the view answers. */
  datatype Outcome = NotFound | Redirect(url: string) | Render(ctx: VideoContext)

  /** VideoView.get: 404 for a video the visitor may not see; a redirect
      to the canonical URL when the slug is missing or the path differs;
      otherwise the page, and a Watch recorded for it. Only the page
      records a watch. */
  method Get(db: Store.Db, pk: nat, slug: Option<string>, req: Request, env: PageEnv, now: Time)
    returns (r: Outcome)
    requires SearchForms.ValidSearchEnv(env.search)
    modifies db`watches
    ensures GetObject(db.videos, pk, req.isAdmin, env.settings.site).None? ==>
              r == NotFound && db.watches == old(db.watches)
    ensures GetObject(db.videos, pk, req.isAdmin, env.settings.site).Some? ==>
              var v := GetObject(db.videos, pk, req.isAdmin, env.settings.site).value;
              if slug.None? || env.iriToUri(req.path) != env.absoluteUrl(v) then
                r == Redirect(env.absoluteUrl(v)) && db.watches == old(db.watches)
              else
                r == Render(ContextFor(v, req, env, db.categories, db.playlists)) &&
                db.watches == old(db.watches) + [VideoModel.WatchAdd(req.meta, req.user, v.id, now)]
  {
    var found := GetObject(db.videos, pk, req.isAdmin, env.settings.site);
    if found.None? {
      return NotFound;
    }
    var v := found.value;
    var absUrl := env.absoluteUrl(v);
    if slug.None? || env.iriToUri(req.path) != absUrl {
      return Redirect(absUrl);
    }
    var ctx := ContextFor(v, req, env, db.categories, db.playlists);
    db.watches := db.watches + [VideoModel.WatchAdd(req.meta, req.user, v.id, now)];
    return Render(ctx);
  }
}
