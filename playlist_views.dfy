/** The playlist views (localtv/playlists/views.py): the gates every
    view passes, the bulk status actions of the index, the single
    'public' and 'private' actions and the playlist page. */
module PlaylistViews {
  import opened Common
  import Store

  /** playlist_enabled: off (0) is a 404 for everyone, admins-only (2)
      is a 404 for everyone else, any other value lets the view run. */
  predicate PlaylistEnabled(settings: SiteSettings, isAdmin: bool) {
    settings.playlistsEnabled != 0 && !(settings.playlistsEnabled == 2 && !isAdmin)
  }

  lemma PlaylistEnabledCases(settings: SiteSettings, isAdmin: bool)
    ensures settings.playlistsEnabled == 0 ==> !PlaylistEnabled(settings, isAdmin)
    ensures settings.playlistsEnabled == 2 ==> (PlaylistEnabled(settings, isAdmin) <==> isAdmin)
    ensures settings.playlistsEnabled != 0 && settings.playlistsEnabled != 2 ==> PlaylistEnabled(settings, isAdmin)
  {
  }

  /** `playlist.user == request.user`: an anonymous visitor owns nothing. */
  predicate IsOwner(p: Playlist, user: User) {
    user.authenticated && p.user == user.pk
  }

  /** playlist_authorized: admins and the owner act; anyone else is sent
      to the login page. */
  predicate PlaylistAuthorized(p: Playlist, user: User, isAdmin: bool) {
    isAdmin || IsOwner(p, user)
  }

  /** The status bulk 'public' gives a selected playlist: public ones are
      left alone, the rest become public for an admin and wait for
      moderation otherwise. */
  function BulkPublic(p: Playlist, isAdmin: bool): (q: Playlist)
    ensures p.status == Public ==> q == p
    ensures p.status != Public ==> q == p.(status := if isAdmin then Public else WaitingForModeration)
  {
    var newStatus := if isAdmin then Public else WaitingForModeration;
    if p.status.Rank() < Public.Rank() then p.(status := newStatus) else p
  }

  function MakePrivate(p: Playlist): (q: Playlist)
    ensures q.status == Private && q.(status := p.status) == p
  {
    p.(status := Private)
  }

  /** After bulk 'public' an admin's selection is all public, and anyone
      else's is public or waiting; a second request changes nothing. */
  lemma BulkPublicOutcome(p: Playlist, isAdmin: bool)
    ensures isAdmin ==> BulkPublic(p, isAdmin).status == Public
    ensures BulkPublic(p, isAdmin).status in {Public, WaitingForModeration}
    ensures BulkPublic(BulkPublic(p, isAdmin), isAdmin) == BulkPublic(p, isAdmin)
  {
  }

  /** Model.save() on a playlist: an UPDATE of the rows with its pk, an
      INSERT when there is none. */
  function SavePlaylist(ps: seq<Playlist>, p: Playlist): (r: seq<Playlist>)
    ensures (exists i :: 0 <= i < |ps| && ps[i].id == p.id) ==>
              |r| == |ps| && forall i :: 0 <= i < |ps| ==> r[i] == (if ps[i].id == p.id then p else ps[i])
    ensures (forall i :: 0 <= i < |ps| ==> ps[i].id != p.id) ==> r == ps + [p]
  {
    if exists i :: 0 <= i < |ps| && ps[i].id == p.id then
      seq(|ps|, i requires 0 <= i < |ps| => if ps[i].id == p.id then p else ps[i])
    else ps + [p]
  }

  /** Model.delete() on a playlist. */
  function DeletePlaylist(ps: seq<Playlist>, id: nat): (r: seq<Playlist>)
    ensures forall p :: p in r <==> p in ps && p.id != id
  {
    Filter(ps, (p: Playlist) => p.id != id)
  }

  datatype BulkAction = Delete | MakePublic | MakePrivateAction | NoAction

  /** request.POST.get('bulk_action') */
  function ParseBulkAction(param: Option<string>): BulkAction {
    if param == Some("delete") then Delete
    else if param == Some("public") then MakePublic
    else if param == Some("private") then MakePrivateAction
    else NoAction
  }

  /** The bulk branch of index once the formset is valid and saved: the
      selected playlists are deleted, made public (those not yet public)
      or made private, one by one. */
  method ApplyBulkAction(db: Store.Db, selected: seq<Playlist>, action: Option<string>, isAdmin: bool)
    modifies db`playlists
    ensures db.playlists == BulkResult(old(db.playlists), selected, ParseBulkAction(action), isAdmin)
  {
    var act := ParseBulkAction(action);
    if act == Delete {
      for j := 0 to |selected|
        invariant db.playlists == BulkResult(old(db.playlists), selected[..j], Delete, isAdmin)
      {
        assert selected[..j + 1][..j] == selected[..j];
        db.playlists := DeletePlaylist(db.playlists, selected[j].id);
      }
    } else if act == MakePublic {
      var newStatus := if isAdmin then Public else WaitingForModeration;
      for j := 0 to |selected|
        invariant db.playlists == BulkResult(old(db.playlists), selected[..j], MakePublic, isAdmin)
      {
        assert selected[..j + 1][..j] == selected[..j];
        var p := selected[j];
        if p.status.Rank() < Public.Rank() {
          p := p.(status := newStatus);
          db.playlists := SavePlaylist(db.playlists, p);
        }
      }
    } else if act == MakePrivateAction {
      for j := 0 to |selected|
        invariant db.playlists == BulkResult(old(db.playlists), selected[..j], MakePrivateAction, isAdmin)
      {
        assert selected[..j + 1][..j] == selected[..j];
        var p := selected[j];
        p := p.(status := Private);
        db.playlists := SavePlaylist(db.playlists, p);
      }
    }
    assert selected[..|selected|] == selected;
  }

  /** The table after the bulk action, the selected forms taken in order. */
  function BulkResult(ps: seq<Playlist>, selected: seq<Playlist>, act: BulkAction, isAdmin: bool): seq<Playlist>
    decreases |selected|
  {
    if selected == [] || act == NoAction then ps
    else
      var before := BulkResult(ps, selected[..|selected| - 1], act, isAdmin);
      var p := selected[|selected| - 1];
      match act
      case Delete => DeletePlaylist(before, p.id)
      case MakePublic => if p.status == Public then before else SavePlaylist(before, BulkPublic(p, isAdmin))
      case MakePrivateAction => SavePlaylist(before, MakePrivate(p))
  }

  /** Playlists that were not selected keep their rows through any bulk
      action, and every selected one is gone after 'delete'. */
  lemma {:induction false} BulkResultUnselected(ps: seq<Playlist>, selected: seq<Playlist>, act: BulkAction, isAdmin: bool,
                                               q: Playlist)
    requires q in ps
    requires forall p :: p in selected ==> p.id != q.id
    ensures q in BulkResult(ps, selected, act, isAdmin)
    decreases |selected|
  {
    if selected != [] && act != NoAction {
      var front := selected[..|selected| - 1];
      assert forall p :: p in front ==> p in selected;
      BulkResultUnselected(ps, front, act, isAdmin, q);
      var before := BulkResult(ps, front, act, isAdmin);
      var p := selected[|selected| - 1];
      assert p in selected;
      if act != Delete {
        var i :| 0 <= i < |before| && before[i] == q;
        var saved := if act == MakePublic then BulkPublic(p, isAdmin) else MakePrivate(p);
        if act != MakePublic || p.status != Public {
          assert SavePlaylist(before, saved)[i] == q;
        }
      }
    }
  }

  /** After bulk 'delete' no selected playlist is left. */
  lemma {:induction false} BulkDeleteRemovesSelected(ps: seq<Playlist>, selected: seq<Playlist>, isAdmin: bool, p: Playlist)
    requires p in selected
    ensures forall q :: q in BulkResult(ps, selected, Delete, isAdmin) ==> q.id != p.id
    decreases |selected|
  {
    var front := selected[..|selected| - 1];
    if p != selected[|selected| - 1] {
      assert p in front by {
        assert selected == front + [selected[|selected| - 1]];
      }
      BulkDeleteRemovesSelected(ps, front, isAdmin, p);
    }
  }

  /** The single 'public' action: a playlist that is not public becomes
      public (admin) or waits for moderation; a public one is untouched. */
  function PublicAction(p: Playlist, isAdmin: bool): (q: Playlist)
    ensures p.status == Public ==> q == p
    ensures p.status != Public ==> q.status == (if isAdmin then Public else WaitingForModeration)
    ensures q.(status := p.status) == p
  {
    if p.status != Public then p.(status := if isAdmin then Public else WaitingForModeration) else p
  }

  /** The single action and the bulk action agree on one playlist. */
  lemma PublicActionIsBulkPublic(p: Playlist, isAdmin: bool)
    ensures PublicAction(p, isAdmin) == BulkPublic(p, isAdmin)
  {
  }

  /** Where 'public' and 'private' send the user: the referrer, else the
      index, showing all playlists to an admin. */
  function NextUrl(referer: Option<string>, indexUrl: string, isAdmin: bool): (url: string)
    ensures referer.Some? ==> url == referer.value
    ensures referer.None? ==> url == indexUrl + (if isAdmin then "?show=all" else "")
  {
    if referer.Some? then referer.value else if isAdmin then indexUrl + "?show=all" else indexUrl
  }

  /** The outcome of an action view; NotEnabled and NoSuchPlaylist are
      both a 404. */
  datatype ActionResult = NotEnabled | LoginRedirect | RedirectTo(url: string) | NoSuchPlaylist

  /** public: gated by playlist_enabled and playlist_authorized, then the
      playlist's status is changed and saved when it was not public. */
  method PublicView(db: Store.Db, settings: SiteSettings, pk: nat, user: User, isAdmin: bool, referer: Option<string>,
                indexUrl: string) returns (r: ActionResult)
    modifies db`playlists
    ensures !PlaylistEnabled(settings, isAdmin) ==> r == NotEnabled && db.playlists == old(db.playlists)
    ensures PlaylistEnabled(settings, isAdmin) && FindPlaylist(old(db.playlists), pk).None? ==>
              r == NoSuchPlaylist && db.playlists == old(db.playlists)
    ensures PlaylistEnabled(settings, isAdmin) && FindPlaylist(old(db.playlists), pk).Some? ==>
              var p := old(db.playlists)[FindPlaylist(old(db.playlists), pk).value];
              if !PlaylistAuthorized(p, user, isAdmin) then r == LoginRedirect && db.playlists == old(db.playlists)
              else r == RedirectTo(NextUrl(referer, indexUrl, isAdmin)) &&
                   db.playlists == (if p.status == Public then old(db.playlists)
                                    else SavePlaylist(old(db.playlists), PublicAction(p, isAdmin)))
  {
    if !PlaylistEnabled(settings, isAdmin) {
      return NotEnabled;
    }
    var k := FindPlaylist(db.playlists, pk);
    if k.None? {
      return NoSuchPlaylist;
    }
    var playlist := db.playlists[k.value];
    if !PlaylistAuthorized(playlist, user, isAdmin) {
      return LoginRedirect;
    }
    if playlist.status != Public {
      if isAdmin {
        playlist := playlist.(status := Public);
      } else {
        playlist := playlist.(status := WaitingForModeration);
      }
      db.playlists := SavePlaylist(db.playlists, playlist);
    }
    return RedirectTo(NextUrl(referer, indexUrl, isAdmin));
  }

  /** private: gated the same way; the playlist is always made private
      and saved. */
  method PrivateView(db: Store.Db, settings: SiteSettings, pk: nat, user: User, isAdmin: bool, referer: Option<string>,
                 indexUrl: string) returns (r: ActionResult)
    modifies db`playlists
    ensures !PlaylistEnabled(settings, isAdmin) ==> r == NotEnabled && db.playlists == old(db.playlists)
    ensures PlaylistEnabled(settings, isAdmin) && FindPlaylist(old(db.playlists), pk).None? ==>
              r == NoSuchPlaylist && db.playlists == old(db.playlists)
    ensures PlaylistEnabled(settings, isAdmin) && FindPlaylist(old(db.playlists), pk).Some? ==>
              var p := old(db.playlists)[FindPlaylist(old(db.playlists), pk).value];
              if !PlaylistAuthorized(p, user, isAdmin) then r == LoginRedirect && db.playlists == old(db.playlists)
              else r == RedirectTo(NextUrl(referer, indexUrl, isAdmin)) &&
                   db.playlists == SavePlaylist(old(db.playlists), MakePrivate(p))
  {
    if !PlaylistEnabled(settings, isAdmin) {
      return NotEnabled;
    }
    var k := FindPlaylist(db.playlists, pk);
    if k.None? {
      return NoSuchPlaylist;
    }
    var playlist := db.playlists[k.value];
    if !PlaylistAuthorized(playlist, user, isAdmin) {
      return LoginRedirect;
    }
    playlist := playlist.(status := Private);
    db.playlists := SavePlaylist(db.playlists, playlist);
    return RedirectTo(NextUrl(referer, indexUrl, isAdmin));
  }

  /** get_object_or_404(Playlist, pk=pk) */
  function FindPlaylist(ps: seq<Playlist>, pk: nat): (r: Option<nat>)
    ensures r.Some? ==> r.value < |ps| && ps[r.value].id == pk
    ensures r.None? ==> forall i :: 0 <= i < |ps| ==> ps[i].id != pk
  {
    if ps == [] then None
    else if ps[0].id == pk then Some(0)
    else
      var r := FindPlaylist(ps[1..], pk);
      if r.Some? then Some(r.value + 1) else None
  }

  /** What PlaylistView.dispatch does. */
  datatype PageResult = PageNotFound | PageRedirect(url: string) | ShowPage(playlist: Playlist, perPage: int)

  /** PlaylistView: a playlist that is not public is a 404 except for an
      admin or its owner; a path other than the canonical URL redirects
      there; the page size is the 'count' keyword argument, else 15. */
  function PlaylistPage(settings: SiteSettings, ps: seq<Playlist>, pk: nat, user: User, isAdmin: bool, path: string,
                        absoluteUrl: Playlist -> string, count: Option<int>): (r: PageResult)
    ensures !PlaylistEnabled(settings, isAdmin) ==> r == PageNotFound
    ensures r.ShowPage? ==>
              r.playlist in ps && r.playlist.id == pk && path == absoluteUrl(r.playlist) &&
              (r.playlist.status == Public || isAdmin || IsOwner(r.playlist, user)) &&
              r.perPage == (if count.Some? then count.value else 15)
    ensures r.PageRedirect? ==> exists p :: p in ps && p.id == pk && r.url == absoluteUrl(p) && r.url != path
    ensures PlaylistEnabled(settings, isAdmin) && FindPlaylist(ps, pk).None? ==> r == PageNotFound
    ensures PlaylistEnabled(settings, isAdmin) && FindPlaylist(ps, pk).Some? ==>
              var p := ps[FindPlaylist(ps, pk).value];
              if p.status != Public && !isAdmin && !IsOwner(p, user) then r == PageNotFound
              else if path != absoluteUrl(p) then r == PageRedirect(absoluteUrl(p))
              else r == ShowPage(p, if count.Some? then count.value else 15)
  {
    if !PlaylistEnabled(settings, isAdmin) then PageNotFound
    else
      var k := FindPlaylist(ps, pk);
      if k.None? then PageNotFound
      else
        var p := ps[k.value];
        if p.status != Public && !isAdmin && !IsOwner(p, user) then PageNotFound
        else if path != absoluteUrl(p) then PageRedirect(absoluteUrl(p))
        else ShowPage(p, if count.Some? then count.value else 15)
  }

  /** A private playlist's page is never shown to a visitor who is
      neither an admin nor its owner. */
  lemma PrivatePageHidden(settings: SiteSettings, ps: seq<Playlist>, pk: nat, user: User, path: string,
                          absoluteUrl: Playlist -> string, count: Option<int>)
    requires forall p :: p in ps && p.id == pk ==> p.status != Public && !IsOwner(p, user)
    ensures PlaylistPage(settings, ps, pk, user, false, path, absoluteUrl, count) == PageNotFound
  {
  }
}
