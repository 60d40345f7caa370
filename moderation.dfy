/** The legacy moderation queue (localtv/admin/legacy/approve_reject_views.py):
    the paginated queue, approving, rejecting, featuring and unfeaturing
    one video, the bulk actions on one page and clearing the queue. */
module Moderation {
  import opened Common
  import opened Strings
  import opened Sorting
  import Managers
  import Paging
  import Store

  /** Videos per page of the queue. */
  const PerPage: nat := 10

  /** order_by('when_submitted', 'when_published') */
  function QueueKey(v: Video): seq<int> {
    [v.whenSubmitted] + Managers.DateKey(v.whenPublished)
  }

  /** get_video_paginator's list: the site's videos awaiting moderation,
      oldest submission first. */
  function Queue(videos: seq<Video>, site: nat): (r: seq<Video>)
    ensures forall v :: v in r <==> v in videos && v.status == Unapproved && v.site == site
    ensures SortedBy(r, QueueKey, false)
  {
    SortBy(Filter(videos, (v: Video) => v.status == Unapproved && v.site == site), QueueKey, false)
  }

  /** int(request.GET.get('page', 1)): 1 when absent, None for a
      ValueError. */
  function PageNumber(param: Option<string>): (n: Option<int>)
    ensures param.None? ==> n == Some(1)
    ensures param.Some? ==> n == ParseInt(param.value)
  {
    if param.None? then Some(1) else ParseInt(param.value)
  }

  /** approve_reject: a non-integer page is a 400; any other page number
      that has no page (past the end, but also 0 or negative) shows the
      last page. */
  function ApproveRejectPage(videos: seq<Video>, site: nat, param: Option<string>): (r: Result<seq<Video>, string>)
    ensures PageNumber(param).None? <==> r == Err("Not a page number")
    ensures r.Ok? ==> |r.value| <= PerPage
    ensures r.Ok? ==> forall v :: v in r.value ==> v in videos && v.status == Unapproved && v.site == site
  {
    var n := PageNumber(param);
    if n.None? then Err("Not a page number")
    else
      var q := Queue(videos, site);
      Ok(Paging.PageOrLast(q, PerPage, n.value))
  }

  /** The clamp: every integer page number either has its page or shows
      the same page as the last one. */
  lemma ApproveRejectClamps(videos: seq<Video>, site: nat, param: Option<string>)
    requires PageNumber(param).Some?
    ensures var q := Queue(videos, site);
            var n := PageNumber(param).value;
            var last := Paging.NumPages(|q|, PerPage);
            ApproveRejectPage(videos, site, param) ==
              Ok(if 1 <= n <= last then Paging.Page(q, PerPage, n).value else Paging.Page(q, PerPage, last).value)
  {
  }

  /** approve_video: published and approved now; featured now too when
      'feature' is given. */
  function Approve(v: Video, feature: bool, now: Time): (w: Video)
    ensures w.status == Active && w.whenApproved == Some(now)
    ensures w.lastFeatured == (if feature then Some(now) else v.lastFeatured)
    ensures w.(status := v.status, whenApproved := v.whenApproved, lastFeatured := v.lastFeatured) == v
  {
    var w := v.(status := Active, whenApproved := Some(now));
    if feature then w.(lastFeatured := Some(now)) else w
  }

  /** reject_video: hidden, and nothing else changes. */
  function Reject(v: Video): (w: Video)
    ensures w.status == Rejected && w.(status := v.status) == v
  {
    v.(status := Rejected)
  }

  /** feature_video: a video not yet published is published and
      approved now; the video is featured now in any case. */
  function Feature(v: Video, now: Time): (w: Video)
    ensures w.status == Active && w.lastFeatured == Some(now)
    ensures w.whenApproved == (if v.status == Active then v.whenApproved else Some(now))
    ensures w.(status := v.status, whenApproved := v.whenApproved, lastFeatured := v.lastFeatured) == v
  {
    var w := if v.status != Active then v.(status := Active, whenApproved := Some(now)) else v;
    w.(lastFeatured := Some(now))
  }

  /** unfeature_video: no longer featured; status untouched. */
  function Unfeature(v: Video): (w: Video)
    ensures w.lastFeatured.None? && w.(lastFeatured := v.lastFeatured) == v
  {
    v.(lastFeatured := None)
  }

  /** Featuring a video awaiting moderation is approving it with 'feature'. */
  lemma FeatureIsApproveFeatured(v: Video, now: Time)
    requires v.status != Active
    ensures Feature(v, now) == Approve(v, true, now)
  {
  }

  /** Featuring a published video keeps its approval date; featuring it
      again only moves last_featured. */
  lemma FeatureTwice(v: Video, t1: Time, t2: Time)
    ensures Feature(Feature(v, t1), t2) == Feature(v, t1).(lastFeatured := Some(t2))
    ensures Feature(Feature(v, t1), t2).whenApproved == Feature(v, t1).whenApproved
  {
  }

  /** Unfeaturing undoes featuring a published video. */
  lemma UnfeatureUndoesFeature(v: Video, now: Time)
    requires v.status == Active && v.lastFeatured.None?
    ensures Unfeature(Feature(v, now)) == v
  {
  }

  /** What a view answers. */
  datatype Response = Success | BadRequest(message: string) | NotFound | Redirect | Confirm(videos: seq<Video>)

  /** `request.GET.get(...)` used as a flag: present and non-empty. */
  predicate Truthy(param: Option<string>) {
    param.Some? && param.value != ""
  }

  /** approve_video: the site's video with this id is approved (and
      featured when asked), or 404. */
  method ApproveVideo(db: Store.Db, site: nat, id: nat, feature: Option<string>, now: Time) returns (r: Response)
    modifies db`videos
    ensures var k := Store.FindVideo(old(db.videos), id, site);
            if k.None? then r == NotFound && db.videos == old(db.videos)
            else r == Success &&
                 db.videos == Store.SaveVideo(old(db.videos), Approve(old(db.videos)[k.value], Truthy(feature), now))
  {
    var k := Store.FindVideo(db.videos, id, site);
    if k.None? {
      return NotFound;
    }
    var video := db.videos[k.value];
    video := video.(status := Active, whenApproved := Some(now));
    if Truthy(feature) {
      video := video.(lastFeatured := Some(now));
    }
    db.videos := Store.SaveVideo(db.videos, video);
    return Success;
  }

  /** reject_video */
  method RejectVideo(db: Store.Db, site: nat, id: nat) returns (r: Response)
    modifies db`videos
    ensures var k := Store.FindVideo(old(db.videos), id, site);
            if k.None? then r == NotFound && db.videos == old(db.videos)
            else r == Success && db.videos == Store.SaveVideo(old(db.videos), Reject(old(db.videos)[k.value]))
  {
    var k := Store.FindVideo(db.videos, id, site);
    if k.None? {
      return NotFound;
    }
    var video := db.videos[k.value];
    video := video.(status := Rejected);
    db.videos := Store.SaveVideo(db.videos, video);
    return Success;
  }

  /** feature_video */
  method FeatureVideo(db: Store.Db, site: nat, id: nat, now: Time) returns (r: Response)
    modifies db`videos
    ensures var k := Store.FindVideo(old(db.videos), id, site);
            if k.None? then r == NotFound && db.videos == old(db.videos)
            else r == Success && db.videos == Store.SaveVideo(old(db.videos), Feature(old(db.videos)[k.value], now))
  {
    var k := Store.FindVideo(db.videos, id, site);
    if k.None? {
      return NotFound;
    }
    var video := db.videos[k.value];
    if video.status != Active {
      video := video.(status := Active, whenApproved := Some(now));
    }
    video := video.(lastFeatured := Some(now));
    db.videos := Store.SaveVideo(db.videos, video);
    return Success;
  }

  /** unfeature_video */
  method UnfeatureVideo(db: Store.Db, site: nat, id: nat) returns (r: Response)
    modifies db`videos
    ensures var k := Store.FindVideo(old(db.videos), id, site);
            if k.None? then r == NotFound && db.videos == old(db.videos)
            else r == Success && db.videos == Store.SaveVideo(old(db.videos), Unfeature(old(db.videos)[k.value]))
  {
    var k := Store.FindVideo(db.videos, id, site);
    if k.None? {
      return NotFound;
    }
    var video := db.videos[k.value];
    video := video.(lastFeatured := None);
    db.videos := Store.SaveVideo(db.videos, video);
    return Success;
  }

  /** A single-video action on a table with unique keys changes that
      video's row and no other. */
  lemma SingleActionChangesOneRow(videos: seq<Video>, site: nat, id: nat, w: Video)
    requires Store.UniqueIds(videos) && Store.FindVideo(videos, id, site).Some?
    requires w.id == id
    ensures var k := Store.FindVideo(videos, id, site).value;
            Store.SaveVideo(videos, w) == videos[k := w]
  {
    Store.SaveReplaces(videos, Store.FindVideo(videos, id, site).value, w);
  }

  /** The page a bulk action works on: unlike approve_reject there is
      no clamp, and a page with no page number is a 400. */
  function BulkPage(videos: seq<Video>, site: nat, param: Option<string>): (r: Result<seq<Video>, string>)
    ensures PageNumber(param).None? ==> r == Err("Not a page number")
    ensures PageNumber(param).Some? ==>
              (r.Ok? <==> 1 <= PageNumber(param).value <= Paging.NumPages(|Queue(videos, site)|, PerPage))
    ensures r.Err? && PageNumber(param).Some? ==> r == Err("Page number request exceeded available pages")
    ensures r.Ok? ==> |r.value| <= PerPage
    ensures r.Ok? ==> forall v :: v in r.value ==> v in videos && v.status == Unapproved && v.site == site
  {
    var n := PageNumber(param);
    if n.None? then Err("Not a page number")
    else
      var p := Paging.Page(Queue(videos, site), PerPage, n.value);
      if p.None? then Err("Page number request exceeded available pages") else Ok(p.value)
  }

  /** The loop of reject_all / approve_all / clear_all: each video of
      `page` is changed by `f` and saved, in order. */
  method SaveEach(db: Store.Db, page: seq<Video>, f: Video -> Video)
    modifies db`videos
    ensures db.videos == Store.SaveAll(old(db.videos), MapSeq(page, f))
  {
    ghost var changed := MapSeq(page, f);
    for j := 0 to |page|
      invariant db.videos == Store.SaveAll(old(db.videos), changed[..j])
    {
      assert changed[..j + 1][..j] == changed[..j];
      var video := page[j];
      video := f(video);
      db.videos := Store.SaveVideo(db.videos, video);
    }
    assert changed[..|page|] == changed;
  }

  /** reject_all: every video of the requested page is hidden. */
  method RejectAll(db: Store.Db, site: nat, param: Option<string>) returns (r: Response)
    modifies db`videos
    ensures var p := BulkPage(old(db.videos), site, param);
            if p.Err? then r == BadRequest(p.error) && db.videos == old(db.videos)
            else r == Success && db.videos == Store.SaveAll(old(db.videos), MapSeq(p.value, Reject))
  {
    var p := BulkPage(db.videos, site, param);
    if p.Err? {
      return BadRequest(p.error);
    }
    SaveEach(db, p.value, Reject);
    return Success;
  }

  /** approve_all: every video of the requested page is published and
      approved now. */
  method ApproveAll(db: Store.Db, site: nat, param: Option<string>, now: Time) returns (r: Response)
    modifies db`videos
    ensures var p := BulkPage(old(db.videos), site, param);
            if p.Err? then r == BadRequest(p.error) && db.videos == old(db.videos)
            else r == Success &&
                 db.videos == Store.SaveAll(old(db.videos), MapSeq(p.value, (v: Video) => Approve(v, false, now)))
  {
    var p := BulkPage(db.videos, site, param);
    if p.Err? {
      return BadRequest(p.error);
    }
    SaveEach(db, p.value, (v: Video) => Approve(v, false, now));
    return Success;
  }

  /** A bulk action changes the videos of the requested page and leaves
      every other row as it was: the rest of the queue, other sites and
      other statuses. */
  lemma BulkActionOnlyPage(videos: seq<Video>, site: nat, param: Option<string>, f: Video -> Video)
    requires Store.UniqueIds(videos)
    requires forall w :: f(w).id == w.id
    requires BulkPage(videos, site, param).Ok?
    ensures var page := BulkPage(videos, site, param).value;
            var r := Store.SaveAll(videos, MapSeq(page, f));
            |r| == |videos| &&
            forall i :: 0 <= i < |videos| ==> r[i] == (if videos[i] in page then f(videos[i]) else videos[i])
  {
    Store.SaveAllUpdated(videos, BulkPage(videos, site, param).value, f);
  }

  /** clear_all: with confirm == 'yes' every queued video of the site is
      hidden; otherwise nothing changes and the queue is shown for
      confirmation. */
  method ClearAll(db: Store.Db, site: nat, confirm: Option<string>) returns (r: Response)
    modifies db`videos
    ensures var queued := Filter(old(db.videos), (v: Video) => v.status == Unapproved && v.site == site);
            if confirm == Some("yes") then r == Redirect && db.videos == Store.SaveAll(old(db.videos), MapSeq(queued, Reject))
            else r == Confirm(queued) && db.videos == old(db.videos)
  {
    var queued := Filter(db.videos, (v: Video) => v.status == Unapproved && v.site == site);
    if confirm == Some("yes") {
      SaveEach(db, queued, Reject);
      return Redirect;
    }
    return Confirm(queued);
  }

  /** After a confirmed clear_all the site has nothing awaiting
      moderation, and no other row has changed. */
  lemma ClearAllEmptiesQueue(videos: seq<Video>, site: nat)
    requires Store.UniqueIds(videos)
    ensures var queued := Filter(videos, (v: Video) => v.status == Unapproved && v.site == site);
            var r := Store.SaveAll(videos, MapSeq(queued, Reject));
            Queue(r, site) == [] && |r| == |videos| &&
            forall i :: 0 <= i < |videos| ==> r[i] == (if videos[i] in queued then Reject(videos[i]) else videos[i])
  {
    var queued := Filter(videos, (v: Video) => v.status == Unapproved && v.site == site);
    Store.SaveAllUpdated(videos, queued, Reject);
    var r := Store.SaveAll(videos, MapSeq(queued, Reject));
    assert forall v :: v in r ==> !(v.status == Unapproved && v.site == site) by {
      forall v | v in r
        ensures !(v.status == Unapproved && v.site == site)
      {
        var i :| 0 <= i < |r| && r[i] == v;
        if videos[i] !in queued {
          assert !(videos[i].status == Unapproved && videos[i].site == site);
        }
      }
    }
    assert forall v :: v !in Queue(r, site);
  }
}
