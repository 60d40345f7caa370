/** The background tasks (localtv/tasks.py): which sources are queued for
    update, the two stages of an import's completion, turning one scraped
    video into a stored video, fetching a thumbnail, and search-index
    updates in batches. Each task is modelled as one invocation: what it
    changes and what it puts on the queue or whether it asks to be
    retried. */
module Tasks {
  import opened Common
  import Store
  import Paging
  import VideoModel
  import Strings

  /** A task put on the queue with `.delay`. */
  datatype Queued =
    | FeedUpdate(feed: nat)
    | SearchUpdate(search: nat)
    | BatchUpdate(pks: seq<nat>, remove: bool)
    | MarkComplete(importPk: nat)
    | SaveThumbnail(video: nat)
    | IndexUpdate(pks: seq<nat>, remove: bool)

  /** How one invocation ends: asking to be retried, giving up after too
      many retries, re-raising an error, or finishing with tasks queued. */
  datatype Outcome = Retry | GiveUp | Raised | Done(queued: seq<Queued>)

  // ------------------------------------------------------------ update_sources

  predicate FeedAutoUpdates(f: Feed) {
    f.status == Active && f.autoUpdate
  }

  predicate SearchAutoUpdates(s: SavedSearch) {
    s.autoUpdate
  }

  function FeedTask(f: Feed): Queued {
    FeedUpdate(f.id)
  }

  function SearchTask(s: SavedSearch): Queued {
    SearchUpdate(s.id)
  }

  /** update_sources: one feed_update per active auto-updating feed, then
      one search_update per auto-updating saved search, in table order. */
  method UpdateSources(feeds: seq<Feed>, searches: seq<SavedSearch>) returns (queued: seq<Queued>)
    ensures queued == MapSeq(Filter(feeds, FeedAutoUpdates), FeedTask) +
                      MapSeq(Filter(searches, SearchAutoUpdates), SearchTask)
  {
    var fq: seq<Queued> := [];
    for i := 0 to |feeds|
      invariant fq == MapSeq(Filter(feeds[..i], FeedAutoUpdates), FeedTask)
    {
      FilterMapStep(feeds, i, FeedAutoUpdates, FeedTask);
      if FeedAutoUpdates(feeds[i]) {
        fq := fq + [FeedTask(feeds[i])];
      }
    }
    assert feeds[..|feeds|] == feeds;
    var sq: seq<Queued> := [];
    for i := 0 to |searches|
      invariant sq == MapSeq(Filter(searches[..i], SearchAutoUpdates), SearchTask)
    {
      FilterMapStep(searches, i, SearchAutoUpdates, SearchTask);
      if SearchAutoUpdates(searches[i]) {
        sq := sq + [SearchTask(searches[i])];
      }
    }
    assert searches[..|searches|] == searches;
    queued := fq + sq;
  }

  /** A feed is queued exactly when a feed with its pk is active and
      auto-updating, and a saved search exactly when one with its pk is
      auto-updating. */
  lemma UpdateSourcesExactly(feeds: seq<Feed>, searches: seq<SavedSearch>, pk: nat)
    ensures var queued := MapSeq(Filter(feeds, FeedAutoUpdates), FeedTask) +
                          MapSeq(Filter(searches, SearchAutoUpdates), SearchTask);
            (FeedUpdate(pk) in queued <==> exists g :: g in feeds && g.id == pk && FeedAutoUpdates(g)) &&
            (SearchUpdate(pk) in queued <==> exists t :: t in searches && t.id == pk && t.autoUpdate)
  {
    var fq := MapSeq(Filter(feeds, FeedAutoUpdates), FeedTask);
    var sq := MapSeq(Filter(searches, SearchAutoUpdates), SearchTask);
    FeedQueuedIff(feeds, pk);
    SearchQueuedIff(searches, pk);
    assert FeedUpdate(pk) in fq + sq <==> FeedUpdate(pk) in fq;
    assert SearchUpdate(pk) in fq + sq <==> SearchUpdate(pk) in sq;
  }

  lemma FeedQueuedIff(feeds: seq<Feed>, pk: nat)
    ensures FeedUpdate(pk) in MapSeq(Filter(feeds, FeedAutoUpdates), FeedTask) <==>
              exists g :: g in feeds && g.id == pk && FeedAutoUpdates(g)
  {
    var fs := Filter(feeds, FeedAutoUpdates);
    var fq := MapSeq(fs, FeedTask);
    if FeedUpdate(pk) in fq {
      var i :| 0 <= i < |fq| && fq[i] == FeedUpdate(pk);
      assert fs[i] in feeds && fs[i].id == pk;
    }
    if g :| g in feeds && g.id == pk && FeedAutoUpdates(g) {
      var i :| 0 <= i < |fs| && fs[i] == g;
      assert fq[i] == FeedUpdate(pk);
    }
  }

  lemma SearchQueuedIff(searches: seq<SavedSearch>, pk: nat)
    ensures SearchUpdate(pk) in MapSeq(Filter(searches, SearchAutoUpdates), SearchTask) <==>
              exists t :: t in searches && t.id == pk && t.autoUpdate
  {
    var ss := Filter(searches, SearchAutoUpdates);
    var sq := MapSeq(ss, SearchTask);
    if SearchUpdate(pk) in sq {
      var i :| 0 <= i < |sq| && sq[i] == SearchUpdate(pk);
      assert ss[i] in searches && ss[i].id == pk;
    }
    if t :| t in searches && t.id == pk && t.autoUpdate {
      var i :| 0 <= i < |ss| && ss[i] == t;
      assert sq[i] == SearchUpdate(pk);
    }
  }

  // ------------------------------------------------------------ source imports

  /** FeedImport / SearchImport status. */
  datatype ImportStatus = Started | ImportPending | Complete

  /** What went wrong with one video of an import. */
  datatype ErrorKind = LoadFailed | Invalid | Unexpected
  datatype ImportError = ImportError(kind: ErrorKind, isSkip: bool)

  /** A FeedImport or SearchImport row. */
  class SourceImport {
    const pk: nat
    const autoApprove: bool
    /** whether this is a localtv.FeedImport */
    const isFeedImport: bool
    /** the pk of the feed or saved search imported from */
    const source: nat
    var status: ImportStatus
    var totalVideos: Option<nat>
    var videosImported: nat
    var videosSkipped: nat
    var lastActivity: Time
    var errors: seq<ImportError>

    constructor (pk: nat, autoApprove: bool, isFeedImport: bool, source: nat, totalVideos: Option<nat>, now: Time)
      ensures this.pk == pk && this.autoApprove == autoApprove && this.isFeedImport == isFeedImport
      ensures this.source == source && this.totalVideos == totalVideos
      ensures status == Started && videosImported == 0 && videosSkipped == 0 && errors == [] && lastActivity == now
    {
      this.pk := pk;
      this.autoApprove := autoApprove;
      this.isFeedImport := isFeedImport;
      this.source := source;
      this.totalVideos := totalVideos;
      status := Started;
      videosImported := 0;
      videosSkipped := 0;
      lastActivity := now;
      errors := [];
    }
  }

  predicate IsSkip(e: ImportError) {
    e.isSkip
  }

  /** The status a video of the import ends the first stage with: a
      PENDING video becomes ACTIVE when the import auto-approves and the
      pre_mark_as_active receivers let it through, otherwise UNAPPROVED;
      any other video is unchanged. */
  function Resolve(v: Video, ofImport: set<nat>, autoApprove: bool, allowed: Video -> bool): (r: Video)
    ensures v.id !in ofImport || v.status != Pending ==> r == v
    ensures v.id in ofImport && v.status == Pending ==>
              r == v.(status := if autoApprove && allowed(v) then Active else Unapproved)
  {
    if v.id in ofImport && v.status == Pending then
      v.(status := if autoApprove && allowed(v) then Active else Unapproved)
    else v
  }

  function ActivatePending(v: Video, ofImport: set<nat>, allowed: Video -> bool): Video {
    if v.id in ofImport && v.status == Pending && allowed(v) then v.(status := Active) else v
  }

  function DemotePending(v: Video, ofImport: set<nat>): Video {
    if v.id in ofImport && v.status == Pending then v.(status := Unapproved) else v
  }

  /** The pks of the import's ACTIVE videos, in table order. */
  function ActivePks(videos: seq<Video>, ofImport: set<nat>): (r: seq<nat>)
    ensures forall id :: id in r <==> exists v :: v in videos && v.id == id && v.id in ofImport && v.status == Active
  {
    if videos == [] then []
    else
      var rest := ActivePks(videos[1..], ofImport);
      assert forall v :: v in videos[1..] ==> v in videos;
      assert forall v :: v in videos ==> v == videos[0] || v in videos[1..];
      (if videos[0].id in ofImport && videos[0].status == Active then [videos[0].id] else []) + rest
  }

  /** After the first stage no video of the import is left PENDING, and
      a video is ACTIVE exactly when it was, or it was PENDING and the
      import auto-approves it. */
  lemma {:induction false} ResolveLeavesNoPending(videos: seq<Video>, ofImport: set<nat>, autoApprove: bool,
                                                  allowed: Video -> bool, i: nat)
    requires i < |videos|
    ensures var r := MapSeq(videos, (v: Video) => Resolve(v, ofImport, autoApprove, allowed));
            (r[i].id in ofImport ==> r[i].status != Pending) &&
            (r[i].status == Active <==>
               videos[i].status == Active ||
               (videos[i].id in ofImport && videos[i].status == Pending && autoApprove && allowed(videos[i]))) &&
            r[i].(status := videos[i].status) == videos[i]
  {
    var r := MapSeq(videos, (v: Video) => Resolve(v, ofImport, autoApprove, allowed));
    assert r[i] == Resolve(videos[i], ofImport, autoApprove, allowed);
  }

  /** mark_import_pending: an import that is not STARTED is retried (at
      most ten times); one without a total yet is retried; otherwise the
      imported and skipped counts are taken from the stored rows, and
      while they do not reach the total mark_import_pending retries. Once they
      do, the import's PENDING videos are resolved, the import becomes
      PENDING, its ACTIVE videos are queued for indexing (when there are
      any) and the second stage is queued. */
  method MarkImportPending(imp: SourceImport, db: Store.Db, ofImport: set<nat>, indexedCount: nat,
                           allowed: Video -> bool, retries: nat, now: Time)
    returns (o: Outcome)
    modifies imp`status, imp`lastActivity, imp`videosImported, imp`videosSkipped, db`videos
    ensures old(imp.status) != Started ==>
              o == (if retries > 10 then GiveUp else Retry) && db.videos == old(db.videos) &&
              imp.status == old(imp.status) && imp.lastActivity == old(imp.lastActivity)
    ensures old(imp.status) != Started || old(imp.totalVideos).None? ==>
              imp.videosImported == old(imp.videosImported) && imp.videosSkipped == old(imp.videosSkipped)
    ensures old(imp.status) == Started ==> imp.lastActivity == now
    ensures old(imp.status) == Started && old(imp.totalVideos).None? ==>
              o == Retry && db.videos == old(db.videos) && imp.status == Started
    ensures old(imp.status) == Started && old(imp.totalVideos).Some? ==>
              imp.videosImported == indexedCount && imp.videosSkipped == |Filter(imp.errors, IsSkip)|
    ensures old(imp.status) == Started && old(imp.totalVideos).Some? &&
            indexedCount + |Filter(imp.errors, IsSkip)| < old(imp.totalVideos).value ==>
              o == Retry && db.videos == old(db.videos) && imp.status == Started
    ensures old(imp.status) == Started && old(imp.totalVideos).Some? &&
            indexedCount + |Filter(imp.errors, IsSkip)| >= old(imp.totalVideos).value ==>
              db.videos == MapSeq(old(db.videos), (v: Video) => Resolve(v, ofImport, imp.autoApprove, allowed)) &&
              imp.status == ImportPending &&
              o == Done((if ActivePks(db.videos, ofImport) != [] then [BatchUpdate(ActivePks(db.videos, ofImport), false)] else []) +
                        [MarkComplete(imp.pk)])
    ensures imp.errors == old(imp.errors) && imp.totalVideos == old(imp.totalVideos)
  {
    if imp.status != Started {
      return if retries > 10 then GiveUp else Retry;
    }
    imp.lastActivity := now;
    if imp.totalVideos.None? {
      return Retry;
    }
    var skipped := |Filter(imp.errors, IsSkip)|;
    imp.videosImported := indexedCount;
    imp.videosSkipped := skipped;
    if imp.videosImported + imp.videosSkipped < imp.totalVideos.value {
      return Retry;
    }
    ghost var before := db.videos;
    if imp.autoApprove {
      db.videos := MapSeq(db.videos, (v: Video) => ActivatePending(v, ofImport, allowed));
    }
    db.videos := MapSeq(db.videos, (v: Video) => DemotePending(v, ofImport));
    assert db.videos == MapSeq(before, (v: Video) => Resolve(v, ofImport, imp.autoApprove, allowed));
    imp.status := ImportPending;
    var active := ActivePks(db.videos, ofImport);
    o := Done((if active != [] then [BatchUpdate(active, false)] else []) + [MarkComplete(imp.pk)]);
  }

  /** The second stage's test: without a search index there is nothing to
      compare and the import is complete; otherwise it is complete when
      the index holds at least as many of its videos as are ACTIVE. */
  function SecondStageDone(useHaystack: bool, activeCount: nat, indexedActive: nat): (done: bool)
    ensures !useHaystack || activeCount == 0 ==> done
    ensures useHaystack && activeCount > 0 ==> (done <==> indexedActive >= activeCount)
  {
    var videoCount := if useHaystack then activeCount else 0;
    var haystackCount := if !useHaystack || activeCount == 0 then 0 else indexedActive;
    haystackCount >= videoCount
  }

  /** mark_import_complete: an import that is not PENDING is retried (at
      most ten times); otherwise it becomes COMPLETE when the second stage
      is done, a feed import then also activating its feed, and is retried
      while it stays PENDING. */
  method MarkImportComplete(imp: SourceImport, db: Store.Db, ofImport: set<nat>, useHaystack: bool,
                            indexedActive: nat, retries: nat, now: Time)
    returns (o: Outcome)
    modifies imp`status, imp`lastActivity, db`feeds
    ensures old(imp.status) != ImportPending ==>
              o == (if retries > 10 then GiveUp else Retry) && imp.status == old(imp.status) &&
              imp.lastActivity == old(imp.lastActivity) && db.feeds == old(db.feeds)
    ensures old(imp.status) == ImportPending ==>
              var done := SecondStageDone(useHaystack, |ActivePks(db.videos, ofImport)|, indexedActive);
              imp.status == (if done then Complete else ImportPending) &&
              imp.lastActivity == now &&
              (o.Retry? <==> !done) && (done ==> o == Done([])) &&
              db.feeds == (if done && imp.isFeedImport then ActivateFeed(old(db.feeds), imp.source) else old(db.feeds))
  {
    if imp.status != ImportPending {
      return if retries > 10 then GiveUp else Retry;
    }
    var active := ActivePks(db.videos, ofImport);
    if SecondStageDone(useHaystack, |active|, indexedActive) {
      imp.status := Complete;
      if imp.isFeedImport {
        db.feeds := ActivateFeed(db.feeds, imp.source);
      }
    }
    imp.lastActivity := now;
    o := if imp.status == ImportPending then Retry else Done([]);
  }

  /** source.status = ACTIVE on the import's feed. */
  function ActivateFeed(feeds: seq<Feed>, pk: nat): (r: seq<Feed>)
    ensures |r| == |feeds|
    ensures forall i :: 0 <= i < |feeds| ==>
              r[i] == (if feeds[i].id == pk then feeds[i].(status := Active) else feeds[i])
  {
    seq(|feeds|, i requires 0 <= i < |feeds| => if feeds[i].id == pk then feeds[i].(status := Active) else feeds[i])
  }

  // ------------------------------------------------------------ one scraped video

  /** A rejected video of the saved video's site, other than the saved
      video itself, that `dup` calls a duplicate of it. Which videos
      Video.clear_rejected_duplicates counts as duplicates is not part of
      this model, so that test is the parameter `dup`. */
  predicate RejectedDuplicate(saved: Video, dup: (Video, Video) -> bool, w: Video) {
    w.status == Rejected && w.site == saved.site && w.id != saved.id && dup(saved, w)
  }

  /** The table once clear_rejected_duplicates has run for `saved`: the
      rejected duplicates of it are deleted and every other row is kept,
      the saved video among them. */
  function ClearRejected(videos: seq<Video>, saved: Video, dup: (Video, Video) -> bool): (r: seq<Video>)
    ensures forall w :: w in r <==> w in videos && !RejectedDuplicate(saved, dup, w)
    ensures saved in videos ==> saved in r
    ensures |r| <= |videos|
  {
    Filter(videos, w => !RejectedDuplicate(saved, dup, w))
  }

  /** video_from_vidscraper_video for an import that is running: a video
      whose data cannot be loaded, or that fails validation (field
      checks, duplicates, uniqueness), is recorded as a skip and nothing
      is stored. Otherwise the video is stored; when saving its relations
      fails it is deleted again, an unexpected error is recorded and the
      error re-raised. With `clearRejected` (search_update always passes
      it) the site's rejected duplicates of a stored video are deleted.
      A stored video with a thumbnail URL has its thumbnail fetch queued.
      An import that is not STARTED is retried. Every run on a running
      import either records one skip or leaves the new video stored, never
      both: that is what lets the import's totals add up. */
  method VideoFromVidscraperVideo(imp: SourceImport, db: Store.Db, video: Video,
                                  loaded: bool, valid: bool, relationsSaved: bool,
                                  clearRejected: bool, dup: (Video, Video) -> bool)
    returns (o: Outcome)
    modifies imp`errors, db`videos, db`nextId
    ensures old(imp.status) != Started ==> o == Retry && db.videos == old(db.videos) && imp.errors == old(imp.errors)
    ensures old(imp.status) == Started && !loaded ==>
              o == Done([]) && db.videos == old(db.videos) && imp.errors == old(imp.errors) + [ImportError(LoadFailed, true)]
    ensures old(imp.status) == Started && loaded && !valid ==>
              o == Done([]) && db.videos == old(db.videos) && imp.errors == old(imp.errors) + [ImportError(Invalid, true)]
    ensures old(imp.status) == Started && loaded && valid && !relationsSaved ==>
              o == Raised && db.videos == old(db.videos) && imp.errors == old(imp.errors) + [ImportError(Unexpected, true)]
    ensures old(imp.status) == Started && loaded && valid && relationsSaved ==>
              var saved := video.(id := old(db.nextId));
              db.videos == (if clearRejected then ClearRejected(old(db.videos) + [saved], saved, dup)
                            else old(db.videos) + [saved]) &&
              saved in db.videos &&
              db.nextId == old(db.nextId) + 1 &&
              imp.errors == old(imp.errors) &&
              o == Done(if video.thumbnailUrl != "" then [SaveThumbnail(old(db.nextId))] else [])
    ensures old(imp.status) == Started && Store.IdsBelow(Store.VideoIds(old(db.videos)), old(db.nextId)) ==>
              |Filter(imp.errors, IsSkip)| + (if Store.HasVideoId(db.videos, old(db.nextId)) then 1 else 0) ==
              |Filter(old(imp.errors), IsSkip)| + 1
  {
    if imp.status != Started {
      return Retry;
    }
    NoRowYet(db.videos, db.nextId);
    if !loaded {
      FilterSnoc(imp.errors, ImportError(LoadFailed, true), IsSkip);
      imp.errors := imp.errors + [ImportError(LoadFailed, true)];
      return Done([]);
    }
    if !valid {
      FilterSnoc(imp.errors, ImportError(Invalid, true), IsSkip);
      imp.errors := imp.errors + [ImportError(Invalid, true)];
      return Done([]);
    }
    FilterSnoc(imp.errors, ImportError(Unexpected, true), IsSkip);
    o := SaveScraped(imp, db, video, relationsSaved, clearRejected, dup);
  }

  /** The saving half of video_from_vidscraper_video, for a video that
      loaded and validated: the INSERT, the relation save that deletes the
      video again and records an error when it fails, and the clearing of
      rejected duplicates. */
  method SaveScraped(imp: SourceImport, db: Store.Db, video: Video, relationsSaved: bool,
                     clearRejected: bool, dup: (Video, Video) -> bool)
    returns (o: Outcome)
    modifies imp`errors, db`videos, db`nextId
    ensures !relationsSaved ==>
              o == Raised && db.videos == old(db.videos) && imp.errors == old(imp.errors) + [ImportError(Unexpected, true)]
    ensures relationsSaved ==>
              var saved := video.(id := old(db.nextId));
              db.videos == (if clearRejected then ClearRejected(old(db.videos) + [saved], saved, dup)
                            else old(db.videos) + [saved]) &&
              saved in db.videos && Store.HasVideoId(db.videos, old(db.nextId)) &&
              db.nextId == old(db.nextId) + 1 &&
              imp.errors == old(imp.errors) &&
              o == Done(if video.thumbnailUrl != "" then [SaveThumbnail(old(db.nextId))] else [])
  {
    var saved := video.(id := db.nextId);
    db.videos := db.videos + [saved];
    db.nextId := db.nextId + 1;
    if !relationsSaved {
      db.videos := db.videos[..|db.videos| - 1];
      imp.errors := imp.errors + [ImportError(Unexpected, true)];
      return Raised;
    }
    assert db.videos[|db.videos| - 1] == saved;
    if clearRejected {
      db.videos := ClearRejected(db.videos, saved, dup);
    }
    assert Store.HasVideoId(db.videos, saved.id);
    o := Done(if saved.thumbnailUrl != "" then [SaveThumbnail(saved.id)] else []);
  }

  /** Before an INSERT no row has the next free id. */
  lemma NoRowYet(videos: seq<Video>, next: nat)
    ensures Store.IdsBelow(Store.VideoIds(videos), next) ==> !Store.HasVideoId(videos, next)
  {
    if Store.IdsBelow(Store.VideoIds(videos), next) {
      forall i | 0 <= i < |videos|
        ensures videos[i].id != next
      {
        assert Store.VideoIds(videos)[i] == videos[i].id;
      }
    }
  }

  // ------------------------------------------------------------ thumbnails

  /** What fetching a thumbnail URL gives: an invalid URL, or a response
      with its status code and whether its body could be read. */
  datatype Fetch = InvalidUrl | Response(code: int, readable: bool)

  /** video_save_thumbnail: a missing video or one without a thumbnail URL
      is left alone; an invalid URL is erased together with the thumbnail
      flag; a response other than 200, or one whose body cannot be read,
      asks for a retry and changes nothing; a readable 200 response is
      saved as the video's thumbnail. */
  method VideoSaveThumbnail(db: Store.Db, storage: VideoModel.Storage, pk: nat, fetch: Fetch,
                            image: Option<VideoModel.Image>, fit: ((int, int), (int, int)) -> (int, int))
    returns (o: Outcome)
    modifies db`videos, storage
    ensures var k := Store.FindById(old(db.videos), pk);
            k.None? || old(db.videos)[k.value].thumbnailUrl == "" ==>
              o == Done([]) && db.videos == old(db.videos) && storage.files == old(storage.files)
    ensures var k := Store.FindById(old(db.videos), pk);
            k.Some? && old(db.videos)[k.value].thumbnailUrl != "" && fetch == InvalidUrl ==>
              o == Done([]) && storage.files == old(storage.files) &&
              db.videos == Store.SaveVideo(old(db.videos), old(db.videos)[k.value].(thumbnailUrl := "", hasThumbnail := false))
    ensures var k := Store.FindById(old(db.videos), pk);
            k.Some? && old(db.videos)[k.value].thumbnailUrl != "" && fetch.Response? && (fetch.code != 200 || !fetch.readable) ==>
              o == Retry && db.videos == old(db.videos) && storage.files == old(storage.files)
    ensures var k := Store.FindById(old(db.videos), pk);
            k.Some? && old(db.videos)[k.value].thumbnailUrl != "" && fetch == Response(200, true) ==>
              var v := old(db.videos)[k.value];
              (image.None? ==> o == Raised && db.videos == old(db.videos) && storage.files == old(storage.files)) &&
              (image.Some? ==>
                 var ext := Strings.Lower(image.value.format);
                 o == Done([]) &&
                 db.videos == Store.SaveVideo(old(db.videos), v.(thumbnailExtension := ext, hasThumbnail := true)) &&
                 storage.files == old(storage.files)[VideoModel.OriginalThumbPath(v.id, ext) :=
                                                      VideoModel.OriginalImage(image.value.format, image.value.size)]
                                  + VideoModel.ResizedFiles(v.id, image.value.size, fit, |VideoModel.VideoThumbSizes|))
  {
    var k := Store.FindById(db.videos, pk);
    if k.None? {
      return Done([]);
    }
    var v := db.videos[k.value];
    if v.thumbnailUrl == "" {
      return Done([]);
    }
    match fetch
    case InvalidUrl =>
      db.videos := Store.SaveVideo(db.videos, v.(thumbnailUrl := "", hasThumbnail := false));
      o := Done([]);
    case Response(code, readable) =>
      if code != 200 || !readable {
        return Retry;
      }
      var r := VideoModel.SaveThumbnailFromFile(v, storage, image, fit);
      if r.Err? {
        return Raised;
      }
      db.videos := Store.SaveVideo(db.videos, r.value);
      o := Done([]);
  }

  // ------------------------------------------------------------ search index

  /** What one haystack_update does to the index. */
  datatype IndexChange = IndexChange(updated: set<nat>, removed: set<nat>)

  /** haystack_update: the given pks that are in the index queryset are
      (re)indexed; when `remove` is set the others are taken out of the
      index. */
  function HaystackUpdate(indexable: set<nat>, pks: seq<nat>, remove: bool): (r: IndexChange)
    ensures r.updated <= indexable && r.updated * r.removed == {}
    ensures r.removed * indexable == {}
    ensures remove ==> r.updated + r.removed == set p | p in pks
    ensures !remove ==> r.removed == {} && r.updated == (set p | p in pks) * indexable
  {
    var seen := set p | p in pks && p in indexable;
    IndexChange(seen, if remove then (set p | p in pks) - seen else {})
  }

  /** The slices haystack_batch_update queues: the pks in order, b at a
      time, the last slice possibly shorter; none for no pks. */
  function Batches(pks: seq<nat>, b: nat): seq<seq<nat>>
    requires b > 0
  {
    if pks == [] then [] else Paging.Chunks(pks, b)
  }

  /** The batches give back every pk once and in order, there are
      ceil(total / b) of them, and none is empty or longer than b. */
  lemma BatchesCover(pks: seq<nat>, b: nat)
    requires b > 0
    ensures Paging.Concat(Batches(pks, b)) == pks
    ensures |Batches(pks, b)| == (|pks| + b - 1) / b
  {
    if pks != [] {
      Paging.ChunksCover(pks, b);
      Paging.ChunksArePages(pks, b, 0);
    }
  }

  lemma {:induction false} BatchesBounded(pks: seq<nat>, b: nat, i: nat)
    requires b > 0 && i < |Batches(pks, b)|
    ensures 0 < |Batches(pks, b)[i]| <= b
    decreases |pks|
  {
    if |pks| > b && i > 0 {
      BatchesBounded(pks[b..], b, i - 1);
    }
  }

  /** pks[start:], empty once start has passed the end. */
  function Drop(pks: seq<nat>, start: nat): seq<nat> {
    if start <= |pks| then pks[start..] else []
  }

  /** The slices from `start` on are the slice at `start` followed by
      the slices from start + b on. */
  lemma BatchStep(pks: seq<nat>, b: nat, start: nat)
    requires b > 0 && start < |pks|
    ensures var end := if start + b < |pks| then start + b else |pks|;
            Batches(Drop(pks, start), b) == [pks[start..end]] + Batches(Drop(pks, start + b), b)
  {
    var rest := pks[start..];
    assert Drop(pks, start) == rest;
    if |rest| > b {
      assert rest[..b] == pks[start..start + b];
      assert rest[b..] == Drop(pks, start + b);
      assert Paging.Chunks(rest, b) == [rest[..b]] + Paging.Chunks(rest[b..], b);
    } else {
      assert rest == pks[start..|pks|];
      assert Drop(pks, start + b) == [];
      assert Paging.Chunks(rest, b) == [rest];
    }
  }

  lemma IndexTasksCons(x: seq<nat>, tail: seq<seq<nat>>, remove: bool)
    ensures IndexTasks([x] + tail, remove) == [IndexUpdate(x, remove)] + IndexTasks(tail, remove)
  {
    assert ([x] + tail)[1..] == tail;
  }

  /** One haystack_update per slice, in order. */
  function IndexTasks(batches: seq<seq<nat>>, remove: bool): seq<Queued>
  {
    if batches == [] then [] else [IndexUpdate(batches[0], remove)] + IndexTasks(batches[1..], remove)
  }

  /** haystack_batch_update after the pks are selected: one
      haystack_update per slice [start, min(start + b, total)) for start
      = 0, b, 2b, … below total. */
  method BatchUpdateQueue(pks: seq<nat>, b: nat, remove: bool) returns (queued: seq<Queued>)
    requires b > 0
    ensures queued == IndexTasks(Batches(pks, b), remove)
  {
    var total := |pks|;
    queued := [];
    var start := 0;
    ghost var all := IndexTasks(Batches(pks, b), remove);
    ghost var todo := Batches(pks, b);
    assert Drop(pks, 0) == pks;
    while start < total
      invariant todo == Batches(Drop(pks, start), b)
      invariant queued + IndexTasks(todo, remove) == all
      decreases total - start
    {
      var end := if start + b < total then start + b else total;
      var batch := pks[start..end];
      BatchStep(pks, b, start);
      ghost var tail := Batches(Drop(pks, start + b), b);
      IndexTasksCons(batch, tail, remove);
      ConcatAssoc(queued, [IndexUpdate(batch, remove)], IndexTasks(tail, remove));
      queued := queued + [IndexUpdate(batch, remove)];
      todo := tail;
      start := start + b;
    }
    assert Drop(pks, start) == [];
  }
}
