/** The database the views and tasks update in place: one table per
    model, as a sequence of rows, and the next free primary key. */
module Store {
  import opened Common

  /** A VideoFile row (one downloadable file of a video). */
  datatype VideoFile = VideoFile(id: nat, video: nat, url: string, length: Option<int>, mimetype: string)

  /** A django.contrib.comments Comment on a video, reduced to the
      fields the editor's-comment form reads and writes; `editorsFlag`
      is the 'editors comment' CommentFlag. */
  datatype Comment = Comment(id: nat, site: Option<nat>, objectPk: nat, text: string,
                             isRemoved: bool, isPublic: bool, editorsFlag: bool)

  class Db {
    var videos: seq<Video>
    var feeds: seq<Feed>
    var searches: seq<SavedSearch>
    var categories: seq<Category>
    var playlists: seq<Playlist>
    var videoFiles: seq<VideoFile>
    var comments: seq<Comment>
    var watches: seq<Watch>
    /** The next primary key handed out on save(). */
    var nextId: nat

    constructor (videos: seq<Video>, feeds: seq<Feed>, searches: seq<SavedSearch>, categories: seq<Category>,
                 playlists: seq<Playlist>, videoFiles: seq<VideoFile>, comments: seq<Comment>, watches: seq<Watch>,
                 nextId: nat)
      ensures this.videos == videos && this.feeds == feeds && this.searches == searches
      ensures this.categories == categories && this.playlists == playlists
      ensures this.videoFiles == videoFiles && this.comments == comments && this.watches == watches
      ensures this.nextId == nextId
    {
      this.videos := videos;
      this.feeds := feeds;
      this.searches := searches;
      this.categories := categories;
      this.playlists := playlists;
      this.videoFiles := videoFiles;
      this.comments := comments;
      this.watches := watches;
      this.nextId := nextId;
    }
  }

  /** The ids of a table's rows are all below the next free id. */
  predicate IdsBelow(ids: seq<nat>, next: nat) {
    forall i :: 0 <= i < |ids| ==> ids[i] < next
  }

  function VideoIds(vs: seq<Video>): (r: seq<nat>)
    ensures |r| == |vs| && forall i :: 0 <= i < |vs| ==> r[i] == vs[i].id
  {
    MapSeq(vs, (v: Video) => v.id)
  }

  /** Some row has this primary key. */
  predicate HasVideoId(videos: seq<Video>, id: nat) {
    exists i :: 0 <= i < |videos| && videos[i].id == id
  }

  /** No two rows share a primary key. */
  predicate UniqueIds(videos: seq<Video>) {
    forall i, j :: 0 <= i < j < |videos| ==> videos[i].id != videos[j].id
  }

  /** Model.save(): an UPDATE of the row with the instance's pk when there
      is one, an INSERT at the end otherwise. */
  function SaveVideo(videos: seq<Video>, v: Video): (r: seq<Video>)
    ensures HasVideoId(videos, v.id) ==>
              |r| == |videos| && forall i :: 0 <= i < |videos| ==> r[i] == (if videos[i].id == v.id then v else videos[i])
    ensures !HasVideoId(videos, v.id) ==> r == videos + [v]
    ensures v in r
  {
    if HasVideoId(videos, v.id) then
      var r := seq(|videos|, i requires 0 <= i < |videos| => if videos[i].id == v.id then v else videos[i]);
      var k :| 0 <= k < |videos| && videos[k].id == v.id;
      assert r[k] == v;
      r
    else videos + [v]
  }

  /** get_object_or_404(Video, pk=id, site=site): the position of the
      row, or None for a 404. */
  function FindVideo(videos: seq<Video>, id: nat, site: nat): (r: Option<nat>)
    ensures r.Some? ==> r.value < |videos| && videos[r.value].id == id && videos[r.value].site == site
    ensures r.None? ==> forall i :: 0 <= i < |videos| ==> !(videos[i].id == id && videos[i].site == site)
  {
    if videos == [] then None
    else if videos[0].id == id && videos[0].site == site then Some(0)
    else
      var r := FindVideo(videos[1..], id, site);
      if r.Some? then Some(r.value + 1) else None
  }

  /** Video.objects.get(pk=id): the position of the row, or None for
      DoesNotExist. */
  function FindById(videos: seq<Video>, id: nat): (r: Option<nat>)
    ensures r.Some? ==> r.value < |videos| && videos[r.value].id == id
    ensures r.None? ==> forall i :: 0 <= i < |videos| ==> videos[i].id != id
  {
    if videos == [] then None
    else if videos[0].id == id then Some(0)
    else
      var r := FindById(videos[1..], id);
      if r.Some? then Some(r.value + 1) else None
  }

  /** Saving a changed copy of a stored row replaces that row and no other. */
  lemma SaveReplaces(videos: seq<Video>, k: nat, w: Video)
    requires UniqueIds(videos) && k < |videos| && w.id == videos[k].id
    ensures SaveVideo(videos, w) == videos[k := w]
  {
  }

  /** The rows saved one after another, in order. */
  function SaveAll(videos: seq<Video>, ws: seq<Video>): seq<Video>
    decreases |ws|
  {
    if ws == [] then videos else SaveVideo(SaveAll(videos, ws[..|ws| - 1]), ws[|ws| - 1])
  }

  /** The table with `f` applied to exactly the rows that appear in `page`. */
  function Updated(videos: seq<Video>, page: seq<Video>, f: Video -> Video): (r: seq<Video>)
    ensures |r| == |videos|
    ensures forall i :: 0 <= i < |videos| ==> r[i] == (if videos[i] in page then f(videos[i]) else videos[i])
  {
    seq(|videos|, i requires 0 <= i < |videos| => if videos[i] in page then f(videos[i]) else videos[i])
  }

  /** The loop `for video in page: <change video>; video.save()` over
      rows read from the table changes exactly those rows, when `f`
      keeps the primary key. */
  lemma {:induction false} SaveAllUpdated(videos: seq<Video>, page: seq<Video>, f: Video -> Video)
    requires UniqueIds(videos)
    requires forall w :: w in page ==> w in videos
    requires forall w :: f(w).id == w.id
    ensures SaveAll(videos, MapSeq(page, f)) == Updated(videos, page, f)
    decreases |page|
  {
    if page != [] {
      var n := |page| - 1;
      assert MapSeq(page, f)[..n] == MapSeq(page[..n], f);
      SaveAllUpdated(videos, page[..n], f);
      UpdatedStep(videos, page[..n], page[n], f);
      assert page[..n] + [page[n]] == page;
    }
  }

  /** One more saved row: the row with its key takes the new value. */
  lemma UpdatedStep(videos: seq<Video>, front: seq<Video>, w: Video, f: Video -> Video)
    requires UniqueIds(videos) && w in videos
    requires forall w :: f(w).id == w.id
    ensures SaveVideo(Updated(videos, front, f), f(w)) == Updated(videos, front + [w], f)
  {
    var x := Updated(videos, front, f);
    var k :| 0 <= k < |videos| && videos[k] == w;
    assert x[k].id == w.id;
    var r := SaveVideo(x, f(w));
    forall i | 0 <= i < |videos|
      ensures r[i] == Updated(videos, front + [w], f)[i]
    {
      assert x[i].id == videos[i].id;
      assert videos[i] in front + [w] <==> videos[i] in front || videos[i] == w;
      if i != k {
        assert videos[i].id != w.id;
      }
    }
  }
}
