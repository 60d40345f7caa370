/** The data migration that moves a video's file fields into VideoFile
    rows and back (localtv/migrations/0094_migrate_file_data.py). */
module FileMigration {
  import opened Common
  import Store

  /** The VideoFile table and the next primary key it hands out. */
  datatype Files = Files(rows: seq<Store.VideoFile>, next: nat)

  /** video.videofile_set.get(url=...): the position of the first row of
      the video with that URL. */
  function FindFile(rows: seq<Store.VideoFile>, vid: nat, url: string): (r: Option<nat>)
    ensures r.Some? ==> r.value < |rows| && rows[r.value].video == vid && rows[r.value].url == url
    ensures r.Some? ==> forall i :: 0 <= i < r.value ==> !(rows[i].video == vid && rows[i].url == url)
    ensures r.None? ==> forall i :: 0 <= i < |rows| ==> !(rows[i].video == vid && rows[i].url == url)
  {
    if rows == [] then None
    else if rows[0].video == vid && rows[0].url == url then Some(0)
    else
      var r := FindFile(rows[1..], vid, url);
      if r.Some? then Some(r.value + 1) else None
  }

  /** The lookup reads only the video and URL columns. */
  lemma {:induction false} FindFileSameKeys(a: seq<Store.VideoFile>, b: seq<Store.VideoFile>, vid: nat, url: string)
    requires |a| == |b| && forall i :: 0 <= i < |a| ==> a[i].video == b[i].video && a[i].url == b[i].url
    ensures FindFile(a, vid, url) == FindFile(b, vid, url)
    decreases |a|
  {
    if a != [] {
      FindFileSameKeys(a[1..], b[1..], vid, url);
    }
  }

  /** A row added at the end is found only when nothing before it
      matches. */
  lemma {:induction false} FindFileAppend(rows: seq<Store.VideoFile>, x: Store.VideoFile, vid: nat, url: string)
    ensures FindFile(rows + [x], vid, url) ==
              if FindFile(rows, vid, url).Some? then FindFile(rows, vid, url)
              else if x.video == vid && x.url == url then Some(|rows|)
              else None
    decreases |rows|
  {
    if rows != [] {
      assert (rows + [x])[1..] == rows[1..] + [x];
      FindFileAppend(rows[1..], x, vid, url);
    }
  }

  /** One pass of the forwards loop: a video with a file URL gets its
      length and MIME type written into its VideoFile row for that URL,
      which is created when missing; a video without one is skipped. */
  function ForwardOne(s: Files, v: Video): (r: Files)
    ensures |r.rows| >= |s.rows|
  {
    if v.fileUrl == "" then s
    else
      match FindFile(s.rows, v.id, v.fileUrl)
      case Some(j) => Files(s.rows[j := s.rows[j].(length := v.fileUrlLength, mimetype := v.fileUrlMimetype)], s.next)
      case None => Files(s.rows + [Store.VideoFile(s.next, v.id, v.fileUrl, v.fileUrlLength, v.fileUrlMimetype)], s.next + 1)
  }

  /** forwards: the videos in table order. */
  function ForwardAll(videos: seq<Video>, s: Files): Files
    decreases |videos|
  {
    if videos == [] then s else ForwardOne(ForwardAll(videos[..|videos| - 1], s), videos[|videos| - 1])
  }

  /** The row of `v` for its file URL exists and holds its length and
      MIME type. */
  predicate Covered(s: Files, v: Video) {
    var j := FindFile(s.rows, v.id, v.fileUrl);
    j.Some? && s.rows[j.value].length == v.fileUrlLength && s.rows[j.value].mimetype == v.fileUrlMimetype
  }

  /** After its pass a video with a file URL is covered. */
  lemma ForwardOneCovers(s: Files, v: Video)
    requires v.fileUrl != ""
    ensures Covered(ForwardOne(s, v), v)
  {
    var r := ForwardOne(s, v);
    match FindFile(s.rows, v.id, v.fileUrl)
    case Some(j) => FindFileSameKeys(s.rows, r.rows, v.id, v.fileUrl);
    case None =>
      FindFileAppend(s.rows, Store.VideoFile(s.next, v.id, v.fileUrl, v.fileUrlLength, v.fileUrlMimetype), v.id, v.fileUrl);
  }

  /** A pass touches only rows of its own video, so another video stays
      covered. */
  lemma ForwardOneKeepsOther(s: Files, v: Video, w: Video)
    requires w.id != v.id && Covered(s, w)
    ensures Covered(ForwardOne(s, v), w)
  {
    var r := ForwardOne(s, v);
    if v.fileUrl != "" {
      match FindFile(s.rows, v.id, v.fileUrl)
      case Some(j) =>
        FindFileSameKeys(s.rows, r.rows, w.id, w.fileUrl);
      case None =>
        FindFileAppend(s.rows, Store.VideoFile(s.next, v.id, v.fileUrl, v.fileUrlLength, v.fileUrlMimetype), w.id, w.fileUrl);
    }
  }

  /** A covered video's pass writes the values already there. */
  lemma ForwardCoveredNoop(s: Files, v: Video)
    requires Covered(s, v)
    ensures ForwardOne(s, v) == s
  {
    if v.fileUrl != "" {
      var j := FindFile(s.rows, v.id, v.fileUrl).value;
      assert s.rows[j := s.rows[j].(length := v.fileUrlLength, mimetype := v.fileUrlMimetype)] == s.rows;
    }
  }

  /** After forwards every video with a file URL has a row for that URL
      holding its length and MIME type. */
  lemma {:induction false} ForwardAllCovers(videos: seq<Video>, s: Files)
    requires Store.UniqueIds(videos)
    ensures forall v :: v in videos && v.fileUrl != "" ==> Covered(ForwardAll(videos, s), v)
    decreases |videos|
  {
    if videos != [] {
      var init := videos[..|videos| - 1];
      var last := videos[|videos| - 1];
      ForwardAllCovers(init, s);
      var m := ForwardAll(init, s);
      forall v | v in videos && v.fileUrl != ""
        ensures Covered(ForwardOne(m, last), v)
      {
        if v == last {
          ForwardOneCovers(m, last);
        } else {
          var k :| 0 <= k < |videos| && videos[k] == v;
          assert k < |videos| - 1 && init[k] == v;
          ForwardOneKeepsOther(m, last, v);
        }
      }
    }
  }

  /** Forwards over a table where every video is already covered changes
      nothing. */
  lemma {:induction false} ForwardAllNoop(videos: seq<Video>, s: Files)
    requires forall v :: v in videos && v.fileUrl != "" ==> Covered(s, v)
    ensures ForwardAll(videos, s) == s
    decreases |videos|
  {
    if videos != [] {
      var init := videos[..|videos| - 1];
      var last := videos[|videos| - 1];
      assert forall v :: v in init ==> v in videos;
      ForwardAllNoop(init, s);
      if last.fileUrl != "" {
        ForwardCoveredNoop(s, last);
      }
    }
  }

  /** Running forwards a second time adds no VideoFile row and changes
      none. */
  lemma ForwardsIdempotent(videos: seq<Video>, s: Files)
    requires Store.UniqueIds(videos)
    ensures ForwardAll(videos, ForwardAll(videos, s)) == ForwardAll(videos, s)
  {
    ForwardAllCovers(videos, s);
    ForwardAllNoop(videos, ForwardAll(videos, s));
  }

  /** The videos whose rows forwards may touch: those with a file URL. */
  function FileIds(videos: seq<Video>): set<nat> {
    set v | v in videos && v.fileUrl != "" :: v.id
  }

  /** Forwards leaves every existing row of a video without a file URL
      as it was, and every row it adds belongs to a video with one. */
  lemma {:induction false} ForwardsOnlyFileVideos(videos: seq<Video>, s: Files)
    ensures var r := ForwardAll(videos, s);
            |r.rows| >= |s.rows| &&
            (forall i :: 0 <= i < |s.rows| && s.rows[i].video !in FileIds(videos) ==> r.rows[i] == s.rows[i]) &&
            (forall i :: |s.rows| <= i < |r.rows| ==> r.rows[i].video in FileIds(videos))
    decreases |videos|
  {
    if videos != [] {
      var init := videos[..|videos| - 1];
      var last := videos[|videos| - 1];
      ForwardsOnlyFileVideos(init, s);
      assert FileIds(init) <= FileIds(videos);
      assert last.fileUrl != "" ==> last.id in FileIds(videos);
    }
  }

  /** forwards, as the loop over the videos with a file URL. */
  method Forwards(db: Store.Db)
    modifies db`videoFiles, db`nextId
    ensures Files(db.videoFiles, db.nextId) == ForwardAll(db.videos, Files(old(db.videoFiles), old(db.nextId)))
  {
    ghost var s0 := Files(db.videoFiles, db.nextId);
    for k := 0 to |db.videos|
      invariant Files(db.videoFiles, db.nextId) == ForwardAll(db.videos[..k], s0)
    {
      assert db.videos[..k + 1][..k] == db.videos[..k];
      var v := db.videos[k];
      if v.fileUrl != "" {
        var j := FindFile(db.videoFiles, v.id, v.fileUrl);
        if j.Some? {
          db.videoFiles := db.videoFiles[j.value := db.videoFiles[j.value].(length := v.fileUrlLength, mimetype := v.fileUrlMimetype)];
        } else {
          db.videoFiles := db.videoFiles + [Store.VideoFile(db.nextId, v.id, v.fileUrl, v.fileUrlLength, v.fileUrlMimetype)];
          db.nextId := db.nextId + 1;
        }
      }
    }
    assert db.videos[..|db.videos|] == db.videos;
  }

  /** order_by('-length'): a missing length sorts below every length. */
  predicate LengthLess(a: Option<int>, b: Option<int>) {
    b.Some? && (a.None? || a.value < b.value)
  }

  /** The first of the video's rows with the greatest length, or None
      when it has none. */
  function Longest(rows: seq<Store.VideoFile>, vid: nat): (r: Option<nat>)
    ensures r.None? <==> forall i :: 0 <= i < |rows| ==> rows[i].video != vid
    ensures r.Some? ==> r.value < |rows| && rows[r.value].video == vid
    ensures r.Some? ==> forall i :: 0 <= i < |rows| && rows[i].video == vid ==> !LengthLess(rows[r.value].length, rows[i].length)
    decreases |rows|
  {
    if rows == [] then None
    else
      var n := |rows| - 1;
      var best := Longest(rows[..n], vid);
      if rows[n].video == vid && (best.None? || LengthLess(rows[best.value].length, rows[n].length)) then Some(n)
      else best
  }

  /** One pass of backwards: a video with at least one row takes the URL,
      length and MIME type of its longest row; any other video is left
      alone. */
  function Restore(v: Video, rows: seq<Store.VideoFile>): (r: Video)
    ensures (forall i :: 0 <= i < |rows| ==> rows[i].video != v.id) ==> r == v
  {
    match Longest(rows, v.id)
    case None => v
    case Some(j) => v.(fileUrl := rows[j].url, fileUrlLength := rows[j].length, fileUrlMimetype := rows[j].mimetype)
  }

  /** A restored video's file fields come from one of its own rows, and
      no row of it is longer. */
  lemma RestoreFromLongest(v: Video, rows: seq<Store.VideoFile>)
    requires exists i :: 0 <= i < |rows| && rows[i].video == v.id
    ensures exists j :: 0 <= j < |rows| && rows[j].video == v.id &&
              Restore(v, rows) == v.(fileUrl := rows[j].url, fileUrlLength := rows[j].length, fileUrlMimetype := rows[j].mimetype) &&
              forall i :: 0 <= i < |rows| && rows[i].video == v.id ==> !LengthLess(rows[j].length, rows[i].length)
  {
    var j := Longest(rows, v.id).value;
    assert rows[j].video == v.id;
  }

  /** Every video passed through Restore. */
  function RestoreAll(videos: seq<Video>, rows: seq<Store.VideoFile>): (r: seq<Video>)
    ensures |r| == |videos| && forall i :: 0 <= i < |videos| ==> r[i] == Restore(videos[i], rows)
  {
    MapSeq(videos, (v: Video) => Restore(v, rows))
  }

  /** backwards, as the loop over the videos: each video with rows is
      saved with its longest row's fields. */
  method Backwards(db: Store.Db)
    modifies db`videos
    ensures db.videos == RestoreAll(old(db.videos), db.videoFiles)
  {
    ghost var v0 := db.videos;
    for k := 0 to |db.videos|
      invariant |db.videos| == |v0|
      invariant forall i :: 0 <= i < k ==> db.videos[i] == Restore(v0[i], db.videoFiles)
      invariant forall i :: k <= i < |v0| ==> db.videos[i] == v0[i]
    {
      var v := db.videos[k];
      var j := Longest(db.videoFiles, v.id);
      if j.Some? {
        var f := db.videoFiles[j.value];
        db.videos := db.videos[k := v.(fileUrl := f.url, fileUrlLength := f.length, fileUrlMimetype := f.mimetype)];
      }
    }
  }

  /** Forwards then backwards gives a video with a file URL and no rows
      of its own its file fields back. */
  lemma RoundTrip(s: Files, v: Video)
    requires v.fileUrl != ""
    requires forall i :: 0 <= i < |s.rows| ==> s.rows[i].video != v.id
    ensures Restore(v, ForwardOne(s, v).rows) == v
  {
    var x := Store.VideoFile(s.next, v.id, v.fileUrl, v.fileUrlLength, v.fileUrlMimetype);
    var rows := s.rows + [x];
    assert ForwardOne(s, v).rows == rows;
    assert rows[..|s.rows|] == s.rows;
    assert Longest(rows, v.id) == Some(|s.rows|);
  }
}
