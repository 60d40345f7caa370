/** The admin list columns and forms of the video and feed riffs
    (localtv/riffs.py, with localtv/admin/riffs.py and
    localtv/admin/forms.py carrying the same code): the import-status
    text, the per-feed video count, and the two form saves. */
module Riffs {
  import opened Common
  import opened Strings
  import Store

  /** The source's latest SourceImport, reduced to what the status text
      reads. */
  datatype ImportSummary = ImportSummary(isComplete: bool, modified: Time, errorCount: nat, importCount: nat)

  /** Django's `pluralize`: 's' unless the count is exactly one. */
  function Pluralize(n: int): (r: string)
    ensures r == "" <==> n == 1
  {
    if n == 1 then "" else "s"
  }

  function ErrorSentence(n: nat): string {
    ShowNat(n) + " error" + Pluralize(n) + "."
  }

  /** 'N video(s) imported.' for a positive count, otherwise
      'No new videos found.'. */
  function ImportSentence(n: nat): string {
    if n > 0 then ShowNat(n) + " video" + Pluralize(n) + " imported." else "No new videos found."
  }

  /** The two import sentences cannot be confused: a count renders as
      digits, and 'No new videos found.' starts with a letter. */
  lemma NoNewVideosIffZero(n: nat)
    ensures ImportSentence(n) == "No new videos found." <==> n == 0
  {
    if n > 0 {
      var s := ImportSentence(n);
      assert s[0] == ShowNat(n)[0];
      assert IsDigit(s[0]);
    }
  }

  /** The first part: 'Finished <time since> ago.' for a complete import,
      'Updating...' otherwise. The time-since rendering is a parameter. */
  function StatusText(latest: ImportSummary, since: Time -> string): (r: string)
    ensures r != [] && r[0] == (if latest.isComplete then 'F' else 'U')
  {
    if latest.isComplete then "Finished " + since(latest.modified) + " ago." else "Updating..."
  }

  /** The result sentences: the error sentence when there are errors,
      then the import sentence. */
  function Results(latest: ImportSummary): (r: seq<string>)
    ensures |r| == (if latest.errorCount > 0 then 2 else 1)
    ensures r[|r| - 1] == ImportSentence(latest.importCount)
    ensures latest.errorCount > 0 ==> r[0] == ErrorSentence(latest.errorCount)
  {
    (if latest.errorCount > 0 then [ErrorSentence(latest.errorCount)] else []) + [ImportSentence(latest.importCount)]
  }

  /** latest_import: 'Waiting for import (…)' without any import,
      otherwise the status, a space, and the result sentences joined by
      spaces. The first letter tells the three cases apart. */
  function LatestImportText(created: Time, latest: Option<ImportSummary>, since: Time -> string): (r: string)
    ensures r != []
    ensures r[0] == 'W' <==> latest.None?
    ensures r[0] == 'F' <==> latest.Some? && latest.value.isComplete
    ensures r[0] == 'U' <==> latest.Some? && !latest.value.isComplete
  {
    match latest
    case None => "Waiting for import (" + since(created) + ")"
    case Some(l) => StatusText(l, since) + " " + Join(" ", Results(l))
  }

  /** The whole text of a source with imports: the error sentence, when
      there is one, sits between the status and the import sentence. */
  lemma LatestImportShape(created: Time, l: ImportSummary, since: Time -> string)
    ensures LatestImportText(created, Some(l), since)
         == StatusText(l, since) + " " +
            (if l.errorCount > 0 then ErrorSentence(l.errorCount) + " " else "") +
            ImportSentence(l.importCount)
  {
    var rs := Results(l);
    if l.errorCount > 0 {
      assert rs[1..] == [ImportSentence(l.importCount)];
      assert Join(" ", rs) == ErrorSentence(l.errorCount) + " " + ImportSentence(l.importCount);
    }
  }

  /** latest_import, as written: the result sentences collected by
      appending to a list. */
  method LatestImport(created: Time, latest: Option<ImportSummary>, since: Time -> string) returns (r: string)
    ensures r == LatestImportText(created, latest, since)
  {
    if latest.None? {
      return "Waiting for import (" + since(created) + ")";
    }
    var l := latest.value;
    var status := if l.isComplete then "Finished " + since(l.modified) + " ago." else "Updating...";
    var results: seq<string> := [];
    if l.errorCount > 0 {
      results := results + [ErrorSentence(l.errorCount)];
    }
    if l.importCount > 0 {
      results := results + [ShowNat(l.importCount) + " video" + Pluralize(l.importCount) + " imported."];
    } else {
      results := results + ["No new videos found."];
    }
    r := status + " " + Join(" ", results);
  }

  /** video_count: the feed's annotated Count('video'), the number of
      video rows whose feed is this one. */
  function VideoCount(videos: seq<Video>, feedId: nat): (r: nat)
    ensures r <= |videos|
    ensures r == |OwnIndices(videos, feedId, |videos|)|
    ensures r == 0 <==> forall v :: v in videos ==> v.feed != Some(feedId)
  {
    var p := (v: Video) => v.feed == Some(feedId);
    var own := Filter(videos, p);
    assert own != [] ==> own[0] in own;
    OwnCount(videos, p, feedId, |videos|);
    assert videos[..|videos|] == videos;
    |own|
  }

  /** Filtering the first n rows keeps one row per index whose feed is
      this one. */
  lemma {:induction false} OwnCount(videos: seq<Video>, p: Video -> bool, feedId: nat, n: nat)
    requires n <= |videos|
    requires forall v :: p(v) <==> v.feed == Some(feedId)
    ensures |Filter(videos[..n], p)| == |OwnIndices(videos, feedId, n)|
  {
    if n == 0 {
      assert OwnIndices(videos, feedId, n) == {};
    } else {
      var x := videos[n - 1];
      OwnCount(videos, p, feedId, n - 1);
      assert videos[..n] == videos[..n - 1] + [x];
      FilterSnoc(videos[..n - 1], x, p);
      OwnIndicesStep(videos, feedId, n);
    }
  }

  /** One more row adds its index exactly when its feed is this one. */
  lemma OwnIndicesStep(videos: seq<Video>, feedId: nat, n: nat)
    requires 0 < n <= |videos|
    ensures |OwnIndices(videos, feedId, n)| == |OwnIndices(videos, feedId, n - 1)| + (if videos[n - 1].feed == Some(feedId) then 1 else 0)
  {
    var before := OwnIndices(videos, feedId, n - 1);
    var after := OwnIndices(videos, feedId, n);
    if videos[n - 1].feed == Some(feedId) {
      forall i | i in after
        ensures i in before + {n - 1}
      {
        if i != n - 1 {
          assert 0 <= i < n - 1 && videos[i].feed == Some(feedId);
        }
      }
      assert after == before + {n - 1};
    } else {
      assert after == before;
    }
  }

  /** The indices below n of the rows whose feed is this one. */
  ghost function OwnIndices(videos: seq<Video>, feedId: nat, n: nat): set<int>
    requires n <= |videos|
  {
    set i | 0 <= i < n && videos[i].feed == Some(feedId)
  }

  /** VideoForm.save: the cleaned tags are put on the instance first;
      with commit the video is saved, its relations with it, and an index
      update is queued for it; without commit nothing is stored or
      queued. */
  method VideoFormSave(db: Store.Db, edited: Video, tags: seq<string>, commit: bool)
    returns (instance: Video, indexQueued: seq<nat>)
    modifies db`videos
    ensures instance == edited.(tags := tags)
    ensures commit ==> db.videos == Store.SaveVideo(old(db.videos), instance) && indexQueued == [instance.id]
    ensures commit ==> instance in db.videos
    ensures !commit ==> db.videos == old(db.videos) && indexQueued == []
  {
    instance := edited.(tags := tags);
    indexQueued := [];
    if commit {
      db.videos := Store.SaveVideo(db.videos, instance);
      indexQueued := [instance.id];
    }
  }

  /** FeedCreateForm.save: the feed is put on the current site and named
      after its URL; with commit it is inserted under the next primary key
      and a feed update is queued for that key; without commit nothing is
      stored or queued. */
  method FeedCreateSave(db: Store.Db, form: Feed, siteId: nat, commit: bool)
    returns (instance: Feed, updateQueued: seq<nat>)
    modifies db`feeds, db`nextId
    ensures instance.site == siteId && instance.name == form.feedUrl
    ensures commit ==> instance == form.(site := siteId, name := form.feedUrl, id := old(db.nextId))
    ensures commit ==> db.feeds == old(db.feeds) + [instance] && db.nextId == old(db.nextId) + 1
    ensures commit ==> updateQueued == [instance.id]
    ensures !commit ==> instance == form.(site := siteId, name := form.feedUrl)
    ensures !commit ==> db.feeds == old(db.feeds) && db.nextId == old(db.nextId) && updateQueued == []
  {
    instance := form.(site := siteId, name := form.feedUrl);
    updateQueued := [];
    if commit {
      instance := instance.(id := db.nextId);
      db.feeds := db.feeds + [instance];
      db.nextId := db.nextId + 1;
      updateQueued := [instance.id];
    }
  }
}
