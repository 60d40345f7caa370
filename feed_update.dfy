/** Feed.update_items (localtv/models.py): importing the entries of a
    parsed feed as videos, and moving the feed's cursor. */
module FeedUpdate {
  import opened Common
  import opened Strings
  import VideoModel
  import Store

  /** A parsed feed entry: the fields update_items reads. `enclosure` is
      the href of the first video enclosure, if there is one. */
  datatype Entry = Entry(title: string, guid: Option<string>, link: Option<string>, summary: Option<string>,
                         enclosure: Option<string>, thumbnailUrl: string, tags: seq<string>)

  /** What vidscraper's auto_scrape yields for a link: the fields asked
      for ("" for a missing one), or an error. */
  datatype Scraped =
    | Scraped(fileUrl: string, fileUrlIsFlaky: bool, embed: string, flashEnclosureUrl: string,
              publishDate: Option<Time>)
    | ScrapeError

  datatype ParsedFeed = ParsedFeed(entries: seq<Entry>, etag: Option<string>)

  /** The outside collaborators: the scraper, slug_re, strip_tags, the
      thumbnail download (None when the image cannot be opened) and the
      clock. */
  datatype ImportEnv = ImportEnv(scrape: string -> Scraped, slugOk: string -> bool, stripTags: string -> string,
                                 fetchThumbnail: string -> Option<VideoModel.Image>, now: Time)

  /** Some video of the feed already has this guid. */
  predicate HasGuid(videos: seq<Video>, feed: nat, guid: string) {
    exists i :: 0 <= i < |videos| && videos[i].feed == Some(feed) && videos[i].guid == guid
  }

  /** Some video of the feed already has this link as its website URL. */
  predicate HasLink(videos: seq<Video>, feed: nat, link: string) {
    exists i :: 0 <= i < |videos| && videos[i].feed == Some(feed) && videos[i].websiteUrl == link
  }

  /** The skip test: a None guid or link is not checked, and either match
      alone is enough. */
  predicate AlreadyImported(videos: seq<Video>, feed: nat, e: Entry) {
    (e.guid.Some? && HasGuid(videos, feed, e.guid.value)) || (e.link.Some? && HasLink(videos, feed, e.link.value))
  }

  /** The scraper's answer, asked only for a non-empty link. */
  function ScrapeFor(e: Entry, env: ImportEnv): (r: Scraped)
    ensures e.link.None? || e.link.value == "" ==> r == ScrapeError
  {
    if e.link.Some? && e.link.value != "" then env.scrape(e.link.value) else ScrapeError
  }

  /** The file URL: the enclosure's, else the scraped one unless it is
      flagged as flaky; "" for none. */
  function FileUrlFor(e: Entry, s: Scraped): (url: string)
    ensures e.enclosure.Some? && e.enclosure.value != "" ==> url == e.enclosure.value
    ensures (e.enclosure.None? || e.enclosure.value == "") && s.Scraped? && !s.fileUrlIsFlaky ==> url == s.fileUrl
    ensures (e.enclosure.None? || e.enclosure.value == "") && (s.ScrapeError? || s.fileUrlIsFlaky) ==> url == ""
  {
    var fromEnclosure := e.enclosure.GetOr("");
    if fromEnclosure == "" && s.Scraped? && !s.fileUrlIsFlaky then s.fileUrl else fromEnclosure
  }

  /** The entry tags that are attached: 1 to 25 characters and a slug. */
  function KeptTags(e: Entry, env: ImportEnv): (tags: seq<string>)
    ensures forall t :: t in tags <==> t in e.tags && 0 < |t| <= 25 && env.slugOk(t)
  {
    Filter(e.tags, (t: string) => 0 < |t| <= 25 && env.slugOk(t))
  }

  /** The new video before its thumbnail is fetched. */
  function NewVideo(feed: Feed, e: Entry, s: Scraped, env: ImportEnv, id: nat): (v: Video) {
    Video(
      id := id,
      site := feed.site,
      name := e.title,
      description := env.stripTags(e.summary.GetOr("")),
      fileUrl := FileUrlFor(e, s),
      fileUrlLength := None,
      fileUrlMimetype := "",
      whenSubmitted := env.now,
      whenApproved := Some(env.now),
      whenPublished := if s.Scraped? then s.publishDate else None,
      lastFeatured := None,
      status := if feed.autoApprove then Active else Unapproved,
      feed := Some(feed.id),
      search := None,
      user := None,
      websiteUrl := e.link.GetOr(""),
      embedCode := if s.Scraped? then s.embed else "",
      flashEnclosureUrl := if s.Scraped? then s.flashEnclosureUrl else "",
      guid := "",
      hasThumbnail := false,
      thumbnailUrl := e.thumbnailUrl,
      thumbnailExtension := "",
      contact := "",
      tags := KeptTags(e, env),
      categories := feed.autoCategories,
      authors := (set a | a in feed.autoAuthors),
      playlists := {})
  }

  /** save_thumbnail on the new video: nothing without a thumbnail URL or
      when the image cannot be opened (CannotOpenImageUrl is caught);
      otherwise the extension is recorded and the video has a thumbnail. */
  function WithThumbnail(v: Video, env: ImportEnv): (r: Video)
    ensures r.(hasThumbnail := v.hasThumbnail, thumbnailExtension := v.thumbnailExtension) == v
    ensures r.hasThumbnail <==> v.hasThumbnail || (v.thumbnailUrl != "" && env.fetchThumbnail(v.thumbnailUrl).Some?)
  {
    if v.thumbnailUrl == "" then v
    else
      var image := env.fetchThumbnail(v.thumbnailUrl);
      if image.None? then v
      else v.(thumbnailExtension := Lower(image.value.format), hasThumbnail := true)
  }

  /** One iteration of update_items: the video created from an entry, or
      None when the entry is skipped. `videos` is the table as it stands,
      including videos created earlier in the same run. */
  function ImportEntry(videos: seq<Video>, feed: Feed, e: Entry, env: ImportEnv, id: nat): (r: Option<Video>)
    ensures AlreadyImported(videos, feed.id, e) ==> r.None?
    ensures r.Some? ==> r.value.fileUrl != "" || r.value.embedCode != ""
    ensures r.Some? ==> r.value.id == id && r.value.feed == Some(feed.id) && r.value.site == feed.site
    ensures r.Some? ==> r.value.websiteUrl == e.link.GetOr("")
  {
    if AlreadyImported(videos, feed.id, e) then None
    else
      var s := ScrapeFor(e, env);
      var v := NewVideo(feed, e, s, env, id);
      if v.fileUrl == "" && v.embedCode == "" then None
      else Some(WithThumbnail(v, env))
  }

  /** An entry becomes a video exactly when it is not already imported
      and yields a file URL or an embed code. */
  lemma ImportEntryExactly(videos: seq<Video>, feed: Feed, e: Entry, env: ImportEnv, id: nat)
    ensures ImportEntry(videos, feed, e, env, id).Some? <==>
            !AlreadyImported(videos, feed.id, e) &&
            (FileUrlFor(e, ScrapeFor(e, env)) != "" || (ScrapeFor(e, env).Scraped? && ScrapeFor(e, env).embed != ""))
  {
  }

  /** The fields of a created video: the status follows auto_approve,
      both timestamps are `now` whatever the status, the website URL is
      the link, the entry's guid is not copied, the tags are filtered and
      every auto category and author is attached. */
  lemma CreatedVideoFields(videos: seq<Video>, feed: Feed, e: Entry, env: ImportEnv, id: nat)
    requires ImportEntry(videos, feed, e, env, id).Some?
    ensures var v := ImportEntry(videos, feed, e, env, id).value;
            (v.status == Active <==> feed.autoApprove) &&
            (v.status == Unapproved <==> !feed.autoApprove) &&
            v.whenSubmitted == env.now && v.whenApproved == Some(env.now) &&
            v.websiteUrl == (if e.link.Some? then e.link.value else "") &&
            v.guid == "" && v.name == e.title &&
            v.fileUrl == FileUrlFor(e, ScrapeFor(e, env)) &&
            (forall t :: t in v.tags <==> t in e.tags && 0 < |t| <= 25 && env.slugOk(t)) &&
            v.categories == feed.autoCategories &&
            (forall a :: a in v.authors <==> a in feed.autoAuthors)
  {
  }

  /** The videos a run creates from `entries`, in order: each entry sees
      the table with the videos created before it, and a created video
      takes the next id. */
  function Imported(videos: seq<Video>, feed: Feed, entries: seq<Entry>, env: ImportEnv, nextId: nat): (r: seq<Video>)
    ensures |r| <= |entries|
    decreases |entries|
  {
    if entries == [] then []
    else
      var v := ImportEntry(videos, feed, entries[0], env, nextId);
      if v.None? then Imported(videos, feed, entries[1..], env, nextId)
      else [v.value] + Imported(videos + [v.value], feed, entries[1..], env, nextId + 1)
  }

  /** The videos of a run belong to the feed and its site, and take the
      ids from `nextId` on, in order. */
  predicate OfFeedFrom(r: seq<Video>, feed: Feed, nextId: nat) {
    forall i :: 0 <= i < |r| ==> r[i].feed == Some(feed.id) && r[i].site == feed.site && r[i].id == nextId + i
  }

  lemma {:induction false} ImportedIds(videos: seq<Video>, feed: Feed, entries: seq<Entry>, env: ImportEnv, nextId: nat)
    ensures OfFeedFrom(Imported(videos, feed, entries, env, nextId), feed, nextId)
    decreases |entries|
  {
    if entries != [] {
      var v := ImportEntry(videos, feed, entries[0], env, nextId);
      if v.None? {
        ImportedIds(videos, feed, entries[1..], env, nextId);
      } else {
        ImportedIds(videos + [v.value], feed, entries[1..], env, nextId + 1);
        var rest := Imported(videos + [v.value], feed, entries[1..], env, nextId + 1);
        assert OfFeedFrom(rest, feed, nextId + 1);
        var r := [v.value] + rest;
        forall i | 0 <= i < |r|
          ensures r[i].feed == Some(feed.id) && r[i].site == feed.site && r[i].id == nextId + i
        {
          if i > 0 {
            assert r[i] == rest[i - 1];
          }
        }
      }
    }
  }

  /** No video of `r` has a website URL that a video of the feed stored
      before it (in `videos` or earlier in `r`) already has. */
  predicate LinksFresh(videos: seq<Video>, feed: nat, r: seq<Video>) {
    forall i :: 0 <= i < |r| ==> !HasLink(videos + r[..i], feed, r[i].websiteUrl)
  }

  /** No created video repeats the website URL of a video of the feed
      stored before it, when every entry has a link: the link check sees
      the videos created earlier in the same run. */
  lemma {:induction false} ImportedLinksFresh(videos: seq<Video>, feed: Feed, entries: seq<Entry>, env: ImportEnv,
                                             nextId: nat)
    requires forall e :: e in entries ==> e.link.Some?
    ensures LinksFresh(videos, feed.id, Imported(videos, feed, entries, env, nextId))
    decreases |entries|
  {
    if entries != [] {
      var v := ImportEntry(videos, feed, entries[0], env, nextId);
      ImportedUnfold(videos, feed, entries, env, nextId);
      assert forall x :: x in entries[1..] ==> x in entries;
      if v.None? {
        ImportedLinksFresh(videos, feed, entries[1..], env, nextId);
      } else {
        var rest := Imported(videos + [v.value], feed, entries[1..], env, nextId + 1);
        ImportedLinksFresh(videos + [v.value], feed, entries[1..], env, nextId + 1);
        FreshCons(videos, feed, v.value, rest);
      }
    }
  }

  /** Unfolding one step of a run. */
  lemma ImportedUnfold(videos: seq<Video>, feed: Feed, entries: seq<Entry>, env: ImportEnv, nextId: nat)
    requires entries != []
    ensures var v := ImportEntry(videos, feed, entries[0], env, nextId);
            Imported(videos, feed, entries, env, nextId) ==
              if v.None? then Imported(videos, feed, entries[1..], env, nextId)
              else [v.value] + Imported(videos + [v.value], feed, entries[1..], env, nextId + 1)
  {
  }

  /** A fresh first video followed by videos fresh after it. */
  lemma FreshCons(videos: seq<Video>, feed: Feed, x: Video, rest: seq<Video>)
    requires !HasLink(videos, feed.id, x.websiteUrl)
    requires LinksFresh(videos + [x], feed.id, rest)
    ensures LinksFresh(videos, feed.id, [x] + rest)
  {
    var r := [x] + rest;
    forall i | 0 <= i < |r|
      ensures !HasLink(videos + r[..i], feed.id, r[i].websiteUrl)
    {
      if i == 0 {
        assert videos + r[..i] == videos;
      } else {
        assert videos + r[..i] == (videos + [x]) + rest[..i - 1];
        assert r[i] == rest[i - 1];
      }
    }
  }

  /** An entry with no link and a guid is imported again on every run:
      the guid check looks at videos' guids, which update_items never
      fills in. */
  lemma ReimportWithoutLink(videos: seq<Video>, feed: Feed, e: Entry, env: ImportEnv, id: nat, id2: nat)
    requires e.link.None? && e.guid.Some? && e.guid.value != ""
    requires ImportEntry(videos, feed, e, env, id).Some?
    ensures ImportEntry(videos + [ImportEntry(videos, feed, e, env, id).value], feed, e, env, id2).Some?
  {
    var v := ImportEntry(videos, feed, e, env, id).value;
    CreatedVideoFields(videos, feed, e, env, id);
    assert !HasGuid(videos, feed.id, e.guid.value);
    assert !HasGuid(videos + [v], feed.id, e.guid.value) by {
      forall i | 0 <= i < |videos + [v]| && (videos + [v])[i].feed == Some(feed.id)
        ensures (videos + [v])[i].guid != e.guid.value
      {
        if i < |videos| {
          assert (videos + [v])[i] == videos[i];
        }
      }
    }
  }

  /** The feed after a run: etag is the parsed etag or '', and
      last_updated is `now`, even when nothing was imported. */
  function UpdatedFeed(feed: Feed, parsed: ParsedFeed, now: Time): (f: Feed)
    ensures f.etag == (if parsed.etag.Some? then parsed.etag.value else "")
    ensures f.lastUpdated == now
    ensures f.(etag := feed.etag, lastUpdated := feed.lastUpdated) == feed
  {
    feed.(etag := parsed.etag.GetOr(""), lastUpdated := now)
  }

  /** One iteration of the loop keeps "created so far + still to create"
      equal to the whole run. */
  lemma ImportStep(done: seq<Video>, videos: seq<Video>, feed: Feed, entries: seq<Entry>, env: ImportEnv, nextId: nat,
                   total: seq<Video>, video: Option<Video>, done': seq<Video>, videos': seq<Video>, nextId': nat)
    requires entries != []
    requires done + Imported(videos, feed, entries, env, nextId) == total
    requires video == ImportEntry(videos, feed, entries[0], env, nextId)
    requires video.None? ==> done' == done && videos' == videos && nextId' == nextId
    requires video.Some? ==> done' == done + [video.value] && videos' == videos + [video.value] && nextId' == nextId + 1
    ensures done' + Imported(videos', feed, entries[1..], env, nextId') == total
  {
    ImportedUnfold(videos, feed, entries, env, nextId);
    if video.Some? {
      ConcatAssoc(done, [video.value], Imported(videos', feed, entries[1..], env, nextId'));
    }
  }

  /** Feed.import_videos on every entry, in order: the videos added are
      exactly Imported(...), with consecutive ids. */
  method ImportEntries(db: Store.Db, feed: Feed, entries: seq<Entry>, env: ImportEnv)
    modifies db`videos, db`nextId
    ensures db.videos == old(db.videos) + Imported(old(db.videos), feed, entries, env, old(db.nextId))
    ensures db.nextId == old(db.nextId) + |Imported(old(db.videos), feed, entries, env, old(db.nextId))|
  {
    ghost var total := Imported(db.videos, feed, entries, env, db.nextId);
    ghost var done: seq<Video> := [];
    var i := 0;
    assert entries[i..] == entries;
    while i < |entries|
      invariant 0 <= i <= |entries|
      invariant db.videos == old(db.videos) + done
      invariant db.nextId == old(db.nextId) + |done|
      invariant done + Imported(db.videos, feed, entries[i..], env, db.nextId) == total
    {
      ghost var videos, nextId, done0 := db.videos, db.nextId, done;
      var video := ImportOne(db, feed, entries[i], env);
      if video.Some? {
        done := done + [video.value];
        ConcatAssoc(old(db.videos), done0, [video.value]);
      }
      ImportStep(done0, videos, feed, entries[i..], env, nextId, total, video, done, db.videos, db.nextId);
      assert entries[i..][1..] == entries[i + 1..];
      i := i + 1;
    }
    assert entries[i..] == [];
  }


  /** One iteration of the loop: the entry's video, if any, is saved
      with the next id. */
  method ImportOne(db: Store.Db, feed: Feed, entry: Entry, env: ImportEnv) returns (video: Option<Video>)
    modifies db`videos, db`nextId
    ensures video == ImportEntry(old(db.videos), feed, entry, env, old(db.nextId))
    ensures video.None? ==> db.videos == old(db.videos) && db.nextId == old(db.nextId)
    ensures video.Some? ==> db.videos == old(db.videos) + [video.value] && db.nextId == old(db.nextId) + 1
  {
    video := ImportEntry(db.videos, feed, entry, env, db.nextId);
    if video.Some? {
      db.videos := db.videos + [video.value];
      db.nextId := db.nextId + 1;
    }
  }

  /** Feed.update_items on the feed stored at `k`: the entries of the
      parsed feed are imported, then the feed's cursor is moved. */
  method UpdateItems(db: Store.Db, k: nat, parsed: ParsedFeed, env: ImportEnv)
    requires k < |db.feeds|
    modifies db`videos, db`nextId, db`feeds
    ensures db.videos == old(db.videos) + Imported(old(db.videos), old(db.feeds[k]), parsed.entries, env, old(db.nextId))
    ensures db.nextId == old(db.nextId) + |Imported(old(db.videos), old(db.feeds[k]), parsed.entries, env, old(db.nextId))|
    ensures db.feeds == old(db.feeds)[k := UpdatedFeed(old(db.feeds[k]), parsed, env.now)]
  {
    var feed := db.feeds[k];
    ImportEntries(db, feed, parsed.entries, env);
    db.feeds := db.feeds[k := UpdatedFeed(feed, parsed, env.now)];
  }
}
