/** The submission forms (localtv/submit_video/forms.py): the URL form's
    duplicate check, and the second-step forms that build the new video. */
module SubmitForms {
  import opened Common
  import opened Strings

  /** What vidscraper's auto_scrape returns for a URL (None when the URL
      is unhandled or cannot be fetched). */
  datatype ScrapedFile = ScrapedFile(url: string, expires: Option<Time>)
  datatype ScrapedVideo = ScrapedVideo(link: Option<string>, guid: Option<string>, embedCode: string,
                                       file: Option<ScrapedFile>)

  /** The Q object of _validate_unique: website_url or file_url equal to
      the url, or guid equal to the guid. With neither given the empty
      Q() matches every row. */
  predicate MatchesUrlOrGuid(v: Video, url: Option<string>, guid: Option<string>) {
    (url.None? && guid.None?) ||
    (url.Some? && (v.websiteUrl == url.value || v.fileUrl == url.value)) ||
    (guid.Some? && v.guid == guid.value)
  }

  /** The rows `videos[0]` may come from: not hidden, on the site,
      matching. */
  function Duplicates(videos: seq<Video>, site: nat, url: Option<string>, guid: Option<string>): (r: seq<Video>)
    ensures forall v :: v in r <==> v in videos && v.status != Rejected && v.site == site && MatchesUrlOrGuid(v, url, guid)
  {
    Filter(videos, (v: Video) => v.status != Rejected && v.site == site && MatchesUrlOrGuid(v, url, guid))
  }

  const DuplicateMessage := "That video has already been submitted!"

  /** SubmitURLForm: the attributes _validate_unique and clean_url set. */
  class SubmitURLForm {
    var wasDuplicate: bool
    var duplicateVideo: Option<Video>
    var duplicatePk: Option<nat>
    var videoCache: Option<ScrapedVideo>

    /** A kept duplicate is a published video whose pk is recorded. */
    ghost predicate Valid()
      reads this
    {
      duplicateVideo.Some? ==>
        wasDuplicate && duplicatePk == Some(duplicateVideo.value.id) && duplicateVideo.value.status == Active
    }

    constructor ()
      ensures Valid()
      ensures !wasDuplicate && duplicateVideo.None? && duplicatePk.None? && videoCache.None?
    {
      wasDuplicate := false;
      duplicateVideo := None;
      duplicatePk := None;
      videoCache := None;
    }

    /** _validate_unique: no match clears the duplicate attributes; a
        match records its pk, keeps the video itself only when it is
        published, and is a validation error. */
    method ValidateUnique(videos: seq<Video>, site: nat, url: Option<string>, guid: Option<string>)
      returns (ok: bool)
      modifies this`wasDuplicate, this`duplicateVideo, this`duplicatePk
      ensures Valid()
      ensures var d := Duplicates(videos, site, url, guid);
              ok == (d == []) &&
              wasDuplicate == !ok &&
              duplicatePk == (if ok then None else Some(d[0].id)) &&
              duplicateVideo == (if ok || d[0].status != Active then None else Some(d[0]))
    {
      var matches := Duplicates(videos, site, url, guid);
      if matches == [] {
        wasDuplicate := false;
        duplicateVideo := None;
        duplicatePk := None;
        return true;
      }
      var video := matches[0];
      wasDuplicate := true;
      duplicatePk := Some(video.id);
      if video.status == Active {
        duplicateVideo := Some(video);
      } else {
        duplicateVideo := None;
      }
      return false;
    }

    /** clean_url: the fragment is dropped and the URL checked; then the
        scraped link, when it differs, replaces the URL and is checked
        with the scraped guid; otherwise a scraped guid alone is
        checked. */
    method CleanUrl(videos: seq<Video>, site: nat, raw: string, scraped: Option<ScrapedVideo>)
      returns (r: Result<string, string>)
      modifies this
      ensures Valid()
      ensures r.Err? ==> r.error == DuplicateMessage && wasDuplicate
      ensures r == CleanUrlSpec(videos, site, raw, scraped)
    {
      var url := Defrag(raw);
      var ok := ValidateUnique(videos, site, Some(url), None);
      if !ok {
        return Err(DuplicateMessage);
      }
      videoCache := None;
      videoCache := scraped;
      if scraped.Some? {
        if scraped.value.link.Some? && url != scraped.value.link.value {
          url := scraped.value.link.value;
          ok := ValidateUnique(videos, site, Some(url), scraped.value.guid);
        } else if scraped.value.guid.Some? {
          ok := ValidateUnique(videos, site, None, scraped.value.guid);
        }
      }
      if !ok {
        return Err(DuplicateMessage);
      }
      return Ok(url);
    }
  }

  /** urldefrag(url)[0]: everything before the first '#'. */
  function Defrag(url: string): (r: string)
    ensures '#' !in r
    ensures r <= url
  {
    if url == [] then []
    else if url[0] == '#' then []
    else [url[0]] + Defrag(url[1..])
  }

  /** The URL clean_url returns, or its error. */
  function CleanUrlSpec(videos: seq<Video>, site: nat, raw: string, scraped: Option<ScrapedVideo>): (r: Result<string, string>)
    ensures r.Ok? ==> Duplicates(videos, site, Some(Defrag(raw)), None) == []
    ensures r.Ok? && scraped.Some? && scraped.value.link.Some? ==> r.value == scraped.value.link.value
    ensures r.Ok? && (scraped.None? || scraped.value.link.None?) ==> r.value == Defrag(raw)
  {
    var url := Defrag(raw);
    if Duplicates(videos, site, Some(url), None) != [] then Err(DuplicateMessage)
    else if scraped.None? then Ok(url)
    else
      var s := scraped.value;
      if s.link.Some? && url != s.link.value then
        (if Duplicates(videos, site, s.link, s.guid) != [] then Err(DuplicateMessage) else Ok(s.link.value))
      else if s.guid.Some? then
        (if Duplicates(videos, site, None, s.guid) != [] then Err(DuplicateMessage) else Ok(url))
      else Ok(url)
  }

  /** A URL is rejected as a duplicate exactly when a visible video of
      the site has it (fragment removed) as website or file URL, or, once
      scraped, has the scraped link or guid. */
  lemma CleanUrlRejects(videos: seq<Video>, site: nat, raw: string, scraped: Option<ScrapedVideo>)
    ensures var url := Defrag(raw);
            CleanUrlSpec(videos, site, raw, scraped).Err? <==>
              (exists v :: v in videos && v.status != Rejected && v.site == site &&
                           (v.websiteUrl == url || v.fileUrl == url ||
                            (scraped.Some? && scraped.value.link.Some? && url != scraped.value.link.value &&
                             (v.websiteUrl == scraped.value.link.value || v.fileUrl == scraped.value.link.value)) ||
                            (scraped.Some? && scraped.value.guid.Some? && v.guid == scraped.value.guid.value)))
  {
    var url := Defrag(raw);
    if CleanUrlSpec(videos, site, raw, scraped).Err? {
      var d := Duplicates(videos, site, Some(url), None);
      if d != [] {
        assert d[0] in d;
      } else {
        var s := scraped.value;
        if s.link.Some? && url != s.link.value {
          assert Duplicates(videos, site, s.link, s.guid)[0] in Duplicates(videos, site, s.link, s.guid);
        } else {
          assert Duplicates(videos, site, None, s.guid)[0] in Duplicates(videos, site, None, s.guid);
        }
      }
    } else {
      forall v | v in videos && v.status != Rejected && v.site == site
        ensures !(v.websiteUrl == url || v.fileUrl == url)
      {
        assert v !in Duplicates(videos, site, Some(url), None);
      }
      if scraped.Some? {
        var s := scraped.value;
        if s.link.Some? && url != s.link.value {
          forall v | v in videos && v.status != Rejected && v.site == site
            ensures !(v.websiteUrl == s.link.value || v.fileUrl == s.link.value) &&
                    !(s.guid.Some? && v.guid == s.guid.value)
          {
            assert v !in Duplicates(videos, site, s.link, s.guid);
          }
        } else if s.guid.Some? {
          forall v | v in videos && v.status != Rejected && v.site == site
            ensures v.guid != s.guid.value
          {
            assert v !in Duplicates(videos, site, None, s.guid);
          }
        }
      }
    }
  }

  /** How the form treats the contact field. */
  datatype ContactField = NoContactField | OptionalContact | RequiredContact

  /** SubmitVideoFormBase.__init__: an authenticated user loses the
      contact field, an anonymous one must give it when the site requires
      an email; the new video is on the current site, awaits moderation
      and has the submitted URL as website URL unless it already has one. */
  function InitInstance(instance: Video, url: string, site: nat): (v: Video)
    ensures v.site == site && v.status == Unapproved
    ensures v.websiteUrl == (if instance.websiteUrl == "" then url else instance.websiteUrl)
    ensures v.(site := instance.site, status := instance.status, websiteUrl := instance.websiteUrl) == instance
  {
    var v := instance.(site := site, status := Unapproved);
    if v.websiteUrl == "" then v.(websiteUrl := url) else v
  }

  function ContactFieldFor(user: User, settings: SiteSettings): (c: ContactField)
    ensures user.authenticated <==> c == NoContactField
    ensures c == RequiredContact <==> !user.authenticated && settings.submissionRequiresEmail
  {
    if user.authenticated then NoContactField
    else if settings.submissionRequiresEmail then RequiredContact
    else OptionalContact
  }

  /** DirectLinkSubmitVideoForm.__init__: the URL is the file URL, and a
      website URL equal to it is cleared. */
  function InitDirect(instance: Video, url: string, site: nat): (v: Video)
    ensures v.fileUrl == url && v.site == site && v.status == Unapproved
    ensures v.websiteUrl == (if InitInstance(instance, url, site).websiteUrl == url then "" else InitInstance(instance, url, site).websiteUrl)
  {
    var v := InitInstance(instance, url, site).(fileUrl := url);
    if v.websiteUrl == url then v.(websiteUrl := "") else v
  }

  /** A direct-link submission of a video with no website URL keeps the
      URL only as its file URL. */
  lemma DirectLinkKeepsUrlOnce(instance: Video, url: string, site: nat)
    requires instance.websiteUrl == "" || instance.websiteUrl == url
    ensures InitDirect(instance, url, site).websiteUrl == "" && InitDirect(instance, url, site).fileUrl == url
  {
  }

  /** The cleaned data, a dictionary of field values. */
  type CleanedData = map<string, string>

  /** SubmitVideoFormBase.clean: the legacy 'thumbnail' value is popped
      and used only when 'thumbnail_url' is empty or absent. */
  function CleanThumbnail(data: CleanedData): (r: CleanedData)
    ensures "thumbnail" !in data ==> r == data
    ensures "thumbnail" !in r
    ensures "thumbnail" in data && "thumbnail_url" in data && data["thumbnail_url"] != "" ==>
              r == data - {"thumbnail"}
    ensures "thumbnail" in data && ("thumbnail_url" !in data || data["thumbnail_url"] == "") ==>
              r == (data - {"thumbnail"})["thumbnail_url" := data["thumbnail"]]
  {
    if "thumbnail" in data then
      var thumbnail := data["thumbnail"];
      var rest := data - {"thumbnail"};
      if "thumbnail_url" !in rest || rest["thumbnail_url"] == "" then rest["thumbnail_url" := thumbnail] else rest
    else data
  }

  /** EmbedSubmitVideoForm.clean: 'embed' is popped (a KeyError when it
      is missing) and used only when 'embed_code' is empty or absent. */
  function CleanEmbed(data: CleanedData): (r: Option<CleanedData>)
    ensures r.None? <==> "embed" !in CleanThumbnail(data)
    ensures r.Some? ==> "embed" !in r.value && "embed_code" in r.value
    ensures r.Some? ==> var d := CleanThumbnail(data);
              r.value["embed_code"] == (if "embed_code" in d && d["embed_code"] != "" then d["embed_code"] else d["embed"])
  {
    var d := CleanThumbnail(data);
    if "embed" !in d then None
    else
      var embed := d["embed"];
      var rest := d - {"embed"};
      Some(if "embed_code" !in rest || rest["embed_code"] == "" then rest["embed_code" := embed] else rest)
  }

  /** The identifiers _post_clean and SubmitVideoView.form_valid build
      from the instance: each non-empty one of website_url, file_url and
      guid. With none of them the empty Q() matches every row. */
  predicate SharesIdentifier(v: Video, instance: Video) {
    (instance.websiteUrl == "" && instance.fileUrl == "" && instance.guid == "") ||
    (instance.websiteUrl != "" && v.websiteUrl == instance.websiteUrl) ||
    (instance.fileUrl != "" && v.fileUrl == instance.fileUrl) ||
    (instance.guid != "" && v.guid == instance.guid)
  }

  /** _post_clean: a non-field error when a visible video of the site
      shares an identifier with the instance. */
  function PostCleanError(videos: seq<Video>, site: nat, instance: Video): (r: Option<string>)
    ensures r.Some? <==> exists v :: v in videos && v.status != Rejected && v.site == site && SharesIdentifier(v, instance)
    ensures r.Some? ==> r.value == DuplicateMessage
  {
    var d := Filter(videos, (v: Video) => v.status != Rejected && v.site == site && SharesIdentifier(v, instance));
    if d != [] then
      assert d[0] in d;
      Some(DuplicateMessage)
    else None
  }

  /** An instance carrying a URL from __init__ never falls back to the
      match-everything query: its website URL, or for a direct link its
      file URL, is non-empty. */
  lemma InitialInstanceHasIdentifier(instance: Video, url: string, site: nat, direct: bool)
    requires url != ""
    ensures var v := if direct then InitDirect(instance, url, site) else InitInstance(instance, url, site);
            v.websiteUrl != "" || v.fileUrl != ""
  {
  }

  /** What saving a submission produces: the video, and whether a
      thumbnail task is queued; or the exception the HEAD request on the
      file URL raised, which leaves nothing saved. */
  datatype Saved = Saved(video: Video, thumbnailQueued: bool) | HeadRaised

  /** The answer to a HEAD request on a file URL: its Content-Length and
      Content-Type headers, or a failure (urlopen raising, or a header
      missing). */
  datatype HeadResponse = HeadOk(contentLength: int, contentType: string) | HeadFailed

  /** Video.try_to_get_file_url_data: without a file URL nothing is
      asked; otherwise the HEAD request's headers become the file's length
      and MIME type, and a failed request raises (None). */
  function FileUrlData(v: Video, head: HeadResponse): (r: Option<Video>)
    ensures r.None? <==> v.fileUrl != "" && head.HeadFailed?
    ensures r.Some? && v.fileUrl == "" ==> r.value == v
    ensures r.Some? && v.fileUrl != "" ==>
              r.value == v.(fileUrlLength := Some(head.contentLength), fileUrlMimetype := head.contentType)
  {
    if v.fileUrl == "" then Some(v)
    else if head.HeadFailed? then None
    else Some(v.(fileUrlLength := Some(head.contentLength), fileUrlMimetype := head.contentType))
  }

  /** SubmitVideoFormBase.save with commit (and ThumbnailSubmitVideoForm's
      uploaded file before it, and DirectLinkSubmitVideoForm's second
      look at the file URL after it): an authenticated submitter becomes
      the video's user and contact, an admin's submission is published
      and approved when it is submitted, a form with a website URL field
      or a direct link fills in the file's length and type from a HEAD
      request (whose failure propagates before anything is saved), the
      cleaned tags replace the video's when there are any, and a
      thumbnail task is queued when there is a thumbnail URL but no
      thumbnail. `fetchFileData` says whether the form asks for the file
      data; asking twice gets the same answer. */
  function SaveSubmission(instance: Video, user: User, isAdmin: bool, thumbnailFile: bool, tags: seq<string>, now: Time,
                          fetchFileData: bool, head: HeadResponse)
    : (r: Saved)
    ensures r.HeadRaised? <==> fetchFileData && instance.fileUrl != "" && head.HeadFailed?
    ensures r.Saved? && user.authenticated ==> r.video.user == Some(user.pk) && r.video.contact == user.email
    ensures r.Saved? && !user.authenticated ==> r.video.user == instance.user && r.video.contact == instance.contact
    ensures r.Saved? ==> r.video.status == (if isAdmin then Active else instance.status)
    ensures r.Saved? ==> r.video.whenSubmitted == now
    ensures r.Saved? && isAdmin ==> r.video.whenApproved == Some(now)
    ensures r.Saved? && !isAdmin && instance.status != Active ==> r.video.whenApproved == instance.whenApproved
    ensures r.Saved? && thumbnailFile ==> r.video.thumbnailUrl == "" && r.video.hasThumbnail && !r.thumbnailQueued
    ensures r.Saved? && !thumbnailFile ==> r.video.thumbnailUrl == instance.thumbnailUrl
    ensures r.Saved? ==> (r.thumbnailQueued <==> r.video.thumbnailUrl != "" && !r.video.hasThumbnail)
    ensures r.Saved? ==> r.video.tags == (if tags != [] then tags else instance.tags)
    ensures r.Saved? && fetchFileData && instance.fileUrl != "" ==>
              r.video.fileUrlLength == Some(head.contentLength) && r.video.fileUrlMimetype == head.contentType
    ensures r.Saved? && !(fetchFileData && instance.fileUrl != "") ==>
              r.video.fileUrlLength == instance.fileUrlLength && r.video.fileUrlMimetype == instance.fileUrlMimetype
  {
    var v := Prepared(instance, user, isAdmin, thumbnailFile);
    var fetched := if fetchFileData then FileUrlData(v, head) else Some(v);
    if fetched.None? then HeadRaised else Committed(fetched.value, tags, now)
  }

  /** The instance as save finds it before the HEAD request: the uploaded
      thumbnail, the submitter and an admin's publishing applied. */
  function Prepared(instance: Video, user: User, isAdmin: bool, thumbnailFile: bool): (v: Video)
    ensures user.authenticated ==> v.user == Some(user.pk) && v.contact == user.email
    ensures !user.authenticated ==> v.user == instance.user && v.contact == instance.contact
    ensures v.status == (if isAdmin then Active else instance.status)
    ensures v.whenApproved == instance.whenApproved && v.tags == instance.tags
    ensures thumbnailFile ==> v.thumbnailUrl == "" && v.hasThumbnail
    ensures !thumbnailFile ==> v.thumbnailUrl == instance.thumbnailUrl && v.hasThumbnail == instance.hasThumbnail
    ensures v.fileUrl == instance.fileUrl && v.fileUrlLength == instance.fileUrlLength &&
            v.fileUrlMimetype == instance.fileUrlMimetype
  {
    var v := if thumbnailFile then instance.(hasThumbnail := true, thumbnailUrl := "") else instance;
    var v := if user.authenticated then v.(user := Some(user.pk), contact := user.email) else v;
    if isAdmin then v.(status := Active) else v
  }

  /** The committed save and its save_m2m: the submission time, the
      approval of a published video, the thumbnail task and the tags. */
  function Committed(v: Video, tags: seq<string>, now: Time): (r: Saved)
    ensures r.Saved?
    ensures r.video == v.(whenSubmitted := now,
                          whenApproved := if v.status == Active then Some(now) else v.whenApproved,
                          tags := if tags != [] then tags else v.tags)
    ensures r.thumbnailQueued <==> v.thumbnailUrl != "" && !v.hasThumbnail
  {
    var v' := v.(whenSubmitted := now);
    var v' := if v'.status == Active then v'.(whenApproved := Some(v'.whenSubmitted)) else v';
    var queued := v'.thumbnailUrl != "" && !v'.hasThumbnail;
    var v' := if tags != [] then v'.(tags := tags) else v';
    Saved(v', queued)
  }

  /** An admin's submission is live at once, and approved at the moment it
      was submitted. */
  lemma AdminSubmissionPublished(instance: Video, user: User, thumbnailFile: bool, tags: seq<string>, now: Time,
                                 fetchFileData: bool, head: HeadResponse)
    ensures var r := SaveSubmission(instance, user, true, thumbnailFile, tags, now, fetchFileData, head);
            r.Saved? ==> r.video.status == Active && r.video.whenApproved == Some(r.video.whenSubmitted)
  {
  }
}
