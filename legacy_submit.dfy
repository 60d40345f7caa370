/** The older single-step submission form (localtv/forms.py), written
    against a video schema with external_url, a set of file rows,
    original_url and an owner that is either a user or a session. */
module LegacySubmit {
  import opened Common
  import SubmitForms

  /** The fields of that schema the form reads or writes. */
  datatype LegacyVideo = LegacyVideo(
    id: nat, site: nat, status: Status,
    externalUrl: string, fileUrls: seq<string>, originalUrl: string, guid: string,
    owner: Option<nat>, ownerSession: Option<string>, ownerEmail: string)

  /** The identifiers Q of _validate_unique: external_url, a file url or
      original_url equal to the url, or guid equal to the guid. With
      neither given the Q is empty and matches every row. */
  predicate Identifies(v: LegacyVideo, url: Option<string>, guid: Option<string>) {
    (url.None? && guid.None?) ||
    (url.Some? && (v.externalUrl == url.value || url.value in v.fileUrls || v.originalUrl == url.value)) ||
    (guid.Some? && v.guid == guid.value)
  }

  /** The videos _validate_unique finds: not hidden, on the site, and
      identified by the url or the guid. */
  function Duplicates(videos: seq<LegacyVideo>, site: nat, url: Option<string>, guid: Option<string>)
    : (r: seq<LegacyVideo>)
    ensures forall v :: v in r <==> v in videos && v.status != Rejected && v.site == site && Identifies(v, url, guid)
  {
    Filter(videos, (v: LegacyVideo) => v.status != Rejected && v.site == site && Identifies(v, url, guid))
  }

  /** The arguments of the second uniqueness check in clean, as written:
      a scraped link that differs from the url triggers a check of the
      url (again) and the guid; otherwise a scraped guid alone is checked. */
  function RecheckAsWritten(url: string, scraped: SubmitForms.ScrapedVideo): Option<(Option<string>, Option<string>)> {
    if scraped.link.Some? && url != scraped.link.value then Some((Some(url), scraped.guid))
    else if scraped.guid.Some? then Some((None, scraped.guid))
    else None
  }

  /** The same choice with the scraped link checked, as the newer
      SubmitURLForm.clean_url does. */
  function RecheckFixed(url: string, scraped: SubmitForms.ScrapedVideo): Option<(Option<string>, Option<string>)> {
    if scraped.link.Some? && url != scraped.link.value then Some((scraped.link, scraped.guid))
    else if scraped.guid.Some? then Some((None, scraped.guid))
    else None
  }

  /** The outcome of clean for a given choice of second check: a
      submission flagged as a duplicate skips every check; otherwise the
      url is checked first, then, when scraping succeeded, the recheck. */
  function CleanWith(videos: seq<LegacyVideo>, site: nat, url: string, submitDuplicate: bool,
                     scraped: Option<SubmitForms.ScrapedVideo>,
                     recheck: Option<(Option<string>, Option<string>)>): Result<(), string>
  {
    if submitDuplicate then Ok(())
    else if Duplicates(videos, site, Some(url), None) != [] then Err(SubmitForms.DuplicateMessage)
    else if scraped.None? || recheck.None? then Ok(())
    else if Duplicates(videos, site, recheck.value.0, recheck.value.1) != [] then Err(SubmitForms.DuplicateMessage)
    else Ok(())
  }

  /** SubmitForm.clean as written: rejected exactly when the submission
      is not flagged as a duplicate and either the url or the scraped guid
      identifies a visible video of the site; the scraped link plays no
      part. */
  function CleanSpec(videos: seq<LegacyVideo>, site: nat, url: string, submitDuplicate: bool,
                     scraped: Option<SubmitForms.ScrapedVideo>): (r: Result<(), string>)
    ensures submitDuplicate ==> r == Ok(())
    ensures r.Err? <==>
              !submitDuplicate &&
              (Duplicates(videos, site, Some(url), None) != [] ||
               (scraped.Some? && scraped.value.guid.Some? && Duplicates(videos, site, None, scraped.value.guid) != []))
    ensures r.Err? ==> r.error == SubmitForms.DuplicateMessage
  {
    var recheck := if scraped.Some? then RecheckAsWritten(url, scraped.value) else None;
    if scraped.Some? then
      RecheckSplit(videos, site, url, scraped.value.guid);
      CleanWith(videos, site, url, submitDuplicate, scraped, recheck)
    else CleanWith(videos, site, url, submitDuplicate, scraped, recheck)
  }

  /** A check of a url together with a guid finds something exactly when
      the url alone or the guid alone does. */
  lemma RecheckSplit(videos: seq<LegacyVideo>, site: nat, url: string, guid: Option<string>)
    ensures Duplicates(videos, site, Some(url), guid) != [] <==>
              Duplicates(videos, site, Some(url), None) != [] ||
              (guid.Some? && Duplicates(videos, site, None, guid) != [])
  {
    var d := Duplicates(videos, site, Some(url), guid);
    var u := Duplicates(videos, site, Some(url), None);
    if d != [] {
      assert d[0] in u || d[0] in Duplicates(videos, site, None, guid);
    }
    if u != [] {
      assert u[0] in d;
    }
    if guid.Some? && Duplicates(videos, site, None, guid) != [] {
      assert Duplicates(videos, site, None, guid)[0] in d;
    }
  }

  /** The second check of clean as written never consults the scraped
      link: the outcome is the same as if the scraper had found none. */
  lemma LinkNeverChecked(videos: seq<LegacyVideo>, site: nat, url: string, submitDuplicate: bool,
                         scraped: SubmitForms.ScrapedVideo)
    ensures CleanSpec(videos, site, url, submitDuplicate, Some(scraped)) ==
            CleanSpec(videos, site, url, submitDuplicate, Some(scraped.(link := None)))
  {
  }

  /** A visible video whose external_url is the scraped link of a new
      submission under another url: clean as written accepts the
      submission, the corrected clean rejects it. */
  lemma LinkDuplicateAccepted()
    ensures var v := LegacyVideo(1, 1, Active, "http://example.com/watch", [], "", "g", None, None, "");
            var scraped := SubmitForms.ScrapedVideo(Some("http://example.com/watch"), None, "", None);
            CleanSpec([v], 1, "http://example.com/short", false, Some(scraped)) == Ok(()) &&
            CleanFixed([v], 1, "http://example.com/short", false, Some(scraped)).Err?
  {
    var v := LegacyVideo(1, 1, Active, "http://example.com/watch", [], "", "g", None, None, "");
    assert v in Duplicates([v], 1, Some("http://example.com/watch"), None);
  }

  /** clean with the scraped link rechecked: besides the as-written
      rejections, a differing link that identifies a visible video of the
      site is rejected. */
  function CleanFixed(videos: seq<LegacyVideo>, site: nat, url: string, submitDuplicate: bool,
                      scraped: Option<SubmitForms.ScrapedVideo>): (r: Result<(), string>)
    ensures submitDuplicate ==> r == Ok(())
    ensures r.Err? <==>
              !submitDuplicate &&
              (Duplicates(videos, site, Some(url), None) != [] ||
               (scraped.Some? && scraped.value.guid.Some? && Duplicates(videos, site, None, scraped.value.guid) != []) ||
               (scraped.Some? && scraped.value.link.Some? && url != scraped.value.link.value &&
                Duplicates(videos, site, scraped.value.link, None) != []))
  {
    var recheck := if scraped.Some? then RecheckFixed(url, scraped.value) else None;
    if scraped.Some? && scraped.value.link.Some? then
      RecheckSplit(videos, site, scraped.value.link.value, scraped.value.guid);
      CleanWith(videos, site, url, submitDuplicate, scraped, recheck)
    else CleanWith(videos, site, url, submitDuplicate, scraped, recheck)
  }

  /** The corrected clean rejects a submission whose scraped link names
      a visible video of the site, whatever url it came in under. */
  lemma FixedChecksLink(videos: seq<LegacyVideo>, site: nat, url: string, scraped: SubmitForms.ScrapedVideo, v: LegacyVideo)
    requires v in videos && v.site == site && v.status != Rejected
    requires scraped.link == Some(v.externalUrl)
    ensures CleanFixed(videos, site, url, false, Some(scraped)).Err?
  {
    if url != v.externalUrl {
      assert v in Duplicates(videos, site, scraped.link, None);
    } else {
      assert v in Duplicates(videos, site, Some(url), None);
    }
  }

  /** The form's state: the email field __init__ adds, the duplicate
      _validate_unique found, and the scraped video clean keeps. */
  class SubmitForm {
    const emailField: SubmitForms.ContactField
    var duplicateVideo: Option<LegacyVideo>
    var video: Option<SubmitForms.ScrapedVideo>

    /** __init__: anonymous users get an email field, required iff the
        site requires an email; authenticated users get none. */
    constructor (user: User, settings: SiteSettings)
      ensures emailField == SubmitForms.ContactFieldFor(user, settings)
      ensures user.authenticated <==> emailField == SubmitForms.NoContactField
      ensures emailField == SubmitForms.RequiredContact <==> !user.authenticated && settings.submissionRequiresEmail
      ensures duplicateVideo.None? && video.None?
    {
      emailField := SubmitForms.ContactFieldFor(user, settings);
      duplicateVideo := None;
      video := None;
    }

    /** _validate_unique: records the first duplicate, whatever its
        status, and fails exactly when there is one. */
    method ValidateUnique(videos: seq<LegacyVideo>, site: nat, url: Option<string>, guid: Option<string>)
      returns (ok: bool)
      modifies this`duplicateVideo
      ensures ok <==> Duplicates(videos, site, url, guid) == []
      ensures ok ==> duplicateVideo.None?
      ensures !ok ==> duplicateVideo == Some(Duplicates(videos, site, url, guid)[0])
    {
      var found := Duplicates(videos, site, url, guid);
      if found == [] {
        duplicateVideo := None;
        ok := true;
      } else {
        duplicateVideo := Some(found[0]);
        ok := false;
      }
    }

    /** clean: the scraped video (None when scraping failed) is kept once
        the first check has passed; a duplicate found by either check is
        recorded and rejects the submission. */
    method Clean(videos: seq<LegacyVideo>, site: nat, url: string, submitDuplicate: bool,
                 scraped: Option<SubmitForms.ScrapedVideo>)
      returns (r: Result<(), string>)
      modifies this`duplicateVideo, this`video
      ensures r == CleanSpec(videos, site, url, submitDuplicate, scraped)
      ensures video == (if !submitDuplicate && Duplicates(videos, site, Some(url), None) != [] then old(video) else scraped)
      ensures submitDuplicate ==> duplicateVideo == old(duplicateVideo)
      ensures r.Err? ==> duplicateVideo.Some? && duplicateVideo.value in videos &&
                         duplicateVideo.value.site == site && duplicateVideo.value.status != Rejected
    {
      if !submitDuplicate {
        var ok := ValidateUnique(videos, site, Some(url), None);
        if !ok {
          return Err(SubmitForms.DuplicateMessage);
        }
      }
      video := None;
      video := scraped;
      r := Ok(());
      if scraped.Some? && !submitDuplicate {
        var recheck := RecheckAsWritten(url, scraped.value);
        if recheck.Some? {
          var ok := ValidateUnique(videos, site, recheck.value.0, recheck.value.1);
          if !ok {
            r := Err(SubmitForms.DuplicateMessage);
          }
        }
      }
      assert r == CleanWith(videos, site, url, submitDuplicate, scraped,
                            if scraped.Some? then RecheckAsWritten(url, scraped.value) else None);
    }
  }

  /** save: the new video (built from the scraped one, or blank when
      scraping failed) records the submitted url as original_url and is
      owned by the authenticated user, or else by the session with the
      given email. */
  function Save(base: LegacyVideo, url: string, user: User, session: string, email: string): (r: LegacyVideo)
    ensures r.originalUrl == url
    ensures user.authenticated ==> r.owner == Some(user.pk) && r.ownerSession == base.ownerSession && r.ownerEmail == base.ownerEmail
    ensures !user.authenticated ==> r.owner == base.owner && r.ownerSession == Some(session) && r.ownerEmail == email
    ensures r.(originalUrl := base.originalUrl, owner := base.owner, ownerSession := base.ownerSession,
               ownerEmail := base.ownerEmail) == base
  {
    var v := base.(originalUrl := url);
    if user.authenticated then v.(owner := Some(user.pk))
    else v.(ownerSession := Some(session), ownerEmail := email)
  }

  /** The video save starts from: Video.from_vidscraper_video for a
      scraped video (a parameter here), a blank video otherwise. */
  function SaveBase(video: Option<SubmitForms.ScrapedVideo>, fromScraped: SubmitForms.ScrapedVideo -> LegacyVideo,
                    blank: LegacyVideo): (r: LegacyVideo)
    ensures video.None? ==> r == blank
    ensures video.Some? ==> r == fromScraped(video.value)
  {
    if video.Some? then fromScraped(video.value) else blank
  }

  /** A submission whose scraping failed still yields a video, carrying
      the url and its owner. */
  lemma UnscrapedSubmissionSaved(url: string, user: User, session: string, email: string,
                                 fromScraped: SubmitForms.ScrapedVideo -> LegacyVideo, blank: LegacyVideo)
    ensures var r := Save(SaveBase(None, fromScraped, blank), url, user, session, email);
            r.originalUrl == url && (r.owner == Some(user.pk) || r.ownerSession == Some(session))
  {
  }
}
