/** The submission views (localtv/submit_video/views.py): who may submit,
    where a submitted URL is routed, the session hand-over between the
    two steps, and the clean-up after a successful submission. */
module SubmitViews {
  import opened Common
  import SubmitForms
  import Store

  /** _has_submit_permissions: open submission lets anyone in; when login
      is required, a shown submit button admits any authenticated active
      user, and a hidden one only admins. */
  predicate HasSubmitPermissions(settings: SiteSettings, user: User, isAdmin: bool) {
    if !settings.submissionRequiresLogin then true
    else if settings.displaySubmitButton then user.authenticated && user.active
    else isAdmin
  }

  /** An admin (authenticated and active by definition) may always submit. */
  lemma AdminMaySubmit(settings: SiteSettings, user: User)
    requires UserIsAdmin(settings.site, user)
    ensures HasSubmitPermissions(settings, user, UserIsAdmin(settings.site, user))
  {
  }

  /** An anonymous visitor may submit exactly when login is not required. */
  lemma AnonymousSubmit(settings: SiteSettings, user: User)
    requires !user.authenticated
    ensures HasSubmitPermissions(settings, user, UserIsAdmin(settings.site, user)) <==> !settings.submissionRequiresLogin
  {
  }

  /** SubmitURLView.get_form: the GET data binds the form only when some
      GET key is a field of the form. */
  predicate BindsGetData(getKeys: set<string>, formFields: set<string>) {
    getKeys * formFields != {}
  }

  /** The three second-step views. */
  datatype Target = ScrapedView | DirectView | EmbedView

  /** form_valid's routing: a scraped video with an embed code or a file
      that does not expire goes to the scraped view; otherwise a URL that
      looks like a video file goes to the direct view, anything else to
      the embed view. */
  function Route(video: Option<SubmitForms.ScrapedVideo>, url: string, isVideoUrl: string -> bool): (t: Target)
    ensures t == ScrapedView <==>
              video.Some? && (video.value.embedCode != "" || (video.value.file.Some? && video.value.file.value.expires.None?))
    ensures t == DirectView <==> t != ScrapedView && isVideoUrl(url)
  {
    if video.Some? && (video.value.embedCode != "" || (video.value.file.Some? && video.value.file.value.expires.None?)) then
      ScrapedView
    else if isVideoUrl(url) then DirectView
    else EmbedView
  }

  /** What the first step leaves in the session for the second. */
  datatype SubmitInfo = SubmitInfo(video: Option<SubmitForms.ScrapedVideo>, url: string)

  const SessionKey := "localtv_submit_video_info"

  /** request.session: the entries the submission views read and write. */
  class Session {
    var data: map<string, SubmitInfo>

    constructor (data: map<string, SubmitInfo>)
      ensures this.data == data
    {
      this.data := data;
    }
  }

  /** SubmitURLView.form_valid: the success URL is the target's URL, '?',
      then the original query string; the session records the scraped
      video and the cleaned URL. */
  method SubmitUrlValid(session: Session, video: Option<SubmitForms.ScrapedVideo>, url: string,
                        isVideoUrl: string -> bool, targetUrl: Target -> string, query: string)
    returns (successUrl: string)
    modifies session
    ensures successUrl == targetUrl(Route(video, url, isVideoUrl)) + "?" + query
    ensures session.data == old(session.data)[SessionKey := SubmitInfo(video, url)]
  {
    var target := Route(video, url, isVideoUrl);
    successUrl := targetUrl(target) + "?" + query;
    session.data := session.data[SessionKey := SubmitInfo(video, url)];
  }

  /** SubmitVideoView.dispatch: without a session entry, or with an
      empty URL in it, the request goes back to the first step. */
  function SecondStepRedirects(data: map<string, SubmitInfo>): (r: bool)
    ensures r <==> SessionKey !in data || data[SessionKey].url == ""
  {
    SessionKey !in data || data[SessionKey].url == ""
  }

  /** What form_valid of the first step stores lets the second step run. */
  lemma HandOver(session: map<string, SubmitInfo>, video: Option<SubmitForms.ScrapedVideo>, url: string)
    requires url != ""
    ensures !SecondStepRedirects(session[SessionKey := SubmitInfo(video, url)])
  {
  }

  /** SubmitVideoView.form_valid, after the new video is saved: the
      site's hidden videos sharing an identifier with it are deleted and
      the session entry is removed. */
  method SubmitVideoValid(db: Store.Db, session: Session, site: nat, saved: Video)
    modifies db`videos, session
    ensures db.videos == Filter(old(db.videos), (v: Video) => !ReplacedBy(v, site, saved))
    ensures session.data == old(session.data) - {SessionKey}
  {
    db.videos := Filter(db.videos, (v: Video) => !ReplacedBy(v, site, saved));
    session.data := session.data - {SessionKey};
  }

  /** A rejected video of the site that the new submission duplicates. */
  predicate ReplacedBy(v: Video, site: nat, saved: Video) {
    v.site == site && v.status == Rejected && SubmitForms.SharesIdentifier(v, saved)
  }

  /** The clean-up deletes only hidden duplicates: every published,
      queued or other-site video stays, and no hidden duplicate is left. */
  lemma CleanUpOnlyHiddenDuplicates(videos: seq<Video>, site: nat, saved: Video)
    ensures var after := Filter(videos, (v: Video) => !ReplacedBy(v, site, saved));
            (forall v :: v in videos && (v.status != Rejected || v.site != site) ==> v in after) &&
            (forall v :: v in after ==> !ReplacedBy(v, site, saved)) &&
            (forall v :: v in after ==> v in videos)
  {
  }

  /** submit_thanks: an admin with a video id in the URL sees that
      video; anyone else gets an empty context. A missing video is an
      error. The id is the URL's digits, so any given id is truthy. */
  function ThanksVideo(videos: seq<Video>, videoId: Option<nat>, isAdmin: bool): (r: Result<Option<Video>, string>)
    ensures !isAdmin || videoId.None? ==> r == Ok(None)
    ensures isAdmin && videoId.Some? ==> (r.Err? <==> forall v :: v in videos ==> v.id != videoId.value)
    ensures r.Ok? && r.value.Some? ==> r.value.value in videos && Some(r.value.value.id) == videoId && isAdmin
  {
    if isAdmin && videoId.Some? then
      var k := Store.FindById(videos, videoId.value);
      if k.Some? then Ok(Some(videos[k.value])) else Err("DoesNotExist")
    else Ok(None)
  }

  /** The backwards-compatible context of the first step. */
  datatype UrlContext = UrlContext(wasDuplicate: bool, video: Option<Video>, videoPk: Option<nat>)

  /** SubmitURLView.get_context_data: the form's duplicate attributes
      (False / None until the form has checked a URL); a video is shown
      only when it is published, and its pk is always given with it. */
  method UrlContextData(form: SubmitForms.SubmitURLForm) returns (c: UrlContext)
    requires form.Valid()
    ensures c == UrlContext(form.wasDuplicate, form.duplicateVideo, form.duplicatePk)
    ensures c.video.Some? ==> c.wasDuplicate && c.videoPk == Some(c.video.value.id) && c.video.value.status == Active
  {
    c := UrlContext(form.wasDuplicate, form.duplicateVideo, form.duplicatePk);
  }
}
