/** The review_status_email management command
    (localtv/management/commands/review_status_email.py): the digest of
    newly queued videos sent to the site's admins. */
module ReviewEmail {
  import opened Common

  const Hour: int := 3600 * 1000000

  /** One notice handed to send_notice. */
  datatype Notice = Notice(noticeType: string, subject: string, timePeriod: string,
                           newVideos: seq<Video>, queueVideos: seq<Video>)

  /** The site's moderation queue. */
  function QueueVideos(videos: seq<Video>, site: nat): (r: seq<Video>)
    ensures forall v :: v in r <==> v in videos && v.status == Unapproved && v.site == site
  {
    Filter(videos, (v: Video) => v.status == Unapproved && v.site == site)
  }

  /** send_email: the queued videos submitted at or after now − delta; a
      notice goes out only when there is at least one. */
  function SendEmail(videos: seq<Video>, site: nat, siteName: string, now: Time, delta: int,
                     timePeriod: string, noticeType: string): (r: Option<Notice>)
    ensures r.Some? <==> exists v :: v in QueueVideos(videos, site) && v.whenSubmitted >= now - delta
    ensures r.Some? ==> r.value.noticeType == noticeType && r.value.timePeriod == timePeriod
    ensures r.Some? ==> r.value.subject == "Video Submissions for " + siteName
    ensures r.Some? ==> r.value.queueVideos == QueueVideos(videos, site)
    ensures r.Some? ==> forall v :: v in r.value.newVideos <==> v in r.value.queueVideos && v.whenSubmitted >= now - delta
  {
    var queue := QueueVideos(videos, site);
    var recent := Filter(queue, (v: Video) => v.whenSubmitted >= now - delta);
    assert recent != [] ==> recent[0] in recent;
    if recent == [] then None
    else Some(Notice(noticeType, "Video Submissions for " + siteName, timePeriod, recent, queue))
  }

  /** The daily digest: a 24-hour window, 'today', 'admin_queue_daily'. */
  function Daily(videos: seq<Video>, site: nat, siteName: string, now: Time): Option<Notice> {
    SendEmail(videos, site, siteName, now, 24 * Hour, "today", "admin_queue_daily")
  }

  /** The weekly digest: a 7-day window, 'last week', 'admin_queue_weekly'. */
  function Weekly(videos: seq<Video>, site: nat, siteName: string, now: Time): Option<Notice> {
    SendEmail(videos, site, siteName, now, 7 * Day, "last week", "admin_queue_weekly")
  }

  function Sent(n: Option<Notice>): seq<Notice> {
    if n.Some? then [n.value] else []
  }

  /** handle_noargs as written: the daily digest, then the weekly one
      when `date.today().weekday == 0`. That compares the bound method
      itself with 0, which is never equal, so the weekly branch never
      runs whatever the day. */
  function HandleAsWritten(videos: seq<Video>, site: nat, siteName: string, now: Time, weekday: int): (r: seq<Notice>)
    ensures forall n :: n in r ==> n.noticeType == "admin_queue_daily"
  {
    var weekdayIsMethod := true;
    Sent(Daily(videos, site, siteName, now)) +
    (if !weekdayIsMethod && weekday == 0 then Sent(Weekly(videos, site, siteName, now)) else [])
  }

  /** handle_noargs as evidently intended: the weekly digest on Mondays
      (weekday() == 0). */
  function HandleFixed(videos: seq<Video>, site: nat, siteName: string, now: Time, weekday: int): (r: seq<Notice>)
    ensures |r| <= 2
  {
    Sent(Daily(videos, site, siteName, now)) +
    (if weekday == 0 then Sent(Weekly(videos, site, siteName, now)) else [])
  }

  /** On a Monday with a video queued in the past week, the corrected
      command sends the weekly digest and the command as written does
      not. */
  lemma MondayWeeklyMissed(videos: seq<Video>, site: nat, siteName: string, now: Time, v: Video)
    requires v in videos && v.status == Unapproved && v.site == site
    requires now - 7 * Day <= v.whenSubmitted
    ensures exists n :: n in HandleFixed(videos, site, siteName, now, 0) && n.noticeType == "admin_queue_weekly"
    ensures forall n :: n in HandleAsWritten(videos, site, siteName, now, 0) ==> n.noticeType != "admin_queue_weekly"
  {
    assert v in QueueVideos(videos, site);
    var w := Weekly(videos, site, siteName, now);
    assert w.Some?;
    var r := HandleFixed(videos, site, siteName, now, 0);
    assert r == Sent(Daily(videos, site, siteName, now)) + [w.value];
    assert w.value in r;
  }

  /** The corrected command sends the weekly digest exactly on Mondays
      with something queued in the past week, and never on another day. */
  lemma FixedWeeklyOnlyOnMonday(videos: seq<Video>, site: nat, siteName: string, now: Time, weekday: int)
    ensures (exists n :: n in HandleFixed(videos, site, siteName, now, weekday) && n.noticeType == "admin_queue_weekly")
            <==> weekday == 0 && Weekly(videos, site, siteName, now).Some?
  {
    var d := Sent(Daily(videos, site, siteName, now));
    assert forall n :: n in d ==> n.noticeType == "admin_queue_daily";
    if weekday == 0 && Weekly(videos, site, siteName, now).Some? {
      var w := Weekly(videos, site, siteName, now).value;
      assert HandleFixed(videos, site, siteName, now, weekday) == d + [w];
      assert w in d + [w];
    }
  }

  /** Every video the daily digest lists is in the queue it shows, and
      was submitted in the last 24 hours. */
  lemma DailyListsFreshQueue(videos: seq<Video>, site: nat, siteName: string, now: Time)
    requires Daily(videos, site, siteName, now).Some?
    ensures var n := Daily(videos, site, siteName, now).value;
            forall v :: v in n.newVideos ==> v in n.queueVideos && v in videos && v.whenSubmitted >= now - 24 * Hour
  {
  }
}
