/** The legacy feed admin views (localtv/admin/legacy/feed_views.py): the
    auto-approve switch and the initial data of the add-feed form. */
module FeedAdmin {
  import opened Common
  import Store

  /** get_object_or_404(Feed, pk=pk, site_id=SITE_ID): the position of the
      feed, or None for a 404. */
  function FindFeed(feeds: seq<Feed>, pk: nat, siteId: nat): (r: Option<nat>)
    ensures r.Some? ==> r.value < |feeds| && feeds[r.value].id == pk && feeds[r.value].site == siteId
    ensures r.None? ==> forall i :: 0 <= i < |feeds| ==> !(feeds[i].id == pk && feeds[i].site == siteId)
  {
    if feeds == [] then None
    else if feeds[0].id == pk && feeds[0].site == siteId then Some(0)
    else
      var r := FindFeed(feeds[1..], pk, siteId);
      if r.Some? then Some(r.value + 1) else None
  }

  /** `not request.GET.get('disable')`: true when the parameter is absent
      or empty, false for any other value. */
  function AutoApproveValue(disable: Option<string>): (r: bool)
    ensures r <==> disable.None? || disable.value == ""
  {
    match disable
    case None => true
    case Some(s) => s == ""
  }

  /** The table after the switch: the feed at `k` with only auto_approve
      set. */
  function Switched(feeds: seq<Feed>, k: nat, disable: Option<string>): (r: seq<Feed>)
    requires k < |feeds|
    ensures |r| == |feeds| && r[k].autoApprove == AutoApproveValue(disable)
    ensures r[k].(autoApprove := feeds[k].autoApprove) == feeds[k]
    ensures forall i :: 0 <= i < |feeds| && i != k ==> r[i] == feeds[i]
  {
    feeds[k := feeds[k].(autoApprove := AutoApproveValue(disable))]
  }

  /** Sending the same request twice leaves the table as once. */
  lemma SwitchIdempotent(feeds: seq<Feed>, pk: nat, siteId: nat, disable: Option<string>)
    requires FindFeed(feeds, pk, siteId).Some?
    ensures var k := FindFeed(feeds, pk, siteId).value;
            var once := Switched(feeds, k, disable);
            FindFeed(once, pk, siteId) == Some(k) && Switched(once, k, disable) == once
  {
    var k := FindFeed(feeds, pk, siteId).value;
    var once := Switched(feeds, k, disable);
    FindFeedSameKeys(feeds, once, pk, siteId);
  }

  /** The lookup reads only the id and the site of each feed. */
  lemma {:induction false} FindFeedSameKeys(a: seq<Feed>, b: seq<Feed>, pk: nat, siteId: nat)
    requires |a| == |b| && forall i :: 0 <= i < |a| ==> a[i].id == b[i].id && a[i].site == b[i].site
    ensures FindFeed(a, pk, siteId) == FindFeed(b, pk, siteId)
    decreases |a|
  {
    if a != [] {
      FindFeedSameKeys(a[1..], b[1..], pk, siteId);
    }
  }

  /** feed_auto_approve: a feed of another site, or no feed, is a 404;
      otherwise auto_approve is set from the 'disable' parameter, the feed
      is saved, and the response is 'SUCCESS'. */
  method FeedAutoApprove(db: Store.Db, pk: nat, siteId: nat, disable: Option<string>)
    returns (r: Option<string>)
    modifies db`feeds
    ensures FindFeed(old(db.feeds), pk, siteId).None? ==> r.None? && db.feeds == old(db.feeds)
    ensures FindFeed(old(db.feeds), pk, siteId).Some? ==>
              r == Some("SUCCESS") &&
              db.feeds == Switched(old(db.feeds), FindFeed(old(db.feeds), pk, siteId).value, disable)
  {
    var k := FindFeed(db.feeds, pk, siteId);
    if k.None? {
      return None;
    }
    db.feeds := db.feeds[k.value := db.feeds[k.value].(autoApprove := AutoApproveValue(disable))];
    r := Some("SUCCESS");
  }

  /** The add-feed form as AddFeedView builds it: auto_approve starts
      unchecked and the form is given the requesting user. */
  datatype AddFeedForm = AddFeedForm(autoApprove: bool, user: User)

  function AddFeedFormFor(user: User): (r: AddFeedForm)
    ensures !r.autoApprove && r.user == user
  {
    AddFeedForm(false, user)
  }
}
