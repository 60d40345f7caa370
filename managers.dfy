/** The site-settings cache and the video queryset helpers
    (localtv/managers.py). */
module Managers {
  import opened Common
  import opened Sorting
  import Query
  import SearchIndexes
  import VideoModel

  /** The argument of get_cached: a Site object or a site primary key. */
  datatype SiteRef = SiteObject(sitePk: nat) | SitePk(pk: nat)

  /** `int(site)` after a Site object is replaced by its pk. */
  function SitePkOf(site: SiteRef): (pk: nat)
    ensures site.SiteObject? ==> pk == site.sitePk
    ensures site.SitePk? ==> pk == site.pk
  {
    match site
    case SiteObject(p) => p
    case SitePk(p) => p
  }

  /** The row stored for `site`, if any. */
  function FindRow(rows: seq<SiteSettings>, site: nat): (r: Option<SiteSettings>)
    ensures r.Some? ==> r.value in rows && r.value.site == site
    ensures r.None? ==> forall s :: s in rows ==> s.site != site
  {
    if rows == [] then None
    else if rows[0].site == site then Some(rows[0])
    else FindRow(rows[1..], site)
  }

  /** SiteRelatedManager: the settings rows of every site and the cache
      keyed by (database alias, site pk). */
  class SiteRelatedManager {
    var rows: seq<SiteSettings>
    var cache: map<(string, nat), SiteSettings>
    /** The Site rows that exist. */
    const sites: set<nat>
    /** The row `_new_entry` creates for a site with no settings yet. */
    const newEntry: nat -> SiteSettings

    constructor (rows: seq<SiteSettings>, sites: set<nat>, newEntry: nat -> SiteSettings)
      requires forall s :: newEntry(s).site == s
      ensures this.rows == rows && cache == map[] && this.sites == sites && this.newEntry == newEntry
    {
      this.rows := rows;
      cache := map[];
      this.sites := sites;
      this.newEntry := newEntry;
    }

    /** Every cached entry is the settings of the site in its key. */
    ghost predicate Valid()
      reads this
    {
      (forall s :: newEntry(s).site == s) &&
      forall k :: k in cache ==> cache[k].site == k.1
    }

    /** get_cached: a hit returns the cached instance and changes nothing. On
        a miss the stored row is fetched, or created when the Site exists;
        a missing Site raises DoesNotExist and nothing is cached. */
    method GetCached(site: SiteRef, using: string) returns (r: Result<SiteSettings, string>)
      requires Valid()
      modifies this
      ensures Valid()
      ensures var key := (using, SitePkOf(site));
              if key in old(cache) then
                r == Ok(old(cache)[key]) && cache == old(cache) && rows == old(rows)
              else if FindRow(old(rows), key.1).Some? then
                r == Ok(FindRow(old(rows), key.1).value) && cache == old(cache)[key := r.value] && rows == old(rows)
              else if key.1 in sites then
                r == Ok(newEntry(key.1)) && cache == old(cache)[key := r.value] && rows == old(rows) + [r.value]
              else
                r == Err("DoesNotExist") && cache == old(cache) && rows == old(rows)
      ensures (r, cache, rows) == GetCachedSpec(old(rows), old(cache), sites, newEntry, (using, SitePkOf(site)))
      ensures r.Ok? ==> r.value.site == SitePkOf(site)
    {
      var pk := SitePkOf(site);
      var key := (using, pk);
      if key !in cache {
        var found := FindRow(rows, pk);
        var instance;
        if found.Some? {
          instance := found.value;
        } else {
          if pk !in sites {
            return Err("DoesNotExist");
          }
          instance := newEntry(pk);
          rows := rows + [instance];
        }
        cache := cache[key := instance];
      }
      return Ok(cache[key]);
    }

    /** get_current: the settings of SITE_ID on the manager's database, or
        'default'. */
    method GetCurrent(siteId: nat, db: Option<string>) returns (r: Result<SiteSettings, string>)
      requires Valid()
      modifies this
      ensures Valid()
      ensures r.Ok? ==> r.value.site == siteId
      ensures (db.GetOr("default"), siteId) in old(cache) ==>
              r == Ok(old(cache)[(db.GetOr("default"), siteId)]) && cache == old(cache) && rows == old(rows)
      ensures (r, cache, rows) == GetCachedSpec(old(rows), old(cache), sites, newEntry, (db.GetOr("default"), siteId))
    {
      r := GetCached(SitePk(siteId), db.GetOr("default"));
    }

    /** clear_cache */
    method ClearCache()
      modifies this
      ensures cache == map[] && rows == old(rows)
    {
      cache := map[];
    }

    /** _post_save: the saved instance replaces the entry of its site. */
    method PostSave(instance: SiteSettings, using: string)
      requires Valid()
      modifies this
      ensures Valid()
      ensures cache == old(cache)[(using, instance.site) := instance] && rows == old(rows)
    {
      cache := cache[(using, instance.site) := instance];
    }
  }

  /** The outcome of get_cached as a function of the manager's state:
      result, new cache and new rows. */
  function GetCachedSpec(rows: seq<SiteSettings>, cache: map<(string, nat), SiteSettings>, sites: set<nat>,
                         newEntry: nat -> SiteSettings, key: (string, nat))
    : (r: (Result<SiteSettings, string>, map<(string, nat), SiteSettings>, seq<SiteSettings>))
    ensures r.0.Err? ==> r.1 == cache && r.2 == rows
    ensures r.0.Ok? ==> key in r.1 && r.1[key] == r.0.value
  {
    if key in cache then (Ok(cache[key]), cache, rows)
    else if FindRow(rows, key.1).Some? then
      var inst := FindRow(rows, key.1).value;
      (Ok(inst), cache[key := inst], rows)
    else if key.1 in sites then
      var inst := newEntry(key.1);
      (Ok(inst), cache[key := inst], rows + [inst])
    else (Err("DoesNotExist"), cache, rows)
  }

  /** A repeated call returns the same instance and changes nothing more,
      so a row is created at most once per key. */
  lemma GetCachedRepeat(rows: seq<SiteSettings>, cache: map<(string, nat), SiteSettings>, sites: set<nat>,
                        newEntry: nat -> SiteSettings, key: (string, nat))
    requires GetCachedSpec(rows, cache, sites, newEntry, key).0.Ok?
    ensures var (r1, c1, rows1) := GetCachedSpec(rows, cache, sites, newEntry, key);
            GetCachedSpec(rows1, c1, sites, newEntry, key) == (r1, c1, rows1)
  {
  }

  /** A Site object and its pk name the same cache entry. */
  lemma SiteObjectAndPkAgree(pk: nat, using: string)
    ensures (using, SitePkOf(SiteObject(pk))) == (using, SitePkOf(SitePk(pk)))
  {
  }

  /** with_best_date: COALESCE(when_published (only with
      use_original_date), when_approved, when_submitted). */
  function WithBestDate(v: Video, useOriginalDate: bool): (r: Time)
    ensures useOriginalDate && v.whenPublished.Some? ==> r == v.whenPublished.value
    ensures (!useOriginalDate || v.whenPublished.None?) && v.whenApproved.Some? ==> r == v.whenApproved.value
    ensures (!useOriginalDate || v.whenPublished.None?) && v.whenApproved.None? ==> r == v.whenSubmitted
  {
    if useOriginalDate && v.whenPublished.Some? then v.whenPublished.value
    else if v.whenApproved.Some? then v.whenApproved.value
    else v.whenSubmitted
  }

  /** The database annotation and the indexed fields give every video the
      same best date, so both kinds of queryset sort alike. */
  lemma BestDateAgreesWithIndex(v: Video, useOriginalDate: bool)
    ensures WithBestDate(v, useOriginalDate) ==
            if useOriginalDate then SearchIndexes.PrepareBestDateWithPublished(v)
            else SearchIndexes.PrepareBestDate(v)
  {
  }

  /** With use_original_date, a video that was never approved is sorted
      by the date Video.when displays. */
  lemma BestDateOfUnapprovedIsWhen(v: Video)
    requires v.whenApproved.None?
    ensures WithBestDate(v, true) == VideoModel.When(v)
  {
  }

  const PopularWindow: int := 7 * Day

  /** The default `since` of _popular_q: a week before now. */
  function PopularSince(since: Option<Time>, now: Time): (r: Time)
    ensures since.None? ==> r == now - PopularWindow
    ensures since.Some? ==> r == since.value
  {
    if since.Some? then since.value else now - PopularWindow
  }

  /** The number of watches of `v` at or after `since`. */
  function WatchCount(v: Video, watches: seq<Watch>, since: Time): nat {
    if watches == [] then 0
    else (if watches[0].video == v.id && watches[0].timestamp >= since then 1 else 0)
         + WatchCount(v, watches[1..], since)
  }

  /** Whether some watch of `v` happened at or after `since`. */
  predicate WatchedSince(v: Video, watches: seq<Watch>, since: Time) {
    exists i :: 0 <= i < |watches| && watches[i].video == v.id && watches[i].timestamp >= since
  }

  lemma {:induction false} WatchCountPositive(v: Video, watches: seq<Watch>, since: Time)
    ensures WatchCount(v, watches, since) > 0 <==> WatchedSince(v, watches, since)
  {
    if watches != [] {
      WatchCountPositive(v, watches[1..], since);
      if WatchedSince(v, watches[1..], since) {
        var i :| 0 <= i < |watches[1..]| && watches[1..][i].video == v.id && watches[1..][i].timestamp >= since;
        assert watches[i + 1] == watches[1..][i];
      }
      if WatchedSince(v, watches, since) && !(watches[0].video == v.id && watches[0].timestamp >= since) {
        var i :| 0 <= i < |watches| && watches[i].video == v.id && watches[i].timestamp >= since;
        assert watches[1..][i - 1] == watches[i];
      }
    }
  }

  /** popular(): the videos watched since `since`, by descending count. */
  function Popular(qs: seq<Video>, watches: seq<Watch>, since: Time): (r: seq<Video>)
    ensures forall v :: v in r <==> v in qs && WatchedSince(v, watches, since)
    ensures SortedBy(r, (v: Video) => [WatchCount(v, watches, since)], true)
  {
    SortBy(Filter(qs, (v: Video) => WatchedSince(v, watches, since)), (v: Video) => [WatchCount(v, watches, since)], true)
  }

  /** not_popular(): the videos not watched since `since`. */
  function NotPopular(qs: seq<Video>, watches: seq<Watch>, since: Time): (r: seq<Video>)
    ensures forall v :: v in r <==> v in qs && !WatchedSince(v, watches, since)
  {
    Filter(qs, (v: Video) => !WatchedSince(v, watches, since))
  }

  /** popular() and not_popular() split the queryset between them. */
  lemma PopularPartition(qs: seq<Video>, watches: seq<Watch>, since: Time)
    ensures multiset(Popular(qs, watches, since)) + multiset(NotPopular(qs, watches, since)) == multiset(qs)
  {
    FilterSplit(qs, (v: Video) => WatchedSince(v, watches, since), (v: Video) => !WatchedSince(v, watches, since));
  }

  /** get_site_settings_videos: the published videos of the site. */
  function SiteSettingsVideos(videos: seq<Video>, site: nat): (r: seq<Video>)
    ensures forall v :: v in r <==> v in videos && v.status == Active && v.site == site
  {
    Filter(videos, (v: Video) => v.status == Active && v.site == site)
  }

  /** An ordering key for a nullable date: null sorts below every date. */
  function DateKey(d: Option<Time>): seq<int> {
    if d.Some? then [1, d.value] else [0]
  }

  /** order_by('-last_featured', '-when_approved', '-when_published',
      '-when_submitted') */
  function FeaturedKey(v: Video): seq<int> {
    DateKey(v.lastFeatured) + DateKey(v.whenApproved) + DateKey(v.whenPublished) + [v.whenSubmitted]
  }

  /** get_featured_videos: the site's published videos that have been
      featured, most recently featured first. */
  function FeaturedVideos(videos: seq<Video>, site: nat): (r: seq<Video>)
    ensures forall v :: v in r <==> v in videos && v.status == Active && v.site == site && v.lastFeatured.Some?
    ensures SortedBy(r, FeaturedKey, true)
  {
    var base := SiteSettingsVideos(videos, site);
    SortBy(Filter(base, (v: Video) => v.lastFeatured.Some?), FeaturedKey, true)
  }

  /** Among featured videos the later last_featured always comes first. */
  lemma FeaturedNewestFirst(videos: seq<Video>, site: nat, i: int, j: int)
    requires 0 <= i < j < |FeaturedVideos(videos, site)|
    ensures FeaturedVideos(videos, site)[i].lastFeatured.value >= FeaturedVideos(videos, site)[j].lastFeatured.value
  {
    var r := FeaturedVideos(videos, site);
    assert r[i] in r && r[j] in r;
    assert Precedes(FeaturedKey, true, r[i], r[j]);
    FeaturedKeyOrder(r[i], r[j]);
  }

  /** Featured keys compare first on last_featured. */
  lemma FeaturedKeyOrder(a: Video, b: Video)
    requires a.lastFeatured.Some? && b.lastFeatured.Some?
    requires LexLe(FeaturedKey(b), FeaturedKey(a))
    ensures a.lastFeatured.value >= b.lastFeatured.value
  {
    var ka, kb := FeaturedKey(a), FeaturedKey(b);
    assert ka[0] == 1 && ka[1] == a.lastFeatured.value;
    assert kb[0] == 1 && kb[1] == b.lastFeatured.value;
    LexLeSecond(kb, ka);
  }
}
