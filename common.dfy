/** Records shared by every part of the model: the Video, Feed, SavedSearch,
    Category, Playlist and User rows that the ORM stores, reduced to the
    fields the modelled code reads or writes. */
module Common {

  datatype Option<T> = None | Some(value: T) {
    function GetOr(default: T): T {
      match this
      case Some(v) => v
      case None => default
    }
  }

  datatype Result<T, E> = Ok(value: T) | Err(error: E)

  /** Timestamps are microseconds since the epoch. */
  type Time = int

  /** datetime(1900, 1, 1): stands for "no value" in the search index. */
  const DatetimeNullPlaceholder: Time := -2208988800 * 1000000
  /** datetime.datetime.max */
  const DatetimeMax: Time := 253402300799 * 1000000 + 999999
  /** datetime.datetime.max.replace(microsecond=0) */
  const DatetimeMaxNoMicro: Time := 253402300799 * 1000000

  const Day: int := 24 * 3600 * 1000000

  /** One status type for both snapshots of the Video model:
      Unapproved is NEEDS_MODERATION, Active is PUBLISHED and Rejected is
      HIDDEN; Pending is used while an import is running. */
  datatype Status = Unapproved | Active | Rejected | Pending

  datatype Video = Video(
    id: nat,
    site: nat,
    name: string,
    description: string,
    fileUrl: string,
    fileUrlLength: Option<int>,
    fileUrlMimetype: string,
    whenSubmitted: Time,
    whenApproved: Option<Time>,
    whenPublished: Option<Time>,
    lastFeatured: Option<Time>,
    status: Status,
    feed: Option<nat>,
    search: Option<nat>,
    user: Option<nat>,
    websiteUrl: string,
    embedCode: string,
    flashEnclosureUrl: string,
    guid: string,
    hasThumbnail: bool,
    thumbnailUrl: string,
    thumbnailExtension: string,
    contact: string,
    tags: seq<string>,
    categories: seq<nat>,
    authors: set<nat>,
    playlists: set<nat>)

  datatype Feed = Feed(
    id: nat,
    site: nat,
    feedUrl: string,
    name: string,
    webpage: string,
    description: string,
    status: Status,
    etag: string,
    lastUpdated: Time,
    autoApprove: bool,
    autoUpdate: bool,
    user: Option<nat>,
    autoCategories: seq<nat>,
    autoAuthors: seq<nat>,
    /** whether feed_url matches one of the video-service regexes */
    isServiceFeed: bool)

  datatype SavedSearch = SavedSearch(
    id: nat,
    site: nat,
    queryString: string,
    user: Option<nat>,
    autoUpdate: bool,
    autoApprove: bool,
    autoCategories: seq<nat>,
    autoAuthors: seq<nat>)

  datatype Category = Category(id: nat, site: nat, name: string, slug: string, parent: Option<nat>)

  /** The source only compares `status < PUBLIC`, so Public is the greatest. */
  datatype PlaylistStatus = Private | WaitingForModeration | Public {
    function Rank(): nat {
      match this
      case Private => 0
      case WaitingForModeration => 1
      case Public => 2
    }
  }

  datatype Playlist = Playlist(id: nat, site: nat, user: nat, name: string, slug: string, status: PlaylistStatus)

  /** The per-site settings row (SiteLocation / SiteSettings), reduced to
      the flags the modelled code reads. */
  datatype SiteSettings = SiteSettings(
    site: nat,
    displaySubmitButton: bool,
    submissionRequiresLogin: bool,
    submissionRequiresEmail: bool,
    useOriginalDate: bool,
    /** 0: off, 1: on for everyone, 2: admins only */
    playlistsEnabled: int)

  /** One recorded view of a video. */
  datatype Watch = Watch(video: nat, timestamp: Time, ip: string, user: Option<nat>)

  /** A request's user; an anonymous visitor has `authenticated == false`. */
  datatype User = User(
    pk: nat,
    username: string,
    email: string,
    authenticated: bool,
    active: bool,
    superuser: bool,
    adminFor: seq<nat>)

  /** Who may administer a site: never an anonymous or inactive user,
      always an active superuser, otherwise exactly the users whose
      `admin_for` list holds the site. */
  predicate UserIsAdmin(site: nat, user: User) {
    if !user.authenticated || !user.active then false
    else if user.superuser then true
    else site in user.adminFor
  }

  function Filter<T>(s: seq<T>, p: T -> bool): (r: seq<T>)
    ensures |r| <= |s|
    ensures forall x :: x in r ==> x in s && p(x)
    ensures forall x :: x in s && p(x) ==> x in r
  {
    if s == [] then [] else (if p(s[0]) then [s[0]] else []) + Filter(s[1..], p)
  }

  function MapSeq<T, U>(s: seq<T>, f: T -> U): (r: seq<U>)
    ensures |r| == |s|
    ensures forall i :: 0 <= i < |s| ==> r[i] == f(s[i])
  {
    seq(|s|, i requires 0 <= i < |s| => f(s[i]))
  }

  lemma {:induction false} FilterMultiset<T>(s: seq<T>, p: T -> bool)
    ensures multiset(Filter(s, p)) <= multiset(s)
  {
    if s != [] {
      FilterMultiset(s[1..], p);
      assert s == [s[0]] + s[1..];
    }
  }

  /** The multiset of a filtered list, one item at a time. */
  lemma FilterConsMultiset<T>(s: seq<T>, p: T -> bool)
    requires s != []
    ensures multiset(Filter(s, p)) == (if p(s[0]) then multiset{s[0]} else multiset{}) + multiset(Filter(s[1..], p))
  {
    assert Filter(s, p) == (if p(s[0]) then [s[0]] else []) + Filter(s[1..], p);
  }

  /** An item that goes to exactly one of two parts. */
  lemma OneSide<T>(x: T, a: multiset<T>, b: multiset<T>, left: bool)
    ensures (if left then multiset{x} else multiset{}) + a + ((if left then multiset{} else multiset{x}) + b)
         == multiset{x} + (a + b)
  {
  }

  /** Updating a union updates its right-hand map. */
  lemma UnionUpdate<K, V>(m: map<K, V>, r: map<K, V>, k: K, v: V)
    ensures (m + r)[k := v] == m + r[k := v]
  {
  }

  /** Deleting a key and then storing it is the same as storing it. */
  lemma RemoveThenUpdate<K, V>(m: map<K, V>, k: K, v: V)
    ensures (m - {k})[k := v] == m[k := v]
  {
  }

  /** Concatenation regroups freely. */
  lemma ConcatAssoc<T>(a: seq<T>, b: seq<T>, c: seq<T>)
    ensures a + (b + c) == (a + b) + c
  {
  }

  lemma SeqConsMultiset<T>(s: seq<T>)
    requires s != []
    ensures multiset(s) == multiset{s[0]} + multiset(s[1..])
  {
    assert s == [s[0]] + s[1..];
  }

  lemma {:induction false} FilterSplit<T>(s: seq<T>, p: T -> bool, np: T -> bool)
    requires forall x :: np(x) == !p(x)
    ensures multiset(Filter(s, p)) + multiset(Filter(s, np)) == multiset(s)
  {
    if s != [] {
      FilterSplit(s[1..], p, np);
      FilterConsMultiset(s, p);
      FilterConsMultiset(s, np);
      assert np(s[0]) == !p(s[0]);
      OneSide(s[0], multiset(Filter(s[1..], p)), multiset(Filter(s[1..], np)), p(s[0]));
      SeqConsMultiset(s);
    }
  }

  /** Filtering a list grown by one item grows the result by that item
      when it passes. */
  lemma {:induction false} FilterSnoc<T>(s: seq<T>, x: T, p: T -> bool)
    ensures Filter(s + [x], p) == Filter(s, p) + (if p(x) then [x] else [])
  {
    if s != [] {
      FilterSnoc(s[1..], x, p);
      assert (s + [x])[1..] == s[1..] + [x];
    }
  }

  /** A filter every item passes keeps the list. */
  lemma {:induction false} FilterKeepsAll<T>(s: seq<T>, p: T -> bool)
    requires forall x :: x in s ==> p(x)
    ensures Filter(s, p) == s
  {
    if s != [] {
      FilterKeepsAll(s[1..], p);
      assert s == [s[0]] + s[1..];
    }
  }

  /** A filter no item passes keeps nothing. */
  lemma {:induction false} FilterNone<T>(s: seq<T>, p: T -> bool)
    requires forall x :: x in s ==> !p(x)
    ensures Filter(s, p) == []
  {
    if s != [] {
      FilterNone(s[1..], p);
      assert s[0] in s;
    }
  }

  /** Filtering twice is filtering once by both conditions. */
  lemma {:induction false} FilterFilter<T>(s: seq<T>, p: T -> bool, q: T -> bool, both: T -> bool)
    requires forall x :: both(x) == (p(x) && q(x))
    ensures Filter(Filter(s, p), q) == Filter(s, both)
  {
    if s != [] {
      FilterFilter(s[1..], p, q, both);
      var rest := Filter(s[1..], p);
      if p(s[0]) {
        var x := [s[0]] + rest;
        assert Filter(s, p) == x;
        assert x[0] == s[0] && x[1..] == rest;
        assert Filter(x, q) == (if q(s[0]) then [s[0]] else []) + Filter(rest, q);
        assert Filter(s, both) == (if both(s[0]) then [s[0]] else []) + Filter(s[1..], both);
      } else {
        assert Filter(s, p) == rest;
        assert Filter(s, both) == Filter(s[1..], both);
      }
    }
  }

  lemma MapSnoc<T, U>(s: seq<T>, x: T, f: T -> U)
    ensures MapSeq(s + [x], f) == MapSeq(s, f) + [f(x)]
  {
  }

  /** One more item of a list, filtered then mapped. */
  lemma FilterMapStep<T, U>(s: seq<T>, i: nat, p: T -> bool, f: T -> U)
    requires i < |s|
    ensures MapSeq(Filter(s[..i + 1], p), f) == MapSeq(Filter(s[..i], p), f) + (if p(s[i]) then [f(s[i])] else [])
  {
    FilterSnoc(s[..i], s[i], p);
    assert s[..i + 1] == s[..i] + [s[i]];
    if p(s[i]) {
      MapSnoc(Filter(s[..i], p), s[i], f);
    }
  }

  /** A Python slice bound: a negative bound counts from the end, and
      every bound is clamped into [0, n]. */
  function SliceBound(i: int, n: nat): (r: nat)
    ensures r <= n
    ensures 0 <= i <= n ==> r == i
    ensures i > n ==> r == n
  {
    if i < 0 then (if i + n < 0 then 0 else i + n) else if i > n then n else i
  }

  /** `s[start:stop]` in Python: never an error, empty when the bounds cross. */
  function PySlice<T>(s: seq<T>, start: int, stop: int): (r: seq<T>)
    ensures |r| <= |s|
    ensures 0 <= start <= stop <= |s| ==> r == s[start..stop]
    ensures 0 <= start && 0 <= stop ==> |r| <= stop - start || |r| == 0
    ensures forall x :: x in r ==> x in s
  {
    var lo := SliceBound(start, |s|);
    var hi := SliceBound(stop, |s|);
    if hi <= lo then [] else s[lo..hi]
  }
}
