/** Querysets over the video table, evaluated on in-memory rows, and the
    Q objects the search helpers build (localtv/search/utils.py). A
    queryset is either a database queryset or a search-index queryset; in
    the index a null date is stored as the 1900-01-01 placeholder. */
module Query {
  import opened Common

  /** The field lookups the filters and sorts use. */
  datatype Field = Categories | Authors | UserField | Playlists | FeedField | Tags
                 | FeaturedDatetime | WhenApproved

  datatype Value = IntVal(i: int) | StrVal(s: string) | TimeVal(t: Time)

  /** Whether the row stores `x` under `f`. */
  predicate HasValue(v: Video, f: Field, x: Value, haystack: bool) {
    match f
    case Categories => x.IntVal? && x.i >= 0 && x.i in v.categories
    case Authors => x.IntVal? && x.i >= 0 && x.i in v.authors
    case UserField => x.IntVal? && v.user.Some? && x.i == v.user.value
    case Playlists => x.IntVal? && x.i >= 0 && x.i in v.playlists
    case FeedField => x.IntVal? && v.feed.Some? && x.i == v.feed.value
    case Tags => x.StrVal? && x.s in v.tags
    case FeaturedDatetime => x.TimeVal? && StoredDate(v.lastFeatured, haystack) == Some(x.t)
    case WhenApproved => x.TimeVal? && StoredDate(v.whenApproved, haystack) == Some(x.t)
  }

  /** A nullable date as stored: the index replaces null by the placeholder. */
  function StoredDate(d: Option<Time>, haystack: bool): (r: Option<Time>)
    ensures haystack ==> r.Some?
    ensures !haystack ==> r == d
    ensures d.Some? ==> r == d
  {
    if haystack && d.None? then Some(DatetimeNullPlaceholder) else d
  }

  /** `<field>__isnull=True`. */
  predicate IsNull(v: Video, f: Field, haystack: bool) {
    match f
    case Categories => v.categories == []
    case Authors => v.authors == {}
    case UserField => v.user.None?
    case Playlists => v.playlists == {}
    case FeedField => v.feed.None?
    case Tags => v.tags == []
    case FeaturedDatetime => StoredDate(v.lastFeatured, haystack).None?
    case WhenApproved => StoredDate(v.whenApproved, haystack).None?
  }

  datatype Q = NullQ(field: Field) | ExactQ(field: Field, value: Value)
             | InQ(field: Field, values: seq<Option<Value>>) | OrQ(left: Q, right: Q)

  predicate Holds(q: Q, v: Video, haystack: bool) {
    match q
    case NullQ(f) => IsNull(v, f, haystack)
    case ExactQ(f, x) => HasValue(v, f, x, haystack)
    case InQ(f, xs) => exists i :: 0 <= i < |xs| && xs[i].Some? && HasValue(v, f, xs[i].value, haystack)
    case OrQ(l, r) => Holds(l, v, haystack) || Holds(r, v, haystack)
  }

  /** _exact_q: a None value becomes an `__isnull` test. */
  function ExactQFor(f: Field, value: Option<Value>): Q {
    if value.None? then NullQ(f) else ExactQ(f, value.value)
  }

  /** _q_for_queryset: one value is an exact lookup, several an `__in`. */
  function QForQueryset(f: Field, values: seq<Option<Value>>): (q: Q)
    ensures |values| == 1 ==> q == ExactQFor(f, values[0])
    ensures |values| != 1 ==> q == InQ(f, values)
  {
    if |values| == 1 then ExactQFor(f, values[0]) else InQ(f, values)
  }

  /** Whichever form it takes, the Q for a list of non-null values matches
      the rows that store one of them; a single None matches the rows where
      the field is null. */
  lemma QForQuerysetMeaning(f: Field, values: seq<Option<Value>>, v: Video, haystack: bool)
    ensures (forall i :: 0 <= i < |values| ==> values[i].Some?) ==>
            (Holds(QForQueryset(f, values), v, haystack) <==>
             exists i :: 0 <= i < |values| && HasValue(v, f, values[i].value, haystack))
    ensures values == [None] ==> (Holds(QForQueryset(f, values), v, haystack) <==> IsNull(v, f, haystack))
  {
    if |values| == 1 && values[0].Some? {
      if HasValue(v, f, values[0].value, haystack) {
        assert Holds(QForQueryset(f, values), v, haystack);
      }
    }
  }

  /** FilterMixin._make_qs: the Q objects of every lookup, OR-ed together
      (`reduce` on an empty list of lookups is an error, so at least one is
      required). */
  function MakeQs(lookups: seq<Field>, values: seq<Option<Value>>): Q
    requires lookups != []
  {
    if |lookups| == 1 then QForQueryset(lookups[0], values)
    else OrQ(MakeQs(lookups[..|lookups| - 1], values), QForQueryset(lookups[|lookups| - 1], values))
  }

  lemma {:induction false} MakeQsMeaning(lookups: seq<Field>, values: seq<Option<Value>>, v: Video, haystack: bool)
    requires lookups != []
    ensures Holds(MakeQs(lookups, values), v, haystack) <==>
            exists k :: 0 <= k < |lookups| && Holds(QForQueryset(lookups[k], values), v, haystack)
  {
    if |lookups| > 1 {
      var init := lookups[..|lookups| - 1];
      MakeQsMeaning(init, values, v, haystack);
      if Holds(MakeQs(lookups, values), v, haystack) {
        if Holds(MakeQs(init, values), v, haystack) {
          var k :| 0 <= k < |init| && Holds(QForQueryset(init[k], values), v, haystack);
          assert lookups[k] == init[k];
        }
      } else {
        forall k | 0 <= k < |lookups| ensures !Holds(QForQueryset(lookups[k], values), v, haystack) {
          if k < |init| {
            assert lookups[k] == init[k];
          }
        }
      }
    }
  }

  /** A database queryset (`haystack == false`) or a search-index queryset,
      with its rows in order. */
  datatype QuerySet = QuerySet(haystack: bool, rows: seq<Video>)

  /** `queryset.filter(q)`: the rows that match, in order. */
  function FilterQ(qs: QuerySet, q: Q): (r: QuerySet)
    ensures r.haystack == qs.haystack
    ensures forall v :: v in r.rows <==> v in qs.rows && Holds(q, v, qs.haystack)
    ensures multiset(r.rows) <= multiset(qs.rows)
  {
    FilterMultiset(qs.rows, v => Holds(q, v, qs.haystack));
    QuerySet(qs.haystack, Filter(qs.rows, v => Holds(q, v, qs.haystack)))
  }

  /** `queryset.exclude(q)`: the rows that do not match, in order. */
  function ExcludeQ(qs: QuerySet, q: Q): (r: QuerySet)
    ensures r.haystack == qs.haystack
    ensures forall v :: v in r.rows <==> v in qs.rows && !Holds(q, v, qs.haystack)
    ensures multiset(r.rows) <= multiset(qs.rows)
  {
    FilterMultiset(qs.rows, v => !Holds(q, v, qs.haystack));
    QuerySet(qs.haystack, Filter(qs.rows, v => !Holds(q, v, qs.haystack)))
  }

  /** `queryset.filter(pred)` for a condition that is not a Q object. */
  function Where(qs: QuerySet, p: Video -> bool): (r: QuerySet)
    ensures r.haystack == qs.haystack
    ensures forall v :: v in r.rows <==> v in qs.rows && p(v)
    ensures multiset(r.rows) <= multiset(qs.rows)
  {
    FilterMultiset(qs.rows, p);
    QuerySet(qs.haystack, Filter(qs.rows, p))
  }

  /** Filtering and excluding the same Q split a queryset in two. */
  lemma FilterExcludeSplit(qs: QuerySet, q: Q)
    ensures multiset(FilterQ(qs, q).rows) + multiset(ExcludeQ(qs, q).rows) == multiset(qs.rows)
  {
    FilterSplit(qs.rows, v => Holds(q, v, qs.haystack), v => !Holds(q, v, qs.haystack));
  }
}
