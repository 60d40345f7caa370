/** The live-search query parser of the legacy admin
    (localtv/admin/legacy/livesearch/utils.py). A query is split on
    whitespace; the distinct terms that begin with '-' are exclusions and
    the rest inclusions. */
module LiveSearch {
  import opened Common
  import opened Strings

  /** `(include_terms, stripped_exclude_terms)`: include is a set, exclude a
      list. */
  datatype ParsedQuery = ParsedQuery(included: set<string>, excluded: seq<string>)

  predicate IsExcludeTerm(t: string) { StartsWith(t, "-") }

  function Elems(s: seq<string>): set<string> { set x | x in s }

  predicate Distinct(s: seq<string>) {
    forall i, j :: 0 <= i < j < |s| ==> s[i] != s[j]
  }

  /** The terms of `ws` not in `seen`, each once, in first-occurrence order. */
  function DedupFrom(ws: seq<string>, seen: set<string>): (r: seq<string>)
    ensures Distinct(r)
    ensures Elems(r) == Elems(ws) - seen
  {
    if ws == [] then []
    else if ws[0] in seen then
      var r := DedupFrom(ws[1..], seen);
      assert Elems(ws) == {ws[0]} + Elems(ws[1..]);
      r
    else
      var rest := DedupFrom(ws[1..], seen + {ws[0]});
      assert Elems(ws) == {ws[0]} + Elems(ws[1..]);
      assert Elems([ws[0]] + rest) == {ws[0]} + Elems(rest);
      [ws[0]] + rest
  }

  /** `set(querystring.split())`. */
  function Terms(q: string): set<string> { Elems(Split(q)) }

  /** The exclude terms before their dashes are stripped. The source
      iterates a Python set, whose order is unspecified; the model uses
      the order of first occurrence in the query. */
  function ExcludeTerms(q: string): seq<string> {
    DedupFrom(Filter(Split(q), IsExcludeTerm), {})
  }

  /** parse_querystring */
  function ParseQuerystring(q: string): (r: ParsedQuery)
    ensures |r.excluded| == |ExcludeTerms(q)|
  {
    var inc := set t | t in Split(q) && !IsExcludeTerm(t);
    ParsedQuery(inc, MapSeq(ExcludeTerms(q), LStripDash))
  }

  /** The include terms and the unstripped exclude terms partition the
      query's terms. */
  lemma ParsePartition(q: string)
    ensures ParseQuerystring(q).included !! Elems(ExcludeTerms(q))
    ensures ParseQuerystring(q).included + Elems(ExcludeTerms(q)) == Terms(q)
  {
    var ws := Split(q);
    assert Elems(ExcludeTerms(q)) == Elems(Filter(ws, IsExcludeTerm));
  }

  /** A term is excluded exactly when it begins with '-'; no include term
      does. */
  lemma ExcludedIffDash(q: string, t: string)
    requires t in Terms(q)
    ensures t in Elems(ExcludeTerms(q)) <==> StartsWith(t, "-")
    ensures t in ParseQuerystring(q).included <==> !StartsWith(t, "-")
  {
    assert Elems(ExcludeTerms(q)) == Elems(Filter(Split(q), IsExcludeTerm));
  }

  /** Each returned exclude term is its query term with every leading dash
      removed, so none of them begins with '-'. */
  lemma StrippedExclude(q: string, i: int)
    requires 0 <= i < |ParseQuerystring(q).excluded|
    ensures StartsWith(ExcludeTerms(q)[i], "-")
    ensures StripsLeadingDashes(ExcludeTerms(q)[i], ParseQuerystring(q).excluded[i])
  {
    var e := ExcludeTerms(q)[i];
    ExcludeTermsDashed(q, e);
    var x := LStripDash(e);
    assert ParseQuerystring(q).excluded[i] == x;
  }

  /** `x` is `e` with its whole run of leading dashes, and nothing else,
      removed. */
  predicate StripsLeadingDashes(e: string, x: string) {
    |x| <= |e| && e[|e| - |x|..] == x && (x == [] || x[0] != '-') &&
    forall k :: 0 <= k < |e| - |x| ==> e[k] == '-'
  }

  lemma ExcludeTermsDashed(q: string, e: string)
    requires e in ExcludeTerms(q)
    ensures StartsWith(e, "-")
  {
    assert e in Elems(ExcludeTerms(q));
    assert Elems(ExcludeTerms(q)) == Elems(Filter(Split(q), IsExcludeTerm));
  }

  /** '--a' loses both dashes and '-' becomes the empty term. */
  lemma StripExamples()
    ensures LStripDash("--a") == "a"
    ensures LStripDash("-") == ""
  {
  }

  /** A repeated term collapses: the unstripped exclude list has no
      duplicates and the query repeated twice parses like the query. */
  lemma RepeatedTermsCollapse(q: string)
    ensures Distinct(ExcludeTerms(q))
    ensures ParseQuerystring(q + " " + q) == ParseQuerystring(q)
  {
    var ws := Split(q);
    SplitSpaceConcat(q, q);
    FilterConcat(ws, ws, IsExcludeTerm);
    var f := Filter(ws, IsExcludeTerm);
    DedupConcat(f, f, {});
    DedupSeen(f, Elems(f));
    assert {} + Elems(f) == Elems(f);
    assert DedupFrom(f, {}) + [] == DedupFrom(f, {});
    assert DedupFrom(f + f, {}) == DedupFrom(f, {});
    assert Elems(ws + ws) == Elems(ws);
    assert (set t | t in ws + ws && !IsExcludeTerm(t)) == (set t | t in ws && !IsExcludeTerm(t));
  }

  lemma {:induction false} FilterConcat(a: seq<string>, b: seq<string>, p: string -> bool)
    ensures Filter(a + b, p) == Filter(a, p) + Filter(b, p)
  {
    if a != [] {
      assert (a + b)[1..] == a[1..] + b;
      FilterConcat(a[1..], b, p);
    } else {
      assert a + b == b;
    }
  }

  lemma {:induction false} DedupConcat(a: seq<string>, b: seq<string>, seen: set<string>)
    ensures DedupFrom(a + b, seen) == DedupFrom(a, seen) + DedupFrom(b, seen + Elems(a))
  {
    if a == [] {
      assert a + b == b;
      assert seen + Elems(a) == seen;
    } else {
      assert (a + b)[1..] == a[1..] + b;
      assert Elems(a) == {a[0]} + Elems(a[1..]);
      if a[0] in seen {
        DedupConcat(a[1..], b, seen);
        assert seen + Elems(a[1..]) == seen + Elems(a);
      } else {
        DedupConcat(a[1..], b, seen + {a[0]});
        assert seen + {a[0]} + Elems(a[1..]) == seen + Elems(a);
      }
    }
  }

  lemma {:induction false} DedupSeen(a: seq<string>, seen: set<string>)
    requires Elems(a) <= seen
    ensures DedupFrom(a, seen) == []
  {
    if a != [] {
      assert a[0] in Elems(a);
      assert Elems(a[1..]) <= Elems(a);
      DedupSeen(a[1..], seen);
    }
  }

  /** `a.split()` followed by `b.split()` is `(a + ' ' + b).split()`. */
  lemma {:induction false} SplitSpaceConcat(a: string, b: string)
    ensures Split(a + " " + b) == Split(a) + Split(b)
    decreases |a|
  {
    if a == [] {
      assert a + " " + b == " " + b;
      assert (" " + b)[1..] == b;
    } else if IsSpace(a[0]) {
      assert (a + " " + b)[1..] == a[1..] + " " + b;
      SplitSpaceConcat(a[1..], b);
    } else {
      var n := WordLen(a);
      var s := a + " " + b;
      WordLenPrefix(a, " " + b);
      assert s == a + (" " + b);
      assert s[..n] == a[..n];
      assert s[n..] == a[n..] + " " + b;
      SplitSpaceConcat(a[n..], b);
    }
  }

  /** The leading word of `a` is unchanged by appending text that starts
      with whitespace. */
  lemma {:induction false} WordLenPrefix(a: string, tail: string)
    requires tail != [] && IsSpace(tail[0])
    ensures WordLen(a + tail) == WordLen(a)
  {
    if a != [] && !IsSpace(a[0]) {
      assert (a + tail)[1..] == a[1..] + tail;
      WordLenPrefix(a[1..], tail);
    } else if a == [] {
      assert a + tail == tail;
    }
  }

  /** terms_for_cache: the include terms (in the order the caller iterates
      the set) then the exclude terms, concatenated, with every whitespace
      character removed. */
  function TermsForCache(included: seq<string>, excluded: seq<string>): (r: string)
    ensures NoSpace(r)
  {
    RemoveSpace(Join("", included) + Join("", excluded))
  }

  /** Terms that come from `split()` carry no whitespace, so the cache key
      is their plain concatenation. */
  lemma CacheKeyIsConcatenation(included: seq<string>, excluded: seq<string>)
    requires forall t :: t in included ==> NoSpace(t)
    requires forall t :: t in excluded ==> NoSpace(t)
    ensures TermsForCache(included, excluded) == Join("", included) + Join("", excluded)
  {
    ConcatNoSpace(included);
    ConcatNoSpace(excluded);
    var s := Join("", included) + Join("", excluded);
    forall i | 0 <= i < |s| ensures !IsSpace(s[i]) {
      if i >= |Join("", included)| {
        assert s[i] == Join("", excluded)[i - |Join("", included)|];
      }
    }
    RemoveSpaceKeeps(s);
  }

  lemma {:induction false} ConcatNoSpace(ts: seq<string>)
    requires forall t :: t in ts ==> NoSpace(t)
    ensures NoSpace(Join("", ts))
  {
    if |ts| > 1 {
      assert ts[0] in ts;
      forall t | t in ts[1..] ensures NoSpace(t) {
        assert t in ts;
      }
      ConcatNoSpace(ts[1..]);
      var s := Join("", ts);
      assert s == ts[0] + Join("", ts[1..]);
      forall i | 0 <= i < |s| ensures !IsSpace(s[i]) {
        if i >= |ts[0]| {
          assert s[i] == Join("", ts[1..])[i - |ts[0]|];
        }
      }
    } else if |ts| == 1 {
      assert ts[0] in ts;
    }
  }
}
