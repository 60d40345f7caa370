/** django.core.paginator.Paginator as the admin views use it: no
    orphans and an allowed empty first page. django.core.paginator is
    not part of this model; its behaviour is stated here. */
module Paging {
  import opened Common

  /** num_pages: the ceiling of count / per_page, and 1 for an empty list. */
  function NumPages(count: nat, perPage: nat): (n: nat)
    requires perPage > 0
    ensures n >= 1
    ensures (n - 1) * perPage < (if count == 0 then 1 else count) <= n * perPage
  {
    var hits := if count == 0 then 1 else count;
    var n := (hits + perPage - 1) / perPage;
    assert n * perPage <= hits + perPage - 1 < (n + 1) * perPage;
    n
  }

  /** Paginator.page(number): the slice [(number-1)*per_page,
      number*per_page) cut at the end of the list, or EmptyPage for a
      number below 1 or above num_pages. */
  function Page<T>(s: seq<T>, perPage: nat, number: int): (r: Option<seq<T>>)
    requires perPage > 0
    ensures r.Some? <==> 1 <= number <= NumPages(|s|, perPage)
    ensures r.Some? ==> |r.value| <= perPage
    ensures r.Some? && number < NumPages(|s|, perPage) ==> |r.value| == perPage
    ensures r.Some? ==> forall x :: x in r.value ==> x in s
  {
    if 1 <= number <= NumPages(|s|, perPage) then
      var lo := (number - 1) * perPage;
      MulMono(number - 1, NumPages(|s|, perPage) - 1, perPage);
      assert number < NumPages(|s|, perPage) ==> lo + perPage <= |s| by {
        if number < NumPages(|s|, perPage) {
          MulMono(number, NumPages(|s|, perPage) - 1, perPage);
          assert lo + perPage == number * perPage;
        }
      }
      Some(Window(s, lo, perPage))
    else None
  }

  /** The admin views' clamp: the page when it exists, otherwise the last
      page (EmptyPage is caught for a number past the end, and also for
      0 or a negative number). */
  function PageOrLast<T>(s: seq<T>, perPage: nat, number: int): (r: seq<T>)
    requires perPage > 0
    ensures 1 <= number <= NumPages(|s|, perPage) ==> Some(r) == Page(s, perPage, number)
    ensures !(1 <= number <= NumPages(|s|, perPage)) ==> Some(r) == Page(s, perPage, NumPages(|s|, perPage))
    ensures |r| <= perPage && forall x :: x in r ==> x in s
  {
    var p := Page(s, perPage, number);
    if p.Some? then p.value else Page(s, perPage, NumPages(|s|, perPage)).value
  }

  /** The per_page items from `lo` on, fewer at the end of the list. */
  function Window<T>(s: seq<T>, lo: nat, perPage: nat): (r: seq<T>)
    requires lo <= |s|
    ensures |r| <= perPage && (lo + perPage <= |s| ==> |r| == perPage)
    ensures forall x :: x in r ==> x in s
  {
    var hi := if lo + perPage <= |s| then lo + perPage else |s|;
    s[lo..hi]
  }

  lemma WindowShift<T>(s: seq<T>, lo: nat, perPage: nat)
    requires perPage <= |s| && lo + perPage <= |s|
    ensures Window(s, lo + perPage, perPage) == Window(s[perPage..], lo, perPage)
  {
  }

  lemma MulMono(a: int, b: int, p: nat)
    requires a <= b
    ensures a * p <= b * p
  {
    assert b * p - a * p == (b - a) * p;
  }

  /** A page that exists starts inside the list. */
  lemma PageStart(count: nat, perPage: nat, number: int)
    requires perPage > 0 && 1 <= number <= NumPages(count, perPage)
    ensures (number - 1) * perPage <= count
  {
    MulMono(number - 1, NumPages(count, perPage) - 1, perPage);
  }

  lemma MulSucc(j: int, p: nat)
    ensures (j + 1) * p == j * p + p
  {
  }

  lemma MulLtCancel(a: int, b: int, p: nat)
    requires p > 0
    ensures a * p < b * p ==> a < b
  {
    if a >= b {
      MulMono(b, a, p);
    }
  }

  /** The pages in order, each the next per_page items. */
  function Chunks<T>(s: seq<T>, perPage: nat): (r: seq<seq<T>>)
    requires perPage > 0
    decreases |s|
  {
    if |s| <= perPage then [s] else [s[..perPage]] + Chunks(s[perPage..], perPage)
  }

  function Concat<T>(ss: seq<seq<T>>): seq<T> {
    if ss == [] then [] else ss[0] + Concat(ss[1..])
  }

  /** The pages cover the list: read one after another, they give back
      every item once and in order. */
  lemma {:induction false} ChunksCover<T>(s: seq<T>, perPage: nat)
    requires perPage > 0
    ensures Concat(Chunks(s, perPage)) == s
    decreases |s|
  {
    if |s| > perPage {
      ChunksCover(s[perPage..], perPage);
      var c := Chunks(s, perPage);
      assert c[1..] == Chunks(s[perPage..], perPage);
      assert s == s[..perPage] + s[perPage..];
    }
  }

  /** There are num_pages pages, and page k of the paginator is the k-th
      of them. */
  lemma {:induction false} ChunksArePages<T>(s: seq<T>, perPage: nat, k: nat)
    requires perPage > 0
    ensures |Chunks(s, perPage)| == NumPages(|s|, perPage)
    ensures 1 <= k <= NumPages(|s|, perPage) ==> Page(s, perPage, k) == Some(Chunks(s, perPage)[k - 1])
    decreases |s|
  {
    if |s| > perPage {
      var t := s[perPage..];
      ChunksArePages(t, perPage, if k >= 2 then k - 1 else 0);
      NumPagesStep(|s|, perPage);
      if k == 1 {
        assert Page(s, perPage, 1) == Some(s[..perPage]);
      } else if 2 <= k <= NumPages(|s|, perPage) {
        PageStart(|s|, perPage, k);
        PageStep(s, perPage, k);
      }
    } else {
      NumPagesUnique(|s|, perPage, 1);
      assert s[0..|s|] == s;
    }
  }

  /** A list longer than a page has one page more than its tail after
      the first page. */
  lemma NumPagesStep(count: nat, perPage: nat)
    requires perPage > 0 && count > perPage
    ensures NumPages(count, perPage) == NumPages(count - perPage, perPage) + 1
  {
    var n := NumPages(count - perPage, perPage);
    assert (n + 1 - 1) * perPage == n * perPage;
    assert (n + 1) * perPage == n * perPage + perPage;
    assert (n - 1) * perPage + perPage == n * perPage;
    NumPagesUnique(count, perPage, n + 1);
  }

  /** Page k of a list is page k-1 of its tail after the first page. */
  lemma PageStep<T>(s: seq<T>, perPage: nat, k: nat)
    requires perPage > 0 && |s| > perPage
    requires 2 <= k <= NumPages(|s|, perPage)
    ensures Page(s, perPage, k) == Page(s[perPage..], perPage, k - 1)
  {
    NumPagesStep(|s|, perPage);
    var t := s[perPage..];
    PageStart(|t|, perPage, k - 1);
    var lo' := (k - 1 - 1) * perPage;
    assert (k - 1) * perPage == lo' + perPage by { MulSucc(k - 2, perPage); }
    WindowShift(s, lo', perPage);
  }

  /** The ceiling is the only page count that fits. */
  lemma NumPagesUnique(count: nat, perPage: nat, n: nat)
    requires perPage > 0 && n >= 1
    requires (n - 1) * perPage < (if count == 0 then 1 else count) <= n * perPage
    ensures NumPages(count, perPage) == n
  {
    var m := NumPages(count, perPage);
    MulLtCancel(n - 1, m, perPage);
    MulLtCancel(m - 1, n, perPage);
  }
}
