/**
 * List paging as the cart page, the menu and the checkout summary all do it:
 * `Math.ceil(n / perPage)` pages, `slice((page - 1) * perPage, page * perPage)`
 * for the visible page, a "Showing a-b of n" line, prev/next buttons that stay
 * within the pages, and the window of page buttons with ellipses.
 */
module Paging {
  import opened Common

  /** `Math.ceil(n / per)`: the least number of pages of `per` entries that holds `n` entries. */
  function TotalPages(n: nat, per: nat): (r: nat)
    requires per > 0
    ensures r * per >= n
    ensures r == 0 || (r - 1) * per < n
  {
    (n + per - 1) / per
  }

  /** There are no pages exactly when there are no entries. */
  lemma NoPagesIffEmpty(n: nat, per: nat)
    requires per > 0
    ensures TotalPages(n, per) == 0 <==> n == 0
  {
  }

  /** The pager is shown when there is more than one page, that is when the entries overflow one page. */
  function ShowsPagination(n: nat, per: nat): (r: bool)
    requires per > 0
    ensures r <==> n > per
  {
    var t := TotalPages(n, per);
    if t > 1 then
      MulMono(1, t - 1, per);
      true
    else
      MulMono(t, 1, per);
      false
  }

  lemma MulMono(a: int, b: int, c: nat)
    requires a <= b
    ensures a * c <= b * c
  {
    assert b * c - a * c == (b - a) * c;
  }

  /** Where page `page` starts relative to the entries: inside them exactly for the real pages. */
  lemma PageStartBounds(page: int, per: nat, n: nat)
    requires per > 0
    ensures page >= 1 ==> (page - 1) * per >= 0
    ensures 1 <= page <= TotalPages(n, per) ==> (page - 1) * per < n
    ensures page > TotalPages(n, per) ==> (page - 1) * per >= n
  {
    var t := TotalPages(n, per);
    if page >= 1 { MulMono(0, page - 1, per); }
    if 1 <= page <= t { MulMono(page - 1, t - 1, per); }
    if page > t { MulMono(t, page - 1, per); }
  }

  /** How `slice` reads an index: a negative one counts from the end, and both are clamped to the length. */
  function SliceIndex(k: int, len: nat): (r: nat)
    ensures r <= len
    ensures 0 <= k ==> r == Min(k, len)
  {
    if k < 0 then Max(len + k, 0) else Min(k, len)
  }

  /** `s.slice(start, end)`. */
  function Slice<T>(s: seq<T>, start: int, end: int): (r: seq<T>)
    ensures |r| <= |s|
    ensures 0 <= start <= end ==> r == s[Min(start, |s|)..Min(end, |s|)]
  {
    var a, b := SliceIndex(start, |s|), SliceIndex(end, |s|);
    if a < b then s[a..b] else []
  }

  /**
   * The entries of page `page` (1-based): those at offsets `(page - 1) * per`
   * up to but excluding `page * per`, as many of them as exist.
   */
  function PageItems<T>(items: seq<T>, page: int, per: nat): (r: seq<T>)
    requires per > 0
    ensures page >= 1 ==> r == items[Min((page - 1) * per, |items|)..Min((page - 1) * per + per, |items|)]
  {
    var start := (page - 1) * per;
    assert page >= 1 ==> start >= 0 by {
      if page >= 1 { MulMono(0, page - 1, per); }
    }
    Slice(items, start, start + per)
  }

  /** The real pages are the non-empty ones. */
  lemma PageEmptiness<T>(items: seq<T>, page: int, per: nat)
    requires per > 0
    ensures 1 <= page <= TotalPages(|items|, per) ==> PageItems(items, page, per) != []
    ensures page > TotalPages(|items|, per) ==> PageItems(items, page, per) == []
  {
    PageStartBounds(page, per, |items|);
  }

  /** Pages 1 to `k`, laid end to end. */
  function PagesUpTo<T>(items: seq<T>, per: nat, k: nat): seq<T>
    requires per > 0
  {
    if k == 0 then [] else PagesUpTo(items, per, k - 1) + PageItems(items, k, per)
  }

  /** The first `k` pages are exactly the first `k * per` entries (or all of them). */
  lemma {:induction false} PagesUpToPrefix<T>(items: seq<T>, per: nat, k: nat)
    requires per > 0
    ensures PagesUpTo(items, per, k) == items[..Min(k * per, |items|)]
  {
    if k > 0 {
      PagesUpToPrefix(items, per, k - 1);
      PageOffsets(k, per);
      PrefixThenSlice(items, (k - 1) * per, k * per);
    }
  }

  /** Page `k` starts at a non-negative offset, and `per` entries later the next page starts. */
  lemma PageOffsets(k: nat, per: nat)
    requires k > 0
    ensures 0 <= (k - 1) * per <= k * per
    ensures (k - 1) * per + per == k * per
  {
    MulMono(0, k - 1, per);
  }

  /** A prefix followed by the next stretch is the longer prefix, each end clamped to the length. */
  lemma PrefixThenSlice<T>(s: seq<T>, a: int, b: int)
    requires 0 <= a <= b
    ensures s[..Min(a, |s|)] + s[Min(a, |s|)..Min(b, |s|)] == s[..Min(b, |s|)]
  {
  }

  /** Paging loses and repeats nothing: all pages together are the whole list, in order. */
  lemma PagesPartition<T>(items: seq<T>, per: nat)
    requires per > 0
    ensures PagesUpTo(items, per, TotalPages(|items|, per)) == items
  {
    PagesUpToPrefix(items, per, TotalPages(|items|, per));
  }

  /** The two numbers of "Showing first-last of n items". */
  datatype Shown = Shown(first: int, last: int)

  /** `start = (page - 1) * per + 1` and `end = min(start + per - 1, n)`. */
  function ResultsInfo(page: int, per: nat, n: nat): (r: Shown)
    requires per > 0
    ensures 1 <= page <= TotalPages(n, per) ==> 1 <= r.first <= r.last <= n
    ensures 1 <= page <= TotalPages(n, per) ==> r.last - r.first + 1 <= per
  {
    var first := (page - 1) * per + 1;
    Shown(first, Min(first + per - 1, n))
  }

  /** The "Showing" line describes exactly the entries on the page: they are entries `first` to `last`, counted from 1. */
  lemma ResultsMatchPage<T>(items: seq<T>, page: int, per: nat)
    requires per > 0 && 1 <= page <= TotalPages(|items|, per)
    ensures var r := ResultsInfo(page, per, |items|);
      PageItems(items, page, per) == items[r.first - 1..r.last]
  {
  }

  // ---------------------------------------------------------------- prev / next

  /** A current page the pager can be on: at least 1, and at most the last page when there is one. */
  predicate InRange(current: int, total: nat) {
    1 <= current <= Max(total, 1)
  }

  /** The previous-page button: it moves back one page, and only from a page after the first. */
  function Prev(current: int): (r: int)
    ensures r <= current
    ensures r != current <==> current > 1
    ensures r >= Min(current, 1)
    ensures current > 1 ==> r == current - 1
  {
    if current > 1 then current - 1 else current
  }

  /** The next-page button: it moves on one page, and only from a page before the last. */
  function Next(current: int, total: nat): (r: int)
    ensures r >= current
    ensures r != current <==> current < total
    ensures r <= Max(current, total)
    ensures current < total ==> r == current + 1
  {
    if current < total then current + 1 else current
  }

  /** Prev and next never leave the pages, and on the first (last) page prev (next) does nothing. */
  lemma NavigationStaysInRange(current: int, total: nat)
    requires InRange(current, total)
    ensures InRange(Prev(current), total) && InRange(Next(current, total), total)
    ensures Prev(current) == current <==> current == 1
    ensures Next(current, total) == current <==> current >= total
  {
  }

  // ---------------------------------------------------------------- page buttons

  /** One entry of the page-button row: a page number or an ellipsis. */
  datatype Entry = Num(n: int) | Gap

  /** The numbers `lo` to `hi` in order. */
  function Run(lo: int, hi: int): (r: seq<Entry>)
    ensures |r| == Max(0, hi - lo + 1)
    ensures forall i :: 0 <= i < |r| ==> r[i] == Num(lo + i)
    decreases hi - lo
  {
    if lo > hi then [] else [Num(lo)] + Run(lo + 1, hi)
  }

  /** A run grows at its end one number at a time, as the generator's loops push them. */
  lemma RunSnoc(lo: int, hi: int)
    requires lo <= hi + 1
    ensures Run(lo, hi + 1) == Run(lo, hi) + [Num(hi + 1)]
  {
  }

  /**
   * The shape of a row with ellipses: it begins with page 1 and ends with page
   * `total`, neighbouring numbers are consecutive, and an ellipsis stands
   * between two numbers with at least one page hidden between them.
   */
  predicate Window(r: seq<Entry>, total: int) {
    && |r| >= 2 && r[0] == Num(1) && r[|r| - 1] == Num(total)
    && (forall i :: 0 <= i < |r| && r[i].Gap? ==>
          0 < i < |r| - 1 && r[i - 1].Num? && r[i + 1].Num? && r[i + 1].n > r[i - 1].n + 1)
    && (forall i :: 0 <= i < |r| - 1 && r[i].Num? && r[i + 1].Num? ==> r[i + 1].n == r[i].n + 1)
  }

  /**
   * `generateCartPageNumbers(current, total)`: all pages when there are at most
   * five; otherwise six or seven entries shaped as a `Window`, always including
   * the current page when it is a real page.
   */
  function PageWindow(current: int, total: int): (r: seq<Entry>)
    ensures total <= 5 ==> r == Run(1, total)
    ensures total > 5 ==> Window(r, total) && 6 <= |r| <= 7
    ensures 1 <= current <= total ==> Num(current) in r
  {
    if total <= 5 then
      assert 1 <= current <= total ==> Run(1, total)[current - 1] == Num(current);
      Run(1, total)
    else if current <= 3 then
      var r := Run(1, 4) + [Gap, Num(total)];
      assert 1 <= current ==> r[current - 1] == Num(current);
      WindowLow(total);
      r
    else if current >= total - 2 then
      var r := [Num(1), Gap] + Run(total - 3, total);
      assert current <= total ==> r[current - total + 5] == Num(current);
      WindowHigh(total);
      r
    else
      var r := [Num(1), Gap] + Run(current - 1, current + 1) + [Gap, Num(total)];
      assert r[3] == Num(current);
      WindowMiddle(current, total);
      r
  }

  /** The row near the first page: 1 to 4, an ellipsis, the last page. */
  lemma WindowLow(total: int)
    requires total > 5
    ensures Window(Run(1, 4) + [Gap, Num(total)], total)
  {
    var r := Run(1, 4) + [Gap, Num(total)];
    assert r == [Num(1), Num(2), Num(3), Num(4), Gap, Num(total)];
  }

  /** The row near the last page: page 1, an ellipsis, the last four pages. */
  lemma WindowHigh(total: int)
    requires total > 5
    ensures Window([Num(1), Gap] + Run(total - 3, total), total)
  {
    var r := [Num(1), Gap] + Run(total - 3, total);
    assert r == [Num(1), Gap, Num(total - 3), Num(total - 2), Num(total - 1), Num(total)];
  }

  /** The row in the middle: page 1, an ellipsis, the current page and its neighbours, an ellipsis, the last page. */
  lemma WindowMiddle(current: int, total: int)
    requires 3 < current < total - 2
    ensures Window([Num(1), Gap] + Run(current - 1, current + 1) + [Gap, Num(total)], total)
  {
    var r := [Num(1), Gap] + Run(current - 1, current + 1) + [Gap, Num(total)];
    assert r == [Num(1), Gap, Num(current - 1), Num(current), Num(current + 1), Gap, Num(total)];
  }

  /** In a `Window` the page numbers strictly increase from left to right. */
  lemma {:induction false} WindowAscends(r: seq<Entry>, total: int, i: int, j: int)
    requires Window(r, total)
    requires 0 <= i < j < |r| && r[i].Num? && r[j].Num?
    ensures r[i].n < r[j].n
    decreases j - i
  {
    if r[i + 1].Num? {
      if i + 1 < j {
        WindowAscends(r, total, i + 1, j);
      }
    } else {
      assert r[i + 2].n > r[i].n + 1;
      if i + 2 < j {
        WindowAscends(r, total, i + 2, j);
      }
    }
  }

  /** Every number in the button row is a real page, and they are strictly increasing. */
  lemma PageWindowOrdered(current: int, total: int)
    ensures var r := PageWindow(current, total);
      && (forall i, j :: 0 <= i < j < |r| && r[i].Num? && r[j].Num? ==> r[i].n < r[j].n)
      && (forall i :: 0 <= i < |r| && r[i].Num? ==> 1 <= r[i].n <= total)
  {
    var r := PageWindow(current, total);
    if total > 5 {
      forall i, j | 0 <= i < j < |r| && r[i].Num? && r[j].Num?
        ensures r[i].n < r[j].n
      {
        WindowAscends(r, total, i, j);
      }
      forall i | 0 <= i < |r| && r[i].Num?
        ensures 1 <= r[i].n <= total
      {
        if i > 0 { WindowAscends(r, total, 0, i); }
        if i < |r| - 1 { WindowAscends(r, total, i, |r| - 1); }
      }
    }
  }
}
