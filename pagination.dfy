/** The pagination bar of the listing page: the window of page numbers with ellipses around the current
    page, the links that keep every other query parameter, and the previous/next links. */
module Pagination {
  import opened Wrappers
  import opened Strings
  import opened UrlParams

  /** One entry of the page list: a page number or an ellipsis. */
  datatype PageItem = Page(n: int) | Ellipsis

  /** How many pages are shown on each side of the current one. */
  const DELTA: int := 2

  /** `Math.max(2, currentPage - delta)`: the first page of the middle window. */
  function RangeStart(cur: int): (s: int)
    ensures s >= 2 && s >= cur - DELTA && (s == 2 || s == cur - DELTA)
  {
    if cur - DELTA > 2 then cur - DELTA else 2
  }

  /** `Math.min(totalPages - 1, currentPage + delta)`: the last page of the middle window. */
  function RangeEnd(cur: int, total: int): (e: int)
    ensures e <= total - 1 && e <= cur + DELTA && (e == total - 1 || e == cur + DELTA)
  {
    if cur + DELTA < total - 1 then cur + DELTA else total - 1
  }

  /** The pages `lo` to `hi`, in order; empty when `hi < lo`. */
  function Range(lo: int, hi: int): seq<PageItem>
    decreases hi - lo
  {
    if hi < lo then [] else Range(lo, hi - 1) + [Page(hi)]
  }

  /** `Range` holds each page from `lo` to `hi` once, in increasing order. */
  lemma {:induction false} RangeIndex(lo: int, hi: int)
    ensures |Range(lo, hi)| == if hi < lo then 0 else hi - lo + 1
    ensures forall k :: 0 <= k < |Range(lo, hi)| ==> Range(lo, hi)[k] == Page(lo + k)
    decreases hi - lo
  {
    if lo <= hi {
      RangeIndex(lo, hi - 1);
    }
  }

  /** The entries before the middle window: page 1, then an ellipsis when the window starts after 2. */
  function Head(cur: int): seq<PageItem>
  {
    [Page(1)] + (if RangeStart(cur) > 2 then [Ellipsis] else [])
  }

  /** The entries after the middle window: an ellipsis when it ends before the last page but one, then
      the last page when there is more than one. */
  function Tail(cur: int, total: int): seq<PageItem>
  {
    (if RangeEnd(cur, total) < total - 1 then [Ellipsis] else []) + (if total > 1 then [Page(total)] else [])
  }

  /** The page list `getVisiblePages` builds. */
  function VisiblePages(cur: int, total: int): seq<PageItem>
  {
    Head(cur) + Range(RangeStart(cur), RangeEnd(cur, total)) + Tail(cur, total)
  }

  /** `getVisiblePages`: push 1, a leading ellipsis, the window one page at a time, a trailing ellipsis
      and the last page. */
  method GetVisiblePages(cur: int, total: int) returns (pages: seq<PageItem>)
    ensures pages == VisiblePages(cur, total)
  {
    var rangeStart := RangeStart(cur);
    var rangeEnd := RangeEnd(cur, total);
    pages := [Page(1)];
    if rangeStart > 2 {
      pages := pages + [Ellipsis];
    }
    assert pages == Head(cur) + Range(rangeStart, rangeStart - 1);
    var i := rangeStart;
    while i <= rangeEnd
      invariant rangeStart <= i && (i <= rangeEnd + 1 || i == rangeStart)
      invariant pages == Head(cur) + Range(rangeStart, i - 1)
      decreases rangeEnd - i
    {
      pages := pages + [Page(i)];
      i := i + 1;
    }
    assert pages == Head(cur) + Range(rangeStart, rangeEnd);
    if rangeEnd < total - 1 {
      pages := pages + [Ellipsis];
    }
    if total > 1 {
      pages := pages + [Page(total)];
    }
  }

  /** The shape of the list once the bar is shown: at least two entries, page 1 first and the last page
      last, and at most nine entries in all, of which at most five form the middle window. */
  lemma VisiblePagesEnds(cur: int, total: int)
    requires total > 1
    ensures var pages := VisiblePages(cur, total);
            2 <= |pages| <= 9 && pages[0] == Page(1) && pages[|pages| - 1] == Page(total)
    ensures |Range(RangeStart(cur), RangeEnd(cur, total))| <= 5
  {
    RangeIndex(RangeStart(cur), RangeEnd(cur, total));
  }

  /** A page number is listed exactly when it is the first page, the last page, or in the window
      around the current page. */
  lemma VisiblePagesMembers(cur: int, total: int, n: int)
    requires total > 1
    ensures Page(n) in VisiblePages(cur, total) <==>
            n == 1 || n == total || RangeStart(cur) <= n <= RangeEnd(cur, total)
  {
    var rs, re := RangeStart(cur), RangeEnd(cur, total);
    RangeIndex(rs, re);
    if rs <= n <= re {
      assert Range(rs, re)[n - rs] == Page(n);
    }
  }

  /** The current page is always listed when it is one of the pages. */
  lemma CurrentPageVisible(cur: int, total: int)
    requires total > 1 && 1 <= cur <= total
    ensures Page(cur) in VisiblePages(cur, total)
  {
    VisiblePagesMembers(cur, total, cur);
  }

  /** Each entry of the list, located: the first is page 1, the window pages follow the head in order,
      and the last is the last page. */
  lemma VisiblePagesIndex(cur: int, total: int)
    requires total > 1
    ensures var pages, h := VisiblePages(cur, total), |Head(cur)|;
            forall k :: 0 <= k < |pages| && pages[k].Page? ==>
              (k == 0 && pages[k].n == 1) ||
              (k == |pages| - 1 && pages[k].n == total) ||
              (h <= k < |pages| - 1 && pages[k].n == RangeStart(cur) + k - h <= RangeEnd(cur, total))
  {
    var rs, re := RangeStart(cur), RangeEnd(cur, total);
    RangeIndex(rs, re);
    var pages, h, m := VisiblePages(cur, total), |Head(cur)|, Range(rs, re);
    forall k | 0 <= k < |pages| && pages[k].Page?
      ensures (k == 0 && pages[k].n == 1) ||
              (k == |pages| - 1 && pages[k].n == total) ||
              (h <= k < |pages| - 1 && pages[k].n == rs + k - h <= re)
    {
      if k < h {
        assert pages[k] == Head(cur)[k];
      } else if k < h + |m| {
        assert pages[k] == m[k - h];
      } else {
        assert pages[k] == Tail(cur, total)[k - h - |m|];
      }
    }
  }

  /** The page numbers in the list are strictly increasing and all lie between 1 and the last page. */
  lemma VisiblePagesIncreasing(cur: int, total: int)
    requires total > 1
    ensures var pages := VisiblePages(cur, total);
            forall i :: 0 <= i < |pages| && pages[i].Page? ==> 1 <= pages[i].n <= total
    ensures var pages := VisiblePages(cur, total);
            forall i, j :: 0 <= i < j < |pages| && pages[i].Page? && pages[j].Page? ==> pages[i].n < pages[j].n
  {
    VisiblePagesIndex(cur, total);
  }

  /** Ellipses: the list holds one exactly when the window starts after page 2 or ends before the last
      page but one. */
  lemma EllipsisIff(cur: int, total: int)
    ensures Ellipsis in VisiblePages(cur, total) <==> RangeStart(cur) > 2 || RangeEnd(cur, total) < total - 1
  {
    var rs, re := RangeStart(cur), RangeEnd(cur, total);
    RangeIndex(rs, re);
    if rs > 2 {
      assert VisiblePages(cur, total)[1] == Ellipsis;
    }
    if re < total - 1 {
      assert Tail(cur, total)[0] == Ellipsis;
    }
  }

  /** For a current page within bounds, the leading ellipsis is the second entry exactly when the window
      starts after page 2, the trailing one the last but one exactly when the window ends before the
      last page but one, and there are no other ellipses. */
  lemma EllipsisPlaces(cur: int, total: int)
    requires 1 <= cur <= total && total > 1
    ensures var pages := VisiblePages(cur, total);
            (pages[1] == Ellipsis <==> RangeStart(cur) > 2) &&
            (pages[|pages| - 2] == Ellipsis <==> RangeEnd(cur, total) < total - 1) &&
            forall i :: 0 <= i < |pages| && pages[i] == Ellipsis ==> i == 1 || i == |pages| - 2
  {
    var rs, re := RangeStart(cur), RangeEnd(cur, total);
    assert rs <= cur + 1 && cur - 1 <= re;
    VisiblePagesWindow(cur, total);
  }

  /** The entries between the head and the tail are the pages of the window. */
  lemma VisiblePagesWindow(cur: int, total: int)
    ensures var pages, h, rs := VisiblePages(cur, total), |Head(cur)|, RangeStart(cur);
            forall i :: h <= i < h + |Range(rs, RangeEnd(cur, total))| ==> pages[i] == Page(rs + i - h)
  {
    var rs, re := RangeStart(cur), RangeEnd(cur, total);
    RangeIndex(rs, re);
    var pages, h, m := VisiblePages(cur, total), |Head(cur)|, Range(rs, re);
    forall i | h <= i < h + |m| ensures pages[i] == Page(rs + i - h) {
      assert pages[i] == m[i - h];
    }
  }

  /** For a current page within bounds, every page from 1 to the last is either listed or stands behind
      an ellipsis: neighbouring page entries are consecutive numbers. */
  lemma NoPageLost(cur: int, total: int)
    requires 1 <= cur <= total && total > 1
    ensures var pages := VisiblePages(cur, total);
            forall i :: 0 <= i < |pages| - 1 && pages[i].Page? && pages[i + 1].Page? ==>
              pages[i + 1].n == pages[i].n + 1
  {
    var rs, re := RangeStart(cur), RangeEnd(cur, total);
    VisiblePagesWindow(cur, total);
    RangeIndex(rs, re);
    assert rs <= cur + 1 && cur - 1 <= re;
  }

  /** An ellipsis stands between two page entries and hides at least one page. */
  lemma EllipsisHidesPages(cur: int, total: int)
    requires 1 <= cur <= total && total > 1
    ensures var pages := VisiblePages(cur, total);
            forall i :: 0 <= i < |pages| && pages[i] == Ellipsis ==>
              0 < i < |pages| - 1 && pages[i - 1].Page? && pages[i + 1].Page? &&
              pages[i + 1].n >= pages[i - 1].n + 2
  {
    var rs, re := RangeStart(cur), RangeEnd(cur, total);
    VisiblePagesWindow(cur, total);
    RangeIndex(rs, re);
    assert rs <= cur + 1 && cur - 1 <= re;
  }

  /** `createPageUrl`: the current query parameters, copied, with `page` set to the given number. */
  function CreatePageUrl(params: Params, page: int): string
  {
    "/spots?" + Serialize(Set(params, "page", IntToString(page)))
  }

  lemma IntToStringWritable(n: int)
    ensures '&' !in IntToString(n)
  {
    var s := IntToString(n);
    if n < 0 {
      assert s == "-" + NatToString(-n);
      assert forall i :: 1 <= i < |s| ==> s[i] == NatToString(-n)[i - 1];
    }
  }

  /** A page link keeps every other query parameter and carries the page number, which reads back as
      that number. */
  lemma CreatePageUrlReadsBack(params: Params, page: int)
    requires AllWritable(params)
    ensures ReadSpotsUrl(CreatePageUrl(params, page)) == Some(Set(params, "page", IntToString(page)))
    ensures Get(ReadSpotsUrl(CreatePageUrl(params, page)).value, "page") == Some(IntToString(page))
    ensures ParseDecimal(IntToString(page)) == Some(page)
    ensures forall other :: other != "page" ==>
              Get(ReadSpotsUrl(CreatePageUrl(params, page)).value, other) == Get(params, other)
  {
    var q := Set(params, "page", IntToString(page));
    IntToStringWritable(page);
    SetWritable(params, "page", IntToString(page));
    QueryUrlReadsBack(q);
    GetSet(params, "page", IntToString(page));
    IntToStringRoundTrip(page);
    forall other | other != "page"
      ensures Get(q, other) == Get(params, other)
    {
      GetSetOther(params, "page", IntToString(page), other);
    }
  }

  /** One rendered entry: a page link, with its URL and whether it is the current page, or an ellipsis. */
  datatype Entry = PageLink(page: int, href: string, isActive: bool) | EllipsisEntry

  /** What the bar shows: the previous link (absent when disabled), the entries and the next link. */
  datatype View = View(previous: Option<string>, entries: seq<Entry>, next: Option<string>)

  function EntryOf(params: Params, cur: int, item: PageItem): Entry
  {
    match item
    case Page(n) => PageLink(n, CreatePageUrl(params, n), n == cur)
    case Ellipsis => EllipsisEntry
  }

  /** The component: nothing when there are at most one page; otherwise the previous and next links
      (to the pages before and after the current one, enabled as the flags say) around the page list. */
  function Render(params: Params, cur: int, total: int, hasNextPage: bool, hasPreviousPage: bool)
    : (r: Option<View>)
    ensures r.None? <==> total <= 1
    ensures r.Some? ==> |r.value.entries| == |VisiblePages(cur, total)|
  {
    if total <= 1 then None
    else
      var pages := VisiblePages(cur, total);
      Some(View(
        if hasPreviousPage then Some(CreatePageUrl(params, cur - 1)) else None,
        seq(|pages|, i requires 0 <= i < |pages| => EntryOf(params, cur, pages[i])),
        if hasNextPage then Some(CreatePageUrl(params, cur + 1)) else None))
  }

  /** Exactly one entry is marked active when the current page is one of the pages, and it links to
      the current page. */
  lemma OneActiveEntry(params: Params, cur: int, total: int, hasNextPage: bool, hasPreviousPage: bool)
    requires 1 <= cur <= total && total > 1
    ensures var es := Render(params, cur, total, hasNextPage, hasPreviousPage).value.entries;
            (exists i :: 0 <= i < |es| && es[i].PageLink? && es[i].isActive) &&
            forall i :: 0 <= i < |es| && es[i].PageLink? && es[i].isActive ==>
              es[i].page == cur && es[i].href == CreatePageUrl(params, cur) &&
              forall j :: 0 <= j < |es| && j != i && es[j].PageLink? ==> !es[j].isActive
  {
    var pages := VisiblePages(cur, total);
    var es := Render(params, cur, total, hasNextPage, hasPreviousPage).value.entries;
    CurrentPageVisible(cur, total);
    VisiblePagesIncreasing(cur, total);
    var k :| 0 <= k < |pages| && pages[k] == Page(cur);
    assert es[k] == EntryOf(params, cur, pages[k]);
    forall i, j | 0 <= i < |es| && 0 <= j < |es| && i != j && es[i].PageLink? && es[i].isActive && es[j].PageLink?
      ensures !es[j].isActive
    {
      assert es[i] == EntryOf(params, cur, pages[i]) && es[j] == EntryOf(params, cur, pages[j]);
    }
  }

  /** The previous and next links, when shown, point to the pages before and after the current one and
      keep every other query parameter. */
  lemma PreviousNextLinks(params: Params, cur: int, total: int, hasNextPage: bool, hasPreviousPage: bool)
    requires total > 1
    ensures var v := Render(params, cur, total, hasNextPage, hasPreviousPage).value;
            (v.previous.Some? <==> hasPreviousPage) && (v.next.Some? <==> hasNextPage) &&
            (v.previous.Some? ==> v.previous.value == CreatePageUrl(params, cur - 1)) &&
            (v.next.Some? ==> v.next.value == CreatePageUrl(params, cur + 1))
  {
  }
}
