/** The earlier pagination bar: the same page window, but page links that carry only the page number,
    and a "showing items X to Y of N" line computed from eight items per page. */
module LegacyPagination {
  import opened Wrappers
  import opened Strings
  import opened UrlParams
  import opened Pagination

  /** `itemsPerPage`. */
  const ITEMS_PER_PAGE: int := 8

  /** `createPageUrl`: a URL holding the page number and nothing else. */
  function CreateLegacyPageUrl(page: int): string
  {
    "/spots?page=" + IntToString(page)
  }

  /** A legacy page link reads back as the page parameter alone: every other query parameter of the
      current URL is dropped. */
  lemma LegacyPageUrlReadsBack(page: int)
    ensures ReadSpotsUrl(CreateLegacyPageUrl(page)) == Some([("page", IntToString(page))])
    ensures ParseDecimal(IntToString(page)) == Some(page)
    ensures forall other :: other != "page" ==> Get(ReadSpotsUrl(CreateLegacyPageUrl(page)).value, other).None?
  {
    var p := [("page", IntToString(page))];
    IntToStringWritable(page);
    assert Serialize(p) == "page=" + IntToString(page);
    assert CreateLegacyPageUrl(page) == "/spots?" + Serialize(p);
    QueryUrlReadsBack(p);
    IntToStringRoundTrip(page);
  }

  /** `startItem` and `endItem`: the positions, counted from 1, of the first and last item shown. */
  function ItemRange(cur: int, totalCount: int): (r: (int, int))
    ensures r.1 <= totalCount
    ensures r.1 - r.0 < ITEMS_PER_PAGE
  {
    var startItem := (cur - 1) * ITEMS_PER_PAGE + 1;
    var endItem := if cur * ITEMS_PER_PAGE < totalCount then cur * ITEMS_PER_PAGE else totalCount;
    (startItem, endItem)
  }

  /** A page that has items shows between one and eight of them, the rest of the collection when
      fewer than eight remain; a page past the end shows an empty range. */
  lemma ItemRangeCount(cur: int, totalCount: int)
    requires cur >= 1
    ensures var (s, e) := ItemRange(cur, totalCount);
            s >= 1 && (s <= e <==> (cur - 1) * ITEMS_PER_PAGE < totalCount)
    ensures var (s, e) := ItemRange(cur, totalCount);
            s <= e ==> e - s + 1 == (if totalCount - (cur - 1) * ITEMS_PER_PAGE < ITEMS_PER_PAGE
                                     then totalCount - (cur - 1) * ITEMS_PER_PAGE else ITEMS_PER_PAGE)
  {
  }

  /** Consecutive full pages tile the collection: the next page starts right after this one ends. */
  lemma ItemRangesTile(cur: int, totalCount: int)
    requires cur * ITEMS_PER_PAGE <= totalCount
    ensures ItemRange(cur + 1, totalCount).0 == ItemRange(cur, totalCount).1 + 1
  {
  }

  /** What the earlier bar shows: the item line, the previous link, the entries and the next link. */
  datatype LegacyView = LegacyView(startItem: int, endItem: int, totalCount: int,
                                   previous: Option<string>, entries: seq<Entry>, next: Option<string>)

  function LegacyEntryOf(cur: int, item: PageItem): Entry
  {
    match item
    case Page(n) => PageLink(n, CreateLegacyPageUrl(n), n == cur)
    case Ellipsis => EllipsisEntry
  }

  /** The component: nothing when there is at most one page; otherwise the item line, the previous and
      next links to the pages around the current one, and the page window of `VisiblePages`. */
  function LegacyRender(cur: int, total: int, totalCount: int, hasNextPage: bool, hasPreviousPage: bool)
    : (r: Option<LegacyView>)
    ensures r.None? <==> total <= 1
  {
    if total <= 1 then None
    else
      var pages := VisiblePages(cur, total);
      var (startItem, endItem) := ItemRange(cur, totalCount);
      Some(LegacyView(
        startItem, endItem, totalCount,
        if hasPreviousPage then Some(CreateLegacyPageUrl(cur - 1)) else None,
        seq(|pages|, i requires 0 <= i < |pages| => LegacyEntryOf(cur, pages[i])),
        if hasNextPage then Some(CreateLegacyPageUrl(cur + 1)) else None))
  }

  /** The earlier bar lists the same pages, in the same places, as the later one; only the link URLs
      differ. */
  lemma SameWindowAsLater(params: Params, cur: int, total: int, totalCount: int, hasNextPage: bool,
                          hasPreviousPage: bool)
    requires total > 1
    ensures var older := LegacyRender(cur, total, totalCount, hasNextPage, hasPreviousPage).value.entries;
            var newer := Render(params, cur, total, hasNextPage, hasPreviousPage).value.entries;
            |older| == |newer| &&
            forall i :: 0 <= i < |older| ==>
              older[i].PageLink? == newer[i].PageLink? &&
              (older[i].PageLink? ==> older[i].page == newer[i].page && older[i].isActive == newer[i].isActive)
  {
  }

  /** The previous and next links, when shown, carry the pages before and after the current one. */
  lemma LegacyPreviousNext(cur: int, total: int, totalCount: int, hasNextPage: bool, hasPreviousPage: bool)
    requires total > 1
    ensures var v := LegacyRender(cur, total, totalCount, hasNextPage, hasPreviousPage).value;
            (v.previous.Some? <==> hasPreviousPage) && (v.next.Some? <==> hasNextPage) &&
            (v.previous.Some? ==> ReadSpotsUrl(v.previous.value) == Some([("page", IntToString(cur - 1))])) &&
            (v.next.Some? ==> ReadSpotsUrl(v.next.value) == Some([("page", IntToString(cur + 1))]))
  {
    LegacyPageUrlReadsBack(cur - 1);
    LegacyPageUrlReadsBack(cur + 1);
  }
}
