/**
 * The paginated playlist view: page count, the slice shown on a page, how the
 * entries on it are numbered, and the state of the view's buttons and page picker.
 */
module Paging {
  import opened Wrappers

  /** `PLAYLIST_PAGESIZE`. */
  const PageSize: nat := 20

  /** A select menu offers at most 25 pages. */
  const MaxPageOptions: nat := 25

  function Min(a: int, b: int): int { if a < b then a else b }

  /**
   * `len // PLAYLIST_PAGESIZE + 1`: enough pages to hold every entry, with one
   * extra, empty, last page when the length is a multiple of the page size.
   */
  function PageCount(n: nat): (pages: nat)
    ensures pages >= 1
    ensures (pages - 1) * PageSize <= n < pages * PageSize
  {
    n / PageSize + 1
  }

  /** `q[page*20 : page*20+20]`, with Python's slicing past the end giving an empty list. */
  function PageSlice<T>(q: seq<T>, page: nat): (r: seq<T>)
    ensures |r| == if page * PageSize >= |q| then 0 else Min(PageSize, |q| - page * PageSize)
    ensures forall i :: 0 <= i < |r| ==> r[i] == q[page * PageSize + i]
  {
    var lo := page * PageSize;
    if lo >= |q| then [] else q[lo..Min(lo + PageSize, |q|)]
  }

  /** Every entry is on exactly one page: entry `k` is item `k % 20` of page `k / 20`, which exists. */
  lemma PageSliceCovers<T>(q: seq<T>, k: nat)
    requires k < |q|
    ensures k / PageSize < PageCount(|q|)
    ensures k % PageSize < |PageSlice(q, k / PageSize)|
    ensures PageSlice(q, k / PageSize)[k % PageSize] == q[k]
  {
  }

  /** The last page is empty exactly when the length is a multiple of the page size. */
  lemma LastPageEmpty<T>(q: seq<T>)
    ensures PageSlice(q, PageCount(|q|) - 1) == [] <==> |q| % PageSize == 0
  {
  }

  /** A page index left over from a longer queue is not clamped: it shows nothing. */
  lemma StalePageEmpty<T>(q: seq<T>, page: nat)
    requires page >= PageCount(|q|)
    ensures PageSlice(q, page) == []
  {
  }

  /** What one listing message shows: the entries, the number beside the first one, and `Page: page/pages`. */
  datatype Listing<T> = Listing(first: int, entries: seq<T>, page: nat, pages: nat)

  /** The number beside each entry is its 1-based position, the index `remove`/`promote`/`demote`/`playnow` take. */
  ghost predicate NumberedFromOne<T>(l: Listing<T>, q: seq<T>)
  {
    forall i :: 0 <= i < |l.entries| ==> 1 <= l.first + i <= |q| && l.entries[i] == q[l.first + i - 1]
  }

  /** The listing the page picker and the three buttons show for page `page`. */
  function PageListing<T>(q: seq<T>, page: nat): (l: Listing<T>)
    ensures NumberedFromOne(l, q)
    ensures l.first == page * PageSize + 1
    ensures l.page == page + 1 && l.pages == PageCount(|q|)
    ensures l.entries == PageSlice(q, page)
  {
    Listing(page * PageSize + 1, PageSlice(q, page), page + 1, PageCount(|q|))
  }

  /** 45 entries make 3 pages, and the second page shows entries 21 to 40. */
  lemma PagingExample<T>(q: seq<T>)
    requires |q| == 45
    ensures PageCount(|q|) == 3
    ensures PageListing(q, 1).first == 21 && |PageListing(q, 1).entries| == 20
    ensures PageListing(q, 1).entries == q[20..40]
  {
  }

  /** The first page the `queue` command shows, as written: its entries are numbered from 0. */
  function QueueListing<T>(q: seq<T>): (l: Listing<T>)
    ensures l.page == 1 && l.pages == PageCount(|q|)
    ensures l.first == 0 && |l.entries| == Min(|q|, PageSize)
    ensures forall i :: 0 <= i < |l.entries| ==> l.entries[i] == q[l.first + i]
  {
    Listing(0, q[..Min(|q|, PageSize)], 1, PageCount(|q|))
  }

  /** As written, the `queue` command shows `1.` beside the second entry, while index 1 names the first. */
  lemma QueueListingOffByOne<T>(a: T, b: T)
    requires a != b
    ensures var l := QueueListing([a, b]);
            l.first + 1 == 1 && l.entries[1] == b && [a, b][1 - 1] == a
    ensures !NumberedFromOne(QueueListing([a, b]), [a, b])
  {
  }

  /** The `queue` command's first page as evidently intended: numbered like every other page. */
  function QueueListingFixed<T>(q: seq<T>): (l: Listing<T>)
    ensures NumberedFromOne(l, q)
    ensures l.first == 1 && l.entries == PageSlice(q, 0)
    ensures l.page == 1 && l.pages == PageCount(|q|)
    ensures |l.entries| == Min(|q|, PageSize)
  {
    Listing(1, q[..Min(|q|, PageSize)], 1, PageCount(|q|))
  }

  /** The corrected first page is the page that refreshing page 0 of the view shows. */
  lemma QueueListingFixedIsFirstPage<T>(q: seq<T>)
    ensures QueueListingFixed(q) == PageListing(q, 0)
  {
  }

  /** `update_options`: one option per page, labelled 1, 2, …, at most 25 of them. */
  function OptionLabels(pages: nat): (labels: seq<nat>)
    ensures |labels| == Min(pages, MaxPageOptions)
    ensures forall i :: 0 <= i < |labels| ==> labels[i] == i + 1
  {
    seq(Min(pages, MaxPageOptions), i => i + 1)
  }

  /** `listView`: the page shown, the enabled state of the previous and next buttons, and the page picker's options. */
  class ListView {
    var page: int
    var prevDisabled: bool
    var nextDisabled: bool
    var options: seq<nat>

    /** Pages are never negative because previous is disabled exactly on page 0; every option names a page from 1. */
    ghost predicate Valid()
      reads this
    {
      && page >= 0
      && (prevDisabled <==> page == 0)
      && (forall o :: o in options ==> o >= 1)
    }

    /** A new view starts on page 0 with previous disabled; next is left enabled, even when there is one page. */
    constructor (pages: nat)
      ensures Valid()
      ensures page == 0 && prevDisabled && !nextDisabled
      ensures options == OptionLabels(pages)
    {
      page := 0;
      prevDisabled := true;
      nextDisabled := false;
      options := OptionLabels(pages);
    }

    /** `updateItems`: previous is disabled on page 0, next on the last page, and the options are rebuilt. */
    method UpdateItems(pages: nat)
      requires page >= 0
      modifies this
      ensures page == old(page)
      ensures prevDisabled == (page == 0) && nextDisabled == (page == pages - 1)
      ensures options == OptionLabels(pages)
      ensures Valid()
    {
      prevDisabled := page == 0;
      nextDisabled := page == pages - 1;
      options := OptionLabels(pages);
    }

    /**
     * The page picker's callback. `q` is the guild's queue, or None when the
     * guild has none, in which case the lookup fails before anything changes.
     */
    method Select<T>(value: nat, q: Option<seq<T>>) returns (shown: Option<Listing<T>>)
      requires Valid() && value in options
      modifies this
      ensures Valid()
      ensures q == None ==> shown == None && unchanged(this)
      ensures q.Some? ==> page == value - 1 && shown == Some(PageListing(q.value, value - 1))
      ensures q.Some? ==> nextDisabled == (page == PageCount(|q.value|) - 1) && options == OptionLabels(PageCount(|q.value|))
    {
      if q == None {
        return None;
      }
      var pages := PageCount(|q.value|);
      page := value - 1;
      UpdateItems(pages);
      shown := Some(PageListing(q.value, value - 1));
    }

    /** The previous button's callback: one page back; it can only be pressed while enabled. */
    method Prev<T>(q: Option<seq<T>>) returns (shown: Option<Listing<T>>)
      requires Valid() && !prevDisabled
      modifies this
      ensures Valid()
      ensures q == None ==> shown == None && unchanged(this)
      ensures q.Some? ==> page == old(page) - 1 && shown == Some(PageListing(q.value, old(page) - 1))
      ensures q.Some? ==> nextDisabled == (page == PageCount(|q.value|) - 1) && options == OptionLabels(PageCount(|q.value|))
    {
      if q == None {
        return None;
      }
      var pages := PageCount(|q.value|);
      page := page - 1;
      var p: nat := page;
      UpdateItems(pages);
      shown := Some(PageListing(q.value, p));
    }

    /** The next button's callback: one page on, with no clamp against a queue that has shrunk. */
    method Next<T>(q: Option<seq<T>>) returns (shown: Option<Listing<T>>)
      requires Valid() && !nextDisabled
      modifies this
      ensures Valid()
      ensures q == None ==> shown == None && unchanged(this)
      ensures q.Some? ==> page == old(page) + 1 && shown == Some(PageListing(q.value, old(page) + 1))
      ensures q.Some? ==> nextDisabled == (page == PageCount(|q.value|) - 1) && options == OptionLabels(PageCount(|q.value|))
    {
      if q == None {
        return None;
      }
      var pages := PageCount(|q.value|);
      page := page + 1;
      var p: nat := page;
      UpdateItems(pages);
      shown := Some(PageListing(q.value, p));
    }

    /** The refresh button's callback: the same page, recomputed from the current queue. */
    method Refresh<T>(q: Option<seq<T>>) returns (shown: Option<Listing<T>>)
      requires Valid()
      modifies this
      ensures Valid()
      ensures q == None ==> shown == None && unchanged(this)
      ensures q.Some? ==> page == old(page) && shown == Some(PageListing(q.value, old(page)))
      ensures q.Some? ==> nextDisabled == (page == PageCount(|q.value|) - 1) && options == OptionLabels(PageCount(|q.value|))
    {
      if q == None {
        return None;
      }
      var pages := PageCount(|q.value|);
      var p: nat := page;
      UpdateItems(pages);
      shown := Some(PageListing(q.value, p));
    }
  }
}
