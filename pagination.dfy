/** The pager and the "showing X to Y" entry range that both table
    components render with the same expressions: a sliding window of at most
    five numbered page buttons, previous/next buttons disabled at the ends,
    and the first and last entry numbers of the current page. */
module Pagination {
  import opened Common

  /** `Math.max(1, currentPage - 2)`: the first page the window offers. */
  function WindowStart(currentPage: int): (start: int)
    ensures 1 <= start && currentPage - 2 <= start
    ensures start == 1 || start == currentPage - 2
  {
    if currentPage - 2 > 1 then currentPage - 2 else 1
  }

  /** The length of `Array.from({ length: Math.min(5, totalPages) })`; a
      length below zero gives an empty array. */
  function SlotCount(totalPages: int): (n: nat)
    ensures n <= 5
    ensures totalPages >= 5 ==> n == 5
    ensures totalPages <= 5 ==> n == if totalPages < 0 then 0 else totalPages
  {
    if totalPages <= 0 then 0 else if totalPages < 5 then totalPages else 5
  }

  /** Page `start + i` for each slot `i`, before pages past the end are dropped. */
  function Candidates(start: int, n: nat): seq<int>
  {
    seq(n, i => start + i)
  }

  /** The map callback returns null for a page above `totalPages`, and React
      renders nothing for null: those pages are dropped, the others kept in order. */
  function DropAbove(pages: seq<int>, totalPages: int): seq<int>
  {
    if pages == [] then []
    else (if pages[0] > totalPages then [] else [pages[0]]) + DropAbove(pages[1..], totalPages)
  }

  /** The numbers on the numbered pager buttons, in display order. */
  function PageWindow(currentPage: int, totalPages: int): seq<int>
  {
    DropAbove(Candidates(WindowStart(currentPage), SlotCount(totalPages)), totalPages)
  }

  /** Reference definition: the pages `lo, lo + 1, ..., hi`, empty when `hi < lo`. */
  function Range(lo: int, hi: int): (r: seq<int>)
    ensures |r| == if hi < lo then 0 else hi - lo + 1
    ensures forall i :: 0 <= i < |r| ==> r[i] == lo + i
  {
    seq(if hi < lo then 0 else hi - lo + 1, i => lo + i)
  }

  /** Dropping the pages above `totalPages` from consecutive candidates keeps
      a prefix of them: as many as there are between `start` and `totalPages`. */
  lemma {:induction false} DropAboveCandidates(start: int, n: nat, totalPages: int)
    ensures DropAbove(Candidates(start, n), totalPages)
         == Range(start, if start + n - 1 <= totalPages then start + n - 1 else totalPages)
    decreases n
  {
    var c := Candidates(start, n);
    if n > 0 {
      assert c[0] == start;
      assert c[1..] == Candidates(start + 1, n - 1);
      DropAboveCandidates(start + 1, n - 1, totalPages);
      var hi := if start + n - 1 <= totalPages then start + n - 1 else totalPages;
      if start > totalPages {
        assert Range(start + 1, hi) == [] == Range(start, hi);
      } else {
        assert [start] + Range(start + 1, hi) == Range(start, hi);
      }
    }
  }

  /** The window is the run of pages from `max(1, currentPage - 2)` of at most
      `min(5, totalPages)` pages, cut at `totalPages`: it is not shifted back
      to five pages near the end. */
  lemma PageWindowIsRange(currentPage: int, totalPages: int)
    ensures PageWindow(currentPage, totalPages)
         == Range(WindowStart(currentPage),
                  Min(WindowStart(currentPage) + SlotCount(totalPages) - 1, totalPages))
  {
    DropAboveCandidates(WindowStart(currentPage), SlotCount(totalPages), totalPages);
  }

  function Min(a: int, b: int): int
  {
    if a <= b then a else b
  }

  /** At most five buttons, consecutive pages, every page within
      `[1, totalPages]`, starting at `max(1, currentPage - 2)`, and the current
      page offered whenever it is itself a page of the table. */
  lemma PageWindowShape(currentPage: int, totalPages: int)
    ensures var w := PageWindow(currentPage, totalPages);
      && |w| <= 5
      && (forall i :: 0 <= i < |w| ==> 1 <= w[i] <= totalPages)
      && (forall i :: 0 <= i < |w| - 1 ==> w[i + 1] == w[i] + 1)
      && (|w| > 0 ==> w[0] == WindowStart(currentPage))
      && (1 <= currentPage <= totalPages ==> currentPage in w)
  {
    PageWindowIsRange(currentPage, totalPages);
    var w := PageWindow(currentPage, totalPages);
    if 1 <= currentPage <= totalPages {
      var k := currentPage - WindowStart(currentPage);
      assert 0 <= k < |w| && w[k] == currentPage;
    }
  }

  /** A window around a middle page: two pages on each side. */
  lemma PageWindowMiddle()
    ensures PageWindow(5, 7) == [3, 4, 5, 6, 7]
  {
    PageWindowIsRange(5, 7);
    assert Range(3, 7) == [3, 4, 5, 6, 7];
  }

  /** On the last page the window is not shifted back: it only loses the
      pages past the end. */
  lemma PageWindowLastPage()
    ensures PageWindow(7, 7) == [5, 6, 7]
  {
    PageWindowIsRange(7, 7);
    assert Range(5, 7) == [5, 6, 7];
  }

  /** On the first page the window starts at 1. */
  lemma PageWindowFirstPage()
    ensures PageWindow(1, 7) == [1, 2, 3, 4, 5]
  {
    PageWindowIsRange(1, 7);
    assert Range(1, 5) == [1, 2, 3, 4, 5];
  }

  /** With fewer than five pages every page is shown. */
  lemma PageWindowFewPages()
    ensures PageWindow(2, 3) == [1, 2, 3]
  {
    PageWindowIsRange(2, 3);
    assert Range(1, 3) == [1, 2, 3];
  }

  /** A previous/next button: the page it passes to `onPageChange`, and its `disabled` flag. */
  datatype NavButton = NavButton(target: int, disabled: bool)

  /** A numbered button; `active` is the highlighted style of the current page. */
  datatype PageButton = PageButton(page: int, active: bool)

  /** The footer: "Halaman {currentPage} dari {totalPages}", then the buttons. */
  datatype PagerView = PagerView(
    currentPage: int,
    totalPages: int,
    previous: NavButton,
    pages: seq<PageButton>,
    next: NavButton)

  function PageButtons(pages: seq<int>, currentPage: int): seq<PageButton>
  {
    seq(|pages|, i requires 0 <= i < |pages| => PageButton(pages[i], pages[i] == currentPage))
  }

  /** The footer, rendered only when `totalPages > 1`. */
  function Pager(currentPage: int, totalPages: int): (p: Option<PagerView>)
    ensures p.Some? <==> totalPages > 1
  {
    if totalPages > 1 then
      Some(PagerView(
        currentPage,
        totalPages,
        NavButton(currentPage - 1, currentPage == 1),
        PageButtons(PageWindow(currentPage, totalPages), currentPage),
        NavButton(currentPage + 1, currentPage == totalPages)))
    else None
  }

  /** What a click on a previous/next button passes to `onPageChange`: nothing
      when the button is disabled. */
  function Click(b: NavButton): (page: Option<int>)
    ensures page.Some? <==> !b.disabled
    ensures page.Some? ==> page.value == b.target
  {
    if b.disabled then None else Some(b.target)
  }

  /** For a current page within the table, every click the footer can make
      asks for a page within `[1, totalPages]`: previous is clickable exactly
      when not on page 1 and asks for the page before, next exactly when not on
      the last page and asks for the page after, and exactly one numbered
      button, the current page's, is highlighted. */
  lemma PagerClicksInRange(currentPage: int, totalPages: int)
    requires 1 <= currentPage <= totalPages
    ensures var p := Pager(currentPage, totalPages);
      p.Some? ==>
        && (Click(p.value.previous).Some? <==> currentPage != 1)
        && (Click(p.value.previous).Some? ==>
              Click(p.value.previous).value == currentPage - 1 && 1 <= currentPage - 1)
        && (Click(p.value.next).Some? <==> currentPage != totalPages)
        && (Click(p.value.next).Some? ==>
              Click(p.value.next).value == currentPage + 1 && currentPage + 1 <= totalPages)
        && (forall i :: 0 <= i < |p.value.pages| ==> 1 <= p.value.pages[i].page <= totalPages)
        && (exists i :: 0 <= i < |p.value.pages| && p.value.pages[i].active)
        && (forall i, j :: 0 <= i < |p.value.pages| && 0 <= j < |p.value.pages|
              && p.value.pages[i].active && p.value.pages[j].active
              ==> i == j)
  {
    PageWindowShape(currentPage, totalPages);
    PageWindowIsRange(currentPage, totalPages);
    var p := Pager(currentPage, totalPages);
    if p.Some? {
      var w := PageWindow(currentPage, totalPages);
      var k := currentPage - WindowStart(currentPage);
      assert 0 <= k < |w| && w[k] == currentPage;
      assert p.value.pages[k].active;
    }
  }

  /** "Menampilkan {first} sampai {last}": the first and last entry numbers. */
  datatype EntryRange = EntryRange(first: int, last: int)

  /** `startEntry = (currentPage - 1) * entriesPerPage + 1` and
      `endEntry = Math.min(currentPage * entriesPerPage, total)`. */
  function Entries(currentPage: int, entriesPerPage: int, total: int): EntryRange
  {
    EntryRange((currentPage - 1) * entriesPerPage + 1, Min(currentPage * entriesPerPage, total))
  }

  /** The range never passes `total` and never spans more than one page; it is
      a full page when `total` reaches the end of the page, is non-empty
      exactly when `total` reaches past the previous pages, and on page 1 it
      starts at entry 1. */
  lemma EntriesBounds(currentPage: int, entriesPerPage: int, total: int)
    requires 1 <= currentPage && 1 <= entriesPerPage
    ensures var r := Entries(currentPage, entriesPerPage, total);
      && r.last <= total
      && 1 <= r.first
      && r.last - r.first + 1 <= entriesPerPage
      && (currentPage * entriesPerPage <= total ==> r.last - r.first + 1 == entriesPerPage)
      && (r.first <= r.last <==> (currentPage - 1) * entriesPerPage < total)
      && (currentPage == 1 ==> r.first == 1)
  {
    assert currentPage * entriesPerPage == (currentPage - 1) * entriesPerPage + entriesPerPage;
    assert 0 <= (currentPage - 1) * entriesPerPage;
  }
}
