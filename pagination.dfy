/**
 * The page bar of the review page: nothing for a single page; otherwise
 * Previous, the first page, the last page and the pages next to the current
 * one, in increasing order with an ellipsis before every page that does not
 * follow its predecessor, then Next.
 */
module Pagination {
  import opened Wrappers
  import opened Lists

  /** The filter of the page list: the first, the last and the neighbours of the current page. */
  predicate Shown(page: int, current: int, totalPages: int)
  {
    page == 1 || page == totalPages || -1 <= page - current <= 1
  }

  /** `Array.from({ length: totalPages }, (_, i) => i + 1)`. */
  function PageNumbers(totalPages: nat): (pages: seq<int>)
    ensures |pages| == totalPages && forall i :: 0 <= i < totalPages ==> pages[i] == i + 1
  {
    seq(totalPages, i requires 0 <= i < totalPages => i + 1)
  }

  /** The pages that get a button. */
  function VisiblePages(current: int, totalPages: nat): (pages: seq<int>)
  {
    Filter(PageNumbers(totalPages), p => Shown(p, current, totalPages))
  }

  predicate Increasing(s: seq<int>)
  {
    forall i, j :: 0 <= i < j < |s| ==> s[i] < s[j]
  }

  /** Filtering keeps an increasing list increasing. */
  lemma {:induction false} FilterIncreasing(s: seq<int>, p: int -> bool)
    requires Increasing(s)
    ensures Increasing(Filter(s, p))
  {
    if s != [] {
      FilterIncreasing(s[1..], p);
      var rest := Filter(s[1..], p);
      forall k | 0 <= k < |rest|
        ensures s[0] < rest[k]
      {
        assert rest[k] in s[1..];
      }
    }
  }

  /**
   * The shown pages are exactly the pages from 1 to `totalPages` that are
   * the first, the last or next to the current one, in increasing order.
   */
  lemma VisiblePagesExactly(current: int, totalPages: nat)
    ensures Increasing(VisiblePages(current, totalPages))
    ensures forall p :: p in VisiblePages(current, totalPages) <==> 1 <= p <= totalPages && Shown(p, current, totalPages)
    ensures var pages := VisiblePages(current, totalPages);
      forall i :: 0 <= i < |pages| ==> 1 <= pages[i] <= totalPages && Shown(pages[i], current, totalPages)
  {
    var numbers := PageNumbers(totalPages);
    var pages := VisiblePages(current, totalPages);
    FilterIncreasing(numbers, p => Shown(p, current, totalPages));
    forall p | 1 <= p <= totalPages
      ensures p in numbers
    {
      assert numbers[p - 1] == p;
    }
    forall i | 0 <= i < |pages|
      ensures 1 <= pages[i] <= totalPages && Shown(pages[i], current, totalPages)
    {
      assert pages[i] in pages;
    }
  }

  /** Increasing integers at positions `j - i` apart are at least `j - i` apart. */
  lemma {:induction false} IncreasingSpread(s: seq<int>, i: nat, j: nat)
    requires Increasing(s) && i <= j < |s|
    ensures s[j] - s[i] >= j - i
  {
    if i < j {
      IncreasingSpread(s, i, j - 1);
      assert s[j - 1] < s[j];
    }
  }

  /**
   * The list holds the first and the last page, the current page when it
   * is one of them, and never more than five pages.
   */
  lemma VisiblePagesBounds(current: int, totalPages: nat)
    requires totalPages >= 1
    ensures 1 in VisiblePages(current, totalPages) && totalPages in VisiblePages(current, totalPages)
    ensures 1 <= current <= totalPages ==> current in VisiblePages(current, totalPages)
    ensures |VisiblePages(current, totalPages)| <= 5
  {
    var pages := VisiblePages(current, totalPages);
    VisiblePagesExactly(current, totalPages);
    if |pages| >= 4 {
      IncreasingSpread(pages, 1, |pages| - 2);
      assert pages[0] < pages[1] && pages[|pages| - 2] < pages[|pages| - 1];
    }
  }

  /** One page of the bar: its button, and whether an ellipsis stands before it. */
  datatype Slot = Slot(page: int, ellipsisBefore: bool, active: bool)

  /** Previous or Next: the page it asks for, and whether it is disabled. */
  datatype Button = Button(target: int, disabled: bool)

  datatype Bar = Bar(previous: Button, slots: seq<Slot>, next: Button)

  /**
   * The rendered bar: `None` for at most one page. Page `i` of the list gets
   * an ellipsis when it exceeds the page before it by more than one, and is
   * highlighted when it is the current page.
   */
  function Render(current: int, totalPages: int): (bar: Option<Bar>)
    ensures bar.None? <==> totalPages <= 1
    ensures bar.Some? ==>
      && bar.value.previous == Button(current - 1, current == 1)
      && bar.value.next == Button(current + 1, current == totalPages)
  {
    if totalPages <= 1 then None
    else
      var pages := VisiblePages(current, totalPages);
      var slots := seq(|pages|, i requires 0 <= i < |pages| =>
        Slot(pages[i], i > 0 && pages[i] > pages[i - 1] + 1, pages[i] == current));
      Some(Bar(Button(current - 1, current == 1), slots, Button(current + 1, current == totalPages)))
  }

  /**
   * The slots are the shown pages in order, each asking for its own page,
   * highlighted exactly when current.
   */
  lemma RenderSlots(current: int, totalPages: int)
    requires totalPages > 1
    ensures var slots := Render(current, totalPages).value.slots;
      var pages := VisiblePages(current, totalPages);
      && |slots| == |pages|
      && (forall i :: 0 <= i < |slots| ==> slots[i].page == pages[i] && (slots[i].active <==> pages[i] == current))
      && (forall i :: 0 <= i < |slots| ==> (slots[i].ellipsisBefore <==> i > 0 && pages[i] > pages[i - 1] + 1))
  {
  }

  /**
   * An ellipsis stands only before the page just below the current one or
   * before the last page, so there are at most two.
   */
  lemma EllipsisPlacement(current: int, totalPages: int, i: nat)
    requires totalPages > 1
    requires i < |Render(current, totalPages).value.slots| && Render(current, totalPages).value.slots[i].ellipsisBefore
    ensures var page := Render(current, totalPages).value.slots[i].page;
      page == current - 1 || page == totalPages
  {
    var pages := VisiblePages(current, totalPages);
    VisiblePagesExactly(current, totalPages);
    var q := pages[i] - 1;
    forall k | 0 <= k < |pages|
      ensures pages[k] != q
    {
      if k < i - 1 {
        assert pages[k] < pages[i - 1];
      } else if k > i {
        assert pages[i] < pages[k];
      }
    }
    RenderSlots(current, totalPages);
    assert i > 0 && pages[i] > pages[i - 1] + 1;
    assert 1 <= pages[i - 1] && pages[i] <= totalPages && Shown(pages[i], current, totalPages);
    assert !Shown(q, current, totalPages);
  }

  /**
   * Of two pages with an ellipsis, the first is just below the current page
   * and the second is the last page, at the end of the bar: there is never a
   * third.
   */
  lemma AtMostTwoEllipses(current: int, totalPages: int, i: nat, j: nat)
    requires totalPages > 1
    requires var slots := Render(current, totalPages).value.slots;
      i < j < |slots| && slots[i].ellipsisBefore && slots[j].ellipsisBefore
    ensures var slots := Render(current, totalPages).value.slots;
      && slots[i].page == current - 1
      && slots[j].page == totalPages
      && j == |slots| - 1
  {
    var pages := VisiblePages(current, totalPages);
    VisiblePagesExactly(current, totalPages);
    EllipsisPlacement(current, totalPages, i);
    EllipsisPlacement(current, totalPages, j);
    assert pages[i] < pages[j];
    assert pages[j] <= pages[|pages| - 1] <= totalPages;
  }
}
