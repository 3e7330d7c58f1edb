/** The page-number strip under the outbound and products tables: which page
    numbers and ellipsis markers are shown for the current page, and when the
    Previous and Next controls act. */
module Pagination {
  import opened Common

  /** One slot of the strip: a page number or an ellipsis marker. */
  datatype Entry = Num(n: int) | Ellipsis

  function Max(a: int, b: int): int { if a >= b then a else b }

  function Min(a: int, b: int): int { if a <= b then a else b }

  /** Page 1, followed by an ellipsis when pages are skipped after it. */
  function Leading(page: int): seq<Entry>
  {
    if page > 3 then (if page > 4 then [Num(1), Ellipsis] else [Num(1)]) else []
  }

  /** The consecutive page numbers lo, lo+1, ..., hi (none when hi < lo). */
  function Run(lo: int, hi: int): seq<Entry>
    decreases hi - lo
  {
    if hi < lo then [] else Run(lo, hi - 1) + [Num(hi)]
  }

  /** The last page, preceded by an ellipsis when pages are skipped before it. */
  function Trailing(page: int, totalPages: int): seq<Entry>
  {
    if page < totalPages - 2 then
      (if page < totalPages - 3 then [Ellipsis, Num(totalPages)] else [Num(totalPages)])
    else []
  }

  /** The first and last pages of the neighbourhood shown around `page`. */
  function Low(page: int): int { Max(1, page - 1) }

  function High(page: int, totalPages: int): int { Min(totalPages, page + 1) }

  /** The strip the tables show for `page` out of `totalPages`: page 1 opens
      it once the current page is past 3, followed by an ellipsis past 4; the
      last page closes it while the current page is more than 2 before it,
      preceded by an ellipsis when more than 3 before it. */
  function Window(page: int, totalPages: int): (r: seq<Entry>)
    ensures page > 3 ==> |r| >= 1 && r[0] == Num(1)
    ensures page > 4 ==> |r| >= 2 && r[1] == Ellipsis
    ensures page < totalPages - 2 ==> |r| >= 1 && r[|r| - 1] == Num(totalPages)
    ensures page < totalPages - 3 ==> |r| >= 2 && r[|r| - 2] == Ellipsis
  {
    Leading(page) + Run(Low(page), High(page, totalPages)) + Trailing(page, totalPages)
  }

  /** Builds the strip step by step, pushing onto a list as the tables do. */
  method BuildWindow(page: int, totalPages: int) returns (pages: seq<Entry>)
    ensures pages == Window(page, totalPages)
  {
    pages := [];
    if page > 3 {
      pages := pages + [Num(1)];
      if page > 4 {
        pages := pages + [Ellipsis];
      }
    }
    var lo := Max(1, page - 1);
    var hi := Min(totalPages, page + 1);
    var i := lo;
    while i <= hi
      invariant lo <= i
      invariant i <= hi + 1 || i == lo
      invariant pages == Leading(page) + Run(lo, i - 1)
      decreases hi - i
    {
      pages := pages + [Num(i)];
      i := i + 1;
    }
    if page < totalPages - 2 {
      if page < totalPages - 3 {
        pages := pages + [Ellipsis];
      }
      pages := pages + [Num(totalPages)];
    }
  }

  lemma {:induction false} RunAt(lo: int, hi: int)
    ensures |Run(lo, hi)| == (if hi < lo then 0 else hi - lo + 1)
    ensures forall i :: 0 <= i < |Run(lo, hi)| ==> Run(lo, hi)[i] == Num(lo + i)
    decreases hi - lo
  {
    if hi >= lo {
      RunAt(lo, hi - 1);
    }
  }

  /** The strip holds at most seven slots, whatever the inputs. */
  lemma WindowLength(page: int, totalPages: int)
    ensures |Window(page, totalPages)| <= 7
  {
    RunAt(Low(page), High(page, totalPages));
  }

  /** Exactly which page numbers are shown: page 1 when the current page is
      beyond 3, the neighbourhood of the current page clipped to
      [1, totalPages], and the last page when the current page is before
      totalPages - 2. */
  lemma WindowMembers(page: int, totalPages: int, k: int)
    ensures Num(k) in Window(page, totalPages) <==>
      (k == 1 && page > 3) ||
      (Low(page) <= k <= High(page, totalPages)) ||
      (k == totalPages && page < totalPages - 2)
  {
    var lo, hi := Low(page), High(page, totalPages);
    RunAt(lo, hi);
    var w := Window(page, totalPages);
    assert w == Leading(page) + Run(lo, hi) + Trailing(page, totalPages);
    if lo <= k <= hi {
      assert Run(lo, hi)[k - lo] == Num(k);
      assert w[|Leading(page)| + (k - lo)] == Num(k);
    }
    if Num(k) in Run(lo, hi) {
      var i :| 0 <= i < |Run(lo, hi)| && Run(lo, hi)[i] == Num(k);
    }
  }

  /** The page numbers of `s` strictly increase from left to right. */
  ghost predicate Increasing(s: seq<Entry>)
  {
    forall i, j :: 0 <= i < j < |s| && s[i].Num? && s[j].Num? ==> s[i].n < s[j].n
  }

  /** Every page number in `s` is smaller than every page number in `t`. */
  ghost predicate Below(s: seq<Entry>, t: seq<Entry>)
  {
    forall i, j :: 0 <= i < |s| && 0 <= j < |t| && s[i].Num? && t[j].Num? ==> s[i].n < t[j].n
  }

  lemma ConcatIncreasing(s: seq<Entry>, t: seq<Entry>)
    requires Increasing(s) && Increasing(t) && Below(s, t)
    ensures Increasing(s + t)
  {
    var w := s + t;
    forall i, j | 0 <= i < j < |w| && w[i].Num? && w[j].Num?
      ensures w[i].n < w[j].n
    {
      if j < |s| {
        assert w[i] == s[i] && w[j] == s[j];
      } else if i < |s| {
        assert w[i] == s[i] && w[j] == t[j - |s|];
      } else {
        assert w[i] == t[i - |s|] && w[j] == t[j - |s|];
      }
    }
  }

  lemma BelowConcat(s: seq<Entry>, t: seq<Entry>, u: seq<Entry>)
    requires Below(s, u) && Below(t, u)
    ensures Below(s + t, u)
  {
    forall i, j | 0 <= i < |s + t| && 0 <= j < |u| && (s + t)[i].Num? && u[j].Num?
      ensures (s + t)[i].n < u[j].n
    {
      if i < |s| {
        assert (s + t)[i] == s[i];
      } else {
        assert (s + t)[i] == t[i - |s|];
      }
    }
  }

  lemma RunIncreasing(lo: int, hi: int)
    ensures Increasing(Run(lo, hi))
  {
    RunAt(lo, hi);
  }

  /** The numbers of each piece of the strip lie below those of the next. */
  lemma PiecesOrdered(page: int, totalPages: int)
    ensures Below(Leading(page), Run(Low(page), High(page, totalPages)))
    ensures Below(Run(Low(page), High(page, totalPages)), Trailing(page, totalPages))
    ensures Below(Leading(page), Trailing(page, totalPages))
  {
    RunAt(Low(page), High(page, totalPages));
  }

  /** The page numbers of the strip strictly increase from left to right. */
  lemma WindowIncreasing(page: int, totalPages: int)
    ensures Increasing(Window(page, totalPages))
  {
    var lead, run, trail := Leading(page), Run(Low(page), High(page, totalPages)), Trailing(page, totalPages);
    assert Increasing(lead) && Increasing(trail);
    RunIncreasing(Low(page), High(page, totalPages));
    PiecesOrdered(page, totalPages);
    ConcatIncreasing(lead, run);
    BelowConcat(lead, run, trail);
    ConcatIncreasing(lead + run, trail);
  }

  /** When there is at least one page, every page number shown is a page
      that exists. */
  lemma WindowInRange(page: int, totalPages: int)
    requires totalPages >= 1
    ensures var w := Window(page, totalPages);
      forall i :: 0 <= i < |w| && w[i].Num? ==> 1 <= w[i].n <= totalPages
  {
    var w := Window(page, totalPages);
    forall i | 0 <= i < |w| && w[i].Num?
      ensures 1 <= w[i].n <= totalPages
    {
      assert Num(w[i].n) in w;
      WindowMembers(page, totalPages, w[i].n);
    }
  }

  /** For a page in range the current page is shown exactly once. */
  lemma CurrentPageOnce(page: int, totalPages: int)
    requires 1 <= page <= totalPages
    ensures var w := Window(page, totalPages);
      (exists i :: 0 <= i < |w| && w[i] == Num(page)) &&
      (forall i, j :: 0 <= i < |w| && 0 <= j < |w| && w[i] == Num(page) && w[j] == Num(page) ==> i == j)
  {
    var w := Window(page, totalPages);
    WindowMembers(page, totalPages, page);
    WindowIncreasing(page, totalPages);
    assert Num(page) in w;
  }

  /** For a page in range its neighbours are shown exactly when they exist. */
  lemma NeighboursShown(page: int, totalPages: int)
    requires 1 <= page <= totalPages
    ensures Num(page - 1) in Window(page, totalPages) <==> page - 1 >= 1
    ensures Num(page + 1) in Window(page, totalPages) <==> page + 1 <= totalPages
  {
    WindowMembers(page, totalPages, page - 1);
    WindowMembers(page, totalPages, page + 1);
  }

  /** The first page is shown for every page in range except page 3, and
      the last page for every page except totalPages - 2. */
  lemma EndsShown(page: int, totalPages: int)
    requires 1 <= page <= totalPages
    ensures Num(1) in Window(page, totalPages) <==> page != 3
    ensures Num(totalPages) in Window(page, totalPages) <==> page != totalPages - 2
  {
    WindowMembers(page, totalPages, 1);
    WindowMembers(page, totalPages, totalPages);
  }

  /** For a page in range an ellipsis only ever sits between two page
      numbers: the strip starts and ends with a number and never shows two
      markers side by side. */
  lemma EllipsisInterior(page: int, totalPages: int)
    requires 1 <= page <= totalPages
    ensures var w := Window(page, totalPages);
      |w| > 0 && w[0].Num? && w[|w| - 1].Num? &&
      forall i :: 0 <= i < |w| - 1 ==> w[i].Num? || w[i + 1].Num?
  {
    var lo, hi := Low(page), High(page, totalPages);
    RunAt(lo, hi);
    var lead, run, trail := Leading(page), Run(lo, hi), Trailing(page, totalPages);
    var w := Window(page, totalPages);
    assert w == lead + run + trail;
    assert |run| >= 1;
    forall i | 0 <= i < |w| - 1
      ensures w[i].Num? || w[i + 1].Num?
    {
      var a, b := |lead|, |lead| + |run|;
      if i < a {
        if i + 1 < a { assert w[i] == lead[i]; } else { assert w[i + 1] == run[0]; }
      } else if i < b {
        assert w[i] == run[i - a];
      } else {
        assert w[i] == trail[i - b] && w[i + 1] == trail[i + 1 - b];
      }
    }
  }

  /** Where an ellipsis sits, slot by slot, for a page in range. */
  lemma EllipsisAt(page: int, totalPages: int, i: int)
    requires 1 <= page <= totalPages
    requires 0 <= i < |Window(page, totalPages)|
    ensures var w := Window(page, totalPages);
      w[i] == Ellipsis <==> (i == 1 && page > 4) || (i == |w| - 2 && page < totalPages - 3)
  {
    var lo, hi := Low(page), High(page, totalPages);
    RunAt(lo, hi);
    var lead, run, trail := Leading(page), Run(lo, hi), Trailing(page, totalPages);
    var w := Window(page, totalPages);
    assert w == lead + run + trail;
    var a, b := |lead|, |lead| + |run|;
    assert page > 4 ==> |run| >= 2;
    assert page < totalPages - 3 ==> |run| >= 2;
    if i < a {
      assert w[i] == lead[i];
    } else if i < b {
      assert w[i] == run[i - a];
    } else {
      assert w[i] == trail[i - b];
    }
  }

  /** For a page in range there are at most two ellipsis markers: one just
      after page 1, present exactly when the current page is beyond 4, and
      one just before the last page, present exactly when the current page
      is before totalPages - 3. */
  lemma EllipsisPositions(page: int, totalPages: int)
    requires 1 <= page <= totalPages
    ensures var w := Window(page, totalPages);
      ((|w| > 1 && w[1] == Ellipsis) <==> page > 4) &&
      ((|w| > 1 && w[|w| - 2] == Ellipsis) <==> page < totalPages - 3) &&
      forall i :: 0 <= i < |w| && w[i] == Ellipsis ==> i == 1 || i == |w| - 2
  {
    var w := Window(page, totalPages);
    RunAt(Low(page), High(page, totalPages));
    assert (page > 4 || page < totalPages - 3) ==> |w| >= 4;
    forall i | 0 <= i < |w|
      ensures w[i] == Ellipsis <==> (i == 1 && page > 4) || (i == |w| - 2 && page < totalPages - 3)
    {
      EllipsisAt(page, totalPages, i);
    }
  }

  /** On page 4 the strip jumps from page 1 straight to page 3 with no
      ellipsis marking the skipped page 2. */
  lemma UnmarkedGapAfterFirst(totalPages: int)
    requires totalPages >= 5
    ensures var w := Window(4, totalPages);
      |w| >= 2 && w[0] == Num(1) && w[1] == Num(3)
  {
    RunAt(3, 5);
  }

  /** On page totalPages - 3 the strip jumps from totalPages - 2 straight to
      the last page with no ellipsis marking the skipped page. */
  lemma UnmarkedGapBeforeLast(totalPages: int)
    requires totalPages >= 4
    ensures var w := Window(totalPages - 3, totalPages);
      |w| >= 2 && w[|w| - 2] == Num(totalPages - 2) && w[|w| - 1] == Num(totalPages)
  {
    RunAt(Low(totalPages - 3), totalPages - 2);
  }

  /** With no pages at all (and the current page at 1, 2 or 3), nothing is shown. */
  lemma EmptyWithoutPages(page: int, totalPages: int)
    requires totalPages <= 0 && 1 <= page <= 3
    ensures Window(page, totalPages) == []
  {
    RunAt(Low(page), High(page, totalPages));
  }

  /** A Previous or Next control: whether it is greyed out and which page
      its click asks for (none when the click does nothing). */
  datatype NavControl = NavControl(disabled: bool, target: Option<int>)

  /** A rendered slot: a link to a page, highlighted when it is the current
      one, or an ellipsis. */
  datatype PageItem = PageLink(number: int, isActive: bool) | Gap

  datatype PaginationView = PaginationView(previous: NavControl, items: seq<PageItem>, next: NavControl)

  /** The Previous control: acts only past the first page, asking for the
      page before, and is greyed out exactly when it does nothing. */
  function Previous(page: int): (c: NavControl)
    ensures c.target.Some? <==> page > 1
    ensures c.target.Some? ==> c.target.value == page - 1
    ensures c.disabled <==> c.target.None?
  {
    NavControl(page <= 1, if page > 1 then Some(page - 1) else None)
  }

  /** The Next control: acts only before the last page, asking for the page
      after, and is greyed out exactly when it does nothing. */
  function Next(page: int, totalPages: int): (c: NavControl)
    ensures c.target.Some? <==> page < totalPages
    ensures c.target.Some? ==> c.target.value == page + 1
    ensures c.disabled <==> c.target.None?
  {
    NavControl(page >= totalPages, if page < totalPages then Some(page + 1) else None)
  }

  function Item(e: Entry, page: int): PageItem
  {
    match e
    case Num(n) => PageLink(n, n == page)
    case Ellipsis => Gap
  }

  /** One rendered item per slot, in order: a page number becomes a link,
      highlighted when it is the current page, and an ellipsis a gap. */
  function Items(es: seq<Entry>, page: int): (r: seq<PageItem>)
    ensures |r| == |es|
    ensures forall i :: 0 <= i < |es| && es[i].Num? ==> r[i] == PageLink(es[i].n, es[i].n == page)
    ensures forall i :: 0 <= i < |es| && es[i].Ellipsis? ==> r[i] == Gap
  {
    seq(|es|, i requires 0 <= i < |es| => Item(es[i], page))
  }

  /** The whole pagination bar for `page` out of `totalPages`. */
  function View(page: int, totalPages: int): (v: PaginationView)
    ensures v.previous == Previous(page) && v.next == Next(page, totalPages)
    ensures v.items == Items(Window(page, totalPages), page)
  {
    PaginationView(Previous(page), Items(Window(page, totalPages), page), Next(page, totalPages))
  }

  /** Previous acts (and is enabled) exactly when page > 1 and then asks for
      page - 1; Next acts exactly when page < totalPages and then asks for
      page + 1. So from a page in range neither ever leaves [1, totalPages]. */
  lemma NavigationGuards(page: int, totalPages: int)
    ensures var v := View(page, totalPages);
      (v.previous.target.Some? <==> page > 1) && (v.previous.disabled <==> v.previous.target.None?) &&
      (v.next.target.Some? <==> page < totalPages) && (v.next.disabled <==> v.next.target.None?) &&
      (v.previous.target.Some? ==> v.previous.target.value == page - 1) &&
      (v.next.target.Some? ==> v.next.target.value == page + 1)
    ensures var v := View(page, totalPages);
      1 <= page <= totalPages ==>
        (v.previous.target.Some? ==> 1 <= v.previous.target.value <= totalPages) &&
        (v.next.target.Some? ==> 1 <= v.next.target.value <= totalPages)
  {
  }

  /** Slot `i` of `items` is a highlighted page link. */
  predicate Active(items: seq<PageItem>, i: int)
  {
    0 <= i < |items| && items[i].PageLink? && items[i].isActive
  }

  /** A page link is highlighted exactly when it is the current page. */
  lemma ActiveIsCurrent(page: int, totalPages: int)
    ensures var items := View(page, totalPages).items;
      forall i :: 0 <= i < |items| && items[i].PageLink? ==> (items[i].isActive <==> items[i].number == page)
  {
  }

  /** A highlighted link comes from the slot holding the current page. */
  lemma ActiveSlot(es: seq<Entry>, page: int, i: int)
    requires Active(Items(es, page), i)
    ensures es[i] == Num(page)
  {
  }

  /** A strip holding the current page exactly once renders exactly one
      highlighted link. */
  lemma OneActiveFromOnce(es: seq<Entry>, page: int)
    requires exists i :: 0 <= i < |es| && es[i] == Num(page)
    requires forall i, j :: 0 <= i < |es| && 0 <= j < |es| && es[i] == Num(page) && es[j] == Num(page) ==> i == j
    ensures var items := Items(es, page);
      (exists i :: Active(items, i)) &&
      (forall i, j :: Active(items, i) && Active(items, j) ==> i == j)
  {
    var items := Items(es, page);
    var k :| 0 <= k < |es| && es[k] == Num(page);
    assert items[k] == PageLink(page, true);
    assert Active(items, k);
    forall i, j | Active(items, i) && Active(items, j)
      ensures i == j
    {
      ActiveSlot(es, page, i);
      ActiveSlot(es, page, j);
    }
  }

  /** For a page in range exactly one page link is highlighted. */
  lemma OneActiveLink(page: int, totalPages: int)
    requires 1 <= page <= totalPages
    ensures var items := View(page, totalPages).items;
      (exists i :: Active(items, i)) &&
      (forall i, j :: Active(items, i) && Active(items, j) ==> i == j)
  {
    CurrentPageOnce(page, totalPages);
    OneActiveFromOnce(Window(page, totalPages), page);
  }
}
