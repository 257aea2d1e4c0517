/** The page strip of frontend/src/components/Pagination.js: a window of at most five
    consecutive page numbers around the current page, previous/next buttons, and
    shortcuts to the first and the last page. */
module Pagination {
  import opened Wrappers

  const MaxVisible := 5

  function Max(a: int, b: int): int { if a < b then b else a }
  function Min(a: int, b: int): int { if a < b then a else b }

  /** The integers `lo..hi`, both included; empty when `lo > hi`. */
  function Range(lo: int, hi: int): (r: seq<int>)
    ensures |r| == if lo <= hi then hi - lo + 1 else 0
    ensures forall i :: 0 <= i < |r| ==> r[i] == lo + i
    decreases hi - lo
  {
    if lo > hi then [] else [lo] + Range(lo + 1, hi)
  }

  /** The first and the last page of the window. */
  function Window(current: int, total: int): (r: (int, int))
    // never outside the pages, never wider than five
    ensures 1 <= r.0 && r.1 <= total && r.1 - r.0 < MaxVisible
    // for a valid current page: the current page inside, and as wide as the pages allow
    ensures 1 <= current <= total ==> r.0 <= current <= r.1 && r.1 - r.0 + 1 == Min(MaxVisible, total)
  {
    var start := Max(1, current - MaxVisible / 2);
    var end := Min(total, start + MaxVisible - 1);
    var start' := if end - start < MaxVisible - 1 then Max(1, end - MaxVisible + 1) else start;
    (start', end)
  }

  /** `getPageNumbers()`. */
  function PageNumbers(current: int, total: int): (r: seq<int>)
    // consecutive and ascending
    ensures forall i :: 0 <= i < |r| ==> r[i] == r[0] + i
    ensures |r| <= MaxVisible
    // never outside the existing pages; nothing when there are none
    ensures forall i :: 0 <= i < |r| ==> 1 <= r[i] <= total
    ensures total <= 0 ==> r == []
    // for a valid current page: as many pages as fit, and the current one among them
    ensures 1 <= current <= total ==> |r| == Min(MaxVisible, total) && current in r
  {
    var (start, end) := Window(current, total);
    var r := Range(start, end);
    assert 1 <= current <= total ==> r[current - start] == current;
    r
  }

  /** `handlePrevious`: the page it asks for, if any. */
  function Previous(current: int): (r: Option<int>)
    ensures r.Some? <==> current > 1
    ensures r.Some? ==> r.value == current - 1
  {
    if current > 1 then Some(current - 1) else None
  }

  /** `handleNext`: the page it asks for, if any. */
  function Next(current: int, total: int): (r: Option<int>)
    ensures r.Some? <==> current < total
    ensures r.Some? ==> r.value == current + 1
  {
    if current < total then Some(current + 1) else None
  }

  /** Within the pages, previous and next undo each other. */
  lemma PreviousNextInverse(current: int, total: int)
    requires 1 <= current <= total
    ensures Next(current, total).Some? ==> Previous(Next(current, total).value) == Some(current)
    ensures Previous(current).Some? ==> Next(Previous(current).value, total) == Some(current)
  {
  }

  // ---------------------------------------------------------------- the rendered strip

  /** One element of the strip: a page button (marked when it is the current page) or `...`. */
  datatype Item = Page(number: int, active: bool) | Ellipsis

  function Buttons(pages: seq<int>, current: int): (r: seq<Item>)
    ensures |r| == |pages|
    ensures forall i :: 0 <= i < |pages| ==> r[i] == Page(pages[i], pages[i] == current)
  {
    seq(|pages|, i requires 0 <= i < |pages| => Page(pages[i], pages[i] == current))
  }

  /** The page numbers of a strip, in order. */
  function Numbers(items: seq<Item>): (r: seq<int>)
    ensures |r| <= |items|
  {
    if |items| == 0 then [] else NumberOf(items[0]) + Numbers(items[1..])
  }

  function NumberOf(item: Item): seq<int> {
    if item.Page? then [item.number] else []
  }

  lemma {:induction false} NumbersConcat(a: seq<Item>, b: seq<Item>)
    ensures Numbers(a + b) == Numbers(a) + Numbers(b)
  {
    if |a| == 0 {
      assert a + b == b;
    } else {
      assert (a + b)[1..] == a[1..] + b;
      assert (a + b)[0] == a[0];
      NumbersConcat(a[1..], b);
      calc {
        Numbers(a + b);
        NumberOf(a[0]) + Numbers(a[1..] + b);
        NumberOf(a[0]) + (Numbers(a[1..]) + Numbers(b));
        (NumberOf(a[0]) + Numbers(a[1..])) + Numbers(b);
      }
    }
  }

  lemma {:induction false} NumbersOfButtons(pages: seq<int>, current: int)
    ensures Numbers(Buttons(pages, current)) == pages
  {
    if |pages| > 0 {
      assert Buttons(pages, current)[1..] == Buttons(pages[1..], current);
      NumbersOfButtons(pages[1..], current);
    }
  }

  /** The strip as written: the first-page shortcut when `current > 3` (with `...` when
      `current > 4`), the window, and the last-page shortcut when `current < total - 2`
      (with `...` when `current < total - 3`). The shortcut tests look at the current page,
      not at the window. */
  function StripAsWritten(current: int, total: int): (r: seq<Item>)
    ensures current > 3 ==> |r| > 0 && r[0] == Page(1, false)
    ensures current < total - 2 ==> |r| > 0 && r[|r| - 1] == Page(total, false)
    ensures |r| <= MaxVisible + 4
    // the pages shown: the shortcuts exactly when their tests hold, the window between them
    ensures Numbers(r) == (if current > 3 then [1] else []) + PageNumbers(current, total)
                          + (if current < total - 2 then [total] else [])
    // `...` follows the first-page shortcut exactly when `current > 4`
    ensures 1 <= current <= total ==> (|r| >= 2 && r[1] == Ellipsis <==> current > 4)
    // `...` precedes the last-page shortcut exactly when `current < total - 3`
    ensures 1 <= current <= total ==> (|r| >= 2 && r[|r| - 2] == Ellipsis <==> current < total - 3)
  {
    var pages := PageNumbers(current, total);
    var head := if current > 3 then [Page(1, false)] + (if current > 4 then [Ellipsis] else []) else [];
    var b := Buttons(pages, current);
    var tail := if current < total - 2 then (if current < total - 3 then [Ellipsis] else []) + [Page(total, false)] else [];
    StripAsWrittenNumbers(current, total, pages, head, b, tail);
    StripAsWrittenEllipses(current, total, pages, head, b, tail);
    head + b + tail
  }

  /** A shortcut with or without its `...` shows one page number. */
  lemma {:induction false} ShortcutNumbers(n: int, dots: bool)
    ensures Numbers([Page(n, false)] + (if dots then [Ellipsis] else [])) == [n]
    ensures Numbers((if dots then [Ellipsis] else []) + [Page(n, false)]) == [n]
  {
    assert Numbers([Page(n, false)]) == [n];
    assert Numbers([Ellipsis]) == [];
    NumbersConcat([Page(n, false)], if dots then [Ellipsis] else []);
    NumbersConcat(if dots then [Ellipsis] else [], [Page(n, false)]);
  }

  lemma {:induction false} StripAsWrittenNumbers(current: int, total: int, pages: seq<int>,
                                                  head: seq<Item>, b: seq<Item>, tail: seq<Item>)
    requires head == if current > 3 then [Page(1, false)] + (if current > 4 then [Ellipsis] else []) else []
    requires b == Buttons(pages, current)
    requires tail == if current < total - 2 then (if current < total - 3 then [Ellipsis] else []) + [Page(total, false)] else []
    ensures Numbers(head + b + tail) == (if current > 3 then [1] else []) + pages
                                        + (if current < total - 2 then [total] else [])
  {
    ShortcutNumbers(1, current > 4);
    ShortcutNumbers(total, current < total - 3);
    NumbersOfButtons(pages, current);
    NumbersConcat(head, b);
    NumbersConcat(head + b, tail);
  }

  lemma {:induction false} StripAsWrittenEllipses(current: int, total: int, pages: seq<int>,
                                                   head: seq<Item>, b: seq<Item>, tail: seq<Item>)
    requires 1 <= current <= total ==> |pages| == Min(MaxVisible, total)
    requires head == if current > 3 then [Page(1, false)] + (if current > 4 then [Ellipsis] else []) else []
    requires b == Buttons(pages, current)
    requires tail == if current < total - 2 then (if current < total - 3 then [Ellipsis] else []) + [Page(total, false)] else []
    ensures var r := head + b + tail;
      1 <= current <= total ==>
        && (|r| >= 2 && r[1] == Ellipsis <==> current > 4)
        && (|r| >= 2 && r[|r| - 2] == Ellipsis <==> current < total - 3)
  {
    if !(1 <= current <= total) {
      return;
    }
    var r := head + b + tail;
    assert forall i :: 0 <= i < |b| ==> b[i].Page?;
    if current > 4 {
      assert r[1] == Ellipsis;
    } else if |r| >= 2 {
      if current > 3 {
        assert r[1] == b[0];
      } else if |b| >= 2 {
        assert r[1] == b[1];
      }
    }
    if current < total - 3 {
      assert r[|r| - 2] == Ellipsis;
    } else if |r| >= 2 {
      if current < total - 2 {
        assert r[|r| - 2] == b[|b| - 1];
      } else if |b| >= 2 {
        assert r[|r| - 2] == b[|b| - 2];
      }
    }
  }

  /** On the last of four pages, page 1 is shown twice: once as the shortcut and once
      in the window, which already starts at page 1. */
  lemma StripAsWrittenRepeatsFirstPage()
    ensures Numbers(StripAsWritten(4, 4)) == [1, 1, 2, 3, 4]
  {
    var w := PageNumbers(4, 4);
    assert Window(4, 4) == (1, 4);
    assert w == [1, 2, 3, 4];
    var b := Buttons(w, 4);
    assert StripAsWritten(4, 4) == [Page(1, false)] + [] + b + [];
    NumbersOfButtons(w, 4);
    NumbersConcat([Page(1, false)], b);
    assert Numbers([Page(1, false)]) == [1];
    assert [Page(1, false)] + [] + b + [] == [Page(1, false)] + b;
  }

  /** On the last of five pages, the strip reads `1 ... 1 2 3 4 5`: an ellipsis between
      two adjacent buttons for the same page. */
  lemma StripAsWrittenEllipsisBeforeSamePage()
    ensures StripAsWritten(5, 5)[..3] == [Page(1, false), Ellipsis, Page(1, false)]
  {
    var w := PageNumbers(5, 5);
    assert Window(5, 5) == (1, 5);
    assert w[0] == 1;
    var b := Buttons(w, 5);
    assert StripAsWritten(5, 5) == [Page(1, false)] + [Ellipsis] + b + [];
  }

  /** On the first of four pages, page 4 is shown twice. */
  lemma StripAsWrittenRepeatsLastPage()
    ensures Numbers(StripAsWritten(1, 4)) == [1, 2, 3, 4, 4]
  {
    var w := PageNumbers(1, 4);
    assert Window(1, 4) == (1, 4);
    assert w == [1, 2, 3, 4];
    var b := Buttons(w, 1);
    assert StripAsWritten(1, 4) == [] + b + ([] + [Page(4, false)]);
    NumbersOfButtons(w, 1);
    NumbersConcat(b, [Page(4, false)]);
    assert Numbers([Page(4, false)]) == [4];
    assert [] + b + ([] + [Page(4, false)]) == b + [Page(4, false)];
  }

  /** The strip with the shortcut tests made against the window: the first page is
      offered separately only when the window does not start at it, the last page only
      when the window does not end at it, and `...` marks exactly a skipped run of pages. */
  function Strip(current: int, total: int): (r: seq<Item>)
    requires 1 <= current <= total
    // the strip starts at page 1, ends at the last page, and marks the current page
    ensures |r| > 0 && r[0].Page? && r[0].number == 1
    ensures r[|r| - 1].Page? && r[|r| - 1].number == total
    ensures Page(current, true) in r
    ensures |r| <= MaxVisible + 4
  {
    var pages := PageNumbers(current, total);
    var b := Buttons(pages, current);
    var r := Head(pages[0]) + b + Tail(pages[|pages| - 1], total);
    assert b[current - pages[0]] == Page(current, true);
    assert r[|Head(pages[0])| + current - pages[0]] == Page(current, true);
    r
  }

  /** The first-page shortcut for a window starting at `first`. */
  function Head(first: int): (r: seq<Item>)
    ensures first <= 1 ==> r == []
    ensures first > 1 ==> |r| > 0 && r[0] == Page(1, false)
    ensures Ellipsis in r <==> first > 2
    ensures |r| <= 2
  {
    if first > 1 then [Page(1, false)] + (if first > 2 then [Ellipsis] else []) else []
  }

  /** The last-page shortcut for a window ending at `last`. */
  function Tail(last: int, total: int): (r: seq<Item>)
    ensures last >= total ==> r == []
    ensures last < total ==> |r| > 0 && r[|r| - 1] == Page(total, false)
    ensures Ellipsis in r <==> last < total - 1
    ensures |r| <= 2
  {
    if last < total then (if last < total - 1 then [Ellipsis] else []) + [Page(total, false)] else []
  }

  lemma NumbersHead(first: int)
    ensures Numbers(Head(first)) == if first > 1 then [1] else []
  {
    if first > 1 {
      NumbersConcat([Page(1, false)], if first > 2 then [Ellipsis] else []);
      assert Numbers([Page(1, false)]) == [1];
    }
  }

  lemma NumbersTail(last: int, total: int)
    ensures Numbers(Tail(last, total)) == if last < total then [total] else []
  {
    if last < total {
      NumbersConcat(if last < total - 1 then [Ellipsis] else [], [Page(total, false)]);
      assert Numbers([Page(total, false)]) == [total];
    }
  }

  lemma StripNumbers(pages: seq<int>, current: int, total: int)
    requires |pages| > 0
    ensures Numbers(Head(pages[0]) + Buttons(pages, current) + Tail(pages[|pages| - 1], total))
      == (if pages[0] > 1 then [1] else []) + pages + (if pages[|pages| - 1] < total then [total] else [])
  {
    var first, last := pages[0], pages[|pages| - 1];
    NumbersConcat(Head(first), Buttons(pages, current));
    NumbersConcat(Head(first) + Buttons(pages, current), Tail(last, total));
    NumbersOfButtons(pages, current);
    NumbersHead(first);
    NumbersTail(last, total);
  }

  /** The corrected strip lists each page at most once, in increasing order, from the
      first page to the last, with the current page among them. */
  lemma StripIncreasing(current: int, total: int)
    requires 1 <= current <= total
    ensures var n := Numbers(Strip(current, total));
      && (forall i, j :: 0 <= i < j < |n| ==> n[i] < n[j])
      && |n| > 0 && n[0] == 1 && n[|n| - 1] == total
      && current in n
      && (forall i :: 0 <= i < |n| ==> 1 <= n[i] <= total)
  {
    var pages := PageNumbers(current, total);
    var strip := Strip(current, total);
    assert strip == Head(pages[0]) + Buttons(pages, current) + Tail(pages[|pages| - 1], total);
    StripNumbers(pages, current, total);
    FramedIncreasing(pages, total, Numbers(strip));
  }

  /** A run of consecutive pages inside `1..total`, with page 1 put in front when the run
      starts later and `total` put behind when it ends earlier, ascends strictly from 1 to
      `total`. */
  lemma FramedIncreasing(pages: seq<int>, total: int, n: seq<int>)
    requires |pages| > 0
    requires forall i :: 0 <= i < |pages| ==> pages[i] == pages[0] + i
    requires 1 <= pages[0] && pages[|pages| - 1] <= total
    requires n == (if pages[0] > 1 then [1] else []) + pages
                  + (if pages[|pages| - 1] < total then [total] else [])
    ensures |n| > 0
      && (forall i, j :: 0 <= i < j < |n| ==> n[i] < n[j])
      && n[0] == 1 && n[|n| - 1] == total
      && (forall x :: x in pages ==> x in n)
      && (forall i :: 0 <= i < |n| ==> 1 <= n[i] <= total)
  {
    var h := if pages[0] > 1 then [1] else [];
    var t := if pages[|pages| - 1] < total then [total] else [];
    forall k | 0 <= k < |n|
      ensures n[k] == if k < |h| then 1 else if k < |h| + |pages| then pages[0] + k - |h| else total
    {
      if k >= |h| + |pages| {
        assert n[k] == t[k - |h| - |pages|];
      }
    }
  }

  /** In the corrected strip, `...` follows the first-page shortcut exactly when pages
      between it and the window are skipped, and likewise before the last-page shortcut. */
  lemma StripEllipsisMarksGaps(current: int, total: int)
    requires 1 <= current <= total
    ensures var pages := PageNumbers(current, total);
      var r := Strip(current, total);
      && (|r| >= 2 && r[0] == Page(1, false) && r[1] == Ellipsis <==> pages[0] > 2)
      && (|r| >= 2 && r[|r| - 1] == Page(total, false) && r[|r| - 2] == Ellipsis <==> pages[|pages| - 1] < total - 1)
  {
  }
}
