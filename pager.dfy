/** `AliExpress.parse_orders`: the pager loop of one order-list view. The
    browser is replaced by data: `labels[k]` is the "<cur>/<total>" pager label
    read after the (k+1)-th click on "Next", and `extract(k)` is what
    `parse_orders_page` yields for the page shown after k clicks (None when it
    raises). When the loop asks for a click beyond the given labels, the
    "Next" control is taken to be absent, which raises. Every exception in the
    loop is swallowed and the view's result is None. */
module Pager {
  import opened Wrappers
  import opened Text

  /** `int(i) for i in text.split('/')` unpacked into two names: None when
      there are not exactly two fields or one is not an integer (ValueError). */
  function ParseLabel(s: string): Option<(int, int)> {
    var parts := Split(s, '/');
    if |parts| != 2 then None
    else
      match (ParseInt(parts[0]), ParseInt(parts[1]))
      case (Some(cur), Some(total)) => Some((cur, total))
      case _ => None
  }

  /** The label the site shows on page `cur` of `total`. */
  function FormatLabel(cur: int, total: int): string {
    FormatInt(cur) + "/" + FormatInt(total)
  }

  lemma FormatIntNoSlash(i: int)
    ensures '/' !in FormatInt(i)
  {
    var f := FormatInt(i);
    if i >= 0 {
      assert forall k :: 0 <= k < |f| ==> IsDigit(f[k]);
    } else {
      assert forall k :: 1 <= k < |f| ==> f[k] == FormatNat(-i)[k - 1];
    }
  }

  /** Every label the site formats is read back as the page and total it shows. */
  lemma ParseFormatLabel(cur: int, total: int)
    ensures ParseLabel(FormatLabel(cur, total)) == Some((cur, total))
  {
    var parts := [FormatInt(cur), FormatInt(total)];
    FormatIntNoSlash(cur);
    FormatIntNoSlash(total);
    assert Join(parts, '/') == FormatLabel(cur, total) by {
      assert parts[1..] == [FormatInt(total)];
    }
    SplitJoin(parts, '/');
    ParseIntFormat(cur);
    ParseIntFormat(total);
  }

  /** A label is accepted only if it holds exactly one '/'. */
  lemma LabelHasOneSlash(s: string)
    ensures ParseLabel(s).Some? ==> Count(s, '/') == 1
  {
    SplitSpec(s, '/');
  }

  /** What one call of the pager does: the orders (None when an exception was
      swallowed), how many times "Next" was clicked and how many pages were
      extracted. */
  datatype Run<T> = Run(orders: Option<seq<T>>, clicks: nat, extractions: nat)

  /** Orders extracted before the rest of a run are kept in front of it and
      discarded with it. */
  function Prepend<T>(page: seq<T>, r: Run<T>): Run<T> {
    r.(orders := if r.orders.Some? then Some(page + r.orders.value) else None)
  }

  lemma PrependNothing<T>(r: Run<T>)
    ensures Prepend([], r) == r
  {
    if r.orders.Some? {
      assert [] + r.orders.value == r.orders.value;
    }
  }

  lemma PrependTwice<T>(a: seq<T>, b: seq<T>, r: Run<T>)
    ensures Prepend(a, Prepend(b, r)) == Prepend(a + b, r)
  {
    if r.orders.Some? {
      assert a + (b + r.orders.value) == (a + b) + r.orders.value;
    }
  }

  /** The labels as `parse_orders` seen them: `seen[k]` is the label read
      after the (k+1)-th click, parsed. */
  function Seen(labels: seq<string>): (seen: seq<Option<(int, int)>>)
    ensures |seen| == |labels|
  {
    seq(|labels|, k requires 0 <= k < |labels| => ParseLabel(labels[k]))
  }

  /** The loop as written, entered with pager state `cur`/`total` after `k`
      clicks (and so `k` extractions). After a click the label is read again
      and the loop breaks as soon as it shows the last page, before that
      page is extracted. */
  function AsWrittenLoop<T>(cur: int, total: int, seen: seq<Option<(int, int)>>, k: nat,
                            extract: nat -> Option<seq<T>>): Run<T>
    requires k <= |seen|
    decreases |seen| - k
  {
    if cur > total then Run(Some([]), k, k)
    else
      match extract(k)
      case None => Run(None, k, k + 1)
      case Some(page) =>
        if cur < total then
          if k == |seen| then Run(None, k, k + 1)
          else
            match seen[k]
            case None => Run(None, k + 1, k + 1)
            case Some((cur', total')) =>
              if cur' == total' then Run(Some(page), k + 1, k + 1)
              else Prepend(page, AsWrittenLoop(cur', total', seen, k + 1, extract))
        else
          Run(Some(page), k, k + 1)
  }

  function AsWritten<T>(initial: string, labels: seq<string>, extract: nat -> Option<seq<T>>): Run<T> {
    match ParseLabel(initial)
    case None => Run(None, 0, 0)
    case Some((cur, total)) => AsWrittenLoop(cur, total, Seen(labels), 0, extract)
  }

  /** The loop as evidently intended: extract the current page, and stop when
      it was the last one; otherwise click "Next" and read the label again. */
  function IntendedLoop<T>(cur: int, total: int, seen: seq<Option<(int, int)>>, k: nat,
                           extract: nat -> Option<seq<T>>): Run<T>
    requires k <= |seen|
    decreases |seen| - k
  {
    if cur > total then Run(Some([]), k, k)
    else
      match extract(k)
      case None => Run(None, k, k + 1)
      case Some(page) =>
        if cur < total then
          if k == |seen| then Run(None, k, k + 1)
          else
            match seen[k]
            case None => Run(None, k + 1, k + 1)
            case Some((cur', total')) => Prepend(page, IntendedLoop(cur', total', seen, k + 1, extract))
        else
          Run(Some(page), k, k + 1)
  }

  function Intended<T>(initial: string, labels: seq<string>, extract: nat -> Option<seq<T>>): Run<T> {
    match ParseLabel(initial)
    case None => Run(None, 0, 0)
    case Some((cur, total)) => IntendedLoop(cur, total, Seen(labels), 0, extract)
  }

  /** The orders of pages `lo` up to (not including) `hi`, concatenated in
      page order. */
  function ConcatPages<T>(extract: nat -> Option<seq<T>>, lo: nat, hi: nat): seq<T>
    requires forall j :: lo <= j < hi ==> extract(j).Some?
    decreases hi - lo
  {
    if lo >= hi then [] else extract(lo).value + ConcatPages(extract, lo + 1, hi)
  }

  function Max(a: int, b: int): int {
    if a < b then b else a
  }

  /** A run that returns orders extracted every page it visited, and returns
      exactly their orders concatenated in page order; a failure anywhere
      discards everything. */
  lemma {:induction false} AsWrittenLoopSuccess<T>(cur: int, total: int, seen: seq<Option<(int, int)>>,
                                                   k: nat, extract: nat -> Option<seq<T>>)
    requires k <= |seen|
    ensures var r := AsWrittenLoop(cur, total, seen, k, extract);
      r.orders.Some? ==>
        && k <= r.extractions
        && (forall j :: k <= j < r.extractions ==> extract(j).Some?)
        && r.orders.value == ConcatPages(extract, k, r.extractions)
    decreases |seen| - k
  {
    if cur <= total && extract(k).Some? && cur < total && k < |seen| {
      match seen[k]
      case None =>
      case Some((cur', total')) =>
        if cur' != total' {
          AsWrittenLoopSuccess(cur', total', seen, k + 1, extract);
        }
    }
  }

  lemma AsWrittenSuccess<T>(initial: string, labels: seq<string>, extract: nat -> Option<seq<T>>)
    ensures var r := AsWritten(initial, labels, extract);
      r.orders.Some? ==>
        && (forall j :: 0 <= j < r.extractions ==> extract(j).Some?)
        && r.orders.value == ConcatPages(extract, 0, r.extractions)
  {
    match ParseLabel(initial)
    case None =>
    case Some((cur, total)) => AsWrittenLoopSuccess(cur, total, Seen(labels), 0, extract);
  }

  lemma {:induction false} IntendedLoopSuccess<T>(cur: int, total: int, seen: seq<Option<(int, int)>>,
                                                  k: nat, extract: nat -> Option<seq<T>>)
    requires k <= |seen|
    ensures var r := IntendedLoop(cur, total, seen, k, extract);
      r.orders.Some? ==>
        && k <= r.extractions
        && (forall j :: k <= j < r.extractions ==> extract(j).Some?)
        && r.orders.value == ConcatPages(extract, k, r.extractions)
    decreases |seen| - k
  {
    if cur <= total && extract(k).Some? && cur < total && k < |seen| {
      match seen[k]
      case None =>
      case Some((cur', total')) => IntendedLoopSuccess(cur', total', seen, k + 1, extract);
    }
  }

  lemma IntendedSuccess<T>(initial: string, labels: seq<string>, extract: nat -> Option<seq<T>>)
    ensures var r := Intended(initial, labels, extract);
      r.orders.Some? ==>
        && (forall j :: 0 <= j < r.extractions ==> extract(j).Some?)
        && r.orders.value == ConcatPages(extract, 0, r.extractions)
  {
    match ParseLabel(initial)
    case None =>
    case Some((cur, total)) => IntendedLoopSuccess(cur, total, Seen(labels), 0, extract);
  }

  /** The site's labels advance one page per click: `labels[j]` shows page
      j + 2 of `total`. */
  predicate Advancing(labels: seq<string>, total: int) {
    total - 1 <= |labels| &&
    forall j :: 0 <= j < total - 1 ==> labels[j] == FormatLabel(j + 2, total)
  }

  /** The same, for the labels as read. */
  predicate SeenAdvance(seen: seq<Option<(int, int)>>, total: int) {
    total - 1 <= |seen| &&
    forall j :: 0 <= j < total - 1 ==> seen[j] == Some((j + 2, total))
  }

  lemma AdvancingSeen(labels: seq<string>, total: int)
    requires Advancing(labels, total)
    ensures SeenAdvance(Seen(labels), total)
  {
    forall j | 0 <= j < total - 1 ensures Seen(labels)[j] == Some((j + 2, total)) {
      assert Seen(labels)[j] == ParseLabel(labels[j]);
      assert labels[j] == FormatLabel(j + 2, total);
      ParseFormatLabel(j + 2, total);
    }
  }

  lemma {:induction false} AsWrittenLoopAdvancing<T>(total: int, seen: seq<Option<(int, int)>>, k: nat,
                                                     extract: nat -> Option<seq<T>>)
    requires k + 1 <= total && SeenAdvance(seen, total)
    requires forall j :: k <= j < Max(k + 1, total - 1) ==> extract(j).Some?
    ensures AsWrittenLoop(k + 1, total, seen, k, extract)
         == Run(Some(ConcatPages(extract, k, Max(k + 1, total - 1))), total - 1, Max(k + 1, total - 1))
    decreases total - k
  {
    var page := extract(k).value;
    var e := Max(k + 1, total - 1);
    assert ConcatPages(extract, k, e) == page + ConcatPages(extract, k + 1, e);
    assert ConcatPages(extract, k + 1, k + 1) == [];
    assert page + [] == page;
    if k + 2 < total {
      AsWrittenLoopAdvancing(total, seen, k + 1, extract);
      assert Max(k + 2, total - 1) == e;
      assert AsWrittenLoop(k + 1, total, seen, k, extract)
          == Prepend(page, AsWrittenLoop(k + 2, total, seen, k + 1, extract));
    }
  }

  /** With the first label "1/T" and one page more per click, the pager as
      written clicks "Next" T - 1 times and extracts max(1, T - 1) pages, so
      for T >= 2 the last page is never extracted. */
  lemma AsWrittenAdvancing<T>(total: int, labels: seq<string>, extract: nat -> Option<seq<T>>)
    requires 1 <= total && Advancing(labels, total)
    requires forall j :: 0 <= j < Max(1, total - 1) ==> extract(j).Some?
    ensures AsWritten(FormatLabel(1, total), labels, extract)
         == Run(Some(ConcatPages(extract, 0, Max(1, total - 1))), total - 1, Max(1, total - 1))
  {
    ParseFormatLabel(1, total);
    AdvancingSeen(labels, total);
    AsWrittenLoopAdvancing(total, Seen(labels), 0, extract);
  }

  lemma {:induction false} IntendedLoopAdvancing<T>(total: int, seen: seq<Option<(int, int)>>, k: nat,
                                                    extract: nat -> Option<seq<T>>)
    requires k + 1 <= total && SeenAdvance(seen, total)
    requires forall j :: k <= j < total ==> extract(j).Some?
    ensures IntendedLoop(k + 1, total, seen, k, extract)
         == Run(Some(ConcatPages(extract, k, total)), total - 1, total)
    decreases total - k
  {
    assert ConcatPages(extract, k, total) == extract(k).value + ConcatPages(extract, k + 1, total);
    assert ConcatPages(extract, k + 1, k + 1) == [];
    assert extract(k).value + [] == extract(k).value;
    if k + 1 < total {
      IntendedLoopAdvancing(total, seen, k + 1, extract);
      assert IntendedLoop(k + 1, total, seen, k, extract)
          == Prepend(extract(k).value, IntendedLoop(k + 2, total, seen, k + 1, extract));
    }
  }

  /** With the first label "1/T" and one page more per click, the intended
      pager clicks "Next" T - 1 times and extracts all T pages. */
  lemma IntendedAdvancing<T>(total: int, labels: seq<string>, extract: nat -> Option<seq<T>>)
    requires 1 <= total && Advancing(labels, total)
    requires forall j :: 0 <= j < total ==> extract(j).Some?
    ensures Intended(FormatLabel(1, total), labels, extract)
         == Run(Some(ConcatPages(extract, 0, total)), total - 1, total)
  {
    ParseFormatLabel(1, total);
    AdvancingSeen(labels, total);
    IntendedLoopAdvancing(total, Seen(labels), 0, extract);
  }

  /** A view whose first label already shows a page beyond the total yields no
      orders, without extracting or clicking. */
  lemma StartBeyondTotal<T>(cur: int, total: int, labels: seq<string>, extract: nat -> Option<seq<T>>)
    requires cur > total
    ensures AsWritten(FormatLabel(cur, total), labels, extract) == Run(Some([]), 0, 0)
    ensures Intended(FormatLabel(cur, total), labels, extract) == Run(Some([]), 0, 0)
  {
    ParseFormatLabel(cur, total);
  }

  /** An unreadable first label makes the view fail before anything is
      extracted. */
  lemma UnreadableFirstLabel<T>(initial: string, labels: seq<string>, extract: nat -> Option<seq<T>>)
    requires ParseLabel(initial).None?
    ensures AsWritten(initial, labels, extract) == Run(None, 0, 0)
    ensures Intended(initial, labels, extract) == Run(None, 0, 0)
  {
  }

  /** The two loops click alike; whenever the intended one succeeds, the one
      as written succeeds too, with the same orders except possibly the last
      page's, which it never extracted. */
  lemma {:induction false} LoopsCompare<T>(cur: int, total: int, seen: seq<Option<(int, int)>>, k: nat,
                                           extract: nat -> Option<seq<T>>)
    requires k <= |seen|
    ensures var w, i := AsWrittenLoop(cur, total, seen, k, extract), IntendedLoop(cur, total, seen, k, extract);
      && w.clicks == i.clicks
      && (w.extractions == i.extractions || w.extractions + 1 == i.extractions)
      && (i.orders.Some? ==> w.orders.Some? && w.orders.value <= i.orders.value)
    decreases |seen| - k
  {
    if cur <= total && extract(k).Some? && cur < total && k < |seen| {
      var page := extract(k).value;
      match seen[k]
      case None =>
      case Some((cur', total')) =>
        LoopsCompare(cur', total', seen, k + 1, extract);
        var w', i' := AsWrittenLoop(cur', total', seen, k + 1, extract), IntendedLoop(cur', total', seen, k + 1, extract);
        if cur' == total' {
          assert i'.orders.Some? ==> page <= page + i'.orders.value;
        } else if i'.orders.Some? {
          assert page + w'.orders.value <= page + i'.orders.value;
        }
    }
  }

  lemma AsWrittenIsPrefix<T>(initial: string, labels: seq<string>, extract: nat -> Option<seq<T>>)
    ensures var w, i := AsWritten(initial, labels, extract), Intended(initial, labels, extract);
      && w.clicks == i.clicks
      && (w.extractions == i.extractions || w.extractions + 1 == i.extractions)
      && (i.orders.Some? ==> w.orders.Some? && w.orders.value <= i.orders.value)
  {
    match ParseLabel(initial)
    case None =>
    case Some((cur, total)) => LoopsCompare(cur, total, Seen(labels), 0, extract);
  }

  lemma ThreePageLabels()
    ensures FormatLabel(1, 3) == "1/3" && FormatLabel(2, 3) == "2/3" && FormatLabel(3, 3) == "3/3"
  {
    assert FormatNat(1) == "1" && FormatNat(2) == "2" && FormatNat(3) == "3";
  }

  /** The labels 2/3 and 3/3 advance one page per click. */
  lemma ThreeAdvancing()
    ensures Advancing([FormatLabel(2, 3), FormatLabel(3, 3)], 3)
  {
    var labels := [FormatLabel(2, 3), FormatLabel(3, 3)];
    assert labels[0] == FormatLabel(0 + 2, 3) && labels[1] == FormatLabel(1 + 2, 3);
  }

  /** The view that shows labels 1/3, 2/3, 3/3, with the labels built by
      `FormatLabel`. */
  lemma ThreePages<T>(extract: nat -> Option<seq<T>>)
    requires forall j :: 0 <= j < 3 ==> extract(j).Some?
    ensures var r := AsWritten(FormatLabel(1, 3), [FormatLabel(2, 3), FormatLabel(3, 3)], extract);
      r.clicks == 2 && r.extractions == 2 && r.orders == Some(extract(0).value + extract(1).value)
    ensures Intended(FormatLabel(1, 3), [FormatLabel(2, 3), FormatLabel(3, 3)], extract).extractions == 3
  {
    var labels := [FormatLabel(2, 3), FormatLabel(3, 3)];
    ThreeAdvancing();
    AsWrittenAdvancing(3, labels, extract);
    IntendedAdvancing(3, labels, extract);
    assert Max(1, 3 - 1) == 2;
    assert ConcatPages(extract, 2, 2) == [];
    assert ConcatPages(extract, 0, 2) == extract(0).value + extract(1).value;
  }

  /** The three-page view with labels "1/3", "2/3", "3/3": the loop as written
      clicks twice and extracts only two pages; the intended one extracts all
      three. */
  lemma ThreePageView<T>(extract: nat -> Option<seq<T>>)
    requires forall j :: 0 <= j < 3 ==> extract(j).Some?
    ensures AsWritten("1/3", ["2/3", "3/3"], extract).clicks == 2
    ensures AsWritten("1/3", ["2/3", "3/3"], extract).extractions == 2
    ensures Intended("1/3", ["2/3", "3/3"], extract).extractions == 3
    ensures AsWritten("1/3", ["2/3", "3/3"], extract).orders
         == Some(extract(0).value + extract(1).value)
  {
    ThreePages(extract);
    ThreePageLabels();
    assert [FormatLabel(2, 3), FormatLabel(3, 3)] == ["2/3", "3/3"];
  }

  /** Reading and parsing the pager label after the (k+1)-th click. */
  method ReadLabel(labels: seq<string>, k: nat) returns (r: Option<(int, int)>)
    requires k < |labels|
    ensures r == Seen(labels)[k]
  {
    r := ParseLabel(labels[k]);
  }

  /** `parse_orders` in 'webread' mode, as written. */
  method ParseOrders<T>(initial: string, labels: seq<string>, extract: nat -> Option<seq<T>>)
    returns (r: Run<T>)
    ensures r == AsWritten(initial, labels, extract)
  {
    var first := ParseLabel(initial);
    if first.None? {
      return Run(None, 0, 0);
    }
    var cur, total := first.value.0, first.value.1;
    var orders: seq<T> := [];
    var clicks: nat := 0;
    var extractions: nat := 0;
    ghost var seen := Seen(labels);
    PrependNothing(AsWritten(initial, labels, extract));
    assert AsWritten(initial, labels, extract) == AsWrittenLoop(cur, total, seen, 0, extract);
    while cur <= total
      invariant clicks <= |labels| && extractions == clicks
      invariant AsWritten(initial, labels, extract)
             == Prepend(orders, AsWrittenLoop(cur, total, seen, clicks, extract))
      decreases |labels| - clicks
    {
      ghost var before := orders;
      ghost var rest := AsWrittenLoop(cur, total, seen, clicks, extract);
      var page := extract(extractions);
      extractions := extractions + 1;
      if page.None? {
        return Run(None, clicks, extractions);
      }
      orders := orders + page.value;
      if cur < total {
        if clicks == |labels| {
          return Run(None, clicks, extractions);
        }
        var reread := ReadLabel(labels, clicks);
        clicks := clicks + 1;
        if reread.None? {
          return Run(None, clicks, extractions);
        }
        cur, total := reread.value.0, reread.value.1;
        if cur != total {
          assert rest == Prepend(page.value, AsWrittenLoop(cur, total, seen, clicks, extract));
          PrependTwice(before, page.value, AsWrittenLoop(cur, total, seen, clicks, extract));
        }
      }
      if cur == total {
        assert rest == Run(Some(page.value), clicks, extractions);
        assert orders == before + page.value;
        break;
      }
    }
    assert orders + [] == orders;
    return Run(Some(orders), clicks, extractions);
  }

  /** `parse_orders` with the loop as evidently intended. */
  method ParseOrdersIntended<T>(initial: string, labels: seq<string>, extract: nat -> Option<seq<T>>)
    returns (r: Run<T>)
    ensures r == Intended(initial, labels, extract)
  {
    var first := ParseLabel(initial);
    if first.None? {
      return Run(None, 0, 0);
    }
    var cur, total := first.value.0, first.value.1;
    var orders: seq<T> := [];
    var clicks: nat := 0;
    var extractions: nat := 0;
    ghost var seen := Seen(labels);
    PrependNothing(Intended(initial, labels, extract));
    assert Intended(initial, labels, extract) == IntendedLoop(cur, total, seen, 0, extract);
    while cur <= total
      invariant clicks <= |labels| && extractions == clicks
      invariant Intended(initial, labels, extract)
             == Prepend(orders, IntendedLoop(cur, total, seen, clicks, extract))
      decreases |seen| - clicks
    {
      ghost var before := orders;
      ghost var rest := IntendedLoop(cur, total, seen, clicks, extract);
      var page := extract(extractions);
      extractions := extractions + 1;
      if page.None? {
        return Run(None, clicks, extractions);
      }
      orders := orders + page.value;
      if cur < total {
        if clicks == |labels| {
          return Run(None, clicks, extractions);
        }
        var reread := ReadLabel(labels, clicks);
        clicks := clicks + 1;
        if reread.None? {
          return Run(None, clicks, extractions);
        }
        cur, total := reread.value.0, reread.value.1;
        ghost var next := IntendedLoop(cur, total, seen, clicks, extract);
        assert rest == Prepend(page.value, next);
        PrependTwice(before, page.value, next);
      } else {
        assert rest == Run(Some(page.value), clicks, extractions);
        assert orders == before + page.value;
        break;
      }
    }
    assert orders + [] == orders;
    return Run(Some(orders), clicks, extractions);
  }
}
