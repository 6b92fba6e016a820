/** `AliExpress.get_open_orders`: the four order-status views are scraped in
    a fixed order and collected under their category labels. Only the
    'Shipped' view asks for tracking. The clicks that switch views are not
    modelled; each view is given as what the browser shows in it. */
module Orders {
  import opened Wrappers
  import opened Extraction
  import opened Pager

  /** One order-status view: its first pager label, the labels read after
      each click on "Next", and the cards of the page shown after k clicks. */
  datatype View = View(initial: string, labels: seq<string>, pages: seq<seq<Card>>)

  /** The assembled result, a dictionary kept as an association list in
      insertion order; a category maps to None when its pager failed. */
  type Collection = seq<(string, Option<seq<Order>>)>

  const NotShipped := "Not Shipped"
  const Shipped := "Shipped"
  const AwaitingPayment := "Order Awaiting Payment"
  const Completed := "Order Completed"

  /** `parse_orders_page` on the page shown after k clicks; a page that is not
      there fails like a missing order table. */
  function PageSource(v: View, tracking: bool): nat -> Option<seq<Order>> {
    (k: nat) => if k < |v.pages| then PageOrders(v.pages[k], tracking) else None
  }

  /** `parse_orders(..., track)` on one view, with the pager loop as written. */
  function ViewOrders(v: View, tracking: bool): Option<seq<Order>> {
    AsWritten(v.initial, v.labels, PageSource(v, tracking)).orders
  }

  /** The same view with the pager loop corrected to extract the last page. */
  function CorrectedViewOrders(v: View, tracking: bool): Option<seq<Order>> {
    Intended(v.initial, v.labels, PageSource(v, tracking)).orders
  }

  lemma {:induction false} InConcatPages<T>(extract: nat -> Option<seq<T>>, lo: nat, hi: nat, x: T)
    requires forall j :: lo <= j < hi ==> extract(j).Some?
    requires x in ConcatPages(extract, lo, hi)
    ensures exists j :: lo <= j < hi && x in extract(j).value
    decreases hi - lo
  {
    if x !in extract(lo).value {
      InConcatPages(extract, lo + 1, hi, x);
    }
  }

  /** Every order of the first `n` pages of a view carries tracking fields
      exactly when tracking was asked for. */
  lemma PagesTracking(v: View, tracking: bool, n: nat, o: Order)
    requires forall j :: 0 <= j < n ==> PageSource(v, tracking)(j).Some?
    requires o in ConcatPages(PageSource(v, tracking), 0, n)
    ensures o.tracking.Some? <==> tracking
  {
    var extract := PageSource(v, tracking);
    InConcatPages(extract, 0, n, o);
    var j :| 0 <= j < n && o in extract(j).value;
    var cards := v.pages[j];
    PageOrdersSome(cards, tracking);
    PageOrdersEach(cards, tracking);
    var i :| 0 <= i < |cards| && PageOrders(cards, tracking).value[i] == o;
  }

  /** Every order of a view carries tracking fields exactly when tracking was
      asked for. */
  lemma ViewTracking(v: View, tracking: bool)
    ensures ViewOrders(v, tracking).Some? ==>
      forall o :: o in ViewOrders(v, tracking).value ==> (o.tracking.Some? <==> tracking)
  {
    var r := AsWritten(v.initial, v.labels, PageSource(v, tracking));
    if r.orders.Some? {
      AsWrittenSuccess(v.initial, v.labels, PageSource(v, tracking));
      forall o: Order | o in r.orders.value ensures o.tracking.Some? <==> tracking {
        PagesTracking(v, tracking, r.extractions, o);
      }
    }
  }

  lemma CorrectedViewTracking(v: View, tracking: bool)
    ensures CorrectedViewOrders(v, tracking).Some? ==>
      forall o :: o in CorrectedViewOrders(v, tracking).value ==> (o.tracking.Some? <==> tracking)
  {
    var r := Intended(v.initial, v.labels, PageSource(v, tracking));
    if r.orders.Some? {
      IntendedSuccess(v.initial, v.labels, PageSource(v, tracking));
      forall o: Order | o in r.orders.value ensures o.tracking.Some? <==> tracking {
        PagesTracking(v, tracking, r.extractions, o);
      }
    }
  }

  /** The dictionary literal of `get_open_orders`, in insertion order. */
  function Assemble(notShipped: Option<seq<Order>>, shipped: Option<seq<Order>>,
                    awaiting: Option<seq<Order>>, completed: Option<seq<Order>>): Collection {
    [(NotShipped, notShipped), (Shipped, shipped), (AwaitingPayment, awaiting), (Completed, completed)]
  }

  /** The four views in the order the source scrapes them, under their
      category labels, each the result of the pager as written on that view.
      Switching views clicks through the driver, so a driver is present and
      tracking is read for exactly the 'Shipped' orders. */
  function GetOpenOrders(notShipped: View, shipped: View, awaiting: View, completed: View): (c: Collection)
    ensures |c| == 4
    ensures c[0].0 == NotShipped && c[1].0 == Shipped && c[2].0 == AwaitingPayment && c[3].0 == Completed
    ensures c[0].1 == AsWritten(notShipped.initial, notShipped.labels, PageSource(notShipped, false)).orders
    ensures c[1].1 == AsWritten(shipped.initial, shipped.labels, PageSource(shipped, true)).orders
    ensures c[2].1 == AsWritten(awaiting.initial, awaiting.labels, PageSource(awaiting, false)).orders
    ensures c[3].1 == AsWritten(completed.initial, completed.labels, PageSource(completed, false)).orders
    ensures forall i :: 0 <= i < 4 && i != 1 && c[i].1.Some? ==>
      forall o :: o in c[i].1.value ==> o.tracking.None?
    ensures c[1].1.Some? ==> forall o :: o in c[1].1.value ==> o.tracking.Some?
  {
    ViewTracking(notShipped, false);
    ViewTracking(shipped, true);
    ViewTracking(awaiting, false);
    ViewTracking(completed, false);
    Assemble(ViewOrders(notShipped, false), ViewOrders(shipped, true),
             ViewOrders(awaiting, false), ViewOrders(completed, false))
  }

  /** `get_open_orders` with the corrected pager loop. */
  function GetOpenOrdersCorrected(notShipped: View, shipped: View, awaiting: View, completed: View): (c: Collection)
    ensures |c| == 4
    ensures c[0].0 == NotShipped && c[1].0 == Shipped && c[2].0 == AwaitingPayment && c[3].0 == Completed
    ensures c[0].1 == Intended(notShipped.initial, notShipped.labels, PageSource(notShipped, false)).orders
    ensures c[1].1 == Intended(shipped.initial, shipped.labels, PageSource(shipped, true)).orders
    ensures c[2].1 == Intended(awaiting.initial, awaiting.labels, PageSource(awaiting, false)).orders
    ensures c[3].1 == Intended(completed.initial, completed.labels, PageSource(completed, false)).orders
    ensures forall i :: 0 <= i < 4 && i != 1 && c[i].1.Some? ==>
      forall o :: o in c[i].1.value ==> o.tracking.None?
    ensures c[1].1.Some? ==> forall o :: o in c[1].1.value ==> o.tracking.Some?
  {
    CorrectedViewTracking(notShipped, false);
    CorrectedViewTracking(shipped, true);
    CorrectedViewTracking(awaiting, false);
    CorrectedViewTracking(completed, false);
    Assemble(CorrectedViewOrders(notShipped, false), CorrectedViewOrders(shipped, true),
             CorrectedViewOrders(awaiting, false), CorrectedViewOrders(completed, false))
  }

  /** Whenever the corrected program collects a category, the program as
      written collects it too, and its orders are a prefix of the corrected
      ones: only the orders of each view's last page can be missing. */
  lemma CorrectedExtends(notShipped: View, shipped: View, awaiting: View, completed: View)
    ensures var w, c := GetOpenOrders(notShipped, shipped, awaiting, completed),
                        GetOpenOrdersCorrected(notShipped, shipped, awaiting, completed);
      forall i :: 0 <= i < 4 && c[i].1.Some? ==> w[i].1.Some? && w[i].1.value <= c[i].1.value
  {
    AsWrittenIsPrefix(notShipped.initial, notShipped.labels, PageSource(notShipped, false));
    AsWrittenIsPrefix(shipped.initial, shipped.labels, PageSource(shipped, true));
    AsWrittenIsPrefix(awaiting.initial, awaiting.labels, PageSource(awaiting, false));
    AsWrittenIsPrefix(completed.initial, completed.labels, PageSource(completed, false));
  }

  /** Dictionary lookup: None for a missing key (the KeyError). */
  function Lookup(c: Collection, key: string): Option<Option<seq<Order>>> {
    if c == [] then None
    else if c[0].0 == key then Some(c[0].1)
    else Lookup(c[1..], key)
  }
}
