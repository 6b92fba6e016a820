/** `AliExpress.parse_orders_page`: each order card of one order-list page
    becomes an order record, optionally enriched with the shipment tracking
    read from the tracking balloon. The markup is replaced by what the
    selectors find: a required element is `Some(text)` when its first match
    exists (and, for a link, carries the attribute) and `None` otherwise. */
module Extraction {
  import opened Wrappers
  import opened Text

  /** What the selectors find in one '.product-sets' node: link attributes
      are None when the link or the attribute is missing, and the amount text
      is empty when its element is missing. */
  datatype ProductNode = ProductNode(
    title: Option<string>, url: Option<string>, amountText: string, policy: Option<string>)

  datatype Product = Product(
    title: Option<string>, url: Option<string>, amount: string, property: Option<string>)

  /** The tracking balloon as the driver sees it while the card is handled:
      the '.bold-text-remind' label, the '.event-line-key' text, the
      '.no-event' text and the href of its link; None when not found. */
  datatype Popup = Popup(
    remind: Option<string>, eventLine: Option<string>, noEvent: Option<string>, noEventHref: Option<string>)

  /** One '.order-item-wraper' card. The first six fields are the elements
      indexed with `[0]`; status and days-left are `.text()` reads, empty when
      absent. */
  datatype Card = Card(
    orderId: Option<string>, orderUrl: Option<string>, orderDate: Option<string>,
    store: Option<string>, storeUrl: Option<string>, amount: Option<string>,
    products: seq<ProductNode>, status: string, daysLeft: string, popup: Popup)

  datatype Tracking = Tracking(id: string, status: string)

  datatype Order = Order(
    orderId: string, orderUrl: string, orderDate: string, store: string, storeUrl: string,
    amount: string, products: seq<Product>, status: string, daysLeft: string,
    tracking: Option<Tracking>)

  const IdError := "<Error in Parsing Tracking ID>"
  const IdErrorStatus := "<Tracking Parse Error due to Error in Parsing Tracking ID>"
  const StatusError := "<Tracking Parse Error>"
  const ManualPrefix := "Manual Tracking: "

  /** Every element the card's dictionary indexes with `[0]` is present. */
  predicate Complete(c: Card) {
    c.orderId.Some? && c.orderUrl.Some? && c.orderDate.Some? &&
    c.store.Some? && c.storeUrl.Some? && c.amount.Some?
  }

  function ProductOf(n: ProductNode): Product {
    Product(n.title, n.url, Strip(n.amountText), n.policy)
  }

  /** The `product_list` comprehension. */
  function ProductList(nodes: seq<ProductNode>): (ps: seq<Product>)
    ensures |ps| == |nodes|
    ensures forall j :: 0 <= j < |nodes| ==> ps[j] == ProductOf(nodes[j])
  {
    seq(|nodes|, i requires 0 <= i < |nodes| => ProductOf(nodes[i]))
  }

  /** The second ':'-separated field of the stripped label, stripped; None
      when there is no label or the label has no ':' (the IndexError). */
  function TrackingId(remind: Option<string>): (r: Option<string>)
    ensures r.None? <==> remind.None? || ':' !in remind.value
    ensures r.Some? ==> ':' !in r.value && Trimmed(r.value)
  {
    if remind.None? then None
    else
      var parts := Split(Strip(remind.value), ':');
      StripKeepsChar(remind.value, ':');
      CountIn(Strip(remind.value), ':');
      SplitSpec(Strip(remind.value), ':');
      if |parts| < 2 then None
      else
        StripKeepsChar(parts[1], ':');
        Some(Strip(parts[1]))
  }

  function TrackingStatus(p: Popup): string {
    if p.eventLine.Some? then p.eventLine.value
    else if p.noEvent.Some? && p.noEventHref.Some? then ManualPrefix + Strip(p.noEventHref.value)
    else StatusError
  }

  /** The tracking fields read from the balloon. */
  function TrackingOf(p: Popup): Tracking {
    match TrackingId(p.remind)
    case None => Tracking(IdError, IdErrorStatus)
    case Some(id) => Tracking(id, TrackingStatus(p))
  }

  /** The tracking fallback chain never fails: without a readable id both
      fields are the error sentinels; otherwise the id is the stripped
      second ':'-field and the status falls back from the event line to
      the manual-tracking link to the parse-error sentinel. */
  lemma TrackingFallback(p: Popup)
    ensures var t := TrackingOf(p);
      && (p.remind.None? || ':' !in p.remind.value ==> t == Tracking(IdError, IdErrorStatus))
      && (p.remind.Some? && ':' in p.remind.value ==>
        && ':' !in t.id && Trimmed(t.id)
        && (p.eventLine.Some? ==> t.status == p.eventLine.value)
        && (p.eventLine.None? && p.noEvent.Some? && p.noEventHref.Some? ==>
              t.status == ManualPrefix + Strip(p.noEventHref.value))
        && (p.eventLine.None? && (p.noEvent.None? || p.noEventHref.None?) ==> t.status == StatusError))
  {
  }

  /** Stripping a label leaves its first ':' in place: the fields after it
      are those of a prefix `z` of the text after that ':', and what is cut
      from that text is whitespace. */
  lemma StripAroundColon(a: string, tail: string) returns (z: string)
    requires ':' !in a
    ensures |z| <= |tail| && z == tail[..|z|] && SpaceFrom(tail, |z|)
    ensures |Split(Strip(a + [':'] + tail), ':')| >= 2
    ensures Split(Strip(a + [':'] + tail), ':')[1..] == Split(z, ':')
  {
    var s := a + [':'] + tail;
    StripSpec(s);
    var i, r := StripOffset(s), Strip(s);
    var e := i + |r|;
    assert s[|a|] == ':' && !IsSpace(':');
    assert i <= |a| < e;
    z := tail[..e - |a| - 1];
    assert r == a[i..] + [':'] + z by {
      assert r == s[i..e];
      assert s[i..e] == s[i..|a|] + [':'] + s[|a| + 1..e];
      assert s[i..|a|] == a[i..];
      assert s[|a| + 1..e] == z;
    }
    assert SpaceFrom(tail, |z|) by {
      forall k | |z| <= k < |tail| ensures IsSpace(tail[k]) { assert tail[k] == s[|a| + 1 + k]; }
    }
    assert ':' !in a[i..];
    SplitFirst(a[i..], ':', z);
  }

  /** The tracking id is the text between the label's first and second ':'
      (or its end), without surrounding whitespace. */
  lemma TrackingIdBetweenColons(a: string, b: string, rest: string)
    requires ':' !in a && ':' !in b
    requires rest == [] || rest[0] == ':'
    ensures TrackingId(Some(a + [':'] + b + rest)) == Some(Strip(b))
  {
    var tail := b + rest;
    assert a + [':'] + b + rest == a + [':'] + tail;
    var z := StripAroundColon(a, tail);
    if rest == [] {
      assert tail == b;
      SplitNoSep(z, ':');
      StripTrailing(b, |z|);
    } else {
      assert tail[|b|] == ':' && !IsSpace(':');
      assert |z| > |b|;
      assert z == b + [':'] + z[|b| + 1..];
      SplitFirst(b, ':', z[|b| + 1..]);
    }
  }

  /** The order record built from a complete card. */
  function OrderOf(c: Card, tracking: bool): Order
    requires Complete(c)
  {
    Order(c.orderId.value, c.orderUrl.value, c.orderDate.value, c.store.value, c.storeUrl.value,
          Strip(c.amount.value), ProductList(c.products), c.status, Strip(c.daysLeft),
          if tracking then Some(TrackingOf(c.popup)) else None)
  }

  /** An order keeps the card's first five fields as found, its amounts and
      days-left without surrounding whitespace, one product per product node,
      and tracking fields exactly when `tracking` is set. */
  lemma OrderShape(c: Card, tracking: bool)
    requires Complete(c)
    ensures var o := OrderOf(c, tracking);
      && o.orderId == c.orderId.value && o.orderUrl == c.orderUrl.value
      && o.orderDate == c.orderDate.value && o.store == c.store.value && o.storeUrl == c.storeUrl.value
      && o.status == c.status
      && o.amount == Strip(c.amount.value) && Trimmed(o.amount)
      && o.daysLeft == Strip(c.daysLeft) && Trimmed(o.daysLeft)
      && |o.products| == |c.products|
      && (forall j :: 0 <= j < |c.products| ==>
            && o.products[j].title == c.products[j].title
            && o.products[j].url == c.products[j].url
            && o.products[j].property == c.products[j].policy
            && o.products[j].amount == Strip(c.products[j].amountText)
            && Trimmed(o.products[j].amount))
      && (o.tracking.Some? <==> tracking)
      && (tracking ==> o.tracking.value == TrackingOf(c.popup))
  {
    var o := OrderOf(c, tracking);
    forall j | 0 <= j < |c.products|
      ensures o.products[j] == ProductOf(c.products[j]) && Trimmed(o.products[j].amount)
    {
      assert o.products[j] == ProductOf(c.products[j]);
    }
  }

  /** The orders of one page: one per card in document order, or None when a
      card lacks a required element (the exception aborts the whole page). */
  function PageOrders(cards: seq<Card>, tracking: bool): Option<seq<Order>> {
    if cards == [] then Some([])
    else
      var init, last := cards[..|cards| - 1], cards[|cards| - 1];
      match PageOrders(init, tracking)
      case None => None
      case Some(prev) => if Complete(last) then Some(prev + [OrderOf(last, tracking)]) else None
  }

  /** A page yields orders exactly when every card is complete. */
  lemma {:induction false} PageOrdersSome(cards: seq<Card>, tracking: bool)
    ensures PageOrders(cards, tracking).Some? <==> forall i :: 0 <= i < |cards| ==> Complete(cards[i])
  {
    if cards != [] {
      var init := cards[..|cards| - 1];
      PageOrdersSome(init, tracking);
      assert forall i :: 0 <= i < |init| ==> init[i] == cards[i];
    }
  }

  /** The orders of a page are one per card, in document order. */
  lemma {:induction false} PageOrdersEach(cards: seq<Card>, tracking: bool)
    requires forall i :: 0 <= i < |cards| ==> Complete(cards[i])
    ensures PageOrders(cards, tracking).Some?
    ensures var r := PageOrders(cards, tracking).value;
      |r| == |cards| && forall i :: 0 <= i < |cards| ==> r[i] == OrderOf(cards[i], tracking)
  {
    if cards != [] {
      var init := cards[..|cards| - 1];
      assert forall i :: 0 <= i < |init| ==> init[i] == cards[i];
      PageOrdersEach(init, tracking);
    }
  }

  /** One more card extends the page's orders by that card's order. */
  lemma PageOrdersStep(cards: seq<Card>, i: nat, tracking: bool)
    requires i < |cards|
    ensures PageOrders(cards[..i + 1], tracking) ==
      match PageOrders(cards[..i], tracking)
      case None => None
      case Some(prev) => if Complete(cards[i]) then Some(prev + [OrderOf(cards[i], tracking)]) else None
  {
    assert cards[..i + 1][..i] == cards[..i];
  }

  /** `parse_orders_page(src, track)`: tracking is read only when a driver is
      present and `track` is set. */
  method ParseOrdersPage(cards: seq<Card>, driverPresent: bool, track: bool) returns (r: Option<seq<Order>>)
    ensures r == PageOrders(cards, driverPresent && track)
  {
    var tracking := driverPresent && track;
    var orders: seq<Order> := [];
    var i := 0;
    while i < |cards|
      invariant 0 <= i <= |cards|
      invariant PageOrders(cards[..i], tracking) == Some(orders)
    {
      var card := cards[i];
      PageOrdersStep(cards, i, tracking);
      if !Complete(card) {
        PageOrdersSome(cards, tracking);
        return None;
      }
      var order := OrderOf(card, tracking);
      orders := orders + [order];
      i := i + 1;
    }
    assert cards[..i] == cards;
    r := Some(orders);
  }
}
