/** The CSV export of the command-line entry point: the 'Shipped' orders are
    written one row each, preceded by a header row of the first order's keys.
    The csv module's quoting and the text form of `product_list` are not
    modelled; a row is the sequence of values it is written from. */
module CsvExport {
  import opened Wrappers
  import opened Extraction
  import opened Orders

  /** A dictionary value of an order record. */
  datatype Value = Str(text: string) | Items(products: seq<Product>)

  /** The order record as a dictionary, in its insertion order: the nine keys
      of the literal, then the two tracking keys when tracking was read. */
  function Fields(o: Order): seq<(string, Value)> {
    [("order_id", Str(o.orderId)), ("order_url", Str(o.orderUrl)),
     ("order_dt", Str(o.orderDate)), ("order_store", Str(o.store)),
     ("order_store_url", Str(o.storeUrl)), ("order_amount", Str(o.amount)),
     ("product_list", Items(o.products)), ("status", Str(o.status)),
     ("status_days_left", Str(o.daysLeft))]
    + (if o.tracking.Some? then
         [("tracking_id", Str(o.tracking.value.id)), ("tracking_status", Str(o.tracking.value.status))]
       else [])
  }

  const BaseKeys: seq<string> := ["order_id", "order_url", "order_dt", "order_store",
    "order_store_url", "order_amount", "product_list", "status", "status_days_left"]
  const TrackingKeys: seq<string> := ["tracking_id", "tracking_status"]

  /** `dict.keys()` */
  function Keys(d: seq<(string, Value)>): (ks: seq<string>)
    ensures |ks| == |d|
  {
    seq(|d|, i requires 0 <= i < |d| => d[i].0)
  }

  /** `dict.values()` */
  function Values(d: seq<(string, Value)>): (vs: seq<Value>)
    ensures |vs| == |d|
  {
    seq(|d|, i requires 0 <= i < |d| => d[i].1)
  }

  /** An order's keys depend only on whether it carries tracking. */
  lemma KeysOfOrder(o: Order)
    ensures Keys(Fields(o)) == BaseKeys + (if o.tracking.Some? then TrackingKeys else [])
  {
  }

  datatype Row = Header(names: seq<string>) | Data(cells: seq<Value>)

  /** The rows written for a list of orders. */
  function Table(s: seq<Order>): seq<Row> {
    if s == [] then []
    else [Header(Keys(Fields(s[0])))] + seq(|s|, i requires 0 <= i < |s| => Data(Values(Fields(s[i]))))
  }

  /** The rows written for the collection: None when it has no 'Shipped' key
      (a KeyError) or that view failed (iterating None is a TypeError). */
  function Export(c: Collection): Option<seq<Row>> {
    match Lookup(c, Shipped)
    case None => None
    case Some(None) => None
    case Some(Some(s)) => Some(Table(s))
  }

  /** The loop with its `first` flag. */
  method CsvRows(c: Collection) returns (rows: Option<seq<Row>>)
    ensures rows == Export(c)
    ensures rows.None? <==> Lookup(c, Shipped).None? || Lookup(c, Shipped).value.None?
    ensures rows.Some? ==>
      var s := Lookup(c, Shipped).value.value;
      && (s == [] <==> rows.value == [])
      && (s != [] ==> |rows.value| == |s| + 1 && rows.value[0] == Header(Keys(Fields(s[0]))))
      && (forall i :: 0 <= i < |rows.value| ==> (rows.value[i].Header? <==> i == 0))
      && (forall i :: 0 <= i < |s| ==> rows.value[i + 1] == Data(Values(Fields(s[i]))))
  {
    var shipped := Lookup(c, Shipped);
    if shipped.None? || shipped.value.None? {
      return None;
    }
    var s := shipped.value.value;
    var out: seq<Row> := [];
    var first := true;
    for i := 0 to |s|
      invariant first <==> i == 0
      invariant i == 0 ==> out == []
      invariant i > 0 ==> |out| == i + 1 && out[0] == Header(Keys(Fields(s[0])))
      invariant i > 0 ==> forall k :: 0 <= k < i ==> out[k + 1] == Data(Values(Fields(s[k])))
    {
      var order := Fields(s[i]);
      if first {
        first := false;
        out := out + [Header(Keys(order))];
      }
      out := out + [Data(Values(order))];
    }
    assert s != [] ==> out == Table(s);
    rows := Some(out);
  }

  /** Only the 'Shipped' entry is exported: two collections that agree on
      it export the same rows. */
  lemma OnlyShippedExported(c1: Collection, c2: Collection)
    requires Lookup(c1, Shipped) == Lookup(c2, Shipped)
    ensures Export(c1) == Export(c2)
  {
  }

  /** The assembled collection always has a 'Shipped' entry: the export fails
      only when that view's pager failed. */
  lemma {:induction false} ExportOfOpenOrders(notShipped: View, shipped: View, awaiting: View, completed: View)
    ensures var c := GetOpenOrders(notShipped, shipped, awaiting, completed);
      Lookup(c, Shipped) == Some(c[1].1) &&
      (Export(c).None? <==> c[1].1.None?)
  {
    var c := GetOpenOrders(notShipped, shipped, awaiting, completed);
    assert c[0].0 != Shipped;
    assert c[1..][0].0 == Shipped;
  }

  /** The rows exported from `get_open_orders` line up: the header names the
      nine fields and the two tracking fields, and every data row has one
      cell per name. */
  lemma ExportAligned(notShipped: View, shipped: View, awaiting: View, completed: View)
    ensures var c := GetOpenOrders(notShipped, shipped, awaiting, completed);
      Export(c).Some? && Export(c).value != [] ==>
        var rows := Export(c).value;
        && rows[0].Header?
        && rows[0].names == BaseKeys + TrackingKeys
        && forall i :: 1 <= i < |rows| ==> rows[i].Data? && |rows[i].cells| == |rows[0].names|
  {
    var c := GetOpenOrders(notShipped, shipped, awaiting, completed);
    ExportOfOpenOrders(notShipped, shipped, awaiting, completed);
    if Export(c).Some? && Export(c).value != [] {
      var s := c[1].1.value;
      assert s[0] in s;
      KeysOfOrder(s[0]);
      forall i | 1 <= i < |Table(s)| ensures Table(s)[i].Data? && |Table(s)[i].cells| == |Table(s)[0].names| {
        assert s[i - 1] in s;
        KeysOfOrder(s[i - 1]);
      }
    }
  }
}
