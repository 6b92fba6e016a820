# AliExpress open-orders scraper, modelled in Dafny

`aliexpress.py` logs in to a buyer's AliExpress account in a headless
browser, reads the "open orders" list in four order-status views, turns each
order card into a record, optionally reads tracking information, and exports
the result as JSON and, for the 'Shipped' view only, as CSV. This project
models the program's decision logic. It does not model the browser. Each
browser observation becomes an input to the model: whether an element
appeared, the text of a pager label, what a CSS selector found on a card.

Modules, one per part of the program:

- `Wrappers`: the `Option` type.
- `Text`: the Python string operations the program relies on:
  - `str.strip()` with Python's whitespace set;
  - `str.split(sep)` for a single-character separator, with `Join` partnering it;
  - `int()` on a decimal literal, with `FormatInt` as its partner.
- `Cookies`: restoring the pickled session cookies at the start of `login`,
  with the domain filter.
- `Login`: the try/except/finally of `login`, as a function of four
  observations. Its result is the trace of side effects, the exception that
  escapes, and whether `cookies.pkl` exists afterwards.
- `Extraction`: `parse_orders_page`. Covers the required fields of a card,
  the product list, and the tracking fallback chain.
- `Pager`: the pagination loop of `parse_orders`. It comes in two versions,
  the loop as written and the loop as evidently intended (see "Findings").
  Each version is a method proved equal to a recursive specification
  function.
- `Orders`: `get_open_orders`, the four views collected under their
  category labels.
- `CsvExport`: the CSV loop of the command-line entry point, with its
  `first` flag.

Two behaviours of the code are worth stating up front:

- The pager swallows every exception inside its loop, prints it and returns
  `None`, discarding the orders collected so far (:207-208).
- The comment at :203 says "break after having parsed the last page", but
  for the labels "1/3", "2/3", "3/3" the loop extracts only two pages. The
  model keeps the loop as written and adds a corrected loop beside it (see
  "Findings").

## Model

| member | source | states |
|---|---|---|
| Cookies.RestoreCookies | aliexpress.py:79-87 | When the cookie file cannot be loaded, nothing is restored. Otherwise the `add_cookie` calls are exactly the saved cookies whose domain is `.aliexpress.com` or `login.aliexpress.com`, in saved order. |
| Cookies.FilteredMembers | aliexpress.py:81-85 | A cookie is restored if and only if it was saved and its domain is one of the two allowed ones. |
| Cookies.FilteredCount | aliexpress.py:81-85 | An allowed cookie is restored as often as it was saved; any other cookie is never restored. |
| Cookies.FilteredAppend | aliexpress.py:81-85 | Restoring a concatenation restores each part in turn, so relative order is kept. |
| Cookies.FilteredIdempotent | aliexpress.py:81-85 | Filtering already-restored cookies changes nothing. |
| Login.Login | aliexpress.py:91-125 | The credential branch runs if and only if the cookie file is missing or the 10-unit probe fails. In that branch the cookie file is removed before the credentials are sent. Cookies are saved if and only if the final probe succeeds, and saving is the last effect. A failed final probe is the exception that escapes, replacing a pending form timeout. The form timeout escapes only when the final probe succeeded. Login returns normally exactly when the final probe succeeds and either the session was usable or the form appeared. The cookie file exists afterwards exactly when the final probe succeeded or the stored session was used. |
| Login.SessionResumes | aliexpress.py:91-125 | After a run that returned normally, a next run whose 10-unit probe succeeds neither removes the cookie file nor sends the credentials. |
| Text.StripIdempotent | aliexpress.py:137 | Stripping twice is stripping once (Python `str.strip`). |
| Text.StripUnique | aliexpress.py:137 | `Strip(s)` is the unique slice of `s` that has only whitespace outside it and is trimmed itself. |
| Text.SplitSpec | aliexpress.py:194 | `split(sep)` gives one part more than there are separators, no part contains the separator, and joining the parts gives back the input. |
| Text.SplitJoin | aliexpress.py:194 | Splitting undoes joining parts that contain no separator. |
| Text.ParseIntFormat | aliexpress.py:194 | `int()` reads back every integer's decimal form. |
| Pager.ParseFormatLabel | aliexpress.py:194 | Every label "cur/total" the site formats parses back to (cur, total). |
| Pager.LabelHasOneSlash | aliexpress.py:194 | A label is accepted only if it holds exactly one '/'. |
| Pager.ParseOrders | aliexpress.py:192-208 | The method, which reads labels and extracts pages in a `while` loop, computes exactly the as-written pager run `AsWritten`: its orders, the number of clicks and the number of extractions. |
| Pager.AsWrittenSuccess | aliexpress.py:192-208 | When the as-written pager returns orders, every page it extracted yielded orders, and the result is those pages' orders concatenated in page order. |
| Pager.AsWrittenAdvancing | aliexpress.py:192-208 | On a view of T pages whose labels advance one page per click, the as-written pager clicks T-1 times and extracts max(1, T-1) pages, so the last page of a multi-page view is never extracted. |
| Pager.StartBeyondTotal | aliexpress.py:195 | A first label beyond the total yields no orders, with no click and no extraction. |
| Pager.UnreadableFirstLabel | aliexpress.py:193-194 | An unparsable first label makes the view fail before anything is extracted. |
| Pager.AsWrittenIsPrefix | aliexpress.py:192-208 | The as-written and corrected loops click the same number of times. The as-written loop extracts the same number of pages or one fewer. Whenever the corrected loop succeeds, the as-written loop succeeds too, and its orders are a prefix of the corrected loop's orders. |
| Pager.ThreePageView | aliexpress.py:199-204 | For the labels "1/3", "2/3", "3/3", the loop as written clicks twice and extracts only pages 1 and 2. The corrected loop extracts all three. |
| Pager.ParseOrdersIntended | aliexpress.py:192-208 | The corrected loop's method computes exactly the corrected specification `Intended`. |
| Pager.IntendedSuccess | aliexpress.py:192-208 | When the corrected pager returns orders, they are the concatenation, in page order, of every page it extracted. |
| Pager.IntendedAdvancing | aliexpress.py:192-208 | On a view of T pages with advancing labels, the corrected pager clicks T-1 times and extracts all T pages. |
| Extraction.ParseOrdersPage | aliexpress.py:127-173 | The card loop returns `PageOrders(cards, driver and track)`. That is None when a card fails, and otherwise one order per card. |
| Extraction.PageOrdersSome | aliexpress.py:130-146 | A page yields orders if and only if every card has all six required elements. |
| Extraction.PageOrdersEach | aliexpress.py:130-172 | The orders of a page are one per card, in document order. |
| Extraction.OrderShape | aliexpress.py:131-146 | An order keeps the card's id, URLs, date, store and status as found. Its amount and days-left are `Strip` of the card's text, and so have no surrounding whitespace. It has one product per product node, each keeping the node's title, URL and property, with its amount `Strip` of the node's amount text. Tracking fields are present exactly when tracking was asked for, and are then `TrackingOf` the balloon. |
| Extraction.TrackingId | aliexpress.py:154 | The tracking id is missing exactly when the balloon label is missing or has no ':'. Otherwise it contains no ':' and has no surrounding whitespace. |
| Extraction.TrackingIdBetweenColons | aliexpress.py:154 | The tracking id is the text between the label's first ':' and its second ':' (or its end), stripped. |
| Extraction.TrackingFallback | aliexpress.py:148-171 | Without a readable id, both fields are the two error sentinels. Otherwise the status is the event line when one is shown. Failing that, it is "Manual Tracking: " plus the stripped link of the no-event note. Failing that, it is the parse-error sentinel. |
| Orders.GetOpenOrders | aliexpress.py:210-236 | The four categories come in the source's order under its exact labels. Each entry is the as-written pager run on its view, with tracking requested for 'Shipped' only. Only the 'Shipped' orders carry tracking fields, and all of them do. |
| Orders.GetOpenOrdersCorrected | aliexpress.py:210-236 | The same collection with each entry the corrected pager run on its view, with the same tracking facts. |
| Orders.CorrectedExtends | aliexpress.py:199-204 | Whenever the corrected program collects a category, the program as written collects it too, and its orders are a prefix of the corrected ones. |
| Orders.ViewTracking | aliexpress.py:148-172 | Every order of a view read by the pager as written carries tracking fields exactly when tracking was requested for it. |
| Orders.CorrectedViewTracking | aliexpress.py:148-172 | The same for the corrected pager. |
| CsvExport.CsvRows | aliexpress.py:277-283 | The export fails when 'Shipped' is missing or that view failed. Otherwise it writes no row for no orders. Given orders, it writes one header row of the first order's keys followed by one data row of values per order, in order. Row 0 is the only header row. |
| CsvExport.KeysOfOrder | aliexpress.py:131-146 | An order's keys are the nine fields of the literal in order, followed by the two tracking keys when tracking was read. |
| CsvExport.OnlyShippedExported | aliexpress.py:278 | Only the 'Shipped' entry decides the export. |
| CsvExport.ExportOfOpenOrders | aliexpress.py:210-236 | The collection from `get_open_orders` always has a 'Shipped' entry, so its export fails only when that view's pager failed. |
| CsvExport.ExportAligned | aliexpress.py:277-283 | The CSV written from `get_open_orders` has a header naming the nine fields and the two tracking fields, and every data row has one cell per header name. |

## Left out

- Browser lifecycle and screenshots (:38-72), the window size (:75) and page navigation (:78, :89): these are I/O with no decision logic. The model starts from a present driver.
- Waits and sleeps: each `WebDriverWait` becomes a boolean saying whether the element appeared in time, and `time.sleep(5)` is dropped.
- CSS and XPath selector semantics, and PyQuery's whitespace normalisation in `.text()`: each selector is replaced by what it found. An element's `.text` that lxml reports as None (an empty element) is not modelled; text fields are strings.
- A cookie record without a 'domain' key, or `add_cookie` raising part-way through the loop (:79-87): the model restores either all allowed cookies or none.
- The 'localwrite' and 'localread' cache modes and the unknown-mode error (:182-190): file I/O only. The pager is modelled in 'webread' mode.
- The order-table read before the pager (:181): in 'webread' mode this driver call sits outside the `try` at :192. A missing `buyer-ordertable` therefore raises out of `parse_orders` and `get_open_orders`, and the call at :263 does not catch it. The model assumes the table is present; only failures inside the loop, which become `None`, are modelled.
- Orders.GetOpenOrders: an exception escaping `parse_orders` (the table read at :181, or the view-switching `find_element_by_id` calls) would abort the whole collection. The model gives every view a result instead.
- Pager.ParseOrders: the source loops forever when a re-read label keeps showing `cur < total` without advancing (:195-202). The model is given finitely many labels and reads running past them as the "Next" control being absent, which fails the view with `None`. It does not capture non-termination.
- The view-switching clicks and the 'FINISH' filter retry in `get_open_orders` (:214-234): UI steps with no data flow. Each view is given as what the browser shows in it.
- Pickling cookies, JSON output, the text form of `product_list` in a CSV cell and csv quoting (:125, :260-287): serialisation only.
- The `__main__` glue: argument parsing, environment variables, the DEBUG reload of orders.json, and exit codes.
- Python's `int()` on underscores and on non-ASCII digits: `Text.ParseInt` accepts an optional sign and ASCII digits only.
- Text.ParseIntFormat: the round trip is stated for the decimal form that Python's `str(int)` produces, not for every string `int()` accepts.
- Extraction.ParseOrdersPage: the whole-page failure via the tracking-failure message (`+ order['order_id']` with a None id) is not modelled, because ids are never None in this model.

## Findings

| source | as written | input that shows it | evidently intended | confidence | as-written member | corrected member |
|---|---|---|---|---|---|---|
| aliexpress.py:199-204 | After clicking "Next", the loop re-reads the label and breaks as soon as it shows the last page, before that page is extracted | pager labels "1/3", "2/3", "3/3" with all three pages readable: 2 clicks, only pages 1 and 2 extracted | extract the last page, then stop: 2 clicks and 3 extractions | not executed | Pager.ParseOrders (shown by Pager.ThreePageView and Pager.AsWrittenAdvancing) | Pager.ParseOrdersIntended (with Pager.IntendedAdvancing and Orders.GetOpenOrdersCorrected) |
