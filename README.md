# IKEA availability checker — Dafny model

A model of the data logic of the two near-duplicate IKEA stock-checker
scripts, `main.py` and `ikea-checker.py`. Each script resolves a watchlist of
store names against the store directory, requests the catalog entries of a
watchlist of product ids, and looks up stock for every (product, store) pair.
It then builds one item per product with one stock entry per store, splits the
items into available and unavailable, and renders a message body. The HTTP
fetches are not modelled: their decoded JSON is supplied as typed inputs.
The store directory is an `Option<seq<StoreRef>>`. The catalog is a function
from the request's id segment to `Option<seq<Product>>`. The availability
lookup is a function from `(store_id, product_id)` to
`Option<AvailabilityResponse>`, and `None` stands for a failed fetch.

The shared logic is modelled once. A `Variant` (`MainScript` or `Checker`)
selects where the scripts differ:

- `ikea-checker.py` treats a missing `RestockDateTime` key as no restock date. `main.py` raises `KeyError` when the key is missing and the stock is not positive (main.py:138-141).
- `ikea-checker.py` adds `image_url`, built from the second catalog image. A product with fewer than two images raises `IndexError`.
- `main.py` renders plain text inline in `__main__`. It raises `NameError` when every item is available.
- `ikea-checker.py` renders HTML in `parse_result` and `build_items_string`. It returns `''` when every item is available, so nothing is mailed.

Python exceptions are values of the `Fault` datatype inside a `Result`. A run
that raises ends in `Crashed(fault)`. The first fault in loop order wins.

Modules: `Wrappers` (Option), `Seqs` (order-preserving filter),
`Strings` (`join`, `split`, `str(int)`, `int(str)`), `Records` (the JSON
records and faults), `Stores` (`get_store_info`), `Products`
(`get_product_info`), `Aggregation` (`build_result`), `Report` (partition and
rendering), `Scripts` (the two `__main__` blocks).

Behaviours of the code worth noting:

- A failed availability fetch is not isolated per pair. `build_result` subscripts the `None` (main.py:129-130), and the whole run fails.
- A restock date is attached for any stock `<= 0`, not only for stock `== 0` (main.py:138-143).
- `ikea-checker.py` mails only when some item is available AND some item is unavailable (ikea-checker.py:175-178, 211-215).

## Model

| member | source | states |
|---|---|---|
| `Stores.GetStoreInfo` | main.py:41-73 | a failed directory fetch gives None; a returned store list is never empty |
| `Stores.StoreInfoExact` | main.py:56-57 | a store is resolved iff it is in the directory with a watched `StoreName`, and it appears as often as in the directory |
| `Stores.StoreInfoOrder` | main.py:56-57 | the resolved stores are a subsequence of the directory: directory order is kept |
| `Stores.StoreInfoNone` | main.py:59-73 | the result is None exactly when the fetch failed or no directory entry matches a watched name |
| `Stores.UnmatchedNames` | main.py:60-66 | a watched name is in the unmatched set iff no directory entry has it; the set is empty iff every watched name has a matching entry |
| `Products.ProductIdsString` | main.py:78 | the id segment is empty exactly when the id list is empty |
| `Products.ProductIdsRoundTrip` | main.py:78 | for ids without `;`, splitting the segment on `;` gives one part per id, in order, each `ART,` followed by the id |
| `Products.GetProductInfo` | main.py:76-95 | the result is the catalog response for the joined id segment; a failed or empty response gives None, so an empty list is never returned |
| `Strings.ParseIntRoundTrip` | main.py:130 | reading back a rendered stock count with `int()` gives the same integer |
| `Aggregation.ImageUrl` | ikea-checker.py:130 | succeeds iff the product has at least two images; the URL is `https://www.ikea.com` followed by the second image's `ImageUrl`; otherwise the fault is an IndexError |
| `Aggregation.EntryFor` | ikea-checker.py:134-155 | for one pair, faults iff the fetch failed, the stock is not an integer, or (main.py only) the stock is not positive and `RestockDateTime` is missing; the entry names the store, carries the parsed stock, and has a restock date iff stock <= 0 and the upstream value is truthy, in which case it is that value |
| `Aggregation.StoreStock` | main.py:129-143 | the body of the store loop computes exactly `EntryFor` for its pair |
| `Aggregation.BuildStock` | main.py:128-145 | the store loop yields the entries in store order or the first fault, and the `available` flag, which starts false, ends true iff some entry's stock is positive |
| `Aggregation.BuildResult` | main.py:118-147 | the nested loops compute exactly the specification `Aggregate` |
| `Aggregation.EntriesShape` | main.py:128-145 | a completed store loop has one entry per store, the j-th being the entry for the j-th store |
| `Aggregation.EntriesOk` | main.py:129-130 | the store loop completes iff every store's entry does |
| `Aggregation.AggregateShape` | main.py:119-147 | one item per product in product order; each has the product's id and name, one entry per store in store order, `available` iff some stock is positive, and an image exactly in ikea-checker.py |
| `Aggregation.AggregateOk` | main.py:129-130 | `build_result` succeeds iff every image (ikea-checker.py) and every pair's entry succeed, so one failed fetch fails the whole call |
| `Aggregation.NothingInStock` | main.py:138-139 | with every lookup succeeding and no positive stock anywhere, `build_result` succeeds and no item is available |
| `Report.Available` | ikea-checker.py:161-167 | the available group keeps the items' images |
| `Report.Unavailable` | ikea-checker.py:161-167 | the unavailable group keeps the items' images |
| `Report.Partition` | main.py:162-168 | the partition loop builds exactly the available and unavailable groups |
| `Report.PartitionSplits` | ikea-checker.py:161-167 | together the groups hold every item exactly once (multiset), each group keeps the original relative order, and an item is in the available group iff its flag is set |
| `Report.FilterKeepsImages` | ikea-checker.py:170-173 | filtering items that all have an image keeps that property |
| `Report.RenderStockLines` | ikea-checker.py:187-193 | the stock-line loop builds the concatenation of one rendered line per entry, in order |
| `Report.StockLineNewlines` | main.py:179-180 | a rendered stock line has exactly one newline, at its end, when name and date hold none |
| `Report.StockStringLines` | ikea-checker.py:186-193 | the stock block has one line per stock entry |
| `Report.RenderPlainItems` | main.py:171-184 | main.py's item loop builds the plain-text blocks of the items, in order |
| `Report.BuildItemsString` | ikea-checker.py:183-198 | `build_items_string`'s nested loops build the HTML blocks of the items, in order |
| `Report.PlainItemsConcat` | main.py:171-184 | main.py's item loop over `[]` gives `''`, and rendering a concatenation of lists gives the concatenation of their renderings |
| `Report.HtmlItemsConcat` | ikea-checker.py:184-198 | `build_items_string([])` is `''`, and rendering a concatenation of lists gives the concatenation of their renderings |
| `Report.BodyLayout` | ikea-checker.py:175-178 | in the body the greeting comes first, then the "Now available" heading and section, a blank line, then the "Still not available" heading and section |
| `Report.MainReport` | main.py:162-209 | the inline partition and rendering of main.py compute exactly `MainMessage` |
| `Report.MainMessageOutcome` | main.py:170-209 | main.py prints nothing iff no item is available, and raises NameError iff there are items and all are available |
| `Report.MainMessageLayout` | main.py:204-209 | main.py's body starts with `Hey, me!`, and the available section precedes the unavailable one |
| `Report.ParseResult` | ikea-checker.py:160-181 | `parse_result` computes exactly `ParseMessage` |
| `Report.ParseMessageOutcome` | ikea-checker.py:169-181 | `parse_result` is None iff no item is available, and `''` iff there are items and all are available |
| `Report.ParseMessageLayout` | ikea-checker.py:175-178 | a non-empty body starts with `<h1>Hey, me!</h1>`, and the "Now available" section precedes the "Still not available" one |
| `Scripts.BuildFrom` | main.py:156-160 | a failed product resolution raises TypeError; an empty product list builds nothing; a failed store resolution faults whenever there is a product, and in ikea-checker.py the first product's missing image is reported before the TypeError; with both resolved it is `build_result` |
| `Scripts.CheckerItemsHaveImages` | ikea-checker.py:126-132 | every item ikea-checker.py builds has an `image_url`, so `build_items_string` never misses it |
| `Scripts.MainRunOutcome` | main.py:150-212 | main.py prints nothing iff building succeeds and no item is available, and crashes iff building fails or all of at least one item are available |
| `Scripts.CheckerRunOutcome` | ikea-checker.py:201-215 | ikea-checker.py crashes iff building fails, and mails iff some item is available and some is not |
| `Scripts.NothingInStockNoMessage` | ikea-checker.py:209-215 | with every lookup succeeding and no positive stock anywhere, neither script produces a message |
| `Scripts.RenderedRestock` | main.py:138-143 | a rendered stock line has the `– expected <date>` suffix iff the stock is not positive and the response's restock value is truthy, and the date shown is that value |

## Left out

- Session setup, headers and retry policy (`start_session`): HTTP-client plumbing with no data logic.
- The HTTP GETs, `raise_for_status` and `r.json()`: network I/O. Their decoded results are parameters, and every failure is `None`.
- The endpoint URLs: only the joined product-id segment is modelled.
- `send_mail`, `yagmail` and credential loading from `sys.argv` / `os.environ`: mail transport and process configuration. A run's `Message` body is what would be printed or mailed.
- `print` logging, including the unmatched-name message. The unmatched set is modelled as the value `Stores.Unmatched`.
- JSON shape faults other than the missing `RestockDateTime` key and the missing second image: the records are typed, so a missing `StoreName`, `ItemNo`, `AvailableStock` or `'$'` cannot be expressed. A `RestockDateTime` that is not a dict is not modelled either.
- Strings.ParseInt: accepts an optional sign and ASCII digits only. Python's `int()` also accepts surrounding whitespace, underscores between digits and non-ASCII digits.
- Truthiness of JSON values other than strings (a numeric `'$'` restock value, say): restock values are strings.
- The `item` dict is updated in place by the source. The model builds the stock list and `available` flag in locals and creates the item value after the store loop; no other reference to the dict exists, so nothing observable is lost.
- `print(result)` at the end of main.py: output only.
- Aggregation.Lookup: a total function of `(store_id, product_id)`. A directory that lists the same store twice sends two requests in the source, whose responses may differ; the model gives both the same response.
