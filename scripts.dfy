/** The `__main__` blocks of main.py and ikea-checker.py: resolve stores
    and products, build the result, and render the message. The fetched
    JSON arrives as parameters; printing and mailing are left to the caller. */
module Scripts {
  import opened Wrappers
  import opened Records
  import Stores
  import Products
  import Aggregation
  import Report

  /** How a run ends: a message body to print (main.py) or mail
      (ikea-checker.py), no message, or an uncaught exception. */
  datatype Outcome = Message(body: string) | NoMessage | Crashed(fault: Fault)

  /** `build_result(products, stores)` where either argument may be the None
      of a failed resolver: iterating None raises TypeError, but an empty
      product list never reaches the stores, and ikea-checker.py computes the
      first product's `image_url` before iterating the stores. */
  function BuildFrom(v: Variant, products: Option<seq<Product>>, stores: Option<seq<StoreRef>>, lookup: Aggregation.Lookup): (r: Result<seq<Item>>)
    ensures products.None? ==> r == Err(NotIterable)
    ensures products == Some([]) ==> r == Ok([])
    ensures products.Some? && products.value != [] && stores.None? ==> r.Err?
    ensures products.Some? && products.value != [] && stores.None? ==>
      (r == Err(ImageMissing(products.value[0].itemNo)) <==> v == Checker && |products.value[0].imageUrls| < 2)
    ensures products.Some? && stores.Some? ==> r == Aggregation.Aggregate(v, products.value, stores.value, lookup)
  {
    match products
    case None => Err(NotIterable)
    case Some(ps) =>
      match stores
      case Some(ss) => Aggregation.Aggregate(v, ps, ss, lookup)
      case None =>
        if ps == [] then Ok([])
        else if v == Checker && |ps[0].imageUrls| < 2 then Err(ImageMissing(ps[0].itemNo))
        else Err(NotIterable)
  }

  /** Items built by ikea-checker.py all carry an image URL. */
  lemma CheckerItemsHaveImages(products: Option<seq<Product>>, stores: Option<seq<StoreRef>>, lookup: Aggregation.Lookup)
    requires BuildFrom(Checker, products, stores, lookup).Ok?
    ensures Report.HasImages(BuildFrom(Checker, products, stores, lookup).value)
  {
    if products.Some? && stores.Some? {
      Aggregation.AggregateShape(Checker, products.value, stores.value, lookup);
    }
  }

  /** main.py's `__main__`: stores, then products, then `build_result`, then
      the inline partition and rendering. */
  function MainRun(
    directory: Option<seq<StoreRef>>, storeNames: seq<string>,
    productIds: seq<string>, catalog: string -> Option<seq<Product>>,
    lookup: Aggregation.Lookup): Outcome
  {
    var stores := Stores.GetStoreInfo(directory, storeNames);
    var products := Products.GetProductInfo(productIds, catalog);
    match BuildFrom(MainScript, products, stores, lookup)
    case Err(f) => Crashed(f)
    case Ok(items) =>
      match Report.MainMessage(items)
      case Err(f) => Crashed(f)
      case Ok(None) => NoMessage
      case Ok(Some(body)) => Message(body)
  }

  /** ikea-checker.py's `__main__`: `build_result(get_product_info(...),
      get_store_info(...))`, `parse_result`, and a mail only when the
      message is truthy. */
  function CheckerRun(
    directory: Option<seq<StoreRef>>, storeNames: seq<string>,
    productIds: seq<string>, catalog: string -> Option<seq<Product>>,
    lookup: Aggregation.Lookup): Outcome
  {
    var products := Products.GetProductInfo(productIds, catalog);
    var stores := Stores.GetStoreInfo(directory, storeNames);
    match BuildFrom(Checker, products, stores, lookup)
    case Err(f) => Crashed(f)
    case Ok(items) =>
      CheckerItemsHaveImages(products, stores, lookup);
      match Report.ParseMessage(items)
      case Some(body) => if body != "" then Message(body) else NoMessage
      case None => NoMessage
  }

  /** main.py crashes exactly when building fails or every built item is
      available; it prints nothing exactly when no built item is available;
      otherwise it prints a body. */
  lemma MainRunOutcome(
    directory: Option<seq<StoreRef>>, storeNames: seq<string>,
    productIds: seq<string>, catalog: string -> Option<seq<Product>>,
    lookup: Aggregation.Lookup)
    ensures var built := BuildFrom(MainScript, Products.GetProductInfo(productIds, catalog),
                                   Stores.GetStoreInfo(directory, storeNames), lookup);
      var run := MainRun(directory, storeNames, productIds, catalog, lookup);
      (run == NoMessage <==> built.Ok? && forall k :: 0 <= k < |built.value| ==> !built.value[k].available) &&
      (run.Crashed? <==> built.Err? || (|built.value| > 0 && forall k :: 0 <= k < |built.value| ==> built.value[k].available))
  {
    var built := BuildFrom(MainScript, Products.GetProductInfo(productIds, catalog),
                           Stores.GetStoreInfo(directory, storeNames), lookup);
    if built.Ok? {
      Report.MainMessageOutcome(built.value);
    }
  }

  /** ikea-checker.py mails exactly when building succeeds and some item is
      available and some is not: with every item available `parse_result`
      returns '' and nothing is mailed. */
  lemma CheckerRunOutcome(
    directory: Option<seq<StoreRef>>, storeNames: seq<string>,
    productIds: seq<string>, catalog: string -> Option<seq<Product>>,
    lookup: Aggregation.Lookup)
    ensures var built := BuildFrom(Checker, Products.GetProductInfo(productIds, catalog),
                                   Stores.GetStoreInfo(directory, storeNames), lookup);
      var run := CheckerRun(directory, storeNames, productIds, catalog, lookup);
      (run.Crashed? <==> built.Err?) &&
      (run.Message? <==>
         built.Ok? &&
         (exists k :: 0 <= k < |built.value| && built.value[k].available) &&
         (exists k :: 0 <= k < |built.value| && !built.value[k].available))
  {
    var products := Products.GetProductInfo(productIds, catalog);
    var stores := Stores.GetStoreInfo(directory, storeNames);
    var built := BuildFrom(Checker, products, stores, lookup);
    if built.Ok? {
      CheckerItemsHaveImages(products, stores, lookup);
      Report.ParseMessageOutcome(built.value);
    }
  }

  /** When both resolvers succeed, every availability lookup succeeds (and,
      for ikea-checker.py, every product has its image), and no watched
      product has positive stock at any watched store, neither script
      produces a message. */
  lemma NothingInStockNoMessage(
    v: Variant, directory: Option<seq<StoreRef>>, storeNames: seq<string>,
    productIds: seq<string>, catalog: string -> Option<seq<Product>>,
    lookup: Aggregation.Lookup)
    requires var products := Products.GetProductInfo(productIds, catalog);
      var stores := Stores.GetStoreInfo(directory, storeNames);
      products.Some? && stores.Some? &&
      (v == Checker ==> forall i :: 0 <= i < |products.value| ==> |products.value[i].imageUrls| >= 2) &&
      forall i, j :: 0 <= i < |products.value| && 0 <= j < |stores.value| ==>
        var e := Aggregation.EntryFor(v, stores.value[j], products.value[i], lookup);
        e.Ok? && e.value.stock <= 0
    ensures v == MainScript ==> MainRun(directory, storeNames, productIds, catalog, lookup) == NoMessage
    ensures v == Checker ==> CheckerRun(directory, storeNames, productIds, catalog, lookup) == NoMessage
  {
    var products := Products.GetProductInfo(productIds, catalog).value;
    var stores := Stores.GetStoreInfo(directory, storeNames).value;
    Aggregation.NothingInStock(v, products, stores, lookup);
    if v == MainScript {
      MainRunOutcome(directory, storeNames, productIds, catalog, lookup);
    } else {
      CheckerRunOutcome(directory, storeNames, productIds, catalog, lookup);
    }
  }

  /** A rendered stock line carries the `– expected <date>` suffix exactly
      when the store had no positive stock and the response gave a truthy
      restock date, and then the date is the response's. */
  lemma RenderedRestock(v: Variant, store: StoreRef, p: Product, lookup: Aggregation.Lookup)
    requires Aggregation.EntryFor(v, store, p, lookup).Ok?
    ensures var e := Aggregation.EntryFor(v, store, p, lookup).value;
      var restock := lookup(store.storeNo, p.itemNo).value.restock;
      if e.stock <= 0 && restock.RestockPresent? && Truthy(restock.dollar) then
        Report.StockLine(e) == Report.StockHead(e) + Report.ExpectedPrefix + restock.dollar.value + "\n"
      else
        Report.StockLine(e) == Report.StockHead(e) + "\n"
  {
  }
}
