/** `build_result`: one item per product, one stock entry per store, with
    the availability lookups supplied as a function. */
module Aggregation {
  import opened Wrappers
  import opened Records
  import Strings

  /** `get_product_availability(store_id, product_id)`: the decoded response,
      or None when the request failed. */
  type Lookup = (string, string) -> Option<AvailabilityResponse>

  /** `f'{ProductName} ({ProductTypeName}, {ValidDesignText})'` */
  function ProductName(p: Product): string
  {
    p.productName + " (" + p.productTypeName + ", " + p.validDesignText + ")"
  }

  const ImageHost := "https://www.ikea.com"

  /** `image_url` of ikea-checker.py: the host followed by the second image's
      `ImageUrl`; an IndexError when the list has fewer than two images. */
  function ImageUrl(p: Product): (r: Result<string>)
    ensures r.Ok? <==> |p.imageUrls| >= 2
    ensures r.Err? ==> r.fault == ImageMissing(p.itemNo)
    ensures r.Ok? ==> (|r.value| == |ImageHost| + |p.imageUrls[1]| &&
      r.value[..|ImageHost|] == ImageHost && r.value[|ImageHost|..] == p.imageUrls[1])
  {
    if |p.imageUrls| < 2 then Err(ImageMissing(p.itemNo))
    else Ok(ImageHost + p.imageUrls[1])
  }

  /** The `store_stock` entry for one (store, product) pair, or the exception
      the inner loop body raises for it. */
  function EntryFor(v: Variant, store: StoreRef, p: Product, lookup: Lookup): (r: Result<StockEntry>)
    ensures var a := lookup(store.storeNo, p.itemNo);
      r.Ok? <==> (a.Some? && Strings.ParseInt(a.value.availableStock).Some? &&
        !(v == MainScript && Strings.ParseInt(a.value.availableStock).value <= 0 && a.value.restock.RestockAbsent?))
    ensures var a := lookup(store.storeNo, p.itemNo);
      r.Ok? ==>
        r.value.storeId == store.storeNo && r.value.storeName == store.storeName &&
        Strings.ParseInt(a.value.availableStock) == Some(r.value.stock) &&
        (r.value.restockDatetime.Some? <==>
           r.value.stock <= 0 && a.value.restock.RestockPresent? && Truthy(a.value.restock.dollar)) &&
        (r.value.restockDatetime.Some? ==> r.value.restockDatetime == a.value.restock.dollar)
  {
    match lookup(store.storeNo, p.itemNo)
    case None => Err(AvailabilityMissing(store.storeNo, p.itemNo))
    case Some(a) =>
      match Strings.ParseInt(a.availableStock)
      case None => Err(StockNotInteger(store.storeNo, p.itemNo))
      case Some(n) =>
        var entry := StockEntry(store.storeNo, store.storeName, n, None);
        if n > 0 then Ok(entry)
        else
          match a.restock
          case RestockAbsent =>
            if v == MainScript then Err(RestockKeyMissing(store.storeNo, p.itemNo)) else Ok(entry)
          case RestockPresent(d) =>
            Ok(if Truthy(d) then entry.(restockDatetime := d) else entry)
  }

  /** The inner loop over the stores: entries in store order, or the first fault. */
  function Entries(v: Variant, stores: seq<StoreRef>, p: Product, lookup: Lookup): Result<seq<StockEntry>>
  {
    if stores == [] then Ok([])
    else
      match EntryFor(v, stores[0], p, lookup)
      case Err(f) => Err(f)
      case Ok(e) => Prepend([e], Entries(v, stores[1..], p, lookup))
  }

  /** True iff some store has the product in stock. */
  predicate InStockSomewhere(stock: seq<StockEntry>)
  {
    exists k :: 0 <= k < |stock| && stock[k].stock > 0
  }

  /** The `item` dict for one product (ikea-checker.py computes `image_url`
      before the store loop), or the first fault. */
  function ItemFor(v: Variant, p: Product, stores: seq<StoreRef>, lookup: Lookup): Result<Item>
  {
    var image: Result<Option<string>> :=
      if v == MainScript then Ok(None)
      else match ImageUrl(p) case Ok(u) => Ok(Some(u)) case Err(f) => Err(f);
    match image
    case Err(f) => Err(f)
    case Ok(img) =>
      match Entries(v, stores, p, lookup)
      case Err(f) => Err(f)
      case Ok(es) => Ok(Item(p.itemNo, ProductName(p), InStockSomewhere(es), img, es))
  }

  /** `build_result` as a value: items in product order, or the first fault. */
  function Aggregate(v: Variant, products: seq<Product>, stores: seq<StoreRef>, lookup: Lookup): Result<seq<Item>>
  {
    if products == [] then Ok([])
    else
      match ItemFor(v, products[0], stores, lookup)
      case Err(f) => Err(f)
      case Ok(it) => Prepend([it], Aggregate(v, products[1..], stores, lookup))
  }

  /** The body of the store loop: fetch, parse the stock, and attach the
      restock date when the stock is not positive. */
  method StoreStock(v: Variant, store: StoreRef, product: Product, lookup: Lookup) returns (r: Result<StockEntry>)
    ensures r == EntryFor(v, store, product, lookup)
  {
    var avail := lookup(store.storeNo, product.itemNo);
    if avail.None? {
      return Err(AvailabilityMissing(store.storeNo, product.itemNo));
    }
    var parsed := Strings.ParseInt(avail.value.availableStock);
    if parsed.None? {
      return Err(StockNotInteger(store.storeNo, product.itemNo));
    }
    var stock := parsed.value;
    var storeStock := StockEntry(store.storeNo, store.storeName, stock, None);
    if stock <= 0 {
      var restockDatetime: Option<string> := None;
      match avail.value.restock {
        case RestockAbsent =>
          if v == MainScript {
            return Err(RestockKeyMissing(store.storeNo, product.itemNo));
          }
        case RestockPresent(d) =>
          restockDatetime := d;
      }
      if Truthy(restockDatetime) {
        storeStock := storeStock.(restockDatetime := restockDatetime);
      }
    }
    return Ok(storeStock);
  }

  /** The inner loop of `build_result` for one product: one `store_stock`
      entry per store, and the `available` flag raised by positive stock. */
  method BuildStock(v: Variant, product: Product, stores: seq<StoreRef>, lookup: Lookup)
    returns (r: Result<seq<StockEntry>>, available: bool)
    ensures r == Entries(v, stores, product, lookup)
    ensures r.Ok? ==> (available <==> InStockSomewhere(r.value))
  {
    available := false;
    var stock: seq<StockEntry> := [];
    var j := 0;
    assert stores[j..] == stores;
    PrependNothing(Entries(v, stores, product, lookup));
    while j < |stores|
      invariant 0 <= j <= |stores|
      invariant Entries(v, stores, product, lookup) == Prepend(stock, Entries(v, stores[j..], product, lookup))
      invariant available <==> InStockSomewhere(stock)
    {
      var store := stores[j];
      assert stores[j..][0] == store && stores[j..][1..] == stores[j + 1..];
      var entry := StoreStock(v, store, product, lookup);
      if entry.Err? {
        return Err(entry.fault), available;
      }
      var storeStock := entry.value;
      if storeStock.stock > 0 {
        available := true;
      }
      assert InStockSomewhere(stock + [storeStock]) <==> InStockSomewhere(stock) || storeStock.stock > 0 by {
        assert (stock + [storeStock])[|stock|] == storeStock;
        if InStockSomewhere(stock) {
          var k :| 0 <= k < |stock| && stock[k].stock > 0;
          assert (stock + [storeStock])[k] == stock[k];
        }
      }
      PrependTwice(stock, [storeStock], Entries(v, stores[j + 1..], product, lookup));
      stock := stock + [storeStock];
      j := j + 1;
    }
    assert stores[j..] == [] && stock + [] == stock;
    return Ok(stock), available;
  }

  /** `build_result`: the loop over the products, each item starting
      unavailable with an empty stock list. */
  method BuildResult(v: Variant, products: seq<Product>, stores: seq<StoreRef>, lookup: Lookup)
    returns (r: Result<seq<Item>>)
    ensures r == Aggregate(v, products, stores, lookup)
  {
    var items: seq<Item> := [];
    var i := 0;
    assert products[i..] == products;
    PrependNothing(Aggregate(v, products, stores, lookup));
    while i < |products|
      invariant 0 <= i <= |products|
      invariant Aggregate(v, products, stores, lookup) == Prepend(items, Aggregate(v, products[i..], stores, lookup))
    {
      var product := products[i];
      assert products[i..][0] == product && products[i..][1..] == products[i + 1..];
      var imageUrl: Option<string> := None;
      if v == Checker {
        var url := ImageUrl(product);
        if url.Err? {
          return Err(url.fault);
        }
        imageUrl := Some(url.value);
      }
      var stock, available := BuildStock(v, product, stores, lookup);
      if stock.Err? {
        return Err(stock.fault);
      }
      var item := Item(product.itemNo, ProductName(product), available, imageUrl, stock.value);
      assert ItemFor(v, product, stores, lookup) == Ok(item);
      PrependTwice(items, [item], Aggregate(v, products[i + 1..], stores, lookup));
      items := items + [item];
      i := i + 1;
    }
    assert products[i..] == [] && items + [] == items;
    return Ok(items);
  }

  /** What each built item holds for its product. */
  ghost predicate ItemMatches(v: Variant, it: Item, p: Product, stores: seq<StoreRef>, lookup: Lookup)
  {
    it.productId == p.itemNo && it.productName == ProductName(p) &&
    (it.imageUrl.Some? <==> v == Checker) &&
    (v == Checker ==> Some(it.imageUrl.value) == (if |p.imageUrls| >= 2 then Some(ImageHost + p.imageUrls[1]) else None)) &&
    |it.stock| == |stores| &&
    (forall j :: 0 <= j < |stores| ==> EntryFor(v, stores[j], p, lookup) == Ok(it.stock[j])) &&
    (it.available <==> exists j :: 0 <= j < |it.stock| && it.stock[j].stock > 0)
  }

  /** The entries list has one entry per store, in store order. */
  lemma {:induction false} EntriesShape(v: Variant, stores: seq<StoreRef>, p: Product, lookup: Lookup)
    requires Entries(v, stores, p, lookup).Ok?
    ensures var es := Entries(v, stores, p, lookup).value;
      |es| == |stores| && forall j :: 0 <= j < |stores| ==> EntryFor(v, stores[j], p, lookup) == Ok(es[j])
  {
    if stores != [] {
      EntriesShape(v, stores[1..], p, lookup);
      var es := Entries(v, stores, p, lookup).value;
      forall j | 0 <= j < |stores| ensures EntryFor(v, stores[j], p, lookup) == Ok(es[j]) {
        if j > 0 { assert stores[j] == stores[1..][j - 1]; }
      }
    }
  }

  /** The stores loop completes exactly when every store's entry does. */
  lemma {:induction false} EntriesOk(v: Variant, stores: seq<StoreRef>, p: Product, lookup: Lookup)
    ensures Entries(v, stores, p, lookup).Ok? <==> forall j :: 0 <= j < |stores| ==> EntryFor(v, stores[j], p, lookup).Ok?
  {
    if stores != [] {
      EntriesOk(v, stores[1..], p, lookup);
      if forall j :: 0 <= j < |stores| ==> EntryFor(v, stores[j], p, lookup).Ok? {
        forall j | 0 <= j < |stores| - 1 ensures EntryFor(v, stores[1..][j], p, lookup).Ok? {
          assert stores[1..][j] == stores[j + 1];
        }
      } else if EntryFor(v, stores[0], p, lookup).Ok? {
        var j :| 0 <= j < |stores| && EntryFor(v, stores[j], p, lookup).Err?;
        assert stores[1..][j - 1] == stores[j];
      }
    }
  }

  /** `build_result` gives one item per product, in product order, each with
      one entry per store in store order, `available` exactly when some
      entry has positive stock, and the image only in ikea-checker.py. */
  lemma {:induction false} AggregateShape(v: Variant, products: seq<Product>, stores: seq<StoreRef>, lookup: Lookup)
    requires Aggregate(v, products, stores, lookup).Ok?
    ensures var items := Aggregate(v, products, stores, lookup).value;
      |items| == |products| &&
      forall i :: 0 <= i < |products| ==> ItemMatches(v, items[i], products[i], stores, lookup)
  {
    if products != [] {
      var p := products[0];
      EntriesShape(v, stores, p, lookup);
      AggregateShape(v, products[1..], stores, lookup);
      var items := Aggregate(v, products, stores, lookup).value;
      forall i | 0 <= i < |products| ensures ItemMatches(v, items[i], products[i], stores, lookup) {
        if i > 0 { assert products[i] == products[1..][i - 1]; }
      }
    }
  }

  /** A single failing pair or image fails the whole call: `build_result`
      succeeds exactly when every product's item does. */
  lemma {:induction false} AggregateOk(v: Variant, products: seq<Product>, stores: seq<StoreRef>, lookup: Lookup)
    ensures Aggregate(v, products, stores, lookup).Ok? <==>
      (forall i :: 0 <= i < |products| ==> v == Checker ==> |products[i].imageUrls| >= 2) &&
      (forall i, j :: 0 <= i < |products| && 0 <= j < |stores| ==> EntryFor(v, stores[j], products[i], lookup).Ok?)
  {
    if products != [] {
      var p := products[0];
      EntriesOk(v, stores, p, lookup);
      AggregateOk(v, products[1..], stores, lookup);
      forall i | 0 < i < |products| ensures products[i] == products[1..][i - 1] { }
    }
  }

  /** With every pair's lookup succeeding (and every image present, for
      ikea-checker.py) and no positive stock anywhere, `build_result`
      succeeds and marks no item available. */
  lemma NothingInStock(v: Variant, products: seq<Product>, stores: seq<StoreRef>, lookup: Lookup)
    requires v == Checker ==> forall i :: 0 <= i < |products| ==> |products[i].imageUrls| >= 2
    requires forall i, j :: 0 <= i < |products| && 0 <= j < |stores| ==>
      EntryFor(v, stores[j], products[i], lookup).Ok? && EntryFor(v, stores[j], products[i], lookup).value.stock <= 0
    ensures Aggregate(v, products, stores, lookup).Ok?
    ensures |Aggregate(v, products, stores, lookup).value| == |products|
    ensures forall k :: 0 <= k < |products| ==> !Aggregate(v, products, stores, lookup).value[k].available
  {
    AggregateOk(v, products, stores, lookup);
    AggregateShape(v, products, stores, lookup);
  }
}
