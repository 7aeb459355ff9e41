/** The JSON records both scripts read and build, as typed values, and the
    Python exceptions they can raise, as a `Result`. */
module Records {
  import opened Wrappers

  /** The two near-duplicate scripts: main.py and ikea-checker.py. */
  datatype Variant = MainScript | Checker

  /** What ends a run with an uncaught exception. */
  datatype Fault =
    | NotIterable                                      // `for x in None` after a resolver returned None (TypeError)
    | AvailabilityMissing(storeNo: string, itemNo: string)  // subscripting the None of a failed availability fetch (TypeError)
    | StockNotInteger(storeNo: string, itemNo: string)      // `int(...)` of the AvailableStock value (ValueError)
    | RestockKeyMissing(storeNo: string, itemNo: string)    // no `RestockDateTime` key, main.py only (KeyError)
    | ImageMissing(itemNo: string)                          // fewer than two RetailItemImage entries (IndexError)
    | UnboundName                                      // `unavailable_items_string` never assigned, main.py only (NameError)

  datatype Result<T> = Ok(value: T) | Err(fault: Fault)

  /** A successful result with `xs` in front; a failure unchanged. */
  function Prepend<T>(xs: seq<T>, r: Result<seq<T>>): Result<seq<T>>
  {
    match r
    case Ok(ys) => Ok(xs + ys)
    case Err(f) => Err(f)
  }

  lemma PrependNothing<T>(r: Result<seq<T>>)
    ensures Prepend([], r) == r
  {
    if r.Ok? { assert [] + r.value == r.value; }
  }

  lemma PrependTwice<T>(xs: seq<T>, ys: seq<T>, r: Result<seq<T>>)
    ensures Prepend(xs, Prepend(ys, r)) == Prepend(xs + ys, r)
  {
    if r.Ok? { assert xs + (ys + r.value) == (xs + ys) + r.value; }
  }

  /** An entry of `StoreRefList.StoreRef` in the store directory. */
  datatype StoreRef = StoreRef(storeNo: string, storeName: string)

  /** A catalog record; `imageUrls` are the `ImageUrl` fields of
      `RetailItemImageList.RetailItemImage`, in order. */
  datatype Product = Product(
    itemNo: string,
    productName: string,
    productTypeName: string,
    validDesignText: string,
    imageUrls: seq<string>)

  /** `RetailItemAvailability.RestockDateTime`: the key may be absent, and
      when present its `'$'` member may be absent (`.get('$')` gives None). */
  datatype RestockField = RestockAbsent | RestockPresent(dollar: Option<string>)

  /** The fields of an availability response that the scripts read:
      `AvailableStock['$']` (a string-encoded integer) and `RestockDateTime`. */
  datatype AvailabilityResponse = AvailabilityResponse(availableStock: string, restock: RestockField)

  /** The per-store `store_stock` dict; `restockDatetime` is None when the
      `restock_datetime` key is not set. */
  datatype StockEntry = StockEntry(storeId: string, storeName: string, stock: int, restockDatetime: Option<string>)

  /** The per-product `item` dict; `imageUrl` is set by ikea-checker.py only. */
  datatype Item = Item(
    productId: string,
    productName: string,
    available: bool,
    imageUrl: Option<string>,
    stock: seq<StockEntry>)

  /** Python truthiness of an optional string: present and non-empty. */
  predicate Truthy(s: Option<string>) { s.Some? && s.value != "" }
}
