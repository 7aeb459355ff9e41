/** `get_product_info`: one batched catalog request for all watched ids. */
module Products {
  import opened Wrappers
  import opened Records
  import Strings

  /** `['ART,' + p for p in product_ids]` */
  function Prefixed(productIds: seq<string>): seq<string>
  {
    seq(|productIds|, k requires 0 <= k < |productIds| => "ART," + productIds[k])
  }

  /** `';'.join(...)` of the prefixed ids, the path segment of the catalog request. */
  function ProductIdsString(productIds: seq<string>): (r: string)
    ensures r == "" <==> productIds == []
  {
    Strings.Join(Prefixed(productIds), ';')
  }

  /** Splitting the request segment on `;` gives back each id, prefixed with
      `ART,`, in order, provided no id contains `;`. */
  lemma ProductIdsRoundTrip(productIds: seq<string>)
    requires |productIds| >= 1
    requires forall k :: 0 <= k < |productIds| ==> ';' !in productIds[k]
    ensures var parts := Strings.Split(ProductIdsString(productIds), ';');
      |parts| == |productIds| &&
      forall k :: 0 <= k < |parts| ==> parts[k] == "ART," + productIds[k]
  {
    var ps := Prefixed(productIds);
    forall k | 0 <= k < |ps| ensures ';' !in ps[k] {
      assert ps[k] == "ART," + productIds[k];
    }
    Strings.SplitJoin(ps, ';');
  }

  /** `get_product_info`; `catalog` maps the request segment to the decoded
      response, None when the request or the decoding failed. A falsy
      (empty) response also gives None. */
  function GetProductInfo(productIds: seq<string>, catalog: string -> Option<seq<Product>>): (r: Option<seq<Product>>)
    ensures r.Some? ==> r.value != [] && r == catalog(ProductIdsString(productIds))
    ensures r.None? ==> catalog(ProductIdsString(productIds)) in {None, Some([])}
  {
    match catalog(ProductIdsString(productIds))
    case None => None
    case Some(ps) => if ps == [] then None else Some(ps)
  }
}
