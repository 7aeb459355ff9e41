/** Splitting the built items by their `available` flag and rendering the
    message body: inline in main.py's `__main__`, and `parse_result` /
    `build_items_string` in ikea-checker.py. */
module Report {
  import opened Wrappers
  import opened Records
  import Strings
  import Seqs

  function IsAvailable(it: Item): bool { it.available }

  function IsUnavailable(it: Item): bool { !it.available }

  /** `available_items` after the partition loop. */
  function Available(result: seq<Item>): (r: seq<Item>)
    ensures HasImages(result) ==> HasImages(r)
  {
    FilterKeepsImages(result, IsAvailable);
    Seqs.Filter(result, IsAvailable)
  }

  /** `unavailable_items` after the partition loop. */
  function Unavailable(result: seq<Item>): (r: seq<Item>)
    ensures HasImages(result) ==> HasImages(r)
  {
    FilterKeepsImages(result, IsUnavailable);
    Seqs.Filter(result, IsUnavailable)
  }

  /** The loop appending each item to `available_items` or `unavailable_items`. */
  method Partition(result: seq<Item>) returns (available: seq<Item>, unavailable: seq<Item>)
    ensures available == Available(result) && unavailable == Unavailable(result)
  {
    available, unavailable := [], [];
    for i := 0 to |result|
      invariant available == Available(result[..i])
      invariant unavailable == Unavailable(result[..i])
    {
      assert result[..i + 1][..i] == result[..i];
      if result[i].available {
        available := available + [result[i]];
      } else {
        unavailable := unavailable + [result[i]];
      }
    }
    assert result[..|result|] == result;
  }

  /** The two groups hold every item exactly once, split by the flag, each
      keeping the items' relative order. */
  lemma PartitionSplits(result: seq<Item>)
    ensures multiset(Available(result)) + multiset(Unavailable(result)) == multiset(result)
    ensures |Available(result)| + |Unavailable(result)| == |result|
    ensures Seqs.IsSubsequence(Available(result), result) && Seqs.IsSubsequence(Unavailable(result), result)
    ensures forall it :: it in Available(result) <==> it in result && it.available
    ensures forall it :: it in Unavailable(result) <==> it in result && !it.available
  {
    Seqs.PartitionMultiset(result, IsAvailable, IsUnavailable);
    Seqs.FilterIsSubsequence(result, IsAvailable);
    Seqs.FilterIsSubsequence(result, IsUnavailable);
    forall it ensures it in Available(result) <==> it in result && it.available {
      Seqs.FilterMembership(result, IsAvailable, it);
    }
    forall it ensures it in Unavailable(result) <==> it in result && !it.available {
      Seqs.FilterMembership(result, IsUnavailable, it);
    }
  }

  const ExpectedPrefix := "\U{2013} expected "

  /** The part of a stock line before the optional restock suffix. */
  function StockHead(e: StockEntry): string
  {
    "  IKEA " + e.storeName + ": " + Strings.IntToString(e.stock) + " in stock"
  }

  /** `f'  IKEA {store_name}: {stock} in stock{restock_string}\n'`, the
      suffix present when `store.get('restock_datetime')` is truthy. */
  function StockLine(e: StockEntry): string
  {
    StockHead(e) + (if Truthy(e.restockDatetime) then ExpectedPrefix + e.restockDatetime.value else "") + "\n"
  }

  /** `stock_string` after the loop over an item's stock entries. */
  function StockString(stock: seq<StockEntry>): string
  {
    if stock == [] then "" else StockString(stock[..|stock| - 1]) + StockLine(stock[|stock| - 1])
  }

  /** The `stock_string += ...` loop (main.py has it twice, ikea-checker.py once). */
  method RenderStockLines(stock: seq<StockEntry>) returns (s: string)
    ensures s == StockString(stock)
  {
    s := "";
    for j := 0 to |stock|
      invariant s == StockString(stock[..j])
    {
      assert stock[..j + 1][..j] == stock[..j];
      var restockString := "";
      if Truthy(stock[j].restockDatetime) {
        restockString := ExpectedPrefix + stock[j].restockDatetime.value;
      }
      var line := "  IKEA " + stock[j].storeName + ": " + Strings.IntToString(stock[j].stock) + " in stock" + restockString + "\n";
      s := s + line;
    }
    assert stock[..|stock|] == stock;
  }

  /** No newline in the store name or the restock date. */
  predicate SingleLine(e: StockEntry)
  {
    '\n' !in e.storeName && (e.restockDatetime.Some? ==> '\n' !in e.restockDatetime.value)
  }

  /** A stock line holds exactly one newline, its last character. */
  lemma StockLineNewlines(e: StockEntry)
    requires SingleLine(e)
    ensures Strings.CountChar(StockLine(e), '\n') == 1
    ensures StockLine(e)[|StockLine(e)| - 1] == '\n'
  {
    var n := Strings.IntToString(e.stock);
    assert '\n' !in n by { forall k | 0 <= k < |n| ensures n[k] != '\n' { } }
    var head := StockHead(e);
    assert '\n' !in head;
    var tail := if Truthy(e.restockDatetime) then ExpectedPrefix + e.restockDatetime.value else "";
    assert '\n' !in tail;
    Strings.CountAbsent(head + tail, '\n');
    Strings.CountConcat(head + tail, "\n", '\n');
  }

  /** One line per stock entry: the rendered block has as many newlines as
      the item has stock entries. */
  lemma {:induction false} StockStringLines(stock: seq<StockEntry>)
    requires forall k :: 0 <= k < |stock| ==> SingleLine(stock[k])
    ensures Strings.CountChar(StockString(stock), '\n') == |stock|
  {
    if stock != [] {
      var init := stock[..|stock| - 1];
      StockStringLines(init);
      StockLineNewlines(stock[|stock| - 1]);
      Strings.CountConcat(StockString(init), StockLine(stock[|stock| - 1]), '\n');
    }
  }

  /** main.py's per-item block: `f'{product_id} - {product_name}\n{stock_string}\n'`. */
  function PlainBlock(it: Item): string
  {
    it.productId + " - " + it.productName + "\n" + StockString(it.stock) + "\n"
  }

  /** main.py's item blocks, one after another. */
  function PlainItems(items: seq<Item>): string
  {
    Seqs.ConcatMap(items, PlainBlock)
  }

  /** main.py's loop building `available_items_string` (and, identically,
      `unavailable_items_string`). */
  method RenderPlainItems(items: seq<Item>) returns (s: string)
    ensures s == PlainItems(items)
  {
    s := "";
    for i := 0 to |items|
      invariant s == PlainItems(items[..i])
    {
      assert items[..i + 1][..i] == items[..i];
      var stockString := RenderStockLines(items[i].stock);
      var block := items[i].productId + " - " + items[i].productName + "\n" + stockString + "\n";
      s := s + block;
    }
    assert items[..|items|] == items;
  }

  /** main.py's item loop over an empty list leaves the string empty, and over
      a concatenation gives the two renderings one after the other. */
  lemma PlainItemsConcat(a: seq<Item>, b: seq<Item>)
    ensures PlainItems([]) == ""
    ensures PlainItems(a + b) == PlainItems(a) + PlainItems(b)
  {
    Seqs.ConcatMapAppend(a, b, PlainBlock);
  }

  /** Every item carries an `image_url` (ikea-checker.py's `build_result` sets it). */
  predicate HasImages(items: seq<Item>)
  {
    forall k :: 0 <= k < |items| ==> items[k].imageUrl.Some?
  }

  /** ikea-checker.py's per-item block, with the name in bold and the image. */
  function HtmlBlock(it: Item): string
    requires it.imageUrl.Some?
  {
    "<b>" + it.productName + "</b> \U{2013} " + it.productId + "\n<img src=\"" + it.imageUrl.value + "\" />\n"
      + StockString(it.stock) + "\n"
  }

  function HtmlItems(items: seq<Item>): string
    requires HasImages(items)
  {
    if items == [] then "" else HtmlItems(items[..|items| - 1]) + HtmlBlock(items[|items| - 1])
  }

  /** `build_items_string`: the outer loop over items and the inner loop over
      each item's stock entries. */
  method BuildItemsString(items: seq<Item>) returns (s: string)
    requires HasImages(items)
    ensures s == HtmlItems(items)
  {
    s := "";
    for i := 0 to |items|
      invariant s == HtmlItems(items[..i])
    {
      assert items[..i + 1][..i] == items[..i];
      var stockString := RenderStockLines(items[i].stock);
      var block := "<b>" + items[i].productName + "</b> \U{2013} " + items[i].productId
        + "\n<img src=\"" + items[i].imageUrl.value + "\" />\n" + stockString + "\n";
      s := s + block;
    }
    assert items[..|items|] == items;
  }

  /** `build_items_string` of an empty list is empty, and of a concatenation
      is the concatenation of the two renderings, item blocks in order. */
  lemma {:induction false} HtmlItemsConcat(a: seq<Item>, b: seq<Item>)
    requires HasImages(a) && HasImages(b)
    ensures HasImages(a + b)
    ensures HtmlItems([]) == ""
    ensures HtmlItems(a + b) == HtmlItems(a) + HtmlItems(b)
  {
    assert HasImages(a + b) by {
      forall k | 0 <= k < |a + b| ensures (a + b)[k].imageUrl.Some? {
        if k >= |a| { assert (a + b)[k] == b[k - |a|]; }
      }
    }
    if b == [] {
      assert a + b == a;
    } else {
      assert (a + b)[..|a + b| - 1] == a + b[..|b| - 1];
      HtmlItemsConcat(a, b[..|b| - 1]);
    }
  }

  lemma FilterKeepsImages(result: seq<Item>, p: Item -> bool)
    ensures HasImages(result) ==> HasImages(Seqs.Filter(result, p))
  {
    var f := Seqs.Filter(result, p);
    if HasImages(result) {
      forall k | 0 <= k < |f| ensures f[k].imageUrl.Some? {
        var m :| 0 <= m < |result| && result[m] == f[k];
      }
    }
  }

  /** The message layout both scripts share: a greeting, the available
      section under its heading, a blank line, then the unavailable section. */
  function Body(greeting: string, nowHeading: string, availableText: string, stillHeading: string, unavailableText: string): string
  {
    greeting + nowHeading + availableText + "\n\n" + stillHeading + unavailableText
  }

  /** `body` is `greeting`, then `nowHeading` and `availableText`, a blank
      line, then `stillHeading` and `unavailableText`, in that order. */
  ghost predicate Sections(body: string, greeting: string, nowHeading: string, availableText: string, stillHeading: string, unavailableText: string)
  {
    var now := |greeting| + |nowHeading|;
    var still := now + |availableText| + 2;
    |body| == still + |stillHeading| + |unavailableText| &&
    body[..|greeting|] == greeting &&
    body[|greeting|..now] == nowHeading &&
    body[now..now + |availableText|] == availableText &&
    body[now + |availableText|..still] == "\n\n" &&
    body[still..still + |stillHeading|] == stillHeading &&
    body[still + |stillHeading|..] == unavailableText
  }

  /** Where each part of the body sits. */
  lemma BodyLayout(greeting: string, nowHeading: string, availableText: string, stillHeading: string, unavailableText: string)
    ensures Sections(Body(greeting, nowHeading, availableText, stillHeading, unavailableText),
                     greeting, nowHeading, availableText, stillHeading, unavailableText)
  {
    var g1 := greeting + nowHeading;
    var g2 := g1 + availableText;
    var g3 := g2 + "\n\n";
    var g4 := g3 + stillHeading;
    var body := g4 + unavailableText;
    assert body[..|g4|] == g4;
    assert g4[..|g3|] == g3;
    assert g3[..|g2|] == g2;
    assert g2[..|g1|] == g1;
    assert body[..|greeting|] == g1[..|greeting|];
  }

  const MainGreeting := "Hey, me!\n\n"
  const MainNowHeading := "Now available:\n"
  const MainStillHeading := "Still not available:\n"

  /** What main.py's `__main__` does after `build_result`: no body when
      nothing is available; a NameError when everything is (the
      `unavailable_items_string` name is then never bound); otherwise the body. */
  function MainMessage(result: seq<Item>): Result<Option<string>>
  {
    var available := Available(result);
    var unavailable := Unavailable(result);
    if available == [] then Ok(None)
    else if unavailable == [] then Err(UnboundName)
    else Ok(Some(Body(MainGreeting, MainNowHeading, PlainItems(available), MainStillHeading, PlainItems(unavailable))))
  }

  /** The partition and rendering code inline in main.py's `__main__`. */
  method MainReport(result: seq<Item>) returns (r: Result<Option<string>>)
    ensures r == MainMessage(result)
  {
    var available, unavailable := Partition(result);
    if available != [] {
      var availableString := RenderPlainItems(available);
      if unavailable == [] {
        return Err(UnboundName);
      }
      var unavailableString := RenderPlainItems(unavailable);
      var body := MainGreeting + MainNowHeading + availableString + "\n\n" + MainStillHeading + unavailableString;
      return Ok(Some(body));
    }
    return Ok(None);
  }

  /** main.py prints nothing exactly when no item is available, and fails
      exactly when there are items and every one is available. */
  lemma MainMessageOutcome(result: seq<Item>)
    ensures MainMessage(result) == Ok(None) <==> forall k :: 0 <= k < |result| ==> !result[k].available
    ensures MainMessage(result).Err? <==> |result| > 0 && forall k :: 0 <= k < |result| ==> result[k].available
  {
    Seqs.FilterEmpty(result, IsAvailable);
    Seqs.FilterEmpty(result, IsUnavailable);
  }

  /** main.py's body opens with the greeting and the available section; the
      unavailable section follows it. */
  lemma MainMessageLayout(result: seq<Item>)
    requires MainMessage(result).Ok? && MainMessage(result).value.Some?
    ensures Sections(MainMessage(result).value.value, MainGreeting, MainNowHeading,
                     PlainItems(Available(result)), MainStillHeading, PlainItems(Unavailable(result)))
  {
    BodyLayout(MainGreeting, MainNowHeading, PlainItems(Available(result)), MainStillHeading, PlainItems(Unavailable(result)));
  }

  const HtmlGreeting := "<h1>Hey, me!</h1>\n\n"
  const HtmlNowHeading := "<h2>Now available:</h2>\n"
  const HtmlStillHeading := "<h2>Still not available:</h2>\n"

  /** `parse_result`. The conditional expression on ikea-checker.py:175-178
      covers the whole body, so with nothing unavailable the body is ''. */
  function ParseMessage(result: seq<Item>): Option<string>
    requires HasImages(result)
  {
    var available := Available(result);
    var unavailable := Unavailable(result);
    if available == [] then None
    else if unavailable == [] then Some("")
    else Some(Body(HtmlGreeting, HtmlNowHeading, HtmlItems(available), HtmlStillHeading, HtmlItems(unavailable)))
  }

  /** `parse_result`: partition, then render each non-empty group. */
  method ParseResult(result: seq<Item>) returns (r: Option<string>)
    requires HasImages(result)
    ensures r == ParseMessage(result)
  {
    var available, unavailable := Partition(result);
    if available != [] {
      var availableString := BuildItemsString(available);
      var unavailableString := "";
      if unavailable != [] {
        unavailableString := BuildItemsString(unavailable);
      }
      var body := if unavailable != [] then
          HtmlGreeting + HtmlNowHeading + availableString + "\n\n" + HtmlStillHeading + unavailableString
        else "";
      return Some(body);
    }
    return None;
  }

  /** `parse_result` gives None exactly when no item is available, and ''
      exactly when there are items and every one is available. */
  lemma ParseMessageOutcome(result: seq<Item>)
    requires HasImages(result)
    ensures ParseMessage(result).None? <==> forall k :: 0 <= k < |result| ==> !result[k].available
    ensures ParseMessage(result) == Some("") <==> |result| > 0 && forall k :: 0 <= k < |result| ==> result[k].available
  {
    Seqs.FilterEmpty(result, IsAvailable);
    Seqs.FilterEmpty(result, IsUnavailable);
    var available := Available(result);
    var unavailable := Unavailable(result);
    if available != [] && unavailable != [] {
      BodyLayout(HtmlGreeting, HtmlNowHeading, HtmlItems(available), HtmlStillHeading, HtmlItems(unavailable));
    }
  }

  /** A non-empty `parse_result` body starts with `<h1>Hey, me!</h1>`, and
      the "Now available" section precedes the "Still not available" one. */
  lemma ParseMessageLayout(result: seq<Item>)
    requires HasImages(result)
    requires ParseMessage(result).Some? && ParseMessage(result).value != ""
    ensures Sections(ParseMessage(result).value, HtmlGreeting, HtmlNowHeading,
                     HtmlItems(Available(result)), HtmlStillHeading, HtmlItems(Unavailable(result)))
  {
    var available := Available(result);
    var unavailable := Unavailable(result);
    assert available != [] && unavailable != [];
    BodyLayout(HtmlGreeting, HtmlNowHeading, HtmlItems(available), HtmlStillHeading, HtmlItems(unavailable));
  }
}
