/** The statistics and row partition `process_vendor` computes once
    `match_prices` has filled the `Price` column: the SKU counts, the count
    of priced rows whose size was mapped, the removed item numbers and the
    rows of the output file. */
module VendorRun {
  import opened Tables
  import opened ItemCodes
  import opened SizeMapping
  import opened PriceMatching

  /** The summary `process_vendor` returns, without the file names and the
      match rate. `output` holds the `(Item No., Price)` rows written out. */
  datatype VendorResult<P> = VendorResult(
    totalSkus: nat,
    matchedSkus: nat,
    removedSkus: nat,
    sizeMapped: nat,
    removedItems: seq<string>,
    output: seq<(string, P)>)

  /** `required_vpl_cols` */
  const RequiredVplColumns: seq<string> := ["Vendor Style", "Color", "Size", "Variable", "Price"]

  /** `oitm_df['Price'].notna().sum()` */
  function MatchedCount<P>(prices: seq<Option<P>>): (n: nat)
    ensures n <= |prices|
    ensures n == 0 <==> forall k :: 0 <= k < |prices| ==> prices[k].None?
  {
    if prices == [] then 0
    else (if prices[0].Some? then 1 else 0) + MatchedCount(prices[1..])
  }

  /** `oitm_df[oitm_df['Price'].notna()]`, as `(Item No., Price)` rows. */
  function PricedRows<P>(items: seq<string>, prices: seq<Option<P>>): (rows: seq<(string, P)>)
    requires |items| == |prices|
    ensures |rows| == MatchedCount(prices)
  {
    if items == [] then []
    else
      (if prices[0].Some? then [(items[0], prices[0].value)] else []) + PricedRows(items[1..], prices[1..])
  }

  /** `oitm_df[oitm_df['Price'].isna()]['Item No.'].tolist()` */
  function UnpricedItems<P>(items: seq<string>, prices: seq<Option<P>>): (removed: seq<string>)
    requires |items| == |prices|
    ensures |removed| == |prices| - MatchedCount(prices)
  {
    if items == [] then []
    else (if prices[0].None? then [items[0]] else []) + UnpricedItems(items[1..], prices[1..])
  }

  /** A priced row whose parsed size differs from the size it was matched with. */
  predicate SizeWasMapped(itemNo: string, rules: seq<SizeRule>) {
    ParseItemNo(itemNo).size != ItemMappedSize(itemNo, rules)
  }

  /** `len(oitm_df[(oitm_df['Price'].notna()) & (oitm_df['Size'] != oitm_df['Size_Mapped'])])` */
  function SizeMappedCount<P>(items: seq<string>, prices: seq<Option<P>>, rules: seq<SizeRule>): (n: nat)
    requires |items| == |prices|
    ensures n <= MatchedCount(prices)
  {
    if items == [] then 0
    else
      (if prices[0].Some? && SizeWasMapped(items[0], rules) then 1 else 0) +
      SizeMappedCount(items[1..], prices[1..], rules)
  }

  /** The counts and lists of `process_vendor` for a filled `Price` column:
      every SKU is matched or removed, the removed list has one entry per
      removed SKU and the output one row per matched SKU. */
  function Statistics<P>(items: seq<string>, prices: seq<Option<P>>, rules: seq<SizeRule>): (r: VendorResult<P>)
    requires |items| == |prices|
    ensures r.totalSkus == |items| && r.matchedSkus + r.removedSkus == r.totalSkus
    ensures |r.removedItems| == r.removedSkus && |r.output| == r.matchedSkus
    ensures r.sizeMapped <= r.matchedSkus
  {
    var matched := MatchedCount(prices);
    VendorResult(|items|, matched, |items| - matched, SizeMappedCount(items, prices, rules),
                 UnpricedItems(items, prices), PricedRows(items, prices))
  }

  /** The partition is exact: a priced item is an output row with its price,
      an unpriced item is in the removed list, and nothing else is in either. */
  lemma {:induction false} PartitionMembers<P>(items: seq<string>, prices: seq<Option<P>>)
    requires |items| == |prices|
    ensures forall k :: 0 <= k < |items| && prices[k].Some? ==> (items[k], prices[k].value) in PricedRows(items, prices)
    ensures forall k :: 0 <= k < |items| && prices[k].None? ==> items[k] in UnpricedItems(items, prices)
    ensures forall row :: row in PricedRows(items, prices) ==>
              exists k :: 0 <= k < |items| && items[k] == row.0 && prices[k] == Some(row.1)
    ensures forall x :: x in UnpricedItems(items, prices) ==>
              exists k :: 0 <= k < |items| && items[k] == x && prices[k].None?
  {
    if items != [] {
      PartitionMembers(items[1..], prices[1..]);
      var rows, removed := PricedRows(items, prices), UnpricedItems(items, prices);
      var head := if prices[0].Some? then [(items[0], prices[0].value)] else [];
      var headRemoved := if prices[0].None? then [items[0]] else [];
      assert rows == head + PricedRows(items[1..], prices[1..]);
      assert removed == headRemoved + UnpricedItems(items[1..], prices[1..]);
      forall k | 0 <= k < |items| && prices[k].Some?
        ensures (items[k], prices[k].value) in rows
      {
        if k > 0 { assert items[1..][k - 1] == items[k] && prices[1..][k - 1] == prices[k]; }
      }
      forall k | 0 <= k < |items| && prices[k].None?
        ensures items[k] in removed
      {
        if k > 0 { assert items[1..][k - 1] == items[k] && prices[1..][k - 1] == prices[k]; }
      }
      forall row | row in rows
        ensures exists k :: 0 <= k < |items| && items[k] == row.0 && prices[k] == Some(row.1)
      {
        if row !in head {
          var k :| 0 <= k < |items[1..]| && items[1..][k] == row.0 && prices[1..][k] == Some(row.1);
          assert items[k + 1] == row.0 && prices[k + 1] == Some(row.1);
        }
      }
      forall x | x in removed
        ensures exists k :: 0 <= k < |items| && items[k] == x && prices[k].None?
      {
        if x !in headRemoved {
          var k :| 0 <= k < |items[1..]| && items[1..][k] == x && prices[1..][k].None?;
          assert items[k + 1] == x && prices[k + 1].None?;
        }
      }
    }
  }

  /** The output rows keep the input order: the rows of a concatenated table
      are the rows of its first part followed by those of its second. */
  lemma {:induction false} PricedInOrder<P>(items1: seq<string>, prices1: seq<Option<P>>, items2: seq<string>, prices2: seq<Option<P>>)
    requires |items1| == |prices1| && |items2| == |prices2|
    ensures PricedRows(items1 + items2, prices1 + prices2) == PricedRows(items1, prices1) + PricedRows(items2, prices2)
  {
    if items1 == [] {
      assert items1 + items2 == items2 && prices1 + prices2 == prices2;
    } else {
      var i1, p1 := items1[1..], prices1[1..];
      PricedInOrder(i1, p1, items2, prices2);
      var head := if prices1[0].Some? then [(items1[0], prices1[0].value)] else [];
      var a, b := PricedRows(i1, p1), PricedRows(items2, prices2);
      ConsOfConcat(items1, prices1, items2, prices2);
      PricedRowsCons(items1 + items2, prices1 + prices2);
      PricedRowsCons(items1, prices1);
      assert PricedRows(items1 + items2, prices1 + prices2) == head + (a + b);
      assert head + (a + b) == (head + a) + b;
    }
  }

  /** The first row of a non-empty table and the rest. */
  lemma PricedRowsCons<P>(items: seq<string>, prices: seq<Option<P>>)
    requires |items| == |prices| && items != []
    ensures PricedRows(items, prices) ==
      (if prices[0].Some? then [(items[0], prices[0].value)] else []) + PricedRows(items[1..], prices[1..])
  {
  }

  lemma UnpricedItemsCons<P>(items: seq<string>, prices: seq<Option<P>>)
    requires |items| == |prices| && items != []
    ensures UnpricedItems(items, prices) ==
      (if prices[0].None? then [items[0]] else []) + UnpricedItems(items[1..], prices[1..])
  {
  }

  /** The head and tail of a concatenation whose first part is not empty. */
  lemma ConsOfConcat<P>(items1: seq<string>, prices1: seq<Option<P>>, items2: seq<string>, prices2: seq<Option<P>>)
    requires |items1| == |prices1| && items1 != []
    ensures (items1 + items2)[0] == items1[0] && (prices1 + prices2)[0] == prices1[0]
    ensures (items1 + items2)[1..] == items1[1..] + items2 && (prices1 + prices2)[1..] == prices1[1..] + prices2
  {
  }

  /** The removed list keeps the input order. */
  lemma {:induction false} UnpricedInOrder<P>(items1: seq<string>, prices1: seq<Option<P>>, items2: seq<string>, prices2: seq<Option<P>>)
    requires |items1| == |prices1| && |items2| == |prices2|
    ensures UnpricedItems(items1 + items2, prices1 + prices2) == UnpricedItems(items1, prices1) + UnpricedItems(items2, prices2)
  {
    if items1 == [] {
      assert items1 + items2 == items2 && prices1 + prices2 == prices2;
    } else {
      var i1, p1 := items1[1..], prices1[1..];
      UnpricedInOrder(i1, p1, items2, prices2);
      var head := if prices1[0].None? then [items1[0]] else [];
      var a, b := UnpricedItems(i1, p1), UnpricedItems(items2, prices2);
      ConsOfConcat(items1, prices1, items2, prices2);
      UnpricedItemsCons(items1 + items2, prices1 + prices2);
      UnpricedItemsCons(items1, prices1);
      assert UnpricedItems(items1 + items2, prices1 + prices2) == head + (a + b);
      assert head + (a + b) == (head + a) + b;
    }
  }

  /** `process_vendor` from the column check to the summary: `None` exactly
      when `Item No.` or a required price-list column is missing, or when
      the internal table has no rows (parsing an empty `Item No.` column
      yields no four columns to assign, which raises, and the `except`
      returns `None`), and otherwise the statistics of the matched `Price`
      column. */
  method ProcessVendor<P>(oitmColumns: seq<string>, items: seq<string>, vplColumns: seq<string>,
                          vendor: seq<VendorRow<P>>, rules: seq<SizeRule>)
    returns (result: Option<VendorResult<P>>)
    ensures result.None? <==>
      "Item No." !in oitmColumns || MissingColumns(RequiredVplColumns, vplColumns) != [] || items == []
    ensures result.Some? ==> result.value == Statistics(items, ExpectedPrices(items, vendor, rules), rules)
  {
    if "Item No." !in oitmColumns {
      return None;
    }
    var missing := MissingColumns(RequiredVplColumns, vplColumns);
    if missing != [] {
      return None;
    }
    if items == [] {
      return None;
    }
    var prices := MatchPrices(items, vendor, rules);
    return Some(Statistics(items, prices, rules));
  }

  /** An item is removed exactly when neither of its keys finds a price. */
  lemma RemovedIff<P>(items: seq<string>, vendor: seq<VendorRow<P>>, rules: seq<SizeRule>, k: nat)
    requires k < |items|
    ensures var prices := ExpectedPrices(items, vendor, rules);
      ExpectedPrice(items[k], vendor, rules).None? ==> items[k] in UnpricedItems(items, prices)
    ensures var prices := ExpectedPrices(items, vendor, rules);
      ExpectedPrice(items[k], vendor, rules).Some? ==>
        (items[k], ExpectedPrice(items[k], vendor, rules).value) in PricedRows(items, prices)
  {
    PartitionMembers(items, ExpectedPrices(items, vendor, rules));
  }
}
