/** Price mode: `match_prices` and the statistics of `process_vendor`.
    Every internal item gets the price of the vendor row whose four-field key
    `STYLE|COLOR|SIZE|VARIABLE` equals its own (size mapped), or else of the
    vendor row whose three-field key `STYLE|COLOR|SIZE` does. Prices are
    opaque values of type `P`, copied and never computed on. */
module PriceMatching {
  import opened Text
  import opened Tables
  import opened ItemCodes
  import opened SizeMapping

  /** A vendor price-list row; `price` is `None` for an empty price cell. */
  datatype VendorRow<P> = VendorRow(vendorStyle: Cell, color: Cell, size: Cell, variable: Cell, price: Option<P>)

  /** `.fillna('').astype(str).str.upper().str.strip()`: only a missing
      variable is blanked; the text `None` or `nan` is kept. */
  function NormVariable(c: Cell): string {
    Normalize(FillNaBlank(c))
  }

  /** `Lookup_Key_4` of a vendor row: four fields even without a variable,
      so it is always the three-field key extended by `|` and the variant. */
  function VendorKey4<P>(r: VendorRow<P>): (key: string)
    ensures key == VendorKey3(r) + "|" + NormVariable(r.variable)
  {
    Key4(Norm(r.vendorStyle), Norm(r.color), Norm(r.size), NormVariable(r.variable))
  }

  /** `Lookup_Key_3` of a vendor row, built for every row, variant or not. */
  function VendorKey3<P>(r: VendorRow<P>): string {
    Key3(Norm(r.vendorStyle), Norm(r.color), Norm(r.size))
  }

  /** The size an internal item is matched with: its parsed size after the
      conditional mapping. */
  function ItemMappedSize(itemNo: string, rules: seq<SizeRule>): Cell {
    var f := ParseItemNo(itemNo);
    MappedSize(f.style, f.color, f.size, rules)
  }

  /** `Lookup_Key_4_Mapped` of an internal item: its three-field key
      extended by `|` and the variant. */
  function ItemKey4(itemNo: string, rules: seq<SizeRule>): (key: string)
    ensures key == ItemKey3(itemNo, rules) + "|" + NormVariable(ParseItemNo(itemNo).variable)
  {
    var f := ParseItemNo(itemNo);
    Key4(Norm(f.style), Norm(f.color), Norm(ItemMappedSize(itemNo, rules)), NormVariable(f.variable))
  }

  /** `Lookup_Key_3_Mapped` of an internal item: built from the parsed
      size when no rule matches the item, from the size table's entry for
      it when one does. */
  function ItemKey3(itemNo: string, rules: seq<SizeRule>): (key: string)
    ensures var f := ParseItemNo(itemNo);
      (forall i :: 0 <= i < |rules| ==> !RuleMatches(rules[i], f.style, f.color)) ==>
        key == Key3(Norm(f.style), Norm(f.color), Norm(f.size))
    ensures var f := ParseItemNo(itemNo);
      (exists i :: 0 <= i < |rules| && RuleMatches(rules[i], f.style, f.color)) ==>
        key == Key3(Norm(f.style), Norm(f.color), Norm(LookupSize(f.size)))
  {
    var f := ParseItemNo(itemNo);
    Key3(Norm(f.style), Norm(f.color), Norm(ItemMappedSize(itemNo, rules)))
  }

  /** The `Lookup_Key_4` column of the vendor table. */
  function VendorKeys4<P>(vendor: seq<VendorRow<P>>): (keys: seq<string>)
    ensures |keys| == |vendor|
    ensures forall i :: 0 <= i < |vendor| ==> keys[i] == VendorKey4(vendor[i])
  {
    seq(|vendor|, i requires 0 <= i < |vendor| => VendorKey4(vendor[i]))
  }

  /** The `Lookup_Key_3` column of the vendor table. */
  function VendorKeys3<P>(vendor: seq<VendorRow<P>>): (keys: seq<string>)
    ensures |keys| == |vendor|
    ensures forall i :: 0 <= i < |vendor| ==> keys[i] == VendorKey3(vendor[i])
  {
    seq(|vendor|, i requires 0 <= i < |vendor| => VendorKey3(vendor[i]))
  }

  /** The `Price` column of the vendor table. */
  function VendorPrices<P>(vendor: seq<VendorRow<P>>): (prices: seq<Option<P>>)
    ensures |prices| == |vendor|
    ensures forall i :: 0 <= i < |vendor| ==> prices[i] == vendor[i].price
  {
    seq(|vendor|, i requires 0 <= i < |vendor| => vendor[i].price)
  }

  /** `price_lookup_4 = dict(zip(vpl_df['Lookup_Key_4'], vpl_df['Price']))` */
  function Lookup4<P>(vendor: seq<VendorRow<P>>): map<string, Option<P>> {
    DictOf(VendorKeys4(vendor), VendorPrices(vendor))
  }

  /** `price_lookup_3 = dict(zip(vpl_df['Lookup_Key_3'], vpl_df['Price']))` */
  function Lookup3<P>(vendor: seq<VendorRow<P>>): map<string, Option<P>> {
    DictOf(VendorKeys3(vendor), VendorPrices(vendor))
  }

  /** `Series.map(d)` for one key: `None` (NaN) when the key is absent. */
  function Get<P>(m: map<string, Option<P>>, k: string): Option<P> {
    if k in m then m[k] else None
  }

  /** The two-tier rule of `match_prices` for one pair of keys: the
      four-field value, and only when that is missing, the three-field one. */
  function TwoTier<P>(lookup4: map<string, Option<P>>, lookup3: map<string, Option<P>>, k4: string, k3: string): (r: Option<P>)
    ensures r.Some? ==> (k4 in lookup4 && r == lookup4[k4]) || (k3 in lookup3 && r == lookup3[k3])
    ensures k4 in lookup4 && lookup4[k4].Some? ==> r == lookup4[k4]
  {
    var p4 := Get(lookup4, k4);
    if p4.Some? then p4 else Get(lookup3, k3)
  }

  /** The `Price` an internal item ends up with. */
  function ExpectedPrice<P>(itemNo: string, vendor: seq<VendorRow<P>>, rules: seq<SizeRule>): Option<P> {
    PriceForKeys(vendor, ItemKey4(itemNo, rules), ItemKey3(itemNo, rules))
  }

  /** The price the vendor table gives a pair of keys. */
  function PriceForKeys<P>(vendor: seq<VendorRow<P>>, k4: string, k3: string): Option<P> {
    TwoTier(Lookup4(vendor), Lookup3(vendor), k4, k3)
  }

  /** The `Price` column after `match_prices`. */
  function ExpectedPrices<P>(items: seq<string>, vendor: seq<VendorRow<P>>, rules: seq<SizeRule>): (prices: seq<Option<P>>)
    ensures |prices| == |items|
  {
    seq(|items|, i requires 0 <= i < |items| => ExpectedPrice(items[i], vendor, rules))
  }

  /** `match_prices(oitm_df, vpl_df, rules)`, column by column: the parsed
      fields, the `Size_Mapped` column (`apply` of the size mapping, row by
      row), the key columns of both tables, the two dictionaries, the
      four-field `map`, and the overwrite of the rows still without a price
      from the three-field dictionary. This is the column-building
      counterpart of `ExpectedPrices`, proved equal to it. */
  method MatchPrices<P>(items: seq<string>, vendor: seq<VendorRow<P>>, rules: seq<SizeRule>)
    returns (prices: seq<Option<P>>)
    ensures prices == ExpectedPrices(items, vendor, rules)
  {
    var keys4, keys3 := MappedKeyColumns(items, rules);
    prices := LookUpPrices(keys4, keys3, vendor);
  }

  /** The `Lookup_Key_4_Mapped` and `Lookup_Key_3_Mapped` columns: the
      parsed fields, the `Size_Mapped` column, and the keys built from them. */
  method MappedKeyColumns(items: seq<string>, rules: seq<SizeRule>) returns (keys4: seq<string>, keys3: seq<string>)
    ensures |keys4| == |items| && |keys3| == |items|
    ensures forall i :: 0 <= i < |items| ==> keys4[i] == ItemKey4(items[i], rules) && keys3[i] == ItemKey3(items[i], rules)
  {
    var n := |items|;
    var fields := seq(n, i requires 0 <= i < n => ParseItemNo(items[i]));
    var sizeMapped := SizeMappedColumn(fields, rules);
    keys4 := seq(n, i requires 0 <= i < n =>
      Key4(Norm(fields[i].style), Norm(fields[i].color), Norm(sizeMapped[i]), NormVariable(fields[i].variable)));
    keys3 := seq(n, i requires 0 <= i < n =>
      Key3(Norm(fields[i].style), Norm(fields[i].color), Norm(sizeMapped[i])));
  }

  /** The two dictionaries, the four-field `map`, and the overwrite of the
      rows still without a price from the three-field dictionary. */
  method LookUpPrices<P>(keys4: seq<string>, keys3: seq<string>, vendor: seq<VendorRow<P>>)
    returns (prices: seq<Option<P>>)
    requires |keys3| == |keys4|
    ensures |prices| == |keys4|
    ensures forall i :: 0 <= i < |keys4| ==> prices[i] == PriceForKeys(vendor, keys4[i], keys3[i])
  {
    var n := |keys4|;
    var lookup4 := Lookup4(vendor);
    var lookup3 := Lookup3(vendor);
    var mapped := seq(n, i requires 0 <= i < n => Get(lookup4, keys4[i]));
    var noMatch := seq(n, i requires 0 <= i < n => mapped[i].None?);
    prices := seq(n, i requires 0 <= i < n => if noMatch[i] then Get(lookup3, keys3[i]) else mapped[i]);
    forall i | 0 <= i < n ensures prices[i] == TwoTier(lookup4, lookup3, keys4[i], keys3[i]) {
      assert mapped[i] == Get(lookup4, keys4[i]);
    }
  }

  /** `oitm_df.apply(lambda row: apply_conditional_size_mapping(row, rules), axis=1)` */
  method SizeMappedColumn(fields: seq<ItemFields>, rules: seq<SizeRule>) returns (column: seq<Cell>)
    ensures |column| == |fields|
    ensures forall k :: 0 <= k < |fields| ==> column[k] == MappedSize(fields[k].style, fields[k].color, fields[k].size, rules)
  {
    column := [];
    for i := 0 to |fields|
      invariant |column| == i
      invariant forall k :: 0 <= k < i ==> column[k] == MappedSize(fields[k].style, fields[k].color, fields[k].size, rules)
    {
      var mapped := ApplyConditionalSizeMapping(fields[i].style, fields[i].color, fields[i].size, rules);
      column := column + [mapped];
    }
  }

  /** For one pair of keys over any key columns: a hit in the four-field
      column whose last occurrence carries a price wins; otherwise the last
      occurrence of the three-field key decides. */
  lemma {:induction false} TwoTierLastWins<P>(keys4: seq<string>, keys3: seq<string>, prices: seq<Option<P>>, k4: string, k3: string)
    requires |keys4| == |prices| && |keys3| == |prices|
    ensures forall i :: 0 <= i < |prices| && keys4[i] == k4 && LastWith(keys4, i) && prices[i].Some? ==>
              TwoTier(DictOf(keys4, prices), DictOf(keys3, prices), k4, k3) == prices[i]
    ensures (forall j :: 0 <= j < |prices| && keys4[j] == k4 && LastWith(keys4, j) ==> prices[j].None?) ==>
              (forall i :: 0 <= i < |prices| && keys3[i] == k3 && LastWith(keys3, i) ==>
                 TwoTier(DictOf(keys4, prices), DictOf(keys3, prices), k4, k3) == prices[i])
  {
    DictOfLastWins(keys4, prices);
    DictOfLastWins(keys3, prices);
    if k4 in DictOf(keys4, prices) {
      var j :| 0 <= j < |keys4| && keys4[j] == k4;
      var last := LastOccurrence(keys4, j);
    }
  }

  /** For one pair of keys over any key columns: a result is the value of
      some position carrying one of the keys. */
  lemma TwoTierCopies<P>(keys4: seq<string>, keys3: seq<string>, prices: seq<Option<P>>, k4: string, k3: string)
    requires |keys4| == |prices| && |keys3| == |prices|
    ensures var r := TwoTier(DictOf(keys4, prices), DictOf(keys3, prices), k4, k3);
      r.Some? ==> exists i :: 0 <= i < |prices| && prices[i] == r && (keys4[i] == k4 || keys3[i] == k3)
  {
    DictOfLastWins(keys4, prices);
    DictOfLastWins(keys3, prices);
    var r := TwoTier(DictOf(keys4, prices), DictOf(keys3, prices), k4, k3);
    if r.Some? {
      if Get(DictOf(keys4, prices), k4).Some? {
        var j :| 0 <= j < |keys4| && keys4[j] == k4;
        var last := LastOccurrence(keys4, j);
        assert prices[last] == r;
      } else {
        var j :| 0 <= j < |keys3| && keys3[j] == k3;
        var last := LastOccurrence(keys3, j);
        assert prices[last] == r;
      }
    }
  }

  /** Item-level form of the two-tier rule, first tier: a priced four-field
      hit is never overridden; the item gets the price of the last vendor
      row with its four-field key. */
  lemma PriceByKey4<P>(itemNo: string, vendor: seq<VendorRow<P>>, rules: seq<SizeRule>, i: nat)
    requires i < |vendor| && VendorKey4(vendor[i]) == ItemKey4(itemNo, rules)
    requires LastWith(VendorKeys4(vendor), i) && vendor[i].price.Some?
    ensures ExpectedPrice(itemNo, vendor, rules) == vendor[i].price
  {
    FirstTier(vendor, ItemKey4(itemNo, rules), ItemKey3(itemNo, rules), i);
  }

  /** The first tier for any pair of keys. */
  lemma FirstTier<P>(vendor: seq<VendorRow<P>>, k4: string, k3: string, i: nat)
    requires i < |vendor| && VendorKey4(vendor[i]) == k4
    requires LastWith(VendorKeys4(vendor), i) && vendor[i].price.Some?
    ensures PriceForKeys(vendor, k4, k3) == vendor[i].price
  {
    var keys4, keys3, prices := VendorKeys4(vendor), VendorKeys3(vendor), VendorPrices(vendor);
    TwoTierLastWins(keys4, keys3, prices, k4, k3);
    assert keys4[i] == k4 && prices[i] == vendor[i].price;
  }

  /** Item-level form of the two-tier rule, second tier: without a priced
      four-field hit the item gets the price of the last vendor row with its
      three-field key, whatever variant that row carries. */
  lemma PriceByKey3<P>(itemNo: string, vendor: seq<VendorRow<P>>, rules: seq<SizeRule>, i: nat)
    requires forall j :: 0 <= j < |vendor| && VendorKeys4(vendor)[j] == ItemKey4(itemNo, rules) && LastWith(VendorKeys4(vendor), j) ==>
               vendor[j].price.None?
    requires i < |vendor| && VendorKey3(vendor[i]) == ItemKey3(itemNo, rules)
    requires LastWith(VendorKeys3(vendor), i)
    ensures ExpectedPrice(itemNo, vendor, rules) == vendor[i].price
  {
    SecondTier(vendor, ItemKey4(itemNo, rules), ItemKey3(itemNo, rules), i);
  }

  /** The second tier for any pair of keys. */
  lemma SecondTier<P>(vendor: seq<VendorRow<P>>, k4: string, k3: string, i: nat)
    requires forall j :: 0 <= j < |vendor| && VendorKeys4(vendor)[j] == k4 && LastWith(VendorKeys4(vendor), j) ==>
               vendor[j].price.None?
    requires i < |vendor| && VendorKey3(vendor[i]) == k3
    requires LastWith(VendorKeys3(vendor), i)
    ensures PriceForKeys(vendor, k4, k3) == vendor[i].price
  {
    var keys4, keys3, prices := VendorKeys4(vendor), VendorKeys3(vendor), VendorPrices(vendor);
    forall j | 0 <= j < |prices| && keys4[j] == k4 && LastWith(keys4, j)
      ensures prices[j].None?
    {
      assert prices[j] == vendor[j].price;
    }
    assert keys3[i] == k3 && prices[i] == vendor[i].price;
    TwoTierLastWins(keys4, keys3, prices, k4, k3);
  }

  /** A price is only ever copied from a vendor row that carries one of the
      item's two keys. */
  lemma PriceIsCopied<P>(itemNo: string, vendor: seq<VendorRow<P>>, rules: seq<SizeRule>)
    ensures ExpectedPrice(itemNo, vendor, rules).Some? ==>
              exists i :: 0 <= i < |vendor| && vendor[i].price == ExpectedPrice(itemNo, vendor, rules) &&
                (VendorKey4(vendor[i]) == ItemKey4(itemNo, rules) || VendorKey3(vendor[i]) == ItemKey3(itemNo, rules))
  {
    var k4, k3 := ItemKey4(itemNo, rules), ItemKey3(itemNo, rules);
    TwoTierCopies(VendorKeys4(vendor), VendorKeys3(vendor), VendorPrices(vendor), k4, k3);
    var r := ExpectedPrice(itemNo, vendor, rules);
    if r.Some? {
      var i :| 0 <= i < |vendor| && VendorPrices(vendor)[i] == r && (VendorKeys4(vendor)[i] == k4 || VendorKeys3(vendor)[i] == k3);
      assert vendor[i].price == r;
    }
  }

  /** Every field of a parsed code is made of characters of the code. */
  lemma ParsedFieldsAvoid(itemNo: string, c: char)
    requires c !in itemNo
    ensures var f := ParseItemNo(itemNo);
      (f.style.Str? ==> c !in f.style.s) && (f.color.Str? ==> c !in f.color.s) &&
      (f.size.Str? ==> c !in f.size.s) && (f.variable.Str? ==> c !in f.variable.s)
  {
    var f := ParseItemNo(itemNo);
    if f != Unparsed {
      ParseRoundTrip(itemNo);
      var present := Present(f);
      forall i | 0 <= i < |present| ensures c !in present[i] {
        if c in present[i] { JoinHasPartChars(present, '-', i, c); }
      }
      assert present[0] == f.style.s && present[1] == f.color.s && present[2] == f.size.s;
      if f.variable.Str? { assert present[3] == f.variable.s; }
    }
  }

  /** Normalised fields carry no `|` when the raw cell carries none. */
  lemma NormAvoidsPipe(c: Cell)
    requires c.Str? ==> '|' !in c.s
    ensures '|' !in Norm(c) && '|' !in NormVariable(c)
  {
    NormalizeKeepsAbsent(ToStr(c), '|');
    NormalizeKeepsAbsent(FillNaBlank(c), '|');
  }

  /** Key4 always has four fields and key3 three: for a code without `|`,
      splitting the keys on `|` gives back the normalised fields, and a code
      without a variant gets an empty last field (`A|RED|M|`). */
  lemma ItemKeyFields(itemNo: string, rules: seq<SizeRule>)
    requires '|' !in itemNo
    ensures var f := ParseItemNo(itemNo);
      Split(ItemKey4(itemNo, rules), '|') == [Norm(f.style), Norm(f.color), Norm(ItemMappedSize(itemNo, rules)), NormVariable(f.variable)]
    ensures var f := ParseItemNo(itemNo);
      Split(ItemKey3(itemNo, rules), '|') == [Norm(f.style), Norm(f.color), Norm(ItemMappedSize(itemNo, rules))]
    ensures ParseItemNo(itemNo).variable.Nil? ==> Split(ItemKey4(itemNo, rules), '|')[3] == ""
  {
    var f := ParseItemNo(itemNo);
    var z := ItemMappedSize(itemNo, rules);
    ParsedFieldsAvoid(itemNo, '|');
    MappedSizeAvoidsPipe(f.style, f.color, f.size, rules);
    CellKeyFields(f.style, f.color, z, f.variable);
  }

  /** Size mapping brings in no `|`: the `SIZE_MAPPING` values have none. */
  lemma MappedSizeAvoidsPipe(style: Cell, color: Cell, size: Cell, rules: seq<SizeRule>)
    requires size.Str? ==> '|' !in size.s
    ensures var z := MappedSize(style, color, size, rules); z.Str? ==> '|' !in z.s
  {
    MappedSizeRange(style, color, size, rules);
    SizeTableAvoidsPipe();
  }

  lemma SizeTableAvoidsPipe()
    ensures forall k :: k in SizeTable ==> '|' !in SizeTable[k]
  {
  }

  /** The key fields of any cells without `|` split back out of the keys. */
  lemma CellKeyFields(style: Cell, color: Cell, size: Cell, variable: Cell)
    requires style.Str? ==> '|' !in style.s
    requires color.Str? ==> '|' !in color.s
    requires size.Str? ==> '|' !in size.s
    requires variable.Str? ==> '|' !in variable.s
    ensures Split(Key4(Norm(style), Norm(color), Norm(size), NormVariable(variable)), '|') ==
            [Norm(style), Norm(color), Norm(size), NormVariable(variable)]
    ensures Split(Key3(Norm(style), Norm(color), Norm(size)), '|') == [Norm(style), Norm(color), Norm(size)]
    ensures IsNa(variable) ==> NormVariable(variable) == ""
  {
    NormAvoidsPipe(style);
    NormAvoidsPipe(color);
    NormAvoidsPipe(size);
    NormAvoidsPipe(variable);
    Key4Fields(Norm(style), Norm(color), Norm(size), NormVariable(variable));
    Key3Fields(Norm(style), Norm(color), Norm(size));
    if IsNa(variable) {
      NormVariableMissing(variable);
    }
  }


  /** An unparseable code is not dropped: its `None` fields become `NONE`,
      giving the keys `NONE|NONE|NONE|` and `NONE|NONE|NONE`. */
  lemma UnparseableKeys(itemNo: string, rules: seq<SizeRule>)
    requires |Split(itemNo, '-')| < 3
    ensures ItemKey4(itemNo, rules) == "NONE|NONE|NONE|"
    ensures ItemKey3(itemNo, rules) == "NONE|NONE|NONE"
  {
    assert ItemMappedSize(itemNo, rules) == Nil by {
      assert ParseItemNo(itemNo) == Unparsed;
      assert forall i :: 0 <= i < |rules| ==> !RuleMatches(rules[i], Nil, Nil);
    }
    assert ItemKey4(itemNo, rules) == Key4(Norm(Nil), Norm(Nil), Norm(Nil), NormVariable(Nil));
    assert ItemKey3(itemNo, rules) == Key3(Norm(Nil), Norm(Nil), Norm(Nil));
    NoneKeys();
  }

  /** A missing variant is an empty last field. */
  lemma NormVariableMissing(c: Cell)
    requires IsNa(c)
    ensures NormVariable(c) == ""
  {
    assert Normalize("") == "";
  }

  /** The keys of an all-`None` parse. */
  lemma NoneKeys()
    ensures Key4(Norm(Nil), Norm(Nil), Norm(Nil), NormVariable(Nil)) == "NONE|NONE|NONE|"
    ensures Key3(Norm(Nil), Norm(Nil), Norm(Nil)) == "NONE|NONE|NONE"
  {
    NormNil();
    NormVariableMissing(Nil);
    KeysOfNone(Norm(Nil), NormVariable(Nil));
  }


  /** Plain text is its own normal form. */
  lemma PlainNorm(s: string)
    requires Plain(s)
    ensures Norm(Str(s)) == s && NormVariable(Str(s)) == s
  {
    NormalizeFixed(s);
  }

  /** The keys of a four-field code with plain fields and no size rule for
      its style: the fields joined with `|`. */
  lemma PlainItemKeys(style: string, color: string, size: string, variable: string, rules: seq<SizeRule>)
    requires '-' !in style && '-' !in size && '-' !in variable
    requires Plain(style) && Plain(color) && Plain(size) && Plain(variable)
    requires forall i :: 0 <= i < |rules| ==> !RuleMatches(rules[i], Str(style), Str(color))
    ensures ItemKey4(Join([style, color, size, variable], '-'), rules) == Key4(style, color, size, variable)
    ensures ItemKey3(Join([style, color, size, variable], '-'), rules) == Key3(style, color, size)
  {
    var code := Join([style, color, size, variable], '-');
    PlainNorm(style);
    PlainNorm(color);
    PlainNorm(size);
    PlainNorm(variable);
    ParseJoinFour(style, color, size, variable);
    KeysOfFields(code, rules, style, color, size, variable);
  }

  /** The keys of a three-field code with plain fields and no size rule for
      its style: an empty variant field in the four-field key. */
  lemma PlainItemKeysThree(style: string, color: string, size: string, rules: seq<SizeRule>)
    requires '-' !in style && '-' !in color && '-' !in size
    requires Plain(style) && Plain(color) && Plain(size)
    requires forall i :: 0 <= i < |rules| ==> !RuleMatches(rules[i], Str(style), Str(color))
    ensures ItemKey4(Join([style, color, size], '-'), rules) == Key4(style, color, size, "")
    ensures ItemKey3(Join([style, color, size], '-'), rules) == Key3(style, color, size)
  {
    var code := Join([style, color, size], '-');
    PlainNorm(style);
    PlainNorm(color);
    PlainNorm(size);
    NormVariableMissing(Nil);
    ParseJoinThree(style, color, size);
    KeysOfThreeFields(code, rules, style, color, size);
  }

  /** The keys of a three-field code whose fields and mapped size are known. */
  lemma KeysOfThreeFields(itemNo: string, rules: seq<SizeRule>, style: string, color: string, size: string)
    requires ParseItemNo(itemNo) == ItemFields(Str(style), Str(color), Str(size), Nil)
    requires ItemMappedSize(itemNo, rules) == Str(size)
    requires Norm(Str(style)) == style && Norm(Str(color)) == color && Norm(Str(size)) == size
    requires NormVariable(Nil) == ""
    ensures ItemKey4(itemNo, rules) == Key4(style, color, size, "")
    ensures ItemKey3(itemNo, rules) == Key3(style, color, size)
  {
  }

  /** Price mode keeps a literal `NONE` variant: `STYLE-COLOR-SIZE-NONE` and
      `STYLE-COLOR-SIZE` have different four-field keys. */
  lemma NoneVariantKept(style: string, color: string, size: string, rules: seq<SizeRule>)
    requires '-' !in style && '-' !in color && '-' !in size
    requires Plain(style) && Plain(color) && Plain(size)
    requires forall i :: 0 <= i < |rules| ==> !RuleMatches(rules[i], Str(style), Str(color))
    ensures ItemKey4(Join([style, color, size, "NONE"], '-'), rules) != ItemKey4(Join([style, color, size], '-'), rules)
  {
    PlainItemKeys(style, color, size, "NONE", rules);
    PlainItemKeysThree(style, color, size, rules);
    Key4LastField(style, color, size, "NONE", "");
  }

  /** The keys of a code whose fields and mapped size are known. */
  lemma KeysOfFields(itemNo: string, rules: seq<SizeRule>, style: string, color: string, size: string, variable: string)
    requires ParseItemNo(itemNo) == ItemFields(Str(style), Str(color), Str(size), Str(variable))
    requires ItemMappedSize(itemNo, rules) == Str(size)
    requires Norm(Str(style)) == style && Norm(Str(color)) == color && Norm(Str(size)) == size
    requires NormVariable(Str(variable)) == variable
    ensures ItemKey4(itemNo, rules) == Key4(style, color, size, variable)
    ensures ItemKey3(itemNo, rules) == Key3(style, color, size)
  {
  }

  /** Two keys that differ only in the variant are different keys. */
  lemma Key4LastField(style: string, color: string, size: string, v1: string, v2: string)
    requires v1 != v2
    ensures Key4(style, color, size, v1) != Key4(style, color, size, v2)
  {
    var prefix := style + "|" + color + "|" + size + "|";
    assert Key4(style, color, size, v1) == prefix + v1;
    assert Key4(style, color, size, v2) == prefix + v2;
    assert (prefix + v1)[|prefix|..] == v1;
    assert (prefix + v2)[|prefix|..] == v2;
  }

  /** A vendor row with variant `v`. */
  function VariantRow<P>(style: string, color: string, size: string, v: string, price: P): VendorRow<P> {
    VendorRow(Str(style), Str(color), Str(size), Str(v), Some(price))
  }

  /** A vendor row with an empty variant cell. */
  function BlankRow<P>(style: string, color: string, size: string, price: P): VendorRow<P> {
    VendorRow(Str(style), Str(color), Str(size), NaN, Some(price))
  }

  /** The vendor rows of the fallback pattern, in either order. */
  function PatternRows<P>(style: string, color: string, size: string, v: string, withVariant: P, without: P, variantFirst: bool): seq<VendorRow<P>> {
    var a := VariantRow(style, color, size, v, withVariant);
    var b := BlankRow(style, color, size, without);
    if variantFirst then [a, b] else [b, a]
  }

  /** The keys of a pattern row with a variant. */
  lemma VariantRowKeys<P>(style: string, color: string, size: string, v: string, p: P)
    requires Plain(style) && Plain(color) && Plain(size) && Plain(v)
    ensures VendorKey4(VariantRow(style, color, size, v, p)) == Key4(style, color, size, v)
    ensures VendorKey3(VariantRow(style, color, size, v, p)) == Key3(style, color, size)
  {
    PlainNorm(style);
    PlainNorm(color);
    PlainNorm(size);
    PlainNorm(v);
  }

  /** The keys of a pattern row without a variant. */
  lemma BlankRowKeys<P>(style: string, color: string, size: string, q: P)
    requires Plain(style) && Plain(color) && Plain(size)
    ensures VendorKey4(BlankRow(style, color, size, q)) == Key4(style, color, size, "")
    ensures VendorKey3(BlankRow(style, color, size, q)) == Key3(style, color, size)
  {
    PlainNorm(style);
    PlainNorm(color);
    PlainNorm(size);
    NormVariableMissing(NaN);
    RowKeys(BlankRow(style, color, size, q), style, color, size, "");
  }

  /** The keys of a vendor row whose normalised fields are known. */
  lemma RowKeys<P>(r: VendorRow<P>, style: string, color: string, size: string, v: string)
    requires Norm(r.vendorStyle) == style && Norm(r.color) == color && Norm(r.size) == size
    requires NormVariable(r.variable) == v
    ensures VendorKey4(r) == Key4(style, color, size, v) && VendorKey3(r) == Key3(style, color, size)
  {
  }


  /** The fallback rule on a vendor list holding `STYLE-COLOR-SIZE-V` and
      `STYLE-COLOR-SIZE` (no variant), in either order: the code with variant
      `V` gets its own row's price, and a code with another variant `W` falls
      back to the three-field key and gets the price of whichever of the two
      rows comes last, even when that is the row of variant `V`. */
  lemma {:induction false} FallbackPattern<P>(style: string, color: string, size: string, v: string, w: string, p: P, q: P, variantFirst: bool, rules: seq<SizeRule>)
    requires '-' !in style && '-' !in size && '-' !in v && '-' !in w
    requires Plain(style) && Plain(color) && Plain(size) && Plain(v) && Plain(w)
    requires v != "" && w != "" && v != w
    requires forall i :: 0 <= i < |rules| ==> !RuleMatches(rules[i], Str(style), Str(color))
    ensures var rows := PatternRows(style, color, size, v, p, q, variantFirst);
      ExpectedPrice(Join([style, color, size, v], '-'), rows, rules) == Some(p)
    ensures var rows := PatternRows(style, color, size, v, p, q, variantFirst);
      ExpectedPrice(Join([style, color, size, w], '-'), rows, rules) == if variantFirst then Some(q) else Some(p)
  {
    PlainItemKeys(style, color, size, v, rules);
    PlainItemKeys(style, color, size, w, rules);
    FallbackPatternKeys(style, color, size, v, w, p, q, variantFirst);
  }

  /** `FallbackPattern` on the keys. */
  lemma FallbackPatternKeys<P>(style: string, color: string, size: string, v: string, w: string, p: P, q: P, variantFirst: bool)
    requires Plain(style) && Plain(color) && Plain(size) && Plain(v)
    requires v != "" && w != "" && v != w
    ensures var rows := PatternRows(style, color, size, v, p, q, variantFirst);
      PriceForKeys(rows, Key4(style, color, size, v), Key3(style, color, size)) == Some(p)
    ensures var rows := PatternRows(style, color, size, v, p, q, variantFirst);
      PriceForKeys(rows, Key4(style, color, size, w), Key3(style, color, size)) == if variantFirst then Some(q) else Some(p)
  {
    var a, b := VariantRow(style, color, size, v, p), BlankRow(style, color, size, q);
    var rows := PatternRows(style, color, size, v, p, q, variantFirst);
    var kv, kb, kw, k3 := Key4(style, color, size, v), Key4(style, color, size, ""), Key4(style, color, size, w), Key3(style, color, size);
    VariantRowKeys(style, color, size, v, p);
    BlankRowKeys(style, color, size, q);
    Key4LastField(style, color, size, v, "");
    Key4LastField(style, color, size, v, w);
    Key4LastField(style, color, size, "", w);
    if variantFirst {
      assert rows[0] == a && rows[1] == b;
    } else {
      assert rows[0] == b && rows[1] == a;
    }
    TwoRowFallback(VendorKeys4(rows), VendorKeys3(rows), VendorPrices(rows), kv, kb, kw, k3, p, q, variantFirst);
  }

  /** The fallback pattern on two key columns of two rows. */
  lemma TwoRowFallback<P>(keys4: seq<string>, keys3: seq<string>, prices: seq<Option<P>>, kv: string, kb: string, kw: string, k3: string, p: P, q: P, variantFirst: bool)
    requires |keys4| == 2 && |keys3| == 2 && |prices| == 2
    requires var i := if variantFirst then 0 else 1;
      keys4[i] == kv && keys4[1 - i] == kb && prices[i] == Some(p) && prices[1 - i] == Some(q)
    requires keys3[0] == k3 && keys3[1] == k3
    requires kv != kb && kv != kw && kb != kw
    ensures TwoTier(DictOf(keys4, prices), DictOf(keys3, prices), kv, k3) == Some(p)
    ensures TwoTier(DictOf(keys4, prices), DictOf(keys3, prices), kw, k3) == if variantFirst then Some(q) else Some(p)
  {
    var i := if variantFirst then 0 else 1;
    assert LastWith(keys4, i) && LastWith(keys3, 1);
    TwoTierLastWins(keys4, keys3, prices, kv, k3);
    TwoTierLastWins(keys4, keys3, prices, kw, k3);
  }




  /** The worked example: vendor rows `A-RED-M-1` at `p10` and `A-RED-M` at
      `p8` give `A-RED-M-1` the price `p10` and `A-RED-M-2` the price `p8`;
      with the two rows swapped `A-RED-M-2` gets `p10`. */
  lemma FallbackExample<P>(p10: P, p8: P)
    ensures ExpectedPrice("A-RED-M-1", PatternRows("A", "RED", "M", "1", p10, p8, true), StylesUsingGSizes) == Some(p10)
    ensures ExpectedPrice("A-RED-M-2", PatternRows("A", "RED", "M", "1", p10, p8, true), StylesUsingGSizes) == Some(p8)
    ensures ExpectedPrice("A-RED-M-2", PatternRows("A", "RED", "M", "1", p10, p8, false), StylesUsingGSizes) == Some(p10)
  {
    ExampleFields();
    ExampleCodes();
    FallbackPattern("A", "RED", "M", "1", "2", p10, p8, true, StylesUsingGSizes);
    FallbackPattern("A", "RED", "M", "1", "2", p10, p8, false, StylesUsingGSizes);
  }

  /** The fields of the worked example are plain and no configured rule
      applies to its style. */
  lemma ExampleFields()
    ensures Plain("A") && Plain("RED") && Plain("M") && Plain("1") && Plain("2")
    ensures '-' !in "A" && '-' !in "M" && '-' !in "1" && '-' !in "2"
    ensures forall i :: 0 <= i < |StylesUsingGSizes| ==> !RuleMatches(StylesUsingGSizes[i], Str("A"), Str("RED"))
  {
  }

  /** The item codes of the worked example as joins of their fields. */
  lemma ExampleCodes()
    ensures Join(["A", "RED", "M", "1"], '-') == "A-RED-M-1"
    ensures Join(["A", "RED", "M", "2"], '-') == "A-RED-M-2"
  {
    JoinFour("A", "RED", "M", "1", '-');
    JoinFour("A", "RED", "M", "2", '-');
  }
}
