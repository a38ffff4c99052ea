# SKU matching core of the vendor price matcher and the discontinued-items finder

This project models the shared core of two scripts that reconcile an ERP item
table (OITM) with vendor spreadsheets:

- `vendor_price_matcher.py` (price mode) gives each internal item a vendor
  price. An item code `STYLE-COLOR-SIZE[-VARIANT]` is parsed, its size may
  be rewritten by the conditional size mapping, and its fields are upper-cased
  and stripped. The item is then looked up by a four-field key
  `S|C|Z|V`. When that finds no price, it falls back to the three-field key
  `S|C|Z`. The run counts matched and removed SKUs and writes the priced rows.
- `find_discontinued_items.py` (deactivation mode) works on the vendor
  table (DTW). It normalises the vendor column labels case-insensitively
  and keeps the rows whose `Style Name` contains `DISCONTINUED`. It then
  flags every internal item whose single lookup key (three fields when the
  variant is blank, four otherwise) is one of those rows' keys. The flagged
  items become `(ItemCode, Y, N)` rows of a deactivation sheet.
- Both scripts pair each internal-table file with the first vendor file
  whose name contains the vendor code.

Modules:

- `Text`: ASCII `upper`/`lower`/`strip`, `split`/`join` on one character,
  `in` on strings, and the key concatenations.
- `Tables`: the cells `Str | Nil | NaN` (Python `None` versus pandas `NaN`),
  order-preserving filters, `dict(zip(...))` with its last-write-wins rule,
  and `isin` selection.
- `ItemCodes`: `parse_item_no`. The two scripts carry identical copies, so it
  is modelled once.
- `SizeMapping`: `SIZE_MAPPING`, `STYLES_USING_G_SIZES` and
  `apply_conditional_size_mapping`.
- `PriceMatching`: the keys and two-tier lookup of `match_prices`.
- `VendorRun`: the column check, counts and row partition of
  `process_vendor`.
- `Discontinued`: `create_lookup_key`, `normalize_dtw_columns`, and the
  checks, selection and sheet rows of `find_discontinued_items`.
- `FilePairs`: `find_file_pairs`. The two copies differ only in which
  listing comes first, and that listing is an input here.

Quirks of the code that the model keeps and proves:

1. A code with fewer than three segments is not rejected. Its fields
   read as `NONE`, so price mode looks it up under `NONE|NONE|NONE|`, and
   deactivation mode under `NONE|NONE|NONE`.
2. A code with a hyphenated color and no variant is read as a four-field code.
3. In price mode a literal variant `NONE` is kept and not blanked; in
   deactivation mode it counts as blank.
4. The price-mode fallback can take the price of a vendor row that has a
   different variant.
5. A `|` inside a field makes different fields produce the same key.
6. When two vendor labels normalise to the same name, only the last of
   them is renamed.
7. An internal file whose stem starts with `_` has an empty vendor code and
   is paired with the first vendor file listed.

Where the behaviour depends on a pandas detail, the model follows the code as
written: `str(None)` is `None`, `str(NaN)` is `nan`, and `fillna('')` applies
only to the variant column of price mode.

## Model

| member | source | states |
|---|---|---|
| ItemCodes.ParseItemNo | vendor_price_matcher.py:59-85 | `Unparsed` (all `None`) exactly when the code has fewer than 3 `-` segments. Otherwise style, color and size are present. A variant is present exactly for 4 or more segments. Style, size and variant never contain `-`. |
| ItemCodes.ParseRoundTrip | vendor_price_matcher.py:77-83 | For any parsed code, re-joining the present fields with `-` gives back the original code, including the case where a multi-segment color is folded back together. |
| ItemCodes.SegmentsOfFour | vendor_price_matcher.py:61-83 | The `-` segments of a four-field code are the style, then the color's own segments, then size and variant. |
| ItemCodes.ParseJoinFour | vendor_price_matcher.py:63-83 | Any hyphen-free style, size and variant joined with any color parse back to exactly those four fields. |
| ItemCodes.ParseJoinThree | find_discontinued_items.py:36-51 | Three hyphen-free fields joined with `-` parse back to those fields with no variant. |
| ItemCodes.HyphenatedColorNeedsVariant | vendor_price_matcher.py:63-69 | `2795-DARK-GRAY-XL` is read as color `DARK`, size `GRAY`, variant `XL`. |
| SizeMapping.MappedSize | vendor_price_matcher.py:88-105 | When some rule matches the style (or the style and color), the result is the `SIZE_MAPPING` lookup of the size, defaulting to the size. When no rule matches, the size is unchanged. |
| SizeMapping.ApplyConditionalSizeMapping | vendor_price_matcher.py:88-105 | The rule loop with its early return computes `MappedSize`. |
| SizeMapping.MappedSizeRange | vendor_price_matcher.py:34-44 | The result is the raw size or its table entry. A size that is not a key (lower case included) always passes through. |
| SizeMapping.PairRuleIsColorSpecific | vendor_price_matcher.py:48-52 | The rule `('2795','SILVER')` never maps any other color of style 2795. |
| SizeMapping.ConfiguredExamples | vendor_price_matcher.py:34-52 | Under the configured rules: 2278/L becomes LG, 2795/SILVER/XL becomes XLG, while 9999, 2795/BLUE and the lower-case `l` pass through. |
| PriceMatching.VendorKey4 | vendor_price_matcher.py:183-194 | The vendor four-field key is always the three-field key followed by `\|` and the `fillna('')`-normalised variable. So a row without a variant has a key ending in `\|`. |
| PriceMatching.VendorKey3 | vendor_price_matcher.py:183-200 | Defines the vendor three-field key of the normalised style, color and size. `CellKeyFields` proves that splitting it on `\|` gives those fields. |
| PriceMatching.ItemKey4 | vendor_price_matcher.py:202-207 | The item four-field key is the item's three-field key followed by `\|` and the normalised variant. |
| PriceMatching.ItemKey3 | vendor_price_matcher.py:169-213 | The item three-field key uses the parsed size when no rule matches the item's style and color, and the size table's entry for that size when one does. |
| PriceMatching.Lookup4 | vendor_price_matcher.py:216 | Defines `price_lookup_4` as `dict(zip(...))` of the vendor four-field keys and prices. `TwoTierLastWins` and `TwoTierCopies` state which price it holds under each key. |
| PriceMatching.Lookup3 | vendor_price_matcher.py:217 | Defines `price_lookup_3` the same way over the three-field keys. |
| PriceMatching.TwoTier | vendor_price_matcher.py:220-222 | A found price is the entry of one of the two dictionaries under its key. A four-field entry that holds a price always wins. |
| PriceMatching.PriceForKeys | vendor_price_matcher.py:216-222 | Defines the two-tier rule on the vendor table's two dictionaries. `FirstTier` and `SecondTier` say which row decides. |
| PriceMatching.ExpectedPrice | vendor_price_matcher.py:220-222 | Defines one item's price as the two-tier price of its two mapped keys. `PriceByKey4`, `PriceByKey3`, `PriceIsCopied` and `RemovedIff` characterise it. |
| PriceMatching.ExpectedPrices | vendor_price_matcher.py:220-222 | One price slot per internal row. |
| PriceMatching.MatchPrices | vendor_price_matcher.py:161-224 | The column-by-column computation (parse, map sizes, key columns, two dicts, the `Price` column overwritten for the rows still missing) ends with the two-tier price of every row. |
| PriceMatching.MappedKeyColumns | vendor_price_matcher.py:164-213 | The `Lookup_Key_4_Mapped` and `Lookup_Key_3_Mapped` columns hold, row by row, the two keys of each item code after size mapping. |
| PriceMatching.LookUpPrices | vendor_price_matcher.py:215-222 | After the four-field `map` and the overwrite of the rows still missing a price, each row holds the two-tier price of its pair of keys. |
| PriceMatching.SizeMappedColumn | vendor_price_matcher.py:170-173 | The `Size_Mapped` column holds `MappedSize` of each parsed row. |
| PriceMatching.TwoTierLastWins | vendor_price_matcher.py:216-222 | Over any key columns: the last row with the four-field key, when it carries a price, decides. Without such a price, the last row with the three-field key decides. |
| PriceMatching.TwoTierCopies | vendor_price_matcher.py:216-222 | A looked-up price is the price of some row that carries one of the two keys. |
| PriceMatching.PriceByKey4 | vendor_price_matcher.py:216-220 | A priced four-field hit is never overridden: the item gets the price of the last vendor row with its key4. |
| PriceMatching.PriceByKey3 | vendor_price_matcher.py:217-222 | Without a priced four-field hit, the item gets the price of the last vendor row with its key3, whatever that row's variant. |
| PriceMatching.FirstTier | vendor_price_matcher.py:216-220 | For any pair of keys: the last vendor row with the four-field key, when it carries a price, gives the price. |
| PriceMatching.SecondTier | vendor_price_matcher.py:216-222 | For any pair of keys: when no last row with the four-field key carries a price, the last row with the three-field key gives the price. |
| PriceMatching.PriceIsCopied | vendor_price_matcher.py:216-222 | A price is copied from a vendor row that carries one of the item's keys and is never invented. |
| PriceMatching.ItemKeyFields | vendor_price_matcher.py:176-213 | For a code without `\|`, splitting key4 gives style, color, mapped size and variant (normalised), and splitting key3 gives the first three. A code without a variant has an empty last field (`A\|RED\|M\|`). |
| PriceMatching.CellKeyFields | vendor_price_matcher.py:183-200 | The vendor keys split back into their normalised fields. An empty variant cell gives an empty fourth field. |
| PriceMatching.UnparseableKeys | vendor_price_matcher.py:176-180 | A code with fewer than 3 segments has keys `NONE\|NONE\|NONE\|` and `NONE\|NONE\|NONE`. |
| PriceMatching.NoneVariantKept | vendor_price_matcher.py:180 | The variant `NONE` is not blanked in price mode: `S-C-Z-NONE` and `S-C-Z` have different key4s. |
| PriceMatching.PlainItemKeys | vendor_price_matcher.py:176-213 | The keys of a plain four-field code with no size rule are its fields joined with `\|`. |
| PriceMatching.PlainItemKeysThree | vendor_price_matcher.py:176-213 | The keys of a plain three-field code are `S\|C\|Z\|` and `S\|C\|Z`. |
| PriceMatching.Key4LastField | vendor_price_matcher.py:202-207 | Key4s that differ in the variant differ. |
| PriceMatching.FallbackPattern | vendor_price_matcher.py:216-222 | With a `V` row and a variant-less row for the same style, color and size, in either order, code `...-V` gets the `V` price. Code `...-W` falls back to key3 and gets the price of whichever row comes last, even the `V` row. |
| PriceMatching.FallbackExample | vendor_price_matcher.py:216-222 | Worked instance of the fallback with codes `A-RED-M-1` and `A-RED-M-2`. |
| VendorRun.MatchedCount | vendor_price_matcher.py:259 | The count of priced rows is at most the total, and is zero exactly when no row is priced. |
| VendorRun.PricedRows | vendor_price_matcher.py:277 | The output rows: one per priced item, so exactly as many as the matched count. |
| VendorRun.UnpricedItems | vendor_price_matcher.py:267 | The removed items: exactly as many as the rows without a price. |
| VendorRun.SizeMappedCount | vendor_price_matcher.py:264 | The size-mapped count never exceeds the matched count. |
| VendorRun.Statistics | vendor_price_matcher.py:258-267 | matched + removed = total. The removed list has one entry per removed SKU, the output has one row per matched SKU, and the size-mapped count is at most the matched count. |
| VendorRun.PartitionMembers | vendor_price_matcher.py:264-277 | Every priced item is an output row with its price, every unpriced item is in the removed list, and nothing else is in either. |
| VendorRun.PricedInOrder | vendor_price_matcher.py:277 | Output rows keep input order: the rows of a concatenated table are the rows of its parts, concatenated. |
| VendorRun.UnpricedInOrder | vendor_price_matcher.py:267 | The removed list keeps input order. |
| VendorRun.ProcessVendor | vendor_price_matcher.py:244-267 | `None` exactly when `Item No.` or a required price-list column is missing, or when the internal table has no rows (the parse assignment at lines 165-167 raises on an empty column and the `except` at lines 295-297 returns `None`). Otherwise the result is the statistics of the two-tier prices. |
| VendorRun.RemovedIff | vendor_price_matcher.py:259-267 | An item with no price is in the removed list, and a priced item is an output row with that price. |
| Discontinued.VariantField | find_discontinued_items.py:62-66 | The variant field is empty exactly for a blank variant (None, NaN, all white space, or `NONE`/`NAN` in any case after stripping). Otherwise it is the normalised variant. |
| Discontinued.LookupKey | find_discontinued_items.py:54-71 | The key starts with the three normalised fields joined by `\|`. It is exactly that three-field key when the variable is blank, and otherwise that key followed by `\|` and the normalised variable. |
| Discontinued.ItemKey | find_discontinued_items.py:150-158 | An internal item is keyed by `create_lookup_key` of its parsed code. A code of fewer than four segments has no variant, so its key is the three-field key of its parsed style, color and size. |
| Discontinued.KeyFields | find_discontinued_items.py:68-71 | A key has 3 fields exactly when the variant is blank, and 4 otherwise, the fourth being the normalised variant. |
| Discontinued.LookupKeyFields | find_discontinued_items.py:54-71 | For cells without `\|`, splitting the key on `\|` gives exactly those fields. |
| Discontinued.NoFallback | find_discontinued_items.py:68-71 | There is no fallback: a row with a blank variant never has the key of a row with a variant. |
| Discontinued.VariantSeparates | find_discontinued_items.py:66-69 | Rows whose non-blank variants normalise differently have different keys. |
| Discontinued.LookupKeyIdempotent | find_discontinued_items.py:58-66 | Building a key from already-normalised fields gives the same key. |
| Discontinued.UnparseableItemKey | find_discontinued_items.py:51-60 | A code with fewer than 3 segments has key `NONE\|NONE\|NONE`. |
| Discontinued.BlankVariantCollapses | find_discontinued_items.py:62-71 | A code with a blank fourth segment (for example `-NONE` or `-nan`) has the key of the three-field code. |
| Discontinued.PlainCodeKey | find_discontinued_items.py:54-71 | A plain four-field code with a non-blank variant has key `S\|C\|Z\|V`. |
| Discontinued.PlainThreeFieldKey | find_discontinued_items.py:54-71 | A plain three-field code, and any row with those fields and a blank variant, have key `S\|C\|Z`. |
| Discontinued.PipeCollision | find_discontinued_items.py:68-71 | `\|` is not escaped: style `A\|B` with no variant has the key of style `A`, color `B` with a variant. |
| Discontinued.BlankIff | find_discontinued_items.py:63 | A string variant is blank exactly when its normalised form is empty, `NONE` or `NAN`. |
| Discontinued.BlankExamples | find_discontinued_items.py:63 | None, NaN, the empty string, white space and `none` are blank, while `NONE1` is not. |
| Discontinued.ColumnKeys | find_discontinued_items.py:77 | One search key `str(col).lower().strip()` per label. |
| Discontinued.ColMapping | find_discontinued_items.py:77 | Defines `col_mapping`: each label under its key, a later label overwriting an earlier one with the same key. `ColMappingFacts` proves what it holds. |
| Discontinued.RenameDict | find_discontinued_items.py:89-95 | Defines `rename_dict` by the loop over the search names in order: the matched label goes to its standard name unless it already is that name. `RenameDictSpec` characterises it. |
| Discontinued.NormalizedColumns | find_discontinued_items.py:74-98 | Defines the labels after `normalize_dtw_columns`: each renamed through the `rename_dict` built from its `col_mapping`. `NormalizedColumnsSpec` and `StandardPresentIff` state what that gives. |
| Discontinued.ColMappingFacts | find_discontinued_items.py:77 | Every label's key is present, each entry maps back to a label with that key, and a repeated key keeps the last label. |
| Discontinued.RenameColumns | find_discontinued_items.py:97-98 | Same length; labels not in the rename dict are untouched and the others take their new name. |
| Discontinued.BuildRenameDict | find_discontinued_items.py:90-95 | The loop over the six search names computes the rename dict. |
| Discontinued.NormalizeDtwColumns | find_discontinued_items.py:74-101 | The renaming computes the normalised label list. |
| Discontinued.RenameDictSpec | find_discontinued_items.py:90-95 | A label is renamed exactly when it is a search name's column and differs from that name's standard label, and it is renamed to that standard label. |
| Discontinued.SearchNamesDistinct | find_discontinued_items.py:80-87 | The six search names are distinct. |
| Discontinued.StandardNamesMapped | find_discontinued_items.py:80-87 | Every standard label's own key is a search name for it. |
| Discontinued.RenamingSpec | find_discontinued_items.py:77-98 | For any key function: a label whose key is no search name is untouched. The last label with a search key gets the standard name, and an earlier, differently spelled label with the same key is kept. A standard label is kept. Every label is kept or is the standard name of an entry for its key. |
| Discontinued.NormalizedColumnsSpec | find_discontinued_items.py:77-98 | The same clauses for the configured names. The column count is unchanged, other labels are untouched, and the last label with a search key is renamed to its standard. |
| Discontinued.StandardPresentIff | find_discontinued_items.py:77-98 | A standard label is present after normalisation exactly when some label has one of its search keys. |
| Discontinued.StyleNameFound | find_discontinued_items.py:85-86 | `Style Name` is present after normalisation exactly when some label reads `style name` or `stylename` once lowered and stripped. |
| Discontinued.SingleEntryFound | find_discontinued_items.py:81-84 | `Vendor Style`, `Color`, `Size` and `Variable` are each present exactly when some label has the matching key. |
| Discontinued.DuplicateLabels | find_discontinued_items.py:77-88 | Of two differently spelled labels whose key is `color` (such as `COLOR` and `color`), only the second becomes `Color`; the first keeps its spelling. |
| Discontinued.DuplicateKeys | find_discontinued_items.py:77 | `COLOR` and `color` are lowered and stripped to the same key `color`, so both compete for the one dictionary entry. |
| Discontinued.DtwRows | find_discontinued_items.py:160-162 | Without a `Variable` column every vendor variant reads as `None`. Otherwise the rows are unchanged. |
| Discontinued.IsDiscontinued | find_discontinued_items.py:177 | A row is marked when the upper-cased text of its `Style Name` contains `DISCONTINUED`. An empty (`NaN`) or `None` cell is never marked. |
| Discontinued.DtwKey | find_discontinued_items.py:164-173 | A vendor row's `Lookup_Key` is its three-field key exactly when its variable is blank. |
| Discontinued.DeactivationSheet | find_discontinued_items.py:259-260 | One `(code, Y, N)` row per flagged item, in order. |
| Discontinued.Deactivate | find_discontinued_items.py:129-296 | `None` exactly when `ItemCode`, `Style Name` or one of `Vendor Style`/`Color`/`Size` is missing, or when the internal table has no rows (the parse assignment at lines 150-152 raises on an empty column and the `except` returns `None`). Otherwise the total is the internal row count, the discontinued count is the number of vendor rows whose `Style Name` says DISCONTINUED, and the matched count is the length of the reported list. A sheet exists exactly when something matched, none are matched without discontinued rows, and the sheet rows are `(code, Y, N)` for the listed items. |
| Discontinued.FindDiscontinuedItems | find_discontinued_items.py:123-290 | Normalising the labels and then running the checks, selection and sheet loop computes `Deactivate` on the normalised labels. |
| Discontinued.DeactivateNormalized | find_discontinued_items.py:129-290 | The steps after label normalisation compute `Deactivate`. |
| Discontinued.WriteSheet | find_discontinued_items.py:259-260 | The append loop produces the sheet body. |
| Discontinued.FlaggedByTable | find_discontinued_items.py:177-194 | An item is flagged exactly when it is an internal item whose key is the key of some vendor row whose upper-cased `Style Name` contains `DISCONTINUED`. |
| Discontinued.DeactivateLists | find_discontinued_items.py:182-194 | Once the checks pass, the reported list is the flagged items. It is empty when no row is discontinued. |
| Discontinued.DeactivatedExactly | find_discontinued_items.py:160-194 | Once the checks pass, an item is reported exactly when a discontinued vendor row has its key, the row's variant read as `None` when the table has no `Variable` column. |
| Discontinued.FlaggedByRows | find_discontinued_items.py:160-194 | An item is flagged by the rows as matched exactly when it is listed and some vendor row marked DISCONTINUED has its key, the row's variable defaulted to `None` when there is no `Variable` column. |
| Discontinued.FlaggedInOrder | find_discontinued_items.py:194 | The flagged items keep the order of the internal table. |
| Discontinued.FlagsOwnCode | find_discontinued_items.py:177-194 | A discontinued row with a plain code's fields and a blank variant flags that code. |
| Discontinued.ShortNameKeepsAll | find_discontinued_items.py:177 | Style names shorter than the marker flag nothing. |
| Discontinued.ClassicTeeMarked | find_discontinued_items.py:177 | `Classic Tee - DISCONTINUED` carries the marker. |
| Discontinued.ClassicTeeFlagged | find_discontinued_items.py:177-194 | A plain code such as `B-BLUE-S` is flagged by its row named `Classic Tee - DISCONTINUED`. |
| Discontinued.ClassicTeeKept | find_discontinued_items.py:177-194 | The same row named `Classic Tee` flags nothing. |
| Tables.MissingColumns | find_discontinued_items.py:141-142 | A column is reported missing exactly when it is required and absent. |
| Tables.DictOf | vendor_price_matcher.py:216-217 | Defines `dict(zip(keys, values))` as one assignment per position, in order. `DictOfLastWins` proves its keys and its last-wins values. |
| Tables.DictOfLastWins | vendor_price_matcher.py:216-217 | Every key is present, nothing else is, and a repeated key keeps the value of its last row. |
| Tables.FilterConcat | find_discontinued_items.py:178 | A row filter keeps order: filtering a concatenation is concatenating the filtered parts. |
| Tables.KeyedInSelected | find_discontinued_items.py:193-194 | `isin` against the key set of selected rows picks exactly the items that some selected row has the key of. |
| Text.Split | vendor_price_matcher.py:61 | The pieces contain no separator and join back to the string. |
| Text.SplitJoin | vendor_price_matcher.py:82 | Splitting the join of separator-free pieces gives the pieces back. |
| Text.NormalizeIdempotent | vendor_price_matcher.py:176-186 | Upper-then-strip applied twice is applied once. |
| Text.NormalizeEmptyIff | find_discontinued_items.py:63 | The normalised text is empty exactly when the stripped text is. |
| Text.ContainsUpperAt | find_discontinued_items.py:177 | Characters that upper-case to the marker at any position make the marker test succeed: the test ignores case. |
| FilePairs.VendorCode | find_discontinued_items.py:309 | Defines `stem.split('_')[0]`. `VendorCodePrefix` proves it is the stem's prefix before the first `_`. |
| FilePairs.Matches | find_discontinued_items.py:313 | Defines the case-insensitive test that the vendor code occurs in a partner's name. |
| FilePairs.FirstMatch | find_discontinued_items.py:312-315 | The first partner whose lowered name contains the lowered vendor code, with no earlier partner matching. `\|partners\|` when none matches. |
| FilePairs.FindFilePairs | find_discontinued_items.py:299-322 | The nested loop with its `break` computes the pairs. |
| FilePairs.FindPartner | find_discontinued_items.py:311-315 | The scan with `break` stops at the first vendor file whose lower-cased name contains the lower-cased code, and at the end of the list when there is none. |
| FilePairs.Pairs | find_discontinued_items.py:306-322 | Defines the pairs: one per stem that has a partner, in stem order. `PairsSound`, `PairsComplete`, `PairsInOrder` and `PairsBound` characterise it. |
| FilePairs.VendorCodePrefix | find_discontinued_items.py:309 | The vendor code is the part of the stem before its first `_`, and contains no `_`. |
| FilePairs.PairsSound | find_discontinued_items.py:308-318 | Every pair is a listed stem with the first partner matching its vendor code. |
| FilePairs.PairsComplete | find_discontinued_items.py:317-320 | A stem for which some partner matches is paired with the first such partner. |
| FilePairs.PairsInOrder | find_discontinued_items.py:306-322 | The pairs keep the order of the internal-table files. |
| FilePairs.PairOf | find_discontinued_items.py:308-320 | Each stem gives at most one pair, and that pair holds the stem and a partner whose name contains its vendor code, ignoring case. |
| FilePairs.PairsBound | find_discontinued_items.py:317-320 | There are never more pairs than stems. |
| FilePairs.EmptyCodeTakesFirst | vendor_price_matcher.py:311-318 | A stem starting with `_` (empty vendor code) is paired with the first vendor file listed. |

## Left out

- Excel reading and writing (pandas `read_excel`, openpyxl workbooks, fonts, fills, widths, freeze panes, `wb.save`): this is I/O and presentation. The sheet is modelled as its body rows, without the two repeated header rows and without an output file name.
- Directory globbing, `Path.stem`, `mkdir` and the paths in `main`: pairing takes the stems and the partner names as lists, in the order the glob calls return them.
- Console output, the DEBUG block of `find_discontinued_items`, `traceback` and the `try/except` wrappers: failures are the `None` results of the column checks and of an internal table without rows, whose parse assignment raises. No other exception is modelled.
- `match_rate` and the percentages are float arithmetic. Prices are an opaque type parameter, copied and never computed on.
- `create_output_file`, `create_summary_report` and the timestamps in report names: presentation only.
- The vendor name field of both result dictionaries is derived from the file name and is not modelled.
- Pandas type details: every cell is a string, `None` or `NaN`. Numeric cells (a variant stored as the number `1` reading as `1.0`) are not modelled.
- VendorRun.SizeMappedCount: compares the parsed size with the mapped size as cells. pandas' `!=` on two missing values, which is true, is not modelled.
- Duplicate column labels after the rename (for example two `Style Name` columns, which pandas then reads as a frame) are not modelled: a row carries one cell per normalised name.
- Text.Upper, Text.Lower, Text.Strip: ASCII case mapping and ASCII white space only; Python's Unicode `upper`, `lower` and `strip` are not modelled.
- DataFrame columns added in place (`Style`, `Lookup_Key`, `Price`, the renamed labels) are modelled as values computed from the input rows. Aliasing of the caller's frame is not modelled.
- Discontinued.Deactivate: when nothing is discontinued or nothing matched, the source dictionary has no `items_list` entry; the model reports an empty list there.
