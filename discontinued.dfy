/** Discontinued mode: `create_lookup_key` and the matching of
    `find_discontinued_items`. An internal item is flagged for deactivation
    when its key equals the key of a vendor row whose style name says
    DISCONTINUED. Unlike price mode there is one key per row, with the
    variant only when it is not blank, and no fallback between the two
    shapes. */
module Discontinued {
  import opened Text
  import opened Tables
  import opened ItemCodes

  /** The blank test `create_lookup_key` applies to the variable: a missing
      cell, white space only, or the text `none`/`nan` in any case. */
  predicate BlankVariant(v: Cell) {
    IsNa(v) || Strip(ToStr(v)) == "" || Norm(v) in ["NONE", "NAN"]
  }

  /** `var_n`: empty exactly for a blank variable, otherwise the normalised
      variable, which is never `NONE` or `NAN`. */
  function VariantField(v: Cell): (varN: string)
    ensures varN == "" <==> BlankVariant(v)
    ensures varN != "" ==> varN == Norm(v) && varN != "NONE" && varN != "NAN"
  {
    NormalizeEmptyIff(ToStr(v));
    if BlankVariant(v) then "" else Norm(v)
  }

  /** `create_lookup_key(style, color, size, variable)`: the three-field key,
      extended by `|` and the variant exactly when the variant is not blank. */
  function LookupKey(style: Cell, color: Cell, size: Cell, variable: Cell): (key: string)
    ensures Key3(Norm(style), Norm(color), Norm(size)) <= key
    ensures key == Key3(Norm(style), Norm(color), Norm(size)) <==> BlankVariant(variable)
    ensures !BlankVariant(variable) ==> key == Key3(Norm(style), Norm(color), Norm(size)) + "|" + Norm(variable)
  {
    var varN := VariantField(variable);
    var key3 := Key3(Norm(style), Norm(color), Norm(size));
    if varN != "" then
      Key4Extends(Norm(style), Norm(color), Norm(size), varN);
      ExtendedKey(key3, varN);
      Key4(Norm(style), Norm(color), Norm(size), varN)
    else key3
  }

  /** A key extended by `|` and a field starts with the key and differs from it. */
  lemma ExtendedKey(key: string, field: string)
    ensures key <= key + "|" + field && key + "|" + field != key
  {
    assert |key + "|" + field| > |key|;
  }

  /** `create_lookup_key(*parse_item_no(code))`: the key of an internal item.
      A code of three segments (or an unparseable one) has no variant, so
      its key is the three-field key of its parsed fields. */
  function ItemKey(code: string): (key: string)
    ensures var f := ParseItemNo(code);
      |Split(code, '-')| < 4 ==> key == Key3(Norm(f.style), Norm(f.color), Norm(f.size))
  {
    var f := ParseItemNo(code);
    LookupKey(f.style, f.color, f.size, f.variable)
  }

  /** A cell without `|` normalises to a field without `|`. */
  lemma NormAvoidsPipe(c: Cell)
    requires c.Str? ==> '|' !in c.s
    ensures '|' !in Norm(c)
  {
    NormalizeKeepsAbsent(ToStr(c), '|');
  }

  /** The normalised fields a key is built from: the variable is a fourth
      field only when it is not blank. */
  function KeyFields(style: Cell, color: Cell, size: Cell, variable: Cell): (fields: seq<string>)
    ensures |fields| == 3 <==> BlankVariant(variable)
    ensures |fields| == 3 || |fields| == 4
    ensures |fields| == 4 ==> fields[3] == Norm(variable)
  {
    var varN := VariantField(variable);
    if varN != "" then [Norm(style), Norm(color), Norm(size), varN]
    else [Norm(style), Norm(color), Norm(size)]
  }

  /** For cells without `|`, splitting a key on `|` gives back the fields it
      was built from. */
  lemma {:induction false} LookupKeyFields(style: Cell, color: Cell, size: Cell, variable: Cell)
    requires style.Str? ==> '|' !in style.s
    requires color.Str? ==> '|' !in color.s
    requires size.Str? ==> '|' !in size.s
    requires variable.Str? ==> '|' !in variable.s
    ensures Split(LookupKey(style, color, size, variable), '|') == KeyFields(style, color, size, variable)
  {
    NormAvoidsPipe(style);
    NormAvoidsPipe(color);
    NormAvoidsPipe(size);
    NormAvoidsPipe(variable);
    KeyShapes(Norm(style), Norm(color), Norm(size), VariantField(variable));
  }

  /** The two shapes of a key over `|`-free fields. */
  lemma KeyShapes(style: string, color: string, size: string, varN: string)
    requires '|' !in style && '|' !in color && '|' !in size && '|' !in varN
    ensures varN == "" ==> Split(Key3(style, color, size), '|') == [style, color, size]
    ensures varN != "" ==> Split(Key4(style, color, size, varN), '|') == [style, color, size, varN]
  {
    Key3Fields(style, color, size);
    Key4Fields(style, color, size, varN);
  }

  /** There is no fallback between the shapes: over `|`-free cells a row with
      a blank variable never has the key of a row with a variable. */
  lemma NoFallback(style: Cell, color: Cell, size: Cell, blank: Cell,
                   style': Cell, color': Cell, size': Cell, variable': Cell)
    requires style.Str? ==> '|' !in style.s
    requires color.Str? ==> '|' !in color.s
    requires size.Str? ==> '|' !in size.s
    requires style'.Str? ==> '|' !in style'.s
    requires color'.Str? ==> '|' !in color'.s
    requires size'.Str? ==> '|' !in size'.s
    requires variable'.Str? ==> '|' !in variable'.s
    requires BlankVariant(blank) && !BlankVariant(variable')
    ensures LookupKey(style, color, size, blank) != LookupKey(style', color', size', variable')
  {
    NormAvoidsPipe(style);
    NormAvoidsPipe(color);
    NormAvoidsPipe(size);
    NormAvoidsPipe(style');
    NormAvoidsPipe(color');
    NormAvoidsPipe(size');
    NormAvoidsPipe(variable');
    assert VariantField(blank) == "" && VariantField(variable') != "";
    ShapesDiffer(Norm(style), Norm(color), Norm(size), Norm(style'), Norm(color'), Norm(size'), VariantField(variable'));
  }

  /** A three-field key is never a four-field key over `|`-free fields. */
  lemma ShapesDiffer(a: string, b: string, c: string, a': string, b': string, c': string, d': string)
    requires '|' !in a && '|' !in b && '|' !in c
    requires '|' !in a' && '|' !in b' && '|' !in c' && '|' !in d'
    ensures Key3(a, b, c) != Key4(a', b', c', d')
  {
    Key3Fields(a, b, c);
    Key4Fields(a', b', c', d');
  }

  /** Two keys with a variable are equal only when their fields are: the
      variant tells apart rows that share style, color and size. */
  lemma VariantSeparates(style: Cell, color: Cell, size: Cell, v1: Cell, v2: Cell)
    requires style.Str? ==> '|' !in style.s
    requires color.Str? ==> '|' !in color.s
    requires size.Str? ==> '|' !in size.s
    requires v1.Str? ==> '|' !in v1.s
    requires v2.Str? ==> '|' !in v2.s
    requires !BlankVariant(v1) && !BlankVariant(v2) && Norm(v1) != Norm(v2)
    ensures LookupKey(style, color, size, v1) != LookupKey(style, color, size, v2)
  {
    LookupKeyFields(style, color, size, v1);
    LookupKeyFields(style, color, size, v2);
  }

  /** Rebuilding the key from its own normalised fields gives the same key. */
  lemma LookupKeyIdempotent(style: Cell, color: Cell, size: Cell, variable: Cell)
    ensures LookupKey(Str(Norm(style)), Str(Norm(color)), Str(Norm(size)), Str(VariantField(variable))) ==
            LookupKey(style, color, size, variable)
  {
    NormalizeIdempotent(ToStr(style));
    NormalizeIdempotent(ToStr(color));
    NormalizeIdempotent(ToStr(size));
    VariantFieldIdempotent(variable);
  }

  /** `var_n` of a `var_n` is itself. */
  lemma VariantFieldIdempotent(v: Cell)
    ensures VariantField(Str(VariantField(v))) == VariantField(v)
  {
    var varN := VariantField(v);
    if varN == "" {
      EmptyVariantBlank();
    } else {
      PlainVariant(varN);
    }
  }

  /** An empty variant cell is blank. */
  lemma EmptyVariantBlank()
    ensures VariantField(Str("")) == ""
  {
    StripFixed("");
  }

  /** An unparseable code has the key of three `None` fields. */
  lemma UnparseableItemKey(code: string)
    requires |Split(code, '-')| < 3
    ensures ItemKey(code) == "NONE|NONE|NONE"
  {
    assert ParseItemNo(code) == Unparsed;
    NilKey();
  }

  /** Three `None` fields and a `None` variable make the key `NONE|NONE|NONE`. */
  lemma NilKey()
    ensures LookupKey(Nil, Nil, Nil, Nil) == "NONE|NONE|NONE"
  {
    NormNil();
    assert VariantField(Nil) == "";
    KeysOfNone(Norm(Nil), VariantField(Nil));
  }

  /** A code whose variant is blank is the same item as the code without
      it: `A-RED-M-NONE`, `A-RED-M-nan` and `A-RED-M-` all have the key of
      `A-RED-M`. */
  lemma BlankVariantCollapses(style: string, color: string, size: string, variable: string)
    requires '-' !in style && '-' !in color && '-' !in size && '-' !in variable
    requires BlankVariant(Str(variable))
    ensures ItemKey(Join([style, color, size, variable], '-')) == ItemKey(Join([style, color, size], '-'))
  {
    ParseJoinFour(style, color, size, variable);
    ParseJoinThree(style, color, size);
    assert VariantField(Nil) == "";
  }

  /** The key of a four-field code with plain fields and a variant: the
      fields joined with `|`. */
  lemma PlainCodeKey(style: string, color: string, size: string, variable: string)
    requires '-' !in style && '-' !in size && '-' !in variable
    requires Plain(style) && Plain(color) && Plain(size)
    requires Plain(variable) && variable != [] && variable != "NONE" && variable != "NAN"
    ensures ItemKey(Join([style, color, size, variable], '-')) == Key4(style, color, size, variable)
  {
    ParseJoinFour(style, color, size, variable);
    NormalizeFixed(style);
    NormalizeFixed(color);
    NormalizeFixed(size);
    PlainVariant(variable);
  }

  /** The key of a three-field code with plain fields: the fields joined
      with `|`, and so the key of any row with those fields and a blank
      variable. */
  lemma PlainThreeFieldKey(style: string, color: string, size: string, blank: Cell)
    requires '-' !in style && '-' !in color && '-' !in size
    requires Plain(style) && Plain(color) && Plain(size)
    requires BlankVariant(blank)
    ensures ItemKey(Join([style, color, size], '-')) == Key3(style, color, size)
    ensures LookupKey(Str(style), Str(color), Str(size), blank) == Key3(style, color, size)
  {
    ParseJoinThree(style, color, size);
    NormalizeFixed(style);
    NormalizeFixed(color);
    NormalizeFixed(size);
    assert VariantField(Nil) == "";
  }

  /** `|` inside a field is not escaped: a style `A|B` without a variant
      has the key of style `A`, color `B`, size `C` and variant `D`. */
  lemma PipeCollision(a: string, b: string, c: string, d: string)
    requires Plain(a + "|" + b) && Plain(a) && Plain(b) && Plain(c)
    requires Plain(d) && d != [] && d != "NONE" && d != "NAN"
    ensures LookupKey(Str(a + "|" + b), Str(c), Str(d), Nil) == LookupKey(Str(a), Str(b), Str(c), Str(d))
  {
    NormalizeFixed(a + "|" + b);
    NormalizeFixed(a);
    NormalizeFixed(b);
    NormalizeFixed(c);
    PlainVariant(d);
    assert VariantField(Nil) == "";
    assert Key3(a + "|" + b, c, d) == Key4(a, b, c, d);
  }

  /** On text the blank test only looks at the normalised text: case and
      surrounding white space do not matter. */
  lemma BlankIff(s: string)
    ensures BlankVariant(Str(s)) <==> Normalize(s) in ["", "NONE", "NAN"]
  {
    NormalizeEmptyIff(s);
  }

  /** Plain text other than `NONE` and `NAN` is a variant, and is its own
      normalised form. */
  lemma PlainVariant(s: string)
    requires Plain(s) && s != [] && s != "NONE" && s != "NAN"
    ensures !BlankVariant(Str(s)) && VariantField(Str(s)) == s
  {
    NormalizeFixed(s);
    StripFixed(s);
  }

  /** The blank variants: missing cells, white space only, and `none` in
      lower case; `NONE1` is a variant. */
  lemma BlankExamples()
    ensures BlankVariant(Nil) && BlankVariant(NaN) && BlankVariant(Str(""))
    ensures BlankVariant(Str("  ")) && BlankVariant(Str("none"))
    ensures !BlankVariant(Str("NONE1"))
  {
    assert BlankVariant(Str("")) by { StripFixed(""); }
    assert BlankVariant(Str("  ")) by { SpacesBlank(); }
    assert BlankVariant(Str("none")) by { LowerNone(); }
    assert !BlankVariant(Str("NONE1")) by {
      NoneOnePlain();
      PlainVariant("NONE1");
    }
  }

  lemma NoneOnePlain()
    ensures Plain("NONE1") && "NONE1" != [] && "NONE1" != "NONE" && "NONE1" != "NAN"
  {
    var s := "NONE1";
    assert |s| == 5;
    assert forall i :: 0 <= i < 5 ==> s[i] in "NOE1";
  }

  lemma SpacesBlank()
    ensures Strip("  ") == ""
  {
    assert TrimStart("  ") == "";
  }

  lemma LowerNone()
    ensures Normalize("none") == "NONE"
  {
    assert Upper("none") == "NONE";
    StripFixed("NONE");
  }

  // ---- normalize_dtw_columns ----

  /** `column_mappings`, in its insertion order: search name, standard name. */
  const ColumnMappings: seq<(string, string)> := [
    ("vendor style", "Vendor Style"),
    ("color", "Color"),
    ("size", "Size"),
    ("variable", "Variable"),
    ("style name", "Style Name"),
    ("stylename", "Style Name")
  ]

  /** `str(col).lower().strip()` */
  function ColumnKey(col: string): string {
    Strip(Lower(col))
  }

  /** The keys of a column list, position by position; the ensures give
      that reading to the lemmas about `col_mapping`. */
  function ColumnKeys(columns: seq<string>): (keys: seq<string>)
    ensures |keys| == |columns| && forall i :: 0 <= i < |columns| ==> keys[i] == ColumnKey(columns[i])
  {
    seq(|columns|, i requires 0 <= i < |columns| => ColumnKey(columns[i]))
  }

  /** `col_mapping`: each key to the last column having it. */
  function ColMapping(columns: seq<string>): map<string, string> {
    DictOf(ColumnKeys(columns), columns)
  }

  /** Every column's key is in `col_mapping`, it maps only keys of columns,
      each key goes to a column having that key, and to the last such
      column. */
  lemma ColMappingFacts(columns: seq<string>)
    ensures forall i :: 0 <= i < |columns| ==> ColumnKey(columns[i]) in ColMapping(columns)
    ensures forall k :: k in ColMapping(columns) ==> ColMapping(columns)[k] in columns && ColumnKey(ColMapping(columns)[k]) == k
    ensures forall i :: 0 <= i < |columns| && LastWith(ColumnKeys(columns), i) ==>
              ColMapping(columns)[ColumnKey(columns[i])] == columns[i]
  {
    var keys, cm := ColumnKeys(columns), ColMapping(columns);
    DictOfLastWins(keys, columns);
    forall k | k in cm
      ensures cm[k] in columns && ColumnKey(cm[k]) == k
    {
      var j :| 0 <= j < |keys| && keys[j] == k;
      var last := LastOccurrence(keys, j);
    }
  }

  /** The column `actual` is renamed for the entry `mapping`. */
  predicate Renames(mapping: (string, string), colMapping: map<string, string>, actual: string) {
    mapping.0 in colMapping && colMapping[mapping.0] == actual && actual != mapping.1
  }

  /** `rename_dict` once the loop has visited `mappings`. */
  function RenameDict(mappings: seq<(string, string)>, colMapping: map<string, string>): map<string, string>
  {
    if mappings == [] then map[]
    else
      var prev := RenameDict(mappings[..|mappings| - 1], colMapping);
      var m := mappings[|mappings| - 1];
      if m.0 in colMapping && colMapping[m.0] != m.1 then prev[colMapping[m.0] := m.1] else prev
  }

  /** Search names are distinct. */
  ghost predicate DistinctSearches(mappings: seq<(string, string)>) {
    forall j, j' :: 0 <= j < j' < |mappings| ==> mappings[j].0 != mappings[j'].0
  }

  /** With distinct search names and a `col_mapping` that maps each key to
      a column having it (for any key function `key`), `rename_dict` holds
      exactly the columns some entry renames, each with that entry's
      standard name. */
  lemma {:induction false} RenameDictSpec(mappings: seq<(string, string)>, colMapping: map<string, string>,
                                          key: string -> string)
    requires DistinctSearches(mappings)
    requires forall k :: k in colMapping ==> key(colMapping[k]) == k
    ensures forall a :: a in RenameDict(mappings, colMapping) <==>
              exists j :: 0 <= j < |mappings| && Renames(mappings[j], colMapping, a)
    ensures forall j, a :: 0 <= j < |mappings| && Renames(mappings[j], colMapping, a) ==>
              a in RenameDict(mappings, colMapping) && RenameDict(mappings, colMapping)[a] == mappings[j].1
  {
    if mappings != [] {
      var n := |mappings| - 1;
      var init := mappings[..n];
      assert DistinctSearches(init);
      RenameDictSpec(init, colMapping, key);
      var rd, prev, m := RenameDict(mappings, colMapping), RenameDict(init, colMapping), mappings[n];
      assert forall j :: 0 <= j < n ==> init[j] == mappings[j];
      forall a | a in rd
        ensures exists j :: 0 <= j < |mappings| && Renames(mappings[j], colMapping, a)
      {
        if a !in prev {
          assert Renames(mappings[n], colMapping, a);
        } else {
          var j :| 0 <= j < n && Renames(init[j], colMapping, a);
          assert Renames(mappings[j], colMapping, a);
        }
      }
      forall j, a | 0 <= j < |mappings| && Renames(mappings[j], colMapping, a)
        ensures a in rd && rd[a] == mappings[j].1
      {
        if j < n {
          assert Renames(init[j], colMapping, a);
        }
      }
    }
  }

  /** `dtw_df.columns` after the renaming with `rename_dict`; the ensures
      are the label-by-label reading the renaming lemmas use. */
  function RenameColumns(columns: seq<string>, renameDict: map<string, string>): (renamed: seq<string>)
    ensures |renamed| == |columns|
    ensures forall i :: 0 <= i < |columns| && columns[i] !in renameDict ==> renamed[i] == columns[i]
    ensures forall i :: 0 <= i < |columns| && columns[i] in renameDict ==> renamed[i] == renameDict[columns[i]]
  {
    seq(|columns|, i requires 0 <= i < |columns| =>
      if columns[i] in renameDict then renameDict[columns[i]] else columns[i])
  }

  /** The column labels `normalize_dtw_columns` leaves behind. */
  function NormalizedColumns(columns: seq<string>): seq<string> {
    RenameColumns(columns, RenameDict(ColumnMappings, ColMapping(columns)))
  }

  /** The loop of `normalize_dtw_columns` that fills `rename_dict`. */
  method BuildRenameDict(mappings: seq<(string, string)>, colMapping: map<string, string>)
    returns (renameDict: map<string, string>)
    ensures renameDict == RenameDict(mappings, colMapping)
  {
    renameDict := map[];
    for i := 0 to |mappings|
      invariant renameDict == RenameDict(mappings[..i], colMapping)
    {
      assert mappings[..i + 1][..i] == mappings[..i];
      var (searchName, standardName) := mappings[i];
      if searchName in colMapping {
        var actualCol := colMapping[searchName];
        if actualCol != standardName {
          renameDict := renameDict[actualCol := standardName];
        }
      }
    }
    assert mappings[..|mappings|] == mappings;
  }

  /** `normalize_dtw_columns` on the column labels. */
  method NormalizeDtwColumns(columns: seq<string>) returns (normalized: seq<string>)
    ensures normalized == NormalizedColumns(columns)
  {
    var colMapping := ColMapping(columns);
    var renameDict := BuildRenameDict(ColumnMappings, colMapping);
    if renameDict != map[] {
      normalized := RenameColumns(columns, renameDict);
    } else {
      normalized := columns;
    }
  }

  /** `k` is a search name of `mappings`. */
  ghost predicate IsSearchName(mappings: seq<(string, string)>, k: string) {
    exists j :: 0 <= j < |mappings| && mappings[j].0 == k
  }

  /** `s` is a standard name of `mappings`. */
  ghost predicate IsStandardName(mappings: seq<(string, string)>, s: string) {
    exists j :: 0 <= j < |mappings| && mappings[j].1 == s
  }

  /** Every standard name of `mappings` has as its `key` a search name
      mapped to that same standard name. */
  ghost predicate StandardsMapped(mappings: seq<(string, string)>, key: string -> string) {
    forall s :: IsStandardName(mappings, s) ==>
      exists j :: 0 <= j < |mappings| && mappings[j].0 == key(s) && mappings[j].1 == s
  }

  /** A label whose lower-cased form is a trimmed key has that key. */
  lemma KnownKey(col: string, k: string)
    requires |col| == |k| && forall i :: 0 <= i < |col| ==> LowerChar(col[i]) == k[i]
    requires Trimmed(k)
    ensures ColumnKey(col) == k
  {
    assert Lower(col) == k;
    StripFixed(k);
  }

  /** The search names are distinct. */
  lemma SearchNamesDistinct()
    ensures DistinctSearches(ColumnMappings)
  {
    var names := ["vendor style", "color", "size", "variable", "style name", "stylename"];
    assert forall j :: 0 <= j < |ColumnMappings| ==> ColumnMappings[j].0 == names[j];
    assert forall j, j' :: 0 <= j < j' < |names| ==> names[j] != names[j'];
  }

  /** Every standard name has as its own key a search name mapped to it:
      its own entry's, or for `stylename` the entry of `style name`. */
  lemma StandardNamesMapped()
    ensures StandardsMapped(ColumnMappings, ColumnKey)
  {
    StandardKeysAt();
    forall s | IsStandardName(ColumnMappings, s)
      ensures exists j :: 0 <= j < |ColumnMappings| && ColumnMappings[j].0 == ColumnKey(s) && ColumnMappings[j].1 == s
    {
      var k :| 0 <= k < |ColumnMappings| && ColumnMappings[k].1 == s;
      var j := if k == 5 then 4 else k;
      assert ColumnMappings[j].0 == ColumnKey(s) && ColumnMappings[j].1 == s;
    }
  }

  /** The key of each entry's standard name, entry by entry. */
  lemma StandardKeysAt()
    ensures forall j :: 0 <= j < |ColumnMappings| ==>
      var j' := if j == 5 then 4 else j;
      ColumnMappings[j'].0 == ColumnKey(ColumnMappings[j].1) && ColumnMappings[j'].1 == ColumnMappings[j].1
  {
    forall j | 0 <= j < |ColumnMappings|
      ensures var j' := if j == 5 then 4 else j;
        ColumnMappings[j'].0 == ColumnKey(ColumnMappings[j].1) && ColumnMappings[j'].1 == ColumnMappings[j].1
    {
      if j == 0 {
        KeyOfVendorStyle();
      } else if j == 1 {
        KeyOfColor();
      } else if j == 2 {
        KeyOfSize();
      } else if j == 3 {
        KeyOfVariable();
      } else {
        KeyOfStyleName();
      }
    }
  }

  /** The keys of the standard names. */
  lemma KeyOfVendorStyle()
    ensures ColumnKey("Vendor Style") == "vendor style"
  {
    KnownKey("Vendor Style", "vendor style");
  }

  lemma KeyOfColor()
    ensures ColumnKey("Color") == "color"
  {
    KnownKey("Color", "color");
  }

  lemma KeyOfSize()
    ensures ColumnKey("Size") == "size"
  {
    KnownKey("Size", "size");
  }

  lemma KeyOfVariable()
    ensures ColumnKey("Variable") == "variable"
  {
    KnownKey("Variable", "variable");
  }

  lemma KeyOfStyleName()
    ensures ColumnKey("Style Name") == "style name"
  {
    KnownKey("Style Name", "style name");
  }

  /** The renaming for any entries with distinct search names and any key
      function that maps each standard name to a search name for it:
      labels keep their positions; a label whose key is no search name is
      kept; the last label with a search name's key gets that entry's
      standard name; an earlier label with the same key but other spelling
      is kept; and a standard name is never renamed. */
  lemma RenamingSpec(mappings: seq<(string, string)>, columns: seq<string>, keys: seq<string>, key: string -> string)
    requires |keys| == |columns| && forall i :: 0 <= i < |columns| ==> keys[i] == key(columns[i])
    requires DistinctSearches(mappings) && StandardsMapped(mappings, key)
    ensures var n := RenameColumns(columns, RenameDict(mappings, DictOf(keys, columns)));
      forall i :: 0 <= i < |columns| && !IsSearchName(mappings, keys[i]) ==> n[i] == columns[i]
    ensures var n := RenameColumns(columns, RenameDict(mappings, DictOf(keys, columns)));
      forall i, j ::
        (0 <= i < |columns| && 0 <= j < |mappings| && keys[i] == mappings[j].0 && LastWith(keys, i)) ==>
        n[i] == mappings[j].1
    ensures var n := RenameColumns(columns, RenameDict(mappings, DictOf(keys, columns)));
      forall i, l ::
        (0 <= i < l < |columns| && keys[i] == keys[l] && columns[i] != columns[l] && LastWith(keys, l)) ==>
        n[i] == columns[i]
    ensures var n := RenameColumns(columns, RenameDict(mappings, DictOf(keys, columns)));
      forall i :: 0 <= i < |columns| && IsStandardName(mappings, columns[i]) ==> n[i] == columns[i]
    ensures var n := RenameColumns(columns, RenameDict(mappings, DictOf(keys, columns)));
      forall i :: 0 <= i < |columns| ==>
        n[i] == columns[i] || exists j :: 0 <= j < |mappings| && keys[i] == mappings[j].0 && n[i] == mappings[j].1
  {
    var cm := DictOf(keys, columns);
    var rd := RenameDict(mappings, cm);
    var n := RenameColumns(columns, rd);
    KeyedDictFacts(columns, keys, key);
    DictOfLastWins(keys, columns);
    RenameDictSpec(mappings, cm, key);
    forall i | 0 <= i < |columns| && columns[i] in rd
      ensures IsSearchName(mappings, keys[i])
      ensures cm[keys[i]] == columns[i]
      ensures !IsStandardName(mappings, columns[i])
    {
      var j :| 0 <= j < |mappings| && Renames(mappings[j], cm, columns[i]);
      assert keys[i] == mappings[j].0;
      RenamedNotStandard(mappings, key, columns[i], j);
    }
    forall i, j | 0 <= i < |columns| && 0 <= j < |mappings| && keys[i] == mappings[j].0 && LastWith(keys, i)
      ensures n[i] == mappings[j].1
    {
      if columns[i] != mappings[j].1 {
        assert Renames(mappings[j], cm, columns[i]);
      } else {
        assert IsStandardName(mappings, columns[i]);
      }
    }
  }

  /** A label an entry renames is no standard name. */
  lemma RenamedNotStandard(mappings: seq<(string, string)>, key: string -> string, a: string, j: nat)
    requires DistinctSearches(mappings) && StandardsMapped(mappings, key)
    requires j < |mappings| && mappings[j].0 == key(a) && a != mappings[j].1
    ensures !IsStandardName(mappings, a)
  {
  }

  /** A dictionary from each key to a column, keyed by `key`, maps each key
      to a column having it. */
  lemma KeyedDictFacts(columns: seq<string>, keys: seq<string>, key: string -> string)
    requires |keys| == |columns| && forall i :: 0 <= i < |columns| ==> keys[i] == key(columns[i])
    ensures forall k :: k in DictOf(keys, columns) ==> DictOf(keys, columns)[k] in columns && key(DictOf(keys, columns)[k]) == k
  {
    var cm := DictOf(keys, columns);
    DictOfLastWins(keys, columns);
    forall k | k in cm
      ensures cm[k] in columns && key(cm[k]) == k
    {
      var j :| 0 <= j < |keys| && keys[j] == k;
      var last := LastOccurrence(keys, j);
    }
  }

  /** `normalize_dtw_columns` on each label (see `RenamingSpec`). */
  lemma NormalizedColumnsSpec(columns: seq<string>)
    ensures |NormalizedColumns(columns)| == |columns|
    ensures forall i :: 0 <= i < |columns| && !IsSearchName(ColumnMappings, ColumnKey(columns[i])) ==>
              NormalizedColumns(columns)[i] == columns[i]
    ensures forall i, j ::
              (0 <= i < |columns| && 0 <= j < |ColumnMappings| &&
               ColumnKey(columns[i]) == ColumnMappings[j].0 && LastWith(ColumnKeys(columns), i)) ==>
              NormalizedColumns(columns)[i] == ColumnMappings[j].1
    ensures forall i, l ::
              (0 <= i < l < |columns| && ColumnKey(columns[i]) == ColumnKey(columns[l]) &&
               columns[i] != columns[l] && LastWith(ColumnKeys(columns), l)) ==>
              NormalizedColumns(columns)[i] == columns[i]
    ensures forall i :: 0 <= i < |columns| && IsStandardName(ColumnMappings, columns[i]) ==>
              NormalizedColumns(columns)[i] == columns[i]
    ensures forall i :: 0 <= i < |columns| ==>
              NormalizedColumns(columns)[i] == columns[i] ||
              exists j :: 0 <= j < |ColumnMappings| && ColumnKey(columns[i]) == ColumnMappings[j].0 &&
                          NormalizedColumns(columns)[i] == ColumnMappings[j].1
  {
    StandardNamesMapped();
    SearchNamesDistinct();
    RenamingSpec(ColumnMappings, columns, ColumnKeys(columns), ColumnKey);
  }

  /** After the renaming a standard name is present exactly when some
      label has the key of a search name for it. */
  lemma {:induction false} PresentIff(mappings: seq<(string, string)>, columns: seq<string>, keys: seq<string>,
                                      key: string -> string, s: string)
    requires |keys| == |columns| && forall i :: 0 <= i < |columns| ==> keys[i] == key(columns[i])
    requires DistinctSearches(mappings) && StandardsMapped(mappings, key)
    requires IsStandardName(mappings, s)
    ensures s in RenameColumns(columns, RenameDict(mappings, DictOf(keys, columns))) <==>
      exists i, j :: 0 <= i < |columns| && 0 <= j < |mappings| && mappings[j].1 == s && keys[i] == mappings[j].0
  {
    var n := RenameColumns(columns, RenameDict(mappings, DictOf(keys, columns)));
    RenamingSpec(mappings, columns, keys, key);
    if s in n {
      var i :| 0 <= i < |n| && n[i] == s;
      if n[i] == columns[i] {
        var j :| 0 <= j < |mappings| && mappings[j].0 == key(s) && mappings[j].1 == s;
        assert keys[i] == mappings[j].0;
      }
    }
    if exists i, j :: 0 <= i < |columns| && 0 <= j < |mappings| && mappings[j].1 == s && keys[i] == mappings[j].0 {
      var i, j :| 0 <= i < |columns| && 0 <= j < |mappings| && mappings[j].1 == s && keys[i] == mappings[j].0;
      var l := LastOccurrence(keys, i);
      assert n[l] == s;
    }
  }

  /** After `normalize_dtw_columns` a standard name is present exactly when
      some label has the key of a search name for it. */
  lemma StandardPresentIff(columns: seq<string>, s: string)
    requires IsStandardName(ColumnMappings, s)
    ensures s in NormalizedColumns(columns) <==>
      exists i, j :: 0 <= i < |columns| && 0 <= j < |ColumnMappings| &&
                     ColumnMappings[j].1 == s && ColumnKey(columns[i]) == ColumnMappings[j].0
  {
    StandardNamesMapped();
    SearchNamesDistinct();
    PresentIff(ColumnMappings, columns, ColumnKeys(columns), ColumnKey, s);
  }

  /** The `Style Name` check passes exactly when some label reads
      `style name` or `stylename` in any case with any surrounding white
      space. */
  lemma StyleNameFound(columns: seq<string>)
    ensures "Style Name" in NormalizedColumns(columns) <==>
      exists i :: 0 <= i < |columns| && ColumnKeys(columns)[i] in ["style name", "stylename"]
  {
    StandardNamesMapped();
    SearchNamesDistinct();
    StyleNameFoundWith(columns, ColumnKeys(columns), ColumnKey);
  }

  /** `StyleNameFound` for any key function. */
  lemma StyleNameFoundWith(columns: seq<string>, keys: seq<string>, key: string -> string)
    requires |keys| == |columns| && forall i :: 0 <= i < |columns| ==> keys[i] == key(columns[i])
    requires DistinctSearches(ColumnMappings) && StandardsMapped(ColumnMappings, key)
    ensures "Style Name" in RenameColumns(columns, RenameDict(ColumnMappings, DictOf(keys, columns))) <==>
      exists i :: 0 <= i < |columns| && keys[i] in ["style name", "stylename"]
  {
    StyleNameEntries();
    PresentIff(ColumnMappings, columns, keys, key, "Style Name");
    if exists i :: 0 <= i < |columns| && keys[i] in ["style name", "stylename"] {
      var i :| 0 <= i < |columns| && keys[i] in ["style name", "stylename"];
      var j := if keys[i] == "style name" then 4 else 5;
      assert ColumnMappings[j].1 == "Style Name" && keys[i] == ColumnMappings[j].0;
    }
  }

  /** The entries for `Style Name` are the last two. */
  lemma StyleNameEntries()
    ensures IsStandardName(ColumnMappings, "Style Name")
    ensures forall j :: 0 <= j < |ColumnMappings| && ColumnMappings[j].1 == "Style Name" ==>
              ColumnMappings[j].0 in ["style name", "stylename"]
  {
    assert ColumnMappings[4].1 == "Style Name";
    assert forall j :: 0 <= j < 4 ==> |ColumnMappings[j].1| != |"Style Name"|;
  }

  /** Each of `Vendor Style`, `Color`, `Size` and `Variable` has one entry:
      it is present after normalisation exactly when some label has that
      entry's search name as its key. */
  lemma SingleEntryFound(columns: seq<string>, j: nat)
    requires j < 4
    ensures ColumnMappings[j].1 in NormalizedColumns(columns) <==>
      exists i :: 0 <= i < |columns| && ColumnKeys(columns)[i] == ColumnMappings[j].0
  {
    OnlyEntry(j);
    StandardPresentIff(columns, ColumnMappings[j].1);
  }

  /** The first four entries are the only ones with their standard names. */
  lemma OnlyEntry(j: nat)
    requires j < 4
    ensures IsStandardName(ColumnMappings, ColumnMappings[j].1)
    ensures forall j' :: 0 <= j' < |ColumnMappings| && ColumnMappings[j'].1 == ColumnMappings[j].1 ==> j' == j
  {
    assert forall j' :: 0 <= j' < |ColumnMappings| && j' != j ==> |ColumnMappings[j'].1| != |ColumnMappings[j].1|;
  }

  /** Earlier labels are not renamed when a later one has the same key:
      of `COLOR` before `color` (see `DuplicateKeys`), or any two labels
      that read `color` once lowered and stripped, only the second becomes
      `Color`. */
  lemma DuplicateLabels(a: string, b: string)
    requires ColumnKey(a) == "color" && ColumnKey(b) == "color" && a != b
    ensures NormalizedColumns([a, b]) == [a, "Color"]
  {
    NormalizedTwo(a, b);
    StandardNamesMapped();
    SearchNamesDistinct();
    TwoLabelsOneKey(a, b, ColumnKey);
  }

  /** The normalisation of two labels, through their two keys. */
  lemma NormalizedTwo(a: string, b: string)
    ensures NormalizedColumns([a, b]) ==
      RenameColumns([a, b], RenameDict(ColumnMappings, DictOf([ColumnKey(a), ColumnKey(b)], [a, b])))
  {
    assert ColumnKeys([a, b]) == [ColumnKey(a), ColumnKey(b)];
  }

  /** Two differently spelled labels with the key `color`: only the second
      becomes `Color`. */
  lemma TwoLabelsOneKey(a: string, b: string, key: string -> string)
    requires key(a) == "color" && key(b) == "color" && a != b
    requires DistinctSearches(ColumnMappings) && StandardsMapped(ColumnMappings, key)
    ensures RenameColumns([a, b], RenameDict(ColumnMappings, DictOf([key(a), key(b)], [a, b]))) == [a, "Color"]
  {
    var keys := [key(a), key(b)];
    RenamingSpec(ColumnMappings, [a, b], keys, key);
    assert LastWith(keys, 1) && keys[1] == ColumnMappings[1].0;
  }

  /** `COLOR` and `color` both have the key `color`. */
  lemma DuplicateKeys()
    ensures ColumnKey("COLOR") == "color" && ColumnKey("color") == "color"
  {
    KnownKey("COLOR", "color");
    KnownKey("color", "color");
  }

  // ---- find_discontinued_items ----

  /** A vendor row of the DTW table, by the normalised column names. */
  datatype DtwRow = DtwRow(vendorStyle: Cell, color: Cell, size: Cell, variable: Cell, styleName: Cell)

  /** The row's `Style Name`, as text and upper-cased, contains
      `DISCONTINUED`; an empty cell reads `nan` (a `None` one `None`) and
      never does. */
  predicate IsDiscontinued(r: DtwRow)
    ensures IsNa(r.styleName) ==> !IsDiscontinued(r)
  {
    Contains(Upper(ToStr(r.styleName)), "DISCONTINUED")
  }

  /** The `Lookup_Key` of a DTW row: its three-field key exactly when its
      variable is blank. */
  function DtwKey(r: DtwRow): (key: string)
    ensures key == Key3(Norm(r.vendorStyle), Norm(r.color), Norm(r.size)) <==> BlankVariant(r.variable)
  {
    LookupKey(r.vendorStyle, r.color, r.size, r.variable)
  }

  /** The rows as matched: without a `Variable` column every variable is
      `None` (`dtw_df['Variable'] = None`). The ensures give the row-by-row
      reading. */
  function DtwRows(rows: seq<DtwRow>, hasVariable: bool): (r: seq<DtwRow>)
    ensures |r| == |rows|
    ensures forall i :: 0 <= i < |rows| ==> r[i] == if hasVariable then rows[i] else rows[i].(variable := Nil)
  {
    seq(|rows|, i requires 0 <= i < |rows| => if hasVariable then rows[i] else rows[i].(variable := Nil))
  }

  /** `required_cols` */
  const RequiredDtwColumns: seq<string> := ["Vendor Style", "Color", "Size"]

  /** A row of the deactivation sheet below its two header rows. */
  datatype DeactivationRow = DeactivationRow(itemCode: string, frozenFor: string, validFor: string)

  /** The summary `find_discontinued_items` returns, without the vendor name.
      `sheet` is the body of the output file, `None` when no file is
      written; `itemsList` is empty then. */
  datatype Deactivation = Deactivation(
    totalOitm: nat,
    discontinuedInDtw: nat,
    matchedToDeactivate: nat,
    sheet: Option<seq<DeactivationRow>>,
    itemsList: seq<string>)

  /** `dtw_df[discontinued_mask]` */
  function DiscontinuedRows(rows: seq<DtwRow>): seq<DtwRow> {
    Filter(IsDiscontinued, rows)
  }

  /** `set(discontinued_dtw['Lookup_Key'])` */
  function DiscontinuedKeys(discontinued: seq<DtwRow>): set<string> {
    KeySet(DtwKey, discontinued)
  }

  /** `oitm_df[oitm_df['Lookup_Key'].isin(keys)]['ItemCode']`, in order. */
  function FlaggedItems(items: seq<string>, keys: set<string>): seq<string> {
    KeyedIn(ItemKey, keys, items)
  }

  /** The sheet row that deactivates `code`: frozen `Y`, valid `N`. */
  function SheetRow(code: string): DeactivationRow {
    DeactivationRow(code, "Y", "N")
  }

  /** The body of the sheet: one row `(code, Y, N)` per flagged item, in
      order; `WriteSheet` is its loop form. */
  function DeactivationSheet(codes: seq<string>): (sheet: seq<DeactivationRow>)
    ensures |sheet| == |codes|
    ensures forall k :: 0 <= k < |codes| ==> sheet[k] == SheetRow(codes[k])
  {
    seq(|codes|, k requires 0 <= k < |codes| => SheetRow(codes[k]))
  }

  /** What `find_discontinued_items` returns for the `ItemCode` column of
      the internal table, the normalised labels of the vendor table and its
      rows: `None` when a column check fails, in the order the source
      checks, or when the internal table has no rows (the four-column
      assignment of an empty parse raises and the `except` returns `None`);
      otherwise the counts, and a sheet exactly when an item matched. */
  function Deactivate(oitmColumns: seq<string>, items: seq<string>, columns: seq<string>, rows: seq<DtwRow>)
    : (r: Option<Deactivation>)
    ensures r.None? <==>
      "ItemCode" !in oitmColumns || "Style Name" !in columns || MissingColumns(RequiredDtwColumns, columns) != [] ||
      items == []
    ensures r.Some? ==>
      r.value.totalOitm == |items| && r.value.discontinuedInDtw <= |rows| && r.value.matchedToDeactivate <= |items|
    ensures r.Some? ==> r.value.discontinuedInDtw == |DiscontinuedRows(DtwRows(rows, "Variable" in columns))|
    ensures r.Some? ==> r.value.matchedToDeactivate == |r.value.itemsList|
    ensures r.Some? ==> (r.value.sheet.Some? <==> r.value.matchedToDeactivate > 0)
    ensures r.Some? && r.value.discontinuedInDtw == 0 ==> r.value.matchedToDeactivate == 0
    ensures r.Some? && r.value.sheet.Some? ==>
      |r.value.sheet.value| == |r.value.itemsList| == r.value.matchedToDeactivate &&
      forall k :: 0 <= k < |r.value.itemsList| ==>
        r.value.sheet.value[k] == SheetRow(r.value.itemsList[k])
  {
    if "ItemCode" !in oitmColumns || "Style Name" !in columns || MissingColumns(RequiredDtwColumns, columns) != [] then
      None
    else if items == [] then
      None
    else
      var discontinued := DiscontinuedRows(DtwRows(rows, "Variable" in columns));
      if |discontinued| == 0 then Some(Deactivation(|items|, 0, 0, None, []))
      else
        var flagged := FlaggedItems(items, DiscontinuedKeys(discontinued));
        if |flagged| == 0 then Some(Deactivation(|items|, |discontinued|, 0, None, []))
        else Some(Deactivation(|items|, |discontinued|, |flagged|, Some(DeactivationSheet(flagged)), flagged))
  }

  /** `find_discontinued_items` from the column checks to the summary,
      the loop appending the sheet rows included. */
  method FindDiscontinuedItems(oitmColumns: seq<string>, items: seq<string>, dtwColumns: seq<string>, rows: seq<DtwRow>)
    returns (result: Option<Deactivation>)
    ensures result == Deactivate(oitmColumns, items, NormalizedColumns(dtwColumns), rows)
  {
    var columns := NormalizeDtwColumns(dtwColumns);
    result := DeactivateNormalized(oitmColumns, items, columns, rows);
  }

  /** The part of `find_discontinued_items` after the vendor labels are
      normalised, step by step as the source runs it: the checks as early
      returns and the sheet built by `WriteSheet`. It is the imperative
      counterpart of `Deactivate`, proved equal to it. */
  method DeactivateNormalized(oitmColumns: seq<string>, items: seq<string>, columns: seq<string>, rows: seq<DtwRow>)
    returns (result: Option<Deactivation>)
    ensures result == Deactivate(oitmColumns, items, columns, rows)
  {
    if "ItemCode" !in oitmColumns {
      return None;
    }
    if "Style Name" !in columns {
      return None;
    }
    var missing := MissingColumns(RequiredDtwColumns, columns);
    if missing != [] {
      return None;
    }
    if items == [] {
      return None;
    }
    var dtw := DtwRows(rows, "Variable" in columns);
    var discontinued := DiscontinuedRows(dtw);
    if |discontinued| == 0 {
      return Some(Deactivation(|items|, 0, 0, None, []));
    }
    var flagged := FlaggedItems(items, DiscontinuedKeys(discontinued));
    if |flagged| == 0 {
      return Some(Deactivation(|items|, |discontinued|, 0, None, []));
    }
    var sheet := WriteSheet(flagged);
    return Some(Deactivation(|items|, |discontinued|, |flagged|, Some(sheet), flagged));
  }

  /** `for item_code in items: sheet.append([item_code, 'Y', 'N'])` */
  method WriteSheet(codes: seq<string>) returns (sheet: seq<DeactivationRow>)
    ensures sheet == DeactivationSheet(codes)
  {
    sheet := [];
    for k := 0 to |codes|
      invariant |sheet| == k
      invariant forall j :: 0 <= j < k ==> sheet[j] == SheetRow(codes[j])
    {
      sheet := sheet + [SheetRow(codes[k])];
    }
  }

  /** The flagged items keep the order of the internal table. */
  lemma FlaggedInOrder(items1: seq<string>, items2: seq<string>, keys: set<string>)
    ensures FlaggedItems(items1 + items2, keys) == FlaggedItems(items1, keys) + FlaggedItems(items2, keys)
  {
    KeyedInConcat(ItemKey, keys, items1, items2);
  }

  /** The items a table of vendor rows flags: those whose key is the key
      of one of its discontinued rows. */
  function Flagged(items: seq<string>, dtw: seq<DtwRow>): seq<string> {
    FlaggedItems(items, DiscontinuedKeys(DiscontinuedRows(dtw)))
  }

  /** An item is flagged by a table exactly when some discontinued row of
      the table has its key. */
  lemma FlaggedByTable(items: seq<string>, dtw: seq<DtwRow>, code: string)
    ensures code in Flagged(items, dtw) <==>
      code in items && exists i :: 0 <= i < |dtw| && IsDiscontinued(dtw[i]) && DtwKey(dtw[i]) == ItemKey(code)
  {
    KeyedInSelected(IsDiscontinued, DtwKey, ItemKey, items, dtw, code);
  }

  /** Once the column checks pass, the reported list is the flagged items. */
  lemma DeactivateLists(oitmColumns: seq<string>, items: seq<string>, columns: seq<string>, rows: seq<DtwRow>)
    requires Deactivate(oitmColumns, items, columns, rows).Some?
    ensures Deactivate(oitmColumns, items, columns, rows).value.itemsList == Flagged(items, DtwRows(rows, "Variable" in columns))
  {
    var discontinued := DiscontinuedRows(DtwRows(rows, "Variable" in columns));
    if |discontinued| == 0 {
      assert DiscontinuedKeys(discontinued) == {};
      KeyedInNone(ItemKey, items);
    }
  }

  /** Once the column checks pass, the reported items are exactly the
      items whose key is the key of a discontinued vendor row (its variant
      read as `None` when the vendor table has no `Variable` column). */
  lemma DeactivatedExactly(oitmColumns: seq<string>, items: seq<string>, columns: seq<string>, rows: seq<DtwRow>, code: string)
    requires Deactivate(oitmColumns, items, columns, rows).Some?
    ensures code in Deactivate(oitmColumns, items, columns, rows).value.itemsList <==>
      code in items &&
      exists i :: 0 <= i < |rows| && IsDiscontinued(rows[i]) &&
        DtwKey(DtwRows(rows, "Variable" in columns)[i]) == ItemKey(code)
  {
    DeactivateLists(oitmColumns, items, columns, rows);
    FlaggedByRows(items, rows, "Variable" in columns, code);
  }

  /** `FlaggedByTable` over the rows as matched: the mark is read from the
      rows as given, since defaulting the variable leaves `Style Name` alone. */
  lemma FlaggedByRows(items: seq<string>, rows: seq<DtwRow>, hasVariable: bool, code: string)
    ensures code in Flagged(items, DtwRows(rows, hasVariable)) <==>
      code in items &&
      exists i :: 0 <= i < |rows| && IsDiscontinued(rows[i]) && DtwKey(DtwRows(rows, hasVariable)[i]) == ItemKey(code)
  {
    var dtw := DtwRows(rows, hasVariable);
    FlaggedByTable(items, dtw, code);
    assert forall i :: 0 <= i < |rows| ==> dtw[i].styleName == rows[i].styleName;
  }

  /** A row with a plain three-field code and a blank variant, marked
      discontinued, flags the item with that code. */
  lemma FlagsOwnCode(style: string, color: string, size: string, variable: Cell, styleName: Cell)
    requires '-' !in style && '-' !in color && '-' !in size
    requires Plain(style) && Plain(color) && Plain(size)
    requires BlankVariant(variable)
    requires IsDiscontinued(DtwRow(Str(style), Str(color), Str(size), variable, styleName))
    ensures var code := Join([style, color, size], '-');
      Flagged([code], [DtwRow(Str(style), Str(color), Str(size), variable, styleName)]) == [code]
  {
    var code := Join([style, color, size], '-');
    var row := DtwRow(Str(style), Str(color), Str(size), variable, styleName);
    PlainThreeFieldKey(style, color, size, variable);
    KeptSingleton(IsDiscontinued, row);
    assert DtwKey([row][0]) in DiscontinuedKeys([row]);
    KeyedInSingleton(ItemKey, DiscontinuedKeys([row]), code);
  }

  /** A style name too short to hold the marker keeps every item. */
  lemma ShortNameKeepsAll(items: seq<string>, rows: seq<DtwRow>)
    requires forall i :: 0 <= i < |rows| ==> |ToStr(rows[i].styleName)| < 12
    ensures Flagged(items, rows) == []
  {
    var f := Flagged(items, rows);
    if f != [] {
      FlaggedByTable(items, rows, f[0]);
    }
  }

  /** The worked example: a code such as `B-BLUE-S` is deactivated by a
      row with its fields, no variant and the style name `Classic Tee -
      DISCONTINUED`... */
  lemma ClassicTeeFlagged(style: string, color: string, size: string)
    requires '-' !in style && '-' !in color && '-' !in size
    requires Plain(style) && Plain(color) && Plain(size)
    ensures var code := Join([style, color, size], '-');
      Flagged([code], [DtwRow(Str(style), Str(color), Str(size), NaN, Str("Classic Tee - DISCONTINUED"))]) == [code]
  {
    var row := DtwRow(Str(style), Str(color), Str(size), NaN, Str("Classic Tee - DISCONTINUED"));
    ClassicTeeMarked(row);
    FlagsOwnCode(style, color, size, NaN, Str("Classic Tee - DISCONTINUED"));
  }

  /** `Classic Tee - DISCONTINUED` carries the marker. */
  lemma ClassicTeeMarked(r: DtwRow)
    requires r.styleName == Str("Classic Tee - DISCONTINUED")
    ensures IsDiscontinued(r)
  {
    var s := "Classic Tee - DISCONTINUED";
    assert s[14..26] == "DISCONTINUED";
    assert forall k :: 0 <= k < 12 ==> !IsLowerAscii("DISCONTINUED"[k]);
    ContainsUpperText(s, 14, "DISCONTINUED");
  }

  /** ... and kept by the same row named `Classic Tee`. */
  lemma ClassicTeeKept(style: string, color: string, size: string)
    ensures var code := Join([style, color, size], '-');
      Flagged([code], [DtwRow(Str(style), Str(color), Str(size), NaN, Str("Classic Tee"))]) == []
  {
    var row := DtwRow(Str(style), Str(color), Str(size), NaN, Str("Classic Tee"));
    ShortNameKeepsAll([Join([style, color, size], '-')], [row]);
  }
}
