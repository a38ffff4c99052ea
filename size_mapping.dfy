/** `SIZE_MAPPING`, `STYLES_USING_G_SIZES` and
    `apply_conditional_size_mapping`: for the listed styles (or style and
    color pairs) an internal size code is rewritten to the vendor's "G"
    form before matching. */
module SizeMapping {
  import opened Tables

  /** `SIZE_MAPPING` */
  const SizeTable: map<string, string> := map[
    "XS" := "XSM",
    "S" := "SM",
    "M" := "MD",
    "L" := "LG",
    "XL" := "XLG",
    "2XL" := "2XLG",
    "3XL" := "3XLG",
    "4XL" := "4XLG",
    "5XL" := "5XLG"
  ]

  /** An entry of the rule list: a bare style, or a (style, color) tuple. */
  datatype SizeRule = StyleRule(style: string) | StyleColorRule(style: string, color: string)

  /** `STYLES_USING_G_SIZES` */
  const StylesUsingGSizes: seq<SizeRule> := [
    StyleRule("2278"),
    StyleRule("3483"),
    StyleColorRule("2795", "SILVER")
  ]

  /** `style == config`, or `(style, color) == config` for a tuple; the raw
      parsed fields are compared, case-sensitively. */
  predicate RuleMatches(rule: SizeRule, style: Cell, color: Cell) {
    match rule
    case StyleRule(st) => style == Str(st)
    case StyleColorRule(st, co) => style == Str(st) && color == Str(co)
  }

  /** `SIZE_MAPPING.get(size, size)` */
  function LookupSize(size: Cell): Cell {
    if size.Str? && size.s in SizeTable then Str(SizeTable[size.s]) else size
  }

  /** The size the rule list gives, decided by the first rule that matches.
      Every rule has the same action, so the result does not depend on which
      rule matches or where it stands in the list. */
  function MappedSize(style: Cell, color: Cell, size: Cell, rules: seq<SizeRule>): (r: Cell)
    ensures (exists i :: 0 <= i < |rules| && RuleMatches(rules[i], style, color)) ==> r == LookupSize(size)
    ensures (forall i :: 0 <= i < |rules| ==> !RuleMatches(rules[i], style, color)) ==> r == size
  {
    if rules == [] then size
    else if RuleMatches(rules[0], style, color) then LookupSize(size)
    else MappedSize(style, color, size, rules[1..])
  }

  /** `apply_conditional_size_mapping(row, rules)`: walks the rules in order
      and returns on the first that matches. */
  method ApplyConditionalSizeMapping(style: Cell, color: Cell, size: Cell, rules: seq<SizeRule>)
    returns (mapped: Cell)
    ensures mapped == MappedSize(style, color, size, rules)
  {
    for i := 0 to |rules|
      invariant MappedSize(style, color, size, rules) == MappedSize(style, color, size, rules[i..])
    {
      assert rules[i..][1..] == rules[i + 1..];
      if RuleMatches(rules[i], style, color) {
        return LookupSize(size);
      }
    }
    return size;
  }

  /** A mapped size is the raw size or its `SIZE_MAPPING` entry, and an
      unlisted size (lower case included) always passes through. */
  lemma MappedSizeRange(style: Cell, color: Cell, size: Cell, rules: seq<SizeRule>)
    ensures var r := MappedSize(style, color, size, rules);
      r == size || (size.Str? && size.s in SizeTable && r == Str(SizeTable[size.s]))
    ensures !(size.Str? && size.s in SizeTable) ==> MappedSize(style, color, size, rules) == size
  {
  }

  /** The tuple rule `('2795', 'SILVER')` never applies to another color of
      style 2795. */
  lemma PairRuleIsColorSpecific(color: Cell, size: Cell)
    requires color != Str("SILVER")
    ensures MappedSize(Str("2795"), color, size, StylesUsingGSizes) == size
  {
    assert !RuleMatches(StylesUsingGSizes[0], Str("2795"), color);
    assert !RuleMatches(StylesUsingGSizes[1], Str("2795"), color);
    assert !RuleMatches(StylesUsingGSizes[2], Str("2795"), color);
  }

  /** The configured rules on the sizes of the examples: 2278 and 2795/SILVER
      are mapped, 9999 and 2795/BLUE are not. */
  lemma ConfiguredExamples()
    ensures MappedSize(Str("2278"), Str("RED"), Str("L"), StylesUsingGSizes) == Str("LG")
    ensures MappedSize(Str("9999"), Str("RED"), Str("L"), StylesUsingGSizes) == Str("L")
    ensures MappedSize(Str("2795"), Str("SILVER"), Str("XL"), StylesUsingGSizes) == Str("XLG")
    ensures MappedSize(Str("2795"), Str("BLUE"), Str("XL"), StylesUsingGSizes) == Str("XL")
    ensures MappedSize(Str("3483"), Str("OLIVE"), Str("l"), StylesUsingGSizes) == Str("l")
  {
    StyleRuleMaps();
    UnlistedStyleKept();
    PairRuleMaps();
    PairRuleIsColorSpecific(Str("BLUE"), Str("XL"));
    MappedSizeRange(Str("3483"), Str("OLIVE"), Str("l"), StylesUsingGSizes);
  }

  lemma StyleRuleMaps()
    ensures MappedSize(Str("2278"), Str("RED"), Str("L"), StylesUsingGSizes) == Str("LG")
  {
    assert RuleMatches(StylesUsingGSizes[0], Str("2278"), Str("RED"));
  }

  lemma UnlistedStyleKept()
    ensures MappedSize(Str("9999"), Str("RED"), Str("L"), StylesUsingGSizes) == Str("L")
  {
    assert forall i :: 0 <= i < |StylesUsingGSizes| ==> !RuleMatches(StylesUsingGSizes[i], Str("9999"), Str("RED"));
  }

  lemma PairRuleMaps()
    ensures MappedSize(Str("2795"), Str("SILVER"), Str("XL"), StylesUsingGSizes) == Str("XLG")
  {
    assert RuleMatches(StylesUsingGSizes[2], Str("2795"), Str("SILVER"));
  }
}
