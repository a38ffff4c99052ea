/** `parse_item_no`: the decomposition of an internal item code
    `STYLE-COLOR-SIZE[-VARIABLE]` into its fields, decided by the number of
    `-`-separated segments. The two scripts carry identical copies. */
module ItemCodes {
  import opened Text
  import opened Tables

  /** The four fields; a field the code does not supply is `Nil` (Python `None`). */
  datatype ItemFields = ItemFields(style: Cell, color: Cell, size: Cell, variable: Cell)

  /** The all-`None` result of a code with fewer than three segments. */
  const Unparsed := ItemFields(Nil, Nil, Nil, Nil)

  /** `parse_item_no(item_no)`, with `item_no` already passed through `str`. */
  function ParseItemNo(itemNo: string): (f: ItemFields)
    ensures f == Unparsed <==> |Split(itemNo, '-')| < 3
    ensures f != Unparsed ==> f.style.Str? && f.color.Str? && f.size.Str?
    ensures f.variable.Str? <==> |Split(itemNo, '-')| >= 4
    ensures f.style.Str? ==> '-' !in f.style.s
    ensures f.size.Str? ==> '-' !in f.size.s
    ensures f.variable.Str? ==> '-' !in f.variable.s
  {
    var parts := Split(itemNo, '-');
    var n := |parts|;
    if n == 4 then
      ItemFields(Str(parts[0]), Str(parts[1]), Str(parts[2]), Str(parts[3]))
    else if n == 3 then
      ItemFields(Str(parts[0]), Str(parts[1]), Str(parts[2]), Nil)
    else if n > 4 then
      ItemFields(Str(parts[0]), Str(Join(parts[1..n - 2], '-')), Str(parts[n - 2]), Str(parts[n - 1]))
    else
      Unparsed
  }

  /** The fields a successful parse produced, in code order. */
  function Present(f: ItemFields): seq<string>
    requires f != Unparsed
    requires f.style.Str? && f.color.Str? && f.size.Str?
  {
    [f.style.s, f.color.s, f.size.s] + (if f.variable.Str? then [f.variable.s] else [])
  }

  /** Re-joining the parsed fields with `-` gives back the code, also when a
      hyphenated color was folded back together from its segments. */
  lemma ParseRoundTrip(itemNo: string)
    requires ParseItemNo(itemNo) != Unparsed
    ensures Join(Present(ParseItemNo(itemNo)), '-') == itemNo
  {
    var parts := Split(itemNo, '-');
    var n := |parts|;
    var f := ParseItemNo(itemNo);
    if n == 3 {
      assert Present(f) == parts;
    } else if n == 4 {
      assert Present(f) == parts;
    } else {
      var mid := parts[1..n - 2];
      var tail := [parts[n - 2], parts[n - 1]];
      assert parts == [parts[0]] + mid + tail;
      JoinAppend([parts[0]] + mid, tail, '-');
      JoinAppend([parts[0]], mid, '-');
      assert Present(f) == [parts[0], Join(mid, '-')] + tail;
      JoinAppend([parts[0], Join(mid, '-')], tail, '-');
      assert Join([parts[0], Join(mid, '-')], '-') == parts[0] + "-" + Join(mid, '-');
    }
  }

  /** The segments of a four-field code: the color contributes its own. */
  lemma SegmentsOfFour(style: string, color: string, size: string, variable: string)
    requires '-' !in style && '-' !in size && '-' !in variable
    ensures Split(Join([style, color, size, variable], '-'), '-')
         == [style] + Split(color, '-') + [size, variable]
  {
    var cs := Split(color, '-');
    var parts := [style] + cs + [size, variable];
    JoinMiddle(style, cs, [size, variable]);
    assert [style, Join(cs, '-')] + [size, variable] == [style, color, size, variable];
    forall i | 0 <= i < |parts| ensures '-' !in parts[i] {
      if 1 <= i < 1 + |cs| { assert parts[i] == cs[i - 1]; }
    }
    SplitJoin(parts, '-');
  }

  /** Joining a first part, some middle parts and a tail is joining the
      first part, the joined middle and the tail. */
  lemma JoinMiddle(first: string, middle: seq<string>, tail: seq<string>)
    requires |middle| >= 1 && |tail| >= 1
    ensures Join([first] + middle + tail, '-') == Join([first, Join(middle, '-')] + tail, '-')
  {
    var joined := [first, Join(middle, '-')];
    JoinAppend([first], middle, '-');
    assert [first] + [Join(middle, '-')] == joined;
    JoinAppend([first], [Join(middle, '-')], '-');
    JoinAppend([first] + middle, tail, '-');
    JoinAppend(joined, tail, '-');
  }

  /** The converse for four-field codes: any style, size and variant without a
      hyphen and any color (hyphenated or not) are recovered by the parser. */
  lemma ParseJoinFour(style: string, color: string, size: string, variable: string)
    requires '-' !in style && '-' !in size && '-' !in variable
    ensures ParseItemNo(Join([style, color, size, variable], '-'))
         == ItemFields(Str(style), Str(color), Str(size), Str(variable))
  {
    var cs := Split(color, '-');
    var parts := [style] + cs + [size, variable];
    SegmentsOfFour(style, color, size, variable);
    var n := |parts|;
    assert parts[0] == style && parts[n - 2] == size && parts[n - 1] == variable;
    if n == 4 {
      assert cs == [cs[0]];
      assert color == cs[0];
      assert parts[1] == color;
    } else {
      assert parts[1..n - 2] == cs;
    }
  }

  /** The converse for three-field codes, which cannot carry a hyphenated color. */
  lemma ParseJoinThree(style: string, color: string, size: string)
    requires '-' !in style && '-' !in color && '-' !in size
    ensures ParseItemNo(Join([style, color, size], '-')) == ItemFields(Str(style), Str(color), Str(size), Nil)
  {
    SplitJoin([style, color, size], '-');
  }

  /** A three-segment code whose color holds a hyphen is read as a four-field
      code: `2795-DARK-GRAY-XL` has color `DARK`, size `GRAY` and variant `XL`. */
  lemma HyphenatedColorNeedsVariant()
    ensures ParseItemNo("2795-DARK-GRAY-XL") == ItemFields(Str("2795"), Str("DARK"), Str("GRAY"), Str("XL"))
  {
    assert "2795-DARK-GRAY-XL" == Join(["2795", "DARK", "GRAY", "XL"], '-');
    ParseJoinFour("2795", "DARK", "GRAY", "XL");
  }
}
