/** `find_file_pairs`: each internal-table file is paired with the first
    vendor file whose name contains its vendor code, ignoring case. Files
    are given by their names; the directory listing is an input. */
module FilePairs {
  import opened Text
  import opened Tables

  /** `stem.split('_')[0]`: the vendor code a file name starts with. */
  function VendorCode(stem: string): string {
    Split(stem, '_')[0]
  }

  /** `vendor_code.lower() in name.lower()` */
  predicate Matches(code: string, name: string) {
    Contains(Lower(name), Lower(code))
  }

  /** The position of the first partner that matches `code`, or
      `|partners|` when none does. */
  function FirstMatch(code: string, partners: seq<string>): (k: nat)
    ensures k <= |partners|
    ensures k < |partners| ==> Matches(code, partners[k])
    ensures forall j :: 0 <= j < k ==> !Matches(code, partners[j])
  {
    if partners == [] then 0
    else if Matches(code, partners[0]) then 0
    else 1 + FirstMatch(code, partners[1..])
  }

  /** The pair for one stem: none, or the stem with its first partner.
      A stem gives at most one pair, and that pair holds the stem and a
      partner that contains its vendor code. */
  function PairOf(stem: string, partners: seq<string>): (pairs: seq<(string, string)>)
    ensures |pairs| <= 1
    ensures pairs != [] ==> pairs[0].0 == stem && Matches(VendorCode(stem), pairs[0].1)
  {
    var k := FirstMatch(VendorCode(stem), partners);
    if k < |partners| then [(stem, partners[k])] else []
  }

  /** The pairs for a list of stems, in order; a stem without a partner
      is left out. */
  function Pairs(stems: seq<string>, partners: seq<string>): seq<(string, string)> {
    FlatMap((stem: string) => PairOf(stem, partners), stems)
  }

  /** `find_file_pairs` over the stems of the internal-table files and the
      names of the vendor files, in listing order. */
  method FindFilePairs(stems: seq<string>, partners: seq<string>) returns (pairs: seq<(string, string)>)
    ensures pairs == Pairs(stems, partners)
  {
    pairs := [];
    for i := 0 to |stems|
      invariant pairs == Pairs(stems[..i], partners)
    {
      var j := FindPartner(VendorCode(stems[i]), partners);
      PairsStep(stems, i, partners);
      if j < |partners| {
        pairs := pairs + [(stems[i], partners[j])];
      }
    }
    assert stems[..|stems|] == stems;
  }

  /** The inner loop of `find_file_pairs`: the first vendor file whose name
      contains the code, found by scanning with `break`; `|partners|` when
      there is none. */
  method FindPartner(code: string, partners: seq<string>) returns (j: nat)
    ensures j == FirstMatch(code, partners)
  {
    j := 0;
    while j < |partners|
      invariant 0 <= j <= |partners|
      invariant forall j' :: 0 <= j' < j ==> !Matches(code, partners[j'])
    {
      if Matches(code, partners[j]) {
        break;
      }
      j := j + 1;
    }
    var k := FirstMatch(code, partners);
    assert k == j;
  }

  /** One more stem adds its own pair, if any. */
  lemma PairsStep(stems: seq<string>, i: nat, partners: seq<string>)
    requires i < |stems|
    ensures Pairs(stems[..i + 1], partners) == Pairs(stems[..i], partners) + PairOf(stems[i], partners)
  {
    assert stems[..i + 1][..i] == stems[..i];
  }

  /** The vendor code is the part of the stem before its first `_`. */
  lemma VendorCodePrefix(stem: string)
    ensures var code := VendorCode(stem);
      '_' !in code && |code| <= |stem| && stem[..|code|] == code &&
      (|code| == |stem| || stem[|code|] == '_')
  {
    JoinHead(Split(stem, '_'), '_');
  }

  /** Every pair is a stem of the list with the first partner matching its
      vendor code. */
  lemma {:induction false} PairsSound(stems: seq<string>, partners: seq<string>, p: (string, string))
    requires p in Pairs(stems, partners)
    ensures p.0 in stems
    ensures var k := FirstMatch(VendorCode(p.0), partners); k < |partners| && p.1 == partners[k]
  {
    var n := |stems| - 1;
    PairsStep(stems, n, partners);
    assert stems[..n + 1] == stems;
    if p in PairOf(stems[n], partners) {
    } else {
      assert p in Pairs(stems[..n], partners);
      PairsSound(stems[..n], partners, p);
    }
  }

  /** A stem whose vendor code some partner matches is paired, and so a
      stem is left out exactly when no partner name contains its code. */
  lemma {:induction false} PairsComplete(stems: seq<string>, partners: seq<string>, i: nat)
    requires i < |stems|
    ensures (exists j :: 0 <= j < |partners| && Matches(VendorCode(stems[i]), partners[j])) ==>
      (stems[i], partners[FirstMatch(VendorCode(stems[i]), partners)]) in Pairs(stems, partners)
  {
    var code := VendorCode(stems[i]);
    var k := FirstMatch(code, partners);
    if k < |partners| {
      var n := |stems| - 1;
      PairsStep(stems, n, partners);
      assert stems[..n + 1] == stems;
      if i < n {
        assert stems[..n][i] == stems[i];
        PairsComplete(stems[..n], partners, i);
        assert (stems[i], partners[k]) in Pairs(stems[..n], partners);
      } else {
        assert PairOf(stems[n], partners) == [(stems[i], partners[k])];
      }
    }
  }

  /** The pairs keep the order of the stems. */
  lemma PairsInOrder(a: seq<string>, b: seq<string>, partners: seq<string>)
    ensures Pairs(a + b, partners) == Pairs(a, partners) + Pairs(b, partners)
  {
    FlatMapConcat((stem: string) => PairOf(stem, partners), a, b);
  }

  /** One pair at most per stem, so no more pairs than stems. */
  lemma {:induction false} PairsBound(stems: seq<string>, partners: seq<string>)
    ensures |Pairs(stems, partners)| <= |stems|
  {
    if stems != [] {
      PairsBound(stems[..|stems| - 1], partners);
    }
  }

  /** Every name contains the empty code: a stem starting with `_` is
      paired with the first vendor file, whatever it is. */
  lemma EmptyCodeTakesFirst(stem: string, partners: seq<string>)
    requires stem == [] || stem[0] == '_'
    requires partners != []
    ensures FirstMatch(VendorCode(stem), partners) == 0
  {
    VendorCodePrefix(stem);
    assert OccursAt(Lower(partners[0]), Lower(VendorCode(stem)), 0);
  }
}
