/** String primitives shared by both pipelines: Python's `str.split` and
    `str.join` on one separator character, ASCII `upper`/`lower`, `strip`
    and the substring test `needle in haystack`. */
module Text {

  /** Python's `str.isspace` restricted to ASCII: tab, newline, vertical tab,
      form feed, carriage return, the four separators 0x1C-0x1F and space. */
  predicate IsSpace(c: char) {
    9 <= c as int <= 13 || 28 <= c as int <= 32
  }

  predicate IsLowerAscii(c: char) { 'a' <= c <= 'z' }

  predicate IsUpperAscii(c: char) { 'A' <= c <= 'Z' }

  function UpperChar(c: char): char {
    if IsLowerAscii(c) then (c as int - 32) as char else c
  }

  function LowerChar(c: char): char {
    if IsUpperAscii(c) then (c as int + 32) as char else c
  }

  /** `s.upper()` */
  function Upper(s: string): (r: string)
    ensures |r| == |s| && forall i :: 0 <= i < |s| ==> r[i] == UpperChar(s[i])
  {
    if s == [] then [] else [UpperChar(s[0])] + Upper(s[1..])
  }

  /** `s.lower()` */
  function Lower(s: string): (r: string)
    ensures |r| == |s| && forall i :: 0 <= i < |s| ==> r[i] == LowerChar(s[i])
  {
    if s == [] then [] else [LowerChar(s[0])] + Lower(s[1..])
  }

  /** `s.lstrip()`: the longest suffix of `s` that does not start with white space. */
  function TrimStart(s: string): (r: string)
    ensures |r| <= |s| && forall i :: 0 <= i < |r| ==> r[i] == s[|s| - |r| + i]
    ensures r == [] || !IsSpace(r[0])
    ensures forall i :: 0 <= i < |s| - |r| ==> IsSpace(s[i])
  {
    if s != [] && IsSpace(s[0]) then
      var r := TrimStart(s[1..]);
      assert forall i :: 0 <= i < |r| ==> r[i] == s[|s| - |r| + i] by {
        forall i | 0 <= i < |r| ensures r[i] == s[|s| - |r| + i] {
          assert r[i] == s[1..][|s| - 1 - |r| + i];
        }
      }
      r
    else s
  }

  /** `s.rstrip()`: the longest prefix of `s` that does not end with white space. */
  function TrimEnd(s: string): (r: string)
    ensures |r| <= |s| && forall i :: 0 <= i < |r| ==> r[i] == s[i]
    ensures r == [] || !IsSpace(r[|r| - 1])
    ensures forall i :: |r| <= i < |s| ==> IsSpace(s[i])
  {
    if s != [] && IsSpace(s[|s| - 1]) then TrimEnd(s[..|s| - 1]) else s
  }

  /** `s.strip()` */
  function Strip(s: string): string {
    TrimEnd(TrimStart(s))
  }

  /** The normalisation both scripts apply to every key field:
      `str(...).upper().strip()`. */
  function Normalize(s: string): (r: string)
    ensures forall i :: 0 <= i < |r| ==> !IsLowerAscii(r[i])
    ensures r == [] || (!IsSpace(r[0]) && !IsSpace(r[|r| - 1]))
    ensures |r| <= |s|
  {
    UpperStripped(s);
    Strip(Upper(s))
  }

  /** Stripping upper-cased text leaves upper-cased text. */
  lemma UpperStripped(s: string)
    ensures var r := Strip(Upper(s));
      (forall i :: 0 <= i < |r| ==> !IsLowerAscii(r[i])) &&
      (r == [] || (!IsSpace(r[0]) && !IsSpace(r[|r| - 1]))) && |r| <= |s|
  {
    UpperNoLower(s);
    StripNoLower(Upper(s));
    StripTrimmed(Upper(s));
  }

  /** Upper-cased text has no lower-case letter. */
  lemma UpperNoLower(s: string)
    ensures forall i :: 0 <= i < |Upper(s)| ==> !IsLowerAscii(Upper(s)[i])
  {
    var u := Upper(s);
    forall i | 0 <= i < |u| ensures !IsLowerAscii(u[i]) {
      var c := s[i];
      assert u[i] == UpperChar(c);
      if IsLowerAscii(c) {
        assert 'A' as int <= c as int - 32 <= 'Z' as int;
      }
    }
  }

  /** Stripping keeps text free of lower-case letters. */
  lemma StripNoLower(u: string)
    requires forall i :: 0 <= i < |u| ==> !IsLowerAscii(u[i])
    ensures forall i :: 0 <= i < |Strip(u)| ==> !IsLowerAscii(Strip(u)[i])
  {
    TrimStartNoLower(u);
    var t := TrimStart(u);
    var r := TrimEnd(t);
    forall i | 0 <= i < |r| ensures !IsLowerAscii(r[i]) {
      assert r[i] == t[i];
    }
  }

  /** `lstrip` keeps text free of lower-case letters. */
  lemma {:induction false} TrimStartNoLower(u: string)
    requires forall i :: 0 <= i < |u| ==> !IsLowerAscii(u[i])
    ensures forall i :: 0 <= i < |TrimStart(u)| ==> !IsLowerAscii(TrimStart(u)[i])
  {
    if u != [] && IsSpace(u[0]) {
      TrimStartNoLower(u[1..]);
    }
  }

  /** Stripped text has no white space at either end. */
  lemma StripTrimmed(u: string)
    ensures var r := Strip(u);
      (r == [] || (!IsSpace(r[0]) && !IsSpace(r[|r| - 1]))) && |r| <= |u|
  {
    var t := TrimStart(u);
    var r := TrimEnd(t);
    if r != [] {
      assert r[0] == t[0];
    }
  }


  /** `s` has no white space at either end. */
  predicate Trimmed(s: string) {
    s == [] || (!IsSpace(s[0]) && !IsSpace(s[|s| - 1]))
  }

  /** Already normalised text: upper case, no surrounding white space. */
  predicate Plain(s: string) {
    (forall i :: 0 <= i < |s| ==> !IsLowerAscii(s[i])) && Trimmed(s)
  }

  /** Stripping a trimmed string leaves it alone. */
  lemma StripFixed(s: string)
    requires Trimmed(s)
    ensures Strip(s) == s
  {
    assert TrimStart(s) == s;
    assert TrimEnd(s) == s;
  }

  /** Plain text is left alone by `Normalize`. */
  lemma NormalizeFixed(s: string)
    requires Plain(s)
    ensures Normalize(s) == s
  {
    assert Upper(s) == s;
    StripFixed(s);
  }

  /** Normalising twice is normalising once: a key built from normalised
      fields is the key built from the raw fields. */
  lemma NormalizeIdempotent(s: string)
    ensures Normalize(Normalize(s)) == Normalize(s)
  {
    NormalizeFixed(Normalize(s));
  }

  /** `Normalize` never introduces a character that is not a letter. */
  lemma NormalizeKeepsAbsent(s: string, c: char)
    requires c !in s && !IsLowerAscii(c) && !IsUpperAscii(c)
    ensures c !in Normalize(s)
  {
    var u := Upper(s);
    assert c !in u by {
      forall i | 0 <= i < |u| ensures u[i] != c {
        assert s[i] != c;
      }
    }
    var t := TrimStart(u);
    assert c !in t;
    var r := TrimEnd(t);
    assert c !in r;
    assert Normalize(s) == r;
  }

  /** `s.strip()` is empty exactly when every character is white space. */
  lemma StripEmptyIff(s: string)
    ensures Strip(s) == [] <==> forall i :: 0 <= i < |s| ==> IsSpace(s[i])
  {
    var t := TrimStart(s);
    if t != [] {
      assert !IsSpace(t[0]) && t[0] == s[|s| - |t|];
      assert 0 < |TrimEnd(t)|;
    }
  }

  /** Upper-casing keeps white space and adds none, so a normalised string is
      empty exactly when the stripped one is. */
  lemma NormalizeEmptyIff(s: string)
    ensures Normalize(s) == [] <==> Strip(s) == []
  {
    StripEmptyIff(s);
    StripEmptyIff(Upper(s));
    UpperKeepsSpaces(s);
  }

  /** Upper-casing turns no character into white space and none out of it. */
  lemma UpperKeepsSpaces(s: string)
    ensures forall i :: 0 <= i < |s| ==> (IsSpace(Upper(s)[i]) <==> IsSpace(s[i]))
  {
    forall i | 0 <= i < |s|
      ensures IsSpace(Upper(s)[i]) <==> IsSpace(s[i])
    {
      assert Upper(s)[i] == UpperChar(s[i]);
    }
  }

  /** `str(None).upper().strip()` is `NONE`: this is how an absent field
      appears in a key. */
  lemma NormalizeNone()
    ensures Normalize("None") == "NONE"
  {
    assert Upper("None") == "NONE";
    NormalizeFixed("NONE");
  }

  /** A character of one of the pieces is a character of their join. */
  lemma {:induction false} JoinHasPartChars(parts: seq<string>, sep: char, i: nat, c: char)
    requires i < |parts| && c in parts[i]
    ensures c in Join(parts, sep)
  {
    if |parts| > 1 && i > 0 {
      JoinHasPartChars(parts[1..], sep, i - 1, c);
    }
  }

  /** `needle` occurs in `haystack` at position `i`. */
  predicate OccursAt(haystack: string, needle: string, i: int)
    requires 0 <= i <= |haystack| - |needle|
  {
    haystack[i..i + |needle|] == needle
  }

  /** Python's `needle in haystack` on strings. */
  predicate Contains(haystack: string, needle: string) {
    exists i :: 0 <= i <= |haystack| - |needle| && OccursAt(haystack, needle, i)
  }

  /** `m in s.upper()` holds when the characters of `s` at `i` upper-case
      to `m`: the test ignores case. */
  lemma ContainsUpperAt(s: string, i: nat, m: string)
    requires i + |m| <= |s|
    requires forall k :: 0 <= k < |m| ==> UpperChar(s[i + k]) == m[k]
    ensures Contains(Upper(s), m)
  {
    var u := Upper(s);
    assert u[i..i + |m|] == m;
    assert OccursAt(u, m, i);
  }

  /** Upper-case text inside `s` is found in `s.upper()`. */
  lemma ContainsUpperText(s: string, i: nat, m: string)
    requires i + |m| <= |s| && s[i..i + |m|] == m
    requires forall k :: 0 <= k < |m| ==> !IsLowerAscii(m[k])
    ensures Contains(Upper(s), m)
  {
    forall k | 0 <= k < |m|
      ensures UpperChar(s[i + k]) == m[k]
    {
      assert s[i + k] == s[i..i + |m|][k];
    }
    ContainsUpperAt(s, i, m);
  }

  /** First index of `c` in `s`, or `|s|` when `c` does not occur. */
  function IndexOf(s: string, c: char): (k: nat)
    ensures k <= |s|
    ensures k < |s| ==> s[k] == c
    ensures forall i :: 0 <= i < k ==> s[i] != c
    ensures k == |s| <==> c !in s
  {
    if s == [] then 0
    else if s[0] == c then 0
    else 1 + IndexOf(s[1..], c)
  }

  /** `sep.join(parts)` */
  function Join(parts: seq<string>, sep: char): string
  {
    if |parts| == 0 then ""
    else if |parts| == 1 then parts[0]
    else parts[0] + [sep] + Join(parts[1..], sep)
  }

  /** `s.split(sep)`: never empty, no piece contains the separator, and
      joining the pieces with it gives `s` back. */
  function Split(s: string, sep: char): (parts: seq<string>)
    ensures |parts| >= 1
    ensures Join(parts, sep) == s
    ensures forall i :: 0 <= i < |parts| ==> sep !in parts[i]
    decreases |s|
  {
    var k := IndexOf(s, sep);
    if k == |s| then [s]
    else
      var rest := Split(s[k + 1..], sep);
      assert s == s[..k] + [sep] + s[k + 1..];
      [s[..k]] + rest
  }

  /** Joining two non-empty lists is joining their joins. */
  lemma {:induction false} JoinAppend(a: seq<string>, b: seq<string>, sep: char)
    requires |a| >= 1 && |b| >= 1
    ensures Join(a + b, sep) == Join(a, sep) + [sep] + Join(b, sep)
  {
    if |a| == 1 {
      assert (a + b)[1..] == b;
    } else {
      assert (a + b)[1..] == a[1..] + b;
      JoinAppend(a[1..], b, sep);
    }
  }

  /** The other half of the split/join round trip: splitting the join of
      separator-free pieces gives the pieces back. */
  lemma {:induction false} SplitJoin(parts: seq<string>, sep: char)
    requires |parts| >= 1
    requires forall i :: 0 <= i < |parts| ==> sep !in parts[i]
    ensures Split(Join(parts, sep), sep) == parts
  {
    var s := Join(parts, sep);
    if |parts| == 1 {
    } else {
      var p := parts[0];
      var rest := Join(parts[1..], sep);
      assert s == p + [sep] + rest;
      assert s[|p|] == sep;
      assert forall i :: 0 <= i < |p| ==> s[i] == p[i];
      assert IndexOf(s, sep) == |p|;
      assert s[..|p|] == p;
      assert s[|p| + 1..] == rest;
      SplitJoin(parts[1..], sep);
      assert Split(s, sep) == [p] + Split(rest, sep);
    }
  }

  /** The first piece of a join is its prefix, followed by the separator
      when there are more pieces. */
  lemma JoinHead(parts: seq<string>, sep: char)
    requires |parts| >= 1
    ensures var s := Join(parts, sep);
      |parts[0]| <= |s| && s[..|parts[0]|] == parts[0] &&
      (|parts| == 1 ==> s == parts[0]) &&
      (|parts| > 1 ==> |parts[0]| < |s| && s[|parts[0]|] == sep)
  {
    if |parts| > 1 {
      var s := Join(parts, sep);
      assert s == parts[0] + [sep] + Join(parts[1..], sep);
      assert s[..|parts[0]|] == parts[0];
    }
  }

  /** The four-field lookup key `STYLE|COLOR|SIZE|VARIABLE`. */
  function Key4(style: string, color: string, size: string, variable: string): string {
    style + "|" + color + "|" + size + "|" + variable
  }

  /** The three-field lookup key `STYLE|COLOR|SIZE`. */
  function Key3(style: string, color: string, size: string): string {
    style + "|" + color + "|" + size
  }

  /** The four-field key is the three-field key extended by `|` and the variant. */
  lemma Key4Extends(style: string, color: string, size: string, variable: string)
    ensures Key4(style, color, size, variable) == Key3(style, color, size) + "|" + variable
  {
  }

  /** The keys of three `NONE` fields and an empty variant. */
  lemma KeysOfNone(none: string, blank: string)
    requires none == "NONE" && blank == ""
    ensures Key4(none, none, none, blank) == "NONE|NONE|NONE|"
    ensures Key3(none, none, none) == "NONE|NONE|NONE"
  {
  }

  /** `sep.join` of four pieces written out. */
  lemma JoinFour(a: string, b: string, c: string, d: string, sep: char)
    ensures Join([a, b, c, d], sep) == a + [sep] + b + [sep] + c + [sep] + d
  {
    assert [a, b, c, d][1..] == [b, c, d];
    assert [b, c, d][1..] == [c, d];
    assert [c, d][1..] == [d];
    assert Join([c, d], sep) == c + [sep] + d;
    assert Join([b, c, d], sep) == b + [sep] + (c + [sep] + d);
  }

  /** `sep.join` of three pieces written out. */
  lemma JoinThree(a: string, b: string, c: string, sep: char)
    ensures Join([a, b, c], sep) == a + [sep] + b + [sep] + c
  {
    assert [a, b, c][1..] == [b, c];
    assert [b, c][1..] == [c];
    assert Join([b, c], sep) == b + [sep] + c;
  }

  /** Fields without `|` are recovered from a four-field key. */
  lemma Key4Fields(style: string, color: string, size: string, variable: string)
    requires '|' !in style && '|' !in color && '|' !in size && '|' !in variable
    ensures Split(Key4(style, color, size, variable), '|') == [style, color, size, variable]
  {
    JoinFour(style, color, size, variable, '|');
    SplitJoin([style, color, size, variable], '|');
  }

  /** Fields without `|` are recovered from a three-field key. */
  lemma Key3Fields(style: string, color: string, size: string)
    requires '|' !in style && '|' !in color && '|' !in size
    ensures Split(Key3(style, color, size), '|') == [style, color, size]
  {
    JoinThree(style, color, size, '|');
    SplitJoin([style, color, size], '|');
  }
}
