/** Cell values as pandas hands them to the matching code, and the
    order-preserving filters both scripts use on rows and column lists. */
module Tables {
  import opened Text

  datatype Option<T> = None | Some(value: T)

  /** A table cell: a string, Python's `None`, or pandas' `NaN` (an empty
      spreadsheet cell). */
  datatype Cell = Str(s: string) | Nil | NaN

  /** `str(cell)` */
  function ToStr(c: Cell): string {
    match c
    case Str(s) => s
    case Nil => "None"
    case NaN => "nan"
  }

  /** `pd.isna(cell)`: true for both `None` and `NaN`. */
  predicate IsNa(c: Cell) {
    c.Nil? || c.NaN?
  }

  /** `str(cell.fillna(''))` */
  function FillNaBlank(c: Cell): string {
    if IsNa(c) then "" else c.s
  }

  /** `str(cell).upper().strip()`, or `.astype(str).str.upper().str.strip()`
      on a column: the normalisation of every key field. */
  function Norm(c: Cell): string {
    Normalize(ToStr(c))
  }

  /** A `None` field reads `NONE` in a key. */
  lemma NormNil()
    ensures Norm(Nil) == "NONE"
  {
    NormalizeNone();
  }

  /** The elements of `s` that satisfy `keep`, in their original order. */
  function Filter<T>(keep: T -> bool, s: seq<T>): (r: seq<T>)
    ensures |r| <= |s|
    ensures forall i :: 0 <= i < |r| ==> r[i] in s && keep(r[i])
    ensures forall i :: 0 <= i < |s| && keep(s[i]) ==> s[i] in r
  {
    if s == [] then []
    else (if keep(s[0]) then [s[0]] else []) + Filter(keep, s[1..])
  }

  /** Filtering commutes with concatenation: this is what "in input order"
      means for a filter. */
  lemma {:induction false} FilterConcat<T>(keep: T -> bool, a: seq<T>, b: seq<T>)
    ensures Filter(keep, a + b) == Filter(keep, a) + Filter(keep, b)
  {
    if a == [] {
      assert a + b == b;
    } else {
      assert (a + b)[1..] == a[1..] + b;
      FilterConcat(keep, a[1..], b);
    }
  }

  /** An element is kept exactly when it is an element that satisfies `keep`. */
  lemma FilterIff<T>(keep: T -> bool, s: seq<T>, x: T)
    ensures x in Filter(keep, s) <==> x in s && keep(x)
  {
    var r := Filter(keep, s);
    if x in r {
      var i :| 0 <= i < |r| && r[i] == x;
    }
    if x in s && keep(x) {
      var i :| 0 <= i < |s| && s[i] == x;
    }
  }

  /** `set(rows[key])` */
  function KeySet<R>(key: R -> string, rows: seq<R>): set<string> {
    set i | 0 <= i < |rows| :: key(rows[i])
  }

  /** `items[items[key].isin(keys)]`, in order. */
  function KeyedIn(key: string -> string, keys: set<string>, items: seq<string>): seq<string> {
    Filter((c: string) => key(c) in keys, items)
  }

  /** Selection by key keeps the order of the items. */
  lemma KeyedInConcat(key: string -> string, keys: set<string>, a: seq<string>, b: seq<string>)
    ensures KeyedIn(key, keys, a + b) == KeyedIn(key, keys, a) + KeyedIn(key, keys, b)
  {
    FilterConcat((c: string) => key(c) in keys, a, b);
  }

  /** A single element that satisfies `keep` is kept. */
  lemma KeptSingleton<T>(keep: T -> bool, x: T)
    requires keep(x)
    ensures Filter(keep, [x]) == [x]
  {
    assert [x][1..] == [];
  }

  /** A single item whose key is among the keys is selected. */
  lemma KeyedInSingleton(key: string -> string, keys: set<string>, x: string)
    requires key(x) in keys
    ensures KeyedIn(key, keys, [x]) == [x]
  {
    KeptSingleton((c: string) => key(c) in keys, x);
  }

  /** No item is selected by an empty key set. */
  lemma {:induction false} KeyedInNone(key: string -> string, items: seq<string>)
    ensures KeyedIn(key, {}, items) == []
  {
    if items != [] {
      KeyedInNone(key, items[1..]);
    }
  }

  /** Selecting the items whose key is a key of the selected rows: an item
      is selected exactly when some selected row has its key. */
  lemma KeyedInSelected<R>(keep: R -> bool, rowKey: R -> string, itemKey: string -> string,
                           items: seq<string>, rows: seq<R>, x: string)
    ensures x in KeyedIn(itemKey, KeySet(rowKey, Filter(keep, rows)), items) <==>
      x in items && exists i :: 0 <= i < |rows| && keep(rows[i]) && rowKey(rows[i]) == itemKey(x)
  {
    var selected := Filter(keep, rows);
    var keys := KeySet(rowKey, selected);
    FilterIff((c: string) => itemKey(c) in keys, items, x);
    if itemKey(x) in keys {
      var j :| 0 <= j < |selected| && rowKey(selected[j]) == itemKey(x);
      FilterIff(keep, rows, selected[j]);
      var i :| 0 <= i < |rows| && rows[i] == selected[j];
    }
    if exists i :: 0 <= i < |rows| && keep(rows[i]) && rowKey(rows[i]) == itemKey(x) {
      var i :| 0 <= i < |rows| && keep(rows[i]) && rowKey(rows[i]) == itemKey(x);
      FilterIff(keep, rows, rows[i]);
      var j :| 0 <= j < |selected| && selected[j] == rows[i];
    }
  }

  /** The lists `f` gives for the elements of `s`, concatenated in order. */
  function FlatMap<T, U>(f: T -> seq<U>, s: seq<T>): seq<U> {
    if s == [] then [] else FlatMap(f, s[..|s| - 1]) + f(s[|s| - 1])
  }

  /** `FlatMap` commutes with concatenation. */
  lemma {:induction false} FlatMapConcat<T, U>(f: T -> seq<U>, a: seq<T>, b: seq<T>)
    ensures FlatMap(f, a + b) == FlatMap(f, a) + FlatMap(f, b)
    decreases |b|
  {
    if b == [] {
      assert a + b == a;
    } else {
      var n := |b| - 1;
      var ab := a + b;
      assert ab[..|ab| - 1] == a + b[..n];
      assert ab[|ab| - 1] == b[n];
      FlatMapConcat(f, a, b[..n]);
    }
  }

  /** No later position holds the same key as position `i`. */
  ghost predicate LastWith(keys: seq<string>, i: int)
    requires 0 <= i < |keys|
  {
    forall j :: i < j < |keys| ==> keys[j] != keys[i]
  }

  /** `dict(zip(keys, values))`, one assignment per position, in order. */
  function DictOf<V>(keys: seq<string>, values: seq<V>): map<string, V>
    requires |keys| == |values|
  {
    if keys == [] then map[]
    else DictOf(keys[..|keys| - 1], values[..|keys| - 1])[keys[|keys| - 1] := values[|keys| - 1]]
  }

  /** Every key is present, nothing else is, and a repeated key keeps the
      value of its last occurrence (later rows overwrite earlier ones). */
  lemma {:induction false} DictOfLastWins<V>(keys: seq<string>, values: seq<V>)
    requires |keys| == |values|
    ensures forall i :: 0 <= i < |keys| ==> keys[i] in DictOf(keys, values)
    ensures forall k :: k in DictOf(keys, values) ==> k in keys
    ensures forall i :: 0 <= i < |keys| && LastWith(keys, i) ==> DictOf(keys, values)[keys[i]] == values[i]
  {
    if keys != [] {
      var n := |keys| - 1;
      var ks, vs := keys[..n], values[..n];
      DictOfLastWins(ks, vs);
      var d := DictOf(keys, values);
      assert d == DictOf(ks, vs)[keys[n] := values[n]];
      forall i | 0 <= i < |keys|
        ensures keys[i] in d
      {
        if i < n {
          assert ks[i] == keys[i];
        }
      }
      assert forall k :: k in ks ==> k in keys;
      forall i | 0 <= i < |keys| && LastWith(keys, i)
        ensures DictOf(keys, values)[keys[i]] == values[i]
      {
        if i < n {
          assert keys[i] != keys[n];
          assert LastWith(ks, i);
        }
      }
    }
  }

  /** Some occurrence of the key at position `j` is its last one. */
  lemma LastOccurrence(keys: seq<string>, j: nat) returns (last: nat)
    requires j < |keys|
    ensures j <= last < |keys| && keys[last] == keys[j] && LastWith(keys, last)
    decreases |keys| - j
  {
    if LastWith(keys, j) {
      last := j;
    } else {
      var j' :| j < j' < |keys| && keys[j'] == keys[j];
      last := LastOccurrence(keys, j');
    }
  }

  /** `[col for col in required if col not in columns]` */
  function MissingColumns(required: seq<string>, columns: seq<string>): (missing: seq<string>)
    ensures forall c :: c in missing <==> c in required && c !in columns
  {
    Filter(c => c !in columns, required)
  }
}
