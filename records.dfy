/** The flat record the scraper builds (`main_fields`) and the one-row table
    written out. A Python dict keeps its keys in insertion order and pandas
    turns them into the columns in that order, so a record is modelled as its
    keys in order together with the value of each key. */
module Records {

  /** A scalar as the evaluator hands it over: a JavaScript string, number or
      boolean; `Null` is Python's None (JavaScript null or undefined). */
  datatype Value = Str(text: string) | Num(number: real) | Bool(flag: bool) | Null

  /** A record: its keys in insertion order, and each key's value. */
  datatype Row<K(==)> = Row(columns: seq<K>, cells: map<K, Value>)

  predicate Distinct<K(==)>(xs: seq<K>) {
    forall i, j :: 0 <= i < j < |xs| ==> xs[i] != xs[j]
  }

  /** Appending a nonempty sequence is appending its head, then its tail. */
  lemma AppendHeadTail<K>(xs: seq<K>, ys: seq<K>)
    requires ys != []
    ensures xs + ys == (xs + [ys[0]]) + ys[1..]
  {
    assert ys == [ys[0]] + ys[1..];
  }

  /** Every key appears exactly once in the order and has a value. */
  ghost predicate WellFormed<K(!new)>(r: Row<K>) {
    Distinct(r.columns) && forall k :: k in r.cells <==> k in r.columns
  }

  /** `d[key] = v` on a dict: a new key goes to the end of the order, an
      existing key keeps its place and takes the new value. */
  function Put<K(!new)>(r: Row<K>, key: K, v: Value): (r': Row<K>)
    requires WellFormed(r)
    ensures WellFormed(r')
    ensures key in r'.cells && r'.cells[key] == v
    ensures forall k :: k != key ==> (k in r'.cells <==> k in r.cells)
    ensures forall k :: k != key && k in r.cells ==> r'.cells[k] == r.cells[k]
    ensures key in r.cells ==> r'.columns == r.columns
    ensures key !in r.cells ==> r'.columns == r.columns + [key]
  {
    if key in r.cells then Row(r.columns, r.cells[key := v])
    else Row(r.columns + [key], r.cells[key := v])
  }

  /** Setting a key that is not there appends it and maps it. */
  lemma PutFresh<K(!new)>(r: Row<K>, key: K, v: Value)
    requires WellFormed(r)
    requires key !in r.cells
    ensures Put(r, key, v) == Row(r.columns + [key], r.cells[key := v])
  {
  }

  /** The keys of cols that are not in drop, in their order. */
  function Without<K(==,!new)>(cols: seq<K>, drop: set<K>): (r: seq<K>)
    ensures forall k :: k in r <==> k in cols && k !in drop
    ensures |r| <= |cols|
  {
    if cols == [] then []
    else (if cols[0] in drop then [] else [cols[0]]) + Without(cols[1..], drop)
  }

  /** Filtering distributes over concatenation, so it keeps the relative
      order of the keys it keeps. */
  lemma {:induction false} WithoutAppend<K(!new)>(a: seq<K>, b: seq<K>, drop: set<K>)
    ensures Without(a + b, drop) == Without(a, drop) + Without(b, drop)
  {
    if a == [] {
      assert a + b == b;
    } else {
      assert (a + b)[0] == a[0] && (a + b)[1..] == a[1..] + b;
      WithoutAppend(a[1..], b, drop);
    }
  }

  lemma {:induction false} WithoutKeepsDistinct<K(!new)>(cols: seq<K>, drop: set<K>)
    requires Distinct(cols)
    ensures Distinct(Without(cols, drop))
  {
    if cols != [] {
      WithoutKeepsDistinct(cols[1..], drop);
    }
  }

  /** Filtering out keys none of which is present changes nothing. */
  lemma {:induction false} WithoutAbsent<K(!new)>(cols: seq<K>, drop: set<K>)
    requires forall k :: k in cols ==> k !in drop
    ensures Without(cols, drop) == cols
  {
    if cols != [] {
      WithoutAbsent(cols[1..], drop);
    }
  }

  /** Filtering out every key leaves nothing. */
  lemma {:induction false} WithoutAll<K(!new)>(cols: seq<K>, drop: set<K>)
    requires forall k :: k in cols ==> k in drop
    ensures Without(cols, drop) == []
  {
    if cols != [] {
      WithoutAll(cols[1..], drop);
    }
  }

  /** Only the keys present matter to the filter. */
  lemma {:induction false} WithoutOnlyPresent<K(!new)>(cols: seq<K>, drop: set<K>)
    ensures Without(cols, drop) == Without(cols, drop * (set k | k in cols))
  {
    if cols != [] {
      WithoutOnlyPresent(cols[1..], drop);
      WithoutOnlyPresent(cols[1..], drop * (set k | k in cols));
      assert drop * (set k | k in cols) * (set k | k in cols[1..])
          == drop * (set k | k in cols[1..]);
    }
  }

  /** `DataFrame.drop(columns=drop, errors='ignore')` on a one-row frame. */
  function Drop<K(!new)>(r: Row<K>, drop: set<K>): (r': Row<K>)
    requires WellFormed(r)
    ensures WellFormed(r')
    ensures r'.columns == Without(r.columns, drop)
    ensures forall k :: k in r'.cells <==> k in r.cells && k !in drop
    ensures forall k :: k in r'.cells ==> r'.cells[k] == r.cells[k]
  {
    WithoutKeepsDistinct(r.columns, drop);
    Row(Without(r.columns, drop), map k | k in r.cells && k !in drop :: r.cells[k])
  }

  /** Naming keys that are not there raises nothing and drops nothing more. */
  lemma DropIgnoresAbsentKeys<K(!new)>(r: Row<K>, drop: set<K>)
    requires WellFormed(r)
    ensures Drop(r, drop) == Drop(r, drop * r.cells.Keys)
  {
    assert r.cells.Keys == set k | k in r.columns;
    WithoutOnlyPresent(r.columns, drop);
  }

  lemma DropIsIdempotent<K(!new)>(r: Row<K>, drop: set<K>)
    requires WellFormed(r)
    ensures Drop(Drop(r, drop), drop) == Drop(r, drop)
  {
    WithoutAbsent(Without(r.columns, drop), drop);
  }
}
