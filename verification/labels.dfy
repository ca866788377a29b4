/**
 * Label encoding (preprocessing/labels.py): `reverse_dict` swaps the keys
 * and values of a dictionary, and `encode_label` replaces every label of a
 * dataframe column by its code, from a supplied dictionary or from one
 * numbering the distinct labels in order of first appearance, and returns
 * the reversed dictionary for decoding.
 *
 * A Python dict is its keys in insertion order together with the mapping;
 * a dict comprehension inserts its pairs one after the other, a repeated
 * key keeping its first position and taking the last value. A dataframe is
 * its columns by name; only the encoded column of the copy is modelled.
 */
module Labels {
  import opened Common

  type Label = string

  predicate Distinct<T(==)>(s: seq<T>)
  {
    forall i, j :: 0 <= i < j < |s| ==> s[i] != s[j]
  }

  /** A dict: the keys in insertion order and the mapping. */
  datatype PyDict<K, V> = PyDict(keys: seq<K>, vals: map<K, V>)

  /** Every key appears once in the order, and the order lists exactly the mapped keys. */
  predicate Valid<K(==,!new), V(==,!new)>(d: PyDict<K, V>)
  {
    && Distinct(d.keys)
    && (forall k :: k in d.vals ==> k in d.keys)
    && (forall i :: 0 <= i < |d.keys| ==> d.keys[i] in d.vals)
  }

  /** `d[k] = v`: a new key goes to the end, an existing one keeps its place. */
  function Insert<K(==,!new), V(==,!new)>(d: PyDict<K, V>, k: K, v: V): PyDict<K, V>
  {
    if k in d.vals then PyDict(d.keys, d.vals[k := v]) else PyDict(d.keys + [k], d.vals[k := v])
  }

  function Firsts<K(==,!new), V(==,!new)>(ps: seq<(K, V)>): (r: seq<K>)
    ensures |r| == |ps| && forall i :: 0 <= i < |ps| ==> r[i] == ps[i].0
  {
    seq(|ps|, i requires 0 <= i < |ps| => ps[i].0)
  }

  /** The dict comprehension `{k: v for k, v in ps}`. */
  function FromPairs<K(==,!new), V(==,!new)>(ps: seq<(K, V)>): (d: PyDict<K, V>)
    ensures Valid(d)
    ensures forall k :: k in d.vals <==> k in Firsts(ps)
  {
    if ps == [] then PyDict([], map[])
    else
      var init := ps[..|ps| - 1];
      var d0 := FromPairs(init);
      assert Firsts(ps) == Firsts(init) + [ps[|ps| - 1].0];
      Insert(d0, ps[|ps| - 1].0, ps[|ps| - 1].1)
  }

  /** In a comprehension, a key takes the value of its last pair. */
  lemma {:induction false} FromPairsLast<K(!new), V(!new)>(ps: seq<(K, V)>, j: nat)
    requires j < |ps|
    requires forall l :: j < l < |ps| ==> ps[l].0 != ps[j].0
    ensures ps[j].0 in FromPairs(ps).vals && FromPairs(ps).vals[ps[j].0] == ps[j].1
  {
    if j < |ps| - 1 {
      FromPairsLast(ps[..|ps| - 1], j);
    }
  }

  /** Pairs with distinct keys keep their order as the dict's keys. */
  lemma {:induction false} FromPairsDistinct<K(!new), V(!new)>(ps: seq<(K, V)>)
    requires Distinct(Firsts(ps))
    ensures FromPairs(ps).keys == Firsts(ps)
  {
    if ps != [] {
      var init := ps[..|ps| - 1];
      assert Firsts(init) == Firsts(ps)[..|ps| - 1];
      FromPairsDistinct(init);
      assert ps[|ps| - 1].0 !in Firsts(init);
    }
  }

  /** `d.items()`. */
  function Items<K(==,!new), V(==,!new)>(d: PyDict<K, V>): (r: seq<(K, V)>)
    requires Valid(d)
    ensures |r| == |d.keys|
    ensures forall i :: 0 <= i < |r| ==> r[i] == (d.keys[i], d.vals[d.keys[i]])
  {
    seq(|d.keys|, i requires 0 <= i < |d.keys| => (d.keys[i], d.vals[d.keys[i]]))
  }

  /** `reverse_dict(d)`: `{i: value for value, i in d.items()}`. */
  function ReverseDict<K(==,!new), V(==,!new)>(d: PyDict<K, V>): (r: PyDict<V, K>)
    requires Valid(d)
    ensures Valid(r)
    ensures forall v :: v in r.vals <==> exists k :: k in d.vals && d.vals[k] == v
  {
    var items := Items(d);
    var ps := seq(|items|, i requires 0 <= i < |items| => (items[i].1, items[i].0));
    var r := FromPairs(ps);
    assert forall v :: v in Firsts(ps) <==> exists k :: k in d.vals && d.vals[k] == v by {
      forall v | v in Firsts(ps) ensures exists k :: k in d.vals && d.vals[k] == v {
        var i :| 0 <= i < |ps| && Firsts(ps)[i] == v;
        assert d.keys[i] in d.vals;
      }
      forall v | exists k :: k in d.vals && d.vals[k] == v ensures v in Firsts(ps) {
        var k :| k in d.vals && d.vals[k] == v;
        var i :| 0 <= i < |d.keys| && d.keys[i] == k;
        assert Firsts(ps)[i] == v;
      }
    }
    r
  }

  /** Each key of the reversed dict maps back to a key that has it as value. */
  lemma ReverseDictSound<K(!new), V(!new)>(d: PyDict<K, V>, v: V)
    requires Valid(d) && v in ReverseDict(d).vals
    ensures ReverseDict(d).vals[v] in d.vals && d.vals[ReverseDict(d).vals[v]] == v
  {
    var items := Items(d);
    var ps := seq(|items|, i requires 0 <= i < |items| => (items[i].1, items[i].0));
    var j := LastIndexOf(Firsts(ps), v);
    FromPairsLast(ps, j);
  }

  /** The last index holding `x`. */
  function LastIndexOf<T(==)>(s: seq<T>, x: T): (j: nat)
    requires x in s
    ensures j < |s| && s[j] == x && forall l :: j < l < |s| ==> s[l] != x
  {
    if s[|s| - 1] == x then |s| - 1 else LastIndexOf(s[..|s| - 1], x)
  }

  /** A value shared by several keys is mapped to the key inserted last. */
  lemma ReverseDictLastKeyWins<K(!new), V(!new)>(d: PyDict<K, V>, i: nat)
    requires Valid(d) && i < |d.keys|
    requires forall l :: i < l < |d.keys| ==> d.vals[d.keys[l]] != d.vals[d.keys[i]]
    ensures ReverseDict(d).vals[d.vals[d.keys[i]]] == d.keys[i]
  {
    var items := Items(d);
    var ps := seq(|items|, j requires 0 <= j < |items| => (items[j].1, items[j].0));
    FromPairsLast(ps, i);
  }

  /** No two keys share a value. */
  predicate Injective<K(==,!new), V(==,!new)>(d: PyDict<K, V>)
    requires Valid(d)
  {
    forall i, j :: 0 <= i < j < |d.keys| ==> d.vals[d.keys[i]] != d.vals[d.keys[j]]
  }

  /** For an injective dict the reversal keeps the order: its keys are the values in order, each mapped to its key. */
  lemma ReverseInjective<K(!new), V(!new)>(d: PyDict<K, V>)
    requires Valid(d) && Injective(d)
    ensures |ReverseDict(d).keys| == |d.keys|
    ensures forall i :: 0 <= i < |d.keys| ==>
      ReverseDict(d).keys[i] == d.vals[d.keys[i]] && ReverseDict(d).vals[d.vals[d.keys[i]]] == d.keys[i]
    ensures Injective(ReverseDict(d))
  {
    var items := Items(d);
    var ps := seq(|items|, i requires 0 <= i < |items| => (items[i].1, items[i].0));
    FromPairsDistinct(ps);
    forall i | 0 <= i < |d.keys|
      ensures ReverseDict(d).vals[d.vals[d.keys[i]]] == d.keys[i]
    {
      FromPairsLast(ps, i);
    }
  }

  /** Reversing an injective dict twice gives the dict back, order included. */
  lemma ReverseTwice<K(!new), V(!new)>(d: PyDict<K, V>)
    requires Valid(d) && Injective(d)
    ensures ReverseDict(ReverseDict(d)) == d
  {
    var r := ReverseDict(d);
    ReverseInjective(d);
    ReverseInjective(r);
    var rr := ReverseDict(r);
    forall i | 0 <= i < |d.keys|
      ensures rr.keys[i] == d.keys[i] && rr.vals[rr.keys[i]] == d.vals[d.keys[i]]
    {
      assert r.keys[i] == d.vals[d.keys[i]] && r.vals[r.keys[i]] == d.keys[i];
      assert rr.keys[i] == r.vals[r.keys[i]] && rr.vals[r.vals[r.keys[i]]] == r.keys[i];
    }
    SameItemsSameDict(rr, d);
  }

  /** Two dicts with the same items in the same order are equal. */
  lemma SameItemsSameDict<K(!new), V(!new)>(a: PyDict<K, V>, b: PyDict<K, V>)
    requires Valid(a) && Valid(b) && |a.keys| == |b.keys|
    requires forall i :: 0 <= i < |a.keys| ==> a.keys[i] == b.keys[i] && a.vals[a.keys[i]] == b.vals[b.keys[i]]
    ensures a == b
  {
    assert a.keys == b.keys;
    forall k | k in a.vals
      ensures k in b.vals && a.vals[k] == b.vals[k]
    {
      var i :| 0 <= i < |a.keys| && a.keys[i] == k;
    }
    assert a.vals == b.vals;
  }

  // ---------------------------------------------------------------------------
  // encode_label
  // ---------------------------------------------------------------------------

  /** `column.unique()`: the distinct labels in order of first appearance. */
  function Unique(s: seq<Label>): (u: seq<Label>)
    ensures Distinct(u)
    ensures forall x :: x in u <==> x in s
  {
    if s == [] then []
    else
      var u0 := Unique(s[..|s| - 1]);
      assert forall x :: x in s <==> x in s[..|s| - 1] || x == s[|s| - 1];
      if s[|s| - 1] in u0 then u0 else u0 + [s[|s| - 1]]
  }

  /** The first index holding `x`. */
  function IndexOf<T(==)>(s: seq<T>, x: T): (j: nat)
    requires x in s
    ensures j < |s| && s[j] == x && forall l :: 0 <= l < j ==> s[l] != x
  {
    if s[0] == x then 0 else 1 + IndexOf(s[1..], x)
  }

  /** Distinct labels come in the order of their first appearance in the column. */
  lemma {:induction false} UniqueFirstAppearanceOrder(s: seq<Label>, i: nat, j: nat)
    requires i < j < |Unique(s)|
    ensures IndexOf(s, Unique(s)[i]) < IndexOf(s, Unique(s)[j])
  {
    assert s != [];
    var init := s[..|s| - 1];
    var last := s[|s| - 1];
    var u0 := Unique(init);
    assert s == init + [last];
    assert Unique(s) == if last in u0 then u0 else u0 + [last];
    var x := Unique(s)[i];
    var y := Unique(s)[j];
    assert x == u0[i];
    IndexOfPrefix(init, last, x);
    if j < |u0| {
      assert y == u0[j];
      IndexOfPrefix(init, last, y);
      UniqueFirstAppearanceOrder(init, i, j);
    } else {
      assert y == last && last !in init;
      IndexOfAbsent(init, last);
    }
  }

  lemma {:induction false} IndexOfPrefix(init: seq<Label>, last: Label, x: Label)
    requires x in init
    ensures IndexOf(init + [last], x) == IndexOf(init, x)
  {
    if init[0] != x {
      assert (init + [last])[1..] == init[1..] + [last];
      IndexOfPrefix(init[1..], last, x);
    }
  }

  lemma {:induction false} IndexOfAbsent(init: seq<Label>, last: Label)
    requires last !in init
    ensures IndexOf(init + [last], last) == |init|
  {
    if init != [] {
      assert (init + [last])[1..] == init[1..] + [last];
      IndexOfAbsent(init[1..], last);
    }
  }

  /** The dictionary built when none is supplied: `{value: i for i, value in enumerate(column.unique())}`. */
  function AutoDictionary(col: seq<Label>): PyDict<Label, int>
  {
    var u := Unique(col);
    FromPairs(seq(|u|, i requires 0 <= i < |u| => (u[i], i)))
  }

  /** The automatic dictionary numbers the distinct labels 0, 1, ... in order of first appearance, and is injective. */
  lemma AutoDictionaryCodes(col: seq<Label>)
    ensures AutoDictionary(col).keys == Unique(col)
    ensures forall i :: 0 <= i < |Unique(col)| ==> AutoDictionary(col).vals[Unique(col)[i]] == i
    ensures Injective(AutoDictionary(col))
  {
    var u := Unique(col);
    var ps := seq(|u|, i requires 0 <= i < |u| => (u[i], i));
    assert Firsts(ps) == u;
    FromPairsDistinct(ps);
    forall i | 0 <= i < |u|
      ensures AutoDictionary(col).vals[u[i]] == i
    {
      FromPairsLast(ps, i);
    }
  }

  /** A dataframe column by column. */
  datatype DataFrame = DataFrame(columns: map<string, seq<Label>>)

  /** The encoded column and the reversed dictionary `encode_label` returns. */
  datatype Encoded = Encoded(codes: seq<int>, reversed: PyDict<int, Label>)

  function ValueSet(col: seq<Label>): set<Label>
  {
    set x | x in col
  }

  /** `if encoding_dictionary:`: neither None nor empty. */
  predicate Truthy(dict: Option<PyDict<Label, int>>)
  {
    dict.Some? && |dict.value.keys| > 0
  }

  /** The dictionary the column is encoded with: the supplied one when truthy, otherwise the automatic one. */
  function EncodingDictionary(col: seq<Label>, dict: Option<PyDict<Label, int>>): PyDict<Label, int>
  {
    if Truthy(dict) then dict.value else AutoDictionary(col)
  }

  /**
   * `encode_label(dataframe, column, column_encoded, encoding_dictionary)`.
   * A missing column raises ValueError. A truthy dictionary whose keys are a
   * strict subset of the column's labels raises ValueError; any other label
   * the dictionary lacks raises KeyError when the column is mapped. Each
   * label is replaced by its code, and the reversed dictionary is returned.
   */
  function EncodeLabel(df: DataFrame, column: string, dict: Option<PyDict<Label, int>>): (r: Result<Encoded>)
    requires dict.Some? ==> Valid(dict.value)
    ensures r.Failure? ==> r.error == ValueError || r.error == KeyError
    ensures r.Failure? && r.error == ValueError <==>
      column !in df.columns || (Truthy(dict) && dict.value.vals.Keys < ValueSet(df.columns[column]))
    ensures r.Failure? && r.error == KeyError ==>
      Truthy(dict) && exists i :: 0 <= i < |df.columns[column]| && df.columns[column][i] !in dict.value.vals
    ensures r.Success? ==>
      var col := df.columns[column];
      var d := EncodingDictionary(col, dict);
      && |r.value.codes| == |col|
      && (forall i :: 0 <= i < |col| ==> col[i] in d.vals && r.value.codes[i] == d.vals[col[i]])
      && r.value.reversed == ReverseDict(d)
  {
    if column !in df.columns then Failure(ValueError)
    else
      var col := df.columns[column];
      if Truthy(dict) && dict.value.vals.Keys < ValueSet(col) then Failure(ValueError)
      else
        var d := EncodingDictionary(col, dict);
        if exists i :: 0 <= i < |col| && col[i] !in d.vals then
          AutoDictionaryCovers(col);
          Failure(KeyError)
        else
          AutoDictionaryCovers(col);
          Success(Encoded(seq(|col|, i requires 0 <= i < |col| => d.vals[col[i]]), ReverseDict(d)))
  }

  lemma AutoDictionaryCovers(col: seq<Label>)
    ensures forall x :: x in col ==> x in AutoDictionary(col).vals
  {
    var u := Unique(col);
    var ps := seq(|u|, i requires 0 <= i < |u| => (u[i], i));
    assert Firsts(ps) == u;
  }

  /** A supplied dictionary covering every label of the column always encodes it. */
  lemma SuppliedDictionaryCovering(df: DataFrame, column: string, dict: PyDict<Label, int>)
    requires Valid(dict) && |dict.keys| > 0 && column in df.columns
    requires ValueSet(df.columns[column]) <= dict.vals.Keys
    ensures EncodeLabel(df, column, Some(dict)).Success?
  {
  }

  /**
   * Without a (truthy) dictionary the encoding always succeeds on an
   * existing column: each label gets the position of its first appearance
   * among the distinct labels, so codes run over 0 .. k - 1, and the
   * reversed dictionary decodes every code back to its label.
   */
  lemma AutoEncodingRoundTrip(df: DataFrame, column: string, dict: Option<PyDict<Label, int>>)
    requires dict.Some? ==> Valid(dict.value)
    requires column in df.columns && !Truthy(dict)
    ensures var r := EncodeLabel(df, column, dict);
      var col := df.columns[column];
      && r.Success?
      && forall i :: 0 <= i < |col| ==>
        && r.value.codes[i] == IndexOf(Unique(col), col[i])
        && 0 <= r.value.codes[i] < |Unique(col)|
        && r.value.codes[i] in r.value.reversed.vals
        && r.value.reversed.vals[r.value.codes[i]] == col[i]
  {
    var col := df.columns[column];
    var d := AutoDictionary(col);
    AutoDictionaryCovers(col);
    AutoDictionaryCodes(col);
    ReverseInjective(d);
    var r := EncodeLabel(df, column, dict);
    forall i | 0 <= i < |col|
      ensures r.value.codes[i] == IndexOf(Unique(col), col[i])
      ensures r.value.codes[i] in r.value.reversed.vals && r.value.reversed.vals[r.value.codes[i]] == col[i]
    {
      var j := IndexOf(Unique(col), col[i]);
      assert d.vals[Unique(col)[j]] == j;
      assert ReverseDict(d).keys[j] == j;
    }
  }

  /** With a supplied injective dictionary, the reversed dictionary decodes every code of a successful encoding. */
  lemma SuppliedInjectiveRoundTrip(df: DataFrame, column: string, dict: PyDict<Label, int>)
    requires Valid(dict) && Injective(dict) && |dict.keys| > 0
    requires EncodeLabel(df, column, Some(dict)).Success?
    ensures var r := EncodeLabel(df, column, Some(dict));
      forall i :: 0 <= i < |r.value.codes| ==>
        r.value.codes[i] in r.value.reversed.vals && r.value.reversed.vals[r.value.codes[i]] == df.columns[column][i]
  {
    var col := df.columns[column];
    ReverseInjective(dict);
    forall i | 0 <= i < |col|
      ensures dict.vals[col[i]] in ReverseDict(dict).vals && ReverseDict(dict).vals[dict.vals[col[i]]] == col[i]
    {
      var j :| 0 <= j < |dict.keys| && dict.keys[j] == col[i];
    }
  }
}
