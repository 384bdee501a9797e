/**
 * A plain JavaScript object used as a dictionary from string keys to string
 * values (the `Record<string, string>` the configuration keeps its clients
 * in). Besides the key/value mapping it remembers the order in which keys
 * were first added, which is the order `Object.keys` and `Object.entries`
 * report.
 */
module JsObject {
  import opened Wrappers
  import opened Text

  datatype Dict = Dict(keys: seq<string>, values: map<string, string>) {

    /** Keys are listed once each, and exactly the keys that have values are listed. */
    ghost predicate Valid() {
      && (forall i, j :: 0 <= i < j < |keys| ==> keys[i] != keys[j])
      && (forall k :: k in values <==> k in keys)
    }

    /** `Object.keys(obj).length` */
    function Size(): nat {
      |keys|
    }

    /** `obj[k]`, which is `undefined` for a missing key. */
    function Get(k: string): (r: Option<string>)
      ensures r.Some? <==> k in values
      ensures r.Some? ==> r.value == values[k]
    {
      if k in values then Some(values[k]) else None
    }

    /** `{...obj, [k]: v}`: a new key goes last, an existing key keeps its place. */
    function Set(k: string, v: string): (r: Dict)
      requires Valid()
      ensures r.Valid()
      ensures r.values == values[k := v]
      ensures k in values ==> r.keys == keys
      ensures k !in values ==> r.keys == keys + [k]
    {
      if k in values then Dict(keys, values[k := v]) else Dict(keys + [k], values[k := v])
    }

    /** `delete obj[k]` on a copy: the other keys keep their relative order. */
    function Delete(k: string): (r: Dict)
      requires Valid()
      ensures r.Valid()
      ensures r.values == values - {k}
      ensures r.keys == Without(keys, k)
      ensures |r.keys| == if k in values then |keys| - 1 else |keys|
    {
      WithoutLength(keys, k);
      Dict(Without(keys, k), values - {k})
    }

    /** `{...obj, ...other}`: keys of `other` not yet present are added after this object's keys, in `other`'s order. */
    function Assign(other: Dict): (r: Dict)
      requires Valid() && other.Valid()
      ensures r.Valid()
      ensures r.values == values + other.values
      ensures r.keys == keys + NotIn(other.keys, values)
    {
      var added := NotIn(other.keys, values);
      assert forall k :: k in added <==> k in other.keys && k !in values;
      DistinctConcat(keys, added);
      Dict(keys + added, values + other.values)
    }
  }

  function Empty(): (r: Dict)
    ensures r.Valid() && r.values == map[] && r.keys == []
  {
    Dict([], map[])
  }

  /** `{[k]: v}` */
  function Single(k: string, v: string): (r: Dict)
    ensures r.Valid() && r.values == map[k := v] && r.keys == [k]
  {
    Dict([k], map[k := v])
  }

  ghost predicate Distinct(s: seq<string>) {
    forall i, j :: 0 <= i < j < |s| ==> s[i] != s[j]
  }

  lemma DistinctConcat(a: seq<string>, b: seq<string>)
    ensures Distinct(a) && Distinct(b) && (forall x :: x in a ==> x !in b) ==> Distinct(a + b)
  {
    if Distinct(a) && Distinct(b) && (forall x :: x in a ==> x !in b) {
      forall i, j | 0 <= i < j < |a + b|
        ensures (a + b)[i] != (a + b)[j]
      {
        if i < |a| && j >= |a| {
          assert (a + b)[i] in a && (a + b)[j] in b;
        }
      }
    }
  }

  /** `s` with every occurrence of `k` removed, order kept. */
  function Without(s: seq<string>, k: string): (r: seq<string>)
    ensures forall x :: x in r <==> x in s && x != k
    ensures Distinct(s) ==> Distinct(r)
  {
    if s == [] then []
    else if s[0] == k then Without(s[1..], k)
    else
      var t := Without(s[1..], k);
      DistinctConcat([s[0]], t);
      [s[0]] + t
  }

  lemma {:induction false} WithoutLength(s: seq<string>, k: string)
    requires Distinct(s)
    ensures |Without(s, k)| == if k in s then |s| - 1 else |s|
  {
    if s != [] {
      WithoutLength(s[1..], k);
      assert s == [s[0]] + s[1..];
      assert s[0] == k ==> k !in s[1..];
    }
  }

  /** The first key left after removing `k` from a list of at least two distinct keys. */
  lemma WithoutHead(s: seq<string>, k: string)
    requires Distinct(s) && |s| >= 2
    ensures |Without(s, k)| >= 1
    ensures Without(s, k)[0] == if s[0] == k then s[1] else s[0]
  {
    assert s[1..] == [s[1]] + s[2..];
    if s[0] == k {
      assert s[1] != k;
    }
  }

  /** The elements of `s` that are not keys of `m`, order kept. */
  function NotIn(s: seq<string>, m: map<string, string>): (r: seq<string>)
    ensures forall x :: x in r <==> x in s && x !in m
    ensures Distinct(s) ==> Distinct(r)
  {
    if s == [] then []
    else if s[0] in m then NotIn(s[1..], m)
    else
      var t := NotIn(s[1..], m);
      DistinctConcat([s[0]], t);
      [s[0]] + t
  }

  lemma {:induction false} NotInConcat(a: seq<string>, b: seq<string>, m: map<string, string>)
    ensures NotIn(a + b, m) == NotIn(a, m) + NotIn(b, m)
    decreases |a|
  {
    if a != [] {
      NotInConcat(a[1..], b, m);
      TailOfConcat(a, b);
      if a[0] !in m {
        ConcatAssoc([a[0]], NotIn(a[1..], m), NotIn(b, m));
      }
    } else {
      assert a + b == b;
    }
  }

  lemma {:induction false} NotInTwice(s: seq<string>, m: map<string, string>)
    ensures NotIn(NotIn(s, m), m) == NotIn(s, m)
    decreases |s|
  {
    if s != [] {
      NotInTwice(s[1..], m);
      if s[0] !in m {
        assert NotIn(s, m)[1..] == NotIn(s[1..], m);
      }
    }
  }

  lemma {:induction false} NotInIdentity(s: seq<string>, m: map<string, string>)
    requires forall x :: x in s ==> x !in m
    ensures NotIn(s, m) == s
    decreases |s|
  {
    if s != [] {
      NotInIdentity(s[1..], m);
      assert s == [s[0]] + s[1..];
    }
  }

  lemma {:induction false} NotInAllPresent(s: seq<string>, m: map<string, string>)
    requires forall x :: x in s ==> x in m
    ensures NotIn(s, m) == []
    decreases |s|
  {
    if s != [] {
      NotInAllPresent(s[1..], m);
    }
  }

  lemma MergeSingle<K, V>(m: map<K, V>, k: K, v: V)
    ensures m + map[k := v] == m[k := v]
  {
  }

  lemma MergeAbsorbs<K, V>(a: map<K, V>, b: map<K, V>)
    ensures a + (a + b) == a + b
  {
  }

  lemma MergeUnder<K, V>(k: K, v: V, m: map<K, V>)
    requires k in m
    ensures map[k := v] + m == m
  {
  }

  /** Spreading an object over a copy of itself spread with another changes nothing. */
  lemma AssignAbsorbs(d: Dict, o: Dict)
    requires d.Valid() && o.Valid()
    ensures d.Assign(d.Assign(o)) == d.Assign(o)
  {
    var a := d.Assign(o);
    var added := NotIn(o.keys, d.values);
    NotInConcat(d.keys, added, d.values);
    NotInAllPresent(d.keys, d.values);
    NotInTwice(o.keys, d.values);
    assert [] + added == added;
    MergeAbsorbs(d.values, o.values);
    assert d.Assign(a).keys == a.keys;
    assert d.Assign(a).values == a.values;
  }

  /** Spreading an object whose first key is `k` over `{[k]: v}` gives that object. */
  lemma AssignOverSingle(k: string, v: string, o: Dict)
    requires o.Valid() && |o.keys| >= 1 && o.keys[0] == k
    ensures Single(k, v).Assign(o) == o
  {
    var d := Single(k, v);
    var rest := o.keys[1..];
    forall x | x in rest
      ensures x !in d.values
    {
      var j :| 0 <= j < |rest| && rest[j] == x;
      assert o.keys[j + 1] == x;
    }
    NotInIdentity(rest, d.values);
    assert NotIn(o.keys, d.values) == rest;
    HeadTail(o.keys);
    assert k in o.values;
    MergeUnder(k, v, o.values);
    assert d.Assign(o).keys == o.keys;
    assert d.Assign(o).values == o.values;
  }
}
