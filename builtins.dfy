/** The parts of Python's built-in behaviour that the pizza program relies on:
    the two exceptions it raises, the instance dictionary behind every object
    (`__dict__`, which keeps its keys in insertion order), dictionary equality
    and `str.join`. */
module Builtins {

  datatype Option<T> = None | Some(value: T)

  /** The exceptions the program raises, with their messages. */
  datatype Error = ValueError(message: string) | KeyError(message: string)

  /** How a statement that produces no value completes: normally, or by raising. */
  datatype Outcome = Pass | Fail(error: Error)

  /** How an expression completes: with a value, or by raising. */
  datatype Result<T> = Success(value: T) | Failure(error: Error)

  /** An instance dictionary: attribute names with their values, in insertion order. */
  type AttrDict = seq<(string, string)>

  function Keys(d: AttrDict): seq<string> {
    seq(|d|, i requires 0 <= i < |d| => d[i].0)
  }

  function Values(d: AttrDict): seq<string> {
    seq(|d|, i requires 0 <= i < |d| => d[i].1)
  }

  /** A Python dictionary never holds the same key twice. */
  predicate DistinctKeys(d: AttrDict) {
    forall i, j :: 0 <= i < j < |d| ==> d[i].0 != d[j].0
  }

  /** The dictionary seen as a mapping, order forgotten. */
  function AsMap(d: AttrDict): (m: map<string, string>)
    ensures forall k :: k in m <==> k in Keys(d)
  {
    if d == [] then map[]
    else
      assert Keys(d) == [d[0].0] + Keys(d[1..]);
      AsMap(d[1..])[d[0].0 := d[0].1]
  }

  /** Every pair of the mapping is an entry of the dictionary. */
  lemma {:induction false} AsMapEntries(d: AttrDict)
    ensures forall k :: k in AsMap(d) ==> (k, AsMap(d)[k]) in d
  {
    if d != [] {
      AsMapEntries(d[1..]);
      forall k | k in AsMap(d) ensures (k, AsMap(d)[k]) in d {
        if k != d[0].0 {
          assert (k, AsMap(d[1..])[k]) in d[1..];
        }
      }
    }
  }

  /** `d[k]`, with None for a missing key. */
  function Find(d: AttrDict, k: string): (r: Option<string>)
    ensures r.Some? <==> k in Keys(d)
    ensures r.Some? ==> (k, r.value) in d
  {
    AsMapEntries(d);
    if k in AsMap(d) then Some(AsMap(d)[k]) else None
  }

  /** `d[k] = v`: an existing key keeps its place and takes the new value,
      a new key goes after all the others. */
  function Store(d: AttrDict, k: string, v: string): (r: AttrDict)
    ensures AsMap(r) == AsMap(d)[k := v]
  {
    if d == [] then [(k, v)]
    else if d[0].0 == k then [(k, v)] + d[1..]
    else
      assert Keys(d) == [d[0].0] + Keys(d[1..]);
      [d[0]] + Store(d[1..], k, v)
  }

  /** A key not yet present goes after all the others. */
  lemma {:induction false} StoreAppends(d: AttrDict, k: string, v: string)
    requires k !in Keys(d)
    ensures Store(d, k, v) == d + [(k, v)]
  {
    if d != [] {
      assert Keys(d) == [d[0].0] + Keys(d[1..]);
      StoreAppends(d[1..], k, v);
      assert d[1..] + [(k, v)] == (d + [(k, v)])[1..];
    }
  }

  /** Assignment brings in no entry but the one written. */
  lemma {:induction false} StoreEntries(d: AttrDict, k: string, v: string)
    ensures forall e :: e in Store(d, k, v) ==> e == (k, v) || e in d
  {
    if d != [] && d[0].0 != k {
      StoreEntries(d[1..], k, v);
    }
  }

  /** Overwriting a key that is present changes that entry alone, in place. */
  lemma {:induction false} StoreInPlace(d: AttrDict, k: string, v: string)
    requires DistinctKeys(d) && k in Keys(d)
    ensures |Store(d, k, v)| == |d|
    ensures forall i :: 0 <= i < |d| ==> Store(d, k, v)[i] == if d[i].0 == k then (k, v) else d[i]
  {
    if d[0].0 != k {
      assert Keys(d) == [d[0].0] + Keys(d[1..]);
      assert DistinctKeys(d[1..]) by {
        forall a, b | 0 <= a < b < |d[1..]| ensures d[1..][a].0 != d[1..][b].0 {
          assert d[a + 1].0 != d[b + 1].0;
        }
      }
      StoreInPlace(d[1..], k, v);
    }
  }

  /** Assignment never makes a key appear twice. */
  lemma StoreDistinct(d: AttrDict, k: string, v: string)
    requires DistinctKeys(d)
    ensures DistinctKeys(Store(d, k, v))
  {
    var r := Store(d, k, v);
    if k in Keys(d) {
      StoreInPlace(d, k, v);
      forall i, j | 0 <= i < j < |r| ensures r[i].0 != r[j].0 {
        assert r[i].0 == d[i].0 && r[j].0 == d[j].0;
      }
    } else {
      StoreAppends(d, k, v);
      forall i, j | 0 <= i < j < |r| ensures r[i].0 != r[j].0 {
        if j == |d| {
          assert r[i].0 == Keys(d)[i];
        }
      }
    }
  }

  /** Python's `a == b` on two dictionaries: the same keys with the same values. */
  predicate SameItems(a: AttrDict, b: AttrDict) {
    AsMap(a) == AsMap(b)
  }

  lemma {:induction false} FindEntry(d: AttrDict, i: nat)
    requires DistinctKeys(d) && i < |d|
    ensures Find(d, d[i].0) == Some(d[i].1)
  {
    if i > 0 {
      assert DistinctKeys(d[1..]) by {
        forall a, b | 0 <= a < b < |d[1..]| ensures d[1..][a].0 != d[1..][b].0 {
          assert d[a + 1].0 != d[b + 1].0;
        }
      }
      FindEntry(d[1..], i - 1);
      assert d[i].0 != d[0].0;
    }
  }

  /** Two dictionaries with the same keys in the same order are equal exactly
      when they hold the same values in that order. */
  lemma SameLayoutEquality(a: AttrDict, b: AttrDict)
    requires DistinctKeys(a) && Keys(a) == Keys(b)
    ensures SameItems(a, b) <==> Values(a) == Values(b)
  {
    assert |a| == |Keys(a)| == |Keys(b)| == |b|;
    if Values(a) == Values(b) {
      assert forall i :: 0 <= i < |a| ==> a[i] == (Keys(a)[i], Values(a)[i]) == b[i];
      assert a == b;
    }
    if SameItems(a, b) {
      assert DistinctKeys(b) by {
        forall i, j | 0 <= i < j < |b| ensures b[i].0 != b[j].0 {
          assert Keys(a)[i] == b[i].0 && Keys(a)[j] == b[j].0;
        }
      }
      forall i | 0 <= i < |a| ensures Values(a)[i] == Values(b)[i] {
        FindEntry(a, i);
        FindEntry(b, i);
        assert Keys(a)[i] == Keys(b)[i];
      }
    }
  }

  lemma KeysValuesAppend(d: AttrDict, e: (string, string))
    ensures Keys(d + [e]) == Keys(d) + [e.0] && Values(d + [e]) == Values(d) + [e.1]
  {
  }

  /** Two new attributes written in either order leave the same items. */
  lemma WriteOrderForgotten(d: AttrDict, e: (string, string), f: (string, string))
    requires e.0 != f.0 && e.0 !in Keys(d) && f.0 !in Keys(d)
    ensures SameItems(d + [e] + [f], d + [f] + [e])
  {
    var m := AsMap(d);
    assert AsMap(d + [e] + [f]) == m[e.0 := e.1][f.0 := f.1] by {
      StoreAppends(d, e.0, e.1);
      KeysValuesAppend(d, e);
      StoreAppends(d + [e], f.0, f.1);
    }
    assert AsMap(d + [f] + [e]) == m[f.0 := f.1][e.0 := e.1] by {
      StoreAppends(d, f.0, f.1);
      KeysValuesAppend(d, f);
      StoreAppends(d + [f], e.0, e.1);
    }
    assert m[e.0 := e.1][f.0 := f.1] == m[f.0 := f.1][e.0 := e.1];
  }

  /** Dictionaries with different sets of keys are never equal. */
  lemma DifferentKeysUnequal(a: AttrDict, b: AttrDict, k: string)
    requires k in Keys(a) && k !in Keys(b)
    ensures !SameItems(a, b)
  {
    assert k in AsMap(a) && k !in AsMap(b);
  }

  /** The combined length of a list of strings. */
  function TotalLength(parts: seq<string>): nat {
    if parts == [] then 0 else |parts[0]| + TotalLength(parts[1..])
  }

  /** `sep.join(parts)`: every part once, in order, with one separator
      between each two neighbours. */
  function Join(parts: seq<string>, sep: string): (r: string)
    ensures |parts| == 0 ==> r == ""
    ensures |parts| > 0 ==> |r| + |sep| == TotalLength(parts) + |parts| * |sep|
  {
    if |parts| == 0 then ""
    else if |parts| == 1 then parts[0]
    else parts[0] + sep + Join(parts[1..], sep)
  }

  /** A part in front of a non-empty list is joined to it by one separator. */
  lemma JoinCons(first: string, rest: seq<string>, sep: string)
    requires |rest| > 0
    ensures Join([first] + rest, sep) == first + sep + Join(rest, sep)
  {
    assert ([first] + rest)[1..] == rest;
  }

  /** A part after a non-empty list is joined to it by one separator. */
  lemma {:induction false} JoinAppend(parts: seq<string>, x: string, sep: string)
    requires |parts| > 0
    ensures Join(parts + [x], sep) == Join(parts, sep) + sep + x
  {
    assert (parts + [x])[1..] == parts[1..] + [x];
    if |parts| > 1 {
      JoinAppend(parts[1..], x, sep);
    }
  }
}
