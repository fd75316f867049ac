/**
 * The Python values the service passes around: JSON-like data built from None,
 * booleans, integers, strings, datetimes, lists, tuples and string-keyed dicts.
 * A dict is its list of entries in insertion order, as Python keeps it.
 */
module Json {
  import opened Wrappers

  datatype Value =
    | Null
    | Bool(b: bool)
    | Int(i: int)
    | Str(s: string)
      /** A `datetime` object, represented by the text its `isoformat()` returns. */
    | DateTime(iso: string)
    | List(items: seq<Value>)
    | Tuple(elems: seq<Value>)
    | Dict(entries: seq<(string, Value)>)

  /** The entries of a dict, in insertion order. */
  type Entries = seq<(string, Value)>

  /** Python's `bool(v)`. */
  predicate Truthy(v: Value)
  {
    match v
    case Null => false
    case Bool(b) => b
    case Int(i) => i != 0
    case Str(s) => s != ""
    case DateTime(_) => true
    case List(items) => items != []
    case Tuple(elems) => elems != []
    case Dict(entries) => entries != []
  }

  /** Python's `bool(o)` for an `Optional[str]`: present and non-empty. */
  predicate TruthyStr(o: Option<string>)
  {
    o.Some? && o.value != ""
  }

  /** An `Optional[str]` as a value: `None` becomes `Null`. */
  function OptStr(o: Option<string>): (v: Value)
    ensures v == Null <==> o.None?
  {
    match o
    case None => Null
    case Some(s) => Str(s)
  }

  /** `list(d.keys())`. */
  function Keys(es: Entries): (ks: seq<string>)
    ensures |ks| == |es|
    ensures forall i :: 0 <= i < |es| ==> ks[i] == es[i].0
  {
    if es == [] then [] else [es[0].0] + Keys(es[1..])
  }

  /** The keys of a Python dict are pairwise distinct. */
  ghost predicate DistinctKeys(es: Entries)
  {
    forall i, j :: 0 <= i < j < |es| ==> es[i].0 != es[j].0
  }

  /** `d.get(k)`: the value stored under `k`, if any. */
  function Get(es: Entries, k: string): Option<Value>
  {
    if es == [] then None
    else if es[0].0 == k then Some(es[0].1)
    else Get(es[1..], k)
  }

  /** `d.get(k)` finds a value exactly when `k` is one of the dict's keys. */
  lemma {:induction false} GetSomeIffKey(es: Entries, k: string)
    ensures Get(es, k).Some? <==> k in Keys(es)
  {
    if es != [] {
      GetSomeIffKey(es[1..], k);
    }
  }

  /** The first entry with a given key is the one `Get` finds. */
  lemma {:induction false} GetAt(es: Entries, i: nat)
    requires i < |es|
    requires forall j :: 0 <= j < i ==> es[j].0 != es[i].0
    ensures Get(es, es[i].0) == Some(es[i].1)
  {
    if i > 0 {
      assert es[1..][i - 1] == es[i];
      GetAt(es[1..], i - 1);
    }
  }

  /**
   * `d[k] = v`: replaces the value of an existing key where it stands, or
   * appends a new key at the end.
   */
  function Put(es: Entries, k: string, v: Value): (r: Entries)
    ensures Keys(r) == if k in Keys(es) then Keys(es) else Keys(es) + [k]
  {
    if es == [] then [(k, v)]
    else if es[0].0 == k then
      assert ([(k, v)] + es[1..])[1..] == es[1..];
      [(k, v)] + es[1..]
    else
      var rest := Put(es[1..], k, v);
      assert ([es[0]] + rest)[1..] == rest;
      [es[0]] + rest
  }

  /** After `d[k] = v`, `k` holds `v` and every other key holds what it held. */
  lemma {:induction false} PutGet(es: Entries, k: string, v: Value, k': string)
    ensures Get(Put(es, k, v), k') == if k' == k then Some(v) else Get(es, k')
  {
    if es != [] && es[0].0 != k {
      PutGet(es[1..], k, v, k');
    }
  }

  /** Assigning a key keeps the keys of a dict distinct. */
  lemma {:induction false} PutDistinct(es: Entries, k: string, v: Value)
    requires DistinctKeys(es)
    ensures DistinctKeys(Put(es, k, v))
  {
    var r := Put(es, k, v);
    forall i, j | 0 <= i < j < |r|
      ensures r[i].0 != r[j].0
    {
      assert Keys(r)[i] == r[i].0 && Keys(r)[j] == r[j].0;
      if j < |es| {
        assert Keys(es)[i] == es[i].0 && Keys(es)[j] == es[j].0;
      } else {
        assert k !in Keys(es) && Keys(r)[j] == k;
        assert Keys(r)[i] == Keys(es)[i];
      }
    }
  }

  /** `d.update(other)`: assigns every entry of `other` in turn. */
  function Update(es: Entries, other: Entries): Entries
    decreases |other|
  {
    if other == [] then es else Update(Put(es, other[0].0, other[0].1), other[1..])
  }

  /**
   * After `d.update(other)`, a key of `other` holds `other`'s value and any
   * other key holds what it held in `d`.
   */
  lemma {:induction false} UpdateGet(es: Entries, other: Entries, k: string)
    requires DistinctKeys(other)
    ensures Get(Update(es, other), k) == if k in Keys(other) then Get(other, k) else Get(es, k)
    decreases |other|
  {
    if other != [] {
      var p := Put(es, other[0].0, other[0].1);
      assert Keys(other) == [other[0].0] + Keys(other[1..]);
      UpdateGet(p, other[1..], k);
      PutGet(es, other[0].0, other[0].1, k);
      forall j | 0 <= j < |other[1..]|
        ensures Keys(other[1..])[j] != other[0].0
      {
        assert other[1..][j] == other[j + 1];
      }
    }
  }

  /** `d.update(other)` keeps `d`'s keys in place and only adds keys after them. */
  lemma {:induction false} UpdateKeysPrefix(es: Entries, other: Entries)
    ensures Keys(es) <= Keys(Update(es, other))
    decreases |other|
  {
    if other != [] {
      var p := Put(es, other[0].0, other[0].1);
      UpdateKeysPrefix(p, other[1..]);
    }
  }

  /**
   * A dict built by conditional insertion into `{}`: for each `(key, value)`
   * pair in turn, `d[key] = value` runs only when `value` is a non-empty string.
   */
  function PresentStrings(pairs: seq<(string, Option<string>)>): (r: Entries)
    ensures |r| <= |pairs|
    ensures forall i :: 0 <= i < |r| ==> r[i].1.Str?
    ensures r == [] <==> forall i :: 0 <= i < |pairs| ==> !TruthyStr(pairs[i].1)
  {
    if pairs == [] then []
    else
      var head := if TruthyStr(pairs[0].1) then [(pairs[0].0, Str(pairs[0].1.value))] else [];
      head + PresentStrings(pairs[1..])
  }

  /**
   * With distinct keys, a key is in the built dict exactly when its value was
   * supplied non-empty, and then it holds that string.
   */
  lemma {:induction false} PresentStringsGet(pairs: seq<(string, Option<string>)>, i: nat)
    requires i < |pairs|
    requires forall a, b :: 0 <= a < b < |pairs| ==> pairs[a].0 != pairs[b].0
    ensures Get(PresentStrings(pairs), pairs[i].0)
      == if TruthyStr(pairs[i].1) then Some(Str(pairs[i].1.value)) else None
  {
    var rest := PresentStrings(pairs[1..]);
    var head := if TruthyStr(pairs[0].1) then [(pairs[0].0, Str(pairs[0].1.value))] else [];
    assert PresentStrings(pairs) == head + rest;
    assert (head + rest)[|head|..] == rest;
    if i == 0 {
      PresentStringsKeys(pairs[1..], pairs[0].0);
    } else {
      assert pairs[1..][i - 1] == pairs[i];
      PresentStringsGet(pairs[1..], i - 1);
    }
  }

  lemma {:induction false} PresentStringsKeys(pairs: seq<(string, Option<string>)>, k: string)
    requires forall a :: 0 <= a < |pairs| ==> pairs[a].0 != k
    ensures Get(PresentStrings(pairs), k) == None
  {
    if pairs != [] {
      PresentStringsKeys(pairs[1..], k);
      var head := if TruthyStr(pairs[0].1) then [(pairs[0].0, Str(pairs[0].1.value))] else [];
      assert (head + PresentStrings(pairs[1..]))[|head|..] == PresentStrings(pairs[1..]);
    }
  }

  /** A Python dict object: code holding a reference sees every in-place change. */
  class DictObject {
    var entries: Entries

    /** A fresh dict object holding `es` (`{}` when `es` is empty). */
    constructor (es: Entries)
      ensures entries == es
    {
      entries := es;
    }

    /** `self[k] = v`. */
    method SetItem(k: string, v: Value)
      modifies this
      ensures entries == Put(old(entries), k, v)
      ensures DistinctKeys(old(entries)) ==> DistinctKeys(entries)
    {
      if DistinctKeys(entries) {
        PutDistinct(entries, k, v);
      }
      entries := Put(entries, k, v);
    }
  }
}
