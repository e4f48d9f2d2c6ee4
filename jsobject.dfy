/**
 * The plain JavaScript objects the client keeps in React state (the filter
 * object, the form's error object): keys in insertion order, each with a
 * string value or `undefined`. The keys of both objects are fixed property
 * names, so the key type is a parameter (an enumeration of those names). A key that was never set and a key set to
 * `undefined` both read as `undefined` (`None`).
 */
module JsObject {
  import opened Wrappers

  type Entries<K> = seq<(K, Option<string>)>

  /** An object has each key at most once. */
  ghost predicate DistinctKeys<K>(o: Entries<K>) {
    forall i, j :: 0 <= i < j < |o| ==> o[i].0 != o[j].0
  }

  function Keys<K>(o: Entries<K>): (ks: seq<K>)
    ensures |ks| == |o| && forall i :: 0 <= i < |o| ==> ks[i] == o[i].0
  {
    seq(|o|, i requires 0 <= i < |o| => o[i].0)
  }

  /** `o[k]`: the value stored under `k`, `undefined` when there is none. */
  function Get<K(==)>(o: Entries<K>, k: K): Option<string> {
    if o == [] then None
    else if o[0].0 == k then o[0].1
    else
      Get(o[1..], k)
  }

  /** In an object with distinct keys, a key reads as the value stored beside it. */
  lemma {:induction false} GetAt<K>(o: Entries<K>, i: nat)
    requires DistinctKeys(o) && i < |o|
    ensures Get(o, o[i].0) == o[i].1
  {
    if i > 0 {
      assert DistinctKeys(o[1..]);
      GetAt(o[1..], i - 1);
    }
  }

  /** A key that is not there reads as `undefined`. */
  lemma {:induction false} GetAbsent<K>(o: Entries<K>, k: K)
    requires k !in Keys(o)
    ensures Get(o, k).None?
  {
    if o != [] {
      KeysCons(o);
      GetAbsent(o[1..], k);
    }
  }

  lemma KeysCons<K>(o: Entries<K>)
    requires o != []
    ensures Keys(o) == [o[0].0] + Keys(o[1..])
  {
  }

  /**
   * `{...o, [k]: v}`: a copy of `o` in which `k` now holds `v`. An existing key
   * keeps its position; a new key goes last. No other key changes value.
   */
  function Set<K(==,!new)>(o: Entries<K>, k: K, v: Option<string>): (r: Entries<K>)
    ensures Get(r, k) == v
    ensures forall k' :: k' != k ==> Get(r, k') == Get(o, k')
  {
    if o == [] then [(k, v)]
    else if o[0].0 == k then
      var r := [(k, v)] + o[1..];
      assert r[1..] == o[1..];
      r
    else
      var r := [o[0]] + Set(o[1..], k, v);
      assert r[1..] == Set(o[1..], k, v);
      r
  }

  /** An existing key keeps its position; a new key goes last. */
  lemma {:induction false} SetKeys<K(!new)>(o: Entries<K>, k: K, v: Option<string>)
    ensures Keys(Set(o, k, v)) == if k in Keys(o) then Keys(o) else Keys(o) + [k]
  {
    var r := Set(o, k, v);
    if o != [] {
      KeysCons(o);
      KeysCons(r);
      if o[0].0 == k {
        assert r[1..] == o[1..];
      } else {
        var rest := Set(o[1..], k, v);
        assert r[1..] == rest;
        SetKeys(o[1..], k, v);
        assert k in Keys(o) <==> k in Keys(o[1..]);
      }
    }
  }

  /** Setting a key keeps the keys distinct. */
  lemma SetDistinct<K(!new)>(o: Entries<K>, k: K, v: Option<string>)
    requires DistinctKeys(o)
    ensures DistinctKeys(Set(o, k, v))
  {
    var r := Set(o, k, v);
    SetKeys(o, k, v);
    forall i, j | 0 <= i < j < |r| ensures r[i].0 != r[j].0 {
      assert r[i].0 == Keys(r)[i] && r[j].0 == Keys(r)[j];
      if k !in Keys(o) && j == |o| {
        assert r[i].0 == Keys(o)[i];
      } else {
        assert Keys(o)[i] == o[i].0 && Keys(o)[j] == o[j].0;
      }
    }
  }

  /**
   * Entry by entry, in an object with distinct keys: the entries with other
   * keys stay where they were, and `k` appears once, holding `v`.
   */
  lemma SetEntries<K(!new)>(o: Entries<K>, k: K, v: Option<string>)
    requires DistinctKeys(o)
    ensures var r := Set(o, k, v);
      && DistinctKeys(r) && |o| <= |r|
      && (forall i :: 0 <= i < |r| && r[i].0 != k ==> i < |o| && r[i] == o[i])
      && (forall i :: 0 <= i < |o| && o[i].0 != k ==> r[i] == o[i])
      && (forall i :: 0 <= i < |r| && r[i].0 == k ==> r[i].1 == v)
      && exists i :: 0 <= i < |r| && r[i].0 == k
  {
    var r := Set(o, k, v);
    SetKeys(o, k, v);
    SetDistinct(o, k, v);
    forall i | 0 <= i < |r| && r[i].0 != k ensures i < |o| && r[i] == o[i] {
      assert Keys(r)[i] == r[i].0;
      assert Keys(o)[i] == o[i].0;
      GetAt(r, i);
      GetAt(o, i);
    }
    forall i | 0 <= i < |o| && o[i].0 != k ensures r[i] == o[i] {
      assert Keys(o)[i] == o[i].0 == Keys(r)[i] == r[i].0;
      GetAt(r, i);
      GetAt(o, i);
    }
    forall i | 0 <= i < |r| && r[i].0 == k ensures r[i].1 == v {
      GetAt(r, i);
    }
    assert k in Keys(r);
    var i :| 0 <= i < |r| && Keys(r)[i] == k;
    assert r[i].0 == k;
  }
}
