/**
 * A JavaScript `Map` as the handlers use it: entries kept in insertion
 * order, `set` replacing the value of a present key where it stands and
 * appending a new key at the end, and `values()` listing values in that
 * order.
 */
module OrderedMaps {
  import opened Js
  import opened Seqs

  datatype Entry<K, V> = Entry(key: K, value: V)

  function Keys<K, V>(m: seq<Entry<K, V>>): (r: seq<K>)
    ensures |r| == |m| && forall i :: 0 <= i < |m| ==> r[i] == m[i].key
  {
    seq(|m|, i requires 0 <= i < |m| => m[i].key)
  }

  /** `Array.from(m.values())`. */
  function Values<K, V>(m: seq<Entry<K, V>>): (r: seq<V>)
    ensures |r| == |m| && forall i :: 0 <= i < |m| ==> r[i] == m[i].value
  {
    seq(|m|, i requires 0 <= i < |m| => m[i].value)
  }

  /** The first position of `k` in `ks`. */
  function IndexOf<K(==)>(ks: seq<K>, k: K): (i: int)
    requires k in ks
    ensures 0 <= i < |ks| && ks[i] == k && forall j :: 0 <= j < i ==> ks[j] != k
  {
    if ks[0] == k then 0 else 1 + IndexOf(ks[1..], k)
  }

  /** `m.get(k)`. */
  function Get<K(==), V>(m: seq<Entry<K, V>>, k: K): (r: Option<V>)
    ensures r.None? <==> k !in Keys(m)
  {
    if k in Keys(m) then Some(m[IndexOf(Keys(m), k)].value) else None
  }

  /** `m.set(k, v)`. */
  function Put<K(==), V>(m: seq<Entry<K, V>>, k: K, v: V): (r: seq<Entry<K, V>>)
    ensures k in Keys(m) ==> Keys(r) == Keys(m)
    ensures k !in Keys(m) ==> Keys(r) == Keys(m) + [k]
  {
    if k in Keys(m) then seq(|m|, i requires 0 <= i < |m| => if m[i].key == k then Entry(k, v) else m[i])
    else m + [Entry(k, v)]
  }

  /** After `set(k, v)`, `get(k)` answers `v` and every other key answers as before. */
  lemma PutGet<K, V>(m: seq<Entry<K, V>>, k: K, v: V, k': K)
    ensures Get(Put(m, k, v), k') == if k' == k then Some(v) else Get(m, k')
  {
    var r := Put(m, k, v);
    if k !in Keys(m) && k' in Keys(m) {
      assert Keys(m) == Keys(r)[..|m|];
      assert IndexOf(Keys(r), k') == IndexOf(Keys(m), k');
    } else if k !in Keys(m) && k' == k {
      assert IndexOf(Keys(r), k) == |m|;
    }
  }

  /** A map's keys never repeat when it is built only by `set`. */
  lemma PutKeepsKeysDistinct<K, V>(m: seq<Entry<K, V>>, k: K, v: V)
    requires Distinct(Keys(m))
    ensures Distinct(Keys(Put(m, k, v)))
  {
  }

  /** The entry at a position is what `get` answers for its key. */
  lemma GetAt<K, V>(m: seq<Entry<K, V>>, i: int)
    requires Distinct(Keys(m)) && 0 <= i < |m|
    ensures Get(m, m[i].key) == Some(m[i].value)
  {
    assert Keys(m)[i] == m[i].key;
    var j := IndexOf(Keys(m), m[i].key);
    assert Keys(m)[j] == Keys(m)[i];
  }

  /**
   * A map whose keys are `ks`, without repeats, and whose `get` answers
   * `f(k)` for each of them lists exactly `f(ks[0]), f(ks[1]), …`.
   */
  lemma ValuesByKeys<K, V>(m: seq<Entry<K, V>>, ks: seq<K>, f: K -> V)
    requires Keys(m) == ks && Distinct(ks)
    requires forall i :: 0 <= i < |ks| ==> Get(m, ks[i]) == Some(f(ks[i]))
    ensures Values(m) == seq(|ks|, i requires 0 <= i < |ks| => f(ks[i]))
  {
    forall i | 0 <= i < |m|
      ensures m[i].value == f(ks[i])
    {
      GetAt(m, i);
    }
  }

  // ---------------------------------------------------------------- first occurrences

  /** The elements of `s` without repeats, each where it first occurs. */
  function Dedup<K(==)>(s: seq<K>): (d: seq<K>)
    ensures Distinct(d)
    ensures forall i :: 0 <= i < |d| ==> d[i] in s
    ensures forall i :: 0 <= i < |s| ==> s[i] in d
  {
    if s == [] then []
    else
      var d := Dedup(s[..|s| - 1]);
      assert forall i :: 0 <= i < |s| - 1 ==> s[i] == s[..|s| - 1][i];
      if s[|s| - 1] in d then d else d + [s[|s| - 1]]
  }

  /** `Dedup` lists elements in the order of their first occurrence. */
  lemma {:induction false} DedupFirstOccurrenceOrder<K>(s: seq<K>, i: int, j: int)
    requires 0 <= i < j < |Dedup(s)|
    ensures IndexOf(s, Dedup(s)[i]) < IndexOf(s, Dedup(s)[j])
  {
    var init, last := s[..|s| - 1], s[|s| - 1];
    var d := Dedup(init);
    assert Dedup(s)[i] in init by {
      if i < |d| {
        assert Dedup(s)[i] == d[i];
      }
    }
    PrefixIndex(s, Dedup(s)[i]);
    if j < |d| {
      assert Dedup(s)[i] == d[i] && Dedup(s)[j] == d[j];
      DedupFirstOccurrenceOrder(init, i, j);
      PrefixIndex(s, Dedup(s)[j]);
    } else {
      assert Dedup(s)[j] == last && last !in d && last !in init;
      assert IndexOf(s, last) == |s| - 1;
    }
  }

  /** Appending elements does not move the first occurrence of one already present. */
  lemma IndexOfAppend<K>(a: seq<K>, b: seq<K>, x: K)
    requires x in a
    ensures x in a + b && IndexOf(a + b, x) == IndexOf(a, x)
  {
    var k := IndexOf(a, x);
    var j := IndexOf(a + b, x);
    assert (a + b)[k] == x;
    assert j <= k;
    assert (a + b)[j] == a[j];
  }

  lemma PrefixIndex<K>(s: seq<K>, x: K)
    requires s != [] && x in s[..|s| - 1]
    ensures IndexOf(s, x) == IndexOf(s[..|s| - 1], x)
  {
    var p := s[..|s| - 1];
    var k := IndexOf(p, x);
    var j := IndexOf(s, x);
    assert s[k] == p[k];
    assert j <= k;
    assert s[j] == p[j];
  }
}
