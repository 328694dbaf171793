/** JavaScript's `Map`: a key/value table that remembers insertion order.
    `set` on a present key replaces the value in place (the key keeps its
    position); `set` on a new key appends; `delete` removes the entry and
    reports whether it was there. `Contents` forgets the order and gives the
    plain mapping, which is what most properties of the orchestrator are
    stated against. */
module JsMaps {
  import opened Base

  predicate DistinctKeys<K(==), V>(s: seq<(K, V)>) {
    forall i, j :: 0 <= i < j < |s| ==> s[i].0 != s[j].0
  }

  type JsMap<K, V> = s: seq<(K, V)> | DistinctKeys(s) witness []

  /** Position of `k` in the insertion order. */
  function Position<K(==), V>(m: seq<(K, V)>, k: K): (r: Option<nat>)
    ensures r.Some? ==> r.value < |m| && m[r.value].0 == k
    ensures r.None? ==> forall i :: 0 <= i < |m| ==> m[i].0 != k
  {
    if |m| == 0 then None
    else if m[|m| - 1].0 == k then Some(|m| - 1)
    else Position(m[..|m| - 1], k)
  }

  /** The keys present in a table. */
  ghost function KeySet<K, V>(m: seq<(K, V)>): set<K> {
    set i | 0 <= i < |m| :: m[i].0
  }

  /** The mapping a `Map` denotes, order forgotten. */
  ghost function Contents<K, V>(m: JsMap<K, V>): (c: map<K, V>)
    ensures c.Keys == KeySet(m)
    ensures forall i :: 0 <= i < |m| ==> m[i].0 in c && c[m[i].0] == m[i].1
  {
    if |m| == 0 then map[]
    else
      var init: JsMap<K, V> := m[..|m| - 1];
      assert KeySet(m) == KeySet(init) + {m[|m| - 1].0} by {
        assert forall i :: 0 <= i < |init| ==> init[i] == m[i];
      }
      Contents(init)[m[|m| - 1].0 := m[|m| - 1].1]
  }

  /** `map.keys()`, in insertion order. */
  function Keys<K(==), V>(m: JsMap<K, V>): (ks: seq<K>)
    ensures |ks| == |m|
    ensures forall i :: 0 <= i < |m| ==> ks[i] == m[i].0
  {
    seq(|m|, i requires 0 <= i < |m| => m[i].0)
  }

  /** `map.values()`, in insertion order. */
  function Values<K(==), V>(m: JsMap<K, V>): (vs: seq<V>)
    ensures |vs| == |m|
    ensures forall i :: 0 <= i < |m| ==> vs[i] == m[i].1
  {
    seq(|m|, i requires 0 <= i < |m| => m[i].1)
  }

  /** `map.get(k)`, with `undefined` as `None`. */
  function Get<K(==), V>(m: JsMap<K, V>, k: K): (r: Option<V>)
    ensures r.Some? <==> k in Contents(m)
    ensures r.Some? ==> r.value == Contents(m)[k]
  {
    match Position(m, k)
    case Some(i) => Some(m[i].1)
    case None => None
  }

  /** `map.has(k)`. */
  function Has<K(==), V>(m: JsMap<K, V>, k: K): (b: bool)
    ensures b <==> k in Contents(m)
  {
    Position(m, k).Some?
  }

  /** `map.set(k, v)`. */
  function Set<K(==), V>(m: JsMap<K, V>, k: K, v: V): (r: JsMap<K, V>)
    ensures Contents(r) == Contents(m)[k := v]
    ensures k in Contents(m) ==> Keys(r) == Keys(m)
    ensures k !in Contents(m) ==> Keys(r) == Keys(m) + [k]
  {
    match Position(m, k)
    case Some(i) => ReplaceAt(m, i, v)
    case None => Append(m, k, v)
  }

  function ReplaceAt<K, V>(m: JsMap<K, V>, i: nat, v: V): (r: JsMap<K, V>)
    requires i < |m|
    ensures Contents(r) == Contents(m)[m[i].0 := v]
    ensures Keys(r) == Keys(m)
  {
    var r: seq<(K, V)> := m[i := (m[i].0, v)];
    assert forall j :: 0 <= j < |m| ==> r[j].0 == m[j].0;
    assert KeySet(r) == KeySet(m);
    ContentsExtensional(r, Contents(m)[m[i].0 := v]);
    r
  }

  function Append<K, V>(m: JsMap<K, V>, k: K, v: V): (r: JsMap<K, V>)
    requires k !in Contents(m)
    ensures Contents(r) == Contents(m)[k := v]
    ensures Keys(r) == Keys(m) + [k]
  {
    AppendDistinct(m, k, v);
    AppendContents(m, k, v);
    AppendKeys(m, k, v);
    m + [(k, v)]
  }

  lemma AppendDistinct<K, V>(m: JsMap<K, V>, k: K, v: V)
    requires k !in Contents(m)
    ensures DistinctKeys(m + [(k, v)])
  {
    assert forall j :: 0 <= j < |m| ==> m[j].0 != k;
    assert forall j :: 0 <= j < |m| ==> (m + [(k, v)])[j] == m[j];
  }

  lemma AppendContents<K, V>(m: JsMap<K, V>, k: K, v: V)
    requires DistinctKeys(m + [(k, v)])
    ensures Contents(m + [(k, v)]) == Contents(m)[k := v]
  {
    var r: JsMap<K, V> := m + [(k, v)];
    assert r[..|m|] == m;
  }

  lemma AppendKeys<K, V>(m: JsMap<K, V>, k: K, v: V)
    requires DistinctKeys(m + [(k, v)])
    ensures Keys(m + [(k, v)]) == Keys(m) + [k]
  {
    var r: JsMap<K, V> := m + [(k, v)];
    forall i | 0 <= i < |r| ensures Keys(r)[i] == (Keys(m) + [k])[i] {
      if i < |m| { assert r[i] == m[i]; }
    }
  }

  function RemoveAt<K, V>(m: JsMap<K, V>, i: nat): (r: JsMap<K, V>)
    requires i < |m|
    ensures Contents(r) == Contents(m) - {m[i].0}
    ensures forall j :: 0 <= j < |r| ==> r[j].0 != m[i].0
    ensures |r| == |m| - 1
    ensures r == m[..i] + m[i + 1..]
  {
    var r: seq<(K, V)> := m[..i] + m[i + 1..];
    assert forall j :: 0 <= j < |r| ==> r[j] == (if j < i then m[j] else m[j + 1]);
    assert DistinctKeys(r);
    assert KeySet(r) == KeySet(m) - {m[i].0} by {
      forall k | k in KeySet(m) - {m[i].0}
        ensures k in KeySet(r)
      {
        var j :| 0 <= j < |m| && m[j].0 == k;
        if j < i {
          assert r[j].0 == k;
        } else {
          assert r[j - 1].0 == k;
        }
      }
    }
    ContentsExtensional(r, Contents(m) - {m[i].0});
    r
  }

  /** The table left by `map.delete(k)`; its answer, whether `k` was
      present, is `Has(m, k)` beforehand. */
  function Delete<K(==), V>(m: JsMap<K, V>, k: K): (r: JsMap<K, V>)
    ensures Contents(r) == Contents(m) - {k}
    ensures forall i :: 0 <= i < |r| ==> r[i].0 != k
    ensures k !in Contents(m) ==> r == m
    ensures k in Contents(m) ==> |r| == |m| - 1
    ensures k in Contents(m) ==> exists i :: 0 <= i < |m| && m[i].0 == k && r == m[..i] + m[i + 1..]
  {
    match Position(m, k)
    case Some(i) => RemoveAt(m, i)
    case None => m
  }

  /** A table's contents are pinned down by its entries: any map that agrees
      with every entry and has no other key is its `Contents`. */
  lemma ContentsExtensional<K, V>(m: JsMap<K, V>, c: map<K, V>)
    requires c.Keys == KeySet(m)
    requires forall i :: 0 <= i < |m| ==> m[i].0 in c && c[m[i].0] == m[i].1
    ensures Contents(m) == c
  {
    var d := Contents(m);
    forall k | k in c
      ensures d[k] == c[k]
    {
      var i :| 0 <= i < |m| && m[i].0 == k;
    }
  }

  /** The keys of a table are distinct and are exactly the keys of its contents. */
  lemma KeysAreContentsKeys<K, V>(m: JsMap<K, V>)
    ensures forall i, j :: 0 <= i < j < |Keys(m)| ==> Keys(m)[i] != Keys(m)[j]
    ensures forall k :: k in Keys(m) <==> k in Contents(m)
  {
    forall k | k in Contents(m)
      ensures k in Keys(m)
    {
      var i :| 0 <= i < |m| && m[i].0 == k;
      assert Keys(m)[i] == k;
    }
  }

  /** Setting a key to the value it already has changes nothing, order included. */
  lemma SetSameValue<K, V>(m: JsMap<K, V>, k: K)
    requires k in Contents(m)
    ensures Set(m, k, Contents(m)[k]) == m
  {
    var i := Position(m, k).value;
    assert m[i := (k, Contents(m)[k])] == m;
  }

  /** A second `set` of the same key overwrites the first, in place. */
  lemma SetTwice<K, V>(m: JsMap<K, V>, k: K, a: V, b: V)
    ensures Contents(Set(Set(m, k, a), k, b)) == Contents(m)[k := b]
    ensures Keys(Set(Set(m, k, a), k, b)) == Keys(Set(m, k, a))
  {
    var once := Set(m, k, a);
    var twice := Set(once, k, b);
    assert k in Contents(once);
    assert Contents(twice) == Contents(once)[k := b];
    UpdateTwice(Contents(m), k, a, b);
  }

  // Facts about plain maps, kept out of the proofs that use them

  lemma UpdateTwice<K, V>(c: map<K, V>, k: K, a: V, b: V)
    ensures c[k := a][k := b] == c[k := b]
  {
  }

  lemma RemoveThenUpdate<K, V>(c: map<K, V>, k: K, v: V)
    ensures (c - {k})[k := v] == c[k := v]
  {
  }

  lemma UpdateThenRemove<K, V>(c: map<K, V>, k: K, v: V)
    ensures c[k := v] - {k} == c - {k}
  {
  }

  lemma RemoveTwice<K, V>(c: map<K, V>, k: K)
    ensures (c - {k}) - {k} == c - {k}
  {
  }

  lemma RemoveOther<K, V>(c: map<K, V>, k: K, other: K)
    requires other != k && other in c
    ensures other in c - {k} && (c - {k})[other] == c[other]
  {
  }

  /** `values()` lists, position by position, the contents of each key, and
      exactly the values of the contents. */
  lemma ValuesAreContents<K, V>(m: JsMap<K, V>)
    ensures forall i :: 0 <= i < |m| ==> Values(m)[i] == Contents(m)[m[i].0]
    ensures forall v :: v in Values(m) <==> exists k :: k in Contents(m) && Contents(m)[k] == v
  {
    var vs := Values(m);
    forall v | v in vs
      ensures exists k :: k in Contents(m) && Contents(m)[k] == v
    {
      var i :| 0 <= i < |vs| && vs[i] == v;
      assert m[i].0 in Contents(m);
    }
    forall v | exists k :: k in Contents(m) && Contents(m)[k] == v
      ensures v in vs
    {
      var k :| k in Contents(m) && Contents(m)[k] == v;
      var i :| 0 <= i < |m| && m[i].0 == k;
      assert vs[i] == v;
    }
  }

  /** A table has one entry per key of its contents. */
  lemma {:induction false} ContentsSize<K, V>(m: JsMap<K, V>)
    ensures |Contents(m)| == |m|
  {
    if |m| > 0 {
      var init: JsMap<K, V> := m[..|m| - 1];
      ContentsSize(init);
      LastKeyFresh(m);
      InsertSize(Contents(init), m[|m| - 1].0, m[|m| - 1].1);
    }
  }

  /** The last key of a table is not among the keys before it. */
  lemma LastKeyFresh<K, V>(m: JsMap<K, V>)
    requires |m| > 0
    ensures m[|m| - 1].0 !in Contents(m[..|m| - 1])
  {
    var init: JsMap<K, V> := m[..|m| - 1];
    forall i | 0 <= i < |init|
      ensures init[i].0 != m[|m| - 1].0
    {
      assert init[i] == m[i];
    }
  }

  lemma InsertSize<K, V>(c: map<K, V>, k: K, v: V)
    requires k !in c
    ensures |c[k := v]| == |c| + 1
  {
    assert c[k := v].Keys == c.Keys + {k};
  }

}
