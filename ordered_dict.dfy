/**
 * A Python `dict` as the recipe resolver uses it: a finite map together with
 * the order in which its keys were first inserted. Iterating a Python dict
 * visits its keys in that order, and assigning to an existing key keeps the
 * key where it is.
 */
module OrderedDict {
  datatype Dict<K(==,!new), V> = Dict(keys: seq<K>, entries: map<K, V>)
  {
    /** Every key is listed once, and the listed keys are exactly the keys with an entry. */
    ghost predicate Valid() {
      && (forall i, j :: 0 <= i < j < |keys| ==> keys[i] != keys[j])
      && (forall k :: k in entries <==> k in keys)
    }

    /** `d[k] = v` */
    function Put(k: K, v: V): (d: Dict<K, V>)
      requires Valid()
      ensures d.Valid()
      ensures k in d.entries && d.entries[k] == v
      ensures forall k' :: k' != k ==> (k' in d.entries <==> k' in entries)
      ensures forall k' :: k' != k && k' in entries ==> d.entries[k'] == entries[k']
      // keys already present keep their position; a new key goes last
      ensures |keys| <= |d.keys| <= |keys| + 1 && d.keys[..|keys|] == keys
      ensures |d.keys| == |keys| + 1 ==> d.keys[|keys|] == k
    {
      Dict(if k in entries then keys else keys + [k], entries[k := v])
    }
  }

  /** The distinct items of `ks`, each at the place of its first occurrence. */
  function FirstOccurrences<K(==,!new)>(ks: seq<K>): (u: seq<K>)
    ensures forall k :: k in u <==> k in ks
    ensures forall i, j :: 0 <= i < j < |u| ==> u[i] != u[j]
  {
    if ks == [] then []
    else
      var pre := ks[..|ks| - 1];
      var u := FirstOccurrences(pre);
      assert ks == pre + [ks[|ks| - 1]];
      if ks[|ks| - 1] in u then u else u + [ks[|ks| - 1]]
  }

  /**
   * `FirstOccurrences` keeps the order of first occurrence: whenever the
   * item at position b occurs in `ks`, the item at an earlier position a has
   * already occurred.
   */
  lemma {:induction false} FirstOccurrencesOrder<K(!new)>(ks: seq<K>, a: nat, b: nat, i: nat)
    requires a < b < |FirstOccurrences(ks)|
    requires i < |ks| && ks[i] == FirstOccurrences(ks)[b]
    ensures exists j :: 0 <= j < i && ks[j] == FirstOccurrences(ks)[a]
  {
    var n := |ks|;
    var pre := ks[..n - 1];
    var up := FirstOccurrences(pre);
    var u := FirstOccurrences(ks);
    assert ks == pre + [ks[n - 1]];
    assert u == up || u == up + [ks[n - 1]];
    if b < |up| {
      assert u[a] == up[a] && u[b] == up[b];
      // an occurrence of u[b] inside the prefix, at or before i
      var i' := i;
      if i == n - 1 {
        assert up[b] in pre;
        i' :| 0 <= i' < n - 1 && pre[i'] == up[b];
      }
      assert pre[i'] == up[b];
      FirstOccurrencesOrder(pre, a, b, i');
      var j :| 0 <= j < i' && pre[j] == up[a];
      assert ks[j] == u[a];
    } else {
      // u[b] is the last item, new at position n - 1
      assert u == up + [ks[n - 1]] && b == |up|;
      assert ks[n - 1] !in pre;
      assert i == n - 1;
      assert u[a] == up[a] && up[a] in pre;
      var j :| 0 <= j < n - 1 && pre[j] == up[a];
      assert ks[j] == u[a];
    }
  }

  /** Putting keys one after another lists them in the order of their first putting. */
  lemma PutKeys<K(!new), V>(d: Dict<K, V>, ks: seq<K>, k: K, v: V)
    requires d.Valid() && d.keys == FirstOccurrences(ks)
    ensures d.Put(k, v).keys == FirstOccurrences(ks + [k])
  {
  }

  /** Putting a new key twice leaves the dict as putting it once with the second value. */
  lemma PutTwice<K(!new), V>(d: Dict<K, V>, k: K, v: V, w: V)
    requires d.Valid() && k !in d.entries
    ensures d.Put(k, v).Put(k, w) == d.Put(k, w)
  {
  }
}
