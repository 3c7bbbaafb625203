/**
 * A JavaScript object used as a string-keyed dictionary
 * (`{ [key: string]: V }`): an association list in insertion order, which is
 * the order `Object.keys` reports for keys that are not array indices.
 */
module Dict {
  import opened Wrappers

  type Dict<V> = seq<(string, V)>

  /** No key appears twice. */
  predicate DistinctKeys<V>(d: Dict<V>)
  {
    forall i, j :: 0 <= i < j < |d| ==> d[i].0 != d[j].0
  }

  predicate HasKey<V>(d: Dict<V>, k: string)
  {
    exists i :: 0 <= i < |d| && d[i].0 == k
  }

  /** `d[k]`, with `undefined` read as `None`. */
  function Get<V>(d: Dict<V>, k: string): (r: Option<V>)
    ensures r.None? <==> !HasKey(d, k)
    ensures r.Some? ==> exists i :: 0 <= i < |d| && d[i] == (k, r.value)
    decreases |d|
  {
    if d == [] then None
    else if d[0].0 == k then Some(d[0].1)
    else
      var r := Get(d[1..], k);
      assert r.Some? ==> exists i :: 0 <= i < |d[1..]| && d[1..][i] == (k, r.value);
      assert HasKey(d[1..], k) ==> HasKey(d, k) by {
        if HasKey(d[1..], k) {
          var i :| 0 <= i < |d[1..]| && d[1..][i].0 == k;
          assert d[i + 1].0 == k;
        }
      }
      r
  }

  /** `k => d[k]`: the dictionary read as a function. */
  function Lookup<V>(d: Dict<V>): string -> Option<V>
  {
    k => Get(d, k)
  }

  /** `{ ...d, [k]: v }`: an existing key keeps its place and takes the new value; a new key goes last. */
  function Set<V>(d: Dict<V>, k: string, v: V): (r: Dict<V>)
    decreases |d|
  {
    if d == [] then [(k, v)]
    else if d[0].0 == k then [(k, v)] + d[1..]
    else [d[0]] + Set(d[1..], k, v)
  }

  /** `delete d[k]` on a copy: every entry with that key goes, the others keep their order. */
  function Delete<V>(d: Dict<V>, k: string): (r: Dict<V>)
    ensures |r| <= |d|
    ensures !HasKey(r, k)
    decreases |d|
  {
    if d == [] then []
    else if d[0].0 == k then Delete(d[1..], k)
    else [d[0]] + Delete(d[1..], k)
  }

  /** The keys of a dictionary with one entry in front: that entry's key and the rest's. */
  lemma HasKeyCons<V>(k: string, v: V, t: Dict<V>, j: string)
    ensures HasKey([(k, v)] + t, j) <==> k == j || HasKey(t, j)
  {
    var r := [(k, v)] + t;
    if HasKey(r, j) {
      var i :| 0 <= i < |r| && r[i].0 == j;
      if i > 0 {
        assert t[i - 1].0 == j;
      }
    }
    if HasKey(t, j) {
      var i :| 0 <= i < |t| && t[i].0 == j;
      assert r[i + 1].0 == j;
    }
    if k == j {
      assert r[0].0 == j;
    }
  }

  /** The set keys of a dictionary: the key set grows by `k` and nothing else. */
  lemma {:induction false} SetKeys<V>(d: Dict<V>, k: string, v: V, j: string)
    ensures HasKey(Set(d, k, v), j) <==> HasKey(d, j) || j == k
    decreases |d|
  {
    if d == [] {
      HasKeyCons(k, v, [], j);
      assert [(k, v)] + [] == [(k, v)];
    } else {
      assert d == [(d[0].0, d[0].1)] + d[1..];
      HasKeyCons(d[0].0, d[0].1, d[1..], j);
      if d[0].0 == k {
        HasKeyCons(k, v, d[1..], j);
      } else {
        SetKeys(d[1..], k, v, j);
        assert Set(d, k, v) == [(d[0].0, d[0].1)] + Set(d[1..], k, v);
        HasKeyCons(d[0].0, d[0].1, Set(d[1..], k, v), j);
      }
    }
  }

  /** Reading back a key just set gives the new value; every other key reads as before. */
  lemma {:induction false} GetSet<V>(d: Dict<V>, k: string, v: V, j: string)
    ensures Get(Set(d, k, v), j) == if j == k then Some(v) else Get(d, j)
    decreases |d|
  {
    if d != [] && d[0].0 != k {
      GetSet(d[1..], k, v, j);
      assert Set(d, k, v)[1..] == Set(d[1..], k, v);
    } else if d != [] {
      assert Set(d, k, v)[1..] == d[1..];
    }
  }

  /** Setting keeps the keys distinct. */
  lemma {:induction false} SetDistinct<V>(d: Dict<V>, k: string, v: V)
    requires DistinctKeys(d)
    ensures DistinctKeys(Set(d, k, v))
    decreases |d|
  {
    if d != [] && d[0].0 != k {
      SetDistinct(d[1..], k, v);
      assert !HasKey(d[1..], d[0].0) by {
        forall i | 0 <= i < |d[1..]| ensures d[1..][i].0 != d[0].0 {
          assert d[1..][i] == d[i + 1];
        }
      }
      SetKeys(d[1..], k, v, d[0].0);
    }
  }

  /** Deleting a key leaves it unreadable and every other key reads as before. */
  lemma {:induction false} GetDelete<V>(d: Dict<V>, k: string, j: string)
    ensures Get(Delete(d, k), j) == if j == k then None else Get(d, j)
    decreases |d|
  {
    if d != [] {
      GetDelete(d[1..], k, j);
    }
  }

  /** Deleting a key that is not there changes nothing. */
  lemma {:induction false} DeleteAbsent<V>(d: Dict<V>, k: string)
    requires !HasKey(d, k)
    ensures Delete(d, k) == d
    decreases |d|
  {
    if d != [] {
      assert !HasKey(d[1..], k) by {
        forall i | 0 <= i < |d[1..]| ensures d[1..][i].0 != k {
          assert d[1..][i] == d[i + 1];
        }
      }
      DeleteAbsent(d[1..], k);
    }
  }
}
