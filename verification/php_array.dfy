/** A PHP array as the behaviour uses it: an ordered list of key/value pairs
    with distinct keys. Assigning to a present key replaces its value in
    place; assigning to a new key appends; `unset` removes the pair. */
module PhpArray {
  import opened Outcomes

  function KeysOf<K, V>(m: seq<(K, V)>): set<K> {
    set i | 0 <= i < |m| :: m[i].0
  }

  /** The well-formedness every PHP array has: no key twice. */
  predicate UniqueKeys<K(==), V>(m: seq<(K, V)>) {
    forall i, j :: 0 <= i < j < |m| ==> m[i].0 != m[j].0
  }

  /** `$m[$k]` when the key is present, `None` where PHP would read null. */
  function Get<K(==), V>(m: seq<(K, V)>, k: K): (r: Option<V>)
    ensures r.Some? <==> k in KeysOf(m)
    decreases |m|
  {
    if |m| == 0 then None
    else if m[0].0 == k then Some(m[0].1)
    else
      KeysOfCons(m[0], m[1..]);
      assert m == [m[0]] + m[1..];
      Get(m[1..], k)
  }

  /** `$m[$k] = $v`. */
  function Set<K(==,!new), V>(m: seq<(K, V)>, k: K, v: V): (r: seq<(K, V)>)
    ensures KeysOf(r) == KeysOf(m) + {k}
    ensures Get(r, k) == Some(v)
    ensures forall k' :: k' != k ==> Get(r, k') == Get(m, k')
    decreases |m|
  {
    if |m| == 0 then
      KeysOfCons((k, v), []);
      [(k, v)]
    else if m[0].0 == k then
      KeysOfCons(m[0], m[1..]);
      KeysOfCons((k, v), m[1..]);
      assert m == [m[0]] + m[1..];
      [(k, v)] + m[1..]
    else
      var t := Set(m[1..], k, v);
      var r := [m[0]] + t;
      assert r[1..] == t;
      assert m == [m[0]] + m[1..];
      KeysOfCons(m[0], m[1..]);
      KeysOfCons(m[0], t);
      r
  }

  /** Assignment keeps a well-formed array well-formed: a present key keeps its
      position, a new key goes to the end. */
  lemma SetShape<K(!new), V>(m: seq<(K, V)>, k: K, v: V)
    requires UniqueKeys(m)
    ensures UniqueKeys(Set(m, k, v))
    ensures k in KeysOf(m) ==> |Set(m, k, v)| == |m|
    ensures k !in KeysOf(m) ==> Set(m, k, v) == m + [(k, v)]
    ensures k in KeysOf(m) ==>
              forall i :: 0 <= i < |m| ==> Set(m, k, v)[i] == (if m[i].0 == k then (k, v) else m[i])
  {
    SetKeepsUnique(m, k, v);
    SetLength(m, k, v);
    if k !in KeysOf(m) {
      SetAppends(m, k, v);
    } else {
      SetInPlace(m, k, v);
    }
  }

  lemma {:induction false} SetInPlace<K(!new), V>(m: seq<(K, V)>, k: K, v: V)
    requires UniqueKeys(m) && k in KeysOf(m)
    ensures |Set(m, k, v)| == |m|
    ensures forall i :: 0 <= i < |m| ==> Set(m, k, v)[i] == (if m[i].0 == k then (k, v) else m[i])
    decreases |m|
  {
    SetLength(m, k, v);
    assert m == [m[0]] + m[1..];
    UniqueCons(m[0], m[1..]);
    KeysOfCons(m[0], m[1..]);
    var r := Set(m, k, v);
    if m[0].0 == k {
      assert r == [(k, v)] + m[1..];
      forall i | 0 < i < |m| ensures m[i].0 != k {
        assert m[i] == m[1..][i - 1];
        assert m[1..][i - 1].0 in KeysOf(m[1..]);
      }
    } else {
      SetInPlace(m[1..], k, v);
      assert r == [m[0]] + Set(m[1..], k, v);
      forall i | 0 < i < |m| ensures r[i] == (if m[i].0 == k then (k, v) else m[i]) {
        assert r[i] == Set(m[1..], k, v)[i - 1] && m[i] == m[1..][i - 1];
      }
    }
  }

  lemma {:induction false} SetKeepsUnique<K(!new), V>(m: seq<(K, V)>, k: K, v: V)
    requires UniqueKeys(m)
    ensures UniqueKeys(Set(m, k, v))
    decreases |m|
  {
    if |m| > 0 {
      assert m == [m[0]] + m[1..];
      UniqueCons(m[0], m[1..]);
      if m[0].0 == k {
        assert Set(m, k, v) == [(k, v)] + m[1..];
        UniqueCons((k, v), m[1..]);
      } else {
        SetKeepsUnique(m[1..], k, v);
        var t := Set(m[1..], k, v);
        assert Set(m, k, v) == [m[0]] + t;
        UniqueCons(m[0], t);
      }
    }
  }

  lemma {:induction false} SetLength<K(!new), V>(m: seq<(K, V)>, k: K, v: V)
    ensures k in KeysOf(m) ==> |Set(m, k, v)| == |m|
    ensures k !in KeysOf(m) ==> |Set(m, k, v)| == |m| + 1
    decreases |m|
  {
    if |m| > 0 {
      assert m == [m[0]] + m[1..];
      KeysOfCons(m[0], m[1..]);
      if m[0].0 != k {
        SetLength(m[1..], k, v);
      }
    }
  }

  lemma {:induction false} SetAppends<K(!new), V>(m: seq<(K, V)>, k: K, v: V)
    requires k !in KeysOf(m)
    ensures Set(m, k, v) == m + [(k, v)]
    decreases |m|
  {
    if |m| > 0 {
      assert m == [m[0]] + m[1..];
      KeysOfCons(m[0], m[1..]);
      SetAppends(m[1..], k, v);
      assert [m[0]] + (m[1..] + [(k, v)]) == m + [(k, v)];
    }
  }

  lemma UniqueCons<K, V>(p: (K, V), t: seq<(K, V)>)
    ensures UniqueKeys([p] + t) <==> p.0 !in KeysOf(t) && UniqueKeys(t)
  {
    var m := [p] + t;
    assert forall i :: 0 <= i < |t| ==> m[i + 1] == t[i];
    if UniqueKeys(m) {
      forall i, j | 0 <= i < j < |t| ensures t[i].0 != t[j].0 {
        assert m[i + 1] == t[i] && m[j + 1] == t[j];
      }
      forall i | 0 <= i < |t| ensures t[i].0 != p.0 {
        assert m[i + 1] == t[i] && m[0] == p;
      }
    }
    if p.0 !in KeysOf(t) && UniqueKeys(t) {
      forall i, j | 0 <= i < j < |m| ensures m[i].0 != m[j].0 {
        assert m[j] == t[j - 1];
        if i > 0 {
          assert m[i] == t[i - 1];
        } else {
          assert t[j - 1].0 in KeysOf(t);
        }
      }
    }
  }

  /** `unset($m[$k])`. */
  function Unset<K(==,!new), V>(m: seq<(K, V)>, k: K): (r: seq<(K, V)>)
    ensures KeysOf(r) == KeysOf(m) - {k}
    ensures Get(r, k) == None
    ensures UniqueKeys(m) ==> forall k' :: k' != k ==> Get(r, k') == Get(m, k')
    ensures UniqueKeys(m) ==> UniqueKeys(r)
    decreases |m|
  {
    if |m| == 0 then m
    else
      var t := Unset(m[1..], k);
      assert m == [m[0]] + m[1..];
      KeysOfCons(m[0], m[1..]);
      if m[0].0 == k then t
      else
        var r := [m[0]] + t;
        assert r[1..] == t;
        KeysOfCons(m[0], t);
        r
  }

  lemma KeysOfCons<K, V>(p: (K, V), t: seq<(K, V)>)
    ensures KeysOf([p] + t) == {p.0} + KeysOf(t)
  {
    var m := [p] + t;
    assert forall i :: 0 <= i < |t| ==> m[i + 1] == t[i];
    assert m[0] == p;
  }

  /** In a well-formed array, reading the key at a position yields that position's value. */
  lemma {:induction false} GetAt<K, V>(m: seq<(K, V)>, j: nat)
    requires UniqueKeys(m) && j < |m|
    ensures Get(m, m[j].0) == Some(m[j].1)
    decreases j
  {
    if j > 0 {
      assert m[1..][j - 1] == m[j];
      GetAt(m[1..], j - 1);
    }
  }

  /** In a well-formed array a present key is read at the position that holds it. */
  lemma GetByPosition<K, V>(m: seq<(K, V)>, k: K)
    ensures UniqueKeys(m) ==> forall j :: 0 <= j < |m| && m[j].0 == k ==> Get(m, k) == Some(m[j].1)
    ensures k in KeysOf(m) ==> exists j :: 0 <= j < |m| && m[j].0 == k
  {
    if UniqueKeys(m) {
      forall j | 0 <= j < |m| && m[j].0 == k ensures Get(m, k) == Some(m[j].1) {
        GetAt(m, j);
      }
    }
  }

  /** Splitting off the first pair of a well-formed array. */
  lemma KeysOfTail<K, V>(m: seq<(K, V)>)
    requires |m| > 0 && UniqueKeys(m)
    ensures KeysOf(m) == {m[0].0} + KeysOf(m[1..])
    ensures m[0].0 !in KeysOf(m[1..])
  {
    assert forall i :: 0 <= i < |m[1..]| ==> m[1..][i] == m[i + 1];
  }
}
