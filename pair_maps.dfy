/** Building a map by inserting key/value pairs one after another, as the
    source's loops do with `m[key] = value`: a later pair for a key
    overwrites an earlier one. */
module PairMaps {

  /** The map after inserting the pairs of `ps` in order. */
  function ToMap<K, V>(ps: seq<(K, V)>): map<K, V>
  {
    if ps == [] then map[]
    else ToMap(ps[..|ps| - 1])[ps[|ps| - 1].0 := ps[|ps| - 1].1]
  }

  /** Inserting one more pair. */
  lemma ToMapSnoc<K, V>(ps: seq<(K, V)>, kv: (K, V))
    ensures ToMap(ps + [kv]) == ToMap(ps)[kv.0 := kv.1]
  {
    assert (ps + [kv])[..|ps|] == ps;
  }

  /** A single pair. */
  lemma ToMapOne<K, V>(kv: (K, V))
    ensures ToMap([kv]) == map[kv.0 := kv.1]
  {
    assert [kv][..0] == [];
  }

  /** The keys of the map are exactly the keys of the pairs. */
  lemma {:induction false} ToMapKeys<K, V>(ps: seq<(K, V)>)
    ensures ToMap(ps).Keys == set i | 0 <= i < |ps| :: ps[i].0
  {
    if ps != [] {
      var n := |ps| - 1;
      ToMapKeys(ps[..n]);
      assert forall i :: 0 <= i < n ==> ps[..n][i] == ps[i];
      var before := set i | 0 <= i < n :: ps[i].0;
      assert (set i | 0 <= i < |ps| :: ps[i].0) == before + {ps[n].0};
    }
  }

  /** A key is bound to the value of the last pair that carries it. */
  lemma {:induction false} ToMapLast<K, V>(ps: seq<(K, V)>, i: nat)
    requires i < |ps|
    requires forall j :: i < j < |ps| ==> ps[j].0 != ps[i].0
    ensures ps[i].0 in ToMap(ps) && ToMap(ps)[ps[i].0] == ps[i].1
  {
    var n := |ps| - 1;
    if i < n {
      ToMapLast(ps[..n], i);
    }
  }
}
