module Common {
  datatype Option<+T> = None | Some(value: T)

  type Byte = b: int | 0 <= b < 256
  type Bytes = seq<Byte>

  // ----- counting -----

  /** A map has no more values than keys. */
  lemma {:induction false} NoMoreValues<K, V>(keys: set<K>, values: set<V>, at: map<K, V>)
    requires at.Keys == keys && forall i :: i in values ==> exists k :: k in keys && at[k] == i
    ensures |values| <= |keys|
    decreases keys
  {
    if keys == {} {
      assert values == {};
    } else {
      var k :| k in keys;
      var left, fewer := values - {at[k]}, at - {k};
      forall i | i in left ensures exists l :: l in keys - {k} && fewer[l] == i {
        var l :| l in keys && at[l] == i;
        assert fewer[l] == i;
      }
      NoMoreValues(keys - {k}, left, fewer);
      assert left + {at[k]} == values + {at[k]};
    }
  }

  /** And no fewer, when no two keys share one. */
  lemma {:induction false} NoFewerValues<K, V>(keys: set<K>, values: set<V>, at: map<K, V>)
    requires at.Keys == keys && forall k :: k in keys ==> at[k] in values
    requires forall k, l :: k in keys && l in keys && k != l ==> at[k] != at[l]
    ensures |keys| <= |values|
    decreases keys
  {
    if keys != {} {
      var k :| k in keys;
      NoFewerValues(keys - {k}, values - {at[k]}, at - {k});
    }
  }
}
