/**
 * Dictionaries built by assigning key/value pairs in order, as a Python loop
 * doing `d[k] = v` builds them: a later pair replaces an earlier one with the
 * same key.
 */
module Assoc {
  /** The dictionary after assigning the pairs in order. */
  function Assign<K(==), V>(pairs: seq<(K, V)>): map<K, V> {
    if pairs == [] then map[]
    else Assign(pairs[..|pairs| - 1])[pairs[|pairs| - 1].0 := pairs[|pairs| - 1].1]
  }

  /** Assigning one more pair is one more dictionary update. */
  lemma AssignSnoc<K, V>(pairs: seq<(K, V)>, k: K, v: V)
    ensures Assign(pairs + [(k, v)]) == Assign(pairs)[k := v]
  {
    assert (pairs + [(k, v)])[..|pairs|] == pairs;
  }

  /** The pair at index `i` is the last one with its key. */
  ghost predicate LastOfKey<K, V>(pairs: seq<(K, V)>, i: int)
    requires 0 <= i < |pairs|
  {
    forall j :: i < j < |pairs| ==> pairs[j].0 != pairs[i].0
  }

  /** The keys are the keys of the pairs, and each holds the value of the last pair with it. */
  lemma {:induction false} AssignLastWins<K, V>(pairs: seq<(K, V)>)
    ensures forall k :: k in Assign(pairs) <==> exists i :: 0 <= i < |pairs| && pairs[i].0 == k
    ensures forall i :: 0 <= i < |pairs| && LastOfKey(pairs, i) ==> Assign(pairs)[pairs[i].0] == pairs[i].1
  {
    if pairs != [] {
      var n := |pairs| - 1;
      AssignLastWins(pairs[..n]);
      assert pairs == pairs[..n] + [(pairs[n].0, pairs[n].1)];
      AssignSnoc(pairs[..n], pairs[n].0, pairs[n].1);
      assert forall i :: 0 <= i < n ==> pairs[..n][i] == pairs[i];
      forall i | 0 <= i < |pairs| && LastOfKey(pairs, i)
        ensures Assign(pairs)[pairs[i].0] == pairs[i].1
      {
        if i < n {
          assert LastOfKey(pairs[..n], i);
        }
      }
    }
  }

  /** Every value of the dictionary is the value of some pair with its key. */
  lemma {:induction false} AssignValues<K, V>(pairs: seq<(K, V)>)
    ensures forall k :: k in Assign(pairs) ==> exists i :: 0 <= i < |pairs| && pairs[i] == (k, Assign(pairs)[k])
  {
    if pairs != [] {
      var n := |pairs| - 1;
      AssignValues(pairs[..n]);
      assert forall i :: 0 <= i < n ==> pairs[..n][i] == pairs[i];
    }
  }
}
