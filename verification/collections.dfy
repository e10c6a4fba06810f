/** Sequence and map helpers for the attribute lists and the name-keyed maps
    built by the definition layer. */
module Collections {

  /** `s` with the element at index `k` removed, the rest in order. */
  function RemoveAt<T>(s: seq<T>, k: nat): seq<T>
    requires k < |s|
  {
    s[..k] + s[k + 1..]
  }

  /** No later element of `s` equals `s[i]`. */
  predicate IsLastOccurrence<T(==)>(s: seq<T>, i: int) {
    0 <= i < |s| && forall j :: i < j < |s| ==> s[j] != s[i]
  }

  /** The map left behind by `m[keys[i]] = values[i]` for i = 0, 1, ...,
      starting from the empty object. */
  function Assign<V>(keys: seq<string>, values: seq<V>): map<string, V>
    requires |keys| == |values|
    decreases |keys|
  {
    if |keys| == 0 then map[]
    else
      var n := |keys| - 1;
      Assign(keys[..n], values[..n])[keys[n] := values[n]]
  }

  /** The keys of the assigned map are exactly the given keys, and a key that
      occurs several times holds the value of its last assignment. */
  lemma {:induction false} AssignContents<V>(keys: seq<string>, values: seq<V>)
    requires |keys| == |values|
    ensures forall k :: k in Assign(keys, values) <==> k in keys
    ensures forall i :: IsLastOccurrence(keys, i) ==> Assign(keys, values)[keys[i]] == values[i]
    decreases |keys|
  {
    if |keys| > 0 {
      var n := |keys| - 1;
      AssignContents(keys[..n], values[..n]);
      forall k
        ensures k in Assign(keys, values) <==> k in keys
      {
        assert k in keys <==> k in keys[..n] || k == keys[n] by {
          assert keys == keys[..n] + [keys[n]];
        }
      }
      forall i | IsLastOccurrence(keys, i)
        ensures Assign(keys, values)[keys[i]] == values[i]
      {
        if i < n {
          assert IsLastOccurrence(keys[..n], i);
        }
      }
    }
  }
}
