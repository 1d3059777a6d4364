/** Result types shared by every component of the model. */
module Wrappers {

  datatype Option<+T> = None | Some(value: T)

  /** A computation that may return an error; the error text is not modelled. */
  datatype Result<+T> = Ok(value: T) | Err

  /** What a lister answers: an object, a NotFound error, or any other error. */
  datatype Lookup<+T> = Found(value: T) | NotFound | Failed

  function Get<K, V>(m: map<K, V>, k: K): Option<V> {
    if k in m then Some(m[k]) else None
  }

  function GetOr<K, V>(m: map<K, V>, k: K, default: V): V {
    if k in m then m[k] else default
  }

  ghost predicate NoDuplicates<T>(s: seq<T>) {
    forall i, j :: 0 <= i < j < |s| ==> s[i] != s[j]
  }

  /** `s` visits every member of `keys` exactly once: one iteration order of a Go map. */
  ghost predicate Enumerates<T(!new)>(s: seq<T>, keys: set<T>) {
    && NoDuplicates(s)
    && forall x :: x in s <==> x in keys
  }

  lemma EnumeratesOneMore<T(!new)>(s: seq<T>, keys: set<T>, x: T)
    requires Enumerates(s, keys) && x !in keys
    ensures Enumerates(s + [x], keys + {x})
  {
  }

  /** Every finite set can be enumerated. */
  lemma {:induction false} SomeOrder<T(!new)>(keys: set<T>) returns (order: seq<T>)
    ensures Enumerates(order, keys)
    decreases keys
  {
    if keys == {} {
      order := [];
    } else {
      var k :| k in keys;
      order := SomeOrder(keys - {k});
      order := order + [k];
    }
  }

  lemma MembersArePermuted<T(!new)>(xs: seq<T>, ys: seq<T>)
    requires multiset(xs) == multiset(ys)
    ensures forall x :: x in xs <==> x in ys
  {
    forall x ensures x in xs <==> x in ys {
      assert x in xs <==> x in multiset(xs);
      assert x in ys <==> x in multiset(ys);
    }
  }
}
