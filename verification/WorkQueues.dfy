/**
 The deduplicating work queue the controllers run on, without time: a key is
 queued at most once, and a key added while it is processed is queued again
 when its processing is done.
 */
module WorkQueues {
  import opened Wrappers
  import opened Apis

  datatype Queue = Queue(order: seq<ObjectKey>, dirty: set<ObjectKey>, processing: set<ObjectKey>)

  const EMPTY := Queue([], {}, {})

  function Add(q: Queue, k: ObjectKey): Queue {
    if k in q.dirty then q
    else if k in q.processing then q.(dirty := q.dirty + {k})
    else q.(dirty := q.dirty + {k}, order := q.order + [k])
  }

  function AddAll(q: Queue, ks: seq<ObjectKey>): Queue {
    if ks == [] then q else Add(AddAll(q, ks[..|ks| - 1]), ks[|ks| - 1])
  }

  function Take(q: Queue): (ObjectKey, Queue)
    requires q.order != []
  {
    var k := q.order[0];
    (k, Queue(q.order[1..], q.dirty - {k}, q.processing + {k}))
  }

  function Done(q: Queue, k: ObjectKey): Queue {
    var q' := q.(processing := q.processing - {k});
    if k in q.dirty then q'.(order := q.order + [k]) else q'
  }

  /** Queued are exactly the dirty keys nobody works on, each once. */
  ghost predicate Consistent(q: Queue) {
    Enumerates(q.order, q.dirty - q.processing)
  }

  lemma AddIsConsistent(q: Queue, k: ObjectKey)
    requires Consistent(q)
    ensures Consistent(Add(q, k))
    ensures Add(q, k).dirty == q.dirty + {k} && Add(q, k).processing == q.processing
  {
    var q' := Add(q, k);
    assert q'.dirty == q.dirty + {k};
    assert k in q.order <==> k in q.dirty - q.processing;
    forall x ensures x in q'.order <==> x in q'.dirty - q'.processing {
      assert x in q.order <==> x in q.dirty - q.processing;
    }
  }

  lemma {:induction false} AddAllIsConsistent(q: Queue, ks: seq<ObjectKey>)
    requires Consistent(q)
    ensures Consistent(AddAll(q, ks))
    ensures AddAll(q, ks).dirty == q.dirty + (set k | k in ks) && AddAll(q, ks).processing == q.processing
  {
    if ks == [] {
    } else {
      var last := |ks| - 1;
      AddAllIsConsistent(q, ks[..last]);
      AddIsConsistent(AddAll(q, ks[..last]), ks[last]);
      assert ks == ks[..last] + [ks[last]];
    }
  }

  lemma TakeIsConsistent(q: Queue)
    requires Consistent(q) && q.order != []
    ensures var (k, q') := Take(q);
            && Consistent(q')
            && k in q.dirty && k !in q.processing
            && q'.dirty == q.dirty - {k} && q'.processing == q.processing + {k}
  {
    var (k, q') := Take(q);
    assert q.order[0] in q.order;
    forall x ensures x in q'.order <==> x in q'.dirty - q'.processing {
      assert x in q'.order ==> x in q.order;
      if x in q.order && x != k {
        var i :| 0 <= i < |q.order| && q.order[i] == x;
        assert q'.order[i - 1] == x;
      }
    }
  }

  lemma DoneIsConsistent(q: Queue, k: ObjectKey)
    requires Consistent(q) && k in q.processing
    ensures Consistent(Done(q, k))
    ensures Done(q, k).dirty == q.dirty && Done(q, k).processing == q.processing - {k}
  {
    var q' := Done(q, k);
    forall x ensures x in q'.order <==> x in q'.dirty - q'.processing {
      assert x in q.order <==> x in q.dirty - q.processing;
    }
  }

  /** Keys are taken in the order in which they were first added. */
  lemma {:induction false} FirstAddedFirstTaken(keys: seq<ObjectKey>)
    requires NoDuplicates(keys)
    ensures AddAll(EMPTY, keys) == Queue(keys, set k | k in keys, {})
    ensures keys != [] ==> Take(AddAll(EMPTY, keys)).0 == keys[0] && Take(AddAll(EMPTY, keys)).1.order == keys[1..]
  {
    if keys == [] {
    } else {
      var init, last := keys[..|keys| - 1], keys[|keys| - 1];
      assert keys == init + [last];
      FirstAddedFirstTaken(init);
      assert (set k | k in keys) == (set k | k in init) + {last};
      assert last !in init;
    }
  }
}
