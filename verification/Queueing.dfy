/** The work queue as the object the event handlers and the worker share. */
module Queueing {
  import opened Apis
  import opened WorkQueues

  class WorkQueue {
    var order: seq<ObjectKey>
    var dirty: set<ObjectKey>
    var processing: set<ObjectKey>

    function View(): Queue reads this { Queue(order, dirty, processing) }

    constructor ()
      ensures View() == EMPTY
    {
      order, dirty, processing := [], {}, {};
    }

    method Add(k: ObjectKey)
      modifies this
      ensures View() == WorkQueues.Add(old(View()), k)
    {
      if k in dirty {
        return;
      }
      dirty := dirty + {k};
      if k in processing {
        return;
      }
      order := order + [k];
    }

    method Take() returns (k: ObjectKey)
      requires order != []
      modifies this
      ensures (k, View()) == WorkQueues.Take(old(View()))
    {
      k := order[0];
      order := order[1..];
      processing := processing + {k};
      dirty := dirty - {k};
    }

    method Done(k: ObjectKey)
      modifies this
      ensures View() == WorkQueues.Done(old(View()), k)
    {
      processing := processing - {k};
      if k in dirty {
        order := order + [k];
      }
    }
  }

  lemma {:induction false} AddAllConcat(q: Queue, ks: seq<ObjectKey>, more: seq<ObjectKey>)
    ensures AddAll(AddAll(q, ks), more) == AddAll(q, ks + more)
  {
    if more == [] {
      assert ks + more == ks;
    } else {
      var last := |more| - 1;
      AddAllConcat(q, ks, more[..last]);
      assert (ks + more)[..|ks + more| - 1] == ks + more[..last];
    }
  }
}
