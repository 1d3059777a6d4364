/**
 That the controller comes to rest: steps that nothing disturbs lead closer to
 it, one is possible until it is reached, and so it is reached.
 */
module Rest {
  import opened Wrappers
  import opened Apis
  import opened Definitions
  import opened Lifecycle
  import opened Refinement
  import opened Reuse
  import opened WorkQueues
  import opened Events
  import opened Convergence
  import DomainKeys

  // ----- A measure of what is left to do -----

  /** The keys a handler can still queue for the first time, and its end. */
  function HandlerWork(h: Handler): nat { 1 + |Candidates(h) - h.added| }

  function TotalWork(hs: seq<Handler>): nat {
    if hs == [] then 0 else HandlerWork(hs[0]) + TotalWork(hs[1..])
  }

  function WorkerWork(w: World): nat { 2 * |w.queue.dirty| + if w.worker.Working? then 1 else 0 }

  /** Fewer notifications; or as many, and less in the handlers' hands; or less to retry; or less to process. */
  predicate Closer(w': World, w: World) {
    || |w'.pending| < |w.pending|
    || (|w'.pending| == |w.pending|
        && (|| TotalWork(w'.handlers) < TotalWork(w.handlers)
            || (TotalWork(w'.handlers) == TotalWork(w.handlers)
                && (|| |w'.waiting| < |w.waiting|
                    || (|w'.waiting| == |w.waiting| && WorkerWork(w') < WorkerWork(w))))))
  }

  /**
   What can keep the controller from resting: cache changes, resyncs, a key
   queued twice by one handler, and a reconcile that fails and has to wait.
   */
  ghost predicate Disturbs(w: World, w': World, a: Action) {
    || a.CacheAction?
    || a.ResyncAction?
    || (a.QueueAction? && a.index < |w.handlers| && a.key in w.handlers[a.index].added)
    || (a.FinishAction? && w'.waiting != w.waiting)
  }

  lemma {:induction false} WorkReplaced(hs: seq<Handler>, i: nat, h: Handler)
    requires i < |hs|
    ensures TotalWork(hs[i := h]) == TotalWork(hs) - HandlerWork(hs[i]) + HandlerWork(h)
  {
    var hs' := hs[i := h];
    if i == 0 {
      assert hs'[1..] == hs[1..];
    } else {
      WorkReplaced(hs[1..], i - 1, h);
      assert hs'[1..] == hs[1..][i - 1 := h];
    }
  }

  lemma {:induction false} WorkRemoved(hs: seq<Handler>, i: nat)
    requires i < |hs|
    ensures TotalWork(hs[..i] + hs[i + 1..]) == TotalWork(hs) - HandlerWork(hs[i])
  {
    if i == 0 {
      assert hs[..0] + hs[1..] == hs[1..];
    } else {
      var rest := hs[1..];
      WorkRemoved(rest, i - 1);
      assert hs[..i] + hs[i + 1..] == [hs[0]] + (rest[..i - 1] + rest[i..]);
    }
  }

  lemma QueueingIsWork(h: Handler, k: ObjectKey)
    requires k in Candidates(h) && k !in h.added
    ensures HandlerWork(Convergence.Queueing(h, k)) < HandlerWork(h)
  {
    var h' := Convergence.Queueing(h, k);
    assert Candidates(h') == Candidates(h);
    assert Candidates(h') - h'.added == Candidates(h) - h.added - {k};
  }

  lemma HandlersMoveCloser(w: World, w': World, a: Action)
    requires !Disturbs(w, w', a)
    requires || (a.QueueAction? && QueueStep(w, w', a.index, a.key))
             || (a.EndAction? && EndStep(w, w', a.index, a.observed, a.list))
    ensures Closer(w', w)
  {
    if a.QueueAction? {
      QueueingIsWork(w.handlers[a.index], a.key);
      WorkReplaced(w.handlers, a.index, Convergence.Queueing(w.handlers[a.index], a.key));
    } else {
      WorkRemoved(w.handlers, a.index);
    }
  }

  lemma WorkerMovesCloser(cfg: Config, w: World, w': World, a: Action)
    requires ConvergenceInvariant(cfg, w) && Step(cfg, w, w', a) && !Disturbs(w, w', a)
    requires a.TakeAction? || a.FinishAction?
    ensures Closer(w', w)
  {
    if a.TakeAction? {
      TakeIsConsistent(w.queue);
    }
  }

  /** Every step that is no disturbance leads closer to rest. */
  lemma UndisturbedStepIsCloser(cfg: Config, w: World, w': World, a: Action)
    requires ConvergenceInvariant(cfg, w) && Step(cfg, w, w', a) && !Disturbs(w, w', a)
    ensures Closer(w', w)
  {
    match a
    case DeliverAction(_) => assert |w.pending| == |w'.pending| + 1;
    case RetryAction(_) => assert |w.waiting| == |w'.waiting| + 1;
    case QueueAction(_, _) => HandlersMoveCloser(w, w', a);
    case EndAction(_, _, _) => HandlersMoveCloser(w, w', a);
    case TakeAction => WorkerMovesCloser(cfg, w, w', a);
    case FinishAction(_, _, _) => WorkerMovesCloser(cfg, w, w', a);
  }

  // ----- Endless runs -----

  ghost predicate RunStep(cfg: Config, world: nat -> World, action: nat -> Action, n: nat) {
    && Benign(cfg, world(n).caches) && Benign(cfg, world(n + 1).caches)
    && Step(cfg, world(n), world(n + 1), action(n)) && Reaches(world(n), action(n))
  }

  ghost predicate EndlessRun(cfg: Config, world: nat -> World, action: nat -> Action) {
    Starts(world(0)) && forall n: nat :: RunStep(cfg, world, action, n)
  }

  lemma {:induction false} EndlessRunKeepsConverging(cfg: Config, world: nat -> World, action: nat -> Action, n: nat)
    requires EndlessRun(cfg, world, action)
    ensures ConvergenceInvariant(cfg, world(n))
  {
    if n == 0 {
      assert RunStep(cfg, world, action, 0);
      StartSatisfies(cfg, world(0));
    } else {
      EndlessRunKeepsConverging(cfg, world, action, n - 1);
      assert RunStep(cfg, world, action, n - 1);
      StepKeepsConverging(cfg, world(n - 1), world(n), action(n - 1));
    }
  }

  lemma NextIsCloser(cfg: Config, world: nat -> World, action: nat -> Action, n: nat)
    requires EndlessRun(cfg, world, action) && !Disturbs(world(n), world(n + 1), action(n))
    ensures Closer(world(n + 1), world(n))
  {
    EndlessRunKeepsConverging(cfg, world, action, n);
    assert RunStep(cfg, world, action, n);
    UndisturbedStepIsCloser(cfg, world(n), world(n + 1), action(n));
  }

  /**
   A run that goes on for ever is disturbed again and again: once caches stop
   changing, resyncs and failures stop, the controller takes finitely many steps.
   */
  lemma {:induction false} EndlessRunsAreDisturbed(cfg: Config, world: nat -> World, action: nat -> Action, n: nat)
    returns (m: nat)
    requires EndlessRun(cfg, world, action)
    ensures m >= n && Disturbs(world(m), world(m + 1), action(m))
    decreases |world(n).pending|, TotalWork(world(n).handlers), |world(n).waiting|, WorkerWork(world(n))
  {
    if Disturbs(world(n), world(n + 1), action(n)) {
      m := n;
    } else {
      NextIsCloser(cfg, world, action, n);
      m := EndlessRunsAreDisturbed(cfg, world, action, n + 1);
    }
  }

  // ----- Something can always be done -----

  /** A reconcile of `k` on these caches succeeds and leaves nothing stale. */
  ghost predicate Ready(cfg: Config, c: Caches, s: Tracked, k: ObjectKey) {
    var plan := PlanOn(cfg, c, k);
    && !Desired(cfg, c, k).Erroneous?
    && (plan.Serve? ==>
          && WellFormed(cfg, plan.basis)
          && var dk := DomainKeys.Format(k);
             (dk in s.served ==> NothingStale(cfg, s.served[dk].basis, s.served[dk].refused, plan.basis)))
  }

  function PlanOn(cfg: Config, c: Caches, k: ObjectKey): Plan { KeyPlan(cfg, c, k, NoListings(ClaimCount(c, k))) }

  /** A handler at work can queue another key or end. */
  lemma HandlerCanMove(cfg: Config, w: World) returns (w': World, a: Action)
    requires ConvergenceInvariant(cfg, w) && Benign(cfg, w.caches) && w.handlers != []
    ensures Step(cfg, w, w', a) && !Disturbs(w, w', a)
    ensures a.QueueAction? || (a.EndAction? && a.observed == w.caches)
  {
    var h := w.handlers[0];
    var list: seq<EndpointSlice> := [];
    if h.ev.SchemaEvent? {
      list := SomeList(w.caches, SlicesIn(w.caches, h.ev.key.cluster));
    }
    TargetsAreCandidates(w.caches, h, list);
    if k :| k in EventTargets(w.caches, h.ev, list) && k !in h.added {
      a := QueueAction(0, k);
      w' := w.(queue := Add(w.queue, k), handlers := w.handlers[0 := Convergence.Queueing(h, k)]);
    } else {
      PresentIsMixture(w.caches, h.seen);
      a := EndAction(0, w.caches, list);
      w' := w.(handlers := w.handlers[..0] + w.handlers[1..]);
    }
  }

  /** The worker can finish its key, if that key is ready. */
  lemma WorkerCanFinish(cfg: Config, w: World) returns (w': World, a: Action)
    requires ConvergenceInvariant(cfg, w) && Benign(cfg, w.caches)
    requires w.worker.Working? && Ready(cfg, w.caches, w.tracked, w.worker.key)
    ensures Step(cfg, w, w', a) && !Disturbs(w, w', a)
    ensures a.FinishAction? && a.observed == w.caches && a.creator == cfg
    ensures a.choice.listings == NoListings(ClaimCount(w.caches, w.worker.key))
  {
    var k, dk := w.worker.key, DomainKeys.Format(w.worker.key);
    var plan := PlanOn(cfg, w.caches, k);
    var cleanup := SomeOrder(SetOf(w.tracked.core, dk).Keys);
    var schemas: seq<GroupResource> := [];
    if plan.Serve? {
      schemas := SomeOrder(plan.basis.r.schemas.Keys);
    }
    var ch := Choice(NoListings(ClaimCount(w.caches, k)), schemas, cleanup);
    PresentIsMixture(w.caches, w.worker.seen);
    PublishedAsPlanned(cfg, w.tracked, k, plan, ch);
    a := FinishAction(w.caches, ch, cfg);
    w' := w.(queue := Done(w.queue, k), worker := Idle, tracked := Track(cfg, w.tracked, dk, plan, ch));
  }

  /** Until it is at rest, some step is possible that disturbs nothing. */
  lemma NotStuck(cfg: Config, w: World) returns (w': World, a: Action)
    requires ConvergenceInvariant(cfg, w) && Benign(cfg, w.caches) && !Quiescent(w)
    requires w.worker.Working? ==> Ready(cfg, w.caches, w.tracked, w.worker.key)
    ensures Step(cfg, w, w', a) && !Disturbs(w, w', a)
    ensures a.EndAction? ==> a.observed == w.caches
    ensures a.FinishAction? ==>
              && a.observed == w.caches && a.creator == cfg && w.worker.Working?
              && a.choice.listings == NoListings(ClaimCount(w.caches, w.worker.key))
  {
    if w.worker.Working? {
      w', a := WorkerCanFinish(cfg, w);
    } else if w.handlers != [] {
      w', a := HandlerCanMove(cfg, w);
    } else if ev :| ev in w.pending {
      a := DeliverAction(ev);
      w' := w.(pending := w.pending - multiset{ev}, handlers := w.handlers + [Handler(ev, [w.caches], {})]);
    } else if k :| k in w.waiting {
      a := RetryAction(k);
      w' := w.(waiting := w.waiting - {k}, queue := Add(w.queue, k));
    } else {
      assert w.pending == multiset{};
      a := TakeAction;
      w' := w.(queue := Take(w.queue).1, worker := Working(Take(w.queue).0, [w.caches]));
    }
  }

  // ----- Rest is reached -----

  /** Every key is ready, and schema notifications reach what they concern. */
  ghost predicate Settled(cfg: Config, c: Caches, s: Tracked) {
    && (forall k :: Ready(cfg, c, s, k))
    && (forall ev :: DeliveryReaches(c, ev))
  }

  /** A set made of the present inputs is not stale for them. */
  lemma PresentIsNotStale(cfg: Config, b: Basis, refused: set<GVR>)
    requires UniqueGVRs(b)
    ensures NothingStale(cfg, b, refused, b)
  {
    forall slot0, slot | Indistinguishable(b, refused, b, slot0, slot) ensures SameBacking(cfg, b, b, slot0, slot) {
      SlotAtIsUnique(b, slot0);
      SlotAtIsUnique(b, slot);
    }
  }

  lemma FinishKeepsReady(cfg: Config, c: Caches, s: Tracked, key: ObjectKey, ch: Choice, k: ObjectKey)
    requires Ready(cfg, c, s, k)
    requires StableStep(cfg, s, DomainKeys.Format(key), PlanOn(cfg, c, key), ch)
    ensures Ready(cfg, c, Track(cfg, s, DomainKeys.Format(key), PlanOn(cfg, c, key), ch), k)
  {
    if k == key {
      var plan := PlanOn(cfg, c, key);
      if plan.Serve? {
        PresentIsNotStale(cfg, plan.basis, Refused(cfg, plan.basis, SetOf(s.core, DomainKeys.Format(key))));
      }
    } else if DomainKeys.Format(k) == DomainKeys.Format(key) {
      DomainKeys.FormatIsInjective(k, key);
    }
  }

  lemma StepKeepsSettled(cfg: Config, w: World, w': World, a: Action)
    requires Settled(cfg, w.caches, w.tracked) && Step(cfg, w, w', a) && !Disturbs(w, w', a)
    requires a.FinishAction? ==>
               && a.observed == w.caches && a.creator == cfg && w.worker.Working?
               && a.choice.listings == NoListings(ClaimCount(w.caches, w.worker.key))
    ensures w'.caches == w.caches && Settled(cfg, w'.caches, w'.tracked)
  {
    if a.FinishAction? {
      forall k ensures Ready(cfg, w'.caches, w'.tracked, k) {
        FinishKeepsReady(cfg, w.caches, w.tracked, w.worker.key, a.choice, k);
      }
    }
  }

  /** Steps that lead from one world to another and disturb nothing. */
  ghost predicate Path(cfg: Config, worlds: seq<World>, actions: seq<Action>) {
    && Steps(cfg, worlds, actions)
    && forall i :: 0 <= i < |actions| ==>
         Reaches(worlds[i], actions[i]) && !Disturbs(worlds[i], worlds[i + 1], actions[i])
  }

  lemma PathFrom(cfg: Config, w: World, a: Action, worlds: seq<World>, actions: seq<Action>)
    requires Path(cfg, worlds, actions)
    requires Step(cfg, w, worlds[0], a) && Reaches(w, a) && !Disturbs(w, worlds[0], a)
    ensures Path(cfg, [w] + worlds, [a] + actions)
  {
    var worlds', actions' := [w] + worlds, [a] + actions;
    forall i | 0 <= i < |actions'|
      ensures && Step(cfg, worlds'[i], worlds'[i + 1], actions'[i])
              && Reaches(worlds'[i], actions'[i]) && !Disturbs(worlds'[i], worlds'[i + 1], actions'[i])
    {
      if i > 0 {
        assert worlds'[i] == worlds[i - 1] && worlds'[i + 1] == worlds[i] && actions'[i] == actions[i - 1];
      }
    }
  }

  /**
   From every world a run can be in, if its caches are settled, steps that
   disturb nothing lead to rest, with every key showing what it should.
   */
  lemma {:induction false} RestIsReached(cfg: Config, w: World) returns (worlds: seq<World>, actions: seq<Action>)
    requires ConvergenceInvariant(cfg, w) && Benign(cfg, w.caches) && Settled(cfg, w.caches, w.tracked)
    ensures Path(cfg, worlds, actions) && worlds[0] == w
    ensures Quiescent(worlds[|actions|]) && worlds[|actions|].caches == w.caches
    ensures forall k :: Fresh(cfg, worlds[|actions|], k)
    decreases |w.pending|, TotalWork(w.handlers), |w.waiting|, WorkerWork(w)
  {
    if Quiescent(w) {
      worlds, actions := [w], [];
      forall k ensures Fresh(cfg, w, k) {
        assert k in w.queue.order <==> k in w.queue.dirty;
        assert Fresh(cfg, w, k) || Covered(w, k);
      }
    } else {
      var w', a := NotStuck(cfg, w);
      StepKeepsSettled(cfg, w, w', a);
      StepKeepsConverging(cfg, w, w', a);
      UndisturbedStepIsCloser(cfg, w, w', a);
      worlds, actions := RestIsReached(cfg, w');
      PathFrom(cfg, w, a, worlds, actions);
      worlds, actions := [w] + worlds, [a] + actions;
    }
  }
}
