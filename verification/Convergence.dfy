/**
 The controller as a state machine: informer caches that change under it,
 notifications that are handled later and in any order, the work queue, and one
 worker. The lookups of handlers and worker are spread over the time they take.
 */
module Convergence {
  import opened Wrappers
  import opened Apis
  import opened ClaimResolution
  import opened Definitions
  import opened Lifecycle
  import opened Refinement
  import opened Reuse
  import opened WorkQueues
  import opened Events
  import DomainKeys

  /** While a key is processed, `seen` are the cache states since it was taken from the queue. */
  datatype Worker = Idle | Working(key: ObjectKey, seen: seq<Caches>)

  /** A handler at work on a notification: the cache states since it began, and the keys it has queued. */
  datatype Handler = Handler(ev: Event, seen: seq<Caches>, added: set<ObjectKey>)

  /** `waiting` are keys that failed and will be added again after a delay. */
  datatype World = World(caches: Caches, queue: Queue, pending: multiset<Event>, handlers: seq<Handler>,
                         waiting: set<ObjectKey>, worker: Worker, tracked: Tracked)

  // ----- Steps -----

  function Observe(w: Worker, c: Caches): Worker {
    match w
    case Idle => Idle
    case Working(k, seen) => Working(k, seen + [c])
  }

  function ObserveAll(hs: seq<Handler>, c: Caches): (r: seq<Handler>)
    ensures |r| == |hs|
    ensures forall i :: 0 <= i < |hs| ==> r[i] == hs[i].(seen := hs[i].seen + [c])
  {
    seq(|hs|, i requires 0 <= i < |hs| => hs[i].(seen := hs[i].seen + [c]))
  }

  /** A cache changes; its notification becomes pending; whoever is at work may see either state. */
  function Change(w: World, c: Caches, ev: Event): World {
    w.(caches := c, pending := w.pending + multiset{ev}, handlers := ObserveAll(w.handlers, c),
       worker := Observe(w.worker, c))
  }

  /** `after` differs from `before` at `k` only. */
  ghost predicate OnlyAt<T>(before: map<ObjectKey, T>, after: map<ObjectKey, T>, k: ObjectKey) {
    after - {k} == before - {k}
  }

  /** A slice is added, replaced or deleted; the notification carries the new or the last object. */
  ghost predicate SliceChange(c: Caches, c': Caches, ev: Event) {
    && ev.SliceEvent?
    && var k := ev.slice.Key();
       && c' == c.(slices := c'.slices) && OnlyAt(c.slices, c'.slices, k)
       && Some(ev.slice) == (if k in c'.slices then Get(c'.slices, k) else Get(c.slices, k))
  }

  ghost predicate ExportChange(c: Caches, c': Caches, ev: Event) {
    && ev.ExportEvent?
    && c' == c.(exports := c'.exports) && OnlyAt(c.exports, c'.exports, ev.key)
  }

  /** Schemas are only added and deleted. */
  ghost predicate SchemaChange(c: Caches, c': Caches, ev: Event) {
    && ev.SchemaEvent?
    && c' == c.(schemas := c'.schemas) && OnlyAt(c.schemas, c'.schemas, ev.key)
    && !(ev.key in c.schemas && ev.key in c'.schemas)
  }

  ghost predicate CacheChange(c: Caches, c': Caches, ev: Event) {
    SliceChange(c, c', ev) || ExportChange(c, c', ev) || SchemaChange(c, c', ev)
  }

  ghost predicate CacheStep(w: World, w': World, ev: Event) {
    CacheChange(w.caches, w'.caches, ev) && w' == Change(w, w'.caches, ev)
  }

  /** An update notification without a change, as resyncs produce them. */
  ghost predicate ResyncStep(w: World, w': World, ev: Event) {
    w' == w.(pending := w.pending + multiset{ev})
  }

  /** The handler of a pending notification begins. */
  ghost predicate DeliverStep(w: World, w': World, ev: Event) {
    && ev in w.pending
    && w' == w.(pending := w.pending - multiset{ev}, handlers := w.handlers + [Handler(ev, [w.caches], {})])
  }

  function SeenSlices(seen: seq<Caches>): (r: set<ObjectKey>)
    ensures forall i :: 0 <= i < |seen| ==> seen[i].slices.Keys <= r
  {
    if seen == [] then {} else SeenSlices(seen[..|seen| - 1]) + seen[|seen| - 1].slices.Keys
  }

  /** The keys a handler can come to queue: of its own slice and of slices it was able to list. */
  function Candidates(h: Handler): set<ObjectKey> {
    SeenSlices(h.seen) + if h.ev.SliceEvent? then {h.ev.slice.Key()} else {}
  }

  function Queueing(h: Handler, k: ObjectKey): Handler { h.(added := h.added + {k}) }

  /** A handler queues a key; others may be at work in between. */
  ghost predicate QueueStep(w: World, w': World, i: nat, k: ObjectKey) {
    && i < |w.handlers| && k in Candidates(w.handlers[i])
    && w' == w.(queue := Add(w.queue, k), handlers := w.handlers[i := Queueing(w.handlers[i], k)])
  }

  /**
   A handler ends. Its lookups were answered by cache states since it began,
   each by some of them, and it has queued everything those answers call for.
   */
  ghost predicate EndStep(w: World, w': World, i: nat, observed: Caches, list: seq<EndpointSlice>) {
    && i < |w.handlers|
    && var h := w.handlers[i];
       && Mixture(observed, h.seen) && WellKeyed(observed)
       && (h.ev.SchemaEvent? ==> Lists(observed, h.ev.key.cluster, list))
       && EventTargets(observed, h.ev, list) <= h.added
       && w' == w.(handlers := w.handlers[..i] + w.handlers[i + 1..])
  }

  ghost predicate TakeStep(w: World, w': World) {
    && w.worker.Idle?
    && w.queue.order != []
    && w' == w.(queue := Take(w.queue).1, worker := Working(Take(w.queue).0, [w.caches]))
  }

  ghost predicate RetryStep(w: World, w': World, k: ObjectKey) {
    && k in w.waiting
    && w' == w.(waiting := w.waiting - {k}, queue := Add(w.queue, k))
  }

  ghost predicate SliceSeen(observed: Caches, seen: seq<Caches>, k: ObjectKey) {
    exists i :: 0 <= i < |seen| && observed.Slice(k) == seen[i].Slice(k)
  }

  ghost predicate ExportSeen(observed: Caches, seen: seq<Caches>, k: ObjectKey) {
    exists i :: 0 <= i < |seen| && observed.Export(k) == seen[i].Export(k)
  }

  ghost predicate SchemaSeen(observed: Caches, seen: seq<Caches>, k: ObjectKey) {
    exists i :: 0 <= i < |seen| && observed.Schema(k) == seen[i].Schema(k)
  }

  /** Every lookup in `observed` was answered as one of the states in `seen` answers it. */
  ghost predicate Mixture(observed: Caches, seen: seq<Caches>) {
    forall k :: SliceSeen(observed, seen, k) && ExportSeen(observed, seen, k) && SchemaSeen(observed, seen, k)
  }

  /** What process decides for a key. A slice lookup error other than NotFound is given up silently. */
  function KeyPlan(cfg: Config, c: Caches, k: ObjectKey, listings: seq<seq<APIExport>>): Plan {
    match c.Slice(k)
    case Found(s) => PlanFor(cfg, c, Some(s), listings)
    case _ => PlanFor(cfg, c, None, listings)
  }

  /** The number of claims of the export a key is served from. */
  function ClaimCount(c: Caches, k: ObjectKey): nat {
    match c.Slice(k)
    case Found(s) => (match ExportOf(c, s) case Found(e) => |e.claims| case _ => 0)
    case _ => 0
  }

  /**
   The worker finishes its key: publish, then done, and retry later after an
   error. `cfg` holds what the creator refuses this time.
   */
  ghost predicate FinishStep(cfg: Config, w: World, w': World, observed: Caches, ch: Choice) {
    && w.worker.Working?
    && Mixture(observed, w.worker.seen)
    && !observed.Slice(w.worker.key).Failed?
    && |ch.listings| == ClaimCount(observed, w.worker.key)
    && var k, dk := w.worker.key, DomainKeys.Format(w.worker.key);
       var plan := KeyPlan(cfg, observed, k, ch.listings);
       && StableStep(cfg, w.tracked, dk, plan, ch)
       && var ok := Reconcile(cfg, w.tracked.core, dk, plan, ch).1;
          w' == w.(queue := Done(w.queue, k), worker := Idle,
                   waiting := if ok then w.waiting else w.waiting + {k},
                   tracked := Track(cfg, w.tracked, dk, plan, ch))
  }

  // ----- What the published sets should be -----

  datatype Shown = Absent | Showing(view: View) | Erroneous

  /** Claims that are resolved without looking at other exports. */
  predicate InternalClaims(t: Tables, e: APIExport) {
    forall i :: 0 <= i < |e.claims| ==> !ByIdentity(t, e.claims[i])
  }

  ghost function PlanShown(cfg: Config, plan: Plan): Shown {
    match plan
    case Remove => Absent
    case Retry => Erroneous
    case Serve(b) => if ScratchSucceeds(cfg, b) then Showing(ScratchView(cfg, b)) else Erroneous
  }

  function NoListings(n: nat): seq<seq<APIExport>> { seq(n, _ => []) }

  /** What a reconcile of `k` from nothing would publish, given these caches. */
  ghost function Desired(cfg: Config, c: Caches, k: ObjectKey): Shown {
    PlanShown(cfg, KeyPlan(cfg, c, k, NoListings(ClaimCount(c, k))))
  }

  function ShownFor(s: Tracked, k: ObjectKey): Shown {
    var dk := DomainKeys.Format(k);
    if dk in s.core.sets then Showing(ViewOf(s.core.created, s.core.sets[dk])) else Absent
  }

  /** What the last serving reconcile of `k` was refused. */
  function RefusedOf(s: Tracked, k: ObjectKey): set<GVR> { RefusedFor(s, DomainKeys.Format(k)) }

  /** `shown` is `wanted` without the refused entries, all of which it should have. */
  predicate ShowsAllBut(shown: Shown, wanted: Shown, refused: set<GVR>) {
    match wanted
    case Absent => shown.Absent? && refused == {}
    case Showing(v) => refused <= v.Keys && shown == Showing(Without(v, refused))
    case Erroneous => false
  }

  /** `k` shows what it should for the caches as they are, less what its last reconcile was refused. */
  ghost predicate Fresh(cfg: Config, w: World, k: ObjectKey) {
    ShowsAllBut(ShownFor(w.tracked, k), Desired(cfg, w.caches, k), RefusedOf(w.tracked, k))
  }

  /** The two caches answer alike whatever a reconcile of `k` asks. */
  ghost predicate Alike(c: Caches, c': Caches, k: ObjectKey) {
    && c.Slice(k) == c'.Slice(k)
    && (c.Slice(k).Found? ==>
          var s := c.Slice(k).value;
          && ExportOf(c, s) == ExportOf(c', s)
          && (ExportOf(c, s).Found? ==>
                var e := ExportOf(c, s).value;
                forall name :: name in e.resources ==>
                  c.Schema(ObjectKey(e.cluster, name)) == c'.Schema(ObjectKey(e.cluster, name))))
  }

  /** The handler has still to queue `k`, and nothing `k` depends on has changed since it began. */
  ghost predicate Handles(h: Handler, c: Caches, k: ObjectKey) {
    && k !in h.added
    && Concerns(c, h.ev, k)
    && forall i :: 0 <= i < |h.seen| ==> Alike(h.seen[i], c, k)
  }

  ghost predicate InHand(hs: seq<Handler>, c: Caches, k: ObjectKey) {
    exists i :: 0 <= i < |hs| && Handles(hs[i], c, k)
  }

  /** Something will make the worker look at `k` again. */
  ghost predicate Covered(w: World, k: ObjectKey) {
    || k in w.queue.dirty
    || k in w.waiting
    || (exists ev :: ev in w.pending && Concerns(w.caches, ev, k))
    || InHand(w.handlers, w.caches, k)
  }

  /** Whoever is at work has seen the present state last. */
  ghost predicate UpToDate(seen: seq<Caches>, c: Caches) { seen != [] && seen[|seen| - 1] == c }

  ghost predicate AllUpToDate(w: World) {
    && (w.worker.Working? ==> UpToDate(w.worker.seen, w.caches))
    && forall i :: 0 <= i < |w.handlers| ==> UpToDate(w.handlers[i].seen, w.caches)
  }

  /** Nothing `k` depends on has changed since the worker took it. */
  ghost predicate Undisturbed(w: World, k: ObjectKey) {
    && w.worker.Working?
    && w.worker.key == k
    && forall i :: 0 <= i < |w.worker.seen| ==> Alike(w.worker.seen[i], w.caches, k)
  }

  ghost predicate ConvergenceInvariant(cfg: Config, w: World) {
    && Consistent(w.queue)
    && w.queue.processing == (if w.worker.Working? then {w.worker.key} else {})
    && TrackedInvariant(cfg, w.tracked)
    && AllUpToDate(w)
    && (forall k :: Fresh(cfg, w, k) || Covered(w, k) || (w.worker.Working? && w.worker.key == k))
    && (w.worker.Working? ==> Covered(w, w.worker.key) || Undisturbed(w, w.worker.key))
  }

  // ----- Caches that answer alike give the same plan -----

  lemma {:induction false} SameSchemas(c: Caches, c': Caches, cluster: ClusterName, resources: seq<string>)
    requires forall name :: name in resources ==>
                              c.Schema(ObjectKey(cluster, name)) == c'.Schema(ObjectKey(cluster, name))
    ensures ExportSchemas(c, cluster, resources) == ExportSchemas(c', cluster, resources)
  {
    if resources == [] {
    } else {
      SameSchemas(c, c', cluster, resources[..|resources| - 1]);
    }
  }

  lemma {:induction false} InternalClaimsIgnoreListings(t: Tables, c: Caches, c': Caches, e: APIExport,
                                                        exported: map<GroupResource, Schema>,
                                                        ls: seq<seq<APIExport>>, ls': seq<seq<APIExport>>, n: nat)
    requires InternalClaims(t, e) && n <= |e.claims| == |ls| == |ls'|
    ensures ApplyClaims(t, c, e, exported, ls, n) == ApplyClaims(t, c', e, exported, ls', n)
  {
    if n > 0 {
      InternalClaimsIgnoreListings(t, c, c', e, exported, ls, ls', n - 1);
      assert !ByIdentity(t, e.claims[n - 1]);
    }
  }

  ghost predicate InternalFor(cfg: Config, c: Caches, k: ObjectKey) {
    c.Slice(k).Found? && ExportOf(c, c.Slice(k).value).Found?
    ==> InternalClaims(cfg.tables, ExportOf(c, c.Slice(k).value).value)
  }

  lemma AlikeSamePlan(cfg: Config, c: Caches, c': Caches, k: ObjectKey,
                      ls: seq<seq<APIExport>>, ls': seq<seq<APIExport>>)
    requires Alike(c, c', k) && InternalFor(cfg, c, k)
    requires |ls| == |ls'| == ClaimCount(c, k)
    ensures ClaimCount(c', k) == ClaimCount(c, k)
    ensures KeyPlan(cfg, c, k, ls) == KeyPlan(cfg, c', k, ls')
  {
    if c.Slice(k).Found? {
      var s := c.Slice(k).value;
      if ExportOf(c, s).Found? {
        var e := ExportOf(c, s).value;
        SameSchemas(c, c', e.cluster, e.resources);
        match ExportSchemas(c, e.cluster, e.resources)
        case Err =>
        case Ok(exported) =>
          InternalClaimsIgnoreListings(cfg.tables, c, c', e, exported, ls, ls', |e.claims|);
      }
    }
  }

  lemma AlikeSameDesire(cfg: Config, c: Caches, c': Caches, k: ObjectKey)
    requires Alike(c, c', k) && InternalFor(cfg, c, k)
    ensures Desired(cfg, c, k) == Desired(cfg, c', k)
  {
    AlikeSamePlan(cfg, c, c', k, NoListings(ClaimCount(c, k)), NoListings(ClaimCount(c, k)));
  }

  lemma MixtureIsAlike(observed: Caches, seen: seq<Caches>, c: Caches, k: ObjectKey)
    requires Mixture(observed, seen)
    requires forall i :: 0 <= i < |seen| ==> Alike(seen[i], c, k)
    ensures Alike(observed, c, k)
  {
    assert SliceSeen(observed, seen, k);
    var i :| 0 <= i < |seen| && observed.Slice(k) == seen[i].Slice(k);
    if observed.Slice(k).Found? {
      var s := observed.Slice(k).value;
      assert ExportSeen(observed, seen, s.ExportKey());
      var j :| 0 <= j < |seen| && observed.Export(s.ExportKey()) == seen[j].Export(s.ExportKey());
      if ExportOf(observed, s).Found? {
        var e := ExportOf(observed, s).value;
        forall name | name in e.resources
          ensures observed.Schema(ObjectKey(e.cluster, name)) == c.Schema(ObjectKey(e.cluster, name))
        {
          assert SchemaSeen(observed, seen, ObjectKey(e.cluster, name));
          var l :| 0 <= l < |seen|
                   && observed.Schema(ObjectKey(e.cluster, name)) == seen[l].Schema(ObjectKey(e.cluster, name));
          assert Alike(seen[l], c, k) && Alike(seen[j], c, k);
        }
      }
    }
  }

  lemma AlikeIsTransitive(a: Caches, b: Caches, c: Caches, k: ObjectKey)
    requires Alike(a, b, k) && Alike(b, c, k)
    ensures Alike(a, c, k)
  {
  }

  // ----- A cache change concerns whatever it affects -----

  /** No lookup fails other than by NotFound, and every served export claims internal APIs only. */
  ghost predicate Benign(cfg: Config, c: Caches) {
    && WellKeyed(c)
    && c.brokenSlices == {} && c.brokenExports == {} && c.brokenSchemas == {}
    && forall k :: InternalFor(cfg, c, k)
  }

  lemma OnlyAtElsewhere<T>(before: map<ObjectKey, T>, after: map<ObjectKey, T>, k: ObjectKey, x: ObjectKey)
    requires OnlyAt(before, after, k) && x != k
    ensures Get(before, x) == Get(after, x)
  {
    assert Get(before - {k}, x) == Get(after - {k}, x);
  }

  lemma ChangeConcernsAffected(cfg: Config, c: Caches, c': Caches, ev: Event, k: ObjectKey)
    requires Benign(cfg, c) && Benign(cfg, c') && CacheChange(c, c', ev)
    ensures Alike(c, c', k) || Concerns(c', ev, k)
  {
    match ev
    case SliceEvent(slice) =>
      if k != slice.Key() {
        OnlyAtElsewhere(c.slices, c'.slices, slice.Key(), k);
      }
    case ExportEvent(key) =>
      if k in c.slices && c.slices[k].ExportKey() != key {
        OnlyAtElsewhere(c.exports, c'.exports, key, c.slices[k].ExportKey());
      }
    case SchemaEvent(key) =>
      if k in c.slices && ExportOf(c, c.slices[k]).Found? && !Concerns(c', ev, k) {
        var e := ExportOf(c, c.slices[k]).value;
        forall name | name in e.resources
          ensures c.Schema(ObjectKey(e.cluster, name)) == c'.Schema(ObjectKey(e.cluster, name))
        {
          OnlyAtElsewhere(c.schemas, c'.schemas, key, ObjectKey(e.cluster, name));
        }
      }
  }

  lemma ChangeKeepsConcern(cfg: Config, c: Caches, c': Caches, ev: Event, older: Event, k: ObjectKey)
    requires Benign(cfg, c) && Benign(cfg, c') && CacheChange(c, c', ev)
    requires Concerns(c, older, k)
    ensures Concerns(c', older, k) || Concerns(c', ev, k)
  {
    match ev
    case SliceEvent(slice) =>
      if k != slice.Key() {
        OnlyAtElsewhere(c.slices, c'.slices, slice.Key(), k);
      }
    case ExportEvent(key) =>
      if k in c.slices && c.slices[k].ExportKey() != key {
        OnlyAtElsewhere(c.exports, c'.exports, key, c.slices[k].ExportKey());
      }
    case SchemaEvent(key) =>
  }

  lemma AlikeIsSymmetric(a: Caches, b: Caches, k: ObjectKey)
    requires Alike(a, b, k)
    ensures Alike(b, a, k)
  {
  }

  lemma AlikeIsReflexive(c: Caches, k: ObjectKey)
    ensures Alike(c, c, k)
  {
  }

  /** What an event concerns is decided by what the key depends on. */
  lemma AlikeKeepsConcern(c: Caches, c': Caches, ev: Event, k: ObjectKey)
    requires Alike(c, c', k) && Concerns(c, ev, k)
    requires k !in c.brokenSlices && k !in c'.brokenSlices
    ensures Concerns(c', ev, k)
  {
    assert c.Slice(k) == c'.Slice(k);
  }

  lemma ChangeKeepsInHand(cfg: Config, c: Caches, c': Caches, ev: Event, hs: seq<Handler>, k: ObjectKey)
    requires Benign(cfg, c) && Benign(cfg, c') && Alike(c, c', k) && InHand(hs, c, k)
    ensures InHand(ObserveAll(hs, c'), c', k)
  {
    var i :| 0 <= i < |hs| && Handles(hs[i], c, k);
    var h := ObserveAll(hs, c')[i];
    AlikeKeepsConcern(c, c', h.ev, k);
    forall j | 0 <= j < |h.seen| ensures Alike(h.seen[j], c', k) {
      if j < |hs[i].seen| {
        AlikeIsTransitive(hs[i].seen[j], c, c', k);
      }
    }
    assert Handles(h, c', k);
  }

  // ----- Every step keeps the invariant -----

  lemma CacheStepKeeps(cfg: Config, w: World, w': World, ev: Event)
    requires ConvergenceInvariant(cfg, w) && CacheStep(w, w', ev)
    requires Benign(cfg, w.caches) && Benign(cfg, w'.caches)
    ensures ConvergenceInvariant(cfg, w')
  {
    var c, c' := w.caches, w'.caches;
    assert ev in w'.pending;
    forall k ensures Covered(w, k) || !Alike(c, c', k) ==> Covered(w', k) {
      ChangeConcernsAffected(cfg, c, c', ev, k);
      if older :| older in w.pending && Concerns(c, older, k) {
        ChangeKeepsConcern(cfg, c, c', ev, older, k);
        assert older in w'.pending;
      }
      if InHand(w.handlers, c, k) && Alike(c, c', k) {
        ChangeKeepsInHand(cfg, c, c', ev, w.handlers, k);
      }
    }
    forall k ensures Fresh(cfg, w', k) || Covered(w', k) || (w'.worker.Working? && w'.worker.key == k) {
      if Fresh(cfg, w, k) && Alike(c, c', k) {
        AlikeSameDesire(cfg, c, c', k);
      }
    }
    if w.worker.Working? && !Covered(w', w.worker.key) {
      var k := w.worker.key;
      forall i | 0 <= i < |w'.worker.seen| ensures Alike(w'.worker.seen[i], c', k) {
        if i < |w.worker.seen| {
          AlikeIsTransitive(w.worker.seen[i], c, c', k);
        }
      }
    }
  }

  lemma ResyncStepKeeps(cfg: Config, w: World, w': World, ev: Event)
    requires ConvergenceInvariant(cfg, w) && ResyncStep(w, w', ev)
    ensures ConvergenceInvariant(cfg, w')
  {
    forall k | Covered(w, k) ensures Covered(w', k) {
      if older :| older in w.pending && Concerns(w.caches, older, k) {
        assert older in w'.pending;
      }
    }
    assert forall k :: Fresh(cfg, w, k) == Fresh(cfg, w', k);
  }

  /** Whatever order the slices are listed in, the handler reaches every key the event concerns. */
  ghost predicate DeliveryReaches(c: Caches, ev: Event) {
    ev.SchemaEvent? ==>
      forall k :: Concerns(c, ev, k) ==> AllReferencesFound(c, ev.key.cluster) && Reached(c, ev.key, k)
  }

  lemma DeliverStepKeeps(cfg: Config, w: World, w': World, ev: Event)
    requires ConvergenceInvariant(cfg, w) && DeliverStep(w, w', ev)
    ensures ConvergenceInvariant(cfg, w')
  {
    forall k | Covered(w, k) ensures Covered(w', k) {
      if older :| older in w.pending && Concerns(w.caches, older, k) {
        if older in w'.pending {
        } else {
          assert Handles(w'.handlers[|w.handlers|], w.caches, k);
        }
      } else if InHand(w.handlers, w.caches, k) {
        var i :| 0 <= i < |w.handlers| && Handles(w.handlers[i], w.caches, k);
        assert w'.handlers[i] == w.handlers[i];
      }
    }
    assert forall k :: Fresh(cfg, w, k) == Fresh(cfg, w', k);
  }

  lemma QueueStepKeeps(cfg: Config, w: World, w': World, i: nat, key: ObjectKey)
    requires ConvergenceInvariant(cfg, w) && QueueStep(w, w', i, key)
    ensures ConvergenceInvariant(cfg, w')
  {
    AddIsConsistent(w.queue, key);
    forall k | Covered(w, k) ensures Covered(w', k) {
      if k != key && InHand(w.handlers, w.caches, k) {
        var j :| 0 <= j < |w.handlers| && Handles(w.handlers[j], w.caches, k);
        assert Handles(w'.handlers[j], w.caches, k);
      }
    }
    assert forall k :: Fresh(cfg, w, k) == Fresh(cfg, w', k);
  }

  /** A handler that ends has nothing in hand any more: whatever it had to queue, it has. */
  lemma EndedHandlesNothing(cfg: Config, c: Caches, h: Handler, observed: Caches, list: seq<EndpointSlice>,
                            k: ObjectKey)
    requires Mixture(observed, h.seen) && WellKeyed(observed)
    requires h.ev.SchemaEvent? ==> Lists(observed, h.ev.key.cluster, list)
    requires EventTargets(observed, h.ev, list) <= h.added
    requires Benign(cfg, c) && UpToDate(h.seen, c) && DeliveryReaches(observed, h.ev)
    ensures !Handles(h, c, k)
  {
    if Handles(h, c, k) {
      MixtureIsAlike(observed, h.seen, c, k);
      assert observed.Slice(k) == c.Slice(k);
      AlikeIsSymmetric(observed, c, k);
      AlikeKeepsConcern(c, observed, h.ev, k);
      if h.ev.SchemaEvent? {
        SchemaEventReaches(observed, h.ev.key, list, k);
      } else {
        SliceAndExportEventsReachAll(observed, h.ev, list, EventTargets(observed, h.ev, list), k);
      }
    }
  }

  lemma EndStepKeeps(cfg: Config, w: World, w': World, i: nat, observed: Caches, list: seq<EndpointSlice>)
    requires ConvergenceInvariant(cfg, w) && EndStep(w, w', i, observed, list)
    requires Benign(cfg, w.caches) && DeliveryReaches(observed, w.handlers[i].ev)
    ensures ConvergenceInvariant(cfg, w')
  {
    forall k | Covered(w, k) ensures Covered(w', k) {
      EndedHandlesNothing(cfg, w.caches, w.handlers[i], observed, list, k);
      if InHand(w.handlers, w.caches, k) {
        var j :| 0 <= j < |w.handlers| && Handles(w.handlers[j], w.caches, k);
        assert w'.handlers[if j < i then j else j - 1] == w.handlers[j];
      }
    }
    forall j | 0 <= j < |w'.handlers| ensures UpToDate(w'.handlers[j].seen, w'.caches) {
      assert w'.handlers[j] == w.handlers[if j < i then j else j + 1];
    }
    assert forall k :: Fresh(cfg, w, k) == Fresh(cfg, w', k);
  }

  lemma TakeStepKeeps(cfg: Config, w: World, w': World)
    requires ConvergenceInvariant(cfg, w) && TakeStep(w, w')
    ensures ConvergenceInvariant(cfg, w')
  {
    TakeIsConsistent(w.queue);
    var k := w'.worker.key;
    forall x | Covered(w, x) && x != k ensures Covered(w', x) {
    }
    assert forall x :: Fresh(cfg, w, x) == Fresh(cfg, w', x);
    assert Undisturbed(w', k);
  }

  lemma RetryStepKeeps(cfg: Config, w: World, w': World, k: ObjectKey)
    requires ConvergenceInvariant(cfg, w) && RetryStep(w, w', k)
    ensures ConvergenceInvariant(cfg, w')
  {
    AddIsConsistent(w.queue, k);
    forall x | Covered(w, x) ensures Covered(w', x) {
    }
    assert forall x :: Fresh(cfg, w, x) == Fresh(cfg, w', x);
  }

  lemma ReconcileTouchesOneKey(cfg: Config, s: State, key: string, plan: Plan, ch: Choice, other: string)
    requires Invariant(s) && LegalPlan(s, key, plan, ch) && other != key
    ensures var t := Reconcile(cfg, s, key, plan, ch).0;
            s.created <= t.created && Get(t.sets, other) == Get(s.sets, other)
  {
    if plan.Serve? {
      SetIsKnown(s, key);
      BuildKeeps(cfg, plan.basis, SetOf(s, key), s.created, ch.schemas);
    }
  }

  lemma SameSetSameShown(s: Tracked, t: Tracked, k: ObjectKey)
    requires Invariant(s.core) && s.core.created <= t.core.created
    requires Get(t.core.sets, DomainKeys.Format(k)) == Get(s.core.sets, DomainKeys.Format(k))
    ensures ShownFor(t, k) == ShownFor(s, k)
  {
    var dk := DomainKeys.Format(k);
    if dk in s.core.sets {
      SetIsKnown(s.core, dk);
      ViewIsStable(s.core.created, t.core.created, s.core.sets[dk]);
    }
  }

  lemma TrackTouchesOneKey(cfg: Config, s: Tracked, key: string, plan: Plan, ch: Choice, other: string)
    requires LegalPlan(s.core, key, plan, ch) && other != key
    ensures RefusedFor(Track(cfg, s, key, plan, ch), other) == RefusedFor(s, other)
  {
  }

  /** Publishing one key leaves what is shown under every other key as it was. */
  lemma OtherKeysUnchanged(cfg: Config, s: Tracked, k: ObjectKey, plan: Plan, ch: Choice, other: ObjectKey)
    requires Invariant(s.core) && LegalPlan(s.core, DomainKeys.Format(k), plan, ch)
    requires other != k
    ensures var t := Track(cfg, s, DomainKeys.Format(k), plan, ch);
            ShownFor(t, other) == ShownFor(s, other) && RefusedOf(t, other) == RefusedOf(s, other)
  {
    var dk, odk := DomainKeys.Format(k), DomainKeys.Format(other);
    if dk == odk {
      DomainKeys.FormatIsInjective(k, other);
    }
    ReconcileTouchesOneKey(cfg, s.core, dk, plan, ch, odk);
    TrackTouchesOneKey(cfg, s, dk, plan, ch, odk);
    SameSetSameShown(s, Track(cfg, s, dk, plan, ch), other);
  }

  /** What the worker publishes for its own key. */
  lemma PublishedAsPlanned(cfg: Config, s: Tracked, k: ObjectKey, plan: Plan, ch: Choice)
    requires TrackedInvariant(cfg, s) && StableStep(cfg, s, DomainKeys.Format(k), plan, ch)
    ensures Reconcile(cfg, s.core, DomainKeys.Format(k), plan, ch).1 <==> !PlanShown(cfg, plan).Erroneous?
    ensures !PlanShown(cfg, plan).Erroneous? ==>
              var t := Track(cfg, s, DomainKeys.Format(k), plan, ch);
              ShowsAllBut(ShownFor(t, k), PlanShown(cfg, plan), RefusedOf(t, k))
  {
    if plan.Serve? {
      StableStepServesScratch(cfg, s, DomainKeys.Format(k), plan.basis, ch);
    }
  }

  lemma FinishStepKeeps(cfg: Config, w: World, w': World, observed: Caches, ch: Choice)
    requires ConvergenceInvariant(cfg, w) && FinishStep(cfg, w, w', observed, ch)
    requires Benign(cfg, w.caches)
    ensures ConvergenceInvariant(cfg, w')
  {
    var k, dk := w.worker.key, DomainKeys.Format(w.worker.key);
    var plan := KeyPlan(cfg, observed, k, ch.listings);
    DoneIsConsistent(w.queue, k);
    TrackKeepsInvariant(cfg, w.tracked, dk, plan, ch);
    PublishedAsPlanned(cfg, w.tracked, k, plan, ch);
    forall x | Covered(w, x) ensures Covered(w', x) {
    }
    forall x ensures Fresh(cfg, w', x) || Covered(w', x) {
      if x != k {
        OtherKeysUnchanged(cfg, w.tracked, k, plan, ch, x);
        assert Fresh(cfg, w, x) == Fresh(cfg, w', x);
      } else if !Covered(w, k) && !PlanShown(cfg, plan).Erroneous? {
        MixtureIsAlike(observed, w.worker.seen, w.caches, k);
        assert InternalFor(cfg, w.caches, k);
        AlikeSamePlan(cfg, observed, w.caches, k, ch.listings, NoListings(ClaimCount(w.caches, k)));
      }
    }
  }

  /** Being up to date does not depend on what the creator refuses at the moment. */
  lemma ConvergenceInvariantVaries(cfg: Config, other: Config, w: World)
    requires Varies(cfg, other) && ConvergenceInvariant(cfg, w)
    ensures ConvergenceInvariant(other, w)
  {
    InvariantVaries(cfg, other, w.tracked);
    forall k ensures Fresh(cfg, w, k) == Fresh(other, w, k) {
      DesiredVaries(cfg, other, w.caches, k);
    }
  }

  lemma DesiredVaries(cfg: Config, other: Config, c: Caches, k: ObjectKey)
    requires Varies(cfg, other)
    ensures Desired(cfg, c, k) == Desired(other, c, k)
  {
    var plan := KeyPlan(cfg, c, k, NoListings(ClaimCount(c, k)));
    if plan.Serve? {
      ScratchViewVaries(cfg, other, plan.basis);
    }
  }

  /** Finishing keeps the invariant whatever the creator refuses this time. */
  lemma VaryingFinishKeeps(cfg: Config, creator: Config, w: World, w': World, observed: Caches, ch: Choice)
    requires Varies(cfg, creator)
    requires ConvergenceInvariant(cfg, w) && FinishStep(creator, w, w', observed, ch)
    requires Benign(cfg, w.caches)
    ensures ConvergenceInvariant(cfg, w')
  {
    ConvergenceInvariantVaries(cfg, creator, w);
    forall k ensures InternalFor(creator, w.caches, k) {
      assert InternalFor(cfg, w.caches, k);
    }
    FinishStepKeeps(creator, w, w', observed, ch);
    ConvergenceInvariantVaries(creator, cfg, w');
  }

  // ----- Runs -----

  /** One step of the controller, under the hypotheses the convergence theorem needs of it. */
  datatype Action =
    | CacheAction(ev: Event)
    | ResyncAction(ev: Event)
    | DeliverAction(ev: Event)
    | QueueAction(index: nat, key: ObjectKey)
    | EndAction(index: nat, observed: Caches, list: seq<EndpointSlice>)
    | TakeAction
    | RetryAction(key: ObjectKey)
    | FinishAction(observed: Caches, choice: Choice, creator: Config)

  ghost predicate Step(cfg: Config, w: World, w': World, a: Action) {
    match a
    case CacheAction(ev) => CacheStep(w, w', ev)
    case ResyncAction(ev) => ResyncStep(w, w', ev)
    case DeliverAction(ev) => DeliverStep(w, w', ev)
    case QueueAction(i, k) => QueueStep(w, w', i, k)
    case EndAction(i, observed, list) => EndStep(w, w', i, observed, list)
    case TakeAction => TakeStep(w, w')
    case RetryAction(k) => RetryStep(w, w', k)
    case FinishAction(observed, ch, creator) => Varies(cfg, creator) && FinishStep(creator, w, w', observed, ch)
  }

  /** The worker's processNextWorkItem, undisturbed, is one take step and one finish step. */
  lemma ProcessingIsTwoSteps(cfg: Config, w: World, ch: Choice) returns (w1: World, w2: World)
    requires w.worker.Idle? && w.queue.order != []
    requires var k := w.queue.order[0];
             && !w.caches.Slice(k).Failed? && |ch.listings| == ClaimCount(w.caches, k)
             && StableStep(cfg, w.tracked, DomainKeys.Format(k), KeyPlan(cfg, w.caches, k, ch.listings), ch)
    ensures Step(cfg, w, w1, TakeAction) && Step(cfg, w1, w2, FinishAction(w.caches, ch, cfg))
    ensures var k := w.queue.order[0];
            var (core, ok) := Reconcile(cfg, w.tracked.core, DomainKeys.Format(k),
                                        KeyPlan(cfg, w.caches, k, ch.listings), ch);
            && w2.queue == Done(Take(w.queue).1, k)
            && w2.waiting == (if ok then w.waiting else w.waiting + {k})
            && w2.tracked == Track(cfg, w.tracked, DomainKeys.Format(k), KeyPlan(cfg, w.caches, k, ch.listings), ch)
            && w2.tracked.core == core
            && w2.caches == w.caches && w2.pending == w.pending && w2.handlers == w.handlers && w2.worker.Idle?
  {
    var k := w.queue.order[0];
    var dk, plan := DomainKeys.Format(k), KeyPlan(cfg, w.caches, k, ch.listings);
    w1 := w.(queue := Take(w.queue).1, worker := Working(k, [w.caches]));
    forall x ensures SliceSeen(w.caches, [w.caches], x) && ExportSeen(w.caches, [w.caches], x)
                     && SchemaSeen(w.caches, [w.caches], x)
    {
      assert [w.caches][0] == w.caches;
    }
    var ok := Reconcile(cfg, w.tracked.core, dk, plan, ch).1;
    w2 := w1.(queue := Done(w1.queue, k), worker := Idle,
              waiting := if ok then w1.waiting else w1.waiting + {k},
              tracked := Track(cfg, w1.tracked, dk, plan, ch));
  }

  lemma PresentIsMixture(c: Caches, seen: seq<Caches>)
    requires UpToDate(seen, c)
    ensures Mixture(c, seen)
  {
    forall k ensures SliceSeen(c, seen, k) && ExportSeen(c, seen, k) && SchemaSeen(c, seen, k) {
      assert seen[|seen| - 1] == c;
    }
  }

  lemma {:induction false} SchemaTargetsAreSlices(c: Caches, key: ObjectKey, list: seq<EndpointSlice>)
    requires WellKeyed(c) && forall s :: s in list ==> s.Key() in c.slices
    ensures SchemaTargets(c, key, list) <= c.slices.Keys
  {
    if list != [] {
      SchemaTargetsAreSlices(c, key, list[1..]);
    }
  }

  lemma TargetsAreCandidates(c: Caches, h: Handler, list: seq<EndpointSlice>)
    requires WellKeyed(c) && UpToDate(h.seen, c)
    requires h.ev.SchemaEvent? ==> Lists(c, h.ev.key.cluster, list)
    ensures EventTargets(c, h.ev, list) <= Candidates(h)
  {
    assert c.slices.Keys <= SeenSlices(h.seen);
    if h.ev.SchemaEvent? {
      SchemaTargetsAreSlices(c, h.ev.key, list);
    }
  }

  ghost predicate Steps(cfg: Config, worlds: seq<World>, actions: seq<Action>) {
    && |worlds| == |actions| + 1
    && forall i :: 0 <= i < |actions| ==> Step(cfg, worlds[i], worlds[i + 1], actions[i])
  }

  lemma OneStepMore(cfg: Config, worlds: seq<World>, actions: seq<Action>, w: World, a: Action)
    requires Steps(cfg, worlds, actions) && Step(cfg, worlds[|actions|], w, a)
    ensures Steps(cfg, worlds + [w], actions + [a]) && (worlds + [w])[|actions + [a]|] == w
  {
    forall i | 0 <= i < |actions + [a]|
      ensures Step(cfg, (worlds + [w])[i], (worlds + [w])[i + 1], (actions + [a])[i])
    {
      if i < |actions| {
        assert Step(cfg, worlds[i], worlds[i + 1], actions[i]);
      }
    }
  }

  /** The world after a handler has queued keys one after the other. */
  function Queued(w: World, i: nat, keys: seq<ObjectKey>): World
    requires i < |w.handlers|
  {
    var h := w.handlers[i];
    w.(queue := AddAll(w.queue, keys), handlers := w.handlers[i := h.(added := h.added + set k | k in keys)])
  }

  lemma {:induction false} QueueingSteps(cfg: Config, worlds: seq<World>, actions: seq<Action>, i: nat,
                                         keys: seq<ObjectKey>)
    returns (worlds': seq<World>, actions': seq<Action>)
    requires Steps(cfg, worlds, actions) && i < |worlds[|actions|].handlers|
    requires forall k :: k in keys ==> k in Candidates(worlds[|actions|].handlers[i])
    ensures Steps(cfg, worlds', actions') && worlds'[0] == worlds[0]
    ensures worlds'[|actions'|] == Queued(worlds[|actions|], i, keys)
  {
    var w := worlds[|actions|];
    if keys == [] {
      worlds', actions' := worlds, actions;
      assert w.handlers[i := w.handlers[i]] == w.handlers;
      assert w.handlers[i].added + (set k | k in keys) == w.handlers[i].added;
    } else {
      var init, last := keys[..|keys| - 1], keys[|keys| - 1];
      assert keys == init + [last];
      worlds', actions' := QueueingSteps(cfg, worlds, actions, i, init);
      QueuedOneMore(w, i, init, last);
      OneStepMore(cfg, worlds', actions', Queued(w, i, keys), QueueAction(i, last));
      worlds', actions' := worlds' + [Queued(w, i, keys)], actions' + [QueueAction(i, last)];
    }
  }

  lemma QueuedOneMore(w: World, i: nat, init: seq<ObjectKey>, last: ObjectKey)
    requires i < |w.handlers| && last in Candidates(w.handlers[i])
    ensures QueueStep(Queued(w, i, init), Queued(w, i, init + [last]), i, last)
  {
    assert (init + [last])[..|init|] == init;
    assert (set k | k in init + [last]) == (set k | k in init) + {last};
    var h := w.handlers[i];
    assert h.added + (set k | k in init) + {last} == h.added + (set k | k in init + [last]);
  }

  /** A handler run undisturbed, as the controller's methods run it, is a sequence of steps. */
  lemma HandlingIsSteps(cfg: Config, w: World, ev: Event, list: seq<EndpointSlice>, keys: seq<ObjectKey>)
    returns (worlds: seq<World>, actions: seq<Action>)
    requires ev in w.pending && WellKeyed(w.caches)
    requires Enqueues(w.caches, ev, list, set k | k in keys)
    ensures Steps(cfg, worlds, actions) && worlds[0] == w
    ensures worlds[|actions|] == w.(pending := w.pending - multiset{ev}, queue := AddAll(w.queue, keys))
  {
    var h, n := Handler(ev, [w.caches], {}), |w.handlers|;
    var w1 := w.(pending := w.pending - multiset{ev}, handlers := w.handlers + [h]);
    worlds, actions := [w, w1], [DeliverAction(ev)];
    TargetsAreCandidates(w.caches, h, list);
    worlds, actions := QueueingSteps(cfg, worlds, actions, n, keys);
    var w2 := Queued(w1, n, keys);
    PresentIsMixture(w.caches, h.seen);
    var w3 := w.(pending := w.pending - multiset{ev}, queue := AddAll(w.queue, keys));
    assert w2.handlers[..n] + w2.handlers[n + 1..] == w.handlers;
    OneStepMore(cfg, worlds, actions, w3, EndAction(n, w.caches, list));
    worlds, actions := worlds + [w3], actions + [EndAction(n, w.caches, list)];
  }

  /** What a handler of a schema notification has observed lets it reach every key it concerns. */
  ghost predicate Reaches(w: World, a: Action) {
    a.EndAction? && a.index < |w.handlers| ==> DeliveryReaches(a.observed, w.handlers[a.index].ev)
  }

  /** The controller starts empty, with a notification pending for every slice in the cache. */
  ghost predicate Starts(w: World) {
    && w.queue == EMPTY && w.handlers == [] && w.waiting == {} && w.worker.Idle? && w.tracked == START
    && forall k :: k in w.caches.slices ==> SliceEvent(w.caches.slices[k]) in w.pending
  }

  ghost predicate BenignRun(cfg: Config, worlds: seq<World>, actions: seq<Action>) {
    && |worlds| == |actions| + 1
    && Starts(worlds[0])
    && (forall i :: 0 <= i < |worlds| ==> Benign(cfg, worlds[i].caches))
    && (forall i :: 0 <= i < |actions| ==>
          Step(cfg, worlds[i], worlds[i + 1], actions[i]) && Reaches(worlds[i], actions[i]))
  }

  lemma StartSatisfies(cfg: Config, w: World)
    requires Starts(w) && Benign(cfg, w.caches)
    ensures ConvergenceInvariant(cfg, w)
  {
    assert forall id: nat :: !Live(INITIAL, id);
    forall k ensures Fresh(cfg, w, k) || Covered(w, k) {
      if k in w.caches.slices {
        assert Concerns(w.caches, SliceEvent(w.caches.slices[k]), k);
      }
    }
  }

  /** Every step keeps the invariant. */
  lemma StepKeepsConverging(cfg: Config, w: World, w': World, a: Action)
    requires ConvergenceInvariant(cfg, w) && Step(cfg, w, w', a) && Reaches(w, a)
    requires Benign(cfg, w.caches) && Benign(cfg, w'.caches)
    ensures ConvergenceInvariant(cfg, w')
  {
    match a
    case CacheAction(ev) => CacheStepKeeps(cfg, w, w', ev);
    case ResyncAction(ev) => ResyncStepKeeps(cfg, w, w', ev);
    case DeliverAction(ev) => DeliverStepKeeps(cfg, w, w', ev);
    case QueueAction(i, k) => QueueStepKeeps(cfg, w, w', i, k);
    case EndAction(i, observed, list) => EndStepKeeps(cfg, w, w', i, observed, list);
    case TakeAction => TakeStepKeeps(cfg, w, w');
    case RetryAction(k) => RetryStepKeeps(cfg, w, w', k);
    case FinishAction(observed, ch, creator) => VaryingFinishKeeps(cfg, creator, w, w', observed, ch);
  }

  /** In every state of every run, what is out of date is queued, being redone, or about to be queued. */
  lemma {:induction false} EveryRunKeepsConverging(cfg: Config, worlds: seq<World>, actions: seq<Action>, i: nat)
    requires BenignRun(cfg, worlds, actions) && i < |worlds|
    ensures ConvergenceInvariant(cfg, worlds[i])
  {
    if i == 0 {
      StartSatisfies(cfg, worlds[0]);
    } else {
      EveryRunKeepsConverging(cfg, worlds, actions, i - 1);
      StepKeepsConverging(cfg, worlds[i - 1], worlds[i], actions[i - 1]);
    }
  }

  /** Nothing is left to do. */
  predicate Quiescent(w: World) {
    && w.queue.order == [] && w.worker.Idle? && w.waiting == {}
    && w.pending == multiset{} && w.handlers == []
  }

  /**
   Convergence: whenever a run comes to rest, every key publishes what a build
   from nothing would publish for the caches as they are now, less the entries
   its last reconcile was refused; hence exactly that if it was refused none.
   */
  lemma QuiescentRunsAreCorrect(cfg: Config, worlds: seq<World>, actions: seq<Action>, i: nat, k: ObjectKey)
    requires BenignRun(cfg, worlds, actions) && i < |worlds| && Quiescent(worlds[i])
    ensures ShowsAllBut(ShownFor(worlds[i].tracked, k), Desired(cfg, worlds[i].caches, k),
                        RefusedOf(worlds[i].tracked, k))
    ensures ShownFor(worlds[i].tracked, k) == Desired(cfg, worlds[i].caches, k)
            <==> RefusedOf(worlds[i].tracked, k) == {}
  {
    var w := worlds[i];
    EveryRunKeepsConverging(cfg, worlds, actions, i);
    assert k in w.queue.order <==> k in w.queue.dirty;
    assert Fresh(cfg, w, k) || Covered(w, k);
    var wanted := Desired(cfg, w.caches, k);
    if wanted.Showing? {
      WithoutMeaning(wanted.view, RefusedOf(w.tracked, k));
    }
  }

  /** The creator refuses nothing in this step. */
  ghost predicate CreatesAll(a: Action) {
    a.FinishAction? ==> forall p :: a.creator.creatable(p)
  }

  lemma StepRefusesNothing(cfg: Config, w: World, w': World, a: Action, k: ObjectKey)
    requires Step(cfg, w, w', a) && CreatesAll(a) && RefusedOf(w.tracked, k) == {}
    ensures RefusedOf(w'.tracked, k) == {}
  {
  }

  lemma {:induction false} NothingRefusedSoFar(cfg: Config, worlds: seq<World>, actions: seq<Action>, i: nat,
                                               k: ObjectKey)
    requires BenignRun(cfg, worlds, actions) && i < |worlds|
    requires forall j :: 0 <= j < i ==> CreatesAll(actions[j])
    ensures RefusedOf(worlds[i].tracked, k) == {}
  {
    if i > 0 {
      NothingRefusedSoFar(cfg, worlds, actions, i - 1, k);
      StepRefusesNothing(cfg, worlds[i - 1], worlds[i], actions[i - 1], k);
    }
  }

  /** A run in which no creation is refused comes to rest with every key exactly as it should be. */
  lemma UnrefusedRunsAreCorrect(cfg: Config, worlds: seq<World>, actions: seq<Action>, i: nat, k: ObjectKey)
    requires BenignRun(cfg, worlds, actions) && i < |worlds| && Quiescent(worlds[i])
    requires forall j :: 0 <= j < i ==> CreatesAll(actions[j])
    ensures ShownFor(worlds[i].tracked, k) == Desired(cfg, worlds[i].caches, k)
  {
    NothingRefusedSoFar(cfg, worlds, actions, i, k);
    QuiescentRunsAreCorrect(cfg, worlds, actions, i, k);
  }
}
