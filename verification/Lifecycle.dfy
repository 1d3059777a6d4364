/**
 The life of API definitions: created, published under one domain key and one
 GVR, then torn down or dropped. The state is what the reconciler holds plus a
 log of the creations and TearDown calls it made.
 */
module Lifecycle {
  import opened Wrappers
  import opened Apis
  import opened ExportOrder
  import opened ClaimResolution
  import opened Definitions

  /**
   `created` is the log of created definitions and `torn` the log of TearDown
   calls; `dropped` are definitions no set refers to that were never torn down.
   */
  datatype State = State(sets: map<string, DefinitionSet>, created: seq<Params>, torn: seq<nat>, dropped: set<nat>)

  const INITIAL := State(map[], [], [], {})

  /** What a reconcile decides to do after its lookups. */
  datatype Plan = Remove | Retry | Serve(basis: Basis)

  /** Everything a reconcile leaves to iteration order: claim listings, schema map, old set. */
  datatype Choice = Choice(listings: seq<seq<APIExport>>, schemas: seq<GroupResource>, cleanup: seq<GVR>)

  function ExportOf(c: Caches, slice: EndpointSlice): Lookup<APIExport> {
    c.Export(slice.ExportKey())
  }

  ghost predicate LegalListings(c: Caches, e: APIExport, listings: seq<seq<APIExport>>) {
    && |listings| == |e.claims|
    && forall i :: 0 <= i < |listings| ==> IdentityListing(c, e.claims[i].identityHash, listings[i])
  }

  /** A sorted answer of the identity index for `hash`. */
  ghost predicate IdentityListing(c: Caches, hash: string, xs: seq<APIExport>) {
    exists index :: Indexed(c, hash, index) && Listing(index, xs)
  }

  ghost predicate Indexed(c: Caches, hash: string, index: seq<APIExport>) {
    && NoDuplicates(index)
    && forall e :: e in index <==> exists k :: k in c.exports && c.exports[k] == e && e.identityHash == hash
  }

  function PlanFor(cfg: Config, c: Caches, slice: Option<EndpointSlice>, listings: seq<seq<APIExport>>): Plan {
    if slice.None? then Remove
    else
      match ExportOf(c, slice.value)
      case Failed => Retry
      case NotFound => Remove
      case Found(e) =>
        if e.identityHash == "" then Remove
        else if |listings| != |e.claims| then Retry
        else
          match Resolve(cfg.tables, c, e, listings)
          case Err => Retry
          case Ok(r) => Serve(Basis(slice.value, e, r))
  }

  /**
   The set is removed exactly when the slice is gone, its own cluster has no
   export of the name, or that has no identity yet; nothing is decided exactly
   when the export or its claims cannot be looked up; otherwise it is served.
   */
  lemma PlanMeaning(cfg: Config, c: Caches, slice: Option<EndpointSlice>, listings: seq<seq<APIExport>>)
    requires slice.Some? ==>
               forall e :: c.Export(ObjectKey(slice.value.cluster, slice.value.exportName)) == Found(e)
                           ==> |listings| == |e.claims|
    ensures var plan := PlanFor(cfg, c, slice, listings);
            && (slice.None? ==> plan == Remove)
            && (slice.Some? ==>
                  var found := c.Export(ObjectKey(slice.value.cluster, slice.value.exportName));
                  && (plan.Remove? <==> found == NotFound || (found.Found? && found.value.identityHash == ""))
                  && (plan.Retry? <==> || found == Failed
                                       || (found.Found? && found.value.identityHash != ""
                                           && Resolve(cfg.tables, c, found.value, listings).Err?))
                  && (plan.Serve? ==>
                        && found.Found? && plan.basis.slice == slice.value && plan.basis.apiExport == found.value
                        && Resolve(cfg.tables, c, found.value, listings) == Ok(plan.basis.r)))
  {
  }

  function SetOf(s: State, key: string): DefinitionSet { GetOr(s.sets, key, map[]) }

  ghost predicate LegalPlan(s: State, key: string, plan: Plan, ch: Choice) {
    plan.Serve? ==>
      && plan.basis.apiExport.identityHash != ""
      && Enumerates(ch.schemas, plan.basis.r.schemas.Keys)
      && Enumerates(ch.cleanup, SetOf(s, key).Keys)
  }

  /** The numbers from `lo` up to, but not including, `hi`. */
  function Range(lo: nat, hi: nat): (r: set<nat>)
    ensures forall id: nat :: id in r <==> lo <= id < hi
  {
    if lo >= hi then {} else Range(lo, hi - 1) + {hi - 1}
  }

  function Ids(ds: DefinitionSet): set<nat> { set gvr | gvr in ds :: ds[gvr].def }

  /** The state after a reconcile of `key`, and whether it returned without an error. */
  ghost function Reconcile(cfg: Config, s: State, key: string, plan: Plan, ch: Choice): (State, bool)
    requires LegalPlan(s, key, plan, ch)
  {
    match plan
    case Retry => (s, false)
    case Remove => (s.(sets := s.sets - {key}, dropped := s.dropped + Ids(SetOf(s, key))), true)
    case Serve(b) =>
      var prev := SetOf(s, key);
      var p := Build(cfg, b, prev, ch.schemas, s.created);
      if p.failed then
        (s.(created := p.created, dropped := s.dropped + Range(|s.created|, |p.created|)), false)
      else
        (State(s.sets[key := p.entries], p.created, s.torn + TornDown(prev, p.entries, ch.cleanup),
               s.dropped + p.dropped), true)
  }

  // ----- The invariant -----

  predicate Published(s: State, key: string, gvr: GVR, id: nat) {
    key in s.sets && gvr in s.sets[key] && s.sets[key][gvr].def == id
  }

  ghost predicate Live(s: State, id: nat) {
    exists key, gvr :: Published(s, key, gvr, id)
  }

  /** A published definition exists, is neither torn down nor dropped, and has one place only. */
  ghost predicate PublishedAreLive(s: State) {
    && (forall key, gvr, id: nat :: Published(s, key, gvr, id) ==>
          id < |s.created| && id !in s.torn && id !in s.dropped)
    && (forall key, gvr, key', gvr', id: nat :: Published(s, key, gvr, id) && Published(s, key', gvr', id) ==>
          key == key' && gvr == gvr')
  }

  /** Every created definition is published, torn down or dropped, and torn down at most once. */
  ghost predicate Conserved(s: State) {
    && (forall id: nat :: id < |s.created| <==> Live(s, id) || id in s.torn || id in s.dropped)
    && NoDuplicates(s.torn)
    && (forall id :: id in s.torn ==> id !in s.dropped)
  }

  /** An entry without an identity hash is a fallback, and the other way round. */
  ghost predicate FallbacksUnmarked(s: State) {
    forall key, gvr, id: nat :: Published(s, key, gvr, id) && id < |s.created| ==>
                             (s.sets[key][gvr].identityHash == "" <==> !s.created[id].Backed?)
  }

  ghost predicate Invariant(s: State) {
    PublishedAreLive(s) && Conserved(s) && FallbacksUnmarked(s)
  }

  // ----- What building a set keeps -----

  /** Every entry of the set being built is an old one at its old place or a new definition. */
  ghost predicate EntriesKnown(prev: DefinitionSet, base: nat, p: Progress) {
    forall gvr :: gvr in p.entries ==>
                    && p.entries[gvr].def < |p.created|
                    && (p.entries[gvr].def < base ==> gvr in prev && prev[gvr] == p.entries[gvr])
                    && (p.entries[gvr].identityHash == "" <==> !p.created[p.entries[gvr].def].Backed?)
  }

  /** A new definition has one place, and none once it is dropped. */
  ghost predicate NewPlacedOnce(base: nat, p: Progress) {
    && (forall g, g' :: g in p.entries && g' in p.entries && base <= p.entries[g].def == p.entries[g'].def ==> g == g')
    && (forall g :: g in p.entries ==> p.entries[g].def !in p.dropped)
    && (forall id :: id in p.dropped ==> base <= id < |p.created|)
  }

  ghost predicate Placed(p: Progress, id: nat) { exists gvr :: gvr in p.entries && p.entries[gvr].def == id }

  ghost predicate NewAccounted(base: nat, p: Progress) {
    forall id: nat :: base <= id < |p.created| ==> id in p.dropped || Placed(p, id)
  }

  ghost predicate BuildInvariant(prev: DefinitionSet, created: seq<Params>, p: Progress) {
    && created <= p.created
    && EntriesKnown(prev, |created|, p)
    && NewPlacedOnce(|created|, p)
    && NewAccounted(|created|, p)
  }

  ghost predicate KnownSet(prev: DefinitionSet, created: seq<Params>) {
    forall gvr :: gvr in prev ==>
                    && prev[gvr].def < |created|
                    && (prev[gvr].identityHash == "" <==> !created[prev[gvr].def].Backed?)
  }

  /** Installing a definition made a moment ago. */
  lemma NewStaysPlacedOnce(base: nat, p: Progress, q: Progress, gvr: GVR, e: Entry)
    requires NewPlacedOnce(base, p)
    requires forall g :: g in p.entries ==> p.entries[g].def < |p.created|
    requires base <= |p.created| == e.def
    requires q == Install(p.(created := q.created), base, gvr, e) && |q.created| == |p.created| + 1
    ensures NewPlacedOnce(base, q)
  {
  }

  /** Installing an old definition again. */
  lemma OldStaysPlacedOnce(base: nat, p: Progress, q: Progress, gvr: GVR, e: Entry)
    requires NewPlacedOnce(base, p)
    requires forall g :: g in p.entries ==> p.entries[g].def < |p.created|
    requires e.def < base
    requires q == Install(p, base, gvr, e)
    ensures NewPlacedOnce(base, q)
  {
  }

  lemma NewStaysAccounted(base: nat, p: Progress, q: Progress, gvr: GVR, e: Entry)
    requires NewAccounted(base, p)
    requires q == Install(p.(created := q.created), base, gvr, e)
    requires |q.created| == |p.created| || (|q.created| == |p.created| + 1 && e.def == |p.created|)
    ensures NewAccounted(base, q)
  {
    assert q.entries[gvr].def == e.def;
    forall id: nat | base <= id < |q.created| ensures id in q.dropped || Placed(q, id) {
      if id < |p.created| && id !in p.dropped {
        var g :| g in p.entries && p.entries[g].def == id;
        assert g == gvr || q.entries[g].def == id;
      }
    }
  }

  lemma InstallKeeps(prev: DefinitionSet, created: seq<Params>, p: Progress, gvr: GVR)
    requires KnownSet(prev, created) && BuildInvariant(prev, created, p)
    requires gvr in prev
    ensures BuildInvariant(prev, created, Install(p, |created|, gvr, prev[gvr]))
  {
    var q := Install(p, |created|, gvr, prev[gvr]);
    OldStaysPlacedOnce(|created|, p, q, gvr, prev[gvr]);
    NewStaysAccounted(|created|, p, q, gvr, prev[gvr]);
    assert q.created[prev[gvr].def] == created[prev[gvr].def];
  }

  lemma CreateKeeps(prev: DefinitionSet, created: seq<Params>, p: Progress, gvr: GVR, params: Params,
                    uid: string, hash: string)
    requires BuildInvariant(prev, created, p)
    requires hash == "" <==> !params.Backed?
    ensures BuildInvariant(prev, created, Create(p, |created|, gvr, params, uid, hash))
  {
    var q := Create(p, |created|, gvr, params, uid, hash);
    var e := Entry(|p.created|, uid, hash);
    NewStaysPlacedOnce(|created|, p, q, gvr, e);
    NewStaysAccounted(|created|, p, q, gvr, e);
    assert q.created == p.created + [params];
  }

  lemma AddSlotKeeps(cfg: Config, b: Basis, prev: DefinitionSet, created: seq<Params>, slot: Slot, p: Progress)
    requires b.apiExport.identityHash != ""
    requires KnownSet(prev, created) && BuildInvariant(prev, created, p)
    ensures BuildInvariant(prev, created, AddSlot(cfg, b, prev, |created|, slot, p))
  {
    var gvr := slot.GVR();
    if p.failed || !slot.version.served {
    } else if Reused(b, prev, slot) {
      InstallKeeps(prev, created, p, gvr);
    } else {
      match NewParams(cfg, b, slot.schema, slot.version.name)
      case None =>
      case Some(params) => CreateKeeps(prev, created, p, gvr, params, slot.schema.uid, b.apiExport.identityHash);
    }
  }

  lemma {:induction false} AddSlotsKeeps(cfg: Config, b: Basis, prev: DefinitionSet, created: seq<Params>,
                                         slots: seq<Slot>)
    requires b.apiExport.identityHash != ""
    requires KnownSet(prev, created)
    ensures BuildInvariant(prev, created, AddSlots(cfg, b, prev, |created|, slots, Nothing(created)))
  {
    if slots == [] {
    } else {
      var last := |slots| - 1;
      AddSlotsKeeps(cfg, b, prev, created, slots[..last]);
      AddSlotKeeps(cfg, b, prev, created, slots[last],
                   AddSlots(cfg, b, prev, |created|, slots[..last], Nothing(created)));
    }
  }

  lemma AddFallbacksKeeps(b: Basis, prev: DefinitionSet, created: seq<Params>, p: Progress)
    requires BuildInvariant(prev, created, p)
    ensures BuildInvariant(prev, created, AddSlicesFallback(b, |created|, AddBindingsFallback(b, |created|, p)))
  {
    var base := |created|;
    var cluster, name := b.apiExport.cluster, b.apiExport.name;
    if !b.r.claimsAPIBindings {
      CreateKeeps(prev, created, p, BINDINGS_V1, BindingsFallback("v1alpha1", cluster, name), "", "");
      var p1 := Create(p, base, BINDINGS_V1, BindingsFallback("v1alpha1", cluster, name), "", "");
      CreateKeeps(prev, created, p1, BINDINGS_V2, BindingsFallback("v1alpha2", cluster, name), "", "");
    }
    if !b.r.claimsFilteredSlices {
      CreateKeeps(prev, created, AddBindingsFallback(b, base, p), SLICES_V1,
                  SlicesFallback("v1alpha1", cluster, name), "", "");
    }
  }

  lemma BuildKeeps(cfg: Config, b: Basis, prev: DefinitionSet, created: seq<Params>, order: seq<GroupResource>)
    requires forall gr :: gr in order ==> gr in b.r.schemas
    requires b.apiExport.identityHash != ""
    requires KnownSet(prev, created)
    ensures BuildInvariant(prev, created, Build(cfg, b, prev, order, created))
  {
    AddSlotsKeeps(cfg, b, prev, created, Slots(b.r, order));
    var p := AddSlots(cfg, b, prev, |created|, Slots(b.r, order), Nothing(created));
    if !p.failed {
      AddFallbacksKeeps(b, prev, created, p);
    }
  }

  // ----- What cleaning up does -----

  /** `id` is the definition of an old entry that was not carried over. */
  ghost predicate RemovedId(prev: DefinitionSet, next: DefinitionSet, id: nat) {
    exists gvr :: gvr in prev && Removed(prev, next, gvr) && prev[gvr].def == id
  }

  /** The cleanup loop tears down exactly the entries that were not carried over, each once. */
  lemma {:induction false} TornDownMeaning(prev: DefinitionSet, next: DefinitionSet, order: seq<GVR>)
    requires NoDuplicates(order) && forall gvr :: gvr in order ==> gvr in prev
    requires forall g, g' :: g in prev && g' in prev && prev[g].def == prev[g'].def ==> g == g'
    ensures var log := TornDown(prev, next, order);
            && NoDuplicates(log)
            && forall id :: id in log <==> exists gvr :: gvr in order && Removed(prev, next, gvr) && prev[gvr].def == id
  {
    var log := TornDown(prev, next, order);
    if order == [] {
    } else {
      var last := |order| - 1;
      var init, g := order[..last], order[last];
      TornDownMeaning(prev, next, init);
      var log' := TornDown(prev, next, init);
      assert order == init + [g] && g !in init;
      assert prev[g].def !in log';
      forall id ensures id in log <==> exists gvr :: gvr in order && Removed(prev, next, gvr) && prev[gvr].def == id {
        if id in log {
          if id in log' {
            var h :| h in init && Removed(prev, next, h) && prev[h].def == id;
            assert h in order;
          } else {
            assert g in order;
          }
        }
        if h :| h in order && Removed(prev, next, h) && prev[h].def == id {
          assert h in init || h == g;
        }
      }
    }
  }

  // ----- The invariant over one reconcile -----

  lemma SetIsKnown(s: State, key: string)
    requires Invariant(s)
    ensures KnownSet(SetOf(s, key), s.created)
    ensures forall g, g' :: g in SetOf(s, key) && g' in SetOf(s, key) && SetOf(s, key)[g].def == SetOf(s, key)[g'].def
                            ==> g == g'
  {
    forall gvr | gvr in SetOf(s, key)
      ensures Published(s, key, gvr, SetOf(s, key)[gvr].def)
    {
    }
  }

  lemma RemovalKeepsInvariant(s: State, key: string)
    requires Invariant(s)
    ensures Invariant(s.(sets := s.sets - {key}, dropped := s.dropped + Ids(SetOf(s, key))))
  {
    var t := s.(sets := s.sets - {key}, dropped := s.dropped + Ids(SetOf(s, key)));
    forall k, gvr, id | Published(t, k, gvr, id) ensures Published(s, k, gvr, id) && id !in t.dropped {
      assert Published(s, k, gvr, id);
      forall g | g in SetOf(s, key) ensures SetOf(s, key)[g].def != id {
        assert Published(s, key, g, SetOf(s, key)[g].def);
      }
    }
    forall id: nat ensures id < |t.created| <==> Live(t, id) || id in t.torn || id in t.dropped {
      if Live(s, id) {
        var k, gvr :| Published(s, k, gvr, id);
        assert k == key ==> id in Ids(SetOf(s, key));
        assert k != key ==> Published(t, k, gvr, id);
      }
      if id in Ids(SetOf(s, key)) {
        var g :| g in SetOf(s, key) && SetOf(s, key)[g].def == id;
        assert Published(s, key, g, id);
      }
    }
    forall id | id in t.torn ensures id !in t.dropped {
      forall g | g in SetOf(s, key) ensures SetOf(s, key)[g].def != id {
        assert Published(s, key, g, SetOf(s, key)[g].def);
      }
    }
  }

  lemma FailureKeepsInvariant(cfg: Config, s: State, key: string, b: Basis, ch: Choice)
    requires Invariant(s) && LegalPlan(s, key, Serve(b), ch)
    requires Build(cfg, b, SetOf(s, key), ch.schemas, s.created).failed
    ensures Invariant(Reconcile(cfg, s, key, Serve(b), ch).0)
    ensures var t := Reconcile(cfg, s, key, Serve(b), ch).0;
            && t.sets == s.sets && t.torn == s.torn && s.created <= t.created
            && forall id: nat :: id in t.dropped <==> id in s.dropped || |s.created| <= id < |t.created|
  {
    var t := Reconcile(cfg, s, key, Serve(b), ch).0;
    SetIsKnown(s, key);
    BuildKeeps(cfg, b, SetOf(s, key), s.created, ch.schemas);
    assert forall k, gvr, id: nat :: Published(t, k, gvr, id) <==> Published(s, k, gvr, id);
    forall id: nat ensures id < |t.created| <==> Live(t, id) || id in t.torn || id in t.dropped {
      assert Live(t, id) <==> Live(s, id);
    }
  }

  /** Publishing a built set after a cleanup whose TearDown calls are `log`. */
  ghost predicate Publication(s: State, key: string, p: Progress, log: seq<nat>, t: State) {
    && BuildInvariant(SetOf(s, key), s.created, p)
    && NoDuplicates(log)
    && (forall id :: id in log <==> RemovedId(SetOf(s, key), p.entries, id))
    && t == State(s.sets[key := p.entries], p.created, s.torn + log, s.dropped + p.dropped)
  }

  lemma RemovedWerePublished(s: State, key: string, next: DefinitionSet, id: nat)
    requires Invariant(s) && RemovedId(SetOf(s, key), next, id)
    ensures id < |s.created| && id !in s.torn && id !in s.dropped
    ensures exists gvr :: Published(s, key, gvr, id) && Removed(SetOf(s, key), next, gvr)
  {
    var g :| g in SetOf(s, key) && Removed(SetOf(s, key), next, g) && SetOf(s, key)[g].def == id;
    assert Published(s, key, g, id);
  }

  lemma PublishedAfter(s: State, key: string, p: Progress, log: seq<nat>, t: State, k: string, gvr: GVR, id: nat)
    requires Invariant(s) && Publication(s, key, p, log, t) && Published(t, k, gvr, id)
    ensures id < |t.created| && id !in t.torn && id !in t.dropped
    ensures id < |s.created| ==> Published(s, k, gvr, id)
    ensures |s.created| <= id ==> k == key
    ensures t.sets[k][gvr].identityHash == "" <==> !t.created[id].Backed?
  {
    if id < |s.created| {
      assert Published(s, k, gvr, id);
      assert t.created[id] == s.created[id];
      if id in log {
        RemovedWerePublished(s, key, p.entries, id);
      }
    } else {
      assert k == key by {
        if k != key {
          assert Published(s, k, gvr, id);
        }
      }
      if id in log {
        RemovedWerePublished(s, key, p.entries, id);
      }
    }
  }

  lemma PublicationKeepsLiveness(s: State, key: string, p: Progress, log: seq<nat>, t: State)
    requires Invariant(s) && Publication(s, key, p, log, t)
    ensures PublishedAreLive(t) && FallbacksUnmarked(t)
  {
    forall k, gvr, id: nat | Published(t, k, gvr, id)
      ensures id < |t.created| && id !in t.torn && id !in t.dropped
      ensures id < |s.created| ==> Published(s, k, gvr, id)
      ensures |s.created| <= id ==> k == key
      ensures t.sets[k][gvr].identityHash == "" <==> !t.created[id].Backed?
    {
      PublishedAfter(s, key, p, log, t, k, gvr, id);
    }
  }

  /** An old definition stays where it was unless it was torn down. */
  lemma OldIsAccounted(s: State, key: string, p: Progress, log: seq<nat>, t: State, id: nat)
    requires Invariant(s) && Publication(s, key, p, log, t)
    requires id < |s.created|
    ensures Live(t, id) || id in t.torn || id in t.dropped
  {
    if Live(s, id) {
      var k, gvr :| Published(s, k, gvr, id);
      if k == key && Removed(SetOf(s, key), p.entries, gvr) {
        assert RemovedId(SetOf(s, key), p.entries, id);
      } else {
        assert Published(t, k, gvr, id);
      }
    }
  }

  lemma PublicationConserves(s: State, key: string, p: Progress, log: seq<nat>, t: State)
    requires Invariant(s) && Publication(s, key, p, log, t)
    ensures Conserved(t)
  {
    PublicationKeepsLiveness(s, key, p, log, t);
    forall id | id in log ensures id < |s.created| && id !in s.torn && id !in s.dropped {
      RemovedWerePublished(s, key, p.entries, id);
    }
    forall id | id in t.torn ensures id < |s.created| && id !in t.dropped {
      assert id in s.torn || id in log;
    }
    assert NoDuplicates(t.torn) by {
      forall i, j | 0 <= i < j < |t.torn| ensures t.torn[i] != t.torn[j] {
        assert i < |s.torn| ==> t.torn[i] in s.torn;
        assert j >= |s.torn| ==> t.torn[j] in log;
      }
    }
    forall id: nat ensures id < |t.created| <==> Live(t, id) || id in t.torn || id in t.dropped {
      if id < |s.created| {
        OldIsAccounted(s, key, p, log, t, id);
      } else if id < |t.created| && id !in p.dropped {
        var gvr :| gvr in p.entries && p.entries[gvr].def == id;
        assert Published(t, key, gvr, id);
      }
    }
  }

  /** A serving reconcile that does not fail is a publication. */
  lemma ServingPublishes(cfg: Config, s: State, key: string, b: Basis, ch: Choice)
    requires Invariant(s) && LegalPlan(s, key, Serve(b), ch)
    requires !Build(cfg, b, SetOf(s, key), ch.schemas, s.created).failed
    ensures var p := Build(cfg, b, SetOf(s, key), ch.schemas, s.created);
            Publication(s, key, p, TornDown(SetOf(s, key), p.entries, ch.cleanup),
                        Reconcile(cfg, s, key, Serve(b), ch).0)
  {
    var prev := SetOf(s, key);
    SetIsKnown(s, key);
    BuildKeeps(cfg, b, prev, s.created, ch.schemas);
    TornDownMeaning(prev, Build(cfg, b, prev, ch.schemas, s.created).entries, ch.cleanup);
  }

  /** One reconcile, whatever it finds and in whatever order it iterates, keeps the invariant. */
  lemma ReconcileKeepsInvariant(cfg: Config, s: State, key: string, plan: Plan, ch: Choice)
    requires Invariant(s) && LegalPlan(s, key, plan, ch)
    ensures Invariant(Reconcile(cfg, s, key, plan, ch).0)
  {
    match plan
    case Retry =>
    case Remove => RemovalKeepsInvariant(s, key);
    case Serve(b) =>
      if Build(cfg, b, SetOf(s, key), ch.schemas, s.created).failed {
        FailureKeepsInvariant(cfg, s, key, b, ch);
      } else {
        ServingPublishes(cfg, s, key, b, ch);
        var p := Build(cfg, b, SetOf(s, key), ch.schemas, s.created);
        var log := TornDown(SetOf(s, key), p.entries, ch.cleanup);
        var t := Reconcile(cfg, s, key, Serve(b), ch).0;
        PublicationKeepsLiveness(s, key, p, log, t);
        PublicationConserves(s, key, p, log, t);
      }
  }

  // ----- Runs of the single worker -----

  /** Any reconcile of any key; whether a creation succeeds may differ from one step to the next. */
  ghost predicate ReconcileStep(s: State, t: State) {
    exists cfg, key, plan, ch :: StepBy(cfg, s, key, plan, ch, t)
  }

  ghost predicate StepBy(cfg: Config, s: State, key: string, plan: Plan, ch: Choice, t: State) {
    LegalPlan(s, key, plan, ch) && t == Reconcile(cfg, s, key, plan, ch).0
  }

  ghost predicate Run(states: seq<State>) {
    && states != []
    && states[0] == INITIAL
    && forall i :: 0 < i < |states| ==> StepInto(states, i)
  }

  ghost predicate StepInto(states: seq<State>, i: nat)
    requires 0 < i < |states|
  {
    ReconcileStep(states[i - 1], states[i])
  }

  /**
   In every state between two reconciles of every run: published definitions
   are alive and have one place, every created definition is published, torn
   down or dropped, none is torn down twice, and fallbacks carry no identity.
   */
  lemma {:induction false} EveryRunKeepsInvariant(states: seq<State>, i: nat)
    requires Run(states) && i < |states|
    ensures Invariant(states[i])
  {
    if i == 0 {
      assert forall id: nat :: !Live(INITIAL, id);
    } else {
      EveryRunKeepsInvariant(states, i - 1);
      assert StepInto(states, i);
      var cfg, key, plan, ch :| StepBy(cfg, states[i - 1], key, plan, ch, states[i]);
      ReconcileKeepsInvariant(cfg, states[i - 1], key, plan, ch);
    }
  }

  // ----- Teardown before publication, and at shutdown -----

  /** The state between the cleanup loop and the assignment that publishes the new set. */
  function MidReconcile(s: State, log: seq<nat>, created: seq<Params>): State {
    s.(torn := s.torn + log, created := created)
  }

  /**
   Readers are served torn-down definitions between cleanup and publication
   exactly when some old entry was not carried over.
   */
  lemma MidReconcileIsLiveIffNothingRemoved(s: State, key: string, p: Progress, log: seq<nat>, t: State)
    requires Invariant(s) && Publication(s, key, p, log, t)
    ensures (forall k, gvr, id :: Published(s, k, gvr, id) ==> id !in MidReconcile(s, log, p.created).torn)
            <==> forall gvr :: gvr in SetOf(s, key) ==> !Removed(SetOf(s, key), p.entries, gvr)
  {
    var mid := MidReconcile(s, log, p.created);
    var prev := SetOf(s, key);
    if gvr :| gvr in prev && Removed(prev, p.entries, gvr) {
      assert Published(s, key, gvr, prev[gvr].def);
      assert RemovedId(prev, p.entries, prev[gvr].def);
    } else {
      forall k, gvr, id | Published(s, k, gvr, id) ensures id !in mid.torn {
      }
    }
  }

  /** The deferred loop of Start: every definition of every set is torn down; the sets stay. */
  ghost predicate Stopped(s: State, log: seq<nat>, t: State) {
    && NoDuplicates(log)
    && (forall id: nat :: id in log <==> Live(s, id))
    && t == s.(torn := s.torn + log)
  }

  /** Stopping between two reconciles leaves every definition torn down once or dropped. */
  lemma StopEndsEveryDefinition(s: State, log: seq<nat>, t: State)
    requires Invariant(s) && Stopped(s, log, t)
    ensures NoDuplicates(t.torn)
    ensures forall id: nat :: id < |t.created| <==> id in t.torn || id in t.dropped
    ensures forall id :: id in t.torn ==> id !in t.dropped
  {
    forall i, j | 0 <= i < j < |t.torn| ensures t.torn[i] != t.torn[j] {
      assert i < |s.torn| ==> t.torn[i] in s.torn;
      assert j >= |s.torn| ==> t.torn[j] in log;
    }
  }

  lemma NoMemberMeansEmpty(s: seq<nat>)
    ensures s == [] || s[0] in s
  {
  }

  /**
   The worker is not waited for. A publication that still happens after the stop
   tears no definition down twice exactly when it carries every old entry over.
   */
  lemma LatePublicationIsCleanIffNothingRemoved(s: State, stop: seq<nat>, key: string, p: Progress, log: seq<nat>,
                                                t: State)
    requires Invariant(s) && NoDuplicates(stop) && forall id: nat :: id in stop <==> Live(s, id)
    requires Publication(s, key, p, log, t)
    ensures NoDuplicates(s.torn + stop + log)
            <==> forall gvr :: gvr in SetOf(s, key) ==> !Removed(SetOf(s, key), p.entries, gvr)
  {
    var prev := SetOf(s, key);
    StopEndsEveryDefinition(s, stop, s.(torn := s.torn + stop));
    if gvr :| gvr in prev && Removed(prev, p.entries, gvr) {
      var id := prev[gvr].def;
      assert Published(s, key, gvr, id);
      assert RemovedId(prev, p.entries, id);
      var i :| 0 <= i < |stop| && stop[i] == id;
      var j :| 0 <= j < |log| && log[j] == id;
      var all := s.torn + stop + log;
      assert all[|s.torn| + i] == id && all[|s.torn| + |stop| + j] == id;
    } else {
      NoMemberMeansEmpty(log);
      assert s.torn + stop + log == s.torn + stop;
    }
  }

  /** What a publication after the stop leaves alive for good: the new definitions it did not drop itself. */
  lemma LatePublicationLeavesNewAlive(s: State, stop: seq<nat>, key: string, p: Progress, log: seq<nat>, t: State,
                                      id: nat)
    requires Invariant(s) && forall x: nat :: x in stop <==> Live(s, x)
    requires Publication(s, key, p, log, t)
    ensures Live(t, id) && id !in s.torn + stop + log <==> |s.created| <= id < |t.created| && id !in p.dropped
  {
    PublicationKeepsLiveness(s, key, p, log, t);
    if Live(t, id) {
      var k, gvr :| Published(t, k, gvr, id);
      PublishedAfter(s, key, p, log, t, k, gvr, id);
      if id < |s.created| {
        assert Live(s, id);
      }
      assert id !in t.dropped;
    }
    if |s.created| <= id < |t.created| && id !in p.dropped {
      var gvr :| gvr in p.entries && p.entries[gvr].def == id;
      assert Published(t, key, gvr, id);
      assert id !in s.torn && !Live(s, id);
      assert id !in t.torn;
    }
  }
}
