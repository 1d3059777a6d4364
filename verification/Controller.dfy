/**
 The API reconciler as it is: an object that changes its map of definition sets
 step by step, with loops over Go maps in any order. Every method is tied to
 the functions of the other modules.
 */
module Controller {
  import opened Wrappers
  import opened Labels
  import opened Apis
  import opened ExportOrder
  import opened ClaimResolution
  import opened Definitions
  import opened Lifecycle
  import opened WorkQueues
  import opened Queueing
  import opened Events
  import DomainKeys
  import Convergence

  // ----- The identity index and its sorted answers -----

  /** The index answers in any order. */
  method ByIdentityHash(c: Caches, hash: string) returns (index: seq<APIExport>)
    requires WellKeyed(c)
    ensures Indexed(c, hash, index)
  {
    index := [];
    var keys := c.exports.Keys;
    while keys != {}
      invariant keys <= c.exports.Keys
      invariant NoDuplicates(index)
      invariant forall e :: e in index <==>
                            exists k :: k in c.exports && k !in keys && c.exports[k] == e && e.identityHash == hash
    {
      var k :| k in keys;
      ghost var before := index;
      var e := c.exports[k];
      if e.identityHash == hash {
        assert forall k' :: k' in c.exports && c.exports[k'] == e ==> k' == ObjectKey(e.cluster, e.name) == k;
        index := index + [e];
      }
      keys := keys - {k};
      forall x ensures x in index <==>
                       exists k' :: k' in c.exports && k' !in keys && c.exports[k'] == x && x.identityHash == hash
      {
        if x in before {
          var k' :| k' in c.exports && k' !in keys + {k} && c.exports[k'] == x;
        }
      }
    }
  }

  lemma {:induction false} SomeIndex(c: Caches, hash: string, keys: set<ObjectKey>) returns (index: seq<APIExport>)
    requires WellKeyed(c) && keys <= c.exports.Keys
    ensures NoDuplicates(index)
    ensures forall e :: e in index <==> ObjectKey(e.cluster, e.name) in keys
                                        && c.exports[ObjectKey(e.cluster, e.name)] == e && e.identityHash == hash
    decreases keys
  {
    if keys == {} {
      index := [];
    } else {
      var k :| k in keys;
      index := SomeIndex(c, hash, keys - {k});
      if c.exports[k].identityHash == hash {
        index := index + [c.exports[k]];
      }
    }
  }

  /** Some listing exists for every hash. */
  lemma AnyListing(c: Caches, hash: string) returns (xs: seq<APIExport>)
    requires WellKeyed(c)
    ensures IdentityListing(c, hash, xs)
  {
    var index := SomeIndex(c, hash, c.exports.Keys);
    SortGivesListing(index);
    assert Indexed(c, hash, index);
    xs := Sort(index);
  }

  // ----- Facts the loops need -----

  lemma AddSlotsSnoc(cfg: Config, b: Basis, prev: DefinitionSet, base: nat, slots: seq<Slot>, x: Slot, p: Progress)
    ensures AddSlots(cfg, b, prev, base, slots + [x], p)
            == AddSlot(cfg, b, prev, base, x, AddSlots(cfg, b, prev, base, slots, p))
  {
    assert (slots + [x])[..|slots|] == slots;
  }

  /** After an error the remaining turns change nothing. */
  lemma {:induction false} FailurePersists(cfg: Config, b: Basis, prev: DefinitionSet, base: nat, slots: seq<Slot>,
                                           rest: seq<Slot>, p: Progress)
    requires AddSlots(cfg, b, prev, base, slots, p).failed
    ensures AddSlots(cfg, b, prev, base, slots + rest, p) == AddSlots(cfg, b, prev, base, slots, p)
  {
    if rest == [] {
      assert slots + rest == slots;
    } else {
      var last := |rest| - 1;
      FailurePersists(cfg, b, prev, base, slots, rest[..last], p);
      assert slots + rest == (slots + rest[..last]) + [rest[last]];
      AddSlotsSnoc(cfg, b, prev, base, slots + rest[..last], rest[last], p);
    }
  }

  lemma SlotsSnoc(r: Resolution, order: seq<GroupResource>, gr: GroupResource)
    requires gr in r.schemas && forall g :: g in order ==> g in r.schemas
    ensures Slots(r, order + [gr]) == Slots(r, order) + SchemaSlots(r.schemas[gr], |r.schemas[gr].versions|)
  {
    assert (order + [gr])[..|order|] == order;
  }

  lemma {:induction false} SlotsAppend(r: Resolution, order: seq<GroupResource>, more: seq<GroupResource>)
    returns (rest: seq<Slot>)
    requires forall g :: g in order + more ==> g in r.schemas
    ensures forall g :: g in order ==> g in r.schemas
    ensures Slots(r, order + more) == Slots(r, order) + rest
  {
    assert forall g :: g in order ==> g in order + more;
    if more == [] {
      rest := [];
      assert order + more == order;
    } else {
      var init, last := more[..|more| - 1], more[|more| - 1];
      assert order + more == (order + init) + [last];
      rest := SlotsAppend(r, order, init);
      SlotsSnoc(r, order + init, last);
      rest := rest + SchemaSlots(r.schemas[last], |r.schemas[last].versions|);
    }
  }

  lemma {:induction false} SchemaSlotsPrefix(s: Schema, n: nat, m: nat)
    requires n <= m <= |s.versions|
    ensures exists rest :: SchemaSlots(s, m) == SchemaSlots(s, n) + rest
  {
    if n == m {
      assert SchemaSlots(s, m) == SchemaSlots(s, n) + [];
    } else {
      SchemaSlotsPrefix(s, n, m - 1);
      var rest :| SchemaSlots(s, m - 1) == SchemaSlots(s, n) + rest;
      assert SchemaSlots(s, m) == SchemaSlots(s, n) + (rest + [Slot(s, s.versions[m - 1])]);
    }
  }

  /** The turns made so far are a prefix of the turns of any order that continues this one. */
  lemma SlotsThrough(r: Resolution, order: seq<GroupResource>, gr: GroupResource, n: nat, more: seq<GroupResource>)
    returns (rest: seq<Slot>)
    requires forall g :: g in order + [gr] + more ==> g in r.schemas
    requires gr in r.schemas && n <= |r.schemas[gr].versions|
    ensures forall g :: g in order ==> g in r.schemas
    ensures Slots(r, order + [gr] + more) == Slots(r, order) + SchemaSlots(r.schemas[gr], n) + rest
  {
    assert forall g :: g in order ==> g in order + [gr] + more;
    var s := r.schemas[gr];
    SlotsSnoc(r, order, gr);
    var back := SlotsAppend(r, order + [gr], more);
    SchemaSlotsPrefix(s, n, |s.versions|);
    var tail :| SchemaSlots(s, |s.versions|) == SchemaSlots(s, n) + tail;
    rest := tail + back;
  }

  lemma ConcatHasNoDuplicates<T>(xs: seq<T>, ys: seq<T>)
    requires NoDuplicates(xs) && NoDuplicates(ys) && forall x :: x in xs ==> x !in ys
    ensures NoDuplicates(xs + ys)
  {
    forall i, j | 0 <= i < j < |xs + ys| ensures (xs + ys)[i] != (xs + ys)[j] {
      assert i < |xs| ==> (xs + ys)[i] in xs;
      assert |xs| <= j ==> (xs + ys)[j] in ys;
    }
  }

  /** An error met in the middle of the loops is the error of the whole build, in some full order. */
  lemma FailedBuild(cfg: Config, b: Basis, prev: DefinitionSet, created: seq<Params>, order: seq<GroupResource>,
                    gr: GroupResource, n: nat, left: set<GroupResource>) returns (full: seq<GroupResource>)
    requires Enumerates(order + [gr], b.r.schemas.Keys - left) && left <= b.r.schemas.Keys
    requires gr in b.r.schemas && n <= |b.r.schemas[gr].versions|
    requires forall g :: g in order ==> g in b.r.schemas
    requires AddSlots(cfg, b, prev, |created|, Slots(b.r, order) + SchemaSlots(b.r.schemas[gr], n),
                      Nothing(created)).failed
    ensures Enumerates(full, b.r.schemas.Keys)
    ensures Build(cfg, b, prev, full, created)
            == AddSlots(cfg, b, prev, |created|, Slots(b.r, order) + SchemaSlots(b.r.schemas[gr], n), Nothing(created))
  {
    var more := SomeOrder(left);
    full := order + [gr] + more;
    assert forall g :: g in full <==> g in order + [gr] || g in more;
    ConcatHasNoDuplicates(order + [gr], more);
    var rest := SlotsThrough(b.r, order, gr, n, more);
    FailurePersists(cfg, b, prev, |created|, Slots(b.r, order) + SchemaSlots(b.r.schemas[gr], n), rest,
                    Nothing(created));
  }

  lemma {:induction false} ClaimErrorPersists(t: Tables, c: Caches, e: APIExport, exported: map<GroupResource, Schema>,
                                              listings: seq<seq<APIExport>>, n: nat, m: nat)
    requires n <= m <= |e.claims| == |listings|
    requires ApplyClaims(t, c, e, exported, listings, n).Err?
    ensures ApplyClaims(t, c, e, exported, listings, m).Err?
  {
    if n < m {
      ClaimErrorPersists(t, c, e, exported, listings, n, m - 1);
    }
  }

  /** Claims are resolved from the listings of the claims up to them. */
  lemma {:induction false} ClaimsUsePrefix(t: Tables, c: Caches, e: APIExport, exported: map<GroupResource, Schema>,
                                           ls: seq<seq<APIExport>>, ls': seq<seq<APIExport>>, n: nat)
    requires n <= |e.claims| == |ls| == |ls'| && ls[..n] == ls'[..n]
    ensures ApplyClaims(t, c, e, exported, ls, n) == ApplyClaims(t, c, e, exported, ls', n)
  {
    if n > 0 {
      assert ls[..n][..n - 1] == ls[..n - 1] && ls'[..n][..n - 1] == ls'[..n - 1];
      assert ls[n - 1] == ls[..n][n - 1] == ls'[..n][n - 1] == ls'[n - 1];
      ClaimsUsePrefix(t, c, e, exported, ls, ls', n - 1);
    }
  }

  // ----- The reconciler -----

  /** `k` is a target of one of the first `n` slices that names the export. */
  ghost predicate ListedBefore(c: Caches, key: ObjectKey, list: seq<EndpointSlice>, n: nat, k: ObjectKey)
    requires n <= |list|
  {
    exists j :: 0 <= j < n && list[j].exportName == key.name && k in SliceTargets(c, list[j])
  }

  lemma ListedNext(c: Caches, key: ObjectKey, list: seq<EndpointSlice>, n: nat, k: ObjectKey)
    requires n < |list|
    ensures ListedBefore(c, key, list, n + 1, k)
            <==> ListedBefore(c, key, list, n, k) || (list[n].exportName == key.name && k in SliceTargets(c, list[n]))
  {
  }

  /** The targets of an export event, read off a list of the cluster's slices. */
  lemma ListedTargets(c: Caches, key: ObjectKey, list: seq<EndpointSlice>, k: ObjectKey)
    requires WellKeyed(c) && Lists(c, key.cluster, list)
    ensures k in ExportTargets(c, key)
            <==> ListedBefore(c, key, list, |list|, k)
  {
    if k in ExportTargets(c, key) {
      var s :| s in SlicesIn(c, key.cluster) && c.slices[s].exportName == key.name
               && k in SliceTargets(c, c.slices[s]);
      assert c.slices[s] in list;
    }
    if j :| 0 <= j < |list| && list[j].exportName == key.name && k in SliceTargets(c, list[j]) {
      assert list[j] in list;
      assert list[j].Key() in SlicesIn(c, key.cluster);
    }
  }

  class APIReconciler {
    /** The tables, label functions and creator; `creatable` is what the creator accepts at the moment. */
    var cfg: Config
    const queue: WorkQueue
    /** The informer caches; informers write them, the reconciler only reads them. */
    var caches: Caches
    var apiSets: map<string, DefinitionSet>
    /** Keys whose processing failed and that the rate limiter will add again. */
    var retrying: set<ObjectKey>
    /** Logs of the definitions created and the TearDown calls made. */
    var created: seq<Params>
    var torn: seq<nat>
    ghost var dropped: set<nat>

    ghost function State(): Lifecycle.State
      reads this
    {
      Lifecycle.State(apiSets, created, torn, dropped)
    }

    constructor (cfg: Config, caches: Caches)
      ensures State() == INITIAL && queue.View() == EMPTY && fresh(queue)
      ensures this.cfg == cfg && this.caches == caches && retrying == {}
    {
      this.cfg := cfg;
      this.caches := caches;
      queue := new WorkQueue();
      apiSets, created, torn, dropped, retrying := map[], [], [], {}, {};
    }

    /** The injected createAPIDefinition: a new definition, or an error. */
    method CreateDefinition(params: Params) returns (def: Option<nat>)
      modifies this`created
      ensures cfg.creatable(params) ==> def == Some(|old(created)|) && created == old(created) + [params]
      ensures !cfg.creatable(params) ==> def == None && created == old(created)
    {
      if cfg.creatable(params) {
        def := Some(|created|);
        created := created + [params];
      } else {
        def := None;
      }
    }

    method GetSchemasFromAPIExport(e: APIExport) returns (r: Result<map<GroupResource, Schema>>)
      ensures r == ExportSchemas(caches, e.cluster, e.resources)
    {
      var schemas: map<GroupResource, Schema> := map[];
      for i := 0 to |e.resources|
        invariant ExportSchemas(caches, e.cluster, e.resources[..i]) == Ok(schemas)
      {
        assert e.resources[..i + 1][..i] == e.resources[..i];
        match caches.Schema(ObjectKey(e.cluster, e.resources[i]))
        case Failed =>
          ExportErrorPersists(caches, e.cluster, e.resources, i + 1);
          return Err;
        case NotFound =>
        case Found(s) =>
          schemas := schemas[s.GR() := s];
      }
      assert e.resources[..|e.resources|] == e.resources;
      return Ok(schemas);
    }

    /** The resolution with `s` written for the claim. */
    static function Granted(r: Resolution, pc: PermissionClaim, s: Schema): Resolution {
      r.(schemas := r.schemas[pc.GR() := s], identities := r.identities[pc.GR() := pc.identityHash],
         claims := r.claims[pc.GR() := pc])
    }

    /** The innermost loop: the one candidate whose schema is the claimed resource, if any. */
    method ScanCandidates(pc: PermissionClaim, candidates: map<GroupResource, Schema>, r0: Resolution)
      returns (r: Resolution)
      requires forall gr :: gr in candidates ==> candidates[gr].GR() == gr
      ensures r == if pc.GR() in candidates then Granted(r0, pc, candidates[pc.GR()]) else r0
    {
      r := r0;
      var keys := candidates.Keys;
      while keys != {}
        invariant keys <= candidates.Keys
        invariant r == if pc.GR() in candidates.Keys - keys then Granted(r0, pc, candidates[pc.GR()]) else r0
      {
        var k :| k in keys;
        keys := keys - {k};
        var s := candidates[k];
        if s.group != pc.group || s.plural != pc.resource {
          continue;
        }
        r := r.(schemas := r.schemas[pc.GR() := s], identities := r.identities[pc.GR() := pc.identityHash],
                claims := r.claims[pc.GR() := pc]);
      }
    }

    /** What the claim's scan leaves when it found `found`. */
    static function AfterScan(r: Resolution, pc: PermissionClaim, found: Option<Schema>): Resolution {
      match found
      case None => r
      case Some(s) => Granted(r, pc, s)
    }

    static lemma LaterScanWins(r: Resolution, pc: PermissionClaim, found: Option<Schema>, s: Schema)
      ensures Granted(AfterScan(r, pc, found), pc, s) == Granted(r, pc, s)
    {
    }

    /** The loop over the listed exports: the last one that has the resource wins. */
    method ScanExports(pc: PermissionClaim, listing: seq<APIExport>, r0: Resolution)
      returns (r: Result<Resolution>)
      ensures r == match LastMatch(caches, listing, pc.GR())
                   case Err => Err
                   case Ok(found) => Ok(AfterScan(r0, pc, found))
    {
      var gr := pc.GR();
      var cur := r0;
      for i := 0 to |listing|
        invariant LastMatch(caches, listing[..i], gr).Ok?
        invariant cur == AfterScan(r0, pc, LastMatch(caches, listing[..i], gr).value)
      {
        assert listing[..i + 1][..i] == listing[..i];
        var candidates := GetSchemasFromAPIExport(listing[i]);
        if candidates.Err? {
          MatchErrorPersists(caches, listing, gr, i + 1);
          return Err;
        }
        if gr in candidates.value {
          LaterScanWins(r0, pc, LastMatch(caches, listing[..i], gr).value, candidates.value[gr]);
        }
        cur := ScanCandidates(pc, candidates.value, cur);
      }
      assert listing[..|listing|] == listing;
      return Ok(cur);
    }

    /** One turn of the claim loop. */
    method EvaluateClaim(e: APIExport, pc: PermissionClaim, cur: Resolution)
      returns (r: Result<Resolution>, ghost listing: seq<APIExport>)
      requires WellKeyed(caches)
      ensures IdentityListing(caches, pc.identityHash, listing)
      ensures r == ApplyClaim(cfg.tables, caches, e, pc, listing, cur)
    {
      var t, gr := cfg.tables, pc.GR();
      listing := AnyListing(caches, pc.identityHash);
      if gr in cur.schemas {
        return Ok(cur), listing;
      }
      if IsBuiltin(t, pc) {
        return Ok(cur.(schemas := cur.schemas[gr := t.builtin[gr].(cluster := e.cluster)],
                       claims := cur.claims[gr := pc])), listing;
      }
      if pc.group == APIS_GROUP {
        if pc.resource !in t.kcp {
          return Ok(cur), listing;
        }
        var claimsAPIBindings := cur.claimsAPIBindings;
        if pc.resource == APIBINDINGS {
          claimsAPIBindings := true;
        }
        return Ok(cur.(schemas := cur.schemas[gr := t.kcp[pc.resource]], claims := cur.claims[gr := pc],
                       claimsAPIBindings := claimsAPIBindings)), listing;
      }
      if pc.group == FILTERED_GROUP {
        if pc.resource !in t.kcp {
          return Ok(cur), listing;
        }
        var claimsFilteredSlices := cur.claimsFilteredSlices;
        if pc.resource == FILTERED_SLICES {
          claimsFilteredSlices := true;
        }
        return Ok(cur.(schemas := cur.schemas[gr := t.kcp[pc.resource]], claims := cur.claims[gr := pc],
                       claimsFilteredSlices := claimsFilteredSlices)), listing;
      }
      if pc.identityHash == "" {
        return Ok(cur), listing;
      }
      if caches.indexBroken {
        return Err, listing;
      }
      var index := ByIdentityHash(caches, pc.identityHash);
      var xs := Sort(index);
      SortGivesListing(index);
      listing := xs;
      r := ScanExports(pc, xs, cur);
    }

    /** The claim loop of reconcile. */
    method ResolveClaims(e: APIExport) returns (r: Result<Resolution>, ghost listings: seq<seq<APIExport>>)
      requires WellKeyed(caches)
      ensures LegalListings(caches, e, listings)
      ensures r == Resolve(cfg.tables, caches, e, listings)
    {
      listings := SomeListings(caches, e);
      var own := GetSchemasFromAPIExport(e);
      if own.Err? {
        return Err, listings;
      }
      var cur := Start(e, own.value);
      for i := 0 to |e.claims|
        invariant LegalListings(caches, e, listings)
        invariant ApplyClaims(cfg.tables, caches, e, own.value, listings, i) == Ok(cur)
      {
        var next, listing := EvaluateClaim(e, e.claims[i], cur);
        ghost var before := listings;
        listings := listings[i := listing];
        ClaimsUsePrefix(cfg.tables, caches, e, own.value, before, listings, i);
        if next.Err? {
          ClaimErrorPersists(cfg.tables, caches, e, own.value, listings, i + 1, |e.claims|);
          return Err, listings;
        }
        cur := next.value;
      }
      return Ok(cur), listings;
    }

    // Event handlers. `added` are the keys given to the queue, in call order.

    /** The lister's answer for one cluster, in any order. */
    method ListSlices(cluster: ClusterName) returns (list: seq<EndpointSlice>)
      requires WellKeyed(caches)
      ensures Lists(caches, cluster, list)
    {
      list := [];
      var keys := set k | k in caches.slices && k.cluster == cluster;
      while keys != {}
        invariant keys <= SlicesIn(caches, cluster)
        invariant NoDuplicates(list)
        invariant forall s :: s in list ==>
                    s.Key() in SlicesIn(caches, cluster) - keys && caches.slices[s.Key()] == s
        invariant forall k :: k in SlicesIn(caches, cluster) - keys ==> caches.slices[k] in list
      {
        var k :| k in keys;
        keys := keys - {k};
        assert caches.slices[k].Key() == k;
        list := list + [caches.slices[k]];
      }
    }

    /** The index of exports by the identities they claim, in any order. */
    method ByClaimedIdentity(hash: string) returns (others: seq<APIExport>)
      ensures forall e :: e in others <==>
                          exists k :: k in caches.exports && caches.exports[k] == e && ClaimsIdentity(e, hash)
    {
      others := [];
      var keys := caches.exports.Keys;
      while keys != {}
        invariant keys <= caches.exports.Keys
        invariant forall e :: e in others <==> exists k :: k in caches.exports && k !in keys
                                                          && caches.exports[k] == e && ClaimsIdentity(e, hash)
      {
        var k :| k in keys;
        ghost var others0 := others;
        keys := keys - {k};
        if exists i :: 0 <= i < |caches.exports[k].claims| && caches.exports[k].claims[i].identityHash == hash {
          others := others + [caches.exports[k]];
        }
        forall e ensures e in others <==> exists k' :: k' in caches.exports && k' !in keys
                                                       && caches.exports[k'] == e && ClaimsIdentity(e, hash)
        {
          if e in others0 {
            var k' :| k' in caches.exports && k' !in keys + {k} && caches.exports[k'] == e;
          }
        }
      }
    }

    /** Queue the slices of the claimant's cluster that are served from it. */
    method EnqueueServedFrom(other: APIExport) returns (ghost added: seq<ObjectKey>)
      requires WellKeyed(caches)
      modifies queue
      ensures queue.View() == AddAll(old(queue.View()), added)
      ensures forall k :: k in added <==>
                k in caches.slices && k.cluster == other.cluster && caches.slices[k].exportName == other.name
    {
      added := [];
      var list := ListSlices(other.cluster);
      for i := 0 to |list|
        invariant queue.View() == AddAll(old(queue.View()), added)
        invariant forall k :: k in added <==>
                    exists j :: 0 <= j < i && list[j].Key() == k && list[j].exportName == other.name
      {
        if list[i].exportName == other.name {
          assert (added + [list[i].Key()])[..|added|] == added;
          queue.Add(list[i].Key());
          added := added + [list[i].Key()];
        }
      }
      forall k | k in SlicesIn(caches, other.cluster) && caches.slices[k].exportName == other.name
        ensures k in added
      {
        var j :| 0 <= j < |list| && list[j] == caches.slices[k];
        assert list[j].Key() == k;
      }
    }

    /** enqueueFilteredAPIExportEndpointSlice. */
    method EnqueueSlice(slice: EndpointSlice) returns (ghost added: seq<ObjectKey>)
      requires WellKeyed(caches)
      modifies queue
      ensures queue.View() == AddAll(old(queue.View()), added)
      ensures (set k | k in added) == SliceTargets(caches, slice)
    {
      added := [slice.Key()];
      queue.Add(slice.Key());
      assert added[..0] == [];
      match caches.Export(slice.ReferencedKey())
      case Failed => return;
      case NotFound => return;
      case Found(e) =>
        if e.identityHash == "" || caches.indexBroken {
          return;
        }
        var others := ByClaimedIdentity(e.identityHash);
        for i := 0 to |others|
          invariant queue.View() == AddAll(old(queue.View()), added)
          invariant forall k :: k in added <==> k == slice.Key() || (k in caches.slices && exists j ::
                      0 <= j < i && others[j].cluster == k.cluster && others[j].name == caches.slices[k].exportName)
        {
          ghost var before := added;
          ghost var more := EnqueueServedFrom(others[i]);
          AddAllConcat(old(queue.View()), before, more);
          added := before + more;
        }
        forall k ensures k in added <==> k in SliceTargets(caches, slice) {
          if k in caches.slices && ServesClaimant(caches, k, e.identityHash) {
            var ek :| ek in caches.exports && ClaimsIdentity(caches.exports[ek], e.identityHash)
                      && caches.exports[ek].cluster == k.cluster
                      && caches.exports[ek].name == caches.slices[k].exportName;
            assert caches.exports[ek] in others;
          }
          if k in added && k != slice.Key() {
            var j :| 0 <= j < |others| && others[j].cluster == k.cluster
                     && others[j].name == caches.slices[k].exportName;
            assert others[j] in others;
          }
        }
    }

    /** enqueueAPIExport. */
    method EnqueueExport(key: ObjectKey) returns (ghost added: seq<ObjectKey>)
      requires WellKeyed(caches)
      modifies queue
      ensures queue.View() == AddAll(old(queue.View()), added)
      ensures Enqueues(caches, ExportEvent(key), [], set k | k in added)
    {
      added := [];
      var list := ListSlices(key.cluster);
      if |list| == 0 {
        assert SlicesIn(caches, key.cluster) == {};
        return;
      }
      for i := 0 to |list|
        invariant queue.View() == AddAll(old(queue.View()), added)
        invariant forall k :: k in added <==> ListedBefore(caches, key, list, i, k)
      {
        forall k { ListedNext(caches, key, list, i, k); }
        if list[i].exportName == key.name {
          ghost var before := added;
          ghost var more := EnqueueSlice(list[i]);
          AddAllConcat(old(queue.View()), before, more);
          added := before + more;
          assert forall k :: k in more <==> k in (set x | x in more);
        }
      }
      forall k ensures k in added <==> k in ExportTargets(caches, key) {
        ListedTargets(caches, key, list, k);
      }
    }

    /** enqueueAPIResourceSchema; `list` is the order the lister returned. */
    method EnqueueSchema(key: ObjectKey) returns (ghost list: seq<EndpointSlice>, ghost added: seq<ObjectKey>)
      requires WellKeyed(caches)
      modifies queue
      ensures queue.View() == AddAll(old(queue.View()), added)
      ensures Enqueues(caches, SchemaEvent(key), list, set k | k in added)
    {
      added := [];
      var slices := ListSlices(key.cluster);
      list := slices;
      for i := 0 to |slices|
        invariant queue.View() == AddAll(old(queue.View()), added)
        invariant SchemaTargets(caches, key, slices) == (set k | k in added) + SchemaTargets(caches, key, slices[i..])
      {
        assert slices[i..][0] == slices[i] && slices[i..][1..] == slices[i + 1..];
        match caches.Export(slices[i].ReferencedKey())
        case Failed => return;
        case NotFound => return;
        case Found(e) =>
          ghost var before := added;
          for j := 0 to |e.resources|
            invariant queue.View() == AddAll(old(queue.View()), added)
            invariant (set k | k in added) == (set k | k in before)
                      + (if key.name in e.resources[..j] then SliceTargets(caches, slices[i]) else {})
          {
            if e.resources[j] == key.name {
              ghost var mid := added;
              ghost var more := EnqueueSlice(slices[i]);
              AddAllConcat(old(queue.View()), mid, more);
              added := mid + more;
              assert (set k | k in added) == (set k | k in mid) + (set k | k in more);
            }
            assert e.resources[..j + 1] == e.resources[..j] + [e.resources[j]];
          }
          assert e.resources[..|e.resources|] == e.resources;
      }
    }

    // The build of the new set. `p` is the specification's view of what was built so far.

    /** One turn of the build loops; false for an error return. */
    method AddVersion(b: Basis, prev: DefinitionSet, s: Schema, version: Version, set0: DefinitionSet,
                      ghost base: nat, ghost p: Progress)
      returns (ok: bool, newSet: DefinitionSet, ghost q: Progress)
      requires p.entries == set0 && p.created == created && !p.failed
      modifies this`created
      ensures q == AddSlot(cfg, b, prev, base, Slot(s, version), p)
      ensures newSet == q.entries && created == q.created && ok == !q.failed
    {
      newSet := set0;
      q := AddSlot(cfg, b, prev, base, Slot(s, version), p);
      if !version.served {
        return true, newSet, q;
      }
      var gvr := GVR(s.group, version.name, s.plural);
      if gvr in prev {
        var oldDef := prev[gvr];
        if oldDef.uid == s.uid && oldDef.identityHash == b.apiExport.identityHash {
          return true, newSet[gvr := oldDef], q;
        }
      }
      var selector := SelectorRequirements(b.slice.selector);
      if selector.Err? {
        return false, newSet, q;
      }
      var labelReqs := selector.value;
      if gvr.GR() in b.r.claims {
        var keyAndLabel := cfg.claimLabel(b.apiExport.cluster, b.apiExport.name, b.r.claims[gvr.GR()]);
        if keyAndLabel.None? {
          return false, newSet, q;
        }
        var claimLabels := {keyAndLabel.value.1};
        if gvr.GR() == GroupResource(APIS_GROUP, APIBINDINGS) {
          claimLabels := claimLabels + {cfg.reflexiveLabel(b.apiExport.cluster, b.apiExport.name)};
        }
        labelReqs := labelReqs + {Requirement(keyAndLabel.value.0, In, claimLabels)};
      }
      assert gvr.GR() == s.GR();
      assert forall x: set<string> :: x + {} == x;
      var identity := GetOr(b.r.identities, gvr.GR(), "");
      var def := CreateDefinition(Backed(s, version.name, identity, labelReqs));
      if def.None? {
        return true, newSet, q;
      }
      newSet := newSet[gvr := Entry(def.value, s.uid, b.apiExport.identityHash)];
      return true, newSet, q;
    }

    /** The loop over the versions of one schema. */
    method AddVersions(b: Basis, prev: DefinitionSet, s: Schema, set0: DefinitionSet, ghost base: nat,
                       ghost slots: seq<Slot>, ghost p0: Progress)
      returns (ok: bool, newSet: DefinitionSet, ghost n: nat, ghost p: Progress)
      requires p0.entries == set0 && p0.created == created && !p0.failed
      requires exists start :: p0 == AddSlots(cfg, b, prev, base, slots, start)
      modifies this`created
      ensures n <= |s.versions| && (ok ==> n == |s.versions|)
      ensures forall start :: p0 == AddSlots(cfg, b, prev, base, slots, start)
                              ==> p == AddSlots(cfg, b, prev, base, slots + SchemaSlots(s, n), start)
      ensures newSet == p.entries && created == p.created && ok == !p.failed
    {
      newSet, p, n := set0, p0, 0;
      assert slots + [] == slots;
      for i := 0 to |s.versions|
        invariant newSet == p.entries && created == p.created && !p.failed
        invariant forall start :: p0 == AddSlots(cfg, b, prev, base, slots, start)
                                  ==> p == AddSlots(cfg, b, prev, base, slots + SchemaSlots(s, i), start)
      {
        ok, newSet, p := AddVersion(b, prev, s, s.versions[i], newSet, base, p);
        forall start | p0 == AddSlots(cfg, b, prev, base, slots, start)
          ensures p == AddSlots(cfg, b, prev, base, slots + SchemaSlots(s, i + 1), start)
        {
          AddSlotsSnoc(cfg, b, prev, base, slots + SchemaSlots(s, i), Slot(s, s.versions[i]), start);
          assert slots + SchemaSlots(s, i + 1) == (slots + SchemaSlots(s, i)) + [Slot(s, s.versions[i])];
        }
        if !ok {
          n := i + 1;
          return;
        }
      }
      ok, n := true, |s.versions|;
    }

    /** The loop over the schema map, in whatever order the map is iterated. */
    method BuildSet(b: Basis, prev: DefinitionSet)
      returns (ok: bool, newSet: DefinitionSet, ghost order: seq<GroupResource>, ghost p: Progress)
      modifies this`created
      ensures Enumerates(order, b.r.schemas.Keys)
      ensures p == AddSlots(cfg, b, prev, |old(created)|, Slots(b.r, order), Nothing(old(created)))
      ensures newSet == p.entries && created == p.created && ok == !p.failed
      ensures !ok ==> p == Build(cfg, b, prev, order, old(created))
    {
      ghost var base := |created|;
      newSet, order, p := map[], [], Nothing(created);
      var keys := b.r.schemas.Keys;
      while keys != {}
        invariant keys <= b.r.schemas.Keys && Enumerates(order, b.r.schemas.Keys - keys)
        invariant p == AddSlots(cfg, b, prev, base, Slots(b.r, order), Nothing(old(created)))
        invariant newSet == p.entries && created == p.created && !p.failed
      {
        var gr :| gr in keys;
        keys := keys - {gr};
        assert Enumerates(order + [gr], b.r.schemas.Keys - keys);
        ghost var n;
        ok, newSet, n, p := AddVersions(b, prev, b.r.schemas[gr], newSet, base, Slots(b.r, order), p);
        if !ok {
          order := FailedBuild(cfg, b, prev, old(created), order, gr, n, keys);
          return;
        }
        SlotsSnoc(b.r, order, gr);
        order := order + [gr];
      }
      ok := true;
    }

    /** The fallbacks for apibindings and for the slices' own resource. */
    method AddFallbacks(b: Basis, set0: DefinitionSet, ghost base: nat, ghost p: Progress)
      returns (newSet: DefinitionSet)
      requires p.entries == set0 && p.created == created
      modifies this`created
      ensures var q := AddSlicesFallback(b, base, AddBindingsFallback(b, base, p));
              newSet == q.entries && created == q.created
    {
      newSet := set0;
      var cluster, name := b.apiExport.cluster, b.apiExport.name;
      if !b.r.claimsAPIBindings {
        newSet := newSet[BINDINGS_V1 := Entry(|created|, "", "")];
        created := created + [BindingsFallback("v1alpha1", cluster, name)];
        newSet := newSet[BINDINGS_V2 := Entry(|created|, "", "")];
        created := created + [BindingsFallback("v1alpha2", cluster, name)];
      }
      if !b.r.claimsFilteredSlices {
        newSet := newSet[SLICES_V1 := Entry(|created|, "", "")];
        created := created + [SlicesFallback("v1alpha1", cluster, name)];
      }
    }

    method TearDown(def: nat)
      modifies this`torn
      ensures torn == old(torn) + [def]
    {
      torn := torn + [def];
    }

    /** Tear down the old definitions that are not carried over. */
    method Cleanup(prev: DefinitionSet, next: DefinitionSet) returns (ghost order: seq<GVR>)
      modifies this`torn
      ensures Enumerates(order, prev.Keys)
      ensures torn == old(torn) + TornDown(prev, next, order)
    {
      order := [];
      var gvrs := prev.Keys;
      while gvrs != {}
        invariant gvrs <= prev.Keys && Enumerates(order, prev.Keys - gvrs)
        invariant torn == old(torn) + TornDown(prev, next, order)
      {
        var gvr :| gvr in gvrs;
        gvrs := gvrs - {gvr};
        assert (order + [gvr])[..|order|] == order;
        order := order + [gvr];
        if gvr !in next || prev[gvr].def != next[gvr].def {
          TearDown(prev[gvr].def);
        }
      }
    }

    /** reconcile: remove, rebuild or leave the set of one domain key. */
    method Reconcile(slice: Option<EndpointSlice>, key: string)
      returns (ok: bool, ghost plan: Plan, ghost ch: Choice)
      requires WellKeyed(caches)
      modifies this
      ensures unchanged(`caches) && unchanged(`retrying) && unchanged(`cfg)
      ensures slice.Some? && ExportOf(caches, slice.value).Found? ==>
                LegalListings(caches, ExportOf(caches, slice.value).value, ch.listings)
      ensures !(slice.Some? && ExportOf(caches, slice.value).Found?) ==> ch.listings == []
      ensures plan == PlanFor(cfg, caches, slice, ch.listings)
      ensures LegalPlan(old(State()), key, plan, ch)
      ensures (State(), ok) == Lifecycle.Reconcile(cfg, old(State()), key, plan, ch)
    {
      ghost var before := State();
      ch := Choice([], [], []);
      var apiExport: Option<APIExport> := None;
      if slice.Some? {
        match caches.Export(slice.value.ExportKey())
        case Failed =>
          plan := Retry;
          return false, plan, ch;
        case NotFound =>
        case Found(e) =>
          apiExport := Some(e);
          var listings := SomeListings(caches, e);
          ch := ch.(listings := listings);
      }
      if apiExport.None? || apiExport.value.identityHash == "" {
        plan := Remove;
        dropped := dropped + Ids(SetOf(before, key));
        if key in apiSets {
          apiSets := apiSets - {key};
        }
        assert apiSets == before.sets - {key};
        return true, plan, ch;
      }

      var e := apiExport.value;
      var oldSet: DefinitionSet := GetOr(apiSets, key, map[]);
      var resolved, listings := ResolveClaims(e);
      ch := ch.(listings := listings);
      if resolved.Err? {
        plan := Retry;
        return false, plan, ch;
      }
      var b := Basis(slice.value, e, resolved.value);
      plan := Serve(b);
      var cleanup := SomeOrder(oldSet.Keys);
      var built, newSet, order, p := BuildSet(b, oldSet);
      ch := Choice(listings, order, cleanup);
      if !built {
        dropped := dropped + Range(|before.created|, |created|);
        return false, plan, ch;
      }
      newSet := AddFallbacks(b, newSet, |before.created|, p);
      ghost var log := Cleanup(oldSet, newSet);
      ch := ch.(cleanup := log);
      apiSets := apiSets[key := newSet];
      dropped := dropped + Build(cfg, b, oldSet, order, before.created).dropped;
      ok := true;
    }

    /** process: look the slice up and reconcile its domain key. Other lookup errors are swallowed. */
    method Process(k: ObjectKey) returns (ok: bool, ghost plan: Plan, ghost ch: Choice)
      requires WellKeyed(caches)
      modifies this
      ensures unchanged(`caches) && unchanged(`retrying) && unchanged(`cfg)
      ensures caches.Slice(k).Failed? ==> ok && State() == old(State())
      ensures !caches.Slice(k).Failed? ==>
                && |ch.listings| == Convergence.ClaimCount(caches, k)
                && plan == Convergence.KeyPlan(cfg, caches, k, ch.listings)
                && LegalPlan(old(State()), DomainKeys.Format(k), plan, ch)
                && (State(), ok) == Lifecycle.Reconcile(cfg, old(State()), DomainKeys.Format(k), plan, ch)
    {
      match caches.Slice(k)
      case Failed =>
        plan, ch := Retry, Choice([], [], []);
        ok := true;
      case NotFound =>
        ok, plan, ch := Reconcile(None, k.cluster + "/" + k.name);
      case Found(s) =>
        ok, plan, ch := Reconcile(Some(s), k.cluster + "/" + k.name);
    }

    /** One turn of the worker: take a key, process it, retry it later after an error, and be done. */
    method ProcessNextWorkItem() returns (k: ObjectKey, ok: bool, ghost plan: Plan, ghost ch: Choice)
      requires WellKeyed(caches) && queue.order != []
      modifies this, queue
      ensures caches == old(caches) && cfg == old(cfg)
      ensures k == old(queue.order[0])
      ensures queue.View() == WorkQueues.Done(WorkQueues.Take(old(queue.View())).1, k)
      ensures retrying == if ok then old(retrying) else old(retrying) + {k}
      ensures caches.Slice(k).Failed? ==> ok && State() == old(State())
      ensures !caches.Slice(k).Failed? ==>
                && |ch.listings| == Convergence.ClaimCount(caches, k)
                && plan == Convergence.KeyPlan(cfg, caches, k, ch.listings)
                && LegalPlan(old(State()), DomainKeys.Format(k), plan, ch)
                && (State(), ok) == Lifecycle.Reconcile(cfg, old(State()), DomainKeys.Format(k), plan, ch)
    {
      k := queue.Take();
      ok, plan, ch := Process(k);
      if !ok {
        retrying := retrying + {k};
      }
      queue.Done(k);
    }

    /** Tear down every definition of one set. */
    method TearDownSet(ds: DefinitionSet) returns (ghost log: seq<nat>)
      requires forall g, g' :: g in ds && g' in ds && ds[g].def == ds[g'].def ==> g == g'
      modifies this`torn
      ensures torn == old(torn) + log && NoDuplicates(log)
      ensures forall id: nat :: id in log <==> id in Ids(ds)
    {
      log := [];
      var gvrs := ds.Keys;
      while gvrs != {}
        invariant gvrs <= ds.Keys
        invariant torn == old(torn) + log && NoDuplicates(log)
        invariant forall id: nat :: id in log <==> exists gvr :: gvr in ds && gvr !in gvrs && ds[gvr].def == id
      {
        var gvr :| gvr in gvrs;
        gvrs := gvrs - {gvr};
        assert ds[gvr].def !in log;
        TearDown(ds[gvr].def);
        log := log + [ds[gvr].def];
      }
    }

    /** The deferred loop of Start: tear down everything that is published. */
    method StopAll() returns (ghost log: seq<nat>)
      requires Invariant(State())
      modifies this`torn
      ensures Stopped(old(State()), log, State())
    {
      log := [];
      ghost var s := State();
      var keys := apiSets.Keys;
      while keys != {}
        invariant keys <= apiSets.Keys
        invariant torn == old(torn) + log && NoDuplicates(log)
        invariant forall id: nat :: id in log <==> exists k, gvr :: k !in keys && Published(s, k, gvr, id)
      {
        var k :| k in keys;
        keys := keys - {k};
        SetIsKnown(s, k);
        ghost var more := TearDownSet(apiSets[k]);
        assert forall g :: g in apiSets[k] ==> Published(s, k, g, apiSets[k][g].def);
        ConcatHasNoDuplicates(log, more) by {
          forall id | id in log ensures id !in more {
            var k', gvr :| k' !in keys + {k} && Published(s, k', gvr, id);
          }
        }
        ghost var log0 := log;
        log := log + more;
        forall id: nat ensures id in log <==> exists k', gvr :: k' !in keys && Published(s, k', gvr, id) {
          if id in log0 {
            var k', gvr :| k' !in keys + {k} && Published(s, k', gvr, id);
            assert k' !in keys;
          }
        }
      }
    }
  }

  lemma SomeListings(c: Caches, e: APIExport) returns (listings: seq<seq<APIExport>>)
    requires WellKeyed(c)
    ensures LegalListings(c, e, listings)
  {
    listings := seq(|e.claims|, _ => []);
    for i := 0 to |e.claims|
      invariant |listings| == |e.claims|
      invariant forall j :: 0 <= j < i ==> IdentityListing(c, e.claims[j].identityHash, listings[j])
    {
      var xs := AnyListing(c, e.claims[i].identityHash);
      listings := listings[i := xs];
    }
  }

  lemma {:induction false} ExportErrorPersists(c: Caches, cluster: ClusterName, resources: seq<string>, n: nat)
    requires n <= |resources| && ExportSchemas(c, cluster, resources[..n]).Err?
    ensures ExportSchemas(c, cluster, resources).Err?
  {
    if n == |resources| {
      assert resources[..n] == resources;
    } else {
      var last := |resources| - 1;
      assert resources[..last][..n] == resources[..n];
      ExportErrorPersists(c, cluster, resources[..last], n);
    }
  }

  lemma {:induction false} MatchErrorPersists(c: Caches, listing: seq<APIExport>, gr: GroupResource, n: nat)
    requires n <= |listing| && LastMatch(c, listing[..n], gr).Err?
    ensures LastMatch(c, listing, gr).Err?
  {
    if n == |listing| {
      assert listing[..n] == listing;
    } else {
      var last := |listing| - 1;
      assert listing[..last][..n] == listing[..n];
      MatchErrorPersists(c, listing[..last], gr, n);
    }
  }
}
