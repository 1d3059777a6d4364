/**
 How a reconcile turns an APIExport and its permission claims into a table of
 schemas: getSchemasFromAPIExport and the claim loop of reconcile.
 */
module ClaimResolution {
  import opened Wrappers
  import opened Apis
  import opened ExportOrder

  /** The constant schema tables: built-in APIs by group and resource, kcp APIs by resource name. */
  datatype Tables = Tables(builtin: map<GroupResource, Schema>, kcp: map<string, Schema>)

  /** The maps and flags the claim loop fills. */
  datatype Resolution = Resolution(schemas: map<GroupResource, Schema>,
                                   identities: map<GroupResource, string>,
                                   claims: map<GroupResource, PermissionClaim>,
                                   claimsAPIBindings: bool,
                                   claimsFilteredSlices: bool)

  /** Schemas listed by an export, keyed by what each schema itself says; missing ones are skipped. */
  function ExportSchemas(c: Caches, cluster: ClusterName, resources: seq<string>)
    : (r: Result<map<GroupResource, Schema>>)
    ensures r.Ok? ==> forall gr :: gr in r.value ==> r.value[gr].GR() == gr
  {
    if resources == [] then Ok(map[])
    else
      var last := |resources| - 1;
      match ExportSchemas(c, cluster, resources[..last])
      case Err => Err
      case Ok(m) =>
        match c.Schema(ObjectKey(cluster, resources[last]))
        case Failed => Err
        case NotFound => Ok(m)
        case Found(s) => Ok(m[s.GR() := s])
  }

  /** The `i`-th listed schema is found and is one for `gr`. */
  predicate ListsAt(c: Caches, cluster: ClusterName, resources: seq<string>, gr: GroupResource, i: nat) {
    && i < |resources|
    && c.Schema(ObjectKey(cluster, resources[i])).Found?
    && c.Schema(ObjectKey(cluster, resources[i])).value.GR() == gr
  }

  /** And no later one is. */
  ghost predicate ListsLastAt(c: Caches, cluster: ClusterName, resources: seq<string>, gr: GroupResource, i: nat) {
    ListsAt(c, cluster, resources, gr, i) && forall j: nat :: i < j ==> !ListsAt(c, cluster, resources, gr, j)
  }

  lemma {:induction false} ExportFailsIff(c: Caches, cluster: ClusterName, resources: seq<string>)
    ensures ExportSchemas(c, cluster, resources).Err?
            <==> exists i :: 0 <= i < |resources| && c.Schema(ObjectKey(cluster, resources[i])) == Failed
  {
    if resources != [] {
      var init := resources[..|resources| - 1];
      ExportFailsIff(c, cluster, init);
      assert forall i :: 0 <= i < |init| ==> init[i] == resources[i];
    }
  }

  lemma {:induction false} ExportLists(c: Caches, cluster: ClusterName, resources: seq<string>, gr: GroupResource)
    requires ExportSchemas(c, cluster, resources).Ok?
    ensures gr in ExportSchemas(c, cluster, resources).value
            <==> exists i: nat :: ListsAt(c, cluster, resources, gr, i)
  {
    if resources != [] {
      var init, last := resources[..|resources| - 1], |resources| - 1;
      ExportLists(c, cluster, init, gr);
      assert forall i: nat :: i != last ==>
                                (ListsAt(c, cluster, resources, gr, i) <==> ListsAt(c, cluster, init, gr, i));
      if ListsAt(c, cluster, resources, gr, last) {
        assert gr in ExportSchemas(c, cluster, resources).value;
      }
    }
  }

  lemma {:induction false} ExportListsLast(c: Caches, cluster: ClusterName, resources: seq<string>, gr: GroupResource,
                                           i: nat)
    requires ExportSchemas(c, cluster, resources).Ok? && ListsLastAt(c, cluster, resources, gr, i)
    ensures Get(ExportSchemas(c, cluster, resources).value, gr)
            == Some(c.Schema(ObjectKey(cluster, resources[i])).value)
  {
    var init, last := resources[..|resources| - 1], |resources| - 1;
    if i < last {
      assert !ListsAt(c, cluster, resources, gr, last);
      forall j: nat | i < j ensures !ListsAt(c, cluster, init, gr, j) {
        assert !ListsAt(c, cluster, resources, gr, j);
      }
      ExportListsLast(c, cluster, init, gr, i);
    }
  }

  /**
   What an export lists: an error exactly when some listed schema cannot be
   looked up, otherwise all that are found, each resource with its last schema.
   */
  lemma ExportSchemasMeaning(c: Caches, cluster: ClusterName, resources: seq<string>, gr: GroupResource)
    ensures ExportSchemas(c, cluster, resources).Err?
            <==> exists i :: 0 <= i < |resources| && c.Schema(ObjectKey(cluster, resources[i])) == Failed
    ensures ExportSchemas(c, cluster, resources).Ok? ==>
              var m := ExportSchemas(c, cluster, resources).value;
              && (gr in m <==> exists i: nat :: ListsAt(c, cluster, resources, gr, i))
              && (forall i: nat :: ListsLastAt(c, cluster, resources, gr, i) ==>
                    Get(m, gr) == Some(c.Schema(ObjectKey(cluster, resources[i])).value))
  {
    ExportFailsIff(c, cluster, resources);
    if ExportSchemas(c, cluster, resources).Ok? {
      ExportLists(c, cluster, resources, gr);
      forall i: nat | ListsLastAt(c, cluster, resources, gr, i)
        ensures Get(ExportSchemas(c, cluster, resources).value, gr)
                == Some(c.Schema(ObjectKey(cluster, resources[i])).value)
      {
        ExportListsLast(c, cluster, resources, gr, i);
      }
    }
  }

  predicate IsBuiltin(t: Tables, pc: PermissionClaim) { pc.GR() in t.builtin }

  predicate IsKcpGroup(pc: PermissionClaim) { pc.group == APIS_GROUP || pc.group == FILTERED_GROUP }

  /** The claim is resolved through other exports that share its identity hash. */
  predicate ByIdentity(t: Tables, pc: PermissionClaim) {
    !IsBuiltin(t, pc) && !IsKcpGroup(pc) && pc.identityHash != ""
  }

  /** The schema the last export in `listing` has for `gr`; an error if any export cannot be read. */
  function LastMatch(c: Caches, listing: seq<APIExport>, gr: GroupResource): (r: Result<Option<Schema>>)
    ensures r.Ok? && r.value.Some? ==> r.value.value.GR() == gr
  {
    if listing == [] then Ok(None)
    else
      var last := |listing| - 1;
      match LastMatch(c, listing[..last], gr)
      case Err => Err
      case Ok(found) =>
        match ExportSchemas(c, listing[last].cluster, listing[last].resources)
        case Err => Err
        case Ok(m) => Ok(if gr in m then Some(m[gr]) else found)
  }

  /** The schema one claim would obtain on its own: none, one, or an error. */
  function Candidate(t: Tables, c: Caches, e: APIExport, pc: PermissionClaim, listing: seq<APIExport>)
    : Result<Option<Schema>>
  {
    if IsBuiltin(t, pc) then Ok(Some(t.builtin[pc.GR()].(cluster := e.cluster)))
    else if IsKcpGroup(pc) then Ok(Get(t.kcp, pc.resource))
    else if pc.identityHash == "" then Ok(None)
    else if c.indexBroken then Err
    else LastMatch(c, listing, pc.GR())
  }

  /** One turn of the claim loop. */
  function ApplyClaim(t: Tables, c: Caches, e: APIExport, pc: PermissionClaim, listing: seq<APIExport>,
                      r: Resolution): Result<Resolution>
  {
    var gr := pc.GR();
    if gr in r.schemas then Ok(r)
    else
      match Candidate(t, c, e, pc, listing)
      case Err => Err
      case Ok(None) => Ok(r)
      case Ok(Some(s)) =>
        Ok(Resolution(r.schemas[gr := s],
                      if ByIdentity(t, pc) then r.identities[gr := pc.identityHash] else r.identities,
                      r.claims[gr := pc],
                      r.claimsAPIBindings || (!IsBuiltin(t, pc) && gr == GroupResource(APIS_GROUP, APIBINDINGS)),
                      r.claimsFilteredSlices
                      || (!IsBuiltin(t, pc) && gr == GroupResource(FILTERED_GROUP, FILTERED_SLICES))))
  }

  /** The state before the loop: the export's own schemas under the export's identity. */
  function Start(e: APIExport, exported: map<GroupResource, Schema>): Resolution {
    Resolution(exported, map gr | gr in exported :: e.identityHash, map[], false, false)
  }

  /** The loop over the first `n` claims; `listings[i]` is the sorted list the i-th claim saw. */
  function ApplyClaims(t: Tables, c: Caches, e: APIExport, exported: map<GroupResource, Schema>,
                       listings: seq<seq<APIExport>>, n: nat): Result<Resolution>
    requires n <= |e.claims| == |listings|
  {
    if n == 0 then Ok(Start(e, exported))
    else
      match ApplyClaims(t, c, e, exported, listings, n - 1)
      case Err => Err
      case Ok(r) => ApplyClaim(t, c, e, e.claims[n - 1], listings[n - 1], r)
  }

  function Resolve(t: Tables, c: Caches, e: APIExport, listings: seq<seq<APIExport>>): Result<Resolution>
    requires |listings| == |e.claims|
  {
    match ExportSchemas(c, e.cluster, e.resources)
    case Err => Err
    case Ok(exported) => ApplyClaims(t, c, e, exported, listings, |e.claims|)
  }

  // ----- The declarative reading of the loop -----

  predicate Resolves(t: Tables, c: Caches, e: APIExport, listings: seq<seq<APIExport>>, i: nat)
    requires i < |e.claims| == |listings|
  {
    var s := Candidate(t, c, e, e.claims[i], listings[i]);
    s.Ok? && s.value.Some?
  }

  /** The first of the first `n` claims on `gr` that obtains a schema by itself. */
  function Winner(t: Tables, c: Caches, e: APIExport, listings: seq<seq<APIExport>>, gr: GroupResource, n: nat)
    : (w: Option<nat>)
    requires n <= |e.claims| == |listings|
    ensures w.Some? ==>
              && w.value < n
              && e.claims[w.value].GR() == gr
              && Resolves(t, c, e, listings, w.value)
    ensures forall i :: 0 <= i < (if w.Some? then w.value else n) && e.claims[i].GR() == gr
                        ==> !Resolves(t, c, e, listings, i)
  {
    if n == 0 then None
    else
      var w := Winner(t, c, e, listings, gr, n - 1);
      if w.Some? then w
      else if e.claims[n - 1].GR() == gr && Resolves(t, c, e, listings, n - 1) then Some(n - 1)
      else None
  }

  /** Who owns a group and resource, and with which schema and identity. */
  ghost predicate OwnedBy(t: Tables, c: Caches, e: APIExport, exported: map<GroupResource, Schema>,
                          listings: seq<seq<APIExport>>, r: Resolution, gr: GroupResource, w: Option<nat>)
    requires |listings| == |e.claims|
    requires w.Some? ==> w.value < |e.claims| && Resolves(t, c, e, listings, w.value)
  {
    if gr in exported then
      && Get(r.schemas, gr) == Some(exported[gr])
      && Get(r.identities, gr) == Some(e.identityHash)
      && gr !in r.claims
    else if w.Some? then
      var pc := e.claims[w.value];
      && Get(r.schemas, gr) == Candidate(t, c, e, pc, listings[w.value]).value
      && Get(r.identities, gr) == (if ByIdentity(t, pc) then Some(pc.identityHash) else None)
      && Get(r.claims, gr) == Some(pc)
    else
      gr !in r.schemas && gr !in r.identities && gr !in r.claims
  }

  ghost predicate Declarative(t: Tables, c: Caches, e: APIExport, exported: map<GroupResource, Schema>,
                              listings: seq<seq<APIExport>>, r: Resolution, n: nat)
    requires n <= |e.claims| == |listings|
  {
    && (forall gr :: OwnedBy(t, c, e, exported, listings, r, gr, Winner(t, c, e, listings, gr, n)))
    && r.schemas.Keys == exported.Keys + r.claims.Keys
    && exported.Keys !! r.claims.Keys
    && (r.claimsAPIBindings <==>
        var gr := GroupResource(APIS_GROUP, APIBINDINGS); gr in r.claims && gr !in t.builtin)
    && (r.claimsFilteredSlices <==>
        var gr := GroupResource(FILTERED_GROUP, FILTERED_SLICES); gr in r.claims && gr !in t.builtin)
  }

  /** One turn of the claim loop settles the claim's own resource and leaves every other one alone. */
  lemma ClaimTurnKeepsOwner(t: Tables, c: Caches, e: APIExport, exported: map<GroupResource, Schema>,
                            listings: seq<seq<APIExport>>, r0: Resolution, r: Resolution, n: nat, gr: GroupResource)
    requires 0 < n <= |e.claims| == |listings|
    requires ApplyClaim(t, c, e, e.claims[n - 1], listings[n - 1], r0) == Ok(r)
    requires OwnedBy(t, c, e, exported, listings, r0, gr, Winner(t, c, e, listings, gr, n - 1))
    ensures OwnedBy(t, c, e, exported, listings, r, gr, Winner(t, c, e, listings, gr, n))
  {
  }

  lemma {:induction false} ClaimPrefixIsDeclarative(t: Tables, c: Caches, e: APIExport,
                                                    exported: map<GroupResource, Schema>,
                                                    listings: seq<seq<APIExport>>, n: nat)
    requires n <= |e.claims| == |listings|
    requires ApplyClaims(t, c, e, exported, listings, n).Ok?
    ensures Declarative(t, c, e, exported, listings, ApplyClaims(t, c, e, exported, listings, n).value, n)
  {
    if n == 0 {
    } else {
      ClaimPrefixIsDeclarative(t, c, e, exported, listings, n - 1);
      var r0 := ApplyClaims(t, c, e, exported, listings, n - 1).value;
      var r := ApplyClaims(t, c, e, exported, listings, n).value;
      forall gr
        ensures OwnedBy(t, c, e, exported, listings, r, gr, Winner(t, c, e, listings, gr, n))
      {
        ClaimTurnKeepsOwner(t, c, e, exported, listings, r0, r, n, gr);
      }
      assert OwnedBy(t, c, e, exported, listings, r0, e.claims[n - 1].GR(),
                     Winner(t, c, e, listings, e.claims[n - 1].GR(), n - 1));
    }
  }

  /**
   The claim loop, read declaratively: exported resources keep their schema and
   are never claimed, any other resource belongs to the first claim in list
   order that obtains a schema, and nothing else is served.
   */
  lemma ClaimLoopIsDeclarative(t: Tables, c: Caches, e: APIExport, listings: seq<seq<APIExport>>)
    requires |listings| == |e.claims|
    requires Resolve(t, c, e, listings).Ok?
    ensures var exported := ExportSchemas(c, e.cluster, e.resources).value;
            Declarative(t, c, e, exported, listings, Resolve(t, c, e, listings).value, |e.claims|)
  {
    ClaimPrefixIsDeclarative(t, c, e, ExportSchemas(c, e.cluster, e.resources).value, listings, |e.claims|);
  }

  // ----- Which schema is picked -----

  /** With an ordering comparator, the schema written for a claim is the same for every index order. */
  lemma SchemaPickIsDeterministic(t: Tables, c: Caches, e: APIExport, pc: PermissionClaim,
                                  index: seq<APIExport>, other: seq<APIExport>,
                                  xs: seq<APIExport>, ys: seq<APIExport>)
    requires OrdersAll(index)
    requires multiset(other) == multiset(index) && Listing(index, xs) && Listing(other, ys)
    ensures Candidate(t, c, e, pc, xs) == Candidate(t, c, e, pc, ys)
  {
    ListingIsDeterministicIff(index);
  }

  ghost predicate Readable(c: Caches, listing: seq<APIExport>) {
    forall e :: e in listing ==> ExportSchemas(c, e.cluster, e.resources).Ok?
  }

  /** The schema one export has for a resource. */
  function SchemaIn(c: Caches, e: APIExport, gr: GroupResource): Option<Schema> {
    match ExportSchemas(c, e.cluster, e.resources)
    case Err => None
    case Ok(m) => Get(m, gr)
  }

  /** The last listed export that has the resource is the one at `i`. */
  ghost predicate LastHolder(c: Caches, listing: seq<APIExport>, gr: GroupResource, i: nat) {
    && i < |listing|
    && SchemaIn(c, listing[i], gr).Some?
    && forall j :: i < j < |listing| ==> SchemaIn(c, listing[j], gr).None?
  }

  /**
   The scan fails exactly when some listed export cannot be read; otherwise it
   picks the schema of the last listed export that has the resource, and none
   exactly when no listed export has it.
   */
  lemma {:induction false} LastMatchMeaning(c: Caches, listing: seq<APIExport>, gr: GroupResource)
    ensures LastMatch(c, listing, gr).Ok? <==> Readable(c, listing)
    ensures Readable(c, listing) ==>
              match LastMatch(c, listing, gr).value
              case None => forall e :: e in listing ==> SchemaIn(c, e, gr).None?
              case Some(s) => exists i: nat :: LastHolder(c, listing, gr, i) && SchemaIn(c, listing[i], gr) == Some(s)
  {
    if listing == [] {
    } else {
      var init, e := listing[..|listing| - 1], listing[|listing| - 1];
      assert listing == init + [e];
      LastMatchMeaning(c, init, gr);
      if Readable(c, listing) {
        if SchemaIn(c, e, gr).Some? {
          assert LastHolder(c, listing, gr, |listing| - 1);
        } else if s, i: nat :| LastHolder(c, init, gr, i) && SchemaIn(c, init[i], gr) == Some(s) {
          assert LastHolder(c, listing, gr, i);
        }
      }
    }
  }

  /** All exports that have the resource have one schema for it. */
  ghost predicate OneSchema(c: Caches, index: seq<APIExport>, gr: GroupResource) {
    forall a, b :: a in index && b in index && SchemaIn(c, a, gr).Some? && SchemaIn(c, b, gr).Some?
                   ==> SchemaIn(c, a, gr) == SchemaIn(c, b, gr)
  }

  /** What the scan picks, some listed export has. */
  lemma PickIsListed(c: Caches, listing: seq<APIExport>, gr: GroupResource) returns (e: APIExport)
    requires Readable(c, listing) && (exists x :: x in listing && SchemaIn(c, x, gr).Some?)
    ensures e in listing && SchemaIn(c, e, gr).Some? && LastMatch(c, listing, gr) == Ok(SchemaIn(c, e, gr))
  {
    LastMatchMeaning(c, listing, gr);
    var s := LastMatch(c, listing, gr).value.value;
    var i: nat :| LastHolder(c, listing, gr, i) && SchemaIn(c, listing[i], gr) == Some(s);
    e := listing[i];
  }

  lemma OneSchemaOnePick(c: Caches, xs: seq<APIExport>, ys: seq<APIExport>, gr: GroupResource)
    requires multiset(xs) == multiset(ys) && Readable(c, xs) && OneSchema(c, xs, gr)
    ensures LastMatch(c, xs, gr) == LastMatch(c, ys, gr)
  {
    MembersArePermuted(xs, ys);
    if x :| x in xs && SchemaIn(c, x, gr).Some? {
      var a := PickIsListed(c, xs, gr);
      var b := PickIsListed(c, ys, gr);
    } else {
      LastMatchMeaning(c, xs, gr);
      LastMatchMeaning(c, ys, gr);
    }
  }

  /** It has the resource and is not before any other export that has it. */
  ghost predicate Top(c: Caches, index: seq<APIExport>, gr: GroupResource, e: APIExport) {
    && e in index && SchemaIn(c, e, gr).Some?
    && forall h :: h in index && SchemaIn(c, h, gr).Some? ==> !Before(e, h)
  }

  /** All exports that may be the last of those that have the resource have one schema for it. */
  ghost predicate OneTopSchema(c: Caches, index: seq<APIExport>, gr: GroupResource) {
    forall a, b :: Top(c, index, gr, a) && Top(c, index, gr, b) ==> SchemaIn(c, a, gr) == SchemaIn(c, b, gr)
  }

  /** The holder an ordered list has last is a top one. */
  lemma LastOfOrderedIsTop(c: Caches, xs: seq<APIExport>, gr: GroupResource, i: nat)
    requires Ordered(xs) && LastHolder(c, xs, gr, i)
    ensures Top(c, xs, gr, xs[i])
  {
    forall h | h in xs && SchemaIn(c, h, gr).Some? ensures !Before(xs[i], h) {
      var j :| 0 <= j < |xs| && xs[j] == h;
      BeforeIsStrict(h, h);
    }
  }

  lemma OrderedPick(c: Caches, index: seq<APIExport>, xs: seq<APIExport>, gr: GroupResource) returns (e: APIExport)
    requires Readable(c, index) && multiset(xs) == multiset(index) && Ordered(xs)
    requires exists x :: x in index && SchemaIn(c, x, gr).Some?
    ensures Top(c, index, gr, e) && LastMatch(c, xs, gr) == Ok(SchemaIn(c, e, gr))
  {
    MembersArePermuted(xs, index);
    LastMatchMeaning(c, xs, gr);
    var s := LastMatch(c, xs, gr).value.value;
    var i: nat :| LastHolder(c, xs, gr, i) && SchemaIn(c, xs[i], gr) == Some(s);
    LastOfOrderedIsTop(c, xs, gr, i);
    e := xs[i];
  }

  lemma WeakPicksAgree(c: Caches, index: seq<APIExport>, xs: seq<APIExport>, ys: seq<APIExport>, gr: GroupResource)
    requires Readable(c, index) && OneTopSchema(c, index, gr)
    requires multiset(xs) == multiset(index) == multiset(ys) && Ordered(xs) && Ordered(ys)
    ensures LastMatch(c, xs, gr) == LastMatch(c, ys, gr)
  {
    if x :| x in index && SchemaIn(c, x, gr).Some? {
      var a := OrderedPick(c, index, xs, gr);
      var b := OrderedPick(c, index, ys, gr);
    } else {
      MembersArePermuted(xs, index);
      MembersArePermuted(ys, index);
      LastMatchMeaning(c, xs, gr);
      LastMatchMeaning(c, ys, gr);
    }
  }

  /** A top export is picked from some listing. */
  lemma TopCanBePicked(c: Caches, index: seq<APIExport>, gr: GroupResource, e: APIExport) returns (xs: seq<APIExport>)
    requires Readable(c, index) && Top(c, index, gr, e)
    ensures Listing(index, xs) && LastMatch(c, xs, gr) == Ok(SchemaIn(c, e, gr))
  {
    var p;
    xs, p := SomeLateListing(index, e);
    MembersArePermuted(xs, index);
    LastMatchMeaning(c, xs, gr);
    forall j | p < j < |xs| ensures SchemaIn(c, xs[j], gr).None? {
      assert xs[j] in xs;
    }
    assert LastHolder(c, xs, gr, p);
  }

  /** Without a proper comparator any export that has the resource may be picked. */
  lemma AnyCanBePicked(c: Caches, index: seq<APIExport>, gr: GroupResource, e: APIExport) returns (xs: seq<APIExport>)
    requires Readable(c, index) && !Weak(index) && e in index && SchemaIn(c, e, gr).Some?
    ensures Listing(index, xs) && LastMatch(c, xs, gr) == Ok(SchemaIn(c, e, gr))
  {
    xs := TakeOut(index, e);
    xs := xs + [e];
    LastPicked(c, index, xs, gr);
  }

  /**
   The schema picked for a claim is the same whatever a sort returns that keeps
   its promise: for a comparator that is a strict weak order on the exports,
   exactly when those that may come last among the exports that have the
   resource have one schema for it; for any other, when all of them have.
   */
  lemma SchemaPickIsDeterministicIff(c: Caches, index: seq<APIExport>, gr: GroupResource)
    requires Readable(c, index)
    ensures (forall xs, ys :: Listing(index, xs) && Listing(index, ys)
                              ==> LastMatch(c, xs, gr) == LastMatch(c, ys, gr))
            <==> if Weak(index) then OneTopSchema(c, index, gr) else OneSchema(c, index, gr)
  {
    if if Weak(index) then OneTopSchema(c, index, gr) else OneSchema(c, index, gr) {
      forall xs, ys | Listing(index, xs) && Listing(index, ys)
        ensures LastMatch(c, xs, gr) == LastMatch(c, ys, gr)
      {
        if Weak(index) {
          WeakPicksAgree(c, index, xs, ys, gr);
        } else {
          MembersArePermuted(xs, index);
          OneSchemaOnePick(c, xs, ys, gr);
        }
      }
    } else if Weak(index) {
      var a, b :| Top(c, index, gr, a) && Top(c, index, gr, b) && SchemaIn(c, a, gr) != SchemaIn(c, b, gr);
      var xs := TopCanBePicked(c, index, gr, a);
      var ys := TopCanBePicked(c, index, gr, b);
    } else {
      var a, b :| a in index && b in index && SchemaIn(c, a, gr).Some? && SchemaIn(c, b, gr).Some?
                  && SchemaIn(c, a, gr) != SchemaIn(c, b, gr);
      var xs := AnyCanBePicked(c, index, gr, a);
      var ys := AnyCanBePicked(c, index, gr, b);
    }
  }

  lemma LastPicked(c: Caches, index: seq<APIExport>, xs: seq<APIExport>, gr: GroupResource)
    requires Readable(c, index) && multiset(xs) == multiset(index)
    requires xs != [] && SchemaIn(c, xs[|xs| - 1], gr).Some?
    ensures LastMatch(c, xs, gr) == Ok(SchemaIn(c, xs[|xs| - 1], gr))
  {
    MembersArePermuted(xs, index);
    LastMatchMeaning(c, xs, gr);
  }

  // ----- What one claim obtains, and when the loop fails -----

  /** By the claim's group: a built-in schema put into the export's cluster, a kcp one by name, or another export's. */
  lemma CandidateMeaning(t: Tables, c: Caches, e: APIExport, pc: PermissionClaim, listing: seq<APIExport>)
    ensures var gr := GroupResource(pc.group, pc.resource); var found := Candidate(t, c, e, pc, listing);
            && (gr in t.builtin ==>
                  && found.Ok? && found.value.Some?
                  && found.value.value.cluster == e.cluster
                  && found.value.value.(cluster := t.builtin[gr].cluster) == t.builtin[gr])
            && (gr !in t.builtin && (pc.group == "apis.kcp.io" || pc.group == "filteredvw.kcp.io") ==>
                  && (pc.resource in t.kcp ==> found == Ok(Some(t.kcp[pc.resource])))
                  && (pc.resource !in t.kcp ==> found == Ok(None)))
            && (gr !in t.builtin && pc.group != "apis.kcp.io" && pc.group != "filteredvw.kcp.io" ==>
                  && (pc.identityHash == "" ==> found == Ok(None))
                  && (pc.identityHash != "" && c.indexBroken ==> found.Err?)
                  && (pc.identityHash != "" && !c.indexBroken ==>
                        && (found.Err? <==> !Readable(c, listing))
                        && (found.Ok? && found.value.None? ==> forall x :: x in listing ==> SchemaIn(c, x, gr).None?)
                        && (found.Ok? && found.value.Some? ==>
                              exists i: nat :: LastHolder(c, listing, gr, i)
                                               && SchemaIn(c, listing[i], gr) == found.value)))
  {
    if !IsBuiltin(t, pc) && !IsKcpGroup(pc) {
      LastMatchMeaning(c, listing, pc.GR());
    }
  }

  /** The `i`-th claim is not shadowed, and looking it up is an error. */
  ghost predicate Breaks(t: Tables, c: Caches, e: APIExport, exported: map<GroupResource, Schema>,
                         listings: seq<seq<APIExport>>, i: nat)
    requires |e.claims| == |listings|
  {
    && i < |e.claims|
    && Candidate(t, c, e, e.claims[i], listings[i]).Err?
    && e.claims[i].GR() !in exported
    && forall j :: 0 <= j < i && e.claims[j].GR() == e.claims[i].GR() ==> !Resolves(t, c, e, listings, j)
  }

  lemma {:induction false} ClaimsFailIff(t: Tables, c: Caches, e: APIExport, exported: map<GroupResource, Schema>,
                                         listings: seq<seq<APIExport>>, n: nat)
    requires n <= |e.claims| == |listings|
    ensures ApplyClaims(t, c, e, exported, listings, n).Err?
            <==> exists i: nat :: i < n && Breaks(t, c, e, exported, listings, i)
  {
    if n > 0 {
      var last := n - 1;
      ClaimsFailIff(t, c, e, exported, listings, last);
      if ApplyClaims(t, c, e, exported, listings, last).Ok? {
        ClaimPrefixIsDeclarative(t, c, e, exported, listings, last);
        var r, gr := ApplyClaims(t, c, e, exported, listings, last).value, e.claims[last].GR();
        assert OwnedBy(t, c, e, exported, listings, r, gr, Winner(t, c, e, listings, gr, last));
        assert ApplyClaims(t, c, e, exported, listings, n).Err? <==> Breaks(t, c, e, exported, listings, last);
      }
    }
  }

  /** The reconcile gives up exactly when its own schemas or a claim that is not shadowed cannot be looked up. */
  lemma ResolveFailsIff(t: Tables, c: Caches, e: APIExport, listings: seq<seq<APIExport>>)
    requires |listings| == |e.claims|
    ensures Resolve(t, c, e, listings).Err?
            <==> var own := ExportSchemas(c, e.cluster, e.resources);
                 own.Err? || exists i: nat :: Breaks(t, c, e, own.value, listings, i)
  {
    var own := ExportSchemas(c, e.cluster, e.resources);
    if own.Ok? {
      ClaimsFailIff(t, c, e, own.value, listings, |e.claims|);
    }
  }
}
