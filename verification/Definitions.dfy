/**
 Building the set of API definitions of one domain key: the build, fallback and
 cleanup loops of reconcile, as functions of the iteration orders they used.
 A definition is a number, its position in the log of created definitions.
 */
module Definitions {
  import opened Wrappers
  import opened Labels
  import opened Apis
  import opened ClaimResolution

  /** What a definition was created with. */
  datatype Params =
    | Backed(schema: Schema, version: string, identity: string, reqs: set<Requirement>)
    | BindingsFallback(version: string, cluster: string, exportName: string)
    | SlicesFallback(version: string, cluster: string, exportName: string)

  /** A published entry: the definition with the schema UID and export identity it was made for. */
  datatype Entry = Entry(def: nat, uid: string, identityHash: string)

  type DefinitionSet = map<GVR, Entry>

  /**
   The fixed surroundings of the reconciler: the schema tables, the label a
   permission claim puts on objects (None when it cannot be computed), the
   label of an export's own APIBindings, and whether creation succeeds.
   */
  datatype Config = Config(tables: Tables,
                           claimLabel: (string, string, PermissionClaim) -> Option<(string, string)>,
                           reflexiveLabel: (string, string) -> string,
                           creatable: Params -> bool)

  /** What one serving reconcile works from. */
  datatype Basis = Basis(slice: EndpointSlice, apiExport: APIExport, r: Resolution)

  const BINDINGS_V1 := GVR(APIS_GROUP, "v1alpha1", APIBINDINGS)
  const BINDINGS_V2 := GVR(APIS_GROUP, "v1alpha2", APIBINDINGS)
  const SLICES_V1 := GVR(FILTERED_GROUP, "v1alpha1", FILTERED_SLICES)

  /** What the slice's selector and the claim on the resource require; None when either is refused. */
  function Requirements(cfg: Config, b: Basis, gr: GroupResource): Option<set<Requirement>> {
    match SelectorRequirements(b.slice.selector)
    case Err => None
    case Ok(reqs) =>
      match Get(b.r.claims, gr)
      case None => Some(reqs)
      case Some(pc) =>
        match cfg.claimLabel(b.apiExport.cluster, b.apiExport.name, pc)
        case None => None
        case Some((key, value)) =>
          var fallback := if gr == GroupResource(APIS_GROUP, APIBINDINGS)
                          then {cfg.reflexiveLabel(b.apiExport.cluster, b.apiExport.name)} else {};
          Some(reqs + {Requirement(key, In, {value} + fallback)})
  }

  /** The identity a new definition of the resource gets. */
  function IdentityFor(b: Basis, gr: GroupResource): string { GetOr(b.r.identities, gr, "") }

  /** The parameters a new definition gets, if its requirements can be made. */
  function NewParams(cfg: Config, b: Basis, s: Schema, version: string): Option<Params> {
    match Requirements(cfg, b, s.GR())
    case None => None
    case Some(reqs) => Some(Backed(s, version, IdentityFor(b, s.GR()), reqs))
  }

  /** A new definition has the schema, the version and the identity it is asked for; it fails for two reasons only. */
  lemma NewParamsMeaning(cfg: Config, b: Basis, s: Schema, version: string)
    ensures NewParams(cfg, b, s, version).None?
            <==> || !ValidSelector(b.slice.selector)
                 || (s.GR() in b.r.claims
                     && cfg.claimLabel(b.apiExport.cluster, b.apiExport.name, b.r.claims[s.GR()]).None?)
    ensures NewParams(cfg, b, s, version).Some? ==>
              var p := NewParams(cfg, b, s, version).value;
              && p.Backed? && p.schema == s && p.version == version
              && (s.GR() in b.r.identities ==> p.identity == b.r.identities[s.GR()])
              && (s.GR() !in b.r.identities ==> p.identity == "")
  {
  }

  /** The label a claim puts on an object, or for an export's own APIBindings the reflexive one. */
  predicate CarriesClaimLabel(cfg: Config, b: Basis, gr: GroupResource, labels: LabelSet)
    requires gr in b.r.claims && cfg.claimLabel(b.apiExport.cluster, b.apiExport.name, b.r.claims[gr]).Some?
  {
    var (key, value) := cfg.claimLabel(b.apiExport.cluster, b.apiExport.name, b.r.claims[gr]).value;
    && key in labels
    && (labels[key] == value
        || (gr == GroupResource("apis.kcp.io", "apibindings")
            && labels[key] == cfg.reflexiveLabel(b.apiExport.cluster, b.apiExport.name)))
  }

  lemma UnionMatches(rs: set<Requirement>, r: Requirement, labels: LabelSet)
    ensures MatchesAll(rs + {r}, labels) <==> MatchesAll(rs, labels) && Matches(r, labels)
  {
    assert r in rs + {r} && forall x :: x in rs ==> x in rs + {r};
  }

  /**
   What a new definition requires of an object: the slice's selector, and for a
   claimed resource the claim's label besides.
   */
  lemma NewParamsRequire(cfg: Config, b: Basis, s: Schema, version: string, labels: LabelSet)
    requires NewParams(cfg, b, s, version).Some?
    ensures MatchesAll(NewParams(cfg, b, s, version).value.reqs, labels)
            <==> && Carries(labels, b.slice.selector.matchLabels)
                 && ExpressionsHold(b.slice.selector.matchExpressions, labels)
                 && (s.GR() in b.r.claims ==> CarriesClaimLabel(cfg, b, s.GR(), labels))
  {
    var rs := SelectorRequirements(b.slice.selector).value;
    SelectorMeaning(b.slice.selector, labels);
    if s.GR() in b.r.claims {
      var (key, value) := cfg.claimLabel(b.apiExport.cluster, b.apiExport.name, b.r.claims[s.GR()]).value;
      var fallback := if s.GR() == GroupResource(APIS_GROUP, APIBINDINGS)
                      then {cfg.reflexiveLabel(b.apiExport.cluster, b.apiExport.name)} else {};
      UnionMatches(rs, Requirement(key, In, {value} + fallback), labels);
    }
  }

  /** One turn of the build loops: a schema of the table with one of its versions. */
  datatype Slot = Slot(schema: Schema, version: Version) {
    function GVR(): GVR { Apis.GVR(schema.group, version.name, schema.plural) }
  }

  /** The first `n` versions of a schema. */
  function SchemaSlots(s: Schema, n: nat): seq<Slot>
    requires n <= |s.versions|
  {
    if n == 0 then [] else SchemaSlots(s, n - 1) + [Slot(s, s.versions[n - 1])]
  }

  /** The turns of both loops when the schema map is iterated in the order `order`. */
  function Slots(r: Resolution, order: seq<GroupResource>): seq<Slot>
    requires forall gr :: gr in order ==> gr in r.schemas
  {
    if order == [] then []
    else
      var last := |order| - 1;
      var s := r.schemas[order[last]];
      Slots(r, order[..last]) + SchemaSlots(s, |s.versions|)
  }

  /** The build so far; `dropped` are new definitions that are no longer in the set. */
  datatype Progress = Progress(entries: DefinitionSet, created: seq<Params>, dropped: set<nat>, failed: bool)

  /** Assign newSet[gvr]; a definition made during this build that loses its place is dropped. */
  function Install(p: Progress, base: nat, gvr: GVR, e: Entry): Progress {
    var lost := if gvr in p.entries && p.entries[gvr].def >= base && p.entries[gvr].def != e.def
                then {p.entries[gvr].def} else {};
    p.(entries := p.entries[gvr := e], dropped := p.dropped + lost)
  }

  function Create(p: Progress, base: nat, gvr: GVR, params: Params, uid: string, hash: string): Progress {
    Install(p.(created := p.created + [params]), base, gvr, Entry(|p.created|, uid, hash))
  }

  /** The old entry is kept: same schema UID, same export identity. */
  predicate Reused(b: Basis, prev: DefinitionSet, slot: Slot) {
    var gvr := slot.GVR();
    gvr in prev && prev[gvr].uid == slot.schema.uid && prev[gvr].identityHash == b.apiExport.identityHash
  }

  /** One turn of the build loops. An error ends them: later turns do nothing. */
  function AddSlot(cfg: Config, b: Basis, prev: DefinitionSet, base: nat, slot: Slot, p: Progress): Progress {
    var gvr := slot.GVR();
    if p.failed || !slot.version.served then p
    else if Reused(b, prev, slot) then Install(p, base, gvr, prev[gvr])
    else
      match NewParams(cfg, b, slot.schema, slot.version.name)
      case None => p.(failed := true)
      case Some(params) =>
        if !cfg.creatable(params) then p
        else Create(p, base, gvr, params, slot.schema.uid, b.apiExport.identityHash)
  }

  function AddSlots(cfg: Config, b: Basis, prev: DefinitionSet, base: nat, slots: seq<Slot>, p: Progress): Progress {
    if slots == [] then p
    else
      var last := |slots| - 1;
      AddSlot(cfg, b, prev, base, slots[last], AddSlots(cfg, b, prev, base, slots[..last], p))
  }

  function AddBindingsFallback(b: Basis, base: nat, p: Progress): Progress {
    if b.r.claimsAPIBindings then p
    else
      var cluster, name := b.apiExport.cluster, b.apiExport.name;
      var p1 := Create(p, base, BINDINGS_V1, BindingsFallback("v1alpha1", cluster, name), "", "");
      Create(p1, base, BINDINGS_V2, BindingsFallback("v1alpha2", cluster, name), "", "")
  }

  function AddSlicesFallback(b: Basis, base: nat, p: Progress): Progress {
    if b.r.claimsFilteredSlices then p
    else Create(p, base, SLICES_V1, SlicesFallback("v1alpha1", b.apiExport.cluster, b.apiExport.name), "", "")
  }

  function Nothing(created: seq<Params>): Progress { Progress(map[], created, {}, false) }

  /** The new set, with everything that happened while building it. */
  function Build(cfg: Config, b: Basis, prev: DefinitionSet, order: seq<GroupResource>, created: seq<Params>): Progress
    requires forall gr :: gr in order ==> gr in b.r.schemas
  {
    var p := AddSlots(cfg, b, prev, |created|, Slots(b.r, order), Nothing(created));
    if p.failed then p
    else AddSlicesFallback(b, |created|, AddBindingsFallback(b, |created|, p))
  }

  /** The old definition at `gvr` is not carried over. */
  predicate Removed(prev: DefinitionSet, next: DefinitionSet, gvr: GVR)
    requires gvr in prev
  {
    gvr !in next || next[gvr].def != prev[gvr].def
  }

  /** The TearDown calls of the cleanup loop, in order. */
  function TornDown(prev: DefinitionSet, next: DefinitionSet, order: seq<GVR>): seq<nat>
    requires forall gvr :: gvr in order ==> gvr in prev
  {
    if order == [] then []
    else
      var last := |order| - 1;
      TornDown(prev, next, order[..last])
      + (if Removed(prev, next, order[last]) then [prev[order[last]].def] else [])
  }
}
