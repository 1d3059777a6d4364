/**
 The authorizer chain of the virtual workspace: bound API, then content access
 review, then maximal permission policy. Access reviews are uninterpreted.
 */
module Authorizers {
  import opened Wrappers
  import opened Apis
  import opened Bindings
  import DomainKeys

  datatype Decision = Allow | Deny | NoOpinion

  datatype Outcome = Outcome(decision: Decision, error: bool)

  /** A delegated review: it cannot be set up, it fails, or it decides. */
  datatype Review = Unavailable | Failing | Decided(decision: Decision)

  datatype User = User(name: string, uid: string, groups: seq<string>, extra: map<string, seq<string>>)

  datatype Attributes = Attributes(user: User, verb: string, namespace: string, apiGroup: string, apiVersion: string,
                                   resource: string, subresource: string, name: string, resourceRequest: bool,
                                   path: string) {
    function GR(): GroupResource { GroupResource(apiGroup, resource) }
  }

  /** Everything the chain asks. `policyPrefix` marks users and groups in policy reviews. */
  datatype Env = Env(listers: Listers,
                     contentReview: (string, Attributes) -> Review,
                     policyReview: (string, Attributes) -> Review,
                     exportsByIdentity: string -> Result<seq<APIExport>>,
                     policyPrefix: string)

  const WILDCARD_VERB := "*"
  const READ_ONLY_VERBS := ["get", "list", "watch"]
  const GRANTED := Outcome(Allow, false)
  const ERROR := Outcome(NoOpinion, true)

  // ----- Maximal permission policy -----

  /** The identity of the first claim on the resource; None when it is unclaimed. */
  function ClaimedIdentity(claims: seq<PermissionClaim>, gr: GroupResource): Option<string> {
    if claims == [] then None
    else if claims[0].GR() == gr then Some(claims[0].identityHash)
    else ClaimedIdentity(claims[1..], gr)
  }

  function Prefixed(prefix: string, attr: Attributes): Attributes {
    attr.(user := User(prefix + attr.user.name, attr.user.uid,
                       seq(|attr.user.groups|, i requires 0 <= i < |attr.user.groups| => prefix + attr.user.groups[i]),
                       attr.user.extra))
  }

  /** None when the provider lets the request pass, otherwise the answer it causes. */
  function Objection(env: Env, attr: Attributes, provider: APIExport): Option<Outcome> {
    if !provider.policy.LocalPolicy? then None
    else
      match env.policyReview(provider.cluster, Prefixed(env.policyPrefix, attr))
      case Unavailable => Some(ERROR)
      case Failing => Some(ERROR)
      case Decided(d) => if d.Allow? then None else Some(Outcome(NoOpinion, false))
  }

  function ProvidersOutcome(env: Env, attr: Attributes, providers: seq<APIExport>): Outcome {
    if providers == [] then GRANTED
    else
      match Objection(env, attr, providers[0])
      case Some(o) => o
      case None => ProvidersOutcome(env, attr, providers[1..])
  }

  function MaximalOutcome(env: Env, ctx: RequestContext, attr: Attributes): Outcome {
    match SliceOf(env.listers, ctx.domainKey)
    case Found(slice) =>
      (match env.listers.getExport(slice.ReferencedKey())
       case Found(e) =>
         (match ClaimedIdentity(e.claims, attr.GR())
          case None => GRANTED
          case Some(hash) =>
            if hash == "" then GRANTED
            else
              match env.exportsByIdentity(hash)
              case Err => ERROR
              case Ok(providers) =>
                if providers == [] then Outcome(Deny, false) else ProvidersOutcome(env, attr, providers))
       case _ => ERROR)
    case _ => ERROR
  }

  method GetClaimedIdentity(e: APIExport, attr: Attributes) returns (hash: string, found: bool)
    ensures ClaimedIdentity(e.claims, attr.GR()) == if found then Some(hash) else None
  {
    for i := 0 to |e.claims|
      invariant ClaimedIdentity(e.claims, attr.GR()) == ClaimedIdentity(e.claims[i..], attr.GR())
    {
      if e.claims[i].resource == attr.resource && e.claims[i].group == attr.apiGroup {
        return e.claims[i].identityHash, true;
      }
    }
    return "", false;
  }

  method PrefixAttributes(prefix: string, attr: Attributes) returns (r: Attributes)
    ensures r == Prefixed(prefix, attr)
  {
    var groups: seq<string> := [];
    for i := 0 to |attr.user.groups|
      invariant |groups| == i && forall j :: 0 <= j < i ==> groups[j] == prefix + attr.user.groups[j]
    {
      groups := groups + [prefix + attr.user.groups[i]];
    }
    assert groups == Prefixed(prefix, attr).user.groups;
    r := Attributes(User(prefix + attr.user.name, attr.user.uid, groups, attr.user.extra),
                    attr.verb, attr.namespace, attr.apiGroup, attr.apiVersion, attr.resource, attr.subresource,
                    attr.name, attr.resourceRequest, attr.path);
  }

  method AuthorizeMaximal(env: Env, ctx: RequestContext, attr: Attributes) returns (r: Outcome)
    ensures r == MaximalOutcome(env, ctx, attr)
  {
    var slice := SliceOf(env.listers, ctx.domainKey);
    if !slice.Found? {
      return ERROR;
    }
    var claiming := env.listers.getExport(slice.value.ReferencedKey());
    if !claiming.Found? {
      return ERROR;
    }
    var hash, found := GetClaimedIdentity(claiming.value, attr);
    if !found || hash == "" {
      return GRANTED;
    }
    var listed := env.exportsByIdentity(hash);
    if listed.Err? {
      return ERROR;
    }
    var providers := listed.value;
    if |providers| == 0 {
      return Outcome(Deny, false);
    }
    for i := 0 to |providers|
      invariant ProvidersOutcome(env, attr, providers) == ProvidersOutcome(env, attr, providers[i..])
    {
      if !providers[i].policy.LocalPolicy? {
        continue;
      }
      var prefixed := PrefixAttributes(env.policyPrefix, attr);
      match env.policyReview(providers[i].cluster, prefixed)
      case Unavailable => return ERROR;
      case Failing => return ERROR;
      case Decided(d) =>
        if !d.Allow? {
          return Outcome(NoOpinion, false);
        }
    }
    return GRANTED;
  }

  // ----- Content access -----

  /** Access to the "content" subresource of the slice, with the verb of the request. */
  function ContentAttributes(attr: Attributes, sliceName: string): Attributes {
    Attributes(attr.user, attr.verb, "", FILTERED_GROUP, "v1alpha1", FILTERED_SLICES, "content", sliceName, true, "")
  }

  /** The middle link; `delegate` is what the next link answers. */
  function ContentOutcome(env: Env, ctx: RequestContext, attr: Attributes, delegate: Outcome): Outcome {
    var parts := DomainKeys.Split(ctx.domainKey, '/');
    if |parts| < 2 then ERROR
    else
      match env.contentReview(parts[0], ContentAttributes(attr, parts[1]))
      case Unavailable => ERROR
      case Failing => ERROR
      case Decided(d) => if d.Allow? then delegate else Outcome(d, false)
  }

  method AuthorizeContent(env: Env, ctx: RequestContext, attr: Attributes) returns (r: Outcome)
    ensures r == ContentOutcome(env, ctx, attr, MaximalOutcome(env, ctx, attr))
  {
    var parts := DomainKeys.Split(ctx.domainKey, '/');
    if |parts| < 2 {
      return ERROR;
    }
    match env.contentReview(parts[0], ContentAttributes(attr, parts[1]))
    case Unavailable => return ERROR;
    case Failing => return ERROR;
    case Decided(d) =>
      if d.Allow? {
        r := AuthorizeMaximal(env, ctx, attr);
        return;
      }
      return Outcome(d, false);
  }

  // ----- Bound APIs -----

  function VerbSet(verbs: seq<string>): set<string> { set v | v in verbs }

  /** The verbs of the first export claim with the group, resource and identity of the binding's claim. */
  function ExportVerbs(claims: seq<PermissionClaim>, pc: PermissionClaim): set<string> {
    if claims == [] then {}
    else if claims[0].GR() == pc.GR() && claims[0].identityHash == pc.identityHash then VerbSet(claims[0].verbs)
    else ExportVerbs(claims[1..], pc)
  }

  /** The claim's verbs and the export's verbs intersect in the verb or in the wildcard. */
  predicate VerbAllowed(bindingVerbs: set<string>, exportVerbs: set<string>, verb: string) {
    verb in bindingVerbs * exportVerbs || WILDCARD_VERB in bindingVerbs * exportVerbs
  }

  predicate ClaimPermits(c: AcceptableClaim, e: APIExport, attr: Attributes) {
    && c.accepted
    && c.claim.GR() == attr.GR()
    && VerbAllowed(VerbSet(c.claim.verbs), ExportVerbs(e.claims, c.claim), attr.verb)
  }

  predicate ClaimsPermit(binding: APIBinding, e: APIExport, attr: Attributes) {
    exists c :: c in binding.claims && ClaimPermits(c, e, attr)
  }

  predicate IsAPIBindings(attr: Attributes) { attr.GR() == GroupResource(APIS_GROUP, APIBINDINGS) }

  function BoundOutcome(env: Env, ctx: RequestContext, attr: Attributes, delegate: Outcome): Outcome {
    match ctx.cluster
    case None => ERROR
    case Some(cluster) =>
      if cluster.Wildcard? || attr.resource == "" then delegate
      else
        match SliceOf(env.listers, ctx.domainKey)
        case Found(slice) =>
          (match env.listers.getExport(slice.ReferencedKey())
           case Found(e) =>
             (match BindingFor(env.listers, cluster.name, e.name, slice.exportPath)
              case None => Outcome(Deny, false)
              case Some(binding) =>
                if attr.GR() in binding.boundResources || ClaimsPermit(binding, e, attr) then delegate
                else if IsAPIBindings(attr) then
                  if attr.verb in READ_ONLY_VERBS then delegate else Outcome(NoOpinion, false)
                else Outcome(Deny, false))
           case _ => ERROR)
        case _ => ERROR
  }

  /** The loop that intersects one claim's verbs with the export's. */
  method CheckVerbs(c: AcceptableClaim, e: APIExport, verb: string) returns (allowed: bool)
    ensures allowed == VerbAllowed(VerbSet(c.claim.verbs), ExportVerbs(e.claims, c.claim), verb)
  {
    var apiBindingVerbs := VerbSet(c.claim.verbs);
    var apiExportVerbs: set<string> := {};
    var i := 0;
    while i < |e.claims|
      invariant 0 <= i <= |e.claims|
      invariant apiExportVerbs == {}
      invariant ExportVerbs(e.claims, c.claim) == ExportVerbs(e.claims[i..], c.claim)
      decreases |e.claims| - i
    {
      if e.claims[i].GR() == c.claim.GR() && e.claims[i].identityHash == c.claim.identityHash {
        apiExportVerbs := apiExportVerbs + VerbSet(e.claims[i].verbs);
        break;
      }
      i := i + 1;
    }
    assert apiExportVerbs == ExportVerbs(e.claims, c.claim);
    var allowedVerbs := apiBindingVerbs * apiExportVerbs;
    return verb in allowedVerbs || WILDCARD_VERB in allowedVerbs;
  }

  /** The first link, composed with the other two as newAuthorizer composes them. */
  method AuthorizeBound(env: Env, ctx: RequestContext, attr: Attributes) returns (r: Outcome)
    ensures r == Chain(env, ctx, attr)
  {
    if ctx.cluster.None? {
      return ERROR;
    }
    var targetCluster := ctx.cluster.value;
    if targetCluster.Wildcard? || attr.resource == "" {
      r := AuthorizeContent(env, ctx, attr);
      return;
    }
    var slice := SliceOf(env.listers, ctx.domainKey);
    if !slice.Found? {
      return ERROR;
    }
    var apiExport := env.listers.getExport(slice.value.ReferencedKey());
    if !apiExport.Found? {
      return ERROR;
    }
    var found := FindBinding(env.listers, targetCluster.name, apiExport.value.name, slice.value.exportPath);
    if found.None? {
      return Outcome(Deny, false);
    }
    var binding := found.value;
    for i := 0 to |binding.boundResources|
      invariant attr.GR() !in binding.boundResources[..i]
    {
      if binding.boundResources[i].group == attr.apiGroup && binding.boundResources[i].resource == attr.resource {
        r := AuthorizeContent(env, ctx, attr);
        return;
      }
    }
    for i := 0 to |binding.claims|
      invariant forall j :: 0 <= j < i ==> !ClaimPermits(binding.claims[j], apiExport.value, attr)
    {
      var c := binding.claims[i];
      if !c.accepted {
        continue;
      }
      if c.claim.group == attr.apiGroup && c.claim.resource == attr.resource {
        var allowed := CheckVerbs(c, apiExport.value, attr.verb);
        if !allowed {
          continue;
        }
        assert ClaimPermits(c, apiExport.value, attr);
        r := AuthorizeContent(env, ctx, attr);
        return;
      }
    }
    assert !ClaimsPermit(binding, apiExport.value, attr);
    if attr.apiGroup == APIS_GROUP && attr.resource == APIBINDINGS {
      if attr.verb !in READ_ONLY_VERBS {
        return Outcome(NoOpinion, false);
      }
      r := AuthorizeContent(env, ctx, attr);
      return;
    }
    return Outcome(Deny, false);
  }

  function Chain(env: Env, ctx: RequestContext, attr: Attributes): Outcome {
    BoundOutcome(env, ctx, attr, ContentOutcome(env, ctx, attr, MaximalOutcome(env, ctx, attr)))
  }

  // ----- When the chain allows -----

  /** The slice and export the request is about can be looked up. */
  predicate Resolvable(env: Env, ctx: RequestContext) {
    && SliceOf(env.listers, ctx.domainKey).Found?
    && env.listers.getExport(SliceOf(env.listers, ctx.domainKey).value.ReferencedKey()).Found?
  }

  function ExportFor(env: Env, ctx: RequestContext): APIExport
    requires Resolvable(env, ctx)
  {
    env.listers.getExport(SliceOf(env.listers, ctx.domainKey).value.ReferencedKey()).value
  }

  /** The binding lets the request in: bound, claimed with a shared verb, or reading apibindings. */
  predicate Invited(env: Env, ctx: RequestContext, attr: Attributes)
    requires Resolvable(env, ctx)
  {
    var e := ExportFor(env, ctx);
    && ctx.cluster.Some? && ctx.cluster.value.Named?
    && var b := BindingFor(env.listers, ctx.cluster.value.name, e.name,
                           SliceOf(env.listers, ctx.domainKey).value.exportPath);
       && b.Some?
       && (|| attr.GR() in b.value.boundResources
           || ClaimsPermit(b.value, e, attr)
           || (IsAPIBindings(attr) && attr.verb in READ_ONLY_VERBS))
  }

  predicate ContentGranted(env: Env, ctx: RequestContext, attr: Attributes) {
    var parts := DomainKeys.Split(ctx.domainKey, '/');
    |parts| >= 2 && env.contentReview(parts[0], ContentAttributes(attr, parts[1])) == Decided(Allow)
  }

  predicate ProviderGrants(env: Env, attr: Attributes, p: APIExport) {
    p.policy.LocalPolicy? ==> env.policyReview(p.cluster, Prefixed(env.policyPrefix, attr)) == Decided(Allow)
  }

  /** Unclaimed, internal, or every provider of the claimed identity grants and there is one. */
  predicate PolicyGranted(env: Env, ctx: RequestContext, attr: Attributes)
    requires Resolvable(env, ctx)
  {
    match ClaimedIdentity(ExportFor(env, ctx).claims, attr.GR())
    case None => true
    case Some(hash) =>
      hash == "" ||
      (var ps := env.exportsByIdentity(hash);
       ps.Ok? && ps.value != [] && forall p :: p in ps.value ==> ProviderGrants(env, attr, p))
  }

  lemma {:induction false} ProvidersGrantIff(env: Env, attr: Attributes, providers: seq<APIExport>)
    ensures ProvidersOutcome(env, attr, providers).decision.Allow?
            <==> forall p :: p in providers ==> ProviderGrants(env, attr, p)
    ensures ProvidersOutcome(env, attr, providers).decision.Allow? ==> ProvidersOutcome(env, attr, providers) == GRANTED
  {
    if providers == [] {
    } else {
      ProvidersGrantIff(env, attr, providers[1..]);
      assert Objection(env, attr, providers[0]).None? <==> ProviderGrants(env, attr, providers[0]);
      assert providers[0] in providers && forall p :: p in providers[1..] ==> p in providers;
      assert forall p :: p in providers ==> p == providers[0] || p in providers[1..];
    }
  }

  /** The chain allows exactly these requests, and an Allow never comes with an error. */
  lemma ChainAllowsIff(env: Env, ctx: RequestContext, attr: Attributes)
    ensures Chain(env, ctx, attr).decision.Allow?
            <==> && ctx.cluster.Some?
                 && Resolvable(env, ctx)
                 && (ctx.cluster.value.Wildcard? || attr.resource == "" || Invited(env, ctx, attr))
                 && ContentGranted(env, ctx, attr)
                 && PolicyGranted(env, ctx, attr)
    ensures Chain(env, ctx, attr).decision.Allow? ==> !Chain(env, ctx, attr).error
  {
    if Resolvable(env, ctx) {
      var identity := ClaimedIdentity(ExportFor(env, ctx).claims, attr.GR());
      if identity.Some? && env.exportsByIdentity(identity.value).Ok? {
        ProvidersGrantIff(env, attr, env.exportsByIdentity(identity.value).value);
      }
    }
  }

  // ----- Provider order -----

  /** The decision does not depend on the order in which the index lists the providers. */
  lemma DecisionIgnoresProviderOrder(env: Env, attr: Attributes, xs: seq<APIExport>, ys: seq<APIExport>)
    requires multiset(xs) == multiset(ys)
    ensures ProvidersOutcome(env, attr, xs).decision == ProvidersOutcome(env, attr, ys).decision
  {
    MembersArePermuted(xs, ys);
    ProvidersGrantIff(env, attr, xs);
    ProvidersGrantIff(env, attr, ys);
    NeverDenies(env, attr, xs);
    NeverDenies(env, attr, ys);
  }

  lemma {:induction false} NeverDenies(env: Env, attr: Attributes, providers: seq<APIExport>)
    ensures !ProvidersOutcome(env, attr, providers).decision.Deny?
    ensures !ProvidersOutcome(env, attr, providers).decision.Allow? ==>
              exists p :: p in providers && Objection(env, attr, p) == Some(ProvidersOutcome(env, attr, providers))
  {
    if providers != [] && Objection(env, attr, providers[0]).None? {
      NeverDenies(env, attr, providers[1..]);
    }
  }

  /** Two providers object, one with an error and one without. */
  predicate MixedObjections(env: Env, attr: Attributes, xs: seq<APIExport>) {
    && (exists p :: p in xs && Objection(env, attr, p) == Some(ERROR))
    && (exists p :: p in xs && Objection(env, attr, p) == Some(Outcome(NoOpinion, false)))
  }

  lemma MoveToFront(xs: seq<APIExport>, p: APIExport) returns (ys: seq<APIExport>)
    requires p in xs
    ensures multiset(ys) == multiset(xs) && ys != [] && ys[0] == p
  {
    var i :| 0 <= i < |xs| && xs[i] == p;
    ys := [p] + (xs[..i] + xs[i + 1..]);
    assert xs == xs[..i] + ([xs[i]] + xs[i + 1..]);
  }

  lemma UnmixedOutcomesAgree(env: Env, attr: Attributes, xs: seq<APIExport>, ys: seq<APIExport>)
    requires multiset(ys) == multiset(xs) && !MixedObjections(env, attr, xs)
    ensures ProvidersOutcome(env, attr, ys) == ProvidersOutcome(env, attr, xs)
  {
    MembersArePermuted(ys, xs);
    ProvidersGrantIff(env, attr, xs);
    ProvidersGrantIff(env, attr, ys);
    NeverDenies(env, attr, xs);
    NeverDenies(env, attr, ys);
    var ox, oy := ProvidersOutcome(env, attr, xs), ProvidersOutcome(env, attr, ys);
    if !ox.decision.Allow? {
      var p :| p in xs && Objection(env, attr, p) == Some(ox);
      var q :| q in ys && Objection(env, attr, q) == Some(oy);
      assert q in xs;
    }
  }

  ghost predicate OrderIrrelevant(env: Env, attr: Attributes, xs: seq<APIExport>) {
    forall ys :: multiset(ys) == multiset(xs) ==> ProvidersOutcome(env, attr, ys) == ProvidersOutcome(env, attr, xs)
  }

  /** Whether the answer carries an error depends on the order exactly when objections are mixed. */
  lemma OrderIrrelevantIff(env: Env, attr: Attributes, xs: seq<APIExport>)
    ensures OrderIrrelevant(env, attr, xs) <==> !MixedObjections(env, attr, xs)
  {
    if MixedObjections(env, attr, xs) {
      var p :| p in xs && Objection(env, attr, p) == Some(ERROR);
      var q :| q in xs && Objection(env, attr, q) == Some(Outcome(NoOpinion, false));
      var ps := MoveToFront(xs, p);
      var qs := MoveToFront(xs, q);
      assert ProvidersOutcome(env, attr, ps) != ProvidersOutcome(env, attr, qs);
    } else {
      forall ys | multiset(ys) == multiset(xs)
        ensures ProvidersOutcome(env, attr, ys) == ProvidersOutcome(env, attr, xs)
      {
        UnmixedOutcomesAgree(env, attr, xs, ys);
      }
    }
  }

  // ----- Wildcards -----

  /** A verb list covers a verb when it holds the verb or the wildcard. */
  predicate Covers(verbs: set<string>, verb: string) { verb in verbs || WILDCARD_VERB in verbs }

  /**
   A claim permits what both sides cover, except when one side covers the verb
   only by its wildcard and the other only by name: then nothing is shared.
   */
  lemma WildcardIntersectionIff(bindingVerbs: set<string>, exportVerbs: set<string>, verb: string)
    ensures (VerbAllowed(bindingVerbs, exportVerbs, verb) <==> Covers(bindingVerbs, verb) && Covers(exportVerbs, verb))
            <==> !(|| (WILDCARD_VERB in bindingVerbs && verb !in bindingVerbs
                       && verb in exportVerbs && WILDCARD_VERB !in exportVerbs)
                   || (WILDCARD_VERB in exportVerbs && verb !in exportVerbs
                       && verb in bindingVerbs && WILDCARD_VERB !in bindingVerbs))
  {
  }

  // ----- Prefixing -----

  lemma PrefixCancels(prefix: string, a: string, b: string)
    requires prefix + a == prefix + b
    ensures a == b
  {
    assert (prefix + a)[|prefix|..] == a && (prefix + b)[|prefix|..] == b;
  }

  /** Policy reviews see every principal under the prefix, and different requests stay different. */
  lemma PrefixedIsInjective(prefix: string, attr: Attributes, attr': Attributes)
    ensures prefix <= Prefixed(prefix, attr).user.name
    ensures forall i :: 0 <= i < |attr.user.groups| ==> prefix <= Prefixed(prefix, attr).user.groups[i]
    ensures Prefixed(prefix, attr) == Prefixed(prefix, attr') ==> attr == attr'
  {
    var p, p' := Prefixed(prefix, attr), Prefixed(prefix, attr');
    if p == p' {
      PrefixCancels(prefix, attr.user.name, attr'.user.name);
      assert |p.user.groups| == |p'.user.groups|;
      forall i | 0 <= i < |attr.user.groups| ensures attr.user.groups[i] == attr'.user.groups[i] {
        assert p.user.groups[i] == p'.user.groups[i];
        PrefixCancels(prefix, attr.user.groups[i], attr'.user.groups[i]);
      }
      assert attr.user.groups == attr'.user.groups;
    }
  }
}
