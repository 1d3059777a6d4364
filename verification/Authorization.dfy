/**
 What the authorizer chain answers to a request, written out on the request,
 the slice, the export, the binding and the answers of the reviews.
 */
module Authorization {
  import opened Wrappers
  import opened Apis
  import opened Bindings
  import opened Authorizers
  import DomainKeys

  // ----- Claims -----

  /** The first claim on the group and resource stands at `i`. */
  predicate FirstClaimAt(claims: seq<PermissionClaim>, group: string, resource: string, i: nat) {
    && i < |claims| && claims[i].group == group && claims[i].resource == resource
    && forall j :: 0 <= j < i ==> !(claims[j].group == group && claims[j].resource == resource)
  }

  lemma {:induction false} ClaimedIdentityMeaning(claims: seq<PermissionClaim>, gr: GroupResource)
    ensures ClaimedIdentity(claims, gr).None?
            <==> forall i :: 0 <= i < |claims| ==> !(claims[i].group == gr.group && claims[i].resource == gr.resource)
    ensures forall i: nat :: FirstClaimAt(claims, gr.group, gr.resource, i) ==>
              ClaimedIdentity(claims, gr) == Some(claims[i].identityHash)
    ensures ClaimedIdentity(claims, gr).Some? ==> exists i: nat :: FirstClaimAt(claims, gr.group, gr.resource, i)
  {
    if claims == [] {
    } else if claims[0].GR() == gr {
      assert FirstClaimAt(claims, gr.group, gr.resource, 0);
    } else {
      var rest := claims[1..];
      ClaimedIdentityMeaning(rest, gr);
      assert forall i :: 0 < i < |claims| ==> claims[i] == rest[i - 1];
      forall i: nat | FirstClaimAt(claims, gr.group, gr.resource, i)
        ensures ClaimedIdentity(claims, gr) == Some(claims[i].identityHash)
      {
        assert forall j :: 0 <= j < i - 1 ==> rest[j] == claims[j + 1];
        assert FirstClaimAt(rest, gr.group, gr.resource, i - 1);
      }
      if ClaimedIdentity(claims, gr).Some? {
        var i: nat :| FirstClaimAt(rest, gr.group, gr.resource, i);
        assert FirstClaimAt(claims, gr.group, gr.resource, i + 1);
      }
    }
  }

  predicate SameClaim(a: PermissionClaim, b: PermissionClaim) {
    a.group == b.group && a.resource == b.resource && a.identityHash == b.identityHash
  }

  /** The first export claim equal to the binding's, up to verbs, stands at `j`. */
  predicate CounterpartAt(claims: seq<PermissionClaim>, pc: PermissionClaim, j: nat) {
    && j < |claims| && SameClaim(claims[j], pc)
    && forall l :: 0 <= l < j ==> !SameClaim(claims[l], pc)
  }

  lemma {:induction false} ExportVerbsMeaning(claims: seq<PermissionClaim>, pc: PermissionClaim, verb: string)
    ensures verb in ExportVerbs(claims, pc)
            <==> exists j: nat :: CounterpartAt(claims, pc, j) && verb in claims[j].verbs
    ensures forall j: nat, l: nat :: CounterpartAt(claims, pc, j) && CounterpartAt(claims, pc, l) ==> j == l
  {
    if claims == [] {
    } else if SameClaim(claims[0], pc) {
      assert CounterpartAt(claims, pc, 0);
    } else {
      var rest := claims[1..];
      ExportVerbsMeaning(rest, pc, verb);
      assert forall i :: 0 < i < |claims| ==> claims[i] == rest[i - 1];
      if j: nat :| CounterpartAt(rest, pc, j) && verb in rest[j].verbs {
        assert CounterpartAt(claims, pc, j + 1);
      }
      if j: nat :| CounterpartAt(claims, pc, j) && verb in claims[j].verbs {
        assert forall l :: 0 <= l < j - 1 ==> rest[l] == claims[l + 1];
        assert CounterpartAt(rest, pc, j - 1);
      }
    }
  }

  /** Both lists hold the verb itself, or both the wildcard. */
  predicate Share(verbs: seq<string>, verbs': seq<string>, verb: string) {
    (verb in verbs && verb in verbs') || ("*" in verbs && "*" in verbs')
  }

  /** The accepted claim at `i` and its counterpart at `j` in the export share the request's verb. */
  predicate ClaimedAt(binding: APIBinding, e: APIExport, attr: Attributes, i: nat, j: nat) {
    && i < |binding.claims| && binding.claims[i].accepted
    && binding.claims[i].claim.group == attr.apiGroup && binding.claims[i].claim.resource == attr.resource
    && CounterpartAt(e.claims, binding.claims[i].claim, j)
    && Share(binding.claims[i].claim.verbs, e.claims[j].verbs, attr.verb)
  }

  lemma ClaimPermitsMeaning(binding: APIBinding, e: APIExport, attr: Attributes, i: nat)
    requires i < |binding.claims|
    ensures ClaimPermits(binding.claims[i], e, attr) <==> exists j: nat :: ClaimedAt(binding, e, attr, i, j)
  {
    var pc := binding.claims[i].claim;
    ExportVerbsMeaning(e.claims, pc, attr.verb);
    ExportVerbsMeaning(e.claims, pc, "*");
    if ClaimPermits(binding.claims[i], e, attr) {
      var verb := if attr.verb in VerbSet(pc.verbs) * ExportVerbs(e.claims, pc) then attr.verb else "*";
      var j: nat :| CounterpartAt(e.claims, pc, j) && verb in e.claims[j].verbs;
      assert ClaimedAt(binding, e, attr, i, j);
    }
  }

  /** The binding lets the request in: bound, claimed with a shared verb, or reading apibindings. */
  ghost predicate LetsIn(binding: APIBinding, e: APIExport, attr: Attributes) {
    || GroupResource(attr.apiGroup, attr.resource) in binding.boundResources
    || (exists i: nat, j: nat :: ClaimedAt(binding, e, attr, i, j))
    || (attr.apiGroup == "apis.kcp.io" && attr.resource == "apibindings"
        && (attr.verb == "get" || attr.verb == "list" || attr.verb == "watch"))
  }

  lemma LetsInMeaning(binding: APIBinding, e: APIExport, attr: Attributes)
    ensures LetsIn(binding, e, attr)
            <==> || attr.GR() in binding.boundResources
                 || ClaimsPermit(binding, e, attr)
                 || (IsAPIBindings(attr) && attr.verb in READ_ONLY_VERBS)
  {
    if ClaimsPermit(binding, e, attr) {
      var c :| c in binding.claims && ClaimPermits(c, e, attr);
      var i: nat :| i < |binding.claims| && binding.claims[i] == c;
      ClaimPermitsMeaning(binding, e, attr, i);
    }
    if i: nat, j: nat :| ClaimedAt(binding, e, attr, i, j) {
      ClaimPermitsMeaning(binding, e, attr, i);
      assert binding.claims[i] in binding.claims;
    }
  }

  // ----- The first link -----

  /** The first listed binding to the export stands at `i`. */
  predicate BoundAt(bs: seq<APIBinding>, exportName: string, exportCluster: string, i: nat) {
    && i < |bs| && bs[i].reference == Some(exportName) && bs[i].exportCluster == exportCluster
    && forall j :: 0 <= j < i ==> bs[j].reference != Some(exportName) || bs[j].exportCluster != exportCluster
  }

  /** The slice and the export it refers to are in the cache. */
  predicate Known(env: Env, k: ObjectKey, slice: EndpointSlice, e: APIExport) {
    && env.listers.getSlice(k) == Found(slice)
    && env.listers.getExport(ObjectKey(slice.exportPath, slice.exportName)) == Found(e)
  }

  lemma KnownMeaning(env: Env, k: ObjectKey)
    ensures (exists slice, e :: Known(env, k, slice, e))
            <==> && env.listers.getSlice(k).Found?
                 && env.listers.getExport(env.listers.getSlice(k).value.ReferencedKey()).Found?
  {
    if env.listers.getSlice(k).Found? {
      var slice := env.listers.getSlice(k).value;
      if env.listers.getExport(slice.ReferencedKey()).Found? {
        assert Known(env, k, slice, env.listers.getExport(slice.ReferencedKey()).value);
      }
    }
  }

  /** `binding` is what binds the request's cluster to the export. */
  ghost predicate Binds(env: Env, cluster: string, slice: EndpointSlice, e: APIExport, binding: APIBinding) {
    var listed := env.listers.listBindings(cluster);
    listed.Ok? && exists i: nat :: BoundAt(listed.value, e.name, slice.exportPath, i) && listed.value[i] == binding
  }

  lemma BindsMeaning(env: Env, cluster: string, slice: EndpointSlice, e: APIExport, binding: APIBinding)
    ensures Binds(env, cluster, slice, e, binding)
            <==> BindingFor(env.listers, cluster, e.name, slice.exportPath) == Some(binding)
  {
    var listed := env.listers.listBindings(cluster);
    if listed.Ok? {
      FirstBindingMeaning(listed.value, e.name, slice.exportPath);
      if BindingFor(env.listers, cluster, e.name, slice.exportPath) == Some(binding) {
        var i :| && 0 <= i < |listed.value| && listed.value[i] == binding
                 && binding.reference == Some(e.name) && binding.exportCluster == slice.exportPath
                 && forall j :: 0 <= j < i ==> listed.value[j].reference != Some(e.name)
                                                || listed.value[j].exportCluster != slice.exportPath;
        assert BoundAt(listed.value, e.name, slice.exportPath, i);
      }
    }
  }

  /** The request passes the first link. */
  ghost predicate Passes(env: Env, ctx: RequestContext, attr: Attributes, k: ObjectKey) {
    && ctx.cluster.Some?
    && (|| ctx.cluster.value.Wildcard?
        || attr.resource == ""
        || exists slice, e, binding ::
             && Known(env, k, slice, e) && Binds(env, ctx.cluster.value.name, slice, e, binding)
             && LetsIn(binding, e, attr))
  }

  /** The chain is asked about the slice with key `k`. */
  predicate Concerns(ctx: RequestContext, k: ObjectKey) {
    DomainKeys.Names(ctx.domainKey, k)
  }

  /**
   The answer to a request that does not pass: without a cluster, slice or
   export it is an error; without a binding it is denied; a binding that does
   not let it in denies it too, except that writing apibindings is left to others.
   */
  ghost function Refusal(env: Env, ctx: RequestContext, attr: Attributes, k: ObjectKey): Outcome {
    if ctx.cluster.None? || ctx.cluster.value.Wildcard? || !(exists slice, e :: Known(env, k, slice, e)) then
      Outcome(NoOpinion, true)
    else if attr.apiGroup == "apis.kcp.io" && attr.resource == "apibindings"
            && exists slice, e, b :: Known(env, k, slice, e) && Binds(env, ctx.cluster.value.name, slice, e, b) then
      Outcome(NoOpinion, false)
    else
      Outcome(Deny, false)
  }

  lemma BoundMeaning(env: Env, ctx: RequestContext, attr: Attributes, k: ObjectKey, delegate: Outcome)
    requires Concerns(ctx, k)
    ensures BoundOutcome(env, ctx, attr, delegate)
            == if Passes(env, ctx, attr, k) then delegate else Refusal(env, ctx, attr, k)
  {
    SliceOfMeaning(env.listers, ctx.domainKey, k);
    if ctx.cluster.Some? && ctx.cluster.value.Named? {
      if slice, e :| Known(env, k, slice, e) {
        KnownBoundMeaning(env, ctx, attr, k, slice, e, delegate);
      } else {
        KnownMeaning(env, k);
      }
    }
  }

  lemma KnownBoundMeaning(env: Env, ctx: RequestContext, attr: Attributes, k: ObjectKey,
                          slice: EndpointSlice, e: APIExport, delegate: Outcome)
    requires Concerns(ctx, k) && ctx.cluster.Some? && ctx.cluster.value.Named? && Known(env, k, slice, e)
    ensures BoundOutcome(env, ctx, attr, delegate)
            == if Passes(env, ctx, attr, k) then delegate else Refusal(env, ctx, attr, k)
  {
    SliceOfMeaning(env.listers, ctx.domainKey, k);
    var cluster := ctx.cluster.value.name;
    var found := BindingFor(env.listers, cluster, e.name, slice.exportPath);
    forall b ensures Binds(env, cluster, slice, e, b) <==> found == Some(b) {
      BindsMeaning(env, cluster, slice, e, b);
    }
    if found.Some? {
      LetsInMeaning(found.value, e, attr);
    }
  }

  // ----- The second link -----

  /** Whether the user may use the request's verb on the content of the slice, asked in the slice's cluster. */
  function ContentReview(env: Env, attr: Attributes, k: ObjectKey): Review {
    env.contentReview(k.cluster,
                      Attributes(attr.user, attr.verb, "", "filteredvw.kcp.io", "v1alpha1",
                                 "filteredapiexportendpointslices", "content", k.name, true, ""))
  }

  lemma ContentMeaning(env: Env, ctx: RequestContext, attr: Attributes, k: ObjectKey, delegate: Outcome)
    requires Concerns(ctx, k)
    ensures ContentOutcome(env, ctx, attr, delegate)
            == match ContentReview(env, attr, k)
               case Decided(Allow) => delegate
               case Decided(d) => Outcome(d, false)
               case _ => Outcome(NoOpinion, true)
  {
    DomainKeys.SplitNames(ctx.domainKey, k);
  }

  // ----- The third link -----

  /** What a policy review is asked: the same request, its user and groups marked and in their order. */
  lemma PrefixedMeaning(prefix: string, attr: Attributes)
    ensures var p := Prefixed(prefix, attr);
            && p.user.name == prefix + attr.user.name && p.user.uid == attr.user.uid
            && |p.user.groups| == |attr.user.groups|
            && (forall i :: 0 <= i < |attr.user.groups| ==> p.user.groups[i] == prefix + attr.user.groups[i])
            && p.user.extra == attr.user.extra
            && p.verb == attr.verb && p.namespace == attr.namespace && p.apiGroup == attr.apiGroup
            && p.apiVersion == attr.apiVersion && p.resource == attr.resource && p.subresource == attr.subresource
            && p.name == attr.name && p.resourceRequest == attr.resourceRequest && p.path == attr.path
  {
  }

  /** The provider has a local policy and its review does not allow the request. */
  predicate Objects(env: Env, attr: Attributes, p: APIExport) {
    p.policy.LocalPolicy? && env.policyReview(p.cluster, Prefixed(env.policyPrefix, attr)) != Decided(Allow)
  }

  /** The first provider that objects stands at `i`. */
  predicate ObjectsAt(env: Env, attr: Attributes, providers: seq<APIExport>, i: nat) {
    i < |providers| && Objects(env, attr, providers[i]) && forall j :: 0 <= j < i ==> !Objects(env, attr, providers[j])
  }

  /** The answer an objecting provider causes: an error if its review could not be had. */
  function Complaint(env: Env, attr: Attributes, p: APIExport): Outcome {
    Outcome(NoOpinion, !env.policyReview(p.cluster, Prefixed(env.policyPrefix, attr)).Decided?)
  }

  /** The first provider that objects settles the answer. */
  lemma {:induction false} FirstObjectionDecides(env: Env, attr: Attributes, providers: seq<APIExport>, i: nat)
    requires ObjectsAt(env, attr, providers, i)
    ensures ProvidersOutcome(env, attr, providers) == Complaint(env, attr, providers[i])
  {
    if i > 0 {
      var rest := providers[1..];
      assert forall j :: 0 <= j < |rest| ==> rest[j] == providers[j + 1];
      assert Objection(env, attr, providers[0]).None? by {
        assert !Objects(env, attr, providers[0]);
      }
      FirstObjectionDecides(env, attr, rest, i - 1);
    }
  }

  lemma {:induction false} UnopposedPass(env: Env, attr: Attributes, providers: seq<APIExport>)
    requires forall i :: 0 <= i < |providers| ==> !Objects(env, attr, providers[i])
    ensures ProvidersOutcome(env, attr, providers) == Outcome(Allow, false)
  {
    if providers != [] {
      assert !Objects(env, attr, providers[0]);
      UnopposedPass(env, attr, providers[1..]);
    }
  }

  /** The identity, if any, whose providers have a say in the request. */
  ghost predicate Provided(e: APIExport, attr: Attributes, hash: string) {
    && hash != ""
    && exists i: nat :: FirstClaimAt(e.claims, attr.apiGroup, attr.resource, i) && e.claims[i].identityHash == hash
  }

  lemma ProvidedMeaning(e: APIExport, attr: Attributes, hash: string)
    ensures Provided(e, attr, hash) <==> hash != "" && ClaimedIdentity(e.claims, attr.GR()) == Some(hash)
  {
    ClaimedIdentityMeaning(e.claims, attr.GR());
  }

  /** The policies let the request pass: no providers have a say, or there are some and none objects. */
  ghost predicate PoliciesPass(env: Env, e: APIExport, attr: Attributes) {
    forall hash :: Provided(e, attr, hash) ==>
      var listed := env.exportsByIdentity(hash);
      listed.Ok? && listed.value != [] && forall i :: 0 <= i < |listed.value| ==> !Objects(env, attr, listed.value[i])
  }

  lemma UnknownIsAnError(env: Env, ctx: RequestContext, attr: Attributes, k: ObjectKey)
    requires Concerns(ctx, k) && !exists slice, e :: Known(env, k, slice, e)
    ensures MaximalOutcome(env, ctx, attr) == Outcome(NoOpinion, true)
  {
    SliceOfMeaning(env.listers, ctx.domainKey, k);
    KnownMeaning(env, k);
  }

  lemma UnprovidedPasses(env: Env, ctx: RequestContext, attr: Attributes, k: ObjectKey,
                         slice: EndpointSlice, e: APIExport)
    requires Concerns(ctx, k) && Known(env, k, slice, e) && forall hash :: !Provided(e, attr, hash)
    ensures MaximalOutcome(env, ctx, attr) == Outcome(Allow, false)
  {
    SliceOfMeaning(env.listers, ctx.domainKey, k);
    var identity := ClaimedIdentity(e.claims, attr.GR());
    if identity.Some? {
      ProvidedMeaning(e, attr, identity.value);
    }
  }

  /** The index must list the providers of the identity, there must be some, and none may object. */
  lemma ProvidersDecide(env: Env, ctx: RequestContext, attr: Attributes, k: ObjectKey,
                        slice: EndpointSlice, e: APIExport, hash: string)
    requires Concerns(ctx, k) && Known(env, k, slice, e) && Provided(e, attr, hash)
    ensures var r := MaximalOutcome(env, ctx, attr);
            match env.exportsByIdentity(hash)
            case Err => r == Outcome(NoOpinion, true)
            case Ok(providers) =>
              && (providers == [] ==> r == Outcome(Deny, false))
              && (providers != [] && (forall i :: 0 <= i < |providers| ==> !Objects(env, attr, providers[i])) ==>
                    r == Outcome(Allow, false))
              && forall i: nat :: ObjectsAt(env, attr, providers, i) ==> r == Complaint(env, attr, providers[i])
  {
    SliceOfMeaning(env.listers, ctx.domainKey, k);
    ProvidedMeaning(e, attr, hash);
    if env.exportsByIdentity(hash).Ok? {
      var providers := env.exportsByIdentity(hash).value;
      if i: nat :| ObjectsAt(env, attr, providers, i) {
        FirstObjectionDecides(env, attr, providers, i);
        assert forall j: nat :: ObjectsAt(env, attr, providers, j) ==> j == i;
      } else if i: nat :| i < |providers| && Objects(env, attr, providers[i]) {
        FirstObjection(env, attr, providers, i);
      } else {
        UnopposedPass(env, attr, providers);
      }
    }
  }

  /** Some provider is the first to object, if any does. */
  lemma {:induction false} FirstObjection(env: Env, attr: Attributes, providers: seq<APIExport>, i: nat)
    requires i < |providers| && Objects(env, attr, providers[i])
    ensures exists j: nat :: ObjectsAt(env, attr, providers, j)
  {
    if !ObjectsAt(env, attr, providers, i) {
      var j :| 0 <= j < i && Objects(env, attr, providers[j]);
      FirstObjection(env, attr, providers, j);
    }
  }

  lemma PolicyMeaning(env: Env, ctx: RequestContext, attr: Attributes, k: ObjectKey, slice: EndpointSlice, e: APIExport)
    requires Concerns(ctx, k) && Known(env, k, slice, e)
    ensures MaximalOutcome(env, ctx, attr).decision == Allow <==> PoliciesPass(env, e, attr)
    ensures MaximalOutcome(env, ctx, attr).decision == Allow ==> !MaximalOutcome(env, ctx, attr).error
  {
    if hash :| Provided(e, attr, hash) {
      ProvidedMeaning(e, attr, hash);
      forall other ensures Provided(e, attr, other) ==> other == hash {
        ProvidedMeaning(e, attr, other);
      }
      ProvidersDecide(env, ctx, attr, k, slice, e, hash);
      var listed := env.exportsByIdentity(hash);
      if listed.Ok? {
        if i: nat :| i < |listed.value| && Objects(env, attr, listed.value[i]) {
          FirstObjection(env, attr, listed.value, i);
        }
      }
    } else {
      UnprovidedPasses(env, ctx, attr, k, slice, e);
    }
  }

  // ----- The chain -----

  /** The first link that a request does not pass settles the answer. */
  lemma ChainMeaning(env: Env, ctx: RequestContext, attr: Attributes, k: ObjectKey)
    requires Concerns(ctx, k)
    ensures Chain(env, ctx, attr)
            == if !Passes(env, ctx, attr, k) then Refusal(env, ctx, attr, k)
               else match ContentReview(env, attr, k)
                    case Decided(Allow) => MaximalOutcome(env, ctx, attr)
                    case Decided(d) => Outcome(d, false)
                    case _ => Outcome(NoOpinion, true)
  {
    var policy := MaximalOutcome(env, ctx, attr);
    ContentMeaning(env, ctx, attr, k, policy);
    BoundMeaning(env, ctx, attr, k, ContentOutcome(env, ctx, attr, policy));
  }

  /**
   The chain allows exactly the requests that pass the first link, whose user
   may use their verb on the content of the slice, and that the policies pass.
   */
  lemma ChainAllowsWrittenOut(env: Env, ctx: RequestContext, attr: Attributes, k: ObjectKey)
    requires Concerns(ctx, k)
    ensures Chain(env, ctx, attr).decision == Allow
            <==> && Passes(env, ctx, attr, k)
                 && ContentReview(env, attr, k) == Decided(Allow)
                 && exists slice, e :: Known(env, k, slice, e) && PoliciesPass(env, e, attr)
    ensures Chain(env, ctx, attr).decision == Allow ==> !Chain(env, ctx, attr).error
  {
    ChainMeaning(env, ctx, attr, k);
    if slice, e :| Known(env, k, slice, e) {
      PolicyMeaning(env, ctx, attr, k, slice, e);
    } else {
      UnknownIsAnError(env, ctx, attr, k);
    }
  }

  /** A domain key that names no slice is an error in every link that reads it. */
  lemma NamelessKeyIsAnError(env: Env, ctx: RequestContext, attr: Attributes)
    ensures (forall k :: !Concerns(ctx, k)) ==> Chain(env, ctx, attr) == Outcome(NoOpinion, true)
  {
    if '/' in ctx.domainKey {
      var k := DomainKeys.SlashNames(ctx.domainKey);
      assert Concerns(ctx, k);
    } else {
      SliceOfMeaning(env.listers, ctx.domainKey, ObjectKey("", ""));
    }
  }
}
