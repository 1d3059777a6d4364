/**
 Authorization is monotone: taking verbs, acceptance or bound resources away
 never turns a refusal into an Allow.
 */
module Monotonicity {
  import opened Wrappers
  import opened Apis
  import opened Bindings
  import opened Authorizers

  ghost predicate NarrowerClaims(cs': seq<PermissionClaim>, cs: seq<PermissionClaim>) {
    && |cs'| == |cs|
    && forall i :: 0 <= i < |cs| ==>
         && cs'[i].GR() == cs[i].GR() && cs'[i].identityHash == cs[i].identityHash
         && VerbSet(cs'[i].verbs) <= VerbSet(cs[i].verbs)
  }

  /** The same export with fewer verbs in its claims. */
  ghost predicate NarrowerExport(e': APIExport, e: APIExport) {
    e' == e.(claims := e'.claims) && NarrowerClaims(e'.claims, e.claims)
  }

  ghost predicate NarrowerAcceptable(c': AcceptableClaim, c: AcceptableClaim) {
    && (c'.accepted ==> c.accepted)
    && c'.claim.GR() == c.claim.GR() && c'.claim.identityHash == c.claim.identityHash
    && VerbSet(c'.claim.verbs) <= VerbSet(c.claim.verbs)
  }

  /** The same binding with fewer verbs, fewer accepted claims or fewer bound resources. */
  ghost predicate NarrowerBinding(b': APIBinding, b: APIBinding) {
    && b'.reference == b.reference && b'.exportCluster == b.exportCluster
    && (forall r :: r in b'.boundResources ==> r in b.boundResources)
    && |b'.claims| == |b.claims|
    && forall i :: 0 <= i < |b.claims| ==> NarrowerAcceptable(b'.claims[i], b.claims[i])
  }

  ghost predicate NarrowerExports(es': seq<APIExport>, es: seq<APIExport>) {
    |es'| == |es| && forall i :: 0 <= i < |es| ==> NarrowerExport(es'[i], es[i])
  }

  ghost predicate NarrowerBindings(bs': seq<APIBinding>, bs: seq<APIBinding>) {
    |bs'| == |bs| && forall i :: 0 <= i < |bs| ==> NarrowerBinding(bs'[i], bs[i])
  }

  ghost predicate NarrowerLookup(l': Lookup<APIExport>, l: Lookup<APIExport>) {
    if l.Found? then l'.Found? && NarrowerExport(l'.value, l.value) else l' == l
  }

  /** All lookups answer alike up to narrowing; reviews do not change. */
  ghost predicate NarrowerEnv(env': Env, env: Env) {
    && env'.policyPrefix == env.policyPrefix
    && (forall k :: env'.listers.getSlice(k) == env.listers.getSlice(k))
    && (forall k :: NarrowerLookup(env'.listers.getExport(k), env.listers.getExport(k)))
    && (forall c :: var bs', bs := env'.listers.listBindings(c), env.listers.listBindings(c);
                    if bs.Ok? then bs'.Ok? && NarrowerBindings(bs'.value, bs.value) else bs'.Err?)
    && (forall h :: var es', es := env'.exportsByIdentity(h), env.exportsByIdentity(h);
                    if es.Ok? then es'.Ok? && NarrowerExports(es'.value, es.value) else es'.Err?)
    && (forall c, a :: env'.contentReview(c, a) == env.contentReview(c, a))
    && (forall c, a :: env'.policyReview(c, a) == env.policyReview(c, a))
  }

  lemma {:induction false} ExportVerbsNarrow(cs': seq<PermissionClaim>, cs: seq<PermissionClaim>,
                                             pc': PermissionClaim, pc: PermissionClaim)
    requires NarrowerClaims(cs', cs)
    requires pc'.GR() == pc.GR() && pc'.identityHash == pc.identityHash
    ensures ExportVerbs(cs', pc') <= ExportVerbs(cs, pc)
  {
    if cs != [] && !(cs[0].GR() == pc.GR() && cs[0].identityHash == pc.identityHash) {
      ExportVerbsNarrow(cs'[1..], cs[1..], pc', pc);
    }
  }

  lemma ClaimsPermitNarrow(b': APIBinding, b: APIBinding, e': APIExport, e: APIExport, attr: Attributes)
    requires NarrowerBinding(b', b) && NarrowerExport(e', e)
    requires ClaimsPermit(b', e', attr)
    ensures ClaimsPermit(b, e, attr)
  {
    var c' :| c' in b'.claims && ClaimPermits(c', e', attr);
    var i :| 0 <= i < |b'.claims| && b'.claims[i] == c';
    assert NarrowerAcceptable(c', b.claims[i]);
    ExportVerbsNarrow(e'.claims, e.claims, c'.claim, b.claims[i].claim);
    assert ClaimPermits(b.claims[i], e, attr);
  }

  lemma {:induction false} FirstBindingNarrow(bs': seq<APIBinding>, bs: seq<APIBinding>, name: string, cluster: string)
    requires NarrowerBindings(bs', bs)
    ensures var b', b := FirstBinding(bs', name, cluster), FirstBinding(bs, name, cluster);
            if b.Some? then b'.Some? && NarrowerBinding(b'.value, b.value) else b'.None?
  {
    if bs != [] {
      assert NarrowerBinding(bs'[0], bs[0]);
      FirstBindingNarrow(bs'[1..], bs[1..], name, cluster);
    }
  }

  lemma {:induction false} ClaimedIdentityNarrow(cs': seq<PermissionClaim>, cs: seq<PermissionClaim>, gr: GroupResource)
    requires NarrowerClaims(cs', cs)
    ensures ClaimedIdentity(cs', gr) == ClaimedIdentity(cs, gr)
  {
    if cs != [] && cs[0].GR() != gr {
      ClaimedIdentityNarrow(cs'[1..], cs[1..], gr);
    }
  }

  lemma PolicyGrantedNarrow(env': Env, env: Env, ctx: RequestContext, attr: Attributes)
    requires NarrowerEnv(env', env) && Resolvable(env', ctx) && Resolvable(env, ctx)
    requires PolicyGranted(env', ctx, attr)
    ensures PolicyGranted(env, ctx, attr)
  {
    var e', e := ExportFor(env', ctx), ExportFor(env, ctx);
    assert NarrowerExport(e', e);
    ClaimedIdentityNarrow(e'.claims, e.claims, attr.GR());
    var identity := ClaimedIdentity(e.claims, attr.GR());
    if identity.Some? && identity.value != "" {
      var es', es := env'.exportsByIdentity(identity.value).value, env.exportsByIdentity(identity.value).value;
      forall p | p in es ensures ProviderGrants(env, attr, p) {
        var i :| 0 <= i < |es| && es[i] == p;
        assert NarrowerExport(es'[i], es[i]);
        assert ProviderGrants(env', attr, es'[i]);
      }
    }
  }

  lemma InvitedNarrow(env': Env, env: Env, ctx: RequestContext, attr: Attributes)
    requires NarrowerEnv(env', env) && Resolvable(env', ctx) && Resolvable(env, ctx)
    requires Invited(env', ctx, attr)
    ensures Invited(env, ctx, attr)
  {
    var e', e := ExportFor(env', ctx), ExportFor(env, ctx);
    assert NarrowerExport(e', e);
    var cluster := ctx.cluster.value.name;
    var path := SliceOf(env.listers, ctx.domainKey).value.exportPath;
    FirstBindingNarrow(env'.listers.listBindings(cluster).value, env.listers.listBindings(cluster).value, e.name, path);
    var b' := BindingFor(env'.listers, cluster, e'.name, path).value;
    var b := BindingFor(env.listers, cluster, e.name, path).value;
    if ClaimsPermit(b', e', attr) {
      ClaimsPermitNarrow(b', b, e', e, attr);
    }
  }

  /** If the chain allows a request with less granted, it allows it with more granted. */
  lemma ChainIsMonotone(env': Env, env: Env, ctx: RequestContext, attr: Attributes)
    requires NarrowerEnv(env', env)
    requires Chain(env', ctx, attr).decision.Allow?
    ensures Chain(env, ctx, attr).decision.Allow?
  {
    ChainAllowsIff(env', ctx, attr);
    ChainAllowsIff(env, ctx, attr);
    var slice := SliceOf(env'.listers, ctx.domainKey);
    assert slice == SliceOf(env.listers, ctx.domainKey);
    var key := slice.value.ReferencedKey();
    assert NarrowerLookup(env'.listers.getExport(key), env.listers.getExport(key));
    PolicyGrantedNarrow(env', env, ctx, attr);
    if Invited(env', ctx, attr) {
      InvitedNarrow(env', env, ctx, attr);
    }
  }
}
