/** A request that both verb lists cover and the authorizer chain denies. */
module VerbExample {
  import opened Wrappers
  import opened Labels
  import opened Apis
  import opened Bindings
  import opened Authorizers
  import DomainKeys

  const SLICE := EndpointSlice("root", "view", "root", "gadgets", LabelSelector(map[], []))
  const KEY := ObjectKey("root", "view")

  function ClaimWith(verbs: seq<string>): PermissionClaim { PermissionClaim("example.io", "gadgets", "hash", verbs) }

  function ExportWith(verbs: seq<string>): APIExport {
    APIExport("root", "root", "gadgets", "own-hash", [], [ClaimWith(verbs)], NoPolicy)
  }

  function BindingWith(verbs: seq<string>): APIBinding {
    APIBinding(Some("gadgets"), "root",
               [AcceptableClaim(ClaimWith(verbs), ClaimSelector(true, LabelSelector(map[], [])), true)], [])
  }

  /** One slice, one export, one binding; the reviews of `env` are kept. */
  function EnvWith(env: Env, bindingVerbs: seq<string>, exportVerbs: seq<string>): Env {
    env.(listers := Listers(_ => Found(SLICE),
                            _ => Found(ExportWith(exportVerbs)),
                            _ => Ok([BindingWith(bindingVerbs)])))
  }

  const CONTEXT := RequestContext(Some(Named("consumer")), DomainKeys.Format(KEY))

  function Request(user: User): Attributes {
    Attributes(user, "get", "", "example.io", "v1", "gadgets", "", "one", true, "")
  }

  lemma SliceIsFound(env: Env)
    requires forall k :: env.listers.getSlice(k) == Found(SLICE)
    ensures SliceOf(env.listers, CONTEXT.domainKey) == Found(SLICE)
  {
    DomainKeys.SplitFormat(KEY);
  }

  /** What the chain answers to the request depends on the literal intersection of the two lists. */
  lemma ChainByVerbs(env: Env, user: User, bindingVerbs: seq<string>, exportVerbs: seq<string>)
    ensures var e := EnvWith(env, bindingVerbs, exportVerbs);
            Chain(e, CONTEXT, Request(user))
            == if VerbAllowed(VerbSet(bindingVerbs), VerbSet(exportVerbs), "get")
               then ContentOutcome(e, CONTEXT, Request(user), MaximalOutcome(e, CONTEXT, Request(user)))
               else Outcome(Deny, false)
  {
    var e, binding := EnvWith(env, bindingVerbs, exportVerbs), BindingWith(bindingVerbs);
    SliceIsFound(e);
    assert binding.claims[0] in binding.claims;
    assert ExportVerbs(ExportWith(exportVerbs).claims, ClaimWith(bindingVerbs)) == VerbSet(exportVerbs);
    assert ClaimsPermit(binding, ExportWith(exportVerbs), Request(user))
      <==> ClaimPermits(binding.claims[0], ExportWith(exportVerbs), Request(user));
  }

  /**
   A binding that accepts every verb and an export that claims "get" both cover
   "get", and the chain denies it, whatever the reviews would say; if the
   binding accepts "get" itself, the reviews decide.
   */
  lemma WildcardClaimIsDenied(env: Env, user: User)
    ensures Covers(VerbSet(["*"]), "get") && Covers(VerbSet(["get"]), "get")
    ensures Chain(EnvWith(env, ["*"], ["get"]), CONTEXT, Request(user)) == Outcome(Deny, false)
    ensures var e := EnvWith(env, ["get"], ["get"]);
            Chain(e, CONTEXT, Request(user))
            == ContentOutcome(e, CONTEXT, Request(user), MaximalOutcome(e, CONTEXT, Request(user)))
  {
    ChainByVerbs(env, user, ["*"], ["get"]);
    ChainByVerbs(env, user, ["get"], ["get"]);
    assert ["get"][0] in VerbSet(["get"]) && ["*"][0] in VerbSet(["*"]);
  }
}
