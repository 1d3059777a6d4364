/**
 Writing and reading agree: what Validate lets through is what the published
 definitions show, across the admission, reconciler and builder components.
 */
module FilteredView {
  import opened Wrappers
  import opened Labels
  import opened Apis
  import opened Definitions
  import opened Refinement
  import opened Reuse
  import opened Bindings
  import opened Admission

  /** A definition with label requirements filters by them; without any it has no filter at all. */
  predicate Visible(params: Params, labels: LabelSet)
    requires params.Backed?
  {
    if |params.reqs| > 0 then MatchesAll(params.reqs, labels) else true
  }

  /** The definition published for `gvr` under `key`. */
  function ServedParams(s: Tracked, key: string, gvr: GVR): Option<Params> {
    if key in s.core.sets && gvr in s.core.sets[key] && s.core.sets[key][gvr].def < |s.core.created|
    then Some(s.core.created[s.core.sets[key][gvr].def]) else None
  }

  /** `gvr` is served from the export's own schemas. */
  ghost predicate Exported(b: Basis, gvr: GVR) {
    gvr in TableGVRs(b.r) && gvr.GR() !in b.r.claims
  }

  /**
   What a published schema-backed definition is and shows, for exported and for
   claimed resources: its GVR's schema and version, and exactly the objects
   that satisfy the slice's selector and, if claimed, carry the claim's label.
   */
  lemma PublishedMeaning(cfg: Config, b: Basis, refused: set<GVR>, created: seq<Params>, ds: DefinitionSet, gvr: GVR,
                         labels: LabelSet)
    requires Matching(cfg, b, refused, created, ds)
    requires gvr in ds && gvr in TableGVRs(b.r)
    ensures ds[gvr].def < |created|
    ensures var params := created[ds[gvr].def];
            && params.Backed? && params.schema.GR() == GroupResource(gvr.group, gvr.resource)
            && params.version == gvr.version
            && (gvr.GR() in b.r.claims ==>
                  cfg.claimLabel(b.apiExport.cluster, b.apiExport.name, b.r.claims[gvr.GR()]).Some?)
            && (Visible(params, labels)
                <==> && Carries(labels, b.slice.selector.matchLabels)
                     && ExpressionsHold(b.slice.selector.matchExpressions, labels)
                     && (gvr.GR() in b.r.claims ==> CarriesClaimLabel(cfg, b, gvr.GR(), labels)))
  {
    TableEntry(cfg, b, refused, created, ds, gvr);
    var slot := SlotAt(b.r, gvr);
    NewParamsMeaning(cfg, b, slot.schema, slot.version.name);
    NewParamsRequire(cfg, b, slot.schema, slot.version.name, labels);
  }

  /** A definition for an exported resource requires what the slice's selector requires, and shows just that. */
  lemma ExportedIsFiltered(cfg: Config, b: Basis, gvr: GVR, params: Params, labels: LabelSet)
    requires Exported(b, gvr) && SlotParams(cfg, b, SlotAt(b.r, gvr)) == Some(params)
    ensures params.Backed? && SelectorRequirements(b.slice.selector) == Ok(params.reqs)
    ensures Visible(params, labels) <==> SelectorAccepts(b.slice.selector, labels)
  {
    assert SlotAt(b.r, gvr).schema.GR() == gvr.GR();
  }

  /**
   For an exported resource the definition of a set that is its from-scratch
   set, reused or new, shows exactly the objects the slice's selector accepts;
   with an empty selector, all of them.
   */
  lemma VisibleIffSelectorAccepts(cfg: Config, b: Basis, refused: set<GVR>, created: seq<Params>, ds: DefinitionSet,
                                  gvr: GVR, labels: LabelSet)
    requires Matching(cfg, b, refused, created, ds)
    requires gvr in ds && Exported(b, gvr)
    ensures ds[gvr].def < |created| && created[ds[gvr].def].Backed?
    ensures Visible(created[ds[gvr].def], labels) <==> SelectorAccepts(b.slice.selector, labels)
  {
    assert ds[gvr].def < |created| && SlotParams(cfg, b, SlotAt(b.r, gvr)) == Some(created[ds[gvr].def]) by {
      MatchingMeaning(cfg, b, refused, created, ds);
    }
    ExportedIsFiltered(cfg, b, gvr, created[ds[gvr].def], labels);
  }

  /** An accepted write in a named cluster. */
  ghost predicate AcceptedWrite(env: Listers, ctx: RequestContext, operation: Operation, gr: GroupResource,
                                labels: LabelSet, selector: LabelSelector)
  {
    && ValidateVerdict(env, ctx, operation, gr, Some(Some(labels)))
    && !operation.CONNECT?
    && ScopeOf(env, ctx, gr).Governed?
    && ScopeOf(env, ctx, gr).slice.selector == selector
  }

  /** The labels change only by accepted writes through the view. */
  ghost predicate WrittenThroughView(history: seq<LabelSet>, ctx: RequestContext, gr: GroupResource,
                                     selector: LabelSelector)
  {
    forall i :: 0 < i < |history| ==>
      history[i] == history[i - 1] || SomeAcceptedWrite(ctx, gr, history[i], selector)
  }

  ghost predicate SomeAcceptedWrite(ctx: RequestContext, gr: GroupResource, labels: LabelSet, selector: LabelSelector) {
    exists env, operation :: AcceptedWrite(env, ctx, operation, gr, labels, selector)
  }

  lemma {:induction false} HistoryIsAccepted(history: seq<LabelSet>, ctx: RequestContext, gr: GroupResource,
                                             selector: LabelSelector, i: nat)
    requires i < |history| && SelectorAccepts(selector, history[0])
    requires WrittenThroughView(history, ctx, gr, selector)
    ensures SelectorAccepts(selector, history[i])
  {
    if i > 0 {
      HistoryIsAccepted(history, ctx, gr, selector, i - 1);
      if history[i] != history[i - 1] {
        assert SomeAcceptedWrite(ctx, gr, history[i], selector);
      }
    }
  }

  /**
   Over a stable run of the reconciler, an object that was in the view and is
   only written through it stays in the view of every definition published.
   */
  lemma AcceptedObjectsStayInView(cfg: Config, states: seq<Tracked>, history: seq<LabelSet>, ctx: RequestContext,
                                  gvr: GVR, selector: LabelSelector, i: nat)
    requires StableRun(cfg, states) && |history| == |states| && i < |states|
    requires SelectorAccepts(selector, history[0]) && WrittenThroughView(history, ctx, gvr.GR(), selector)
    requires ServedParams(states[i], ctx.domainKey, gvr).Some?
    requires ctx.domainKey in states[i].served ==>
               && states[i].served[ctx.domainKey].basis.slice.selector == selector
               && Exported(states[i].served[ctx.domainKey].basis, gvr)
    ensures ServedParams(states[i], ctx.domainKey, gvr).value.Backed?
    ensures Visible(ServedParams(states[i], ctx.domainKey, gvr).value, history[i])
  {
    EveryStableRunServesScratch(cfg, states, i);
    HistoryIsAccepted(history, ctx, gvr.GR(), selector, i);
    var s := states[i];
    var x := s.served[ctx.domainKey];
    assert MatchesServed(cfg, x, s.core.created, s.core.sets[ctx.domainKey]);
    VisibleIffSelectorAccepts(cfg, x.basis, x.refused, s.core.created, s.core.sets[ctx.domainKey], gvr, history[i]);
  }
}
