/**
 Label admission: Admit adds the labels a slice and an accepted claim prescribe,
 Validate refuses objects that do not match their selectors.
 */
module Admission {
  import opened Wrappers
  import opened Labels
  import opened Apis
  import opened Bindings

  datatype Operation = CREATE | UPDATE | DELETE | CONNECT

  /** An unstructured object; it may have no labels map at all. */
  class Unstructured {
    var labels: Option<LabelSet>

    constructor (labels: Option<LabelSet>)
      ensures this.labels == labels
    {
      this.labels := labels;
    }
  }

  /** The payload of a request: absent, unstructured, or of some other Go type. */
  datatype Payload = Nil | Object(u: Unstructured) | OtherType

  datatype Attributes = Attributes(operation: Operation, gr: GroupResource, newObject: Payload, oldObject: Payload)

  // ----- What governs a request -----

  /** Whether the request is let through unseen, refused, or governed by a slice and a binding. */
  datatype Scope = Skipped | Refused | Governed(slice: EndpointSlice, binding: APIBinding)

  /** The lookups Admit and Validate share. */
  function ScopeOf(env: Listers, ctx: RequestContext, gr: GroupResource): Scope {
    match ctx.cluster
    case None => Refused
    case Some(cluster) =>
      if cluster.Wildcard? || gr.resource == "" then Skipped
      else
        match SliceOf(env, ctx.domainKey)
        case Found(slice) =>
          (match BindingFor(env, cluster.name, slice.exportName, slice.exportPath)
           case Some(binding) => Governed(slice, binding)
           case None => Refused)
        case _ => Refused
  }

  /** Bound, claimed through an accepted claim, or neither. */
  datatype Standing = Bound | Claimed(selector: ClaimSelector) | Unrelated

  function FirstAccepted(claims: seq<AcceptableClaim>, gr: GroupResource): Option<AcceptableClaim> {
    if claims == [] then None
    else if claims[0].accepted && claims[0].claim.GR() == gr then Some(claims[0])
    else FirstAccepted(claims[1..], gr)
  }

  function StandingOf(binding: APIBinding, gr: GroupResource): Standing {
    if gr in binding.boundResources then Bound
    else
      match FirstAccepted(binding.claims, gr)
      case None => Unrelated
      case Some(c) => Claimed(c.selector)
  }

  /** The pairs the claim adds to the slice's: none when bound or when the claim matches all. */
  function ClaimLabels(st: Standing): LabelSet {
    if st.Claimed? && !st.selector.matchAll then st.selector.labelSelector.matchLabels else map[]
  }

  /** No key has two values. */
  predicate Compatible(a: LabelSet, b: LabelSet) {
    forall k :: k in a && k in b ==> a[k] == b[k]
  }

  /** The labels after admission: None when the request is refused. */
  function Extended(labels: LabelSet, a: LabelSet, b: LabelSet): Option<LabelSet> {
    if Compatible(a, b) && Compatible(labels, a + b) then Some(labels + a + b) else None
  }

  // ----- The loops of Admit -----

  /** Copy the slice's pairs, in any order. */
  method CopyLabels(a: LabelSet) returns (copy: LabelSet)
    ensures copy == a
  {
    copy := map[];
    var keys := a.Keys;
    while keys != {}
      invariant keys <= a.Keys && copy.Keys == a.Keys - keys
      invariant forall k :: k in copy ==> copy[k] == a[k]
    {
      var k :| k in keys;
      keys := keys - {k};
      copy := copy[k := a[k]];
    }
  }

  /** Merge the claim's pairs into the slice's, refusing a key with two values. */
  method MergeLabels(a: LabelSet, b: LabelSet) returns (merged: Option<LabelSet>)
    ensures merged == if Compatible(a, b) then Some(a + b) else None
  {
    var labelsToApply := CopyLabels(a);
    var keys := b.Keys;
    while keys != {}
      invariant keys <= b.Keys && labelsToApply.Keys == a.Keys + (b.Keys - keys)
      invariant forall k :: k in labelsToApply ==> labelsToApply[k] == if k in b && k !in keys then b[k] else a[k]
      invariant forall k :: k in a && k in b && k !in keys ==> a[k] == b[k]
    {
      var k :| k in keys;
      keys := keys - {k};
      if k in labelsToApply && labelsToApply[k] != b[k] {
        return None;
      }
      labelsToApply := labelsToApply[k := b[k]];
    }
    assert labelsToApply == a + b;
    return Some(labelsToApply);
  }

  /** Add the missing pairs, refusing a present key with another value. */
  method ApplyLabels(labels: LabelSet, want: LabelSet) returns (r: Option<LabelSet>)
    ensures r == if Compatible(labels, want) then Some(labels + want) else None
  {
    var lbls := labels;
    var keys := want.Keys;
    while keys != {}
      invariant keys <= want.Keys && lbls.Keys == labels.Keys + (want.Keys - keys)
      invariant forall k :: k in lbls ==> lbls[k] == if k in want && k !in keys then want[k] else labels[k]
      invariant forall k :: k in labels && k in want && k !in keys ==> labels[k] == want[k]
    {
      var k :| k in keys;
      keys := keys - {k};
      if k !in lbls {
        lbls := lbls[k := want[k]];
      } else if lbls[k] != want[k] {
        return None;
      }
    }
    assert lbls == labels + want;
    return Some(lbls);
  }

  /** The search for a bound resource or an accepted claim. */
  method FindStanding(binding: APIBinding, gr: GroupResource) returns (st: Standing)
    ensures st == StandingOf(binding, gr)
  {
    for i := 0 to |binding.boundResources|
      invariant gr !in binding.boundResources[..i]
    {
      if binding.boundResources[i].group == gr.group && binding.boundResources[i].resource == gr.resource {
        return Bound;
      }
    }
    for i := 0 to |binding.claims|
      invariant FirstAccepted(binding.claims, gr) == FirstAccepted(binding.claims[i..], gr)
    {
      var c := binding.claims[i];
      if !c.accepted {
        continue;
      }
      if c.claim.group == gr.group && c.claim.resource == gr.resource {
        return Claimed(c.selector);
      }
    }
    return Unrelated;
  }

  // ----- Admit and Validate -----

  function LabelsOf(labels: Option<LabelSet>): LabelSet {
    match labels case None => map[] case Some(l) => l
  }

  datatype Verdict = Forbidden | Unchanged | Labelled(labels: LabelSet)

  /** What Admit does to an object with these labels; None when the payload is not an object. */
  function AdmitVerdict(env: Listers, ctx: RequestContext, operation: Operation, gr: GroupResource,
                        labels: Option<Option<LabelSet>>): Verdict
  {
    if !(operation.CREATE? || operation.UPDATE?) then Unchanged
    else
      match ScopeOf(env, ctx, gr)
      case Refused => Forbidden
      case Skipped => Unchanged
      case Governed(slice, binding) =>
        var st := StandingOf(binding, gr);
        if st.Unrelated? then Unchanged
        else if labels.None? then Forbidden
        else
          match Extended(LabelsOf(labels.value), slice.selector.matchLabels, ClaimLabels(st))
          case None => Forbidden
          case Some(l) => Labelled(l)
  }

  function Footprint(p: Payload): set<object> { if p.Object? then {p.u} else {} }

  ghost function PayloadLabels(p: Payload): Option<Option<LabelSet>>
    reads Footprint(p)
  {
    if p.Object? then Some(p.u.labels) else None
  }

  /** Admit; false is a Forbidden error, which leaves the object as it was. */
  method Admit(env: Listers, ctx: RequestContext, attr: Attributes) returns (ok: bool)
    modifies Footprint(attr.newObject)
    ensures var verdict := AdmitVerdict(env, ctx, attr.operation, attr.gr, old(PayloadLabels(attr.newObject)));
            && ok == !verdict.Forbidden?
            && (verdict.Labelled? ==> attr.newObject.Object?)
            && PayloadLabels(attr.newObject)
               == if verdict.Labelled? then Some(Some(verdict.labels)) else old(PayloadLabels(attr.newObject))
  {
    if !attr.operation.CREATE? && !attr.operation.UPDATE? {
      return true;
    }
    if ctx.cluster.None? {
      return false;
    }
    var targetCluster := ctx.cluster.value;
    if targetCluster.Wildcard? || attr.gr.resource == "" {
      return true;
    }
    var found := SliceOf(env, ctx.domainKey);
    if !found.Found? {
      return false;
    }
    var slice := found.value;
    var binding := FindBinding(env, targetCluster.name, slice.exportName, slice.exportPath);
    if binding.None? {
      return false;
    }
    var st := FindStanding(binding.value, attr.gr);
    if st.Unrelated? {
      return true;
    }
    var additionalLabels: LabelSet := map[];
    if st.Claimed? && !st.selector.matchAll {
      additionalLabels := st.selector.labelSelector.matchLabels;
    }
    var labelsToApply := MergeLabels(slice.selector.matchLabels, additionalLabels);
    if labelsToApply.None? {
      return false;
    }
    if !attr.newObject.Object? {
      return false;
    }
    var u := attr.newObject.u;
    var lbls := ApplyLabels(LabelsOf(u.labels), labelsToApply.value);
    if lbls.None? {
      return false;
    }
    assert lbls.value == LabelsOf(u.labels) + slice.selector.matchLabels + ClaimLabels(st);
    u.labels := lbls;
    return true;
  }

  /** Whether the labels satisfy a selector; an invalid selector is an error, hence a refusal. */
  predicate SelectorAccepts(s: LabelSelector, labels: LabelSet) {
    ValidSelector(s) && MatchesAll(SelectorRequirements(s).value, labels)
  }

  predicate ValidateVerdict(env: Listers, ctx: RequestContext, operation: Operation, gr: GroupResource,
                            labels: Option<Option<LabelSet>>)
  {
    if operation.CONNECT? then true
    else
      match ScopeOf(env, ctx, gr)
      case Refused => false
      case Skipped => true
      case Governed(slice, binding) =>
        && labels.Some?
        && SelectorAccepts(slice.selector, LabelsOf(labels.value))
        && match StandingOf(binding, gr)
           case Claimed(sel) => sel.matchAll || SelectorAccepts(sel.labelSelector, LabelsOf(labels.value))
           case _ => true
  }

  /** Validate; it reads the new object, or the old one when there is none. */
  method Validate(env: Listers, ctx: RequestContext, attr: Attributes) returns (ok: bool)
    ensures ok == ValidateVerdict(env, ctx, attr.operation, attr.gr,
                                  PayloadLabels(if attr.newObject.Nil? then attr.oldObject else attr.newObject))
  {
    if attr.operation.CONNECT? {
      return true;
    }
    if ctx.cluster.None? {
      return false;
    }
    var targetCluster := ctx.cluster.value;
    if targetCluster.Wildcard? || attr.gr.resource == "" {
      return true;
    }
    var found := SliceOf(env, ctx.domainKey);
    if !found.Found? {
      return false;
    }
    var slice := found.value;
    var obj := attr.newObject;
    if obj.Nil? {
      obj := attr.oldObject;
    }
    if !obj.Object? {
      return false;
    }
    var lbls := LabelsOf(obj.u.labels);
    var selector := SelectorRequirements(slice.selector);
    if selector.Err? || !MatchesAll(selector.value, lbls) {
      return false;
    }
    var binding := FindBinding(env, targetCluster.name, slice.exportName, slice.exportPath);
    if binding.None? {
      return false;
    }
    var st := FindStanding(binding.value, attr.gr);
    if !st.Claimed? || st.selector.matchAll {
      return true;
    }
    var claimSelector := SelectorRequirements(st.selector.labelSelector);
    return claimSelector.Ok? && MatchesAll(claimSelector.value, lbls);
  }

  // ----- Properties -----

  /**
   Admission yields the least extension: it succeeds exactly when some superset
   of the labels carries both sets of pairs, its result carries them, and it
   is contained in every such superset.
   */
  lemma ExtendedIsLeast(labels: LabelSet, a: LabelSet, b: LabelSet)
    ensures Extended(labels, a, b).Some?
            <==> exists sup: LabelSet :: Carries(sup, labels) && Carries(sup, a) && Carries(sup, b)
    ensures Extended(labels, a, b).Some? ==>
              var r := Extended(labels, a, b).value;
              && Carries(r, labels) && Carries(r, a) && Carries(r, b)
              && forall sup: LabelSet :: Carries(sup, labels) && Carries(sup, a) && Carries(sup, b) ==> Carries(sup, r)
  {
    if sup: LabelSet :| Carries(sup, labels) && Carries(sup, a) && Carries(sup, b) {
      forall k | k in labels && k in a + b ensures labels[k] == (a + b)[k] {
        assert sup[k] == labels[k];
      }
    }
    if Extended(labels, a, b).Some? {
      var r := labels + a + b;
      forall k | k in labels ensures r[k] == labels[k] {
        assert k in a + b ==> labels[k] == (a + b)[k];
      }
      assert Carries(r, labels) && Carries(r, a) && Carries(r, b);
      forall sup: LabelSet, k | Carries(sup, labels) && Carries(sup, a) && Carries(sup, b) && k in r
        ensures k in sup && sup[k] == r[k]
      {
      }
    }
  }

  /** Running Admit on its own result changes nothing. */
  lemma AdmitIsIdempotent(env: Listers, ctx: RequestContext, operation: Operation, gr: GroupResource,
                          labels: Option<LabelSet>)
    requires AdmitVerdict(env, ctx, operation, gr, Some(labels)).Labelled?
    ensures var l := AdmitVerdict(env, ctx, operation, gr, Some(labels)).labels;
            AdmitVerdict(env, ctx, operation, gr, Some(Some(l))) == Labelled(l)
  {
    var l := AdmitVerdict(env, ctx, operation, gr, Some(labels)).labels;
    var slice, binding := ScopeOf(env, ctx, gr).slice, ScopeOf(env, ctx, gr).binding;
    var a, b := slice.selector.matchLabels, ClaimLabels(StandingOf(binding, gr));
    ExtendedIsLeast(LabelsOf(labels), a, b);
    assert l + a + b == l;
  }

  /** The expressions that admission leaves to validation. */
  predicate ExpressionsLeft(slice: EndpointSlice, st: Standing, labels: LabelSet)
    requires ValidSelector(slice.selector)
    requires st.Claimed? && !st.selector.matchAll ==> ValidSelector(st.selector.labelSelector)
  {
    && ExpressionsHold(slice.selector.matchExpressions, labels)
    && (st.Claimed? && !st.selector.matchAll ==>
          ExpressionsHold(st.selector.labelSelector.matchExpressions, labels))
  }

  /**
   Validate agrees with Admit: on the same snapshot and with valid selectors,
   what Admit produced is accepted exactly when the matchExpressions hold on it.
   */
  lemma ValidateAgreesWithAdmit(env: Listers, ctx: RequestContext, operation: Operation, gr: GroupResource,
                                labels: Option<LabelSet>)
    requires AdmitVerdict(env, ctx, operation, gr, Some(labels)).Labelled?
    requires var s := ScopeOf(env, ctx, gr); var st := StandingOf(s.binding, gr);
             && ValidSelector(s.slice.selector)
             && (st.Claimed? && !st.selector.matchAll ==> ValidSelector(st.selector.labelSelector))
    ensures var l := AdmitVerdict(env, ctx, operation, gr, Some(labels)).labels;
            var s := ScopeOf(env, ctx, gr);
            ValidateVerdict(env, ctx, operation, gr, Some(Some(l)))
            <==> ExpressionsLeft(s.slice, StandingOf(s.binding, gr), l)
  {
    var l := AdmitVerdict(env, ctx, operation, gr, Some(labels)).labels;
    var slice, st := ScopeOf(env, ctx, gr).slice, StandingOf(ScopeOf(env, ctx, gr).binding, gr);
    ExtendedIsLeast(LabelsOf(labels), slice.selector.matchLabels, ClaimLabels(st));
    SelectorMeaning(slice.selector, l);
    if st.Claimed? && !st.selector.matchAll {
      SelectorMeaning(st.selector.labelSelector, l);
    }
  }

  /** The claim found is the first accepted one for the resource. */
  lemma {:induction false} FirstAcceptedMeaning(claims: seq<AcceptableClaim>, gr: GroupResource)
    ensures match FirstAccepted(claims, gr)
            case None => forall i :: 0 <= i < |claims| ==> !(claims[i].accepted && claims[i].claim.GR() == gr)
            case Some(c) =>
              exists i :: 0 <= i < |claims| && claims[i] == c && c.accepted && c.claim.GR() == gr
                          && forall j :: 0 <= j < i ==> !(claims[j].accepted && claims[j].claim.GR() == gr)
  {
    if claims == [] {
    } else if !(claims[0].accepted && claims[0].claim.GR() == gr) {
      FirstAcceptedMeaning(claims[1..], gr);
      match FirstAccepted(claims[1..], gr)
      case None =>
        assert forall i :: 0 < i < |claims| ==> claims[i] == claims[1..][i - 1];
      case Some(c) =>
        var i :| 0 <= i < |claims[1..]| && claims[1..][i] == c && c.accepted && c.claim.GR() == gr
                 && forall j :: 0 <= j < i ==> !(claims[1..][j].accepted && claims[1..][j].claim.GR() == gr);
        assert claims[i + 1] == c;
        forall j | 0 <= j < i + 1 ensures !(claims[j].accepted && claims[j].claim.GR() == gr) {
          assert j > 0 ==> claims[j] == claims[1..][j - 1];
        }
    }
  }

  // ----- The two operations, written out -----

  /** Which requests pass unseen, and which are governed by which slice and binding; all others are refused. */
  lemma ScopeMeaning(env: Listers, ctx: RequestContext, gr: GroupResource, slice: EndpointSlice, binding: APIBinding)
    ensures ScopeOf(env, ctx, gr).Skipped?
            <==> ctx.cluster.Some? && (ctx.cluster.value == Wildcard || gr.resource == "")
    ensures ScopeOf(env, ctx, gr) == Governed(slice, binding)
            <==> && ctx.cluster.Some? && ctx.cluster.value.Named? && gr.resource != ""
                 && SliceOf(env, ctx.domainKey) == Found(slice)
                 && env.listBindings(ctx.cluster.value.name).Ok?
                 && FirstBinding(env.listBindings(ctx.cluster.value.name).value, slice.exportName, slice.exportPath)
                    == Some(binding)
  {
  }

  /** The `i`-th claim of the binding is the first accepted one on the resource. */
  predicate AcceptedAt(binding: APIBinding, gr: GroupResource, i: nat) {
    && i < |binding.claims| && Accepts(binding.claims[i], gr)
    && forall j :: 0 <= j < i ==> !Accepts(binding.claims[j], gr)
  }

  predicate Accepts(c: AcceptableClaim, gr: GroupResource) {
    c.accepted && c.claim.group == gr.group && c.claim.resource == gr.resource
  }

  lemma {:induction false} FirstAcceptedAt(claims: seq<AcceptableClaim>, gr: GroupResource, i: nat)
    requires i < |claims| && Accepts(claims[i], gr) && forall j :: 0 <= j < i ==> !Accepts(claims[j], gr)
    ensures FirstAccepted(claims, gr) == Some(claims[i])
  {
    if i > 0 {
      FirstAcceptedAt(claims[1..], gr, i - 1);
    }
  }

  /** `sup` carries everything: the object's labels and both sets of pairs. */
  predicate Carriage(sup: LabelSet, labels: LabelSet, a: LabelSet, b: LabelSet) {
    Carries(sup, labels) && Carries(sup, a) && Carries(sup, b)
  }

  /** The verdict labels the object with the least such set, and forbids it when there is none. */
  ghost predicate LabelsLeast(v: Verdict, labels: LabelSet, a: LabelSet, b: LabelSet) {
    && (v.Labelled? <==> exists sup: LabelSet :: Carriage(sup, labels, a, b))
    && (v.Forbidden? <==> !v.Labelled?)
    && (v.Labelled? ==>
          && Carriage(v.labels, labels, a, b)
          && forall sup: LabelSet :: Carriage(sup, labels, a, b) ==> Carries(sup, v.labels))
  }

  lemma ExtendedLabelsLeast(labels: LabelSet, a: LabelSet, b: LabelSet)
    ensures var v := match Extended(labels, a, b) case None => Forbidden case Some(l) => Labelled(l);
            LabelsLeast(v, labels, a, b)
  {
    ExtendedIsLeast(labels, a, b);
    if Extended(labels, a, b).Some? {
      assert Carriage(Extended(labels, a, b).value, labels, a, b);
    }
  }

  /** A bound resource gets the slice's labels, on CREATE and on UPDATE. */
  lemma AdmitLabelsBound(env: Listers, ctx: RequestContext, operation: Operation, gr: GroupResource,
                         labels: Option<LabelSet>, slice: EndpointSlice, binding: APIBinding)
    requires operation == CREATE || operation == UPDATE
    requires ScopeOf(env, ctx, gr) == Governed(slice, binding) && gr in binding.boundResources
    ensures LabelsLeast(AdmitVerdict(env, ctx, operation, gr, Some(labels)),
                        if labels.None? then map[] else labels.value, slice.selector.matchLabels, map[])
    ensures AdmitVerdict(env, ctx, operation, gr, None) == Forbidden
  {
    ExtendedLabelsLeast(LabelsOf(labels), slice.selector.matchLabels, map[]);
  }

  /** A resource that is only claimed gets those of the first accepted claim besides, unless it matches all. */
  lemma AdmitLabelsClaimed(env: Listers, ctx: RequestContext, operation: Operation, gr: GroupResource,
                           labels: Option<LabelSet>, slice: EndpointSlice, binding: APIBinding, i: nat)
    requires operation == CREATE || operation == UPDATE
    requires ScopeOf(env, ctx, gr) == Governed(slice, binding) && gr !in binding.boundResources
    requires AcceptedAt(binding, gr, i)
    ensures var selector := binding.claims[i].selector;
            LabelsLeast(AdmitVerdict(env, ctx, operation, gr, Some(labels)),
                        if labels.None? then map[] else labels.value, slice.selector.matchLabels,
                        if selector.matchAll then map[] else selector.labelSelector.matchLabels)
    ensures AdmitVerdict(env, ctx, operation, gr, None) == Forbidden
  {
    FirstAcceptedAt(binding.claims, gr, i);
    ExtendedLabelsLeast(LabelsOf(labels), slice.selector.matchLabels,
                        ClaimLabels(Claimed(binding.claims[i].selector)));
  }

  /** Everything else is let through as it is, or refused with its scope. */
  lemma AdmitLeavesOthers(env: Listers, ctx: RequestContext, operation: Operation, gr: GroupResource,
                          labels: Option<Option<LabelSet>>)
    ensures var v := AdmitVerdict(env, ctx, operation, gr, labels); var scope := ScopeOf(env, ctx, gr);
            && (operation == DELETE || operation == CONNECT ==> v == Unchanged)
            && (operation == CREATE || operation == UPDATE ==>
                  && (scope == Skipped ==> v == Unchanged)
                  && (scope == Refused ==> v == Forbidden)
                  && ((scope.Governed? && gr !in scope.binding.boundResources
                       && forall i: nat :: !AcceptedAt(scope.binding, gr, i))
                      ==> v == Unchanged))
  {
    var scope := ScopeOf(env, ctx, gr);
    if scope.Governed? {
      FirstAcceptedMeaning(scope.binding.claims, gr);
      if c :| FirstAccepted(scope.binding.claims, gr) == Some(c) {
        var i :| 0 <= i < |scope.binding.claims| && scope.binding.claims[i] == c && c.accepted && c.claim.GR() == gr
                 && forall j :: 0 <= j < i ==>
                      !(scope.binding.claims[j].accepted && scope.binding.claims[j].claim.GR() == gr);
        assert AcceptedAt(scope.binding, gr, i);
      }
    }
  }

  /** The labels satisfy a valid selector. */
  predicate Satisfies(s: LabelSelector, labels: LabelSet) {
    ValidSelector(s) && Carries(labels, s.matchLabels) && ExpressionsHold(s.matchExpressions, labels)
  }

  lemma SelectorAcceptsMeaning(s: LabelSelector, labels: LabelSet)
    ensures SelectorAccepts(s, labels) <==> Satisfies(s, labels)
  {
    if ValidSelector(s) {
      SelectorMeaning(s, labels);
    }
  }

  /**
   Validate on CREATE, UPDATE and DELETE: the labels satisfy the slice's selector
   and, for a resource that is not bound, that of the first accepted claim on
   it, if there is one that does not match all. CONNECT is always let through.
   */
  lemma ValidateMeaning(env: Listers, ctx: RequestContext, operation: Operation, gr: GroupResource,
                        labels: Option<Option<LabelSet>>)
    ensures var ok := ValidateVerdict(env, ctx, operation, gr, labels); var scope := ScopeOf(env, ctx, gr);
            && (operation == CONNECT ==> ok)
            && (operation != CONNECT ==>
                  && (scope == Skipped ==> ok)
                  && (scope == Refused ==> !ok)
                  && (scope.Governed? && labels.None? ==> !ok)
                  && (scope.Governed? && labels.Some? ==>
                        var l := if labels.value.None? then map[] else labels.value.value;
                        (ok <==> && Satisfies(scope.slice.selector, l)
                                 && (gr !in scope.binding.boundResources ==>
                                       forall i: nat :: AcceptedAt(scope.binding, gr, i) ==>
                                         var selector := scope.binding.claims[i].selector;
                                         selector.matchAll || Satisfies(selector.labelSelector, l)))))
  {
    var scope := ScopeOf(env, ctx, gr);
    if scope.Governed? && labels.Some? {
      var l := LabelsOf(labels.value);
      SelectorAcceptsMeaning(scope.slice.selector, l);
      FirstAcceptedMeaning(scope.binding.claims, gr);
      forall i: nat | AcceptedAt(scope.binding, gr, i)
        ensures FirstAccepted(scope.binding.claims, gr) == Some(scope.binding.claims[i])
      {
        FirstAcceptedAt(scope.binding.claims, gr, i);
      }
      if c :| FirstAccepted(scope.binding.claims, gr) == Some(c) {
        SelectorAcceptsMeaning(c.selector.labelSelector, l);
        var i :| 0 <= i < |scope.binding.claims| && scope.binding.claims[i] == c && c.accepted && c.claim.GR() == gr
                 && forall j :: 0 <= j < i ==>
                      !(scope.binding.claims[j].accepted && scope.binding.claims[j].claim.GR() == gr);
        assert AcceptedAt(scope.binding, gr, i);
      }
    }
  }
}
