/**
 What a reconcile may carry over from the set it replaces: schema-backed
 definitions of the same export identity, and never a fallback; and what was
 torn down or dropped stays so.
 */
module Carryover {
  import opened Wrappers
  import opened Apis
  import opened Definitions
  import opened Lifecycle
  import opened Refinement

  /** Entries of the set being built that are older than the build carry the export's identity. */
  ghost predicate OldAreMarked(b: Basis, base: nat, p: Progress) {
    && base <= |p.created|
    && forall gvr :: gvr in p.entries && p.entries[gvr].def < base ==>
                       p.entries[gvr].identityHash == b.apiExport.identityHash
  }

  lemma {:induction false} AddSlotsMark(cfg: Config, b: Basis, prev: DefinitionSet, base: nat, slots: seq<Slot>,
                                        p: Progress)
    requires OldAreMarked(b, base, p)
    ensures OldAreMarked(b, base, AddSlots(cfg, b, prev, base, slots, p))
  {
    if slots == [] {
    } else {
      AddSlotsMark(cfg, b, prev, base, slots[..|slots| - 1], p);
    }
  }

  lemma CreateMarks(b: Basis, base: nat, p: Progress, gvr: GVR, params: Params)
    requires OldAreMarked(b, base, p)
    ensures OldAreMarked(b, base, Create(p, base, gvr, params, "", ""))
  {
  }

  lemma FallbacksMark(b: Basis, base: nat, p: Progress)
    requires OldAreMarked(b, base, p)
    ensures OldAreMarked(b, base, AddSlicesFallback(b, base, AddBindingsFallback(b, base, p)))
  {
    var cluster, name := b.apiExport.cluster, b.apiExport.name;
    if !b.r.claimsAPIBindings {
      var v1 := BindingsFallback("v1alpha1", cluster, name);
      CreateMarks(b, base, p, BINDINGS_V1, v1);
      CreateMarks(b, base, Create(p, base, BINDINGS_V1, v1, "", ""), BINDINGS_V2,
                  BindingsFallback("v1alpha2", cluster, name));
    }
    if !b.r.claimsFilteredSlices {
      CreateMarks(b, base, AddBindingsFallback(b, base, p), SLICES_V1, SlicesFallback("v1alpha1", cluster, name));
    }
  }

  lemma BuildMarks(cfg: Config, b: Basis, prev: DefinitionSet, created: seq<Params>, order: seq<GroupResource>)
    requires forall gr :: gr in order ==> gr in b.r.schemas
    ensures OldAreMarked(b, |created|, Build(cfg, b, prev, order, created))
  {
    AddSlotsMark(cfg, b, prev, |created|, Slots(b.r, order), Nothing(created));
    var p := AddSlots(cfg, b, prev, |created|, Slots(b.r, order), Nothing(created));
    if !p.failed {
      FallbacksMark(b, |created|, p);
    }
  }

  /** A definition that survives a reconcile keeps its place, is schema-backed, and has the export's identity. */
  lemma CarriedOverIsBacked(cfg: Config, s: State, key: string, b: Basis, ch: Choice, gvr: GVR)
    requires Invariant(s) && LegalPlan(s, key, Serve(b), ch) && Reconcile(cfg, s, key, Serve(b), ch).1
    requires var t := Reconcile(cfg, s, key, Serve(b), ch).0;
             gvr in t.sets[key] && t.sets[key][gvr].def < |s.created|
    ensures var t := Reconcile(cfg, s, key, Serve(b), ch).0;
            && gvr in SetOf(s, key) && SetOf(s, key)[gvr] == t.sets[key][gvr]
            && t.sets[key][gvr].identityHash == b.apiExport.identityHash
            && s.created[t.sets[key][gvr].def].Backed?
  {
    var prev := SetOf(s, key);
    SetIsKnown(s, key);
    BuildKeeps(cfg, b, prev, s.created, ch.schemas);
    BuildMarks(cfg, b, prev, s.created, ch.schemas);
  }

  /** So every fallback of the old set is torn down, whether or not its resource is claimed now. */
  lemma FallbacksAreReplaced(cfg: Config, s: State, key: string, b: Basis, ch: Choice, gvr: GVR)
    requires Invariant(s) && LegalPlan(s, key, Serve(b), ch) && Reconcile(cfg, s, key, Serve(b), ch).1
    requires gvr in SetOf(s, key) && SetOf(s, key)[gvr].identityHash == ""
    ensures var t := Reconcile(cfg, s, key, Serve(b), ch).0;
            SetOf(s, key)[gvr].def in t.torn && !Live(t, SetOf(s, key)[gvr].def)
  {
    var prev := SetOf(s, key);
    var t := Reconcile(cfg, s, key, Serve(b), ch).0;
    SetIsKnown(s, key);
    ServingPublishes(cfg, s, key, b, ch);
    var next := t.sets[key];
    if gvr in next && next[gvr].def == prev[gvr].def {
      CarriedOverIsBacked(cfg, s, key, b, ch, gvr);
      assert false;
    }
    assert RemovedId(prev, next, prev[gvr].def);
    ReconcileKeepsInvariant(cfg, s, key, Serve(b), ch);
  }

  // ----- When a reconcile tears nothing down -----

  /** Some slot of the new table reuses the old entry at `gvr`. */
  predicate Keeps(b: Basis, prev: DefinitionSet, gvr: GVR) {
    exists slot :: slot in TableSlots(b.r) && slot.GVR() == gvr && Reused(b, prev, slot)
  }

  /** The whole old set is reused. */
  predicate KeepsAll(b: Basis, prev: DefinitionSet) {
    forall gvr :: gvr in prev ==> Keeps(b, prev, gvr)
  }

  /** An old entry is carried over exactly when the new table reuses it. */
  lemma CarriedOverIff(cfg: Config, b: Basis, prev: DefinitionSet, created: seq<Params>, order: seq<GroupResource>,
                       gvr: GVR)
    requires UniqueGVRs(b) && b.apiExport.identityHash != "" && Enumerates(order, b.r.schemas.Keys)
    requires KnownSet(prev, created) && gvr in prev
    requires !Build(cfg, b, prev, order, created).failed
    ensures !Removed(prev, Build(cfg, b, prev, order, created).entries, gvr) <==> Keeps(b, prev, gvr)
  {
    var p := Build(cfg, b, prev, order, created);
    BuildCompletes(cfg, b, prev, created, order);
    BuildMarks(cfg, b, prev, created, order);
    if !Removed(prev, p.entries, gvr) {
      assert p.entries[gvr].identityHash == b.apiExport.identityHash;
      assert gvr !in Fallbacks(b);
      var slot :| slot in TableSlots(b.r) && slot.GVR() == gvr;
      assert SlotBuilt(cfg, b, prev, |created|, p, slot);
    }
    if slot :| slot in TableSlots(b.r) && slot.GVR() == gvr && Reused(b, prev, slot) {
      assert SlotBuilt(cfg, b, prev, |created|, p, slot);
    }
  }

  /** A reconcile that completes the serving path, with what it needs known of its inputs. */
  ghost predicate Completes(cfg: Config, s: State, key: string, b: Basis, ch: Choice) {
    && Invariant(s) && LegalPlan(s, key, Serve(b), ch) && UniqueGVRs(b)
    && !Build(cfg, b, SetOf(s, key), ch.schemas, s.created).failed
  }

  lemma RemovesNothingIff(cfg: Config, s: State, key: string, b: Basis, ch: Choice)
    requires Completes(cfg, s, key, b, ch)
    ensures var next := Build(cfg, b, SetOf(s, key), ch.schemas, s.created).entries;
            (forall gvr :: gvr in SetOf(s, key) ==> !Removed(SetOf(s, key), next, gvr))
            <==> KeepsAll(b, SetOf(s, key))
  {
    SetIsKnown(s, key);
    forall gvr | gvr in SetOf(s, key)
      ensures !Removed(SetOf(s, key), Build(cfg, b, SetOf(s, key), ch.schemas, s.created).entries, gvr)
              <==> Keeps(b, SetOf(s, key), gvr)
    {
      CarriedOverIff(cfg, b, SetOf(s, key), s.created, ch.schemas, gvr);
    }
  }

  /** The TearDown calls of the reconcile. */
  function CleanupLog(cfg: Config, s: State, key: string, b: Basis, ch: Choice): seq<nat>
    requires LegalPlan(s, key, Serve(b), ch)
  {
    TornDown(SetOf(s, key), Build(cfg, b, SetOf(s, key), ch.schemas, s.created).entries, ch.cleanup)
  }

  /**
   Between cleanup and publication no reader is served a torn-down definition
   if and only if the new table reuses the whole old set.
   */
  lemma MidReconcileIsLiveIff(cfg: Config, s: State, key: string, b: Basis, ch: Choice)
    requires Completes(cfg, s, key, b, ch)
    ensures var p := Build(cfg, b, SetOf(s, key), ch.schemas, s.created);
            (forall k, gvr, id :: Published(s, k, gvr, id) ==>
                                    id !in MidReconcile(s, CleanupLog(cfg, s, key, b, ch), p.created).torn)
            <==> KeepsAll(b, SetOf(s, key))
  {
    var p := Build(cfg, b, SetOf(s, key), ch.schemas, s.created);
    ServingPublishes(cfg, s, key, b, ch);
    RemovesNothingIff(cfg, s, key, b, ch);
    MidReconcileIsLiveIffNothingRemoved(s, key, p, CleanupLog(cfg, s, key, b, ch),
                                        Reconcile(cfg, s, key, Serve(b), ch).0);
  }

  /**
   The worker is not waited for at shutdown. A reconcile that completes after
   the stop tears nothing down twice if and only if its table reuses the whole
   old set; and exactly the definitions it creates stay alive for good.
   */
  lemma PublicationAfterStopIsCleanIff(cfg: Config, s: State, stop: seq<nat>, key: string, b: Basis, ch: Choice)
    requires Completes(cfg, s, key, b, ch)
    requires NoDuplicates(stop) && forall id: nat :: id in stop <==> Live(s, id)
    ensures NoDuplicates(s.torn + stop + CleanupLog(cfg, s, key, b, ch)) <==> KeepsAll(b, SetOf(s, key))
    ensures var t := Reconcile(cfg, s, key, Serve(b), ch).0;
            forall id: nat :: Live(t, id) && id !in s.torn + stop + CleanupLog(cfg, s, key, b, ch)
                              <==> |s.created| <= id < |t.created|
  {
    var p, log := Build(cfg, b, SetOf(s, key), ch.schemas, s.created), CleanupLog(cfg, s, key, b, ch);
    var t := Reconcile(cfg, s, key, Serve(b), ch).0;
    ServingPublishes(cfg, s, key, b, ch);
    RemovesNothingIff(cfg, s, key, b, ch);
    LatePublicationIsCleanIffNothingRemoved(s, stop, key, p, log, t);
    BuildCompletes(cfg, b, SetOf(s, key), s.created, ch.schemas);
    forall id: nat
      ensures Live(t, id) && id !in s.torn + stop + log <==> |s.created| <= id < |t.created|
    {
      LatePublicationLeavesNewAlive(s, stop, key, p, log, t, id);
    }
  }

  /** A fallback in the old set is never reused, so it always shows both ways. */
  lemma FallbacksAreNeverKept(b: Basis, prev: DefinitionSet, gvr: GVR)
    requires b.apiExport.identityHash != ""
    requires gvr in prev && prev[gvr].identityHash == ""
    ensures !Keeps(b, prev, gvr) && !KeepsAll(b, prev)
  {
  }

  /** Torn down or dropped. */
  predicate Ended(s: State, id: nat) { id in s.torn || id in s.dropped }

  lemma EndedIsNotLive(s: State, id: nat)
    requires Invariant(s) && Ended(s, id)
    ensures !Live(s, id)
  {
  }

  lemma StepKeepsEnded(s: State, t: State, id: nat)
    requires Invariant(s) && ReconcileStep(s, t) && Ended(s, id)
    ensures id in s.torn ==> id in t.torn
    ensures id in s.dropped ==> id in t.dropped
  {
    var cfg, key, plan, ch :| StepBy(cfg, s, key, plan, ch, t);
    assert s.torn <= t.torn;
  }

  /** In every run, a definition once torn down or dropped is never published again. */
  lemma {:induction false} EndedForEver(states: seq<State>, i: nat, j: nat, id: nat)
    requires Run(states) && i <= j < |states| && Ended(states[i], id)
    ensures id in states[i].torn ==> id in states[j].torn
    ensures id in states[i].dropped ==> id in states[j].dropped
    ensures !Live(states[j], id)
    decreases j
  {
    if i < j {
      EndedForEver(states, i, j - 1, id);
      EveryRunKeepsInvariant(states, j - 1);
      assert StepInto(states, j);
      StepKeepsEnded(states[j - 1], states[j], id);
    }
    EveryRunKeepsInvariant(states, j);
    EndedIsNotLive(states[j], id);
  }
}
