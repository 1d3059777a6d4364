/** What admission and the authorizers share: the request context, the listers and the binding lookup. */
module Bindings {
  import opened Wrappers
  import opened Labels
  import opened Apis
  import DomainKeys

  /** The target cluster of a request. */
  datatype Cluster = Wildcard | Named(name: string)

  /** What the URL digest puts into the context; no cluster means it is missing or invalid. */
  datatype RequestContext = RequestContext(cluster: Option<Cluster>, domainKey: string)

  datatype ClaimSelector = ClaimSelector(matchAll: bool, labelSelector: LabelSelector)

  datatype AcceptableClaim = AcceptableClaim(claim: PermissionClaim, selector: ClaimSelector, accepted: bool)

  /** `reference` is the name of the bound export, if the binding refers to one. */
  datatype APIBinding = APIBinding(reference: Option<string>, exportCluster: string,
                                   claims: seq<AcceptableClaim>, boundResources: seq<GroupResource>)

  /** Lister answers; a list of bindings comes in whatever order the lister returns. */
  datatype Listers = Listers(getSlice: ObjectKey -> Lookup<EndpointSlice>,
                             getExport: ObjectKey -> Lookup<APIExport>,
                             listBindings: string -> Result<seq<APIBinding>>)

  /** Split the domain key and look the slice up; a key without a slash is an error. */
  function SliceOf(env: Listers, domainKey: string): Lookup<EndpointSlice> {
    var parts := DomainKeys.Split(domainKey, '/');
    if |parts| < 2 then Failed else env.getSlice(ObjectKey(parts[0], parts[1]))
  }

  predicate BindsTo(b: APIBinding, exportName: string, exportCluster: string) {
    b.reference == Some(exportName) && b.exportCluster == exportCluster
  }

  function FirstBinding(bs: seq<APIBinding>, exportName: string, exportCluster: string): Option<APIBinding> {
    if bs == [] then None
    else if BindsTo(bs[0], exportName, exportCluster) then Some(bs[0])
    else FirstBinding(bs[1..], exportName, exportCluster)
  }

  /** The first listed binding of a cluster to an export; None stands for either error. */
  function BindingFor(env: Listers, cluster: string, exportName: string, exportCluster: string): Option<APIBinding> {
    match env.listBindings(cluster)
    case Err => None
    case Ok(bs) => FirstBinding(bs, exportName, exportCluster)
  }

  /** getAPIBindingByExport. */
  method FindBinding(env: Listers, cluster: string, exportName: string, exportCluster: string)
    returns (r: Option<APIBinding>)
    ensures r == BindingFor(env, cluster, exportName, exportCluster)
  {
    var listed := env.listBindings(cluster);
    if listed.Err? {
      return None;
    }
    var bindings := listed.value;
    for i := 0 to |bindings|
      invariant FirstBinding(bindings, exportName, exportCluster)
                == FirstBinding(bindings[i..], exportName, exportCluster)
    {
      var b := bindings[i];
      if b.reference.Some? && b.reference.value == exportName && b.exportCluster == exportCluster {
        return Some(b);
      }
    }
    return None;
  }

  /** The slice is looked up under the first two parts of the domain key; a key of one part is an error. */
  lemma SliceOfMeaning(env: Listers, domainKey: string, k: ObjectKey)
    ensures DomainKeys.Names(domainKey, k) ==> SliceOf(env, domainKey) == env.getSlice(k)
    ensures '/' !in domainKey ==> SliceOf(env, domainKey) == Failed
  {
    if DomainKeys.Names(domainKey, k) {
      DomainKeys.SplitNames(domainKey, k);
    }
  }

  /** The binding found is the first listed one that refers to the export by name and cluster. */
  lemma {:induction false} FirstBindingMeaning(bs: seq<APIBinding>, exportName: string, exportCluster: string)
    ensures match FirstBinding(bs, exportName, exportCluster)
            case None =>
              forall i :: 0 <= i < |bs| ==> bs[i].reference != Some(exportName) || bs[i].exportCluster != exportCluster
            case Some(b) =>
              exists i :: && 0 <= i < |bs| && bs[i] == b
                          && b.reference == Some(exportName) && b.exportCluster == exportCluster
                          && forall j :: 0 <= j < i ==>
                               bs[j].reference != Some(exportName) || bs[j].exportCluster != exportCluster
  {
    if bs == [] {
    } else if BindsTo(bs[0], exportName, exportCluster) {
    } else {
      var rest := bs[1..];
      FirstBindingMeaning(rest, exportName, exportCluster);
      assert forall i :: 0 < i < |bs| ==> bs[i] == rest[i - 1];
      if FirstBinding(rest, exportName, exportCluster).Some? {
        var i :| && 0 <= i < |rest| && rest[i] == FirstBinding(rest, exportName, exportCluster).value
                 && forall j :: 0 <= j < i ==>
                      rest[j].reference != Some(exportName) || rest[j].exportCluster != exportCluster;
        assert bs[i + 1] == rest[i];
      }
    }
  }
}
