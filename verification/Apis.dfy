/**
 The API objects the virtual workspace reads, reduced to the fields its logic
 inspects, and the informer caches that hold them.
 */
module Apis {
  import opened Wrappers
  import opened Labels

  const APIS_GROUP := "apis.kcp.io"
  const FILTERED_GROUP := "filteredvw.kcp.io"
  const APIBINDINGS := "apibindings"
  const FILTERED_SLICES := "filteredapiexportendpointslices"

  datatype GroupResource = GroupResource(group: string, resource: string)

  datatype GVR = GVR(group: string, version: string, resource: string) {
    function GR(): GroupResource { GroupResource(group, resource) }
  }

  /** Logical cluster names and paths are made of letters, digits, '-' and ':'; no '/' occurs in them. */
  type ClusterName = s: string | '/' !in s witness ""

  /** Cluster and name of a cluster-scoped object. */
  datatype ObjectKey = ObjectKey(cluster: ClusterName, name: string)

  datatype Version = Version(name: string, served: bool)

  /** An APIResourceSchema; `cluster` is its logical-cluster annotation, `body` the OpenAPI part. */
  datatype Schema = Schema(uid: string, group: string, plural: string, versions: seq<Version>,
                           cluster: ClusterName, body: string) {
    function GR(): GroupResource { GroupResource(group, plural) }
  }

  datatype PermissionClaim = PermissionClaim(group: string, resource: string, identityHash: string,
                                             verbs: seq<string>) {
    function GR(): GroupResource { GroupResource(group, resource) }
  }

  datatype MaximalPermissionPolicy = NoPolicy | NoLocalPolicy | LocalPolicy

  /** `path` is the logical-cluster-path annotation, "" when absent. */
  datatype APIExport = APIExport(cluster: ClusterName, path: string, name: string, identityHash: string,
                                 resources: seq<string>, claims: seq<PermissionClaim>,
                                 policy: MaximalPermissionPolicy)

  datatype EndpointSlice = EndpointSlice(cluster: ClusterName, name: string,
                                         exportPath: ClusterName, exportName: string,
                                         selector: LabelSelector) {
    function Key(): ObjectKey { ObjectKey(cluster, name) }

    /** The reconciler looks the export up by name in the slice's own cluster. */
    function ExportKey(): ObjectKey { ObjectKey(cluster, exportName) }

    /** Event handlers, admission and authorizers look it up under the path of the reference. */
    function ReferencedKey(): ObjectKey { ObjectKey(exportPath, exportName) }
  }

  /**
   The informer caches of the API reconciler. A lookup of a key in one of the
   `broken` sets answers an error other than NotFound; so does the identity
   index when `indexBroken` holds.
   */
  datatype Caches = Caches(slices: map<ObjectKey, EndpointSlice>,
                           exports: map<ObjectKey, APIExport>,
                           schemas: map<ObjectKey, Schema>,
                           brokenSlices: set<ObjectKey>,
                           brokenExports: set<ObjectKey>,
                           brokenSchemas: set<ObjectKey>,
                           indexBroken: bool) {
    function Slice(k: ObjectKey): Lookup<EndpointSlice> { Answer(slices, brokenSlices, k) }
    function Export(k: ObjectKey): Lookup<APIExport> { Answer(exports, brokenExports, k) }
    function Schema(k: ObjectKey): Lookup<Schema> { Answer(schemas, brokenSchemas, k) }
  }

  function Answer<T>(objects: map<ObjectKey, T>, broken: set<ObjectKey>, k: ObjectKey): Lookup<T> {
    if k in broken then Failed else if k in objects then Found(objects[k]) else NotFound
  }

  /** Objects are stored under their own cluster and name. */
  ghost predicate WellKeyed(c: Caches) {
    && (forall k :: k in c.slices ==> ObjectKey(c.slices[k].cluster, c.slices[k].name) == k)
    && (forall k :: k in c.exports ==> ObjectKey(c.exports[k].cluster, c.exports[k].name) == k)
  }
}
