/**
 Digesting a request URL of the virtual workspace:
 prefix slice-cluster "/" slice-name "/clusters/" target ["/" rest].
 */
module UrlDigest {
  import opened Wrappers
  import opened Apis
  import opened Bindings
  import DomainKeys

  const CLUSTERS := "/clusters/"

  predicate HasPrefix(s: string, p: string) { |p| <= |s| && s[..|p|] == p }

  predicate HasSuffix(s: string, p: string) { |p| <= |s| && s[|s| - |p|..] == p }

  function TrimPrefix(s: string, p: string): string { if HasPrefix(s, p) then s[|p|..] else s }

  function TrimSuffix(s: string, p: string): string { if HasSuffix(s, p) then s[..|s| - |p|] else s }

  /** strings.SplitN: at most `n` parts, the last one unsplit. */
  function SplitN(s: string, c: char, n: nat): (parts: seq<string>)
    requires n >= 1
    ensures 1 <= |parts| <= n
    ensures forall i :: 0 <= i < |parts| - 1 ==> c !in parts[i]
  {
    if n == 1 || c !in s then [s]
    else
      var i := DomainKeys.IndexOf(s, c);
      [s[..i]] + SplitN(s[i + 1..], c, n - 1)
  }

  /** The target names one logical cluster when it has no colon. */
  function ClusterOf(target: string): Option<Cluster> {
    if target == "*" then Some(Wildcard)
    else if ':' in target then None
    else Some(Named(target))
  }

  datatype Digest = Digest(cluster: Cluster, domainKey: string, logicalPath: string)

  /** What is digested from the part after "/clusters/". */
  function DigestTarget(url: string, domainKey: string, rest: string): Option<Digest> {
    var parts := SplitN(rest, '/', 2);
    var realPath := if |parts| > 1 then "/" + parts[1] else "/";
    match ClusterOf(parts[0])
    case None => None
    case Some(c) => Some(Digest(c, domainKey, TrimSuffix(url, realPath)))
  }

  function DigestOf(url: string, prefix: string): Option<Digest> {
    if !HasPrefix(url, prefix) then None
    else
      var parts := SplitN(TrimPrefix(url, prefix), '/', 3);
      if |parts| < 3 || parts[0] == "" || parts[1] == "" then None
      else
        var realPath := "/" + parts[2];
        if !HasPrefix(realPath, CLUSTERS) then None
        else DigestTarget(url, parts[0] + "/" + parts[1], TrimPrefix(realPath, CLUSTERS))
  }

  /** digestUrl, step by step. */
  method DigestUrl(urlPath: string, rootPathPrefix: string)
    returns (cluster: Cluster, domainKey: string, logicalPath: string, accepted: bool)
    ensures DigestOf(urlPath, rootPathPrefix)
            == if accepted then Some(Digest(cluster, domainKey, logicalPath)) else None
  {
    cluster, domainKey, logicalPath, accepted := Named(""), "", "", false;
    if !HasPrefix(urlPath, rootPathPrefix) {
      return;
    }
    var withoutRootPathPrefix := TrimPrefix(urlPath, rootPathPrefix);
    var parts := SplitN(withoutRootPathPrefix, '/', 3);
    if |parts| < 3 {
      return;
    }
    var sliceCluster, sliceName := parts[0], parts[1];
    if sliceCluster == "" {
      return;
    }
    if sliceName == "" {
      return;
    }
    var realPath := "/";
    if |parts| > 2 {
      realPath := realPath + parts[2];
    }
    if !HasPrefix(realPath, CLUSTERS) {
      return;
    }
    var withoutClustersPrefix := TrimPrefix(realPath, CLUSTERS);
    parts := SplitN(withoutClustersPrefix, '/', 2);
    var path := parts[0];
    realPath := "/";
    if |parts| > 1 {
      realPath := realPath + parts[1];
    }
    if path == "*" {
      cluster := Wildcard;
    } else {
      if ':' in path {
        return;
      }
      cluster := Named(path);
    }
    domainKey, logicalPath, accepted := sliceCluster + "/" + sliceName, TrimSuffix(urlPath, realPath), true;
  }

  // ----- Formatting -----

  /** Where a request goes: a slice, a target, and the path below it if there is a slash after the target. */
  datatype Request = Request(sliceCluster: ClusterName, sliceName: string, target: string, rest: Option<string>)

  /** Everything up to and including the target. */
  function Base(prefix: string, r: Request): string {
    prefix + r.sliceCluster + "/" + r.sliceName + CLUSTERS + r.target
  }

  function RestPath(r: Request): string { if r.rest.Some? then "/" + r.rest.value else "" }

  function FormatUrl(prefix: string, r: Request): string { Base(prefix, r) + RestPath(r) }

  predicate WellFormed(r: Request) {
    && r.sliceCluster != "" && r.sliceName != "" && '/' !in r.sliceName
    && '/' !in r.target && ClusterOf(r.target).Some?
  }

  // ----- Splitting what was joined -----

  lemma SplitJoined(a: string, c: char, b: string, n: nat)
    requires c !in a && n >= 2
    ensures SplitN(a + [c] + b, c, n) == [a] + SplitN(b, c, n - 1)
  {
    DomainKeys.IndexOfConcat(a, c, b);
    var s := a + [c] + b;
    assert s[..|a|] == a && s[|a| + 1..] == b;
  }

  lemma JoinSplit(s: string, c: char, n: nat)
    requires n >= 2 && c in s
    ensures var parts := SplitN(s, c, n);
            |parts| >= 2 && c !in parts[0] && s == parts[0] + [c] + s[|parts[0]| + 1..]
            && parts[1..] == SplitN(s[|parts[0]| + 1..], c, n - 1)
  {
    var i := DomainKeys.IndexOf(s, c);
    assert s == s[..i] + [s[i]] + s[i + 1..];
  }

  /** The remaining path after the target, as the digest computes it. */
  lemma DigestTargetOf(url: string, domainKey: string, r: Request)
    requires WellFormed(r)
    ensures DigestTarget(url, domainKey, r.target + RestPath(r))
            == Some(Digest(ClusterOf(r.target).value, domainKey,
                           TrimSuffix(url, if r.rest.Some? then "/" + r.rest.value else "/")))
  {
    if r.rest.Some? {
      assert r.target + RestPath(r) == r.target + ['/'] + r.rest.value;
      SplitJoined(r.target, '/', r.rest.value, 2);
    } else {
      assert r.target + RestPath(r) == r.target;
    }
  }

  lemma TrimSuffixCancels(s: string, p: string)
    ensures TrimSuffix(s + p, p) == s
  {
    assert (s + p)[|s|..] == p && (s + p)[..|s|] == s;
  }

  /** What follows the slice name, without its leading slash. */
  function Tail(r: Request): string { "clusters/" + r.target + RestPath(r) }

  lemma SplitThree(a: string, b: string, tail: string)
    requires '/' !in a && '/' !in b
    ensures SplitN(a + "/" + b + "/" + tail, '/', 3) == [a, b, tail]
  {
    assert a + "/" + b + "/" + tail == a + ['/'] + (b + ['/'] + tail);
    SplitJoined(a, '/', b + ['/'] + tail, 3);
    SplitJoined(b, '/', tail, 2);
  }

  lemma FormatIsPrefixed(prefix: string, r: Request)
    ensures HasPrefix(FormatUrl(prefix, r), prefix)
    ensures TrimPrefix(FormatUrl(prefix, r), prefix) == r.sliceCluster + "/" + r.sliceName + "/" + Tail(r)
  {
    assert FormatUrl(prefix, r) == prefix + (r.sliceCluster + "/" + r.sliceName + "/" + Tail(r));
  }

  lemma TailIsClusters(r: Request)
    ensures HasPrefix("/" + Tail(r), CLUSTERS)
    ensures TrimPrefix("/" + Tail(r), CLUSTERS) == r.target + RestPath(r)
  {
    assert "/" + Tail(r) == CLUSTERS + (r.target + RestPath(r));
  }

  lemma DigestReachesTarget(prefix: string, r: Request)
    requires r.sliceCluster != "" && r.sliceName != "" && '/' !in r.sliceName
    ensures DigestOf(FormatUrl(prefix, r), prefix)
            == DigestTarget(FormatUrl(prefix, r), DomainKeys.Format(ObjectKey(r.sliceCluster, r.sliceName)),
                            r.target + RestPath(r))
  {
    FormatIsPrefixed(prefix, r);
    SplitThree(r.sliceCluster, r.sliceName, Tail(r));
    TailIsClusters(r);
  }

  /** Without a rest only a slash at the very end is trimmed, and that is the one after "clusters". */
  lemma TrimBase(prefix: string, r: Request)
    requires '/' !in r.target
    ensures TrimSuffix(Base(prefix, r), "/")
            == if r.target == "" then Base(prefix, r)[..|Base(prefix, r)| - 1] else Base(prefix, r)
  {
    var base := Base(prefix, r);
    var last := |base| - 1;
    assert base[last..] == [base[last]];
    if r.target != "" {
      assert base[last] == r.target[|r.target| - 1];
    } else {
      assert base[last] == CLUSTERS[|CLUSTERS| - 1];
    }
  }

  /** The URL's own components come back from the digest, for every well-formed request. */
  lemma DigestInvertsFormat(prefix: string, r: Request)
    requires WellFormed(r)
    ensures DigestOf(FormatUrl(prefix, r), prefix)
            == Some(Digest(ClusterOf(r.target).value, DomainKeys.Format(ObjectKey(r.sliceCluster, r.sliceName)),
                           if r.rest.None? && r.target == "" then Base(prefix, r)[..|Base(prefix, r)| - 1]
                           else Base(prefix, r)))
  {
    DigestReachesTarget(prefix, r);
    DigestTargetOf(FormatUrl(prefix, r), DomainKeys.Format(ObjectKey(r.sliceCluster, r.sliceName)), r);
    if r.rest.Some? {
      TrimSuffixCancels(Base(prefix, r), "/" + r.rest.value);
    } else {
      assert FormatUrl(prefix, r) == Base(prefix, r);
      TrimBase(prefix, r);
    }
  }

  lemma JoinTwo(s: string)
    requires |SplitN(s, '/', 2)| == 2
    ensures var parts := SplitN(s, '/', 2);
            '/' !in parts[0] && s == parts[0] + "/" + parts[1]
  {
    JoinSplit(s, '/', 2);
    var parts := SplitN(s, '/', 2);
    var last := s[|parts[0]| + 1..];
    assert parts[1..] == [last];
    assert parts[1] == parts[1..][0];
  }

  lemma Regroup(a: string, b: string, c: string)
    ensures a + "/" + (b + "/" + c) == a + "/" + b + "/" + c
  {
    assert a + "/" + (b + "/" + c) == (a + "/") + (b + "/" + c) == (a + "/" + b) + ("/" + c);
  }

  lemma JoinThree(s: string)
    requires |SplitN(s, '/', 3)| == 3
    ensures var parts := SplitN(s, '/', 3);
            '/' !in parts[0] && '/' !in parts[1] && s == parts[0] + "/" + parts[1] + "/" + parts[2]
  {
    JoinSplit(s, '/', 3);
    var parts := SplitN(s, '/', 3);
    var last := s[|parts[0]| + 1..];
    assert |SplitN(last, '/', 2)| == 2 && parts[1] == parts[1..][0] && parts[2] == parts[1..][1];
    JoinTwo(last);
    Regroup(parts[0], parts[1], parts[2]);
  }

  lemma PrefixCancels(s: string, p: string)
    requires HasPrefix(s, p)
    ensures s == p + TrimPrefix(s, p)
  {
  }

  /** A target and what follows it, from the text after "/clusters/". */
  lemma TargetIsFormatted(t: string) returns (target: string, rest: Option<string>)
    ensures target == SplitN(t, '/', 2)[0] && '/' !in target
    ensures t == target + if rest.Some? then "/" + rest.value else ""
  {
    target := SplitN(t, '/', 2)[0];
    if '/' in t {
      JoinSplit(t, '/', 2);
      rest := Some(t[|target| + 1..]);
    } else {
      rest := None;
      assert t == target + "";
    }
  }

  lemma FormatRegroups(prefix: string, r: Request, last: string)
    requires "/" + last == CLUSTERS + (r.target + RestPath(r))
    ensures FormatUrl(prefix, r) == prefix + (r.sliceCluster + "/" + r.sliceName + "/" + last)
  {
    assert prefix + (r.sliceCluster + "/" + r.sliceName + "/" + last)
        == prefix + r.sliceCluster + "/" + r.sliceName + ("/" + last);
    assert FormatUrl(prefix, r) == prefix + r.sliceCluster + "/" + r.sliceName + (CLUSTERS + (r.target + RestPath(r)));
  }

  /** Every accepted URL is the format of a well-formed request. */
  lemma AcceptedUrlIsFormatted(url: string, prefix: string) returns (r: Request)
    requires DigestOf(url, prefix).Some?
    ensures WellFormed(r) && url == FormatUrl(prefix, r)
  {
    var s := TrimPrefix(url, prefix);
    var parts := SplitN(s, '/', 3);
    PrefixCancels(url, prefix);
    JoinThree(s);
    var t := TrimPrefix("/" + parts[2], CLUSTERS);
    PrefixCancels("/" + parts[2], CLUSTERS);
    var target, rest := TargetIsFormatted(t);
    r := Request(parts[0], parts[1], target, rest);
    FormatRegroups(prefix, r, parts[2]);
  }

  /** The digest accepts exactly the formatted URLs of well-formed requests. */
  lemma AcceptedIff(url: string, prefix: string)
    ensures DigestOf(url, prefix).Some? <==> exists r :: WellFormed(r) && url == FormatUrl(prefix, r)
  {
    if DigestOf(url, prefix).Some? {
      var r := AcceptedUrlIsFormatted(url, prefix);
    }
    if r :| WellFormed(r) && url == FormatUrl(prefix, r) {
      DigestInvertsFormat(prefix, r);
    }
  }

  lemma EmptyTargetLosesSlash(prefix: string, r: Request)
    requires r.rest.None? && r.target == ""
    ensures var base := Base(prefix, r);
            base[..|base| - 1] + "/" == FormatUrl(prefix, r) && base[..|base| - 1] + RestPath(r) != FormatUrl(prefix, r)
  {
    var base := Base(prefix, r);
    var last := |base| - 1;
    assert FormatUrl(prefix, r) == base;
    assert base == base[..last] + [base[last]] && base[last] == CLUSTERS[|CLUSTERS| - 1];
    assert |base[..last] + RestPath(r)| == last;
  }

  /**
   The stripped prefix followed by the remaining path is the URL. Without a
   slash after the target the remaining path is empty, except that an empty
   target loses the slash of "/clusters/" to the prefix.
   */
  lemma PrefixAndPathMakeUrl(url: string, prefix: string, r: Request)
    requires WellFormed(r) && url == FormatUrl(prefix, r)
    ensures DigestOf(url, prefix).Some?
    ensures DigestOf(url, prefix).value.logicalPath + RestPath(r) == url <==> r.rest.Some? || r.target != ""
    ensures r.rest.None? && r.target == "" ==> DigestOf(url, prefix).value.logicalPath + "/" == url
  {
    DigestInvertsFormat(prefix, r);
    if r.rest.None? && r.target == "" {
      EmptyTargetLosesSlash(prefix, r);
    } else {
      assert url == Base(prefix, r) + RestPath(r);
    }
  }

  /**
   The domain key of an accepted URL splits into its two components, and is the
   key the reconciler publishes under for that slice and for no other.
   */
  lemma DomainKeyAgrees(url: string, prefix: string, r: Request, k: ObjectKey)
    requires WellFormed(r) && url == FormatUrl(prefix, r)
    ensures DigestOf(url, prefix).Some?
    ensures var key := DigestOf(url, prefix).value.domainKey;
            && DomainKeys.Split(key, '/') == [r.sliceCluster, r.sliceName]
            && (key == DomainKeys.Format(k) <==> k == ObjectKey(r.sliceCluster, r.sliceName))
  {
    DigestInvertsFormat(prefix, r);
    DomainKeys.SplitFormat(ObjectKey(r.sliceCluster, r.sliceName));
    if DomainKeys.Format(ObjectKey(r.sliceCluster, r.sliceName)) == DomainKeys.Format(k) {
      DomainKeys.FormatIsInjective(ObjectKey(r.sliceCluster, r.sliceName), k);
    }
  }

  /**
   The digest of a URL, written out: a wildcard or a colon-free cluster as
   target, and the slice's cluster and name joined as the domain key.
   */
  lemma DigestMeaning(prefix: string, cluster: ClusterName, name: string, target: string, rest: string)
    requires cluster != "" && name != "" && '/' !in name && '/' !in target && ':' !in target
    ensures var digest := DigestOf(prefix + cluster + "/" + name + "/clusters/" + target + "/" + rest, prefix);
            && digest.Some?
            && digest.value.domainKey == cluster + "/" + name
            && digest.value.logicalPath == prefix + cluster + "/" + name + "/clusters/" + target
            && (target == "*" ==> digest.value.cluster == Wildcard)
            && (target != "*" ==> digest.value.cluster == Named(target))
  {
    var r := Request(cluster, name, target, Some(rest));
    DigestInvertsFormat(prefix, r);
    FormatWrittenOut(prefix, r);
  }

  lemma FormatWrittenOut(prefix: string, r: Request)
    requires r.rest.Some?
    ensures Base(prefix, r) == prefix + r.sliceCluster + "/" + r.sliceName + "/clusters/" + r.target
    ensures FormatUrl(prefix, r) == Base(prefix, r) + "/" + r.rest.value
  {
    assert Base(prefix, r) + ("/" + r.rest.value) == Base(prefix, r) + "/" + r.rest.value;
  }

  /** A target that is a path of several clusters is refused. */
  lemma PathTargetsAreRefused(prefix: string, r: Request)
    requires ':' in r.target && '/' !in r.target
    requires r.sliceCluster != "" && r.sliceName != "" && '/' !in r.sliceName
    ensures DigestOf(FormatUrl(prefix, r), prefix).None?
  {
    DigestReachesTarget(prefix, r);
    TargetComesFirst(r);
  }

  lemma TargetComesFirst(r: Request)
    requires '/' !in r.target
    ensures SplitN(r.target + RestPath(r), '/', 2)[0] == r.target
  {
    if r.rest.Some? {
      assert r.target + RestPath(r) == r.target + ['/'] + r.rest.value;
      SplitJoined(r.target, '/', r.rest.value, 2);
    } else {
      assert r.target + RestPath(r) == r.target;
    }
  }
}
