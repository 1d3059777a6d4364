/** API domain keys: "cluster/name", built by the reconciler and split again by its readers. */
module DomainKeys {
  import opened Apis

  /** Position of the first `c` in `s`. */
  function IndexOf(s: string, c: char): (i: nat)
    requires c in s
    ensures i < |s| && s[i] == c && c !in s[..i]
    ensures forall j :: 0 <= j < i ==> s[j] != c
  {
    if s[0] == c then 0 else 1 + IndexOf(s[1..], c)
  }

  /** strings.Split with a one-character separator. */
  function Split(s: string, c: char): (parts: seq<string>)
    ensures parts != []
    ensures forall i :: 0 <= i < |parts| ==> c !in parts[i]
    decreases |s|
  {
    if c !in s then [s]
    else
      var i := IndexOf(s, c);
      [s[..i]] + Split(s[i + 1..], c)
  }

  function Format(k: ObjectKey): string { k.cluster + "/" + k.name }

  lemma IndexOfConcat(a: string, c: char, b: string)
    requires c !in a
    ensures c in a + [c] + b
    ensures IndexOf(a + [c] + b, c) == |a|
  {
    var s := a + [c] + b;
    assert s[|a|] == c;
    assert forall j :: 0 <= j < |a| ==> s[j] == a[j];
  }

  /** A reader that splits the key gets back the cluster and the name it was made of. */
  lemma SplitFormat(k: ObjectKey)
    requires '/' !in k.name
    ensures Split(Format(k), '/') == [k.cluster, k.name]
  {
    IndexOfConcat(k.cluster, '/', k.name);
    var s := Format(k);
    assert s[..|k.cluster|] == k.cluster && s[|k.cluster| + 1..] == k.name;
  }

  /** The first two parts of the key are the cluster and the name of `k`. */
  predicate Names(key: string, k: ObjectKey) {
    '/' !in k.name && (key == k.cluster + "/" + k.name || k.cluster + "/" + k.name + "/" <= key)
  }

  lemma SplitOnce(a: string, c: char, rest: string)
    requires c !in a
    ensures Split(a + [c] + rest, c) == [a] + Split(rest, c)
  {
    IndexOfConcat(a, c, rest);
    var s := a + [c] + rest;
    assert s[..|a|] == a && s[|a| + 1..] == rest;
  }

  /** Every key with a slash names one object, by the parts its readers take. */
  lemma SplitNames(key: string, k: ObjectKey)
    requires Names(key, k)
    ensures |Split(key, '/')| >= 2 && Split(key, '/')[0] == k.cluster && Split(key, '/')[1] == k.name
  {
    if key == Format(k) {
      SplitFormat(k);
    } else {
      var rest := key[|Format(k)| + 1..];
      var tail := k.name + "/" + rest;
      assert key == k.cluster + "/" + tail;
      SplitOnce(k.cluster, '/', tail);
      SplitOnce(k.name, '/', rest);
    }
  }

  lemma SlashNames(key: string) returns (k: ObjectKey)
    requires '/' in key
    ensures Names(key, k)
  {
    var i := IndexOf(key, '/');
    var rest := key[i + 1..];
    assert key == key[..i] + "/" + rest;
    if '/' in rest {
      var n := IndexOf(rest, '/');
      k := ObjectKey(key[..i], rest[..n]);
      assert key == (k.cluster + "/" + k.name + "/") + rest[n + 1..];
    } else {
      k := ObjectKey(key[..i], rest);
    }
  }

  lemma FormatIsInjective(k: ObjectKey, k': ObjectKey)
    requires Format(k) == Format(k')
    ensures k == k'
  {
    IndexOfConcat(k.cluster, '/', k.name);
    IndexOfConcat(k'.cluster, '/', k'.name);
    assert Format(k)[..|k.cluster|] == k.cluster && Format(k)[|k.cluster| + 1..] == k.name;
    assert Format(k')[..|k'.cluster|] == k'.cluster && Format(k')[|k'.cluster| + 1..] == k'.name;
  }
}
