/** Names: record names, fully qualified host names, work-queue keys and the keyed
    lookup of the generated lister. */
module Names {
  import opened Wrappers

  /** One application object: the cluster it lives in, its namespace and its name. */
  datatype Owner = Owner(cluster: string, namespace: string, name: string)

  /** The name of the ownership record kept on the Istio cluster. */
  function RecordName(cluster: string, namespace: string, name: string): string {
    cluster + "--" + namespace + "--" + name
  }

  function Fqdn(route: string, suffix: string): string {
    route + "." + suffix
  }

  function TakenMessage(route: string): string {
    route + " already taken. please change routeName."
  }

  // ---------------------------------------------------------------- record names

  predicate SeparatorAt(s: string, i: int) {
    0 <= i < |s| - 1 && s[i] == '-' && s[i + 1] == '-'
  }

  /** The first position of "--" in s. */
  function FirstSeparator(s: string): (i: Option<nat>)
    ensures i.Some? ==> SeparatorAt(s, i.value) && forall k :: 0 <= k < i.value ==> !SeparatorAt(s, k)
    ensures i.None? ==> forall k :: !SeparatorAt(s, k)
  {
    if |s| < 2 then None
    else if SeparatorAt(s, 0) then Some(0)
    else
      var rest := FirstSeparator(s[1..]);
      assert forall k :: 0 < k ==> SeparatorAt(s, k) == SeparatorAt(s[1..], k - 1);
      if rest.Some? then Some(rest.value + 1) else None
  }

  /** Splits a record name at its first two separators. */
  function ParseRecordName(s: string): Option<Owner> {
    match FirstSeparator(s)
    case None => None
    case Some(i) =>
      var rest := s[i + 2..];
      match FirstSeparator(rest)
      case None => None
      case Some(j) => Some(Owner(s[..i], rest[..j], rest[j + 2..]))
  }

  /** A part that cannot blur the separator following it. */
  ghost predicate Clean(part: string) {
    && (forall k :: !SeparatorAt(part, k))
    && (part == "" || part[|part| - 1] != '-')
  }

  lemma SeparatorAfterPart(part: string, rest: string)
    ensures FirstSeparator(part + "--" + rest) == Some(|part|) <==> Clean(part)
    ensures (part + "--" + rest)[..|part|] == part
    ensures (part + "--" + rest)[|part| + 2..] == rest
  {
    var s := part + "--" + rest;
    assert SeparatorAt(s, |part|);
    assert forall k :: 0 <= k < |part| - 1 ==> SeparatorAt(s, k) == SeparatorAt(part, k);
    if part != "" {
      assert SeparatorAt(s, |part| - 1) <==> part[|part| - 1] == '-';
    }
  }

  /** A record name parses back into its three parts exactly when the cluster name and the
      namespace are clean; nothing is asked of the object's own name. */
  lemma RecordNameParsesBack(cluster: string, namespace: string, name: string)
    ensures ParseRecordName(RecordName(cluster, namespace, name)) == Some(Owner(cluster, namespace, name))
       <==> Clean(cluster) && Clean(namespace)
  {
    var tail := namespace + "--" + name;
    assert RecordName(cluster, namespace, name) == cluster + "--" + tail;
    SeparatorAfterPart(cluster, tail);
    SeparatorAfterPart(namespace, name);
    var s := cluster + "--" + tail;
    assert SeparatorAt(s, |cluster|) && SeparatorAt(tail, |namespace|);
    var i, j := FirstSeparator(s).value, FirstSeparator(tail).value;
    assert |s[..i]| == i && |tail[..j]| == j;
  }

  function RecordOf(o: Owner): string {
    RecordName(o.cluster, o.namespace, o.name)
  }

  /** Hence distinct objects with clean cluster names and namespaces never share a record. */
  lemma CleanOwnersHaveDistinctRecords(a: Owner, b: Owner)
    requires Clean(a.cluster) && Clean(a.namespace) && Clean(b.cluster) && Clean(b.namespace)
    requires RecordOf(a) == RecordOf(b)
    ensures a == b
  {
    RecordNameParsesBack(a.cluster, a.namespace, a.name);
    RecordNameParsesBack(b.cluster, b.namespace, b.name);
  }

  /** No separator inside cluster name and namespace, and a namespace that is not empty and has no
      hyphen at either end, as Kubernetes asks of every namespace. */
  ghost predicate Separable(o: Owner) {
    && (forall k :: !SeparatorAt(o.cluster, k))
    && o.namespace != "" && o.namespace[0] != '-' && Clean(o.namespace)
  }

  /** For such namespaces the cluster name may even end in a hyphen: distinct objects still have
      distinct records. */
  lemma DistinctOwnersHaveDistinctRecords(a: Owner, b: Owner)
    requires Separable(a) && Separable(b) && RecordOf(a) == RecordOf(b)
    ensures a == b
  {
    var s := RecordOf(a);
    var (ta, tb) := (a.namespace + "--" + a.name, b.namespace + "--" + b.name);
    assert s == a.cluster + "--" + ta == b.cluster + "--" + tb;
    SeparatorNearClusterEnd(a.cluster, ta);
    SeparatorNearClusterEnd(b.cluster, tb);
    assert s[|a.cluster| + 2] == a.namespace[0] && s[|b.cluster| + 2] == b.namespace[0];
    assert |a.cluster| == |b.cluster|;
    SeparatorAfterPart(a.cluster, ta);
    SeparatorAfterPart(b.cluster, tb);
    SeparatorAfterPart(a.namespace, a.name);
    SeparatorAfterPart(b.namespace, b.name);
  }

  lemma SeparatorNearClusterEnd(cluster: string, tail: string)
    requires forall k :: !SeparatorAt(cluster, k)
    ensures var i := FirstSeparator(cluster + "--" + tail);
      && i.Some? && |cluster| - 1 <= i.value <= |cluster|
      && (i.value == |cluster| - 1 <==> cluster != "" && cluster[|cluster| - 1] == '-')
  {
    var s := cluster + "--" + tail;
    assert SeparatorAt(s, |cluster|);
    assert forall k :: 0 <= k < |cluster| - 1 ==> SeparatorAt(s, k) == SeparatorAt(cluster, k);
    if cluster != "" {
      assert SeparatorAt(s, |cluster| - 1) <==> cluster[|cluster| - 1] == '-';
    }
  }

  /** Parsing inverts naming: what a string parses into is named by that string. */
  lemma ParsedOwnerHasTheName(s: string)
    requires ParseRecordName(s).Some?
    ensures RecordOf(ParseRecordName(s).value) == s
  {
    var i := FirstSeparator(s).value;
    var rest := s[i + 2..];
    var j := FirstSeparator(rest).value;
    assert s == s[..i] + "--" + rest;
    assert rest == rest[..j] + "--" + rest[j + 2..];
    assert s == s[..i] + "--" + rest[..j] + "--" + rest[j + 2..];
  }

  lemma RecordNamesParse(o: Owner)
    ensures ParseRecordName(RecordOf(o)).Some?
  {
    var tail := o.namespace + "--" + o.name;
    var s := RecordOf(o);
    assert s == o.cluster + "--" + tail;
    assert SeparatorAt(s, |o.cluster|);
    var i := FirstSeparator(s).value;
    var at := |o.cluster| + 2 + |o.namespace|;
    assert SeparatorAt(s, at) && SeparatorAt(s[i + 2..], at - i - 2);
  }

  /** The condition on parsing is the condition for sharing: an owner whose cluster name or namespace
      is not clean shares its record name with another owner, if perhaps one with a namespace that
      Kubernetes would not admit. */
  lemma UncleanOwnerSharesItsRecord(a: Owner)
    requires !Clean(a.cluster) || !Clean(a.namespace)
    ensures exists b :: b != a && RecordOf(b) == RecordOf(a)
  {
    RecordNamesParse(a);
    ParsedOwnerHasTheName(RecordOf(a));
    RecordNameParsesBack(a.cluster, a.namespace, a.name);
  }

  /** Objects that Kubernetes admits do collide: a namespace may hold a separator, and nothing keeps
      one out of a cluster name. */
  lemma RecordNamesCanCollide()
    ensures RecordName("c", "a--b", "d") == RecordName("c", "a", "b--d") == "c--a--b--d"
    ensures RecordName("c--a", "b", "d") == RecordName("c", "a", "b--d")
    ensures !Clean("a--b") && !Clean("c--a")
  {
    assert SeparatorAt("a--b", 1) && SeparatorAt("c--a", 1);
    assert RecordName("c", "a--b", "d") == "c--a--b--d" == RecordName("c", "a", "b--d");
    assert RecordName("c--a", "b", "d") == "c--a--b--d";
  }

  /** A host name is the route, a dot and the suffix, so different routes have different hosts. */
  lemma FqdnInjective(r: string, q: string, suffix: string)
    ensures var host := Fqdn(r, suffix);
      && |host| == |r| + 1 + |suffix|
      && host[..|r|] == r && host[|r|] == '.' && host[|r| + 1..] == suffix
    ensures Fqdn(r, suffix) == Fqdn(q, suffix) ==> r == q
  {
    if Fqdn(r, suffix) == Fqdn(q, suffix) {
      assert r == Fqdn(r, suffix)[..|r|];
      assert q == Fqdn(q, suffix)[..|q|];
    }
  }

  // ------------------------------------------------------------- work-queue keys

  predicate SlashFree(s: string) {
    '/' !in s
  }

  /** The key under which an object is put on the work queue and into its index. */
  function MetaKey(namespace: string, name: string): string {
    if namespace == "" then name else namespace + "/" + name
  }

  function FirstSlash(s: string): (i: nat)
    ensures i <= |s| && '/' !in s[..i]
    ensures i < |s| ==> s[i] == '/'
  {
    if s == "" || s[0] == '/' then 0
    else
      var i := FirstSlash(s[1..]) + 1;
      assert s[..i] == [s[0]] + s[1..][..i - 1];
      i
  }

  /** Splits "namespace/name"; a key without a slash is a bare name, one with two is an error. */
  function SplitKey(key: string): Option<(string, string)> {
    var i := FirstSlash(key);
    if i == |key| then Some(("", key))
    else if SlashFree(key[i + 1..]) then Some((key[..i], key[i + 1..]))
    else None
  }

  lemma {:induction false} FirstSlashOfKey(namespace: string, rest: string)
    requires SlashFree(namespace)
    ensures FirstSlash(namespace + "/" + rest) == |namespace|
  {
    var s := namespace + "/" + rest;
    if namespace != "" {
      FirstSlashOfKey(namespace[1..], rest);
      assert s[1..] == namespace[1..] + "/" + rest;
    }
  }

  lemma KeyDeterminesParts(namespace: string, name: string, key: string)
    requires SlashFree(namespace) && SlashFree(name)
    ensures key == namespace + "/" + name ==> SplitKey(key) == Some((namespace, name))
  {
    FirstSlashOfKey(namespace, name);
    var k := namespace + "/" + name;
    assert k[|namespace| + 1..] == name;
    assert k[..|namespace|] == namespace;
  }

  /** A split key gives slash-free parts. */
  lemma SplitPartsAreSlashFree(key: string)
    requires SplitKey(key).Some?
    ensures var (namespace, name) := SplitKey(key).value; SlashFree(namespace) && SlashFree(name)
  {
  }

  /** A key splits into two slash-free parts exactly when it is those parts around one slash, or a
      bare name; every other key is an error. */
  lemma SplitKeyExactly(key: string, namespace: string, name: string)
    ensures SplitKey(key) == Some((namespace, name)) <==>
      && '/' !in namespace && '/' !in name
      && (key == namespace + "/" + name || (namespace == "" && key == name))
  {
    if '/' !in namespace && '/' !in name {
      KeyDeterminesParts(namespace, name, key);
    }
    var i := FirstSlash(key);
    if i == |key| {
      assert key[..i] == key;
    } else {
      assert key == key[..i] + "/" + key[i + 1..];
    }
    assert i < |key| ==> '/' in key;
  }

  // --------------------------------------------------------------------- listers

  datatype Lookup<+T> = Found(value: T) | NotFound | Failed

  /** A lister's index: objects by key, and whether its store can be read at all. */
  datatype Indexer<T> = Indexer(items: map<string, T>, readable: bool)

  function ListerGet<T>(index: Indexer<T>, namespace: string, name: string): Lookup<T> {
    var key := namespace + "/" + name;
    if !index.readable then Failed
    else if key in index.items then Found(index.items[key])
    else NotFound
  }

  datatype ServiceRoute = ServiceRoute(namespace: string, name: string, routeName: string, fullRouteName: string)

  /** Every object sits under its own key, and its names hold no slash. */
  ghost predicate WellKeyed(index: Indexer<ServiceRoute>) {
    forall k :: k in index.items ==>
      && k == MetaKey(index.items[k].namespace, index.items[k].name)
      && SlashFree(index.items[k].namespace)
      && SlashFree(index.items[k].name)
  }

  /** Whatever the lister finds carries the very namespace and name that were asked for, so the
      record name looked up is the record name that a create would use. */
  lemma ListerFindsAskedObject(index: Indexer<ServiceRoute>, namespace: string, name: string)
    requires WellKeyed(index) && SlashFree(namespace) && SlashFree(name)
    requires ListerGet(index, namespace, name).Found?
    ensures var foo := ListerGet(index, namespace, name).value;
      && foo.namespace == namespace && foo.name == name && namespace != ""
  {
    var key := namespace + "/" + name;
    var foo := index.items[key];
    KeyDeterminesParts(namespace, name, key);
    assert key[|namespace|] == '/';
    assert '/' in key;
    if foo.namespace != "" {
      KeyDeterminesParts(foo.namespace, foo.name, key);
    }
  }

  /** The chain from queue to lister: an indexed object is found again under the key it was
      enqueued with, and with its own record name, exactly when its namespace is not empty. */
  lemma EnqueuedKeyFindsItsObject(index: Indexer<ServiceRoute>, foo: ServiceRoute, cluster: string)
    requires WellKeyed(index) && index.readable
    requires MetaKey(foo.namespace, foo.name) in index.items
    requires index.items[MetaKey(foo.namespace, foo.name)] == foo
    ensures SplitKey(MetaKey(foo.namespace, foo.name)) == Some((foo.namespace, foo.name))
    ensures var (namespace, name) := SplitKey(MetaKey(foo.namespace, foo.name)).value;
      && RecordName(cluster, namespace, name) == RecordName(cluster, foo.namespace, foo.name)
      && (ListerGet(index, namespace, name) == Found(foo) <==> foo.namespace != "")
  {
    var key := MetaKey(foo.namespace, foo.name);
    if foo.namespace == "" {
      assert FirstSlash(key) < |key| ==> '/' in key;
      assert key[..|key|] == key;
      if ListerGet(index, foo.namespace, foo.name).Found? {
        ListerFindsAskedObject(index, foo.namespace, foo.name);
      }
    } else {
      KeyDeterminesParts(foo.namespace, foo.name, key);
    }
  }
}
