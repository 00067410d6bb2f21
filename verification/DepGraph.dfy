/**
 The dependency graph of web/src/lib/depGraph.ts: buildClusterGraphs joins applications to
 the sources they name, per cluster, by way of two string-keyed indexes.
 */
module DepGraph {
  import opened Wrappers
  import opened Text
  import opened Sorting

  datatype Status = Healthy | Degraded | Failing | Progressing | Paused

  datatype Application = Application(
    id: string, clusterId: string, cluster: string, ns: string, name: string,
    source: string, status: Status, suspended: bool)

  datatype Source = Source(
    id: string, clusterId: string, cluster: string, ns: string, kind: string, name: string,
    status: Status, suspended: bool)

  datatype EdgeTone = ToneOk | ToneWarn | ToneErr | ToneMuted

  datatype DepEdge = DepEdge(sourceId: string, appId: string, tone: EdgeTone)

  datatype ClusterDepGraph = ClusterDepGraph(
    clusterId: string,
    clusterName: string,
    sources: seq<Source>,
    apps: seq<Application>,
    edges: seq<DepEdge>,
    orphanApps: seq<Application>,
    unusedSources: seq<Source>)

  /** localeCompare on names: some strict weak order, which depends on the locale. */
  type Collation = less: (string, string) -> bool | StrictWeak(less) witness (a, b) => false

  // ---------- source references ----------

  datatype Ref = Ref(kind: string, name: string)

  /** "Kind/name" or "name"; an absent kind is the empty string, which the code treats alike. */
  function ParseSourceRef(s: string): Option<Ref> {
    if s == "" then None
    else
      match Index(s, "/")
      case None => Some(Ref("", s))
      case Some(i) => IndexFinds(s, "/"); Some(Ref(s[..i], s[i + 1..]))
  }

  function KindKey(ns: string, kind: string, name: string): string {
    ns + "/" + kind + "/" + name
  }

  function NameKey(ns: string, name: string): string {
    ns + "/" + name
  }

  lemma StartsWithSlash(a: string, x: string)
    requires '/' !in a
    ensures (a + "/" + x)[0] == '/' <==> a == ""
    ensures a == "" ==> (a + "/" + x)[1..] == x
    ensures a != "" ==> (a + "/" + x)[0] == a[0] && (a + "/" + x)[1..] == a[1..] + "/" + x
  {
    assert a != "" ==> (a + "/" + x)[0] in a;
  }

  lemma {:induction false} SplitAtSlash(a: string, x: string, b: string, y: string)
    requires '/' !in a && '/' !in b && a + "/" + x == b + "/" + y
    ensures a == b && x == y
  {
    StartsWithSlash(a, x);
    StartsWithSlash(b, y);
    if a != "" {
      SplitAtSlash(a[1..], x, b[1..], y);
    }
  }

  /** Without slashes in namespaces and kinds, the string keys say the same as the tuples. */
  lemma KeysAreTuples(ns: string, kind: string, name: string, ns': string, kind': string, name': string)
    requires '/' !in ns && '/' !in ns' && '/' !in kind && '/' !in kind'
    ensures KindKey(ns, kind, name) == KindKey(ns', kind', name') <==> ns == ns' && kind == kind' && name == name'
    ensures NameKey(ns, name) == NameKey(ns', name') <==> ns == ns' && name == name'
  {
    if KindKey(ns, kind, name) == KindKey(ns', kind', name') {
      assert KindKey(ns, kind, name) == ns + "/" + (kind + "/" + name);
      assert KindKey(ns', kind', name') == ns' + "/" + (kind' + "/" + name');
      SplitAtSlash(ns, kind + "/" + name, ns', kind' + "/" + name');
      SplitAtSlash(kind, name, kind', name');
    }
    if NameKey(ns, name) == NameKey(ns', name') {
      SplitAtSlash(ns, name, ns', name');
    }
  }

  lemma RefKindHasNoSlash(s: string)
    requires ParseSourceRef(s).Some?
    ensures '/' !in ParseSourceRef(s).value.kind
  {
    if Index(s, "/").Some? {
      FirstPartFree(s, "/");
      var kind := s[..Index(s, "/").value];
      if '/' in kind {
        var j: nat :| j < |kind| && kind[j] == '/';
        IndexFinds(kind, "/");
        assert OccursAt(kind, "/", j);
      }
    }
  }

  // ---------- the indexes ----------

  /** byNsKindName: a later source with the same key replaces an earlier one. */
  function KindIndex(sources: seq<Source>): map<string, Source> {
    if sources == [] then map[]
    else
      var s := sources[|sources| - 1];
      KindIndex(sources[..|sources| - 1])[KindKey(s.ns, s.kind, s.name) := s]
  }

  /** byNsName: the list of sources under each key. */
  function NameIndex(sources: seq<Source>): map<string, seq<Source>> {
    if sources == [] then map[]
    else
      var s := sources[|sources| - 1];
      var index := NameIndex(sources[..|sources| - 1]);
      var k := NameKey(s.ns, s.name);
      index[k := (if k in index then index[k] else []) + [s]]
  }

  /** candidates.find((c) => c.kind === kind) */
  function FindKind(candidates: seq<Source>, kind: string): Option<Source> {
    if candidates == [] then None
    else if candidates[0].kind == kind then Some(candidates[0])
    else FindKind(candidates[1..], kind)
  }

  /** What the code looks up for a reference in its indexes. */
  function Looked(sources: seq<Source>, ns: string, ref: Ref): Option<Source> {
    var kindKey, nameKey := KindKey(ns, ref.kind, ref.name), NameKey(ns, ref.name);
    if ref.kind != "" && kindKey in KindIndex(sources) then Some(KindIndex(sources)[kindKey])
    else if nameKey !in NameIndex(sources) then None
    else
      var candidates := NameIndex(sources)[nameKey];
      if |candidates| == 1 then Some(candidates[0])
      else if |candidates| > 1 && ref.kind != "" then FindKind(candidates, ref.kind)
      else None
  }

  function SourceOf(sources: seq<Source>, a: Application): Option<Source> {
    match ParseSourceRef(a.source)
    case None => None
    case Some(ref) => Looked(sources, a.ns, ref)
  }

  // ---------- the plain join ----------

  /** The last source with that namespace, kind and name. */
  function LastExact(sources: seq<Source>, ns: string, kind: string, name: string): Option<Source> {
    if sources == [] then None
    else
      var s := sources[|sources| - 1];
      if s.ns == ns && s.kind == kind && s.name == name then Some(s)
      else LastExact(sources[..|sources| - 1], ns, kind, name)
  }

  /** The sources with that namespace and name, of whatever kind. */
  function Named(sources: seq<Source>, ns: string, name: string): seq<Source> {
    if sources == [] then []
    else
      var s := sources[|sources| - 1];
      Named(sources[..|sources| - 1], ns, name) + if s.ns == ns && s.name == name then [s] else []
  }

  /** The join: the last exact match, else the only source of that name in the namespace, else none. */
  function Joined(sources: seq<Source>, a: Application): Option<Source> {
    match ParseSourceRef(a.source)
    case None => None
    case Some(ref) =>
      var exact := if ref.kind != "" then LastExact(sources, a.ns, ref.kind, ref.name) else None;
      var named := Named(sources, a.ns, ref.name);
      if exact.Some? then exact
      else if |named| == 1 then Some(named[0])
      else None
  }

  ghost predicate SlashFree(sources: seq<Source>) {
    forall s | s in sources :: '/' !in s.ns && '/' !in s.kind
  }

  lemma {:induction false} KindIndexIsLastExact(sources: seq<Source>, ns: string, kind: string, name: string)
    requires SlashFree(sources) && '/' !in ns && '/' !in kind
    ensures KindKey(ns, kind, name) in KindIndex(sources) <==> LastExact(sources, ns, kind, name).Some?
    ensures LastExact(sources, ns, kind, name).Some? ==>
              LastExact(sources, ns, kind, name).value == KindIndex(sources)[KindKey(ns, kind, name)]
    decreases |sources|
  {
    if sources != [] {
      var s := sources[|sources| - 1];
      assert s in sources;
      KindIndexIsLastExact(sources[..|sources| - 1], ns, kind, name);
      KeysAreTuples(s.ns, s.kind, s.name, ns, kind, name);
    }
  }

  lemma {:induction false} NameIndexIsNamed(sources: seq<Source>, ns: string, name: string)
    requires SlashFree(sources) && '/' !in ns
    ensures NameKey(ns, name) in NameIndex(sources) <==> Named(sources, ns, name) != []
    ensures Named(sources, ns, name) != [] ==> Named(sources, ns, name) == NameIndex(sources)[NameKey(ns, name)]
    decreases |sources|
  {
    if sources != [] {
      var s := sources[|sources| - 1];
      assert s in sources;
      NameIndexIsNamed(sources[..|sources| - 1], ns, name);
      KeysAreTuples(s.ns, s.kind, s.name, ns, s.kind, name);
    }
  }

  lemma {:induction false} NamedKinds(sources: seq<Source>, ns: string, kind: string, name: string)
    requires LastExact(sources, ns, kind, name).None?
    ensures forall s | s in Named(sources, ns, name) :: s.kind != kind
    decreases |sources|
  {
    if sources != [] {
      NamedKinds(sources[..|sources| - 1], ns, kind, name);
    }
  }

  lemma {:induction false} FindKindMisses(candidates: seq<Source>, kind: string)
    requires forall s | s in candidates :: s.kind != kind
    ensures FindKind(candidates, kind) == None
  {
    if candidates != [] {
      FindKindMisses(candidates[1..], kind);
    }
  }

  /** The indexed lookup is the join, and its search among several candidates never finds anything. */
  lemma LookupIsJoin(sources: seq<Source>, a: Application)
    requires SlashFree(sources) && '/' !in a.ns
    ensures SourceOf(sources, a) == Joined(sources, a)
    ensures ParseSourceRef(a.source).Some? ==>
              var ref := ParseSourceRef(a.source).value;
              SourceOf(sources, a).Some? ==>
                LastExact(sources, a.ns, ref.kind, ref.name).Some? || |Named(sources, a.ns, ref.name)| == 1
  {
    if ParseSourceRef(a.source).Some? {
      var ref := ParseSourceRef(a.source).value;
      RefKindHasNoSlash(a.source);
      KindIndexIsLastExact(sources, a.ns, ref.kind, ref.name);
      NameIndexIsNamed(sources, a.ns, ref.name);
      if LastExact(sources, a.ns, ref.kind, ref.name).None? {
        NamedKinds(sources, a.ns, ref.kind, ref.name);
        FindKindMisses(Named(sources, a.ns, ref.name), ref.kind);
      }
    }
  }

  // ---------- the join in terms of the reference's text ----------

  /** Only the empty text is no reference. */
  lemma NoReference(s: string)
    ensures ParseSourceRef(s).None? <==> s == ""
  {
  }

  /** "Kind/name": the kind ends at the first slash, and the rest is the name. */
  lemma KindedReference(kind: string, name: string)
    requires '/' !in kind
    ensures ParseSourceRef(kind + "/" + name) == Some(Ref(kind, name))
  {
    var s := kind + "/" + name;
    IndexFinds(s, "/");
    assert s[|kind|..] == "/" + name;
    assert OccursAt(s, "/", |kind|);
    var i := Index(s, "/").value;
    assert s[i..][0] == '/';
    assert forall k | 0 <= k < |kind| :: s[k] == kind[k] && kind[k] in kind;
    assert s[..|kind|] == kind && s[|kind| + 1..] == name;
  }

  /** A text without a slash is a name. */
  lemma PlainReference(name: string)
    requires name != "" && '/' !in name
    ensures ParseSourceRef(name) == Some(Ref("", name))
  {
    AbsentChar(name, '/');
    assert ['/'] == "/";
  }

  predicate IsExact(s: Source, ns: string, kind: string, name: string) {
    s.ns == ns && s.kind == kind && s.name == name
  }

  lemma {:induction false} LastExactIs(sources: seq<Source>, ns: string, kind: string, name: string, i: nat)
    requires i < |sources| && IsExact(sources[i], ns, kind, name)
    requires forall j | i < j < |sources| :: !IsExact(sources[j], ns, kind, name)
    ensures LastExact(sources, ns, kind, name) == Some(sources[i])
    decreases |sources|
  {
    if i < |sources| - 1 {
      assert !IsExact(sources[|sources| - 1], ns, kind, name);
      LastExactIs(sources[..|sources| - 1], ns, kind, name, i);
    }
  }

  lemma {:induction false} NoLastExact(sources: seq<Source>, ns: string, kind: string, name: string)
    requires forall j | 0 <= j < |sources| :: !IsExact(sources[j], ns, kind, name)
    ensures LastExact(sources, ns, kind, name) == None
    decreases |sources|
  {
    if sources != [] {
      assert !IsExact(sources[|sources| - 1], ns, kind, name);
      NoLastExact(sources[..|sources| - 1], ns, kind, name);
    }
  }

  predicate IsNamed(s: Source, ns: string, name: string) {
    s.ns == ns && s.name == name
  }

  lemma {:induction false} NoneNamed(sources: seq<Source>, ns: string, name: string)
    ensures Named(sources, ns, name) == [] <==> forall j | 0 <= j < |sources| :: !IsNamed(sources[j], ns, name)
    decreases |sources|
  {
    if sources != [] {
      NoneNamed(sources[..|sources| - 1], ns, name);
      assert forall j | 0 <= j < |sources| - 1 :: sources[..|sources| - 1][j] == sources[j];
    }
  }

  lemma {:induction false} OnlyNamed(sources: seq<Source>, ns: string, name: string, i: nat)
    requires i < |sources| && IsOnly(sources, ns, name, i)
    ensures Named(sources, ns, name) == [sources[i]]
    decreases |sources|
  {
    var front := sources[..|sources| - 1];
    if i < |front| {
      OnlyNamed(front, ns, name, i);
    } else {
      NoneNamed(front, ns, name);
    }
  }

  lemma {:induction false} SoleNamed(sources: seq<Source>, ns: string, name: string) returns (i: nat)
    requires |Named(sources, ns, name)| == 1
    ensures i < |sources| && IsOnly(sources, ns, name, i)
    decreases |sources|
  {
    var n := |sources| - 1;
    if IsNamed(sources[n], ns, name) {
      NoneNamed(sources[..n], ns, name);
      assert forall j | 0 <= j < n :: sources[..n][j] == sources[j];
      i := n;
    } else {
      i := SoleNamed(sources[..n], ns, name);
    }
  }

  predicate IsOnly(sources: seq<Source>, ns: string, name: string, i: nat)
    requires i < |sources|
  {
    IsNamed(sources[i], ns, name) && forall j | 0 <= j < |sources| && j != i :: !IsNamed(sources[j], ns, name)
  }

  /** The join is the only source of that name, or none when there is none or several. */
  ghost predicate JoinsOnly(sources: seq<Source>, a: Application, name: string) {
    && (forall i | 0 <= i < |sources| && IsOnly(sources, a.ns, name, i) :: Joined(sources, a) == Some(sources[i]))
    && (Joined(sources, a).Some? ==> exists i | 0 <= i < |sources| :: IsOnly(sources, a.ns, name, i))
  }

  /**
   A reference with a kind joins the last source of its namespace, kind and name; if there is
   none, the only source of that name in the namespace, whatever its kind.
   */
  lemma KindedJoin(sources: seq<Source>, a: Application, kind: string, name: string)
    requires kind != "" && '/' !in kind && a.source == kind + "/" + name
    ensures forall i | 0 <= i < |sources| && IsExact(sources[i], a.ns, kind, name)
                       && (forall j | i < j < |sources| :: !IsExact(sources[j], a.ns, kind, name)) ::
              Joined(sources, a) == Some(sources[i])
    ensures (forall j | 0 <= j < |sources| :: !IsExact(sources[j], a.ns, kind, name)) ==> JoinsOnly(sources, a, name)
  {
    KindedReference(kind, name);
    KindJoins(sources, a, kind, name);
  }

  lemma KindJoins(sources: seq<Source>, a: Application, kind: string, name: string)
    requires ParseSourceRef(a.source) == Some(Ref(kind, name)) && kind != ""
    ensures forall i | 0 <= i < |sources| && IsExact(sources[i], a.ns, kind, name)
                       && (forall j | i < j < |sources| :: !IsExact(sources[j], a.ns, kind, name)) ::
              Joined(sources, a) == Some(sources[i])
    ensures (forall j | 0 <= j < |sources| :: !IsExact(sources[j], a.ns, kind, name)) ==> JoinsOnly(sources, a, name)
  {
    forall i | 0 <= i < |sources| && IsExact(sources[i], a.ns, kind, name)
               && (forall j | i < j < |sources| :: !IsExact(sources[j], a.ns, kind, name))
      ensures Joined(sources, a) == Some(sources[i])
    {
      JoinsExact(sources, a, kind, name, i);
    }
    if forall j | 0 <= j < |sources| :: !IsExact(sources[j], a.ns, kind, name) {
      NoLastExact(sources, a.ns, kind, name);
      JoinedNamed(sources, a, kind, name);
      NamedJoins(sources, a, name);
    }
  }

  lemma JoinsExact(sources: seq<Source>, a: Application, kind: string, name: string, i: nat)
    requires ParseSourceRef(a.source) == Some(Ref(kind, name)) && kind != ""
    requires i < |sources| && IsExact(sources[i], a.ns, kind, name)
    requires forall j | i < j < |sources| :: !IsExact(sources[j], a.ns, kind, name)
    ensures Joined(sources, a) == Some(sources[i])
  {
    LastExactIs(sources, a.ns, kind, name, i);
  }

  lemma JoinedNamed(sources: seq<Source>, a: Application, kind: string, name: string)
    requires ParseSourceRef(a.source) == Some(Ref(kind, name)) && LastExact(sources, a.ns, kind, name).None?
    ensures var named := Named(sources, a.ns, name);
            Joined(sources, a) == if |named| == 1 then Some(named[0]) else None
  {
  }

  lemma NamedJoins(sources: seq<Source>, a: Application, name: string)
    requires var named := Named(sources, a.ns, name);
             Joined(sources, a) == if |named| == 1 then Some(named[0]) else None
    ensures JoinsOnly(sources, a, name)
  {
    forall i | 0 <= i < |sources| && IsOnly(sources, a.ns, name, i) ensures Joined(sources, a) == Some(sources[i]) {
      OnlyNamed(sources, a.ns, name, i);
    }
    if Joined(sources, a).Some? {
      var i := SoleNamed(sources, a.ns, name);
    }
  }

  /** A reference without a kind joins the only source of that name in the namespace. */
  lemma PlainJoin(sources: seq<Source>, a: Application)
    requires a.source != "" && '/' !in a.source
    ensures JoinsOnly(sources, a, a.source)
  {
    PlainReference(a.source);
    NamedJoins(sources, a, a.source);
  }

  // ---------- one cluster's graph ----------

  function ToneOf(s: Source, a: Application): EdgeTone {
    if s.status == Failing || a.status == Failing then ToneErr
    else if s.status == Degraded || a.status == Degraded then ToneWarn
    else if a.suspended then ToneMuted
    else ToneOk
  }

  function Matched(apps: seq<Application>, sources: seq<Source>): seq<Application> {
    if apps == [] then []
    else
      var a := apps[|apps| - 1];
      Matched(apps[..|apps| - 1], sources) + if SourceOf(sources, a).Some? then [a] else []
  }

  function Orphans(apps: seq<Application>, sources: seq<Source>): seq<Application> {
    if apps == [] then []
    else
      var a := apps[|apps| - 1];
      Orphans(apps[..|apps| - 1], sources) +
      if ParseSourceRef(a.source).Some? && SourceOf(sources, a).None? then [a] else []
  }

  function RefLess(apps: seq<Application>): seq<Application> {
    if apps == [] then []
    else
      var a := apps[|apps| - 1];
      RefLess(apps[..|apps| - 1]) + if ParseSourceRef(a.source).None? then [a] else []
  }

  /** One edge for each matched application, in the order of the applications. */
  function Edges(apps: seq<Application>, sources: seq<Source>): seq<DepEdge> {
    if apps == [] then []
    else
      var a := apps[|apps| - 1];
      var s := SourceOf(sources, a);
      Edges(apps[..|apps| - 1], sources) +
      if s.Some? then [DepEdge(s.value.id, a.id, ToneOf(s.value, a))] else []
  }

  function SourceIds(edges: seq<DepEdge>): set<string> {
    set e | e in edges :: e.sourceId
  }

  /** The sources whose id is (`wanted`) or is not in the set, in order. */
  function WithIds(sources: seq<Source>, ids: set<string>, wanted: bool): seq<Source> {
    if sources == [] then []
    else
      var s := sources[|sources| - 1];
      WithIds(sources[..|sources| - 1], ids, wanted) + if (s.id in ids) == wanted then [s] else []
  }

  function Rank(s: Status): nat {
    match s
    case Failing => 0
    case Degraded => 1
    case Progressing => 2
    case _ => 3
  }

  predicate SeverityLess(collate: Collation, s1: Status, n1: string, s2: Status, n2: string) {
    if Rank(s1) != Rank(s2) then Rank(s1) < Rank(s2) else collate(n1, n2)
  }

  function AppOrder(collate: Collation): (Application, Application) -> bool {
    (a: Application, b: Application) => SeverityLess(collate, a.status, a.name, b.status, b.name)
  }

  function SourceOrder(collate: Collation): (Source, Source) -> bool {
    (a: Source, b: Source) => SeverityLess(collate, a.status, a.name, b.status, b.name)
  }

  function GraphOrder(collate: Collation): (ClusterDepGraph, ClusterDepGraph) -> bool {
    (a: ClusterDepGraph, b: ClusterDepGraph) => collate(a.clusterName, b.clusterName)
  }

  lemma CollationIsWeak(collate: Collation, a: string, b: string, c: string)
    ensures collate(a, b) ==> !collate(b, a)
    ensures !collate(b, a) && !collate(c, b) ==> !collate(c, a)
  {
  }

  lemma OrdersAreStrictWeak(collate: Collation)
    ensures StrictWeak(AppOrder(collate)) && StrictWeak(SourceOrder(collate)) && StrictWeak(GraphOrder(collate))
  {
    var apps, sources, graphs := AppOrder(collate), SourceOrder(collate), GraphOrder(collate);
    forall a, b, c
      ensures apps(a, b) ==> !apps(b, a)
      ensures !apps(b, a) && !apps(c, b) ==> !apps(c, a)
    {
      CollationIsWeak(collate, a.name, b.name, c.name);
    }
    forall a, b, c
      ensures sources(a, b) ==> !sources(b, a)
      ensures !sources(b, a) && !sources(c, b) ==> !sources(c, a)
    {
      CollationIsWeak(collate, a.name, b.name, c.name);
    }
    forall a, b, c
      ensures graphs(a, b) ==> !graphs(b, a)
      ensures !graphs(b, a) && !graphs(c, b) ==> !graphs(c, a)
    {
      CollationIsWeak(collate, a.clusterName, b.clusterName, c.clusterName);
    }
  }

  /** `g` is the graph of these applications and sources of one cluster. */
  ghost predicate IsGraphOf(g: ClusterDepGraph, apps: seq<Application>, sources: seq<Source>, collate: Collation) {
    && g.edges == Edges(apps, sources)
    && multiset(g.apps) == multiset(Matched(apps, sources)) && Sorted(g.apps, AppOrder(collate))
    && multiset(g.orphanApps) == multiset(Orphans(apps, sources)) && Sorted(g.orphanApps, AppOrder(collate))
    && multiset(g.sources) == multiset(WithIds(sources, SourceIds(g.edges), true))
    && Sorted(g.sources, SourceOrder(collate))
    && multiset(g.unusedSources) == multiset(WithIds(sources, SourceIds(g.edges), false))
    && Sorted(g.unusedSources, SourceOrder(collate))
  }

  // ---------- what a graph says about the join ----------

  ghost predicate DistinctIds(sources: seq<Source>) {
    forall s, s' | s in sources && s' in sources && s.id == s'.id :: s == s'
  }

  lemma {:induction false} AppsSplit(apps: seq<Application>, sources: seq<Source>)
    ensures multiset(apps) ==
            multiset(Matched(apps, sources)) + multiset(Orphans(apps, sources)) + multiset(RefLess(apps))
    decreases |apps|
  {
    if apps != [] {
      assert apps == apps[..|apps| - 1] + [apps[|apps| - 1]];
      AppsSplit(apps[..|apps| - 1], sources);
    }
  }

  lemma {:induction false} AppsClassified(apps: seq<Application>, sources: seq<Source>, a: Application)
    ensures a in Matched(apps, sources) <==> a in apps && SourceOf(sources, a).Some?
    ensures a in Orphans(apps, sources) <==> a in apps && ParseSourceRef(a.source).Some? && SourceOf(sources, a).None?
    decreases |apps|
  {
    if apps != [] {
      assert apps == apps[..|apps| - 1] + [apps[|apps| - 1]];
      AppsClassified(apps[..|apps| - 1], sources, a);
    }
  }

  lemma {:induction false} SourcesSplit(sources: seq<Source>, ids: set<string>)
    ensures multiset(sources) == multiset(WithIds(sources, ids, true)) + multiset(WithIds(sources, ids, false))
    decreases |sources|
  {
    if sources != [] {
      assert sources == sources[..|sources| - 1] + [sources[|sources| - 1]];
      SourcesSplit(sources[..|sources| - 1], ids);
    }
  }

  lemma {:induction false} WithIdsHas(sources: seq<Source>, ids: set<string>, wanted: bool, s: Source)
    ensures s in WithIds(sources, ids, wanted) <==> s in sources && (s.id in ids) == wanted
    decreases |sources|
  {
    if sources != [] {
      assert sources == sources[..|sources| - 1] + [sources[|sources| - 1]];
      WithIdsHas(sources[..|sources| - 1], ids, wanted, s);
    }
  }

  /** The edge of one matched application. */
  function EdgeOf(sources: seq<Source>, a: Application): DepEdge
    requires SourceOf(sources, a).Some?
  {
    DepEdge(SourceOf(sources, a).value.id, a.id, ToneOf(SourceOf(sources, a).value, a))
  }

  lemma {:induction false} OneEdgeEach(apps: seq<Application>, sources: seq<Source>)
    ensures |Edges(apps, sources)| == |Matched(apps, sources)|
    ensures forall i | 0 <= i < |Edges(apps, sources)| ::
              && SourceOf(sources, Matched(apps, sources)[i]).Some?
              && Edges(apps, sources)[i] == EdgeOf(sources, Matched(apps, sources)[i])
    decreases |apps|
  {
    if apps != [] {
      OneEdgeEach(apps[..|apps| - 1], sources);
    }
  }

  lemma {:induction false} LastExactIsListed(sources: seq<Source>, ns: string, kind: string, name: string)
    ensures LastExact(sources, ns, kind, name).Some? ==> LastExact(sources, ns, kind, name).value in sources
    decreases |sources|
  {
    if sources != [] {
      LastExactIsListed(sources[..|sources| - 1], ns, kind, name);
    }
  }

  lemma {:induction false} NamedAreListed(sources: seq<Source>, ns: string, name: string)
    ensures forall s | s in Named(sources, ns, name) :: s in sources
    decreases |sources|
  {
    if sources != [] {
      NamedAreListed(sources[..|sources| - 1], ns, name);
    }
  }

  lemma JoinedIsListed(sources: seq<Source>, a: Application)
    requires Joined(sources, a).Some?
    ensures Joined(sources, a).value in sources
  {
    var ref := ParseSourceRef(a.source).value;
    LastExactIsListed(sources, a.ns, ref.kind, ref.name);
    NamedAreListed(sources, a.ns, ref.name);
  }

  function AppIds(edges: seq<DepEdge>): set<string> {
    set e | e in edges :: e.appId
  }

  function ListedSources(sources: seq<Source>): set<string> {
    set s | s in sources :: s.id
  }

  function ListedApps(apps: seq<Application>): set<string> {
    set a | a in apps :: a.id
  }

  /** Each edge has its ends in the lists, and each listed source and application has an edge. */
  ghost predicate WellFormed(g: ClusterDepGraph) {
    SourceIds(g.edges) == ListedSources(g.sources) && AppIds(g.edges) == ListedApps(g.apps)
  }

  /** The names that make up the index keys hold no slash, as Kubernetes guarantees. */
  ghost predicate KeysAreSafe(apps: seq<Application>, sources: seq<Source>) {
    SlashFree(sources) && forall a | a in apps :: '/' !in a.ns
  }

  /** The applications split into matched, orphan and reference-less ones, by the join. */
  lemma GraphSplitsApps(g: ClusterDepGraph, apps: seq<Application>, sources: seq<Source>, collate: Collation)
    requires IsGraphOf(g, apps, sources, collate) && KeysAreSafe(apps, sources)
    ensures multiset(apps) == multiset(g.apps) + multiset(g.orphanApps) + multiset(RefLess(apps))
    ensures forall a :: a in g.apps <==> a in apps && Joined(sources, a).Some?
    ensures forall a :: a in g.orphanApps <==>
                        a in apps && ParseSourceRef(a.source).Some? && Joined(sources, a).None?
  {
    AppsSplit(apps, sources);
    forall a ensures a in g.apps <==> a in apps && Joined(sources, a).Some? {
      AppsClassified(apps, sources, a);
      assert a in g.apps <==> a in multiset(g.apps);
      if a in apps { LookupIsJoin(sources, a); }
    }
    forall a
      ensures a in g.orphanApps <==> a in apps && ParseSourceRef(a.source).Some? && Joined(sources, a).None?
    {
      AppsClassified(apps, sources, a);
      assert a in g.orphanApps <==> a in multiset(g.orphanApps);
      if a in apps { LookupIsJoin(sources, a); }
    }
  }

  /** Every matched application has exactly one edge, from the source that the join gives it. */
  lemma GraphEdgesAreTheJoin(g: ClusterDepGraph, apps: seq<Application>, sources: seq<Source>, collate: Collation)
    requires IsGraphOf(g, apps, sources, collate) && KeysAreSafe(apps, sources)
    ensures |g.edges| == |Matched(apps, sources)|
    ensures forall i | 0 <= i < |g.edges| ::
              var a := Matched(apps, sources)[i];
              && a in apps && Joined(sources, a).Some?
              && g.edges[i] == DepEdge(Joined(sources, a).value.id, a.id, ToneOf(Joined(sources, a).value, a))
    ensures forall a | a in apps && Joined(sources, a).Some? :: a in Matched(apps, sources)
  {
    OneEdgeEach(apps, sources);
    forall i | 0 <= i < |g.edges|
      ensures Matched(apps, sources)[i] in apps
      ensures SourceOf(sources, Matched(apps, sources)[i]) == Joined(sources, Matched(apps, sources)[i])
    {
      AppsClassified(apps, sources, Matched(apps, sources)[i]);
      LookupIsJoin(sources, Matched(apps, sources)[i]);
    }
    forall a | a in apps && Joined(sources, a).Some? ensures a in Matched(apps, sources) {
      AppsClassified(apps, sources, a);
      LookupIsJoin(sources, a);
    }
  }

  /** The tone of an edge: the worst of its ends, and muted when all is well but the application is suspended. */
  ghost predicate HasTone(e: DepEdge, s: Source, a: Application) {
    && (e.tone == ToneErr <==> s.status == Failing || a.status == Failing)
    && (e.tone == ToneWarn <==>
          s.status != Failing && a.status != Failing && (s.status == Degraded || a.status == Degraded))
    && (e.tone == ToneMuted <==>
          s.status != Failing && a.status != Failing && s.status != Degraded && a.status != Degraded && a.suspended)
  }

  /** An application that the join gives a source is linked to it, and is no orphan. */
  lemma JoinedIsLinked(g: ClusterDepGraph, apps: seq<Application>, sources: seq<Source>, collate: Collation,
                       a: Application, s: Source)
    requires IsGraphOf(g, apps, sources, collate) && KeysAreSafe(apps, sources)
    requires a in apps && Joined(sources, a) == Some(s)
    ensures a in g.apps && a !in g.orphanApps
    ensures exists e :: e in g.edges && e.sourceId == s.id && e.appId == a.id && HasTone(e, s, a)
  {
    GraphSplitsApps(g, apps, sources, collate);
    GraphEdgesAreTheJoin(g, apps, sources, collate);
    var i :| 0 <= i < |g.edges| && Matched(apps, sources)[i] == a;
    var e := g.edges[i];
    assert e in g.edges && HasTone(e, s, a);
  }

  /**
   An application whose source reads "Kind/name", for the kind and name of a source in its
   namespace, is linked to the last such source.
   */
  lemma ReferenceIsLinked(g: ClusterDepGraph, apps: seq<Application>, sources: seq<Source>, collate: Collation,
                          a: Application, i: nat)
    requires IsGraphOf(g, apps, sources, collate) && KeysAreSafe(apps, sources)
    requires a in apps && i < |sources|
    requires var s := sources[i]; s.kind != "" && s.ns == a.ns && a.source == s.kind + "/" + s.name
    requires forall j | i < j < |sources| :: !IsExact(sources[j], a.ns, sources[i].kind, sources[i].name)
    ensures a in g.apps
    ensures exists e :: e in g.edges && e.sourceId == sources[i].id && e.appId == a.id && HasTone(e, sources[i], a)
  {
    assert sources[i] in sources;
    KindedJoin(sources, a, sources[i].kind, sources[i].name);
    JoinedIsLinked(g, apps, sources, collate, a, sources[i]);
  }

  /** Failing before degraded before progressing before the rest, and by name among equals. */
  ghost predicate BySeverity(s1: Status, n1: string, s2: Status, n2: string, collate: Collation) {
    && (s2 == Failing ==> s1 == Failing)
    && (s2 == Degraded ==> s1 == Failing || s1 == Degraded)
    && (s2 == Progressing ==> s1 == Failing || s1 == Degraded || s1 == Progressing)
    && (s1 == s2 ==> !collate(n2, n1))
  }

  /** All four lists of a graph are by severity and name. */
  lemma ListsAreBySeverity(g: ClusterDepGraph, apps: seq<Application>, sources: seq<Source>, collate: Collation)
    requires IsGraphOf(g, apps, sources, collate)
    ensures forall i, j | 0 <= i < j < |g.apps| ::
              BySeverity(g.apps[i].status, g.apps[i].name, g.apps[j].status, g.apps[j].name, collate)
    ensures forall i, j | 0 <= i < j < |g.orphanApps| ::
              BySeverity(g.orphanApps[i].status, g.orphanApps[i].name,
                         g.orphanApps[j].status, g.orphanApps[j].name, collate)
    ensures forall i, j | 0 <= i < j < |g.sources| ::
              BySeverity(g.sources[i].status, g.sources[i].name, g.sources[j].status, g.sources[j].name, collate)
    ensures forall i, j | 0 <= i < j < |g.unusedSources| ::
              BySeverity(g.unusedSources[i].status, g.unusedSources[i].name,
                         g.unusedSources[j].status, g.unusedSources[j].name, collate)
  {
    AppsBySeverity(g.apps, collate);
    AppsBySeverity(g.orphanApps, collate);
    SourcesBySeverity(g.sources, collate);
    SourcesBySeverity(g.unusedSources, collate);
  }

  /** The graphs are by display name. */
  lemma GraphsByName(graphs: seq<ClusterDepGraph>, collate: Collation)
    requires Sorted(graphs, GraphOrder(collate))
    ensures forall i, j | 0 <= i < j < |graphs| :: !collate(graphs[j].clusterName, graphs[i].clusterName)
  {
    forall i, j | 0 <= i < j < |graphs| ensures !collate(graphs[j].clusterName, graphs[i].clusterName) {
      assert !GraphOrder(collate)(graphs[j], graphs[i]);
    }
  }

  lemma AppsBySeverity(apps: seq<Application>, collate: Collation)
    requires Sorted(apps, AppOrder(collate))
    ensures forall i, j | 0 <= i < j < |apps| ::
              BySeverity(apps[i].status, apps[i].name, apps[j].status, apps[j].name, collate)
  {
    forall i, j | 0 <= i < j < |apps|
      ensures BySeverity(apps[i].status, apps[i].name, apps[j].status, apps[j].name, collate)
    {
      assert !AppOrder(collate)(apps[j], apps[i]);
    }
  }

  lemma SourcesBySeverity(sources: seq<Source>, collate: Collation)
    requires Sorted(sources, SourceOrder(collate))
    ensures forall i, j | 0 <= i < j < |sources| ::
              BySeverity(sources[i].status, sources[i].name, sources[j].status, sources[j].name, collate)
  {
    forall i, j | 0 <= i < j < |sources|
      ensures BySeverity(sources[i].status, sources[i].name, sources[j].status, sources[j].name, collate)
    {
      assert !SourceOrder(collate)(sources[j], sources[i]);
    }
  }

  /** The ids that the edges leave from are those of the joined sources. */
  lemma EdgeSourcesAreJoined(g: ClusterDepGraph, apps: seq<Application>, sources: seq<Source>, collate: Collation,
                             id: string)
    requires IsGraphOf(g, apps, sources, collate) && KeysAreSafe(apps, sources)
    ensures id in SourceIds(g.edges) <==>
            exists a :: a in apps && Joined(sources, a).Some? && Joined(sources, a).value.id == id
  {
    GraphEdgesAreTheJoin(g, apps, sources, collate);
    if id in SourceIds(g.edges) {
      var i :| 0 <= i < |g.edges| && g.edges[i].sourceId == id;
      var a := Matched(apps, sources)[i];
      assert a in apps && Joined(sources, a).Some? && Joined(sources, a).value.id == id;
    }
    if a :| a in apps && Joined(sources, a).Some? && Joined(sources, a).value.id == id {
      var i :| 0 <= i < |g.edges| && Matched(apps, sources)[i] == a;
      assert g.edges[i] in g.edges;
    }
  }

  /** The sources split into used and unused ones: used is what the join gives to some application. */
  lemma GraphSplitsSources(g: ClusterDepGraph, apps: seq<Application>, sources: seq<Source>, collate: Collation)
    requires IsGraphOf(g, apps, sources, collate) && KeysAreSafe(apps, sources) && DistinctIds(sources)
    ensures multiset(sources) == multiset(g.sources) + multiset(g.unusedSources)
    ensures forall s :: s in g.sources <==> exists a :: a in apps && Joined(sources, a) == Some(s)
  {
    SourcesSplit(sources, SourceIds(g.edges));
    forall s ensures s in g.sources <==> exists a :: a in apps && Joined(sources, a) == Some(s) {
      UsedIsJoined(g, apps, sources, collate, s);
    }
  }

  lemma UsedIsJoined(g: ClusterDepGraph, apps: seq<Application>, sources: seq<Source>, collate: Collation, s: Source)
    requires IsGraphOf(g, apps, sources, collate) && KeysAreSafe(apps, sources) && DistinctIds(sources)
    ensures s in g.sources <==> exists a :: a in apps && Joined(sources, a) == Some(s)
  {
    WithIdsHas(sources, SourceIds(g.edges), true, s);
    assert s in g.sources <==> s in multiset(g.sources);
    EdgeSourcesAreJoined(g, apps, sources, collate, s.id);
    forall a | a in apps && Joined(sources, a).Some? ensures Joined(sources, a).value in sources {
      JoinedIsListed(sources, a);
    }
  }

  lemma GraphIsWellFormed(g: ClusterDepGraph, apps: seq<Application>, sources: seq<Source>, collate: Collation)
    requires IsGraphOf(g, apps, sources, collate) && KeysAreSafe(apps, sources) && DistinctIds(sources)
    ensures WellFormed(g)
  {
    assert SourceIds(g.edges) == ListedSources(g.sources) by {
      forall id ensures id in SourceIds(g.edges) <==> id in ListedSources(g.sources) {
        EdgeSourcesAreJoined(g, apps, sources, collate, id);
        GraphSplitsSources(g, apps, sources, collate);
      }
    }
    assert AppIds(g.edges) == ListedApps(g.apps) by {
      OneEdgeEach(apps, sources);
      forall id ensures id in AppIds(g.edges) <==> id in ListedApps(Matched(apps, sources)) {
        MatchedHasEdge(apps, sources, id);
      }
      assert forall a :: a in g.apps <==> a in multiset(g.apps);
      assert forall a :: a in Matched(apps, sources) <==> a in multiset(Matched(apps, sources));
    }
  }

  lemma MatchedHasEdge(apps: seq<Application>, sources: seq<Source>, id: string)
    ensures id in AppIds(Edges(apps, sources)) <==> id in ListedApps(Matched(apps, sources))
  {
    OneEdgeEach(apps, sources);
    var edges, matched := Edges(apps, sources), Matched(apps, sources);
    if id in AppIds(edges) {
      var i :| 0 <= i < |edges| && edges[i].appId == id;
      assert matched[i] in matched;
    }
    if id in ListedApps(matched) {
      var i :| 0 <= i < |matched| && matched[i].id == id;
      assert edges[i] in edges;
    }
  }

  method BuildIndexes(sources: seq<Source>)
    returns (byNsKindName: map<string, Source>, byNsName: map<string, seq<Source>>)
    ensures byNsKindName == KindIndex(sources) && byNsName == NameIndex(sources)
  {
    byNsKindName, byNsName := map[], map[];
    for i := 0 to |sources|
      invariant byNsKindName == KindIndex(sources[..i]) && byNsName == NameIndex(sources[..i])
    {
      assert sources[..i + 1][..i] == sources[..i];
      var s := sources[i];
      byNsKindName := byNsKindName[KindKey(s.ns, s.kind, s.name) := s];
      var k := NameKey(s.ns, s.name);
      if k !in byNsName {
        byNsName := byNsName[k := []];
      }
      byNsName := byNsName[k := byNsName[k] + [s]];
    }
    assert sources[..|sources|] == sources;
  }

  /** The lookup inside the loop over the applications. */
  method LookUp(byNsKindName: map<string, Source>, byNsName: map<string, seq<Source>>,
                ns: string, ref: Ref, ghost sources: seq<Source>)
    returns (src: Option<Source>)
    requires byNsKindName == KindIndex(sources) && byNsName == NameIndex(sources)
    ensures src == Looked(sources, ns, ref)
  {
    src := None;
    if ref.kind != "" && KindKey(ns, ref.kind, ref.name) in byNsKindName {
      src := Some(byNsKindName[KindKey(ns, ref.kind, ref.name)]);
    }
    if src.None? && NameKey(ns, ref.name) in byNsName {
      var candidates := byNsName[NameKey(ns, ref.name)];
      if |candidates| == 1 {
        src := Some(candidates[0]);
      } else if |candidates| > 1 && ref.kind != "" {
        src := FindKind(candidates, ref.kind);
      }
    }
  }

  method SelectSources(sources: seq<Source>, ids: set<string>, wanted: bool) returns (out: seq<Source>)
    ensures out == WithIds(sources, ids, wanted)
  {
    out := [];
    for i := 0 to |sources|
      invariant out == WithIds(sources[..i], ids, wanted)
    {
      assert sources[..i + 1][..i] == sources[..i];
      if (sources[i].id in ids) == wanted {
        out := out + [sources[i]];
      }
    }
    assert sources[..|sources|] == sources;
  }

  method BuildGraph(clusterId: string, name: string, apps: seq<Application>, sources: seq<Source>, collate: Collation)
    returns (g: ClusterDepGraph)
    ensures IsGraphOf(g, apps, sources, collate)
    ensures g.clusterId == clusterId && g.clusterName == name
  {
    var byNsKindName, byNsName := BuildIndexes(sources);
    var edges: seq<DepEdge> := [];
    var orphanApps: seq<Application> := [];
    var usedSources: set<string> := {};
    var matchedApps: seq<Application> := [];
    for i := 0 to |apps|
      invariant edges == Edges(apps[..i], sources)
      invariant orphanApps == Orphans(apps[..i], sources)
      invariant matchedApps == Matched(apps[..i], sources)
      invariant usedSources == SourceIds(edges)
    {
      assert apps[..i + 1][..i] == apps[..i];
      var a := apps[i];
      var ref := ParseSourceRef(a.source);
      if ref.Some? {
        var src := LookUp(byNsKindName, byNsName, a.ns, ref.value, sources);
        if src.None? {
          orphanApps := orphanApps + [a];
        } else {
          matchedApps := matchedApps + [a];
          usedSources := usedSources + {src.value.id};
          edges := edges + [DepEdge(src.value.id, a.id, ToneOf(src.value, a))];
        }
      }
    }
    assert apps[..|apps|] == apps;
    var used := SelectSources(sources, usedSources, true);
    var unused := SelectSources(sources, usedSources, false);
    OrdersAreStrictWeak(collate);
    used := Sort(used, SourceOrder(collate));
    unused := Sort(unused, SourceOrder(collate));
    matchedApps := Sort(matchedApps, AppOrder(collate));
    orphanApps := Sort(orphanApps, AppOrder(collate));
    g := ClusterDepGraph(clusterId, name, used, matchedApps, edges, orphanApps, unused);
  }

  // ---------- grouping by cluster ----------

  datatype Bucket = Bucket(name: string, apps: seq<Application>, sources: seq<Source>)

  /** JavaScript's Map: entries with their insertion order. */
  datatype Buckets = Buckets(entries: map<string, Bucket>, order: seq<string>)

  function AppsOf(apps: seq<Application>, clusterId: string): seq<Application> {
    if apps == [] then []
    else
      var a := apps[|apps| - 1];
      AppsOf(apps[..|apps| - 1], clusterId) + if a.clusterId == clusterId then [a] else []
  }

  function SourcesOf(sources: seq<Source>, clusterId: string): seq<Source> {
    if sources == [] then []
    else
      var s := sources[|sources| - 1];
      SourcesOf(sources[..|sources| - 1], clusterId) + if s.clusterId == clusterId then [s] else []
  }

  /** The cluster names (id and display name) as the applications and then the sources mention them. */
  function Mentions(apps: seq<Application>, sources: seq<Source>): seq<(string, string)> {
    seq(|apps|, i requires 0 <= i < |apps| => (apps[i].clusterId, apps[i].cluster)) +
    seq(|sources|, i requires 0 <= i < |sources| => (sources[i].clusterId, sources[i].cluster))
  }

  lemma {:induction false} AppsOfHas(apps: seq<Application>, clusterId: string, a: Application)
    ensures a in AppsOf(apps, clusterId) <==> a in apps && a.clusterId == clusterId
    decreases |apps|
  {
    if apps != [] {
      assert apps == apps[..|apps| - 1] + [apps[|apps| - 1]];
      AppsOfHas(apps[..|apps| - 1], clusterId, a);
    }
  }

  lemma {:induction false} SourcesOfHas(sources: seq<Source>, clusterId: string, s: Source)
    ensures s in SourcesOf(sources, clusterId) <==> s in sources && s.clusterId == clusterId
    decreases |sources|
  {
    if sources != [] {
      assert sources == sources[..|sources| - 1] + [sources[|sources| - 1]];
      SourcesOfHas(sources[..|sources| - 1], clusterId, s);
    }
  }

  /** The display name of a cluster's first mention. */
  function FirstName(mentions: seq<(string, string)>, clusterId: string): Option<string> {
    if mentions == [] then None
    else
      var front := FirstName(mentions[..|mentions| - 1], clusterId);
      var last := mentions[|mentions| - 1];
      if front.Some? then front else if last.0 == clusterId then Some(last.1) else None
  }

  lemma {:induction false} FirstNameIs(mentions: seq<(string, string)>, clusterId: string, i: nat)
    requires i < |mentions| && mentions[i].0 == clusterId
    requires forall j | 0 <= j < i :: mentions[j].0 != clusterId
    ensures FirstName(mentions, clusterId) == Some(mentions[i].1)
    decreases |mentions|
  {
    var front := mentions[..|mentions| - 1];
    if i < |front| {
      FirstNameIs(front, clusterId, i);
    } else {
      NotNamed(front, clusterId);
    }
  }

  lemma {:induction false} NotNamed(mentions: seq<(string, string)>, clusterId: string)
    requires forall j | 0 <= j < |mentions| :: mentions[j].0 != clusterId
    ensures FirstName(mentions, clusterId) == None
    decreases |mentions|
  {
    if mentions != [] {
      NotNamed(mentions[..|mentions| - 1], clusterId);
    }
  }

  function Seed(b: Buckets, clusterId: string, name: string): Buckets {
    if clusterId in b.entries then b
    else Buckets(b.entries[clusterId := Bucket(name, [], [])], b.order + [clusterId])
  }

  /** The buckets hold what was mentioned so far: `apps` and `sources`, each under its cluster. */
  ghost predicate Holds(b: Buckets, apps: seq<Application>, sources: seq<Source>) {
    && (forall c :: c in b.order <==> c in b.entries)
    && (forall i, j :: 0 <= i < j < |b.order| ==> b.order[i] != b.order[j])
    && (forall c :: c in b.entries <==> FirstName(Mentions(apps, sources), c).Some?)
    && (forall c | c in b.entries ::
          b.entries[c] ==
          Bucket(FirstName(Mentions(apps, sources), c).value, AppsOf(apps, c), SourcesOf(sources, c)))
  }

  lemma {:induction false} FirstNameFinds(mentions: seq<(string, string)>, c: string)
    ensures FirstName(mentions, c).None? <==> forall m | m in mentions :: m.0 != c
    decreases |mentions|
  {
    if mentions != [] {
      FirstNameFinds(mentions[..|mentions| - 1], c);
    }
  }

  lemma {:induction false} AppsMention(apps: seq<Application>, c: string)
    ensures AppsOf(apps, c) != [] ==> exists a :: a in apps && a.clusterId == c
    decreases |apps|
  {
    if apps != [] {
      AppsMention(apps[..|apps| - 1], c);
    }
  }

  lemma {:induction false} SourcesMention(sources: seq<Source>, c: string)
    ensures SourcesOf(sources, c) != [] ==> exists s :: s in sources && s.clusterId == c
    decreases |sources|
  {
    if sources != [] {
      SourcesMention(sources[..|sources| - 1], c);
    }
  }

  /** A cluster that is not mentioned has no applications and no sources. */
  lemma NotMentioned(apps: seq<Application>, sources: seq<Source>, c: string)
    requires FirstName(Mentions(apps, sources), c).None?
    ensures AppsOf(apps, c) == [] && SourcesOf(sources, c) == []
  {
    var mentions := Mentions(apps, sources);
    FirstNameFinds(mentions, c);
    forall i | 0 <= i < |apps| ensures apps[i].clusterId != c {
      assert mentions[i] in mentions;
    }
    forall i | 0 <= i < |sources| ensures sources[i].clusterId != c {
      assert mentions[|apps| + i] in mentions;
    }
    AppsMention(apps, c);
    SourcesMention(sources, c);
  }

  method Group(apps: seq<Application>, sources: seq<Source>) returns (b: Buckets)
    ensures Holds(b, apps, sources)
  {
    b := Buckets(map[], []);
    for i := 0 to |apps|
      invariant Holds(b, apps[..i], [])
    {
      b := AddApp(b, apps[i], apps[..i]);
      assert apps[..i + 1] == apps[..i] + [apps[i]];
    }
    assert apps[..|apps|] == apps;
    for i := 0 to |sources|
      invariant Holds(b, apps, sources[..i])
    {
      b := AddSource(b, sources[i], apps, sources[..i]);
      assert sources[..i + 1] == sources[..i] + [sources[i]];
    }
    assert sources[..|sources|] == sources;
  }

  /** One more mention: what it changes for each cluster. */
  lemma MentionApp(apps: seq<Application>, a: Application, c: string)
    ensures FirstName(Mentions(apps + [a], []), c) ==
            if FirstName(Mentions(apps, []), c).None? && a.clusterId == c then Some(a.cluster)
            else FirstName(Mentions(apps, []), c)
    ensures AppsOf(apps + [a], c) == AppsOf(apps, c) + if a.clusterId == c then [a] else []
  {
    assert (apps + [a])[..|apps|] == apps;
    assert Mentions(apps + [a], []) == Mentions(apps, []) + [(a.clusterId, a.cluster)];
    assert Mentions(apps + [a], [])[..|apps|] == Mentions(apps, []);
  }

  lemma MentionSource(apps: seq<Application>, sources: seq<Source>, s: Source, c: string)
    ensures FirstName(Mentions(apps, sources + [s]), c) ==
            if FirstName(Mentions(apps, sources), c).None? && s.clusterId == c then Some(s.cluster)
            else FirstName(Mentions(apps, sources), c)
    ensures SourcesOf(sources + [s], c) == SourcesOf(sources, c) + if s.clusterId == c then [s] else []
  {
    assert (sources + [s])[..|sources|] == sources;
    assert Mentions(apps, sources + [s]) == Mentions(apps, sources) + [(s.clusterId, s.cluster)];
    assert Mentions(apps, sources + [s])[..|apps| + |sources|] == Mentions(apps, sources);
  }

  method AddApp(b: Buckets, a: Application, ghost apps: seq<Application>) returns (b': Buckets)
    requires Holds(b, apps, [])
    ensures Holds(b', apps + [a], [])
  {
    if a.clusterId !in b.entries { NotMentioned(apps, [], a.clusterId); }
    b' := Seed(b, a.clusterId, a.cluster);
    var bucket := b'.entries[a.clusterId];
    b' := b'.(entries := b'.entries[a.clusterId := bucket.(apps := bucket.apps + [a])]);
    forall c ensures FirstName(Mentions(apps + [a], []), c).Some? <==> c in b'.entries {
      MentionApp(apps, a, c);
    }
    forall c | c in b'.entries
      ensures b'.entries[c] ==
              Bucket(FirstName(Mentions(apps + [a], []), c).value, AppsOf(apps + [a], c), SourcesOf([], c))
    {
      MentionApp(apps, a, c);
    }
  }

  method AddSource(b: Buckets, s: Source, ghost apps: seq<Application>, ghost sources: seq<Source>)
    returns (b': Buckets)
    requires Holds(b, apps, sources)
    ensures Holds(b', apps, sources + [s])
  {
    if s.clusterId !in b.entries { NotMentioned(apps, sources, s.clusterId); }
    b' := Seed(b, s.clusterId, s.cluster);
    var bucket := b'.entries[s.clusterId];
    b' := b'.(entries := b'.entries[s.clusterId := bucket.(sources := bucket.sources + [s])]);
    forall c ensures FirstName(Mentions(apps, sources + [s]), c).Some? <==> c in b'.entries {
      MentionSource(apps, sources, s, c);
    }
    forall c | c in b'.entries
      ensures b'.entries[c] ==
              Bucket(FirstName(Mentions(apps, sources + [s]), c).value, AppsOf(apps, c), SourcesOf(sources + [s], c))
    {
      MentionSource(apps, sources, s, c);
    }
  }

  function Ids(graphs: seq<ClusterDepGraph>): seq<string> {
    seq(|graphs|, i requires 0 <= i < |graphs| => graphs[i].clusterId)
  }

  /** The graph is that of its cluster, under the cluster's first display name. */
  ghost predicate IsClusterGraph(g: ClusterDepGraph, apps: seq<Application>, sources: seq<Source>, collate: Collation) {
    && FirstName(Mentions(apps, sources), g.clusterId) == Some(g.clusterName)
    && IsGraphOf(g, AppsOf(apps, g.clusterId), SourcesOf(sources, g.clusterId), collate)
  }

  ghost predicate AreGraphsOf(graphs: seq<ClusterDepGraph>, apps: seq<Application>, sources: seq<Source>,
                              collate: Collation)
  {
    forall g | g in graphs :: IsClusterGraph(g, apps, sources, collate)
  }

  /** There is exactly one graph for each cluster that is mentioned, and none for any other. */
  ghost predicate OnePerCluster(graphs: seq<ClusterDepGraph>, apps: seq<Application>, sources: seq<Source>) {
    && (forall c :: c in Ids(graphs) <==> FirstName(Mentions(apps, sources), c).Some?)
    && (forall i, j :: 0 <= i < j < |graphs| ==> graphs[i].clusterId != graphs[j].clusterId)
  }

  method BuildClusterGraphs(apps: seq<Application>, sources: seq<Source>, collate: Collation)
    returns (result: seq<ClusterDepGraph>)
    ensures AreGraphsOf(result, apps, sources, collate)
    ensures OnePerCluster(result, apps, sources)
    ensures Sorted(result, GraphOrder(collate))
  {
    var b := Group(apps, sources);
    var graphs := BuildAll(b, apps, sources, collate);
    OrdersAreStrictWeak(collate);
    result := Sort(graphs, GraphOrder(collate));
    Rearranged(result, graphs, apps, sources);
  }

  /** The graphs of the first buckets, in order, each as it should be. */
  ghost predicate Built(graphs: seq<ClusterDepGraph>, order: seq<string>, right: ClusterDepGraph -> bool) {
    Ids(graphs) <= order && forall g | g in graphs :: right(g)
  }

  /** One turn of the loop over the buckets. */
  lemma BuiltNext(graphs: seq<ClusterDepGraph>, g: ClusterDepGraph, order: seq<string>, right: ClusterDepGraph -> bool)
    requires Built(graphs, order, right) && |graphs| < |order|
    requires g.clusterId == order[|graphs|] && right(g)
    ensures Built(graphs + [g], order, right)
  {
    assert Ids(graphs + [g]) == Ids(graphs) + [g.clusterId];
  }

  lemma BuiltAll(b: Buckets, graphs: seq<ClusterDepGraph>, apps: seq<Application>, sources: seq<Source>)
    requires Holds(b, apps, sources) && Ids(graphs) == b.order
    ensures OnePerCluster(graphs, apps, sources)
  {
    forall i, j | 0 <= i < j < |graphs| ensures graphs[i].clusterId != graphs[j].clusterId {
      assert Ids(graphs)[i] == b.order[i] && Ids(graphs)[j] == b.order[j];
    }
  }

  /** The loop over the buckets, in the order in which they were made. */
  method BuildAll(b: Buckets, ghost apps: seq<Application>, ghost sources: seq<Source>, collate: Collation)
    returns (graphs: seq<ClusterDepGraph>)
    requires Holds(b, apps, sources)
    ensures AreGraphsOf(graphs, apps, sources, collate)
    ensures OnePerCluster(graphs, apps, sources)
  {
    graphs := [];
    ghost var right := g => IsClusterGraph(g, apps, sources, collate);
    for i := 0 to |b.order|
      invariant |graphs| == i && Built(graphs, b.order, right)
    {
      assert b.order[i] in b.order;
      var g := BuildBucket(b, b.order[i], apps, sources, collate);
      BuiltNext(graphs, g, b.order, right);
      graphs := graphs + [g];
    }
    BuiltAll(b, graphs, apps, sources);
  }

  method BuildBucket(b: Buckets, c: string, ghost apps: seq<Application>, ghost sources: seq<Source>,
                     collate: Collation)
    returns (g: ClusterDepGraph)
    requires Holds(b, apps, sources) && c in b.entries
    ensures g.clusterId == c && IsClusterGraph(g, apps, sources, collate)
  {
    var bucket := b.entries[c];
    g := BuildGraph(c, bucket.name, bucket.apps, bucket.sources, collate);
  }

  /** Sorting keeps one graph per cluster. */
  lemma Rearranged(xs: seq<ClusterDepGraph>, ys: seq<ClusterDepGraph>, apps: seq<Application>, sources: seq<Source>)
    requires multiset(xs) == multiset(ys) && OnePerCluster(ys, apps, sources)
    ensures OnePerCluster(xs, apps, sources)
    ensures forall g :: g in xs <==> g in ys
  {
    assert forall g :: g in xs <==> g in multiset(xs);
    assert forall g :: g in ys <==> g in multiset(ys);
    SameIds(xs, ys);
    SameIds(ys, xs);
    forall i, j | 0 <= i < j < |xs| ensures xs[i].clusterId != xs[j].clusterId {
      if xs[i].clusterId == xs[j].clusterId {
        DistinctOnce(ys, xs[i], xs[j]);
        TwiceInMultiset(xs, i, j);
      }
    }
  }

  lemma SameIds(xs: seq<ClusterDepGraph>, ys: seq<ClusterDepGraph>)
    requires forall g :: g in xs ==> g in ys
    ensures forall c :: c in Ids(xs) ==> c in Ids(ys)
  {
    forall c | c in Ids(xs) ensures c in Ids(ys) {
      var i :| 0 <= i < |xs| && Ids(xs)[i] == c;
      assert xs[i] in ys;
      var j :| 0 <= j < |ys| && ys[j] == xs[i];
      assert Ids(ys)[j] == c;
    }
  }

  lemma {:induction false} DistinctOnce(ys: seq<ClusterDepGraph>, g: ClusterDepGraph, g': ClusterDepGraph)
    requires forall i, j :: 0 <= i < j < |ys| ==> ys[i].clusterId != ys[j].clusterId
    requires g in ys && g' in ys && g.clusterId == g'.clusterId
    ensures g == g' && multiset(ys)[g] == 1
    decreases |ys|
  {
    var front, last := ys[..|ys| - 1], ys[|ys| - 1];
    assert ys == front + [last];
    if g in front && g' in front {
      DistinctOnce(front, g, g');
      assert g != last;
    } else {
      assert g == last || g' == last;
      assert g !in front && g' !in front;
    }
  }

  lemma TwiceInMultiset(xs: seq<ClusterDepGraph>, i: nat, j: nat)
    requires i < j < |xs| && xs[i] == xs[j]
    ensures multiset(xs)[xs[i]] >= 2
  {
    assert xs == xs[..i] + [xs[i]] + xs[i + 1..j] + [xs[j]] + xs[j + 1..];
  }
}
