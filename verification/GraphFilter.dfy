/** filterGraph of web/src/pages/Dependencies.tsx: the status and search filters of a dependency graph. */
module GraphFilter {
  import opened Wrappers
  import opened DepGraph
  import Text

  datatype StatusFilter = All | OnlyFailing | FailingOrDegraded

  /** The string library of the browser: trim and toLowerCase. */
  datatype Strings = Strings(trim: string -> string, lower: string -> string)

  function Query(lib: Strings, search: string): string {
    lib.lower(lib.trim(search))
  }

  predicate WantStatus(f: StatusFilter, s: Status, suspended: bool) {
    match f
    case All => true
    case OnlyFailing => !suspended && s == Failing
    case FailingOrDegraded => !suspended && (s == Failing || s == Degraded)
  }

  predicate WantSearch(lib: Strings, q: string, fields: seq<string>) {
    q == "" || exists i | 0 <= i < |fields| :: Text.Index(lib.lower(fields[i]), q).Some?
  }

  /** new Map(list.map(x => [x.id, x])).get(id): the last one with that id. */
  function SourceById(sources: seq<Source>, id: string): Option<Source> {
    if sources == [] then None
    else if sources[|sources| - 1].id == id then Some(sources[|sources| - 1])
    else SourceById(sources[..|sources| - 1], id)
  }

  function AppById(apps: seq<Application>, id: string): Option<Application> {
    if apps == [] then None
    else if apps[|apps| - 1].id == id then Some(apps[|apps| - 1])
    else AppById(apps[..|apps| - 1], id)
  }

  /** Both ends survive both filters. */
  predicate Survives(lib: Strings, f: StatusFilter, q: string, g: ClusterDepGraph, e: DepEdge) {
    var s, a := SourceById(g.sources, e.sourceId), AppById(g.apps, e.appId);
    && s.Some? && a.Some?
    && WantStatus(f, s.value.status, s.value.suspended)
    && WantStatus(f, a.value.status, a.value.suspended)
    && WantSearch(lib, q, [s.value.name, s.value.ns, a.value.name, a.value.ns])
  }

  function Surviving(lib: Strings, f: StatusFilter, q: string, g: ClusterDepGraph, edges: seq<DepEdge>): seq<DepEdge> {
    if edges == [] then []
    else
      var e := edges[|edges| - 1];
      Surviving(lib, f, q, g, edges[..|edges| - 1]) + if Survives(lib, f, q, g, e) then [e] else []
  }

  function KeepApps(apps: seq<Application>, ids: set<string>): seq<Application> {
    if apps == [] then []
    else
      var a := apps[|apps| - 1];
      KeepApps(apps[..|apps| - 1], ids) + if a.id in ids then [a] else []
  }

  function KeepSources(sources: seq<Source>, ids: set<string>): seq<Source> {
    WithIds(sources, ids, true)
  }

  predicate WantOrphan(lib: Strings, f: StatusFilter, q: string, a: Application) {
    WantStatus(f, a.status, a.suspended) && WantSearch(lib, q, [a.name, a.ns, a.source])
  }

  predicate WantUnused(lib: Strings, f: StatusFilter, q: string, s: Source) {
    WantStatus(f, s.status, s.suspended) && WantSearch(lib, q, [s.name, s.ns])
  }

  function KeepOrphans(lib: Strings, f: StatusFilter, q: string, apps: seq<Application>): seq<Application> {
    if apps == [] then []
    else
      var a := apps[|apps| - 1];
      KeepOrphans(lib, f, q, apps[..|apps| - 1]) + if WantOrphan(lib, f, q, a) then [a] else []
  }

  function KeepUnused(lib: Strings, f: StatusFilter, q: string, sources: seq<Source>): seq<Source> {
    if sources == [] then []
    else
      var s := sources[|sources| - 1];
      KeepUnused(lib, f, q, sources[..|sources| - 1]) + if WantUnused(lib, f, q, s) then [s] else []
  }

  function Filtered(lib: Strings, g: ClusterDepGraph, f: StatusFilter, search: string): ClusterDepGraph {
    var q := Query(lib, search);
    var edges := Surviving(lib, f, q, g, g.edges);
    g.(sources := KeepSources(g.sources, SourceIds(edges)),
       apps := KeepApps(g.apps, AppIds(edges)),
       edges := edges,
       orphanApps := KeepOrphans(lib, f, q, g.orphanApps),
       unusedSources := KeepUnused(lib, f, q, g.unusedSources))
  }

  /** The map from source ids, filled in list order. */
  function SourceMap(sources: seq<Source>): map<string, Source> {
    if sources == [] then map[]
    else SourceMap(sources[..|sources| - 1])[sources[|sources| - 1].id := sources[|sources| - 1]]
  }

  function AppMap(apps: seq<Application>): map<string, Application> {
    if apps == [] then map[]
    else AppMap(apps[..|apps| - 1])[apps[|apps| - 1].id := apps[|apps| - 1]]
  }

  lemma {:induction false} SourceMapIsById(sources: seq<Source>, id: string)
    ensures SourceById(sources, id) == if id in SourceMap(sources) then Some(SourceMap(sources)[id]) else None
    decreases |sources|
  {
    if sources != [] { SourceMapIsById(sources[..|sources| - 1], id); }
  }

  lemma {:induction false} AppMapIsById(apps: seq<Application>, id: string)
    ensures AppById(apps, id) == if id in AppMap(apps) then Some(AppMap(apps)[id]) else None
    decreases |apps|
  {
    if apps != [] { AppMapIsById(apps[..|apps| - 1], id); }
  }

  method FilterGraph(lib: Strings, g: ClusterDepGraph, f: StatusFilter, search: string) returns (r: ClusterDepGraph)
    ensures r == Filtered(lib, g, f, search)
  {
    var q := lib.lower(lib.trim(search));
    var surviving: seq<DepEdge> := [];
    var sourceById, appById := SourceMap(g.sources), AppMap(g.apps);
    for i := 0 to |g.edges|
      invariant surviving == Surviving(lib, f, q, g, g.edges[..i])
    {
      assert g.edges[..i + 1][..i] == g.edges[..i];
      var e := g.edges[i];
      SourceMapIsById(g.sources, e.sourceId);
      AppMapIsById(g.apps, e.appId);
      if e.sourceId in sourceById && e.appId in appById {
        var s, a := sourceById[e.sourceId], appById[e.appId];
        if WantStatus(f, s.status, s.suspended) {
          if WantStatus(f, a.status, a.suspended) {
            if WantSearch(lib, q, [s.name, s.ns, a.name, a.ns]) {
              surviving := surviving + [e];
            }
          }
        }
      }
    }
    assert g.edges[..|g.edges|] == g.edges;
    r := g.(
      sources := KeepSources(g.sources, SourceIds(surviving)),
      apps := KeepApps(g.apps, AppIds(surviving)),
      edges := surviving,
      orphanApps := KeepOrphans(lib, f, q, g.orphanApps),
      unusedSources := KeepUnused(lib, f, q, g.unusedSources));
  }

  // ---------- membership ----------

  lemma {:induction false} SurvivingHas(lib: Strings, f: StatusFilter, q: string, g: ClusterDepGraph,
                                        edges: seq<DepEdge>, e: DepEdge)
    ensures e in Surviving(lib, f, q, g, edges) <==> e in edges && Survives(lib, f, q, g, e)
    decreases |edges|
  {
    if edges != [] {
      assert edges == edges[..|edges| - 1] + [edges[|edges| - 1]];
      SurvivingHas(lib, f, q, g, edges[..|edges| - 1], e);
    }
  }

  lemma {:induction false} KeepAppsHas(apps: seq<Application>, ids: set<string>, a: Application)
    ensures a in KeepApps(apps, ids) <==> a in apps && a.id in ids
    decreases |apps|
  {
    if apps != [] {
      assert apps == apps[..|apps| - 1] + [apps[|apps| - 1]];
      KeepAppsHas(apps[..|apps| - 1], ids, a);
    }
  }

  lemma {:induction false} KeepOrphansHas(lib: Strings, f: StatusFilter, q: string, apps: seq<Application>,
                                          a: Application)
    ensures a in KeepOrphans(lib, f, q, apps) <==> a in apps && WantOrphan(lib, f, q, a)
    decreases |apps|
  {
    if apps != [] {
      assert apps == apps[..|apps| - 1] + [apps[|apps| - 1]];
      KeepOrphansHas(lib, f, q, apps[..|apps| - 1], a);
    }
  }

  lemma {:induction false} KeepUnusedHas(lib: Strings, f: StatusFilter, q: string, sources: seq<Source>, s: Source)
    ensures s in KeepUnused(lib, f, q, sources) <==> s in sources && WantUnused(lib, f, q, s)
    decreases |sources|
  {
    if sources != [] {
      assert sources == sources[..|sources| - 1] + [sources[|sources| - 1]];
      KeepUnusedHas(lib, f, q, sources[..|sources| - 1], s);
    }
  }

  lemma {:induction false} SourceByIdFinds(sources: seq<Source>, id: string)
    ensures SourceById(sources, id).Some? <==> exists s :: s in sources && s.id == id
    ensures SourceById(sources, id).Some? ==>
              SourceById(sources, id).value in sources && SourceById(sources, id).value.id == id
    decreases |sources|
  {
    if sources != [] {
      assert sources == sources[..|sources| - 1] + [sources[|sources| - 1]];
      SourceByIdFinds(sources[..|sources| - 1], id);
    }
  }

  lemma {:induction false} AppByIdFinds(apps: seq<Application>, id: string)
    ensures AppById(apps, id).Some? <==> exists a :: a in apps && a.id == id
    ensures AppById(apps, id).Some? ==> AppById(apps, id).value in apps && AppById(apps, id).value.id == id
    decreases |apps|
  {
    if apps != [] {
      assert apps == apps[..|apps| - 1] + [apps[|apps| - 1]];
      AppByIdFinds(apps[..|apps| - 1], id);
    }
  }

  /** Looking up a kept id gives the same node before and after filtering. */
  lemma {:induction false} ByIdAfterKeep(sources: seq<Source>, ids: set<string>, id: string)
    requires id in ids
    ensures SourceById(KeepSources(sources, ids), id) == SourceById(sources, id)
    decreases |sources|
  {
    if sources != [] {
      ByIdAfterKeep(sources[..|sources| - 1], ids, id);
      var front := KeepSources(sources[..|sources| - 1], ids);
      var s := sources[|sources| - 1];
      assert (front + [s])[..|front|] == front && front + [] == front;
    }
  }

  lemma {:induction false} AppByIdAfterKeep(apps: seq<Application>, ids: set<string>, id: string)
    requires id in ids
    ensures AppById(KeepApps(apps, ids), id) == AppById(apps, id)
    decreases |apps|
  {
    if apps != [] {
      AppByIdAfterKeep(apps[..|apps| - 1], ids, id);
      var front := KeepApps(apps[..|apps| - 1], ids);
      var a := apps[|apps| - 1];
      assert (front + [a])[..|front|] == front && front + [] == front;
    }
  }

  // ---------- the theorems ----------

  /** Whatever graph goes in, a well-formed one comes out. */
  lemma FilteredIsWellFormed(lib: Strings, g: ClusterDepGraph, f: StatusFilter, search: string)
    ensures WellFormed(Filtered(lib, g, f, search))
  {
    var q := Query(lib, search);
    var r := Filtered(lib, g, f, search);
    forall e | e in r.edges ensures e.sourceId in ListedSources(r.sources) && e.appId in ListedApps(r.apps) {
      SurvivingHas(lib, f, q, g, g.edges, e);
      EndsAreKept(g, r.edges, e);
    }
    forall s | s in r.sources ensures s.id in SourceIds(r.edges) {
      WithIdsHas(g.sources, SourceIds(r.edges), true, s);
    }
    forall a | a in r.apps ensures a.id in AppIds(r.edges) {
      KeepAppsHas(g.apps, AppIds(r.edges), a);
    }
  }

  lemma EndsAreKept(g: ClusterDepGraph, edges: seq<DepEdge>, e: DepEdge)
    requires e in edges && SourceById(g.sources, e.sourceId).Some? && AppById(g.apps, e.appId).Some?
    ensures e.sourceId in ListedSources(KeepSources(g.sources, SourceIds(edges)))
    ensures e.appId in ListedApps(KeepApps(g.apps, AppIds(edges)))
  {
    SourceByIdFinds(g.sources, e.sourceId);
    AppByIdFinds(g.apps, e.appId);
    WithIdsHas(g.sources, SourceIds(edges), true, SourceById(g.sources, e.sourceId).value);
    KeepAppsHas(g.apps, AppIds(edges), AppById(g.apps, e.appId).value);
  }

  lemma SurvivesAgain(lib: Strings, g: ClusterDepGraph, f: StatusFilter, search: string, e: DepEdge)
    requires e in Filtered(lib, g, f, search).edges
    ensures Survives(lib, f, Query(lib, search), Filtered(lib, g, f, search), e)
  {
    var r := Filtered(lib, g, f, search);
    SurvivingHas(lib, f, Query(lib, search), g, g.edges, e);
    ByIdAfterKeep(g.sources, SourceIds(r.edges), e.sourceId);
    AppByIdAfterKeep(g.apps, AppIds(r.edges), e.appId);
  }

  lemma SurvivingAll(lib: Strings, f: StatusFilter, q: string, g: ClusterDepGraph, edges: seq<DepEdge>)
    requires forall e | e in edges :: Survives(lib, f, q, g, e)
    ensures Surviving(lib, f, q, g, edges) == edges
  {
    SurvivingUpTo(lib, f, q, g, edges, |edges|);
    assert edges[..|edges|] == edges;
  }

  lemma {:induction false} SurvivingUpTo(lib: Strings, f: StatusFilter, q: string, g: ClusterDepGraph,
                                         edges: seq<DepEdge>, k: nat)
    requires k <= |edges| && forall e | e in edges :: Survives(lib, f, q, g, e)
    ensures Surviving(lib, f, q, g, edges[..k]) == edges[..k]
  {
    if k > 0 {
      SurvivingUpTo(lib, f, q, g, edges, k - 1);
      assert edges[k - 1] in edges && edges[..k] == edges[..k - 1] + [edges[k - 1]];
      SurvivingSnoc(lib, f, q, g, edges[..k - 1], edges[k - 1]);
    }
  }

  lemma SurvivingSnoc(lib: Strings, f: StatusFilter, q: string, g: ClusterDepGraph, edges: seq<DepEdge>, e: DepEdge)
    requires Survives(lib, f, q, g, e)
    ensures Surviving(lib, f, q, g, edges + [e]) == Surviving(lib, f, q, g, edges) + [e]
  {
    var all := edges + [e];
    assert all[..|all| - 1] == edges && all[|all| - 1] == e;
  }

  lemma {:induction false} KeepAppsAll(apps: seq<Application>, ids: set<string>)
    requires forall a | a in apps :: a.id in ids
    ensures KeepApps(apps, ids) == apps
    decreases |apps|
  {
    if apps != [] {
      KeepAppsAll(apps[..|apps| - 1], ids);
      assert apps == apps[..|apps| - 1] + [apps[|apps| - 1]];
    }
  }

  lemma {:induction false} KeepSourcesAll(sources: seq<Source>, ids: set<string>)
    requires forall s | s in sources :: s.id in ids
    ensures KeepSources(sources, ids) == sources
    decreases |sources|
  {
    if sources != [] {
      KeepSourcesAll(sources[..|sources| - 1], ids);
      assert sources == sources[..|sources| - 1] + [sources[|sources| - 1]];
    }
  }

  lemma {:induction false} KeepOrphansAll(lib: Strings, f: StatusFilter, q: string, apps: seq<Application>)
    requires forall a | a in apps :: WantOrphan(lib, f, q, a)
    ensures KeepOrphans(lib, f, q, apps) == apps
    decreases |apps|
  {
    if apps != [] {
      var front, last := apps[..|apps| - 1], apps[|apps| - 1];
      assert last in apps;
      KeepOrphansAll(lib, f, q, front);
      KeepOrphansSnoc(lib, f, q, front, last);
      assert apps == front + [last];
    }
  }

  lemma KeepOrphansSnoc(lib: Strings, f: StatusFilter, q: string, apps: seq<Application>, a: Application)
    requires WantOrphan(lib, f, q, a)
    ensures KeepOrphans(lib, f, q, apps + [a]) == KeepOrphans(lib, f, q, apps) + [a]
  {
    var all := apps + [a];
    assert all[..|all| - 1] == apps && all[|all| - 1] == a;
  }

  lemma {:induction false} KeepUnusedAll(lib: Strings, f: StatusFilter, q: string, sources: seq<Source>)
    requires forall s | s in sources :: WantUnused(lib, f, q, s)
    ensures KeepUnused(lib, f, q, sources) == sources
    decreases |sources|
  {
    if sources != [] {
      var front, last := sources[..|sources| - 1], sources[|sources| - 1];
      assert last in sources;
      KeepUnusedAll(lib, f, q, front);
      KeepUnusedSnoc(lib, f, q, front, last);
      assert sources == front + [last];
    }
  }

  lemma KeepUnusedSnoc(lib: Strings, f: StatusFilter, q: string, sources: seq<Source>, s: Source)
    requires WantUnused(lib, f, q, s)
    ensures KeepUnused(lib, f, q, sources + [s]) == KeepUnused(lib, f, q, sources) + [s]
  {
    var all := sources + [s];
    assert all[..|all| - 1] == sources && all[|all| - 1] == s;
  }

  /** A filter leaves a graph as it is when every edge, orphan and unused source passes and no node is loose. */
  lemma FilterKeeps(lib: Strings, g: ClusterDepGraph, f: StatusFilter, search: string)
    requires WellFormed(g)
    requires forall e | e in g.edges :: Survives(lib, f, Query(lib, search), g, e)
    requires forall a | a in g.orphanApps :: WantOrphan(lib, f, Query(lib, search), a)
    requires forall s | s in g.unusedSources :: WantUnused(lib, f, Query(lib, search), s)
    ensures Filtered(lib, g, f, search) == g
  {
    var q := Query(lib, search);
    SurvivingAll(lib, f, q, g, g.edges);
    KeepSourcesAll(g.sources, SourceIds(g.edges));
    KeepAppsAll(g.apps, AppIds(g.edges));
    KeepOrphansAll(lib, f, q, g.orphanApps);
    KeepUnusedAll(lib, f, q, g.unusedSources);
  }

  /** Filtering twice by the same filter is filtering once. */
  lemma FilterIsIdempotent(lib: Strings, g: ClusterDepGraph, f: StatusFilter, search: string)
    ensures Filtered(lib, Filtered(lib, g, f, search), f, search) == Filtered(lib, g, f, search)
  {
    var q := Query(lib, search);
    var r := Filtered(lib, g, f, search);
    FilteredIsWellFormed(lib, g, f, search);
    forall e | e in r.edges ensures Survives(lib, f, q, r, e) { SurvivesAgain(lib, g, f, search, e); }
    forall a | a in r.orphanApps ensures WantOrphan(lib, f, q, a) { KeepOrphansHas(lib, f, q, g.orphanApps, a); }
    forall s | s in r.unusedSources ensures WantUnused(lib, f, q, s) { KeepUnusedHas(lib, f, q, g.unusedSources, s); }
    FilterKeeps(lib, r, f, search);
  }

  /** "all" with a blank search changes nothing exactly when the graph is well formed, as every built graph is. */
  lemma AllWithBlankSearchIsIdentity(lib: Strings, g: ClusterDepGraph, search: string)
    requires Query(lib, search) == ""
    ensures Filtered(lib, g, All, search) == g <==> WellFormed(g)
  {
    FilteredIsWellFormed(lib, g, All, search);
    if WellFormed(g) {
      forall e | e in g.edges ensures Survives(lib, All, "", g, e) {
        assert e.sourceId in ListedSources(g.sources) && e.appId in ListedApps(g.apps);
        SourceByIdFinds(g.sources, e.sourceId);
        AppByIdFinds(g.apps, e.appId);
      }
      FilterKeeps(lib, g, All, search);
    }
  }

  /** One of the fields, in lower case, holds the search text, trimmed and in lower case; or that text is blank. */
  ghost predicate Found(lib: Strings, search: string, fields: seq<string>) {
    var q := lib.lower(lib.trim(search));
    q == "" || exists k, i: nat :: 0 <= k < |fields| && Text.OccursAt(lib.lower(fields[k]), q, i)
  }

  lemma WantSearchMeans(lib: Strings, search: string, fields: seq<string>)
    ensures WantSearch(lib, Query(lib, search), fields) <==> Found(lib, search, fields)
  {
    var q := lib.lower(lib.trim(search));
    forall k | 0 <= k < |fields|
      ensures Text.Index(lib.lower(fields[k]), q).Some? <==> exists i: nat :: Text.OccursAt(lib.lower(fields[k]), q, i)
    {
      Text.IndexFinds(lib.lower(fields[k]), q);
    }
  }

  /** "all" shows every status; "failing" only failing, "degraded" failing and degraded, and neither suspended ones. */
  predicate StatusShown(f: StatusFilter, s: Status, suspended: bool) {
    f == All || (!suspended && (s == Failing || (s == Degraded && f == FailingOrDegraded)))
  }

  /**
   Exactly what a filtered graph shows: an edge stays if and only if both its ends are there,
   pass the status filter, and one of their names and namespaces holds the search text; an
   orphan's own source text is searched too.
   */
  lemma FilterShowsExactly(lib: Strings, g: ClusterDepGraph, f: StatusFilter, search: string)
    ensures var r := Filtered(lib, g, f, search);
            && (forall e :: e in r.edges <==>
                  e in g.edges &&
                  var s, a := SourceById(g.sources, e.sourceId), AppById(g.apps, e.appId);
                  && s.Some? && a.Some?
                  && StatusShown(f, s.value.status, s.value.suspended)
                  && StatusShown(f, a.value.status, a.value.suspended)
                  && Found(lib, search, [s.value.name, s.value.ns, a.value.name, a.value.ns]))
            && (forall a :: a in r.orphanApps <==>
                  a in g.orphanApps && StatusShown(f, a.status, a.suspended) &&
                  Found(lib, search, [a.name, a.ns, a.source]))
            && (forall s :: s in r.unusedSources <==>
                  s in g.unusedSources && StatusShown(f, s.status, s.suspended) && Found(lib, search, [s.name, s.ns]))
            && (forall s :: s in r.sources <==> s in g.sources && exists e :: e in r.edges && e.sourceId == s.id)
            && (forall a :: a in r.apps <==> a in g.apps && exists e :: e in r.edges && e.appId == a.id)
  {
    EdgesShown(lib, g, f, search);
    LoneNodesShown(lib, g, f, search);
    LinkedNodesShown(lib, g, f, search);
  }

  lemma EdgesShown(lib: Strings, g: ClusterDepGraph, f: StatusFilter, search: string)
    ensures forall e :: e in Filtered(lib, g, f, search).edges <==>
              e in g.edges &&
              var s, a := SourceById(g.sources, e.sourceId), AppById(g.apps, e.appId);
              && s.Some? && a.Some?
              && StatusShown(f, s.value.status, s.value.suspended)
              && StatusShown(f, a.value.status, a.value.suspended)
              && Found(lib, search, [s.value.name, s.value.ns, a.value.name, a.value.ns])
  {
    forall e
      ensures e in Filtered(lib, g, f, search).edges <==>
              e in g.edges &&
              var s, a := SourceById(g.sources, e.sourceId), AppById(g.apps, e.appId);
              && s.Some? && a.Some?
              && StatusShown(f, s.value.status, s.value.suspended)
              && StatusShown(f, a.value.status, a.value.suspended)
              && Found(lib, search, [s.value.name, s.value.ns, a.value.name, a.value.ns])
    {
      SurvivingHas(lib, f, Query(lib, search), g, g.edges, e);
      var s, a := SourceById(g.sources, e.sourceId), AppById(g.apps, e.appId);
      if s.Some? && a.Some? {
        WantSearchMeans(lib, search, [s.value.name, s.value.ns, a.value.name, a.value.ns]);
      }
    }
  }

  lemma LoneNodesShown(lib: Strings, g: ClusterDepGraph, f: StatusFilter, search: string)
    ensures var r := Filtered(lib, g, f, search);
            && (forall a :: a in r.orphanApps <==>
                  a in g.orphanApps && StatusShown(f, a.status, a.suspended) &&
                  Found(lib, search, [a.name, a.ns, a.source]))
            && (forall s :: s in r.unusedSources <==>
                  s in g.unusedSources && StatusShown(f, s.status, s.suspended) && Found(lib, search, [s.name, s.ns]))
  {
    var q := Query(lib, search);
    forall a ensures a in KeepOrphans(lib, f, q, g.orphanApps) <==>
                     a in g.orphanApps && StatusShown(f, a.status, a.suspended) &&
                     Found(lib, search, [a.name, a.ns, a.source]) {
      KeepOrphansHas(lib, f, q, g.orphanApps, a);
      WantSearchMeans(lib, search, [a.name, a.ns, a.source]);
    }
    forall s ensures s in KeepUnused(lib, f, q, g.unusedSources) <==>
                     s in g.unusedSources && StatusShown(f, s.status, s.suspended) &&
                     Found(lib, search, [s.name, s.ns]) {
      KeepUnusedHas(lib, f, q, g.unusedSources, s);
      WantSearchMeans(lib, search, [s.name, s.ns]);
    }
  }

  lemma LinkedNodesShown(lib: Strings, g: ClusterDepGraph, f: StatusFilter, search: string)
    ensures var r := Filtered(lib, g, f, search);
            && (forall s :: s in r.sources <==> s in g.sources && exists e :: e in r.edges && e.sourceId == s.id)
            && (forall a :: a in r.apps <==> a in g.apps && exists e :: e in r.edges && e.appId == a.id)
  {
    var r := Filtered(lib, g, f, search);
    forall s ensures s in r.sources <==> s in g.sources && exists e :: e in r.edges && e.sourceId == s.id {
      WithIdsHas(g.sources, SourceIds(r.edges), true, s);
    }
    forall a ensures a in r.apps <==> a in g.apps && exists e :: e in r.edges && e.appId == a.id {
      KeepAppsHas(g.apps, AppIds(r.edges), a);
    }
  }

  ghost predicate DistinctAppIds(apps: seq<Application>) {
    forall a, a' | a in apps && a' in apps && a.id == a'.id :: a == a'
  }

  /**
   With distinct ids, "failing" shows only failing nodes that are not suspended, linked or
   not; "degraded" shows those and degraded ones.
   */
  lemma FilterShowsWhatWasAsked(lib: Strings, g: ClusterDepGraph, f: StatusFilter, search: string)
    requires DistinctIds(g.sources) && DistinctAppIds(g.apps)
    ensures var r := Filtered(lib, g, f, search);
            && (forall s | s in r.sources || s in r.unusedSources ::
                  f != All ==> !s.suspended && (s.status == Failing || (s.status == Degraded && f != OnlyFailing)))
            && (forall a | a in r.apps || a in r.orphanApps ::
                  f != All ==> !a.suspended && (a.status == Failing || (a.status == Degraded && f != OnlyFailing)))
  {
    var q := Query(lib, search);
    var r := Filtered(lib, g, f, search);
    forall s | s in r.sources || s in r.unusedSources ensures WantStatus(f, s.status, s.suspended) {
      KeepUnusedHas(lib, f, q, g.unusedSources, s);
      WithIdsHas(g.sources, SourceIds(r.edges), true, s);
      if s in r.sources {
        var e :| e in r.edges && e.sourceId == s.id;
        SurvivingHas(lib, f, q, g, g.edges, e);
        SourceByIdFinds(g.sources, s.id);
      }
    }
    forall a | a in r.apps || a in r.orphanApps ensures WantStatus(f, a.status, a.suspended) {
      KeepOrphansHas(lib, f, q, g.orphanApps, a);
      KeepAppsHas(g.apps, AppIds(r.edges), a);
      if a in r.apps {
        var e :| e in r.edges && e.appId == a.id;
        SurvivingHas(lib, f, q, g, g.edges, e);
        AppByIdFinds(g.apps, a.id);
      }
    }
  }

  /** The filters in the order of what they let through. */
  predicate Narrower(f: StatusFilter, f': StatusFilter) {
    f == f' || f' == All || (f == OnlyFailing && f' == FailingOrDegraded)
  }

  /** `r` shows nothing that `r'` does not show. */
  ghost predicate Within(r: ClusterDepGraph, r': ClusterDepGraph) {
    && (forall e | e in r.edges :: e in r'.edges)
    && (forall s | s in r.sources :: s in r'.sources)
    && (forall a | a in r.apps :: a in r'.apps)
    && (forall a | a in r.orphanApps :: a in r'.orphanApps)
    && (forall s | s in r.unusedSources :: s in r'.unusedSources)
  }

  /** From failing over degraded to all, a wider filter shows at least as much. */
  lemma FilterIsMonotone(lib: Strings, g: ClusterDepGraph, f: StatusFilter, f': StatusFilter, search: string)
    requires Narrower(f, f')
    ensures Within(Filtered(lib, g, f, search), Filtered(lib, g, f', search))
  {
    var q := Query(lib, search);
    var r, r' := Filtered(lib, g, f, search), Filtered(lib, g, f', search);
    forall e | e in r.edges ensures e in r'.edges {
      SurvivingHas(lib, f, q, g, g.edges, e);
      SurvivingHas(lib, f', q, g, g.edges, e);
    }
    forall s | s in r.sources ensures s in r'.sources {
      WithIdsHas(g.sources, SourceIds(r.edges), true, s);
      WithIdsHas(g.sources, SourceIds(r'.edges), true, s);
    }
    forall a | a in r.apps ensures a in r'.apps {
      KeepAppsHas(g.apps, AppIds(r.edges), a);
      KeepAppsHas(g.apps, AppIds(r'.edges), a);
    }
    forall a | a in r.orphanApps ensures a in r'.orphanApps {
      KeepOrphansHas(lib, f, q, g.orphanApps, a);
      KeepOrphansHas(lib, f', q, g.orphanApps, a);
    }
    forall s | s in r.unusedSources ensures s in r'.unusedSources {
      KeepUnusedHas(lib, f, q, g.unusedSources, s);
      KeepUnusedHas(lib, f', q, g.unusedSources, s);
    }
  }

  /** The identity filter on the graph that was built for a cluster. */
  lemma BuiltGraphPassesAll(lib: Strings, g: ClusterDepGraph, apps: seq<Application>, sources: seq<Source>,
                            collate: Collation, search: string)
    requires IsGraphOf(g, apps, sources, collate) && KeysAreSafe(apps, sources) && DistinctIds(sources)
    requires Query(lib, search) == ""
    ensures Filtered(lib, g, All, search) == g
  {
    GraphIsWellFormed(g, apps, sources, collate);
    AllWithBlankSearchIsIdentity(lib, g, search);
  }
}
