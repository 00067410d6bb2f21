/**
 The watch pipeline over whole runs: reconciles of any clusters in any order, with syncs
 of the watch manager in between (internal/controllers/cluster_controller.go,
 internal/cluster/registry_crd.go and internal/watch/manager.go together).
 */
module Pipeline {
  import opened Wrappers
  import opened Registry
  import opened Reconciler
  import opened Watchers
  import ClusterStatuses

  /**
   The registry, the number of clients built so far, the watchers, and what the sync that is
   under way has listed, if one is.
   */
  datatype System = System(dict: Dict, clients: nat, fleet: Fleet, listed: Option<Dict>)

  /**
   A sync is two steps, with reconciles of other goroutines in between: it lists the registry,
   and then passes over the list.  The pass touches only the manager's own map.
   */
  datatype Step = Reconciling(req: Request) | Listing | Passing | ShuttingDown

  const INITIAL: System := System([], 0, NO_WATCHERS, None)

  function DecisionOf(s: System, req: Request): Decision {
    Decide(s.dict, req, s.clients)
  }

  function After(s: System, step: Step): System {
    match step
    case Reconciling(req) =>
      var decision := DecisionOf(s, req);
      s.(dict := Reconciled(s.dict, decision), clients := s.clients + if decision.Rebuild? then 1 else 0)
    case Listing => s.(listed := Some(s.dict))
    case Passing =>
      if s.listed.None? then s else s.(fleet := Synced(s.fleet, Values(s.listed.value)), listed := None)
    case ShuttingDown => s.(fleet := Stopped(s.fleet))
  }

  function Run(s: System, steps: seq<Step>): System
    decreases |steps|
  {
    if steps == [] then s else Run(After(s, steps[0]), steps[1..])
  }

  // ---------- the invariant of every run ----------

  /** Each key is its entry's name, and its client is one of those built so far. */
  ghost predicate Named(d: Dict, clients: nat) {
    forall c | c in d :: c.0 == c.1.name && c.1.client < clients
  }

  ghost predicate Good(s: System) {
    && Distinct(s.dict)
    && Named(s.dict, s.clients)
    && Accounted(s.fleet)
    && (forall n | n in s.fleet.running :: s.fleet.running[n].client < s.clients)
    && (s.listed.Some? ==> Distinct(s.listed.value) && Named(s.listed.value, s.clients))
  }

  lemma {:induction false} PutNamed(d: Dict, name: string, e: Entry, clients: nat)
    requires Named(d, clients) && e.name == name && e.client < clients
    ensures Named(Put(d, name, e), clients)
  {
    if d != [] {
      assert d[0] in d;
      assert forall c | c in d[1..] :: c in d;
      PutNamed(d[1..], name, e, clients);
    }
  }

  lemma {:induction false} RemoveNamed(d: Dict, name: string, clients: nat)
    requires Named(d, clients)
    ensures Named(Remove(d, name), clients)
  {
    if d != [] {
      assert d[0] in d;
      assert forall c | c in d[1..] :: c in d;
      RemoveNamed(d[1..], name, clients);
    }
  }

  lemma {:induction false} NamesOfValues(d: Dict, clients: nat)
    requires Named(d, clients)
    ensures Names(Values(d)) == Keys(d)
  {
    if d != [] {
      assert d[0] in d;
      assert forall c | c in d[1..] :: c in d;
      NamesOfValues(d[1..], clients);
      assert Values(d) == [d[0].1] + Values(d[1..]);
      assert Names(Values(d)) == {d[0].1.name} + Names(Values(d[1..]));
    } else {
      assert Values(d) == [];
    }
  }

  lemma {:induction false} ValuesAreDistinct(d: Dict, clients: nat)
    requires Distinct(d) && Named(d, clients)
    ensures DistinctNames(Values(d))
  {
    if d != [] {
      assert d[0] in d;
      assert forall c | c in d[1..] :: c in d;
      ValuesAreDistinct(d[1..], clients);
      NamesOfValues(d[1..], clients);
      assert Values(d) == [d[0].1] + Values(d[1..]);
      forall j | 0 < j < |d| ensures Values(d)[j].name != d[0].0 {
        assert Values(d)[j] in Values(d[1..]);
        assert Values(d)[j].name in Names(Values(d[1..]));
      }
      forall i, j | 0 <= i < j < |d| ensures Values(d)[i].name != Values(d)[j].name {
        if i > 0 {
          assert Values(d)[i] == Values(d[1..])[i - 1] && Values(d)[j] == Values(d[1..])[j - 1];
        }
      }
    }
  }

  lemma {:induction false} ValuesAreLookedUp(d: Dict, clients: nat)
    requires Distinct(d) && Named(d, clients)
    ensures forall e | e in Values(d) :: Lookup(d, e.name) == Some(e) && e.client < clients
  {
    if d != [] {
      assert d[0] in d;
      assert forall c | c in d[1..] :: c in d;
      ValuesAreLookedUp(d[1..], clients);
      NamesOfValues(d[1..], clients);
      assert Values(d) == [d[0].1] + Values(d[1..]);
      forall e | e in Values(d[1..]) ensures Lookup(d, e.name) == Some(e) {
        assert e.name in Names(Values(d[1..]));
      }
    }
  }

  lemma ValuesOfDict(d: Dict, clients: nat)
    requires Distinct(d) && Named(d, clients)
    ensures Names(Values(d)) == Keys(d)
    ensures DistinctNames(Values(d))
    ensures forall e | e in Values(d) :: Lookup(d, e.name) == Some(e) && e.client < clients
  {
    NamesOfValues(d, clients);
    ValuesAreDistinct(d, clients);
    ValuesAreLookedUp(d, clients);
  }

  lemma LookupKnown(d: Dict, name: string, clients: nat)
    requires Named(d, clients) && Distinct(d) && Lookup(d, name).Some?
    ensures Lookup(d, name).value.name == name && Lookup(d, name).value.client < clients
    decreases |d|
  {
    assert d[0] in d;
    assert forall c | c in d[1..] :: c in d;
    if d[0].0 != name {
      LookupKnown(d[1..], name, clients);
    }
  }

  lemma {:induction false} LastClientKnown(d: Dict, clients: nat, n: string, k: nat)
    requires Distinct(d) && Named(d, clients) && k <= |d|
    requires n in Names(Values(d)[..k])
    ensures Lookup(d, n).Some? && LastClient(Values(d)[..k], n) == Some(Lookup(d, n).value.client)
  {
    var list := Values(d)[..k];
    assert list == Values(d)[..k - 1] + [Values(d)[k - 1]];
    assert list[..|list| - 1] == Values(d)[..k - 1];
    ValuesOfDict(d, clients);
    assert Values(d)[k - 1] in Values(d);
    if Values(d)[k - 1].name != n {
      LastClientKnown(d, clients, n, k - 1);
    }
  }

  /** The registry a sync lists: its names are the keys and its last clients are the entries' own. */
  lemma ListMatchesDict(d: Dict, clients: nat, n: string)
    requires Distinct(d) && Named(d, clients) && n in Keys(d)
    ensures Lookup(d, n).Some? && LastClient(Values(d), n) == Some(Lookup(d, n).value.client)
  {
    ValuesOfDict(d, clients);
    assert Values(d)[..|d|] == Values(d);
    LastClientKnown(d, clients, n, |d|);
  }

  lemma GoodPass(s: System, d: Dict)
    requires Good(s) && s.listed == Some(d)
    ensures Good(After(s, Passing))
  {
    SyncResult(s.fleet, Values(d));
    ValuesOfDict(d, s.clients);
    forall n | n in Names(Values(d)) ensures After(s, Passing).fleet.running[n].client < s.clients {
      ListMatchesDict(d, s.clients, n);
      LookupKnown(d, n, s.clients);
    }
  }

  lemma GoodStep(s: System, step: Step)
    requires Good(s)
    ensures Good(After(s, step))
  {
    match step {
      case Reconciling(req) =>
        match DecisionOf(s, req) {
          case Rebuild(e) =>
            PutUpdates(s.dict, e.name, e);
            PutNamed(s.dict, e.name, e, s.clients + 1);
          case Unregister(name) =>
            RemoveUpdates(s.dict, name);
            RemoveNamed(s.dict, name, s.clients);
          case _ =>
        }
      case Listing =>
      case Passing =>
        if s.listed.Some? {
          GoodPass(s, s.listed.value);
        }
      case ShuttingDown =>
        ShutdownCancelsAll(s.fleet);
    }
  }

  lemma {:induction false} GoodRun(s: System, steps: seq<Step>)
    requires Good(s)
    ensures Good(Run(s, steps))
    decreases |steps|
  {
    if steps != [] {
      GoodStep(s, steps[0]);
      GoodRun(After(s, steps[0]), steps[1..]);
    }
  }

  // ---------- the theorems ----------

  /**
   In every run the registry stays one dictionary without duplicate keys, filed under the
   entries' own names, and every watcher ever started is cancelled or the single running
   one for its name.
   */
  lemma RunInvariant(steps: seq<Step>)
    ensures Distinct(Run(INITIAL, steps).dict)
    ensures forall c | c in Run(INITIAL, steps).dict :: c.0 == c.1.name
    ensures Accounted(Run(INITIAL, steps).fleet)
  {
    GoodRun(INITIAL, steps);
  }

  ghost predicate OnlyReconciles(steps: seq<Step>) {
    forall step | step in steps :: step.Reconciling?
  }

  /** A whole sync, with whatever is reconciled between its listing and its pass. */
  function SyncAround(s: System, between: seq<Step>): System {
    After(Run(After(s, Listing), between), Passing)
  }

  lemma {:induction false} ReconcilesKeep(s: System, steps: seq<Step>)
    requires OnlyReconciles(steps)
    ensures Run(s, steps).fleet == s.fleet && Run(s, steps).listed == s.listed
    decreases |steps|
  {
    if steps != [] {
      assert steps[0] in steps;
      ReconcilesKeep(After(s, steps[0]), steps[1..]);
    }
  }

  /** The running watchers are those of the dictionary, name by name and client by client. */
  ghost predicate Mirrors(f: Fleet, d: Dict) {
    && f.running.Keys == Keys(d)
    && forall n | n in Keys(d) :: Lookup(d, n).Some? && f.running[n].client == Lookup(d, n).value.client
  }

  lemma SyncedMirrors(f: Fleet, d: Dict, clients: nat)
    requires Accounted(f) && Distinct(d) && Named(d, clients)
    ensures Mirrors(Synced(f, Values(d)), d)
  {
    SyncResult(f, Values(d));
    ValuesOfDict(d, clients);
    forall n | n in Keys(d)
      ensures Lookup(d, n).Some? && Synced(f, Values(d)).running[n].client == Lookup(d, n).value.client
    {
      ListMatchesDict(d, clients, n);
    }
  }

  /**
   After a sync in any run, whatever was reconciled between its listing and its pass, the
   running watchers are those of the registry as it was listed.
   */
  lemma SyncMirrorsRegistry(steps: seq<Step>, between: seq<Step>)
    requires OnlyReconciles(between)
    ensures var s := Run(INITIAL, steps);
            Mirrors(SyncAround(s, between).fleet, s.dict)
  {
    var s := Run(INITIAL, steps);
    GoodRun(INITIAL, steps);
    ReconcilesKeep(After(s, Listing), between);
    SyncedMirrors(s.fleet, s.dict, s.clients);
  }

  /** The two dictionaries have the same names with the same clients. */
  ghost predicate SameClients(d: Dict, d': Dict) {
    && Keys(d) == Keys(d')
    && forall n | n in Keys(d) ::
         Lookup(d, n).Some? && Lookup(d', n).Some? && Lookup(d, n).value.client == Lookup(d', n).value.client
  }

  /** They are those of the registry as it is after the pass if and only if no client came or went in between. */
  lemma SyncIsCurrent(steps: seq<Step>, between: seq<Step>)
    requires OnlyReconciles(between)
    ensures var s := Run(INITIAL, steps);
            var s' := SyncAround(s, between);
            Mirrors(s'.fleet, s'.dict) <==> SameClients(s.dict, s'.dict)
  {
    SyncMirrorsRegistry(steps, between);
    var s := Run(INITIAL, steps);
    var s' := SyncAround(s, between);
    GoodRun(INITIAL, steps);
    GoodStep(s, Listing);
    GoodRun(After(s, Listing), between);
    forall n ensures n in Keys(s'.dict) ==> Lookup(s'.dict, n).Some? {
      LookupFinds(s'.dict, n);
    }
  }

  /** Every step is a reconcile that reuses the cached entry. */
  ghost predicate AllReuse(s: System, steps: seq<Step>)
    decreases |steps|
  {
    steps == [] ||
    (steps[0].Reconciling? && DecisionOf(s, steps[0].req).Reuse? && AllReuse(After(s, steps[0]), steps[1..]))
  }

  lemma {:induction false} ReuseChangesNothing(s: System, steps: seq<Step>)
    requires AllReuse(s, steps)
    ensures Run(s, steps) == s
    decreases |steps|
  {
    if steps != [] {
      ReuseChangesNothing(After(s, steps[0]), steps[1..]);
    }
  }

  /**
   The routine probe cycle: reconciles that all reuse, before the next sync or while it is
   under way, leave it nothing to start or cancel.
   */
  lemma ProbeCycleKeepsWatchers(steps: seq<Step>, probes: seq<Step>, between: seq<Step>)
    requires AllReuse(SyncAround(Run(INITIAL, steps), []), probes)
    requires AllReuse(After(SyncAround(Run(INITIAL, steps), []), Listing), between)
    ensures var s := SyncAround(Run(INITIAL, steps), []);
            SyncAround(Run(s, probes), between) == s
  {
    var s0 := Run(INITIAL, steps);
    var s := SyncAround(s0, []);
    GoodRun(INITIAL, steps);
    GoodStep(s0, Listing);
    GoodStep(After(s0, Listing), Passing);
    SyncMirrorsRegistry(steps, []);
    ReuseChangesNothing(s, probes);
    ReuseChangesNothing(After(s, Listing), between);
    ValuesOfDict(s.dict, s.clients);
    SyncFitting(s.fleet, Values(s.dict));
  }

  /** A sync gives the entry filed under `n` a watcher with its client, and cancels a running one with another. */
  lemma SyncServes(s: System, between: seq<Step>, n: string)
    requires Good(s) && OnlyReconciles(between) && Lookup(s.dict, n).Some?
    ensures n in SyncAround(s, between).fleet.running
    ensures SyncAround(s, between).fleet.running[n].client == Lookup(s.dict, n).value.client
    ensures n in s.fleet.running && s.fleet.running[n].client != Lookup(s.dict, n).value.client ==>
              s.fleet.running[n].id in SyncAround(s, between).fleet.cancelled
  {
    ReconcilesKeep(After(s, Listing), between);
    LookupFinds(s.dict, n);
    SyncedMirrors(s.fleet, s.dict, s.clients);
    if n in s.fleet.running && s.fleet.running[n].client != Lookup(s.dict, n).value.client {
      SyncCancels(s.fleet, s.dict, s.clients, n);
    }
  }

  lemma SyncCancels(f: Fleet, d: Dict, clients: nat, n: string)
    requires Accounted(f) && Distinct(d) && Named(d, clients) && n in Keys(d) && Lookup(d, n).Some?
    requires n in f.running && f.running[n].client != Lookup(d, n).value.client
    ensures f.running[n].id in Synced(f, Values(d)).cancelled
  {
    ValuesOfDict(d, clients);
    assert n in Names(Values(d));
    var e :| e in Values(d) && e.name == n;
    SyncReplaces(f, Values(d), e);
  }

  /** A rebuild hands out a client that no watcher has: the next sync replaces the watcher and cancels the old one. */
  lemma RebuildReplacesWatcher(steps: seq<Step>, req: Request, between: seq<Step>)
    requires DecisionOf(Run(INITIAL, steps), req).Rebuild? && OnlyReconciles(between)
    ensures var s := Run(INITIAL, steps);
            var n := DecisionOf(s, req).entry.name;
            var s' := SyncAround(After(s, Reconciling(req)), between);
            && n in s'.fleet.running
            && s'.fleet.running[n].client == s.clients
            && (n in s.fleet.running ==> s.fleet.running[n].id in s'.fleet.cancelled)
  {
    var s := Run(INITIAL, steps);
    var e := DecisionOf(s, req).entry;
    GoodRun(INITIAL, steps);
    GoodStep(s, Reconciling(req));
    PutUpdates(s.dict, e.name, e);
    SyncServes(After(s, Reconciling(req)), between, e.name);
  }

  /** Shutting down in any run cancels every watcher that was ever started, and leaves the registry alone. */
  lemma ShutdownStopsAll(steps: seq<Step>)
    ensures var s := Run(INITIAL, steps);
            var s' := After(s, ShuttingDown);
            && s'.fleet.running == map[] && s'.fleet.started == s.fleet.started
            && (forall id: nat | id < |s'.fleet.started| :: id in s'.fleet.cancelled)
            && s'.dict == s.dict
  {
    GoodRun(INITIAL, steps);
    ShutdownCancelsAll(Run(INITIAL, steps).fleet);
  }

  /** The cluster a reconcile is about. */
  function Subject(req: Request): Option<string> {
    match req.fetched
    case NotFound(name) => Some(name)
    case Failed => None
    case Found(cr) => Some(cr.name)
  }

  /** A reconcile disturbs no other cluster: the rest of the registry keeps its entries and their order. */
  lemma ReconcileTouchesOnlyItsCluster(steps: seq<Step>, req: Request)
    ensures var s := Run(INITIAL, steps);
            var s' := After(s, Reconciling(req));
            && (Subject(req).None? ==> s' == s)
            && (Subject(req).Some? ==>
                  && Remove(s'.dict, Subject(req).value) == Remove(s.dict, Subject(req).value)
                  && forall m :: m != Subject(req).value ==> Lookup(s'.dict, m) == Lookup(s.dict, m))
            && s'.fleet == s.fleet
  {
    var s := Run(INITIAL, steps);
    GoodRun(INITIAL, steps);
    match DecisionOf(s, req) {
      case Rebuild(e) => PutUpdates(s.dict, e.name, e);
      case Unregister(name) => RemoveUpdates(s.dict, name);
      case _ =>
    }
  }

  /** A client that is reused was built for the current generation, at most five minutes before. */
  lemma ReusedClientIsFresh(steps: seq<Step>, req: Request)
    requires DecisionOf(Run(INITIAL, steps), req).Reuse?
    ensures var s := Run(INITIAL, steps);
            var e := DecisionOf(s, req).entry;
            && req.fetched.Found? && e.name == req.fetched.cr.name
            && Lookup(After(s, Reconciling(req)).dict, e.name) == Some(e)
            && e.generation == req.fetched.cr.generation
            && req.checkedAt - e.builtAt <= 300 * SECOND
  {
    var s := Run(INITIAL, steps);
    GoodRun(INITIAL, steps);
    LookupKnown(s.dict, req.fetched.cr.name, s.clients);
  }

  // ---------- what a reconcile does to its own cluster ----------

  /** A Cluster object that is gone has no entry afterwards. */
  lemma DeletedIsUnregistered(steps: seq<Step>, req: Request, n: string)
    requires req.fetched == NotFound(n)
    ensures Lookup(After(Run(INITIAL, steps), Reconciling(req)).dict, n).None?
    ensures n !in Keys(After(Run(INITIAL, steps), Reconciling(req)).dict)
  {
    GoodRun(INITIAL, steps);
    RemoveUpdates(Run(INITIAL, steps).dict, n);
  }

  /** A name without an entry when a sync lists the registry has no watcher afterwards; the one it had is cancelled. */
  lemma SyncStops(s: System, between: seq<Step>, n: string)
    requires Good(s) && OnlyReconciles(between) && n !in Keys(s.dict)
    ensures n !in SyncAround(s, between).fleet.running
    ensures n in s.fleet.running ==> s.fleet.running[n].id in SyncAround(s, between).fleet.cancelled
  {
    ReconcilesKeep(After(s, Listing), between);
    SyncedMirrors(s.fleet, s.dict, s.clients);
    if n in s.fleet.running {
      ValuesOfDict(s.dict, s.clients);
      SyncDrops(s.fleet, Values(s.dict), n);
    }
  }

  /** So after a deletion the next sync stops the cluster's watcher, whatever is reconciled during the sync. */
  lemma DeletedLosesItsWatcher(steps: seq<Step>, req: Request, n: string, between: seq<Step>)
    requires req.fetched == NotFound(n) && OnlyReconciles(between)
    ensures var s := Run(INITIAL, steps);
            var s' := SyncAround(After(s, Reconciling(req)), between);
            && n !in s'.fleet.running
            && (n in s.fleet.running ==> s.fleet.running[n].id in s'.fleet.cancelled)
  {
    var s := Run(INITIAL, steps);
    GoodRun(INITIAL, steps);
    GoodStep(s, Reconciling(req));
    DeletedIsUnregistered(steps, req, n);
    SyncStops(After(s, Reconciling(req)), between, n);
  }

  /** The entry is there, of the object's generation, and built at most 300 seconds before. */
  predicate Fresh(entry: Option<Entry>, cr: ClusterResource, now: int) {
    entry.Some? && entry.value.generation == cr.generation && now - entry.value.builtAt <= 300 * SECOND
  }

  /**
   What a reconcile makes of the entry of a Cluster object that it found: a fresh one is kept
   as it is; otherwise it goes when the credentials or the client build fail, and else it is
   replaced by one with a client of its own and the fields of the object.
   */
  lemma FoundIsRegistered(steps: seq<Step>, req: Request)
    requires req.fetched.Found?
    ensures var s, cr := Run(INITIAL, steps), req.fetched.cr;
            var s' := After(s, Reconciling(req));
            var entry := Lookup(s'.dict, cr.name);
            if Fresh(Lookup(s.dict, cr.name), cr, req.checkedAt) then s' == s
            else if !req.credentialsOk || !req.clientsOk then entry.None? && s'.clients == s.clients
            else
              && s'.clients == s.clients + 1
              && entry == Some(Entry(
                   cr.name, if cr.displayName == "" then cr.name else cr.displayName, cr.region, cr.environment,
                   if cr.fluxNamespace == "" then "flux-system" else cr.fluxNamespace,
                   s.clients, cr.generation, req.builtAt))
  {
    var s := Run(INITIAL, steps);
    GoodRun(INITIAL, steps);
    match DecisionOf(s, req) {
      case Rebuild(e) => PutUpdates(s.dict, e.name, e);
      case Unregister(name) => RemoveUpdates(s.dict, name);
      case _ =>
    }
  }

  /** A cluster whose entry goes because its credentials or client build failed loses its watcher at the next sync. */
  lemma FailedLosesItsWatcher(steps: seq<Step>, req: Request, between: seq<Step>)
    requires req.fetched.Found? && OnlyReconciles(between)
    requires !Fresh(Lookup(Run(INITIAL, steps).dict, req.fetched.cr.name), req.fetched.cr, req.checkedAt)
    requires !req.credentialsOk || !req.clientsOk
    ensures var s, n := Run(INITIAL, steps), req.fetched.cr.name;
            var s' := SyncAround(After(s, Reconciling(req)), between);
            && n !in s'.fleet.running
            && (n in s.fleet.running ==> s.fleet.running[n].id in s'.fleet.cancelled)
  {
    var s, n := Run(INITIAL, steps), req.fetched.cr.name;
    GoodRun(INITIAL, steps);
    GoodStep(s, Reconciling(req));
    FoundIsRegistered(steps, req);
    LookupFinds(After(s, Reconciling(req)).dict, n);
    SyncStops(After(s, Reconciling(req)), between, n);
  }

  /**
   What the round reports: nothing without an object; a failure of the credentials before one
   of the client build, and either only when the entry was not fresh; otherwise the probe.
   */
  lemma FindingMeans(steps: seq<Step>, req: Request, report: Report)
    ensures var s := Run(INITIAL, steps);
            var f := FindingOf(s.dict, req, s.clients, report);
            if !req.fetched.Found? then f.NothingToReport?
            else if Fresh(Lookup(s.dict, req.fetched.cr.name), req.fetched.cr, req.checkedAt)
                    || (req.credentialsOk && req.clientsOk)
            then f == ClusterStatuses.Probed(report.probe)
            else if !req.credentialsOk then f == ClusterStatuses.CredentialsFailed(report.credentialsError)
            else f == ClusterStatuses.ClientsFailed(report.clientsError)
  {
  }

  // ---------- how often clients are rebuilt ----------

  /** In every reconcile of `n` its object is found, at generation `g`, and a client can be built. */
  ghost predicate Steady(steps: seq<Step>, n: string, g: int) {
    forall st | st in steps && st.Reconciling? && Subject(st.req) == Some(n) ::
      st.req.fetched.Found? && st.req.fetched.cr.generation == g && st.req.credentialsOk && st.req.clientsOk
  }

  /** The clock never goes back, starting at `t`. */
  ghost predicate Clock(steps: seq<Step>, t: int)
    decreases |steps|
  {
    steps == [] ||
    (if steps[0].Reconciling?
     then t <= steps[0].req.checkedAt <= steps[0].req.builtAt && Clock(steps[1..], steps[0].req.builtAt)
     else Clock(steps[1..], t))
  }

  /** When clients for `n` were built in a run. */
  function BuildTimes(s: System, steps: seq<Step>, n: string): seq<int>
    decreases |steps|
  {
    if steps == [] then []
    else
      var rest := BuildTimes(After(s, steps[0]), steps[1..], n);
      if steps[0].Reconciling? && DecisionOf(s, steps[0].req).Rebuild? && DecisionOf(s, steps[0].req).entry.name == n
      then [steps[0].req.builtAt] + rest
      else rest
  }

  /** Consecutive times are more than the maximum age apart. */
  ghost predicate Spaced(times: seq<int>) {
    forall i | 0 <= i < |times| - 1 :: times[i + 1] - times[i] > MAX_AGE
  }

  lemma {:induction false} RebuildsAreSpaced(s: System, steps: seq<Step>, n: string, g: int, t: int)
    requires Distinct(s.dict) && Steady(steps, n, g) && Clock(steps, t)
    ensures Spaced(BuildTimes(s, steps, n))
    ensures var times := BuildTimes(s, steps, n);
            var e := Lookup(s.dict, n);
            e.Some? && e.value.generation == g && times != [] ==> times[0] - e.value.builtAt > MAX_AGE
    decreases |steps|
  {
    if steps != [] {
      var step, s' := steps[0], After(s, steps[0]);
      assert step in steps;
      assert forall st | st in steps[1..] :: st in steps;
      if step.Reconciling? {
        match DecisionOf(s, step.req) {
          case Rebuild(e) => PutUpdates(s.dict, e.name, e);
          case Unregister(name) => RemoveUpdates(s.dict, name);
          case _ =>
        }
        RebuildsAreSpaced(s', steps[1..], n, g, step.req.builtAt);
      } else {
        RebuildsAreSpaced(s', steps[1..], n, g, t);
      }
    }
  }

  lemma {:induction false} SpacedCount(times: seq<int>)
    requires Spaced(times) && times != []
    ensures times[|times| - 1] - times[0] >= (|times| - 1) * MAX_AGE
  {
    if |times| > 1 {
      SpacedCount(times[..|times| - 1]);
      assert times[|times| - 2 + 1] - times[|times| - 2] > MAX_AGE;
    }
  }

  /**
   With a steady generation, a clock that does not go back and no failures, a span of
   `seconds` seconds sees at most 1 + seconds/300 rebuilds of one cluster's client.
   */
  lemma RebuildRate(steps: seq<Step>, more: seq<Step>, n: string, g: int, start: int, seconds: nat)
    requires Steady(more, n, g) && Clock(more, start)
    requires forall b | b in BuildTimes(Run(INITIAL, steps), more, n) :: b <= start + seconds * SECOND
    ensures |BuildTimes(Run(INITIAL, steps), more, n)| <= 1 + seconds / 300
  {
    var s := Run(INITIAL, steps);
    var times := BuildTimes(s, more, n);
    GoodRun(INITIAL, steps);
    RebuildsAreSpaced(s, more, n, g, start);
    if times != [] {
      SpacedCount(times);
      BuiltAfter(s, more, n, start);
      assert times[|times| - 1] in times && times[0] in times;
      assert (|times| - 1) * 300 <= seconds;
    }
  }

  lemma {:induction false} BuiltAfter(s: System, steps: seq<Step>, n: string, t: int)
    requires Clock(steps, t)
    ensures forall b | b in BuildTimes(s, steps, n) :: t <= b
    decreases |steps|
  {
    if steps != [] {
      BuiltAfter(After(s, steps[0]), steps[1..], n, if steps[0].Reconciling? then steps[0].req.builtAt else t);
    }
  }
}
