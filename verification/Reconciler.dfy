/**
 ClusterReconciler.Reconcile of internal/controllers/cluster_controller.go: when a cluster's
 client is reused, rebuilt or dropped, and what goes into the conditions.  Times are
 nanoseconds of a monotone clock.
 */
module Reconciler {
  import opened Wrappers
  import opened Registry
  import Conditions
  import ClusterStatuses

  const SECOND: int := 1_000_000_000

  /** clientCacheMaxAge. */
  const MAX_AGE: int := 5 * 60 * SECOND

  /** The parts of a Cluster object that Reconcile reads. */
  datatype ClusterResource = ClusterResource(
    name: string,
    generation: int,
    displayName: string,
    region: string,
    environment: string,
    fluxNamespace: string)

  /** What fetching the Cluster object gave. */
  datatype Fetched = NotFound(name: string) | Failed | Found(cr: ClusterResource)

  /**
   One Reconcile call: the fetched object, whether resolving the connection and building
   the clients would succeed, and its two clock readings, at the age check and after the build.
   */
  datatype Request = Request(
    fetched: Fetched,
    credentialsOk: bool,
    clientsOk: bool,
    checkedAt: int,
    builtAt: int)

  datatype Decision =
    | Leave
    | Unregister(name: string)
    | Reuse(entry: Entry)
    | Rebuild(entry: Entry)

  function DefaultIfEmpty(s: string, def: string): string {
    if s == "" then def else s
  }

  function NewEntry(cr: ClusterResource, client: nat, builtAt: int): Entry {
    Entry(cr.name, DefaultIfEmpty(cr.displayName, cr.name), cr.region, cr.environment,
          DefaultIfEmpty(cr.fluxNamespace, "flux-system"), client, cr.generation, builtAt)
  }

  /** The cached entry may go on serving: same spec generation, and not past the maximum age. */
  predicate Usable(e: Entry, cr: ClusterResource, now: int) {
    e.generation == cr.generation && now - e.builtAt <= MAX_AGE
  }

  /** What Reconcile decides; `client` is the identity a newly built client would get. */
  function Decide(d: Dict, req: Request, client: nat): Decision {
    match req.fetched
    case NotFound(name) => Unregister(name)
    case Failed => Leave
    case Found(cr) =>
      var existing := Lookup(d, cr.name);
      if existing.Some? && Usable(existing.value, cr, req.checkedAt) then Reuse(existing.value)
      else if !req.credentialsOk || !req.clientsOk then Unregister(cr.name)
      else Rebuild(NewEntry(cr, client, req.builtAt))
  }

  /** The registry after acting on a decision. */
  function Reconciled(d: Dict, decision: Decision): Dict {
    match decision
    case Leave => d
    case Unregister(name) => Remove(d, name)
    case Reuse(_) => d
    case Rebuild(e) => Put(d, e.name, e)
  }

  /** What a round may have to report: error texts, the probe of the chosen client, and clock readings. */
  datatype Report = Report(
    credentialsError: string,
    clientsError: string,
    probe: ClusterStatuses.Probe,
    at: ClusterStatuses.Times)

  /** How far Reconcile comes; a client is built only where none is to be reused. */
  function FindingOf(d: Dict, req: Request, client: nat, report: Report): ClusterStatuses.Finding {
    if !req.fetched.Found? then ClusterStatuses.NothingToReport
    else
      match Decide(d, req, client)
      case Unregister(_) =>
        if req.credentialsOk then ClusterStatuses.ClientsFailed(report.clientsError)
        else ClusterStatuses.CredentialsFailed(report.credentialsError)
      case _ => ClusterStatuses.Probed(report.probe)
  }

  /** The setCondition calls of one Reconcile. */
  function CallsOf(d: Dict, req: Request, client: nat, report: Report): seq<Conditions.Call> {
    if req.fetched.Found?
    then ClusterStatuses.Calls(FindingOf(d, req, client, report), req.fetched.cr.generation, report.at)
    else []
  }

  class ClusterReconciler {
    const registry: CRDRegistry
    var clientsBuilt: nat

    constructor (registry: CRDRegistry)
      ensures this.registry == registry && clientsBuilt == 0
    {
      this.registry := registry;
      clientsBuilt := 0;
    }

    /** One round; `status` belongs to the fetched Cluster object. */
    method Reconcile(req: Request, report: Report, status: Conditions.ClusterStatus) returns (decision: Decision)
      requires registry.Valid()
      modifies this, registry, status
      ensures registry.Valid()
      ensures decision == Decide(old(registry.Contents()), req, old(clientsBuilt))
      ensures registry.Contents() == Reconciled(old(registry.Contents()), decision)
      ensures clientsBuilt == old(clientsBuilt) + if decision.Rebuild? then 1 else 0
      ensures status.conditions ==
              ClusterStatuses.SetAll(old(status.conditions),
                                     CallsOf(old(registry.Contents()), req, old(clientsBuilt), report))
    {
      var finding;
      decision, finding := UpdateRegistry(req, report);
      if req.fetched.Found? {
        ReportFinding(status, finding, req.fetched.cr.generation, report.at);
      }
    }

    /** As far as the entry to probe. */
    method UpdateRegistry(req: Request, report: Report) returns (decision: Decision, finding: ClusterStatuses.Finding)
      requires registry.Valid()
      modifies this, registry
      ensures registry.Valid()
      ensures decision == Decide(old(registry.Contents()), req, old(clientsBuilt))
      ensures registry.Contents() == Reconciled(old(registry.Contents()), decision)
      ensures clientsBuilt == old(clientsBuilt) + if decision.Rebuild? then 1 else 0
      ensures finding == FindingOf(old(registry.Contents()), req, old(clientsBuilt), report)
    {
      match req.fetched {
        case NotFound(name) =>
          registry.Delete(name);
          return Unregister(name), ClusterStatuses.NothingToReport;
        case Failed =>
          return Leave, ClusterStatuses.NothingToReport;
        case Found(cr) =>
          var existing := registry.Get(cr.name);
          var needRebuild :=
            existing.None? ||
            existing.value.generation != cr.generation ||
            req.checkedAt - existing.value.builtAt > MAX_AGE;
          if needRebuild {
            if !req.credentialsOk {
              registry.Delete(cr.name);
              return Unregister(cr.name), ClusterStatuses.CredentialsFailed(report.credentialsError);
            }
            if !req.clientsOk {
              registry.Delete(cr.name);
              return Unregister(cr.name), ClusterStatuses.ClientsFailed(report.clientsError);
            }
            var e := NewEntry(cr, clientsBuilt, req.builtAt);
            clientsBuilt := clientsBuilt + 1;
            registry.Set(cr.name, e);
            return Rebuild(e), ClusterStatuses.Probed(report.probe);
          } else {
            return Reuse(existing.value), ClusterStatuses.Probed(report.probe);
          }
      }
    }

    method ReportFinding(status: Conditions.ClusterStatus, finding: ClusterStatuses.Finding, generation: int,
                         at: ClusterStatuses.Times)
      modifies status
      ensures status.conditions ==
              ClusterStatuses.SetAll(old(status.conditions), ClusterStatuses.Calls(finding, generation, at))
    {
      match finding {
        case NothingToReport =>
        case CredentialsFailed(e) => ReportFailure(status, "CredentialsError", e, generation, at);
        case ClientsFailed(e) => ReportFailure(status, "ClientBuildError", e, generation, at);
        case Probed(st) => ReportProbe(status, st, generation, at);
      }
    }

    /** setReachable and setReady on an early return. */
    method ReportFailure(status: Conditions.ClusterStatus, reason: string, message: string, generation: int,
                         at: ClusterStatuses.Times)
      modifies status
      ensures status.conditions ==
              ClusterStatuses.SetAll(old(status.conditions),
                [Conditions.Call(ClusterStatuses.REACHABLE, false, reason, message, generation, at.first),
                 Conditions.Call(ClusterStatuses.READY, false, reason, message, generation, at.second)])
    {
      ClusterStatuses.SetAllTwo(
        status.conditions,
        Conditions.Call(ClusterStatuses.REACHABLE, false, reason, message, generation, at.first),
        Conditions.Call(ClusterStatuses.READY, false, reason, message, generation, at.second));
      status.SetCondition(ClusterStatuses.REACHABLE, false, reason, message, generation, at.first);
      status.SetCondition(ClusterStatuses.READY, false, reason, message, generation, at.second);
    }

    /** setReachable, setFluxInstalled and setReady after the probe. */
    method ReportProbe(status: Conditions.ClusterStatus, st: ClusterStatuses.Probe, generation: int,
                       at: ClusterStatuses.Times)
      modifies status
      ensures status.conditions ==
              ClusterStatuses.SetAll(old(status.conditions),
                                     ClusterStatuses.Calls(ClusterStatuses.Probed(st), generation, at))
    {
      ghost var calls := ClusterStatuses.Calls(ClusterStatuses.Probed(st), generation, at);
      assert calls == [calls[0], calls[1], calls[2]];
      ClusterStatuses.SetAllThree(status.conditions, calls[0], calls[1], calls[2]);
      status.SetCondition(
        ClusterStatuses.REACHABLE, st.reachable, ClusterStatuses.ReachableReason(st),
        ClusterStatuses.ReachableMessage(st), generation, at.first);
      status.SetCondition(
        ClusterStatuses.FLUX_INSTALLED, st.fluxInstalled, ClusterStatuses.FluxReason(st),
        ClusterStatuses.FluxMessage(st), generation, at.second);
      status.SetCondition(
        ClusterStatuses.READY, st.reachable && st.lastError == "", ClusterStatuses.ReadyReason(st),
        ClusterStatuses.ReadyMessage(st), generation, at.third);
    }
  }
}
