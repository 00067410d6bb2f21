/**
 What Reconcile of internal/controllers/cluster_controller.go writes into the conditions of a
 Cluster object, and what the conditions say after any number of rounds.
 */
module ClusterStatuses {
  import opened Wrappers
  import opened Conditions

  const READY: string := "Ready"
  const REACHABLE: string := "Reachable"
  const FLUX_INSTALLED: string := "FluxInstalled"

  lemma KindsDiffer()
    ensures READY != REACHABLE && READY != FLUX_INSTALLED && REACHABLE != FLUX_INSTALLED
  {
    assert |READY| != |REACHABLE| && |REACHABLE| != |FLUX_INSTALLED|;
  }

  /** What probing a cluster gave. */
  datatype Probe = Probe(reachable: bool, fluxInstalled: bool, lastError: string, kubernetesVersion: string)

  /** How far one Reconcile call came; with `NothingToReport` it fetched no Cluster object. */
  datatype Finding =
    | NothingToReport
    | CredentialsFailed(error: string)
    | ClientsFailed(error: string)
    | Probed(st: Probe)

  function ReachableReason(st: Probe): string {
    if st.reachable then "Connected" else "ProbeFailed"
  }

  function ReachableMessage(st: Probe): string {
    if st.reachable then "Kubernetes " + st.kubernetesVersion
    else if st.lastError != "" then st.lastError
    else "API server unreachable"
  }

  function FluxReason(st: Probe): string {
    if st.fluxInstalled then "Detected"
    else if !st.reachable then "ClusterUnreachable"
    else "FluxNotDetected"
  }

  function FluxMessage(st: Probe): string {
    if st.fluxInstalled then "kustomize.toolkit.fluxcd.io API present"
    else if !st.reachable then "cluster unreachable"
    else "Flux CRDs not found on the target cluster"
  }

  function ReadyReason(st: Probe): string {
    if !st.reachable then "Unreachable"
    else if st.lastError != "" then "ProbeError"
    else "Ready"
  }

  function ReadyMessage(st: Probe): string {
    if st.lastError != "" then st.lastError
    else if !st.reachable then "cluster unreachable"
    else "cluster registered and reachable"
  }

  /** The clock readings of the setCondition calls of one round. */
  datatype Times = Times(first: int, second: int, third: int)

  /** The setCondition calls for a finding. */
  function Calls(f: Finding, generation: int, at: Times): seq<Call> {
    match f
    case NothingToReport => []
    case CredentialsFailed(e) =>
      [Call(REACHABLE, false, "CredentialsError", e, generation, at.first),
       Call(READY, false, "CredentialsError", e, generation, at.second)]
    case ClientsFailed(e) =>
      [Call(REACHABLE, false, "ClientBuildError", e, generation, at.first),
       Call(READY, false, "ClientBuildError", e, generation, at.second)]
    case Probed(st) =>
      [Call(REACHABLE, st.reachable, ReachableReason(st), ReachableMessage(st), generation, at.first),
       Call(FLUX_INSTALLED, st.fluxInstalled, FluxReason(st), FluxMessage(st), generation, at.second),
       Call(READY, st.reachable && st.lastError == "", ReadyReason(st), ReadyMessage(st), generation, at.third)]
  }

  function SetAll(conds: seq<Condition>, calls: seq<Call>): seq<Condition>
    decreases |calls|
  {
    if calls == [] then conds else SetAll(Apply(conds, calls[0]), calls[1..])
  }

  /** One round; what it set is lost when the status update fails. */
  datatype Round = Round(finding: Finding, generation: int, at: Times, persisted: bool)

  function RoundCalls(r: Round): seq<Call> {
    if r.persisted then Calls(r.finding, r.generation, r.at) else []
  }

  /** The conditions stored with a Cluster object that began with none. */
  function StatusAfter(rounds: seq<Round>): seq<Condition> {
    if rounds == [] then []
    else SetAll(StatusAfter(rounds[..|rounds| - 1]), RoundCalls(rounds[|rounds| - 1]))
  }

  function AllCalls(rounds: seq<Round>): seq<Call> {
    if rounds == [] then [] else AllCalls(rounds[..|rounds| - 1]) + RoundCalls(rounds[|rounds| - 1])
  }

  // ---------- the conditions as a run of setCondition ----------

  lemma ApplyAllSnoc(before: seq<Call>, call: Call)
    ensures ApplyAll(before + [call]) == Apply(ApplyAll(before), call)
  {
    var next := before + [call];
    assert next[..|next| - 1] == before && next[|next| - 1] == call;
  }

  lemma {:induction false} SetAllAfter(conds: seq<Condition>, before: seq<Call>, calls: seq<Call>)
    requires conds == ApplyAll(before)
    ensures SetAll(conds, calls) == ApplyAll(before + calls)
    decreases |calls|
  {
    if calls == [] {
      assert before + calls == before;
    } else {
      var next, rest := before + [calls[0]], calls[1..];
      ApplyAllSnoc(before, calls[0]);
      MoveFirst(before, calls);
      SetAllAfter(Apply(conds, calls[0]), next, rest);
    }
  }

  lemma MoveFirst(before: seq<Call>, calls: seq<Call>)
    requires calls != []
    ensures before + [calls[0]] + calls[1..] == before + calls
  {
  }

  /** So after any rounds the stored conditions are as `Conditions.ConditionsAfter` says. */
  lemma {:induction false} StoredConditions(rounds: seq<Round>)
    ensures StatusAfter(rounds) == ApplyAll(AllCalls(rounds))
    ensures Describes(StatusAfter(rounds), AllCalls(rounds))
    decreases |rounds|
  {
    if rounds != [] {
      var front := rounds[..|rounds| - 1];
      StoredConditions(front);
      SetAllAfter(StatusAfter(front), AllCalls(front), RoundCalls(rounds[|rounds| - 1]));
    }
    ConditionsAfter(AllCalls(rounds));
  }

  // ---------- what the three conditions say ----------

  function Find(conds: seq<Condition>, kind: string): Option<Condition> {
    var i := IndexOf(conds, kind);
    if i < |conds| then Some(conds[i]) else None
  }

  /** The condition of that kind has this status and this observed generation. */
  predicate Says(conds: seq<Condition>, kind: string, status: bool, generation: int) {
    Find(conds, kind).Some? &&
    Find(conds, kind).value.status == status && Find(conds, kind).value.observedGeneration == generation
  }

  /** The condition of the call's kind carries all that the call said. */
  predicate Carries(conds: seq<Condition>, call: Call) {
    && Says(conds, call.kind, call.ok, call.generation)
    && Find(conds, call.kind).value.reason == call.reason && Find(conds, call.kind).value.message == call.message
  }

  lemma FindAfter(conds: seq<Condition>, call: Call, kind: string)
    ensures Carries(Apply(conds, call), call)
    ensures kind != call.kind ==> Find(Apply(conds, call), kind) == Find(conds, kind)
  {
    var after := Apply(conds, call);
    var i := IndexOf(conds, call.kind);
    KindsAfter(conds, call, kind);
    KindsAfter(conds, call, call.kind);
    assert forall k | 0 <= k < |conds| :: after[k].kind == conds[k].kind;
  }

  lemma SetAllTwo(conds: seq<Condition>, a: Call, b: Call)
    ensures SetAll(conds, [a, b]) == Apply(Apply(conds, a), b)
  {
    var once := Apply(conds, a);
    assert [a, b][1..] == [b] && [b][1..] == [];
    assert SetAll(once, [b]) == SetAll(Apply(once, b), [b][1..]);
  }

  lemma SetAllThree(conds: seq<Condition>, a: Call, b: Call, c: Call)
    ensures SetAll(conds, [a, b, c]) == Apply(Apply(Apply(conds, a), b), c)
  {
    assert [a, b, c][1..] == [b, c];
    SetAllTwo(Apply(conds, a), b, c);
  }

  lemma SetTwo(conds: seq<Condition>, a: Call, b: Call, kind: string)
    requires a.kind != b.kind
    ensures Carries(SetAll(conds, [a, b]), a) && Carries(SetAll(conds, [a, b]), b)
    ensures kind != a.kind && kind != b.kind ==> Find(SetAll(conds, [a, b]), kind) == Find(conds, kind)
  {
    SetAllTwo(conds, a, b);
    FindAfter(conds, a, kind);
    FindAfter(Apply(conds, a), b, kind);
    FindAfter(Apply(conds, a), b, a.kind);
  }

  lemma SetThree(conds: seq<Condition>, a: Call, b: Call, c: Call)
    requires a.kind != b.kind && b.kind != c.kind && a.kind != c.kind
    ensures var after := SetAll(conds, [a, b, c]); Carries(after, a) && Carries(after, b) && Carries(after, c)
  {
    assert [a, b, c][1..] == [b, c];
    FindAfter(conds, a, a.kind);
    SetTwo(Apply(conds, a), b, c, a.kind);
  }

  predicate Reports(r: Round) {
    r.persisted && !r.finding.NothingToReport?
  }

  /** The last stored round that had a Cluster object. */
  function LastReport(rounds: seq<Round>): Option<Round> {
    if rounds == [] then None
    else if Reports(rounds[|rounds| - 1]) then Some(rounds[|rounds| - 1])
    else LastReport(rounds[..|rounds| - 1])
  }

  /** The last stored round that came as far as the probe. */
  function LastProbe(rounds: seq<Round>): Option<Round> {
    if rounds == [] then None
    else if Reports(rounds[|rounds| - 1]) && rounds[|rounds| - 1].finding.Probed? then Some(rounds[|rounds| - 1])
    else LastProbe(rounds[..|rounds| - 1])
  }

  predicate IsReachable(f: Finding) {
    f.Probed? && f.st.reachable
  }

  predicate IsReady(f: Finding) {
    IsReachable(f) && f.st.lastError == ""
  }

  lemma ReportCarries(conds: seq<Condition>, r: Round)
    requires Reports(r)
    ensures forall call | call in RoundCalls(r) :: Carries(SetAll(conds, RoundCalls(r)), call)
    ensures !r.finding.Probed? ==> Find(SetAll(conds, RoundCalls(r)), FLUX_INSTALLED) == Find(conds, FLUX_INSTALLED)
  {
    var calls := RoundCalls(r);
    KindsDiffer();
    if r.finding.Probed? {
      assert calls == [calls[0], calls[1], calls[2]];
      SetThree(conds, calls[0], calls[1], calls[2]);
    } else {
      assert calls == [calls[0], calls[1]];
      SetTwo(conds, calls[0], calls[1], FLUX_INSTALLED);
    }
  }

  /** What one stored report leaves: Ready and Reachable are its own, FluxInstalled only if it probed. */
  lemma ReportSays(conds: seq<Condition>, r: Round)
    requires Reports(r)
    ensures var after := SetAll(conds, RoundCalls(r));
            && Says(after, READY, IsReady(r.finding), r.generation)
            && Says(after, REACHABLE, IsReachable(r.finding), r.generation)
            && if r.finding.Probed? then Says(after, FLUX_INSTALLED, r.finding.st.fluxInstalled, r.generation)
               else Find(after, FLUX_INSTALLED) == Find(conds, FLUX_INSTALLED)
  {
    var calls := RoundCalls(r);
    ReportCarries(conds, r);
    assert calls[0] in calls && calls[1] in calls;
    if r.finding.Probed? {
      assert calls[2] in calls;
    }
  }

  /** The condition of that kind is there and gives this reason and message. */
  predicate Explains(conds: seq<Condition>, kind: string, reason: string, message: string) {
    Find(conds, kind).Some? && Find(conds, kind).value.reason == reason && Find(conds, kind).value.message == message
  }

  /** A failure before the probe is the reason of both conditions that it sets, with the error as their message. */
  lemma FailureExplains(conds: seq<Condition>, r: Round)
    requires Reports(r) && !r.finding.Probed?
    ensures var after := SetAll(conds, RoundCalls(r));
            var reason := if r.finding.CredentialsFailed? then "CredentialsError" else "ClientBuildError";
            Explains(after, "Reachable", reason, r.finding.error) && Explains(after, "Ready", reason, r.finding.error)
  {
    var calls := RoundCalls(r);
    ReportCarries(conds, r);
    assert calls[0] in calls && calls[1] in calls;
  }

  /** What the conditions of a probe say. */
  lemma ProbeExplains(conds: seq<Condition>, r: Round)
    requires Reports(r) && r.finding.Probed?
    ensures var after, st := SetAll(conds, RoundCalls(r)), r.finding.st;
            && (st.reachable ==> Explains(after, "Reachable", "Connected", "Kubernetes " + st.kubernetesVersion))
            && (!st.reachable ==>
                  Explains(after, "Reachable", "ProbeFailed",
                           if st.lastError == "" then "API server unreachable" else st.lastError))
            && (st.fluxInstalled ==>
                  Explains(after, "FluxInstalled", "Detected", "kustomize.toolkit.fluxcd.io API present"))
            && (!st.fluxInstalled && st.reachable ==>
                  Explains(after, "FluxInstalled", "FluxNotDetected", "Flux CRDs not found on the target cluster"))
            && (!st.fluxInstalled && !st.reachable ==>
                  Explains(after, "FluxInstalled", "ClusterUnreachable", "cluster unreachable"))
  {
    var calls := RoundCalls(r);
    ReportCarries(conds, r);
    assert calls[0] in calls && calls[1] in calls;
  }

  lemma ReadyExplains(conds: seq<Condition>, r: Round)
    requires Reports(r) && r.finding.Probed?
    ensures var after, st := SetAll(conds, RoundCalls(r)), r.finding.st;
            && (!st.reachable ==>
                  Explains(after, "Ready", "Unreachable",
                           if st.lastError == "" then "cluster unreachable" else st.lastError))
            && (st.reachable && st.lastError != "" ==> Explains(after, "Ready", "ProbeError", st.lastError))
            && (st.reachable && st.lastError == "" ==>
                  Explains(after, "Ready", "Ready", "cluster registered and reachable"))
  {
    var calls := RoundCalls(r);
    ReportCarries(conds, r);
    assert calls[2] in calls;
  }

  /**
   After any rounds, Ready and Reachable are both absent or both tell of the last stored
   report and its generation; FluxInstalled tells of the last stored probe.
   */
  lemma {:induction false} StatusSays(rounds: seq<Round>)
    ensures var conds := StatusAfter(rounds);
            match LastReport(rounds)
            case None => Find(conds, READY).None? && Find(conds, REACHABLE).None?
            case Some(r) =>
              && Says(conds, READY, IsReady(r.finding), r.generation)
              && Says(conds, REACHABLE, IsReachable(r.finding), r.generation)
    ensures var conds := StatusAfter(rounds);
            match LastProbe(rounds)
            case None => Find(conds, FLUX_INSTALLED).None?
            case Some(r) => r.finding.Probed? && Says(conds, FLUX_INSTALLED, r.finding.st.fluxInstalled, r.generation)
    decreases |rounds|
  {
    if rounds != [] {
      var front, last := rounds[..|rounds| - 1], rounds[|rounds| - 1];
      StatusSays(front);
      if Reports(last) {
        ReportSays(StatusAfter(front), last);
      } else {
        assert RoundCalls(last) == [];
      }
    }
  }

  /** A cluster that is Ready is Reachable, in the same generation of its spec. */
  lemma ReadyMeansReachable(rounds: seq<Round>)
    ensures var conds := StatusAfter(rounds);
            var ready, reachable := Find(conds, READY), Find(conds, REACHABLE);
            && (ready.Some? <==> reachable.Some?)
            && (ready.Some? ==>
                  && (ready.value.status ==> reachable.value.status)
                  && ready.value.observedGeneration == reachable.value.observedGeneration)
  {
    StatusSays(rounds);
  }

  /** FluxInstalled is of the generation that Ready is of; it has to be there when Ready is. */
  predicate FluxIsCurrent(conds: seq<Condition>) {
    Find(conds, READY).Some? ==>
      && Find(conds, FLUX_INSTALLED).Some?
      && Find(conds, FLUX_INSTALLED).value.observedGeneration == Find(conds, READY).value.observedGeneration
  }

  lemma {:induction false} LastProbeIsReport(rounds: seq<Round>)
    ensures LastReport(rounds).None? ==> LastProbe(rounds).None?
    ensures LastReport(rounds).Some? ==> LastReport(rounds).value in rounds && Reports(LastReport(rounds).value)
    ensures LastReport(rounds).Some? && LastReport(rounds).value.finding.Probed? ==>
              LastProbe(rounds) == LastReport(rounds)
    decreases |rounds|
  {
    if rounds != [] {
      LastProbeIsReport(rounds[..|rounds| - 1]);
    }
  }

  /**
   FluxInstalled is current if and only if there is no stored report, or the last one came
   past the credentials and the client build, or it failed there in the generation of the
   last stored probe.
   */
  lemma FluxInstalledIsCurrent(rounds: seq<Round>)
    ensures FluxIsCurrent(StatusAfter(rounds)) <==>
            match LastReport(rounds)
            case None => true
            case Some(r) =>
              (!r.finding.CredentialsFailed? && !r.finding.ClientsFailed?) ||
              (LastProbe(rounds).Some? && LastProbe(rounds).value.generation == r.generation)
  {
    StatusSays(rounds);
    LastProbeIsReport(rounds);
  }

  /** A cluster that is Reachable was probed in the last stored report, so its FluxInstalled is of that probe. */
  lemma ReachableMeansFluxCurrent(rounds: seq<Round>)
    requires var reachable := Find(StatusAfter(rounds), REACHABLE); reachable.Some? && reachable.value.status
    ensures FluxIsCurrent(StatusAfter(rounds))
    ensures LastReport(rounds).Some? && LastReport(rounds).value.finding.Probed?
    ensures var r := LastReport(rounds).value;
            Says(StatusAfter(rounds), FLUX_INSTALLED, r.finding.st.fluxInstalled, r.generation)
  {
    StatusSays(rounds);
    LastProbeIsReport(rounds);
    FluxInstalledIsCurrent(rounds);
  }

  /** FluxInstalled may be of the past: it stays true when the credentials fail afterwards. */
  lemma FluxInstalledMayBeStale(at: Times)
    ensures var up := Round(Probed(Probe(true, true, "", "v1.30")), 1, at, true);
            var down := Round(CredentialsFailed("expired"), 2, at, true);
            var conds := StatusAfter([up, down]);
            Says(conds, FLUX_INSTALLED, true, 1) && Says(conds, REACHABLE, false, 2) && !FluxIsCurrent(conds)
  {
    var up := Round(Probed(Probe(true, true, "", "v1.30")), 1, at, true);
    var down := Round(CredentialsFailed("expired"), 2, at, true);
    assert [up, down][..1] == [up];
    assert LastReport([up, down]) == Some(down);
    assert LastProbe([up, down]) == LastProbe([up]) == Some(up);
    StatusSays([up, down]);
    FluxInstalledIsCurrent([up, down]);
  }
}
