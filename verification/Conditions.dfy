/**
 Status conditions of a Cluster: setCondition of
 internal/controllers/cluster_controller.go, and what any sequence of its calls leaves.
 */
module Conditions {
  /** One entry of the condition list; `kind` is its Type, `status` is ConditionTrue or ConditionFalse. */
  datatype Condition = Condition(
    kind: string,
    status: bool,
    reason: string,
    message: string,
    lastTransition: int,
    observedGeneration: int)

  /** The arguments of one setCondition call, with the clock reading it makes. */
  datatype Call = Call(kind: string, ok: bool, reason: string, message: string, generation: int, now: int)

  /** Position of the first condition of that kind, or the length of the list. */
  function IndexOf(conds: seq<Condition>, kind: string): (i: nat)
    ensures i <= |conds|
    ensures i < |conds| ==> conds[i].kind == kind
    ensures forall j | 0 <= j < i :: conds[j].kind != kind
  {
    if conds == [] || conds[0].kind == kind then 0 else 1 + IndexOf(conds[1..], kind)
  }

  function Updated(c: Condition, call: Call): Condition {
    Condition(call.kind, call.ok, call.reason, call.message,
              if c.status != call.ok then call.now else c.lastTransition,
              call.generation)
  }

  function Created(call: Call): Condition {
    Condition(call.kind, call.ok, call.reason, call.message, call.now, call.generation)
  }

  function Apply(conds: seq<Condition>, call: Call): seq<Condition> {
    var i := IndexOf(conds, call.kind);
    if i < |conds| then conds[i := Updated(conds[i], call)] else conds + [Created(call)]
  }

  /** The list after a sequence of calls on an empty list. */
  function ApplyAll(calls: seq<Call>): seq<Condition> {
    if calls == [] then []
    else Apply(ApplyAll(calls[..|calls| - 1]), calls[|calls| - 1])
  }

  // ---------- what the list means in terms of the calls ----------

  /** The calls that named this kind, in order. */
  function Of(calls: seq<Call>, kind: string): seq<Call> {
    if calls == [] then []
    else
      var last := calls[|calls| - 1];
      Of(calls[..|calls| - 1], kind) + if last.kind == kind then [last] else []
  }

  /** Number of calls before the first one that named this kind. */
  function FirstSet(calls: seq<Call>, kind: string): nat {
    if calls == [] || calls[0].kind == kind then 0 else 1 + FirstSet(calls[1..], kind)
  }

  /** Position `i` begins the unbroken run of equal statuses at the end of `h`. */
  ghost predicate BeginsFinalRun(h: seq<Call>, i: nat) {
    && i < |h|
    && (forall j | i <= j < |h| :: h[j].ok == h[|h| - 1].ok)
    && (i > 0 ==> h[i - 1].ok != h[i].ok)
  }

  /** `c` carries the last call's values and the time at which its status last changed. */
  ghost predicate Reflects(c: Condition, h: seq<Call>) {
    && h != []
    && var last := h[|h| - 1];
    && c == Condition(last.kind, last.ok, last.reason, last.message, c.lastTransition, last.generation)
    && exists i: nat :: BeginsFinalRun(h, i) && c.lastTransition == h[i].now
  }

  lemma UpdatedReflects(c: Condition, h: seq<Call>, call: Call)
    requires Reflects(c, h)
    ensures Reflects(Updated(c, call), h + [call])
  {
    var i: nat :| BeginsFinalRun(h, i) && c.lastTransition == h[i].now;
    var h' := h + [call];
    if c.status == call.ok {
      assert BeginsFinalRun(h', i) && h'[i].now == c.lastTransition;
    } else {
      assert BeginsFinalRun(h', |h|) && h'[|h|].now == call.now;
    }
  }

  lemma CreatedReflects(call: Call)
    ensures Reflects(Created(call), [call])
  {
    assert BeginsFinalRun([call], 0);
  }

  lemma {:induction false} FirstSetAppend(calls: seq<Call>, call: Call, kind: string)
    ensures FirstSet(calls + [call], kind) ==
            if Of(calls, kind) != [] then FirstSet(calls, kind)
            else if call.kind == kind then |calls| else |calls| + 1
    ensures Of(calls, kind) != [] ==> FirstSet(calls, kind) < |calls|
    decreases |calls|
  {
    if calls != [] {
      assert (calls + [call])[1..] == calls[1..] + [call];
      FirstSetAppend(calls[1..], call, kind);
      OfFront(calls, kind);
    }
  }

  lemma {:induction false} OfFront(calls: seq<Call>, kind: string)
    requires calls != []
    ensures Of(calls, kind) == (if calls[0].kind == kind then [calls[0]] else []) + Of(calls[1..], kind)
    decreases |calls|
  {
    if |calls| > 1 {
      var front, rest := calls[..|calls| - 1], calls[1..];
      OfFront(front, kind);
      assert front[1..] == rest[..|rest| - 1] && front[0] == calls[0] && rest[|rest| - 1] == calls[|calls| - 1];
    } else {
      assert calls[1..] == [] && calls[..0] == [];
    }
  }

  /** Every condition carries the last call of its kind. */
  ghost predicate EachReflects(conds: seq<Condition>, calls: seq<Call>) {
    forall i | 0 <= i < |conds| :: Reflects(conds[i], Of(calls, conds[i].kind))
  }

  /** There is a condition of a kind exactly when some call named that kind. */
  ghost predicate CoversKinds(conds: seq<Condition>, calls: seq<Call>) {
    forall kind :: Of(calls, kind) != [] <==> IndexOf(conds, kind) < |conds|
  }

  /** One condition per kind, in the order in which the kinds were first set. */
  ghost predicate InFirstSetOrder(conds: seq<Condition>, calls: seq<Call>) {
    forall i, j :: 0 <= i < j < |conds| ==> FirstSet(calls, conds[i].kind) < FirstSet(calls, conds[j].kind)
  }

  ghost predicate Describes(conds: seq<Condition>, calls: seq<Call>) {
    EachReflects(conds, calls) && CoversKinds(conds, calls) && InFirstSetOrder(conds, calls)
  }

  lemma OfAppend(calls: seq<Call>, call: Call, kind: string)
    ensures Of(calls + [call], kind) == Of(calls, kind) + if call.kind == kind then [call] else []
  {
    assert (calls + [call])[..|calls|] == calls;
  }

  /** The condition found for a kind is the only one of that kind. */
  lemma OnlyOne(conds: seq<Condition>, calls: seq<Call>, kind: string, i: nat)
    requires InFirstSetOrder(conds, calls) && i < |conds| && conds[i].kind == kind
    ensures i == IndexOf(conds, kind)
  {
  }

  lemma ReflectsStep(conds: seq<Condition>, calls: seq<Call>, call: Call, i: nat)
    requires Describes(conds, calls) && i < |Apply(conds, call)|
    ensures Reflects(Apply(conds, call)[i], Of(calls + [call], Apply(conds, call)[i].kind))
  {
    var n := IndexOf(conds, call.kind);
    if i < |conds| {
      OfAppend(calls, call, conds[i].kind);
      assert Reflects(conds[i], Of(calls, conds[i].kind));
      if i == n {
        UpdatedReflects(conds[i], Of(calls, call.kind), call);
      } else if conds[i].kind == call.kind {
        OnlyOne(conds, calls, call.kind, i);
      } else {
        assert Of(calls + [call], conds[i].kind) == Of(calls, conds[i].kind);
        assert Apply(conds, call)[i] == conds[i];
      }
    } else {
      OfAppend(calls, call, call.kind);
      CreatedReflects(call);
    }
  }

  lemma OrderStep(conds: seq<Condition>, calls: seq<Call>, call: Call, i: nat, j: nat)
    requires Describes(conds, calls) && i < j < |Apply(conds, call)|
    ensures FirstSet(calls + [call], Apply(conds, call)[i].kind) < FirstSet(calls + [call], Apply(conds, call)[j].kind)
  {
    var after := Apply(conds, call);
    FirstSetAppend(calls, call, after[i].kind);
    FirstSetAppend(calls, call, after[j].kind);
    assert Reflects(conds[i], Of(calls, conds[i].kind));
    if j < |conds| {
      assert Reflects(conds[j], Of(calls, conds[j].kind));
      assert FirstSet(calls, conds[i].kind) < FirstSet(calls, conds[j].kind);
    }
  }

  /** One call adds its own kind and removes none. */
  lemma KindsAfter(conds: seq<Condition>, call: Call, kind: string)
    ensures IndexOf(Apply(conds, call), kind) < |Apply(conds, call)|
            <==> IndexOf(conds, kind) < |conds| || kind == call.kind
  {
    var after := Apply(conds, call);
    var n := IndexOf(conds, call.kind);
    assert after[n].kind == call.kind;
    assert forall k | 0 <= k < |conds| :: after[k].kind == conds[k].kind;
  }

  lemma CoverStep(conds: seq<Condition>, calls: seq<Call>, call: Call, kind: string)
    requires Describes(conds, calls)
    ensures Of(calls + [call], kind) != [] <==> IndexOf(Apply(conds, call), kind) < |Apply(conds, call)|
  {
    OfAppend(calls, call, kind);
    KindsAfter(conds, call, kind);
  }

  lemma DescribesStep(conds: seq<Condition>, calls: seq<Call>, call: Call)
    requires Describes(conds, calls)
    ensures Describes(Apply(conds, call), calls + [call])
  {
    var after := Apply(conds, call);
    forall i: nat | i < |after| ensures Reflects(after[i], Of(calls + [call], after[i].kind)) {
      ReflectsStep(conds, calls, call, i);
    }
    forall kind ensures Of(calls + [call], kind) != [] <==> IndexOf(after, kind) < |after| {
      CoverStep(conds, calls, call, kind);
    }
    forall i: nat, j: nat | i < j < |after|
      ensures FirstSet(calls + [call], after[i].kind) < FirstSet(calls + [call], after[j].kind)
    {
      OrderStep(conds, calls, call, i, j);
    }
  }

  /**
   After any sequence of calls on an empty list there is exactly one condition for every
   kind that was ever set, in first-set order, carrying the last call's values, and its
   transition time is that of the call which began the final run of equal statuses.
   */
  lemma {:induction false} ConditionsAfter(calls: seq<Call>)
    ensures Describes(ApplyAll(calls), calls)
    decreases |calls|
  {
    if calls != [] {
      var front, call := calls[..|calls| - 1], calls[|calls| - 1];
      assert calls == front + [call];
      ConditionsAfter(front);
      DescribesStep(ApplyAll(front), front, call);
    }
  }

  /** The status of one Cluster object, updated in place. */
  class ClusterStatus {
    var conditions: seq<Condition>

    constructor (conditions: seq<Condition>)
      ensures this.conditions == conditions
    {
      this.conditions := conditions;
    }

    method SetCondition(kind: string, ok: bool, reason: string, message: string, generation: int, now: int)
      modifies this
      ensures conditions == Apply(old(conditions), Call(kind, ok, reason, message, generation, now))
    {
      for i := 0 to |conditions|
        invariant conditions == old(conditions)
        invariant forall j | 0 <= j < i :: conditions[j].kind != kind
      {
        if conditions[i].kind == kind {
          var c := conditions[i];
          if c.status != ok {
            c := c.(lastTransition := now);
          }
          c := c.(status := ok, reason := reason, message := message, observedGeneration := generation);
          conditions := conditions[i := c];
          return;
        }
      }
      conditions := conditions + [Condition(kind, ok, reason, message, now, generation)];
    }
  }
}
