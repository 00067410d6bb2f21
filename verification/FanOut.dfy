/**
 The fan-out of the list handlers (internal/api/applications.go; sources.go, alerts.go,
 images.go and events.go repeat it): one worker goroutine per permitted cluster, a result
 channel with room for all of them, and a closer that waits for the workers.
 */
module FanOut {
  import opened Sorting
  import opened Indices

  // ---------- the entries that get a worker ----------

  datatype Entry = Entry(name: string)

  predicate Permitted(e: Entry, cluster: string, allowed: string -> bool) {
    (cluster == "" || e.name == cluster) && allowed(e.name)
  }

  function PermittedOf(entries: seq<Entry>, cluster: string, allowed: string -> bool): seq<Entry> {
    if entries == [] then []
    else
      var e := entries[|entries| - 1];
      PermittedOf(entries[..|entries| - 1], cluster, allowed) + if Permitted(e, cluster, allowed) then [e] else []
  }

  /** An entry is kept if and only if it is the cluster asked for, or none was, and its cluster may be read. */
  lemma PermittedOne(e: Entry, cluster: string, allowed: string -> bool)
    ensures PermittedOf([e], cluster, allowed) ==
            if (cluster == "" || cluster == e.name) && allowed(e.name) then [e] else []
  {
    assert [e][..0] == [];
  }

  lemma {:induction false} PermittedConcat(xs: seq<Entry>, ys: seq<Entry>, cluster: string, allowed: string -> bool)
    ensures PermittedOf(xs + ys, cluster, allowed) ==
            PermittedOf(xs, cluster, allowed) + PermittedOf(ys, cluster, allowed)
    decreases |ys|
  {
    if ys == [] {
      assert xs + ys == xs;
    } else {
      var front := ys[..|ys| - 1];
      assert (xs + ys)[..|xs + ys| - 1] == xs + front;
      PermittedConcat(xs, front, cluster, allowed);
    }
  }

  /** `entries := allEntries[:0]` with appends: the filter writes into the slice it reads. */
  method FilterEntries(all: array<Entry>, cluster: string, allowed: string -> bool) returns (n: nat)
    modifies all
    ensures n <= all.Length
    ensures all[..n] == PermittedOf(old(all[..]), cluster, allowed)
  {
    n := 0;
    for i := 0 to all.Length
      invariant n <= i
      invariant all[..n] == PermittedOf(old(all[..])[..i], cluster, allowed)
      invariant all[i..] == old(all[..])[i..]
    {
      assert old(all[..])[..i + 1][..i] == old(all[..])[..i];
      var e := all[i];
      assert e == all[i..][0] == old(all[..])[i];
      if !(cluster != "" && e.name != cluster) {
        if allowed(e.name) {
          all[n] := e;
          n := n + 1;
        }
      }
    }
    assert old(all[..])[..all.Length] == old(all[..]);
  }

  // ---------- the goroutines ----------

  datatype Application = Application(cluster: string, ns: string, name: string, kind: string)

  /** What a worker sends: the rows of its cluster, or one error. */
  datatype Outcome = Rows(rows: seq<Application>) | Failed(error: string)

  datatype Main = Spawning | Collecting | Returned

  datatype Closer = NotStarted | Waiting | Finished

  /**
   `n` workers, of which the main goroutine has started the first `spawned`.  `results`
   are the outcomes of those that have fetched; `sent` have sent theirs, `done` have
   left the wait group.  The channel holds the numbers of the senders, oldest first.
   */
  datatype State = State(
    n: nat,
    main: Main,
    spawned: nat,
    wg: int,
    results: map<nat, Outcome>,
    sent: set<nat>,
    done: set<nat>,
    buffer: seq<nat>,
    closed: bool,
    closer: Closer,
    collected: seq<nat>,
    panicked: bool)

  function Initial(n: nat): State {
    State(n, Spawning, 0, 0, map[], {}, {}, [], false, NotStarted, [], false)
  }

  datatype Action =
    | Spawn
    | StartCloser
    | Fetch(i: nat, outcome: Outcome)
    | Send(i: nat)
    | WorkerDone(i: nat)
    | CloseChannel
    | Receive
    | Return

  predicate Enabled(s: State, a: Action) {
    match a
    case Spawn => s.main.Spawning? && s.spawned < s.n
    case StartCloser => s.main.Spawning? && s.spawned == s.n
    case Fetch(i, _) => i < s.spawned && i !in s.results
    case Send(i) => WantsToSend(s, i) && (s.closed || |s.buffer| < s.n)
    case WorkerDone(i) => i in s.sent && i !in s.done
    case CloseChannel => s.closer.Waiting? && s.wg == 0
    case Receive => s.main.Collecting? && s.buffer != []
    case Return => s.main.Collecting? && s.buffer == [] && s.closed
  }

  /** Worker `i` is at its send statement. */
  predicate WantsToSend(s: State, i: nat) {
    i in s.results && i !in s.sent
  }

  function Do(s: State, a: Action): State
    requires Enabled(s, a)
  {
    match a
    case Spawn => s.(spawned := s.spawned + 1, wg := s.wg + 1)
    case StartCloser => s.(main := Collecting, closer := Waiting)
    case Fetch(i, outcome) => s.(results := s.results[i := outcome])
    case Send(i) =>
      if s.closed then s.(panicked := true) else s.(buffer := s.buffer + [i], sent := s.sent + {i})
    case WorkerDone(i) => s.(done := s.done + {i}, wg := s.wg - 1)
    case CloseChannel => if s.closed then s.(panicked := true) else s.(closed := true, closer := Finished)
    case Receive => s.(buffer := s.buffer[1..], collected := s.collected + [s.buffer[0]])
    case Return => s.(main := Returned)
  }

  ghost predicate Run(from: State, actions: seq<Action>, to: State)
    decreases |actions|
  {
    if actions == [] then from == to
    else Enabled(from, actions[0]) && Run(Do(from, actions[0]), actions[1..], to)
  }

  // ---------- the invariant ----------

  ghost predicate Inv(s: State) {
    && !s.panicked
    && s.spawned <= s.n
    && (!s.main.Spawning? ==> s.spawned == s.n)
    && (s.closer.NotStarted? <==> s.main.Spawning?)
    && (s.closer.Finished? <==> s.closed)
    && s.results.Keys <= Upto(s.spawned)
    && s.done <= s.sent <= s.results.Keys
    && s.wg == s.spawned - |s.done|
    && NoRepeats(s.collected + s.buffer)
    && Elements(s.collected + s.buffer) == s.sent
    && (s.closed ==> s.done == Upto(s.n))
    && (s.main.Returned? ==> s.closed && s.buffer == [])
  }

  lemma InitialInv(n: nat)
    ensures Inv(Initial(n))
  {
  }

  lemma Sizes(s: State)
    requires Inv(s)
    ensures |s.collected| + |s.buffer| == |s.sent| <= |s.results| <= s.spawned
    ensures |s.done| <= |s.sent|
    ensures |s.done| == s.spawned ==> s.done == Upto(s.spawned)
    ensures forall i | WantsToSend(s, i) :: |s.sent| < s.spawned
  {
    NoRepeatsSize(s.collected + s.buffer);
    UptoSize(s.spawned);
    SubsetSize(s.results.Keys, Upto(s.spawned));
    SubsetSize(s.sent, s.results.Keys);
    SubsetSize(s.done, s.sent);
    SubsetSize(s.sent, Upto(s.spawned));
    SubsetSize(s.done, Upto(s.spawned));
  }

  lemma SendInv(s: State, i: nat)
    requires Inv(s) && Enabled(s, Send(i))
    ensures Inv(Do(s, Send(i)))
  {
    assert !s.closed;
    var s' := Do(s, Send(i));
    assert s'.collected + s'.buffer == (s.collected + s.buffer) + [i];
    assert i !in s.collected + s.buffer by { assert i !in Elements(s.collected + s.buffer); }
    assert Elements(s'.collected + s'.buffer) == s.sent + {i};
  }

  lemma ReceiveInv(s: State)
    requires Inv(s) && Enabled(s, Receive)
    ensures Inv(Do(s, Receive))
  {
    var s' := Do(s, Receive);
    assert s'.collected + s'.buffer == s.collected + s.buffer;
  }

  lemma StepInv(s: State, a: Action)
    requires Inv(s) && Enabled(s, a)
    ensures Inv(Do(s, a))
  {
    Sizes(s);
    match a {
      case Send(i) => SendInv(s, i);
      case Receive => ReceiveInv(s);
      case CloseChannel => assert s.done == Upto(s.n);
      case _ =>
    }
  }

  lemma {:induction false} InvOverRun(from: State, actions: seq<Action>, to: State)
    requires Inv(from) && Run(from, actions, to)
    ensures Inv(to) && to.n == from.n
    decreases |actions|
  {
    if actions != [] {
      StepInv(from, actions[0]);
      InvOverRun(Do(from, actions[0]), actions[1..], to);
    }
  }

  // ---------- the theorems ----------

  /**
   In every schedule: nothing panics, the channel is closed only after every worker has
   sent, and a worker at its send statement always finds the channel open and with room.
   */
  lemma NoWorkerBlocks(n: nat, actions: seq<Action>, s: State)
    requires Run(Initial(n), actions, s)
    ensures !s.panicked
    ensures s.closed ==> s.sent == Upto(n)
    ensures forall i | WantsToSend(s, i) :: !s.closed && Enabled(s, Send(i))
  {
    InitialInv(n);
    InvOverRun(Initial(n), actions, s);
    Sizes(s);
    if s.closed {
      UptoSize(n);
      SubsetSize(s.sent, Upto(n));
    }
  }

  /** No deadlock: until the handler has its answer, some goroutine can go on. */
  lemma NoDeadlock(n: nat, actions: seq<Action>, s: State) returns (a: Action)
    requires Run(Initial(n), actions, s) && !s.main.Returned?
    ensures Enabled(s, a)
  {
    InitialInv(n);
    InvOverRun(Initial(n), actions, s);
    Sizes(s);
    if s.main.Spawning? {
      a := if s.spawned < s.n then Spawn else StartCloser;
    } else if s.buffer != [] {
      a := Receive;
    } else if s.closed {
      a := Return;
    } else if i :| i in Upto(s.n) && i !in s.done {
      if i !in s.results {
        a := Fetch(i, Failed(""));
      } else if i !in s.sent {
        a := Send(i);
      } else {
        a := WorkerDone(i);
      }
    } else {
      assert s.done == Upto(s.n);
      UptoSize(s.n);
      a := CloseChannel;
    }
  }

  /** How much is still to be done. */
  function Remaining(s: State): int {
    5 * s.n + 3 - s.spawned - |s.results| - |s.sent| - |s.done| - |s.collected|
    - (if s.closed then 1 else 0)
    - (match s.main case Spawning => 0 case Collecting => 1 case Returned => 2)
  }

  lemma StepDecreases(s: State, a: Action)
    requires Inv(s) && Enabled(s, a)
    ensures Remaining(Do(s, a)) == Remaining(s) - 1
  {
    StepInv(s, a);
    assert !Do(s, a).panicked;
  }

  lemma {:induction false} RunLength(from: State, actions: seq<Action>, to: State)
    requires Inv(from) && Run(from, actions, to)
    ensures Inv(to) && |actions| == Remaining(from) - Remaining(to)
    decreases |actions|
  {
    if actions != [] {
      StepInv(from, actions[0]);
      StepDecreases(from, actions[0]);
      RunLength(Do(from, actions[0]), actions[1..], to);
    }
  }

  /** Every schedule is finite: no run has more than 5n + 3 steps. */
  lemma EveryRunEnds(n: nat, actions: seq<Action>, s: State)
    requires Run(Initial(n), actions, s)
    ensures |actions| <= 5 * n + 3
  {
    InitialInv(n);
    RunLength(Initial(n), actions, s);
    Sizes(s);
    UptoSize(s.spawned);
  }

  // ---------- the response ----------

  ghost predicate Known(order: seq<nat>, results: map<nat, Outcome>) {
    forall k | 0 <= k < |order| :: order[k] in results
  }

  function RowsIn(o: Outcome): seq<Application> {
    if o.Rows? then o.rows else []
  }

  /** The rows of the collected answers, in the order of their arrival. */
  function RowsOf(order: seq<nat>, results: map<nat, Outcome>): seq<Application>
    requires Known(order, results)
  {
    if order == [] then []
    else RowsOf(order[..|order| - 1], results) + RowsIn(results[order[|order| - 1]])
  }

  /** The senders of an error, in the order of their arrival. */
  function FailuresOf(order: seq<nat>, results: map<nat, Outcome>): seq<nat>
    requires Known(order, results)
  {
    if order == [] then []
    else
      var last := order[|order| - 1];
      FailuresOf(order[..|order| - 1], results) + if results[last].Failed? then [last] else []
  }

  /** The numbers below `n` in order. */
  function InOrder(n: nat): seq<nat> {
    seq(n, i => i)
  }

  lemma KnownParts(xs: seq<nat>, ys: seq<nat>, results: map<nat, Outcome>)
    ensures Known(xs + ys, results) <==> Known(xs, results) && Known(ys, results)
  {
    assert forall k | 0 <= k < |xs| :: (xs + ys)[k] == xs[k];
    assert forall k | 0 <= k < |ys| :: (xs + ys)[|xs| + k] == ys[k];
  }

  lemma {:induction false} RowsAppend(xs: seq<nat>, ys: seq<nat>, results: map<nat, Outcome>)
    requires Known(xs, results) && Known(ys, results) && Known(xs + ys, results)
    ensures RowsOf(xs + ys, results) == RowsOf(xs, results) + RowsOf(ys, results)
    decreases |ys|
  {
    if ys == [] {
      assert xs + ys == xs;
    } else {
      var front := ys[..|ys| - 1];
      assert (xs + ys)[..|xs + ys| - 1] == xs + front;
      KnownParts(xs, front, results);
      RowsAppend(xs, front, results);
      Regroup(RowsOf(xs, results), RowsOf(front, results), RowsIn(results[ys[|ys| - 1]]));
    }
  }

  lemma {:induction false} FailuresAppend(xs: seq<nat>, ys: seq<nat>, results: map<nat, Outcome>)
    requires Known(xs, results) && Known(ys, results) && Known(xs + ys, results)
    ensures FailuresOf(xs + ys, results) == FailuresOf(xs, results) + FailuresOf(ys, results)
    decreases |ys|
  {
    if ys == [] {
      assert xs + ys == xs;
    } else {
      var front := ys[..|ys| - 1];
      assert (xs + ys)[..|xs + ys| - 1] == xs + front;
      KnownParts(xs, front, results);
      FailuresAppend(xs, front, results);
      var last := ys[|ys| - 1];
      Regroup(FailuresOf(xs, results), FailuresOf(front, results), if results[last].Failed? then [last] else []);
    }
  }

  /** One answer puts its rows into the response, or its sender among the failures. */
  lemma OneAnswer(x: nat, results: map<nat, Outcome>)
    requires x in results
    ensures Known([x], results)
    ensures results[x].Rows? ==> RowsOf([x], results) == results[x].rows && FailuresOf([x], results) == []
    ensures results[x].Failed? ==> RowsOf([x], results) == [] && FailuresOf([x], results) == [x]
  {
    assert [x][..0] == [];
  }

  lemma TakeOutKnown(a: seq<nat>, x: nat, b: seq<nat>, results: map<nat, Outcome>)
    requires Known(a + [x] + b, results)
    ensures x in results && Known(a, results) && Known([x], results) && Known(b, results)
    ensures Known(a + [x], results) && Known(a + b, results)
  {
    KnownParts(a + [x], b, results);
    KnownParts(a, [x], results);
    KnownParts(a, b, results);
    assert [x][0] in results;
  }

  /** Taking one answer out of the order takes its rows out of the response. */
  lemma TakeOutRows(a: seq<nat>, x: nat, b: seq<nat>, results: map<nat, Outcome>)
    requires Known(a + [x] + b, results)
    ensures x in results && Known(a + b, results)
    ensures multiset(RowsOf(a + [x] + b, results)) == multiset(RowsOf(a + b, results)) + multiset(RowsIn(results[x]))
  {
    TakeOutKnown(a, x, b, results);
    OneAnswer(x, results);
    RowsAppend(a, [x], results);
    RowsAppend(a + [x], b, results);
    RowsAppend(a, b, results);
  }

  /** And its error. */
  lemma TakeOutFailures(a: seq<nat>, x: nat, b: seq<nat>, results: map<nat, Outcome>)
    requires Known(a + [x] + b, results)
    ensures x in results && Known(a + b, results)
    ensures multiset(FailuresOf(a + [x] + b, results)) ==
            multiset(FailuresOf(a + b, results)) + multiset(if results[x].Failed? then [x] else [])
  {
    TakeOutKnown(a, x, b, results);
    OneAnswer(x, results);
    FailuresAppend(a, [x], results);
    FailuresAppend(a + [x], b, results);
    FailuresAppend(a, b, results);
  }

  lemma WithoutOne(xs: seq<nat>, k: nat)
    requires NoRepeats(xs) && k < |xs|
    ensures NoRepeats(xs[..k] + xs[k + 1..])
    ensures Elements(xs[..k] + xs[k + 1..]) == Elements(xs) - {xs[k]}
  {
    var ys := xs[..k] + xs[k + 1..];
    assert forall i | 0 <= i < |ys| :: ys[i] == if i < k then xs[i] else xs[i + 1];
    assert forall i | 0 <= i < |xs| && i != k :: xs[i] == ys[if i < k then i else i - 1];
  }

  lemma SplitAt(xs: seq<nat>, x: nat) returns (a: seq<nat>, b: seq<nat>)
    requires NoRepeats(xs) && x in xs
    ensures xs == a + [x] + b
    ensures NoRepeats(a + b) && Elements(a + b) == Elements(xs) - {x}
  {
    var k :| 0 <= k < |xs| && xs[k] == x;
    a, b := xs[..k], xs[k + 1..];
    WithoutOne(xs, k);
  }

  /** The order of arrival makes no difference to what is in the response. */
  lemma {:induction false} ArrivalOrderIrrelevant(xs: seq<nat>, ys: seq<nat>, results: map<nat, Outcome>)
    requires NoRepeats(xs) && NoRepeats(ys) && Elements(xs) == Elements(ys)
    requires Known(xs, results) && Known(ys, results)
    ensures multiset(RowsOf(xs, results)) == multiset(RowsOf(ys, results))
    ensures multiset(FailuresOf(xs, results)) == multiset(FailuresOf(ys, results))
    decreases |xs|
  {
    NoRepeatsSize(xs);
    NoRepeatsSize(ys);
    if xs != [] {
      var x := xs[0];
      assert x in Elements(ys);
      var xa, xb := SplitAt(xs, x);
      var ya, yb := SplitAt(ys, x);
      TakeOutRows(xa, x, xb, results);
      TakeOutRows(ya, x, yb, results);
      TakeOutFailures(xa, x, xb, results);
      TakeOutFailures(ya, x, yb, results);
      ArrivalOrderIrrelevant(xa + xb, ya + yb, results);
    }
  }

  /** Nothing is left in the channel when the handler returns. */
  lemma AllCollected(n: nat, actions: seq<Action>, s: State)
    requires Run(Initial(n), actions, s) && s.main.Returned?
    ensures s.results.Keys == Upto(n) && NoRepeats(s.collected) && Elements(s.collected) == Upto(n)
  {
    NoWorkerBlocks(n, actions, s);
    InitialInv(n);
    InvOverRun(Initial(n), actions, s);
    assert s.collected + s.buffer == s.collected;
  }

  /**
   When the handler has its answer, every permitted entry has been collected exactly once:
   the response holds each entry's rows, or exactly one error for it, and nothing else.
   */
  lemma AnswerIsComplete(n: nat, actions: seq<Action>, s: State)
    requires Run(Initial(n), actions, s) && s.main.Returned?
    ensures s.results.Keys == Upto(n) && NoRepeats(s.collected) && Elements(s.collected) == Upto(n)
    ensures Known(s.collected, s.results) && Known(InOrder(n), s.results)
    ensures multiset(RowsOf(s.collected, s.results)) == multiset(RowsOf(InOrder(n), s.results))
    ensures multiset(FailuresOf(s.collected, s.results)) == multiset(FailuresOf(InOrder(n), s.results))
  {
    AllCollected(n, actions, s);
    InOrderIsUpto(n);
    forall k | 0 <= k < |s.collected| ensures s.collected[k] in s.results {
      assert s.collected[k] in Elements(s.collected);
    }
    ArrivalOrderIrrelevant(s.collected, InOrder(n), s.results);
  }

  lemma InOrderIsUpto(n: nat)
    ensures NoRepeats(InOrder(n)) && Elements(InOrder(n)) == Upto(n)
  {
    forall i ensures i in InOrder(n) <==> i in Upto(n) {
      if i in Upto(n) { assert InOrder(n)[i] == i; }
    }
    assert Elements(InOrder(n)) == Upto(n);
  }

  /** The order of the response: by cluster, namespace and name. */
  predicate AppLess(a: Application, b: Application) {
    if a.cluster != b.cluster then Less(a.cluster, b.cluster)
    else if a.ns != b.ns then Less(a.ns, b.ns)
    else Less(a.name, b.name)
  }

  lemma AppLessIsStrictWeak()
    ensures StrictWeak(AppLess)
  {
    forall a, b, c
      ensures AppLess(a, b) ==> !AppLess(b, a)
      ensures !AppLess(b, a) && !AppLess(c, b) ==> !AppLess(c, a)
    {
      LessIsStrictWeak(a.cluster, b.cluster, c.cluster);
      LessIsStrictWeak(a.ns, b.ns, c.ns);
      LessIsStrictWeak(a.name, b.name, c.name);
      LessIsTotal(a.cluster, b.cluster);
      LessIsTotal(b.cluster, c.cluster);
      LessIsTotal(a.ns, b.ns);
      LessIsTotal(b.ns, c.ns);
    }
  }

  /** The response is by cluster, then by namespace, then by name. */
  lemma AppsInOrder(apps: seq<Application>)
    requires Sorted(apps, AppLess)
    ensures forall i, j | 0 <= i < j < |apps| ::
              var a, b := apps[i], apps[j];
              && (a.cluster == b.cluster || Less(a.cluster, b.cluster))
              && (a.cluster == b.cluster ==> a.ns == b.ns || Less(a.ns, b.ns))
              && (a.cluster == b.cluster && a.ns == b.ns ==> a.name == b.name || Less(a.name, b.name))
  {
    forall i, j | 0 <= i < j < |apps|
      ensures var a, b := apps[i], apps[j];
              && (a.cluster == b.cluster || Less(a.cluster, b.cluster))
              && (a.cluster == b.cluster ==> a.ns == b.ns || Less(a.ns, b.ns))
              && (a.cluster == b.cluster && a.ns == b.ns ==> a.name == b.name || Less(a.name, b.name))
    {
      assert !AppLess(apps[j], apps[i]);
      LessIsTotal(apps[i].cluster, apps[j].cluster);
      LessIsTotal(apps[i].ns, apps[j].ns);
      LessIsTotal(apps[i].name, apps[j].name);
    }
  }

  /** The collector's loop and the sort, for the answers in the order of their arrival. */
  method Respond(order: seq<nat>, results: map<nat, Outcome>)
    returns (apps: seq<Application>, errors: seq<(nat, string)>)
    requires Known(order, results)
    ensures Sorted(apps, AppLess) && multiset(apps) == multiset(RowsOf(order, results))
    ensures |errors| == |FailuresOf(order, results)|
    ensures forall k | 0 <= k < |errors| ::
              && FailuresOf(order, results)[k] == errors[k].0
              && errors[k].0 in results && results[errors[k].0] == Failed(errors[k].1)
  {
    var rows: seq<Application> := [];
    errors := [];
    for k := 0 to |order|
      invariant rows == RowsOf(order[..k], results)
      invariant |errors| == |FailuresOf(order[..k], results)|
      invariant forall j | 0 <= j < |errors| ::
                  && FailuresOf(order[..k], results)[j] == errors[j].0
                  && errors[j].0 in results && results[errors[j].0] == Failed(errors[j].1)
    {
      assert order[..k + 1][..k] == order[..k];
      var res := results[order[k]];
      if res.Failed? {
        errors := errors + [(order[k], res.error)];
      } else {
        rows := rows + res.rows;
      }
    }
    assert order[..|order|] == order;
    AppLessIsStrictWeak();
    apps := Sort(rows, AppLess);
  }
}
