/**
 The bounded parallel fetch of internal/api/tree.go (fetchInventory) and
 internal/api/diff.go (checkDrift): one goroutine per reference, at most 16 at a time
 behind a semaphore channel, each writing its own slot of the result.
 */
module Inventory {
  import opened Indices

  /** maxConcurrentInventoryFetches: the capacity of the semaphore channel. */
  const MAX_CONCURRENT: nat := 16

  /** The loop of the main goroutine: before wg.Add, before `sem <-`, before `go`, in wg.Wait, returned. */
  datatype Main = AtAdd | AtAcquire | AtGo | AtWait | Returned

  /**
   `next` workers have been started.  Each goes on to be in `fetched` (its fetch has
   returned), `written` (slot assigned), `released` (token taken back out of the
   semaphore) and `done` (left the wait group).  `answers` are the fetched values and
   `writes` counts the assignments to each slot.
   */
  datatype State<R> = State(
    n: nat,
    main: Main,
    next: nat,
    wg: int,
    tokens: nat,
    answers: map<nat, R>,
    written: set<nat>,
    released: set<nat>,
    done: set<nat>,
    out: map<nat, R>,
    writes: map<nat, nat>)

  function Initial<R>(n: nat): State<R> {
    State(n, if n == 0 then AtWait else AtAdd, 0, 0, 0, map[], {}, {}, {}, map[], map[])
  }

  datatype Action<R> =
    | Add
    | Acquire
    | Go
    | Fetch(i: nat, answer: R)
    | Write(i: nat)
    | Release(i: nat)
    | WorkerDone(i: nat)
    | Return

  predicate Enabled<R>(s: State<R>, a: Action<R>) {
    match a
    case Add => s.main.AtAdd?
    case Acquire => s.main.AtAcquire? && s.tokens < MAX_CONCURRENT
    case Go => s.main.AtGo?
    case Fetch(i, _) => i < s.next && i !in s.answers
    case Write(i) => i in s.answers && i !in s.written
    case Release(i) => AtRelease(s, i) && s.tokens > 0
    case WorkerDone(i) => i in s.released && i !in s.done
    case Return => s.main.AtWait? && s.wg == 0
  }

  /** Worker `i` is about to take its token out of the semaphore. */
  predicate AtRelease<R>(s: State<R>, i: nat) {
    i in s.written && i !in s.released
  }

  function WritesAt<R>(s: State<R>, i: nat): nat {
    if i in s.writes then s.writes[i] else 0
  }

  function Do<R>(s: State<R>, a: Action<R>): State<R>
    requires Enabled(s, a)
  {
    match a
    case Add => s.(main := AtAcquire, wg := s.wg + 1)
    case Acquire => s.(main := AtGo, tokens := s.tokens + 1)
    case Go => s.(main := if s.next + 1 < s.n then AtAdd else AtWait, next := s.next + 1)
    case Fetch(i, answer) => s.(answers := s.answers[i := answer])
    case Write(i) =>
      s.(out := s.out[i := s.answers[i]], writes := s.writes[i := WritesAt(s, i) + 1], written := s.written + {i})
    case Release(i) => s.(tokens := s.tokens - 1, released := s.released + {i})
    case WorkerDone(i) => s.(wg := s.wg - 1, done := s.done + {i})
    case Return => s.(main := Returned)
  }

  ghost predicate Run<R>(from: State<R>, actions: seq<Action<R>>, to: State<R>)
    decreases |actions|
  {
    if actions == [] then from == to
    else Enabled(from, actions[0]) && Run(Do(from, actions[0]), actions[1..], to)
  }

  /** The workers that have been started and still hold their token. */
  function InFlight<R>(s: State<R>): set<nat> {
    Upto(s.next) - s.released
  }

  // ---------- the invariant ----------

  ghost predicate Inv<R>(s: State<R>) {
    && s.next <= s.n
    && (s.main.AtAdd? || s.main.AtAcquire? || s.main.AtGo? ==> s.next < s.n)
    && (s.main.AtWait? || s.main.Returned? ==> s.next == s.n)
    && s.done <= s.released <= s.written <= s.answers.Keys <= Upto(s.next)
    && s.wg == s.next - |s.done| + (if s.main.AtAcquire? || s.main.AtGo? then 1 else 0)
    && s.tokens == s.next - |s.released| + (if s.main.AtGo? then 1 else 0)
    && s.tokens <= MAX_CONCURRENT
    && s.out.Keys == s.writes.Keys == s.written
    && (forall i | i in s.written :: s.out[i] == s.answers[i] && s.writes[i] == 1)
    && (s.main.Returned? ==> s.wg == 0)
  }

  lemma InitialInv<R>(n: nat)
    ensures Inv(Initial<R>(n))
  {
  }

  lemma Sizes<R>(s: State<R>)
    requires Inv(s)
    ensures |s.done| <= |s.released| <= |s.written| <= |s.answers| <= s.next
    ensures |s.done| == s.next ==> s.done == Upto(s.next)
    ensures |s.released| == s.next ==> s.released == Upto(s.next)
    ensures |InFlight(s)| == s.next - |s.released|
    ensures (exists i :: AtRelease(s, i)) ==> |s.released| < s.next
  {
    UptoSize(s.next);
    SubsetSize(s.done, s.released);
    SubsetSize(s.released, s.written);
    SubsetSize(s.written, s.answers.Keys);
    SubsetSize(s.answers.Keys, Upto(s.next));
    SubsetSize(s.released, Upto(s.next));
    SubsetSize(s.done, Upto(s.next));
    assert Upto(s.next) == InFlight(s) + s.released;
  }

  lemma FetchInv<R>(s: State<R>, i: nat, answer: R)
    requires Inv(s) && Enabled(s, Fetch(i, answer))
    ensures Inv(Do(s, Fetch(i, answer))) && Remaining(Do(s, Fetch(i, answer))) == Remaining(s) - 1
  {
    assert s.answers[i := answer].Keys == s.answers.Keys + {i};
  }

  lemma WriteInv<R>(s: State<R>, i: nat)
    requires Inv(s) && Enabled(s, Action<R>.Write(i))
    ensures Inv(Do(s, Action<R>.Write(i))) && Remaining(Do(s, Action<R>.Write(i))) == Remaining(s) - 1
  {
    assert i !in s.writes && i in s.answers;
    var s' := Do(s, Action<R>.Write(i));
    assert s'.written == s.written + {i} && |s'.written| == |s.written| + 1;
    assert s'.out.Keys == s.out.Keys + {i} && s'.writes.Keys == s.writes.Keys + {i};
  }

  lemma ReleaseInv<R>(s: State<R>, i: nat)
    requires Inv(s) && Enabled(s, Action<R>.Release(i))
    ensures Inv(Do(s, Action<R>.Release(i))) && Remaining(Do(s, Action<R>.Release(i))) == Remaining(s) - 1
  {
  }

  lemma WorkerDoneInv<R>(s: State<R>, i: nat)
    requires Inv(s) && Enabled(s, Action<R>.WorkerDone(i))
    ensures Inv(Do(s, Action<R>.WorkerDone(i))) && Remaining(Do(s, Action<R>.WorkerDone(i))) == Remaining(s) - 1
  {
    Sizes(s);
    UptoSize(s.next);
    SubsetSize(s.done + {i}, Upto(s.next));
  }

  lemma MainStepInv<R>(s: State<R>, a: Action<R>)
    requires Inv(s) && Enabled(s, a) && (a.Add? || a.Acquire? || a.Go? || a.Return?)
    ensures Inv(Do(s, a)) && Remaining(Do(s, a)) == Remaining(s) - 1
  {
  }

  lemma StepInv<R>(s: State<R>, a: Action<R>)
    requires Inv(s) && Enabled(s, a)
    ensures Inv(Do(s, a)) && Remaining(Do(s, a)) == Remaining(s) - 1
  {
    match a {
      case Fetch(i, answer) => FetchInv(s, i, answer);
      case Write(i) => WriteInv(s, i);
      case Release(i) => ReleaseInv(s, i);
      case WorkerDone(i) => WorkerDoneInv(s, i);
      case _ => MainStepInv(s, a);
    }
  }

  lemma {:induction false} InvOverRun<R>(from: State<R>, actions: seq<Action<R>>, to: State<R>)
    requires Inv(from) && Run(from, actions, to)
    ensures Inv(to) && to.n == from.n
    decreases |actions|
  {
    if actions != [] {
      StepInv(from, actions[0]);
      InvOverRun(Do(from, actions[0]), actions[1..], to);
    }
  }

  // ---------- the theorems ----------

  /** In every schedule at most 16 workers hold a token, and none waits to give its token back. */
  lemma AtMost16InFlight<R>(n: nat, actions: seq<Action<R>>, s: State<R>)
    requires Run(Initial(n), actions, s)
    ensures |InFlight(s)| <= 16
    ensures forall i | AtRelease(s, i) :: Enabled(s, Release(i))
  {
    InitialInv<R>(n);
    InvOverRun(Initial(n), actions, s);
    Sizes(s);
  }

  /** And 16 can be in flight at a time, or as many as there are references. */
  lemma {:induction false} SixteenTogether<R>(n: nat, k: nat) returns (actions: seq<Action<R>>, s: State<R>)
    requires k <= n && k <= 16
    ensures Run(Initial(n), actions, s) && InFlight(s) == Upto(k) && |InFlight(s)| == k
    ensures s == Initial<R>(n).(main := if k < n then AtAdd else AtWait, next := k, wg := k, tokens := k)
  {
    UptoSize(k);
    if k == 0 {
      actions, s := [], Initial(n);
    } else {
      actions, s := SixteenTogether(n, k - 1);
      actions, s := OneMoreWorker(n, k - 1, actions, s);
    }
  }

  lemma OneMoreWorker<R>(n: nat, k: nat, before: seq<Action<R>>, mid: State<R>)
    returns (actions: seq<Action<R>>, s: State<R>)
    requires k < n && k < 16 && Run(Initial(n), before, mid)
    requires mid == Initial<R>(n).(main := AtAdd, next := k, wg := k, tokens := k)
    ensures Run(Initial(n), actions, s)
    ensures s == mid.(main := if k + 1 < n then AtAdd else AtWait, next := k + 1, wg := k + 1, tokens := k + 1)
  {
    actions, s := Then(Initial(n), before, mid, Add);
    actions, s := Then(Initial(n), actions, s, Acquire);
    actions, s := Then(Initial(n), actions, s, Go);
  }

  /** One more action at the end of a run. */
  lemma Then<R>(from: State<R>, actions: seq<Action<R>>, mid: State<R>, a: Action<R>)
    returns (more: seq<Action<R>>, to: State<R>)
    requires Run(from, actions, mid) && Enabled(mid, a)
    ensures Run(from, more, to) && to == Do(mid, a)
  {
    more, to := actions + [a], Do(mid, a);
    assert [a][1..] == [];
    assert Run(mid, [a], to);
    RunConcat(from, actions, mid, [a], to);
  }

  lemma {:induction false} RunConcat<R>(s0: State<R>, xs: seq<Action<R>>, s1: State<R>, ys: seq<Action<R>>,
                                        s2: State<R>)
    requires Run(s0, xs, s1) && Run(s1, ys, s2)
    ensures Run(s0, xs + ys, s2)
    decreases |xs|
  {
    if xs == [] {
      assert xs + ys == ys;
    } else {
      assert (xs + ys)[1..] == xs[1..] + ys;
      RunConcat(Do(s0, xs[0]), xs[1..], s1, ys, s2);
    }
  }

  /** In every schedule each slot is written at most once, with the answer to its own reference. */
  lemma SlotsAreWrittenOnce<R>(n: nat, actions: seq<Action<R>>, s: State<R>)
    requires Run(Initial(n), actions, s)
    ensures forall i | i in s.writes ::
              i < n && s.writes[i] == 1 && i in s.answers && i in s.out && s.out[i] == s.answers[i]
  {
    InitialInv<R>(n);
    InvOverRun(Initial(n), actions, s);
  }

  /** When the fetch returns, every slot has been written exactly once and holds the answer for its reference. */
  lemma ResultIsComplete<R>(n: nat, actions: seq<Action<R>>, s: State<R>)
    requires Run(Initial(n), actions, s) && s.main.Returned?
    ensures forall i: nat | i < n :: i in s.writes && s.writes[i] == 1
    ensures forall i: nat | i < n :: i in s.answers && i in s.out && s.out[i] == s.answers[i]
    ensures s.done == Upto(n) && s.tokens == 0
  {
    InitialInv<R>(n);
    InvOverRun(Initial(n), actions, s);
    Sizes(s);
    UptoSize(n);
  }

  /** No deadlock: until the fetch has returned, some goroutine can go on, whatever value a fetch may give. */
  lemma NoDeadlock<R>(n: nat, actions: seq<Action<R>>, s: State<R>, some: R) returns (a: Action<R>)
    requires Run(Initial(n), actions, s) && !s.main.Returned?
    ensures Enabled(s, a)
  {
    InitialInv<R>(n);
    InvOverRun(Initial(n), actions, s);
    Sizes(s);
    if s.main.AtAdd? {
      a := Add;
    } else if s.main.AtGo? {
      a := Go;
    } else if s.main.AtAcquire? && s.tokens < MAX_CONCURRENT {
      a := Acquire;
    } else if i :| i in Upto(s.next) && i !in s.done {
      if i !in s.answers {
        a := Fetch(i, some);
      } else if i !in s.written {
        a := Write(i);
      } else if i !in s.released {
        a := Release(i);
      } else {
        a := WorkerDone(i);
      }
    } else {
      assert s.done == Upto(s.next);
      UptoSize(s.next);
      a := Return;
    }
  }

  /** How much is still to be done. */
  function Remaining<R>(s: State<R>): int {
    7 * s.n + 1 - 3 * s.next - |s.answers| - |s.written| - |s.released| - |s.done|
    - (match s.main case AtAcquire => 1 case AtGo => 2 case Returned => 1 case _ => 0)
  }

  lemma {:induction false} RunLength<R>(from: State<R>, actions: seq<Action<R>>, to: State<R>)
    requires Inv(from) && Run(from, actions, to)
    ensures Inv(to) && |actions| == Remaining(from) - Remaining(to)
    decreases |actions|
  {
    if actions != [] {
      StepInv(from, actions[0]);
      RunLength(Do(from, actions[0]), actions[1..], to);
    }
  }

  lemma RemainingBounds<R>(s: State<R>)
    requires Inv(s)
    ensures Remaining(s) >= 0
    ensures s.main.Returned? ==> Remaining(s) == 0
  {
    Sizes(s);
  }

  /** Every schedule is finite: no run has more than 7n + 1 steps, and the run that returns has exactly that many. */
  lemma EveryRunEnds<R>(n: nat, actions: seq<Action<R>>, s: State<R>)
    requires Run(Initial(n), actions, s)
    ensures |actions| <= 7 * n + 1
    ensures s.main.Returned? ==> |actions| == 7 * n + 1
  {
    InitialInv<R>(n);
    RunLength(Initial(n), actions, s);
    RemainingBounds(s);
  }
}
