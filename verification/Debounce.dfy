/**
 The debounced query invalidation of web/src/lib/stream.ts: scheduleInvalidate, the event
 listener and the teardown of useInvalidationStream, with the browser's timers.
 */
module Debounce {
  import opened Wrappers

  /** DEBOUNCE_MS. */
  const DEBOUNCE: int := 300

  /** A live window timer: which query key it will invalidate, and the earliest time at which it may fire. */
  datatype Timer = Timer(key: string, due: int)

  /** `key` was invalidated at time `at`. */
  datatype Invalidation = Invalidation(key: string, at: int)

  /**
   The mounted hook and the browser.  `pending` maps query keys to timer ids; `timers` are
   the live timers; `now` is the clock; `log` is what was invalidated so far.
   */
  datatype State = State(
    pending: map<string, nat>,
    timers: map<nat, Timer>,
    nextId: nat,
    now: int,
    log: seq<Invalidation>,
    tornDown: bool)

  /** setTimeout hands out positive ids, so that every id passes the `if (existing)` test. */
  function Mounted(now: int): State {
    State(map[], map[], 1, now, [], false)
  }

  // ---------- the callbacks as functions ----------

  function Scheduled(s: State, key: string): State {
    var timers := if key in s.pending then s.timers - {s.pending[key]} else s.timers;
    s.(timers := timers[s.nextId := Timer(key, s.now + DEBOUNCE)],
       pending := s.pending[key := s.nextId],
       nextId := s.nextId + 1)
  }

  function ScheduledAll(s: State, keys: seq<string>): State {
    if keys == [] then s else Scheduled(ScheduledAll(s, keys[..|keys| - 1]), keys[|keys| - 1])
  }

  /** INVALIDATIONS: the query keys to invalidate for each kind of resource; none for a kind that is not listed. */
  function KeysFor(kind: string): seq<string> {
    if kind == "Kustomization" || kind == "HelmRelease" then
      ["applications", "app-tree", "app-events", "app-history", "app-manifest", "app-diff", "app-logs", "clusters"]
    else if kind == "GitRepository" || kind == "HelmRepository" || kind == "OCIRepository" || kind == "Bucket" then
      ["sources"]
    else if kind == "Alert" || kind == "Provider" || kind == "Receiver" then ["alerts"]
    else if kind == "ImagePolicy" || kind == "ImageRepository" || kind == "ImageUpdateAutomation" then ["image-updates"]
    else []
  }

  datatype Action =
    | Tick(to: int)
    | Event(kind: string)
    | Fire(id: nat)
    | Teardown

  /** The listener is removed at teardown; the browser fires a live timer once it is due, perhaps late. */
  predicate Enabled(s: State, a: Action) {
    match a
    case Tick(to) => s.now <= to
    case Event(_) => !s.tornDown
    case Fire(id) => id in s.timers && s.timers[id].due <= s.now
    case Teardown => !s.tornDown
  }

  function Do(s: State, a: Action): State
    requires Enabled(s, a)
  {
    match a
    case Tick(to) => s.(now := to)
    case Event(kind) => ScheduledAll(s, KeysFor(kind))
    case Fire(id) =>
      var key := s.timers[id].key;
      s.(timers := s.timers - {id}, pending := s.pending - {key}, log := s.log + [Invalidation(key, s.now)])
    case Teardown =>
      s.(timers := s.timers - s.pending.Values, pending := map[], tornDown := true)
  }

  ghost predicate Run(from: State, actions: seq<Action>, to: State)
    decreases |actions|
  {
    if actions == [] then from == to
    else Enabled(from, actions[0]) && Run(Do(from, actions[0]), actions[1..], to)
  }

  // ---------- the hook object ----------

  class Hook {
    var pending: map<string, nat>
    var timers: map<nat, Timer>
    var nextId: nat
    var now: int
    var log: seq<Invalidation>
    var tornDown: bool

    function View(): State
      reads this
    {
      State(pending, timers, nextId, now, log, tornDown)
    }

    constructor (now: int)
      ensures View() == Mounted(now)
    {
      pending, timers, nextId, this.now, log, tornDown := map[], map[], 1, now, [], false;
    }

    method ScheduleInvalidate(key: string)
      modifies this
      ensures View() == Scheduled(old(View()), key)
    {
      if key in pending {
        timers := timers - {pending[key]};
      }
      var t := nextId;
      timers := timers[t := Timer(key, now + DEBOUNCE)];
      nextId := nextId + 1;
      pending := pending[key := t];
    }

    method OnInvalidate(kind: string)
      requires Enabled(View(), Event(kind))
      modifies this
      ensures View() == Do(old(View()), Event(kind))
    {
      var keys := KeysFor(kind);
      for i := 0 to |keys|
        invariant View() == ScheduledAll(old(View()), keys[..i])
      {
        assert keys[..i + 1][..i] == keys[..i];
        ScheduleInvalidate(keys[i]);
      }
      assert keys[..|keys|] == keys;
    }

    /** The browser runs the callback of timer `id`. */
    method OnTimer(id: nat)
      requires Enabled(View(), Fire(id))
      modifies this
      ensures View() == Do(old(View()), Fire(id))
    {
      var key := timers[id].key;
      timers := timers - {id};
      pending := pending - {key};
      log := log + [Invalidation(key, now)];
    }

    /** The cleanup function of the effect. */
    method Unmount()
      requires Enabled(View(), Teardown)
      modifies this
      ensures View() == Do(old(View()), Teardown)
    {
      tornDown := true;
      var todo := pending.Keys;
      while todo != {}
        invariant todo <= pending.Keys
        invariant View() == old(View()).(tornDown := true, timers := old(timers) - IdsOf(pending, pending.Keys - todo))
        decreases todo
      {
        var key :| key in todo;
        todo := todo - {key};
        timers := timers - {pending[key]};
        assert IdsOf(pending, pending.Keys - todo) == IdsOf(pending, pending.Keys - todo - {key}) + {pending[key]};
        assert pending.Keys - todo - {key} == pending.Keys - (todo + {key});
      }
      assert IdsOf(pending, pending.Keys) == pending.Values;
      pending := map[];
    }
  }

  function IdsOf(pending: map<string, nat>, keys: set<string>): set<nat>
    requires keys <= pending.Keys
  {
    set k | k in keys :: pending[k]
  }

  // ---------- the invariant ----------

  ghost predicate Inv(s: State) {
    && 0 < s.nextId
    && (forall k | k in s.pending :: s.pending[k] in s.timers && s.timers[s.pending[k]].key == k)
    && (forall id | id in s.timers ::
          && 0 < id < s.nextId
          && s.timers[id].key in s.pending && s.pending[s.timers[id].key] == id
          && s.timers[id].due <= s.now + DEBOUNCE)
    && (s.tornDown ==> s.timers == map[])
    && (forall i | 0 <= i < |s.log| :: s.log[i].at <= s.now)
    && (forall i, id | 0 <= i < |s.log| && id in s.timers && s.timers[id].key == s.log[i].key ::
          s.log[i].at + DEBOUNCE <= s.timers[id].due)
    && (forall i, j | 0 <= i < j < |s.log| && s.log[i].key == s.log[j].key ::
          s.log[i].at + DEBOUNCE <= s.log[j].at)
  }

  lemma ScheduledInv(s: State, key: string)
    requires Inv(s) && !s.tornDown
    ensures Inv(Scheduled(s, key)) && !Scheduled(s, key).tornDown
    ensures Scheduled(s, key).now == s.now && Scheduled(s, key).log == s.log
  {
  }

  lemma {:induction false} ScheduledAllInv(s: State, keys: seq<string>)
    requires Inv(s) && !s.tornDown
    ensures Inv(ScheduledAll(s, keys)) && !ScheduledAll(s, keys).tornDown
    ensures ScheduledAll(s, keys).now == s.now && ScheduledAll(s, keys).log == s.log
    decreases |keys|
  {
    if keys != [] {
      ScheduledAllInv(s, keys[..|keys| - 1]);
      ScheduledInv(ScheduledAll(s, keys[..|keys| - 1]), keys[|keys| - 1]);
    }
  }

  lemma StepInv(s: State, a: Action)
    requires Inv(s) && Enabled(s, a)
    ensures Inv(Do(s, a))
  {
    match a {
      case Event(kind) => ScheduledAllInv(s, KeysFor(kind));
      case Teardown =>
        assert forall id | id in s.timers :: s.pending[s.timers[id].key] in s.pending.Values;
        assert s.timers - s.pending.Values == map[];
      case _ =>
    }
  }

  lemma {:induction false} InvOverRun(from: State, actions: seq<Action>, to: State)
    requires Inv(from) && Run(from, actions, to)
    ensures Inv(to) && from.now <= to.now && from.log <= to.log
    decreases |actions|
  {
    if actions != [] {
      StepInv(from, actions[0]);
      if actions[0].Event? { ScheduledAllInv(from, KeysFor(actions[0].kind)); }
      InvOverRun(Do(from, actions[0]), actions[1..], to);
    }
  }

  // ---------- the theorems ----------

  /** In every run the pending map holds exactly the live timers, at most one for each query key. */
  lemma PendingIsLive(start: int, actions: seq<Action>, s: State)
    requires Run(Mounted(start), actions, s)
    ensures forall k | k in s.pending :: s.pending[k] in s.timers && s.timers[s.pending[k]].key == k
    ensures forall id | id in s.timers :: s.timers[id].key in s.pending && s.pending[s.timers[id].key] == id
    ensures forall id, id' | id in s.timers && id' in s.timers && s.timers[id].key == s.timers[id'].key :: id == id'
  {
    InvOverRun(Mounted(start), actions, s);
  }

  /** In every run two invalidations of one query key are at least 300 ms apart. */
  lemma InvalidationsAreSpaced(start: int, actions: seq<Action>, s: State)
    requires Run(Mounted(start), actions, s)
    ensures forall i, j | 0 <= i < j < |s.log| && s.log[i].key == s.log[j].key :: s.log[j].at - s.log[i].at >= 300
  {
    InvOverRun(Mounted(start), actions, s);
  }

  /** After teardown nothing is invalidated any more. */
  lemma NothingAfterTeardown(start: int, before: seq<Action>, s: State, after: seq<Action>, s': State)
    requires Run(Mounted(start), before, s) && s.tornDown && Run(s, after, s')
    ensures s'.log == s.log && s'.timers == map[] && s'.tornDown
  {
    InvOverRun(Mounted(start), before, s);
    StaysDown(s, after, s');
  }

  lemma {:induction false} StaysDown(s: State, actions: seq<Action>, s': State)
    requires Inv(s) && s.tornDown && Run(s, actions, s')
    ensures s'.log == s.log && s'.timers == map[] && s'.tornDown
    decreases |actions|
  {
    if actions != [] {
      StepInv(s, actions[0]);
      StaysDown(Do(s, actions[0]), actions[1..], s');
    }
  }

  /** Which query keys an event of each kind invalidates. */
  lemma KindsInvalidate(kind: string, key: string)
    ensures key in KeysFor(kind) <==>
            || ((kind == "Kustomization" || kind == "HelmRelease") &&
                (key == "applications" || key == "app-tree" || key == "app-events" || key == "app-history"
                 || key == "app-manifest" || key == "app-diff" || key == "app-logs" || key == "clusters"))
            || ((kind == "GitRepository" || kind == "HelmRepository" || kind == "OCIRepository" || kind == "Bucket") &&
                key == "sources")
            || ((kind == "Alert" || kind == "Provider" || kind == "Receiver") && key == "alerts")
            || ((kind == "ImagePolicy" || kind == "ImageRepository" || kind == "ImageUpdateAutomation") &&
                key == "image-updates")
  {
  }

  /** An event gives each of its keys a timer due in exactly 300 ms, and leaves the timers of all other keys alone. */
  lemma EventSetsTimers(start: int, actions: seq<Action>, s: State, kind: string, key: string)
    requires Run(Mounted(start), actions, s) && !s.tornDown
    ensures var s' := Do(s, Event(kind));
            if key in KeysFor(kind) then
              key in s'.pending && s'.pending[key] in s'.timers && s'.timers[s'.pending[key]] == Timer(key, s.now + 300)
            else
              (key in s'.pending <==> key in s.pending) &&
              (key in s.pending ==>
                 s'.pending[key] in s'.timers && s.pending[key] in s.timers &&
                 s'.timers[s'.pending[key]] == s.timers[s.pending[key]])
  {
    InvOverRun(Mounted(start), actions, s);
    ScheduledAllInv(s, KeysFor(kind));
    ScheduledAllKey(s, KeysFor(kind), key);
  }

  // ---------- bursts ----------

  /** The action is an event that invalidates `key`. */
  predicate Touches(a: Action, key: string) {
    a.Event? && key in KeysFor(a.kind)
  }

  /**
   The events for `key` in the run form one burst: each comes less than 300 ms after the
   one before, the first less than 300 ms after `last` if there is a `last`.
   */
  ghost predicate Burst(s: State, actions: seq<Action>, key: string, last: Option<int>)
    decreases |actions|
  {
    actions == [] ||
    (Enabled(s, actions[0]) &&
     if Touches(actions[0], key)
     then (last.Some? ==> s.now < last.value + DEBOUNCE) && Burst(Do(s, actions[0]), actions[1..], key, Some(s.now))
     else Burst(Do(s, actions[0]), actions[1..], key, last))
  }

  /** When `key` was invalidated. */
  function TimesOf(log: seq<Invalidation>, key: string): seq<int> {
    if log == [] then []
    else
      var last := log[|log| - 1];
      TimesOf(log[..|log| - 1], key) + if last.key == key then [last.at] else []
  }

  /** The time of the last event for `key`, of a run that begins at time `now`; `last` if there is none. */
  function LastEvent(now: int, actions: seq<Action>, key: string, last: int): int
    decreases |actions|
  {
    if actions == [] then last
    else
      var a := actions[0];
      LastEvent(if a.Tick? then a.to else now, actions[1..], key, if Touches(a, key) then now else last)
  }

  ghost predicate Touched(actions: seq<Action>, key: string) {
    exists i :: 0 <= i < |actions| && Touches(actions[i], key)
  }

  lemma {:induction false} ScheduledAllKey(s: State, keys: seq<string>, key: string)
    requires Inv(s) && !s.tornDown
    ensures var s' := ScheduledAll(s, keys);
            && Inv(s')
            && (key in s'.pending <==> key in s.pending || key in keys)
            && (key in keys ==> s'.timers[s'.pending[key]].due == s.now + DEBOUNCE)
            && (key !in keys && key in s.pending ==> s'.timers[s'.pending[key]] == s.timers[s.pending[key]])
    decreases |keys|
  {
    ScheduledAllInv(s, keys);
    if keys != [] {
      var front := keys[..|keys| - 1];
      assert keys == front + [keys[|keys| - 1]];
      ScheduledAllInv(s, front);
      ScheduledAllKey(s, front, key);
    }
  }

  /** In the middle of a burst: a timer for `key` is set, and due 300 ms after the last event. */
  ghost predicate Waiting(s: State, key: string, last: int) {
    key in s.pending && s.pending[key] in s.timers && s.timers[s.pending[key]].due == last + DEBOUNCE
  }

  /** After the burst's invalidation: no further event can belong to the burst. */
  ghost predicate Over(s: State, key: string, last: int) {
    key !in s.pending && last + DEBOUNCE <= s.now
  }

  /** `key` was invalidated once more, at least 300 ms after `last`. */
  ghost predicate OneMore(s: State, s': State, key: string, last: int) {
    var was, times := TimesOf(s.log, key), TimesOf(s'.log, key);
    |times| == |was| + 1 && was <= times && times[|was|] >= last + DEBOUNCE
  }

  lemma {:induction false} OverStays(s: State, actions: seq<Action>, s': State, key: string, last: int)
    requires Inv(s) && Over(s, key, last) && Run(s, actions, s') && Burst(s, actions, key, Some(last))
    ensures TimesOf(s'.log, key) == TimesOf(s.log, key)
    ensures LastEvent(s.now, actions, key, last) == last
    decreases |actions|
  {
    if actions != [] {
      var a := actions[0];
      StepInv(s, a);
      assert !Touches(a, key);
      if a.Event? { ScheduledAllInv(s, KeysFor(a.kind)); ScheduledAllKey(s, KeysFor(a.kind), key); }
      if a.Fire? { assert (s.log + [Invalidation(s.timers[a.id].key, s.now)])[..|s.log|] == s.log; }
      OverStays(Do(s, a), actions[1..], s', key, last);
    }
  }

  lemma {:induction false} WaitingFires(s: State, actions: seq<Action>, s': State, key: string, last: int)
    requires Inv(s) && Waiting(s, key, last) && Run(s, actions, s') && Burst(s, actions, key, Some(last))
    requires key !in s'.pending && !s'.tornDown
    ensures OneMore(s, s', key, LastEvent(s.now, actions, key, last))
    decreases |actions|
  {
    if actions != [] {
      var a := actions[0];
      StepInv(s, a);
      var next := Do(s, a);
      match a {
        case Event(kind) =>
          ScheduledAllInv(s, KeysFor(kind));
          ScheduledAllKey(s, KeysFor(kind), key);
          WaitingFires(next, actions[1..], s', key, if Touches(a, key) then s.now else last);
        case Fire(id) =>
          assert next.log[..|s.log|] == s.log;
          if s.timers[id].key == key {
            OverStays(next, actions[1..], s', key, last);
          } else {
            WaitingFires(next, actions[1..], s', key, last);
          }
        case Tick(_) =>
          WaitingFires(next, actions[1..], s', key, last);
        case Teardown =>
          TornDownStays(next, actions[1..], s');
      }
    }
  }

  lemma {:induction false} TornDownStays(s: State, actions: seq<Action>, s': State)
    requires s.tornDown && Run(s, actions, s')
    ensures s'.tornDown
    decreases |actions|
  {
    if actions != [] { TornDownStays(Do(s, actions[0]), actions[1..], s'); }
  }

  /** An event that does not touch the key, a firing of another timer, or the clock. */
  lemma Elsewhere(s: State, a: Action, key: string)
    requires Inv(s) && Enabled(s, a) && key !in s.pending && !Touches(a, key) && !a.Teardown?
    ensures key !in Do(s, a).pending && TimesOf(Do(s, a).log, key) == TimesOf(s.log, key)
    ensures Do(s, a).now == if a.Tick? then a.to else s.now
  {
    if a.Event? {
      ScheduledAllInv(s, KeysFor(a.kind));
      ScheduledAllKey(s, KeysFor(a.kind), key);
    }
    if a.Fire? {
      assert Do(s, a).log[..|s.log|] == s.log;
    }
  }

  lemma {:induction false} BurstFires(s: State, actions: seq<Action>, s': State, key: string, none: int)
    requires Inv(s) && key !in s.pending && Run(s, actions, s') && Burst(s, actions, key, None)
    requires Touched(actions, key) && key !in s'.pending && !s'.tornDown
    ensures OneMore(s, s', key, LastEvent(s.now, actions, key, none))
    decreases |actions|
  {
    var a := actions[0];
    StepInv(s, a);
    var next := Do(s, a);
    if Touches(a, key) {
      ScheduledAllInv(s, KeysFor(a.kind));
      ScheduledAllKey(s, KeysFor(a.kind), key);
      WaitingFires(next, actions[1..], s', key, s.now);
    } else {
      var i :| 0 <= i < |actions| && Touches(actions[i], key);
      assert actions[1..][i - 1] == actions[i];
      if a.Teardown? {
        TornDownStays(next, actions[1..], s');
      } else {
        Elsewhere(s, a, key);
      }
      BurstFires(next, actions[1..], s', key, none);
    }
  }

  /**
   A burst of events for a query key followed by quiet, until no timer for the key is
   pending, gives exactly one invalidation of the key, at least 300 ms after the last event.
   */
  lemma BurstGivesOneInvalidation(start: int, before: seq<Action>, s: State, burst: seq<Action>, s': State, key: string)
    requires Run(Mounted(start), before, s) && key !in s.pending
    requires Run(s, burst, s') && Touched(burst, key) && Burst(s, burst, key, None)
    requires key !in s'.pending && !s'.tornDown
    ensures |TimesOf(s'.log, key)| == |TimesOf(s.log, key)| + 1
    ensures TimesOf(s.log, key) <= TimesOf(s'.log, key)
    ensures TimesOf(s'.log, key)[|TimesOf(s.log, key)|] >= LastEvent(s.now, burst, key, s.now) + 300
  {
    InvOverRun(Mounted(start), before, s);
    BurstFires(s, burst, s', key, s.now);
  }
}
