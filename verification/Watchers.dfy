/**
 The watch manager of internal/watch/manager.go: it keeps one running watcher per
 registered cluster, and replaces it when the registry hands out another client.
 */
module Watchers {
  import opened Wrappers
  import opened Registry

  /** A watcher goroutine that was started at some time, for a cluster name, with a client. */
  datatype Watcher = Watcher(name: string, client: nat)

  /** The manager's record of a running watcher: which one it is, and its client's identity. */
  datatype RunningWatcher = RunningWatcher(id: nat, client: nat)

  /**
   The manager's map, with the history of all watchers: `started[id]` is the watcher with
   that number, and `cancelled` holds the numbers of those whose cancel was called.
   */
  datatype Fleet = Fleet(running: map<string, RunningWatcher>, started: seq<Watcher>, cancelled: set<nat>)

  const NO_WATCHERS: Fleet := Fleet(map[], [], {})

  /** Every watcher ever started is either cancelled or the single running one for its name. */
  ghost predicate Accounted(f: Fleet) {
    && (forall id | id in f.cancelled :: id < |f.started|)
    && (forall id: nat | id < |f.started| ::
          id !in f.cancelled <==>
          f.started[id].name in f.running && f.running[f.started[id].name].id == id)
    && (forall name | name in f.running ::
          && f.running[name].id < |f.started|
          && f.started[f.running[name].id] == Watcher(name, f.running[name].client))
  }

  // ---------- sync as a function ----------

  function Stop(f: Fleet, name: string): Fleet
    requires name in f.running
  {
    f.(running := f.running - {name}, cancelled := f.cancelled + {f.running[name].id})
  }

  function Start(f: Fleet, name: string, client: nat): Fleet {
    f.(running := f.running[name := RunningWatcher(|f.started|, client)],
       started := f.started + [Watcher(name, client)])
  }

  /** The first loop's body for one registry entry. */
  function Ensure(f: Fleet, e: Entry): Fleet {
    if e.name in f.running && f.running[e.name].client == e.client then f
    else Start(if e.name in f.running then Stop(f, e.name) else f, e.name, e.client)
  }

  function EnsureAll(f: Fleet, list: seq<Entry>): Fleet {
    if list == [] then f else Ensure(EnsureAll(f, list[..|list| - 1]), list[|list| - 1])
  }

  function Names(list: seq<Entry>): set<string> {
    set e | e in list :: e.name
  }

  /** The second loop: stop what is running for a name outside `keep`. */
  function Prune(f: Fleet, keep: set<string>): Fleet {
    f.(running := f.running - (f.running.Keys - keep),
       cancelled := f.cancelled + set name | name in f.running && name !in keep :: f.running[name].id)
  }

  function Synced(f: Fleet, list: seq<Entry>): Fleet {
    Prune(EnsureAll(f, list), Names(list))
  }

  /** Shutdown cancels every running watcher and forgets them. */
  function Stopped(f: Fleet): Fleet {
    Prune(f, {})
  }

  /** The client of the last entry with that name. */
  function LastClient(list: seq<Entry>, name: string): Option<nat> {
    if list == [] then None
    else if list[|list| - 1].name == name then Some(list[|list| - 1].client)
    else LastClient(list[..|list| - 1], name)
  }

  // ---------- what sync achieves ----------

  lemma StopAccounted(f: Fleet, name: string)
    requires Accounted(f) && name in f.running
    ensures Accounted(Stop(f, name))
  {
  }

  lemma StartAccounted(f: Fleet, name: string, client: nat)
    requires Accounted(f) && name !in f.running
    ensures Accounted(Start(f, name, client))
  {
  }

  lemma EnsureAccounted(f: Fleet, e: Entry)
    requires Accounted(f)
    ensures Accounted(Ensure(f, e))
    ensures e.name in Ensure(f, e).running && Ensure(f, e).running[e.name].client == e.client
    ensures Ensure(f, e).running.Keys == f.running.Keys + {e.name}
    ensures forall n | n in f.running && n != e.name :: Ensure(f, e).running[n] == f.running[n]
  {
    var f' := if e.name in f.running then Stop(f, e.name) else f;
    if e.name in f.running {
      StopAccounted(f, e.name);
    }
    StartAccounted(f', e.name, e.client);
  }

  lemma PruneAccounted(f: Fleet, keep: set<string>)
    requires Accounted(f)
    ensures Accounted(Prune(f, keep))
    ensures Prune(f, keep).running.Keys == f.running.Keys * keep
    ensures forall n | n in Prune(f, keep).running :: Prune(f, keep).running[n] == f.running[n]
  {
  }

  lemma NamesAppend(front: seq<Entry>, e: Entry)
    ensures Names(front + [e]) == Names(front) + {e.name}
  {
    assert forall x :: x in front + [e] <==> x in front || x == e;
  }

  lemma {:induction false} EnsureAllAccounted(f: Fleet, list: seq<Entry>)
    requires Accounted(f)
    ensures Accounted(EnsureAll(f, list))
    ensures EnsureAll(f, list).running.Keys == f.running.Keys + Names(list)
    decreases |list|
  {
    if list != [] {
      var front, e := list[..|list| - 1], list[|list| - 1];
      assert list == front + [e];
      EnsureAllAccounted(f, front);
      EnsureAccounted(EnsureAll(f, front), e);
      NamesAppend(front, e);
    }
  }

  lemma {:induction false} EnsureAllClient(f: Fleet, list: seq<Entry>, n: string)
    requires Accounted(f) && n in Names(list)
    ensures n in EnsureAll(f, list).running
    ensures LastClient(list, n) == Some(EnsureAll(f, list).running[n].client)
    decreases |list|
  {
    var front, e := list[..|list| - 1], list[|list| - 1];
    assert list == front + [e];
    NamesAppend(front, e);
    EnsureAllAccounted(f, front);
    EnsureAccounted(EnsureAll(f, front), e);
    if n != e.name {
      EnsureAllClient(f, front, n);
    }
  }

  lemma EnsureAllResult(f: Fleet, list: seq<Entry>)
    requires Accounted(f)
    ensures Accounted(EnsureAll(f, list))
    ensures EnsureAll(f, list).running.Keys == f.running.Keys + Names(list)
    ensures forall n | n in Names(list) ::
              LastClient(list, n) == Some(EnsureAll(f, list).running[n].client)
  {
    EnsureAllAccounted(f, list);
    forall n | n in Names(list) ensures LastClient(list, n) == Some(EnsureAll(f, list).running[n].client) {
      EnsureAllClient(f, list, n);
    }
  }

  /**
   After a sync the running watchers are for exactly the listed names, each with the
   client listed last for its name, and no watcher was lost: all others are cancelled.
   */
  lemma SyncResult(f: Fleet, list: seq<Entry>)
    requires Accounted(f)
    ensures Accounted(Synced(f, list))
    ensures Synced(f, list).running.Keys == Names(list)
    ensures forall n | n in Names(list) :: LastClient(list, n) == Some(Synced(f, list).running[n].client)
  {
    EnsureAllResult(f, list);
    PruneAccounted(EnsureAll(f, list), Names(list));
    assert (f.running.Keys + Names(list)) * Names(list) == Names(list);
  }

  ghost predicate DistinctNames(list: seq<Entry>) {
    forall i, j :: 0 <= i < j < |list| ==> list[i].name != list[j].name
  }

  lemma {:induction false} EnsureAllKeeps(f: Fleet, list: seq<Entry>, n: string)
    requires Accounted(f) && DistinctNames(list) && n in f.running
    ensures f.started <= EnsureAll(f, list).started
    ensures n in EnsureAll(f, list).running
    ensures (forall e | e in list && e.name == n :: e.client == f.running[n].client)
            <==> EnsureAll(f, list).running[n] == f.running[n]
    ensures EnsureAll(f, list).running[n] == f.running[n] || EnsureAll(f, list).running[n].id >= |f.started|
    decreases |list|
  {
    if list != [] {
      var front, e := list[..|list| - 1], list[|list| - 1];
      assert list == front + [e];
      EnsureAllKeeps(f, front, n);
      EnsureAllAccounted(f, front);
      EnsureOne(f, EnsureAll(f, front), front, e, n);
    }
  }

  lemma EnsureOne(f: Fleet, before: Fleet, front: seq<Entry>, e: Entry, n: string)
    requires Accounted(f) && Accounted(before) && DistinctNames(front + [e])
    requires n in f.running && n in before.running && f.started <= before.started
    requires (forall x | x in front && x.name == n :: x.client == f.running[n].client)
             <==> before.running[n] == f.running[n]
    requires before.running[n] == f.running[n] || before.running[n].id >= |f.started|
    ensures f.started <= Ensure(before, e).started && n in Ensure(before, e).running
    ensures (forall x | x in front + [e] && x.name == n :: x.client == f.running[n].client)
            <==> Ensure(before, e).running[n] == f.running[n]
    ensures Ensure(before, e).running[n] == f.running[n] || Ensure(before, e).running[n].id >= |f.started|
  {
    var list := front + [e];
    assert forall x :: x in list <==> x in front || x == e;
    if e.name == n {
      forall x | x in front ensures x.name != n {
        var i :| 0 <= i < |front| && front[i] == x;
        assert list[i].name != list[|list| - 1].name;
      }
    }
  }

  /** A sync keeps the very watcher of a listed name exactly when the list still has its client. */
  lemma SyncKeeps(f: Fleet, list: seq<Entry>, e: Entry)
    requires Accounted(f) && DistinctNames(list) && e in list && e.name in f.running
    ensures e.name in Synced(f, list).running
    ensures f.running[e.name].client == e.client <==> Synced(f, list).running[e.name] == f.running[e.name]
  {
    SyncResult(f, list);
    EnsureAllKeeps(f, list, e.name);
    EnsureAllResult(f, list);
    PruneAccounted(EnsureAll(f, list), Names(list));
    assert forall x | x in list && x.name == e.name :: x == e;
  }

  /** A watcher whose client is no longer the listed one is cancelled, not just forgotten. */
  lemma SyncReplaces(f: Fleet, list: seq<Entry>, e: Entry)
    requires Accounted(f) && DistinctNames(list) && e in list && e.name in f.running
    requires f.running[e.name].client != e.client
    ensures f.running[e.name].id in Synced(f, list).cancelled
  {
    SyncResult(f, list);
    SyncKeeps(f, list, e);
    EnsureAllKeeps(f, list, e.name);
    EnsureAllResult(f, list);
    PruneAccounted(EnsureAll(f, list), Names(list));
    var id := f.running[e.name].id;
    assert Synced(f, list).started[id] == f.started[id];
  }

  /** A watcher of a name that is not listed is cancelled, not just forgotten. */
  lemma SyncDrops(f: Fleet, list: seq<Entry>, n: string)
    requires Accounted(f) && DistinctNames(list) && n in f.running && n !in Names(list)
    ensures f.running[n].id in Synced(f, list).cancelled
  {
    EnsureAllKeeps(f, list, n);
    assert forall e | e in list :: e.name in Names(list);
  }

  /** What is running already fits the list. */
  ghost predicate Fits(f: Fleet, list: seq<Entry>) {
    && f.running.Keys == Names(list)
    && forall e | e in list :: f.running[e.name].client == e.client
  }

  lemma {:induction false} EnsureAllFitting(f: Fleet, list: seq<Entry>, k: nat)
    requires Fits(f, list) && k <= |list|
    ensures EnsureAll(f, list[..k]) == f
  {
    if k > 0 {
      assert list[..k][..k - 1] == list[..k - 1];
      EnsureAllFitting(f, list, k - 1);
      assert list[k - 1] in list;
    }
  }

  /** A sync against a list that fits starts nothing and cancels nothing. */
  lemma SyncFitting(f: Fleet, list: seq<Entry>)
    requires Fits(f, list)
    ensures Synced(f, list) == f
  {
    assert list[..|list|] == list;
    EnsureAllFitting(f, list, |list|);
    assert f.running - (f.running.Keys - Names(list)) == f.running;
  }

  /** After shutdown every watcher ever started is cancelled. */
  lemma ShutdownCancelsAll(f: Fleet)
    requires Accounted(f)
    ensures Accounted(Stopped(f)) && Stopped(f).running == map[]
    ensures forall id: nat | id < |f.started| :: id in Stopped(f).cancelled
  {
    PruneAccounted(f, {});
    assert Stopped(f).running.Keys == {};
  }

  // ---------- the manager object ----------

  class Manager {
    var running: map<string, RunningWatcher>
    var started: seq<Watcher>
    var cancelled: set<nat>

    function State(): Fleet
      reads this
    {
      Fleet(running, started, cancelled)
    }

    constructor ()
      ensures State() == NO_WATCHERS
    {
      running, started, cancelled := map[], [], {};
    }

    method Cancel(name: string)
      requires name in running
      modifies this
      ensures State() == Stop(old(State()), name)
    {
      cancelled := cancelled + {running[name].id};
      running := running - {name};
    }

    /** One pass over the registry as it is when the pass lists it. */
    method Sync(registry: CRDRegistry)
      requires registry.Valid()
      modifies this
      ensures State() == Synced(old(State()), Values(registry.Contents()))
    {
      var list := registry.List();
      var seen: set<string> := {};
      for i := 0 to |list|
        invariant seen == Names(list[..i])
        invariant State() == EnsureAll(old(State()), list[..i])
      {
        var e := list[i];
        assert list[..i + 1][..i] == list[..i] && list[..i + 1] == list[..i] + [e];
        seen := seen + {e.name};
        if !(e.name in running && running[e.name].client == e.client) {
          if e.name in running {
            Cancel(e.name);
          }
          running := running[e.name := RunningWatcher(|started|, e.client)];
          started := started + [Watcher(e.name, e.client)];
        }
      }
      assert list[..|list|] == list;
      StopUnseen(seen);
    }

    /** The loop over the running map; Go may visit the names in any order. */
    method StopUnseen(seen: set<string>)
      modifies this
      ensures State() == Prune(old(State()), seen)
    {
      ghost var before := State();
      var todo := running.Keys;
      while todo != {}
        invariant todo <= running.Keys
        invariant State() == Prune(before, seen + todo)
        decreases todo
      {
        var name :| name in todo;
        todo := todo - {name};
        if name !in seen {
          Cancel(name);
          assert Prune(before, seen + todo).cancelled == cancelled;
        } else {
          assert seen + (todo + {name}) == seen + todo;
        }
      }
      assert seen + {} == seen;
    }

    method ShutdownAll()
      modifies this
      ensures State() == Stopped(old(State()))
    {
      ghost var before := State();
      var todo := running.Keys;
      while todo != {}
        invariant todo <= running.Keys && running == before.running && started == before.started
        invariant cancelled ==
                  before.cancelled + set name | name in before.running && name !in todo :: before.running[name].id
        decreases todo
      {
        var name :| name in todo;
        todo := todo - {name};
        cancelled := cancelled + {running[name].id};
      }
      running := map[];
    }
  }
}
