/**
 The events endpoint of internal/api/events.go: each cluster's matching events are sorted
 newest first and cut, the cuts are merged, sorted and cut again.
 */
module Events {
  import opened Wrappers
  import opened Sorting
  import opened Timestamps
  import Text

  /** maxEventsPerCluster. */
  const MAX_PER_CLUSTER: nat := 200

  /** An event as Kubernetes stores it; an absent timestamp is Go's zero time. */
  datatype RawEvent = RawEvent(
    ns: string, name: string, eventType: string, reason: string, message: string, component: string,
    apiVersion: string, objectKind: string, objectNs: string, objectName: string,
    lastTimestamp: Option<Time>, eventTime: Option<Time>, creationTimestamp: Time)

  datatype Event = Event(
    id: string, t: string, cluster: string, clusterId: string, ns: string, kind: string,
    eventType: string, reason: string, message: string, obj: string, source: string)

  datatype Filter = Filter(ns: string, kind: string, name: string)

  /** One permitted cluster: its names, its reachability and what listing its events gives. */
  datatype ClusterEntry = ClusterEntry(
    name: string, displayName: string, reachable: bool, listed: Result<seq<RawEvent>>)

  predicate MatchesObject(f: Filter, ev: RawEvent) {
    && (f.ns == "" || ev.objectNs == f.ns)
    && (f.kind == "" || ev.objectKind == f.kind)
    && (f.name == "" || ev.objectName == f.name)
  }

  predicate IsFluxEvent(ev: RawEvent) {
    Text.Index(ev.apiVersion, "fluxcd.io").Some?
  }

  /** The first timestamp that is set. */
  function EventTimestamp(ev: RawEvent): Time {
    if ev.lastTimestamp.Some? then ev.lastTimestamp.value
    else if ev.eventTime.Some? then ev.eventTime.value
    else ev.creationTimestamp
  }

  function ToDto(e: ClusterEntry, ev: RawEvent): Event {
    Event(ev.ns + "/" + ev.name, Format(EventTimestamp(ev)), e.displayName, e.name, ev.ns,
          if ev.eventType == "Warning" then "err" else "ok",
          ev.eventType, ev.reason, ev.message, ev.objectKind + "/" + ev.objectName, ev.component)
  }

  /** All fetched events of a cluster that the request asks for. */
  function Matching(e: ClusterEntry, f: Filter, items: seq<RawEvent>): seq<Event> {
    if items == [] then []
    else
      var ev := items[|items| - 1];
      Matching(e, f, items[..|items| - 1]) + if IsFluxEvent(ev) && MatchesObject(f, ev) then [ToDto(e, ev)] else []
  }

  /** The request asks for events about Flux objects, of the given namespace, kind and name where they are given. */
  ghost predicate Asked(f: Filter, ev: RawEvent) {
    && (exists i: nat :: Text.OccursAt(ev.apiVersion, "fluxcd.io", i))
    && (f.ns != "" ==> f.ns == ev.objectNs)
    && (f.kind != "" ==> f.kind == ev.objectKind)
    && (f.name != "" ==> f.name == ev.objectName)
  }

  /** The row shows the event, at the time it was last seen, else its event time, else when it was made. */
  ghost predicate Shows(x: Event, e: ClusterEntry, ev: RawEvent) {
    && x.id == ev.ns + "/" + ev.name && x.obj == ev.objectKind + "/" + ev.objectName
    && x.cluster == e.displayName && x.clusterId == e.name && x.ns == ev.ns
    && x.eventType == ev.eventType && (x.kind == "err" <==> ev.eventType == "Warning")
    && (x.kind == "ok" <==> ev.eventType != "Warning")
    && x.reason == ev.reason && x.message == ev.message && x.source == ev.component
    && (ev.lastTimestamp.Some? ==> x.t == Format(ev.lastTimestamp.value))
    && (ev.lastTimestamp.None? && ev.eventTime.Some? ==> x.t == Format(ev.eventTime.value))
    && (ev.lastTimestamp.None? && ev.eventTime.None? ==> x.t == Format(ev.creationTimestamp))
  }

  /** One fetched event gives its row if it is asked for, and nothing otherwise. */
  lemma MatchingOne(e: ClusterEntry, f: Filter, ev: RawEvent)
    ensures Asked(f, ev) ==> |Matching(e, f, [ev])| == 1 && Shows(Matching(e, f, [ev])[0], e, ev)
    ensures !Asked(f, ev) ==> Matching(e, f, [ev]) == []
  {
    assert [ev][..0] == [];
    Text.IndexFinds(ev.apiVersion, "fluxcd.io");
  }

  lemma {:induction false} MatchingConcat(e: ClusterEntry, f: Filter, xs: seq<RawEvent>, ys: seq<RawEvent>)
    ensures Matching(e, f, xs + ys) == Matching(e, f, xs) + Matching(e, f, ys)
    decreases |ys|
  {
    if ys == [] {
      assert xs + ys == xs;
    } else {
      var front := ys[..|ys| - 1];
      assert (xs + ys)[..|xs + ys| - 1] == xs + front;
      MatchingConcat(e, f, xs, front);
    }
  }

  // ---------- sorting and cutting ----------

  /** The comparison given to sort.Slice: newest first. */
  predicate Newer(a: Event, b: Event) {
    Less(b.t, a.t)
  }

  lemma NewerIsStrictWeak()
    ensures StrictWeak(Newer)
  {
    forall a, b, c
      ensures Newer(a, b) ==> !Newer(b, a)
      ensures !Newer(b, a) && !Newer(c, b) ==> !Newer(c, a)
    {
      LessIsStrictWeak(b.t, a.t, a.t);
      LessIsStrictWeak(c.t, b.t, a.t);
    }
  }

  /** `rest` is what remains of `all` after its `n` newest events, newest first, were taken out as `kept`. */
  ghost predicate Cut(kept: seq<Event>, rest: seq<Event>, all: seq<Event>, n: nat) {
    && multiset(kept + rest) == multiset(all)
    && Sorted(kept + rest, Newer)
    && |kept| <= n
    && (|kept| == n || rest == [])
  }

  /** `kept` are the `n` newest events of `all`, newest first; all of them if there are fewer. */
  ghost predicate Newest(kept: seq<Event>, all: seq<Event>, n: nat) {
    exists rest: seq<Event> :: Cut(kept, rest, all, n)
  }

  method SortAndCut(events: seq<Event>, n: nat) returns (out: seq<Event>)
    ensures Newest(out, events, n)
  {
    NewerIsStrictWeak();
    var sorted := Sort(events, Newer);
    out := sorted;
    if |out| > n {
      out := out[..n];
    }
    assert sorted == out + sorted[|out|..];
    assert Cut(out, sorted[|out|..], events, n);
  }

  method ListEventsForCluster(e: ClusterEntry, f: Filter) returns (r: Result<seq<Event>>)
    ensures !e.reachable ==> r == Err("cluster unreachable")
    ensures e.reachable && e.listed.Err? ==> r == Err("list events: " + e.listed.error)
    ensures e.reachable && e.listed.Ok? ==> r.Ok? && Newest(r.value, Matching(e, f, e.listed.value), 200)
  {
    if !e.reachable {
      return Err("cluster unreachable");
    }
    if e.listed.Err? {
      return Err("list events: " + e.listed.error);
    }
    var items := e.listed.value;
    var out: seq<Event> := [];
    for i := 0 to |items|
      invariant out == Matching(e, f, items[..i])
    {
      assert items[..i + 1][..i] == items[..i];
      var ev := items[i];
      if IsFluxEvent(ev) {
        if MatchesObject(f, ev) {
          out := out + [ToDto(e, ev)];
        }
      }
    }
    assert items[..|items|] == items;
    out := SortAndCut(out, MAX_PER_CLUSTER);
    return Ok(out);
  }

  datatype ClusterError = ClusterError(cluster: string, error: string)

  /** All fetched matching events of all clusters that answered, in the order of the answers. */
  function AllMatching(entries: seq<ClusterEntry>, f: Filter): seq<Event> {
    if entries == [] then []
    else
      var e := entries[|entries| - 1];
      AllMatching(entries[..|entries| - 1], f) +
      if e.reachable && e.listed.Ok? then Matching(e, f, e.listed.value) else []
  }

  /** How many of the events are from time `t` or later. */
  function Since(events: seq<Event>, t: string): nat {
    if events == [] then 0
    else Since(events[1..], t) + if Less(events[0].t, t) then 0 else 1
  }

  function Min(a: nat, b: nat): nat {
    if a <= b then a else b
  }

  /** The two lists have the same number of events since any time, as far as `n` events go. */
  ghost predicate SameTop(xs: seq<Event>, ys: seq<Event>, n: nat) {
    forall t :: Min(n, Since(xs, t)) == Min(n, Since(ys, t))
  }

  lemma {:induction false} SinceAppend(xs: seq<Event>, ys: seq<Event>, t: string)
    ensures Since(xs + ys, t) == Since(xs, t) + Since(ys, t)
  {
    if xs == [] {
      assert xs + ys == ys;
    } else {
      assert (xs + ys)[1..] == xs[1..] + ys;
      SinceAppend(xs[1..], ys, t);
    }
  }

  lemma {:induction false} SinceOfRearranged(xs: seq<Event>, ys: seq<Event>, t: string)
    requires multiset(xs) == multiset(ys)
    ensures Since(xs, t) == Since(ys, t)
    decreases |xs|
  {
    if xs == [] {
      assert |ys| == |multiset(ys)|;
    } else {
      var left, right := TakeOut(ys, xs[0]);
      assert xs == [xs[0]] + xs[1..];
      assert multiset(xs) == multiset{xs[0]} + multiset(xs[1..]);
      assert multiset(xs[1..]) == multiset(xs) - multiset{xs[0]};
      SinceOfRearranged(xs[1..], left + right, t);
      SinceInsert(left, xs[0], right, t);
    }
  }

  /** An event of a list stands between two parts of it. */
  lemma TakeOut(ys: seq<Event>, x: Event) returns (left: seq<Event>, right: seq<Event>)
    requires x in multiset(ys)
    ensures ys == left + ([x] + right) && multiset(left + right) == multiset(ys) - multiset{x}
  {
    var i :| 0 <= i < |ys| && ys[i] == x;
    left, right := ys[..i], ys[i + 1..];
    assert ys == left + ([x] + right);
    assert multiset(left + ([x] + right)) == multiset(left) + (multiset{x} + multiset(right));
  }

  lemma SinceInsert(left: seq<Event>, x: Event, right: seq<Event>, t: string)
    ensures Since(left + ([x] + right), t) == Since(left + right, t) + if Less(x.t, t) then 0 else 1
  {
    SinceAppend(left, [x] + right, t);
    SinceAppend(left, right, t);
    assert ([x] + right)[1..] == right;
  }

  lemma {:induction false} SinceBounds(xs: seq<Event>, t: string)
    ensures Since(xs, t) <= |xs|
    ensures (forall x | x in xs :: !Less(x.t, t)) ==> Since(xs, t) == |xs|
    ensures (forall x | x in xs :: Less(x.t, t)) ==> Since(xs, t) == 0
  {
    if xs != [] { SinceBounds(xs[1..], t); }
  }

  /** In a sorted list nothing behind a position is newer than the event there. */
  lemma LaterIsOlder(xs: seq<Event>, i: nat, x: Event, t: string)
    requires Sorted(xs, Newer) && i < |xs| && x in xs[i..] && Less(xs[i].t, t)
    ensures Less(x.t, t)
  {
    var j :| i <= j < |xs| && xs[j] == x;
    if j > i {
      assert !Newer(xs[j], xs[i]);
      LessIsStrictWeak(t, x.t, xs[i].t);
    }
  }

  lemma EarlierIsNewer(xs: seq<Event>, i: nat, x: Event, t: string)
    requires Sorted(xs, Newer) && i < |xs| && x in xs[..i] && !Less(xs[i].t, t)
    ensures !Less(x.t, t)
  {
    var j :| 0 <= j < i && xs[j] == x;
    assert !Newer(xs[i], xs[j]);
    LessIsStrictWeak(t, xs[i].t, x.t);
  }

  /** In a sorted list, the event at position `i` is from `t` or later exactly when more than `i` are. */
  lemma SinceAt(xs: seq<Event>, i: nat, t: string)
    requires Sorted(xs, Newer) && i < |xs|
    ensures !Less(xs[i].t, t) <==> Since(xs, t) > i
  {
    assert xs == xs[..i] + xs[i..];
    SinceAppend(xs[..i], xs[i..], t);
    SinceBounds(xs[..i], t);
    SinceBounds(xs[i..], t);
    if Less(xs[i].t, t) {
      forall x | x in xs[i..] ensures Less(x.t, t) { LaterIsOlder(xs, i, x, t); }
    } else {
      forall x | x in xs[..i] ensures !Less(x.t, t) { EarlierIsNewer(xs, i, x, t); }
      assert Since(xs[i..], t) >= 1;
    }
  }

  /** A cut keeps the counts as far as it goes. */
  lemma CutKeepsTop(kept: seq<Event>, rest: seq<Event>, all: seq<Event>, n: nat, t: string)
    requires Cut(kept, rest, all, n)
    ensures Min(n, Since(kept, t)) == Min(n, Since(all, t))
  {
    SinceOfRearranged(kept + rest, all, t);
    SinceAppend(kept, rest, t);
    SinceBounds(kept, t);
    SinceBounds(rest, t);
    if rest != [] && Since(rest, t) > 0 {
      assert |kept| == n;
      if n > 0 {
        var y :| y in rest && !Less(y.t, t);
        var j :| 0 <= j < |rest| && rest[j] == y;
        forall x | x in kept ensures !Less(x.t, t) {
          var i :| 0 <= i < |kept| && kept[i] == x;
          assert (kept + rest)[i] == x && (kept + rest)[|kept| + j] == y;
          assert !Newer(y, x);
          LessIsStrictWeak(t, y.t, x.t);
        }
      }
    }
  }

  lemma NewestKeepsTop(kept: seq<Event>, all: seq<Event>, n: nat, m: nat)
    requires Newest(kept, all, n) && m <= n
    ensures SameTop(kept, all, m)
  {
    var rest: seq<Event> :| Cut(kept, rest, all, n);
    forall t ensures Min(m, Since(kept, t)) == Min(m, Since(all, t)) {
      CutKeepsTop(kept, rest, all, n, t);
    }
  }

  lemma SameTopAppend(xs: seq<Event>, ys: seq<Event>, xs': seq<Event>, ys': seq<Event>, n: nat)
    requires SameTop(xs, ys, n) && SameTop(xs', ys', n)
    ensures SameTop(xs + xs', ys + ys', n)
  {
    forall t ensures Min(n, Since(xs + xs', t)) == Min(n, Since(ys + ys', t)) {
      SinceAppend(xs, xs', t);
      SinceAppend(ys, ys', t);
    }
  }

  /** Sorted lists with the same top show the same times, as far as `n` events go. */
  lemma SameTopSameTimes(xs: seq<Event>, ys: seq<Event>, n: nat)
    requires Sorted(xs, Newer) && Sorted(ys, Newer) && SameTop(xs, ys, n)
    ensures Min(n, |xs|) == Min(n, |ys|)
    ensures forall i | 0 <= i < Min(n, |xs|) :: xs[i].t == ys[i].t
  {
    SinceBounds(xs, "");
    SinceBounds(ys, "");
    assert Min(n, Since(xs, "")) == Min(n, Since(ys, ""));
    forall i | 0 <= i < Min(n, |xs|) ensures xs[i].t == ys[i].t {
      SinceAt(xs, i, xs[i].t);
      SinceAt(ys, i, xs[i].t);
      SinceAt(xs, i, ys[i].t);
      SinceAt(ys, i, ys[i].t);
      LessIsTotal(xs[i].t, ys[i].t);
      LessIsTotal(xs[i].t, xs[i].t);
      LessIsTotal(ys[i].t, ys[i].t);
      assert Min(n, Since(xs, xs[i].t)) == Min(n, Since(ys, xs[i].t));
      assert Min(n, Since(xs, ys[i].t)) == Min(n, Since(ys, ys[i].t));
    }
  }

  // ---------- the response ----------

  /** What the cuts per cluster leave: at most 200 events of each answering cluster. */
  function Kept(entries: seq<ClusterEntry>, f: Filter): nat {
    if entries == [] then 0
    else
      var e := entries[|entries| - 1];
      Kept(entries[..|entries| - 1], f) +
      if e.reachable && e.listed.Ok? then Min(200, |Matching(e, f, e.listed.value)|) else 0
  }

  /** The events are some of the fetched matching ones, as many as the cuts leave, and with their top 200. */
  ghost predicate Merged(events: seq<Event>, entries: seq<ClusterEntry>, f: Filter) {
    && multiset(events) <= multiset(AllMatching(entries, f))
    && |events| == Kept(entries, f)
    && SameTop(events, AllMatching(entries, f), 200)
  }

  lemma MergeNext(events: seq<Event>, entries: seq<ClusterEntry>, f: Filter, e: ClusterEntry, kept: seq<Event>)
    requires Merged(events, entries, f) && e.reachable && e.listed.Ok?
    requires Newest(kept, Matching(e, f, e.listed.value), 200)
    ensures Merged(events + kept, entries + [e], f)
  {
    var all, more := AllMatching(entries, f), Matching(e, f, e.listed.value);
    assert (entries + [e])[..|entries|] == entries;
    assert AllMatching(entries + [e], f) == all + more;
    NewestSize(kept, more, 200);
    NewestKeepsTop(kept, more, 200, 200);
    SameTopAppend(events, all, kept, more, 200);
  }

  lemma MergeSkips(events: seq<Event>, entries: seq<ClusterEntry>, f: Filter, e: ClusterEntry)
    requires Merged(events, entries, f) && !(e.reachable && e.listed.Ok?)
    ensures Merged(events, entries + [e], f)
  {
    var all := entries + [e];
    assert all[..|all| - 1] == entries && all[|all| - 1] == e;
    assert AllMatching(entries, f) + [] == AllMatching(entries, f);
    assert AllMatching(all, f) == AllMatching(entries, f);
  }

  lemma NewestSize(kept: seq<Event>, all: seq<Event>, n: nat)
    requires Newest(kept, all, n)
    ensures |kept| == Min(n, |all|) && multiset(kept) <= multiset(all)
  {
    var rest: seq<Event> :| Cut(kept, rest, all, n);
    assert multiset(kept + rest) == multiset(kept) + multiset(rest);
    assert |multiset(kept + rest)| == |kept| + |rest| && |multiset(all)| == |all|;
  }

  lemma UnansweredNext(entries: seq<ClusterEntry>, e: ClusterEntry, r: Result<seq<Event>>)
    requires !e.reachable ==> r == Err("cluster unreachable")
    requires e.reachable && e.listed.Err? ==> r == Err("list events: " + e.listed.error)
    requires e.reachable && e.listed.Ok? ==> r.Ok?
    ensures Unanswered(entries + [e]) == Unanswered(entries) + if r.Err? then [ClusterError(e.name, r.error)] else []
  {
    var all := entries + [e];
    assert all[..|all| - 1] == entries && all[|all| - 1] == e;
  }

  /** The collector's loop over the answers, in the order in which the workers sent them. */
  method Collect(entries: seq<ClusterEntry>, f: Filter) returns (events: seq<Event>, errors: seq<ClusterError>)
    ensures Merged(events, entries, f)
    ensures errors == Unanswered(entries)
  {
    events, errors := [], [];
    for i := 0 to |entries|
      invariant Merged(events, entries[..i], f)
      invariant errors == Unanswered(entries[..i])
    {
      var e := entries[i];
      assert entries[..i + 1] == entries[..i] + [e];
      var r := ListEventsForCluster(e, f);
      if r.Err? {
        errors := errors + [ClusterError(e.name, r.error)];
        UnansweredNext(entries[..i], e, r);
        MergeSkips(events, entries[..i], f, e);
      } else {
        UnansweredNext(entries[..i], e, r);
        MergeNext(events, entries[..i], f, e, r.value);
        events := events + r.value;
      }
    }
    assert entries[..|entries|] == entries;
  }

  /** The clusters that did not answer, with the reason. */
  function Unanswered(entries: seq<ClusterEntry>): seq<ClusterError> {
    if entries == [] then []
    else
      var e := entries[|entries| - 1];
      Unanswered(entries[..|entries| - 1]) +
      if !e.reachable then [ClusterError(e.name, "cluster unreachable")]
      else if e.listed.Err? then [ClusterError(e.name, "list events: " + e.listed.error)]
      else []
  }

  /**
   The events response: some of the fetched matching events of the answering clusters, newest
   first, and no fewer than the cuts at 200 per cluster and at 800 overall leave.  In spite of
   the cuts its first 200 timestamps are those of all of them, sorted newest first.  There is
   one error for each cluster that did not answer.
   */
  method ListEvents(entries: seq<ClusterEntry>, f: Filter) returns (events: seq<Event>, errors: seq<ClusterError>)
    ensures Sorted(events, Newer) && |events| == Min(800, Kept(entries, f))
    ensures multiset(events) <= multiset(AllMatching(entries, f))
    ensures SameTop(events, AllMatching(entries, f), 200)
    ensures errors == Unanswered(entries)
  {
    var merged;
    merged, errors := Collect(entries, f);
    events := SortAndCut(merged, MAX_PER_CLUSTER * 4);
    NewestIsSorted(events, merged, 800);
    NewestSize(events, merged, 800);
    NewestKeepsTop(events, merged, 800, 200);
  }

  lemma NewestIsSorted(kept: seq<Event>, all: seq<Event>, n: nat)
    requires Newest(kept, all, n)
    ensures Sorted(kept, Newer) && |kept| <= n
  {
    var rest: seq<Event> :| Cut(kept, rest, all, n);
    forall i, j | 0 <= i < j < |kept| ensures !Newer(kept[j], kept[i]) {
      assert (kept + rest)[i] == kept[i] && (kept + rest)[j] == kept[j];
    }
  }

  /**
   For every k up to 200, the first k timestamps of a response equal the first k of any
   newest-first sorting of all fetched matching events.
   */
  lemma CutsKeepTheFirst200(entries: seq<ClusterEntry>, f: Filter, events: seq<Event>, sorted: seq<Event>, k: nat)
    requires Sorted(events, Newer) && SameTop(events, AllMatching(entries, f), 200)
    requires Sorted(sorted, Newer) && multiset(sorted) == multiset(AllMatching(entries, f))
    requires k <= 200
    ensures Min(k, |events|) == Min(k, |sorted|)
    ensures forall i | 0 <= i < Min(k, |events|) :: events[i].t == sorted[i].t
  {
    forall t ensures Min(200, Since(events, t)) == Min(200, Since(sorted, t)) {
      SinceOfRearranged(sorted, AllMatching(entries, f), t);
    }
    SameTopSameTimes(events, sorted, 200);
  }

  /** Newest first is by time: of two events the one listed first is at least as late, to the second. */
  lemma NewestFirstByTime(e: ClusterEntry, e': ClusterEntry, ev: RawEvent, ev': RawEvent)
    ensures Newer(ToDto(e, ev), ToDto(e', ev')) <==> Seconds(EventTimestamp(ev)) > Seconds(EventTimestamp(ev'))
  {
    StringOrderIsTimeOrder(EventTimestamp(ev'), EventTimestamp(ev));
  }
}
