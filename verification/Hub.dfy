/**
 The event hub of internal/watch/hub.go as a concurrent state machine.

 Every goroutine has a program counter that names the statement it is about to
 execute; one `Action` is one atomic statement of one goroutine (take the lock, send
 to one channel, delete from the map, close a channel, ...).  A run is any sequence of
 enabled actions, so the theorems below hold for every interleaving of any number of
 publishers, subscribers and (repeated, concurrent) unsubscribes.
 */
module Hub {
  import opened Wrappers
  import opened Indices

  /** Capacity of a subscriber channel. */
  const BUFFER: nat := 64

  datatype Event = Event(cluster: string, kind: string, verb: string, ns: string, name: string)

  /** One call of Publish: the publishing goroutine, the running number of the call, the event. */
  datatype Message = Message(publisher: nat, call: nat, event: Event)

  /**
   The `sync.Once` guarding an unsubscribe closure.  `Uncreated(owner)` says that goroutine
   `owner` is still inside Subscribe, so that nobody holds the closure yet.
   */
  datatype Once = Uncreated(owner: nat) | Fresh | Running(owner: nat) | Done

  /** A subscriber channel, its closure's once, and the history of the channel. */
  datatype Subscriber = Subscriber(
    buffer: seq<Message>,
    closed: bool,
    once: Once,
    received: seq<Message>,
    accepted: seq<Message>)

  /** A select default taken: `message` was not sent to `subscriber` while it held `fill` messages. */
  datatype Drop = Drop(subscriber: nat, message: Message, fill: nat)

  datatype Pc =
    | Idle
    | PublishWait(message: Message)
    | Publishing(message: Message, visited: set<nat>)
    | SubscribeWait(sub: nat)
    | Inserting(sub: nat)
    | InsertUnlock(sub: nat)
    | OnceCall(sub: nat)
    | DeleteWait(sub: nat)
    | Deleting(sub: nat)
    | DeleteUnlock(sub: nat)
    | Closing(sub: nat)
    | OnceExit(sub: nat)
  {
    predicate InWriteSection() {
      Inserting? || InsertUnlock? || Deleting? || DeleteUnlock?
    }

    predicate WantsWriteLock() {
      SubscribeWait? || DeleteWait?
    }

    predicate InSubscribe() {
      SubscribeWait? || Inserting? || InsertUnlock?
    }

    predicate InOnceBody() {
      DeleteWait? || Deleting? || DeleteUnlock? || Closing? || OnceExit?
    }
  }

  datatype Thread = Thread(pc: Pc, calls: nat)

  datatype State = State(
    threads: map<nat, Thread>,
    readers: set<nat>,
    writer: Option<nat>,
    subs: set<nat>,
    subscribers: seq<Subscriber>,
    drops: seq<Drop>,
    panicked: bool)
  {
    function At(t: nat): Thread {
      if t in threads then threads[t] else Thread(Idle, 0)
    }

    function Pc(t: nat): Pc {
      At(t).pc
    }

    function Goto(t: nat, pc: Pc): State {
      this.(threads := threads[t := At(t).(pc := pc)])
    }

    function WithSubscriber(s: nat, sub: Subscriber): State
      requires s < |subscribers|
    {
      this.(subscribers := subscribers[s := sub])
    }
  }

  /** NewHub, with no goroutine inside any of its operations. */
  const EMPTY: State := State(map[], {}, None, {}, [], [], false)

  datatype Action =
    | BeginPublish(t: nat, event: Event)
    | ReadLock(t: nat)
    | Send(t: nat, s: nat)
    | ReadUnlock(t: nat)
    | BeginSubscribe(t: nat)
    | WriteLock(t: nat)
    | Insert(t: nat)
    | Delete(t: nat)
    | WriteUnlock(t: nat)
    | BeginUnsubscribe(t: nat, s: nat)
    | EnterOnce(t: nat)
    | SkipOnce(t: nat)
    | Close(t: nat)
    | ExitOnce(t: nat)
    | Receive(s: nat)
  {
    /** The action continues a call that has already begun: it is no new call and no channel receive. */
    predicate Continues() {
      !BeginPublish? && !BeginSubscribe? && !BeginUnsubscribe? && !Receive?
    }
  }

  predicate Enabled(st: State, a: Action) {
    match a
    case BeginPublish(t, _) => st.Pc(t).Idle?
    case ReadLock(t) => st.Pc(t).PublishWait? && st.writer.None?
    case Send(t, s) => st.Pc(t).Publishing? && s in st.subs && s < |st.subscribers| && s !in st.Pc(t).visited
    case ReadUnlock(t) => st.Pc(t).Publishing? && st.subs <= st.Pc(t).visited
    case BeginSubscribe(t) => st.Pc(t).Idle?
    case WriteLock(t) => st.Pc(t).WantsWriteLock() && st.writer.None? && st.readers == {}
    case Insert(t) => st.Pc(t).Inserting?
    case Delete(t) => st.Pc(t).Deleting?
    case WriteUnlock(t) =>
      st.Pc(t).DeleteUnlock? || (st.Pc(t).InsertUnlock? && st.Pc(t).sub < |st.subscribers|)
    case BeginUnsubscribe(t, s) =>
      st.Pc(t).Idle? && s < |st.subscribers| && !st.subscribers[s].once.Uncreated?
    case EnterOnce(t) =>
      st.Pc(t).OnceCall? && st.Pc(t).sub < |st.subscribers| && st.subscribers[st.Pc(t).sub].once.Fresh?
    case SkipOnce(t) =>
      st.Pc(t).OnceCall? && st.Pc(t).sub < |st.subscribers| && st.subscribers[st.Pc(t).sub].once.Done?
    case Close(t) => st.Pc(t).Closing? && st.Pc(t).sub < |st.subscribers|
    case ExitOnce(t) => st.Pc(t).OnceExit? && st.Pc(t).sub < |st.subscribers|
    case Receive(s) => s < |st.subscribers| && st.subscribers[s].buffer != []
  }

  /** What a channel of capacity BUFFER holds after a select-with-default send. */
  function Offer<T>(buffer: seq<T>, x: T): seq<T> {
    if |buffer| < BUFFER then buffer + [x] else buffer
  }

  /** The non-blocking send of one message to one channel; a send on a closed channel panics. */
  function SendTo(st: State, s: nat, m: Message): State
    requires s < |st.subscribers|
  {
    var sub := st.subscribers[s];
    if sub.closed then
      st.(panicked := true)
    else if |sub.buffer| < BUFFER then
      st.WithSubscriber(s, sub.(buffer := Offer(sub.buffer, m), accepted := sub.accepted + [m]))
    else
      st.(drops := st.drops + [Drop(s, m, |sub.buffer|)])
  }

  function Do(st: State, a: Action): State
    requires Enabled(st, a)
  {
    match a
    case BeginPublish(t, e) =>
      var n := st.At(t).calls;
      st.(threads := st.threads[t := Thread(PublishWait(Message(t, n, e)), n + 1)])
    case ReadLock(t) =>
      st.(readers := st.readers + {t}).Goto(t, Publishing(st.Pc(t).message, {}))
    case Send(t, s) =>
      var Publishing(m, visited) := st.Pc(t);
      SendTo(st, s, m).Goto(t, Publishing(m, visited + {s}))
    case ReadUnlock(t) =>
      st.(readers := st.readers - {t}).Goto(t, Idle)
    case BeginSubscribe(t) =>
      var s := |st.subscribers|;
      st.(subscribers := st.subscribers + [Subscriber([], false, Uncreated(t), [], [])]).Goto(t, SubscribeWait(s))
    case WriteLock(t) =>
      var s := st.Pc(t).sub;
      st.(writer := Some(t)).Goto(t, if st.Pc(t).SubscribeWait? then Inserting(s) else Deleting(s))
    case Insert(t) =>
      var s := st.Pc(t).sub;
      st.(subs := st.subs + {s}).Goto(t, InsertUnlock(s))
    case Delete(t) =>
      var s := st.Pc(t).sub;
      st.(subs := st.subs - {s}).Goto(t, DeleteUnlock(s))
    case WriteUnlock(t) =>
      var s := st.Pc(t).sub;
      if st.Pc(t).InsertUnlock? then
        // Subscribe returns the channel and the closure: from here on it may be called.
        st.(writer := None).WithSubscriber(s, st.subscribers[s].(once := Fresh)).Goto(t, Idle)
      else
        st.(writer := None).Goto(t, Closing(s))
    case BeginUnsubscribe(t, s) =>
      st.Goto(t, OnceCall(s))
    case EnterOnce(t) =>
      var s := st.Pc(t).sub;
      st.WithSubscriber(s, st.subscribers[s].(once := Running(t))).Goto(t, DeleteWait(s))
    case SkipOnce(t) =>
      st.Goto(t, Idle)
    case Close(t) =>
      var s := st.Pc(t).sub;
      if st.subscribers[s].closed then
        st.(panicked := true)
      else
        st.WithSubscriber(s, st.subscribers[s].(closed := true)).Goto(t, OnceExit(s))
    case ExitOnce(t) =>
      var s := st.Pc(t).sub;
      st.WithSubscriber(s, st.subscribers[s].(once := Done)).Goto(t, Idle)
    case Receive(s) =>
      var sub := st.subscribers[s];
      st.WithSubscriber(s, sub.(buffer := sub.buffer[1..], received := sub.received + [sub.buffer[0]]))
  }

  /** `to` is reached from `from` by taking `actions` one after the other. */
  ghost predicate Run(from: State, actions: seq<Action>, to: State)
    decreases |actions|
  {
    if actions == [] then from == to
    else Enabled(from, actions[0]) && Run(Do(from, actions[0]), actions[1..], to)
  }

  // ---------- the invariant ----------

  /** Who holds the lock. */
  ghost predicate LockInv(st: State) {
    && (st.writer.Some? ==> st.readers == {})
    && (forall t: nat :: t in st.readers <==> st.Pc(t).Publishing?)
    && (forall t: nat :: st.writer == Some(t) <==> st.Pc(t).InWriteSection())
  }

  ghost predicate Registered(st: State, s: nat)
    requires s < |st.subscribers|
  {
    match st.subscribers[s].once
    case Uncreated(t) => st.Pc(t).InsertUnlock?
    case Fresh => true
    case Running(t) => st.Pc(t).DeleteWait? || st.Pc(t).Deleting?
    case Done => false
  }

  ghost predicate ChannelClosed(st: State, s: nat)
    requires s < |st.subscribers|
  {
    match st.subscribers[s].once
    case Uncreated(_) => false
    case Fresh => false
    case Running(t) => st.Pc(t).OnceExit?
    case Done => true
  }

  /** Which subscriber a goroutine is working on, and that nobody else is. */
  ghost predicate ThreadLife(st: State, t: nat) {
    var pc := st.Pc(t);
    && (pc.InSubscribe() ==> pc.sub < |st.subscribers| && st.subscribers[pc.sub].once == Uncreated(t))
    && (pc.InOnceBody() ==> pc.sub < |st.subscribers| && st.subscribers[pc.sub].once == Running(t))
    && (pc.OnceCall? ==> pc.sub < |st.subscribers| && !st.subscribers[pc.sub].once.Uncreated?)
  }

  /** The goroutine that creates the subscriber, or runs its once body, is at that. */
  ghost predicate Owned(st: State, s: nat)
    requires s < |st.subscribers|
  {
    var once := st.subscribers[s].once;
    && (once.Uncreated? ==> st.Pc(once.owner).InSubscribe() && st.Pc(once.owner).sub == s)
    && (once.Running? ==> st.Pc(once.owner).InOnceBody() && st.Pc(once.owner).sub == s)
  }

  /** Where a subscriber is between its Subscribe and the close of its channel. */
  ghost predicate SubscriberLife(st: State, s: nat)
    requires s < |st.subscribers|
  {
    var sub := st.subscribers[s];
    && Owned(st, s)
    && (s in st.subs <==> Registered(st, s))
    && (sub.closed <==> ChannelClosed(st, s))
  }

  ghost predicate LifeInv(st: State) {
    && !st.panicked
    && (forall s :: s in st.subs ==> s < |st.subscribers|)
    && (forall t: nat :: ThreadLife(st, t))
    && (forall s: nat | s < |st.subscribers| :: SubscriberLife(st, s))
  }

  /** Messages of one publisher appear in the order of its calls, each at most once. */
  ghost predicate InCallOrder(ms: seq<Message>) {
    forall i, j :: 0 <= i < j < |ms| && ms[i].publisher == ms[j].publisher ==> ms[i].call < ms[j].call
  }

  /** Every message of publisher `t` in `ms` is from a call before call number `n`. */
  ghost predicate Before(ms: seq<Message>, t: nat, n: nat) {
    forall i :: 0 <= i < |ms| && ms[i].publisher == t ==> ms[i].call < n
  }

  ghost predicate ChannelInv(sub: Subscriber) {
    && |sub.buffer| <= BUFFER
    && sub.received + sub.buffer == sub.accepted
    && InCallOrder(sub.accepted)
  }

  /** The message was sent to the subscriber, or it was dropped because the buffer was full. */
  ghost predicate Settled(st: State, s: nat, m: Message) {
    && s < |st.subscribers|
    && (m in st.subscribers[s].accepted || Drop(s, m, BUFFER) in st.drops)
  }

  ghost predicate PublisherInv(st: State, t: nat) {
    var Thread(pc, n) := st.At(t);
    && (forall s | 0 <= s < |st.subscribers| :: Before(st.subscribers[s].accepted, t, n))
    && (pc.PublishWait? || pc.Publishing? ==> pc.message.publisher == t && n == pc.message.call + 1)
    && (pc.PublishWait? ==>
          forall s | 0 <= s < |st.subscribers| :: Before(st.subscribers[s].accepted, t, n - 1))
    && (pc.Publishing? ==>
          && (forall s | 0 <= s < |st.subscribers| && s !in pc.visited ::
                Before(st.subscribers[s].accepted, t, n - 1))
          && (forall s | s in pc.visited :: Settled(st, s, pc.message)))
  }

  ghost predicate DataInv(st: State) {
    && (forall s | 0 <= s < |st.subscribers| :: ChannelInv(st.subscribers[s]))
    && (forall t: nat :: PublisherInv(st, t))
    && (forall i | 0 <= i < |st.drops| :: st.drops[i].fill == BUFFER)
  }

  ghost predicate Inv(st: State) {
    LockInv(st) && LifeInv(st) && DataInv(st)
  }

  // ---------- preservation ----------

  lemma LockStep(st: State, a: Action)
    requires Inv(st) && Enabled(st, a)
    ensures LockInv(Do(st, a))
  {
    var st' := Do(st, a);
    if !a.Receive? {
      forall t: nat | t != a.t ensures st'.At(t) == st.At(t) {}
    }
  }

  /** A goroutine's action moves no other goroutine. */
  lemma OthersStay(st: State, a: Action, t: nat)
    requires Enabled(st, a) && (a.Receive? || t != a.t)
    ensures Do(st, a).At(t) == st.At(t)
  {
  }

  lemma NoPanic(st: State, a: Action)
    requires LockInv(st) && LifeInv(st) && Enabled(st, a)
    ensures !Do(st, a).panicked
  {
    match a {
      case Send(t, s) => assert SubscriberLife(st, s);
      case Close(t) => assert ThreadLife(st, t); assert SubscriberLife(st, st.Pc(t).sub);
      case _ =>
    }
  }

  /** The goroutine that acts is where it may be. */
  ghost predicate ActorLife(st: State, a: Action) {
    a.Receive? || ThreadLife(st, a.t)
  }

  lemma ThreadLifeStep(st: State, a: Action, t: nat)
    requires Enabled(st, a) && !Do(st, a).panicked && ActorLife(st, a) && ThreadLife(st, t)
    ensures ThreadLife(Do(st, a), t)
  {
    if a.Receive? || t != a.t {
      OthersStay(st, a, t);
    }
  }

  /** Actions that leave every once and every channel's registration as they are. */
  predicate LeavesOnce(a: Action) {
    a.BeginPublish? || a.ReadLock? || a.Send? || a.ReadUnlock? || a.BeginUnsubscribe? || a.SkipOnce? || a.Receive?
  }

  lemma OwnedStaysPut(st: State, a: Action, s: nat)
    requires Enabled(st, a) && !Do(st, a).panicked && LeavesOnce(a) && s < |st.subscribers| && Owned(st, s)
    ensures s < |Do(st, a).subscribers| && Owned(Do(st, a), s)
    ensures Registered(st, s) <==> Registered(Do(st, a), s)
    ensures ChannelClosed(st, s) <==> ChannelClosed(Do(st, a), s)
    ensures Do(st, a).subs == st.subs && Do(st, a).subscribers[s].closed == st.subscribers[s].closed
  {
  }

  lemma OwnedStep(st: State, a: Action, s: nat)
    requires Enabled(st, a) && !Do(st, a).panicked && ActorLife(st, a) && s < |Do(st, a).subscribers|
    requires s < |st.subscribers| ==> Owned(st, s)
    ensures Owned(Do(st, a), s)
  {
    if LeavesOnce(a) {
      OwnedStaysPut(st, a, s);
    }
  }

  lemma RegisteredStep(st: State, a: Action, s: nat)
    requires Enabled(st, a) && !Do(st, a).panicked && ActorLife(st, a) && s < |Do(st, a).subscribers|
    requires if s < |st.subscribers| then SubscriberLife(st, s) else s !in st.subs
    ensures s in Do(st, a).subs <==> Registered(Do(st, a), s)
  {
    if LeavesOnce(a) {
      OwnedStaysPut(st, a, s);
    }
  }

  lemma ClosedStep(st: State, a: Action, s: nat)
    requires Enabled(st, a) && !Do(st, a).panicked && ActorLife(st, a) && s < |Do(st, a).subscribers|
    requires s < |st.subscribers| ==> SubscriberLife(st, s)
    ensures Do(st, a).subscribers[s].closed <==> ChannelClosed(Do(st, a), s)
  {
    if LeavesOnce(a) {
      OwnedStaysPut(st, a, s);
    }
  }

  lemma SubscriberLifeStep(st: State, a: Action, s: nat)
    requires LifeInv(st) && Enabled(st, a) && !Do(st, a).panicked && s < |Do(st, a).subscribers|
    ensures SubscriberLife(Do(st, a), s)
  {
    assert ActorLife(st, a);
    if s < |st.subscribers| {
      assert SubscriberLife(st, s);
    }
    OwnedStep(st, a, s);
    RegisteredStep(st, a, s);
    ClosedStep(st, a, s);
  }

  lemma LifeStep(st: State, a: Action)
    requires LockInv(st) && LifeInv(st) && Enabled(st, a)
    ensures LifeInv(Do(st, a))
  {
    var st' := Do(st, a);
    NoPanic(st, a);
    assert ActorLife(st, a);
    forall t: nat ensures ThreadLife(st', t) {
      assert ThreadLife(st, t);
      ThreadLifeStep(st, a, t);
    }
    forall s: nat | s < |st'.subscribers| ensures SubscriberLife(st', s) { SubscriberLifeStep(st, a, s); }
    if a.Insert? { assert ThreadLife(st, a.t); }
  }

  /** What one action can do to a channel's contents and history. */
  lemma ChannelStep(st: State, a: Action, s: nat)
    requires Inv(st) && Enabled(st, a) && s < |Do(st, a).subscribers|
    ensures ChannelInv(Do(st, a).subscribers[s])
  {
    if s < |st.subscribers| {
      assert ChannelInv(st.subscribers[s]);
      if a.Send? && a.s == s {
        assert PublisherInv(st, a.t);
      }
    }
  }

  /** Once settled, always settled: accepted messages and drops are never taken back. */
  lemma SettledStep(st: State, a: Action, s: nat, m: Message)
    requires Enabled(st, a) && Settled(st, s, m)
    ensures Settled(Do(st, a), s, m)
  {
    var st' := Do(st, a);
    assert st.drops <= st'.drops;
    assert st.subscribers[s].accepted <= st'.subscribers[s].accepted;
    if m in st.subscribers[s].accepted {
      var i :| 0 <= i < |st.subscribers[s].accepted| && st.subscribers[s].accepted[i] == m;
      assert st'.subscribers[s].accepted[i] == m;
    } else {
      var i :| 0 <= i < |st.drops| && st.drops[i] == Drop(s, m, BUFFER);
      assert st'.drops[i] == Drop(s, m, BUFFER);
    }
  }

  lemma SendSettles(st: State, t: nat, s: nat)
    requires Inv(st) && Enabled(st, Send(t, s))
    ensures Settled(Do(st, Send(t, s)), s, st.Pc(t).message)
  {
    NoPanic(st, Send(t, s));
    assert ChannelInv(st.subscribers[s]);
  }

  /** Only a send changes what a channel has accepted, and it adds the sender's message. */
  lemma AcceptedStep(st: State, a: Action, s: nat)
    requires Enabled(st, a) && s < |Do(st, a).subscribers|
    ensures s >= |st.subscribers| ==> Do(st, a).subscribers[s].accepted == []
    ensures s < |st.subscribers| ==>
              Do(st, a).subscribers[s].accepted ==
              st.subscribers[s].accepted +
              if a.Send? && a.s == s && !st.subscribers[s].closed && |st.subscribers[s].buffer| < BUFFER
              then [st.Pc(a.t).message] else []
  {
  }

  /** A publisher's own bookkeeping survives the actions of the other goroutines. */
  lemma BystanderStep(st: State, a: Action, t: nat)
    requires Inv(st) && Enabled(st, a) && (a.Receive? || t != a.t)
    ensures PublisherInv(Do(st, a), t)
  {
    var st' := Do(st, a);
    OthersStay(st, a, t);
    assert PublisherInv(st, t);
    if a.Send? { assert PublisherInv(st, a.t); }
    var n := st.At(t).calls;
    forall s: nat, k: nat | s < |st'.subscribers| && (s < |st.subscribers| ==> Before(st.subscribers[s].accepted, t, k))
      ensures Before(st'.subscribers[s].accepted, t, k)
    {
      AcceptedStep(st, a, s);
    }
    if st.Pc(t).Publishing? {
      forall s: nat | s in st.Pc(t).visited ensures Settled(st', s, st.Pc(t).message) {
        SettledStep(st, a, s, st.Pc(t).message);
      }
    }
  }

  /** The acting publisher stays in order. */
  lemma ActorStep(st: State, a: Action)
    requires Inv(st) && Enabled(st, a) && !a.Receive? && !a.Send?
    ensures PublisherInv(Do(st, a), a.t)
  {
    assert PublisherInv(st, a.t);
  }

  lemma SenderStep(st: State, t: nat, s: nat)
    requires Inv(st) && Enabled(st, Send(t, s))
    ensures PublisherInv(Do(st, Send(t, s)), t)
  {
    var a := Send(t, s);
    var st' := Do(st, a);
    var m := st.Pc(t).message;
    assert PublisherInv(st, t);
    SendSettles(st, t, s);
    forall r: nat | r < |st'.subscribers|
      ensures Before(st'.subscribers[r].accepted, t, m.call + 1)
      ensures r !in st'.Pc(t).visited ==> Before(st'.subscribers[r].accepted, t, m.call)
    {
      AcceptedStep(st, a, r);
    }
    forall r: nat | r in st'.Pc(t).visited ensures Settled(st', r, m) {
      if r != s { SettledStep(st, a, r, m); }
    }
  }

  lemma PublisherStep(st: State, a: Action, t: nat)
    requires Inv(st) && Enabled(st, a)
    ensures PublisherInv(Do(st, a), t)
  {
    if a.Receive? || t != a.t {
      BystanderStep(st, a, t);
    } else if a.Send? {
      SenderStep(st, t, a.s);
    } else {
      ActorStep(st, a);
    }
  }

  lemma DataStep(st: State, a: Action)
    requires Inv(st) && Enabled(st, a)
    ensures DataInv(Do(st, a))
  {
    var st' := Do(st, a);
    forall s: nat | s < |st'.subscribers| ensures ChannelInv(st'.subscribers[s]) { ChannelStep(st, a, s); }
    forall t: nat ensures PublisherInv(st', t) { PublisherStep(st, a, t); }
  }

  lemma {:induction false} InvOverRun(from: State, actions: seq<Action>, to: State)
    requires Inv(from) && Run(from, actions, to)
    ensures Inv(to)
    decreases |actions|
  {
    if actions != [] {
      LockStep(from, actions[0]);
      LifeStep(from, actions[0]);
      DataStep(from, actions[0]);
      InvOverRun(Do(from, actions[0]), actions[1..], to);
    }
  }

  lemma EmptyInv()
    ensures Inv(EMPTY)
  {
  }

  // ---------- the theorems: every run from NewHub ----------

  /**
   No reachable state has panicked, and none is one action away from it: whenever a
   publisher is about to send to a channel, or an unsubscribe is about to close one, that
   channel is open.
   */
  lemma NeverTouchesClosedChannel(actions: seq<Action>, st: State)
    requires Run(EMPTY, actions, st)
    ensures !st.panicked
    ensures forall t: nat, s: nat :: Enabled(st, Send(t, s)) ==> !st.subscribers[s].closed
    ensures forall t: nat :: Enabled(st, Close(t)) ==> !st.subscribers[st.Pc(t).sub].closed
  {
    EmptyInv();
    InvOverRun(EMPTY, actions, st);
    forall t: nat, s: nat | Enabled(st, Send(t, s)) ensures !st.subscribers[s].closed {
      NoPanic(st, Send(t, s));
    }
    forall t: nat | Enabled(st, Close(t)) ensures !st.subscribers[st.Pc(t).sub].closed {
      NoPanic(st, Close(t));
    }
  }

  /**
   What a subscriber has received followed by what is buffered for it is exactly what was
   accepted for it; the buffer is within its bound; one publisher's messages keep their
   order and none is accepted twice; and a message is dropped only at a full buffer.
   */
  lemma DeliveryIsExact(actions: seq<Action>, st: State)
    requires Run(EMPTY, actions, st)
    ensures forall s | 0 <= s < |st.subscribers| ::
              var sub := st.subscribers[s];
              && sub.received + sub.buffer == sub.accepted
              && |sub.buffer| <= 64
              && InCallOrder(sub.accepted)
              && NoRepeats(sub.accepted)
    ensures forall d :: d in st.drops ==> d.fill == 64
  {
    EmptyInv();
    InvOverRun(EMPTY, actions, st);
    forall s | 0 <= s < |st.subscribers|
      ensures ChannelInv(st.subscribers[s]) && NoRepeats(st.subscribers[s].accepted)
    {
      assert ChannelInv(st.subscribers[s]);
    }
  }

  /**
   When Publish returns, every subscriber that is registered has either had the event
   accepted or had a full buffer when it was its turn.
   */
  lemma PublishReachesEverySubscriber(actions: seq<Action>, st: State, t: nat)
    requires Run(EMPTY, actions, st) && Enabled(st, ReadUnlock(t))
    ensures forall s :: s in st.subs ==> Settled(st, s, st.Pc(t).message)
  {
    EmptyInv();
    InvOverRun(EMPTY, actions, st);
    assert PublisherInv(st, t);
  }

  /** Once unsubscribe has closed a channel it takes no further message: only its backlog is left. */
  lemma {:induction false} NothingAfterClose(st: State, actions: seq<Action>, st': State, s: nat)
    requires Inv(st) && Run(st, actions, st')
    requires s < |st.subscribers| && st.subscribers[s].closed
    ensures s < |st'.subscribers| && st'.subscribers[s].closed
    ensures st'.subscribers[s].accepted == st.subscribers[s].accepted
    ensures s !in st'.subs
    decreases |actions|
  {
    assert SubscriberLife(st, s);
    if actions != [] {
      var a := actions[0];
      if a.Send? && a.s == s { NoPanic(st, a); }
      LockStep(st, a);
      LifeStep(st, a);
      DataStep(st, a);
      NothingAfterClose(Do(st, a), actions[1..], st', s);
    }
  }

  /** A publisher inside its loop never waits for anybody: it can always take its next step. */
  lemma PublisherNeverBlocks(actions: seq<Action>, st: State, t: nat) returns (a: Action)
    requires Run(EMPTY, actions, st) && st.Pc(t).Publishing?
    ensures Enabled(st, a) && a.Continues() && a.t == t
    ensures a.ReadUnlock? || (a.Send? && a.s in st.subs - st.Pc(t).visited)
  {
    EmptyInv();
    InvOverRun(EMPTY, actions, st);
    if st.subs <= st.Pc(t).visited {
      a := ReadUnlock(t);
    } else {
      var s :| s in st.subs && s !in st.Pc(t).visited;
      a := Send(t, s);
    }
  }

  /**
   No deadlock: while any goroutine is inside an operation, some goroutine can go on,
   without a new call and without any subscriber draining its channel.  This also holds
   when a waiting writer keeps new readers out, as Go's RWMutex does: the action found
   takes the read lock only when nobody wants the write lock.
   */
  lemma NoDeadlock(actions: seq<Action>, st: State, t: nat) returns (a: Action)
    requires Run(EMPTY, actions, st) && !st.Pc(t).Idle?
    ensures Enabled(st, a) && a.Continues()
    ensures a.ReadLock? ==> forall w: nat :: !st.Pc(w).WantsWriteLock()
  {
    EmptyInv();
    InvOverRun(EMPTY, actions, st);
    if st.writer.Some? {
      var w := st.writer.value;
      assert ThreadLife(st, w);
      a := match st.Pc(w)
        case Inserting(_) => Insert(w)
        case Deleting(_) => Delete(w)
        case _ => WriteUnlock(w);
    } else if r: nat :| r in st.readers {
      a := PublisherNeverBlocks(actions, st, r);
    } else if w: nat :| st.Pc(w).WantsWriteLock() {
      a := WriteLock(w);
    } else {
      a := LockFreeStep(st, t);
    }
  }

  /** With the lock free and no writer waiting, any busy goroutine or the one it waits for can go on. */
  lemma LockFreeStep(st: State, t: nat) returns (a: Action)
    requires Inv(st) && st.writer.None? && st.readers == {} && !st.Pc(t).Idle?
    requires forall w: nat :: !st.Pc(w).WantsWriteLock()
    ensures Enabled(st, a) && a.Continues()
    decreases st.Pc(t).OnceCall?
  {
    assert ThreadLife(st, t);
    assert !st.Pc(t).WantsWriteLock() && !st.Pc(t).InWriteSection() && t !in st.readers;
    match st.Pc(t) {
      case PublishWait(_) => a := ReadLock(t);
      case Closing(_) => a := Close(t);
      case OnceExit(_) => a := ExitOnce(t);
      case OnceCall(s) =>
        assert SubscriberLife(st, s);
        match st.subscribers[s].once {
          case Fresh => a := EnterOnce(t);
          case Done => a := SkipOnce(t);
          case Running(u) => a := LockFreeStep(st, u);
        }
    }
  }

  // ---------- one call at a time ----------

  lemma {:induction false} RunConcat(s0: State, xs: seq<Action>, s1: State, ys: seq<Action>, s2: State)
    requires Run(s0, xs, s1) && Run(s1, ys, s2)
    ensures Run(s0, xs + ys, s2)
    decreases |xs|
  {
    if xs == [] {
      assert xs + ys == ys;
    } else {
      assert (xs + ys)[1..] == xs[1..] + ys;
      RunConcat(Do(s0, xs[0]), xs[1..], s1, ys, s2);
    }
  }

  // ---------- every operation ends ----------

  /** The statements that a goroutine has left, at most: a publisher may yet send to every channel there is. */
  function Left(st: State, t: nat): nat {
    match st.Pc(t)
    case Idle => 0
    case PublishWait(_) => 2 + |st.subscribers|
    case Publishing(_, visited) => 1 + |Upto(|st.subscribers|) - visited|
    case SubscribeWait(_) => 3
    case Inserting(_) => 2
    case InsertUnlock(_) => 1
    case OnceCall(_) => 6
    case DeleteWait(_) => 5
    case Deleting(_) => 4
    case DeleteUnlock(_) => 3
    case Closing(_) => 2
    case OnceExit(_) => 1
  }

  /** The statements that the goroutines below `n` have left. */
  function Work(st: State, n: nat): nat {
    if n == 0 then 0 else Work(st, n - 1) + Left(st, n - 1)
  }

  /** Goroutine numbers are below `n`. */
  ghost predicate Below(st: State, n: nat) {
    forall t | t in st.threads :: t < n
  }

  lemma SendProgress(st: State, t: nat, s: nat)
    requires Enabled(st, Send(t, s)) && !st.subscribers[s].closed
    ensures Left(Do(st, Send(t, s)), t) < Left(st, t)
  {
    var all, visited := Upto(|st.subscribers|), st.Pc(t).visited;
    assert s in all - visited;
    assert all - (visited + {s}) == all - visited - {s};
  }

  lemma ReadLockProgress(st: State, t: nat)
    requires Enabled(st, ReadLock(t))
    ensures Left(Do(st, ReadLock(t)), t) < Left(st, t)
  {
    assert Upto(|st.subscribers|) - {} == Upto(|st.subscribers|);
    UptoSize(|st.subscribers|);
  }

  /** Going on with an operation uses up one statement of its goroutine. */
  lemma ActorProgress(st: State, a: Action)
    requires Inv(st) && Enabled(st, a) && a.Continues()
    ensures Left(Do(st, a), a.t) < Left(st, a.t)
    ensures |Do(st, a).subscribers| == |st.subscribers|
  {
    NoPanic(st, a);
    if a.Send? {
      SendProgress(st, a.t, a.s);
    } else if a.ReadLock? {
      ReadLockProgress(st, a.t);
    } else {
      OtherProgress(st, a);
    }
  }

  lemma OtherProgress(st: State, a: Action)
    requires Enabled(st, a) && a.Continues() && !Do(st, a).panicked && !a.Send? && !a.ReadLock?
    ensures Left(Do(st, a), a.t) < Left(st, a.t)
    ensures |Do(st, a).subscribers| == |st.subscribers|
  {
  }

  lemma BystanderLeft(st: State, a: Action, t: nat)
    requires Enabled(st, a) && a.Continues() && t != a.t && |Do(st, a).subscribers| == |st.subscribers|
    ensures Left(Do(st, a), t) == Left(st, t)
  {
    OthersStay(st, a, t);
  }

  lemma {:induction false} WorkLess(st: State, st': State, t: nat, n: nat)
    requires Left(st', t) < Left(st, t) && forall u: nat | u != t :: Left(st', u) == Left(st, u)
    ensures if t < n then Work(st', n) < Work(st, n) else Work(st', n) == Work(st, n)
  {
    if n > 0 {
      WorkLess(st, st', t, n - 1);
    }
  }

  lemma StepOn(st: State, a: Action, n: nat)
    requires Inv(st) && Enabled(st, a) && a.Continues() && Below(st, n)
    ensures Inv(Do(st, a)) && Below(Do(st, a), n) && Work(Do(st, a), n) < Work(st, n)
  {
    InvOverRun(st, [a], Do(st, a));
    WorkStep(st, a, n);
  }

  lemma WorkStep(st: State, a: Action, n: nat)
    requires Inv(st) && Enabled(st, a) && a.Continues() && Below(st, n)
    ensures Below(Do(st, a), n) && Work(Do(st, a), n) < Work(st, n)
  {
    assert a.t in st.threads;
    ActorProgress(st, a);
    forall t: nat | t != a.t ensures Left(Do(st, a), t) == Left(st, t) {
      BystanderLeft(st, a, t);
    }
    WorkLess(st, Do(st, a), a.t, n);
  }

  /** There is always such a number. */
  lemma SomeBelow(st: State) returns (n: nat)
    ensures Below(st, n)
  {
    n := Bound(st.threads.Keys);
  }

  /** Going on with an operation, or receiving from a channel. */
  predicate NoNewCall(a: Action) {
    a.Continues() || a.Receive?
  }

  /** How many of the actions go on with an operation. */
  function Steps(actions: seq<Action>): nat {
    if actions == [] then 0 else (if actions[0].Continues() then 1 else 0) + Steps(actions[1..])
  }

  lemma {:induction false} ReceiveLeaves(st: State, s: nat, n: nat)
    requires Enabled(st, Receive(s))
    ensures Work(Do(st, Receive(s)), n) == Work(st, n)
  {
    if n > 0 {
      ReceiveLeaves(st, s, n - 1);
      OthersStay(st, Receive(s), n - 1);
    }
  }

  /**
   However the scheduler goes on with the operations in progress, it comes to an end: in a
   run without new calls they take no more steps than there are statements left.
   */
  lemma {:induction false} OperationsEnd(st: State, actions: seq<Action>, st': State, n: nat)
    requires Inv(st) && Below(st, n) && Run(st, actions, st') && forall a | a in actions :: NoNewCall(a)
    ensures Steps(actions) + Work(st', n) <= Work(st, n)
    decreases |actions|
  {
    if actions != [] {
      var a := actions[0];
      assert a in actions;
      if a.Receive? {
        InvOverRun(st, [a], Do(st, a));
        ReceiveLeaves(st, a.s, n);
      } else {
        StepOn(st, a, n);
      }
      OperationsEnd(Do(st, a), actions[1..], st', n);
    }
  }

  /** Nobody is inside an operation. */
  ghost predicate AllIdle(st: State) {
    forall t: nat :: st.Pc(t).Idle?
  }

  /** Without new calls and with no goroutine able to go on, everybody has returned. */
  ghost predicate NobodyGoesOn(st: State) {
    forall a: Action | a.Continues() :: !Enabled(st, a)
  }

  /**
   In every run, the operations in progress only go on for so long, whatever is received in
   between, and nobody can go on any further exactly when every Publish, Subscribe and
   Unsubscribe has returned.  All goroutines inside an operation are below `n`.
   */
  lemma OperationsFinish(before: seq<Action>, st: State) returns (n: nat)
    requires Run(EMPTY, before, st)
    ensures Below(st, n)
    ensures forall actions: seq<Action>, st': State |
              Run(st, actions, st') && forall a | a in actions :: NoNewCall(a) ::
              Steps(actions) <= Work(st, n) && (NobodyGoesOn(st') <==> AllIdle(st'))
  {
    n := SomeBelow(st);
    forall actions: seq<Action>, st': State | Run(st, actions, st') && forall a | a in actions :: NoNewCall(a)
      ensures Steps(actions) <= Work(st, n) && (NobodyGoesOn(st') <==> AllIdle(st'))
    {
      ContinuationEnds(before, st, actions, st', n);
    }
  }

  lemma ContinuationEnds(before: seq<Action>, st: State, actions: seq<Action>, st': State, n: nat)
    requires Run(EMPTY, before, st) && Below(st, n)
    requires Run(st, actions, st') && forall a | a in actions :: NoNewCall(a)
    ensures Steps(actions) <= Work(st, n)
    ensures NobodyGoesOn(st') <==> AllIdle(st')
  {
    EmptyInv();
    InvOverRun(EMPTY, before, st);
    OperationsEnd(st, actions, st', n);
    if t: nat :| !st'.Pc(t).Idle? {
      RunConcat(EMPTY, before, st, actions, st');
      var a := NoDeadlock(before + actions, st', t);
      assert a.Continues() && Enabled(st', a);
    }
  }

  // ---------- what a call has done when it returns ----------

  /** The call of goroutine `t` on the closure of `s` is under way, or somebody has finished with the closure. */
  ghost predicate Unsubscribing(st: State, t: nat, s: nat) {
    && s < |st.subscribers|
    && (|| st.subscribers[s].once.Done?
        || st.Pc(t) == OnceCall(s)
        || (st.Pc(t).InOnceBody() && st.Pc(t).sub == s && st.subscribers[s].once == Running(t)))
  }

  lemma UnsubscribingStep(st: State, a: Action, t: nat, s: nat)
    requires Enabled(st, a) && !Do(st, a).panicked && ActorLife(st, a) && Unsubscribing(st, t, s)
    ensures Unsubscribing(Do(st, a), t, s)
  {
    if a.Receive? || a.t != t {
      OthersStay(st, a, t);
    }
  }

  lemma {:induction false} UnsubscribingRun(st: State, actions: seq<Action>, st': State, t: nat, s: nat)
    requires Inv(st) && Unsubscribing(st, t, s) && Run(st, actions, st')
    ensures Inv(st') && Unsubscribing(st', t, s)
    decreases |actions|
  {
    if actions != [] {
      var a := actions[0];
      NoPanic(st, a);
      assert ActorLife(st, a);
      UnsubscribingStep(st, a, t, s);
      InvOverRun(st, [a], Do(st, a));
      UnsubscribingRun(Do(st, a), actions[1..], st', t, s);
    }
  }

  /**
   Whatever else goes on: when a call of an unsubscribe closure has returned, the channel is
   closed and no longer registered, whoever it was that ran the closure's body.
   */
  lemma UnsubscribeCloses(st: State, t: nat, s: nat, actions: seq<Action>, st': State)
    requires Inv(st) && Enabled(st, BeginUnsubscribe(t, s))
    requires Run(Do(st, BeginUnsubscribe(t, s)), actions, st') && st'.Pc(t).Idle?
    ensures s < |st'.subscribers| && st'.subscribers[s].closed && s !in st'.subs
  {
    InvOverRun(st, [BeginUnsubscribe(t, s)], Do(st, BeginUnsubscribe(t, s)));
    UnsubscribingRun(Do(st, BeginUnsubscribe(t, s)), actions, st', t, s);
    assert SubscriberLife(st', s);
  }

  /** The call of goroutine `t` that makes channel `s` is under way, or the channel has been handed out. */
  ghost predicate Subscribing(st: State, t: nat, s: nat) {
    && s < |st.subscribers|
    && (!st.subscribers[s].once.Uncreated? ||
        (st.Pc(t).InSubscribe() && st.Pc(t).sub == s && st.subscribers[s].once == Uncreated(t)))
  }

  lemma SubscribingStep(st: State, a: Action, t: nat, s: nat)
    requires Enabled(st, a) && !Do(st, a).panicked && ActorLife(st, a) && Subscribing(st, t, s)
    ensures Subscribing(Do(st, a), t, s)
  {
    if a.Receive? || a.t != t {
      OthersStay(st, a, t);
    }
  }

  lemma {:induction false} SubscribingRun(st: State, actions: seq<Action>, st': State, t: nat, s: nat)
    requires Inv(st) && Subscribing(st, t, s) && Run(st, actions, st')
    ensures Inv(st') && Subscribing(st', t, s)
    decreases |actions|
  {
    if actions != [] {
      var a := actions[0];
      NoPanic(st, a);
      assert ActorLife(st, a);
      SubscribingStep(st, a, t, s);
      InvOverRun(st, [a], Do(st, a));
      SubscribingRun(Do(st, a), actions[1..], st', t, s);
    }
  }

  /**
   Whatever else goes on: when Subscribe has returned, its channel is a new one, and it is
   registered and open for as long as nobody has entered its closure.
   */
  lemma SubscribeRegisters(st: State, t: nat, actions: seq<Action>, st': State)
    requires Inv(st) && Enabled(st, BeginSubscribe(t))
    requires Run(Do(st, BeginSubscribe(t)), actions, st') && st'.Pc(t).Idle?
    ensures var s := |st.subscribers|;
            && s < |st'.subscribers| && !st'.subscribers[s].once.Uncreated?
            && (st'.subscribers[s].once.Fresh? ==> s in st'.subs && !st'.subscribers[s].closed)
  {
    var s := |st.subscribers|;
    InvOverRun(st, [BeginSubscribe(t)], Do(st, BeginSubscribe(t)));
    SubscribingRun(Do(st, BeginSubscribe(t)), actions, st', t, s);
    assert SubscriberLife(st', s);
  }

  // ---------- one operation at a time ----------

  /** One more action at the end of a run. */
  lemma Then(from: State, actions: seq<Action>, mid: State, a: Action) returns (more: seq<Action>, to: State)
    requires Run(from, actions, mid) && Enabled(mid, a)
    ensures Run(from, more, to) && to == Do(mid, a)
  {
    more, to := actions + [a], Do(mid, a);
    assert [a][1..] == [];
    assert Run(mid, [a], to);
    RunConcat(from, actions, mid, [a], to);
  }

  /** A whole Subscribe that nothing interrupts adds one open, empty, registered channel. */
  lemma SubscribeAlone(st: State, t: nat) returns (actions: seq<Action>, st': State)
    requires Inv(st) && st.Pc(t).Idle? && st.writer.None? && st.readers == {}
    ensures Run(st, actions, st') && st'.Pc(t).Idle?
    ensures st'.subs == st.subs + {|st.subscribers|}
    ensures st'.subscribers == st.subscribers + [Subscriber([], false, Fresh, [], [])]
  {
    actions, st' := Then(st, [], st, BeginSubscribe(t));
    actions, st' := Then(st, actions, st', WriteLock(t));
    actions, st' := Then(st, actions, st', Insert(t));
    actions, st' := Then(st, actions, st', WriteUnlock(t));
  }

  /**
   A whole call of an unsubscribe closure that nothing interrupts closes and unregisters the
   channel, with its backlog kept, and touches no other; a repeated call changes nothing.
   */
  lemma UnsubscribeAlone(st: State, t: nat, s: nat) returns (actions: seq<Action>, st': State)
    requires Inv(st) && st.Pc(t).Idle? && st.writer.None? && st.readers == {}
    requires s < |st.subscribers| && (st.subscribers[s].once.Fresh? || st.subscribers[s].once.Done?)
    ensures Run(st, actions, st') && st'.Pc(t).Idle? && st'.subs == st.subs - {s}
    ensures st'.subscribers == st.subscribers[s := st.subscribers[s].(closed := true, once := Done)]
  {
    assert SubscriberLife(st, s);
    actions, st' := Then(st, [], st, BeginUnsubscribe(t, s));
    if st.subscribers[s].once.Done? {
      actions, st' := Then(st, actions, st', SkipOnce(t));
    } else {
      actions, st' := DeleteAlone(st, actions, st', t, s);
      actions, st' := Then(st, actions, st', Close(t));
      actions, st' := Then(st, actions, st', ExitOnce(t));
    }
  }

  /** The closure's body up to the close. */
  lemma DeleteAlone(from: State, before: seq<Action>, st: State, t: nat, s: nat)
    returns (actions: seq<Action>, st': State)
    requires Run(from, before, st)
    requires st.Pc(t) == OnceCall(s) && st.writer.None? && st.readers == {}
    requires s < |st.subscribers| && st.subscribers[s].once.Fresh?
    ensures Run(from, actions, st') && st'.Pc(t) == Closing(s) && st'.subs == st.subs - {s}
    ensures st'.subscribers == st.subscribers[s := st.subscribers[s].(once := Running(t))]
  {
    actions, st' := Then(from, before, st, EnterOnce(t));
    actions, st' := Then(from, actions, st', WriteLock(t));
    actions, st' := Then(from, actions, st', Delete(t));
    actions, st' := Then(from, actions, st', WriteUnlock(t));
  }

  /** A subscriber that goes on receiving gets all that was accepted for it, in order. */
  lemma {:induction false} DrainAlone(st: State, s: nat) returns (actions: seq<Action>, st': State)
    requires s < |st.subscribers|
    ensures Run(st, actions, st') && s < |st'.subscribers| && st'.subscribers[s].buffer == []
    ensures st'.subscribers[s].received == st.subscribers[s].received + st.subscribers[s].buffer
    decreases |st.subscribers[s].buffer|
  {
    if st.subscribers[s].buffer == [] {
      actions, st' := [], st;
    } else {
      var rest;
      rest, st' := DrainAlone(Do(st, Receive(s)), s);
      actions := [Receive(s)] + rest;
      assert actions[1..] == rest;
    }
  }

  /** The loop of Publish, uninterrupted: every channel not yet visited is offered the message. */
  lemma {:induction false} SendLoop(st: State, t: nat) returns (actions: seq<Action>, st': State)
    requires Inv(st) && st.Pc(t).Publishing?
    ensures Run(st, actions, st') && Inv(st')
    ensures st' == st.(threads := st'.threads, subscribers := st'.subscribers, drops := st'.drops)
    ensures st'.Pc(t) == Publishing(st.Pc(t).message, st'.Pc(t).visited) && st.subs <= st'.Pc(t).visited
    ensures |st'.subscribers| == |st.subscribers|
    ensures forall s: nat | s < |st.subscribers| :: st'.subscribers[s].buffer ==
              if s in st.subs - st.Pc(t).visited then Offer(st.subscribers[s].buffer, st.Pc(t).message)
              else st.subscribers[s].buffer
    decreases st.subs - st.Pc(t).visited
  {
    if s: nat :| s in st.subs && s !in st.Pc(t).visited {
      var a := Send(t, s);
      NoPanic(st, a);
      LockStep(st, a);
      LifeStep(st, a);
      DataStep(st, a);
      var rest;
      rest, st' := SendLoop(Do(st, a), t);
      actions := [a] + rest;
      assert actions[1..] == rest;
    } else {
      actions, st' := [], st;
    }
  }

  /** A whole Publish that nothing interrupts offers the event to exactly the registered channels. */
  lemma PublishAlone(st: State, t: nat, e: Event) returns (actions: seq<Action>, st': State)
    requires Inv(st) && st.Pc(t).Idle? && st.writer.None?
    ensures Run(st, actions, st') && st'.Pc(t).Idle? && st'.subs == st.subs
    ensures |st'.subscribers| == |st.subscribers|
    ensures forall s: nat | s < |st.subscribers| :: st'.subscribers[s].buffer ==
              if s in st.subs then Offer(st.subscribers[s].buffer, Message(t, st.At(t).calls, e))
              else st.subscribers[s].buffer
  {
    var s1 := Do(st, BeginPublish(t, e));
    InvOverRun(st, [BeginPublish(t, e)], s1);
    var s2 := Do(s1, ReadLock(t));
    InvOverRun(s1, [ReadLock(t)], s2);
    var sends, s3 := SendLoop(s2, t);
    st' := Do(s3, ReadUnlock(t));
    assert Run(s3, [ReadUnlock(t)], st');
    RunConcat(s2, sends, s3, [ReadUnlock(t)], st');
    RunConcat(s1, [ReadLock(t)], s2, sends + [ReadUnlock(t)], st');
    RunConcat(st, [BeginPublish(t, e)], s1, [ReadLock(t)] + (sends + [ReadUnlock(t)]), st');
    actions := [BeginPublish(t, e)] + ([ReadLock(t)] + (sends + [ReadUnlock(t)]));
  }

  /** The heap object behind one subscription: a channel and the flag of its once. */
  class Subscription {
    var buffer: seq<Event>
    var closed: bool
    var ran: bool

    constructor ()
      ensures buffer == [] && !closed && !ran
    {
      buffer, closed, ran := [], false, false;
    }
  }

  /** The hub object, its operations executed one at a time. */
  class EventHub {
    var subs: set<Subscription>

    ghost predicate Valid()
      reads this, subs
    {
      forall s | s in subs :: !s.closed && !s.ran && |s.buffer| <= BUFFER
    }

    /** `s` came from Subscribe: it is registered until its closure has run, and then it is closed. */
    ghost predicate Issued(s: Subscription)
      reads this, s
    {
      s.closed == s.ran == (s !in subs)
    }

    constructor ()
      ensures Valid() && subs == {}
    {
      subs := {};
    }

    method Subscribe() returns (s: Subscription)
      requires Valid()
      modifies this
      ensures Valid() && fresh(s) && subs == old(subs) + {s}
      ensures Issued(s) && s.buffer == []
    {
      s := new Subscription();
      subs := subs + {s};
    }

    /** The closure returned by Subscribe.  Calling it again changes nothing. */
    method Unsubscribe(s: Subscription)
      requires Valid() && Issued(s)
      modifies this, s
      ensures Valid() && Issued(s) && s.closed
      ensures subs == old(subs) - {s} && s.buffer == old(s.buffer)
    {
      if !s.ran {
        subs := subs - {s};
        assert !s.closed;  // closing a closed channel would panic
        s.closed := true;
        s.ran := true;
      }
    }

    method Publish(e: Event)
      requires Valid()
      modifies subs
      ensures Valid()
      ensures forall s | s in subs :: s.buffer == Offer(old(s.buffer), e)
    {
      var todo := subs;
      while todo != {}
        invariant todo <= subs && Valid()
        invariant forall s | s in subs :: s.buffer == if s in todo then old(s.buffer) else Offer(old(s.buffer), e)
        decreases todo
      {
        var s :| s in todo;
        assert !s.closed;  // sending on a closed channel would panic
        if |s.buffer| < BUFFER {
          s.buffer := s.buffer + [e];
        }
        todo := todo - {s};
      }
    }
  }
}
