/** Pushing the expected state to connected nodes. A change is announced by Notify, which may run while the node
    reconnects and while earlier pushes are still on their way; the wake slot of a session holds one signal. */
module Sessions {
  import opened Options

  // ---- what the lock and the channels protect ----

  /** The current session of each node, the counter that names sessions, and the wake slot of every session made. */
  datatype Registry = Registry(sessions: map<string, nat>, revision: nat, wake: map<nat, bool>)

  function Current(r: Registry, node: string): Option<nat> {
    if node in r.sessions then Some(r.sessions[node]) else None
  }

  function Opened(r: Registry, node: string): Registry {
    var id := r.revision + 1;
    Registry(r.sessions[node := id], id, r.wake[id := false])
  }

  function Dropped(r: Registry, node: string, id: nat): Registry {
    if Current(r, node) == Some(id) then r.(sessions := r.sessions - {node}) else r
  }

  function Signalled(r: Registry, id: nat): Registry {
    r.(wake := r.wake[id := true])
  }

  class Session {
    const id: nat
    const node: string
    var wake: bool

    constructor (id: nat, node: string)
      ensures this.id == id && this.node == node && !wake
    {
      this.id, this.node, wake := id, node, false;
    }

    /** The non-blocking send on a channel of capacity 1. */
    method Signal()
      modifies this
      ensures wake
    {
      if !wake {
        wake := true;
      }
    }
  }

  class Server {
    var sessions: map<string, Session>
    var revision: nat
    ghost var made: map<nat, Session>

    ghost predicate Valid()
      reads this, made.Values
    {
      && (forall i :: i in made ==> made[i].id == i && i <= revision)
      && (forall n :: n in sessions ==> sessions[n].id in made && made[sessions[n].id] == sessions[n])
    }

    ghost function View(): Registry
      reads this, made.Values, sessions.Values
    {
      Registry(map n | n in sessions :: sessions[n].id, revision, map i | i in made :: made[i].wake)
    }

    constructor ()
      ensures Valid() && View() == Registry(map[], 0, map[])
    {
      sessions, revision, made := map[], 0, map[];
    }

    method NewSession(node: string) returns (s: Session)
      requires Valid()
      modifies this
      ensures Valid() && View() == Opened(old(View()), node)
      ensures fresh(s) && s.id == revision && s.node == node && made == old(made)[revision := s]
    {
      revision := revision + 1;
      s := new Session(revision, node);
      assert View().sessions == old(View()).sessions && View().wake == old(View()).wake;
      Adopt(node, s);
    }

    method Adopt(node: string, s: Session)
      requires Valid() && s.id == revision && !s.wake && revision !in made
      modifies `sessions, `made
      ensures Valid() && made == old(made)[s.id := s]
      ensures View() == Registry(old(View()).sessions[node := s.id], revision, old(View()).wake[s.id := false])
    {
      sessions := sessions[node := s];
      made := made[revision := s];
    }

    method SessionOf(node: string) returns (s: Session?)
      requires Valid()
      ensures (s == null <==> Current(View(), node) == None)
      ensures s != null ==> Current(View(), node) == Some(s.id) && s.id in made && made[s.id] == s
    {
      s := if node in sessions then sessions[node] else null;
    }

    /** The part of Notify under the lock. */
    method NotifyLocked(node: string) returns (s: Session?)
      requires Valid()
      modifies this
      ensures Valid() && made == old(made) && View() == old(View()).(revision := old(revision) + 1)
      ensures (s == null <==> Current(View(), node) == None)
      ensures s != null ==> Current(View(), node) == Some(s.id) && s.id in made && made[s.id] == s
    {
      s := SessionOf(node);
      revision := revision + 1;
    }

    /** The part of Notify after the lock: by now the session may have been replaced. */
    method NotifySend(s: Session)
      requires Valid() && s.id in made && made[s.id] == s
      modifies s
      ensures Valid() && View() == Signalled(old(View()), s.id)
    {
      s.Signal();
    }

    method DropSession(node: string, s: Session)
      requires Valid() && s.id in made && made[s.id] == s
      modifies this
      ensures Valid() && made == old(made) && View() == Dropped(old(View()), node, s.id)
    {
      if node in sessions && sessions[node] == s {
        sessions := sessions - {node};
      }
    }
  }

  // ---- the protocol as interleaved steps ----

  /** Where a Subscribe call stands. `v` counts the changes contained in the snapshot that was read. */
  datatype Phase =
    | ToPush
    | Loaded(v: nat)     // Assignment read, Send still to come
    | Idle(v: nat)       // waiting in the select, last pushed snapshot v
    | Checking           // took a wake signal, has not looked at the session yet
    | Ended

  datatype Stream = Stream(node: string, id: nat, phase: Phase)

  /** A Notify between its lock and its send; `covers` counts the changes made before it was called. */
  datatype Call = Call(node: string, id: nat, covers: nat)

  datatype Born = Born(node: string, at: nat)

  /** `changes` and `notified` count, per node, the changes made and those whose Notify has returned. `born` remembers
      for every session its node and how many changes there were when it was made. */
  datatype World = World(reg: Registry, changes: map<string, nat>, notified: map<string, nat>,
                         calls: map<nat, Call>, streams: map<nat, Stream>, born: map<nat, Born>)

  datatype Event =
    | Change(node: string)
    | NotifyLock(node: string, call: nat)
    | NotifySend(call: nat)
    | Register(node: string)
    | Subscribe(node: string, session: Option<nat>, stream: nat)
    | ReadAssignment(stream: nat)
    | Send(stream: nat)
    | PushFails(stream: nat)
    | Receive(stream: nat)
    | CheckSession(stream: nat)
    | Leave(stream: nat)             // the client is gone, or the server drains

  const START := World(Registry(map[], 0, map[]), map[], map[], map[], map[], map[])

  function Count(m: map<string, nat>, node: string): nat {
    if node in m then m[node] else 0
  }

  function Larger(a: nat, b: nat): nat {
    if a >= b then a else b
  }

  function Moved(w: World, st: nat, phase: Phase): World
    requires st in w.streams
  {
    w.(streams := w.streams[st := w.streams[st].(phase := phase)])
  }

  function Returned(w: World, node: string, covers: nat): World {
    w.(notified := w.notified[node := Larger(Count(w.notified, node), covers)])
  }

  function Counted(w: World): World {
    w.(reg := w.reg.(revision := w.reg.revision + 1))
  }

  function Called(w: World, k: nat, c: Call): World {
    w.(calls := w.calls[k := c])
  }

  function Lock(w: World, n: string, k: nat): World {
    var id := Current(w.reg, n);
    if id.None? then Returned(Counted(w), n, Count(w.changes, n))
    else Called(Counted(w), k, Call(n, id.value, Count(w.changes, n)))
  }

  function Deliver(w: World, k: nat): World
    requires k in w.calls
  {
    var c := w.calls[k];
    Returned(w.(reg := Signalled(w.reg, c.id), calls := w.calls - {k}), c.node, c.covers)
  }

  function Connect(w: World, n: string): World {
    w.(reg := Opened(w.reg, n), born := w.born[w.reg.revision + 1 := Born(n, Count(w.changes, n))])
  }

  function Take(w: World, st: nat): World
    requires st in w.streams
  {
    Moved(w.(reg := w.reg.(wake := w.reg.wake[w.streams[st].id := false])), st, Checking)
  }

  function Depart(w: World, st: nat): World
    requires st in w.streams
  {
    Moved(w.(reg := Dropped(w.reg, w.streams[st].node, w.streams[st].id)), st, Ended)
  }

  /** One step of one goroutine. An event that its goroutine is not ready for changes nothing. */
  function Step(w: World, e: Event): World {
    match e
    case Change(n) => w.(changes := w.changes[n := Count(w.changes, n) + 1])
    case NotifyLock(n, k) => if k in w.calls then w else Lock(w, n, k)
    case NotifySend(k) => if k in w.calls then Deliver(w, k) else w
    case Register(n) => Connect(w, n)
    case Subscribe(n, session, st) =>
      var id := Current(w.reg, n);
      if st in w.streams || id.None? || (session.Some? && session != id) then w
      else w.(streams := w.streams[st := Stream(n, id.value, ToPush)])
    case ReadAssignment(st) =>
      if st in w.streams && w.streams[st].phase.ToPush?
      then Moved(w, st, Loaded(Count(w.changes, w.streams[st].node)))
      else w
    case Send(st) =>
      if st in w.streams && w.streams[st].phase.Loaded? then Moved(w, st, Idle(w.streams[st].phase.v)) else w
    case PushFails(st) =>
      if st in w.streams && (w.streams[st].phase.ToPush? || w.streams[st].phase.Loaded?) then Moved(w, st, Ended) else w
    case Receive(st) =>
      if st in w.streams && w.streams[st].phase.Idle? && w.streams[st].id in w.reg.wake && w.reg.wake[w.streams[st].id]
      then Take(w, st) else w
    case CheckSession(st) =>
      if st in w.streams && w.streams[st].phase.Checking?
      then Moved(w, st, if Current(w.reg, w.streams[st].node) == Some(w.streams[st].id) then ToPush else Ended)
      else w
    case Leave(st) => if st in w.streams && w.streams[st].phase.Idle? then Depart(w, st) else w
  }

  ghost predicate Follows(ws: seq<World>, es: seq<Event>, i: nat)
    requires |ws| == |es| + 1 && i < |es|
  {
    ws[i + 1] == Step(ws[i], es[i])
  }

  ghost predicate Run(ws: seq<World>, es: seq<Event>) {
    |ws| == |es| + 1 && ws[0] == START && forall i :: 0 <= i < |es| ==> Follows(ws, es, i)
  }

  /** No session has two streams that have not ended. */
  ghost predicate OneStreamEach(w: World) {
    forall a, b :: a in w.streams && b in w.streams && a != b
      && !w.streams[a].phase.Ended? && !w.streams[b].phase.Ended?
      ==> w.streams[a].id != w.streams[b].id
  }

  // ---- nothing is lost ----

  ghost predicate Registered(w: World) {
    && w.reg.wake.Keys == w.born.Keys
    && (forall id :: id in w.born ==> id <= w.reg.revision && w.born[id].at <= Count(w.changes, w.born[id].node))
    && (forall n :: n in w.reg.sessions ==> w.reg.sessions[n] in w.born && w.born[w.reg.sessions[n]].node == n)
  }

  /** A call whose session was replaced covers nothing the new session was born without. */
  ghost predicate CallSound(w: World, c: Call) {
    && c.id in w.born && w.born[c.id].node == c.node && c.covers <= Count(w.changes, c.node)
    && (c.node in w.reg.sessions && w.reg.sessions[c.node] in w.born && w.reg.sessions[c.node] != c.id
        ==> c.covers <= w.born[w.reg.sessions[c.node]].at)
  }

  /** A snapshot on the current session has every notified change, or a signal is waiting. */
  ghost predicate StreamSound(w: World, s: Stream) {
    && s.id in w.born && s.id in w.reg.wake && w.born[s.id].node == s.node
    && (s.phase.Loaded? || s.phase.Idle? ==>
          && s.phase.v >= w.born[s.id].at
          && (Current(w.reg, s.node) == Some(s.id) ==> s.phase.v >= Count(w.notified, s.node) || w.reg.wake[s.id]))
  }

  ghost predicate Sound(w: World) {
    && Registered(w)
    && (forall k :: k in w.calls ==> CallSound(w, w.calls[k]))
    && (forall st :: st in w.streams ==> StreamSound(w, w.streams[st]))
    && (forall n :: Count(w.notified, n) <= Count(w.changes, n))
  }

  lemma ChangeKeeps(w: World, n: string)
    requires Sound(w)
    ensures Sound(Step(w, Change(n)))
  {}

  lemma CountingKeeps(w: World)
    requires Sound(w)
    ensures Sound(Counted(w))
  {}

  lemma CallingKeeps(w: World, k: nat, c: Call)
    requires Sound(w) && c.id in w.born && w.born[c.id].node == c.node
    requires Current(w.reg, c.node) == Some(c.id) && c.covers <= Count(w.changes, c.node)
    ensures Sound(Called(w, k, c))
  {}

  lemma CurrentIsBorn(w: World, n: string)
    requires Sound(w) && Current(w.reg, n).Some?
    ensures Current(w.reg, n).value in w.born && w.born[Current(w.reg, n).value].node == n
  {}

  lemma LockKeeps(w: World, n: string, k: nat)
    requires Sound(w)
    ensures Sound(Lock(w, n, k))
  {
    CountingKeeps(w);
    if Current(w.reg, n).None? {
      ReturnKeeps(Counted(w), n, Count(w.changes, n));
    } else {
      CurrentIsBorn(w, n);
      CallingKeeps(Counted(w), k, Call(n, Current(w.reg, n).value, Count(w.changes, n)));
    }
  }

  /** Without a session there is nobody to signal: whoever connects later reads a snapshot with the change. */
  lemma ReturnKeeps(w: World, n: string, covers: nat)
    requires Sound(w) && Current(w.reg, n).None? && covers <= Count(w.changes, n)
    ensures Sound(Returned(w, n, covers))
  {}

  lemma DeliverKeeps(w: World, k: nat)
    requires Sound(w) && k in w.calls
    ensures Sound(Deliver(w, k))
  {}

  lemma ConnectKeeps(w: World, n: string)
    requires Sound(w)
    ensures Sound(Connect(w, n))
  {
    var next := Connect(w, n);
    forall j | j in next.calls ensures CallSound(next, next.calls[j]) { assert CallSound(w, w.calls[j]); }
    forall st | st in next.streams ensures StreamSound(next, next.streams[st]) { assert StreamSound(w, w.streams[st]); }
  }

  /** A stream may move to a phase that is sound for it. */
  lemma MoveKeeps(w: World, st: nat, s: Stream)
    requires Sound(w) && StreamSound(w, s)
    ensures Sound(w.(streams := w.streams[st := s]))
  {}

  /** Taking the signal is safe because nobody else on the session was counting on it. */
  lemma TakeKeeps(w: World, st: nat)
    requires Sound(w) && OneStreamEach(w) && st in w.streams && w.streams[st].phase.Idle?
    ensures Sound(Take(w, st))
  {}

  lemma DepartKeeps(w: World, st: nat)
    requires Sound(w) && st in w.streams
    ensures Sound(Depart(w, st))
  {}

  lemma StepKeepsSound(w: World, e: Event)
    requires Sound(w) && OneStreamEach(w)
    ensures Sound(Step(w, e))
  {
    match e
    case Change(n) => ChangeKeeps(w, n);
    case NotifyLock(n, k) => if k !in w.calls { LockKeeps(w, n, k); }
    case NotifySend(k) => if k in w.calls { DeliverKeeps(w, k); }
    case Register(n) => ConnectKeeps(w, n);
    case Subscribe(n, session, st) =>
      if Current(w.reg, n).Some? { MoveKeeps(w, st, Stream(n, Current(w.reg, n).value, ToPush)); }
    case ReadAssignment(st) =>
      if st in w.streams { StreamMoves(w, st, Loaded(Count(w.changes, w.streams[st].node))); }
    case Send(st) =>
      if st in w.streams && w.streams[st].phase.Loaded? { StreamMoves(w, st, Idle(w.streams[st].phase.v)); }
    case PushFails(st) => if st in w.streams { StreamMoves(w, st, Ended); }
    case Receive(st) => if st in w.streams && w.streams[st].phase.Idle? { TakeKeeps(w, st); }
    case CheckSession(st) => if st in w.streams { StreamMoves(w, st, ToPush); StreamMoves(w, st, Ended); }
    case Leave(st) => if st in w.streams { DepartKeeps(w, st); }
  }

  lemma StreamMoves(w: World, st: nat, phase: Phase)
    requires Sound(w) && st in w.streams
    requires phase.Loaded? ==> phase.v == Count(w.changes, w.streams[st].node)
    requires phase.Idle? ==> w.streams[st].phase == Loaded(phase.v)
    ensures Sound(Moved(w, st, phase))
  {}

  lemma {:induction false} AlwaysSound(ws: seq<World>, es: seq<Event>, i: nat)
    requires Run(ws, es) && i <= |es| && forall j :: 0 <= j < i ==> OneStreamEach(ws[j])
    ensures Sound(ws[i])
  {
    if i > 0 {
      AlwaysSound(ws, es, i - 1);
      assert Follows(ws, es, i - 1);
      StepKeepsSound(ws[i - 1], es[i - 1]);
    }
  }

  /** The stream waits on the node's current session and no signal is waiting for it. */
  ghost predicate Quiet(w: World, st: nat) {
    && st in w.streams && w.streams[st].phase.Idle? && Current(w.reg, w.streams[st].node) == Some(w.streams[st].id)
    && (w.streams[st].id in w.reg.wake ==> !w.reg.wake[w.streams[st].id])
  }

  ghost predicate UpToDate(w: World, st: nat) {
    st in w.streams && w.streams[st].phase.Idle? && w.streams[st].phase.v >= Count(w.notified, w.streams[st].node)
  }

  /** Under every interleaving with one stream per session: whenever the current session's stream is idle and its
      wake slot empty, the last pushed snapshot has every change whose Notify has returned. */
  lemma NothingLost(ws: seq<World>, es: seq<Event>, i: nat, st: nat)
    requires Run(ws, es) && i <= |es| && (forall j :: 0 <= j < i ==> OneStreamEach(ws[j]))
    requires Quiet(ws[i], st)
    ensures UpToDate(ws[i], st)
  {
    AlwaysSound(ws, es, i);
    assert StreamSound(ws[i], ws[i].streams[st]);
  }

  /** And a signal that is waiting leads, once the stream gets to run, to a push of everything there is. */
  lemma SignalLeadsToPush(w: World, st: nat)
    requires st in w.streams && w.streams[st].phase.Idle? &&
             Current(w.reg, w.streams[st].node) == Some(w.streams[st].id)
    requires w.streams[st].id in w.reg.wake && w.reg.wake[w.streams[st].id]
    ensures var after := Step(Step(Step(Step(w, Receive(st)), CheckSession(st)), ReadAssignment(st)), Send(st));
            after == Moved(w.(reg := w.reg.(wake := w.reg.wake[w.streams[st].id := false])), st,
              Idle(Count(w.changes, w.streams[st].node)))
  {
    var w1 := Step(w, Receive(st));
    var w2 := Step(w1, CheckSession(st));
    assert w2.streams[st].phase == ToPush;
    var w3 := Step(w2, ReadAssignment(st));
    assert w3.streams == w.streams[st := w.streams[st].(phase := Loaded(Count(w.changes, w.streams[st].node)))];
  }

  // ---- what a signal is worth, whatever happens in between ----

  /** The stream has taken a signal since `seen` changes were made, or has a snapshot with all of them. */
  ghost predicate Catching(w: World, st: nat, node: string, seen: nat) {
    && st in w.streams && w.streams[st].node == node && Count(w.changes, node) >= seen
    && match w.streams[st].phase
       case Loaded(v) => v >= seen
       case Idle(v) => v >= seen
       case _ => true
  }

  /** From the moment a stream takes a signal, under every interleaving: whatever it loads or has pushed from then on
      contains every change made before that moment. */
  lemma {:induction false} SignalIsHonoured(ws: seq<World>, es: seq<Event>, i: nat, n: nat, st: nat)
    requires Run(ws, es) && i <= n <= |es| && st in ws[i].streams && ws[i].streams[st].phase.Checking?
    ensures var node := ws[i].streams[st].node; Catching(ws[n], st, node, Count(ws[i].changes, node))
    decreases n - i
  {
    if i < n {
      SignalIsHonoured(ws, es, i, n - 1, st);
      assert Follows(ws, es, n - 1);
      StepKeepsCatching(ws[n - 1], es[n - 1], st, ws[i].streams[st].node, Count(ws[i].changes, ws[i].streams[st].node));
    }
  }

  lemma StepKeepsCatching(w: World, e: Event, st: nat, node: string, seen: nat)
    requires Catching(w, st, node, seen)
    ensures Catching(Step(w, e), st, node, seen)
  {}

  /** And a signal that is waiting stays until a stream of its session takes it: nothing else empties the slot. */
  lemma SignalStays(w: World, e: Event, id: nat)
    requires id in w.reg.wake && w.reg.wake[id] && id <= w.reg.revision
    ensures id in Step(w, e).reg.wake
    ensures !Step(w, e).reg.wake[id] ==>
              e.Receive? && e.stream in w.streams && w.streams[e.stream].id == id &&
                Step(w, e).streams[e.stream].phase.Checking?
  {}

  // ---- why one stream per session ----

  ghost predicate SnapshotPast(w: World, s: Stream) {
    s.phase.Loaded? || s.phase.Idle? ==> s.phase.v <= Count(w.changes, s.node)
  }

  /** In every run a snapshot contains no more than was there. */
  lemma {:induction false} SnapshotsArePast(ws: seq<World>, es: seq<Event>, i: nat, st: nat)
    requires Run(ws, es) && i <= |es| && st in ws[i].streams
    ensures SnapshotPast(ws[i], ws[i].streams[st])
  {
    if i > 0 {
      assert Follows(ws, es, i - 1);
      if st in ws[i - 1].streams {
        SnapshotsArePast(ws, es, i - 1, st);
      }
      StepKeepsPast(ws[i - 1], es[i - 1], st);
    }
  }

  lemma StepKeepsPast(w: World, e: Event, st: nat)
    requires st in Step(w, e).streams && (st in w.streams ==> SnapshotPast(w, w.streams[st]))
    ensures SnapshotPast(Step(w, e), Step(w, e).streams[st])
  {}

  /** The stream waits on the node's current session. */
  ghost predicate Waits(w: World, st: nat, node: string, id: nat) {
    st in w.streams && w.streams[st].node == node && w.streams[st].id == id && w.streams[st].phase.Idle?
  }

  lemma Announces(w: World, node: string, id: nat, k: nat)
    requires k !in w.calls && Current(w.reg, node) == Some(id)
    ensures var next := Step(Step(Step(w, Change(node)), NotifyLock(node, k)), NotifySend(k));
            && next.streams == w.streams && Count(next.notified, node) > Count(w.changes, node)
            && next.reg == Registry(w.reg.sessions, w.reg.revision + 1, w.reg.wake[id := true])
  {
    var w1 := Step(w, Change(node));
    var w2 := Step(w1, NotifyLock(node, k));
    assert w2.calls[k] == Call(node, id, Count(w.changes, node) + 1);
  }

  /** In every state of every run in which two streams wait on a node's current session, the next change can be lost:
      once it is announced and one of the two takes the signal, the other is quiet and not up to date. */
  lemma SecondStreamIsForgotten(ws: seq<World>, es: seq<Event>, node: string, id: nat, a: nat, b: nat, k: nat)
    requires Run(ws, es) && a != b && Waits(ws[|es|], a, node, id) && Waits(ws[|es|], b, node, id)
    requires Current(ws[|es|].reg, node) == Some(id) && k !in ws[|es|].calls
    ensures var told := Step(Step(Step(ws[|es|], Change(node)), NotifyLock(node, k)), NotifySend(k));
            var w := Step(told, Receive(a));
            Quiet(w, b) && !UpToDate(w, b)
  {
    var w := ws[|es|];
    SnapshotsArePast(ws, es, |es|, b);
    Announces(w, node, id, k);
    var told := Step(Step(Step(w, Change(node)), NotifyLock(node, k)), NotifySend(k));
    assert told.reg.wake[id] && told.streams[a] == w.streams[a];
    var taken := Step(told, Receive(a));
    assert taken.streams[b] == w.streams[b] && !taken.reg.wake[id];
  }

  // ---- subscribing, and how streams end ----

  /** The node has a session, and the request names it or none: a stale token is refused. */
  ghost predicate Welcome(w: World, node: string, session: Option<nat>) {
    node in w.reg.sessions && (session == None || session == Some(w.reg.sessions[node]))
  }

  /** A subscription that is welcome becomes a stream on the current session, about to push; another changes nothing. */
  lemma SubscribeMeans(w: World, node: string, session: Option<nat>, st: nat)
    requires st !in w.streams
    ensures Step(w, Subscribe(node, session, st))
            == if Welcome(w, node, session)
               then w.(streams := w.streams[st := Stream(node, w.reg.sessions[node], ToPush)]) else w
  {}

  /** Under every interleaving, the first thing it pushes has every change made before it subscribed. */
  lemma FirstPushIsFull(ws: seq<World>, es: seq<Event>, i: nat, n: nat, st: nat)
    requires Run(ws, es) && i < n <= |es| && es[i].Subscribe? && es[i].stream == st && st !in ws[i].streams
    requires Welcome(ws[i], es[i].node, es[i].session)
    ensures Catching(ws[n], st, es[i].node, Count(ws[i].changes, es[i].node))
  {
    assert Follows(ws, es, i);
    SubscribeMeans(ws[i], es[i].node, es[i].session, st);
    StaysCatching(ws, es, i + 1, n, st, es[i].node, Count(ws[i].changes, es[i].node));
  }

  lemma {:induction false} StaysCatching(ws: seq<World>, es: seq<Event>, i: nat, n: nat, st: nat, node: string,
                                         seen: nat)
    requires Run(ws, es) && i <= n <= |es| && Catching(ws[i], st, node, seen)
    ensures Catching(ws[n], st, node, seen)
    decreases n - i
  {
    if i < n {
      StaysCatching(ws, es, i, n - 1, st, node, seen);
      assert Follows(ws, es, n - 1);
      StepKeepsCatching(ws[n - 1], es[n - 1], st, node, seen);
    }
  }

  /** Left alone it pushes at once, and waits on the snapshot of that moment. */
  lemma SubscriptionPushes(w: World, node: string, session: Option<nat>, st: nat)
    requires st !in w.streams && Welcome(w, node, session)
    ensures var after := Step(Step(Step(w, Subscribe(node, session, st)), ReadAssignment(st)), Send(st));
            after.streams == w.streams[st := Stream(node, w.reg.sessions[node], Idle(Count(w.changes, node)))]
  {
    SubscribeMeans(w, node, session, st);
  }

  /** A stream that took a signal goes on to push if its session is still the node's, and ends if it was replaced. */
  lemma ReplacedStreamsEnd(w: World, st: nat)
    requires st in w.streams && w.streams[st].phase == Checking
    ensures var s := w.streams[st]; var current := s.node in w.reg.sessions && w.reg.sessions[s.node] == s.id;
            Step(w, CheckSession(st))
            == w.(streams := w.streams[st := Stream(s.node, s.id, if current then ToPush else Ended)])
  {}

  /** A push that fails ends the stream and nothing else. A client that leaves ends its stream, and the node's session
      with it, unless that session has been replaced. */
  lemma LeavingMeans(w: World, st: nat, node: string)
    requires st in w.streams
    ensures var s, d := w.streams[st], Step(w, PushFails(st));
            s.phase.ToPush? || s.phase.Loaded? ==> d == w.(streams := w.streams[st := Stream(s.node, s.id, Ended)])
    ensures var s, d := w.streams[st], Step(w, Leave(st));
            s.phase.Idle? ==>
              && d.streams == w.streams[st := Stream(s.node, s.id, Ended)] && d.reg.wake == w.reg.wake
              && (node in d.reg.sessions <==>
                    node in w.reg.sessions && !(node == s.node && w.reg.sessions[node] == s.id))
              && (node in d.reg.sessions ==> d.reg.sessions[node] == w.reg.sessions[node])
  {}

  /** Registering gives the node a session of its own, later than any before, with an empty slot. */
  lemma RegisterMeans(w: World, node: string)
    ensures var d := Step(w, Register(node)).reg; var id := w.reg.revision + 1;
            d.revision == id && d.sessions == w.reg.sessions[node := id] && d.wake == w.reg.wake[id := false]
  {}
}
