// connection.c and server.c: the worker threads, their queue and their locks, as interleaved
// atomic steps of any number of workers and the event loop.
module WorkerPool {

  type Wid = nat
  type Cid = nat

  // Where a worker is in connection_worker; c is the connection it refers to.
  datatype WorkerPc =
    | AtLock | AtTest | Asleep | Woken | AtQuit | AtTake | Exited
    | AtConnLock(c: Cid) | AtUnlock(c: Cid) | AtTestLeaving(c: Cid) | AtTestBusy(c: Cid) | AtDrop(c: Cid)
    | AtSetBusy(c: Cid) | AtRelease(c: Cid) | Serving(c: Cid) | AtRelock(c: Cid) | AtClear(c: Cid) | AtDone(c: Cid)

  // Where the event loop is in conn_do_work, disconnect_peer or conn_shutdown.
  datatype ServerPc =
    | Idle
    | AddLock(c: Cid) | Append(c: Cid) | Signal | AddUnlock
    | PurgeLock(c: Cid) | Purge(c: Cid) | PurgeUnlock(c: Cid) | Spin(c: Cid) | FreeLock(c: Cid) | Free(c: Cid)
    | DownLock | Flagging(left: set<Wid>) | Broadcast | DownUnlock | Joining

  datatype Owner = Nobody | Worker(w: Wid) | Server | Destroyed

  // workers_lock, the worker_locks that are not free, the queue, the worker and terminate flags of
  // connections, and the terminate flags of workers.
  datatype State = State(workers: map<Wid, WorkerPc>, server: ServerPc, pool: Owner, locks: map<Cid, Owner>,
                         queue: seq<Cid>, busy: set<Cid>, leaving: set<Cid>, quit: set<Wid>)

  function LockOf(s: State, c: Cid): Owner {
    if c in s.locks then s.locks[c] else Nobody
  }

  // ----- what the places mean -----

  predicate HoldsPool(pc: WorkerPc) {
    pc.AtTest? || pc.AtQuit? || pc.AtTake? || pc.AtConnLock? || pc.AtUnlock?
  }

  predicate HoldsConn(pc: WorkerPc, c: Cid) {
    pc == AtUnlock(c) || pc == AtTestLeaving(c) || pc == AtTestBusy(c) || pc == AtDrop(c) || pc == AtSetBusy(c)
    || pc == AtRelease(c) || pc == AtClear(c) || pc == AtDone(c)
  }

  predicate BusyWith(pc: WorkerPc, c: Cid) {
    pc == AtRelease(c) || pc == Serving(c) || pc == AtRelock(c) || pc == AtClear(c)
  }

  predicate RefersTo(pc: WorkerPc, c: Cid) {
    pc == AtConnLock(c) || HoldsConn(pc, c) || BusyWith(pc, c)
  }

  predicate ServerHoldsPool(pc: ServerPc) {
    pc.Append? || pc.Signal? || pc.AddUnlock? || pc.Purge? || pc.PurgeUnlock? || pc.Flagging? || pc.Broadcast? || pc.DownUnlock?
  }

  // Woken or about to look at the queue under the lock: it will take an item if there is one.
  predicate WillLook(pc: WorkerPc) {
    pc.Woken? || pc.AtTest? || pc.AtTake?
  }

  // ----- steps -----

  datatype Act =
    | Work(w: Wid)        // the next step of a worker
    | Spurious(w: Wid)    // pthread_cond_wait returns without a signal
    | Serve               // the next step of the event loop
    | Wake(w: Wid)        // pthread_cond_signal picks a sleeper
    | Flag(w: Wid)        // conn_shutdown sets one terminate flag
    | Receive(c: Cid)     // conn_do_work is called
    | Disconnect(c: Cid)  // disconnect_peer is called
    | Shutdown            // conn_shutdown is called
    | Leave(c: Cid)       // server_disconnect_nicely sets conn->terminate

  predicate Enabled(s: State, a: Act) {
    match a
    case Work(w) => w in s.workers && CanWork(s, s.workers[w])
    case Spurious(w) => w in s.workers && s.workers[w].Asleep?
    case Serve => CanServe(s)
    case Wake(w) => s.server.Signal? && w in s.workers && s.workers[w].Asleep?
    case Flag(w) => s.server.Flagging? && w in s.server.left
    case Receive(c) => s.server.Idle? && c !in s.queue && LockOf(s, c) != Destroyed
    case Disconnect(c) => s.server.Idle? && LockOf(s, c) != Destroyed
    case Shutdown => s.server.Idle?
    case Leave(c) => true
  }

  predicate CanWork(s: State, pc: WorkerPc) {
    match pc
    case AtLock => s.pool == Nobody
    case Woken => s.pool == Nobody
    case AtConnLock(c) => LockOf(s, c) == Nobody
    case AtRelock(c) => LockOf(s, c) == Nobody
    case AtTake => s.queue != []
    case Asleep => false
    case Exited => false
    case _ => true
  }

  predicate CanServe(s: State) {
    match s.server
    case AddLock(c) => s.pool == Nobody
    case PurgeLock(c) => s.pool == Nobody
    case DownLock => s.pool == Nobody
    case Spin(c) => c !in s.busy
    case FreeLock(c) => LockOf(s, c) == Nobody
    case Signal => forall w :: w in s.workers ==> !s.workers[w].Asleep?
    case Flagging(left) => left == {}
    case Idle => false
    case Joining => false
    case _ => true
  }

  function Goto(s: State, w: Wid, pc: WorkerPc): State {
    s.(workers := s.workers[w := pc])
  }

  function Unlocked(s: State, c: Cid): State {
    s.(locks := s.locks - {c})
  }

  function Apply(s: State, a: Act): State
    requires Enabled(s, a)
  {
    match a
    case Work(w) => DoWork(s, w)
    case Spurious(w) => Goto(s, w, Woken)
    case Serve => DoServe(s)
    case Wake(w) => Goto(s, w, Woken).(server := AddUnlock)
    case Flag(w) => s.(quit := s.quit + {w}, server := Flagging(s.server.left - {w}))
    case Receive(c) => s.(server := AddLock(c))
    case Disconnect(c) => s.(server := PurgeLock(c))
    case Shutdown => s.(server := DownLock)
    case Leave(c) => s.(leaving := s.leaving + {c})
  }

  function DoWork(s: State, w: Wid): State
    requires w in s.workers && CanWork(s, s.workers[w])
  {
    match s.workers[w]
    case AtLock => Goto(s, w, AtTest).(pool := Worker(w))
    case AtTest =>
      if s.queue == [] && w !in s.quit then Goto(s, w, Asleep).(pool := Nobody)
      else if w in s.quit then Goto(s, w, AtQuit)
      else Goto(s, w, AtTake)
    case Woken => Goto(s, w, AtTest).(pool := Worker(w))
    case AtQuit => Goto(s, w, Exited).(pool := Nobody)
    case AtTake => Goto(s, w, AtConnLock(s.queue[0])).(queue := s.queue[1..])
    case AtConnLock(c) => Goto(s, w, AtUnlock(c)).(locks := s.locks[c := Worker(w)])
    case AtUnlock(c) => Goto(s, w, AtTestLeaving(c)).(pool := Nobody)
    case AtTestLeaving(c) => Goto(s, w, if c in s.leaving then AtDrop(c) else AtTestBusy(c))
    case AtTestBusy(c) => Goto(s, w, if c in s.busy then AtDrop(c) else AtSetBusy(c))
    case AtDrop(c) => Unlocked(Goto(s, w, AtLock), c)
    case AtSetBusy(c) => Goto(s, w, AtRelease(c)).(busy := s.busy + {c})
    case AtRelease(c) => Unlocked(Goto(s, w, Serving(c)), c)
    case Serving(c) => Goto(s, w, AtRelock(c))
    case AtRelock(c) => Goto(s, w, AtClear(c)).(locks := s.locks[c := Worker(w)])
    case AtClear(c) => Goto(s, w, AtDone(c)).(busy := s.busy - {c})
    case AtDone(c) => Unlocked(Goto(s, w, AtLock), c)
  }

  // The queue without a connection.
  function Purged(q: seq<Cid>, c: Cid): (r: seq<Cid>)
    ensures c !in r && |r| <= |q| && forall d :: d != c ==> (d in r <==> d in q)
  {
    if q == [] then [] else if q[0] == c then Purged(q[1..], c) else [q[0]] + Purged(q[1..], c)
  }

  function WokenAll(m: map<Wid, WorkerPc>): map<Wid, WorkerPc> {
    map w | w in m :: if m[w].Asleep? then Woken else m[w]
  }

  function DoServe(s: State): State
    requires CanServe(s)
  {
    match s.server
    case AddLock(c) => s.(pool := Server, server := Append(c))
    case Append(c) => s.(queue := s.queue + [c], server := Signal)
    case Signal => s.(server := AddUnlock)
    case AddUnlock => s.(pool := Nobody, server := Idle)
    case PurgeLock(c) => s.(pool := Server, server := Purge(c))
    case Purge(c) => s.(queue := Purged(s.queue, c), server := PurgeUnlock(c))
    case PurgeUnlock(c) => s.(pool := Nobody, server := Spin(c))
    case Spin(c) => s.(server := FreeLock(c))
    case FreeLock(c) => s.(locks := s.locks[c := Server], server := Free(c))
    case Free(c) => s.(locks := s.locks[c := Destroyed], server := Idle)
    case DownLock => s.(pool := Server, server := Flagging(s.workers.Keys))
    case Flagging(left) => s.(server := Broadcast)
    case Broadcast => s.(workers := WokenAll(s.workers), server := DownUnlock)
    case DownUnlock => s.(pool := Nobody, server := Joining)
  }

  // conndata_init: the workers start, nothing is queued.
  predicate Init(s: State) {
    && (forall w :: w in s.workers ==> s.workers[w] == AtLock)
    && s.server == Idle && s.pool == Nobody && s.locks == map[] && s.queue == [] && s.busy == {} && s.quit == {}
  }

  // ----- invariants -----

  // workers_lock is held by whoever is at a place inside its region.
  ghost predicate PoolOk(s: State) {
    && (forall w :: w in s.workers ==> (HoldsPool(s.workers[w]) <==> s.pool == Worker(w)))
    && (ServerHoldsPool(s.server) <==> s.pool == Server)
    && (s.pool.Worker? ==> s.pool.w in s.workers) && s.pool != Destroyed
  }

  // So is each worker_lock.
  ghost predicate LocksOk(s: State) {
    && (forall w, c :: w in s.workers ==> (HoldsConn(s.workers[w], c) <==> LockOf(s, c) == Worker(w)))
    && (forall c :: s.server == Free(c) <==> LockOf(s, c) == Server)
    && (forall c :: c in s.locks ==> s.locks[c] != Nobody && (s.locks[c].Worker? ==> s.locks[c].w in s.workers))
  }

  // A connection is marked busy exactly while one worker serves it.
  ghost predicate BusyOk(s: State) {
    && (forall w, c :: w in s.workers && BusyWith(s.workers[w], c) ==> c in s.busy)
    && (forall c :: c in s.busy ==> exists w :: w in s.workers && BusyWith(s.workers[w], c))
    && (forall w, v, c :: w in s.workers && v in s.workers && BusyWith(s.workers[w], c) && BusyWith(s.workers[v], c) ==> w == v)
    && (forall w, c :: w in s.workers && s.workers[w] == AtSetBusy(c) ==> c !in s.busy)
  }

  function Sleepers(s: State): set<Wid> {
    set w | w in s.workers && s.workers[w].Asleep?
  }

  function Lookers(s: State): set<Wid> {
    set w | w in s.workers && WillLook(s.workers[w])
  }

  // No lost wake-up.
  ghost predicate WakeOk(s: State) {
    && (Sleepers(s) != {} ==> |s.queue| <= |Lookers(s)| + if s.server.Signal? then 1 else 0)
    && (forall w :: w in s.workers && s.workers[w] == AtTake ==> s.queue != [] && w !in s.quit)
  }

  // Once a worker is told to quit, the shutdown is under way, and after its broadcast all are told
  // and none is asleep.
  ghost predicate QuitOk(s: State) {
    && s.quit <= s.workers.Keys
    && (s.server.Flagging? ==> s.server.left + s.quit == s.workers.Keys)
    && (s.server.Broadcast? || Down(s) ==> s.quit == s.workers.Keys)
    && (s.quit != {} ==> s.server.Flagging? || s.server.Broadcast? || Down(s))
    && (Down(s) ==> Sleepers(s) == {})
    && (forall w :: w in s.workers && (s.workers[w].AtQuit? || s.workers[w].Exited?) ==> w in s.quit)
  }

  // A connection that disconnect_peer has purged or freed is not queued.
  ghost predicate GoneOk(s: State) {
    && (forall c :: PurgedAt(s.server, c) || LockOf(s, c) == Destroyed ==> c !in s.queue)
    && (forall c :: s.server == AddLock(c) || s.server == Append(c) ==> LockOf(s, c) != Destroyed)
  }

  // No connection is queued twice.
  ghost predicate QueueOk(s: State) {
    && (forall i, j :: 0 <= i < j < |s.queue| ==> s.queue[i] != s.queue[j])
    && (forall c :: s.server == AddLock(c) || s.server == Append(c) ==> c !in s.queue)
  }

  // Nor does a worker wait to lock it that has just taken it from the queue.
  ghost predicate DoorOk(s: State) {
    forall w :: w in s.workers && s.workers[w].AtConnLock? ==>
      !PurgedAt(s.server, s.workers[w].c) && LockOf(s, s.workers[w].c) != Destroyed
  }

  predicate PurgedAt(pc: ServerPc, c: Cid) {
    pc == PurgeUnlock(c) || pc == Spin(c) || pc == FreeLock(c) || pc == Free(c)
  }

  // The broadcast of conn_shutdown is done.
  predicate Down(s: State) {
    s.server.DownUnlock? || s.server.Joining?
  }

  ghost predicate Inv(s: State) {
    PoolOk(s) && LocksOk(s) && BusyOk(s) && WakeOk(s) && QuitOk(s) && GoneOk(s) && DoorOk(s)
  }

  // ----- what one step changes -----

  // The connection of a place.
  predicate TakesLock(pc: WorkerPc) {
    pc.AtConnLock? || pc.AtRelock?
  }

  predicate FreesLock(pc: WorkerPc) {
    pc.AtDrop? || pc.AtRelease? || pc.AtDone?
  }

  lemma WorkMoves(s: State, w: Wid)
    requires w in s.workers && CanWork(s, s.workers[w])
    ensures var s' := DoWork(s, w); w in s'.workers && s'.workers == s.workers[w := s'.workers[w]]
    ensures var s' := DoWork(s, w); s'.server == s.server && s'.leaving == s.leaving && s'.quit == s.quit
  {
  }

  lemma WorkPool(s: State, w: Wid)
    requires w in s.workers && CanWork(s, s.workers[w])
    ensures (
      var s', pc := DoWork(s, w), s.workers[w];
      && w in s'.workers
      && (pc.AtLock? || pc.Woken? ==> s.pool == Nobody && s'.pool == Worker(w) && HoldsPool(s'.workers[w]))
      && (!pc.AtLock? && !pc.Woken? ==>
            (HoldsPool(s'.workers[w]) ==> HoldsPool(pc))
            && s'.pool == if HoldsPool(pc) && !HoldsPool(s'.workers[w]) then Nobody else s.pool))
  {
  }

  lemma WorkLocks(s: State, w: Wid)
    requires w in s.workers && CanWork(s, s.workers[w])
    ensures (
      var s', pc := DoWork(s, w), s.workers[w];
      && w in s'.workers
      && (TakesLock(pc) ==> LockOf(s, pc.c) == Nobody && s'.locks == s.locks[pc.c := Worker(w)])
      && (FreesLock(pc) ==> HoldsConn(pc, pc.c) && s'.locks == s.locks - {pc.c})
      && (!TakesLock(pc) && !FreesLock(pc) ==> s'.locks == s.locks)
      && forall c :: HoldsConn(s'.workers[w], c) <==>
        (TakesLock(pc) && c == pc.c) || (HoldsConn(pc, c) && !(FreesLock(pc) && c == pc.c)))
  {
  }

  lemma WorkBusy(s: State, w: Wid)
    requires w in s.workers && CanWork(s, s.workers[w])
    ensures (
      var s', pc := DoWork(s, w), s.workers[w];
      && w in s'.workers
      && (pc.AtSetBusy? ==> HoldsConn(pc, pc.c) && s'.busy == s.busy + {pc.c})
      && (pc.AtClear? ==> s'.busy == s.busy - {pc.c})
      && (!pc.AtSetBusy? && !pc.AtClear? ==> s'.busy == s.busy)
      && (forall c :: BusyWith(s'.workers[w], c) <==> if pc.AtSetBusy? then c == pc.c else BusyWith(pc, c) && !pc.AtClear?)
      && (s'.workers[w].AtSetBusy? ==> pc == AtTestBusy(s'.workers[w].c) && s'.workers[w].c !in s.busy))
  {
  }

  lemma PoolAfterWork(s: State, w: Wid)
    requires PoolOk(s) && w in s.workers && CanWork(s, s.workers[w])
    ensures PoolOk(DoWork(s, w))
  {
    WorkMoves(s, w);
    WorkPool(s, w);
    hide DoWork, CanWork, HoldsPool, ServerHoldsPool;
  }

  lemma LocksAfterWork(s: State, w: Wid)
    requires LocksOk(s) && w in s.workers && CanWork(s, s.workers[w])
    ensures LocksOk(DoWork(s, w))
  {
    WorkMoves(s, w);
    WorkLocks(s, w);
    hide DoWork, CanWork, HoldsConn, TakesLock, FreesLock;
    var s', pc := DoWork(s, w), s.workers[w];
    forall v, c | v in s'.workers
      ensures HoldsConn(s'.workers[v], c) <==> LockOf(s', c) == Worker(v)
    {
      assert HoldsConn(s.workers[v], c) <==> LockOf(s, c) == Worker(v);
      if FreesLock(pc) {
        assert LockOf(s, pc.c) == Worker(w);
      }
    }
    forall c
      ensures s'.server == Free(c) <==> LockOf(s', c) == Server
    {
      assert s.server == Free(c) <==> LockOf(s, c) == Server;
      if FreesLock(pc) {
        assert LockOf(s, pc.c) == Worker(w);
      }
    }
  }

  lemma BusyAfterWork(s: State, w: Wid)
    requires BusyOk(s) && LocksOk(s) && w in s.workers && CanWork(s, s.workers[w])
    ensures BusyOk(DoWork(s, w))
  {
    WorkMoves(s, w);
    WorkBusy(s, w);
    hide DoWork, CanWork, LocksOk;
    var s', pc := DoWork(s, w), s.workers[w];
    if pc.AtSetBusy? {
      OthersElsewhere(s, w, pc.c);
      BusySet(s, s', w, pc.c);
    } else if pc.AtClear? {
      BusyCleared(s, s', w, pc.c);
    } else {
      BusySame(s, s', w);
    }
  }

  // No other worker is about to set the flag of a connection whose lock w holds.
  lemma OthersElsewhere(s: State, w: Wid, c: Cid)
    requires LocksOk(s) && w in s.workers && HoldsConn(s.workers[w], c)
    ensures forall v :: v in s.workers && s.workers[v] == AtSetBusy(c) ==> v == w
  {
    forall v | v in s.workers && s.workers[v] == AtSetBusy(c)
      ensures v == w
    {
      assert HoldsConn(s.workers[v], c) && HoldsConn(s.workers[w], c);
      assert LockOf(s, c) == Worker(v) && LockOf(s, c) == Worker(w);
    }
  }

  lemma BusySet(s: State, s': State, w: Wid, c: Cid)
    requires BusyOk(s) && w in s.workers && s.workers[w] == AtSetBusy(c)
    requires forall v :: v in s.workers && s.workers[v] == AtSetBusy(c) ==> v == w
    requires w in s'.workers && s'.workers == s.workers[w := s'.workers[w]] && s'.busy == s.busy + {c}
    requires (forall d :: BusyWith(s'.workers[w], d) <==> d == c) && !s'.workers[w].AtSetBusy?
    ensures BusyOk(s')
  {
    hide BusyWith;
    assert BusyWith(s'.workers[w], c);
    forall d | d in s'.busy
      ensures exists v :: v in s'.workers && BusyWith(s'.workers[v], d)
    {
      if d != c {
        var v :| v in s.workers && BusyWith(s.workers[v], d);
        SetBusyNotBusy(s, w, d);
        assert BusyWith(s'.workers[v], d);
      }
    }
  }

  lemma SetBusyNotBusy(s: State, w: Wid, d: Cid)
    requires w in s.workers && s.workers[w].AtSetBusy?
    ensures !BusyWith(s.workers[w], d)
  {
  }

  lemma BusyCleared(s: State, s': State, w: Wid, c: Cid)
    requires BusyOk(s) && w in s.workers && s.workers[w] == AtClear(c)
    requires w in s'.workers && s'.workers == s.workers[w := s'.workers[w]] && s'.busy == s.busy - {c}
    requires (forall d :: !BusyWith(s'.workers[w], d)) && !s'.workers[w].AtSetBusy?
    ensures BusyOk(s')
  {
    assert forall d :: BusyWith(s.workers[w], d) <==> d == c;
    assert BusyWith(s.workers[w], c);
    hide BusyWith;
    forall d | d in s'.busy
      ensures exists v :: v in s'.workers && BusyWith(s'.workers[v], d)
    {
      var v :| v in s.workers && BusyWith(s.workers[v], d);
      assert BusyWith(s'.workers[v], d);
    }
    forall v, d | v in s'.workers && BusyWith(s'.workers[v], d)
      ensures d in s'.busy
    {
      assert BusyWith(s.workers[v], d);
    }
  }

  lemma BusySame(s: State, s': State, w: Wid)
    requires BusyOk(s) && w in s.workers && w in s'.workers && s'.workers == s.workers[w := s'.workers[w]]
    requires s'.busy == s.busy && forall d :: BusyWith(s'.workers[w], d) <==> BusyWith(s.workers[w], d)
    requires s'.workers[w].AtSetBusy? ==> s'.workers[w].c !in s.busy
    ensures BusyOk(s')
  {
    hide BusyWith;
    forall v | v in s.workers
      ensures forall d :: BusyWith(s'.workers[v], d) <==> BusyWith(s.workers[v], d)
    {
    }
    forall d | d in s'.busy
      ensures exists v :: v in s'.workers && BusyWith(s'.workers[v], d)
    {
      var v :| v in s.workers && BusyWith(s.workers[v], d);
      assert BusyWith(s'.workers[v], d);
    }
  }

  lemma PoolAfterServe(s: State)
    requires PoolOk(s) && CanServe(s)
    ensures PoolOk(DoServe(s))
  {
  }

  lemma LocksAfterServe(s: State)
    requires LocksOk(s) && CanServe(s)
    ensures LocksOk(DoServe(s))
  {
    var s' := DoServe(s);
    forall w, c | w in s'.workers
      ensures HoldsConn(s'.workers[w], c) <==> LockOf(s', c) == Worker(w)
    {
      assert HoldsConn(s.workers[w], c) <==> LockOf(s, c) == Worker(w);
      assert HoldsConn(s'.workers[w], c) <==> HoldsConn(s.workers[w], c);
      assert LockOf(s', c) == Worker(w) <==> LockOf(s, c) == Worker(w);
    }
    assert forall c :: s'.server == Free(c) <==> LockOf(s', c) == Server;
  }

  // Whatever leaves everybody busy with the same connection keeps the flags right.
  lemma BusyUnmoved(s: State, s': State)
    requires BusyOk(s) && s'.workers.Keys == s.workers.Keys && s'.busy == s.busy
    requires forall v, d :: v in s.workers ==> (BusyWith(s'.workers[v], d) <==> BusyWith(s.workers[v], d))
    requires forall v, d :: v in s.workers ==> (s'.workers[v] == AtSetBusy(d) <==> s.workers[v] == AtSetBusy(d))
    ensures BusyOk(s')
  {
    hide BusyWith;
    forall d | d in s'.busy
      ensures exists v :: v in s'.workers && BusyWith(s'.workers[v], d)
    {
      var v :| v in s.workers && BusyWith(s.workers[v], d);
      assert BusyWith(s'.workers[v], d);
    }
  }

  lemma BusyAfterServe(s: State)
    requires BusyOk(s) && CanServe(s)
    ensures BusyOk(DoServe(s))
  {
    hide BusyOk;
    BusyUnmoved(s, DoServe(s));
  }

  // ----- waking up -----

  lemma WorkQueue(s: State, w: Wid)
    requires w in s.workers && CanWork(s, s.workers[w])
    ensures (
      var s', pc := DoWork(s, w), s.workers[w];
      && w in s'.workers && !pc.Asleep?
      && (s'.workers[w].Asleep? ==> pc.AtTest? && s.queue == [] && w !in s.quit)
      && (s'.workers[w].AtTake? ==> s.queue != [] && w !in s.quit)
      && (if pc.AtTake? then s.queue != [] && s'.queue == s.queue[1..] else s'.queue == s.queue)
      && (WillLook(pc) && !WillLook(s'.workers[w]) ==> s'.workers[w].Asleep? || pc.AtTake? || (pc.AtTest? && w in s.quit)))
  {
  }

  lemma LookersMoved(s: State, s': State, w: Wid)
    requires w in s.workers && w in s'.workers && s'.workers == s.workers[w := s'.workers[w]]
    ensures WillLook(s.workers[w]) && !WillLook(s'.workers[w]) ==> |Lookers(s')| == |Lookers(s)| - 1
    ensures !WillLook(s.workers[w]) && WillLook(s'.workers[w]) ==> |Lookers(s')| == |Lookers(s)| + 1
    ensures WillLook(s.workers[w]) == WillLook(s'.workers[w]) ==> Lookers(s') == Lookers(s)
    ensures !s.workers[w].Asleep? && !s'.workers[w].Asleep? ==> Sleepers(s') == Sleepers(s)
  {
    hide WillLook;
    if WillLook(s.workers[w]) && !WillLook(s'.workers[w]) {
      assert Lookers(s) == Lookers(s') + {w};
    }
    if !WillLook(s.workers[w]) && WillLook(s'.workers[w]) {
      assert Lookers(s') == Lookers(s) + {w};
    }
  }

  // While workers are told to quit or the event loop holds the lock, no worker tests the queue.
  lemma TestsAlone(s: State, w: Wid)
    requires PoolOk(s) && QuitOk(s) && w in s.workers && (s.workers[w].AtTest? || s.workers[w].AtTake?)
    ensures s.pool == Worker(w) && !ServerHoldsPool(s.server)
    ensures s.quit != {} ==> Sleepers(s) == {}
    ensures forall v :: v in s.workers && (s.workers[v].AtTest? || s.workers[v].AtTake?) ==> v == w
  {
    assert HoldsPool(s.workers[w]);
    forall v | v in s.workers && (s.workers[v].AtTest? || s.workers[v].AtTake?)
      ensures v == w
    {
      assert HoldsPool(s.workers[v]);
    }
  }

  lemma WakeAfterWork(s: State, w: Wid)
    requires PoolOk(s) && WakeOk(s) && QuitOk(s) && w in s.workers && CanWork(s, s.workers[w])
    ensures WakeOk(DoWork(s, w))
  {
    WorkMoves(s, w);
    WorkQueue(s, w);
    var s', pc := DoWork(s, w), s.workers[w];
    LookersMoved(s, s', w);
    hide DoWork, CanWork, PoolOk, QuitOk, Lookers, Sleepers;
    if pc.AtTest? || pc.AtTake? {
      TestsAlone(s, w);
    }
  }

  lemma QuitAfterWork(s: State, w: Wid)
    requires QuitOk(s) && w in s.workers && CanWork(s, s.workers[w])
    ensures QuitOk(DoWork(s, w))
  {
    WorkMoves(s, w);
    WorkQueue(s, w);
    LookersMoved(s, DoWork(s, w), w);
    hide DoWork, CanWork, Lookers, Sleepers, WillLook;
  }

  // With the lock at the event loop, no worker is taking an item.
  lemma NobodyTakes(s: State)
    requires PoolOk(s) && ServerHoldsPool(s.server)
    ensures forall v :: v in s.workers ==> !s.workers[v].AtTake?
  {
    forall v | v in s.workers
      ensures !s.workers[v].AtTake?
    {
      assert HoldsPool(s.workers[v]) <==> s.pool == Worker(v);
    }
  }

  lemma WakeAfterServe(s: State)
    requires PoolOk(s) && WakeOk(s) && CanServe(s)
    ensures WakeOk(DoServe(s))
  {
    if ServerHoldsPool(s.server) {
      NobodyTakes(s);
    }
    hide PoolOk, ServerHoldsPool, Purged;
    var s' := DoServe(s);
    if s.server.Broadcast? {
      assert Sleepers(s') == {};
    } else {
      assert s'.workers == s.workers;
      assert Sleepers(s') == Sleepers(s) && Lookers(s') == Lookers(s);
    }
  }

  lemma QuitAfterServe(s: State)
    requires QuitOk(s) && CanServe(s)
    ensures QuitOk(DoServe(s))
  {
    var s' := DoServe(s);
    if s.server.Broadcast? {
      assert Sleepers(s') == {} && s'.workers.Keys == s.workers.Keys;
    } else {
      assert s'.workers == s.workers;
      assert Sleepers(s') == Sleepers(s);
    }
  }

  // ----- purging -----

  lemma GoneAfterWork(s: State, w: Wid)
    requires GoneOk(s) && LocksOk(s) && w in s.workers && CanWork(s, s.workers[w])
    ensures GoneOk(DoWork(s, w))
  {
    WorkMoves(s, w);
    WorkQueue(s, w);
    WorkLocks(s, w);
    hide DoWork, CanWork, HoldsConn, TakesLock, FreesLock, PurgedAt, WillLook;
    var s', pc := DoWork(s, w), s.workers[w];
    forall c
      ensures LockOf(s', c) == Destroyed <==> LockOf(s, c) == Destroyed
    {
      if FreesLock(pc) {
        assert LockOf(s, pc.c) == Worker(w);
      }
    }
    hide LockOf, LocksOk;
    assert forall c :: c in s'.queue ==> c in s.queue;
  }

  lemma GoneAfterServe(s: State)
    requires GoneOk(s) && CanServe(s)
    ensures GoneOk(DoServe(s))
  {
    var s' := DoServe(s);
    forall c | PurgedAt(s'.server, c) || LockOf(s', c) == Destroyed
      ensures c !in s'.queue
    {
      assert PurgedAt(s.server, c) || LockOf(s, c) == Destroyed || s.server == Purge(c);
    }
  }

  lemma GoneUnmoved(s: State, s': State)
    requires GoneOk(s) && s'.locks == s.locks && s'.queue == s.queue
    requires forall c :: PurgedAt(s'.server, c) ==> PurgedAt(s.server, c)
    requires forall c :: s'.server == AddLock(c) || s'.server == Append(c) ==> LockOf(s, c) != Destroyed
    ensures GoneOk(s')
  {
    assert forall c :: LockOf(s', c) == LockOf(s, c);
    hide PurgedAt, LockOf;
  }

  lemma DoorAfterWork(s: State, w: Wid)
    requires DoorOk(s) && GoneOk(s) && LocksOk(s) && w in s.workers && CanWork(s, s.workers[w])
    ensures DoorOk(DoWork(s, w))
  {
    WorkMoves(s, w);
    WorkLocks(s, w);
    WorkTakes(s, w);
    hide DoWork, CanWork, HoldsConn, TakesLock, FreesLock, PurgedAt;
    var s', pc := DoWork(s, w), s.workers[w];
    forall c
      ensures LockOf(s', c) == Destroyed ==> LockOf(s, c) == Destroyed
    {
    }
    hide LockOf, LocksOk;
  }

  lemma WorkTakes(s: State, w: Wid)
    requires w in s.workers && CanWork(s, s.workers[w])
    ensures var s' := DoWork(s, w); w in s'.workers && (s'.workers[w].AtConnLock? ==> s'.workers[w].c in s.queue)
  {
  }

  lemma DoorAfterServe(s: State)
    requires DoorOk(s) && PoolOk(s) && CanServe(s)
    ensures DoorOk(DoServe(s))
  {
    var s' := DoServe(s);
    forall w | w in s'.workers && s'.workers[w].AtConnLock?
      ensures !PurgedAt(s'.server, s'.workers[w].c) && LockOf(s', s'.workers[w].c) != Destroyed
    {
      assert HoldsPool(s.workers[w]) && s.workers[w] == s'.workers[w];
    }
  }

  lemma DoorUnmoved(s: State, s': State)
    requires DoorOk(s) && s'.locks == s.locks
    requires forall c :: PurgedAt(s'.server, c) ==> PurgedAt(s.server, c)
    requires forall w :: w in s'.workers && s'.workers[w].AtConnLock? ==> w in s.workers && s'.workers[w] == s.workers[w]
    ensures DoorOk(s')
  {
    assert forall c :: LockOf(s', c) == LockOf(s, c);
    hide PurgedAt, LockOf;
  }

  // ----- every step keeps the invariants -----

  // A sleeper is woken, by the signal or on its own.
  function Roused(s: State, w: Wid, server: ServerPc): State {
    Goto(s, w, Woken).(server := server)
  }

  predicate CanRouse(s: State, w: Wid, server: ServerPc) {
    w in s.workers && s.workers[w].Asleep? && (server == s.server || (s.server.Signal? && server == AddUnlock))
  }

  lemma PoolAfterWaking(s: State, w: Wid, server: ServerPc)
    requires PoolOk(s) && CanRouse(s, w, server)
    ensures PoolOk(Roused(s, w, server))
  {
  }

  lemma LocksAfterWaking(s: State, w: Wid, server: ServerPc)
    requires LocksOk(s) && CanRouse(s, w, server)
    ensures LocksOk(Roused(s, w, server))
  {
    var s' := Roused(s, w, server);
    assert forall c :: LockOf(s', c) == LockOf(s, c);
    forall v, c | v in s'.workers
      ensures HoldsConn(s'.workers[v], c) <==> LockOf(s', c) == Worker(v)
    {
      assert HoldsConn(s.workers[v], c) <==> LockOf(s, c) == Worker(v);
    }
  }

  lemma BusyAfterWaking(s: State, w: Wid, server: ServerPc)
    requires BusyOk(s) && CanRouse(s, w, server)
    ensures BusyOk(Roused(s, w, server))
  {
    hide BusyOk;
    BusyUnmoved(s, Roused(s, w, server));
  }

  lemma QuitAfterWaking(s: State, w: Wid, server: ServerPc)
    requires QuitOk(s) && CanRouse(s, w, server)
    ensures QuitOk(Roused(s, w, server))
  {
    assert w in Sleepers(s);
    assert Roused(s, w, server).workers.Keys == s.workers.Keys;
  }

  lemma WakeAfterWaking(s: State, w: Wid, server: ServerPc)
    requires WakeOk(s) && CanRouse(s, w, server)
    ensures WakeOk(Roused(s, w, server))
  {
    LookersMoved(s, Roused(s, w, server), w);
    assert w in Sleepers(s);
    hide Lookers, Sleepers;
  }

  lemma InvAfterWaking(s: State, w: Wid, server: ServerPc)
    requires Inv(s) && CanRouse(s, w, server)
    ensures Inv(Roused(s, w, server))
  {
    GoneUnmoved(s, Roused(s, w, server));
    DoorUnmoved(s, Roused(s, w, server));
    hide PoolOk, LocksOk, BusyOk, WakeOk, QuitOk, GoneOk, DoorOk, CanRouse, Roused;
    PoolAfterWaking(s, w, server);
    LocksAfterWaking(s, w, server);
    BusyAfterWaking(s, w, server);
    WakeAfterWaking(s, w, server);
    QuitAfterWaking(s, w, server);
  }

  // Steps that leave the workers, the locks and the flags of connections alone.
  lemma InvElsewhere(s: State, s': State)
    requires Inv(s) && s'.workers == s.workers && s'.pool == s.pool && s'.locks == s.locks && s'.busy == s.busy && s'.queue == s.queue
    requires ServerHoldsPool(s'.server) == ServerHoldsPool(s.server) && s'.server.Signal? == s.server.Signal?
    requires !s.server.Free? && !s'.server.Free?
    requires QuitOk(s') && GoneOk(s') && DoorOk(s') && (s'.quit == s.quit || ServerHoldsPool(s.server))
    ensures Inv(s')
  {
    assert LocksOk(s') by {
      assert forall c :: LockOf(s', c) == LockOf(s, c);
      hide HoldsConn, LockOf;
    }
    assert BusyOk(s') by {
      hide LocksOk;
    }
    assert PoolOk(s') by {
      hide LocksOk, BusyOk, HoldsPool;
    }
    if ServerHoldsPool(s.server) {
      NobodyTakes(s);
    }
    assert Sleepers(s') == Sleepers(s) && Lookers(s') == Lookers(s);
    hide LocksOk, BusyOk, PoolOk, QuitOk, GoneOk, DoorOk, ServerHoldsPool;
  }

  lemma StepKeepsInv(s: State, a: Act)
    requires Inv(s) && Enabled(s, a)
    ensures Inv(Apply(s, a))
  {
    match a
    case Work(w) =>
      hide PoolOk, LocksOk, BusyOk, WakeOk, QuitOk, GoneOk, DoorOk, DoWork;
      GoneAfterWork(s, w);
      DoorAfterWork(s, w);
      PoolAfterWork(s, w);
      LocksAfterWork(s, w);
      BusyAfterWork(s, w);
      WakeAfterWork(s, w);
      QuitAfterWork(s, w);
    case Serve =>
      hide PoolOk, LocksOk, BusyOk, WakeOk, QuitOk, GoneOk, DoorOk, DoServe;
      GoneAfterServe(s);
      DoorAfterServe(s);
      PoolAfterServe(s);
      LocksAfterServe(s);
      BusyAfterServe(s);
      WakeAfterServe(s);
      QuitAfterServe(s);
    case Spurious(w) =>
      InvAfterWaking(s, w, s.server);
    case Wake(w) =>
      InvAfterWaking(s, w, AddUnlock);
    case Leave(c) =>
      LeaveKeepsInv(s, c);
    case _ =>
      hide LocksOk, BusyOk, PoolOk, WakeOk, QuitOk, GoneOk, DoorOk;
      ServerKeepsInv(s, a);
  }

  // The other steps of the event loop.
  lemma ServerKeepsInv(s: State, a: Act)
    requires Inv(s) && Enabled(s, a) && (a.Flag? || a.Receive? || a.Disconnect? || a.Shutdown?)
    ensures Inv(Apply(s, a))
  {
    hide LocksOk, BusyOk, PoolOk, WakeOk;
    GoneUnmoved(s, Apply(s, a));
    DoorUnmoved(s, Apply(s, a));
    hide GoneOk, DoorOk;
    InvElsewhere(s, Apply(s, a));
  }

  lemma LeaveKeepsInv(s: State, c: Cid)
    requires Inv(s)
    ensures Inv(s.(leaving := s.leaving + {c}))
  {
    var s' := s.(leaving := s.leaving + {c});
    hide PoolOk, LocksOk, BusyOk, WakeOk, QuitOk, GoneOk, DoorOk;
    SamePlaces(s, s');
    SameFlags(s, s');
  }

  // What nobody but the tests of terminate looks at
  lemma SamePlaces(s: State, s': State)
    requires PoolOk(s) && LocksOk(s) && GoneOk(s) && DoorOk(s) && s' == s.(leaving := s'.leaving)
    ensures PoolOk(s') && LocksOk(s') && GoneOk(s') && DoorOk(s')
  {
    assert forall d :: LockOf(s', d) == LockOf(s, d);
    hide HoldsConn, HoldsPool, LockOf, PurgedAt;
  }

  lemma SameFlags(s: State, s': State)
    requires BusyOk(s) && WakeOk(s) && QuitOk(s) && s' == s.(leaving := s'.leaving)
    ensures BusyOk(s') && WakeOk(s') && QuitOk(s')
  {
    assert Sleepers(s') == Sleepers(s) && Lookers(s') == Lookers(s);
    hide BusyWith, Sleepers, Lookers;
  }

  lemma InitInv(s: State)
    requires Init(s)
    ensures Inv(s)
  {
    assert Sleepers(s) == {};
  }

  // ----- runs, and what holds in every one -----

  ghost predicate Legal(s: State, run: seq<Act>)
    decreases |run|
  {
    run != [] ==> Enabled(s, run[0]) && Legal(Apply(s, run[0]), run[1..])
  }

  ghost function After(s: State, run: seq<Act>): State
    requires Legal(s, run)
    decreases |run|
  {
    if run == [] then s else After(Apply(s, run[0]), run[1..])
  }

  lemma {:induction false} RunKeepsInv(s: State, run: seq<Act>)
    requires Inv(s) && Legal(s, run)
    ensures Inv(After(s, run))
    decreases |run|
  {
    if run != [] {
      StepKeepsInv(s, run[0]);
      hide Inv, Enabled, Apply;
      RunKeepsInv(Apply(s, run[0]), run[1..]);
    }
  }

  // A worker that refers to a connection holds workers_lock, or the connection's worker_lock, or is
  // the only one the connection's flag stands for.
  lemma ReferenceIsSafe(s: State, run: seq<Act>, w: Wid, c: Cid)
    requires Init(s) && Legal(s, run) && w in After(s, run).workers && RefersTo(After(s, run).workers[w], c)
    ensures (
      var t := After(s, run);
      || t.pool == Worker(w) || LockOf(t, c) == Worker(w)
      || (c in t.busy && forall v :: v in t.workers && BusyWith(t.workers[v], c) ==> v == w))
  {
    InitInv(s);
    RunKeepsInv(s, run);
    hide After, Legal, Init, WakeOk, QuitOk;
    var t := After(s, run);
    if t.workers[w] == AtConnLock(c) {
      assert HoldsPool(t.workers[w]);
    } else if HoldsConn(t.workers[w], c) {
      assert LockOf(t, c) == Worker(w);
    } else {
      assert BusyWith(t.workers[w], c);
    }
  }

  // Two workers never serve the same connection.
  lemma OneServes(s: State, run: seq<Act>, v: Wid, w: Wid, c: Cid)
    requires Init(s) && Legal(s, run) && v in After(s, run).workers && w in After(s, run).workers
    requires After(s, run).workers[v] == Serving(c) && After(s, run).workers[w] == Serving(c)
    ensures v == w
  {
    InitInv(s);
    RunKeepsInv(s, run);
    hide After, Legal, Init, WakeOk, QuitOk, PoolOk, LocksOk;
    assert BusyWith(After(s, run).workers[v], c) && BusyWith(After(s, run).workers[w], c);
  }

  // Whoever waits for workers_lock holds no lock, and whoever waits for a worker_lock holds none but
  // workers_lock: nested locking takes workers_lock first.
  lemma LockOrder(s: State, run: seq<Act>, w: Wid)
    requires Init(s) && Legal(s, run) && w in After(s, run).workers
    ensures (
      var t := After(s, run);
      && (t.workers[w].AtLock? || t.workers[w].Woken? ==> t.pool != Worker(w))
      && (t.workers[w].AtLock? || t.workers[w].Woken? || TakesLock(t.workers[w]) ==> forall c :: LockOf(t, c) != Worker(w))
      && (t.server.AddLock? || t.server.PurgeLock? || t.server.DownLock? || t.server.FreeLock? ==>
            t.pool != Server && forall c :: LockOf(t, c) != Server))
  {
    InitInv(s);
    RunKeepsInv(s, run);
    hide After, Legal, Init, WakeOk, QuitOk, BusyOk;
    var t := After(s, run);
    forall c
      ensures HoldsConn(t.workers[w], c) <==> LockOf(t, c) == Worker(w)
    {
    }
  }

  // The thread that owns a lock.
  ghost predicate CanMove(s: State, o: Owner) {
    match o
    case Worker(w) => Enabled(s, Work(w))
    case Server => Enabled(s, Serve) || (s.server.Signal? && exists w :: Enabled(s, Wake(w))) || (s.server.Flagging? && exists w :: Enabled(s, Flag(w)))
    case _ => false
  }

  // Nobody waits for ever on a lock: the holder of a worker_lock can move, and so can the holder of
  // workers_lock unless it waits for a worker_lock whose holder can move.
  lemma NoDeadlock(s: State, run: seq<Act>)
    requires Init(s) && Legal(s, run)
    ensures (
      var t := After(s, run);
      && (forall c :: LockOf(t, c) != Nobody && LockOf(t, c) != Destroyed ==> CanMove(t, LockOf(t, c)))
      && (t.pool != Nobody ==>
            || CanMove(t, t.pool)
            || (t.pool.Worker? && t.pool.w in t.workers && t.workers[t.pool.w].AtConnLock? &&
                CanMove(t, LockOf(t, t.workers[t.pool.w].c)))))
  {
    InitInv(s);
    RunKeepsInv(s, run);
    hide After, Legal, Init, BusyOk;
    LockHoldersMove(After(s, run));
    PoolHolderMoves(After(s, run));
  }

  lemma LockHoldersMove(t: State)
    requires LocksOk(t)
    ensures forall c :: LockOf(t, c) != Nobody && LockOf(t, c) != Destroyed ==> CanMove(t, LockOf(t, c))
  {
    forall c | LockOf(t, c) != Nobody && LockOf(t, c) != Destroyed
      ensures CanMove(t, LockOf(t, c))
    {
      if LockOf(t, c).Worker? {
        assert HoldsConn(t.workers[LockOf(t, c).w], c);
      } else {
        assert t.server == Free(c);
      }
    }
  }

  lemma PoolHolderMoves(t: State)
    requires PoolOk(t) && WakeOk(t)
    ensures t.pool != Nobody ==>
      CanMove(t, t.pool)
      || (t.pool.Worker? && t.pool.w in t.workers && t.workers[t.pool.w].AtConnLock? && LockOf(t, t.workers[t.pool.w].c) != Nobody)
  {
    if t.pool.Worker? {
      assert HoldsPool(t.workers[t.pool.w]);
    } else if t.pool == Server {
      assert ServerHoldsPool(t.server);
      if t.server.Signal? && !CanServe(t) {
        var w :| w in t.workers && t.workers[w].Asleep?;
        assert Enabled(t, Wake(w));
      }
      if t.server.Flagging? && t.server.left != {} {
        var w :| w in t.server.left;
        assert Enabled(t, Flag(w));
      }
    }
  }

  // disconnect_peer does not look at the flag again once it has the worker_lock (server.c:65-66). At
  // that point some worker still refers to the connection exactly if the flag is set,
  lemma RaceWindow(s: State, run: seq<Act>, c: Cid)
    requires Init(s) && Legal(s, run) && After(s, run).server == Free(c)
    ensures var t := After(s, run);
      (exists w :: w in t.workers && RefersTo(t.workers[w], c)) <==> c in t.busy
  {
    InitInv(s);
    RunKeepsInv(s, run);
    hide After, Legal, Init, WakeOk, QuitOk, PoolOk, GoneOk;
    var t := After(s, run);
    assert LockOf(t, c) == Server;
    forall w | w in t.workers && RefersTo(t.workers[w], c)
      ensures BusyWith(t.workers[w], c)
    {
      assert HoldsConn(t.workers[w], c) <==> LockOf(t, c) == Worker(w);
    }
    if c in t.busy {
      var w :| w in t.workers && BusyWith(t.workers[w], c);
      assert RefersTo(t.workers[w], c);
    }
  }

  ghost predicate Reaches(s: State, t: State) {
    exists run :: Legal(s, run) && After(s, run) == t
  }

  lemma {:induction false} OneMore(s: State, run: seq<Act>, a: Act)
    requires Legal(s, run) && Enabled(After(s, run), a)
    ensures Legal(s, run + [a]) && After(s, run + [a]) == Apply(After(s, run), a)
    decreases |run|
  {
    hide Enabled, Apply;
    if run == [] {
      assert run + [a] == [a];
      assert [a][1..] == [];
    } else {
      OneMore(Apply(s, run[0]), run[1..], a);
      assert (run + [a])[1..] == run[1..] + [a];
    }
  }

  lemma StepReaches(s: State, t: State, a: Act, t': State)
    requires Reaches(s, t) && Enabled(t, a) && t' == Apply(t, a)
    ensures Reaches(s, t')
  {
    hide Legal, After, Enabled, Apply;
    var run :| Legal(s, run) && After(s, run) == t;
    OneMore(s, run, a);
  }

  // One worker and one connection: the start, and what the run below comes through.
  function Start(w: Wid): State {
    State(map[w := AtLock], Idle, Nobody, map[], [], {}, {}, {})
  }

  function Locked(w: Wid, c: Cid): State {
    State(map[w := AtUnlock(c)], Idle, Worker(w), map[c := Worker(w)], [], {}, {}, {})
  }

  function Tested(w: Wid, c: Cid): State {
    State(map[w := AtSetBusy(c)], PurgeLock(c), Nobody, map[c := Worker(w)], [], {}, {}, {})
  }

  function Passed(w: Wid, c: Cid): State {
    State(map[w := AtSetBusy(c)], FreeLock(c), Nobody, map[c := Worker(w)], [], {}, {}, {})
  }

  function Raced(w: Wid, c: Cid): State {
    State(map[w := Serving(c)], Free(c), Nobody, map[c := Server], [], {c}, {}, {})
  }

  // The connection is queued,
  lemma Queues(w: Wid, c: Cid)
    ensures Reaches(Start(w), Start(w).(queue := [c]))
  {
    var s := Start(w);
    assert Legal(s, []) && After(s, []) == s;
    hide Reaches, Legal, After;
    var t1 := s.(server := AddLock(c));
    var t2 := s.(server := Append(c), pool := Server);
    var t3 := t2.(server := Signal, queue := [c]);
    StepReaches(s, s, Receive(c), t1);
    StepReaches(s, t1, Serve, t2);
    StepReaches(s, t2, Serve, t3);
    StepReaches(s, t3, Serve, t3.(server := AddUnlock));
    StepReaches(s, t3.(server := AddUnlock), Serve, s.(queue := [c]));
  }

  // ... the worker takes it
  lemma Dequeues(w: Wid, c: Cid)
    requires Reaches(Start(w), Start(w).(queue := [c]))
    ensures Reaches(Start(w), Locked(w, c))
  {
    hide Reaches;
    var s, t := Start(w), Start(w).(queue := [c]);
    var t1 := t.(workers := map[w := AtTest], pool := Worker(w));
    var t2 := t1.(workers := map[w := AtTake]);
    var t3 := t1.(workers := map[w := AtConnLock(c)], queue := []);
    StepReaches(s, t, Work(w), t1);
    StepReaches(s, t1, Work(w), t2);
    StepReaches(s, t2, Work(w), t3);
    StepReaches(s, t3, Work(w), Locked(w, c));
  }

  // ... and reads its flag, while the event loop begins to disconnect it,
  lemma Tests(w: Wid, c: Cid)
    requires Reaches(Start(w), Locked(w, c))
    ensures Reaches(Start(w), Tested(w, c))
  {
    hide Reaches;
    var s, t := Start(w), Locked(w, c);
    var t1 := t.(workers := map[w := AtTestLeaving(c)], pool := Nobody);
    var t2 := t1.(workers := map[w := AtTestBusy(c)]);
    var t3 := t1.(workers := map[w := AtSetBusy(c)]);
    StepReaches(s, t, Work(w), t1);
    StepReaches(s, t1, Work(w), t2);
    StepReaches(s, t2, Work(w), t3);
    StepReaches(s, t3, Disconnect(c), Tested(w, c));
  }

  // ... which sees the flag before it is set
  lemma Passes(w: Wid, c: Cid)
    requires Reaches(Start(w), Tested(w, c))
    ensures Reaches(Start(w), Passed(w, c))
  {
    hide Reaches;
    var s, t := Start(w), Tested(w, c);
    var t1 := t.(server := Purge(c), pool := Server);
    var t2 := t1.(server := PurgeUnlock(c));
    var t3 := t.(server := Spin(c));
    StepReaches(s, t, Serve, t1);
    StepReaches(s, t1, Serve, t2);
    StepReaches(s, t2, Serve, t3);
    StepReaches(s, t3, Serve, Passed(w, c));
  }

  // ... and takes the lock after.
  lemma Races(w: Wid, c: Cid)
    requires Reaches(Start(w), Passed(w, c))
    ensures Reaches(Start(w), Raced(w, c))
  {
    hide Reaches;
    var s, t := Start(w), Passed(w, c);
    var t1 := t.(workers := map[w := AtRelease(c)], busy := {c});
    var t2 := t1.(workers := map[w := Serving(c)], locks := map[]);
    StepReaches(s, t, Work(w), t1);
    StepReaches(s, t1, Work(w), t2);
    StepReaches(s, t2, Serve, Raced(w, c));
  }

  // So a run of one worker and one connection ends with the connection freed while it is served.
  lemma RaceHappens(w: Wid, c: Cid)
    ensures Init(Start(w)) && Reaches(Start(w), Raced(w, c))
    ensures Raced(w, c).server == Free(c) && Raced(w, c).workers[w] == Serving(c)
  {
    hide Reaches;
    Queues(w, c);
    Dequeues(w, c);
    Tests(w, c);
    Passes(w, c);
    Races(w, c);
  }

  // No lost wake-up: while anybody sleeps, there are no more items than workers about to look for
  // one, counting the signal that is still to be sent.
  lemma NoLostWakeup(s: State, run: seq<Act>)
    requires Init(s) && Legal(s, run) && Sleepers(After(s, run)) != {}
    ensures |After(s, run).queue| <= |Lookers(After(s, run))| + if After(s, run).server.Signal? then 1 else 0
    ensures After(s, run).queue != [] ==> Lookers(After(s, run)) != {} || After(s, run).server.Signal?
  {
    InitInv(s);
    RunKeepsInv(s, run);
    hide After, Legal, Init, PoolOk, LocksOk, BusyOk, QuitOk, Lookers, Sleepers;
  }

  // The purge of disconnect_peer holds: from then on the connection is not queued.
  lemma GoneNotQueued(s: State, run: seq<Act>, c: Cid)
    requires Init(s) && Legal(s, run)
    requires PurgedAt(After(s, run).server, c) || LockOf(After(s, run), c) == Destroyed
    ensures c !in After(s, run).queue
  {
    InitInv(s);
    RunKeepsInv(s, run);
    hide After, Legal, Init, PoolOk, LocksOk, BusyOk, QuitOk, WakeOk;
  }

  lemma DownStays(s: State, a: Act)
    requires Down(s) && Enabled(s, a)
    ensures Down(Apply(s, a))
  {
  }

  // After the broadcast of conn_shutdown no worker is asleep, none will sleep again, and none takes
  // another item.
  lemma {:induction false} NobodySleepsAfterShutdown(s: State, run: seq<Act>)
    requires Inv(s) && Down(s) && Legal(s, run)
    ensures Down(After(s, run)) && Sleepers(After(s, run)) == {}
    ensures forall w :: w in After(s, run).workers ==> !After(s, run).workers[w].AtTake?
    decreases |run|
  {
    if run != [] {
      StepKeepsInv(s, run[0]);
      DownStays(s, run[0]);
      hide Inv, Enabled, Apply, Down;
      NobodySleepsAfterShutdown(Apply(s, run[0]), run[1..]);
    }
  }

  // ----- work is neither lost nor overtaken -----

  // Worker a.w takes c from the front of the queue,
  predicate Takes(s: State, a: Act, c: Cid) {
    a.Work? && a.w in s.workers && s.workers[a.w].AtTake? && s.queue != [] && s.queue[0] == c
  }

  // ... disconnect_peer takes it out,
  predicate Purges(s: State, a: Act, c: Cid) {
    a.Serve? && s.server == Purge(c)
  }

  predicate Leaves(s: State, a: Act, c: Cid) {
    Takes(s, a, c) || Purges(s, a, c)
  }

  // d stands before e.
  ghost predicate Before(q: seq<Cid>, d: Cid, e: Cid) {
    exists i, j :: 0 <= i < j < |q| && q[i] == d && q[j] == e
  }

  lemma AppendQueues(s: State)
    requires s.server.Append? && CanServe(s)
    ensures DoServe(s).queue == s.queue + [s.server.c] && DoServe(s).workers == s.workers
  {
  }

  lemma TakeIsFirst(s: State, w: Wid)
    requires w in s.workers && s.workers[w].AtTake? && CanWork(s, s.workers[w])
    ensures var s' := DoWork(s, w);
      s.queue == [s.queue[0]] + s'.queue && w in s'.workers && s'.workers[w] == AtConnLock(s.queue[0])
  {
  }

  // Nothing else changes the queue.
  lemma QueueElsewhere(s: State, a: Act)
    requires Enabled(s, a) && !(a.Serve? && (s.server.Append? || s.server.Purge?))
    requires !(a.Work? && s.workers[a.w].AtTake?)
    ensures Apply(s, a).queue == s.queue
  {
  }

  lemma {:induction false} PurgedBefore(q: seq<Cid>, c: Cid, i: nat, j: nat)
    requires i < j < |q| && q[i] != c && q[j] != c
    ensures Before(Purged(q, c), q[i], q[j])
  {
    var p := Purged(q[1..], c);
    if i > 0 {
      PurgedBefore(q[1..], c, i - 1, j - 1);
      var k, l :| 0 <= k < l < |p| && p[k] == q[i] && p[l] == q[j];
      if q[0] != c {
        assert Purged(q, c)[k + 1] == q[i] && Purged(q, c)[l + 1] == q[j];
      }
    } else {
      assert q[1..][j - 1] == q[j];
      assert q[j] in p;
      var l :| 0 <= l < |p| && p[l] == q[j];
      assert Purged(q, c)[0] == q[0] && Purged(q, c)[l + 1] == q[j];
    }
  }

  // What is queued stays, unless it is taken or purged,
  lemma StaysQueued(s: State, a: Act, c: Cid)
    requires Enabled(s, a) && c in s.queue
    ensures c in Apply(s, a).queue || Leaves(s, a, c)
  {
    if a.Serve? && s.server.Append? {
      AppendQueues(s);
    } else if a.Work? && s.workers[a.w].AtTake? {
      TakeIsFirst(s, a.w);
    } else if !(a.Serve? && s.server.Purge?) {
      QueueElsewhere(s, a);
    }
  }

  // ... and in its place.
  lemma StaysBefore(s: State, a: Act, d: Cid, e: Cid)
    requires Enabled(s, a) && Before(s.queue, d, e)
    ensures Before(Apply(s, a).queue, d, e) || Leaves(s, a, d) || Purges(s, a, e)
  {
    var q, q' := s.queue, Apply(s, a).queue;
    var i, j :| 0 <= i < j < |q| && q[i] == d && q[j] == e;
    if a.Serve? && s.server.Append? {
      AppendQueues(s);
      assert q'[i] == d && q'[j] == e;
    } else if a.Work? && s.workers[a.w].AtTake? {
      TakeIsFirst(s, a.w);
      if i > 0 {
        assert q'[i - 1] == d && q'[j - 1] == e;
      }
    } else if a.Serve? && s.server.Purge? {
      if !Leaves(s, a, d) && !Purges(s, a, e) {
        PurgedBefore(q, s.server.c, i, j);
      }
    } else {
      QueueElsewhere(s, a);
      assert q'[i] == d && q'[j] == e;
    }
  }

  lemma {:induction false} PurgedDistinct(q: seq<Cid>, c: Cid)
    requires forall i, j :: 0 <= i < j < |q| ==> q[i] != q[j]
    ensures forall i, j :: 0 <= i < j < |Purged(q, c)| ==> Purged(q, c)[i] != Purged(q, c)[j]
  {
    if q != [] {
      var p := Purged(q[1..], c);
      PurgedDistinct(q[1..], c);
      assert q[0] !in q[1..];
      assert q[0] != c ==> q[0] !in p;
    }
  }

  lemma StillDistinct(s: State, a: Act)
    requires QueueOk(s) && Enabled(s, a)
    ensures forall i, j :: 0 <= i < j < |Apply(s, a).queue| ==> Apply(s, a).queue[i] != Apply(s, a).queue[j]
  {
    if a.Serve? && s.server.Purge? {
      PurgedDistinct(s.queue, s.server.c);
    } else if a.Serve? && s.server.Append? {
      AppendQueues(s);
    } else if a.Work? && s.workers[a.w].AtTake? {
      TakeIsFirst(s, a.w);
      var q' := Apply(s, a).queue;
      assert forall i :: 0 <= i < |q'| ==> q'[i] == s.queue[i + 1];
    } else {
      QueueElsewhere(s, a);
    }
  }

  // Only an append step makes the queue longer, and after it the call is no longer on its way.
  lemma QueueShrinks(s: State, a: Act)
    requires Enabled(s, a) && !(a.Serve? && s.server.Append?)
    ensures forall c :: c in Apply(s, a).queue ==> c in s.queue
  {
    if a.Work? && s.workers[a.w].AtTake? {
      TakeIsFirst(s, a.w);
    } else if !(a.Serve? && s.server.Purge?) {
      QueueElsewhere(s, a);
    }
  }

  lemma ReceivedWas(s: State, a: Act, c: Cid)
    requires Enabled(s, a) && Received(Apply(s, a), c)
    ensures Received(s, c) || a == Receive(c)
    ensures !(a.Serve? && s.server.Append?)
  {
  }

  lemma QueueKept(s: State, a: Act)
    requires QueueOk(s) && Enabled(s, a)
    ensures QueueOk(Apply(s, a))
  {
    StillDistinct(s, a);
    forall c | Received(Apply(s, a), c)
      ensures c !in Apply(s, a).queue
    {
      ReceivedWas(s, a, c);
      QueueShrinks(s, a);
      assert c !in s.queue;
    }
    hide Apply, Enabled;
  }

  // The state before step i of a run.
  ghost function StateAt(s: State, run: seq<Act>, i: nat): State
    requires Legal(s, run) && i <= |run|
    decreases i
  {
    if i == 0 then s else StateAt(Apply(s, run[0]), run[1..], i - 1)
  }

  lemma {:induction false} StateAtEnd(s: State, run: seq<Act>)
    requires Legal(s, run)
    ensures StateAt(s, run, |run|) == After(s, run)
    decreases |run|
  {
    hide Enabled, Apply;
    if run != [] {
      StateAtEnd(Apply(s, run[0]), run[1..]);
    }
  }

  lemma Later(s: State, run: seq<Act>, i: nat)
    requires Legal(s, run) && i < |run|
    ensures Legal(Apply(s, run[0]), run[1..]) && StateAt(s, run, i + 1) == StateAt(Apply(s, run[0]), run[1..], i)
    ensures StateAt(s, run, 0) == s && (i + 1 < |run| ==> run[i + 1] == run[1..][i])
    ensures Enabled(s, run[0]) && After(s, run) == After(Apply(s, run[0]), run[1..])
  {
    hide Enabled, Apply;
  }

  // c leaves the queue at some step.
  ghost predicate LeavesIn(s: State, run: seq<Act>, c: Cid)
    requires Legal(s, run)
  {
    exists i :: 0 <= i < |run| && Leaves(StateAt(s, run, i), run[i], c)
  }

  lemma LeavesNow(s: State, run: seq<Act>, c: Cid)
    requires Legal(s, run) && run != [] && Leaves(s, run[0], c)
    ensures LeavesIn(s, run, c)
  {
    Later(s, run, 0);
    hide Leaves, Legal, StateAt;
    assert Leaves(StateAt(s, run, 0), run[0], c);
  }

  lemma LeavesLater(s: State, run: seq<Act>, c: Cid)
    requires Legal(s, run) && run != [] && Legal(Apply(s, run[0]), run[1..]) && LeavesIn(Apply(s, run[0]), run[1..], c)
    ensures LeavesIn(s, run, c)
  {
    Later(s, run, 0);
    hide Leaves, Legal, StateAt, Apply, Enabled;
    var s', rest := Apply(s, run[0]), run[1..];
    var i :| 0 <= i < |rest| && Leaves(StateAt(s', rest, i), rest[i], c);
    Later(s, run, i);
    assert Leaves(StateAt(s, run, i + 1), run[i + 1], c);
  }

  // Over every run, whatever is queued is still there, or was taken, or purged.
  lemma {:induction false} NotLost(s: State, run: seq<Act>, c: Cid)
    requires Legal(s, run) && c in s.queue
    ensures c in After(s, run).queue || LeavesIn(s, run, c)
    decreases |run|
  {
    if run != [] {
      Later(s, run, 0);
      StaysQueued(s, run[0], c);
      hide Legal, Leaves, LeavesIn, Enabled, Apply, StateAt, After;
      if c in Apply(s, run[0]).queue {
        NotLost(Apply(s, run[0]), run[1..], c);
        if LeavesIn(Apply(s, run[0]), run[1..], c) {
          LeavesLater(s, run, c);
        }
      } else {
        LeavesNow(s, run, c);
      }
    } else {
      assert After(s, run) == s;
    }
  }

  // A connection that conn_do_work was called for gets queued.
  predicate Received(s: State, c: Cid) {
    s.server == AddLock(c) || s.server == Append(c)
  }

  lemma ReceivedStays(s: State, a: Act, c: Cid)
    requires Enabled(s, a) && Received(s, c)
    ensures Received(Apply(s, a), c) || c in Apply(s, a).queue
  {
  }

  lemma {:induction false} ReceivedNotLost(s: State, run: seq<Act>, c: Cid)
    requires Legal(s, run) && Received(s, c)
    ensures Received(After(s, run), c) || c in After(s, run).queue || LeavesIn(s, run, c)
    decreases |run|
  {
    if run != [] {
      Later(s, run, 0);
      ReceivedStays(s, run[0], c);
      hide Legal, Leaves, LeavesIn, Enabled, Apply, StateAt, After, Received;
      if Received(Apply(s, run[0]), c) {
        ReceivedNotLost(Apply(s, run[0]), run[1..], c);
      } else {
        NotLost(Apply(s, run[0]), run[1..], c);
      }
      if LeavesIn(Apply(s, run[0]), run[1..], c) {
        LeavesLater(s, run, c);
      }
    }
  }

  lemma NotFirst(s: State, a: Act, d: Cid, e: Cid)
    requires QueueOk(s) && Before(s.queue, d, e)
    ensures !Takes(s, a, e)
  {
  }

  // Nobody is overtaken: if d stands before e and the last step takes e, then d left before, or e was
  // purged and came back.
  lemma {:induction false} FirstComeFirstTaken(s: State, run: seq<Act>, d: Cid, e: Cid)
    requires QueueOk(s) && Legal(s, run) && Before(s.queue, d, e)
    requires run != [] && Takes(StateAt(s, run, |run| - 1), run[|run| - 1], e)
    ensures exists i :: 0 <= i < |run| - 1 && (Leaves(StateAt(s, run, i), run[i], d) || Purges(StateAt(s, run, i), run[i], e))
    decreases |run|
  {
    Later(s, run, 0);
    NotFirst(s, run[0], d, e);
    if |run| > 1 {
      var s', rest := Apply(s, run[0]), run[1..];
      StaysBefore(s, run[0], d, e);
      QueueKept(s, run[0]);
      Later(s, run, |run| - 2);
      hide Legal, Leaves, Purges, Enabled, Apply, StateAt, After, Before, QueueOk, Takes;
      if Leaves(s, run[0], d) || Purges(s, run[0], e) {
        assert Leaves(StateAt(s, run, 0), run[0], d) || Purges(StateAt(s, run, 0), run[0], e);
      } else {
        FirstComeFirstTaken(s', rest, d, e);
        var i :| 0 <= i < |rest| - 1 && (Leaves(StateAt(s', rest, i), rest[i], d) || Purges(StateAt(s', rest, i), rest[i], e));
        Later(s, run, i);
        assert Leaves(StateAt(s, run, i + 1), run[i + 1], d) || Purges(StateAt(s, run, i + 1), run[i + 1], e);
      }
    }
  }

  lemma InitQueue(s: State)
    requires Init(s)
    ensures QueueOk(s)
  {
  }

  // ----- what is taken is served -----

  // On its way from the queue to being served
  predicate Underway(pc: WorkerPc, c: Cid) {
    pc == AtConnLock(c) || pc == AtUnlock(c) || pc == AtTestLeaving(c) || pc == AtTestBusy(c) || pc == AtSetBusy(c)
    || pc == AtRelease(c)
  }

  // A worker lets go of c unserved: c is to be disconnected, or another worker serves it.
  predicate Drops(s: State, a: Act, w: Wid, c: Cid) {
    && a == Work(w) && w in s.workers
    && ((s.workers[w] == AtTestLeaving(c) && c in s.leaving) || (s.workers[w] == AtTestBusy(c) && c in s.busy))
  }

  // The steps of others move a worker only if it sleeps.
  lemma OthersSteps(s: State, a: Act, w: Wid)
    requires Enabled(s, a) && w in s.workers && a != Work(w)
    ensures w in Apply(s, a).workers
    ensures Apply(s, a).workers[w] == s.workers[w] || (s.workers[w].Asleep? && Apply(s, a).workers[w].Woken?)
  {
    if a.Work? {
      WorkMoves(s, a.w);
      hide DoWork;
    }
  }

  lemma OwnStep(s: State, w: Wid, c: Cid)
    requires w in s.workers && CanWork(s, s.workers[w]) && Underway(s.workers[w], c)
    ensures w in DoWork(s, w).workers
    ensures var pc := DoWork(s, w).workers[w]; Underway(pc, c) || pc == Serving(c) || Drops(s, Work(w), w, c)
  {
  }

  lemma UnderwayStep(s: State, a: Act, w: Wid, c: Cid)
    requires Enabled(s, a) && w in s.workers && Underway(s.workers[w], c)
    ensures w in Apply(s, a).workers
    ensures Underway(Apply(s, a).workers[w], c) || Apply(s, a).workers[w] == Serving(c) || Drops(s, a, w, c)
  {
    if a == Work(w) {
      OwnStep(s, w, c);
      hide DoWork, Underway, Drops;
    } else {
      OthersSteps(s, a, w);
      hide Apply, Enabled;
    }
  }

  // Served or dropped at some step
  ghost predicate Settled(s: State, run: seq<Act>, w: Wid, c: Cid)
    requires Legal(s, run)
  {
    exists i :: 0 <= i <= |run| && SettledAt(StateAt(s, run, i), if i < |run| then run[i] else Shutdown, w, c)
  }

  predicate SettledAt(s: State, a: Act, w: Wid, c: Cid) {
    (w in s.workers && s.workers[w] == Serving(c)) || Drops(s, a, w, c)
  }

  lemma SettledLater(s: State, run: seq<Act>, w: Wid, c: Cid)
    requires Legal(s, run) && run != [] && Legal(Apply(s, run[0]), run[1..]) && Settled(Apply(s, run[0]), run[1..], w, c)
    ensures Settled(s, run, w, c)
  {
    Later(s, run, 0);
    hide SettledAt, Apply, Enabled;
    var s', rest := Apply(s, run[0]), run[1..];
    var i :| 0 <= i <= |rest| && SettledAt(StateAt(s', rest, i), if i < |rest| then rest[i] else Shutdown, w, c);
    Later(s, run, i);
    hide Legal, StateAt;
    assert SettledAt(StateAt(s, run, i + 1), if i + 1 < |run| then run[i + 1] else Shutdown, w, c);
  }

  lemma SettledNow(s: State, run: seq<Act>, w: Wid, c: Cid)
    requires Legal(s, run) && SettledAt(s, if run == [] then Shutdown else run[0], w, c)
    ensures Settled(s, run, w, c)
  {
    hide SettledAt, Apply, Enabled;
    assert StateAt(s, run, 0) == s;
  }

  // A worker that took a connection is still underway, or has served it, or dropped it for a reason.
  lemma {:induction false} TakenIsServed(s: State, run: seq<Act>, w: Wid, c: Cid)
    requires Legal(s, run) && w in s.workers && Underway(s.workers[w], c)
    ensures Settled(s, run, w, c) || (w in After(s, run).workers && Underway(After(s, run).workers[w], c))
    decreases |run|
  {
    if run != [] {
      Later(s, run, 0);
      UnderwayStep(s, run[0], w, c);
      var s', rest := Apply(s, run[0]), run[1..];
      hide Legal, Enabled, Apply, StateAt, After, Underway, Drops, Settled;
      if Drops(s, run[0], w, c) {
        SettledNow(s, run, w, c);
      } else {
        if Underway(s'.workers[w], c) {
          TakenIsServed(s', rest, w, c);
        } else {
          SettledNow(s', rest, w, c);
        }
        if Settled(s', rest, w, c) {
          SettledLater(s, run, w, c);
        }
      }
    }
  }

  // Once a connection is to be disconnected, no worker that has not tested that yet serves it.
  lemma {:induction false} LeavingNotServed(s: State, run: seq<Act>, w: Wid, c: Cid)
    requires Legal(s, run) && c in s.leaving && w in s.workers && !PastTest(s.workers[w], c)
    ensures c in After(s, run).leaving && w in After(s, run).workers && !PastTest(After(s, run).workers[w], c)
    decreases |run|
  {
    if run != [] {
      LeavingStep(s, run[0], w, c);
      hide Enabled, Apply, PastTest;
      LeavingNotServed(Apply(s, run[0]), run[1..], w, c);
    }
  }

  predicate PastTest(pc: WorkerPc, c: Cid) {
    pc == AtTestBusy(c) || pc == AtSetBusy(c) || pc == AtRelease(c) || pc == Serving(c)
  }

  lemma LeavingStep(s: State, a: Act, w: Wid, c: Cid)
    requires Enabled(s, a) && c in s.leaving && w in s.workers && !PastTest(s.workers[w], c)
    ensures var s' := Apply(s, a); c in s'.leaving && w in s'.workers && !PastTest(s'.workers[w], c)
  {
    LeavingKept(s, a, c);
    if a == Work(w) {
      OwnTest(s, w, c);
      hide DoWork, PastTest;
    } else {
      OthersSteps(s, a, w);
      hide Apply, Enabled;
    }
  }

  lemma LeavingKept(s: State, a: Act, c: Cid)
    requires Enabled(s, a) && c in s.leaving
    ensures c in Apply(s, a).leaving
  {
  }

  // server_disconnect_nicely can always mark a connection, and marks no other.
  lemma LeaveMarks(s: State, c: Cid)
    ensures Enabled(s, Leave(c)) && forall d :: d in Apply(s, Leave(c)).leaving <==> d == c || d in s.leaving
  {
  }

  lemma OwnTest(s: State, w: Wid, c: Cid)
    requires w in s.workers && CanWork(s, s.workers[w]) && c in s.leaving && !PastTest(s.workers[w], c)
    ensures w in DoWork(s, w).workers && !PastTest(DoWork(s, w).workers[w], c)
  {
  }

  // ----- disconnecting -----

  lemma SpinStep(s: State, a: Act, w: Wid, c: Cid)
    requires BusyOk(s) && Enabled(s, a) && s.server == Spin(c) && w in s.workers && BusyWith(s.workers[w], c)
    ensures Apply(s, a).server == Spin(c) && w in Apply(s, a).workers
  {
    assert c in s.busy;
  }

  // The event loop still waits for c, and worker w is done with it.
  predicate Cleared(s: State, w: Wid, c: Cid) {
    s.server == Spin(c) && w in s.workers && !BusyWith(s.workers[w], c)
  }

  // disconnect_peer goes on only when a worker that was serving the connection has cleared the flag.
  lemma {:induction false} WaitsForWorker(s: State, run: seq<Act>, w: Wid, c: Cid)
    requires Inv(s) && Legal(s, run) && s.server == Spin(c) && w in s.workers && BusyWith(s.workers[w], c)
    requires After(s, run).server != Spin(c)
    ensures exists i :: 0 <= i <= |run| && Cleared(StateAt(s, run, i), w, c)
    decreases |run|
  {
    if run != [] {
      Later(s, run, 0);
      var s', rest := Apply(s, run[0]), run[1..];
      SpinStep(s, run[0], w, c);
      StepKeepsInv(s, run[0]);
      hide Inv, Legal, Enabled, Apply, StateAt, After, BusyWith;
      if BusyWith(s'.workers[w], c) {
        WaitsForWorker(s', rest, w, c);
        var i :| 0 <= i <= |rest| && Cleared(StateAt(s', rest, i), w, c);
        Later(s, run, i);
        assert Cleared(StateAt(s, run, i + 1), w, c);
      } else {
        StartsHere(s', rest);
        assert Cleared(StateAt(s, run, 1), w, c);
      }
    }
  }

  lemma StartsHere(s: State, run: seq<Act>)
    requires Legal(s, run)
    ensures StateAt(s, run, 0) == s
  {
  }

  lemma FreedStep(s: State, a: Act, c: Cid)
    requires LocksOk(s) && Enabled(s, a) && LockOf(s, c) == Destroyed
    ensures LockOf(Apply(s, a), c) == Destroyed
  {
    if a.Work? {
      WorkLocks(s, a.w);
      hide DoWork, CanWork;
      if FreesLock(s.workers[a.w]) {
        assert LockOf(s, s.workers[a.w].c) == Worker(a.w);
      }
    }
  }

  lemma FreeStep(s: State, c: Cid)
    requires s.server == Free(c)
    ensures CanServe(s) && LockOf(DoServe(s), c) == Destroyed && DoServe(s).server == Idle
  {
  }

  // What is freed stays so, and is never queued or taken again.
  lemma {:induction false} FreedForGood(s: State, run: seq<Act>, c: Cid)
    requires Inv(s) && Legal(s, run) && LockOf(s, c) == Destroyed
    ensures LockOf(After(s, run), c) == Destroyed && c !in After(s, run).queue
    ensures forall w :: w in After(s, run).workers ==> After(s, run).workers[w] != AtConnLock(c)
    decreases |run|
  {
    if run == [] {
      hide PoolOk, LocksOk, BusyOk, WakeOk, QuitOk;
    } else {
      FreedStep(s, run[0], c);
      StepKeepsInv(s, run[0]);
      hide Inv, Enabled, Apply, LockOf;
      FreedForGood(Apply(s, run[0]), run[1..], c);
    }
  }

  // ----- who can move -----

  // A worker that cannot move is asleep or has exited, or waits for a lock.
  lemma WorkersMove(s: State, w: Wid)
    requires WakeOk(s) && w in s.workers && !Enabled(s, Work(w))
    ensures var pc := s.workers[w];
      || pc.Asleep? || pc.Exited?
      || ((pc.AtLock? || pc.Woken?) && s.pool != Nobody)
      || ((pc.AtConnLock? || pc.AtRelock?) && LockOf(s, pc.c) != Nobody)
  {
  }

  // The event loop is idle or has joined, waits for a lock or the flag, or is in a call to the workers.
  lemma ServerMoves(s: State)
    requires !Enabled(s, Serve)
    ensures var pc := s.server;
      || pc.Idle? || pc.Joining?
      || ((pc.AddLock? || pc.PurgeLock? || pc.DownLock?) && s.pool != Nobody)
      || (pc.FreeLock? && LockOf(s, pc.c) != Nobody)
      || (pc.Spin? && pc.c in s.busy)
      || (pc.Signal? && exists w :: Enabled(s, Wake(w)))
      || (pc.Flagging? && exists w :: Enabled(s, Flag(w)))
  {
    if s.server.Signal? {
      var w :| w in s.workers && s.workers[w].Asleep?;
      assert Enabled(s, Wake(w));
    }
    if s.server.Flagging? {
      var w :| w in s.server.left;
      assert Enabled(s, Flag(w));
    }
  }
}
