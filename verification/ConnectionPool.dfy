/**
  The connection pool of db/pool/PoolState.hpp and the leases of db/pool/PooledConnection.cpp: who owns each connection
  over any run of acquire, move, move-assignment, mark_broken and destruction, and who waits for one.
 */
module ConnectionPool {
  import opened Common

  type ConnId = nat
  type LeaseId = nat

  // The fields under the mutex; `max` is config.max_connections.
  datatype Fields = Fields(connections: seq<ConnId>, active: nat, idle: nat, shutdown: bool, max: nat)

  predicate CanCreate(p: Fields) { p.idle + p.active < p.max }

  // No connection is stored and another one may be opened.
  predicate MustOpen(p: Fields) { p.connections == [] && CanCreate(p) }

  // The predicate of the wait in acquire.
  predicate MayStopWaiting(p: Fields) { p.shutdown || p.connections != [] || CanCreate(p) }

  // take_connection_locked, given the connection that opening a new one would yield; no connection is nullptr.
  function Take(p: Fields, newConn: ConnId): (Fields, Option<ConnId>) {
    if p.idle > 0 && p.connections != [] then
      (p.(connections := p.connections[..|p.connections| - 1], idle := p.idle - 1, active := p.active + 1),
       Some(p.connections[|p.connections| - 1]))
    else if CanCreate(p) then (p.(active := p.active + 1), Some(newConn))
    else (p, None)
  }

  // return_connection; `open` is what is_open says of the connection.
  function GiveBack(p: Fields, conn: Option<ConnId>, open: bool): Fields {
    var p1 := p.(active := if p.active > 0 then p.active - 1 else TWO_64 - 1);
    if p.shutdown || conn.None? || !open then p1
    else p1.(connections := p.connections + [conn.value], idle := p.idle + 1)
  }

  // The object: every method is one section with the mutex held.
  class PoolState {
    var connections: seq<ConnId>
    var active: nat
    var idle: nat
    var shutdown: bool
    const max: nat

    function Snapshot(): Fields
      reads this
    {
      Fields(connections, active, idle, shutdown, max)
    }

    constructor (max: nat)
      requires max > 0
      ensures Snapshot() == Fields([], 0, 0, false, max)
    {
      connections, active, idle, shutdown := [], 0, 0, false;
      this.max := max;
    }

    // init_new_connection_locked; opening a connection yields one or throws.
    method InitNewConnection(newConn: Option<ConnId>) returns (made: bool, threw: bool)
      modifies this
      ensures made == (CanCreate(old(Snapshot())) && newConn.Some?)
      ensures threw == (CanCreate(old(Snapshot())) && newConn.None?)
      ensures made ==>
                Snapshot() == old(Snapshot()).(connections := old(connections) + [newConn.value], idle := old(idle) + 1)
      ensures !made ==> Snapshot() == old(Snapshot())
    {
      if !(idle + active < max) { return false, false; }
      if newConn.None? { return false, true; }
      connections := connections + [newConn.value];
      idle := idle + 1;
      return true, false;
    }

    // take_connection_locked: it throws exactly when a connection has to be opened and cannot be, and then nothing has
    // changed.
    method TakeConnection(newConn: Option<ConnId>) returns (conn: Option<ConnId>, threw: bool)
      requires idle == |connections|
      modifies this
      ensures threw <==> MustOpen(old(Snapshot())) && newConn.None?
      ensures threw ==> Snapshot() == old(Snapshot()) && conn == None
      ensures !threw ==> (Snapshot(), conn) == Take(old(Snapshot()), if newConn.Some? then newConn.value else 0)
      ensures shutdown == old(shutdown) && active == old(active) + if conn.Some? then 1 else 0
      ensures old(connections) != [] ==>
                var n := |old(connections)| - 1;
                conn == Some(old(connections)[n]) && connections == old(connections)[..n] && idle == old(idle) - 1
      ensures old(connections) == [] ==>
                && connections == [] && idle == 0
                && conn == if old(active) < max then newConn else None
    {
      if idle > 0 {
        conn, threw := Some(connections[|connections| - 1]), false;
        connections := connections[..|connections| - 1];
        idle, active := idle - 1, active + 1;
        return;
      }
      var made;
      made, threw := InitNewConnection(newConn);
      if made {
        conn := Some(connections[|connections| - 1]);
        connections := connections[..|connections| - 1];
        idle, active := idle - 1, active + 1;
        return;
      }
      conn := None;
    }

    method ReturnConnection(conn: Option<ConnId>, open: bool)
      modifies this
      ensures Snapshot() == GiveBack(old(Snapshot()), conn, open)
      ensures shutdown == old(shutdown) && active == (if old(active) > 0 then old(active) - 1 else TWO_64 - 1)
      ensures var stored := !old(shutdown) && conn.Some? && open;
              && connections == (if stored then old(connections) + [conn.value] else old(connections))
              && idle == if stored then old(idle) + 1 else old(idle)
    {
      active := if active > 0 then active - 1 else TWO_64 - 1;
      if shutdown || conn.None? || !open { return; }
      connections := connections + [conn.value];
      idle := idle + 1;
    }
  }

  // ---- Runs over the leases ---------------------------------------------------------------------------------------

  // A PooledConnection: whether m_poolState is set, the connection it owns, and m_broken.
  datatype Lease = Lease(attached: bool, conn: Option<ConnId>, broken: bool)

  // The pool, the leases, the connections that are open; then history: ids handed out and connections ever marked
  // broken.
  datatype State = State(
    p: Fields, leases: map<LeaseId, Lease>, open: set<ConnId>, nextConn: ConnId, broken: set<ConnId>)

  datatype Action =
    | Acquire(l: LeaseId)                    // to completion, after any wait
    | AcquireFails(l: LeaseId)               // opening a connection throws, or the pool is shutting down
    | Move(dst: LeaseId, src: LeaseId)       // PooledConnection(PooledConnection&&)
    | Assign(dst: LeaseId, src: LeaseId)     // operator=(PooledConnection&&)
    | MarkBroken(l: LeaseId)
    | Destroy(l: LeaseId)
    | ServerCloses(c: ConnId)                // the connection dies under its owner
    | Shutdown

  function Init(max: nat): State { State(Fields([], 0, 0, false, max), map[], {}, 0, {}) }

  predicate Enabled(s: State, a: Action) {
    match a
    case Acquire(l) => l !in s.leases && !s.p.shutdown && MayStopWaiting(s.p)
    case AcquireFails(l) => true
    case Move(dst, src) => src in s.leases && dst !in s.leases
    case Assign(dst, src) => src in s.leases && dst in s.leases
    case MarkBroken(l) => l in s.leases
    case Destroy(l) => l in s.leases
    case ServerCloses(_) => true
    case Shutdown => true
  }

  // ~PooledConnection and the first half of move-assignment: an attached lease returns its connection.
  function Release(s: State, lease: Lease): Fields {
    if lease.attached then GiveBack(s.p, lease.conn, lease.conn.Some? && lease.conn.value in s.open) else s.p
  }

  const EMPTY: Lease := Lease(false, None, false)

  function Next(s: State, a: Action): State
    requires Enabled(s, a)
  {
    match a
    case Acquire(l) =>
      var (p, conn) := Take(s.p, s.nextConn);
      var isNew := conn == Some(s.nextConn);
      s.(p := p, leases := s.leases[l := Lease(true, conn, false)],
         open := if isNew then s.open + {s.nextConn} else s.open,
         nextConn := if isNew then s.nextConn + 1 else s.nextConn)
    case AcquireFails(_) => s
    case Move(dst, src) => s.(leases := s.leases[dst := s.leases[src]][src := EMPTY.(broken := s.leases[src].broken)])
    case Assign(dst, src) =>
      if dst == src then s
      else s.(p := Release(s, s.leases[dst]),
              leases := s.leases[dst := s.leases[src]][src := EMPTY.(broken := s.leases[src].broken)])
    case MarkBroken(l) =>
      var c := s.leases[l].conn;
      s.(leases := s.leases[l := s.leases[l].(broken := true)],
         open := s.open - if c.Some? then {c.value} else {}, broken := s.broken + if c.Some? then {c.value} else {})
    case Destroy(l) => s.(p := Release(s, s.leases[l]), leases := s.leases - {l})
    case ServerCloses(c) => s.(open := s.open - {c})
    case Shutdown => s.(p := s.p.(shutdown := true))
  }

  function Live(leases: map<LeaseId, Lease>): set<LeaseId> { set l | l in leases && leases[l].attached }

  ghost predicate Counted(s: State) {
    && s.p.idle == |s.p.connections| && s.p.active == |Live(s.leases)| && s.p.idle + s.p.active <= s.p.max
  }

  // Each connection has one owner: one place in the stored list, or one lease.
  ghost predicate Owned(s: State) {
    && (forall l :: l in s.leases ==> (s.leases[l].attached <==> s.leases[l].conn.Some?))
    && (forall i, j :: 0 <= i < j < |s.p.connections| ==> s.p.connections[i] != s.p.connections[j])
    && (forall l :: l in s.leases && s.leases[l].conn.Some? ==>
          s.leases[l].conn.value < s.nextConn && s.leases[l].conn.value !in s.p.connections)
    && (forall l, k :: l in s.leases && k in s.leases && l != k && s.leases[l].conn.Some? ==>
          s.leases[l].conn != s.leases[k].conn)
    && (forall c :: c in s.p.connections ==> c < s.nextConn && c !in s.broken)
    && (forall c :: c in s.broken ==> c < s.nextConn && c !in s.open)
  }

  ghost predicate Inv(s: State) { Counted(s) && Owned(s) }

  lemma LiveAfter(leases: map<LeaseId, Lease>, l: LeaseId, lease: Lease)
    ensures |Live(leases[l := lease])| ==
            |Live(leases)| + (if lease.attached then 1 else 0) - (if l in Live(leases) then 1 else 0)
  {
    assert Live(leases[l := lease]) == if lease.attached then Live(leases) + {l} else Live(leases) - {l};
  }

  // The wait ends only when there is something to take: acquire never yields nullptr.
  lemma AcquireNeverNull(s: State, newConn: ConnId)
    requires Inv(s) && MayStopWaiting(s.p) && !s.p.shutdown
    ensures Take(s.p, newConn).1.Some?
  {
  }

  lemma ReleaseCounts(s: State, l: LeaseId)
    requires Counted(s) && l in s.leases
    ensures var p := Release(s, s.leases[l]);
            && p.idle == |p.connections| && p.idle + p.active <= p.max == s.p.max
            && p.active == |Live(s.leases)| - if s.leases[l].attached then 1 else 0
  {
    assert s.leases[l].attached ==> l in Live(s.leases);
  }

  lemma CountedAfter(s: State, a: Action)
    requires Counted(s) && Enabled(s, a)
    ensures Counted(Next(s, a))
  {
    hide Release, Live;
    match a
    case Acquire(l) => LiveAfter(s.leases, l, Lease(true, Take(s.p, s.nextConn).1, false)); NotLive(s.leases, l);
    case Move(dst, src) => MoveCounts(s.leases, dst, src);
    case Assign(dst, src) => if dst != src { ReleaseCounts(s, dst); MoveCounts(s.leases, dst, src); }
    case MarkBroken(l) => SameLive(s.leases, l, s.leases[l].(broken := true));
    case Destroy(l) => ReleaseCounts(s, l); DropCounts(s.leases, l);
    case _ =>
  }

  lemma NotLive(leases: map<LeaseId, Lease>, l: LeaseId)
    requires l !in leases
    ensures l !in Live(leases)
  {
  }

  lemma SameLive(leases: map<LeaseId, Lease>, l: LeaseId, lease: Lease)
    requires l in leases && lease.attached == leases[l].attached
    ensures Live(leases[l := lease]) == Live(leases)
  {
  }

  lemma DropCounts(leases: map<LeaseId, Lease>, l: LeaseId)
    requires l in leases
    ensures |Live(leases - {l})| == |Live(leases)| - if leases[l].attached then 1 else 0
  {
    assert Live(leases - {l}) == Live(leases) - {l};
  }

  lemma MoveCounts(leases: map<LeaseId, Lease>, dst: LeaseId, src: LeaseId)
    requires src in leases && dst != src
    ensures |Live(leases[dst := leases[src]][src := EMPTY.(broken := leases[src].broken)])|
            == |Live(leases)| - if dst in leases && leases[dst].attached then 1 else 0
  {
    LiveAfter(leases, dst, leases[src]);
    LiveAfter(leases[dst := leases[src]], src, EMPTY.(broken := leases[src].broken));
  }

  lemma AcquireOwned(s: State, a: Action)
    requires Inv(s) && Enabled(s, a) && a.Acquire?
    ensures Owned(Next(s, a))
  {
    hide Live;
    AcquireNeverNull(s, s.nextConn);
    var s' := Next(s, a);
    if s.p.idle > 0 {
      var n := |s.p.connections| - 1;
      var c := s.p.connections[n];
      assert c in s.p.connections && s'.p.connections == s.p.connections[..n] && s'.nextConn == s.nextConn;
      LeaseOwned(s, s', a.l, c);
    } else {
      assert s'.p.connections == s.p.connections == [];
      LeaseOwned(s, s', a.l, s.nextConn);
    }
  }

  // A connection that no lease owns comes out of the list, or is new, and goes to a lease that had none.
  lemma LeaseOwned(s: State, s': State, l: LeaseId, c: ConnId)
    requires Owned(s) && l !in s.leases && s'.leases == s.leases[l := Lease(true, Some(c), false)]
    requires s'.broken == s.broken
    requires || (c in s.p.connections && s'.nextConn == s.nextConn && s'.open == s.open
                 && s.p.connections == s'.p.connections + [c])
             || (c == s.nextConn && s'.nextConn == c + 1 && s'.open == s.open + {c}
                 && s'.p.connections == s.p.connections)
    ensures Owned(s')
  {
    forall d | d in s'.p.connections ensures d in s.p.connections && d != c {
      var i :| 0 <= i < |s'.p.connections| && s'.p.connections[i] == d;
      assert s.p.connections[i] == d;
      if c != s.nextConn { assert s.p.connections[|s'.p.connections|] == c; }
    }
    assert forall i :: 0 <= i < |s'.p.connections| ==> s'.p.connections[i] == s.p.connections[i];
  }

  // The first half of a move-assignment: the lease gives its connection back and is empty.
  function Emptied(s: State, l: LeaseId): State
    requires l in s.leases
  {
    s.(p := Release(s, s.leases[l]), leases := s.leases[l := EMPTY])
  }

  lemma EmptiedOwned(s: State, l: LeaseId)
    requires Owned(s) && l in s.leases
    ensures Owned(Emptied(s, l))
  {
    var s' := Emptied(s, l);
    assert s'.p.connections == s.p.connections ||
           (&& s.leases[l].attached && s.leases[l].conn.value in s.open
            && s'.p.connections == s.p.connections + [s.leases[l].conn.value]);
  }

  lemma MoveOwned(s: State, dst: LeaseId, src: LeaseId)
    requires Owned(s) && src in s.leases && dst != src && (dst in s.leases ==> s.leases[dst].conn.None?)
    ensures Owned(s.(leases := s.leases[dst := s.leases[src]][src := EMPTY.(broken := s.leases[src].broken)]))
  {
  }

  lemma AssignOwned(s: State, dst: LeaseId, src: LeaseId)
    requires Owned(s) && src in s.leases && dst in s.leases && dst != src
    ensures Owned(Next(s, Assign(dst, src)))
  {
    EmptiedOwned(s, dst);
    hide Owned, Release;
    var s1 := Emptied(s, dst);
    MoveOwned(s1, dst, src);
    assert Next(s, Assign(dst, src)).leases ==
           s1.leases[dst := s.leases[src]][src := EMPTY.(broken := s.leases[src].broken)];
  }

  lemma DestroyOwned(s: State, l: LeaseId)
    requires Owned(s) && l in s.leases
    ensures Owned(Next(s, Destroy(l)))
  {
    EmptiedOwned(s, l);
    hide Release;
    assert forall k :: k in s.leases - {l} ==> (s.leases - {l})[k] == Emptied(s, l).leases[k];
  }

  lemma MarkOwned(s: State, a: Action)
    requires Owned(s) && Enabled(s, a) && (a.MarkBroken? || a.ServerCloses? || a.Shutdown? || a.AcquireFails?)
    ensures Owned(Next(s, a))
  {
  }

  lemma OwnedAfter(s: State, a: Action)
    requires Inv(s) && Enabled(s, a)
    ensures Owned(Next(s, a))
  {
    hide Owned, Release;
    match a
    case Acquire(_) => AcquireOwned(s, a);
    case Move(dst, src) => MoveOwned(s, dst, src);
    case Assign(dst, src) => if dst != src { AssignOwned(s, dst, src); }
    case Destroy(l) => DestroyOwned(s, l);
    case _ => MarkOwned(s, a);
  }

  lemma NextKeepsInv(s: State, a: Action)
    requires Inv(s) && Enabled(s, a)
    ensures Inv(Next(s, a)) && s.broken <= Next(s, a).broken
  {
    hide Counted, Owned;
    CountedAfter(s, a);
    OwnedAfter(s, a);
  }

  ghost predicate Feasible(s: State, run: seq<Action>)
    decreases |run|
  {
    run == [] || (Enabled(s, run[0]) && Feasible(Next(s, run[0]), run[1..]))
  }

  ghost function Exec(s: State, run: seq<Action>): State
    requires Feasible(s, run)
    decreases |run|
  {
    if run == [] then s else Exec(Next(s, run[0]), run[1..])
  }

  lemma {:induction false} RunKeepsInv(s: State, run: seq<Action>)
    requires Inv(s) && Feasible(s, run)
    ensures Inv(Exec(s, run)) && s.broken <= Exec(s, run).broken && Exec(s, run).p.max == s.p.max
    decreases |run|
  {
    hide Inv;
    if run == [] {
    } else {
      NextKeepsInv(s, run[0]);
      RunKeepsInv(Next(s, run[0]), run[1..]);
    }
  }

  // Conservation over any run: the counters tell the truth and stay within the limit, and no connection has two owners.
  lemma EveryRunConserves(max: nat, run: seq<Action>)
    requires Feasible(Init(max), run)
    ensures var s := Exec(Init(max), run);
            && s.p.idle == |s.p.connections| && s.p.active == |Live(s.leases)| && s.p.idle + s.p.active <= max
            && (forall l, k :: l in s.leases && k in s.leases && l != k && s.leases[l].conn.Some? ==>
                  s.leases[l].conn != s.leases[k].conn)
            && (forall l :: l in s.leases && s.leases[l].conn.Some? ==> s.leases[l].conn.value !in s.p.connections)
            && (forall i, j :: 0 <= i < j < |s.p.connections| ==> s.p.connections[i] != s.p.connections[j])
  {
    InitIsFine(max);
    RunKeepsInv(Init(max), run);
  }

  lemma InitIsFine(max: nat)
    ensures Inv(Init(max))
  {
    assert Live(Init(max).leases) == {};
  }

  // A connection once marked broken is never idle again, however the run goes on.
  lemma BrokenStaysOut(max: nat, run: seq<Action>, later: seq<Action>, c: ConnId)
    requires Feasible(Init(max), run) && Feasible(Exec(Init(max), run), later) && c in Exec(Init(max), run).broken
    ensures c !in Exec(Exec(Init(max), run), later).p.connections
  {
    InitIsFine(max);
    RunKeepsInv(Init(max), run);
    RunKeepsInv(Exec(Init(max), run), later);
  }

  // The step parts a lease from this connection: the lease dies, or another one is moved into it.
  predicate LetsGo(s: State, a: Action, c: ConnId)
    requires Enabled(s, a)
  {
    match a
    case Destroy(l) => s.leases[l].conn == Some(c)
    case Assign(dst, src) => dst != src && s.leases[dst].conn == Some(c)
    case _ => false
  }

  // A connection is stored exactly when a lease lets go of it while it is open and the pool is running, and it is then
  // the newest one stored.
  lemma StoredExactly(s: State, a: Action, c: ConnId)
    requires Inv(s) && Enabled(s, a)
    ensures c in Next(s, a).p.connections && c !in s.p.connections <==>
              LetsGo(s, a, c) && !s.p.shutdown && c in s.open
    ensures LetsGo(s, a, c) && !s.p.shutdown && c in s.open ==> Next(s, a).p.connections == s.p.connections + [c]
  {
    hide Counted, Live;
    if a.Acquire? && s.p.connections != [] {
      assert Next(s, a).p.connections <= s.p.connections;
    }
  }

  // A stored connection leaves the list exactly when it is the newest and a lease is acquired, which then holds it.
  lemma TakenExactly(s: State, a: Action, c: ConnId)
    requires Inv(s) && Enabled(s, a)
    ensures c in s.p.connections && c !in Next(s, a).p.connections <==>
              a.Acquire? && s.p.connections != [] && c == s.p.connections[|s.p.connections| - 1]
    ensures a.Acquire? ==>
              var stored := s.p.connections;
              Next(s, a).leases[a.l] ==
                Lease(true, Some(if stored == [] then s.nextConn else stored[|stored| - 1]), false)
  {
    hide Live;
    AcquireTakes(s, a);
    if a.Acquire? && s.p.connections != [] {
      var n := |s.p.connections| - 1;
      assert s.p.connections == s.p.connections[..n] + [s.p.connections[n]];
    }
  }

  lemma AcquireTakes(s: State, a: Action)
    requires Counted(s) && Enabled(s, a)
    ensures a.Acquire? && s.p.connections != [] ==>
              Next(s, a).p.connections == s.p.connections[..|s.p.connections| - 1]
    ensures a.Acquire? && s.p.connections == [] ==> Next(s, a).p.connections == []
    ensures !a.Acquire? ==> s.p.connections <= Next(s, a).p.connections
  {
    hide Live;
  }

  // After shutdown nothing is stored and nothing is handed out, however the run goes on.
  lemma {:induction false} ShutdownIsFinal(s: State, run: seq<Action>)
    requires s.p.shutdown && Feasible(s, run)
    ensures Exec(s, run).p.shutdown && Exec(s, run).p.connections == s.p.connections
    ensures forall k :: 0 <= k < |run| ==> !run[k].Acquire?
    decreases |run|
  {
    if run == [] {
    } else {
      ShutdownIsFinal(Next(s, run[0]), run[1..]);
      assert forall k :: 0 < k < |run| ==> run[k] == run[1..][k - 1];
    }
  }

  // ---- Waiting for a connection -----------------------------------------------------------------------------------

  type Tid = nat

  // A thread in acquire or try_acquire_for: parked on m_cond, or out of the wait without the mutex.
  datatype Wait = Outside | Parked | Woken(expired: bool)

  datatype Queue = Queue(p: Fields, waits: map<Tid, Wait>, nextConn: ConnId)

  // `opens` says whether a connection can be opened when one is needed; `wake` is the thread that notify_one picks.
  datatype WaitStep =
    | Enter(t: Tid, opens: bool)
    | Recheck(t: Tid, opens: bool)
    | WakeSpuriously(t: Tid)
    | Expire(t: Tid)
    | Return(conn: Option<ConnId>, open: bool, wake: Tid)
    | ShutDown

  predicate Is(w: Wait, woken: bool) { if woken then w.Woken? else w.Parked? }

  function Those(waits: map<Tid, Wait>, woken: bool): set<Tid> { set t | t in waits && Is(waits[t], woken) }

  function Count(waits: map<Tid, Wait>, woken: bool): nat { |Those(waits, woken)| }

  predicate CanStep(s: Queue, a: WaitStep) {
    match a
    case Enter(t, _) => t in s.waits && s.waits[t].Outside?
    case Recheck(t, _) => t in s.waits && s.waits[t].Woken?
    case WakeSpuriously(t) => t in s.waits && s.waits[t].Parked?
    case Expire(t) => t in s.waits && s.waits[t].Parked?
    case Return(_, _, wake) =>
      s.p.active > 0 && (Count(s.waits, false) > 0 ==> wake in s.waits && s.waits[wake].Parked?)
    case ShutDown => true
  }

  function NotifyAll(waits: map<Tid, Wait>): map<Tid, Wait> {
    map t | t in waits :: if waits[t].Parked? then Woken(false) else waits[t]
  }

  // Opening is attempted and throws, in the thread that looks.
  predicate FailsToOpen(p: Fields, opens: bool) { !p.shutdown && MustOpen(p) && !opens }

  function Look(s: Queue, t: Tid, opens: bool, expired: bool): Queue {
    if s.p.shutdown || FailsToOpen(s.p, opens) then s.(waits := s.waits[t := Outside])
    else
      var (p, conn) := Take(s.p, s.nextConn);
      Queue(p, s.waits[t := if conn.Some? || expired then Outside else Parked],
            if conn == Some(s.nextConn) then s.nextConn + 1 else s.nextConn)
  }

  function After(s: Queue, a: WaitStep): Queue
    requires CanStep(s, a)
  {
    match a
    case Enter(t, opens) => Look(s, t, opens, false)
    case Recheck(t, opens) => Look(s, t, opens, s.waits[t].expired)
    case WakeSpuriously(t) => s.(waits := s.waits[t := Woken(false)])
    case Expire(t) => s.(waits := s.waits[t := Woken(true)])
    case Return(conn, open, wake) =>
      s.(p := GiveBack(s.p, conn, open),
         waits := if s.p.shutdown then NotifyAll(s.waits)
                  else if wake in s.waits && s.waits[wake].Parked? then s.waits[wake := Woken(false)] else s.waits)
    case ShutDown => s.(p := s.p.(shutdown := true), waits := NotifyAll(s.waits))
  }

  // Every connection that a parked thread could have is promised to a thread on its way.
  ghost predicate Served(s: Queue) {
    Count(s.waits, false) > 0 ==> !s.p.shutdown && s.p.max - s.p.active <= Count(s.waits, true)
  }

  ghost predicate Sound(s: Queue) {
    s.p.idle == |s.p.connections| && s.p.idle + s.p.active <= s.p.max && Served(s)
  }

  // The wakeup is lost exactly when a woken thread fails to open a connection while others stay parked and no thread on
  // its way is to spare.
  ghost predicate Loses(s: Queue, a: WaitStep) {
    && a.Recheck? && FailsToOpen(s.p, a.opens)
    && Count(s.waits, false) > 0 && s.p.max - s.p.active == Count(s.waits, true)
  }

  function One(b: bool): int { if b then 1 else 0 }

  lemma CountAfter(waits: map<Tid, Wait>, t: Tid, w: Wait, woken: bool)
    requires t in waits
    ensures Count(waits[t := w], woken) == Count(waits, woken) + One(Is(w, woken)) - One(Is(waits[t], woken))
    ensures Is(waits[t], woken) ==> Count(waits, woken) > 0
  {
    var a := Those(waits, woken);
    assert Those(waits[t := w], woken) == if Is(w, woken) then a + {t} else a - {t};
    assert t in a <==> Is(waits[t], woken);
  }

  lemma NobodyParked(waits: map<Tid, Wait>)
    ensures Count(NotifyAll(waits), false) == 0
  {
    assert Those(NotifyAll(waits), false) == {};
  }

  // No wakeup is lost by any step but that one, and by that one always.
  lemma WakeupIsLostExactly(s: Queue, a: WaitStep)
    requires Sound(s) && CanStep(s, a)
    ensures Sound(After(s, a)) <==> !Loses(s, a)
  {
    hide Count;
    match a
    case Enter(t, opens) => LookCounts(s, t, After(s, a).waits[t]);
    case Recheck(t, opens) => LookCounts(s, t, After(s, a).waits[t]);
    case WakeSpuriously(t) => LookCounts(s, t, Woken(false));
    case Expire(t) => LookCounts(s, t, Woken(true));
    case Return(_, _, wake) =>
      NobodyParked(s.waits);
      if wake in s.waits { LookCounts(s, wake, Woken(false)); }
    case ShutDown => NobodyParked(s.waits);
  }

  lemma LookCounts(s: Queue, t: Tid, w: Wait)
    requires t in s.waits
    ensures forall woken ::
              Count(s.waits[t := w], woken) == Count(s.waits, woken) + One(Is(w, woken)) - One(Is(s.waits[t], woken))
    ensures forall woken :: Is(s.waits[t], woken) ==> Count(s.waits, woken) > 0
  {
    forall woken { CountAfter(s.waits, t, w, woken); }
  }

  ghost predicate Walk(s: Queue, run: seq<WaitStep>)
    decreases |run|
  {
    run == [] || (CanStep(s, run[0]) && !Loses(s, run[0]) && Walk(After(s, run[0]), run[1..]))
  }

  ghost function Walked(s: Queue, run: seq<WaitStep>): Queue
    requires Walk(s, run)
    decreases |run|
  {
    if run == [] then s else Walked(After(s, run[0]), run[1..])
  }

  lemma {:induction false} WalkKeepsSound(s: Queue, run: seq<WaitStep>)
    requires Sound(s) && Walk(s, run)
    ensures Sound(Walked(s, run)) && Walked(s, run).p.max == s.p.max
    decreases |run|
  {
    hide Sound, Loses;
    if run == [] {
    } else {
      WakeupIsLostExactly(s, run[0]);
      WalkKeepsSound(After(s, run[0]), run[1..]);
    }
  }

  function InitQueue(max: nat, tids: set<Tid>): Queue {
    Queue(Fields([], 0, 0, false, max), map t | t in tids :: Outside, 0)
  }

  // In any run without such a failure: when nobody is on its way, whoever is parked waits for an open pool whose
  // connections are all in use.
  lemma ParkedForAReason(max: nat, tids: set<Tid>, run: seq<WaitStep>)
    requires Walk(InitQueue(max, tids), run)
    ensures var s := Walked(InitQueue(max, tids), run);
            && (Count(s.waits, false) > 0 ==> !s.p.shutdown && max - s.p.active <= Count(s.waits, true))
            && (Count(s.waits, false) > 0 && Count(s.waits, true) == 0 ==> s.p.active == max && s.p.connections == [])
  {
    var s := InitQueue(max, tids);
    assert Those(s.waits, false) == {};
    WalkKeepsSound(s, run);
  }

  // One connection is allowed and in use, two threads are parked, the connection comes back dead, and the thread woken
  // cannot open another: the second one stays parked beside an empty pool.
  lemma LeftParked(a: Tid, b: Tid, c: Tid)
    requires a != b && b != c && c != a
    ensures var run := [Enter(c, true), Enter(a, true), Enter(b, true), Return(Some(0), false, a)];
            && Walk(InitQueue(1, {a, b, c}), run)
            && var s := Walked(InitQueue(1, {a, b, c}), run);
               && CanStep(s, Recheck(a, false)) && Loses(s, Recheck(a, false))
               && var s' := After(s, Recheck(a, false));
                  && s'.p == Fields([], 0, 0, false, 1) && s'.waits == map[a := Outside, b := Parked, c := Outside]
  {
    Crowd(a, b, c);
    LoneWakeup(a, b, c);
    var s0, s3, last := InitQueue(1, {a, b, c}), Crowded(a, b, c), Return(Some(0), false, a);
    var s1 := After(s0, Enter(c, true));
    var s2 := After(s1, Enter(a, true));
    hide After, Loses, CanStep, InitQueue, Crowded;
    assert Walk(After(s3, last), []) && [last] + [] == [last];
    OneMore(s3, last, []);
    OneMore(s2, Enter(b, true), [last]);
    OneMore(s1, Enter(a, true), [Enter(b, true), last]);
    OneMore(s0, Enter(c, true), [Enter(a, true), Enter(b, true), last]);
    assert [Enter(c, true)] + [Enter(a, true), Enter(b, true), last] ==
           [Enter(c, true), Enter(a, true), Enter(b, true), last];
    assert [Enter(a, true)] + [Enter(b, true), last] == [Enter(a, true), Enter(b, true), last];
    assert [Enter(b, true)] + [last] == [Enter(b, true), last];
  }

  function Crowded(a: Tid, b: Tid, c: Tid): Queue {
    Queue(Fields([], 1, 0, false, 1), map[a := Parked, b := Parked, c := Outside], 1)
  }

  lemma Crowd(a: Tid, b: Tid, c: Tid)
    requires a != b && b != c && c != a
    ensures var s0 := InitQueue(1, {a, b, c});
            && CanStep(s0, Enter(c, true)) && !Loses(s0, Enter(c, true))
            && var s1 := After(s0, Enter(c, true));
               && CanStep(s1, Enter(a, true)) && !Loses(s1, Enter(a, true))
               && var s2 := After(s1, Enter(a, true));
                  && CanStep(s2, Enter(b, true)) && !Loses(s2, Enter(b, true))
                  && After(s2, Enter(b, true)) == Crowded(a, b, c)
  {
    hide Count;
    var s0 := InitQueue(1, {a, b, c});
    assert s0.waits == map[a := Outside, b := Outside, c := Outside];
  }

  lemma LoneWakeup(a: Tid, b: Tid, c: Tid)
    requires a != b && b != c && c != a
    ensures var s, last := Crowded(a, b, c), Return(Some(0), false, a);
            && CanStep(s, last) && !Loses(s, last)
            && var s' := After(s, last);
               && CanStep(s', Recheck(a, false)) && Loses(s', Recheck(a, false))
               && After(s', Recheck(a, false)).p == Fields([], 0, 0, false, 1)
               && After(s', Recheck(a, false)).waits == map[a := Outside, b := Parked, c := Outside]
  {
    var s := Crowded(a, b, c);
    var s' := After(s, Return(Some(0), false, a));
    assert s'.waits == map[a := Woken(false), b := Parked, c := Outside] && s'.p == Fields([], 0, 0, false, 1);
    assert Those(s'.waits, false) == {b} && Those(s'.waits, true) == {a};
  }

  lemma OneMore(s: Queue, a: WaitStep, rest: seq<WaitStep>)
    requires CanStep(s, a) && !Loses(s, a) && Walk(After(s, a), rest)
    ensures Walk(s, [a] + rest) && Walked(s, [a] + rest) == Walked(After(s, a), rest)
  {
    assert ([a] + rest)[1..] == rest;
  }
}
