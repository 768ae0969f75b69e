/**
  The bounded blocking queue of stp/UnbMpMcTemplateQueue.hpp with its deque container.  Each section run with the
  mutex held is one step, and so is each notification made after unlocking.  A condition variable is the set of
  threads parked on it; a thread that has been woken still has to get the mutex back before it looks again.
 */
module BlockingQueue {
  import opened Common

  type Tid = nat

  datatype PutCode = Accepted | Closed | Full | TimedOut
  datatype PutMode = Try | Wait | WaitFor
  datatype TakeResult<T> = Item(x: T) | Timeout | QueueClosed

  // What the mutex protects.  `max` is m_maxQueueSize; 0 is unbounded.
  datatype Core<T> = Core(open: bool, max: nat, buffer: seq<T>)

  datatype Loc<T> =
    | Outside
    | PutParked(x: T, timed: bool)                   // in m_notFull.wait
    | PutWoken(x: T, timed: bool, expired: bool)     // out of the wait, without the mutex
    | PutDone(x: T, code: PutCode)
    | TakeParked                                     // in m_notEmptyQueue.wait_for
    | TakeWoken(expired: bool)
    | TakeUnlocked(x: T)                             // has the item, m_notFull.notify_one still to come
    | TakeDone(r: TakeResult<T>)
    | CloseUnlocked                                  // both notify_all still to come
    | CloseHalf                                      // m_notFull.notify_all still to come

  // `accepted` and `taken` are histories that no step reads.
  datatype State<T> = State(q: Core<T>, locs: map<Tid, Loc<T>>, accepted: seq<T>, taken: seq<T>)

  // `wake` is the thread that notify_one picks, when any thread is parked there.
  datatype Action<T> =
    | Put(t: Tid, x: T, mode: PutMode, wake: Tid)
    | Take(t: Tid)
    | Relock(t: Tid, wake: Tid)
    | WakeSpuriously(t: Tid)
    | Expire(t: Tid)
    | NotifyNotFull(t: Tid, wake: Tid)
    | Close(t: Tid)
    | NotifyAllNotEmpty(t: Tid)
    | NotifyAllNotFull(t: Tid)
    | Return(t: Tid)

  function Init<T>(max: nat, tids: set<Tid>): State<T> {
    State(Core(true, max, []), map t | t in tids :: Outside, [], [])
  }

  // What a thread is doing as far as the condition variables are concerned.
  datatype Role = ParkedPut | WokenPut | Notifying | ParkedTake | WokenTake | ClosingEarly | ClosingLate | Elsewhere

  function RoleOf<T>(loc: Loc<T>): Role {
    match loc
    case PutParked(_, _) => ParkedPut
    case PutWoken(_, _, _) => WokenPut
    case TakeUnlocked(_) => Notifying
    case TakeParked => ParkedTake
    case TakeWoken(_) => WokenTake
    case CloseUnlocked => ClosingEarly
    case CloseHalf => ClosingLate
    case _ => Elsewhere
  }

  function Roles<T>(locs: map<Tid, Loc<T>>): map<Tid, Role> { map t | t in locs :: RoleOf(locs[t]) }

  function Those(roles: map<Tid, Role>, r: Role): set<Tid> { set t | t in roles && roles[t] == r }

  function Count(roles: map<Tid, Role>, r: Role): nat { |Those(roles, r)| }

  function N<T>(s: State<T>, r: Role): nat { Count(Roles(s.locs), r) }

  // ---- Sections ---------------------------------------------------------------------------------------------------

  predicate HasRoom<T>(q: Core<T>) { q.max == 0 || |q.buffer| + 1 <= q.max }

  // The predicates of the two waits.
  predicate PutMayGo<T>(q: Core<T>) { !q.open || |q.buffer| < q.max }
  predicate TakeMayGo<T>(q: Core<T>) { !q.open || |q.buffer| > 0 }

  // How a section ends: the call returns, the thread waits, or (for a take) it leaves with an item.
  datatype PutOutcome = PutReturns(code: PutCode) | PutParks
  datatype TakeOutcome<T> = Takes(x: T) | TakeReturns(r: TakeResult<T>) | TakeParks

  // put, put_wait and put_wait_for, from the first lock to the return or the wait.
  function EnterPut<T>(q: Core<T>, x: T, mode: PutMode): (Core<T>, PutOutcome) {
    if !q.open then (q, PutReturns(Closed))
    else if HasRoom(q) then (q.(buffer := q.buffer + [x]), PutReturns(Accepted))
    else (q, if mode == Try then PutReturns(Full) else PutParks)
  }

  // The same from the end of the wait on; `expired` says that the deadline has passed.
  function RecheckPut<T>(q: Core<T>, x: T, expired: bool): (Core<T>, PutOutcome) {
    if !PutMayGo(q) then (q, if expired then PutReturns(TimedOut) else PutParks)
    else if !q.open then (q, PutReturns(Closed))
    else (q.(buffer := q.buffer + [x]), PutReturns(Accepted))
  }

  function EnterTake<T>(q: Core<T>): (Core<T>, TakeOutcome<T>) {
    if |q.buffer| > 0 then (q.(buffer := q.buffer[1..]), Takes(q.buffer[0]))
    else if TakeMayGo(q) then (q, TakeReturns(QueueClosed))
    else (q, TakeParks)
  }

  function RecheckTake<T>(q: Core<T>, expired: bool): (Core<T>, TakeOutcome<T>) {
    if !TakeMayGo(q) then (q, if expired then TakeReturns(Timeout) else TakeParks)
    else if |q.buffer| == 0 then (q, TakeReturns(QueueClosed))
    else (q.(buffer := q.buffer[1..]), Takes(q.buffer[0]))
  }

  // The object: a method for each section run with the mutex held.
  class UnbQueue<T> {
    var open: bool
    var max: nat
    var buffer: seq<T>

    function Protected(): Core<T>
      reads this
    {
      Core(open, max, buffer)
    }

    constructor (max: nat)
      ensures Protected() == Core(true, max, [])
    {
      open, buffer := true, [];
      this.max := max;
    }

    method PutSection(x: T, mode: PutMode) returns (o: PutOutcome)
      modifies this
      ensures (Protected(), o) == EnterPut(old(Protected()), x, mode)
      ensures var room := max == 0 || |old(buffer)| < max;
              && open == old(open) && max == old(max)
              && buffer == (if open && room then old(buffer) + [x] else old(buffer))
              && (o == PutReturns(Closed) <==> !open) && (o == PutReturns(Accepted) <==> open && room)
              && (o == PutReturns(Full) <==> open && !room && mode == Try)
              && (o == PutParks <==> open && !room && mode != Try)
    {
      if !open { return PutReturns(Closed); }
      if |buffer| + 1 > max && max != 0 {
        if mode == Try { return PutReturns(Full); }
        return PutParks;
      }
      buffer := buffer + [x];
      return PutReturns(Accepted);
    }

    method PutAfterWait(x: T, expired: bool) returns (o: PutOutcome)
      modifies this
      ensures (Protected(), o) == RecheckPut(old(Protected()), x, expired)
      ensures var room := |old(buffer)| < max;
              && open == old(open) && max == old(max)
              && buffer == (if open && room then old(buffer) + [x] else old(buffer))
              && (o == PutReturns(Closed) <==> !open) && (o == PutReturns(Accepted) <==> open && room)
              && (o == PutReturns(TimedOut) <==> open && !room && expired)
              && (o == PutParks <==> open && !room && !expired)
    {
      if open && !(|buffer| < max) {
        if expired { return PutReturns(TimedOut); }
        return PutParks;
      }
      if !open { return PutReturns(Closed); }
      buffer := buffer + [x];
      return PutReturns(Accepted);
    }

    method TakeSection() returns (o: TakeOutcome<T>)
      modifies this
      ensures (Protected(), o) == EnterTake(old(Protected()))
      ensures open == old(open) && max == old(max)
      ensures old(buffer) != [] ==> o == Takes(old(buffer)[0]) && buffer == old(buffer)[1..]
      ensures old(buffer) == [] ==> buffer == [] && o == if open then TakeParks else TakeReturns(QueueClosed)
    {
      if |buffer| > 0 {
        o := Takes(buffer[0]);
        buffer := buffer[1..];
        return;
      }
      if !open { return TakeReturns(QueueClosed); }
      return TakeParks;
    }

    method TakeAfterWait(expired: bool) returns (o: TakeOutcome<T>)
      modifies this
      ensures (Protected(), o) == RecheckTake(old(Protected()), expired)
      ensures open == old(open) && max == old(max)
      ensures old(buffer) != [] ==> o == Takes(old(buffer)[0]) && buffer == old(buffer)[1..]
      ensures old(buffer) == [] ==>
                && buffer == []
                && o == if !open then TakeReturns(QueueClosed) else if expired then TakeReturns(Timeout) else TakeParks
    {
      if open && |buffer| == 0 {
        if expired { return TakeReturns(Timeout); }
        return TakeParks;
      }
      if |buffer| == 0 { return TakeReturns(QueueClosed); }
      o := Takes(buffer[0]);
      buffer := buffer[1..];
    }

    method CloseSection()
      modifies this
      ensures Protected() == old(Protected()).(open := false)
    {
      open := false;
    }
  }

  // ---- Steps ------------------------------------------------------------------------------------------------------

  function WakeTaker<T>(locs: map<Tid, Loc<T>>, wake: Tid): map<Tid, Loc<T>> {
    if wake in locs && locs[wake].TakeParked? then locs[wake := TakeWoken(false)] else locs
  }

  function WakePutter<T>(locs: map<Tid, Loc<T>>, wake: Tid): map<Tid, Loc<T>> {
    if wake in locs && locs[wake].PutParked? then locs[wake := PutWoken(locs[wake].x, locs[wake].timed, false)]
    else locs
  }

  function Push<T>(s: State<T>, t: Tid, x: T, wake: Tid): State<T> {
    State(s.q.(buffer := s.q.buffer + [x]), WakeTaker(s.locs[t := PutDone(x, Accepted)], wake),
          s.accepted + [x], s.taken)
  }

  function Pop<T>(s: State<T>, t: Tid): State<T>
    requires |s.q.buffer| > 0
  {
    State(s.q.(buffer := s.q.buffer[1..]), s.locs[t := TakeUnlocked(s.q.buffer[0])],
          s.accepted, s.taken + [s.q.buffer[0]])
  }

  function At<T>(s: State<T>, t: Tid, loc: Loc<T>): State<T> { s.(locs := s.locs[t := loc]) }

  function AfterPut<T>(s: State<T>, t: Tid, x: T, timed: bool, wake: Tid, o: PutOutcome): State<T> {
    match o
    case PutParks => At(s, t, PutParked(x, timed))
    case PutReturns(code) => if code == Accepted then Push(s, t, x, wake) else At(s, t, PutDone(x, code))
  }

  function AfterTake<T>(s: State<T>, t: Tid, o: TakeOutcome<T>): State<T>
    requires o.Takes? ==> |s.q.buffer| > 0
  {
    match o
    case Takes(_) => Pop(s, t)
    case TakeReturns(r) => At(s, t, TakeDone(r))
    case TakeParks => At(s, t, TakeParked)
  }

  // notify_one wakes some parked thread if there is one.
  predicate Picks<T>(s: State<T>, r: Role, wake: Tid) {
    N(s, r) > 0 ==> wake in s.locs && RoleOf(s.locs[wake]) == r
  }

  predicate Enabled<T>(s: State<T>, a: Action<T>) {
    a.t in s.locs &&
    var loc := s.locs[a.t];
    match a
    case Put(_, _, _, wake) => loc.Outside? && Picks(s, ParkedTake, wake)
    case Take(_) => loc.Outside?
    case Relock(_, wake) =>
      (loc.PutWoken? && Picks(s, ParkedTake, wake)) || loc.TakeWoken?
    case WakeSpuriously(_) => loc.PutParked? || loc.TakeParked?
    case Expire(_) => (loc.PutParked? && loc.timed) || loc.TakeParked?
    case NotifyNotFull(_, wake) => loc.TakeUnlocked? && Picks(s, ParkedPut, wake)
    case Close(_) => loc.Outside?
    case NotifyAllNotEmpty(_) => loc.CloseUnlocked?
    case NotifyAllNotFull(_) => loc.CloseHalf?
    case Return(_) => loc.PutDone? || loc.TakeDone?
  }

  function Next<T>(s: State<T>, a: Action<T>): State<T>
    requires Enabled(s, a)
  {
    var loc := s.locs[a.t];
    match a
    case Put(t, x, mode, wake) => AfterPut(s, t, x, mode == WaitFor, wake, EnterPut(s.q, x, mode).1)
    case Take(t) => AfterTake(s, t, EnterTake(s.q).1)
    case Relock(t, wake) =>
      if loc.PutWoken? then AfterPut(s, t, loc.x, loc.timed, wake, RecheckPut(s.q, loc.x, loc.expired).1)
      else AfterTake(s, t, RecheckTake(s.q, loc.expired).1)
    case WakeSpuriously(t) => At(s, t, if loc.PutParked? then PutWoken(loc.x, loc.timed, false) else TakeWoken(false))
    case Expire(t) => At(s, t, if loc.PutParked? then PutWoken(loc.x, loc.timed, true) else TakeWoken(true))
    case NotifyNotFull(t, wake) => s.(locs := WakePutter(s.locs[t := TakeDone(Item(loc.x))], wake))
    case Close(t) => At(s.(q := s.q.(open := false)), t, CloseUnlocked)
    case NotifyAllNotEmpty(t) =>
      s.(locs := map u | u in s.locs ::
           if u == t then CloseHalf else if s.locs[u].TakeParked? then TakeWoken(false) else s.locs[u])
    case NotifyAllNotFull(t) =>
      s.(locs := map u | u in s.locs ::
           if u == t then Outside
           else if s.locs[u].PutParked? then PutWoken(s.locs[u].x, s.locs[u].timed, false) else s.locs[u])
    case Return(t) => At(s, t, Outside)
  }

  // ---- Invariants -------------------------------------------------------------------------------------------------

  // The items taken are the first ones accepted, the buffer is exactly the rest, and the bound is kept.
  ghost predicate InOrder<T>(s: State<T>) {
    s.accepted == s.taken + s.q.buffer && (s.q.max > 0 ==> |s.q.buffer| <= s.q.max)
  }

  // Every free slot that a parked putter could use is promised to a thread on its way.
  ghost predicate PuttersServed<T>(s: State<T>) {
    && (N(s, ParkedPut) + N(s, WokenPut) > 0 ==> s.q.max > 0)
    && (N(s, ParkedPut) > 0 && s.q.open ==> s.q.max - |s.q.buffer| <= N(s, WokenPut) + N(s, Notifying))
    && (N(s, ParkedPut) > 0 && !s.q.open ==> N(s, ClosingEarly) + N(s, ClosingLate) > 0)
  }

  ghost predicate TakersServed<T>(s: State<T>) {
    && (N(s, ParkedTake) > 0 ==> |s.q.buffer| <= N(s, WokenTake))
    && (N(s, ParkedTake) > 0 && !s.q.open ==> N(s, ClosingEarly) > 0)
  }

  ghost predicate Inv<T>(s: State<T>) { InOrder(s) && PuttersServed(s) && TakersServed(s) }

  // ---- One step ---------------------------------------------------------------------------------------------------

  function One(b: bool): int { if b then 1 else 0 }

  lemma CountAfter(roles: map<Tid, Role>, t: Tid, to: Role, r: Role)
    requires t in roles
    ensures Count(roles[t := to], r) == Count(roles, r) + One(to == r) - One(roles[t] == r)
  {
    var a := Those(roles, r);
    assert Those(roles[t := to], r) == if to == r then a + {t} else a - {t};
  }

  // One thread moves: every count changes by at most one.
  lemma Moves<T>(locs: map<Tid, Loc<T>>, t: Tid, loc: Loc<T>)
    requires t in locs
    ensures forall r :: Count(Roles(locs[t := loc]), r)
                        == Count(Roles(locs), r) + One(RoleOf(loc) == r) - One(RoleOf(locs[t]) == r)
  {
    assert Roles(locs[t := loc]) == Roles(locs)[t := RoleOf(loc)];
    forall r { CountAfter(Roles(locs), t, RoleOf(loc), r); }
  }

  lemma Present<T>(s: State<T>, t: Tid)
    requires t in s.locs
    ensures N(s, RoleOf(s.locs[t])) > 0
  {
    assert t in Those(Roles(s.locs), RoleOf(s.locs[t]));
  }

  lemma PushKeeps<T>(s: State<T>, t: Tid, x: T, wake: Tid)
    requires Inv(s) && t in s.locs && (s.locs[t].Outside? || s.locs[t].PutWoken?) && s.q.open && HasRoom(s.q)
    requires Picks(s, ParkedTake, wake)
    ensures Inv(Push(s, t, x, wake))
  {
    hide Count, Roles;
    var locs := s.locs[t := PutDone(x, Accepted)];
    Moves(s.locs, t, PutDone(x, Accepted));
    if wake in locs && locs[wake].TakeParked? { Moves(locs, wake, TakeWoken(false)); }
  }

  lemma PopKeeps<T>(s: State<T>, t: Tid)
    requires Inv(s) && t in s.locs && (s.locs[t].Outside? || s.locs[t].TakeWoken?) && s.q.buffer != []
    ensures Inv(Pop(s, t))
  {
    hide Count, Roles;
    Moves(s.locs, t, TakeUnlocked(s.q.buffer[0]));
  }

  lemma NotifyKeeps<T>(s: State<T>, a: Action<T>)
    requires Inv(s) && Enabled(s, a) && a.NotifyNotFull?
    ensures Inv(Next(s, a))
  {
    hide Count, Roles;
    var locs := s.locs[a.t := TakeDone(Item(s.locs[a.t].x))];
    Moves(s.locs, a.t, locs[a.t]);
    if a.wake in locs && locs[a.wake].PutParked? {
      Moves(locs, a.wake, PutWoken(locs[a.wake].x, locs[a.wake].timed, false));
    }
  }

  lemma NotifyTakersKeeps<T>(s: State<T>, a: Action<T>)
    requires Inv(s) && Enabled(s, a) && a.NotifyAllNotEmpty?
    ensures Inv(Next(s, a)) && N(Next(s, a), ParkedTake) == 0
  {
    hide N, WakeTaker, WakePutter;
    var s' := Next(s, a);
    SameCount(s, s', ParkedPut);
    SameCount(s, s', WokenPut);
    SameCount(s, s', Notifying);
    Present(s', a.t);
    Emptied(s', ParkedTake);
  }

  lemma NotifyPuttersKeeps<T>(s: State<T>, a: Action<T>)
    requires Inv(s) && Enabled(s, a) && a.NotifyAllNotFull?
    ensures Inv(Next(s, a)) && N(Next(s, a), ParkedPut) == 0
  {
    hide N, WakeTaker, WakePutter;
    var s' := Next(s, a);
    SameCount(s, s', ParkedTake);
    SameCount(s, s', WokenTake);
    SameCount(s, s', ClosingEarly);
    if N(s', WokenPut) > 0 { WokenCameFromParked(s, s'); }
    Emptied(s', ParkedPut);
  }

  // A thread in a given role, if there is one.
  lemma SomeParked<T>(s: State<T>, r: Role) returns (t: Tid)
    ensures Picks(s, r, t)
  {
    if N(s, r) > 0 { t :| t in Those(Roles(s.locs), r); } else { t := 0; }
  }

  lemma SameCount<T>(s: State<T>, s': State<T>, r: Role)
    requires s.locs.Keys == s'.locs.Keys
    requires forall t :: t in s.locs ==> (RoleOf(s.locs[t]) == r <==> RoleOf(s'.locs[t]) == r)
    ensures N(s', r) == N(s, r)
  {
    assert Those(Roles(s'.locs), r) == Those(Roles(s.locs), r);
  }

  lemma WokenCameFromParked<T>(s: State<T>, s': State<T>)
    requires N(s', WokenPut) > 0 && s'.locs.Keys == s.locs.Keys
    requires forall t :: t in s.locs && s'.locs[t].PutWoken? ==> s.locs[t].PutParked? || s.locs[t].PutWoken?
    ensures N(s, ParkedPut) + N(s, WokenPut) > 0
  {
    var t :| t in Those(Roles(s'.locs), WokenPut);
    Present(s, t);
  }

  lemma Emptied<T>(s: State<T>, r: Role)
    requires forall t :: t in s.locs ==> RoleOf(s.locs[t]) != r
    ensures N(s, r) == 0
  {
    assert Those(Roles(s.locs), r) == {};
  }

  // A thread that neither pushes nor pops and wakes nobody.
  lemma SoloKeeps<T>(s: State<T>, t: Tid, open: bool, loc: Loc<T>)
    requires Inv(s) && t in s.locs && (!open ==> s.q.open ==> loc.CloseUnlocked?) && (open ==> s.q.open)
    requires loc.PutParked? ==> open && !HasRoom(s.q)
    requires loc.TakeParked? ==> open && s.q.buffer == []
    requires s.locs[t].PutWoken? ==> !open || !HasRoom(s.q)
    requires s.locs[t].TakeWoken? ==> s.q.buffer == []
    requires loc.PutWoken? ==> s.locs[t].PutParked?
    requires !s.locs[t].TakeUnlocked? && !s.locs[t].CloseUnlocked? && !s.locs[t].CloseHalf?
    ensures Inv(At(s.(q := s.q.(open := open)), t, loc))
  {
    hide Count, Roles;
    Present(s, t);
    Moves(s.locs, t, loc);
    var s' := At(s.(q := s.q.(open := open)), t, loc);
    Present(s', t);
  }

  lemma RelockKeeps<T>(s: State<T>, a: Action<T>)
    requires Inv(s) && Enabled(s, a) && a.Relock?
    ensures Inv(Next(s, a))
  {
    hide Count, Roles;
    Present(s, a.t);
    var loc := s.locs[a.t];
    if loc.PutWoken? && s.q.open && PutMayGo(s.q) {
      PushKeeps(s, a.t, loc.x, a.wake);
    } else if loc.TakeWoken? && s.q.buffer != [] {
      PopKeeps(s, a.t);
    } else {
      SoloKeeps(s, a.t, s.q.open, Next(s, a).locs[a.t]);
    }
  }

  lemma NextKeepsInv<T>(s: State<T>, a: Action<T>)
    requires Inv(s) && Enabled(s, a)
    ensures Inv(Next(s, a))
  {
    hide N, Inv;
    match a
    case Put(t, x, _, wake) =>
      if s.q.open && HasRoom(s.q) { PushKeeps(s, t, x, wake); } else { SoloKeeps(s, t, s.q.open, Next(s, a).locs[t]); }
    case Take(t) =>
      if s.q.buffer != [] { PopKeeps(s, t); } else { SoloKeeps(s, t, s.q.open, Next(s, a).locs[t]); }
    case Relock(_, _) => RelockKeeps(s, a);
    case NotifyNotFull(_, _) => NotifyKeeps(s, a);
    case NotifyAllNotEmpty(_) => NotifyTakersKeeps(s, a);
    case NotifyAllNotFull(_) => NotifyPuttersKeeps(s, a);
    case Close(t) => SoloKeeps(s, t, false, CloseUnlocked);
    case _ => SoloKeeps(s, a.t, s.q.open, Next(s, a).locs[a.t]);
  }

  // ---- Whole runs -------------------------------------------------------------------------------------------------

  ghost predicate Feasible<T>(s: State<T>, run: seq<Action<T>>)
    decreases |run|
  {
    run == [] || (Enabled(s, run[0]) && Feasible(Next(s, run[0]), run[1..]))
  }

  ghost function Exec<T>(s: State<T>, run: seq<Action<T>>): State<T>
    requires Feasible(s, run)
    decreases |run|
  {
    if run == [] then s else Exec(Next(s, run[0]), run[1..])
  }

  lemma {:induction false} RunKeepsInv<T>(s: State<T>, run: seq<Action<T>>)
    requires Inv(s) && Feasible(s, run)
    ensures Inv(Exec(s, run)) && Exec(s, run).q.max == s.q.max
    decreases |run|
  {
    if run == [] {
    } else {
      NextKeepsInv(s, run[0]);
      RunKeepsInv(Next(s, run[0]), run[1..]);
    }
  }

  lemma InitIsFine<T>(max: nat, tids: set<Tid>)
    ensures Inv(Init<T>(max, tids))
  {
    var s := Init<T>(max, tids);
    Emptied(s, ParkedPut);
    Emptied(s, WokenPut);
    Emptied(s, ParkedTake);
  }

  // In every run the items taken are a prefix of those accepted, the rest are the buffer, and the bound holds.
  lemma EveryRunIsInOrder<T>(max: nat, tids: set<Tid>, run: seq<Action<T>>)
    requires Feasible(Init<T>(max, tids), run)
    ensures var s := Exec(Init<T>(max, tids), run);
            s.taken <= s.accepted && s.q.buffer == s.accepted[|s.taken|..] && (max > 0 ==> |s.q.buffer| <= max)
  {
    InitIsFine<T>(max, tids);
    RunKeepsInv(Init<T>(max, tids), run);
  }

  // No wakeup is lost, in any interleaving, spurious wakeups and timeouts included.
  lemma NoLostWakeup<T>(max: nat, tids: set<Tid>, run: seq<Action<T>>)
    requires Feasible(Init<T>(max, tids), run)
    ensures var s := Exec(Init<T>(max, tids), run);
            && (N(s, ParkedPut) > 0 && s.q.open ==> max > 0 && max - |s.q.buffer| <= N(s, WokenPut) + N(s, Notifying))
            && (N(s, ParkedTake) > 0 ==> |s.q.buffer| <= N(s, WokenTake))
  {
    InitIsFine<T>(max, tids);
    RunKeepsInv(Init<T>(max, tids), run);
  }

  // Nobody is on its way: whoever is still parked is parked for a reason, and putters and takers never starve each
  // other.
  lemma QuietMeansJustified<T>(max: nat, tids: set<Tid>, run: seq<Action<T>>)
    requires Feasible(Init<T>(max, tids), run)
    requires var s := Exec(Init<T>(max, tids), run);
             forall r :: r in {WokenPut, WokenTake, Notifying, ClosingEarly, ClosingLate} ==> N(s, r) == 0
    ensures var s := Exec(Init<T>(max, tids), run);
            && (N(s, ParkedPut) > 0 ==> s.q.open && max > 0 && |s.q.buffer| == max)
            && (N(s, ParkedTake) > 0 ==> s.q.open && s.q.buffer == [])
            && (N(s, ParkedPut) == 0 || N(s, ParkedTake) == 0)
  {
    InitIsFine<T>(max, tids);
    RunKeepsInv(Init<T>(max, tids), run);
    var s := Exec(Init<T>(max, tids), run);
    assert forall r :: r in {WokenPut, WokenTake, Notifying, ClosingEarly, ClosingLate} ==> N(s, r) == 0;
    assert N(s, WokenPut) == N(s, WokenTake) == N(s, Notifying) == N(s, ClosingEarly) == N(s, ClosingLate) == 0;
  }

  lemma ClosedStep<T>(s: State<T>, a: Action<T>)
    requires Enabled(s, a) && !s.q.open
    ensures var s' := Next(s, a);
            && !s'.q.open && s'.accepted == s.accepted && s'.locs.Keys == s.locs.Keys
            && (forall t :: t in s'.locs && Lingers(s'.locs[t]) ==> s'.locs[t] == s.locs[t])
  {
  }

  // Parked, or back from a take that ran out of time.
  predicate Lingers<T>(loc: Loc<T>) { loc.PutParked? || loc.TakeParked? || loc == TakeDone(Timeout) }

  // Whatever follows a close: nothing more is accepted, the items left are handed out in order, and whoever is parked
  // or has timed out had done so before the close and not moved since.
  lemma {:induction false} AfterClose<T>(s: State<T>, run: seq<Action<T>>)
    requires Inv(s) && Feasible(s, run) && !s.q.open
    ensures var s' := Exec(s, run);
            && !s'.q.open && s'.accepted == s.accepted && s.taken <= s'.taken
            && s.q.buffer == s'.taken[|s.taken|..] + s'.q.buffer
            && s'.locs.Keys == s.locs.Keys
            && (forall t :: t in s'.locs && Lingers(s'.locs[t]) ==> s'.locs[t] == s.locs[t])
    decreases |run|
  {
    hide PuttersServed, TakersServed, Enabled, Lingers, Next;
    if run == [] {
      assert s.taken[|s.taken|..] == [];
    } else {
      NextKeepsInv(s, run[0]);
      ClosedStep(s, run[0]);
      TakenGrows(s, run[0]);
      AfterClose(Next(s, run[0]), run[1..]);
      RunKeepsInv(s, run);
      HandedOut(s.taken, s.q.buffer, Exec(s, run).taken, Exec(s, run).q.buffer);
    }
  }

  lemma HandedOut<T>(taken: seq<T>, buffer: seq<T>, taken': seq<T>, buffer': seq<T>)
    requires taken + buffer == taken' + buffer' && |taken| <= |taken'|
    ensures taken <= taken' && buffer == taken'[|taken|..] + buffer'
  {
    var all := taken + buffer;
    assert taken == all[..|taken|] && taken' == all[..|taken'|] && buffer == all[|taken|..];
    assert buffer' == all[|taken'|..];
  }

  lemma TakenGrows<T>(s: State<T>, a: Action<T>)
    requires Enabled(s, a)
    ensures s.taken <= Next(s, a).taken
  {
  }

  // What a put section ends with, in terms of the queue it finds: every outcome exactly when it should.
  lemma PutEndsExactly<T>(s: State<T>, a: Action<T>)
    requires Enabled(s, a) && (a.Put? || (a.Relock? && s.locs[a.t].PutWoken?)) && PuttersServed(s)
    ensures var q, s' := s.q, Next(s, a);
            var loc, x := s'.locs[a.t], if a.Put? then a.x else s.locs[a.t].x;
            var room, expired := q.max == 0 || |q.buffer| < q.max, a.Relock? && s.locs[a.t].expired;
            && (loc == PutDone(x, Accepted) <==> q.open && room)
            && (loc == PutDone(x, Closed) <==> !q.open)
            && (loc == PutDone(x, Full) <==> q.open && !room && a.Put? && a.mode == Try)
            && (loc == PutDone(x, TimedOut) <==> q.open && !room && expired)
            && (loc.PutParked? <==> q.open && !room && !expired && (a.Put? ==> a.mode != Try))
            && (loc.PutParked? ==> loc == PutParked(x, if a.Put? then a.mode == WaitFor else s.locs[a.t].timed))
            && s'.q == (if q.open && room then q.(buffer := q.buffer + [x]) else q)
            && s'.accepted == (if q.open && room then s.accepted + [x] else s.accepted) && s'.taken == s.taken
  {
    if a.Relock? { Present(s, a.t); }
  }

  // The same for a take.
  lemma TakeEndsExactly<T>(s: State<T>, a: Action<T>)
    requires Enabled(s, a) && (a.Take? || (a.Relock? && s.locs[a.t].TakeWoken?))
    ensures var q, s' := s.q, Next(s, a);
            var loc, expired := s'.locs[a.t], a.Relock? && s.locs[a.t].expired;
            && (loc.TakeUnlocked? <==> q.buffer != [])
            && (loc == TakeDone(QueueClosed) <==> q.buffer == [] && !q.open)
            && (loc == TakeDone(Timeout) <==> q.buffer == [] && q.open && expired)
            && (loc == TakeParked <==> q.buffer == [] && q.open && !expired)
            && s'.accepted == s.accepted && s'.q.open == q.open && s'.q.max == q.max
            && if q.buffer == [] then s'.q == q && s'.taken == s.taken
               else loc == TakeUnlocked(q.buffer[0]) && s'.q.buffer == q.buffer[1..]
                    && s'.taken == s.taken + [q.buffer[0]]
  {
  }

  // What a call returns is what its section found: nobody else changes it, and a take passes its item on.
  lemma ResultStays<T>(s: State<T>, a: Action<T>, t: Tid)
    requires Enabled(s, a) && t in s.locs && (s.locs[t].PutDone? || s.locs[t].TakeDone? || s.locs[t].TakeUnlocked?)
    ensures a.t != t ==> Next(s, a).locs[t] == s.locs[t]
    ensures a.t == t && s.locs[t].TakeUnlocked? ==> Next(s, a).locs[t] == TakeDone(Item(s.locs[t].x))
    ensures a.t == t && !s.locs[t].TakeUnlocked? ==> a.Return? && Next(s, a).locs[t] == Outside
  {
  }

  // The steps of the machine leave the protected fields as the sections do.
  lemma StepsRunSections<T>(s: State<T>, a: Action<T>)
    requires Enabled(s, a)
    ensures Next(s, a).q ==
              match a
              case Put(_, x, mode, _) => EnterPut(s.q, x, mode).0
              case Take(_) => EnterTake(s.q).0
              case Relock(t, _) =>
                if s.locs[t].PutWoken? then RecheckPut(s.q, s.locs[t].x, s.locs[t].expired).0
                else RecheckTake(s.q, s.locs[t].expired).0
              case Close(_) => s.q.(open := false)
              case _ => s.q
  {
  }

  // A put that is refused leaves no trace; one that is accepted appends exactly its item.
  lemma RefusalLeavesNoTrace<T>(s: State<T>, a: Action<T>)
    requires Enabled(s, a) && (a.Put? || a.Relock?) && Next(s, a).locs[a.t].PutDone?
    ensures var s', d := Next(s, a), Next(s, a).locs[a.t];
            && (a.Put? ==> d.x == a.x) && (a.Relock? ==> s.locs[a.t].PutWoken? && d.x == s.locs[a.t].x)
            && s'.taken == s.taken
            && if d.code == Accepted then
                 s'.q == s.q.(buffer := s.q.buffer + [d.x]) && s'.accepted == s.accepted + [d.x]
               else s' == At(s, a.t, d)
  {
  }
}
