/**
  The thread pool of stp/RtlThreadPool.hpp over the blocking queue: any number of submitters, a crew of workers, a
  graceful shutdown and a join, interleaved step by step.  Tasks may call put, shutdown_graceful and, off the workers,
  join; they return after finitely many calls, and no worker joins its own pool, which ends the process.
 */
module ThreadPool {
  import opened Common
  import Q = BlockingQueue

  type Tid = nat
  type TaskId = nat

  datatype Policy = ThrowException | Block | BlockFor | CallerRuns
  datatype Phase = Running | Stopping | Stopped
  // How put ends: with a future, or with ThreadPoolStopped, QueueFull or TaskRejected.
  datatype Failure = PoolStopped | QueueFull | TaskRejected
  datatype Outcome = Future | Threw(why: Failure)

  // A call of a task under way: taken from the queue, or made by put itself.  `left` is how often the task may still
  // call put, shutdown_graceful or join before it returns.
  datatype Run = Run(x: TaskId, inline: bool, left: nat)

  datatype Doing =
    | Idle                        // in client code, in the code of a task, in tryTake or between two tasks
    | Checked(x: TaskId)          // in put, past the state check
    | Submitting(x: TaskId)       // in put, inside the queue
    | Inline(x: TaskId)           // in put, about to run the task itself
    | Got(x: TaskId)              // a worker about to run the task it took
    | Locking                     // in shutdown_graceful, waiting for m_mtx
    | Closing                     // in shutdown_graceful, holding m_mtx
    | Exited                      // a worker that has left its loop

  // A thread: the tasks it is in the middle of, outermost first, and what it is doing now.
  datatype Actor = Actor(running: seq<Run>, doing: Doing)

  // `place` and `runs` are histories that no step reads: where each task is, and how often it was called.
  datatype Place = Offered(t: Tid) | Queued | Carried(t: Tid) | Active(t: Tid) | Nested(t: Tid) | Done | Refused

  // `calls` says how often each task may call put, shutdown_graceful or join.
  datatype State = State(
    phase: Phase, policy: Policy, crew: seq<Tid>, queue: Q.State<TaskId>, actors: map<Tid, Actor>,
    outcome: map<TaskId, Outcome>, issued: nat, calls: TaskId -> nat, place: map<TaskId, Place>, runs: map<TaskId, nat>)

  datatype Action =
    | Submit(t: Tid)
    | Enqueue(t: Tid, wake: Tid)
    | Inner(t: Tid, a: Q.Action<TaskId>)  // a step inside the queue
    | FinishPut(t: Tid)
    | WorkerTake(t: Tid)
    | WorkerGot(t: Tid)
    | Begin(t: Tid)                       // the call of a task, inline or by a worker
    | Finish(t: Tid)                      // its return
    | Shutdown(t: Tid)
    | Lock(t: Tid)
    | CloseQueue(t: Tid)
    | FinishClose(t: Tid)
    | Join(t: Tid)

  function Init(policy: Policy, max: nat, crew: seq<Tid>, clients: set<Tid>, calls: TaskId -> nat): State {
    var tids := (set w | w in crew) + clients;
    State(Running, policy, crew, Q.Init(max, tids), map t | t in tids :: Actor([], Idle), map[], 0, calls, map[], map[])
  }

  function ModeOf(p: Policy): Q.PutMode {
    match p
    case Block => Q.Wait
    case BlockFor => Q.WaitFor
    case _ => Q.Try
  }

  predicate MutexFree(s: State) { forall t :: t in s.actors ==> !s.actors[t].doing.Closing? }

  function QueueAction(s: State, a: Action): Q.Action<TaskId>
    requires a.t in s.actors && (a.Enqueue? ==> s.actors[a.t].doing.Checked?)
    requires InQueue(a)
  {
    match a
    case Enqueue(t, wake) => Q.Put(t, s.actors[t].doing.x, ModeOf(s.policy), wake)
    case Inner(_, qa) => qa
    case WorkerTake(t) => Q.Take(t)
    case CloseQueue(t) => Q.Close(t)
    case _ => Q.Return(a.t)
  }

  predicate InQueue(a: Action) {
    a.Enqueue? || a.Inner? || a.FinishPut? || a.WorkerTake? || a.WorkerGot? || a.CloseQueue?
  }

  predicate IsInner(a: Q.Action<TaskId>) {
    a.Relock? || a.WakeSpuriously? || a.Expire? || a.NotifyNotFull? || a.NotifyAllNotEmpty? || a.NotifyAllNotFull?
  }

  // Client code, or the code of a task that may still call the pool.
  predicate MayCall(who: Actor, worker: bool) {
    who.doing.Idle? && if who.running == [] then !worker else who.running[|who.running| - 1].left > 0
  }

  predicate InLoop(who: Actor, worker: bool) { worker && who == Actor([], Idle) }

  predicate Enabled(s: State, a: Action) {
    a.t in s.actors && a.t in s.queue.locs &&
    var who, loc, worker := s.actors[a.t], s.queue.locs[a.t], a.t in s.crew;
    match a
    case Submit(_) => MayCall(who, worker)
    case Enqueue(_, _) => who.doing.Checked? && Q.Enabled(s.queue, QueueAction(s, a))
    case Inner(t, qa) => qa.t == t && IsInner(qa) && Q.Enabled(s.queue, qa)
    case FinishPut(_) => who.doing.Submitting? && loc.PutDone?
    case WorkerTake(_) => InLoop(who, worker) && loc.Outside?
    case WorkerGot(_) => InLoop(who, worker) && loc.TakeDone?
    case Begin(_) => who.doing.Inline? || who.doing.Got?
    case Finish(_) => who.doing.Idle? && who.running != []
    case Shutdown(_) => MayCall(who, worker)
    case Lock(_) => who.doing.Locking? && MutexFree(s)
    case CloseQueue(_) => who.doing.Closing? && loc.Outside? && s.queue.q.open
    case FinishClose(_) => who.doing.Closing? && loc.Outside? && !s.queue.q.open
    case Join(_) => MayCall(who, worker) && !worker && s.phase.Stopping? && MutexFree(s)
                    && forall w :: w in s.crew ==> w in s.actors && s.actors[w].doing.Exited?
  }

  // What a queue step does to the places: an accepted task is queued, a taken one is in the hands of the taker.
  function Moved(place: map<TaskId, Place>, t: Tid, q: Q.State<TaskId>, q': Q.State<TaskId>): map<TaskId, Place> {
    if |q'.accepted| > |q.accepted| then place[q'.accepted[|q.accepted|] := Queued]
    else if |q'.taken| > |q.taken| then place[q'.taken[|q.taken|] := Carried(t)]
    else place
  }

  function Turn(s: State, t: Tid, doing: Doing): map<Tid, Actor>
    requires t in s.actors
  {
    s.actors[t := s.actors[t].(doing := doing)]
  }

  function WithQueue(s: State, t: Tid, q': Q.State<TaskId>, doing: Doing): State
    requires t in s.actors
  {
    s.(queue := q', place := Moved(s.place, t, s.queue, q'), actors := Turn(s, t, doing))
  }

  function Called(runs: map<TaskId, nat>, x: TaskId): map<TaskId, nat> {
    runs[x := if x in runs then runs[x] + 1 else 1]
  }

  // The innermost task has used up one of its calls.
  function Spent(running: seq<Run>): seq<Run> {
    if running == [] || running[|running| - 1].left == 0 then running
    else running[|running| - 1 := running[|running| - 1].(left := running[|running| - 1].left - 1)]
  }

  // put: the state check, and what follows the return of the queue.
  function Submitted(s: State, t: Tid): State
    requires t in s.actors
  {
    var x, spent := s.issued, Actor(Spent(s.actors[t].running), Idle);
    if s.phase != Running then
      s.(issued := x + 1, place := s.place[x := Refused], runs := s.runs[x := 0],
         outcome := s.outcome[x := Threw(PoolStopped)],
         actors := s.actors[t := spent])
    else
      s.(issued := x + 1, place := s.place[x := Offered(t)], runs := s.runs[x := 0],
         actors := s.actors[t := spent.(doing := Checked(x))])
  }

  function WhyRefused(code: Q.PutCode): Failure {
    match code
    case Closed => PoolStopped
    case Full => QueueFull
    case _ => TaskRejected
  }

  function PutEnded(s: State, t: Tid, x: TaskId, code: Q.PutCode): State
    requires t in s.actors && Q.Enabled(s.queue, Q.Return(t))
  {
    var s' := WithQueue(s, t, Q.Next(s.queue, Q.Return(t)), Idle);
    if code == Q.Accepted then s'.(outcome := s.outcome[x := Future])
    else if code == Q.Full && s.policy == CallerRuns then s'.(actors := Turn(s, t, Inline(x)))
    else s'.(outcome := s.outcome[x := Threw(WhyRefused(code))], place := s.place[x := Refused])
  }

  // The call of a task and its return; a put that ran the task itself then hands out the future.
  function Begun(s: State, t: Tid, x: TaskId, inline: bool): State
    requires t in s.actors
  {
    s.(runs := Called(s.runs, x), place := s.place[x := if inline then Nested(t) else Active(t)],
       actors := s.actors[t := Actor(s.actors[t].running + [Run(x, inline, s.calls(x))], Idle)])
  }

  function Finished(s: State, t: Tid): State
    requires t in s.actors && s.actors[t].running != []
  {
    var n := |s.actors[t].running| - 1;
    var r := s.actors[t].running[n];
    s.(place := s.place[r.x := Done], actors := s.actors[t := Actor(s.actors[t].running[..n], Idle)],
       outcome := if r.inline then s.outcome[r.x := Future] else s.outcome)
  }

  function Next(s: State, a: Action): State
    requires Enabled(s, a)
  {
    var t, who := a.t, s.actors[a.t];
    match a
    case Submit(_) => Submitted(s, t)
    case Enqueue(_, _) => WithQueue(s, t, Q.Next(s.queue, QueueAction(s, a)), Submitting(who.doing.x))
    case Inner(_, qa) => WithQueue(s, t, Q.Next(s.queue, qa), who.doing)
    case FinishPut(_) => PutEnded(s, t, who.doing.x, s.queue.locs[t].code)
    case WorkerTake(_) => WithQueue(s, t, Q.Next(s.queue, Q.Take(t)), Idle)
    case WorkerGot(_) =>
      var r := s.queue.locs[t].r;
      WithQueue(s, t, Q.Next(s.queue, Q.Return(t)),
                match r case Item(x) => Got(x) case Timeout => Idle case QueueClosed => Exited)
    case Begin(_) => Begun(s, t, who.doing.x, who.doing.Inline?)
    case Finish(_) => Finished(s, t)
    case Shutdown(_) => s.(actors := s.actors[t := Actor(Spent(who.running), Locking)])
    case Lock(_) =>
      if s.phase != Running then s.(actors := Turn(s, t, Idle))
      else s.(phase := Stopping, actors := Turn(s, t, Closing))
    case CloseQueue(_) => WithQueue(s, t, Q.Next(s.queue, Q.Close(t)), Closing)
    case FinishClose(_) => s.(actors := Turn(s, t, Idle))
    case Join(_) => s.(phase := Stopped, actors := s.actors[t := Actor(Spent(who.running), Idle)])
  }

  // ---- Invariant --------------------------------------------------------------------------------------------------

  // The task a thread has been given and has not passed on, and the task a worker has taken and not yet called.
  function Offer(doing: Doing, loc: Q.Loc<TaskId>): Option<TaskId> {
    match doing
    case Checked(x) => Some(x)
    case Inline(x) => Some(x)
    case Submitting(x) => if loc.PutDone? && loc.code == Q.Accepted then None else Some(x)
    case _ => None
  }

  function Carry(doing: Doing, loc: Q.Loc<TaskId>): Option<TaskId> {
    match doing
    case Got(x) => Some(x)
    case Idle =>
      if loc.TakeUnlocked? then Some(loc.x) else if loc.TakeDone? && loc.r.Item? then Some(loc.r.x) else None
    case _ => None
  }

  // What a thread may be doing inside the queue, given where it stands in the pool.  A worker that is in no task is in
  // its loop, and only then does it take.
  ghost predicate Consistent(worker: bool, who: Actor, loc: Q.Loc<TaskId>) {
    && (worker && who.running == [] ==> who.doing.Idle? || who.doing.Got? || who.doing.Exited?)
    && match who.doing
       case Submitting(x) => (loc.PutParked? || loc.PutWoken? || loc.PutDone?) && loc.x == x
       case Closing => loc.Outside? || loc.CloseUnlocked? || loc.CloseHalf?
       case Idle =>
         loc.Outside? ||
         (InLoop(who, worker) && (loc.TakeParked? || loc.TakeWoken? || loc.TakeUnlocked? || loc.TakeDone?))
       case Got(_) => loc.Outside? && worker && who.running == []
       case Exited => loc.Outside? && worker && who.running == []
       case _ => loc.Outside?
  }

  // The outermost task of a worker comes from the queue; every other task under way was run by a put.
  ghost predicate Frames(worker: bool, running: seq<Run>) {
    && (forall i :: 0 <= i < |running| ==> (running[i].inline <==> !(worker && i == 0)))
    && (forall i, j :: 0 <= i < j < |running| ==> running[i].x != running[j].x)
  }

  ghost predicate Threads(s: State) {
    && s.actors.Keys == s.queue.locs.Keys
    && (forall w :: w in s.crew ==> w in s.actors)
    && (forall t :: t in s.actors ==> Consistent(t in s.crew, s.actors[t], s.queue.locs[t]))
    && (forall t :: t in s.actors ==> Frames(t in s.crew, s.actors[t].running))
  }

  ghost function Offers(s: State, t: Tid): Option<TaskId> {
    if t in s.actors && t in s.queue.locs then Offer(s.actors[t].doing, s.queue.locs[t]) else None
  }

  ghost function Carries(s: State, t: Tid): Option<TaskId> {
    if t in s.actors && t in s.queue.locs then Carry(s.actors[t].doing, s.queue.locs[t]) else None
  }

  // Every task issued is in exactly one place, and that place is where the pool really has it.
  ghost predicate Placed(s: State) {
    && (forall x: TaskId :: x in s.place <==> x < s.issued)
    && (forall t :: Offers(s, t).Some? ==> Offers(s, t).value in s.place && s.place[Offers(s, t).value] == Offered(t))
    && (forall t :: Carries(s, t).Some? ==>
          Carries(s, t).value in s.place && s.place[Carries(s, t).value] == Carried(t))
    && (forall x :: x in s.place && s.place[x].Carried? ==> Carries(s, s.place[x].t) == Some(x))
    && Buffered(s.place, s.queue.q.buffer)
  }

  ghost predicate Buffered(place: map<TaskId, Place>, buffer: seq<TaskId>) {
    && (forall x :: x in buffer <==> x in place && place[x] == Queued)
    && (forall i, j :: 0 <= i < j < |buffer| ==> buffer[i] != buffer[j])
  }

  // The tasks under way are where the threads have them, and a task taken from the queue is a worker's outermost one.
  ghost predicate Stacked(place: map<TaskId, Place>, actors: map<Tid, Actor>) {
    && (forall t, i :: t in actors && 0 <= i < |actors[t].running| ==> InFrame(place, t, actors[t].running[i]))
    && (forall x :: x in place && place[x].Active? ==> Outermost(actors, place[x].t, x))
  }

  ghost predicate InFrame(place: map<TaskId, Place>, t: Tid, r: Run) {
    r.x in place && place[r.x] == if r.inline then Nested(t) else Active(t)
  }

  ghost predicate Outermost(actors: map<Tid, Actor>, t: Tid, x: TaskId) {
    t in actors && actors[t].running != [] && actors[t].running[0].x == x && !actors[t].running[0].inline
  }

  predicate WasCalled(p: Place) { p.Active? || p.Nested? || p == Done }

  // A task has been called once if it is under way or done and never otherwise; a future was handed out only for a task
  // that is on its way or done, an exception only for one that is refused.
  ghost predicate Accounted(s: State) {
    && s.runs.Keys == s.place.Keys
    && (forall x :: x in s.runs ==> s.runs[x] == if WasCalled(s.place[x]) then 1 else 0)
    && (forall x :: x in s.outcome ==> x in s.place)
    && (forall x :: x in s.outcome && s.outcome[x] == Future ==> OnItsWay(s.place[x]))
    && (forall x :: x in s.outcome && s.outcome[x].Threw? ==> s.place[x] == Refused)
  }

  // The task of a put that the queue has accepted and that has not returned yet.
  ghost function Promises(s: State, t: Tid): Option<TaskId> {
    if t in s.actors && t in s.queue.locs && s.actors[t].doing.Submitting? && Offers(s, t).None?
    then Some(s.actors[t].doing.x)
    else None
  }

  predicate OnItsWay(p: Place) { p == Queued || p.Carried? || p.Active? || p == Done }

  ghost predicate Promised(s: State) {
    forall t :: Promises(s, t).Some? ==> Promises(s, t).value in s.place && OnItsWay(s.place[Promises(s, t).value])
  }

  ghost predicate Phases(s: State) {
    && (s.phase == Running ==> MutexFree(s))
    && (s.phase == Running ==> s.queue.q.open)
    && (s.phase != Running && MutexFree(s) ==> !s.queue.q.open)
    && (forall w :: w in s.crew && w in s.actors && Leaving(s.actors[w].doing, s.queue.locs, w) ==>
          !s.queue.q.open && s.queue.q.buffer == [])
    && (s.phase == Stopped ==> forall w :: w in s.crew ==> w in s.actors && s.actors[w].doing.Exited?)
  }

  ghost predicate Leaving(doing: Doing, locs: map<Tid, Q.Loc<TaskId>>, w: Tid) {
    doing.Exited? || (w in locs && locs[w] == Q.TakeDone(Q.QueueClosed))
  }

  ghost predicate Inv(s: State) {
    && Q.Inv(s.queue) && Threads(s) && Placed(s) && Stacked(s.place, s.actors)
    && Accounted(s) && Promised(s) && Phases(s)
  }

  // ---- What a queue step does -------------------------------------------------------------------------------------

  // Another thread is at most taken out of its wait.
  predicate AtMostWoken(loc: Q.Loc<TaskId>, loc': Q.Loc<TaskId>) {
    || loc' == loc
    || (loc.PutParked? && loc'.PutWoken? && loc'.x == loc.x)
    || (loc.TakeParked? && loc'.TakeWoken?)
  }

  ghost predicate Effect(q: Q.State<TaskId>, t: Tid, q': Q.State<TaskId>) {
    && q'.locs.Keys == q.locs.Keys && t in q.locs
    && (forall u :: u in q.locs && u != t ==> AtMostWoken(q.locs[u], q'.locs[u]))
    && (q'.q.open ==> q.q.open)
    && (Quiet(q, q') || Pushes(q, t, q') || Pops(q, t, q'))
  }

  ghost predicate Quiet(q: Q.State<TaskId>, q': Q.State<TaskId>) {
    q'.accepted == q.accepted && q'.taken == q.taken && q'.q.buffer == q.q.buffer
  }

  ghost predicate Pushes(q: Q.State<TaskId>, t: Tid, q': Q.State<TaskId>)
    requires t in q.locs && t in q'.locs
  {
    && q.q.open && q'.locs[t].PutDone? && q'.locs[t].code == Q.Accepted
    && q'.accepted == q.accepted + [q'.locs[t].x] && q'.taken == q.taken && q'.q.buffer == q.q.buffer + [q'.locs[t].x]
  }

  ghost predicate Pops(q: Q.State<TaskId>, t: Tid, q': Q.State<TaskId>)
    requires t in q.locs && t in q'.locs
  {
    && q.q.buffer != [] && q'.locs[t] == Q.TakeUnlocked(q.q.buffer[0])
    && q'.accepted == q.accepted && q'.taken == q.taken + [q.q.buffer[0]] && q'.q.buffer == q.q.buffer[1..]
  }

  lemma QueueEffect(q: Q.State<TaskId>, a: Q.Action<TaskId>)
    requires Q.Enabled(q, a)
    ensures Effect(q, a.t, Q.Next(q, a))
  {
  }

  // What the acting thread may do in the queue.
  ghost predicate Legal(loc: Q.Loc<TaskId>, loc': Q.Loc<TaskId>) {
    match loc
    case Outside =>
      || loc'.PutDone? || loc'.PutParked? || loc'.TakeUnlocked? || loc'.TakeDone? || loc'.TakeParked?
      || loc'.CloseUnlocked?
    case PutParked(x, _) => loc'.PutWoken? && loc'.x == x
    case PutWoken(x, _, _) => (loc'.PutDone? || loc'.PutParked?) && loc'.x == x
    case TakeParked => loc'.TakeWoken?
    case TakeWoken(_) => loc'.TakeUnlocked? || (loc'.TakeDone? && !loc'.r.Item?) || loc'.TakeParked?
    case TakeUnlocked(x) => loc' == Q.TakeDone(Q.Item(x))
    case CloseUnlocked => loc' == Q.CloseHalf
    case _ => loc'.Outside?
  }

  lemma InnerIsLegal(q: Q.State<TaskId>, a: Q.Action<TaskId>)
    requires Q.Enabled(q, a) && IsInner(a)
    ensures var loc, loc' := q.locs[a.t], Q.Next(q, a).locs[a.t];
            && Legal(loc, loc') && !loc.Outside? && !loc.PutDone? && !loc.TakeDone?
            && (loc'.TakeDone? && loc'.r == Q.QueueClosed ==> !q.q.open && q.q.buffer == [])
            && (Quiet(q, Q.Next(q, a)) ==> !loc'.TakeUnlocked? && !(loc'.PutDone? && loc'.code == Q.Accepted))
            && (!Quiet(q, Q.Next(q, a)) ==> loc.PutWoken? || loc.TakeWoken?)
            && Q.Next(q, a).q.open == q.q.open
  {
  }

  lemma OthersHold(s: State, t: Tid, q': Q.State<TaskId>, doing: Doing)
    requires t in s.actors && Threads(s) && Effect(s.queue, t, q')
    ensures var s' := WithQueue(s, t, q', doing);
            && Offers(s', t) == Offer(doing, q'.locs[t]) && Carries(s', t) == Carry(doing, q'.locs[t])
            && forall u :: u != t ==> Offers(s', u) == Offers(s, u) && Carries(s', u) == Carries(s, u)
  {
    hide Quiet, Pushes, Pops;
  }

  // ---- Every task stays accounted for -----------------------------------------------------------------------------

  lemma BufferedPush(place: map<TaskId, Place>, buffer: seq<TaskId>, x: TaskId)
    requires Buffered(place, buffer) && x in place && place[x] != Queued
    ensures Buffered(place[x := Queued], buffer + [x])
  {
    assert x !in buffer;
  }

  lemma BufferedPop(place: map<TaskId, Place>, buffer: seq<TaskId>, p: Place)
    requires Buffered(place, buffer) && buffer != [] && p != Queued
    ensures buffer[0] in place && place[buffer[0]] == Queued && Buffered(place[buffer[0] := p], buffer[1..])
  {
    assert buffer[0] in buffer && forall x :: x in buffer[1..] <==> x in buffer && x != buffer[0];
  }

  lemma BufferedElse(place: map<TaskId, Place>, buffer: seq<TaskId>, x: TaskId, p: Place)
    requires Buffered(place, buffer) && (x in place ==> place[x] != Queued) && p != Queued
    ensures Buffered(place[x := p], buffer)
  {
  }

  lemma PlacedAfterQuiet(s: State, t: Tid, q': Q.State<TaskId>, doing: Doing)
    requires t in s.actors && Threads(s) && Placed(s) && Effect(s.queue, t, q') && Quiet(s.queue, q')
    requires Offer(doing, q'.locs[t]) == Offers(s, t) && Carry(doing, q'.locs[t]) == Carries(s, t)
    ensures Placed(WithQueue(s, t, q', doing)) && WithQueue(s, t, q', doing).place == s.place
  {
    OthersHold(s, t, q', doing);
    hide Offers, Carries, Threads, Effect, Offer, Carry, Buffered;
    var s' := WithQueue(s, t, q', doing);
    assert forall u :: Offers(s', u) == Offers(s, u) && Carries(s', u) == Carries(s, u);
  }

  lemma PlacedAfterPush(s: State, t: Tid, q': Q.State<TaskId>, doing: Doing)
    requires t in s.actors && Threads(s) && Placed(s) && Effect(s.queue, t, q') && Pushes(s.queue, t, q')
    requires Offers(s, t) == Some(q'.locs[t].x) && Offer(doing, q'.locs[t]).None?
    requires Carry(doing, q'.locs[t]) == Carries(s, t) == None
    ensures Placed(WithQueue(s, t, q', doing)) && WithQueue(s, t, q', doing).place == s.place[q'.locs[t].x := Queued]
    ensures q'.locs[t].x in s.place && s.place[q'.locs[t].x].Offered?
  {
    OthersHold(s, t, q', doing);
    hide Offers, Carries, Threads, Effect, Offer, Carry;
    var x := q'.locs[t].x;
    BufferedPush(s.place, s.queue.q.buffer, x);
    hide Buffered;
    assert WithQueue(s, t, q', doing).place == s.place[x := Queued];
  }

  lemma PlacedAfterPop(s: State, t: Tid, q': Q.State<TaskId>, doing: Doing)
    requires t in s.actors && Threads(s) && Placed(s) && Effect(s.queue, t, q') && Pops(s.queue, t, q')
    requires Offer(doing, q'.locs[t]) == Offers(s, t) == None
    requires Carries(s, t) == None && Carry(doing, q'.locs[t]) == Some(s.queue.q.buffer[0])
    ensures Placed(WithQueue(s, t, q', doing))
    ensures WithQueue(s, t, q', doing).place == s.place[s.queue.q.buffer[0] := Carried(t)]
    ensures s.queue.q.buffer[0] in s.place && s.place[s.queue.q.buffer[0]] == Queued
  {
    OthersHold(s, t, q', doing);
    hide Offers, Carries, Threads, Effect, Offer, Carry;
    BufferedPop(s.place, s.queue.q.buffer, Carried(t));
    hide Buffered;
    assert WithQueue(s, t, q', doing).place == s.place[s.queue.q.buffer[0] := Carried(t)];
  }

  lemma AccountedAfterMove(s: State, s': State, x: TaskId, p: Place)
    requires Accounted(s) && x in s.place && s'.place == s.place[x := p] && s'.runs == s.runs && s'.outcome == s.outcome
    requires (s.place[x].Offered? && p == Queued) || (s.place[x] == Queued && p.Carried?)
    ensures Accounted(s')
  {
  }

  // A task that no thread is in the middle of moves, and the threads' stacks stay.
  lemma StackedAfterMove(
    place: map<TaskId, Place>, actors: map<Tid, Actor>, x: TaskId, p: Place, actors': map<Tid, Actor>)
    requires Stacked(place, actors) && (x in place ==> !place[x].Active? && !place[x].Nested?) && !p.Active?
    requires actors'.Keys == actors.Keys && forall t :: t in actors ==> SameRuns(actors[t].running, actors'[t].running)
    ensures Stacked(place[x := p], actors')
  {
    forall t, i | t in actors' && 0 <= i < |actors'[t].running|
      ensures InFrame(place[x := p], t, actors'[t].running[i])
    {
      assert SameRuns(actors[t].running, actors'[t].running);
      assert InFrame(place, t, actors[t].running[i]);
    }
    var place' := place[x := p];
    forall y | y in place' && place'[y].Active? ensures Outermost(actors', place'[y].t, y) {
      assert Outermost(actors, place[y].t, y);
      assert SameRuns(actors[place[y].t].running, actors'[place[y].t].running);
    }
  }

  ghost predicate SameRuns(a: seq<Run>, b: seq<Run>) {
    |a| == |b| && forall i :: 0 <= i < |a| ==> a[i].x == b[i].x && a[i].inline == b[i].inline
  }

  lemma StackedStays(place: map<TaskId, Place>, actors: map<Tid, Actor>, actors': map<Tid, Actor>)
    requires Stacked(place, actors)
    requires actors'.Keys == actors.Keys && forall t :: t in actors ==> SameRuns(actors[t].running, actors'[t].running)
    ensures Stacked(place, actors')
  {
    forall t, i | t in actors' && 0 <= i < |actors'[t].running| ensures InFrame(place, t, actors'[t].running[i]) {
      assert SameRuns(actors[t].running, actors'[t].running);
      assert InFrame(place, t, actors[t].running[i]);
    }
    forall y | y in place && place[y].Active? ensures Outermost(actors', place[y].t, y) {
      assert SameRuns(actors[place[y].t].running, actors'[place[y].t].running);
    }
  }

  // How the acting thread's hands change with the queue.
  ghost predicate HandsMatch(s: State, t: Tid, q': Q.State<TaskId>, doing: Doing)
    requires t in s.queue.locs && t in q'.locs
  {
    var offer, carry, offer', carry' := Offers(s, t), Carries(s, t), Offer(doing, q'.locs[t]), Carry(doing, q'.locs[t]);
    if Quiet(s.queue, q') then offer' == offer && carry' == carry
    else if Pushes(s.queue, t, q') then offer == Some(q'.locs[t].x) && offer' == carry == carry' == None
    else Pops(s.queue, t, q') && offer == offer' == carry == None && carry' == Some(s.queue.q.buffer[0])
  }

  lemma TasksAfterQueueStep(s: State, t: Tid, q': Q.State<TaskId>, doing: Doing)
    requires t in s.actors && Threads(s) && Placed(s) && Stacked(s.place, s.actors) && Accounted(s)
    requires Effect(s.queue, t, q') && HandsMatch(s, t, q', doing)
    ensures var s' := WithQueue(s, t, q', doing); Placed(s') && Stacked(s'.place, s'.actors) && Accounted(s')
  {
    hide Threads, Offers, Carries, Accounted, AtMostWoken, Stacked, Placed;
    var s' := WithQueue(s, t, q', doing);
    assert forall u :: u in s.actors ==> SameRuns(s.actors[u].running, s'.actors[u].running);
    if Quiet(s.queue, q') {
      PlacedAfterQuiet(s, t, q', doing);
      SameAccounts(s, s');
      StackedStays(s.place, s.actors, s'.actors);
    } else if Pushes(s.queue, t, q') {
      PlacedAfterPush(s, t, q', doing);
      AccountedAfterMove(s, s', q'.locs[t].x, Queued);
      StackedAfterMove(s.place, s.actors, q'.locs[t].x, Queued, s'.actors);
    } else {
      PlacedAfterPop(s, t, q', doing);
      AccountedAfterMove(s, s', s.queue.q.buffer[0], Carried(t));
      StackedAfterMove(s.place, s.actors, s.queue.q.buffer[0], Carried(t), s'.actors);
    }
  }

  lemma SameAccounts(s: State, s': State)
    requires Accounted(s) && s'.place == s.place && s'.runs == s.runs && s'.outcome == s.outcome
    ensures Accounted(s')
  {
  }

  lemma ThreadsAfterQueueStep(s: State, t: Tid, q': Q.State<TaskId>, doing: Doing)
    requires t in s.actors && Threads(s) && Effect(s.queue, t, q')
    requires Consistent(t in s.crew, s.actors[t].(doing := doing), q'.locs[t])
    ensures Threads(WithQueue(s, t, q', doing))
  {
    hide Quiet, Pushes, Pops, Frames;
    var s' := WithQueue(s, t, q', doing);
    forall u | u in s.actors ensures Consistent(u in s.crew, s'.actors[u], q'.locs[u]) {
      if u != t {
        assert Consistent(u in s.crew, s.actors[u], s.queue.locs[u]) && AtMostWoken(s.queue.locs[u], q'.locs[u]);
      }
    }
  }

  lemma PhasesAfterQueueStep(s: State, t: Tid, q': Q.State<TaskId>, doing: Doing)
    requires t in s.actors && Threads(s) && Phases(s) && Effect(s.queue, t, q')
    requires doing.Closing? == s.actors[t].doing.Closing? && (s.actors[t].doing.Exited? ==> doing.Exited?)
    requires q'.q.open != s.queue.q.open ==> doing.Closing?
    requires t in s.crew && Leaving(doing, q'.locs, t) ==> !q'.q.open && q'.q.buffer == []
    ensures Phases(WithQueue(s, t, q', doing))
  {
    hide Consistent, Frames;
    var s' := WithQueue(s, t, q', doing);
    assert MutexFree(s') <==> MutexFree(s) by {
      if doing.Closing? { assert s.actors[t].doing.Closing? && s'.actors[t].doing.Closing?; }
      else { assert forall u :: u in s.actors ==> s'.actors[u].doing.Closing? == s.actors[u].doing.Closing?; }
    }
    forall w | w in s'.crew && w in s'.actors && w != t && Leaving(s'.actors[w].doing, s'.queue.locs, w)
      ensures !s'.queue.q.open && s'.queue.q.buffer == []
    {
      assert Leaving(s.actors[w].doing, s.queue.locs, w);
    }
  }

  lemma PromisedAfterQueueStep(s: State, t: Tid, q': Q.State<TaskId>, doing: Doing)
    requires t in s.actors && Threads(s) && Promised(s) && Effect(s.queue, t, q') && HandsMatch(s, t, q', doing)
    requires doing.Submitting? && s.actors[t].doing.Submitting? ==> doing == s.actors[t].doing
    requires doing.Submitting? && !s.actors[t].doing.Submitting? ==> Offers(s, t) == Some(doing.x)
    requires Consistent(t in s.crew, s.actors[t].(doing := doing), q'.locs[t])
    ensures Promised(WithQueue(s, t, q', doing))
  {
    var s' := WithQueue(s, t, q', doing);
    OthersHold(s, t, q', doing);
    PlacesAdvance(s, t, q', doing);
    hide Threads, AtMostWoken, WithQueue, Quiet;
    forall u | Promises(s', u).Some?
      ensures Promises(s', u).value in s'.place && OnItsWay(s'.place[Promises(s', u).value])
    {
      if u != t || Quiet(s.queue, q') { assert Promises(s, u) == Promises(s', u); }
    }
  }

  // A queue step moves one task at most, and forwards.
  lemma PlacesAdvance(s: State, t: Tid, q': Q.State<TaskId>, doing: Doing)
    requires t in s.actors && Effect(s.queue, t, q')
    ensures var s' := WithQueue(s, t, q', doing);
            && s'.queue == q' && s'.actors == Turn(s, t, doing)
            && (forall x :: x in s.place ==> x in s'.place && (s'.place[x] == s.place[x] || OnItsWay(s'.place[x])))
            && (Pushes(s.queue, t, q') ==> q'.locs[t].x in s'.place && s'.place[q'.locs[t].x] == Queued)
  {
  }

  lemma QueueStepKeeps(s: State, t: Tid, q': Q.State<TaskId>, doing: Doing)
    requires Inv(s) && t in s.actors && Q.Inv(q') && Effect(s.queue, t, q') && HandsMatch(s, t, q', doing)
    requires Consistent(t in s.crew, s.actors[t].(doing := doing), q'.locs[t])
    requires doing.Submitting? && s.actors[t].doing.Submitting? ==> doing == s.actors[t].doing
    requires doing.Submitting? && !s.actors[t].doing.Submitting? ==> Offers(s, t) == Some(doing.x)
    requires doing.Closing? == s.actors[t].doing.Closing? && (s.actors[t].doing.Exited? ==> doing.Exited?)
    requires q'.q.open != s.queue.q.open ==> doing.Closing?
    requires t in s.crew && Leaving(doing, q'.locs, t) ==> !q'.q.open && q'.q.buffer == []
    ensures Inv(WithQueue(s, t, q', doing))
  {
    hide Threads, Placed, Stacked, Accounted, Promised, Phases, Effect, HandsMatch, Consistent, Q.Inv;
    TasksAfterQueueStep(s, t, q', doing);
    ThreadsAfterQueueStep(s, t, q', doing);
    PromisedAfterQueueStep(s, t, q', doing);
    PhasesAfterQueueStep(s, t, q', doing);
  }

  lemma InnerKeeps(s: State, a: Action)
    requires Inv(s) && Enabled(s, a) && a.Inner?
    ensures Inv(Next(s, a))
  {
    hide Placed, Stacked, Accounted, Promised, Frames, Q.Inv, Q.Next, Q.Enabled;
    QueueEffect(s.queue, a.a);
    InnerIsLegal(s.queue, a.a);
    Q.NextKeepsInv(s.queue, a.a);
    QueueStepKeeps(s, a.t, Q.Next(s.queue, a.a), s.actors[a.t].doing);
  }

  lemma EnqueueKeeps(s: State, a: Action)
    requires Inv(s) && Enabled(s, a) && a.Enqueue?
    ensures Inv(Next(s, a))
  {
    hide Placed, Stacked, Accounted, Promised, Phases, Frames, Q.Inv;
    var qa := QueueAction(s, a);
    QueueEffect(s.queue, qa);
    Q.NextKeepsInv(s.queue, qa);
    QueueStepKeeps(s, a.t, Q.Next(s.queue, qa), Submitting(s.actors[a.t].doing.x));
  }

  lemma TakeKeeps(s: State, a: Action)
    requires Inv(s) && Enabled(s, a) && a.WorkerTake?
    ensures Inv(Next(s, a))
  {
    hide Placed, Stacked, Accounted, Promised, Frames, Q.Inv;
    QueueEffect(s.queue, Q.Take(a.t));
    Q.NextKeepsInv(s.queue, Q.Take(a.t));
    QueueStepKeeps(s, a.t, Q.Next(s.queue, Q.Take(a.t)), Idle);
  }

  lemma CloseKeeps(s: State, a: Action)
    requires Inv(s) && Enabled(s, a) && a.CloseQueue?
    ensures Inv(Next(s, a))
  {
    hide Placed, Stacked, Accounted, Promised, Frames, Q.Inv;
    QueueEffect(s.queue, Q.Close(a.t));
    Q.NextKeepsInv(s.queue, Q.Close(a.t));
    QueueStepKeeps(s, a.t, Q.Next(s.queue, Q.Close(a.t)), Closing);
  }

  // Coming back from the queue with nothing changed there.
  lemma ReturnKeeps(s: State, t: Tid, doing: Doing)
    requires Inv(s) && t in s.actors && Q.Enabled(s.queue, Q.Return(t))
    requires Offer(doing, Q.Outside) == Offers(s, t) && Carry(doing, Q.Outside) == Carries(s, t)
    requires !doing.Submitting? && !doing.Closing? && !s.actors[t].doing.Closing?
    requires Consistent(t in s.crew, s.actors[t].(doing := doing), Q.Outside)
    requires doing.Exited? ==> Leaving(s.actors[t].doing, s.queue.locs, t)
    ensures Inv(WithQueue(s, t, Q.Next(s.queue, Q.Return(t)), doing))
  {
    hide Placed, Stacked, Accounted, Promised, Frames, Q.Inv;
    QueueEffect(s.queue, Q.Return(t));
    Q.NextKeepsInv(s.queue, Q.Return(t));
    QueueStepKeeps(s, t, Q.Next(s.queue, Q.Return(t)), doing);
  }

  // ---- Steps outside the queue ------------------------------------------------------------------------------------

  // One thread acts outside the queue; at most one task changes its place.
  ghost predicate Apart(s: State, t: Tid, who: Actor, s': State) {
    && t in s.actors && t in s.queue.locs && s.queue.locs[t].Outside?
    && s'.queue == s.queue && s'.crew == s.crew && s'.actors == s.actors[t := who]
    && !s.actors[t].doing.Submitting? && !who.doing.Submitting?
  }

  lemma HandsElsewhere(s: State, t: Tid, who: Actor, s': State)
    requires Apart(s, t, who, s')
    ensures forall u :: u != t ==>
              Offers(s', u) == Offers(s, u) && Carries(s', u) == Carries(s, u) && Promises(s', u) == Promises(s, u)
    ensures var doing := s.actors[t].doing;
            && Offers(s, t) == (if doing.Checked? || doing.Inline? then Some(doing.x) else None)
            && Carries(s, t) == (if doing.Got? then Some(doing.x) else None)
    ensures Offers(s', t) == (if who.doing.Checked? || who.doing.Inline? then Some(who.doing.x) else None)
    ensures Carries(s', t) == (if who.doing.Got? then Some(who.doing.x) else None)
    ensures Promises(s, t) == Promises(s', t) == None
  {
  }

  lemma ApartQueue(s: State, t: Tid, who: Actor, s': State)
    requires Apart(s, t, who, s')
    ensures s'.queue == s.queue
  {
  }

  lemma ThreadsApart(s: State, t: Tid, who: Actor, s': State)
    requires Threads(s) && Apart(s, t, who, s')
    requires Consistent(t in s.crew, who, Q.Outside) && Frames(t in s.crew, who.running)
    ensures Threads(s')
  {
    hide Consistent, Frames;
  }

  // Steps that leave the phase alone and neither take nor drop the mutex.
  lemma PhasesApart(s: State, t: Tid, who: Actor, s': State)
    requires Phases(s) && Apart(s, t, who, s') && s'.phase == s.phase
    requires !who.doing.Closing? && !s.actors[t].doing.Closing? && !who.doing.Exited? && !s.actors[t].doing.Exited?
    ensures Phases(s')
  {
    assert forall u :: u in s.actors ==> s'.actors[u].doing.Closing? == s.actors[u].doing.Closing?;
    assert forall w :: w in s.crew && w in s.actors ==>
             (Leaving(s'.actors[w].doing, s'.queue.locs, w) <==> Leaving(s.actors[w].doing, s.queue.locs, w));
  }

  // The task in a thread's hands is refused or called, or the innermost task returns.
  ghost predicate Settles(s: State, t: Tid, who: Actor, x: TaskId, p: Place, s': State) {
    && Apart(s, t, who, s') && s'.phase == s.phase && s'.issued == s.issued && s'.place == s.place[x := p]
    && who.doing.Idle? && (p == Refused || WasCalled(p))
  }

  lemma SettledPlaced(s: State, t: Tid, who: Actor, x: TaskId, p: Place, s': State)
    requires Placed(s) && Promised(s) && Settles(s, t, who, x, p, s') && x in s.place
    requires s.place[x].Offered? || s.place[x].Carried? || s.place[x].Active? || s.place[x].Nested?
    requires s.place[x].Offered? ==> s.place[x].t == t && Offers(s, t) == Some(x)
    requires s.place[x].Carried? ==> s.place[x].t == t && p.Active?
    requires s.place[x].Active? ==> p == Done
    requires Offers(s, t).Some? ==> Offers(s, t).value == x
    requires Carries(s, t).Some? ==> Carries(s, t).value == x
    ensures Placed(s') && Promised(s')
  {
    HandsElsewhere(s, t, who, s');
    hide Offers, Carries, Promises, Apart;
    assert forall u :: Promises(s', u) == Promises(s, u);
    forall u | u != t ensures Offers(s, u) != Some(x) && Carries(s, u) != Some(x) { }
    BufferedElse(s.place, s.queue.q.buffer, x, p);
    hide Buffered;
    assert s'.queue == s.queue by { ApartQueue(s, t, who, s'); }
  }

  lemma RefuseKeeps(s: State, t: Tid, why: Failure, s': State)
    requires Inv(s) && t in s.actors && s.actors[t].doing.Inline?
    requires s' == s.(actors := Turn(s, t, Idle), outcome := s.outcome[s.actors[t].doing.x := Threw(why)],
                      place := s.place[s.actors[t].doing.x := Refused])
    ensures Inv(s')
  {
    hide Q.Inv, Placed, Stacked, Accounted, Promised, Phases;
    var x, who := s.actors[t].doing.x, s.actors[t].(doing := Idle);
    OfferedIs(s, t);
    ThreadsApart(s, t, who, s');
    PhasesApart(s, t, who, s');
    SettledPlaced(s, t, who, x, Refused, s');
    StackedAfterMove(s.place, s.actors, x, Refused, s'.actors);
    RefusedAccounts(s, x, why, s');
  }

  lemma RefusedAccounts(s: State, x: TaskId, why: Failure, s': State)
    requires Accounted(s) && x in s.place && s.place[x].Offered?
    requires s'.runs == s.runs && s'.outcome == s.outcome[x := Threw(why)] && s'.place == s.place[x := Refused]
    ensures Accounted(s')
  {
  }

  lemma OfferedIs(s: State, t: Tid)
    requires Threads(s) && Placed(s) && t in s.actors && (s.actors[t].doing.Inline? || s.actors[t].doing.Got?)
    ensures t in s.queue.locs && s.queue.locs[t].Outside? && s.actors[t].doing.x in s.place
    ensures s.place[s.actors[t].doing.x] == if s.actors[t].doing.Inline? then Offered(t) else Carried(t)
    ensures s.actors[t].doing.Got? ==> s.actors[t].running == []
    ensures Offers(s, t) == if s.actors[t].doing.Inline? then Some(s.actors[t].doing.x) else None
    ensures Carries(s, t) == if s.actors[t].doing.Got? then Some(s.actors[t].doing.x) else None
  {
    hide Frames;
    assert Consistent(t in s.crew, s.actors[t], s.queue.locs[t]);
    assert Offers(s, t).Some? || Carries(s, t).Some?;
  }

  lemma BeginKeeps(s: State, a: Action)
    requires Inv(s) && Enabled(s, a) && a.Begin?
    ensures Inv(Next(s, a))
  {
    hide Q.Inv, Placed, Stacked, Accounted, Promised, Phases, Consistent, Frames;
    var t, s' := a.t, Next(s, a);
    var x, who := s.actors[t].doing.x, s'.actors[t];
    OfferedIs(s, t);
    FramesAfterBegin(s, t);
    ThreadsApart(s, t, who, s');
    PhasesApart(s, t, who, s');
    SettledPlaced(s, t, who, x, s'.place[x], s');
    StackedAfterBegin(s, t, s');
    CalledAccounts(s, x, s'.place[x], s');
  }

  lemma FramesAfterBegin(s: State, t: Tid)
    requires Threads(s) && Placed(s) && Stacked(s.place, s.actors) && t in s.actors
    requires s.actors[t].doing.Inline? || s.actors[t].doing.Got?
    ensures var x, inline := s.actors[t].doing.x, s.actors[t].doing.Inline?;
            var running := s.actors[t].running + [Run(x, inline, s.calls(x))];
            Frames(t in s.crew, running) && Consistent(t in s.crew, Actor(running, Idle), Q.Outside)
  {
    OfferedIs(s, t);
    hide Placed;
    var running, x := s.actors[t].running, s.actors[t].doing.x;
    assert Frames(t in s.crew, running) && Consistent(t in s.crew, s.actors[t], s.queue.locs[t]);
    forall i | 0 <= i < |running| ensures running[i].x != x { assert InFrame(s.place, t, running[i]); }
  }

  lemma StackedAfterBegin(s: State, t: Tid, s': State)
    requires Stacked(s.place, s.actors) && t in s.actors && (s.actors[t].doing.Inline? || s.actors[t].doing.Got?)
    requires var x, inline := s.actors[t].doing.x, s.actors[t].doing.Inline?;
             && x in s.place && !WasCalled(s.place[x]) && (!inline ==> s.actors[t].running == [])
             && s'.place == s.place[x := if inline then Nested(t) else Active(t)]
             && s'.actors == s.actors[t := Actor(s.actors[t].running + [Run(x, inline, s.calls(x))], Idle)]
    ensures Stacked(s'.place, s'.actors)
  {
    var x := s.actors[t].doing.x;
    forall u, i | u in s'.actors && 0 <= i < |s'.actors[u].running|
      ensures InFrame(s'.place, u, s'.actors[u].running[i])
    {
      if u != t || i < |s.actors[t].running| { assert InFrame(s.place, u, s.actors[u].running[i]); }
    }
    forall y | y in s'.place && s'.place[y].Active? ensures Outermost(s'.actors, s'.place[y].t, y) {
      if y != x { assert Outermost(s.actors, s.place[y].t, y); }
    }
  }

  lemma CalledAccounts(s: State, x: TaskId, p: Place, s': State)
    requires Accounted(s) && x in s.place && ((s.place[x].Offered? && p.Nested?) || (s.place[x].Carried? && p.Active?))
    requires s'.runs == Called(s.runs, x) && s'.outcome == s.outcome && s'.place == s.place[x := p]
    ensures Accounted(s')
  {
  }

  lemma FinishKeeps(s: State, a: Action)
    requires Inv(s) && Enabled(s, a) && a.Finish?
    ensures Inv(Next(s, a))
  {
    hide Q.Inv, Placed, Stacked, Accounted, Promised, Phases, Consistent, Frames;
    var t, s' := a.t, Next(s, a);
    var n, who := |s.actors[t].running| - 1, s'.actors[t];
    var r := s.actors[t].running[n];
    TopIs(s, t);
    FramesAfterFinish(s, t);
    ThreadsApart(s, t, who, s');
    PhasesApart(s, t, who, s');
    HandsElsewhere(s, t, who, s');
    SettledPlaced(s, t, who, r.x, Done, s');
    StackedAfterFinish(s, t, s');
    DoneAccounts(s, r, s');
  }

  lemma TopIs(s: State, t: Tid)
    requires Threads(s) && Stacked(s.place, s.actors) && t in s.actors && s.actors[t].running != []
    requires s.actors[t].doing.Idle?
    ensures t in s.queue.locs && s.queue.locs[t].Outside?
    ensures InFrame(s.place, t, s.actors[t].running[|s.actors[t].running| - 1])
  {
    hide Frames, InFrame;
    assert Consistent(t in s.crew, s.actors[t], s.queue.locs[t]);
  }

  lemma FramesAfterFinish(s: State, t: Tid)
    requires Threads(s) && t in s.actors && s.actors[t].running != [] && s.actors[t].doing.Idle?
    ensures var running := s.actors[t].running[..|s.actors[t].running| - 1];
            Frames(t in s.crew, running) && Consistent(t in s.crew, Actor(running, Idle), Q.Outside)
  {
    assert Frames(t in s.crew, s.actors[t].running);
  }

  lemma StackedAfterFinish(s: State, t: Tid, s': State)
    requires Stacked(s.place, s.actors) && t in s.actors && s.actors[t].running != []
    requires Frames(t in s.crew, s.actors[t].running)
    requires s'.place == s.place[s.actors[t].running[|s.actors[t].running| - 1].x := Done]
    requires s'.actors == s.actors[t := Actor(s.actors[t].running[..|s.actors[t].running| - 1], Idle)]
    ensures Stacked(s'.place, s'.actors)
  {
    var n := |s.actors[t].running| - 1;
    var r := s.actors[t].running[n];
    assert InFrame(s.place, t, r);
    forall u, i | u in s'.actors && 0 <= i < |s'.actors[u].running|
      ensures InFrame(s'.place, u, s'.actors[u].running[i])
    {
      assert s'.actors[u].running[i] == s.actors[u].running[i];
      assert InFrame(s.place, u, s.actors[u].running[i]);
    }
    forall y | y in s'.place && s'.place[y].Active? ensures Outermost(s'.actors, s'.place[y].t, y) {
      assert Outermost(s.actors, s.place[y].t, y);
      if s.place[y].t == t && n == 0 { assert false; }
    }
  }

  lemma DoneAccounts(s: State, r: Run, s': State)
    requires Accounted(s) && r.x in s.place && WasCalled(s.place[r.x])
    requires s'.runs == s.runs && s'.place == s.place[r.x := Done]
    requires s'.outcome == if r.inline then s.outcome[r.x := Future] else s.outcome
    ensures Accounted(s')
  {
  }

  lemma FinishPutKeeps(s: State, a: Action)
    requires Inv(s) && Enabled(s, a) && a.FinishPut?
    ensures Inv(Next(s, a))
  {
    hide Placed, Stacked, Accounted, Promised, Phases, Frames, Q.Inv;
    var t, x, code := a.t, s.actors[a.t].doing.x, s.queue.locs[a.t].code;
    assert Consistent(t in s.crew, s.actors[t], s.queue.locs[t]);
    if code == Q.Accepted {
      PromiseKept(s, t);
      ReturnKeeps(s, t, Idle);
      FutureKeeps(WithQueue(s, t, Q.Next(s.queue, Q.Return(t)), Idle), x);
    } else {
      ReturnKeeps(s, t, Inline(x));
      if code != Q.Full || s.policy != CallerRuns {
        var m := WithQueue(s, t, Q.Next(s.queue, Q.Return(t)), Inline(x));
        assert m.place == s.place && Turn(m, t, Idle) == Turn(s, t, Idle);
        RefuseKeeps(m, t, WhyRefused(code), Next(s, a));
      }
    }
  }

  lemma PromiseKept(s: State, t: Tid)
    requires Threads(s) && Promised(s) && t in s.actors && s.actors[t].doing.Submitting?
    requires s.queue.locs[t].PutDone? && s.queue.locs[t].code == Q.Accepted
    ensures s.actors[t].doing.x in s.place && OnItsWay(s.place[s.actors[t].doing.x])
  {
    assert Promises(s, t) == Some(s.actors[t].doing.x);
  }

  lemma FutureKeeps(s: State, x: TaskId)
    requires Inv(s) && x in s.place && OnItsWay(s.place[x])
    ensures Inv(s.(outcome := s.outcome[x := Future]))
  {
    hide Q.Inv, Offers, Carries, Promises, Threads, Placed, Stacked, Promised, Phases;
    var s' := s.(outcome := s.outcome[x := Future]);
    OutcomeIsApart(s, s');
  }

  // The outcomes handed out do not bear on where threads and tasks are.
  lemma OutcomeIsApart(s: State, s': State)
    requires s' == s.(outcome := s'.outcome)
    ensures Threads(s) ==> Threads(s')
    ensures Placed(s) ==> Placed(s')
    ensures Promised(s) ==> Promised(s')
    ensures Phases(s) ==> Phases(s')
  {
    hide Offers, Carries, Promises, Consistent, Frames;
    HandsSame(s, s');
  }

  lemma HandsSame(s: State, s': State)
    requires s'.queue == s.queue && s'.actors == s.actors
    ensures forall u ::
              Offers(s', u) == Offers(s, u) && Carries(s', u) == Carries(s, u) && Promises(s', u) == Promises(s, u)
  {
  }

  // A call by client code or by a task leaves the thread's stack as it is, but for the count.
  lemma CallFrames(s: State, t: Tid, doing: Doing)
    requires Threads(s) && t in s.actors && MayCall(s.actors[t], t in s.crew)
    requires doing.Idle? || doing.Checked? || doing.Locking?
    ensures t in s.queue.locs && s.queue.locs[t].Outside?
    ensures SameRuns(s.actors[t].running, Spent(s.actors[t].running)) && Frames(t in s.crew, Spent(s.actors[t].running))
    ensures Consistent(t in s.crew, Actor(Spent(s.actors[t].running), doing), Q.Outside)
  {
    assert Consistent(t in s.crew, s.actors[t], s.queue.locs[t]) && Frames(t in s.crew, s.actors[t].running);
  }

  lemma SubmitKeeps(s: State, a: Action)
    requires Inv(s) && Enabled(s, a) && a.Submit?
    ensures Inv(Next(s, a))
  {
    hide Q.Inv, Placed, Stacked, Accounted, Promised, Phases, Consistent, Frames, Spent;
    var t, s' := a.t, Next(s, a);
    var who := s'.actors[t];
    CallFrames(s, t, who.doing);
    ThreadsApart(s, t, who, s');
    PhasesApart(s, t, who, s');
    NewIdIsNew(s);
    IssuePlaced(s, t, who, s');
    assert forall u :: u in s.actors ==> SameRuns(s.actors[u].running, s'.actors[u].running);
    StackedAfterMove(s.place, s.actors, s.issued, s'.place[s.issued], s'.actors);
    IssueAccounts(s, s');
  }

  lemma IssuePlaced(s: State, t: Tid, who: Actor, s': State)
    requires Placed(s) && Promised(s) && Apart(s, t, who, s') && s'.issued == s.issued + 1 && s.actors[t].doing.Idle?
    requires || (s'.place == s.place[s.issued := Refused] && who.doing.Idle?)
             || (s'.place == s.place[s.issued := Offered(t)] && who.doing == Checked(s.issued))
    ensures Placed(s') && Promised(s')
  {
    HandsElsewhere(s, t, who, s');
    BufferedElse(s.place, s.queue.q.buffer, s.issued, Refused);
    BufferedElse(s.place, s.queue.q.buffer, s.issued, Offered(t));
    hide Offers, Carries, Promises, Apart, Buffered;
    assert s'.queue == s.queue by { ApartQueue(s, t, who, s'); }
    assert forall u :: Promises(s', u) == Promises(s, u);
  }

  lemma IssueAccounts(s: State, s': State)
    requires Accounted(s) && s.issued !in s.place && s'.runs == s.runs[s.issued := 0]
    requires || (s'.place == s.place[s.issued := Refused] && s'.outcome == s.outcome[s.issued := Threw(PoolStopped)])
             || (exists t :: s'.place == s.place[s.issued := Offered(t)] && s'.outcome == s.outcome)
    ensures Accounted(s')
  {
  }

  lemma NewIdIsNew(s: State)
    requires Placed(s)
    ensures s.issued !in s.place
  {
  }

  // Shutting down and joining move no task.
  predicate Controls(a: Action) { a.Shutdown? || a.Lock? || a.FinishClose? || a.Join? }

  lemma ControlKeeps(s: State, a: Action)
    requires Inv(s) && Enabled(s, a) && Controls(a)
    ensures Inv(Next(s, a))
  {
    hide Q.Inv, Placed, Stacked, Accounted, Promised, Phases, Threads, Consistent, Frames, Apart, Next, Enabled;
    var t, s' := a.t, Next(s, a);
    ControlApart(s, a);
    var who := s'.actors[t];
    ThreadsApart(s, t, who, s');
    if a.Shutdown? { PhasesApart(s, t, who, s'); } else { ControlPhases(s, a); }
    ControlPlaced(s, t, who, s');
    StackedStays(s.place, s.actors, s'.actors);
    SameAccounts(s, s');
  }

  lemma ControlApart(s: State, a: Action)
    requires Threads(s) && Enabled(s, a) && Controls(a)
    ensures var s' := Next(s, a);
            && a.t in s'.actors && Apart(s, a.t, s'.actors[a.t], s') && s'.place == s.place && s'.issued == s.issued
            && s'.runs == s.runs && s'.outcome == s.outcome && s'.queue == s.queue && s'.actors.Keys == s.actors.Keys
            && Frames(a.t in s.crew, s'.actors[a.t].running) && Consistent(a.t in s.crew, s'.actors[a.t], Q.Outside)
            && (forall u :: u in s.actors ==> SameRuns(s.actors[u].running, s'.actors[u].running))
            && ControlDoing(s.actors[a.t].doing) && ControlDoing(s'.actors[a.t].doing)
            && (a.Shutdown? ==> s'.phase == s.phase && s.actors[a.t].doing.Idle? && s'.actors[a.t].doing.Locking?)
  {
    hide Spent, MutexFree, Frames, Consistent, Threads;
    if a.Shutdown? { CallFrames(s, a.t, Locking); }
    else if a.Join? { CallFrames(s, a.t, Idle); }
    else { LockFrames(s, a.t, Next(s, a).actors[a.t].doing); }
  }

  predicate ControlDoing(doing: Doing) { doing.Idle? || doing.Locking? || doing.Closing? }

  lemma LockFrames(s: State, t: Tid, doing: Doing)
    requires Threads(s) && t in s.actors && t in s.queue.locs && (doing.Idle? || doing.Closing?)
    requires s.actors[t].doing.Locking? || (s.actors[t].doing.Closing? && s.queue.locs[t].Outside?)
    ensures s.queue.locs[t].Outside? && Frames(t in s.crew, s.actors[t].running)
    ensures Consistent(t in s.crew, s.actors[t].(doing := doing), Q.Outside)
  {
    hide Frames;
    assert Consistent(t in s.crew, s.actors[t], s.queue.locs[t]) && Frames(t in s.crew, s.actors[t].running);
  }

  lemma ControlPlaced(s: State, t: Tid, who: Actor, s': State)
    requires Placed(s) && Promised(s) && Apart(s, t, who, s') && s'.place == s.place && s'.issued == s.issued
    requires ControlDoing(s.actors[t].doing) && ControlDoing(who.doing)
    ensures Placed(s') && Promised(s')
  {
    HandsElsewhere(s, t, who, s');
    hide Offers, Carries, Promises, Apart;
    assert forall u ::
             Offers(s', u) == Offers(s, u) && Carries(s', u) == Carries(s, u) && Promises(s', u) == Promises(s, u);
  }

  lemma ControlPhases(s: State, a: Action)
    requires Threads(s) && Phases(s) && Enabled(s, a) && (a.Lock? || a.FinishClose? || a.Join?)
    ensures Phases(Next(s, a))
  {
    hide Threads, Phases, Spent;
    if a.Lock? { LockPhases(s, a); } else if a.FinishClose? { FinishClosePhases(s, a); } else { JoinPhases(s, a); }
  }

  lemma LockPhases(s: State, a: Action)
    requires Phases(s) && Enabled(s, a) && a.Lock?
    ensures Phases(Next(s, a))
  {
    var s' := Next(s, a);
    assert forall w :: w in s.crew && w in s.actors ==>
             (Leaving(s'.actors[w].doing, s'.queue.locs, w) <==> Leaving(s.actors[w].doing, s.queue.locs, w));
    if s.phase == Running { assert s'.actors[a.t].doing.Closing?; }
    else { assert forall u :: u in s.actors ==> s'.actors[u].doing.Closing? == s.actors[u].doing.Closing?; }
  }

  lemma FinishClosePhases(s: State, a: Action)
    requires Phases(s) && Enabled(s, a) && a.FinishClose?
    ensures Phases(Next(s, a))
  {
    var s' := Next(s, a);
    assert forall w :: w in s.crew && w in s.actors ==>
             (Leaving(s'.actors[w].doing, s'.queue.locs, w) <==> Leaving(s.actors[w].doing, s.queue.locs, w));
    assert s.actors[a.t].doing.Closing?;
  }

  lemma JoinPhases(s: State, a: Action)
    requires Phases(s) && Enabled(s, a) && a.Join?
    ensures Phases(Next(s, a))
  {
    hide Spent;
    var s' := Next(s, a);
    assert forall u :: u in s.actors ==> s'.actors[u].doing == s.actors[u].doing;
  }

  lemma NextKeepsInv(s: State, a: Action)
    requires Inv(s) && Enabled(s, a)
    ensures Inv(Next(s, a))
  {
    hide Inv;
    match a
    case Submit(_) => SubmitKeeps(s, a);
    case Enqueue(_, _) => EnqueueKeeps(s, a);
    case Inner(_, _) => InnerKeeps(s, a);
    case FinishPut(_) => FinishPutKeeps(s, a);
    case WorkerTake(_) => TakeKeeps(s, a);
    case WorkerGot(t) => GotKeeps(s, a);
    case Begin(_) => BeginKeeps(s, a);
    case Finish(_) => FinishKeeps(s, a);
    case CloseQueue(_) => CloseKeeps(s, a);
    case _ => ControlKeeps(s, a);
  }

  lemma GotKeeps(s: State, a: Action)
    requires Inv(s) && Enabled(s, a) && a.WorkerGot?
    ensures Inv(Next(s, a))
  {
    hide Q.Inv, Placed, Stacked, Accounted, Phases, Promised, Frames;
    ReturnKeeps(s, a.t, Next(s, a).actors[a.t].doing);
  }

  // ---- Whole runs -------------------------------------------------------------------------------------------------

  ghost predicate Feasible(s: State, run: seq<Action>)
    decreases |run|
  {
    run == [] || (Enabled(s, run[0]) && Feasible(Next(s, run[0]), run[1..]))
  }

  ghost function Exec(s: State, run: seq<Action>): State
    requires Feasible(s, run)
    decreases |run|
  {
    if run == [] then s else Exec(Next(s, run[0]), run[1..])
  }

  lemma {:induction false} RunKeepsInv(s: State, run: seq<Action>)
    requires Inv(s) && Feasible(s, run)
    ensures Inv(Exec(s, run)) && Exec(s, run).crew == s.crew
    decreases |run|
  {
    hide Inv, Next, Enabled;
    if run == [] {
    } else {
      NextKeepsInv(s, run[0]);
      PolicyStays(s, run[0]);
      RunKeepsInv(Next(s, run[0]), run[1..]);
    }
  }

  lemma InitIsFine(policy: Policy, max: nat, crew: seq<Tid>, clients: set<Tid>, calls: TaskId -> nat)
    requires forall t :: t in clients ==> t !in crew
    ensures Inv(Init(policy, max, crew, clients, calls))
  {
    hide Q.Inv, Offers, Carries, Promises;
    Q.InitIsFine<TaskId>(max, (set w | w in crew) + clients);
    var s := Init(policy, max, crew, clients, calls);
    assert s.actors.Keys == s.queue.locs.Keys;
    InitHands(policy, max, crew, clients, calls);
  }

  lemma InitHands(policy: Policy, max: nat, crew: seq<Tid>, clients: set<Tid>, calls: TaskId -> nat)
    ensures var s := Init(policy, max, crew, clients, calls);
            forall t :: Offers(s, t) == Carries(s, t) == Promises(s, t) == None
  {
  }

  // However submitters, workers, shutdown and join interleave and whatever the rejection policy: once the pool has
  // stopped, every task whose put gave a future has been called exactly once, every task whose put threw has never
  // been called, and nothing is left in the queue.
  lemma StoppedMeansExactlyOnce(
    policy: Policy, max: nat, crew: seq<Tid>, clients: set<Tid>, calls: TaskId -> nat, run: seq<Action>)
    requires crew != [] && (forall t :: t in clients ==> t !in crew)
    requires Feasible(Init(policy, max, crew, clients, calls), run)
    requires Exec(Init(policy, max, crew, clients, calls), run).phase == Stopped
    ensures var s := Exec(Init(policy, max, crew, clients, calls), run);
            && s.queue.q.buffer == []
            && (forall x :: x in s.outcome ==> x in s.runs && s.runs[x] == if s.outcome[x] == Future then 1 else 0)
            && (forall x :: x in s.outcome && s.outcome[x] == Future ==> x in s.place && s.place[x] == Done)
  {
    InitIsFine(policy, max, crew, clients, calls);
    RunKeepsInv(Init(policy, max, crew, clients, calls), run);
    StoppedState(Exec(Init(policy, max, crew, clients, calls), run));
  }

  lemma StoppedState(s: State)
    requires Inv(s) && s.phase == Stopped && s.crew != []
    ensures s.queue.q.buffer == []
    ensures forall x :: x in s.outcome ==> x in s.runs && s.runs[x] == if s.outcome[x] == Future then 1 else 0
    ensures forall x :: x in s.outcome && s.outcome[x] == Future ==> x in s.place && s.place[x] == Done
  {
    hide Q.Inv;
    assert s.crew[0] in s.crew && Leaving(s.actors[s.crew[0]].doing, s.queue.locs, s.crew[0]);
    StoppedHands(s);
  }

  // Once every worker has left, nobody holds a task taken from the queue.
  lemma StoppedHands(s: State)
    requires Threads(s) && forall w :: w in s.crew ==> w in s.actors && s.actors[w].doing.Exited?
    ensures forall t :: Carries(s, t) == None
    ensures forall t, x :: !Outermost(s.actors, t, x)
  {
    forall t ensures Carries(s, t) == None && forall x :: !Outermost(s.actors, t, x) {
      if t in s.actors {
        assert Consistent(t in s.crew, s.actors[t], s.queue.locs[t]) && Frames(t in s.crew, s.actors[t].running);
      }
    }
  }

  // At any time, stopped or not, no task has been called twice and no refused task at all.
  lemma NeverTwice(policy: Policy, max: nat, crew: seq<Tid>, clients: set<Tid>, calls: TaskId -> nat, run: seq<Action>)
    requires forall t :: t in clients ==> t !in crew
    requires Feasible(Init(policy, max, crew, clients, calls), run)
    ensures var s := Exec(Init(policy, max, crew, clients, calls), run);
            && (forall x :: x in s.runs ==> s.runs[x] <= 1)
            && (forall x :: x in s.outcome && s.outcome[x].Threw? ==> x in s.runs && s.runs[x] == 0)
  {
    InitIsFine(policy, max, crew, clients, calls);
    RunKeepsInv(Init(policy, max, crew, clients, calls), run);
    hide Q.Inv, Placed, Stacked, Phases, Threads, Init, Feasible, Exec;
  }

  // ---- When a put throws ------------------------------------------------------------------------------------------

  predicate Waits(policy: Policy) { policy == Block || policy == BlockFor }

  // The policy decides how a put can be refused: only block_for times out, only throw_exception and caller_runs meet a
  // full queue, and a closed one is met only once the pool is stopping.
  ghost predicate Polite(policy: Policy, stopping: bool, loc: Q.Loc<TaskId>) {
    match loc
    case PutParked(_, timed) => Waits(policy) && (timed <==> policy == BlockFor)
    case PutWoken(_, timed, expired) => Waits(policy) && (timed <==> policy == BlockFor) && (expired ==> timed)
    case PutDone(_, code) =>
      && (code == Q.TimedOut ==> policy == BlockFor)
      && (code == Q.Full ==> policy == ThrowException || policy == CallerRuns)
      && (code == Q.Closed ==> stopping)
    case _ => true
  }

  // What put throws tells the caller why: the pool is being stopped, the queue was full and the policy is
  // throw_exception, or the time ran out and the policy is block_for.
  predicate MayThrow(policy: Policy, stopping: bool, why: Failure) {
    match why
    case PoolStopped => stopping
    case QueueFull => policy == ThrowException
    case TaskRejected => policy == BlockFor
  }

  ghost predicate Justified(s: State) {
    && (forall t :: t in s.queue.locs ==> Polite(s.policy, s.phase != Running, s.queue.locs[t]))
    && (forall x :: x in s.outcome && s.outcome[x].Threw? ==> MayThrow(s.policy, s.phase != Running, s.outcome[x].why))
  }

  lemma QueueStaysPolite(q: Q.State<TaskId>, a: Q.Action<TaskId>, policy: Policy, stopping: bool)
    requires Q.Enabled(q, a) && (a.Put? ==> a.mode == ModeOf(policy)) && (!q.q.open ==> stopping)
    requires forall t :: t in q.locs ==> Polite(policy, stopping, q.locs[t])
    ensures forall t :: t in Q.Next(q, a).locs ==> Polite(policy, stopping, Q.Next(q, a).locs[t])
  {
  }

  lemma PutIsJustified(s: State, a: Action)
    requires Inv(s) && Justified(s) && Enabled(s, a)
    ensures Justified(Next(s, a))
  {
    hide *;
    if InQueue(a) { QueueIsJustified(s, a); } else { RestIsJustified(s, a); }
  }

  lemma QueueIsJustified(s: State, a: Action)
    requires Inv(s) && Justified(s) && Enabled(s, a) && InQueue(a)
    ensures Justified(Next(s, a))
  {
    hide Q.Inv, Q.Next, Q.Enabled, Threads, Placed, Stacked, Accounted, Promised, Polite, Moved, MayThrow;
    QueueActionEnabled(s, a);
    QueueStaysPolite(s.queue, QueueAction(s, a), s.policy, s.phase != Running);
    if a.FinishPut? { RefusalIsPolite(s, a.t); }
  }

  lemma RestIsJustified(s: State, a: Action)
    requires Justified(s) && Enabled(s, a) && !InQueue(a)
    ensures Justified(Next(s, a))
  {
    hide Q.Next, Q.Enabled, Polite, Spent, MutexFree;
    if a.Lock? { PolitenessStays(s); }
  }

  lemma RefusalIsPolite(s: State, t: Tid)
    requires t in s.queue.locs && s.queue.locs[t].PutDone? && Polite(s.policy, s.phase != Running, s.queue.locs[t])
    ensures s.policy == Block || s.policy == CallerRuns ==>
              var code := s.queue.locs[t].code;
              code == Q.Accepted || (code == Q.Full && s.policy == CallerRuns) || s.phase != Running
    ensures var code, stopping := s.queue.locs[t].code, s.phase != Running;
            && (code == Q.Closed ==> MayThrow(s.policy, stopping, PoolStopped))
            && (code == Q.Full && s.policy != CallerRuns ==> MayThrow(s.policy, stopping, QueueFull))
            && (code == Q.TimedOut ==> MayThrow(s.policy, stopping, TaskRejected))
  {
  }

  lemma PolitenessStays(s: State)
    requires forall t :: t in s.queue.locs ==> Polite(s.policy, s.phase != Running, s.queue.locs[t])
    ensures forall t :: t in s.queue.locs ==> Polite(s.policy, true, s.queue.locs[t])
  {
  }

  lemma PolicyStays(s: State, a: Action)
    requires Enabled(s, a)
    ensures Next(s, a).policy == s.policy && Next(s, a).crew == s.crew
  {
    hide Q.Next, Spent, MutexFree;
  }

  lemma {:induction false} RunIsJustified(s: State, run: seq<Action>)
    requires Inv(s) && Justified(s) && Feasible(s, run)
    ensures Justified(Exec(s, run)) && Exec(s, run).policy == s.policy
    decreases |run|
  {
    hide Inv, Justified, Next, Enabled;
    if run == [] {
    } else {
      PolicyStays(s, run[0]);
      NextKeepsInv(s, run[0]);
      PutIsJustified(s, run[0]);
      RunIsJustified(Next(s, run[0]), run[1..]);
    }
  }

  // In every run what a put has thrown is one of the three the policy allows.
  lemma PutThrowsForCause(
    policy: Policy, max: nat, crew: seq<Tid>, clients: set<Tid>, calls: TaskId -> nat, run: seq<Action>, x: TaskId)
    requires Feasible(Init(policy, max, crew, clients, calls), run) && forall t :: t in clients ==> t !in crew
    requires var s := Exec(Init(policy, max, crew, clients, calls), run); x in s.outcome && s.outcome[x].Threw?
    ensures var s := Exec(Init(policy, max, crew, clients, calls), run);
            && (s.outcome[x].why == PoolStopped ==> s.phase != Running)
            && (s.outcome[x].why == QueueFull ==> policy == ThrowException)
            && (s.outcome[x].why == TaskRejected ==> policy == BlockFor)
  {
    InitIsFine(policy, max, crew, clients, calls);
    RunIsJustified(Init(policy, max, crew, clients, calls), run);
    hide Init, Exec, Feasible, Inv, Polite;
  }

  // Under block and caller_runs a put throws only when the pool is stopping: a full queue alone never refuses a task.
  lemma BlockingPutThrowsOnlyOnStop(
    policy: Policy, max: nat, crew: seq<Tid>, clients: set<Tid>, calls: TaskId -> nat, run: seq<Action>, x: TaskId)
    requires (policy == Block || policy == CallerRuns) && (forall t :: t in clients ==> t !in crew)
    requires Feasible(Init(policy, max, crew, clients, calls), run)
    requires var s := Exec(Init(policy, max, crew, clients, calls), run); x in s.outcome && s.outcome[x].Threw?
    ensures Exec(Init(policy, max, crew, clients, calls), run).phase != Running
  {
    InitIsFine(policy, max, crew, clients, calls);
    RunIsJustified(Init(policy, max, crew, clients, calls), run);
  }

  // From the start of a shutdown on, in any continuation: a put throws ThreadPoolStopped at once and leaves the queue
  // alone.
  lemma LatePutThrows(s: State, later: seq<Action>, t: Tid)
    requires s.phase != Running && Feasible(s, later) && Enabled(Exec(s, later), Submit(t))
    ensures var s1 := Exec(s, later);
            var s2 := Next(s1, Submit(t));
            && s2.outcome == s1.outcome[s1.issued := Threw(PoolStopped)] && s2.queue == s1.queue
            && s2.actors[t].doing.Idle? && s2.runs == s1.runs[s1.issued := 0]
  {
    NeverRunningAgain(s, later);
  }

  lemma {:induction false} NeverRunningAgain(s: State, later: seq<Action>)
    requires s.phase != Running && Feasible(s, later)
    ensures Exec(s, later).phase != Running
    decreases |later|
  {
    if later == [] {
    } else {
      assert Next(s, later[0]).phase != Running by { hide Q.Next, Spent, MutexFree; }
      NeverRunningAgain(Next(s, later[0]), later[1..]);
    }
  }

  // Under throw_exception and caller_runs no put ever waits; under block none gives up for time, and under block_for
  // every wait has a deadline.
  lemma WaitsByPolicy(
    policy: Policy, max: nat, crew: seq<Tid>, clients: set<Tid>, calls: TaskId -> nat, run: seq<Action>, t: Tid)
    requires Feasible(Init(policy, max, crew, clients, calls), run) && forall t :: t in clients ==> t !in crew
    requires t in Exec(Init(policy, max, crew, clients, calls), run).queue.locs
    ensures var loc := Exec(Init(policy, max, crew, clients, calls), run).queue.locs[t];
            && (loc.PutParked? || loc.PutWoken? ==>
                  policy != ThrowException && policy != CallerRuns && (loc.timed <==> policy == BlockFor))
            && (loc.PutDone? && loc.code == Q.TimedOut ==> policy == BlockFor)
            && (loc.PutDone? && loc.code == Q.Full ==> policy == ThrowException || policy == CallerRuns)
  {
    InitIsFine(policy, max, crew, clients, calls);
    RunIsJustified(Init(policy, max, crew, clients, calls), run);
    hide Init, Exec, Feasible, Inv;
    var s := Exec(Init(policy, max, crew, clients, calls), run);
    assert Polite(s.policy, s.phase != Running, s.queue.locs[t]);
  }

  // What a put meets when it enters the queue.
  function Met(s: State, t: Tid, x: TaskId): Q.Loc<TaskId> {
    var full := s.queue.q.max > 0 && |s.queue.q.buffer| >= s.queue.q.max;
    if !s.queue.q.open then Q.PutDone(x, Q.Closed)
    else if !full then Q.PutDone(x, Q.Accepted)
    else match s.policy
      case ThrowException => Q.PutDone(x, Q.Full)
      case CallerRuns => Q.PutDone(x, Q.Full)
      case Block => Q.PutParked(x, false)
      case BlockFor => Q.PutParked(x, true)
  }

  lemma EntryDecides(s: State, a: Action)
    requires Enabled(s, a) && a.Enqueue?
    ensures a.t in Next(s, a).queue.locs && a.t in Next(s, a).actors
    ensures Next(s, a).queue.locs[a.t] == Met(s, a.t, s.actors[a.t].doing.x)
    ensures Next(s, a).actors[a.t] == s.actors[a.t].(doing := Submitting(s.actors[a.t].doing.x))
  {
  }

  // The steps of others leave a put that has its answer alone.
  lemma {:induction false} AnswerStays(s: State, t: Tid, later: seq<Action>)
    requires Feasible(s, later) && forall i :: 0 <= i < |later| ==> later[i].t != t
    requires t in s.actors && t in s.queue.locs && s.queue.locs[t].PutDone?
    ensures var s' := Exec(s, later);
            && t in s'.actors && s'.actors[t] == s.actors[t] && t in s'.queue.locs
            && s'.queue.locs[t] == s.queue.locs[t] && s'.policy == s.policy
    decreases |later|
  {
    hide Next, Enabled, Q.Next, Q.Enabled;
    if later == [] {
    } else {
      AnswerStep(s, later[0], t);
      AnswerStays(Next(s, later[0]), t, later[1..]);
    }
  }

  lemma AnswerStep(s: State, a: Action, t: Tid)
    requires Enabled(s, a) && a.t != t && t in s.actors && t in s.queue.locs && s.queue.locs[t].PutDone?
    ensures var s' := Next(s, a);
            && t in s'.actors && s'.actors[t] == s.actors[t] && t in s'.queue.locs
            && s'.queue.locs[t] == s.queue.locs[t] && s'.policy == s.policy
  {
    hide Next, Q.Next, Q.Enabled, Quiet, Pushes, Pops;
    PolicyStays(s, a);
    if InQueue(a) {
      QueueActionEnabled(s, a);
      QueueEffect(s.queue, QueueAction(s, a));
    } else {
      OwnStepKeeps(s, a);
    }
  }

  // The end of a put, for each answer of the queue.
  lemma AnswerEnds(s: State, t: Tid, x: TaskId, code: Q.PutCode)
    requires t in s.actors && s.actors[t].doing == Submitting(x)
    requires t in s.queue.locs && s.queue.locs[t] == Q.PutDone(x, code)
    ensures Enabled(s, FinishPut(t))
    ensures var s', inline := Next(s, FinishPut(t)), code == Q.Full && s.policy == CallerRuns;
            && s'.actors == s.actors[t := s.actors[t].(doing := if inline then Inline(x) else Idle)]
            && s'.outcome ==
               (if inline then s.outcome
                else s.outcome[x := match code
                                    case Accepted => Future
                                    case Closed => Threw(PoolStopped)
                                    case Full => Threw(QueueFull)
                                    case TimedOut => Threw(TaskRejected)])
            && s'.place == (if inline || code == Q.Accepted then s.place else s.place[x := Refused])
  {
  }

  // How a put that does not wait ends, whatever others do before it returns: it throws exactly when the queue was
  // closed, or full under throw_exception; under caller_runs it goes on to run the task exactly when the queue was
  // full; otherwise it gives a future.  All of it in terms of the queue at the moment the put entered it.
  lemma PutEndsByPolicy(s: State, a: Action, later: seq<Action>)
    requires Enabled(s, a) && a.Enqueue? && Feasible(Next(s, a), later)
    requires s.policy == ThrowException || s.policy == CallerRuns
    requires forall i :: 0 <= i < |later| ==> later[i].t != a.t
    ensures var s1, t, x := Exec(Next(s, a), later), a.t, s.actors[a.t].doing.x;
            var closed, full := !s.queue.q.open, s.queue.q.max > 0 && |s.queue.q.buffer| >= s.queue.q.max;
            var inline := !closed && full && s.policy == CallerRuns;
            && t in s1.actors && Enabled(s1, FinishPut(t))
            && var s2 := Next(s1, FinishPut(t));
               && s2.actors == s1.actors[t := s.actors[t].(doing := if inline then Inline(x) else Idle)]
               && s2.outcome ==
                  if inline then s1.outcome
                  else s1.outcome[x := if closed then Threw(PoolStopped) else if full then Threw(QueueFull) else Future]
  {
    EntryDecides(s, a);
    PolicyStays(s, a);
    hide Next, Enabled, Q.Next, Q.Enabled;
    AnswerStays(Next(s, a), a.t, later);
    AnswerEnds(Exec(Next(s, a), later), a.t, s.actors[a.t].doing.x, Met(s, a.t, s.actors[a.t].doing.x).code);
  }

  // ---- Draining ---------------------------------------------------------------------------------------------------

  // The steps left once the queue is closed: for a put or shutdown under way, for the tasks a thread is in, and for a
  // worker's loop.
  function Errand(doing: Doing, loc: Q.Loc<TaskId>, calls: TaskId -> nat): nat {
    match doing
    case Checked(_) => 2
    case Submitting(_) =>
      (match loc
       case PutParked(_, _) => 3
       case PutWoken(_, _, _) => 2
       case PutDone(x, code) => if code == Q.Full then 3 + 2 * calls(x) else 1
       case _ => 0)
    case Inline(x) => 2 + 2 * calls(x)
    case Locking => 1
    case Closing => if loc.CloseUnlocked? then 3 else if loc.CloseHalf? then 2 else 1
    case _ => 0
  }

  function Pending(running: seq<Run>): nat {
    if running == [] then 0 else Pending(running[..|running| - 1]) + 2 * running[|running| - 1].left + 1
  }

  function Loop(doing: Doing, loc: Q.Loc<TaskId>, calls: TaskId -> nat): nat {
    match doing
    case Exited => 0
    case Got(x) => 4 + 2 * calls(x)
    case Idle =>
      (match loc
       case TakeParked => 3
       case TakeUnlocked(x) => 6 + 2 * calls(x)
       case TakeDone(r) => if r.Item? then 5 + 2 * calls(r.x) else if r == Q.Timeout then 3 else 1
       case _ => 2)
    case _ => 2
  }

  function WorkOf(s: State, w: Tid): nat {
    if w in s.actors && w in s.queue.locs then
      var who, loc := s.actors[w], s.queue.locs[w];
      Loop(who.doing, loc, s.calls) + Pending(who.running) + Errand(who.doing, loc, s.calls)
    else 0
  }

  function Total(s: State, crew: seq<Tid>): nat {
    if crew == [] then 0 else WorkOf(s, crew[0]) + Total(s, crew[1..])
  }

  function Waiting(buffer: seq<TaskId>, calls: TaskId -> nat): nat {
    if buffer == [] then 0 else 5 + 2 * calls(buffer[0]) + Waiting(buffer[1..], calls)
  }

  function Measure(s: State): nat { Waiting(s.queue.q.buffer, s.calls) + Total(s, s.crew) }

  ghost predicate Distinct(crew: seq<Tid>) { forall i, j :: 0 <= i < j < |crew| ==> crew[i] != crew[j] }

  lemma {:induction false} TotalMoves(s: State, s': State, crew: seq<Tid>, t: Tid)
    requires Distinct(crew)
    requires forall u :: u in crew && u != t ==> WorkOf(s', u) <= WorkOf(s, u)
    ensures Total(s', crew) <= Total(s, crew) + if t in crew then WorkOf(s', t) - WorkOf(s, t) else 0
  {
    if crew == [] {
    } else {
      TotalMoves(s, s', crew[1..], t);
      assert t in crew <==> t == crew[0] || t in crew[1..];
    }
  }

  lemma QueueActionEnabled(s: State, a: Action)
    requires Enabled(s, a) && InQueue(a)
    ensures Q.Enabled(s.queue, QueueAction(s, a)) && Next(s, a).queue == Q.Next(s.queue, QueueAction(s, a))
    ensures QueueAction(s, a).t == a.t && forall u :: u in s.actors && u != a.t ==> Next(s, a).actors[u] == s.actors[u]
    ensures Next(s, a).actors.Keys == s.actors.Keys && Next(s, a).calls == s.calls && Next(s, a).crew == s.crew
  {
    hide Q.Next, Q.Picks;
  }

  lemma OwnStepKeeps(s: State, a: Action)
    requires Enabled(s, a) && !InQueue(a)
    ensures Next(s, a).crew == s.crew && Next(s, a).calls == s.calls && Next(s, a).queue == s.queue
    ensures Next(s, a).actors.Keys == s.actors.Keys
    ensures forall u :: u in s.actors && u != a.t ==> Next(s, a).actors[u] == s.actors[u]
  {
    hide Q.Next, Spent, MutexFree;
  }

  lemma WokenWorksLess(worker: bool, who: Actor, loc: Q.Loc<TaskId>, loc': Q.Loc<TaskId>, calls: TaskId -> nat)
    requires Consistent(worker, who, loc) && AtMostWoken(loc, loc')
    ensures Loop(who.doing, loc', calls) <= Loop(who.doing, loc, calls)
    ensures Errand(who.doing, loc', calls) <= Errand(who.doing, loc, calls)
  {
  }

  lemma OthersWorkLess(s: State, a: Action, u: Tid)
    requires Threads(s) && Enabled(s, a) && u != a.t
    ensures WorkOf(Next(s, a), u) <= WorkOf(s, u)
  {
    hide Next, Q.Next, Q.Enabled, Pending, Loop, Errand, Quiet, Pushes, Pops, Consistent, Frames, AtMostWoken;
    if InQueue(a) {
      QueueActionEnabled(s, a);
      QueueEffect(s.queue, QueueAction(s, a));
      if u in s.actors {
        WokenWorksLess(u in s.crew, s.actors[u], s.queue.locs[u], Next(s, a).queue.locs[u], s.calls);
      }
    } else {
      OwnStepKeeps(s, a);
    }
  }

  // The acting thread: once the queue is closed it takes an item out, or has less left to do.
  ghost predicate Shrinks(s: State, t: Tid, s': State) {
    && !s'.queue.q.open
    && Waiting(s'.queue.q.buffer, s'.calls) + WorkOf(s', t)
       <= Waiting(s.queue.q.buffer, s.calls) + WorkOf(s, t) - (if t in s.crew then 1 else 0)
    && (t !in s.crew ==> s'.queue.q.buffer == s.queue.q.buffer)
  }

  lemma QueueWorkShrinks(s: State, a: Action)
    requires Threads(s) && Enabled(s, a) && !s.queue.q.open && InQueue(a)
    ensures a.t in s.crew ==> Shrinks(s, a.t, Next(s, a))
    ensures !Next(s, a).queue.q.open && (a.t !in s.crew ==> Next(s, a).queue.q.buffer == s.queue.q.buffer)
  {
    hide Shrinks, Enabled, Next, Threads;
    if a.Inner? { InnerShrinks(s, a); }
    else if a.WorkerTake? || a.WorkerGot? { LoopShrinks(s, a); }
    else if a.Enqueue? { EnqueueShrinks(s, a); }
    else if a.FinishPut? { FinishPutShrinks(s, a); }
    else { NotClosedTwice(s, a); }
  }

  lemma NotClosedTwice(s: State, a: Action)
    requires Enabled(s, a) && a.CloseQueue?
    ensures s.queue.q.open
  {
  }

  lemma LoopShrinks(s: State, a: Action)
    requires Threads(s) && Enabled(s, a) && !s.queue.q.open && (a.WorkerTake? || a.WorkerGot?)
    ensures a.t in s.crew && Shrinks(s, a.t, Next(s, a)) && !Next(s, a).queue.q.open
  {
    hide Frames, Pending, Q.Picks, Moved;
    assert Consistent(a.t in s.crew, s.actors[a.t], s.queue.locs[a.t]);
  }

  lemma InnerShrinks(s: State, a: Action)
    requires Threads(s) && Enabled(s, a) && !s.queue.q.open && a.Inner?
    ensures a.t in s.crew ==> Shrinks(s, a.t, Next(s, a))
    ensures !Next(s, a).queue.q.open && (a.t !in s.crew ==> Next(s, a).queue.q.buffer == s.queue.q.buffer)
  {
    hide Frames, Pending, Q.Picks, Moved;
    assert Consistent(a.t in s.crew, s.actors[a.t], s.queue.locs[a.t]);
  }

  lemma EnqueueShrinks(s: State, a: Action)
    requires Threads(s) && Enabled(s, a) && !s.queue.q.open && a.Enqueue?
    ensures a.t in s.crew ==> Shrinks(s, a.t, Next(s, a))
    ensures !Next(s, a).queue.q.open && (a.t !in s.crew ==> Next(s, a).queue.q.buffer == s.queue.q.buffer)
  {
    hide Frames, Pending, Q.Picks, Consistent, Moved;
  }

  lemma FinishPutShrinks(s: State, a: Action)
    requires Threads(s) && Enabled(s, a) && !s.queue.q.open && a.FinishPut?
    ensures a.t in s.crew ==> Shrinks(s, a.t, Next(s, a))
    ensures !Next(s, a).queue.q.open && (a.t !in s.crew ==> Next(s, a).queue.q.buffer == s.queue.q.buffer)
  {
    hide Frames, Pending, Q.Picks, Moved;
    assert Consistent(a.t in s.crew, s.actors[a.t], s.queue.locs[a.t]);
  }

  lemma SpentShrinks(running: seq<Run>)
    requires running != [] && running[|running| - 1].left > 0
    ensures Pending(Spent(running)) == Pending(running) - 2
  {
    var n := |running| - 1;
    assert Spent(running)[..n] == running[..n];
  }

  lemma OwnWorkShrinks(s: State, a: Action)
    requires Threads(s) && Enabled(s, a) && !s.queue.q.open && !InQueue(a) && s.phase != Running && a.t in s.crew
    ensures Shrinks(s, a.t, Next(s, a))
  {
    hide Spent;
    var running := s.actors[a.t].running;
    assert Consistent(a.t in s.crew, s.actors[a.t], s.queue.locs[a.t]);
    if a.Submit? || a.Shutdown? { SpentShrinks(running); }
    if a.Begin? {
      var r := running + [Run(s.actors[a.t].doing.x, s.actors[a.t].doing.Inline?, s.calls(s.actors[a.t].doing.x))];
      assert r[..|running|] == running;
    }
  }

  // After close every step of a worker lowers the measure and no other step raises it.
  lemma DrainStep(s: State, a: Action)
    requires Inv(s) && Enabled(s, a) && !s.queue.q.open && Distinct(s.crew)
    ensures !Next(s, a).queue.q.open && Next(s, a).crew == s.crew
    ensures Measure(Next(s, a)) <= Measure(s) - if a.t in s.crew then 1 else 0
  {
    assert s.phase != Running;
    hide Q.Inv, Threads, Placed, Stacked, Accounted, Promised, Phases, Enabled, Next, WorkOf;
    if InQueue(a) { QueueActionEnabled(s, a); QueueWorkShrinks(s, a); }
    else {
      OwnStepKeeps(s, a);
      if a.t in s.crew { OwnWorkShrinks(s, a); }
    }
    forall u | u in s.crew && u != a.t ensures WorkOf(Next(s, a), u) <= WorkOf(s, u) { OthersWorkLess(s, a, u); }
    TotalMoves(s, Next(s, a), s.crew, a.t);
  }

  ghost function CrewSteps(crew: seq<Tid>, run: seq<Action>): nat {
    if run == [] then 0 else (if run[0].t in crew then 1 else 0) + CrewSteps(crew, run[1..])
  }

  // Draining terminates: from a closed queue the workers can take no more than Measure steps between them, those of the
  // tasks they run and of the puts and shutdowns that these make included.
  lemma {:induction false} DrainTerminates(s: State, run: seq<Action>)
    requires Inv(s) && Feasible(s, run) && !s.queue.q.open && Distinct(s.crew)
    ensures CrewSteps(s.crew, run) <= Measure(s) - Measure(Exec(s, run))
    decreases |run|
  {
    hide Inv, Measure, Next, Enabled;
    if run == [] {
    } else {
      NextKeepsInv(s, run[0]);
      DrainStep(s, run[0]);
      DrainTerminates(Next(s, run[0]), run[1..]);
    }
  }

  // And it does not stop early: while a worker is left, that worker or the thread that is closing can move, and needs
  // neither a spurious wakeup nor a timeout.
  lemma DrainProgresses(s: State, w: Tid) returns (a: Action)
    requires Inv(s) && !s.queue.q.open && w in s.crew && !s.actors[w].doing.Exited?
    ensures Enabled(s, a) && (a.t == w || (a.t in s.actors && s.actors[a.t].doing.Closing?))
    ensures a.Inner? ==> !a.a.WakeSpuriously? && !a.a.Expire?
  {
    hide Placed, Stacked, Accounted, Promised, Phases, Frames, Q.N, Q.InOrder;
    var who, loc := s.actors[w], s.queue.locs[w];
    assert Consistent(w in s.crew, who, loc);
    match who.doing
    case Checked(x) =>
      var wake := Q.SomeParked(s.queue, Q.ParkedTake);
      a := Enqueue(w, wake);
    case Submitting(_) => a := PutProgresses(s, w);
    case Inline(_) => a := Begin(w);
    case Got(_) => a := Begin(w);
    case Locking => if MutexFree(s) { a := Lock(w); } else {
      var c :| c in s.actors && s.actors[c].doing.Closing?;
      a := CloserProgresses(s, c);
    }
    case Closing => a := CloserProgresses(s, w);
    case Idle => a := IdleProgresses(s, w);
  }

  // A worker in a task can return from it; one in its loop can take, or is still to be notified of the close.
  lemma IdleProgresses(s: State, w: Tid) returns (a: Action)
    requires Q.Inv(s.queue) && Threads(s) && !s.queue.q.open && w in s.crew && s.actors[w].doing.Idle?
    ensures Enabled(s, a) && (a.t == w || (a.t in s.actors && s.actors[a.t].doing.Closing?))
    ensures a.Inner? ==> !a.a.WakeSpuriously? && !a.a.Expire?
  {
    hide Frames, Q.N, Q.InOrder, Q.PuttersServed;
    var who, loc := s.actors[w], s.queue.locs[w];
    assert Consistent(w in s.crew, who, loc);
    if who.running != [] { a := Finish(w); }
    else if loc.Outside? { a := WorkerTake(w); }
    else if loc.TakeDone? { a := WorkerGot(w); }
    else if loc.TakeWoken? { a := Inner(w, Q.Relock(w, w)); }
    else if loc.TakeUnlocked? {
      var wake := Q.SomeParked(s.queue, Q.ParkedPut);
      a := Inner(w, Q.NotifyNotFull(w, wake));
    } else {
      Q.Present(s.queue, w);
      a := CloserOfTakers(s);
    }
  }

  lemma CloserProgresses(s: State, c: Tid) returns (a: Action)
    requires Threads(s) && !s.queue.q.open && c in s.actors && s.actors[c].doing.Closing?
    ensures Enabled(s, a) && a.t == c && (a.Inner? ==> !a.a.WakeSpuriously? && !a.a.Expire?)
  {
    assert Consistent(c in s.crew, s.actors[c], s.queue.locs[c]);
    var loc := s.queue.locs[c];
    a := if loc.CloseUnlocked? then Inner(c, Q.NotifyAllNotEmpty(c))
         else if loc.CloseHalf? then Inner(c, Q.NotifyAllNotFull(c)) else FinishClose(c);
  }

  // A put under way on a closed queue returns: a parked one is still to be notified.
  lemma PutProgresses(s: State, w: Tid) returns (a: Action)
    requires Q.Inv(s.queue) && Threads(s) && !s.queue.q.open && w in s.actors && s.actors[w].doing.Submitting?
    ensures Enabled(s, a) && (a.t == w || (a.t in s.actors && s.actors[a.t].doing.Closing?))
    ensures a.Inner? ==> !a.a.WakeSpuriously? && !a.a.Expire?
  {
    hide Frames, Q.N, Q.InOrder, Q.TakersServed;
    assert Consistent(w in s.crew, s.actors[w], s.queue.locs[w]);
    var loc := s.queue.locs[w];
    if loc.PutDone? { a := FinishPut(w); }
    else if loc.PutWoken? {
      var wake := Q.SomeParked(s.queue, Q.ParkedTake);
      a := Inner(w, Q.Relock(w, wake));
    } else {
      Q.Present(s.queue, w);
      var r := if Q.N(s.queue, Q.ClosingEarly) > 0 then Q.ClosingEarly else Q.ClosingLate;
      var c := Q.SomeParked(s.queue, r);
      assert Consistent(c in s.crew, s.actors[c], s.queue.locs[c]);
      a := CloserProgresses(s, c);
    }
  }

  lemma CloserOfTakers(s: State) returns (a: Action)
    requires Q.Inv(s.queue) && Threads(s) && !s.queue.q.open && Q.N(s.queue, Q.ParkedTake) > 0
    ensures Enabled(s, a) && a.t in s.actors && s.actors[a.t].doing.Closing?
    ensures a.Inner? ==> !a.a.WakeSpuriously? && !a.a.Expire?
  {
    hide Frames, Q.N, Q.InOrder, Q.PuttersServed;
    var c := Q.SomeParked(s.queue, Q.ClosingEarly);
    assert Consistent(c in s.crew, s.actors[c], s.queue.locs[c]);
    a := CloserProgresses(s, c);
  }
}
