/**
  The lazy coroutine tasks of coro/Task.hpp with the schedule points of coro/Schedule.cpp and
  coro/ExecutorScheduler.cpp: any number of task trees on any number of workers.  Frames run one step at a time in any
  interleaving, hand control over by symmetric transfer, post themselves to an executor and are destroyed by the awaiter
  that owns them; the outcome is compared with the direct recursive meaning of each tree.  Await follows section 7.6.2.3
  [expr.await] of ISO C++20.
 */
module Coroutine {
  import opened Common

  const SCHEDULE_REJECTED: int := -1  // the exception of a refused post
  const INVALID_TASK: int := -2       // the exception of awaiting a moved-from task

  datatype Outcome = Value(v: int) | Exception(x: int)

  // The body of a coroutine, from some point on.  It has one local variable; an exception caught at an await or at a
  // schedule point is put into it, and Throw throws it.
  datatype Code =
    | Return                                                                     // co_return local
    | Throw                                                                      // throw local
    | Compute(f: int -> int, rest: Code)                                         // local = f(local)
    | Branch(p: int -> bool, yes: Code, no: Code)
    | Await(child: Code, join: (int, int) -> int, rest: Code, onThrow: Code)     // local = join(local, co_await child)
    | AwaitMoved(onThrow: Code)                                                  // co_await a moved-from task
    | Schedule(accepted: bool, rest: Code, onThrow: Code)                        // co_await schedule(executor)

  // The direct meaning.
  ghost function Eval(c: Code, local: int): Outcome
    decreases c
  {
    match c
    case Return => Value(local)
    case Throw => Exception(local)
    case Compute(f, rest) => Eval(rest, f(local))
    case Branch(p, yes, no) => if p(local) then Eval(yes, local) else Eval(no, local)
    case Await(child, join, rest, onThrow) =>
      (match Eval(child, local)
       case Value(v) => Eval(rest, join(local, v))
       case Exception(x) => Eval(onThrow, x))
    case AwaitMoved(onThrow) => Eval(onThrow, INVALID_TASK)
    case Schedule(accepted, rest, onThrow) => if accepted then Eval(rest, local) else Eval(onThrow, SCHEDULE_REJECTED)
  }

  // ---- The machine ------------------------------------------------------------------------------------------------

  type FrameId = nat

  datatype Status = Suspended | Running | Finished

  // A coroutine frame with its promise: where it will go on, the result once it is set, whom to continue at the end,
  // and the child frame its current awaiter owns.
  datatype Frame = Frame(
    code: Code, local: int, status: Status, result: Option<Outcome>,
    continuation: Option<FrameId>, child: Option<FrameId>)

  // Live frames, of which those running are each in control of some worker; ids given out, frames destroyed, the
  // handles posted to the executor, and the tasks their owners have not resumed yet.  `fault` is set when a running,
  // finished or dead frame is resumed, a result is missing, or a frame is destroyed twice or while it runs.
  datatype State = State(
    frames: map<FrameId, Frame>, next: FrameId, destroyed: set<FrameId>, posted: seq<FrameId>, unstarted: set<FrameId>,
    fault: bool)

  ghost function Put(s: State, id: FrameId, f: Frame): State { s.(frames := s.frames[id := f]) }

  // handle.resume()
  ghost function Resume(s: State, id: FrameId): State {
    if id in s.frames && s.frames[id].status == Suspended then Put(s, id, s.frames[id].(status := Running))
    else s.(fault := true)
  }

  // handle.destroy()
  ghost function Destroy(s: State, id: FrameId): State {
    if id in s.frames && s.frames[id].status != Running
    then s.(frames := s.frames - {id}, destroyed := s.destroyed + {id})
    else s.(fault := true)
  }

  // A call of a coroutine: a fresh frame, suspended before its first statement.
  ghost function Create(s: State, code: Code, local: int): State {
    Put(s, s.next, Frame(code, local, Suspended, None, None, None)).(next := s.next + 1)
  }

  ghost function SetContinuation(s: State, id: FrameId, cont: FrameId): State {
    if id in s.frames then Put(s, id, s.frames[id].(continuation := Some(cont))) else s.(fault := true)
  }

  // The promise has its result; final_suspend hands control to the continuation, if there is one.
  ghost function Finish(s: State, id: FrameId, o: Outcome): State
    requires id in s.frames
  {
    var f := s.frames[id];
    var s1 := Put(s, id, f.(status := Finished, result := Some(o)));
    if f.continuation.Some? then Resume(s1, f.continuation.value) else s1
  }

  // Awaiter::await_suspend of a task: the awaiting frame becomes the continuation of the child and the child takes
  // over.
  ghost function Suspend(s: State, id: FrameId, child: FrameId): State
    requires id in s.frames
  {
    var s1 := Put(s, id, s.frames[id].(status := Suspended, child := Some(child)));
    Resume(SetContinuation(s1, child, id), child)
  }

  // Awaiter::await_resume and ~Awaiter: take the result of the child, destroy its frame, go on.
  ghost function Join(s: State, id: FrameId): State
    requires id in s.frames && s.frames[id].code.Await? && s.frames[id].child.Some?
  {
    var f := s.frames[id];
    var child := f.child.value;
    if child !in s.frames || s.frames[child].result.None? then s.(fault := true)
    else Put(Destroy(s, child), id, Joined(f, s.frames[child].result.value))
  }

  ghost function Joined(f: Frame, o: Outcome): Frame
    requires f.code.Await?
  {
    match o
    case Value(v) => f.(code := f.code.rest, local := f.code.join(f.local, v), child := None)
    case Exception(x) => f.(code := f.code.onThrow, local := x, child := None)
  }

  // One step of a frame in control.
  ghost function RunFrame(s: State, id: FrameId): State
    requires id in s.frames
  {
    var f := s.frames[id];
    match f.code
    case Return => Finish(s, id, Value(f.local))
    case Throw => Finish(s, id, Exception(f.local))
    case Await(child, _, _, _) =>
      if f.child.None? then Suspend(Create(s, child, f.local), id, s.next) else Join(s, id)
    case Schedule(accepted, rest, _) =>
      if accepted then Put(s, id, f.(code := rest, status := Suspended)).(posted := s.posted + [id])
      else Put(s, id, LocalStep(f))
    case _ => Put(s, id, LocalStep(f))
  }

  // Statements that neither end the frame nor suspend it.
  ghost function LocalStep(f: Frame): Frame {
    match f.code
    case Compute(g, rest) => f.(code := rest, local := g(f.local))
    case Branch(p, yes, no) => f.(code := if p(f.local) then yes else no)
    case AwaitMoved(onThrow) => f.(code := onThrow, local := INVALID_TASK)
    case Schedule(_, _, onThrow) => f.(code := onThrow, local := SCHEDULE_REJECTED)
    case _ => f
  }

  ghost predicate IsLocal(c: Code) { c.Compute? || c.Branch? || c.AwaitMoved? || (c.Schedule? && !c.accepted) }

  // The closure that the executor runs: resume the handle unless it is done.
  ghost function RunPosted(s: State, k: nat): State
    requires k < |s.posted|
  {
    var id, s1 := s.posted[k], s.(posted := s.posted[..k] + s.posted[k + 1..]);
    if id in s.frames && s.frames[id].status == Finished then s1 else Resume(s1, id)
  }

  // Task::resume, by the owner of a task.
  ghost function OwnerResume(s: State, id: FrameId): State {
    if id !in s.frames || s.frames[id].status == Finished then s
    else Resume(s.(unstarted := s.unstarted - {id}), id)
  }

  // ~Task, by the owner: a frame that awaits holds the awaiter that owns its child.
  ghost function OwnerDestroy(s: State, id: FrameId): State { DestroyTree(s.(unstarted := s.unstarted - {id}), id) }

  ghost function DestroyTree(s: State, id: FrameId): State
    decreases if id < s.next then s.next - id else 0
  {
    if id in s.frames && s.frames[id].child.Some? && id < s.frames[id].child.value && id < s.next then
      Destroy(DestroyTree(s, s.frames[id].child.value), id)
    else Destroy(s, id)
  }

  // Any running frame may take the next step, and any posted handle may be the next to be run.  Owners resume a task
  // once, and destroy it before that or when it has finished.
  datatype Action = Run(id: FrameId) | Dequeue(k: nat) | Start(id: FrameId) | Drop(id: FrameId)

  ghost predicate Enabled(s: State, a: Action) {
    match a
    case Run(id) => id in s.frames && s.frames[id].status == Running
    case Dequeue(k) => k < |s.posted|
    case Start(id) => id in s.unstarted
    case Drop(id) => MayDrop(s, id)
  }

  ghost predicate MayDrop(s: State, id: FrameId) {
    id in s.frames && s.frames[id].continuation.None? && (id in s.unstarted || s.frames[id].status == Finished)
  }

  ghost function Next(s: State, a: Action): State
    requires Enabled(s, a)
  {
    match a
    case Run(id) => RunFrame(s, id)
    case Dequeue(k) => RunPosted(s, k)
    case Start(id) => OwnerResume(s, id)
    case Drop(id) => OwnerDestroy(s, id)
  }

  // Tasks called with their arguments, each owned by a Task.
  datatype Call = Call(code: Code, arg: int)

  ghost function Init(tasks: seq<Call>): State {
    State(map i: FrameId | 0 <= i < |tasks| :: Frame(tasks[i].code, tasks[i].arg, Suspended, None, None, None),
          |tasks|, {}, [], UpTo(|tasks|), false)
  }

  ghost function UpTo(n: nat): (ids: set<FrameId>)
    ensures |ids| == n && forall i: FrameId :: i in ids <==> i < n
  {
    if n == 0 then {} else UpTo(n - 1) + {n - 1}
  }

  // ---- What a frame still means -----------------------------------------------------------------------------------

  ghost function AfterAwait(c: Code, local: int, o: Outcome): Outcome
    requires c.Await?
  {
    match o
    case Value(v) => Eval(c.rest, c.join(local, v))
    case Exception(x) => Eval(c.onThrow, x)
  }

  // The outcome a frame has or is going to have: its result, or what its code makes of the outcome of its child.
  ghost function Denote(s: State, i: FrameId): Outcome
    decreases if i < s.next then s.next - i else 0
  {
    if i !in s.frames then Value(0)
    else
      var f := s.frames[i];
      if f.result.Some? then f.result.value
      else if f.child.Some? && f.code.Await? && i < f.child.value && i < s.next then
        AfterAwait(f.code, f.local, Denote(s, f.child.value))
      else Eval(f.code, f.local)
  }

  // ---- Invariant --------------------------------------------------------------------------------------------------

  // A frame that awaits is suspended until its child has finished, and then in control again at once.
  ghost predicate Awaits(s: State, i: FrameId, c: FrameId) {
    && i in s.frames && s.frames[i].child == Some(c) && i < c && c in s.frames && s.frames[c].continuation == Some(i)
    && s.frames[i].code.Await? && s.frames[i].status != Finished
    && (s.frames[i].status == Running <==> s.frames[c].status == Finished)
  }

  ghost predicate LinkHolds(s: State, i: FrameId) {
    i in s.frames ==>
      && (s.frames[i].child.Some? ==> Awaits(s, i, s.frames[i].child.value))
      && (s.frames[i].continuation.Some? ==> Awaits(s, s.frames[i].continuation.value, i))
      && (s.frames[i].status == Finished <==> s.frames[i].result.Some?)
  }

  ghost predicate Linked(s: State) { forall i: FrameId {:trigger LinkHolds(s, i)} :: LinkHolds(s, i) }

  ghost predicate Distinct(ids: seq<FrameId>) { forall j, k :: 0 <= j < k < |ids| ==> ids[j] != ids[k] }

  // The suspended frames that await nothing are posted, each once, or not started yet.
  ghost predicate Ready(s: State) {
    && Distinct(s.posted) && (forall i :: i in s.posted ==> IsReady(s, i) && i !in s.unstarted)
    && (forall i :: i in s.unstarted ==> IsReady(s, i) && s.frames[i].continuation.None?)
    && (forall i :: IsReady(s, i) ==> i in s.posted || i in s.unstarted)
  }

  ghost predicate IsReady(s: State, i: FrameId) {
    i in s.frames && s.frames[i].status == Suspended && s.frames[i].child.None?
  }

  // Every frame ever made is alive or destroyed, and nothing has gone wrong.
  ghost predicate Sane(s: State) {
    && !s.fault && (forall i: FrameId :: i < s.next <==> i in s.frames || i in s.destroyed)
    && (forall i :: i in s.frames ==> i !in s.destroyed)
  }

  // The first n frames are the tasks; every other frame is awaited by one.
  ghost predicate Rooted(s: State, n: nat) {
    n <= s.next && forall i :: i in s.frames ==> (i < n <==> s.frames[i].continuation.None?)
  }

  ghost predicate Inv(s: State, n: nat) { Linked(s) && Ready(s) && Sane(s) && Rooted(s, n) }

  // ---- One step ---------------------------------------------------------------------------------------------------

  // A step of frame i leaves the other frames that survive it as they are, but for their status, and their children
  // alive.
  ghost predicate SameElse(s: State, i: FrameId, s': State) {
    s.next <= s'.next && forall j: FrameId {:trigger SameFrame(s, s', j)} :: j != i ==> SameFrame(s, s', j)
  }

  ghost predicate SameFrame(s: State, s': State, j: FrameId) {
    j in s.frames && j in s'.frames ==>
      && s'.frames[j] == s.frames[j].(status := s'.frames[j].status)
      && (s.frames[j].child.Some? && s.frames[j].child.value in s.frames ==> s.frames[j].child.value in s'.frames)
  }

  lemma {:induction false} DenoteElsewhere(s: State, i: FrameId, s': State, j: FrameId)
    requires Linked(s) && Sane(s) && SameElse(s, i, s')
    requires (i in s.frames && i in s'.frames ==> Denote(s', i) == Denote(s, i))
    requires j in s.frames && j in s'.frames
    ensures Denote(s', j) == Denote(s, j)
    decreases s.next - j
  {
    hide Eval;
    assert LinkHolds(s, j);
    assert j != i ==> SameFrame(s, s', j);
    if j != i && s.frames[j].child.Some? { DenoteElsewhere(s, i, s', s.frames[j].child.value); }
  }

  // A step keeps the invariant, and what every surviving frame means.
  ghost predicate Keeps(s: State, s': State, n: nat) {
    Inv(s', n) && forall j :: j in s.frames && j in s'.frames ==> Denote(s', j) == Denote(s, j)
  }

  lemma KeepsFrom(s: State, i: FrameId, s': State, n: nat)
    requires Inv(s, n) && Inv(s', n) && SameElse(s, i, s')
    requires i in s.frames && i in s'.frames ==> Denote(s', i) == Denote(s, i)
    ensures Keeps(s, s', n)
  {
    hide Denote, SameElse, Linked, Ready;
    forall j | j in s.frames && j in s'.frames ensures Denote(s', j) == Denote(s, j) { DenoteElsewhere(s, i, s', j); }
  }

  // The frame goes on within its body, or suspends itself at a schedule point and is posted.
  lemma GoOnKeeps(s: State, id: FrameId, f: Frame, s': State, n: nat)
    requires Inv(s, n) && Enabled(s, Run(id)) && s.frames[id].child.None?
    requires f.child.None? && f.continuation == s.frames[id].continuation && f.result.None?
    requires Eval(f.code, f.local) == Eval(s.frames[id].code, s.frames[id].local)
    requires || (f.status == Running && s' == Put(s, id, f))
             || (f.status == Suspended && s' == Put(s, id, f).(posted := s.posted + [id]))
    ensures Keeps(s, s', n) && SameElse(s, id, s')
  {
    hide Eval;
    assert LinkHolds(s, id) && !IsReady(s, id);
    forall i: FrameId ensures LinkHolds(s', i) { assert LinkHolds(s, i); }
    assert forall i: FrameId :: IsReady(s', i) <==> IsReady(s, i) || (i == id && f.status == Suspended);
    forall j: FrameId | j != id ensures SameFrame(s, s', j) { }
    KeepsFrom(s, id, s', n);
  }

  lemma FinishKeeps(s: State, id: FrameId, o: Outcome, n: nat)
    requires Inv(s, n) && Enabled(s, Run(id)) && s.frames[id].child.None?
    requires Eval(s.frames[id].code, s.frames[id].local) == o
    ensures Keeps(s, Finish(s, id, o), n) && SameElse(s, id, Finish(s, id, o))
  {
    hide Eval;
    var s' := Finish(s, id, o);
    FinishLinks(s, id, o);
    hide Finish, Linked;
    assert forall i: FrameId :: IsReady(s', i) <==> IsReady(s, i);
    assert s.frames[id].result.None? by { assert LinkHolds(s, id) by { LinkAt(s, id); } }
    KeepsFrom(s, id, s', n);
  }

  lemma LinkAt(s: State, i: FrameId)
    requires Linked(s)
    ensures LinkHolds(s, i)
  {
  }

  lemma FinishLinks(s: State, id: FrameId, o: Outcome)
    requires Linked(s) && Enabled(s, Run(id)) && s.frames[id].child.None?
    ensures var s' := Finish(s, id, o);
            && Linked(s') && SameElse(s, id, s') && s' == s.(frames := s'.frames) && s'.frames.Keys == s.frames.Keys
            && s'.frames[id] == s.frames[id].(status := Finished, result := Some(o))
            && forall i :: i in s.frames && i != id ==>
                 || s'.frames[i] == s.frames[i]
                 || (s.frames[i].child.Some? && s'.frames[i] == s.frames[i].(status := Running))
  {
    hide Ready, Rooted;
    var s' := Finish(s, id, o);
    assert LinkHolds(s, id);
    forall i: FrameId ensures LinkHolds(s', i) { assert LinkHolds(s, i); }
    forall j: FrameId | j != id ensures SameFrame(s, s', j) { }
  }

  lemma AwaitKeeps(s: State, id: FrameId, n: nat)
    requires Inv(s, n) && Enabled(s, Run(id)) && s.frames[id].child.None? && s.frames[id].code.Await?
    ensures Keeps(s, RunFrame(s, id), n) && SameElse(s, id, RunFrame(s, id))
  {
    var f, c := s.frames[id], s.next;
    var s' := RunFrame(s, id);
    assert c !in s.frames && id < c && LinkHolds(s, id);
    assert s' == s.(next := c + 1, frames := s.frames
                      [id := f.(status := Suspended, child := Some(c))]
                      [c := Frame(f.code.child, f.local, Running, None, Some(id), None)]);
    hide RunFrame;
    AwaitLinks(s, id, s', n);
    hide Linked, Ready, Rooted;
    assert Denote(s', c) == Eval(f.code.child, f.local);
    KeepsFrom(s, id, s', n);
  }

  lemma AwaitLinks(s: State, id: FrameId, s': State, n: nat)
    requires Inv(s, n) && Enabled(s, Run(id)) && s.frames[id].child.None? && s.frames[id].code.Await?
    requires var f, c := s.frames[id], s.next;
             && c !in s.frames && id < c
             && s' == s.(next := c + 1, frames := s.frames
                           [id := f.(status := Suspended, child := Some(c))]
                           [c := Frame(f.code.child, f.local, Running, None, Some(id), None)])
    ensures Inv(s', n) && SameElse(s, id, s')
  {
    assert LinkHolds(s, id);
    forall i: FrameId ensures LinkHolds(s', i) { assert LinkHolds(s, i); }
    assert forall i: FrameId :: IsReady(s', i) <==> IsReady(s, i);
    forall j: FrameId | j != id ensures SameFrame(s, s', j) { assert LinkHolds(s, j); }
  }

  lemma JoinKeeps(s: State, id: FrameId, n: nat)
    requires Inv(s, n) && Enabled(s, Run(id)) && s.frames[id].child.Some?
    ensures s.frames[id].code.Await? && Keeps(s, Join(s, id), n) && SameElse(s, id, Join(s, id))
  {
    assert LinkHolds(s, id);
    var f := s.frames[id];
    var c: FrameId := f.child.value;
    assert LinkHolds(s, c);
    var o := s.frames[c].result.value;
    var s' := Join(s, id);
    assert s' == s.(frames := (s.frames - {c})[id := Joined(f, o)], destroyed := s.destroyed + {c});
    hide Join;
    forall i: FrameId ensures LinkHolds(s', i) { assert LinkHolds(s, i); }
    assert forall i: FrameId :: IsReady(s', i) <==> IsReady(s, i);
    forall j: FrameId | j != id ensures SameFrame(s, s', j) { assert LinkHolds(s, j); }
    assert Denote(s, c) == o;
    KeepsFrom(s, id, s', n);
  }

  // A ready frame is resumed, by a worker or by its owner.
  lemma ResumeLinks(s: State, id: FrameId, s': State)
    requires Linked(s) && IsReady(s, id) && s'.next == s.next
    requires s'.frames == s.frames[id := s.frames[id].(status := Running)]
    ensures Linked(s') && SameElse(s, id, s') && Denote(s', id) == Denote(s, id)
    ensures forall i: FrameId :: IsReady(s', i) <==> IsReady(s, i) && i != id
  {
    hide Eval;
    assert LinkHolds(s, id);
    forall i: FrameId ensures LinkHolds(s', i) { assert LinkHolds(s, i); }
    forall j: FrameId | j != id ensures SameFrame(s, s', j) { }
  }

  lemma DequeueKeeps(s: State, k: nat, n: nat)
    requires Inv(s, n) && k < |s.posted|
    ensures Keeps(s, RunPosted(s, k), n) && SameElse(s, s.posted[k], RunPosted(s, k))
  {
    var id, s' := s.posted[k], RunPosted(s, k);
    assert IsReady(s, id);
    assert s' == s.(posted := s.posted[..k] + s.posted[k + 1..],
                    frames := s.frames[id := s.frames[id].(status := Running)]);
    ResumeLinks(s, id, s');
    ReadyWithout(s, k, s');
    hide RunPosted, Linked, Ready, Denote;
    KeepsFrom(s, id, s', n);
  }

  lemma RemovedOne(ids: seq<FrameId>, k: nat)
    requires Distinct(ids) && k < |ids|
    ensures var rest := ids[..k] + ids[k + 1..];
            Distinct(rest) && forall i: FrameId :: i in rest <==> i in ids && i != ids[k]
  {
    var rest := ids[..k] + ids[k + 1..];
    assert forall j :: 0 <= j < |rest| ==> rest[j] == ids[if j < k then j else j + 1];
    forall i | i in ids && i != ids[k] ensures i in rest {
      var j :| 0 <= j < |ids| && ids[j] == i;
      assert rest[if j < k then j else j - 1] == i;
    }
  }

  lemma ReadyWithout(s: State, k: nat, s': State)
    requires Ready(s) && k < |s.posted| && s'.posted == s.posted[..k] + s.posted[k + 1..] && s'.unstarted == s.unstarted
    requires s.posted[k] in s'.frames && s'.frames == s.frames[s.posted[k] := s'.frames[s.posted[k]]]
    requires forall i: FrameId :: IsReady(s', i) <==> IsReady(s, i) && i != s.posted[k]
    ensures Ready(s')
  {
    RemovedOne(s.posted, k);
    hide Distinct;
    assert s.posted[k] in s.posted;
  }

  lemma StartKeeps(s: State, id: FrameId, n: nat)
    requires Inv(s, n) && id in s.unstarted
    ensures Keeps(s, OwnerResume(s, id), n) && SameElse(s, id, OwnerResume(s, id))
  {
    var s' := OwnerResume(s, id);
    assert IsReady(s, id);
    assert s' == s.(unstarted := s.unstarted - {id}, frames := s.frames[id := s.frames[id].(status := Running)]);
    ResumeLinks(s, id, s');
    hide OwnerResume, Linked, Denote;
    KeepsFrom(s, id, s', n);
  }

  // A task dropped in time has no child, and nobody refers to it.
  lemma DropIs(s: State, id: FrameId, n: nat)
    requires Inv(s, n) && MayDrop(s, id)
    ensures OwnerDestroy(s, id) ==
            s.(unstarted := s.unstarted - {id}, frames := s.frames - {id}, destroyed := s.destroyed + {id})
    ensures s.frames[id].child.None?
  {
    assert LinkHolds(s, id);
    if id in s.unstarted { assert IsReady(s, id); }
  }

  lemma DropKeeps(s: State, id: FrameId, n: nat)
    requires Inv(s, n) && MayDrop(s, id)
    ensures Keeps(s, OwnerDestroy(s, id), n) && SameElse(s, id, OwnerDestroy(s, id))
  {
    hide Eval;
    DropIs(s, id, n);
    var s' := OwnerDestroy(s, id);
    hide OwnerDestroy;
    forall i: FrameId ensures LinkHolds(s', i) { assert LinkHolds(s, i); }
    assert forall i: FrameId :: IsReady(s', i) <==> IsReady(s, i) && i != id;
    assert id !in s.posted;
    forall j: FrameId | j != id ensures SameFrame(s, s', j) { assert LinkHolds(s, j); }
    KeepsFrom(s, id, s', n);
  }

  // The frame that a step is about.
  ghost function Subject(s: State, a: Action): FrameId
    requires Enabled(s, a)
  {
    match a
    case Run(id) => id
    case Dequeue(k) => s.posted[k]
    case Start(id) => id
    case Drop(id) => id
  }

  lemma NextKeeps(s: State, a: Action, n: nat)
    requires Inv(s, n) && Enabled(s, a)
    ensures Keeps(s, Next(s, a), n) && SameElse(s, Subject(s, a), Next(s, a))
  {
    match a
    case Dequeue(k) => DequeueKeeps(s, k, n);
    case Start(id) => StartKeeps(s, id, n);
    case Drop(id) => DropKeeps(s, id, n);
    case Run(id) =>
      var f := s.frames[id];
      assert LinkHolds(s, id);
      if f.child.Some? { JoinKeeps(s, id, n); }
      else if f.code.Await? { AwaitKeeps(s, id, n); }
      else if f.code.Return? { FinishKeeps(s, id, Value(f.local), n); }
      else if f.code.Throw? { FinishKeeps(s, id, Exception(f.local), n); }
      else if IsLocal(f.code) { GoOnKeeps(s, id, LocalStep(f), Next(s, a), n); }
      else { GoOnKeeps(s, id, f.(code := f.code.rest, status := Suspended), Next(s, a), n); }
  }

  // ---- Every run ends ---------------------------------------------------------------------------------------------

  // An upper bound on the steps a body takes, schedule points counted twice and children included.
  ghost function Size(c: Code): nat {
    match c
    case Compute(_, rest) => 1 + Size(rest)
    case Branch(_, yes, no) => 1 + Size(yes) + Size(no)
    case Await(child, _, rest, onThrow) => 2 + Size(child) + Size(rest) + Size(onThrow)
    case AwaitMoved(onThrow) => 1 + Size(onThrow)
    case Schedule(_, rest, onThrow) => 2 + Size(rest) + Size(onThrow)
    case _ => 1
  }

  // A task has one step more, its destruction by the owner.
  ghost function Weight(f: Frame): nat {
    (if f.continuation.None? then 1 else 0) +
    if f.status == Finished then 0
    else if f.child.Some? && f.code.Await? then 1 + Size(f.code.rest) + Size(f.code.onThrow)
    else Size(f.code)
  }

  ghost function Sum(frames: map<FrameId, Frame>, n: nat): nat {
    if n == 0 then 0 else Sum(frames, n - 1) + if n - 1 in frames then Weight(frames[n - 1]) else 0
  }

  ghost function Left(s: State): nat { Sum(s.frames, s.next) + |s.posted| + |s.unstarted| }

  ghost function WeightAt(frames: map<FrameId, Frame>, i: FrameId): nat { if i in frames then Weight(frames[i]) else 0 }

  lemma {:induction false} SumDiffers(a: map<FrameId, Frame>, b: map<FrameId, Frame>, i: FrameId, n: nat)
    requires forall j: FrameId :: j < n && j != i ==> WeightAt(a, j) == WeightAt(b, j)
    ensures Sum(b, n) - Sum(a, n) == if i < n then WeightAt(b, i) - WeightAt(a, i) else 0
  {
    if n == 0 {
    } else {
      SumDiffers(a, b, i, n - 1);
      assert n - 1 != i ==> WeightAt(a, n - 1) == WeightAt(b, n - 1);
    }
  }

  // Every step leaves less to do.
  lemma NextShrinks(s: State, a: Action, n: nat)
    requires Inv(s, n) && Enabled(s, a)
    ensures Left(Next(s, a)) < Left(s)
  {
    hide Weight, Size;
    match a
    case Dequeue(k) =>
      var id := s.posted[k];
      assert IsReady(s, id);
      SumDiffers(s.frames, Next(s, a).frames, id, s.next) by { ResumedWeighs(s.frames[id]); }
      ResumedWeighs(s.frames[id]);
    case Start(id) =>
      assert IsReady(s, id);
      ResumedWeighs(s.frames[id]);
      SumDiffers(s.frames, Next(s, a).frames, id, s.next);
    case Drop(id) => DropShrinks(s, id, n);
    case Run(id) =>
      assert id < s.next;
      if s.frames[id].child.Some? { JoinShrinks(s, id); }
      else if s.frames[id].code.Await? { AwaitShrinks(s, id); }
      else if s.frames[id].code.Return? || s.frames[id].code.Throw? { FinishShrinks(s, id); }
      else { GoOnShrinks(s, id); }
  }

  lemma DropShrinks(s: State, id: FrameId, n: nat)
    requires Inv(s, n) && MayDrop(s, id)
    ensures Left(OwnerDestroy(s, id)) < Left(s)
  {
    DropIs(s, id, n);
    hide Size;
    SumDiffers(s.frames, s.frames - {id}, id, s.next);
    assert id < s.next;
  }

  lemma ResumedWeighs(f: Frame)
    requires f.status == Suspended
    ensures Weight(f.(status := Running)) == Weight(f)
  {
  }

  lemma GoOnShrinks(s: State, id: FrameId)
    requires Sane(s) && Enabled(s, Run(id)) && s.frames[id].child.None?
    requires IsLocal(s.frames[id].code) || s.frames[id].code.Schedule?
    ensures Left(Next(s, Run(id))) < Left(s)
  {
    SumDiffers(s.frames, Next(s, Run(id)).frames, id, s.next);
  }

  lemma FinishShrinks(s: State, id: FrameId)
    requires Sane(s) && Linked(s) && Enabled(s, Run(id)) && s.frames[id].child.None?
    requires s.frames[id].code.Return? || s.frames[id].code.Throw?
    ensures Left(Next(s, Run(id))) < Left(s)
  {
    var k := s.frames[id].continuation;
    assert LinkHolds(s, id);
    if k.Some? { ResumedWeighs(s.frames[k.value]); }
    SumDiffers(s.frames, Next(s, Run(id)).frames, id, s.next);
  }

  lemma AwaitShrinks(s: State, id: FrameId)
    requires Sane(s) && Enabled(s, Run(id)) && s.frames[id].child.None? && s.frames[id].code.Await?
    ensures Left(Next(s, Run(id))) < Left(s)
  {
    var s', f := Next(s, Run(id)), s.frames[id];
    assert s.next !in s.frames;
    assert s'.frames[s.next] == Frame(f.code.child, f.local, Running, None, Some(id), None);
    assert s'.frames[id] == f.(status := Suspended, child := Some(s.next));
    SumDiffers(s.frames, s'.frames, id, s.next);
  }

  lemma JoinShrinks(s: State, id: FrameId)
    requires Sane(s) && Linked(s) && Enabled(s, Run(id)) && s.frames[id].child.Some?
    ensures Left(Next(s, Run(id))) < Left(s)
  {
    assert LinkHolds(s, id) && LinkHolds(s, s.frames[id].child.value);
    SumDiffers(s.frames, Next(s, Run(id)).frames, id, s.next);
  }

  // A frame that has not finished can go on: it is in control, posted, or waits for a frame that can.
  lemma {:induction false} Progress(s: State, i: FrameId, n: nat) returns (a: Action)
    requires Inv(s, n) && i in s.frames && s.frames[i].status != Finished
    ensures Enabled(s, a) && !a.Drop?
    decreases s.next - i
  {
    assert LinkHolds(s, i);
    if s.frames[i].status == Running { a := Run(i); }
    else if s.frames[i].child.Some? {
      a := Progress(s, s.frames[i].child.value, n);
    } else {
      assert IsReady(s, i);
      if i in s.unstarted { a := Start(i); } else {
        var k :| 0 <= k < |s.posted| && s.posted[k] == i;
        a := Dequeue(k);
      }
    }
  }

  // ---- Whole runs -------------------------------------------------------------------------------------------------

  ghost predicate Feasible(s: State, run: seq<Action>)
    decreases |run|
  {
    run == [] || (Enabled(s, run[0]) && Feasible(Next(s, run[0]), run[1..]))
  }

  ghost function Exec(s: State, run: seq<Action>): State
    requires Feasible(s, run)
    decreases |run|
  {
    if run == [] then s else Exec(Next(s, run[0]), run[1..])
  }

  lemma {:induction false} RunKeeps(s: State, run: seq<Action>, n: nat)
    requires Inv(s, n) && Feasible(s, run)
    ensures Inv(Exec(s, run), n) && |run| + Left(Exec(s, run)) <= Left(s)
    ensures forall i :: i in Exec(s, run).frames && i < n ==> i in s.frames && Denote(Exec(s, run), i) == Denote(s, i)
    decreases |run|
  {
    hide Next, Enabled, Left, Denote, Linked, Ready, Rooted;
    if run == [] {
    } else {
      NextKeeps(s, run[0], n);
      NextShrinks(s, run[0], n);
      OldTasks(s, run[0], n);
      RunKeeps(Next(s, run[0]), run[1..], n);
    }
  }

  // No step brings a task back.
  lemma OldTasks(s: State, a: Action, n: nat)
    requires Inv(s, n) && Enabled(s, a)
    ensures forall i :: i in Next(s, a).frames && i < n ==> i in s.frames
  {
    hide Linked, Ready;
    if a.Drop? { DropFrames(s, a.id); }
  }

  lemma DropFrames(s: State, id: FrameId)
    ensures OwnerDestroy(s, id).frames.Keys <= s.frames.Keys
  {
    TreeFrames(s.(unstarted := s.unstarted - {id}), id);
  }

  lemma {:induction false} TreeFrames(s: State, id: FrameId)
    ensures var s' := DestroyTree(s, id);
            && s'.frames.Keys <= s.frames.Keys && s'.posted == s.posted && s'.unstarted == s.unstarted
            && (forall i :: i < id && i in s.frames ==> i in s'.frames && s'.frames[i] == s.frames[i])
            && (id in s.frames ==> s'.fault || id !in s'.frames)
    decreases if id < s.next then s.next - id else 0
  {
    if id in s.frames && s.frames[id].child.Some? && id < s.frames[id].child.value && id < s.next {
      TreeFrames(s, s.frames[id].child.value);
    }
  }

  lemma InitIsFine(tasks: seq<Call>)
    ensures Inv(Init(tasks), |tasks|)
    ensures forall i: FrameId :: i < |tasks| ==>
              i in Init(tasks).frames && Denote(Init(tasks), i) == Eval(tasks[i].code, tasks[i].arg)
  {
    InitParts(tasks);
    InitReady(tasks);
    hide Ready, Eval;
  }

  lemma InitParts(tasks: seq<Call>)
    ensures Linked(Init(tasks)) && Sane(Init(tasks)) && Rooted(Init(tasks), |tasks|)
  {
    hide Denote, Eval, UpTo;
    forall i: FrameId ensures LinkHolds(Init(tasks), i) { }
  }

  lemma InitReady(tasks: seq<Call>)
    ensures Ready(Init(tasks))
  {
    hide Denote, Eval;
    assert forall i: FrameId :: IsReady(Init(tasks), i) <==> i < |tasks|;
  }

  lemma Stuck(s: State, i: FrameId, n: nat)
    requires Inv(s, n) && i in s.frames && forall a :: Enabled(s, a) ==> a.Drop?
    ensures s.frames[i].status == Finished
  {
    hide Enabled, Inv;
    if s.frames[i].status != Finished {
      var a := Progress(s, i, n);
      assert false;
    }
  }

  // Only owners have anything left to do: the frames alive are tasks, and have finished with their meaning.
  lemma AtRest(s: State, n: nat)
    requires Inv(s, n) && forall a :: Enabled(s, a) ==> a.Drop?
    ensures forall i :: i in s.frames ==>
              i < n && s.frames[i].status == Finished && s.frames[i].result == Some(Denote(s, i))
  {
    hide Eval, Enabled;
    forall i | i in s.frames
      ensures s.frames[i].status == Finished && i < n && s.frames[i].result == Some(Denote(s, i))
    {
      Stuck(s, i, n);
      assert LinkHolds(s, i);
      if s.frames[i].continuation.Some? { Stuck(s, s.frames[i].continuation.value, n); }
      FinishedMeans(s, i);
    }
  }

  lemma FinishedMeans(s: State, i: FrameId)
    requires i in s.frames && s.frames[i].result.Some?
    ensures Denote(s, i) == s.frames[i].result.value
  {
  }

  // Task::result
  datatype Got = Ready(o: Outcome) | NotReady | Invalid | EmptyResult

  ghost function ResultOf(s: State, handle: Option<FrameId>): Got {
    if handle.None? then Invalid
    else if handle.value !in s.frames || s.frames[handle.value].status != Finished then NotReady
    else if s.frames[handle.value].result.None? then EmptyResult
    else Got.Ready(s.frames[handle.value].result.value)
  }

  ghost function Sizes(tasks: seq<Call>): nat {
    if tasks == [] then 0 else Sizes(tasks[..|tasks| - 1]) + Size(tasks[|tasks| - 1].code) + 2
  }

  lemma {:induction false} InitLeft(tasks: seq<Call>, n: nat)
    requires n <= |tasks|
    ensures Sum(Init(tasks).frames, n) + n == Sizes(tasks[..n])
  {
    if n == 0 {
    } else {
      InitLeft(tasks, n - 1);
      assert tasks[..n][..n - 1] == tasks[..n - 1];
    }
  }

  lemma InitBound(tasks: seq<Call>)
    ensures Left(Init(tasks)) == Sizes(tasks)
  {
    InitLeft(tasks, |tasks|);
    assert tasks[..|tasks|] == tasks;
  }

  // Whatever the tasks, and however workers, awaits, schedule points and owners interleave: no step resumes a
  // running, finished or dead frame, misses a result or destroys a frame twice; no run is longer than the tasks'
  // sizes; a result that is ready is what direct evaluation gives; when only owners have anything left to do, every
  // task that has not been dropped has its result and no other frame is alive; and when they too are done every frame
  // ever made is destroyed.
  lemma EveryScheduleMeansTheTrees(tasks: seq<Call>, run: seq<Action>)
    requires Feasible(Init(tasks), run)
    ensures var s := Exec(Init(tasks), run);
            && !s.fault && |run| <= Sizes(tasks)
            && (forall i: FrameId :: i < |tasks| && ResultOf(s, Some(i)).Ready? ==>
                  ResultOf(s, Some(i)).o == Eval(tasks[i].code, tasks[i].arg))
            && ((forall a :: Enabled(s, a) ==> a.Drop?) ==>
                  forall i :: i in s.frames ==> i < |tasks| && ResultOf(s, Some(i)).Ready?)
            && ((forall a :: !Enabled(s, a)) ==>
                  s.frames == map[] && forall i: FrameId :: i in s.destroyed <==> i < s.next)
  {
    InitIsFine(tasks);
    RunKeeps(Init(tasks), run, |tasks|);
    InitBound(tasks);
    hide Eval, Init, Exec, Feasible, Left, Sizes, Enabled, Inv, Denote;
    StateMeans(Exec(Init(tasks), run), tasks);
  }

  lemma StateMeans(s: State, tasks: seq<Call>)
    requires Inv(s, |tasks|)
    requires forall i :: i in s.frames && i < |tasks| ==> Denote(s, i) == Eval(tasks[i].code, tasks[i].arg)
    ensures !s.fault
    ensures forall i: FrameId :: i < |tasks| && ResultOf(s, Some(i)).Ready? ==>
              ResultOf(s, Some(i)).o == Eval(tasks[i].code, tasks[i].arg)
    ensures (forall a :: Enabled(s, a) ==> a.Drop?) ==>
              forall i :: i in s.frames ==> i < |tasks| && ResultOf(s, Some(i)).Ready?
    ensures (forall a :: !Enabled(s, a)) ==> s.frames == map[] && forall i: FrameId :: i in s.destroyed <==> i < s.next
  {
    hide Eval, Enabled, Ready, Denote;
    if forall a :: Enabled(s, a) ==> a.Drop? {
      AtRest(s, |tasks|);
      forall i | i in s.frames ensures Enabled(s, Drop(i)) { Droppable(s, i, |tasks|); }
      if forall a :: !Enabled(s, a) { assert s.frames.Keys == {}; }
    }
    forall i: FrameId | i < |tasks| && ResultOf(s, Some(i)).Ready?
      ensures ResultOf(s, Some(i)).o == Eval(tasks[i].code, tasks[i].arg)
    {
      FinishedMeans(s, i);
    }
  }

  lemma Droppable(s: State, i: FrameId, n: nat)
    requires Inv(s, n) && i in s.frames && i < n && s.frames[i].status == Finished
    ensures Enabled(s, Drop(i))
  {
    hide Linked, Ready;
  }

  // And the tasks do come to that point: while one that is not dropped has no result, some step other than a drop is
  // possible.
  lemma TasksGoOn(tasks: seq<Call>, run: seq<Action>, i: FrameId) returns (a: Action)
    requires Feasible(Init(tasks), run) && i in Exec(Init(tasks), run).frames
    requires !ResultOf(Exec(Init(tasks), run), Some(i)).Ready?
    ensures Enabled(Exec(Init(tasks), run), a) && !a.Drop?
  {
    InitIsFine(tasks);
    RunKeeps(Init(tasks), run, |tasks|);
    hide Init, Exec, Feasible, Eval;
    assert LinkHolds(Exec(Init(tasks), run), i);
    a := Progress(Exec(Init(tasks), run), i, |tasks|);
  }

  // ---- How often a task goes through the executor -----------------------------------------------------------------

  // The accepted schedule points that direct evaluation passes, those of awaited tasks included.
  ghost function Hops(c: Code, local: int): nat
    decreases c
  {
    match c
    case Compute(f, rest) => Hops(rest, f(local))
    case Branch(p, yes, no) => if p(local) then Hops(yes, local) else Hops(no, local)
    case Await(child, _, _, _) => Hops(child, local) + HopsAfter(c, local, Eval(child, local))
    case AwaitMoved(onThrow) => Hops(onThrow, INVALID_TASK)
    case Schedule(accepted, rest, onThrow) =>
      if accepted then 1 + Hops(rest, local) else Hops(onThrow, SCHEDULE_REJECTED)
    case _ => 0
  }

  ghost function HopsAfter(c: Code, local: int, o: Outcome): nat
    requires c.Await?
    decreases c, 0
  {
    match o
    case Value(v) => Hops(c.rest, c.join(local, v))
    case Exception(x) => Hops(c.onThrow, x)
  }

  // The frame at the end of the awaits, which is in control, posted or not started.
  ghost function Leaf(s: State, i: FrameId): FrameId
    decreases if i < s.next then s.next - i else 0
  {
    if i in s.frames && s.frames[i].child.Some? && i < s.frames[i].child.value && i < s.next then
      Leaf(s, s.frames[i].child.value)
    else i
  }

  // The dequeues still to come for a frame and what it awaits.
  ghost function HopsLeft(s: State, i: FrameId): nat
    decreases if i < s.next then s.next - i else 0
  {
    if i !in s.frames || s.frames[i].status == Finished then 0
    else
      var f := s.frames[i];
      if f.child.Some? && f.code.Await? && i < f.child.value && i < s.next then
        HopsLeft(s, f.child.value) + HopsAfter(f.code, f.local, Denote(s, f.child.value))
      else Hops(f.code, f.local) + if i in s.posted then 1 else 0
  }

  // How often a dequeue in the run resumed the frame or one it was awaiting.
  ghost function Dequeued(s: State, run: seq<Action>, i: FrameId): nat
    requires Feasible(s, run)
    decreases |run|
  {
    if run == [] then 0
    else (if Resumes(s, run[0], i) then 1 else 0) + Dequeued(Next(s, run[0]), run[1..], i)
  }

  ghost predicate Resumes(s: State, a: Action, i: FrameId) {
    a.Dequeue? && a.k < |s.posted| && s.posted[a.k] == Leaf(s, i)
  }

  // A step changes the count of a frame only if it resumes what the frame waits for.
  ghost predicate Counts(s: State, a: Action, i: FrameId)
    requires Enabled(s, a)
  {
    HopsLeft(s, i) == HopsLeft(Next(s, a), i) + if Resumes(s, a, i) then 1 else 0
  }

  // Whether a frame has finished, and whether it is posted, stays.
  ghost predicate SamePlace(s: State, s': State, i: FrameId) {
    i in s.frames && i in s'.frames ==>
      (s'.frames[i].status == Finished <==> s.frames[i].status == Finished) && (i in s'.posted <==> i in s.posted)
  }

  lemma OthersStayPut(s: State, a: Action, j: FrameId, n: nat)
    requires Inv(s, n) && Enabled(s, a) && j != Subject(s, a)
    ensures SamePlace(s, Next(s, a), j)
  {
    hide Eval, Linked;
    match a
    case Dequeue(k) => RemovedOne(s.posted, k);
    case Drop(id) => DropIs(s, id, n);
    case Start(_) =>
    case Run(id) => LinkAt(s, id);
  }

  // The frame that acts.
  lemma SubjectCounts(s: State, a: Action, n: nat)
    requires Inv(s, n) && Enabled(s, a) && Subject(s, a) in Next(s, a).frames
    ensures Subject(s, a) in s.frames && Counts(s, a, Subject(s, a))
  {
    var id, s' := Subject(s, a), Next(s, a);
    LinkAt(s, id);
    match a
    case Dequeue(k) =>
      RemovedOne(s.posted, k);
      assert id in s.posted;
    case Start(_) => assert IsReady(s, id);
    case Drop(_) => DropIs(s, id, n);
    case Run(_) =>
      assert !IsReady(s, id) && id !in s.posted;
      if s.frames[id].child.Some? { JoinCounts(s, id, n); }
      else if s.frames[id].code.Await? { AwaitCounts(s, id, n); }
  }

  lemma AwaitCounts(s: State, id: FrameId, n: nat)
    requires Inv(s, n) && Enabled(s, Run(id)) && s.frames[id].child.None? && s.frames[id].code.Await?
    ensures Counts(s, Run(id), id)
  {
    var f, c := s.frames[id], s.next;
    var s' := RunFrame(s, id);
    LinkAt(s, id);
    assert c !in s.frames && c !in s.posted && !IsReady(s, id) && id !in s.posted;
    assert s'.frames[c] == Frame(f.code.child, f.local, Running, None, Some(id), None) && s'.posted == s.posted;
    assert s'.frames[id] == f.(status := Suspended, child := Some(c)) && s'.next == c + 1;
    assert Denote(s', c) == Eval(f.code.child, f.local) && HopsLeft(s', c) == Hops(f.code.child, f.local);
  }

  lemma JoinCounts(s: State, id: FrameId, n: nat)
    requires Inv(s, n) && Enabled(s, Run(id)) && s.frames[id].child.Some?
    ensures Counts(s, Run(id), id)
  {
    LinkAt(s, id);
    var c: FrameId := s.frames[id].child.value;
    LinkAt(s, c);
    var o, s' := s.frames[c].result.value, Next(s, Run(id));
    assert Denote(s, c) == o && HopsLeft(s, c) == 0;
    assert s'.frames[id] == Joined(s.frames[id], o) && s'.posted == s.posted && id !in s.posted;
  }

  // And those that await it.
  lemma {:induction false} NextCounts(s: State, a: Action, j: FrameId, n: nat)
    requires Inv(s, n) && Enabled(s, a) && j in s.frames && j in Next(s, a).frames
    ensures Counts(s, a, j)
    decreases s.next - j
  {
    var s' := Next(s, a);
    if j == Subject(s, a) {
      SubjectCounts(s, a, n);
    } else {
      NextKeeps(s, a, n);
      OthersStayPut(s, a, j, n);
      LinkAt(s, j);
      SameAt(s, Subject(s, a), s', j);
      hide Next, Enabled, Eval, Hops, Linked, Ready, SameElse;
      if s.frames[j].child.Some? {
        NextCounts(s, a, s.frames[j].child.value, n);
      }
    }
  }

  lemma SameAt(s: State, i: FrameId, s': State, j: FrameId)
    requires SameElse(s, i, s') && j != i
    ensures SameFrame(s, s', j) && s.next <= s'.next
  {
  }

  lemma {:induction false} RunCounts(s: State, run: seq<Action>, i: FrameId, n: nat)
    requires Inv(s, n) && Feasible(s, run) && i < n && i in Exec(s, run).frames
    ensures i in s.frames && Dequeued(s, run, i) + HopsLeft(Exec(s, run), i) == HopsLeft(s, i)
    decreases |run|
  {
    hide Next, Enabled, Linked, Ready, Rooted, HopsLeft, Resumes;
    if run == [] {
    } else {
      NextKeeps(s, run[0], n);
      RunCounts(Next(s, run[0]), run[1..], i, n);
      OldTasks(s, run[0], n);
      NextCounts(s, run[0], i, n);
    }
  }

  // In every run a task that has finished was taken from the executor, itself or through the tasks it awaited, exactly
  // as often as its evaluation passes accepted schedule points; and before that never more often.
  lemma ScheduledExactly(tasks: seq<Call>, run: seq<Action>, i: FrameId)
    requires Feasible(Init(tasks), run) && i < |tasks| && i in Exec(Init(tasks), run).frames
    ensures Dequeued(Init(tasks), run, i) <= Hops(tasks[i].code, tasks[i].arg)
    ensures ResultOf(Exec(Init(tasks), run), Some(i)).Ready? ==>
              Dequeued(Init(tasks), run, i) == Hops(tasks[i].code, tasks[i].arg)
  {
    InitIsFine(tasks);
    RunCounts(Init(tasks), run, i, |tasks|);
    InitHops(tasks, i);
    hide Init, Exec, Feasible, Hops, Dequeued, Inv;
  }

  lemma InitHops(tasks: seq<Call>, i: FrameId)
    requires i < |tasks|
    ensures HopsLeft(Init(tasks), i) == Hops(tasks[i].code, tasks[i].arg)
  {
  }

  // ---- Owners who do not wait -------------------------------------------------------------------------------------

  // Something goes wrong at once, or in the next step of some schedule.
  ghost predicate GoesWrong(s: State) { s.fault || exists a :: Enabled(s, a) && Next(s, a).fault }

  // The task has been resumed by its owner and has not finished.
  ghost predicate UnderWay(s: State, id: FrameId)
    requires id in s.frames
  {
    id !in s.unstarted && s.frames[id].status != Finished
  }

  lemma SoundGoesOn(s: State, n: nat)
    requires Inv(s, n)
    ensures !GoesWrong(s)
  {
    hide Linked, Ready, Rooted;
    forall a | Enabled(s, a) ensures !Next(s, a).fault { NextKeeps(s, a, n); }
  }

  // A task that its owner resumes again goes wrong exactly when it is under way: in control, its frame is entered
  // twice; awaiting, it finds no result; posted, its handle is resumed a second time.
  lemma ResumeIsExact(s: State, id: FrameId, n: nat)
    requires Inv(s, n) && id in s.frames && id < n
    ensures GoesWrong(OwnerResume(s, id)) <==> UnderWay(s, id)
  {
    var s' := OwnerResume(s, id);
    assert LinkHolds(s, id);
    if !UnderWay(s, id) {
      if id in s.unstarted { StartKeeps(s, id, n); }
      SoundGoesOn(s', n);
    } else if s.frames[id].status == Running {
      assert s'.fault;
    } else if s.frames[id].child.Some? {
      assert LinkHolds(s, s.frames[id].child.value);
      assert Enabled(s', Run(id)) && Next(s', Run(id)).fault;
    } else {
      assert IsReady(s, id);
      var k :| 0 <= k < |s.posted| && s.posted[k] == id;
      assert Enabled(s', Dequeue(k)) && Next(s', Dequeue(k)).fault;
    }
  }

  // Destroying it goes wrong exactly then too: a frame in control is destroyed, or a dead handle is left with the
  // executor.
  lemma DestroyIsExact(s: State, id: FrameId, n: nat)
    requires Inv(s, n) && id in s.frames && id < n
    ensures GoesWrong(OwnerDestroy(s, id)) <==> UnderWay(s, id)
  {
    var s' := OwnerDestroy(s, id);
    if UnderWay(s, id) {
      assert s.unstarted - {id} == s.unstarted;
      TreeBreaks(s, id, n);
      if !s'.fault {
        var k :| 0 <= k < |s.posted| && s.posted[k] !in s'.frames;
        assert Enabled(s', Dequeue(k)) && Next(s', Dequeue(k)).fault;
      }
    } else {
      assert MayDrop(s, id) by { hide Linked, Ready; }
      DropKeeps(s, id, n);
      SoundGoesOn(s', n);
    }
  }

  lemma {:induction false} TreeBreaks(s: State, id: FrameId, n: nat)
    requires Inv(s, n) && id in s.frames && UnderWay(s, id)
    ensures var s' := DestroyTree(s, id);
            && s'.posted == s.posted
            && (s'.fault || exists k :: 0 <= k < |s.posted| && s.posted[k] !in s'.frames)
    decreases s.next - id
  {
    hide Eval;
    assert LinkHolds(s, id);
    TreeFrames(s, id);
    if s.frames[id].child.Some? {
      var c: FrameId := s.frames[id].child.value;
      TreeFrames(s, c);
      if s.frames[id].status == Suspended {
        assert s.frames[c].continuation.Some? && c !in s.unstarted;
        TreeBreaks(s, c, n);
        var s1 := DestroyTree(s, c);
        assert DestroyTree(s, id) == Destroy(s1, id);
        if !s1.fault {
          var k :| 0 <= k < |s.posted| && s.posted[k] !in s1.frames;
          assert s.posted[k] !in Destroy(s1, id).frames;
        }
      }
    } else if s.frames[id].status == Suspended {
      assert IsReady(s, id);
      var k :| 0 <= k < |s.posted| && s.posted[k] == id;
      assert s.posted[k] !in DestroyTree(s, id).frames;
    }
  }
}
