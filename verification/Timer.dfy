/**
  The one-shot timer of stp/RtlTimer.hpp: callers and the worker loop share six fields under one mutex.  Each section
  with the mutex held is one step; the worker's timed wait may end whenever its predicate holds or its deadline has
  passed.  The executor accepts what it is given.
 */
module Timer {
  import opened Common

  type Id = nat
  datatype Result = Expired | Cancelled

  // Each accepted wait with a non-empty handler has its own id; None is an empty std::function.
  datatype Fields = Fields(
    handler: Option<Id>, expiry: int, pending: bool, cancelRequested: bool, stopping: bool, version: nat)

  datatype Worker =
    | Asleep                                     // in the outer wait, line 101
    | Waiting(deadline: int, version: nat)       // in the inner wait, line 108
    | HandingOver(handler: Option<Id>, r: Result)
    | Gone

  // ---- The sections -----------------------------------------------------------------------------------------------

  // size_t arithmetic.
  function Wrap(n: nat): nat { n % TWO_64 }

  function Bump(f: Fields): Fields { f.(version := Wrap(f.version + 1)) }

  function ExpiresAt(f: Fields, at: int): Fields { Bump(f.(expiry := at)) }

  predicate WaitRefused(f: Fields) { f.stopping || f.pending }

  function AsyncWait(f: Fields, h: Option<Id>): Fields {
    if WaitRefused(f) then f else Bump(f.(handler := h, pending := true, cancelRequested := false))
  }

  function Cancel(f: Fields): Fields { if !f.pending then f else Bump(f.(cancelRequested := true)) }

  function Shutdown(f: Fields): Fields {
    if f.stopping then f else Bump(f.(stopping := true, pending := false, handler := None))
  }

  predicate InnerMayGo(f: Fields, version: nat) {
    f.stopping || !f.pending || f.cancelRequested || f.version != version
  }

  // The worker leaves the outer wait.
  function Arm(f: Fields): Worker { if f.stopping then Gone else Waiting(f.expiry, f.version) }

  // The worker leaves the inner wait, having seen `version` before it.
  function Fire(f: Fields, version: nat): (Fields, Worker) {
    if f.stopping then (f, Gone)
    else if !f.pending then (f, Asleep)
    else if f.cancelRequested then
      (f.(pending := false, cancelRequested := false, handler := None), HandingOver(f.handler, Cancelled))
    else if version != f.version then (f, Waiting(f.expiry, f.version))
    else (f.(pending := false, handler := None), HandingOver(f.handler, Expired))
  }

  // The object itself: every method is one section.
  class RtlTimer {
    var handler: Option<Id>
    var expiry: int
    var pending: bool
    var cancelRequested: bool
    var stopping: bool
    var version: nat

    function Snapshot(): Fields
      reads this
    {
      Fields(handler, expiry, pending, cancelRequested, stopping, version)
    }

    constructor (now: int)
      ensures Snapshot() == Fields(None, now, false, false, false, 0)
    {
      handler, expiry, pending, cancelRequested, stopping, version := None, now, false, false, false, 0;
    }

    method SetExpiry(at: int)
      modifies this
      ensures Snapshot() == ExpiresAt(old(Snapshot()), at)
      ensures Snapshot() == old(Snapshot()).(expiry := at, version := (old(version) + 1) % TWO_64)
    {
      expiry := at;
      version := Wrap(version + 1);
    }

    method StartWait(h: Option<Id>) returns (accepted: bool)
      modifies this
      ensures Snapshot() == AsyncWait(old(Snapshot()), h) && accepted == !WaitRefused(old(Snapshot()))
      ensures accepted <==> !old(stopping) && !old(pending)
      ensures accepted ==> Snapshot() == Fields(h, old(expiry), true, false, false, (old(version) + 1) % TWO_64)
      ensures !accepted ==> Snapshot() == old(Snapshot())
    {
      if stopping || pending { return false; }
      handler := h;
      pending := true;
      cancelRequested := false;
      version := Wrap(version + 1);
      return true;
    }

    method RequestCancel() returns (accepted: bool)
      modifies this
      ensures Snapshot() == Cancel(old(Snapshot())) && accepted == old(pending)
      ensures accepted ==>
                Snapshot() == old(Snapshot()).(cancelRequested := true, version := (old(version) + 1) % TWO_64)
      ensures !accepted ==> Snapshot() == old(Snapshot())
    {
      if !pending { return false; }
      cancelRequested := true;
      version := Wrap(version + 1);
      return true;
    }

    method Stop()
      modifies this
      ensures Snapshot() == Shutdown(old(Snapshot()))
      ensures stopping && expiry == old(expiry) && cancelRequested == old(cancelRequested)
      ensures old(stopping) ==> Snapshot() == old(Snapshot())
      ensures !old(stopping) ==> !pending && handler == None && version == (old(version) + 1) % TWO_64
    {
      if stopping { return; }
      stopping := true;
      pending := false;
      handler := None;
      version := Wrap(version + 1);
    }

    method LeaveInnerWait(seen: nat) returns (next: Worker)
      modifies this
      ensures (Snapshot(), next) == Fire(old(Snapshot()), seen)
      ensures next == Gone <==> old(stopping)
      ensures next == Asleep <==> !old(stopping) && !old(pending)
      ensures next == HandingOver(old(handler), Cancelled) <==> !old(stopping) && old(pending) && old(cancelRequested)
      ensures next == HandingOver(old(handler), Expired) <==>
                !old(stopping) && old(pending) && !old(cancelRequested) && seen == old(version)
      ensures next == Waiting(old(expiry), old(version)) <==>
                !old(stopping) && old(pending) && !old(cancelRequested) && seen != old(version)
      ensures next.HandingOver? ==> !pending && handler == None && !cancelRequested
      ensures !next.HandingOver? ==> Snapshot() == old(Snapshot())
      ensures expiry == old(expiry) && stopping == old(stopping) && version == old(version)
    {
      if stopping { return Gone; }
      if !pending { return Asleep; }
      if cancelRequested {
        pending := false;
        cancelRequested := false;
        next := HandingOver(handler, Cancelled);
        handler := None;
        return;
      }
      if seen != version { return Waiting(expiry, version); }
      pending := false;
      next := HandingOver(handler, Expired);
      handler := None;
    }
  }

  // ---- Runs -------------------------------------------------------------------------------------------------------

  // `submitted` is what the executor was given.  The rest is history that no step reads: ids handed out, handlers that
  // shutdown dropped, waits for which cancel returned true, the expiry last asked for, the number of changes to the
  // fields and the number there had been when the worker last read them.
  datatype State = State(
    f: Fields, worker: Worker, now: int, submitted: seq<(Id, Result)>,
    issued: nat, dropped: set<Id>, cancelled: set<Id>, asked: int, changes: nat, readAt: nat)

  datatype Action =
    | SetExpiry(at: int)
    | StartWait(empty: bool)
    | RequestCancel
    | Stop
    | Tick(d: nat)
    | LeaveOuterWait
    | LeaveInnerWait
    | HandOver

  function Init(now: int): State {
    State(Fields(None, now, false, false, false, 0), Asleep, now, [], 0, {}, {}, now, 0, 0)
  }

  predicate Enabled(s: State, a: Action) {
    match a
    case LeaveOuterWait => s.worker.Asleep? && (s.f.stopping || s.f.pending)
    case LeaveInnerWait => s.worker.Waiting? && (InnerMayGo(s.f, s.worker.version) || s.now >= s.worker.deadline)
    case HandOver => s.worker.HandingOver?
    case _ => true
  }

  function Next(s: State, a: Action): State
    requires Enabled(s, a)
  {
    match a
    case SetExpiry(at) => s.(f := ExpiresAt(s.f, at), asked := at, changes := s.changes + 1)
    case StartWait(empty) =>
      if WaitRefused(s.f) then s
      else if empty then s.(f := AsyncWait(s.f, None), changes := s.changes + 1)
      else s.(f := AsyncWait(s.f, Some(s.issued)), issued := s.issued + 1, changes := s.changes + 1)
    case RequestCancel =>
      if !s.f.pending then s
      else s.(f := Cancel(s.f), changes := s.changes + 1,
              cancelled := s.cancelled + if s.f.handler.Some? then {s.f.handler.value} else {})
    case Stop =>
      if s.f.stopping then s
      else s.(f := Shutdown(s.f), changes := s.changes + 1,
              dropped := s.dropped + if s.f.handler.Some? then {s.f.handler.value} else {})
    case Tick(d) => s.(now := s.now + d)
    case LeaveOuterWait => s.(worker := Arm(s.f), readAt := s.changes)
    case LeaveInnerWait =>
      var (f, w) := Fire(s.f, s.worker.version);
      s.(f := f, worker := w, readAt := s.changes)
    case HandOver =>
      s.(worker := Asleep,
         submitted := s.submitted + if s.worker.handler.Some? then [(s.worker.handler.value, s.worker.r)] else [])
  }

  // How often a handler was given to the executor.
  function Times(log: seq<(Id, Result)>, id: Id): nat {
    if log == [] then 0 else (if log[0].0 == id then 1 else 0) + Times(log[1..], id)
  }

  function One(b: bool): nat { if b then 1 else 0 }

  // The places a handler can be: waiting, in the worker's hands, with the executor, dropped.
  function Places(s: State, id: Id): nat {
    One(s.f.handler == Some(id)) + One(s.worker.HandingOver? && s.worker.handler == Some(id))
    + Times(s.submitted, id) + One(id in s.dropped)
  }

  ghost predicate Fresh(s: State) {
    && (s.f.handler.Some? ==> s.f.pending)
    && (s.f.pending ==> !s.f.stopping)
    && (forall id: Id :: Places(s, id) == One(id < s.issued))
  }

  // A cancelled wait ends as cancelled or dropped, and only a cancelled wait ends as cancelled.
  ghost predicate CancelsHold(s: State) {
    && (s.f.handler.Some? ==> (s.f.handler.value in s.cancelled <==> s.f.cancelRequested))
    && (s.worker.HandingOver? && s.worker.handler.Some? ==>
          (s.worker.handler.value in s.cancelled <==> s.worker.r == Cancelled))
    && (forall i :: 0 <= i < |s.submitted| ==> (s.submitted[i].0 in s.cancelled <==> s.submitted[i].1 == Cancelled))
  }

  ghost predicate VersionsHold(s: State) {
    && s.readAt <= s.changes && s.f.version == Wrap(s.changes) && s.f.expiry == s.asked
    && (s.worker.Waiting? ==>
          s.worker.version == Wrap(s.readAt) && (s.changes == s.readAt ==> s.worker.deadline == s.f.expiry))
  }

  ghost predicate Inv(s: State) {
    Fresh(s) && CancelsHold(s) && VersionsHold(s) && forall id :: id in s.cancelled ==> id < s.issued
  }

  lemma {:induction false} TimesAppend(log: seq<(Id, Result)>, e: (Id, Result), id: Id)
    ensures Times(log + [e], id) == Times(log, id) + One(e.0 == id)
  {
    if log == [] {
    } else {
      TimesAppend(log[1..], e, id);
      assert (log + [e])[1..] == log[1..] + [e];
    }
  }

  lemma {:induction false} TimesPositive(log: seq<(Id, Result)>, i: nat)
    requires i < |log|
    ensures Times(log, log[i].0) > 0
  {
    if i == 0 {
    } else {
      TimesPositive(log[1..], i - 1);
    }
  }

  lemma FreshAfter(s: State, a: Action)
    requires Fresh(s) && Enabled(s, a)
    ensures Fresh(Next(s, a))
  {
    var s' := Next(s, a);
    forall id: Id ensures Places(s', id) == One(id < s'.issued) {
      assert Places(s, id) == One(id < s.issued) && s.submitted + [] == s.submitted;
      if a.HandOver? && s.worker.handler.Some? { TimesAppend(s.submitted, (s.worker.handler.value, s.worker.r), id); }
    }
  }

  lemma CancelsAfter(s: State, a: Action)
    requires Inv(s) && Enabled(s, a)
    ensures CancelsHold(Next(s, a)) && forall id :: id in Next(s, a).cancelled ==> id < Next(s, a).issued
  {
    var s' := Next(s, a);
    forall i | 0 <= i < |s'.submitted| ensures s'.submitted[i].0 in s'.cancelled <==> s'.submitted[i].1 == Cancelled {
      if i < |s.submitted| {
        TimesPositive(s.submitted, i);
        assert Places(s, s.submitted[i].0) <= 1;
      }
    }
    if s.f.handler.Some? { assert Places(s, s.f.handler.value) == 1; }
    if s.worker.HandingOver? && s.worker.handler.Some? { assert Places(s, s.worker.handler.value) == 1; }
  }

  lemma NextKeepsInv(s: State, a: Action)
    requires Inv(s) && Enabled(s, a)
    ensures Inv(Next(s, a))
  {
    FreshAfter(s, a);
    CancelsAfter(s, a);
  }

  ghost predicate Feasible(s: State, run: seq<Action>)
    decreases |run|
  {
    run == [] || (Enabled(s, run[0]) && Feasible(Next(s, run[0]), run[1..]))
  }

  ghost function Exec(s: State, run: seq<Action>): State
    requires Feasible(s, run)
    decreases |run|
  {
    if run == [] then s else Exec(Next(s, run[0]), run[1..])
  }

  lemma {:induction false} RunKeepsInv(s: State, run: seq<Action>)
    requires Inv(s) && Feasible(s, run)
    ensures Inv(Exec(s, run)) && s.cancelled <= Exec(s, run).cancelled
    decreases |run|
  {
    if run == [] {
    } else {
      NextKeepsInv(s, run[0]);
      RunKeepsInv(Next(s, run[0]), run[1..]);
    }
  }

  // In every run, every accepted wait is in exactly one place: waiting, being handed over, handed over once, or
  // dropped.
  lemma EveryWaitIsResolvedOnce(now: int, run: seq<Action>, id: Id)
    requires Feasible(Init(now), run)
    ensures var s := Exec(Init(now), run); Places(s, id) == One(id < s.issued)
  {
    RunKeepsInv(Init(now), run);
  }

  // Once cancel has returned true for a wait, no continuation of the run hands its handler over as expired; and a
  // handler is handed over as cancelled only if cancel had returned true for it.
  lemma CancelWins(now: int, run: seq<Action>, later: seq<Action>, i: nat)
    requires Feasible(Init(now), run) && Feasible(Exec(Init(now), run), later)
    requires i < |Exec(Exec(Init(now), run), later).submitted|
    ensures var s, s' := Exec(Init(now), run), Exec(Exec(Init(now), run), later);
            && (s'.submitted[i].0 in s.cancelled ==> s'.submitted[i].1 == Cancelled)
            && (s'.submitted[i].1 == Cancelled ==> s'.submitted[i].0 in s'.cancelled)
  {
    RunKeepsInv(Init(now), run);
    RunKeepsInv(Exec(Init(now), run), later);
  }

  // The worker declares expiry only when the clock has reached the expiry last asked for, provided the fields changed
  // fewer than 2^64 times since it read its version.
  lemma ExpiryIsDue(now: int, run: seq<Action>)
    requires Feasible(Init(now), run) && Enabled(Exec(Init(now), run), LeaveInnerWait)
    requires var s := Exec(Init(now), run); s.changes - s.readAt < TWO_64
    ensures var s := Exec(Init(now), run);
            var s' := Next(s, LeaveInnerWait);
            s'.worker.HandingOver? && s'.worker.r == Expired ==> s.now >= s.asked
  {
    RunKeepsInv(Init(now), run);
    var s := Exec(Init(now), run);
    if s.worker.version == s.f.version { SmallDifference(s.changes, s.readAt); }
  }

  lemma SmallDifference(a: nat, b: nat)
    requires b <= a && Wrap(a) == Wrap(b)
    ensures a == b || a >= b + TWO_64
  {
  }

  // Exactly when it does so: the wait is still pending and uncancelled, and the number of changes since the worker read
  // the fields is a multiple of 2^64 (none at all, unless that many really happened).
  lemma ExpiryDecision(now: int, run: seq<Action>)
    requires Feasible(Init(now), run) && Enabled(Exec(Init(now), run), LeaveInnerWait)
    ensures var s := Exec(Init(now), run);
            var w := Next(s, LeaveInnerWait).worker;
            w.HandingOver? && w.r == Expired <==>
              s.f.pending && !s.f.stopping && !s.f.cancelRequested && Wrap(s.changes) == Wrap(s.readAt)
  {
    RunKeepsInv(Init(now), run);
  }

  // And exactly when it does so too early: then the fields have changed 2^64 times or a multiple of that under the
  // wait.
  lemma FiresEarlyExactly(now: int, run: seq<Action>)
    requires Feasible(Init(now), run) && Enabled(Exec(Init(now), run), LeaveInnerWait)
    ensures var s := Exec(Init(now), run);
            var w := Next(s, LeaveInnerWait).worker;
            w.HandingOver? && w.r == Expired && s.now < s.asked <==>
              && s.f.pending && !s.f.stopping && !s.f.cancelRequested && s.now < s.asked
              && s.changes >= s.readAt + TWO_64 && (s.changes - s.readAt) % TWO_64 == 0
  {
    RunKeepsInv(Init(now), run);
    ExpiryDecision(now, run);
    var s := Exec(Init(now), run);
    WrapsTogether(s.changes, s.readAt);
    hide Init, Exec, Feasible;
  }

  lemma WrapsTogether(a: nat, b: nat)
    requires b <= a
    ensures Wrap(a) == Wrap(b) <==> (a - b) % TWO_64 == 0
    ensures (a - b) % TWO_64 == 0 ==> a == b || a >= b + TWO_64
  {
  }

  // The counterpart for a cancel: it is taken up exactly when the wait is pending, not stopped and cancelled.
  lemma CancelDecision(now: int, run: seq<Action>)
    requires Feasible(Init(now), run) && Enabled(Exec(Init(now), run), LeaveInnerWait)
    ensures var s := Exec(Init(now), run);
            var s' := Next(s, LeaveInnerWait);
            && (s'.worker.HandingOver? && s'.worker.r == Cancelled <==>
                  s.f.pending && !s.f.stopping && s.f.cancelRequested)
            && (s'.worker.HandingOver? ==> s'.worker.handler == s.f.handler && !s'.f.pending && s'.f.handler == None)
            && (s'.worker == Gone <==> s.f.stopping)
            && (s'.worker == Asleep <==> !s.f.stopping && !s.f.pending)
  {
    RunKeepsInv(Init(now), run);
  }

  // ---- Every wait comes to its end --------------------------------------------------------------------------------

  predicate OfWorker(a: Action) { a.LeaveOuterWait? || a.LeaveInnerWait? || a.HandOver? }

  function WorkerSteps(run: seq<Action>): nat {
    if run == [] then 0 else (if OfWorker(run[0]) then 1 else 0) + WorkerSteps(run[1..])
  }

  // Worker steps until the wait that is pending has been handed over as cancelled.
  function ToCancel(w: Worker): nat {
    match w
    case HandingOver(_, _) => 4
    case Asleep => 3
    case Waiting(_, _) => 2
    case Gone => 0
  }

  // A cancelled handler is waiting, in the worker's hands, or handed over, all as cancelled.
  ghost predicate Cancelling(s: State, id: Id) {
    || (s.f.handler == Some(id) && s.f.pending && s.f.cancelRequested && !s.f.stopping && s.worker != Gone)
    || s.worker == HandingOver(Some(id), Cancelled)
    || (id, Cancelled) in s.submitted
  }

  function CancelLeft(s: State, id: Id): nat {
    if (id, Cancelled) in s.submitted then 0
    else if s.worker == HandingOver(Some(id), Cancelled) then 1
    else ToCancel(s.worker)
  }

  lemma CancelAdvances(s: State, a: Action, id: Id)
    requires Enabled(s, a) && a != Stop && Cancelling(s, id)
    ensures Cancelling(Next(s, a), id)
    ensures CancelLeft(Next(s, a), id) == 0 || CancelLeft(Next(s, a), id) + WorkerSteps([a]) <= CancelLeft(s, id)
  {
    assert [a][1..] == [];
  }

  lemma {:induction false} CancelRuns(s: State, run: seq<Action>, id: Id)
    requires Feasible(s, run) && Cancelling(s, id) && Stop !in run
    ensures Cancelling(Exec(s, run), id)
    ensures WorkerSteps(run) >= CancelLeft(s, id) ==> (id, Cancelled) in Exec(s, run).submitted
    decreases |run|
  {
    hide Next, Enabled, Cancelling, CancelLeft;
    if run == [] {
      CancelDone(s, id);
    } else {
      CancelAdvances(s, run[0], id);
      assert [run[0]][1..] == [] && run[0] in run;
      CancelRuns(Next(s, run[0]), run[1..], id);
    }
  }

  lemma CancelDone(s: State, id: Id)
    requires Cancelling(s, id)
    ensures CancelLeft(s, id) == 0 ==> (id, Cancelled) in s.submitted
  {
  }

  // Once cancel has returned true for a wait, and unless the timer is stopped, four steps of the worker are enough to
  // hand it over as cancelled; three if the worker is not handing over an earlier one.
  lemma CancelIsHandedOver(now: int, run: seq<Action>, later: seq<Action>, id: Id)
    requires Feasible(Init(now), run)
    requires var s := Exec(Init(now), run);
             && s.f.pending && s.f.handler == Some(id) && Feasible(Next(s, RequestCancel), later) && Stop !in later
             && WorkerSteps(later) >= if s.worker.HandingOver? then 4 else 3
    ensures (id, Cancelled) in Exec(Next(Exec(Init(now), run), RequestCancel), later).submitted
  {
    RunKeepsInv(Init(now), run);
    RunKeepsGone(Init(now), run);
    CancelRuns(Next(Exec(Init(now), run), RequestCancel), later, id);
  }

  // The worker leaves only when the timer is stopped.
  lemma {:induction false} RunKeepsGone(s: State, run: seq<Action>)
    requires Feasible(s, run) && (s.worker == Gone ==> s.f.stopping)
    ensures Exec(s, run).worker == Gone ==> Exec(s, run).f.stopping
    decreases |run|
  {
    if run == [] {
    } else {
      RunKeepsGone(Next(s, run[0]), run[1..]);
    }
  }

  // A wait that is due and left alone is waiting, in the worker's hands, or handed over, as expired.
  ghost predicate Expiring(s: State, id: Id) {
    || (s.f.handler == Some(id) && s.f.pending && !s.f.cancelRequested && !s.f.stopping && s.worker != Gone)
    || s.worker == HandingOver(Some(id), Expired)
    || (id, Expired) in s.submitted
  }

  function ExpiryLeft(s: State, id: Id): nat {
    if (id, Expired) in s.submitted then 0
    else if s.worker == HandingOver(Some(id), Expired) then 1
    else if s.worker.Waiting? && s.worker.version != s.f.version then 3
    else ToCancel(s.worker)
  }

  predicate LeavesAlone(a: Action) { !a.SetExpiry? && !a.RequestCancel? && !a.Stop? }

  lemma ExpiryAdvances(s: State, a: Action, id: Id)
    requires Enabled(s, a) && LeavesAlone(a) && Expiring(s, id)
    ensures Expiring(Next(s, a), id)
    ensures ExpiryLeft(Next(s, a), id) == 0 || ExpiryLeft(Next(s, a), id) + WorkerSteps([a]) <= ExpiryLeft(s, id)
  {
    assert [a][1..] == [];
  }

  lemma {:induction false} ExpiryRuns(s: State, run: seq<Action>, id: Id)
    requires Feasible(s, run) && Expiring(s, id) && forall i :: 0 <= i < |run| ==> LeavesAlone(run[i])
    ensures Expiring(Exec(s, run), id)
    ensures WorkerSteps(run) >= ExpiryLeft(s, id) ==> (id, Expired) in Exec(s, run).submitted
    decreases |run|
  {
    hide Next, Enabled, Expiring, ExpiryLeft;
    if run == [] {
      ExpiryDone(s, id);
    } else {
      ExpiryAdvances(s, run[0], id);
      assert [run[0]][1..] == [];
      ExpiryRuns(Next(s, run[0]), run[1..], id);
    }
  }

  lemma ExpiryDone(s: State, id: Id)
    requires Expiring(s, id)
    ensures ExpiryLeft(s, id) == 0 ==> (id, Expired) in s.submitted
  {
  }

  // A wait whose expiry nobody changes, cancels or stops any more is handed over as expired by four steps of the
  // worker.
  lemma ExpiryIsHandedOver(now: int, run: seq<Action>, later: seq<Action>, id: Id)
    requires Feasible(Init(now), run)
    requires var s := Exec(Init(now), run);
             && s.f.pending && !s.f.cancelRequested && s.f.handler == Some(id) && Feasible(s, later)
    requires WorkerSteps(later) >= 4 && forall i :: 0 <= i < |later| ==> LeavesAlone(later[i])
    ensures (id, Expired) in Exec(Exec(Init(now), run), later).submitted
  {
    RunKeepsInv(Init(now), run);
    RunKeepsGone(Init(now), run);
    ExpiryRuns(Exec(Init(now), run), later, id);
  }

  // After a stop the worker makes at most two steps, and hands over at most what it has in hand.
  function StopLeft(w: Worker): nat { if w.HandingOver? then 2 else if w == Gone then 0 else 1 }

  lemma {:induction false} StopEndsTheWorker(s: State, run: seq<Action>)
    requires Feasible(s, run) && s.f.stopping
    ensures var s' := Exec(s, run);
            && s'.f.stopping && WorkerSteps(run) + StopLeft(s'.worker) <= StopLeft(s.worker)
            && s.submitted <= s'.submitted && |s'.submitted| <= |s.submitted| + if s.worker.HandingOver? then 1 else 0
    decreases |run|
  {
    if run == [] {
    } else {
      StopEndsTheWorker(Next(s, run[0]), run[1..]);
    }
  }

  // And the worker can take those steps: it is never stuck while a cancelled wait is pending.
  lemma CancelProgresses(s: State, id: Id) returns (a: Action)
    requires Cancelling(s, id) && (id, Cancelled) !in s.submitted
    ensures Enabled(s, a) && OfWorker(a)
  {
    a := if s.worker.HandingOver? then HandOver else if s.worker.Asleep? then LeaveOuterWait else LeaveInnerWait;
  }

  // ---- Without that bound the version wraps and a postponed expiry is overlooked ----------------------------------

  function Postpone(n: nat, at: int): (run: seq<Action>)
    ensures |run| == n
  {
    seq(n, _ => SetExpiry(at))
  }

  lemma WrapAdds(a: nat, b: nat)
    ensures Wrap(Wrap(a) + b) == Wrap(a + b) && (a < TWO_64 ==> Wrap(a) == a)
  {
  }

  lemma {:induction false} WrapTurns(a: nat, k: nat)
    ensures Wrap(Wrap(a) + k * TWO_64) == Wrap(a)
  {
    if k == 0 {
    } else {
      WrapTurns(a, k - 1);
      var b := Wrap(a) + (k - 1) * TWO_64;
      assert b + TWO_64 == Wrap(a) + k * TWO_64;
      assert Wrap(b + TWO_64) == Wrap(b);
    }
  }

  lemma ManyTurns(k: nat)
    requires k > 0
    ensures k * TWO_64 > 0
  {
  }

  lemma {:induction false} PostponeRuns(s: State, n: nat, at: int)
    requires Inv(s) && n > 0
    ensures Feasible(s, Postpone(n, at))
    ensures Exec(s, Postpone(n, at)) ==
            s.(f := s.f.(expiry := at, version := Wrap(s.f.version + n)), asked := at, changes := s.changes + n)
    decreases n
  {
    hide Wrap, Places;
    var s' := Next(s, SetExpiry(at));
    NextKeepsInv(s, SetExpiry(at));
    if n > 1 {
      assert Postpone(n, at)[1..] == Postpone(n - 1, at);
      PostponeRuns(s', n - 1, at);
      WrapAdds(s.f.version + 1, n - 1);
    } else {
      assert Postpone(n, at)[1..] == [];
    }
  }

  // After a multiple of 2^64 postponements the worker still fires at the deadline it read first.
  lemma WrapOverlooksPostponement(s: State, k: nat, at: int)
    requires Inv(s) && s.worker.Waiting? && s.changes == s.readAt && k > 0
    requires s.f.pending && !s.f.cancelRequested && s.now >= s.worker.deadline && s.now < at
    ensures Feasible(s, Postpone(k * TWO_64, at))
    ensures var s1 := Exec(s, Postpone(k * TWO_64, at));
            && Enabled(s1, LeaveInnerWait) && s1.now < s1.asked
            && Next(s1, LeaveInnerWait).worker == HandingOver(s.f.handler, Expired)
  {
    hide Wrap, Places;
    ManyTurns(k);
    PostponeRuns(s, k * TWO_64, at);
    WrapTurns(s.changes, k);
  }

  // Such a state is two steps from the start: a wait that is due at once, and a worker that has read its expiry.
  lemma PostponedTimerFires(now: int, k: nat, at: int)
    requires k > 0 && now < at
    ensures var run := [StartWait(false), LeaveOuterWait] + Postpone(k * TWO_64, at);
            && Feasible(Init(now), run) && Enabled(Exec(Init(now), run), LeaveInnerWait)
            && Exec(Init(now), run).now == now < Exec(Init(now), run).asked == at
            && Next(Exec(Init(now), run), LeaveInnerWait).worker == HandingOver(Some(0), Expired)
  {
    var rest := Postpone(k * TWO_64, at);
    var run := [StartWait(false), LeaveOuterWait] + rest;
    var s1 := Next(Init(now), StartWait(false));
    var s2 := Next(s1, LeaveOuterWait);
    WaitIsArmed(now);
    hide Wrap, Postpone, Inv, Places;
    WrapOverlooksPostponement(s2, k, at);
    ManyTurns(k);
    PostponeRuns(s2, k * TWO_64, at);
    assert run[1..] == [LeaveOuterWait] + rest && run[1..][1..] == rest;
    assert Feasible(s1, run[1..]) && Exec(s1, run[1..]) == Exec(s2, rest);
  }

  lemma WaitIsArmed(now: int)
    ensures var s1 := Next(Init(now), StartWait(false));
            && Enabled(s1, LeaveOuterWait)
            && var s2 := Next(s1, LeaveOuterWait);
               && Inv(s2) && s2.worker == Waiting(now, 1) && s2.changes == s2.readAt
               && s2.f.pending && !s2.f.cancelRequested
               && s2.now == now && s2.f.handler == Some(0)
  {
    RunKeepsInv(Init(now), []);
    NextKeepsInv(Init(now), StartWait(false));
    NextKeepsInv(Next(Init(now), StartWait(false)), LeaveOuterWait);
  }
}
