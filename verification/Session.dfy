/**
  The write queue of ws/server/WsSession.hpp, with handlers serialised by the stream's executor: one handler is one
  step, and asynchronous writes complete in later steps.  Message sizes and the byte limit are below 2^63, as for any
  std::string; the counters are size_t.
 */
module Session {
  import opened Common

  type Text = s: string | |s| < TWO_64 / 2

  datatype Message = Message(binary: bool, data: Text)
  datatype Phase = Opening | Open | Closing | Closed | Shutdown
  datatype Kind = Normal | Drain  // which completion handler an async_write has

  datatype Config = Config(maxMessages: nat, maxBytes: nat)

  datatype Fields = Fields(
    phase: Phase, queue: seq<Message>, writing: bool, queuedBytes: nat, queuedMessages: nat, closeNotified: bool)

  datatype Write = Write(m: Message, kind: Kind)

  // The fields, whether on_accept is still to come, the async_writes not yet completed; then history: messages
  // accepted, writes completed with success, and calls of the router's close handler.
  datatype State = State(
    config: Config, f: Fields, handshaking: bool, outstanding: seq<Write>,
    accepted: seq<Message>, completed: seq<Message>, notified: nat)

  function Add64(a: nat, b: nat): nat { (a + b) % TWO_64 }
  function Sub64(a: nat, b: nat): nat { (a - b) % TWO_64 }

  // ---- The handlers -----------------------------------------------------------------------------------------------

  predicate Fits(c: Config, f: Fields, size: nat) {
    Add64(f.queuedMessages, 1) <= c.maxMessages && Add64(f.queuedBytes, size) <= c.maxBytes
  }

  // do_drain_queue: the fields and the write it starts, if any.
  function DrainQueue(f: Fields): (Fields, seq<Write>) {
    if f.writing || f.queue == [] then (f, []) else (f.(writing := true), [Write(f.queue[0], Drain)])
  }

  // do_write_next
  function WriteNext(f: Fields): (Fields, seq<Write>) {
    match f.phase
    case Shutdown => DrainQueue(f.(writing := false))
    case Open =>
      if f.queue == [] then (f.(writing := false), []) else (f.(writing := true), [Write(f.queue[0], Normal)])
    case _ => (f.(queue := [], writing := false), [])
  }

  // do_enqueue_message
  function Enqueue(c: Config, f: Fields, m: Message): (Fields, seq<Write>) {
    if f.phase.Shutdown? then WriteNext(f)
    else if !f.phase.Open? || !Fits(c, f, |m.data|) then (f, [])
    else
      var f1 := f.(queue := f.queue + [m], queuedMessages := Add64(f.queuedMessages, 1),
                   queuedBytes := Add64(f.queuedBytes, |m.data|));
      if f1.writing then (f1, []) else WriteNext(f1)
  }

  function BeginClosing(f: Fields): Fields {
    if f.phase.Opening? || f.phase.Open? then Fields(Closing, [], false, 0, 0, f.closeNotified) else f
  }

  // The lambda given to async_write: the message leaves the queue, the counters go down.
  function PopWritten(f: Fields, size: nat): Fields {
    if f.queue == [] then f
    else f.(queue := f.queue[1..], queuedBytes := Sub64(f.queuedBytes, size),
            queuedMessages := Sub64(f.queuedMessages, 1))
  }

  // Completion of a write: what follows it, and whether the session is marked closed.
  function Complete(f: Fields, w: Write, ok: bool): (Fields, seq<Write>) {
    var f1 := if ok then PopWritten(f, |w.m.data|) else f;
    match w.kind
    case Normal => if ok then WriteNext(f1) else (BeginClosing(f1).(phase := Closed, closeNotified := true), [])
    case Drain => if ok then DrainQueue(f1.(writing := false)) else (f1, [])
  }

  // The object: a method for each handler, with the writes it starts as its result.
  class WsSession {
    const config: Config
    var phase: Phase
    var queue: seq<Message>
    var writing: bool
    var queuedBytes: nat
    var queuedMessages: nat
    var closeNotified: bool

    function Snapshot(): Fields
      reads this
    {
      Fields(phase, queue, writing, queuedBytes, queuedMessages, closeNotified)
    }

    constructor (config: Config)
      ensures Snapshot() == Fields(Opening, [], false, 0, 0, false) && this.config == config
    {
      this.config := config;
      phase, queue, writing, queuedBytes, queuedMessages, closeNotified := Opening, [], false, 0, 0, false;
    }

    method DoDrainQueue() returns (started: seq<Write>)
      modifies this
      ensures (Snapshot(), started) == DrainQueue(old(Snapshot()))
      ensures started == if old(writing) || queue == [] then [] else [Write(queue[0], Drain)]
      ensures Snapshot() == old(Snapshot()).(writing := old(writing) || queue != [])
    {
      if writing { return []; }
      if queue == [] { return []; }
      writing := true;
      return [Write(queue[0], Drain)];
    }

    method DoWriteNext() returns (started: seq<Write>)
      modifies this
      ensures (Snapshot(), started) == WriteNext(old(Snapshot()))
      ensures queue == if phase.Open? || phase.Shutdown? then old(queue) else []
      ensures started == if queue == [] then [] else [Write(queue[0], if phase.Open? then Normal else Drain)]
      ensures writing == (queue != []) && phase == old(phase) && closeNotified == old(closeNotified)
      ensures queuedBytes == old(queuedBytes) && queuedMessages == old(queuedMessages)
    {
      if phase.Shutdown? {
        writing := false;
        started := DoDrainQueue();
        return;
      }
      if !phase.Open? {
        queue, writing := [], false;
        return [];
      }
      if queue == [] {
        writing := false;
        return [];
      }
      writing := true;
      return [Write(queue[0], Normal)];
    }

    method DoEnqueueMessage(m: Message) returns (started: seq<Write>)
      modifies this
      ensures (Snapshot(), started) == Enqueue(config, old(Snapshot()), m)
      ensures var messages, bytes := (old(queuedMessages) + 1) % TWO_64, (old(queuedBytes) + |m.data|) % TWO_64;
              var accepted := old(phase).Open? && messages <= config.maxMessages && bytes <= config.maxBytes;
              && phase == old(phase) && closeNotified == old(closeNotified)
              && queue == (if accepted then old(queue) + [m] else old(queue))
              && queuedMessages == (if accepted then messages else old(queuedMessages))
              && queuedBytes == (if accepted then bytes else old(queuedBytes))
              && started == if accepted && !old(writing) then [Write(queue[0], Normal)]
                            else if old(phase).Shutdown? && queue != [] then [Write(queue[0], Drain)] else []
    {
      if phase.Shutdown? {
        started := DoWriteNext();
        return;
      }
      if !phase.Open? { return []; }
      if Add64(queuedMessages, 1) > config.maxMessages || Add64(queuedBytes, |m.data|) > config.maxBytes { return []; }
      queuedBytes, queuedMessages := Add64(queuedBytes, |m.data|), Add64(queuedMessages, 1);
      queue := queue + [m];
      if writing { return []; }
      started := DoWriteNext();
    }

    method OnWriteDone(w: Write, ok: bool) returns (started: seq<Write>)
      modifies this
      ensures (Snapshot(), started) == Complete(old(Snapshot()), w, ok)
      ensures ok && w.kind.Normal? && !(old(phase).Open? || old(phase).Shutdown?) ==> queue == []
      ensures ok && (w.kind.Drain? || old(phase).Open? || old(phase).Shutdown?) ==>
                queue == if old(queue) == [] then [] else old(queue)[1..]
      ensures ok ==> phase == old(phase) && closeNotified == old(closeNotified) && writing == (queue != [])
      ensures ok ==>
                started == if queue == [] then []
                           else [Write(queue[0], if w.kind.Normal? && phase.Open? then Normal else Drain)]
      ensures ok && old(queue) != [] ==>
                && queuedMessages == (old(queuedMessages) - 1) % TWO_64
                && queuedBytes == (old(queuedBytes) - |w.m.data|) % TWO_64
      ensures !ok ==> started == []
      ensures !ok && w.kind.Normal? ==> phase.Closed? && closeNotified
      ensures !ok && w.kind.Normal? && old(phase).Open? ==>
                queue == [] && !writing && queuedBytes == queuedMessages == 0
      ensures !ok && w.kind.Drain? ==> Snapshot() == old(Snapshot())
    {
      if ok && queue != [] {
        queue := queue[1..];
        queuedBytes, queuedMessages := Sub64(queuedBytes, |w.m.data|), Sub64(queuedMessages, 1);
      }
      match w.kind
      case Normal =>
        if ok { started := DoWriteNext(); return; }
        if phase.Opening? || phase.Open? {
          queue, writing, queuedBytes, queuedMessages := [], false, 0, 0;
        }
        phase, closeNotified := Closed, true;
        return [];
      case Drain =>
        if !ok { return []; }
        writing := false;
        started := DoDrainQueue();
    }

    method DoBeginClosing() returns (began: bool)
      modifies this
      ensures Snapshot() == BeginClosing(old(Snapshot()))
      ensures began <==> old(phase).Opening? || old(phase).Open?
      ensures began ==> Snapshot() == Fields(Closing, [], false, 0, 0, old(closeNotified))
      ensures !began ==> Snapshot() == old(Snapshot())
    {
      if phase.Closing? || phase.Closed? || phase.Shutdown? { return false; }
      phase, queue, queuedBytes, queuedMessages, writing := Closing, [], 0, 0, false;
      return true;
    }

    // The result says whether the router is told.
    method MarkClosedAndNotifyOnce() returns (told: bool)
      modifies this
      ensures told == !old(closeNotified)
      ensures Snapshot() == old(Snapshot()).(phase := Closed, closeNotified := true)
    {
      phase := Closed;
      if closeNotified { return false; }
      closeNotified := true;
      return true;
    }
  }

  // ---- Runs -------------------------------------------------------------------------------------------------------

  datatype Action =
    | Accept                     // the handshake succeeds, whatever has happened to the session since it began
    | Reject                     // the handshake fails
    | Send(m: Message)           // do_enqueue_message
    | Written(ok: bool)          // the oldest outstanding write completes
    | Close                      // begin_closing
    | MarkClosed                 // mark_closed_and_notify_once
    | ForceClose                 // close_forcefully
    | StartShutdown              // the handler that close_for_shutdown posts

  function Init(c: Config): State { State(c, Fields(Opening, [], false, 0, 0, false), true, [], [], [], 0) }

  predicate Enabled(s: State, a: Action) {
    match a
    case Accept => s.handshaking
    case Reject => s.handshaking
    case Written(_) => s.outstanding != []
    case _ => true
  }

  function Started(s: State, step: (Fields, seq<Write>)): State {
    s.(f := step.0, outstanding := s.outstanding + step.1)
  }

  function Next(s: State, a: Action): State
    requires Enabled(s, a)
  {
    match a
    case Accept => s.(f := s.f.(phase := Open), handshaking := false)
    case Reject => s.(f := s.f.(phase := Closed), handshaking := false)
    case Send(m) =>
      var s1 := Started(s, Enqueue(s.config, s.f, m));
      if s.f.phase.Open? && Fits(s.config, s.f, |m.data|) then s1.(accepted := s.accepted + [m]) else s1
    case Written(ok) =>
      var w := s.outstanding[0];
      var s1 := s.(outstanding := s.outstanding[1..], completed := s.completed + if ok then [w.m] else [],
                   notified := s.notified + if w.kind.Normal? && !ok && !s.f.closeNotified then 1 else 0);
      Started(s1, Complete(s.f, w, ok))
    case Close => s.(f := BeginClosing(s.f))
    case MarkClosed =>
      s.(f := s.f.(phase := Closed, closeNotified := true), notified := s.notified + if s.f.closeNotified then 0 else 1)
    case ForceClose => if s.f.phase.Closed? then s else s.(f := s.f.(phase := Closing))
    case StartShutdown => Started(s, DrainQueue(s.f.(phase := Shutdown)))
  }

  // ---- Invariant --------------------------------------------------------------------------------------------------

  function Bytes(q: seq<Message>): nat { if q == [] then 0 else |q[0].data| + Bytes(q[1..]) }

  function Messages(ws: seq<Write>): seq<Message> { if ws == [] then [] else [ws[0].m] + Messages(ws[1..]) }

  // At most one write is outstanding; it and the queue continue what has been written, in the order of acceptance.
  ghost predicate InOrder(s: State) {
    && |s.outstanding| <= 1
    && s.completed + Messages(s.outstanding) <= s.accepted
    && (s.f.queue != [] ==> s.accepted == s.completed + s.f.queue && (s.outstanding != [] ==> s.f.writing))
    && (s.f.closeNotified ==> s.notified == 1) && (!s.f.closeNotified ==> s.notified == 0)
  }

  // While the session is open the counters are exact and within limits, and a write is outstanding exactly when there
  // is something to write.
  ghost predicate Exact(s: State) {
    && s.accepted == s.completed + s.f.queue
    && s.f.queuedMessages == |s.f.queue| && s.f.queuedBytes == Bytes(s.f.queue)
    && |s.f.queue| <= s.config.maxMessages && Bytes(s.f.queue) <= s.config.maxBytes
    && (s.f.writing <==> s.outstanding != []) && (s.f.writing <==> s.f.queue != [])
    && (s.outstanding != [] ==> s.outstanding[0].kind == Normal)
  }

  // Nothing has been sent before the handshake is over.
  ghost predicate Blank(s: State) {
    && s.f.queue == s.accepted == s.completed == [] && s.outstanding == [] && !s.f.writing
    && s.f.queuedBytes == s.f.queuedMessages == 0 && !s.f.phase.Open?
  }

  ghost predicate Inv(s: State) {
    && s.config.maxBytes < TWO_64 / 2 && s.config.maxMessages < TWO_64 / 2
    && InOrder(s) && (s.f.phase.Open? ==> Exact(s))
    && (s.handshaking ==> Blank(s)) && (s.f.phase.Opening? ==> s.handshaking)
  }

  // A message sent to a session that is draining while a write is under way.
  ghost predicate Interferes(s: State, a: Action) {
    a.Send? && s.f.phase.Shutdown? && s.outstanding != [] && s.f.queue != []
  }

  lemma {:induction false} BytesAppend(q: seq<Message>, m: Message)
    ensures Bytes(q + [m]) == Bytes(q) + |m.data|
  {
    if q == [] {
    } else {
      BytesAppend(q[1..], m);
      assert (q + [m])[1..] == q[1..] + [m];
    }
  }

  lemma NoWrap(a: nat, b: nat)
    ensures a + b < TWO_64 ==> Add64(a, b) == a + b
    ensures b <= a < TWO_64 ==> Sub64(a, b) == a - b
  {
  }

  // Writing the front of the queue continues the order of acceptance.
  lemma FrontIsNext(completed: seq<Message>, queue: seq<Message>, k: Kind)
    requires queue != []
    ensures Messages([Write(queue[0], k)]) == [queue[0]]
    ensures completed + Messages([Write(queue[0], k)]) <= completed + queue
    ensures [] + [Write(queue[0], k)] == [Write(queue[0], k)]
  {
    assert [Write(queue[0], k)][1..] == [];
    assert completed + queue == (completed + [queue[0]]) + queue[1..];
  }

  lemma SendKeeps(s: State, m: Message)
    requires Inv(s) && !Interferes(s, Send(m))
    ensures Inv(Next(s, Send(m)))
  {
    hide Add64, Sub64;
    assert s.outstanding + [] == s.outstanding && (s.outstanding == [] ==> forall w :: s.outstanding + [w] == [w]);
    if s.f.queue != [] { FrontIsNext(s.completed, s.f.queue, Drain); }
    if s.f.phase.Open? {
      FrontIsNext(s.completed, s.f.queue + [m], Normal);
      NoWrap(s.f.queuedMessages, 1);
      NoWrap(s.f.queuedBytes, |m.data|);
      if Fits(s.config, s.f, |m.data|) {
        BytesAppend(s.f.queue, m);
        assert s.accepted + [m] == s.completed + (s.f.queue + [m]);
      }
    }
  }

  lemma WrittenKeeps(s: State, ok: bool)
    requires Inv(s) && s.outstanding != []
    ensures Inv(Next(s, Written(ok)))
  {
    hide Add64, Sub64;
    var w := s.outstanding[0];
    assert s.outstanding == [w] && Messages(s.outstanding) == [w.m] && s.outstanding[1..] == [];
    assert s.completed + [] == s.completed && Messages([]) == [];
    if s.f.queue != [] {
      assert s.accepted[|s.completed|] == w.m == s.f.queue[0];
      assert s.accepted == (s.completed + [w.m]) + s.f.queue[1..];
      if |s.f.queue| > 1 {
        FrontIsNext(s.completed + [w.m], s.f.queue[1..], Normal);
        FrontIsNext(s.completed + [w.m], s.f.queue[1..], Drain);
      }
      if s.f.phase.Open? {
        NoWrap(s.f.queuedMessages, 1);
        NoWrap(s.f.queuedBytes, |w.m.data|);
        assert Bytes(s.f.queue) == |w.m.data| + Bytes(s.f.queue[1..]);
      }
    }
  }

  lemma NextKeepsInv(s: State, a: Action)
    requires Inv(s) && Enabled(s, a) && !Interferes(s, a)
    ensures Inv(Next(s, a))
  {
    match a
    case Send(m) => SendKeeps(s, m);
    case Written(ok) => WrittenKeeps(s, ok);
    case _ =>
  }

  // ---- Whole runs -------------------------------------------------------------------------------------------------

  ghost predicate Feasible(s: State, run: seq<Action>)
    decreases |run|
  {
    run == [] || (Enabled(s, run[0]) && Feasible(Next(s, run[0]), run[1..]))
  }

  ghost function Exec(s: State, run: seq<Action>): State
    requires Feasible(s, run)
    decreases |run|
  {
    if run == [] then s else Exec(Next(s, run[0]), run[1..])
  }

  ghost predicate Undisturbed(s: State, run: seq<Action>)
    requires Feasible(s, run)
    decreases |run|
  {
    run == [] || (!Interferes(s, run[0]) && Undisturbed(Next(s, run[0]), run[1..]))
  }

  lemma {:induction false} RunKeepsInv(s: State, run: seq<Action>)
    requires Inv(s) && Feasible(s, run) && Undisturbed(s, run)
    ensures Inv(Exec(s, run)) && Exec(s, run).config == s.config
    decreases |run|
  {
    hide Inv, Interferes;
    if run == [] {
    } else {
      NextKeepsInv(s, run[0]);
      RunKeepsInv(Next(s, run[0]), run[1..]);
    }
  }

  // A session that is open has been open since the end of its handshake, so nothing has interfered.
  lemma {:induction false} OpenRunIsUndisturbed(s: State, run: seq<Action>)
    requires Feasible(s, run) && Exec(s, run).f.phase.Open?
    requires (s.handshaking ==> Blank(s)) && (s.f.phase.Opening? ==> s.handshaking)
    ensures Undisturbed(s, run) && (s.handshaking || s.f.phase.Open?)
    decreases |run|
  {
    if run == [] {
    } else {
      BlankStays(s, run[0]);
      OpenRunIsUndisturbed(Next(s, run[0]), run[1..]);
    }
  }

  lemma BlankStays(s: State, a: Action)
    requires Enabled(s, a) && (s.handshaking ==> Blank(s)) && (s.f.phase.Opening? ==> s.handshaking)
    ensures Next(s, a).handshaking ==> s.handshaking && Blank(Next(s, a))
    ensures Next(s, a).f.phase.Opening? ==> Next(s, a).handshaking
    ensures !s.handshaking && Next(s, a).f.phase.Open? ==> s.f.phase.Open?
  {
  }

  lemma InitIsFine(c: Config)
    requires c.maxBytes < TWO_64 / 2 && c.maxMessages < TWO_64 / 2
    ensures Inv(Init(c))
  {
  }

  // While a session is open, however it got there: the counters equal the queue's message count and byte sum, stay
  // within the limits, at most one write is outstanding, it is of the first queued message, and the writes completed
  // so far are the first messages accepted, the rest being exactly the queue.
  lemma OpenSessionIsExact(c: Config, run: seq<Action>)
    requires c.maxBytes < TWO_64 / 2 && c.maxMessages < TWO_64 / 2
    requires Feasible(Init(c), run) && Exec(Init(c), run).f.phase.Open?
    ensures var s := Exec(Init(c), run);
            && s.f.queuedMessages == |s.f.queue| <= c.maxMessages && s.f.queuedBytes == Bytes(s.f.queue) <= c.maxBytes
            && |s.outstanding| <= 1 && (s.f.writing <==> |s.outstanding| == 1) && (s.f.writing <==> s.f.queue != [])
            && s.accepted == s.completed + s.f.queue
            && (s.outstanding != [] ==> s.outstanding[0].m == s.f.queue[0])
  {
    InitIsFine(c);
    OpenRunIsUndisturbed(Init(c), run);
    RunKeepsInv(Init(c), run);
    var s := Exec(Init(c), run);
    if s.outstanding != [] {
      assert Messages(s.outstanding) == [s.outstanding[0].m];
      assert s.accepted[|s.completed|] == s.outstanding[0].m;
    }
  }

  // After any run a message is taken exactly when the session is open and, with it, neither the messages queued nor
  // their bytes exceed their limits; a message just at a limit is taken.
  lemma AdmissionIsExact(c: Config, run: seq<Action>, m: Message)
    requires c.maxBytes < TWO_64 / 2 && c.maxMessages < TWO_64 / 2 && Feasible(Init(c), run)
    ensures var s := Exec(Init(c), run);
            var fits := |s.f.queue| + 1 <= c.maxMessages && Bytes(s.f.queue) + |m.data| <= c.maxBytes;
            && Next(s, Send(m)).accepted == (if s.f.phase.Open? && fits then s.accepted + [m] else s.accepted)
            && (s.f.phase.Open? ==> Next(s, Send(m)).f.queue == if fits then s.f.queue + [m] else s.f.queue)
  {
    RunKeepsConfig(Init(c), run);
    var s := Exec(Init(c), run);
    if s.f.phase.Open? {
      OpenSessionIsExact(c, run);
      NoWrap(s.f.queuedMessages, 1);
      NoWrap(s.f.queuedBytes, |m.data|);
    }
  }

  lemma {:induction false} RunKeepsConfig(s: State, run: seq<Action>)
    requires Feasible(s, run)
    ensures Exec(s, run).config == s.config
    decreases |run|
  {
    if run == [] {
    } else {
      RunKeepsConfig(Next(s, run[0]), run[1..]);
    }
  }

  // In any phase, also while closing and draining, unless a message is sent into a drain with a write under way: one
  // write at a time, in order, and the router hears of the close at most once.
  lemma UndisturbedRunIsInOrder(c: Config, run: seq<Action>)
    requires c.maxBytes < TWO_64 / 2 && c.maxMessages < TWO_64 / 2
    requires Feasible(Init(c), run) && Undisturbed(Init(c), run)
    ensures var s := Exec(Init(c), run); |s.outstanding| <= 1 && s.completed <= s.accepted && s.notified <= 1
  {
    InitIsFine(c);
    RunKeepsInv(Init(c), run);
  }

  // And exactly then does a second write start beside the first: from a good state the step leaves two writes
  // outstanding if and only if it is such a message, and the second write repeats the message of the first.
  lemma SecondWriteStarts(s: State, a: Action)
    requires Inv(s) && Enabled(s, a)
    ensures |Next(s, a).outstanding| > 1 <==> Interferes(s, a)
    ensures Interferes(s, a) ==> Messages(Next(s, a).outstanding) == [s.outstanding[0].m, s.outstanding[0].m]
  {
    if !Interferes(s, a) { NextKeepsInv(s, a); } else {
      var w := s.outstanding[0];
      assert s.outstanding == [w] && Messages(s.outstanding) == [w.m];
      assert s.accepted[|s.completed|] == w.m == s.f.queue[0];
      var second := Write(w.m, Drain);
      assert Next(s, a).outstanding == [w, second];
      assert [w, second][1..] == [second] && [second][1..] == [];
    }
  }

  // Such a run exists: accept, send, start the shutdown while the first write is under way, and send once more.
  lemma DisturbedRun(m: Message)
    requires |m.data| == 1
    ensures var c, run := Config(2, 2), [Accept, Send(m), StartShutdown, Send(m)];
            Feasible(Init(c), run) && |Exec(Init(c), run).outstanding| == 2
  {
    var s0 := Init(Config(2, 2));
    var s1 := Next(s0, Accept);
    var s2 := Next(s1, Send(m));
    var s3 := Next(s2, StartShutdown);
    var run := [Accept, Send(m), StartShutdown, Send(m)];
    assert s2.outstanding == [Write(m, Normal)] && s3.outstanding == [Write(m, Normal)];
    assert |Next(s3, Send(m)).outstanding| == 2;
    assert run[1..] == [Send(m), StartShutdown, Send(m)] && run[1..][1..] == [StartShutdown, Send(m)];
    assert run[1..][1..][1..] == [Send(m)] && run[1..][1..][1..][1..] == [];
    assert Feasible(s3, [Send(m)]) && Exec(s3, [Send(m)]) == Next(s3, Send(m)) by { assert [Send(m)][1..] == []; }
    assert Feasible(s2, run[1..][1..]) && Exec(s2, run[1..][1..]) == Next(s3, Send(m));
    assert Feasible(s1, run[1..]) && Exec(s1, run[1..]) == Next(s3, Send(m));
  }

  // ---- A drain ends with everything written -----------------------------------------------------------------------

  // All that was accepted is written or queued, and as long as anything is queued its front is being written.
  ghost predicate Draining(s: State) {
    && s.f.phase.Shutdown? && !s.handshaking && s.accepted == s.completed + s.f.queue
    && (s.f.writing <==> s.f.queue != []) && |s.outstanding| == (if s.f.queue == [] then 0 else 1)
    && (s.outstanding != [] ==> s.outstanding[0].m == s.f.queue[0])
  }

  // No write fails and the session is not closed by force.
  predicate Calm(a: Action) { a != Written(false) && a != ForceClose && a != MarkClosed }

  function WritesDone(run: seq<Action>): nat {
    if run == [] then 0 else (if run[0].Written? then 1 else 0) + WritesDone(run[1..])
  }

  lemma DrainGoesOn(s: State, a: Action)
    requires Draining(s) && Enabled(s, a) && Calm(a) && !Interferes(s, a)
    ensures Draining(Next(s, a)) && Next(s, a).accepted == s.accepted
    ensures |s.f.queue| == |Next(s, a).f.queue| + if a.Written? then 1 else 0
  {
    hide Add64, Sub64;
    assert s.outstanding + [] == s.outstanding;
    if a == Written(true) {
      var w := s.outstanding[0];
      assert s.outstanding[1..] == [] && forall v: Write :: [] + [v] == [v];
      assert s.accepted == (s.completed + [w.m]) + s.f.queue[1..];
    }
  }

  lemma {:induction false} DrainRuns(s: State, run: seq<Action>)
    requires Draining(s) && Feasible(s, run) && Undisturbed(s, run) && forall k :: 0 <= k < |run| ==> Calm(run[k])
    ensures Draining(Exec(s, run)) && Exec(s, run).accepted == s.accepted
    ensures |s.f.queue| == |Exec(s, run).f.queue| + WritesDone(run)
    decreases |run|
  {
    hide Draining, Next, Enabled, Interferes, Calm;
    if run == [] {
    } else {
      DrainGoesOn(s, run[0]);
      assert forall k :: 0 <= k < |run[1..]| ==> run[1..][k] == run[k + 1];
      DrainRuns(Next(s, run[0]), run[1..]);
    }
  }

  // An open session is shut down.  As long as no write fails, nobody closes it by force and no message is sent into the
  // drain while a write is under way: nothing more is accepted, every completed write takes one message off the queue,
  // and a write is outstanding until nothing is queued, when all that was ever accepted has been written.
  lemma ShutdownDrains(c: Config, before: seq<Action>, run: seq<Action>)
    requires c.maxBytes < TWO_64 / 2 && c.maxMessages < TWO_64 / 2
    requires Feasible(Init(c), before) && Exec(Init(c), before).f.phase.Open?
    requires var s := Next(Exec(Init(c), before), StartShutdown);
             Feasible(s, run) && Undisturbed(s, run) && forall k :: 0 <= k < |run| ==> Calm(run[k])
    ensures var s := Exec(Init(c), before);
            var s' := Exec(Next(s, StartShutdown), run);
            && s'.accepted == s.accepted && |s'.f.queue| == |s.f.queue| - WritesDone(run)
            && (s'.outstanding == [] <==> WritesDone(run) == |s.f.queue|)
            && (s'.outstanding == [] ==> s'.completed == s.accepted)
  {
    InitIsFine(c);
    OpenSessionIsExact(c, before);
    OpenRunIsUndisturbed(Init(c), before);
    RunKeepsInv(Init(c), before);
    DrainRuns(Next(Exec(Init(c), before), StartShutdown), run);
  }

  // In any run at all, disturbed or not, whoever has work has it under way: m_writing is set while anything is queued.
  lemma {:induction false} WorkIsUnderWay(s: State, run: seq<Action>)
    requires Feasible(s, run) && (s.f.queue != [] ==> s.f.writing)
    ensures Exec(s, run).f.queue != [] ==> Exec(s, run).f.writing
    decreases |run|
  {
    if run == [] {
    } else {
      WorkStep(s, run[0]);
      hide Next, Enabled;
      WorkIsUnderWay(Next(s, run[0]), run[1..]);
    }
  }

  lemma WorkStep(s: State, a: Action)
    requires Enabled(s, a) && (s.f.queue != [] ==> s.f.writing)
    ensures Next(s, a).f.queue != [] ==> Next(s, a).f.writing
  {
    hide Add64, Sub64;
  }

  // So the call of do_drain_queue with which a shutdown begins never starts a write: it changes the phase alone.
  lemma ShutdownOnlyMarks(c: Config, run: seq<Action>)
    requires Feasible(Init(c), run)
    ensures var s := Exec(Init(c), run); Next(s, StartShutdown) == s.(f := s.f.(phase := Shutdown))
  {
    WorkIsUnderWay(Init(c), run);
    var s := Exec(Init(c), run);
    assert s.outstanding + [] == s.outstanding;
  }

  // A session whose handshake was not refused is closed only if the router has been told.
  lemma {:induction false} ClosedIsAnnounced(s: State, run: seq<Action>)
    requires Feasible(s, run) && Reject !in run && (s.f.phase.Closed? ==> s.f.closeNotified)
    ensures Exec(s, run).f.phase.Closed? ==> Exec(s, run).f.closeNotified
    decreases |run|
  {
    if run == [] {
    } else {
      AnnouncedStep(s, run[0]);
      hide Next, Enabled;
      ClosedIsAnnounced(Next(s, run[0]), run[1..]);
    }
  }

  lemma AnnouncedStep(s: State, a: Action)
    requires Enabled(s, a) && !a.Reject? && (s.f.phase.Closed? ==> s.f.closeNotified)
    ensures Next(s, a).f.phase.Closed? ==> Next(s, a).f.closeNotified
  {
    hide Add64, Sub64;
  }

  // In any run at all the router is told of the close at most once, and once it has been closed, just once.
  lemma {:induction false} ToldOnce(s: State, run: seq<Action>)
    requires Feasible(s, run) && s.notified == if s.f.closeNotified then 1 else 0
    ensures var s' := Exec(s, run); s'.notified == (if s'.f.closeNotified then 1 else 0) && s.notified <= s'.notified
    ensures MarkClosed in run ==> Exec(s, run).notified == 1
    decreases |run|
  {
    if run == [] {
    } else {
      ToldStep(s, run[0]);
      hide Next, Enabled;
      ToldOnce(Next(s, run[0]), run[1..]);
      assert MarkClosed in run ==> run[0] == MarkClosed || MarkClosed in run[1..];
    }
  }

  lemma ToldStep(s: State, a: Action)
    requires Enabled(s, a) && s.notified == if s.f.closeNotified then 1 else 0
    ensures var s' := Next(s, a); s'.notified == (if s'.f.closeNotified then 1 else 0) && s.notified <= s'.notified
    ensures a == MarkClosed ==> Next(s, a).notified == 1
  {
    hide Add64, Sub64;
  }

  // ---- When a session is open -------------------------------------------------------------------------------------

  // What ends an open session: closing, shutting down, or a write that fails.
  predicate Ends(a: Action) { a.Close? || a.MarkClosed? || a.ForceClose? || a.StartShutdown? || a == Written(false) }

  predicate OpensAt(run: seq<Action>, i: nat) {
    i < |run| && run[i] == Accept && forall j :: i < j < |run| ==> !Ends(run[j])
  }

  // A session that is not open after its handshake is never open again.
  lemma {:induction false} NeverOpenAgain(s: State, run: seq<Action>)
    requires Feasible(s, run) && !s.handshaking && !s.f.phase.Open? && !s.f.phase.Opening?
    ensures !Exec(s, run).f.phase.Open?
    decreases |run|
  {
    if run == [] {
    } else {
      NeverOpenAgain(Next(s, run[0]), run[1..]);
    }
  }

  lemma {:induction false} NoSecondAccept(s: State, run: seq<Action>, i: nat)
    requires Feasible(s, run) && !s.handshaking && i < |run|
    ensures run[i] != Accept
    decreases |run|
  {
    if i == 0 {
    } else {
      NoSecondAccept(Next(s, run[0]), run[1..], i - 1);
    }
  }

  lemma OpenStep(s: State, a: Action)
    requires Inv(s) && Enabled(s, a) && s.f.phase.Open?
    ensures Inv(Next(s, a)) && !Next(s, a).handshaking && !Next(s, a).f.phase.Opening?
    ensures Next(s, a).f.phase.Open? <==> !Ends(a)
  {
    NextKeepsInv(s, a);
    OpenPhase(s, a);
    hide Inv, Next, Enabled, Ends;
  }

  // Only the phase matters here, and that the write under way is a normal one.
  lemma OpenPhase(s: State, a: Action)
    requires Enabled(s, a) && s.f.phase.Open? && !s.handshaking
    requires s.outstanding != [] ==> s.outstanding[0].kind == Normal
    ensures !Next(s, a).handshaking && !Next(s, a).f.phase.Opening?
    ensures Next(s, a).f.phase.Open? <==> !Ends(a)
  {
    hide Add64, Sub64;
  }

  // From the end of the handshake on, open exactly as long as nothing has ended it.
  lemma {:induction false} OpenUntilEnded(s: State, run: seq<Action>)
    requires Inv(s) && Feasible(s, run) && s.f.phase.Open?
    ensures Exec(s, run).f.phase.Open? <==> forall j :: 0 <= j < |run| ==> !Ends(run[j])
    decreases |run|
  {
    if run == [] {
    } else {
      hide Inv, Next, Enabled, Ends;
      var s1 := Next(s, run[0]);
      OpenStep(s, run[0]);
      if s1.f.phase.Open? {
        OpenUntilEnded(s1, run[1..]);
        assert forall j :: 0 < j < |run| ==> run[j] == run[1..][j - 1];
      } else {
        NeverOpenAgain(s1, run[1..]);
      }
    }
  }

  lemma {:induction false} OpenFromHandshake(s: State, run: seq<Action>)
    requires Inv(s) && Feasible(s, run) && s.handshaking
    ensures Exec(s, run).f.phase.Open? <==> exists i: nat :: OpensAt(run, i)
    decreases |run|
  {
    if run == [] {
    } else {
      NextKeepsInv(s, run[0]);
      var s1, rest := Next(s, run[0]), run[1..];
      assert s1.handshaking <==> run[0] != Accept && run[0] != Reject;
      assert run[0] == Accept ==> s1.f.phase.Open?;
      assert run[0] == Reject ==> s1.f.phase.Closed?;
      hide Inv, Next, Enabled, Ends;
      OpensLater(run);
      if s1.handshaking {
        OpenFromHandshake(s1, rest);
      } else {
        forall i: nat | i < |rest| ensures rest[i] != Accept { NoSecondAccept(s1, rest, i); }
        if run[0] == Accept { OpenUntilEnded(s1, rest); } else { NeverOpenAgain(s1, rest); }
      }
    }
  }

  lemma OpensLater(run: seq<Action>)
    requires run != []
    ensures OpensAt(run, 0) <==> run[0] == Accept && forall j :: 0 <= j < |run[1..]| ==> !Ends(run[1..][j])
    ensures (exists i: nat :: OpensAt(run, i)) <==> OpensAt(run, 0) || exists i: nat :: OpensAt(run[1..], i)
  {
    var rest := run[1..];
    assert forall j :: 0 < j < |run| ==> run[j] == rest[j - 1];
    forall i: nat | i < |rest| ensures OpensAt(rest, i) <==> OpensAt(run, i + 1) {
      assert forall j :: i < j < |rest| ==> rest[j] == run[j + 1];
    }
    forall i: nat | OpensAt(run, i) ensures i == 0 || OpensAt(rest, i - 1) { }
  }

  // A session is open at the end of a run exactly when its handshake has succeeded and nothing has ended it since,
  // whatever came before: closing it during the handshake, even with the router told so, does not keep it from being
  // open.
  lemma OpenExactly(c: Config, run: seq<Action>)
    requires c.maxBytes < TWO_64 / 2 && c.maxMessages < TWO_64 / 2 && Feasible(Init(c), run)
    ensures Exec(Init(c), run).f.phase.Open? <==> exists i: nat :: OpensAt(run, i)
  {
    InitIsFine(c);
    OpenFromHandshake(Init(c), run);
  }

  lemma ClosedThenOpen(c: Config)
    ensures var run := [Close, MarkClosed, Accept];
            && Feasible(Init(c), run) && Exec(Init(c), run).f.phase.Open? && Exec(Init(c), run).notified == 1
            && Exec(Init(c), [Close, MarkClosed]).f.phase.Closed?
  {
    var run := [Close, MarkClosed, Accept];
    assert run[1..] == [MarkClosed, Accept] && run[1..][1..] == [Accept] && [Accept][1..] == [];
    assert [Close, MarkClosed][1..] == [MarkClosed] && [MarkClosed][1..] == [];
  }

  // ---- The message under an outstanding write ---------------------------------------------------------------------

  // The buffer given to async_write is that of the first queued message.
  ghost predicate FrontHeld(s: State) {
    s.outstanding != [] ==> s.f.queue != [] && s.outstanding[0].m == s.f.queue[0]
  }

  // An open session is closed, and its queue cleared, under a write.
  ghost predicate Cuts(s: State, a: Action) { a == Close && s.f.phase.Open? && s.outstanding != [] }

  // The message of an outstanding write stays the first of the queue through every handler but that one.
  lemma FrontIsLostExactly(s: State, a: Action)
    requires Inv(s) && Enabled(s, a) && !Interferes(s, a) && FrontHeld(s)
    ensures FrontHeld(Next(s, a)) <==> !Cuts(s, a)
  {
    hide Add64, Sub64, Bytes;
    NextKeepsInv(s, a);
    assert s.outstanding == [] || s.outstanding == [s.outstanding[0]];
    if Next(s, a).outstanding != [] && Next(s, a).f.queue != [] { FrontOf(Next(s, a)); }
  }

  // In order, a write with anything queued is of the first message.
  lemma FrontOf(s: State)
    requires InOrder(s) && s.outstanding != [] && s.f.queue != []
    ensures s.outstanding[0].m == s.f.queue[0]
  {
    assert Messages(s.outstanding) == [s.outstanding[0].m];
    assert s.accepted[|s.completed|] == s.outstanding[0].m;
  }

  ghost predicate Uncut(s: State, run: seq<Action>)
    requires Feasible(s, run)
    decreases |run|
  {
    run == [] || (!Cuts(s, run[0]) && Uncut(Next(s, run[0]), run[1..]))
  }

  lemma {:induction false} RunHoldsFront(s: State, run: seq<Action>)
    requires Inv(s) && FrontHeld(s) && Feasible(s, run) && Undisturbed(s, run) && Uncut(s, run)
    ensures FrontHeld(Exec(s, run))
    decreases |run|
  {
    hide Inv, Interferes, Next, Enabled, FrontHeld, Cuts;
    if run == [] {
    } else {
      NextKeepsInv(s, run[0]);
      FrontIsLostExactly(s, run[0]);
      RunHoldsFront(Next(s, run[0]), run[1..]);
    }
  }

  // Over whole runs: unless a drain is disturbed or an open session is closed under a write, what is being written is
  // always the first message of the queue.
  lemma FrontIsHeld(c: Config, run: seq<Action>)
    requires c.maxBytes < TWO_64 / 2 && c.maxMessages < TWO_64 / 2
    requires Feasible(Init(c), run) && Undisturbed(Init(c), run) && Uncut(Init(c), run)
    ensures FrontHeld(Exec(Init(c), run))
  {
    InitIsFine(c);
    RunHoldsFront(Init(c), run);
  }

  // Accept, send, close: the write is outstanding and its message is gone.
  lemma CutRun(m: Message)
    requires |m.data| == 1
    ensures var c, run := Config(2, 2), [Accept, Send(m), Close];
            && Feasible(Init(c), run)
            && Exec(Init(c), run).outstanding == [Write(m, Normal)] && Exec(Init(c), run).f.queue == []
  {
    var s1 := Next(Init(Config(2, 2)), Accept);
    var s2 := Next(s1, Send(m));
    var run := [Accept, Send(m), Close];
    assert s2.outstanding == [Write(m, Normal)] && s2.f.phase.Open?;
    assert run[1..] == [Send(m), Close] && run[1..][1..] == [Close] && [Close][1..] == [];
    assert Feasible(s2, [Close]) && Exec(s2, [Close]) == Next(s2, Close);
    assert Feasible(s1, run[1..]) && Exec(s1, run[1..]) == Next(s2, Close);
  }
}
