/**
  The Michael-Scott queue of stp/LockFreeQueue.hpp, one atomic load, store or compare-exchange per step, for any
  number of threads under sequential consistency.  A node that has been deleted is never handed out again by `new`.
 */
module LockFreeQueue {
  import opened Common

  type Ptr = nat  // an address; 0 is nullptr
  type Tid = nat

  // Where a thread stands: the constructor names the access it performs next, the arguments are its locals.
  datatype Pc<T> =
    | Idle
    | PushLoadTail(node: Ptr)                            // line 41
    | PushLoadNext(node: Ptr, curTail: Ptr)              // line 42
    | PushRecheck(node: Ptr, curTail: Ptr, next: Ptr)    // line 43
    | PushLink(node: Ptr, curTail: Ptr)                  // line 47
    | PushSwing(node: Ptr, curTail: Ptr)                 // line 48
    | PushHelp(node: Ptr, curTail: Ptr, next: Ptr)       // line 52
    | PushReturn                                         // line 49
    | PopLoadHead                                        // line 59
    | PopLoadTail(curHead: Ptr)                          // line 60
    | PopLoadNext(curHead: Ptr, curTail: Ptr)            // line 61
    | PopHelp(curTail: Ptr, next: Ptr)                   // line 67
    | PopCas(curHead: Ptr, next: Ptr)                    // line 70
    | PopRead(curHead: Ptr, next: Ptr)                   // line 71
    | PopDelete(curHead: Ptr, data: Option<T>)           // line 72
    | PopReturn(data: Option<T>)                         // lines 65, 73

  // The pointers, followed by history that no access reads: the nodes in link order, the place of each in that
  // order, the number of head and tail moves so far, the nodes deleted, and whether a null or unknown pointer was
  // ever followed or a node deleted twice.
  datatype Links = Links(
    head: Ptr, tail: Ptr, next: map<Ptr, Ptr>, limit: Ptr,
    order: seq<Ptr>, pos: map<Ptr, nat>, headMoves: nat, tailMoves: nat, deleted: set<Ptr>, fault: bool)

  // A node that holds no value (the dummy) is not in `value`; `popped` is the history of values taken.
  datatype Memory<T> = Memory(l: Links, value: map<Ptr, T>, popped: seq<T>)

  // `retries` counts the times a thread went round one of its two loops again, `spurious` its spurious
  // compare-exchange failures; `mark` is the number of events seen when its current iteration began.
  datatype Thread<T> = Thread(pc: Pc<T>, retries: nat, spurious: nat, mark: int)

  datatype State<T> = State(m: Memory<T>, threads: map<Tid, Thread<T>>)

  datatype Action<T> =
    | CallPush(t: Tid, v: T)
    | CallPop(t: Tid)
    | Step(t: Tid, spurious: bool)  // `spurious` is the weak compare-exchange failing for no reason
    | Return(t: Tid)

  function Init<T>(tids: set<Tid>): State<T> {
    State(Memory(Links(1, 1, map[1 := 0], 2, [1], map[1 := 0], 0, 0, {}, false), map[], []),
          map t | t in tids :: Thread(Idle, 0, 0, 0))
  }

  // Links, tail moves and head moves so far.
  function Events(l: Links): int { |l.order| - 1 + l.tailMoves + l.headMoves }

  predicate AtAccess<T>(pc: Pc<T>) { !pc.Idle? && !pc.PushReturn? && !pc.PopReturn? }

  predicate Enabled<T>(s: State<T>, a: Action<T>) {
    a.t in s.threads &&
    var pc := s.threads[a.t].pc;
    match a
    case CallPush(_, _) => pc.Idle?
    case CallPop(_) => pc.Idle?
    case Step(_, _) => AtAccess(pc)
    case Return(_) => pc.PushReturn? || pc.PopReturn?
  }

  // ---- The accesses -----------------------------------------------------------------------------------------------

  function NextOf(next: map<Ptr, Ptr>, p: Ptr): Ptr { if p in next then next[p] else 0 }

  function Follow(l: Links, p: Ptr): Links { if p in l.next then l else l.(fault := true) }

  function NewNode(l: Links): Links { l.(limit := l.limit + 1, next := l.next[l.limit := 0]) }

  function LinkNode(l: Links, at: Ptr, node: Ptr): Links {
    l.(next := l.next[at := node], order := l.order + [node], pos := l.pos[node := |l.order|])
  }

  function MoveTail(l: Links, to: Ptr): Links { l.(tail := to, tailMoves := l.tailMoves + 1) }

  function MoveHead(l: Links, to: Ptr): Links { l.(head := to, headMoves := l.headMoves + 1) }

  function Delete(l: Links, p: Ptr): Links { l.(deleted := l.deleted + {p}, fault := l.fault || p in l.deleted) }

  function ValueAt<T>(m: Memory<T>, p: Ptr): Option<T> { if p in m.value then Some(m.value[p]) else None }

  function Again<T>(th: Thread<T>, l: Links, pc: Pc<T>, spurious: bool): Thread<T> {
    Thread(pc, th.retries + 1, th.spurious + (if spurious then 1 else 0), Events(l))
  }

  function Help<T>(l: Links, th: Thread<T>, t: Ptr, nx: Ptr, again: Pc<T>, spurious: bool): (Links, Thread<T>) {
    if l.tail == t && !spurious then (MoveTail(l, nx), Again(th, MoveTail(l, nx), again, false))
    else (l, Again(th, l, again, l.tail == t))
  }

  // One access by a thread at a given place: the pointers and the thread afterwards.
  function Access<T>(m: Memory<T>, th: Thread<T>, spurious: bool): (Links, Thread<T>)
    requires AtAccess(th.pc)
  {
    var l := m.l;
    match th.pc
    case PushLoadTail(node) => (l, th.(pc := PushLoadNext(node, l.tail)))
    case PushLoadNext(node, t) => (Follow(l, t), th.(pc := PushRecheck(node, t, NextOf(l.next, t))))
    case PushRecheck(node, t, nx) =>
      if t != l.tail then (l, Again(th, l, PushLoadTail(node), false))
      else if nx == 0 then (l, th.(pc := PushLink(node, t)))
      else (l, th.(pc := PushHelp(node, t, nx)))
    case PushLink(node, t) =>
      if NextOf(l.next, t) == 0 && !spurious then (LinkNode(Follow(l, t), t, node), th.(pc := PushSwing(node, t)))
      else (Follow(l, t), Again(th, l, PushLoadTail(node), NextOf(l.next, t) == 0))
    case PushSwing(node, t) =>
      (if l.tail == t && !spurious then MoveTail(l, node) else l, th.(pc := PushReturn))
    case PushHelp(node, t, nx) => Help(l, th, t, nx, PushLoadTail(node), spurious)
    case PopLoadHead => (l, th.(pc := PopLoadTail(l.head)))
    case PopLoadTail(h) => (l, th.(pc := PopLoadNext(h, l.tail)))
    case PopLoadNext(h, t) =>
      (Follow(l, h),
       if h == t then
         if NextOf(l.next, h) == 0 then th.(pc := PopReturn(None)) else th.(pc := PopHelp(t, NextOf(l.next, h)))
       else th.(pc := PopCas(h, NextOf(l.next, h))))
    case PopHelp(t, nx) => Help(l, th, t, nx, PopLoadHead, spurious)
    case PopCas(h, nx) =>
      if l.head == h && !spurious then (MoveHead(l, nx), th.(pc := PopRead(h, nx)))
      else (l, Again(th, l, PopLoadHead, l.head == h))
    case PopRead(h, nx) => (Follow(l, nx), th.(pc := PopDelete(h, ValueAt(m, nx))))
    case PopDelete(h, d) => (Delete(l, h), th.(pc := PopReturn(d)))
  }

  // The value an access takes out of the queue: the one in the node it makes the new head.
  function Taken<T>(m: Memory<T>, l': Links): seq<T> {
    if l'.headMoves > m.l.headMoves && l'.head in m.value then [m.value[l'.head]] else []
  }

  function Next<T>(s: State<T>, a: Action<T>): State<T>
    requires Enabled(s, a)
  {
    var th := s.threads[a.t];
    match a
    case CallPush(t, v) =>
      State(s.m.(l := NewNode(s.m.l), value := s.m.value[s.m.l.limit := v]),
            s.threads[t := th.(pc := PushLoadTail(s.m.l.limit), mark := Events(s.m.l))])
    case CallPop(t) => State(s.m, s.threads[t := th.(pc := PopLoadHead, mark := Events(s.m.l))])
    case Step(t, spurious) =>
      var (l, th') := Access(s.m, th, spurious);
      State(s.m.(l := l, popped := s.m.popped + Taken(s.m, l)), s.threads[t := th'])
    case Return(t) => State(s.m, s.threads[t := th.(pc := Idle)])
  }

  // ---- The invariant ----------------------------------------------------------------------------------------------

  // The linked nodes are one acyclic chain from order[0]; the head is at or before the tail, and the tail is
  // the last or the second-to-last node.
  ghost predicate Chain(l: Links) {
    && |l.order| > 0
    && (forall i :: 0 <= i < |l.order| ==> l.order[i] in l.pos && l.pos[l.order[i]] == i)
    && (forall p :: p in l.pos ==> p in l.next && l.pos[p] < |l.order| && l.order[l.pos[p]] == p)
    && (forall p {:trigger NextOf(l.next, p)} :: p in l.pos ==>
          if l.pos[p] + 1 < |l.order| then NextOf(l.next, p) in l.pos && l.pos[NextOf(l.next, p)] == l.pos[p] + 1
          else NextOf(l.next, p) == 0)
    && l.headMoves <= l.tailMoves < |l.order| <= l.tailMoves + 2
    && l.head == l.order[l.headMoves] && l.tail == l.order[l.tailMoves]
  }

  // Only allocated nodes exist, only nodes behind the head are deleted, and nothing has gone wrong.
  ghost predicate Heap(l: Links) {
    && (forall p :: p in l.next ==> 0 < p < l.limit)
    && (forall p :: p in l.deleted ==> p in l.pos && l.pos[p] < l.headMoves)
    && !l.fault
  }

  ghost predicate Holds<T>(m: Memory<T>) {
    forall p :: p in m.l.next && (p in m.l.pos ==> m.l.pos[p] > 0) ==> p in m.value
  }

  // The values pushed, in link order.
  ghost function Pushed<T>(m: Memory<T>): seq<T>
    requires Chain(m.l) && Holds(m)
  {
    seq(|m.l.order| - 1, i requires 0 <= i < |m.l.order| - 1 => m.value[m.l.order[i + 1]])
  }

  ghost predicate Shared<T>(m: Memory<T>) {
    Chain(m.l) && Heap(m.l) && Holds(m) && m.popped == Pushed(m)[..m.l.headMoves]
  }

  // What the locals of a thread still tell it about the pointers, and that every retry has been paid for.
  ghost predicate Local<T>(l: Links, th: Thread<T>) {
    && th.retries <= th.mark + th.spurious
    && th.mark <= Events(l)
    && match th.pc
       case PushLoadNext(_, t) => TailRead(l, th.mark, t)
       case PushRecheck(_, t, nx) =>
         && TailRead(l, th.mark, t)
         && if nx != 0 then nx == NextOf(l.next, t) else NextOf(l.next, t) != 0 ==> th.mark < Events(l)
       case PushLink(_, t) => TailRead(l, th.mark, t) && (NextOf(l.next, t) != 0 ==> th.mark < Events(l))
       case PushSwing(node, t) => t in l.pos && l.pos[t] <= l.tailMoves && node != 0 && NextOf(l.next, t) == node
       case PushHelp(_, t, nx) => TailRead(l, th.mark, t) && nx != 0 && NextOf(l.next, t) == nx
       case PopLoadTail(h) => HeadRead(l, th.mark, h)
       case PopLoadNext(h, t) => HeadRead(l, th.mark, h) && TailRead(l, th.mark, t) && l.pos[h] <= l.pos[t]
       case PopHelp(t, nx) => TailRead(l, th.mark, t) && nx != 0 && NextOf(l.next, t) == nx
       case PopCas(h, nx) => HeadRead(l, th.mark, h) && nx != 0 && NextOf(l.next, h) == nx && l.pos[h] < l.tailMoves
       case PopRead(h, nx) => h in l.pos && l.pos[h] < l.headMoves && nx != 0 && NextOf(l.next, h) == nx
       case PopDelete(h, d) => h in l.pos && l.pos[h] < l.headMoves && d.Some?
       case _ => true
  }

  ghost predicate TailRead(l: Links, mark: int, t: Ptr) {
    t in l.pos && l.pos[t] <= l.tailMoves && (l.tail != t ==> mark < Events(l))
  }

  ghost predicate HeadRead(l: Links, mark: int, h: Ptr) {
    h in l.pos && l.pos[h] <= l.headMoves && (l.head != h ==> mark < Events(l))
  }

  // The node a pusher has made and not yet linked, and the node a popper has unlinked and not yet deleted.
  function Unlinked<T>(pc: Pc<T>): set<Ptr> {
    match pc
    case PushLoadTail(n) => {n}
    case PushLoadNext(n, _) => {n}
    case PushRecheck(n, _, _) => {n}
    case PushLink(n, _) => {n}
    case PushHelp(n, _, _) => {n}
    case _ => {}
  }

  function Doomed<T>(pc: Pc<T>): set<Ptr> {
    match pc
    case PopRead(h, _) => {h}
    case PopDelete(h, _) => {h}
    case _ => {}
  }

  ghost predicate Private<T>(l: Links, pc: Pc<T>) {
    && (forall n :: n in Unlinked(pc) ==> n in l.next && n !in l.pos && NextOf(l.next, n) == 0)
    && (forall h :: h in Doomed(pc) ==> h !in l.deleted)
  }

  ghost predicate Apart<T>(p: Pc<T>, q: Pc<T>) { Unlinked(p) !! Unlinked(q) && Doomed(p) !! Doomed(q) }

  ghost predicate Inv<T>(s: State<T>) {
    && Shared(s.m)
    && (forall t :: t in s.threads ==> Local(s.m.l, s.threads[t]) && Private(s.m.l, s.threads[t].pc))
    && (forall t, u :: t in s.threads && u in s.threads && t != u ==> Apart(s.threads[t].pc, s.threads[u].pc))
  }

  // ---- What one access does to the pointers, as every other thread sees it ----------------------------------------

  ghost predicate Grows(l: Links, l': Links) {
    && (forall p :: p in l.pos ==> p in l'.pos && l'.pos[p] == l.pos[p])
    && l.headMoves <= l'.headMoves && l.tailMoves <= l'.tailMoves
    && Events(l) <= Events(l')
    && (l.head != l'.head ==> Events(l) < Events(l'))
    && (l.tail != l'.tail ==> Events(l) < Events(l'))
    && (forall p {:trigger NextOf(l'.next, p)} :: p in l.pos ==>
          NextOf(l'.next, p) == NextOf(l.next, p) || (NextOf(l.next, p) == 0 && Events(l) < Events(l')))
  }

  // In a chain the successor of a node is the next one in link order.
  lemma Successor(l: Links, p: Ptr)
    requires Chain(l) && p in l.pos && NextOf(l.next, p) != 0
    ensures NextOf(l.next, p) in l.pos && l.pos[p] + 1 < |l.order| && l.order[l.pos[p] + 1] == NextOf(l.next, p)
  {
    assert l.order[l.pos[NextOf(l.next, p)]] == NextOf(l.next, p);
  }

  lemma LocalIsStable<T>(l: Links, l': Links, th: Thread<T>)
    requires Local(l, th) && Grows(l, l')
    ensures Local(l', th)
  {
  }

  lemma NewNodeKeeps(l: Links)
    requires Chain(l) && Heap(l)
    ensures Chain(NewNode(l)) && Heap(NewNode(l)) && Grows(l, NewNode(l))
  {
    assert forall p :: p in l.pos ==> NextOf(NewNode(l).next, p) == NextOf(l.next, p);
  }

  lemma LinkKeeps(l: Links, at: Ptr, node: Ptr)
    requires Chain(l) && Heap(l) && at in l.pos && NextOf(l.next, at) == 0 && l.pos[at] <= l.tailMoves
    requires node in l.next && node !in l.pos && NextOf(l.next, node) == 0
    ensures Chain(LinkNode(l, at, node)) && Heap(LinkNode(l, at, node)) && Grows(l, LinkNode(l, at, node))
    ensures l.tail == at
  {
    LinkChain(l, at, node);
    hide Chain;
    var l' := LinkNode(l, at, node);
    assert forall p :: NextOf(l'.next, p) == if p == at then node else NextOf(l.next, p);
  }

  lemma LinkChain(l: Links, at: Ptr, node: Ptr)
    requires Chain(l) && 0 !in l.pos && at in l.pos && NextOf(l.next, at) == 0 && l.pos[at] <= l.tailMoves
    requires node in l.next && node !in l.pos && NextOf(l.next, node) == 0
    ensures Chain(LinkNode(l, at, node)) && l.tail == at && at in l.next
  {
    var l' := LinkNode(l, at, node);
    assert l.pos[at] + 1 == |l.order| == l.tailMoves + 1;
    assert forall p :: NextOf(l'.next, p) == if p == at then node else NextOf(l.next, p);
    forall i | 0 <= i < |l'.order| ensures l'.order[i] in l'.pos && l'.pos[l'.order[i]] == i {
      if i < |l.order| { assert l.order[i] != node; }
    }
  }

  lemma MoveTailKeeps(l: Links, to: Ptr)
    requires Chain(l) && Heap(l) && to != 0 && NextOf(l.next, l.tail) == to
    ensures Chain(MoveTail(l, to)) && Heap(MoveTail(l, to)) && Grows(l, MoveTail(l, to))
  {
    Successor(l, l.tail);
  }

  lemma MoveHeadKeeps(l: Links, to: Ptr)
    requires Chain(l) && Heap(l) && to != 0 && NextOf(l.next, l.head) == to && l.headMoves < l.tailMoves
    ensures Chain(MoveHead(l, to)) && Heap(MoveHead(l, to)) && Grows(l, MoveHead(l, to))
  {
    Successor(l, l.head);
  }

  lemma DeleteKeeps(l: Links, h: Ptr)
    requires Chain(l) && Heap(l) && h in l.pos && l.pos[h] < l.headMoves && h !in l.deleted
    ensures Chain(Delete(l, h)) && Heap(Delete(l, h)) && Grows(l, Delete(l, h))
  {
  }

  // What an access leaves alone among the nodes that other threads keep to themselves.
  ghost predicate Spares<T>(l: Links, pc: Pc<T>, l': Links, pc': Pc<T>) {
    && (forall n :: n in l.next && n !in l.pos && n !in Unlinked(pc) && NextOf(l.next, n) == 0 ==>
          n in l'.next && n !in l'.pos && NextOf(l'.next, n) == 0)
    && (forall h :: h in l'.deleted ==> h in l.deleted || h in Doomed(pc))
    && Unlinked(pc') <= Unlinked(pc)
    && (forall h :: h in Doomed(pc') ==> h in Doomed(pc) || (h in l.pos && l.pos[h] >= l.headMoves))
  }

  // An access changes the queue only by linking a node or by moving the head.
  ghost predicate Effect<T>(l: Links, th: Thread<T>, l': Links, th': Thread<T>) {
    || (l'.order == l.order && l'.pos == l.pos && l'.headMoves == l.headMoves && l'.next.Keys == l.next.Keys)
    || (th.pc.PushLink? && l' == LinkNode(l, th.pc.curTail, th.pc.node)
        && th'.pc == PushSwing(th.pc.node, th.pc.curTail))
    || (th.pc.PopCas? && l' == MoveHead(l, th.pc.next) && th'.pc == PopRead(th.pc.curHead, th.pc.next))
  }

  ghost predicate Sound(l: Links, l': Links) { Chain(l') && Heap(l') && Grows(l, l') }

  ghost predicate Keeps<T>(l: Links, th: Thread<T>, l': Links, th': Thread<T>) {
    Local(l', th') && Private(l', th'.pc) && Spares(l, th.pc, l', th'.pc) && Effect(l, th, l', th')
  }

  // An access that writes nothing.
  ghost predicate Quiet<T>(l: Links, th: Thread<T>, l': Links, th': Thread<T>) {
    l' == l && Local(l, th') && Unlinked(th'.pc) <= Unlinked(th.pc) && Doomed(th'.pc) <= Doomed(th.pc)
  }

  lemma QuietKeeps<T>(l: Links, th: Thread<T>, l': Links, th': Thread<T>)
    requires Chain(l) && Heap(l) && Private(l, th.pc) && Quiet(l, th, l', th')
    ensures Keeps(l, th, l', th') && Sound(l, l')
  {
  }

  lemma PushLoadIsQuiet<T>(m: Memory<T>, th: Thread<T>, spurious: bool)
    requires Chain(m.l) && Local(m.l, th) && AtAccess(th.pc)
    requires th.pc.PushLoadTail? || th.pc.PushLoadNext? || th.pc.PushRecheck?
    ensures Quiet(m.l, th, Access(m, th, spurious).0, Access(m, th, spurious).1)
  {
  }

  lemma PopLoadIsQuiet<T>(m: Memory<T>, th: Thread<T>, spurious: bool)
    requires Chain(m.l) && Heap(m.l) && Local(m.l, th) && AtAccess(th.pc)
    requires th.pc.PopLoadHead? || th.pc.PopLoadTail? || th.pc.PopLoadNext?
    ensures Quiet(m.l, th, Access(m, th, spurious).0, Access(m, th, spurious).1)
  {
    EndsInOrder(m.l);
    if th.pc.PopLoadNext? { BehindTail(m.l, th.pc.curHead, th.pc.curTail); }
    hide Chain, Heap;
  }

  lemma EndsInOrder(l: Links)
    requires Chain(l)
    ensures l.head in l.pos && l.tail in l.pos && l.pos[l.head] == l.headMoves && l.pos[l.tail] == l.tailMoves
    ensures l.headMoves <= l.tailMoves
  {
  }

  // A node strictly before one that was the tail has a successor.
  lemma BehindTail(l: Links, h: Ptr, t: Ptr)
    requires Chain(l) && Heap(l) && h in l.pos && t in l.pos && l.pos[h] <= l.pos[t] <= l.tailMoves
    ensures h in l.next && (h != t ==> l.pos[h] < l.pos[t] && NextOf(l.next, h) != 0)
  {
    assert l.order[l.pos[h]] == h && l.order[l.pos[t]] == t;
  }

  lemma ReadIsQuiet<T>(m: Memory<T>, th: Thread<T>, spurious: bool)
    requires Chain(m.l) && Holds(m) && Local(m.l, th) && th.pc.PopRead?
    ensures Quiet(m.l, th, Access(m, th, spurious).0, Access(m, th, spurious).1)
  {
  }

  // A compare-exchange that fails, genuinely or not.
  lemma FailedCasIsQuiet<T>(m: Memory<T>, th: Thread<T>, spurious: bool)
    requires Chain(m.l) && Local(m.l, th)
    requires th.pc.PushLink? || th.pc.PushSwing? || th.pc.PushHelp? || th.pc.PopHelp? || th.pc.PopCas?
    requires spurious || if th.pc.PushLink? then NextOf(m.l.next, th.pc.curTail) != 0
                         else if th.pc.PopCas? then m.l.head != th.pc.curHead else m.l.tail != th.pc.curTail
    ensures Quiet(m.l, th, Access(m, th, spurious).0, Access(m, th, spurious).1)
  {
  }

  lemma LinkAccessKeeps<T>(m: Memory<T>, th: Thread<T>)
    requires Chain(m.l) && Heap(m.l) && Local(m.l, th) && Private(m.l, th.pc)
    requires th.pc.PushLink? && NextOf(m.l.next, th.pc.curTail) == 0
    ensures Keeps(m.l, th, Access(m, th, false).0, Access(m, th, false).1)
  {
    var l' := LinkNode(m.l, th.pc.curTail, th.pc.node);
    assert forall p :: NextOf(l'.next, p) == if p == th.pc.curTail then th.pc.node else NextOf(m.l.next, p);
  }

  lemma TailAccessKeeps<T>(m: Memory<T>, th: Thread<T>)
    requires Chain(m.l) && Local(m.l, th) && Private(m.l, th.pc)
    requires (th.pc.PushSwing? || th.pc.PushHelp? || th.pc.PopHelp?) && m.l.tail == th.pc.curTail
    ensures Keeps(m.l, th, Access(m, th, false).0, Access(m, th, false).1)
  {
    var (l', th') := Access(m, th, false);
    TailLocal(m.l, th, l', th');
    hide Chain, Local, TailRead, HeadRead;
  }

  lemma TailLocal<T>(l: Links, th: Thread<T>, l': Links, th': Thread<T>)
    requires Local(l, th) && Events(l') == Events(l) + 1
    requires || th' == th.(pc := PushReturn)
             || (th'.retries == th.retries + 1 && th'.spurious == th.spurious && th'.mark == Events(l'))
    requires th'.pc.PushReturn? || th'.pc.PushLoadTail? || th'.pc.PopLoadHead?
    ensures Local(l', th')
  {
  }

  lemma HeadAccessKeeps<T>(m: Memory<T>, th: Thread<T>)
    requires Chain(m.l) && Heap(m.l) && Local(m.l, th)
    requires th.pc.PopCas? && m.l.head == th.pc.curHead
    ensures Keeps(m.l, th, Access(m, th, false).0, Access(m, th, false).1)
  {
  }

  lemma DeleteAccessKeeps<T>(m: Memory<T>, th: Thread<T>, spurious: bool)
    requires Local(m.l, th) && Private(m.l, th.pc) && th.pc.PopDelete?
    ensures Keeps(m.l, th, Access(m, th, spurious).0, Access(m, th, spurious).1)
  {
  }

  lemma WriteIsSound<T>(m: Memory<T>, th: Thread<T>)
    requires Chain(m.l) && Heap(m.l) && Local(m.l, th) && Private(m.l, th.pc)
    requires match th.pc
             case PushLink(_, t) => NextOf(m.l.next, t) == 0
             case PushSwing(_, t) => m.l.tail == t
             case PushHelp(_, t, _) => m.l.tail == t
             case PopHelp(t, _) => m.l.tail == t
             case PopCas(h, _) => m.l.head == h
             case PopDelete(_, _) => true
             case _ => false
    ensures Sound(m.l, Access(m, th, false).0)
  {
    match th.pc
    case PushLink(node, t) => LinkKeeps(m.l, t, node);
    case PushSwing(node, t) => MoveTailKeeps(m.l, node);
    case PushHelp(_, t, nx) => MoveTailKeeps(m.l, nx);
    case PopHelp(t, nx) => MoveTailKeeps(m.l, nx);
    case PopCas(h, nx) => assert m.l.pos[m.l.head] == m.l.headMoves; MoveHeadKeeps(m.l, nx);
    case PopDelete(h, _) => DeleteKeeps(m.l, h);
  }

  lemma DeleteIsSure<T>(m: Memory<T>, th: Thread<T>, spurious: bool)
    requires th.pc.PopDelete?
    ensures Access(m, th, spurious) == Access(m, th, false)
  {
  }

  lemma AccessKeeps<T>(m: Memory<T>, th: Thread<T>, spurious: bool)
    requires Shared(m) && Local(m.l, th) && Private(m.l, th.pc) && AtAccess(th.pc)
    ensures var (l', th') := Access(m, th, spurious); Sound(m.l, l') && Keeps(m.l, th, l', th')
  {
    hide Access, Chain, Heap, Local, Private, Keeps, Sound, Quiet;
    var l, pc := m.l, th.pc;
    var (l', th') := Access(m, th, spurious);
    if pc.PushLoadTail? || pc.PushLoadNext? || pc.PushRecheck? {
      PushLoadIsQuiet(m, th, spurious);
      QuietKeeps(l, th, l', th');
    } else if pc.PopLoadHead? || pc.PopLoadTail? || pc.PopLoadNext? {
      PopLoadIsQuiet(m, th, spurious);
      QuietKeeps(l, th, l', th');
    } else if pc.PopRead? {
      ReadIsQuiet(m, th, spurious);
      QuietKeeps(l, th, l', th');
    } else if pc.PopDelete? {
      DeleteAccessKeeps(m, th, spurious);
      WriteIsSound(m, th);
      DeleteIsSure(m, th, spurious);
    } else if spurious || if pc.PushLink? then NextOf(l.next, pc.curTail) != 0
                          else if pc.PopCas? then l.head != pc.curHead else l.tail != pc.curTail {
      FailedCasIsQuiet(m, th, spurious);
      QuietKeeps(l, th, l', th');
    } else {
      WriteIsSound(m, th);
      if pc.PushLink? { LinkAccessKeeps(m, th); }
      else if pc.PopCas? { HeadAccessKeeps(m, th); }
      else { TailAccessKeeps(m, th); }
    }
  }

  // ---- The queue as an atomic FIFO --------------------------------------------------------------------------------

  datatype Op<T> = NoOp | PushWait(v: T) | PushDone | PopWait | PopDone(data: Option<T>)

  datatype Fifo<T> = Fifo(queue: seq<T>, ops: map<Tid, Op<T>>)

  // What a caller can see.
  datatype Event<T> =
    | PushCalled(t: Tid, v: T)
    | PopCalled(t: Tid)
    | PushReturned(t: Tid)
    | PopReturned(t: Tid, data: Option<T>)
    | Silent(t: Tid)

  // The specification: between its call and its return each operation takes effect once, at one instant.
  ghost predicate FifoStep<T>(a: Fifo<T>, e: Event<T>, a': Fifo<T>) {
    e.t in a.ops &&
    match e
    case PushCalled(t, v) => a.ops[t] == NoOp && a' == a.(ops := a.ops[t := PushWait(v)])
    case PopCalled(t) => a.ops[t] == NoOp && a' == a.(ops := a.ops[t := PopWait])
    case PushReturned(t) => a.ops[t] == PushDone && a' == a.(ops := a.ops[t := NoOp])
    case PopReturned(t, d) => a.ops[t] == PopDone(d) && a' == a.(ops := a.ops[t := NoOp])
    case Silent(t) => a' == a || TakesEffect(a, t, a')
  }

  ghost predicate TakesEffect<T>(a: Fifo<T>, t: Tid, a': Fifo<T>)
    requires t in a.ops
  {
    match a.ops[t]
    case PushWait(v) => a' == Fifo(a.queue + [v], a.ops[t := PushDone])
    case PopWait =>
      if a.queue == [] then a' == Fifo([], a.ops[t := PopDone(None)])
      else a' == Fifo(a.queue[1..], a.ops[t := PopDone(Some(a.queue[0]))])
    case _ => false
  }

  ghost predicate FifoAdmits<T(!new)>(a: Fifo<T>, events: seq<Event<T>>)
    decreases |events|
  {
    events == [] || exists a' :: FifoStep(a, events[0], a') && FifoAdmits(a', events[1..])
  }

  function OpOf<T>(m: Memory<T>, pc: Pc<T>): Op<T> {
    match pc
    case Idle => NoOp
    case PushLoadTail(n) => Waiting(m, n)
    case PushLoadNext(n, _) => Waiting(m, n)
    case PushRecheck(n, _, _) => Waiting(m, n)
    case PushLink(n, _) => Waiting(m, n)
    case PushHelp(n, _, _) => Waiting(m, n)
    case PushSwing(_, _) => PushDone
    case PushReturn => PushDone
    case PopRead(_, nx) => PopDone(ValueAt(m, nx))
    case PopDelete(_, d) => PopDone(d)
    case PopReturn(d) => PopDone(d)
    case _ => PopWait
  }

  function Waiting<T>(m: Memory<T>, n: Ptr): Op<T> { if n in m.value then PushWait(m.value[n]) else NoOp }

  ghost function Queue<T>(m: Memory<T>): seq<T>
    requires Shared(m)
  {
    Pushed(m)[m.l.headMoves..]
  }

  ghost function Abs<T>(s: State<T>): Fifo<T>
    requires Shared(s.m)
  {
    Fifo(Queue(s.m), map t | t in s.threads :: OpOf(s.m, s.threads[t].pc))
  }

  function Observe<T>(s: State<T>, a: Action<T>): Event<T>
    requires Enabled(s, a)
  {
    match a
    case CallPush(t, v) => PushCalled(t, v)
    case CallPop(t) => PopCalled(t)
    case Step(t, _) => Silent(t)
    case Return(t) =>
      if s.threads[t].pc.PushReturn? then PushReturned(t) else PopReturned(t, s.threads[t].pc.data)
  }

  // ---- One step ---------------------------------------------------------------------------------------------------

  lemma ValuesAfterCall<T>(m: Memory<T>, v: T)
    requires Shared(m)
    ensures var m' := m.(l := NewNode(m.l), value := m.value[m.l.limit := v]); Shared(m') && Queue(m') == Queue(m)
  {
    NewNodeKeeps(m.l);
    var m' := m.(l := NewNode(m.l), value := m.value[m.l.limit := v]);
    assert Pushed(m') == Pushed(m);
  }

  lemma ValuesUntouched<T>(m: Memory<T>, l': Links)
    requires Shared(m) && Sound(m.l, l')
    requires l'.order == m.l.order && l'.pos == m.l.pos && l'.headMoves == m.l.headMoves
    requires l'.next.Keys == m.l.next.Keys
    ensures Shared(m.(l := l')) && Queue(m.(l := l')) == Queue(m)
  {
    assert forall p :: p in l'.next ==> p in m.l.next.Keys;
    assert Pushed(m.(l := l')) == Pushed(m);
  }

  lemma ValuesAfterLink<T>(m: Memory<T>, at: Ptr, node: Ptr)
    requires Shared(m) && Sound(m.l, LinkNode(m.l, at, node)) && at in m.l.next && node in m.l.next && node !in m.l.pos
    ensures var m' := m.(l := LinkNode(m.l, at, node)); Shared(m') && Queue(m') == Queue(m) + [m.value[node]]
  {
    var m' := m.(l := LinkNode(m.l, at, node));
    assert Pushed(m') == Pushed(m) + [m.value[node]];
  }

  lemma ValuesAfterHead<T>(m: Memory<T>, to: Ptr)
    requires Shared(m) && Sound(m.l, MoveHead(m.l, to)) && m.l.headMoves < m.l.tailMoves
    ensures to in m.value && Queue(m) != [] && Queue(m)[0] == m.value[to]
    ensures var m' := m.(l := MoveHead(m.l, to), popped := m.popped + [m.value[to]]);
            Shared(m') && Queue(m') == Queue(m)[1..]
  {
    var m' := m.(l := MoveHead(m.l, to), popped := m.popped + [m.value[to]]);
    assert to == m.l.order[m.l.headMoves + 1] && m.l.pos[to] == m.l.headMoves + 1;
    assert Pushed(m') == Pushed(m);
  }

  // One operation takes effect on the queue, or nothing visible happens.
  ghost predicate Linearizes<T>(q: seq<T>, op: Op<T>, q': seq<T>, op': Op<T>) {
    || (q' == q && op' == op)
    || (op.PushWait? && op' == PushDone && q' == q + [op.v])
    || (op == PopWait && q == q' == [] && op' == PopDone(None))
    || (op == PopWait && q != [] && op' == PopDone(Some(q[0])) && q' == q[1..])
  }

  function After<T>(m: Memory<T>, l': Links): Memory<T> { m.(l := l', popped := m.popped + Taken(m, l')) }

  // An access that neither links nor moves the head is invisible, unless it is a pop finding nothing after the head.
  lemma SilentAccess<T>(m: Memory<T>, th: Thread<T>, spurious: bool)
    requires AtAccess(th.pc)
    requires var l' := Access(m, th, spurious).0; l'.order == m.l.order && l'.headMoves == m.l.headMoves
    ensures var pc' := Access(m, th, spurious).1.pc;
            || OpOf(m, pc') == OpOf(m, th.pc)
            || (th.pc.PopLoadNext? && NextOf(m.l.next, th.pc.curHead) == 0 && OpOf(m, pc') == PopDone(None))
  {
  }

  lemma NothingAfterHead<T>(m: Memory<T>, h: Ptr)
    requires Shared(m) && h in m.l.pos && m.l.pos[h] <= m.l.headMoves && NextOf(m.l.next, h) == 0
    ensures Queue(m) == []
  {
  }

  lemma LinkIsAtomic<T>(m: Memory<T>, th: Thread<T>)
    requires Shared(m) && Local(m.l, th) && Private(m.l, th.pc) && th.pc.PushLink?
    requires Sound(m.l, LinkNode(m.l, th.pc.curTail, th.pc.node))
    ensures var l' := LinkNode(m.l, th.pc.curTail, th.pc.node);
            Shared(After(m, l')) && OpOf(m, th.pc).PushWait? && Queue(After(m, l')) == Queue(m) + [OpOf(m, th.pc).v]
  {
    ValuesAfterLink(m, th.pc.curTail, th.pc.node);
    var l' := LinkNode(m.l, th.pc.curTail, th.pc.node);
    assert After(m, l') == m.(l := l');
  }

  lemma HeadMoveIsAtomic<T>(m: Memory<T>, th: Thread<T>)
    requires Shared(m) && th.pc.PopCas? && m.l.headMoves < m.l.tailMoves && Sound(m.l, MoveHead(m.l, th.pc.next))
    ensures var l' := MoveHead(m.l, th.pc.next);
            && Shared(After(m, l')) && Queue(m) != [] && Queue(After(m, l')) == Queue(m)[1..]
            && ValueAt(After(m, l'), th.pc.next) == Some(Queue(m)[0])
  {
    ValuesAfterHead(m, th.pc.next);
  }

  lemma UntouchedIsAtomic<T>(m: Memory<T>, l': Links)
    requires Shared(m) && Sound(m.l, l')
    requires l'.order == m.l.order && l'.pos == m.l.pos && l'.headMoves == m.l.headMoves
    requires l'.next.Keys == m.l.next.Keys
    ensures Shared(After(m, l')) && Queue(After(m, l')) == Queue(m)
  {
    ValuesUntouched(m, l');
    assert After(m, l') == m.(l := l');
  }

  lemma PopLocals<T>(m: Memory<T>, th: Thread<T>, l': Links)
    requires Shared(m) && Local(m.l, th) && Sound(m.l, l')
    ensures th.pc.PopLoadNext? ==> th.pc.curHead in m.l.pos && m.l.pos[th.pc.curHead] <= m.l.headMoves
    ensures th.pc.PopCas? && l' == MoveHead(m.l, th.pc.next) ==> m.l.headMoves < m.l.tailMoves
  {
    hide Heap, Grows, Holds;
  }

  lemma AccessIsAtomic<T>(m: Memory<T>, th: Thread<T>, spurious: bool)
    requires Shared(m) && Local(m.l, th) && Private(m.l, th.pc) && AtAccess(th.pc)
    ensures var (l', th') := Access(m, th, spurious);
            && Sound(m.l, l') && Keeps(m.l, th, l', th') && Shared(After(m, l'))
            && Linearizes(Queue(m), OpOf(m, th.pc), Queue(After(m, l')), OpOf(After(m, l'), th'.pc))
  {
    hide Access, Chain, Heap, Grows, Local, Private, Spares, Holds, Queue, Shared, NextOf;
    var (l', th') := Access(m, th, spurious);
    AccessKeeps(m, th, spurious);
    PopLocals(m, th, l');
    if l'.order == m.l.order && l'.headMoves == m.l.headMoves {
      SilentAccess(m, th, spurious);
      UntouchedIsAtomic(m, l');
      if OpOf(m, th'.pc) != OpOf(m, th.pc) { NothingAfterHead(m, th.pc.curHead); }
    } else if th.pc.PushLink? {
      LinkIsAtomic(m, th);
    } else {
      HeadMoveIsAtomic(m, th);
    }
  }

  // The invariant after one thread has moved, from what holds of that thread and what the others keep.
  lemma InvAfter<T>(s: State<T>, t: Tid, m': Memory<T>, th': Thread<T>)
    requires Inv(s) && t in s.threads
    requires Shared(m') && Local(m'.l, th') && Private(m'.l, th'.pc)
    requires forall u :: u in s.threads && u != t ==> Fits(m'.l, s.threads[u], th'.pc)
    ensures Inv(State(m', s.threads[t := th']))
  {
    hide Shared, Local, Private, Apart;
  }

  ghost predicate Fits<T>(l: Links, th: Thread<T>, pc: Pc<T>) {
    Local(l, th) && Private(l, th.pc) && Apart(th.pc, pc) && Apart(pc, th.pc)
  }

  lemma StepKeepsInv<T>(s: State<T>, a: Action<T>)
    requires Inv(s) && a.Step? && Enabled(s, a)
    ensures Inv(Next(s, a))
    ensures var th, s' := s.threads[a.t], Next(s, a);
            Linearizes(Queue(s.m), OpOf(s.m, th.pc), Queue(s'.m), OpOf(s'.m, s'.threads[a.t].pc))
  {
    hide Chain, Heap, Local, Access, Shared, Queue, Private, Spares, Fits, OpOf;
    var m, th := s.m, s.threads[a.t];
    var (l', th') := Access(m, th, a.spurious);
    AccessIsAtomic(m, th, a.spurious);
    OthersKeep(s, a.t, l', th');
    InvAfter(s, a.t, After(m, l'), th');
  }

  // The other threads keep what they know and what they own.
  lemma OthersKeep<T>(s: State<T>, t: Tid, l': Links, th': Thread<T>)
    requires Inv(s) && t in s.threads
    requires Sound(s.m.l, l') && Keeps(s.m.l, s.threads[t], l', th')
    ensures forall u :: u in s.threads && u != t ==> Fits(l', s.threads[u], th'.pc)
  {
    forall u | u in s.threads && u != t ensures Fits(l', s.threads[u], th'.pc) {
      LocalIsStable(s.m.l, l', s.threads[u]);
      assert Apart(s.threads[u].pc, s.threads[t].pc);
    }
  }

  lemma CallLeavesOthers<T>(s: State<T>, v: T, u: Tid)
    requires Inv(s) && u in s.threads
    ensures var l' := NewNode(s.m.l); var m' := s.m.(l := l', value := s.m.value[s.m.l.limit := v]);
            && Local(l', s.threads[u]) && Private(l', s.threads[u].pc)
            && s.m.l.limit !in Unlinked(s.threads[u].pc) && OpOf(m', s.threads[u].pc) == OpOf(s.m, s.threads[u].pc)
  {
    NodeIsOld(s, u);
    NewNodeKeeps(s.m.l);
    LocalIsStable(s.m.l, NewNode(s.m.l), s.threads[u]);
  }

  lemma NodeIsOld<T>(s: State<T>, u: Tid)
    requires Inv(s) && u in s.threads
    ensures s.m.l.limit !in Unlinked(s.threads[u].pc) && s.m.l.limit !in s.m.l.next && s.m.l.limit !in s.m.l.pos
    ensures s.threads[u].pc.PopRead? ==> s.threads[u].pc.next != s.m.l.limit
    ensures Private(NewNode(s.m.l), s.threads[u].pc)
  {
  }

  lemma CallKeepsInv<T>(s: State<T>, a: Action<T>)
    requires Inv(s) && a.CallPush? && Enabled(s, a)
    ensures Inv(Next(s, a)) && Queue(Next(s, a).m) == Queue(s.m)
    ensures OpOf(Next(s, a).m, Next(s, a).threads[a.t].pc) == PushWait(a.v)
    ensures forall u :: u in s.threads && u != a.t ==> OpOf(Next(s, a).m, s.threads[u].pc) == OpOf(s.m, s.threads[u].pc)
  {
    hide Shared, Local, Queue, Private, OpOf, Fits;
    ValuesAfterCall(s.m, a.v);
    var s' := Next(s, a);
    var th' := s'.threads[a.t];
    forall u | u in s.threads
      ensures Fits(s'.m.l, s.threads[u], th'.pc) && OpOf(s'.m, s.threads[u].pc) == OpOf(s.m, s.threads[u].pc)
    {
      CallLeavesOthers(s, a.v, u);
      FreshFits(s'.m.l, s.threads[u], th'.pc);
    }
    NewThreadIsFine(s.m.l, s.threads[a.t]);
    NodeIsOld(s, a.t);
    FreshNodeIsPrivate(s.m, th'.pc, a.v);
    InvAfter(s, a.t, s'.m, th');
  }

  lemma FreshNodeIsPrivate<T>(m: Memory<T>, pc: Pc<T>, v: T)
    requires m.l.limit !in m.l.pos && pc == PushLoadTail(m.l.limit)
    ensures Private(NewNode(m.l), pc)
    ensures OpOf(m.(l := NewNode(m.l), value := m.value[m.l.limit := v]), pc) == PushWait(v)
  {
  }

  lemma FreshFits<T>(l: Links, th: Thread<T>, pc: Pc<T>)
    requires Local(l, th) && Private(l, th.pc) && Doomed(pc) == {}
    requires forall n :: n in Unlinked(pc) ==> n !in Unlinked(th.pc)
    ensures Fits(l, th, pc)
  {
  }

  lemma NewThreadIsFine<T>(l: Links, th: Thread<T>)
    requires Local(l, th)
    ensures Local(NewNode(l), th.(pc := PushLoadTail(l.limit), mark := Events(l)))
    ensures Local(l, th.(pc := PopLoadHead, mark := Events(l))) && Local(l, th.(pc := Idle))
  {
  }

  lemma BoundaryKeepsInv<T>(s: State<T>, a: Action<T>)
    requires Inv(s) && (a.CallPop? || a.Return?) && Enabled(s, a)
    ensures Inv(Next(s, a))
  {
    hide Shared, Local, Fits;
    NewThreadIsFine(s.m.l, s.threads[a.t]);
    var th' := Next(s, a).threads[a.t];
    forall u | u in s.threads ensures Fits(s.m.l, s.threads[u], th'.pc) { FreshFits(s.m.l, s.threads[u], th'.pc); }
    InvAfter(s, a.t, s.m, th');
  }

  lemma OpsAfter<T>(s: State<T>, t: Tid, m': Memory<T>, th': Thread<T>)
    requires Shared(s.m) && Shared(m') && t in s.threads
    requires forall u :: u in s.threads && u != t ==> OpOf(m', s.threads[u].pc) == OpOf(s.m, s.threads[u].pc)
    ensures Abs(State(m', s.threads[t := th'])) == Fifo(Queue(m'), Abs(s).ops[t := OpOf(m', th'.pc)])
  {
    hide Shared, Queue, OpOf;
    assert Abs(State(m', s.threads[t := th'])).ops == Abs(s).ops[t := OpOf(m', th'.pc)];
  }

  lemma StepRefines<T>(s: State<T>, a: Action<T>)
    requires Inv(s) && Enabled(s, a) && a.Step?
    ensures Inv(Next(s, a)) && FifoStep(Abs(s), Observe(s, a), Abs(Next(s, a)))
  {
    hide Shared, Local, Private, Apart, Queue, Access, OpOf;
    StepKeepsInv(s, a);
    var s' := Next(s, a);
    assert s'.m.value == s.m.value;
    forall u | u in s.threads ensures OpOf(s'.m, s.threads[u].pc) == OpOf(s.m, s.threads[u].pc) {
      OpReadsValues(s.m, s'.m, s.threads[u].pc);
    }
    OpsAfter(s, a.t, s'.m, s'.threads[a.t]);
  }

  lemma OpReadsValues<T>(m: Memory<T>, m': Memory<T>, pc: Pc<T>)
    requires m'.value == m.value
    ensures OpOf(m', pc) == OpOf(m, pc)
  {
  }

  lemma CallReturnRefines<T>(s: State<T>, a: Action<T>)
    requires Inv(s) && Enabled(s, a) && !a.Step?
    ensures Inv(Next(s, a)) && FifoStep(Abs(s), Observe(s, a), Abs(Next(s, a)))
  {
    hide Shared, Local, Private, Apart, Queue;
    if a.CallPush? { CallKeepsInv(s, a); } else { BoundaryKeepsInv(s, a); }
    OpsAfter(s, a.t, Next(s, a).m, Next(s, a).threads[a.t]);
  }

  // Every action keeps the invariant and is one step of the atomic queue with the same visible event.
  lemma NextRefines<T>(s: State<T>, a: Action<T>)
    requires Inv(s) && Enabled(s, a)
    ensures Inv(Next(s, a)) && FifoStep(Abs(s), Observe(s, a), Abs(Next(s, a)))
  {
    hide *;
    if a.Step? { StepRefines(s, a); } else { CallReturnRefines(s, a); }
  }

  // ---- Whole runs -------------------------------------------------------------------------------------------------

  ghost predicate Feasible<T>(s: State<T>, run: seq<Action<T>>)
    decreases |run|
  {
    run == [] || (Enabled(s, run[0]) && Feasible(Next(s, run[0]), run[1..]))
  }

  ghost function Exec<T>(s: State<T>, run: seq<Action<T>>): State<T>
    requires Feasible(s, run)
    decreases |run|
  {
    if run == [] then s else Exec(Next(s, run[0]), run[1..])
  }

  ghost function Trace<T>(s: State<T>, run: seq<Action<T>>): seq<Event<T>>
    requires Feasible(s, run)
    decreases |run|
  {
    if run == [] then [] else [Observe(s, run[0])] + Trace(Next(s, run[0]), run[1..])
  }

  lemma InitIsFine<T>(tids: set<Tid>)
    ensures Inv(Init<T>(tids)) && Abs(Init<T>(tids)) == Fifo([], map t | t in tids :: NoOp)
  {
    hide Chain, Heap, Holds, Local, Private, Apart, Pushed;
    var s := Init<T>(tids);
    InitMemory(s.m);
    forall t | t in s.threads ensures Local(s.m.l, s.threads[t]) && Private(s.m.l, s.threads[t].pc) {
      IdleIsFine(s.m.l, s.threads[t]);
    }
    forall t, u | t in s.threads && u in s.threads ensures Apart(s.threads[t].pc, s.threads[u].pc) {
      IdleIsApart(s.threads[t].pc, s.threads[u].pc);
    }
  }

  lemma InitMemory<T>(m: Memory<T>)
    requires m == Memory(Links(1, 1, map[1 := 0], 2, [1], map[1 := 0], 0, 0, {}, false), map[], [])
    ensures Chain(m.l) && Heap(m.l) && Holds(m) && Pushed(m) == []
  {
  }

  lemma IdleIsFine<T>(l: Links, th: Thread<T>)
    requires th == Thread(Idle, 0, 0, 0) && Events(l) == 0
    ensures Local(l, th) && Private(l, th.pc)
  {
  }

  lemma IdleIsApart<T>(p: Pc<T>, q: Pc<T>)
    requires p.Idle? && q.Idle?
    ensures Apart(p, q)
  {
  }

  lemma {:induction false} RunKeepsInv<T>(s: State<T>, run: seq<Action<T>>)
    requires Inv(s) && Feasible(s, run)
    ensures Inv(Exec(s, run))
    decreases |run|
  {
    if run == [] {
    } else {
      NextRefines(s, run[0]);
      RunKeepsInv(Next(s, run[0]), run[1..]);
    }
  }

  lemma {:induction false} RunRefines<T(!new)>(s: State<T>, run: seq<Action<T>>)
    requires Inv(s) && Feasible(s, run)
    ensures FifoAdmits(Abs(s), Trace(s, run))
    decreases |run|
  {
    hide Inv, Next, Abs, Enabled, Observe, FifoStep;
    if run == [] {
    } else {
      NextRefines(s, run[0]);
      RunRefines(Next(s, run[0]), run[1..]);
      assert Trace(s, run)[1..] == Trace(Next(s, run[0]), run[1..]);
    }
  }

  // Linearizability: whatever callers observe in any interleaving, an atomic FIFO queue could have shown them.
  lemma EveryRunIsAtomic<T(!new)>(tids: set<Tid>, run: seq<Action<T>>)
    requires Feasible(Init<T>(tids), run)
    ensures FifoAdmits(Fifo([], map t | t in tids :: NoOp), Trace(Init<T>(tids), run))
  {
    InitIsFine<T>(tids);
    RunRefines(Init<T>(tids), run);
  }

  // In every reachable state the nodes are one chain, the pointers are in order, no null or unknown pointer has been
  // followed, no node deleted twice, and the values taken so far are the first ones pushed, in link order.
  lemma EveryStateIsSound<T>(tids: set<Tid>, run: seq<Action<T>>)
    requires Feasible(Init<T>(tids), run)
    ensures var m := Exec(Init<T>(tids), run).m;
            && Chain(m.l) && !m.l.fault && Holds(m)
            && m.popped <= Pushed(m) && |m.popped| == m.l.headMoves
            && (forall p :: p in m.l.deleted ==> p in m.l.pos && m.l.pos[p] < m.l.pos[m.l.head])
  {
    InitIsFine<T>(tids);
    RunKeepsInv(Init<T>(tids), run);
  }

  // A head compare-exchange about to succeed installs the next linked node, never null and never past the tail.
  lemma HeadCasIsSound<T>(tids: set<Tid>, run: seq<Action<T>>, t: Tid)
    requires Feasible(Init<T>(tids), run)
    requires var s := Exec(Init<T>(tids), run);
             t in s.threads && s.threads[t].pc.PopCas? && s.threads[t].pc.curHead == s.m.l.head
    ensures var s := Exec(Init<T>(tids), run); var nx := s.threads[t].pc.next;
            nx != 0 && nx in s.m.l.pos && s.m.l.tail in s.m.l.pos && s.m.l.head in s.m.l.pos
            && s.m.l.pos[nx] == s.m.l.pos[s.m.l.head] + 1 <= s.m.l.pos[s.m.l.tail]
  {
    InitIsFine<T>(tids);
    RunKeepsInv(Init<T>(tids), run);
    var s := Exec(Init<T>(tids), run);
    hide Init, Exec, Feasible, Local, Chain, Heap;
    CasLocals(s.m.l, s.threads[t]);
  }

  lemma CasLocals<T>(l: Links, th: Thread<T>)
    requires Chain(l) && Local(l, th) && th.pc.PopCas? && th.pc.curHead == l.head
    ensures th.pc.next != 0 && th.pc.next in l.pos && l.tail in l.pos && l.head in l.pos
    ensures l.pos[th.pc.next] == l.pos[l.head] + 1 <= l.pos[l.tail]
  {
    Successor(l, l.head);
  }

  // Lock-freedom: a thread goes round its loops only because another link or pop happened, or spuriously.
  lemma RetriesArePaidFor<T>(tids: set<Tid>, run: seq<Action<T>>, t: Tid)
    requires Feasible(Init<T>(tids), run) && t in Exec(Init<T>(tids), run).threads
    ensures var s := Exec(Init<T>(tids), run);
            && Chain(s.m.l) && Holds(s.m)
            && s.threads[t].retries <= 2 * |Pushed(s.m)| + |s.m.popped| + s.threads[t].spurious
  {
    InitIsFine<T>(tids);
    RunKeepsInv(Init<T>(tids), run);
    var s := Exec(Init<T>(tids), run);
    assert Local(s.m.l, s.threads[t]);
  }

  // ---- Counted on the run -----------------------------------------------------------------------------------------

  function StepsOf<T>(run: seq<Action<T>>, t: Tid): nat {
    if run == [] then 0 else (if run[0].Step? && run[0].t == t then 1 else 0) + StepsOf(run[1..], t)
  }

  function SpuriousOf<T>(run: seq<Action<T>>, t: Tid): nat {
    if run == [] then 0 else (if run[0] == Step(t, true) then 1 else 0) + SpuriousOf(run[1..], t)
  }

  function CallsOf<T>(run: seq<Action<T>>, t: Tid): nat {
    if run == [] then 0
    else (if run[0].t == t && (run[0].CallPush? || run[0].CallPop?) then 1 else 0) + CallsOf(run[1..], t)
  }

  // The accesses a thread has left before it returns or goes round its loop again.
  function Rest<T>(pc: Pc<T>): nat {
    match pc
    case PushLoadTail(_) => 5
    case PushLoadNext(_, _) => 4
    case PushRecheck(_, _, _) => 3
    case PushLink(_, _) => 2
    case PushSwing(_, _) => 1
    case PushHelp(_, _, _) => 1
    case PopLoadHead => 6
    case PopLoadTail(_) => 5
    case PopLoadNext(_, _) => 4
    case PopHelp(_, _) => 1
    case PopCas(_, _) => 3
    case PopRead(_, _) => 2
    case PopDelete(_, _) => 1
    case _ => 0
  }

  // An access brings a thread closer to the end of its iteration, or is counted as a retry.
  lemma AccessAdvances<T>(m: Memory<T>, th: Thread<T>, spurious: bool)
    requires AtAccess(th.pc)
    ensures var th' := Access(m, th, spurious).1;
            && Rest(th'.pc) + 1 + 6 * th.retries <= Rest(th.pc) + 6 * th'.retries
            && th'.spurious <= th.spurious + if spurious then 1 else 0
  {
    hide Events, Follow, LinkNode, MoveTail, MoveHead, Delete, ValueAt, NextOf;
  }

  lemma StepAdvances<T>(s: State<T>, a: Action<T>, t: Tid)
    requires Enabled(s, a) && t in s.threads
    ensures var s' := Next(s, a);
            && t in s'.threads
            && StepsOf([a], t) + Rest(s'.threads[t].pc) + 6 * s.threads[t].retries
               <= Rest(s.threads[t].pc) + 6 * s'.threads[t].retries + 6 * CallsOf([a], t)
            && s'.threads[t].spurious <= s.threads[t].spurious + SpuriousOf([a], t)
  {
    hide Access, Events, Rest;
    assert [a][1..] == [];
    if a.t == t {
      if a.Step? { AccessAdvances(s.m, s.threads[t], a.spurious); } else { CallRests(s, a); }
    }
  }

  lemma CallRests<T>(s: State<T>, a: Action<T>)
    requires Enabled(s, a) && !a.Step?
    ensures Rest(s.threads[a.t].pc) == 0 && Rest(Next(s, a).threads[a.t].pc) <= if a.Return? then 0 else 6
  {
    hide Events;
  }

  lemma {:induction false} RunAdvances<T>(s: State<T>, run: seq<Action<T>>, t: Tid)
    requires Feasible(s, run) && t in s.threads
    ensures var s' := Exec(s, run);
            && t in s'.threads
            && StepsOf(run, t) + 6 * s.threads[t].retries
               <= Rest(s.threads[t].pc) + 6 * s'.threads[t].retries + 6 * CallsOf(run, t)
            && s'.threads[t].spurious <= s.threads[t].spurious + SpuriousOf(run, t)
    decreases |run|
  {
    hide Next, Enabled, Rest;
    if run == [] {
    } else {
      StepAdvances(s, run[0], t);
      RunAdvances(Next(s, run[0]), run[1..], t);
      assert [run[0]][1..] == [];
    }
  }

  // Lock-freedom, counted on the run alone: a thread makes at most six accesses for each of its calls, for each of its
  // spurious failures, for each value popped, and twelve for each value pushed.
  lemma AccessesArePaidFor<T>(tids: set<Tid>, run: seq<Action<T>>, t: Tid)
    requires Feasible(Init<T>(tids), run) && t in tids
    ensures var s := Exec(Init<T>(tids), run);
            && Chain(s.m.l) && Holds(s.m)
            && StepsOf(run, t) <= 6 * (2 * |Pushed(s.m)| + |s.m.popped| + SpuriousOf(run, t) + CallsOf(run, t))
  {
    RunAdvances(Init<T>(tids), run, t);
    RetriesArePaidFor(tids, run, t);
  }

  // The tail lags behind the last node only while the thread that linked it has still to swing it.
  ghost predicate SwingDue<T>(s: State<T>) {
    |s.m.l.order| == s.m.l.tailMoves + 2 ==> exists t :: t in s.threads && Swings(s.threads[t].pc, s.m.l.tail)
  }

  predicate Swings<T>(pc: Pc<T>, tail: Ptr) { pc.PushSwing? && pc.curTail == tail }

  lemma AccessSwings<T>(m: Memory<T>, th: Thread<T>)
    requires Chain(m.l) && Heap(m.l) && Local(m.l, th) && Private(m.l, th.pc) && AtAccess(th.pc)
    ensures var (l, th') := Access(m, th, false);
            && (|l.order| == l.tailMoves + 2 ==>
                  || Swings(th'.pc, l.tail)
                  || (l.tail == m.l.tail && |m.l.order| == m.l.tailMoves + 2 && !Swings(th.pc, l.tail)))
  {
    hide Events, Holds;
    if th.pc.PushLink? && NextOf(m.l.next, th.pc.curTail) == 0 { LinkKeeps(m.l, th.pc.curTail, th.pc.node); }
  }

  lemma NextSwings<T>(s: State<T>, a: Action<T>)
    requires Inv(s) && Enabled(s, a) && SwingDue(s) && (a.Step? ==> !a.spurious)
    ensures SwingDue(Next(s, a))
  {
    hide Access, Local, Private, Chain, Heap, Holds, Apart, Pushed;
    var s', th := Next(s, a), s.threads[a.t];
    assert Local(s.m.l, th) && Private(s.m.l, th.pc);
    if a.Step? { AccessSwings(s.m, th); }
    if |s'.m.l.order| == s'.m.l.tailMoves + 2 {
      if Swings(s'.threads[a.t].pc, s'.m.l.tail) {
      } else {
        var t :| t in s.threads && Swings(s.threads[t].pc, s.m.l.tail);
        assert t != a.t && Swings(s'.threads[t].pc, s'.m.l.tail);
      }
    }
  }

  lemma {:induction false} RunSwings<T>(s: State<T>, run: seq<Action<T>>)
    requires Inv(s) && Feasible(s, run) && SwingDue(s)
    requires forall i :: 0 <= i < |run| && run[i].Step? ==> !run[i].spurious
    ensures Inv(Exec(s, run)) && SwingDue(Exec(s, run))
    decreases |run|
  {
    hide Inv, SwingDue, Next, Enabled;
    if run == [] {
    } else {
      NextRefines(s, run[0]);
      NextSwings(s, run[0]);
      RunSwings(Next(s, run[0]), run[1..]);
    }
  }

  // In a run without spurious failures the tail is the last node whenever no push has still to swing it.
  lemma TailCatchesUp<T>(tids: set<Tid>, run: seq<Action<T>>)
    requires Feasible(Init<T>(tids), run) && forall i :: 0 <= i < |run| && run[i].Step? ==> !run[i].spurious
    requires forall t :: t in Exec(Init<T>(tids), run).threads ==> !Exec(Init<T>(tids), run).threads[t].pc.PushSwing?
    ensures var l := Exec(Init<T>(tids), run).m.l; l.order != [] && l.tail == l.order[|l.order| - 1]
  {
    hide Inv, SwingDue, Exec, Feasible, Next, Enabled;
    InitIsFine<T>(tids);
    InitSwings<T>(tids);
    RunSwings(Init<T>(tids), run);
    TailIsLast(Exec(Init<T>(tids), run));
  }

  lemma InitSwings<T>(tids: set<Tid>)
    ensures SwingDue(Init<T>(tids))
  {
  }

  lemma TailIsLast<T>(s: State<T>)
    requires Inv(s) && SwingDue(s) && forall t :: t in s.threads ==> !s.threads[t].pc.PushSwing?
    ensures s.m.l.order != [] && s.m.l.tail == s.m.l.order[|s.m.l.order| - 1]
  {
    hide Local, Private, Apart, Holds, Pushed;
  }

  // ---- Nodes that are deleted -------------------------------------------------------------------------------------

  // The node whose fields the next access reads or deletes.
  function Touches<T>(pc: Pc<T>): Option<Ptr> {
    match pc
    case PushLoadNext(_, t) => Some(t)
    case PushLink(_, t) => Some(t)
    case PopLoadNext(h, _) => Some(h)
    case PopRead(_, nx) => Some(nx)
    case PopDelete(h, _) => Some(h)
    case _ => None
  }

  // Some pop has unlinked the node and has still to delete it.
  ghost predicate BeingDeleted<T>(threads: map<Tid, Thread<T>>, p: Ptr) {
    exists t :: t in threads && p in Doomed(threads[t].pc)
  }

  // Every node behind the head is deleted or about to be: nothing leaks.
  ghost predicate Reclaimed<T>(l: Links, threads: map<Tid, Thread<T>>) {
    forall p :: p in l.pos && l.pos[p] < l.headMoves ==> p in l.deleted || BeingDeleted(threads, p)
  }

  // What an access does to the nodes behind the head.
  lemma AccessReclaims<T>(m: Memory<T>, th: Thread<T>, spurious: bool)
    requires Chain(m.l) && Heap(m.l) && Local(m.l, th) && Private(m.l, th.pc) && AtAccess(th.pc)
    ensures var (l, th') := Access(m, th, spurious);
            && m.l.deleted <= l.deleted
            && (forall p :: p in l.pos && l.pos[p] < l.headMoves ==>
                  p in Doomed(th'.pc) || (p in m.l.pos && m.l.pos[p] < m.l.headMoves))
            && (forall p :: p in Doomed(th.pc) ==> p in Doomed(th'.pc) || p in l.deleted)
  {
    hide Events, Holds;
    if th.pc.PopCas? && m.l.head == th.pc.curHead && !spurious { assert m.l.order[m.l.headMoves] == m.l.head; }
  }

  lemma NextReclaims<T>(s: State<T>, a: Action<T>)
    requires Inv(s) && Enabled(s, a) && Reclaimed(s.m.l, s.threads)
    ensures Reclaimed(Next(s, a).m.l, Next(s, a).threads)
  {
    hide Access, Local, Private, Chain, Heap, Holds, Apart, Pushed;
    var s' := Next(s, a);
    var th, th' := s.threads[a.t], s'.threads[a.t];
    assert Local(s.m.l, th) && Private(s.m.l, th.pc);
    if a.Step? { AccessReclaims(s.m, th, a.spurious); }
    hide Inv;
    forall p | p in s'.m.l.pos && s'.m.l.pos[p] < s'.m.l.headMoves
      ensures p in s'.m.l.deleted || BeingDeleted(s'.threads, p)
    {
      if p in Doomed(th'.pc) {
        assert BeingDeleted(s'.threads, p);
      } else if p !in s'.m.l.deleted {
        assert BeingDeleted(s.threads, p);
        var t :| t in s.threads && p in Doomed(s.threads[t].pc);
        assert t != a.t && s'.threads[t] == s.threads[t];
      }
    }
  }

  lemma {:induction false} RunReclaims<T>(s: State<T>, run: seq<Action<T>>)
    requires Inv(s) && Feasible(s, run) && Reclaimed(s.m.l, s.threads)
    ensures var s' := Exec(s, run); Inv(s') && Reclaimed(s'.m.l, s'.threads)
    decreases |run|
  {
    hide Inv, Reclaimed, Next, Enabled;
    if run == [] {
    } else {
      NextRefines(s, run[0]);
      NextReclaims(s, run[0]);
      RunReclaims(Next(s, run[0]), run[1..]);
    }
  }

  // A push goes on from its second look at the tail exactly when the tail is still the node it read, and then that
  // node was not deleted when its next pointer was read, or at any time before: what a push makes of a read is never
  // made of a deleted node.
  lemma LookedAtIsLive<T>(s: State<T>, run: seq<Action<T>>, t: Tid, spurious: bool)
    requires Inv(s) && Feasible(s, run) && Enabled(Exec(s, run), Step(t, spurious))
    requires Exec(s, run).threads[t].pc.PushRecheck?
    ensures var s1 := Exec(s, run);
            var pc, pc' := s1.threads[t].pc, Next(s1, Step(t, spurious)).threads[t].pc;
            && (pc' == PushLoadTail(pc.node) <==> s1.m.l.tail != pc.curTail)
            && (pc'.PushLink? || pc'.PushHelp? <==> s1.m.l.tail == pc.curTail)
            && (s1.m.l.tail == pc.curTail ==> pc.curTail !in s.m.l.deleted)
  {
    hide Inv, Exec, Feasible, Next, Enabled;
    RunKeepsInv(s, run);
    DeletedStays(s, run);
    SecondLook(Exec(s, run), t, spurious);
  }

  lemma SecondLook<T>(s: State<T>, t: Tid, spurious: bool)
    requires Inv(s) && Enabled(s, Step(t, spurious)) && s.threads[t].pc.PushRecheck?
    ensures var pc, pc' := s.threads[t].pc, Next(s, Step(t, spurious)).threads[t].pc;
            && (pc' == PushLoadTail(pc.node) <==> s.m.l.tail != pc.curTail)
            && (pc'.PushLink? || pc'.PushHelp? <==> s.m.l.tail == pc.curTail)
            && s.m.l.tail !in s.m.l.deleted
  {
    TailIsLive(s.m.l);
    hide Inv, Access, Taken;
    LookStep(s.m, s.threads[t], spurious);
  }

  lemma LookStep<T>(m: Memory<T>, th: Thread<T>, spurious: bool)
    requires th.pc.PushRecheck?
    ensures var pc, pc' := th.pc, Access(m, th, spurious).1.pc;
            && (pc' == PushLoadTail(pc.node) <==> m.l.tail != pc.curTail)
            && (pc'.PushLink? || pc'.PushHelp? <==> m.l.tail == pc.curTail)
  {
  }

  lemma TailIsLive(l: Links)
    requires Chain(l) && Heap(l)
    ensures l.tail !in l.deleted
  {
  }

  lemma {:induction false} DeletedStays<T>(s: State<T>, run: seq<Action<T>>)
    requires Feasible(s, run)
    ensures s.m.l.deleted <= Exec(s, run).m.l.deleted
    decreases |run|
  {
    if run == [] {
    } else {
      DeletedGrows(s, run[0]);
      hide Next, Enabled;
      DeletedStays(Next(s, run[0]), run[1..]);
    }
  }

  lemma DeletedGrows<T>(s: State<T>, a: Action<T>)
    requires Enabled(s, a)
    ensures s.m.l.deleted <= Next(s, a).m.l.deleted
  {
    hide Events, Taken;
  }

  // In every run a node is deleted exactly when a pop has moved the head past it and finished with it, so an access
  // meets a deleted node exactly when that has happened since its thread read the pointer.  The delete itself never
  // does.
  lemma DeletedIsMetExactly<T>(tids: set<Tid>, run: seq<Action<T>>, t: Tid)
    requires Feasible(Init<T>(tids), run)
    requires var s := Exec(Init<T>(tids), run); t in s.threads && Touches(s.threads[t].pc).Some?
    ensures var s := Exec(Init<T>(tids), run);
            var p, l := Touches(s.threads[t].pc).value, s.m.l;
            && p in l.pos
            && (p in l.deleted <==> l.pos[p] < l.headMoves && !BeingDeleted(s.threads, p))
            && (s.threads[t].pc.PopDelete? ==> p !in l.deleted)
  {
    InitIsFine<T>(tids);
    RunReclaims(Init<T>(tids), run);
    var s := Exec(Init<T>(tids), run);
    hide Init, Exec, Feasible;
    TouchedIsLinked(s.m.l, s.threads[t]);
    hide Chain, Heap, Holds, Local;
    var p := Touches(s.threads[t].pc).value;
    assert Private(s.m.l, s.threads[t].pc);
    if BeingDeleted(s.threads, p) {
      var u :| u in s.threads && p in Doomed(s.threads[u].pc);
      assert Private(s.m.l, s.threads[u].pc);
    } else if p in s.m.l.deleted {
      DeletedIsBehind(s.m.l, p);
    }
  }

  lemma DeletedIsBehind(l: Links, p: Ptr)
    requires Heap(l) && p in l.deleted
    ensures p in l.pos && l.pos[p] < l.headMoves
  {
  }

  lemma TouchedIsLinked<T>(l: Links, th: Thread<T>)
    requires Chain(l) && Local(l, th) && Touches(th.pc).Some?
    ensures Touches(th.pc).value in l.pos
  {
    if th.pc.PopRead? { Successor(l, th.pc.curHead); }
  }

  // What a caller can arrange: while a thread is in pop, every other thread is outside push and pop.
  predicate InPop<T>(pc: Pc<T>) {
    pc.PopLoadHead? || pc.PopLoadTail? || pc.PopLoadNext? || pc.PopHelp? || pc.PopCas? || pc.PopRead? || pc.PopDelete?
  }

  predicate Outside<T>(pc: Pc<T>) { pc.Idle? || pc.PushReturn? || pc.PopReturn? }

  ghost predicate PopsAlone<T>(threads: map<Tid, Thread<T>>) {
    forall t, u :: t in threads && u in threads && t != u && InPop(threads[t].pc) ==> Outside(threads[u].pc)
  }

  ghost predicate AlwaysAlone<T>(s: State<T>, run: seq<Action<T>>)
    requires Feasible(s, run)
    decreases |run|
  {
    PopsAlone(s.threads) && (run == [] || AlwaysAlone(Next(s, run[0]), run[1..]))
  }

  // The node a thread holds on to has not been left behind by the head.
  ghost predicate UpToDate<T>(l: Links, pc: Pc<T>) {
    match pc
    case PushLoadNext(_, t) => Ahead(l, t)
    case PushRecheck(_, t, _) => Ahead(l, t)
    case PushLink(_, t) => Ahead(l, t)
    case PopLoadTail(h) => h == l.head
    case PopLoadNext(h, _) => h == l.head
    case PopRead(_, nx) => nx == l.head
    case _ => true
  }

  ghost predicate Ahead(l: Links, p: Ptr) { p in l.pos && l.pos[p] >= l.headMoves }

  ghost predicate AllUpToDate<T>(s: State<T>) { forall t :: t in s.threads ==> UpToDate(s.m.l, s.threads[t].pc) }

  lemma AccessUpToDate<T>(m: Memory<T>, th: Thread<T>, spurious: bool)
    requires Chain(m.l) && Heap(m.l) && Local(m.l, th) && Private(m.l, th.pc) && AtAccess(th.pc) && UpToDate(m.l, th.pc)
    ensures var (l, th') := Access(m, th, spurious);
            && UpToDate(l, th'.pc) && (!InPop(th.pc) ==> l.headMoves == m.l.headMoves && l.head == m.l.head)
            && (forall p :: p in m.l.pos ==> p in l.pos && l.pos[p] == m.l.pos[p])
  {
    hide Events, Holds;
    assert m.l.order[m.l.tailMoves] == m.l.tail;
  }

  lemma NextUpToDate<T>(s: State<T>, a: Action<T>)
    requires Inv(s) && Enabled(s, a) && PopsAlone(s.threads) && AllUpToDate(s)
    ensures AllUpToDate(Next(s, a))
  {
    hide Access, Local, Private, Chain, Heap, Holds, Apart, Pushed;
    var s', th := Next(s, a), s.threads[a.t];
    assert Local(s.m.l, th) && Private(s.m.l, th.pc) && UpToDate(s.m.l, th.pc);
    if a.Step? { AccessUpToDate(s.m, th, a.spurious); }
    forall u | u in s'.threads ensures UpToDate(s'.m.l, s'.threads[u].pc) {
      if u != a.t {
        assert s'.threads[u] == s.threads[u] && UpToDate(s.m.l, s.threads[u].pc);
        assert InPop(th.pc) ==> Outside(s.threads[u].pc);
      }
    }
  }

  lemma {:induction false} RunUpToDate<T>(s: State<T>, run: seq<Action<T>>)
    requires Inv(s) && Feasible(s, run) && AlwaysAlone(s, run) && AllUpToDate(s)
    ensures Inv(Exec(s, run)) && AllUpToDate(Exec(s, run))
    decreases |run|
  {
    hide Inv, AllUpToDate, PopsAlone, Next, Enabled;
    if run == [] {
    } else {
      NextRefines(s, run[0]);
      NextUpToDate(s, run[0]);
      RunUpToDate(Next(s, run[0]), run[1..]);
    }
  }

  // In a run where no push and no other pop overlaps a pop, no access ever meets a deleted node.
  lemma LonePopsAreSafe<T>(tids: set<Tid>, run: seq<Action<T>>, t: Tid)
    requires Feasible(Init<T>(tids), run) && AlwaysAlone(Init<T>(tids), run) && t in Exec(Init<T>(tids), run).threads
    ensures var s := Exec(Init<T>(tids), run);
            Touches(s.threads[t].pc).Some? ==> Touches(s.threads[t].pc).value !in s.m.l.deleted
  {
    InitIsFine<T>(tids);
    RunUpToDate(Init<T>(tids), run);
    var s := Exec(Init<T>(tids), run);
    hide Init, Exec, Feasible, AlwaysAlone, Local, Private, Chain, Heap, Holds, UpToDate;
    assert Local(s.m.l, s.threads[t]) && Private(s.m.l, s.threads[t].pc) && UpToDate(s.m.l, s.threads[t].pc);
    if Touches(s.threads[t].pc).Some? { TouchedIsAhead(s.m.l, s.threads[t]); }
  }

  lemma TouchedIsAhead<T>(l: Links, th: Thread<T>)
    requires Chain(l) && Heap(l) && Local(l, th) && Private(l, th.pc) && UpToDate(l, th.pc) && Touches(th.pc).Some?
    ensures Touches(th.pc).value !in l.deleted
  {
    assert l.head == l.order[l.headMoves];
  }

  lemma {:induction false} OneMore<T>(s0: State<T>, run: seq<Action<T>>, a: Action<T>)
    requires Feasible(s0, run) && Enabled(Exec(s0, run), a)
    ensures Feasible(s0, run + [a]) && Exec(s0, run + [a]) == Next(Exec(s0, run), a)
    decreases |run|
  {
    hide Next, Enabled;
    if run == [] {
      assert run + [a] == [a] && [a][1..] == [];
    } else {
      OneMore(Next(s0, run[0]), run[1..], a);
      assert (run + [a])[1..] == run[1..] + [a];
    }
  }

  // A state reached from the start, together with the run that leads there.
  ghost predicate Reached<T>(s: State<T>, run: seq<Action<T>>) {
    Feasible(Init<T>({0, 1}), run) && Exec(Init<T>({0, 1}), run) == s
  }

  lemma Go<T>(s: State<T>, run: seq<Action<T>>, a: Action<T>) returns (s': State<T>, run': seq<Action<T>>)
    requires Reached(s, run) && Enabled(s, a)
    ensures s' == Next(s, a) && Reached(s', run')
  {
    OneMore(Init<T>({0, 1}), run, a);
    s', run' := Next(s, a), run + [a];
  }

  // One node behind the dummy; thread 0 has pushed it.
  ghost predicate OnePushed<T>(s: State<T>) {
    && s.m.l.head == 1 && s.m.l.tail == 2 && NextOf(s.m.l.next, 1) == 2 && s.m.l.deleted == {}
    && s.threads.Keys == {0, 1} && s.threads[0].pc == PushReturn && s.threads[1].pc == Idle
  }

  lemma PushHalf<T>(v: T) returns (s: State<T>, run: seq<Action<T>>)
    ensures Reached(s, run) && s.m.l.head == s.m.l.tail == 1 && NextOf(s.m.l.next, 1) == 0 && s.m.l.deleted == {}
    ensures s.threads.Keys == {0, 1} && s.threads[0].pc == PushRecheck(2, 1, 0) && s.threads[1].pc == Idle
  {
    hide Feasible, Exec, Taken, Events;
    s, run := Init<T>({0, 1}), [];
    assert Reached(s, run) by { StartIsReached<T>(); }
    hide Reached;
    s, run := Go(s, run, CallPush(0, v));
    assert s.threads[0].pc == PushLoadTail(2);
    s, run := Go(s, run, Step(0, false));
    s, run := Go(s, run, Step(0, false));
  }

  lemma PushOne<T>(v: T) returns (s: State<T>, run: seq<Action<T>>)
    ensures Reached(s, run) && OnePushed(s)
  {
    hide Feasible, Exec, Taken, Events, Init, Reached;
    s, run := PushHalf(v);
    s, run := Go(s, run, Step(0, false));
    assert s.threads[0].pc == PushLink(2, 1);
    s, run := Go(s, run, Step(0, false));
    assert s.threads[0].pc == PushSwing(2, 1);
    s, run := Go(s, run, Step(0, false));
  }

  lemma StartIsReached<T>()
    ensures Reached(Init<T>({0, 1}), [])
  {
  }

  // Thread 1 has read head and tail and is about to read the next pointer of the node it takes for the head.
  ghost predicate AboutToRead<T>(s: State<T>) {
    && s.m.l.head == 1 && s.m.l.tail == 2 && NextOf(s.m.l.next, 1) == 2 && s.m.l.deleted == {}
    && s.threads.Keys == {0, 1} && s.threads[0].pc == Idle && s.threads[1].pc == PopLoadNext(1, 2)
  }

  lemma ReadHead<T>(v: T) returns (s: State<T>, run: seq<Action<T>>)
    ensures Reached(s, run) && AboutToRead(s)
  {
    hide Feasible, Exec, Taken, Events, Reached, Init;
    s, run := PushOne(v);
    s, run := Go(s, run, CallPop(1));
    s, run := Go(s, run, Step(1, false));
    s, run := Go(s, run, Step(1, false));
    s, run := Go(s, run, Return(0));
  }

  // Thread 0 takes that node out and deletes it first.
  lemma DeletedIsMet<T>(v: T) returns (run: seq<Action<T>>)
    ensures Feasible(Init<T>({0, 1}), run)
    ensures var s := Exec(Init<T>({0, 1}), run);
            1 in s.threads && s.threads[1].pc == PopLoadNext(1, 2) && Touches(s.threads[1].pc).value in s.m.l.deleted
  {
    hide Feasible, Exec, Taken, Events, Reached, Init;
    var s: State<T>;
    s, run := ReadHead(v);
    s, run := Go(s, run, CallPop(0));
    s, run := Go(s, run, Step(0, false));
    s, run := Go(s, run, Step(0, false));
    s, run := Go(s, run, Step(0, false));
    assert s.threads[0].pc == PopCas(1, 2);
    s, run := Go(s, run, Step(0, false));
    s, run := Go(s, run, Step(0, false));
    s, run := Go(s, run, Step(0, false));
    assert 1 in s.m.l.deleted && s.threads[1].pc == PopLoadNext(1, 2);
    ReachedMeans(s, run);
  }

  lemma ReachedMeans<T>(s: State<T>, run: seq<Action<T>>)
    requires Reached(s, run)
    ensures Feasible(Init<T>({0, 1}), run) && Exec(Init<T>({0, 1}), run) == s
  {
  }
}
