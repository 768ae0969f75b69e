/**
  Savepoints (db/tx/Savepoint.cpp) inside a transaction (db/tx/Transaction.cpp), over a small model of what the
  server does with SAVEPOINT, ROLLBACK TO SAVEPOINT and RELEASE SAVEPOINT: the contents the transaction sees, whether
  a failed statement has aborted it, and the stack of savepoints.
 */
module Savepoints {
  import opened Common

  // ---- The server -------------------------------------------------------------------------------------------------

  datatype View<D> = Ok(d: D) | Aborted

  // Rolling back to a savepoint leaves it on the stack; a newer savepoint hides an older one of the same name.
  datatype Server<D> = Server(view: View<D>, stack: seq<(string, D)>)

  datatype Command<!D> = Save(name: string) | RollbackTo(name: string) | Release(name: string) | Write(f: D -> D) | Bad

  // Index of the newest savepoint with that name, or -1.
  function Newest<D>(stack: seq<(string, D)>, name: string): (i: int)
    ensures -1 <= i < |stack| && (i >= 0 ==> stack[i].0 == name)
    ensures forall j :: i < j < |stack| ==> stack[j].0 != name
  {
    if stack == [] then -1
    else if stack[|stack| - 1].0 == name then |stack| - 1
    else Newest(stack[..|stack| - 1], name)
  }

  // One statement: the server afterwards, and whether an error comes back.
  function Statement<D>(s: Server<D>, c: Command<D>): (Server<D>, bool) {
    match c
    case RollbackTo(name) =>
      var i := Newest(s.stack, name);
      if i < 0 then (s.(view := Aborted), true) else (Server(Ok(s.stack[i].1), s.stack[..i + 1]), false)
    case Save(name) => if s.view.Aborted? then (s, true) else (s.(stack := s.stack + [(name, s.view.d)]), false)
    case Release(name) =>
      var i := Newest(s.stack, name);
      if s.view.Aborted? || i < 0 then (s.(view := Aborted), true) else (s.(stack := s.stack[..i]), false)
    case Write(f) => if s.view.Aborted? then (s, true) else (s.(view := Ok(f(s.view.d))), false)
    case Bad => (s.(view := Aborted), true)
  }

  // ---- The client -------------------------------------------------------------------------------------------------

  function NameOf(id: nat): string { "tx_sp_" + Digits(id) }

  // The counter after k more increments.
  function Later(id: nat, k: nat): (r: nat)
    ensures r < TWO_64
  {
    (id + k) % TWO_64
  }

  // The transaction: the server at the other end and next_savepoint_id, a uint64_t.
  datatype Tx<D> = Tx(server: Server<D>, nextId: nat)

  datatype Handle = Handle(name: string, active: bool)

  // How a savepoint gets its name: from the counter, or from the caller.
  datatype Tag = Auto | Given(name: string)

  function TagName(l: Tag, id: nat): string { if l.Auto? then NameOf(id) else l.name }

  function Step(l: Tag): nat { if l.Auto? then 1 else 0 }

  function Exec<D>(tx: Tx<D>, c: Command<D>): (Tx<D>, bool) {
    var (s, threw) := Statement(tx.server, c);
    (tx.(server := s), threw)
  }

  // Savepoint(tx) and Savepoint(tx, name): no handle when SAVEPOINT throws.
  function Construct<D>(tx: Tx<D>, l: Tag): (Tx<D>, Option<Handle>) {
    var name := TagName(l, tx.nextId);
    var (tx1, threw) := Exec(if l.Auto? then tx.(nextId := Later(tx.nextId, 1)) else tx, Save(name));
    (tx1, if threw then None else Some(Handle(name, true)))
  }

  // rollback() and release(): an inactive handle throws before it touches the server, and a handle whose command
  // throws stays active.
  function Resolve<D>(tx: Tx<D>, h: Handle, release: bool): (Tx<D>, Handle, bool) {
    if !h.active then (tx, h, true)
    else
      var (tx1, threw) := Exec(tx, if release then Release(h.name) else RollbackTo(h.name));
      (tx1, h.(active := threw), threw)
  }

  // ~Savepoint
  function Drop<D>(tx: Tx<D>, h: Handle): Tx<D> { if h.active then Resolve(tx, h, false).0 else tx }

  // The object: each method is a member function of the source.
  class Transaction<D> {
    var server: Server<D>
    var nextId: nat

    function State(): Tx<D>
      reads this
    {
      Tx(server, nextId)
    }

    constructor (d: D)
      ensures State() == Tx(Server(Ok(d), []), 0)
    {
      server, nextId := Server(Ok(d), []), 0;
    }

    method Run(c: Command<D>) returns (threw: bool)
      modifies this
      ensures (State(), threw) == Exec(old(State()), c)
    {
      var (s, t) := Statement(server, c);
      server := s;
      threw := t;
    }

    method MakeSavepointName() returns (name: string)
      modifies this
      ensures name == NameOf(old(nextId)) && State() == old(State()).(nextId := Later(old(nextId), 1))
    {
      name := NameOf(nextId);
      nextId := Later(nextId, 1);
    }
  }

  class Savepoint<D> {
    const tx: Transaction<D>
    var name: string
    var active: bool

    constructor (tx: Transaction<D>)
      modifies tx
      ensures this.tx == tx && tx.State() == Construct(old(tx.State()), Auto).0
      ensures active == Construct(old(tx.State()), Auto).1.Some?
      ensures active ==> Handle(name, active) == Construct(old(tx.State()), Auto).1.value
    {
      this.tx := tx;
      name, active := "", false;
      new;
      name := tx.MakeSavepointName();
      var threw := tx.Run(Save(name));
      active := !threw;
    }

    constructor Named(tx: Transaction<D>, name: string)
      modifies tx
      ensures this.tx == tx && tx.State() == Construct(old(tx.State()), Given(name)).0
      ensures active == Construct(old(tx.State()), Given(name)).1.Some?
      ensures active ==> Handle(this.name, active) == Construct(old(tx.State()), Given(name)).1.value
    {
      this.tx := tx;
      this.name, active := name, false;
      new;
      var threw := tx.Run(Save(name));
      active := !threw;
    }

    method Finish(release: bool) returns (threw: bool)
      modifies this, tx
      ensures (tx.State(), Handle(name, active), threw) == Resolve(old(tx.State()), old(Handle(name, active)), release)
      ensures !old(active) ==> threw && tx.State() == old(tx.State())
      ensures old(active) ==>
                (tx.State(), threw) == Exec(old(tx.State()), if release then Release(name) else RollbackTo(name))
      ensures active == (old(active) && threw) && name == old(name)
    {
      if !active { return true; }
      threw := tx.Run(if release then Release(name) else RollbackTo(name));
      if !threw { active := false; }
    }

    method Destruct()
      modifies this, tx
      ensures tx.State() == Drop(old(tx.State()), old(Handle(name, active)))
      ensures tx.State() == if old(active) then Exec(old(tx.State()), RollbackTo(old(name))).0 else old(tx.State())
    {
      if active { var threw := Finish(false); }
    }
  }

  // ---- Nested scopes ----------------------------------------------------------------------------------------------

  datatype How = ByRollback | ByRelease | ByDestructor

  // Client code over one transaction, with savepoint scopes resolved innermost first.
  datatype Prog<!D> =
    | Skip
    | Do(f: D -> D)                  // a statement that succeeds on a healthy transaction
    | Fail                           // a statement the server refuses
    | Seq(first: Prog<D>, second: Prog<D>)
    | Try(body: Prog<D>)             // catches what the body throws
    | Scope(tag: Tag, body: Prog<D>, how: How)

  // The program as the source runs it.  The result says whether an exception leaves it.
  function Execute<D>(p: Prog<D>, tx: Tx<D>): (Tx<D>, bool) {
    match p
    case Skip => (tx, false)
    case Do(f) => Exec(tx, Write(f))
    case Fail => Exec(tx, Bad)
    case Seq(a, b) =>
      var (tx1, threw) := Execute(a, tx);
      if threw then (tx1, true) else Execute(b, tx1)
    case Try(body) => (Execute(body, tx).0, false)
    case Scope(tag, body, how) =>
      var (tx1, h) := Construct(tx, tag);
      if h.None? then (tx1, true)
      else
        var (tx2, threw) := Execute(body, tx1);
        Leave(tx2, h.value, threw, how)
  }

  // The end of a scope, from the last statement of its body to the end of its destructor.
  function Leave<D>(tx: Tx<D>, h: Handle, threw: bool, how: How): (Tx<D>, bool) {
    if threw || how.ByDestructor? then (Drop(tx, h), threw)
    else
      var (tx', h', threw') := Resolve(tx, h, how.ByRelease?);
      (Drop(tx', h'), threw')
  }

  // What it means: a scope that is rolled back or left by an exception contributes nothing, a released one everything.
  function Meaning<D>(p: Prog<D>, v: View<D>): (View<D>, bool) {
    match p
    case Skip => (v, false)
    case Do(f) => if v.Ok? then (Ok(f(v.d)), false) else (Aborted, true)
    case Fail => (Aborted, true)
    case Seq(a, b) =>
      var (v1, threw) := Meaning(a, v);
      if threw then (v1, true) else Meaning(b, v1)
    case Try(body) => (Meaning(body, v).0, false)
    case Scope(_, body, how) =>
      if v.Aborted? then (Aborted, true)
      else
        var (v1, threw) := Meaning(body, v);
        if threw then (v, true)
        else if how.ByRelease? then if v1.Ok? then (v1, false) else (v, true)
        else (v, false)
  }

  // ---- What a program leaves on the stack -------------------------------------------------------------------------

  // A savepoint named by the caller, or by the counter so many increments after the start of the program.
  datatype Mark = Word(name: string) | Number(k: nat)

  function MarkOf(l: Tag): Mark { if l.Auto? then Number(0) else Word(l.name) }

  function MarkName(m: Mark, id: nat): string { if m.Word? then m.name else NameOf(Later(id, m.k)) }

  function Shift<D>(left: seq<(Mark, D)>, n: nat): seq<(Mark, D)> {
    seq(|left|, i requires (0 <= i < |left|) =>
      if left[i].0.Word? then left[i] else (Number(left[i].0.k + n), left[i].1))
  }

  function Named<D>(left: seq<(Mark, D)>, id: nat): seq<(string, D)> {
    seq(|left|, i requires (0 <= i < |left|) => (MarkName(left[i].0, id), left[i].1))
  }

  // How often the program takes a name from the counter.
  function Made<D>(p: Prog<D>, v: View<D>): nat {
    match p
    case Seq(a, b) =>
      var (v1, threw) := Meaning(a, v);
      Made(a, v) + if threw then 0 else Made(b, v1)
    case Try(body) => Made(body, v)
    case Scope(tag, body, _) => Step(tag) + if v.Aborted? then 0 else Made(body, v)
    case _ => 0
  }

  // The savepoints left, oldest first: a released scope leaves none, any other scope its own.
  function Left<D>(p: Prog<D>, v: View<D>): seq<(Mark, D)> {
    match p
    case Seq(a, b) =>
      var (v1, threw) := Meaning(a, v);
      Left(a, v) + if threw then [] else Shift(Left(b, v1), Made(a, v))
    case Try(body) => Left(body, v)
    case Scope(tag, body, how) =>
      if v.Aborted? then []
      else
        var (v1, threw) := Meaning(body, v);
        if !threw && how.ByRelease? && v1.Ok? then [] else [(MarkOf(tag), v.d)]
    case _ => []
  }

  // Whether a savepoint left inside a scope has the scope's name; the scope starts with counter id.
  predicate Clash(tag: Tag, m: Mark, id: nat) {
    match (tag, m)
    case (Auto, Number(k)) => (k + 1) % TWO_64 == 0
    case (Given(name), Word(other)) => name == other
    case (Auto, Word(name)) => name == NameOf(id)
    case (Given(name), Number(k)) => name == NameOf(Later(id, k))
  }

  predicate Free<D>(tag: Tag, left: seq<(Mark, D)>, id: nat) {
    forall i :: 0 <= i < |left| ==> !Clash(tag, left[i].0, id)
  }

  // No scope that is entered has a savepoint of its own name left inside it.
  predicate Clean<D>(p: Prog<D>, v: View<D>, id: nat) {
    match p
    case Seq(a, b) =>
      var (v1, threw) := Meaning(a, v);
      Clean(a, v, id) && (threw || Clean(b, v1, Later(id, Made(a, v))))
    case Try(body) => Clean(body, v, id)
    case Scope(tag, body, _) =>
      v.Aborted? || (Clean(body, v, Later(id, Step(tag))) && Free(tag, Left(body, v), id))
    case _ => true
  }

  // Every scope that is entered finds its own savepoint when it is resolved.
  predicate Finds<D>(p: Prog<D>, tx: Tx<D>) {
    match p
    case Seq(a, b) =>
      var (tx1, threw) := Execute(a, tx);
      Finds(a, tx) && (threw || Finds(b, tx1))
    case Try(body) => Finds(body, tx)
    case Scope(tag, body, _) =>
      var (tx1, h) := Construct(tx, tag);
      h.None? || (Finds(body, tx1) && Newest(Execute(body, tx1).0.server.stack, h.value.name) == |tx.server.stack|)
    case _ => true
  }

  // The outcome without regard to names.
  function Ideal<D>(p: Prog<D>, tx: Tx<D>): (Tx<D>, bool) {
    var (v, threw) := Meaning(p, tx.server.view);
    (Tx(Server(v, tx.server.stack + Named(Left(p, tx.server.view), tx.nextId)),
        Later(tx.nextId, Made(p, tx.server.view))), threw)
  }

  // ---- Names ------------------------------------------------------------------------------------------------------

  lemma NamesDiffer(a: nat, b: nat)
    requires a != b
    ensures NameOf(a) != NameOf(b)
  {
    ParseDigits(a);
    ParseDigits(b);
    assert Digits(a) == NameOf(a)[6..] && Digits(b) == NameOf(b)[6..];
  }

  lemma LaterAdds(id: nat, a: nat, b: nat)
    ensures Later(Later(id, a), b) == Later(id, a + b)
  {
  }

  lemma WholeTurns(id: nat, k: nat)
    requires id < TWO_64
    ensures Later(id, k) == id <==> k % TWO_64 == 0
  {
  }

  // Two savepoints have one name exactly when their marks clash.
  lemma ClashIsExact(tag: Tag, m: Mark, id: nat)
    requires id < TWO_64
    ensures Clash(tag, m, id) <==> MarkName(m, Later(id, Step(tag))) == TagName(tag, id)
  {
    hide NameOf, Later;
    assert Later(id, 0) == id by { WholeTurns(id, 0); }
    if tag.Auto? && m.Number? {
      LaterAdds(id, 1, m.k);
      WholeTurns(id, 1 + m.k);
      if Later(id, 1 + m.k) != id { NamesDiffer(Later(id, 1 + m.k), id); }
    }
  }

  lemma NamedShift<D>(left: seq<(Mark, D)>, id: nat, n: nat)
    ensures Named(Shift(left, n), id) == Named(left, Later(id, n))
  {
    hide NameOf, Later;
    forall i | 0 <= i < |left| ensures Named(Shift(left, n), id)[i] == Named(left, Later(id, n))[i] {
      if left[i].0.Number? { LaterAdds(id, n, left[i].0.k); }
    }
  }

  lemma NewestIs<D>(stack: seq<(string, D)>, name: string, i: nat)
    requires i < |stack| && stack[i].0 == name && forall j :: i < j < |stack| ==> stack[j].0 != name
    ensures Newest(stack, name) == i
  {
  }

  // ---- Execution --------------------------------------------------------------------------------------------------

  // At the end of its body the scope finds its own savepoint exactly when no name left inside clashes with it.
  lemma FoundIsFree<D>(tx: Tx<D>, tag: Tag, left: seq<(Mark, D)>)
    requires tx.nextId < TWO_64 && tx.server.view.Ok?
    ensures var name := TagName(tag, tx.nextId);
            var stack2 := tx.server.stack + [(name, tx.server.view.d)] + Named(left, Later(tx.nextId, Step(tag)));
            Newest(stack2, name) == |tx.server.stack| <==> Free(tag, left, tx.nextId)
  {
    hide NameOf, Later, Clash, MarkName, TagName, Newest;
    var name, id, n := TagName(tag, tx.nextId), Later(tx.nextId, Step(tag)), |tx.server.stack|;
    var stack2 := tx.server.stack + [(name, tx.server.view.d)] + Named(left, id);
    forall i | 0 <= i < |left|
      ensures stack2[n + 1 + i].0 == name <==> Clash(tag, left[i].0, tx.nextId)
    {
      assert stack2[n + 1 + i] == Named(left, id)[i] == (MarkName(left[i].0, id), left[i].1);
      ClashIsExact(tag, left[i].0, tx.nextId);
    }
    if Free(tag, left, tx.nextId) {
      forall j | n < j < |stack2| ensures stack2[j].0 != name { assert !Clash(tag, left[j - n - 1].0, tx.nextId); }
      NewestIs(stack2, name, n);
    } else {
      var i :| 0 <= i < |left| && Clash(tag, left[i].0, tx.nextId);
      assert stack2[n + 1 + i].0 == name;
    }
  }

  lemma ConstructWorks<D>(tx: Tx<D>, tag: Tag)
    requires tx.server.view.Ok? && tx.nextId < TWO_64
    ensures Construct(tx, tag) ==
            (Tx(tx.server.(stack := tx.server.stack + [(TagName(tag, tx.nextId), tx.server.view.d)]),
                Later(tx.nextId, Step(tag))), Some(Handle(TagName(tag, tx.nextId), true)))
  {
    assert Later(tx.nextId, 0) == tx.nextId;
  }

  // The end of a scope that finds its savepoint.
  lemma FoundScopeLeaves<D>(tx: Tx<D>, tx2: Tx<D>, name: string, threw: bool, how: How)
    requires tx.server.view.Ok? && Newest(tx2.server.stack, name) == |tx.server.stack|
    requires tx2.server.stack[..|tx.server.stack| + 1] == tx.server.stack + [(name, tx.server.view.d)]
    ensures var (tx', threw') := Leave(tx2, Handle(name, true), threw, how);
            && tx'.nextId == tx2.nextId
            && if !threw && how.ByRelease? && tx2.server.view.Ok? then
                 tx'.server == Server(tx2.server.view, tx.server.stack) && !threw'
               else
                 && tx'.server == Server(tx.server.view, tx.server.stack + [(name, tx.server.view.d)])
                 && threw' == (threw || how.ByRelease?)
  {
    var n := |tx.server.stack|;
    assert tx2.server.stack[n] == tx2.server.stack[..n + 1][n] == (name, tx.server.view.d);
    assert tx2.server.stack[..n] == tx2.server.stack[..n + 1][..n] == tx.server.stack;
    hide Newest;
  }

  lemma ScopeIsIdeal<D>(tag: Tag, body: Prog<D>, how: How, tx: Tx<D>)
    requires tx.nextId < TWO_64 && tx.server.view.Ok? && Free(tag, Left(body, tx.server.view), tx.nextId)
    requires Execute(body, Construct(tx, tag).0) == Ideal(body, Construct(tx, tag).0)
    ensures Execute(Scope(tag, body, how), tx) == Ideal(Scope(tag, body, how), tx)
  {
    hide TagName, Leave, Free, Newest, NameOf, Later;
    var name, left, n := TagName(tag, tx.nextId), Left(body, tx.server.view), |tx.server.stack|;
    ConstructWorks(tx, tag);
    FoundIsFree(tx, tag, left);
    var tx2 := Execute(body, Construct(tx, tag).0).0;
    var base := tx.server.stack + [(name, tx.server.view.d)];
    assert (base + Named(left, Later(tx.nextId, Step(tag))))[..n + 1] == base;
    FoundScopeLeaves(tx, tx2, name, Execute(body, Construct(tx, tag).0).1, how);
    LaterAdds(tx.nextId, Step(tag), Made(body, tx.server.view));
    MarkNames(tag, tx.nextId, tx.server.view.d);
    assert tx.server.stack + Named<D>([], tx.nextId) == tx.server.stack;
  }

  lemma MarkNames<D>(tag: Tag, id: nat, d: D)
    requires id < TWO_64
    ensures Named([(MarkOf(tag), d)], id) == [(TagName(tag, id), d)]
  {
    assert Later(id, 0) == id;
  }

  lemma NamedAppend<D>(a: seq<(Mark, D)>, b: seq<(Mark, D)>, id: nat)
    ensures Named(a + b, id) == Named(a, id) + Named(b, id)
  {
    hide MarkName;
  }

  lemma SeqRuns<D>(a: Prog<D>, b: Prog<D>, tx: Tx<D>)
    ensures Execute(Seq(a, b), tx) == if Execute(a, tx).1 then Execute(a, tx) else Execute(b, Execute(a, tx).0)
    ensures var v := tx.server.view;
            var (v1, threw) := Meaning(a, v);
            && Meaning(Seq(a, b), v) == (if threw then (v1, true) else Meaning(b, v1))
            && Made(Seq(a, b), v) == Made(a, v) + (if threw then 0 else Made(b, v1))
            && Left(Seq(a, b), v) == Left(a, v) + if threw then [] else Shift(Left(b, v1), Made(a, v))
  {
    hide Construct, Leave, Statement, Shift;
  }

  lemma SeqIsIdeal<D>(a: Prog<D>, b: Prog<D>, tx: Tx<D>)
    requires Execute(a, tx) == Ideal(a, tx)
    requires !Execute(a, tx).1 ==> Execute(b, Execute(a, tx).0) == Ideal(b, Execute(a, tx).0)
    ensures Execute(Seq(a, b), tx) == Ideal(Seq(a, b), tx)
  {
    hide Execute, Meaning, Left, Made, Named, Shift, Later;
    SeqRuns(a, b, tx);
    var v, id, stack := tx.server.view, tx.nextId, tx.server.stack;
    var (v1, threw) := Meaning(a, v);
    if threw {
      assert Left(a, v) + [] == Left(a, v);
    } else {
      var left1, left2, m := Left(a, v), Left(b, v1), Made(a, v);
      NamedShift(left2, id, m);
      NamedAppend(left1, Shift(left2, m), id);
      assert (stack + Named(left1, id)) + Named(left2, Later(id, m)) == stack + Named(Left(Seq(a, b), v), id);
      LaterAdds(id, m, Made(b, v1));
    }
  }

  lemma LeafIsIdeal<D>(p: Prog<D>, tx: Tx<D>)
    requires (p.Skip? || p.Do? || p.Fail? || (p.Scope? && tx.server.view.Aborted?)) && tx.nextId < TWO_64
    ensures Execute(p, tx) == Ideal(p, tx)
  {
    assert Later(tx.nextId, 0) == tx.nextId;
    assert tx.server.stack + Named<D>([], tx.nextId) == tx.server.stack;
  }

  lemma TryIsIdeal<D>(body: Prog<D>, tx: Tx<D>)
    requires Execute(body, tx) == Ideal(body, tx)
    ensures Execute(Try(body), tx) == Ideal(Try(body), tx)
  {
  }

  // A clean program of savepoint scopes has exactly the effect its direct meaning gives, down to the stack it leaves.
  lemma {:induction false} ExecutionMeans<D>(p: Prog<D>, tx: Tx<D>)
    requires tx.nextId < TWO_64 && Clean(p, tx.server.view, tx.nextId)
    ensures Execute(p, tx) == Ideal(p, tx)
    decreases p
  {
    hide Execute, Free, Left, Made, Meaning, Construct, TagName;
    match p
    case Seq(a, b) =>
      ExecutionMeans(a, tx);
      if !Execute(a, tx).1 { ExecutionMeans(b, Execute(a, tx).0); }
      SeqIsIdeal(a, b, tx);
    case Try(body) => ExecutionMeans(body, tx); TryIsIdeal(body, tx);
    case Scope(tag, body, how) =>
      if tx.server.view.Aborted? { LeafIsIdeal(p, tx); } else {
        ConstructWorks(tx, tag);
        ExecutionMeans(body, Construct(tx, tag).0);
        ScopeIsIdeal(tag, body, how, tx);
      }
    case _ => LeafIsIdeal(p, tx);
  }

  // And cleanness is the exact condition for every scope to find its own savepoint.
  lemma {:induction false} FindsMeansClean<D>(p: Prog<D>, tx: Tx<D>)
    requires tx.nextId < TWO_64
    ensures Finds(p, tx) <==> Clean(p, tx.server.view, tx.nextId)
    decreases p
  {
    hide Execute, Free, Left, Made, Meaning, TagName, Newest, Construct;
    match p
    case Seq(a, b) =>
      FindsMeansClean(a, tx);
      if Clean(a, tx.server.view, tx.nextId) {
        ExecutionMeans(a, tx);
        if !Execute(a, tx).1 { FindsMeansClean(b, Execute(a, tx).0); }
      }
    case Try(body) => FindsMeansClean(body, tx);
    case Scope(tag, body, how) =>
      if tx.server.view.Aborted? { NoHandle(tx, tag); } else {
        ConstructWorks(tx, tag);
        var tx1 := Construct(tx, tag).0;
        FindsMeansClean(body, tx1);
        if Clean(body, tx1.server.view, tx1.nextId) {
          ExecutionMeans(body, tx1);
          FoundIsFree(tx, tag, Left(body, tx.server.view));
        }
      }
    case _ =>
  }

  lemma NoHandle<D>(tx: Tx<D>, tag: Tag)
    requires tx.server.view.Aborted?
    ensures Construct(tx, tag).1.None?
  {
  }

  // In particular for a whole transaction, which starts with counter 0: what would be committed is what it means.
  lemma TransactionMeans<D>(p: Prog<D>, d: D)
    requires Clean(p, Ok(d), 0)
    ensures var (tx, threw) := Execute(p, Tx(Server(Ok(d), []), 0)); (tx.server.view, threw) == Meaning(p, Ok(d))
  {
    ExecutionMeans(p, Tx(Server(Ok(d), []), 0));
  }

  // A handle that has been resolved is done with: resolving it again throws and leaves the transaction alone,
  // whatever has been written since, and so does its destructor.
  lemma ResolvedOnce<D>(tx: Tx<D>, h: Handle, release: bool, later: Tx<D>, again: bool)
    requires !Resolve(tx, h, release).2
    ensures var h' := Resolve(tx, h, release).1;
            h.active && !h'.active && Resolve(later, h', again) == (later, h', true) && Drop(later, h') == later
  {
  }

  // What a scope does whose body is clean, whether or not its name clashes: rolling back gives the contents at the
  // newest savepoint of the name.
  lemma RollbackIsExact<D>(tag: Tag, body: Prog<D>, how: How, tx: Tx<D>)
    requires tx.nextId < TWO_64 && tx.server.view.Ok? && !how.ByRelease?
    requires Clean(body, tx.server.view, Later(tx.nextId, Step(tag)))
    ensures Execute(Scope(tag, body, how), tx).0.server.view ==
            Ok(NewestClash(tag, Left(body, tx.server.view), tx.nextId, tx.server.view.d))
  {
    hide TagName, Clean, Left, Meaning, NameOf, Later;
    ConstructWorks(tx, tag);
    ExecutionMeans(body, Construct(tx, tag).0);
    ClashIsNewest(tx.server.stack, tag, Left(body, tx.server.view), tx.nextId, tx.server.view.d);
  }

  // The contents at the newest savepoint that clashes, or at the scope's own when there is none.
  function NewestClash<D>(tag: Tag, left: seq<(Mark, D)>, id: nat, own: D): D {
    if left == [] then own
    else if Clash(tag, left[|left| - 1].0, id) then left[|left| - 1].1
    else NewestClash(tag, left[..|left| - 1], id, own)
  }

  lemma {:induction false} ClashIsNewest<D>(
    stack: seq<(string, D)>, tag: Tag, left: seq<(Mark, D)>, id: nat, own: D)
    requires id < TWO_64
    ensures var name := TagName(tag, id);
            var stack2 := stack + [(name, own)] + Named(left, Later(id, Step(tag)));
            var i := Newest(stack2, name);
            i >= 0 && stack2[i].1 == NewestClash(tag, left, id, own)
  {
    hide TagName, MarkName, NameOf, Later, Clash;
    var name, id1 := TagName(tag, id), Later(id, Step(tag));
    var stack2 := stack + [(name, own)] + Named(left, id1);
    if left == [] {
      assert stack2 == stack + [(name, own)];
    } else {
      var last := left[|left| - 1];
      ClashIsExact(tag, last.0, id);
      assert stack2[|stack2| - 1] == (MarkName(last.0, id1), last.1);
      assert Named(left[..|left| - 1], id1) == Named(left, id1)[..|left| - 1];
      assert stack2[..|stack2| - 1] == stack + [(name, own)] + Named(left[..|left| - 1], id1);
      ClashIsNewest(stack, tag, left[..|left| - 1], id, own);
    }
  }

  // ---- Programs that are clean ------------------------------------------------------------------------------------

  // The number of savepoints a program can create.
  function Scopes<D>(p: Prog<D>): nat {
    match p
    case Seq(a, b) => Scopes(a) + Scopes(b)
    case Try(body) => Scopes(body)
    case Scope(_, body, _) => 1 + Scopes(body)
    case _ => 0
  }

  // Names from the counter only, and fewer than 2^64 savepoints inside any one scope.
  predicate CounterSuffices<D>(p: Prog<D>) {
    match p
    case Seq(a, b) => CounterSuffices(a) && CounterSuffices(b)
    case Try(body) => CounterSuffices(body)
    case Scope(tag, body, _) => tag.Auto? && Scopes(body) < TWO_64 && CounterSuffices(body)
    case _ => true
  }

  ghost predicate Numbered<D>(left: seq<(Mark, D)>, n: nat) {
    forall i :: 0 <= i < |left| ==> left[i].0.Number? && left[i].0.k < n
  }

  lemma {:induction false} LeftIsNumbered<D>(p: Prog<D>, v: View<D>)
    requires CounterSuffices(p)
    ensures Made(p, v) <= Scopes(p) && Numbered(Left(p, v), Made(p, v))
    decreases p
  {
    match p
    case Seq(a, b) =>
      LeftIsNumbered(a, v);
      LeftIsNumbered(b, Meaning(a, v).0);
    case Try(body) => LeftIsNumbered(body, v);
    case Scope(_, body, _) => LeftIsNumbered(body, v);
    case _ =>
  }

  // Generated names are enough for every program with fewer than 2^64 savepoints inside any one scope.
  lemma {:induction false} CounterSufficesIsClean<D>(p: Prog<D>, v: View<D>, id: nat)
    requires CounterSuffices(p)
    ensures Clean(p, v, id)
    decreases p
  {
    hide Later, Left;
    match p
    case Seq(a, b) =>
      CounterSufficesIsClean(a, v, id);
      CounterSufficesIsClean(b, Meaning(a, v).0, Later(id, Made(a, v)));
    case Try(body) => CounterSufficesIsClean(body, v, id);
    case Scope(tag, body, _) =>
      CounterSufficesIsClean(body, v, Later(id, 1));
      LeftIsNumbered(body, v);
      forall i | 0 <= i < |Left(body, v)| ensures !Clash(tag, Left(body, v)[i].0, id) {
        assert 0 < Left(body, v)[i].0.k + 1 < TWO_64;
      }
    case _ =>
  }

  // ---- Programs that are not --------------------------------------------------------------------------------------

  // Savepoints made one after the other, each resolved in its own way.
  function Row<D>(hows: seq<How>): Prog<D> {
    if hows == [] then Skip else Seq(Row(hows[..|hows| - 1]), Scope(Auto, Skip, hows[|hows| - 1]))
  }

  // What they leave: those not released, under their numbers.
  function RowMarks<D>(hows: seq<How>, d: D): seq<(Mark, D)> {
    if hows == [] then []
    else RowMarks(hows[..|hows| - 1], d) + if hows[|hows| - 1].ByRelease? then [] else [(Number(|hows| - 1), d)]
  }

  lemma OneScope<D>(how: How, d: D)
    ensures var p: Prog<D> := Scope(Auto, Skip, how);
            && Meaning(p, Ok(d)) == (Ok(d), false) && Made(p, Ok(d)) == 1
            && Left(p, Ok(d)) == (if how.ByRelease? then [] else [(Number(0), d)])
            && forall id: nat :: Clean(p, Ok(d), id)
  {
    assert Meaning(Skip, Ok(d)) == (Ok(d), false) && Left(Skip, Ok(d)) == [] && Made(Skip, Ok(d)) == 0;
  }

  lemma SeqUnfolds<D>(a: Prog<D>, b: Prog<D>, d: D, e: D, id: nat)
    requires Meaning(a, Ok(d)) == (Ok(e), false)
    ensures var p, v := Seq(a, b), Ok(d);
            && Meaning(p, v) == Meaning(b, Ok(e)) && Made(p, v) == Made(a, v) + Made(b, Ok(e))
            && Left(p, v) == Left(a, v) + Shift(Left(b, Ok(e)), Made(a, v))
            && (Clean(p, v, id) <==> Clean(a, v, id) && Clean(b, Ok(e), Later(id, Made(a, v))))
  {
    hide Later, Shift;
  }

  lemma SkipUnfolds<D>(d: D, id: nat)
    ensures Meaning(Skip, Ok(d)) == (Ok(d), false) && Made(Skip, Ok(d)) == 0 && Left(Skip, Ok(d)) == []
    ensures Clean(Skip, Ok(d), id)
  {
  }

  lemma {:induction false} RowLeaves<D>(hows: seq<How>, d: D, id: nat)
    ensures Meaning(Row(hows), Ok(d)) == (Ok(d), false) && Made(Row(hows), Ok(d)) == |hows|
    ensures Left(Row(hows), Ok(d)) == RowMarks(hows, d) && Clean(Row(hows), Ok(d), id)
  {
    hide Later, Meaning, Made, Left, Clean;
    if hows == [] {
      SkipUnfolds(d, id);
    } else {
      var init, how := hows[..|hows| - 1], hows[|hows| - 1];
      RowLeaves(init, d, id);
      OneScope(how, d);
      var a, b := Row<D>(init), Scope(Auto, Skip, how);
      SeqUnfolds(a, b, d, d, id);
      assert Clean(b, Ok(d), Later(id, |init|));
    }
  }

  // Every savepoint whose number is the scope's own, 2^64 increments later or a multiple of that, was released.
  predicate Spared(hows: seq<How>) {
    forall i :: 0 <= i < |hows| && (i + 1) % TWO_64 == 0 ==> hows[i].ByRelease?
  }

  lemma {:induction false} RowClash<D>(hows: seq<How>, id: nat, e: D, own: D)
    ensures Free(Auto, RowMarks(hows, e), id) <==> Spared(hows)
    ensures NewestClash(Auto, RowMarks(hows, e), id, own) == if Spared(hows) then own else e
  {
    if hows == [] {
    } else {
      var n := |hows| - 1;
      var init, left := hows[..n], RowMarks(hows, e);
      RowClash(init, id, e, own);
      assert Spared(hows) <==> Spared(init) && ((n + 1) % TWO_64 == 0 ==> hows[n].ByRelease?) by {
        assert forall i :: 0 <= i < n ==> init[i] == hows[i];
      }
      if hows[n].ByRelease? {
        assert left == RowMarks(init, e);
      } else {
        LastClash(RowMarks(init, e), (Number(n), e), id, own);
      }
    }
  }

  lemma LastClash<D>(left: seq<(Mark, D)>, last: (Mark, D), id: nat, own: D)
    ensures Free(Auto, left + [last], id) <==> Free(Auto, left, id) && !Clash(Auto, last.0, id)
    ensures NewestClash(Auto, left + [last], id, own) ==
            if Clash(Auto, last.0, id) then last.1 else NewestClash(Auto, left, id, own)
  {
    var all := left + [last];
    assert all[..|all| - 1] == left && all[|left|] == last;
    assert forall i :: 0 <= i < |left| ==> all[i] == left[i];
  }

  // A scope that writes, makes savepoints inside and is rolled back.
  function Wrapping<D>(f: D -> D, hows: seq<How>): Prog<D> { Scope(Auto, Seq(Do(f), Row(hows)), ByRollback) }

  // However the savepoints inside were resolved: the scope is clean and undone exactly when every one that has come
  // round to its number was released; otherwise what was written before them stays.
  lemma WrappedCounterMisfires<D>(f: D -> D, d: D, hows: seq<How>)
    requires f(d) != d
    ensures var p, tx := Wrapping(f, hows), Tx(Server(Ok(d), []), 0);
            && Meaning(p, Ok(d)).0 == Ok(d)
            && (Clean(p, Ok(d), 0) <==> Spared(hows))
            && Execute(p, tx).0.server.view == Ok(if Spared(hows) then d else f(d))
  {
    hide NameOf, Later, Row, Spared, RowMarks;
    var tx, body := Tx(Server(Ok(d), []), 0), Seq(Do(f), Row(hows));
    WrappingBody(f, hows, d);
    RollbackIsExact(Auto, body, ByRollback, tx);
    RowClash(hows, 0, f(d), d);
  }

  lemma WrappingBody<D>(f: D -> D, hows: seq<How>, d: D)
    ensures var body := Seq(Do(f), Row(hows));
            && Meaning(body, Ok(d)) == (Ok(f(d)), false) && Clean(body, Ok(d), Later(0, 1))
            && Left(body, Ok(d)) == RowMarks(hows, f(d))
  {
    hide Row, NameOf, RowMarks;
    RowLeaves(hows, f(d), Later(Later(0, 1), 0));
    var left := RowMarks(hows, f(d));
    assert [] + Shift(left, 0) == left;
  }

  // One savepoint is enough when 2^64 - 1 were released before it; no number of released ones is.
  lemma OneUnreleasedIsEnough<D>(f: D -> D, d: D, n: nat)
    requires f(d) != d
    ensures var tx, released := Tx(Server(Ok(d), []), 0), seq(n, _ => ByRelease);
            && Execute(Wrapping(f, released), tx).0.server.view == Ok(d)
            && (n == TWO_64 - 1 ==> Execute(Wrapping(f, released + [ByRollback]), tx).0.server.view == Ok(f(d)))
  {
    var released := seq(n, _ => ByRelease);
    hide Execute, Wrapping;
    WrappedCounterMisfires(f, d, released);
    WrappedCounterMisfires(f, d, released + [ByRollback]);
    assert n == TWO_64 - 1 ==> (released + [ByRollback])[n] == ByRollback;
  }

  // The statements a client sends through Transaction::exec.
  function ExecAll<D>(tx: Tx<D>, cs: seq<Command<D>>): Tx<D>
    decreases |cs|
  {
    if cs == [] then tx else ExecAll(Exec(tx, cs[0]).0, cs[1..])
  }

  // A savepoint of the scope's own name made inside it is enough, whether by a named Savepoint or by the client sending
  // SAVEPOINT itself: rolling the scope back keeps what was written before.
  lemma SameNameMisfires<D>(f: D -> D, d: D, tag: Tag, id: nat)
    requires f(d) != d && id < TWO_64
    ensures var name, tx := TagName(tag, id), Tx(Server(Ok(d), []), id);
            var p := Scope(tag, Seq(Do(f), Scope(Given(name), Skip, ByRollback)), ByRollback);
            && !Clean(p, Ok(d), id) && Meaning(p, Ok(d)).0 == Ok(d) && Execute(p, tx).0.server.view == Ok(f(d))
  {
    hide NameOf, TagName;
    var name := TagName(tag, id);
    var inner: Prog<D> := Scope(Given(name), Skip, ByRollback);
    var body, id1 := Seq(Do(f), inner), Later(id, Step(tag));
    assert Left(inner, Ok(f(d))) == [(Word(name), f(d))];
    assert Left(body, Ok(d)) == [(Word(name), f(d))];
    assert Clean(inner, Ok(f(d)), Later(id1, 0)) && Meaning(Do(f), Ok(d)) == (Ok(f(d)), false);
    assert Made(Do(f), Ok(d)) == 0 && Clean(body, Ok(d), id1);
    RollbackIsExact(tag, body, ByRollback, Tx(Server(Ok(d), []), id));
    ClashIsExact(tag, Word(name), id);
    assert Clash(tag, Left(body, Ok(d))[0].0, id);
  }

  // The same through the public interface alone: a Savepoint(tx), and SAVEPOINT with its name sent by the client.
  lemma RawSavepointMisfires<D>(f: D -> D, d: D, id: nat)
    requires id < TWO_64
    ensures var (tx1, h) := Construct(Tx(Server(Ok(d), []), id), Auto);
            && h.Some?
            && var tx2 := ExecAll(tx1, [Write(f), Save(h.value.name)]);
               Resolve(tx2, h.value, false).0.server.view == Ok(f(d))
  {
    hide NameOf;
    var tx1 := Construct(Tx(Server(Ok(d), []), id), Auto).0;
    var name := NameOf(id);
    var cs: seq<Command<D>> := [Write(f), Save(name)];
    assert cs[1..] == [Save(name)] && cs[1..][1..] == [];
    var written := Exec(tx1, Write(f)).0;
    var tx2 := ExecAll(tx1, cs);
    assert tx2 == ExecAll(written, [Save(name)]) == Exec(written, Save(name)).0;
    assert tx2.server.stack == [(name, d), (name, f(d))];
    NewestIs(tx2.server.stack, name, 1);
  }
}
