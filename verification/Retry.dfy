/**
  with_retry (db/tx/TransactionHelper.hpp) over Transaction (db/tx/Transaction.cpp), ConnectionTransaction
  (db/core/ConnectionTransaction.cpp) and the connection pool.  The callback neither commits nor rolls back and a
  commit either happens or definitely does not; what each attempt meets on its way is an argument.
 */
module Retry {
  import opened Common
  import P = ConnectionPool

  type ConnId = P.ConnId

  datatype Error =
    SerializationFailure | DeadlockDetected | ConnectionError | PoolExhausted | OtherError | InvalidRetries

  // One attempt: what other clients commit before it, the pool as it is when acquire has done waiting, the error of
  // acquire, whether the connection taken turns out dead, the error of setting the isolation level, what other clients
  // commit while the transaction is open, the effect of the callback on the data, and the errors of the callback and of
  // the commit.
  datatype Attempt<!D> = Attempt(
    before: D -> D, found: P.Fields, acquire: Option<Error>, dead: bool, isolation: Option<Error>, during: D -> D,
    work: D -> D, callback: Option<Error>, commit: Option<Error>)

  // Any pool that keeps its counts, and has a connection to give when acquire does not throw.
  predicate Possible<D>(a: Attempt<D>) {
    && Sound(a.found) && (a.acquire.None? ==> P.MayStopWaiting(a.found) && !a.found.shutdown)
  }

  predicate Sound(p: P.Fields) { p.idle == |p.connections| && p.idle + p.active <= p.max }

  datatype Result = Returned(attempts: nat) | Threw(e: Error, attempts: nat)

  predicate Retryable(e: Error) { e == SerializationFailure || e == DeadlockDetected }

  // ---- What should happen -----------------------------------------------------------------------------------------

  // The error of constructing the Transaction, and the error of running and committing it.
  function OpeningError<D>(a: Attempt<D>): Option<Error> {
    if a.acquire.Some? then a.acquire else if a.dead then Some(ConnectionError) else a.isolation
  }

  function RunningError<D>(a: Attempt<D>): Option<Error> { if a.callback.Some? then a.callback else a.commit }

  // What other clients make of the data over one attempt, and over the first k.
  function Meanwhile<D>(a: Attempt<D>, d: D): D {
    if OpeningError(a).Some? then a.before(d) else a.during(a.before(d))
  }

  function Outside<D>(env: nat -> Attempt<D>, k: nat, d: D): D {
    if k == 0 then d else Meanwhile(env(k - 1), Outside(env, k - 1, d))
  }

  // The attempts from number i on.  An error while opening is not retried, whatever it is.
  function Expected<D>(env: nat -> Attempt<D>, i: nat, max: nat): Result
    requires i < max
    decreases max - i
  {
    var a := env(i);
    if OpeningError(a).Some? then Threw(OpeningError(a).value, i + 1)
    else if RunningError(a).None? then Returned(i + 1)
    else if Retryable(RunningError(a).value) && i + 1 < max then Expected(env, i + 1, max)
    else Threw(RunningError(a).value, i + 1)
  }

  lemma OutsideStep<D>(env: nat -> Attempt<D>, k: nat, d: D)
    ensures Outside(env, 0, d) == d && Outside(env, k + 1, d) == Meanwhile(env(k), Outside(env, k, d))
  {
  }

  lemma ExpectedStep<D>(env: nat -> Attempt<D>, i: nat, max: nat)
    requires i < max
    ensures var a := env(i);
            Expected(env, i, max) ==
              if OpeningError(a).Some? then Threw(OpeningError(a).value, i + 1)
              else if RunningError(a).None? then Returned(i + 1)
              else if Retryable(RunningError(a).value) && i + 1 < max then Expected(env, i + 1, max)
              else Threw(RunningError(a).value, i + 1)
  {
  }

  // ---- What the source does ---------------------------------------------------------------------------------------

  // The same pool, but for so many leases taken since.
  predicate SameLeases(p: P.Fields, q: P.Fields, taken: nat) {
    q.active == p.active + taken && q.max == p.max && q.shutdown == p.shutdown
  }

  predicate LastIsOpen(connections: seq<ConnId>, open: set<ConnId>) {
    connections != [] && connections[|connections| - 1] in open
  }

  // The attempt finds or makes its connection unusable.
  predicate Breaks<D>(a: Attempt<D>) {
    || a.dead || a.isolation == Some(ConnectionError)
    || (a.isolation.None? && (a.callback == Some(ConnectionError) ||
                              (a.callback.None? && a.commit == Some(ConnectionError))))
  }

  // The idle connections while an attempt has the one it took, and after the attempt: those it found, but a broken one
  // is not put back, and one opened for want of an idle one stays if it is not broken.
  predicate Leased(found: seq<ConnId>, idle: seq<ConnId>, c: ConnId) {
    if found == [] then idle == [] else idle == found[..|found| - 1] && c == found[|found| - 1]
  }

  predicate LeftIdle<D>(a: Attempt<D>, idle: seq<ConnId>) {
    var found := a.found.connections;
    if a.acquire.Some? then idle == found
    else if found == [] then |idle| == if Breaks(a) then 0 else 1
    else idle == if Breaks(a) then found[..|found| - 1] else found
  }

  class Client<!D> {
    var pool: P.Fields
    var open: set<ConnId>          // connections that are open
    var flagged: set<ConnId>       // those whose shared state says a transaction is active
    var pending: map<ConnId, D -> D>  // transactions open on the server, with what each has done so far
    var committed: D
    var nextConn: ConnId
    var held: nat                  // leases this client holds
    var peak: nat                  // the most it ever held at once

    // No transaction anywhere.
    ghost predicate Idle()
      reads this
    {
      Sound(pool) && flagged == {} && pending.Keys == {} && held == 0
    }

    // Exactly one lease, with its transaction.
    ghost predicate Busy(c: ConnId)
      reads this
    {
      && Sound(pool) && pool.active > 0
      && flagged == {c} && pending.Keys == {c} && held == 1
    }

    constructor (max: nat, d: D)
      requires max > 0
      ensures Idle() && committed == d && pool == P.Fields([], 0, 0, false, max) && peak == 0
    {
      pool := P.Fields([], 0, 0, false, max);
      open, flagged, pending, committed, nextConn, held, peak := {}, {}, map[], d, 0, 0, 0;
    }

    // ~PooledConnection
    method ReturnLease(c: ConnId)
      requires held > 0 && pool.active > 0
      modifies this`pool, this`held
      ensures pool == P.GiveBack(old(pool), Some(c), c in open) && held == old(held) - 1
    {
      pool := P.GiveBack(pool, Some(c), c in open);
      held := held - 1;
    }

    // ConnectionTransaction::finish, then the destruction of Transaction::Impl: the flag is cleared, the server forgets
    // the transaction, and the connection goes back.
    method FinishAndRelease(c: ConnId)
      requires Busy(c)
      modifies this`pool, this`held, this`flagged, this`pending
      ensures Idle() && pool == P.GiveBack(old(pool), Some(c), c in open)
      ensures pool.connections == old(pool.connections) + if c in open && !pool.shutdown then [c] else []
    {
      pending := pending - {c};
      flagged := flagged - {c};
      ReturnLease(c);
    }

    // What other clients do to the pool while acquire waits.
    method OthersUsePool(p: P.Fields)
      requires Idle() && Sound(p)
      modifies this`pool
      ensures Idle() && pool == p
    {
      pool := p;
    }

    // PooledConnection over a connection that acquire took.
    method TakeLease() returns (c: ConnId)
      requires held == 0 && P.MayStopWaiting(pool) && !pool.shutdown && Sound(pool)
      modifies this`pool, this`held, this`peak, this`nextConn
      ensures (pool, Some(c)) == P.Take(old(pool), old(nextConn)) && Sound(pool) && pool.active > 0 && held == 1
      ensures Leased(old(pool.connections), pool.connections, c)
      ensures peak == if old(peak) > 1 then old(peak) else 1
    {
      var (p, taken) := P.Take(pool, nextConn);
      c := taken.value;
      if c == nextConn { nextConn := nextConn + 1; }
      pool, held := p, held + 1;
      peak := if held > peak then held else peak;
    }

    // The constructor of Transaction::Impl: acquire, then begin_transaction.  The lease is returned if begin throws.
    method AcquireAndBegin(a: Attempt<D>) returns (c: Option<ConnId>)
      requires Idle() && Possible(a)
      modifies this
      ensures committed == old(committed) && peak <= (if old(peak) > 1 then old(peak) else 1)
      ensures c.Some? <==> a.acquire.None? && !a.dead
      ensures c.None? ==> Idle() && SameLeases(a.found, pool, 0) && LeftIdle(a, pool.connections)
      ensures c.Some? ==> Busy(c.value) && SameLeases(a.found, pool, 1) && c.value in open
      ensures c.Some? ==> Leased(a.found.connections, pool.connections, c.value) && !pool.shutdown
    {
      OthersUsePool(a.found);
      if a.acquire.Some? { return None; }
      var conn := TakeLease();
      if a.dead {
        open := open - {conn};
        ReturnLease(conn);
        return None;
      }
      open := open + {conn};
      Begin(conn);
      return Some(conn);
    }

    // ConnectionTransaction::begin: it would throw on a connection that already has a transaction.
    method Begin(c: ConnId)
      requires c !in flagged
      modifies this`flagged, this`pending
      ensures flagged == old(flagged) + {c} && c in pending && pending == old(pending)[c := pending[c]]
      ensures forall d :: pending[c](d) == d
    {
      flagged := flagged + {c};
      pending := pending[c := d => d];
    }

    method MarkBroken(c: ConnId)
      modifies this`open
      ensures open == old(open) - {c}
    {
      open := open - {c};
    }

    // Transaction(pool, level)
    method OpenTransaction(a: Attempt<D>) returns (c: Option<ConnId>, e: Option<Error>)
      requires Idle() && Possible(a)
      modifies this
      ensures committed == old(committed) && peak <= (if old(peak) > 1 then old(peak) else 1)
      ensures e == OpeningError(a) && (c.Some? <==> e.None?)
      ensures c.None? ==> Idle() && SameLeases(a.found, pool, 0) && LeftIdle(a, pool.connections)
      ensures c.Some? ==> Busy(c.value) && SameLeases(a.found, pool, 1) && c.value in open
      ensures c.Some? ==> Leased(a.found.connections, pool.connections, c.value) && !pool.shutdown
    {
      c := AcquireAndBegin(a);
      if c.None? { return None, if a.acquire.Some? then a.acquire else Some(ConnectionError); }
      if a.isolation.Some? {
        if a.isolation.value == ConnectionError { MarkBroken(c.value); }
        FinishAndRelease(c.value);
        return None, a.isolation;
      }
      return c, None;
    }

    // The callback and Transaction::commit, up to the exception if there is one.  Other clients may have committed
    // since the transaction began: a commit that the server accepts has its effect on the data as they are by then.
    method RunAndCommit(c: ConnId, a: Attempt<D>) returns (e: Option<Error>)
      requires Busy(c)
      modifies this`open, this`pending, this`committed, this`pool, this`held, this`flagged
      ensures e == RunningError(a)
      ensures e.Some? ==> Busy(c) && committed == a.during(old(committed)) && pool == old(pool)
      ensures e.Some? ==> open == if e == Some(ConnectionError) then old(open) - {c} else old(open)
      ensures e.None? ==> Idle() && committed == a.work(a.during(old(committed))) && open == old(open)
      ensures e.None? ==> pool == P.GiveBack(old(pool), Some(c), c in open)
    {
      pending := pending[c := a.work];
      OthersCommit(a.during(committed));
      if a.callback.Some? {
        if a.callback.value == ConnectionError { MarkBroken(c); }
        return a.callback;
      }
      if a.commit.Some? {
        if a.commit.value == ConnectionError { MarkBroken(c); }
        return a.commit;
      }
      committed := pending[c](committed);
      FinishAndRelease(c);
      return None;
    }

    // Another client commits something.
    method OthersCommit(d: D)
      modifies this`committed
      ensures committed == d
    {
      committed := d;
    }

    // One turn of the loop, up to the decision whether to go round again.
    method TryOnce(a: Attempt<D>) returns (opening: Option<Error>, running: Option<Error>)
      requires Idle() && Possible(a)
      modifies this
      ensures Idle() && SameLeases(a.found, pool, 0) && LeftIdle(a, pool.connections)
      ensures peak <= if old(peak) > 1 then old(peak) else 1
      ensures opening == OpeningError(a) && (opening.None? ==> running == RunningError(a))
      ensures var d := Meanwhile(a, old(committed));
              committed == if opening.None? && running.None? then a.work(d) else d
      ensures opening.None? && running.None? ==> LastIsOpen(pool.connections, open)
    {
      running := None;
      var c;
      OthersCommit(a.before(committed));
      c, opening := OpenTransaction(a);
      if opening.None? {
        running := RunAndCommit(c.value, a);
        if running.Some? { FinishAndRelease(c.value); }  // rollback in the handlers, or ~Transaction
      }
    }

    // Whatever the environment does, with_retry ends as Expected says; the data are what other clients left, plus the
    // work of the one attempt that was committed if it returned, and nothing else if it threw; at most `max` attempts
    // are made, never more than one lease is held, afterwards no transaction is active and the pool has as many
    // connections out as the last attempt found, and the connection that was committed on is stored again.
    method WithRetry(env: nat -> Attempt<D>, max: nat) returns (r: Result)
      requires Idle() && forall k: nat :: Possible(env(k))
      modifies this
      ensures Idle() && peak <= if old(peak) > 1 then old(peak) else 1
      ensures r.attempts <= max
      ensures max == 0 ==> r == Threw(InvalidRetries, 0) && committed == old(committed) && pool == old(pool)
      ensures max > 0 ==> r == Expected(env, 0, max) && r.attempts > 0 && SameLeases(env(r.attempts - 1).found, pool, 0)
      ensures max > 0 ==> LeftIdle(env(r.attempts - 1), pool.connections)
      ensures r.Returned? ==> committed == env(r.attempts - 1).work(Outside(env, r.attempts, old(committed)))
      ensures r.Returned? ==> LastIsOpen(pool.connections, open)
      ensures r.Threw? ==> committed == Outside(env, r.attempts, old(committed))
    {
      hide Idle, OpeningError, RunningError, Expected, Outside, Meanwhile, SameLeases, LastIsOpen, Possible, LeftIdle;
      OutsideStep(env, 0, committed);
      if max == 0 { return Threw(InvalidRetries, 0); }
      var i := 0;
      while true
        invariant 0 <= i < max && Idle()
        invariant peak <= if old(peak) > 1 then old(peak) else 1
        invariant committed == Outside(env, i, old(committed))
        invariant Expected(env, 0, max) == Expected(env, i, max)
        decreases max - i
      {
        var a := env(i);
        ExpectedStep(env, i, max);
        OutsideStep(env, i, old(committed));
        var opening, e := TryOnce(a);
        if opening.Some? { return Threw(opening.value, i + 1); }
        if e.None? { return Returned(i + 1); }
        if !Retryable(e.value) || i == max - 1 { return Threw(e.value, i + 1); }
        i := i + 1;
      }
    }
  }

  // ---- What that means --------------------------------------------------------------------------------------------

  predicate Opens<D>(a: Attempt<D>) { a.acquire.None? && !a.dead && a.isolation.None? }

  // The transaction is open and the callback, or else the commit, meets the error.
  predicate Meets<D>(a: Attempt<D>, e: Error) {
    Opens(a) && (a.callback == Some(e) || (a.callback.None? && a.commit == Some(e)))
  }

  // Every attempt from i up to k met a serialization failure or a deadlock once its transaction was open.
  ghost predicate OnlyConflicts<D>(env: nat -> Attempt<D>, i: nat, k: nat) {
    forall j: nat :: i <= j < k ==> Meets(env(j), SerializationFailure) || Meets(env(j), DeadlockDetected)
  }

  // It returns exactly when some attempt in range opens and commits, and every attempt before it met a conflict.
  ghost predicate FirstSuccess<D>(env: nat -> Attempt<D>, i: nat, k: nat) {
    i <= k && Opens(env(k)) && env(k).callback.None? && env(k).commit.None? && OnlyConflicts(env, i, k)
  }

  lemma {:induction false} ReturnsExactly<D>(env: nat -> Attempt<D>, i: nat, max: nat, k: nat)
    requires i < max
    ensures Expected(env, i, max) == Returned(k + 1) <==> k < max && FirstSuccess(env, i, k)
    decreases max - i
  {
    var a := env(i);
    if OpeningError(a).None? && RunningError(a).Some? && Retryable(RunningError(a).value) && i + 1 < max {
      ReturnsExactly(env, i + 1, max, k);
    }
  }

  // It throws e after attempt k exactly when every attempt before k met a conflict and k could not be opened because of
  // e, or met e and e is neither a serialization failure nor a deadlock, or k was the last attempt allowed.
  ghost predicate Fatal<D>(a: Attempt<D>, e: Error, last: bool) {
    || a.acquire == Some(e)
    || (a.acquire.None? && a.dead && e == ConnectionError)
    || (a.acquire.None? && !a.dead && a.isolation == Some(e))
    || (Meets(a, e) && (last || (e != SerializationFailure && e != DeadlockDetected)))
  }

  lemma {:induction false} ThrowsExactly<D>(env: nat -> Attempt<D>, i: nat, max: nat, k: nat, e: Error)
    requires i < max
    ensures Expected(env, i, max) == Threw(e, k + 1) <==>
              i <= k < max && OnlyConflicts(env, i, k) && Fatal(env(k), e, k + 1 == max)
    decreases max - i
  {
    var a := env(i);
    if OpeningError(a).None? && RunningError(a).Some? && Retryable(RunningError(a).value) && i + 1 < max {
      ThrowsExactly(env, i + 1, max, k, e);
    }
  }

  lemma {:induction false} ThrowsOnlyForCause<D>(env: nat -> Attempt<D>, i: nat, max: nat)
    requires i < max && Expected(env, i, max).Threw?
    ensures var r := Expected(env, i, max);
            && i < r.attempts <= max
            && var last := env(r.attempts - 1);
               (OpeningError(last) == Some(r.e)) ||
               (OpeningError(last).None? && RunningError(last) == Some(r.e) && (!Retryable(r.e) || r.attempts == max))
    decreases max - i
  {
    var a := env(i);
    if OpeningError(a).None? && Retryable(RunningError(a).value) && i + 1 < max { ThrowsOnlyForCause(env, i + 1, max); }
  }
}
