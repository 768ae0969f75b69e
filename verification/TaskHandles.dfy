/**
  Ownership of coroutine frames by the Task and Awaiter objects of coro/Task.hpp: construction, moves, move-assignment,
  co_await and destruction, over any number of objects.
 */
module TaskHandles {
  import opened Common

  type FrameId = nat
  type ObjectId = nat

  // The handle fields of the objects alive, and what became of the frames; `owner` is the object that holds a live
  // frame.
  class Handles {
    var handle: map<ObjectId, Option<FrameId>>  // m_handle of a Task, handle of an Awaiter
    var live: set<FrameId>
    var destroyed: set<FrameId>
    var next: FrameId
    ghost var owner: map<FrameId, ObjectId>

    // Every frame made is owned by exactly one object, or has been destroyed and is owned by none.
    ghost predicate Valid()
      reads this
    {
      && (forall f :: f in live ==> f in owner && owner[f] in handle && handle[owner[f]] == Some(f))
      && (forall o :: o in handle && handle[o].Some? ==> handle[o].value in live && owner[handle[o].value] == o)
      && (forall f :: f in live ==> f < next && f !in destroyed)
      && (forall f :: f in destroyed ==> f < next)
      && (forall f: FrameId :: f < next ==> f in live || f in destroyed)
    }

    constructor ()
      ensures Valid() && handle == map[] && next == 0
    {
      handle, live, destroyed, next, owner := map[], {}, {}, 0, map[];
    }

    // handle.destroy(): only ever called on a live frame.
    method DestroyFrame(f: FrameId)
      requires f in live
      modifies this`live, this`destroyed
      ensures live == old(live) - {f} && destroyed == old(destroyed) + {f}
    {
      live, destroyed := live - {f}, destroyed + {f};
    }

    // A call of a coroutine returns a Task that owns the new frame.
    method Create(o: ObjectId)
      requires Valid() && o !in handle
      modifies this
      ensures Valid() && handle == old(handle)[o := Some(old(next))] && next == old(next) + 1
      ensures destroyed == old(destroyed)
    {
      handle := handle[o := Some(next)];
      owner := owner[next := o];
      live := live + {next};
      next := next + 1;
    }

    // Task(Task&&), Awaiter(Awaiter&&), and co_await, which moves the handle of a Task into an Awaiter.
    method Move(dst: ObjectId, src: ObjectId)
      requires Valid() && src in handle && dst !in handle
      modifies this`handle, this`owner
      ensures Valid() && handle == old(handle)[dst := old(handle)[src]][src := None]
    {
      if handle[src].Some? { owner := owner[handle[src].value := dst]; }
      handle := handle[dst := handle[src]][src := None];
    }

    // operator=(Task&&) and operator=(Awaiter&&): the frame owned before is destroyed, unless the object is itself.
    method MoveAssign(dst: ObjectId, src: ObjectId)
      requires Valid() && src in handle && dst in handle
      modifies this
      ensures Valid() && next == old(next)
      ensures dst == src ==> handle == old(handle) && destroyed == old(destroyed)
      ensures dst != src ==>
                && handle == old(handle)[dst := old(handle)[src]][src := None]
                && destroyed == old(destroyed) + if old(handle)[dst].Some? then {old(handle)[dst].value} else {}
    {
      if dst != src {
        if handle[dst].Some? { DestroyFrame(handle[dst].value); }
        if handle[src].Some? { owner := owner[handle[src].value := dst]; }
        handle := handle[dst := handle[src]][src := None];
      }
    }

    // ~Task and ~Awaiter.  When the last object is gone every frame ever made has been destroyed, once each.
    method Destruct(o: ObjectId)
      requires Valid() && o in handle
      modifies this
      ensures Valid() && handle == old(handle) - {o} && next == old(next)
      ensures destroyed == old(destroyed) + if old(handle)[o].Some? then {old(handle)[o].value} else {}
      ensures handle == map[] ==> live == {} && forall f: FrameId :: f in destroyed <==> f < next
    {
      if handle[o].Some? { DestroyFrame(handle[o].value); }
      handle := handle - {o};
    }
  }
}
