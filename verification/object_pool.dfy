/** A pool of reusable objects made from one prefab, kept in a FIFO queue.
    Objects are numbered in creation order: `objects[k]` is the k-th object
    the pool ever made, and `queue` lists the numbers waiting in the pool,
    front first. `Get` takes from the front and, when the queue is empty,
    makes a new object instead; `Return` appends to the back and does not
    check whether the object is already queued, nor whether the pool made
    it: an object from elsewhere joins the pool under the next number. */
module ObjectPool {
  import opened Common

  const DefaultPoolSize: int := 20

  datatype Pool<T> = Pool(prefab: GameObject<T>, queue: seq<nat>, objects: seq<GameObject<T>>)

  /** Every queued number names an object the pool made. */
  ghost predicate Valid<T>(p: Pool<T>) {
    forall i :: 0 <= i < |p.queue| ==> p.queue[i] < |p.objects|
  }

  function Clip(n: int): nat {
    if n > 0 then n else 0
  }

  /** Makes `poolSize` inactive copies of the prefab and queues them in
      creation order. */
  method Initialize<T>(prefab: GameObject<T>, poolSize: int) returns (p: Pool<T>)
    ensures p.prefab == prefab
    ensures |p.objects| == |p.queue| == Clip(poolSize)
    ensures forall i :: 0 <= i < |p.queue| ==> p.queue[i] == i
    ensures forall i :: 0 <= i < |p.objects| ==> p.objects[i] == prefab.(active := false)
    ensures Valid(p)
  {
    p := Pool(prefab, [], []);
    var i := 0;
    while i < poolSize
      invariant 0 <= i
      invariant poolSize > 0 ==> i <= poolSize
      invariant poolSize <= 0 ==> i == 0
      invariant p.prefab == prefab
      invariant |p.objects| == |p.queue| == i
      invariant forall k :: 0 <= k < i ==> p.queue[k] == k
      invariant forall k :: 0 <= k < i ==> p.objects[k] == prefab.(active := false)
    {
      var obj := prefab.(active := false);
      p := p.(objects := p.objects + [obj], queue := p.queue + [i]);
      i := i + 1;
    }
  }

  datatype Got<T> = Got(pool: Pool<T>, id: nat)

  function Get<T>(p: Pool<T>): (r: Got<T>)
    requires Valid(p)
    ensures Valid(r.pool) && r.id < |r.pool.objects| && r.pool.prefab == p.prefab
    ensures |p.queue| > 0 ==>
      && r.id == p.queue[0]
      && r.pool.queue == p.queue[1..]
      && r.pool.objects == p.objects[r.id := p.objects[r.id].(active := true)]
    ensures |p.queue| == 0 ==>
      && r.id == |p.objects|
      && r.pool.queue == []
      && r.pool.objects == p.objects + [p.prefab]
  {
    if |p.queue| > 0 then
      var id := p.queue[0];
      Got(p.(queue := p.queue[1..], objects := p.objects[id := p.objects[id].(active := true)]), id)
    else
      Got(p.(objects := p.objects + [p.prefab]), |p.objects|)
  }

  function Return<T>(p: Pool<T>, id: nat): (r: Pool<T>)
    requires Valid(p) && id < |p.objects|
    ensures Valid(r) && r.prefab == p.prefab
    ensures r.queue == p.queue + [id]
    ensures r.objects == p.objects[id := p.objects[id].(active := false)]
  {
    p.(queue := p.queue + [id], objects := p.objects[id := p.objects[id].(active := false)])
  }

  /** `Return` of an object the pool did not make: it is deactivated,
      numbered after every object the pool knows, and queued. */
  function ReturnForeign<T>(p: Pool<T>, obj: GameObject<T>): (r: Pool<T>)
    requires Valid(p)
    ensures Valid(r) && r.prefab == p.prefab
    ensures r.queue == p.queue + [|p.objects|]
    ensures r.objects == p.objects + [obj.(active := false)]
  {
    p.(queue := p.queue + [|p.objects|], objects := p.objects + [obj.(active := false)])
  }

  // ---------------------------------------------------------------------
  // Runs of pool calls

  /** `ReturnOp` gives back an object by its number; `ReturnForeignOp` gives
      back an object the pool did not make. A `ReturnOp` with a number the
      pool never assigned names no object and is skipped. */
  datatype Op<T> = GetOp | ReturnOp(id: nat) | ReturnForeignOp(obj: GameObject<T>)

  /** The pool after a run, the numbers `Get` took from the queue, the
      numbers given back, how many `Get` calls found the queue empty, and how
      many objects from elsewhere were given back. */
  datatype Trace<T> = Trace(pool: Pool<T>, taken: seq<nat>, returned: seq<nat>, misses: nat, foreign: nat)

  function Run<T>(p: Pool<T>, ops: seq<Op<T>>): (r: Trace<T>)
    requires Valid(p)
    ensures Valid(r.pool)
    decreases |ops|
  {
    if ops == [] then Trace(p, [], [], 0, 0)
    else
      match ops[0]
      case GetOp =>
        var got := Get(p);
        var rest := Run(got.pool, ops[1..]);
        if |p.queue| > 0 then rest.(taken := [got.id] + rest.taken)
        else rest.(misses := rest.misses + 1)
      case ReturnOp(id) =>
        if id < |p.objects| then
          var rest := Run(Return(p, id), ops[1..]);
          rest.(returned := [id] + rest.returned)
        else Run(p, ops[1..])
      case ReturnForeignOp(obj) =>
        var rest := Run(ReturnForeign(p, obj), ops[1..]);
        rest.(returned := [|p.objects|] + rest.returned, foreign := rest.foreign + 1)
  }

  /** FIFO: what the queue held plus what was given back equals what was
      taken, in order, followed by what is still queued. */
  lemma {:induction false} RunIsFifo<T>(p: Pool<T>, ops: seq<Op<T>>)
    requires Valid(p)
    ensures Run(p, ops).taken + Run(p, ops).pool.queue == p.queue + Run(p, ops).returned
    decreases |ops|
  {
    if ops != [] {
      match ops[0] {
        case GetOp =>
          var got := Get(p);
          RunIsFifo(got.pool, ops[1..]);
          var rest := Run(got.pool, ops[1..]);
          if |p.queue| > 0 {
            calc {
              Run(p, ops).taken + Run(p, ops).pool.queue;
              ([got.id] + rest.taken) + rest.pool.queue;
              [got.id] + (rest.taken + rest.pool.queue);
              [p.queue[0]] + (p.queue[1..] + rest.returned);
              p.queue + rest.returned;
            }
          }
        case ReturnOp(id) =>
          if id < |p.objects| {
            var p' := Return(p, id);
            RunIsFifo(p', ops[1..]);
            var rest := Run(p', ops[1..]);
            assert rest.taken + rest.pool.queue == (p.queue + [id]) + rest.returned;
          } else {
            RunIsFifo(p, ops[1..]);
          }
        case ReturnForeignOp(obj) =>
          var p' := ReturnForeign(p, obj);
          RunIsFifo(p', ops[1..]);
          var rest := Run(p', ops[1..]);
          assert rest.taken + rest.pool.queue == (p.queue + [|p.objects|]) + rest.returned;
      }
    }
  }

  /** Objects are only ever made by `Initialize` and by a `Get` that finds
      the queue empty, the only others are those given back from elsewhere,
      and none is ever destroyed. */
  lemma {:induction false} RunCreatesOnlyOnMiss<T>(p: Pool<T>, ops: seq<Op<T>>)
    requires Valid(p)
    ensures |Run(p, ops).pool.objects| == |p.objects| + Run(p, ops).misses + Run(p, ops).foreign
    ensures Run(p, ops).pool.prefab == p.prefab
    decreases |ops|
  {
    if ops != [] {
      match ops[0] {
        case GetOp =>
          RunCreatesOnlyOnMiss(Get(p).pool, ops[1..]);
        case ReturnOp(id) =>
          if id < |p.objects| {
            RunCreatesOnlyOnMiss(Return(p, id), ops[1..]);
          } else {
            RunCreatesOnlyOnMiss(p, ops[1..]);
          }
        case ReturnForeignOp(obj) =>
          RunCreatesOnlyOnMiss(ReturnForeign(p, obj), ops[1..]);
      }
    }
  }

  /** `Return` has no duplicate guard: an object given back twice is queued
      twice, and the next two `Get` calls both hand out that one object. */
  lemma DoubleReturnHandsOutTwice<T>(p: Pool<T>, id: nat)
    requires Valid(p) && |p.queue| == 0 && id < |p.objects|
    ensures var q := Return(Return(p, id), id);
      && q.queue == [id, id]
      && Get(q).id == id
      && Get(Get(q).pool).id == id
  {
  }

  /** An object from elsewhere, once given back, is handed out by a later
      `Get` like any pooled object. */
  lemma ForeignReturnIsHandedOut<T>(p: Pool<T>, obj: GameObject<T>)
    requires Valid(p) && |p.queue| == 0
    ensures var got := Get(ReturnForeign(p, obj));
      && got.id == |p.objects|
      && got.pool.objects[got.id] == obj.(active := true)
      && got.pool.queue == []
  {
  }
}
