/** One thread's pool of coroutine frames, as the list of its used slots. */
module FramePools {
  import opened Common

  const SLOTS: nat := 8

  datatype Slot = Slot(ptr: nat, size: nat)

  /** The first slot of that size, or the number of slots. */
  function Find(pool: seq<Slot>, size: nat): (i: nat)
    ensures i <= |pool| && (i < |pool| ==> pool[i].size == size)
  {
    if pool == [] || pool[0].size == size then 0 else 1 + Find(pool[1..], size)
  }

  /** The last slot moves into the gap. */
  function SwapRemove(pool: seq<Slot>, i: nat): seq<Slot>
    requires i < |pool|
  {
    pool[i := pool[|pool| - 1]][..|pool| - 1]
  }

  /** `operator new`: a pooled frame of that size, or else the address the system gives. */
  function New(pool: seq<Slot>, size: nat, system: nat): (seq<Slot>, nat) {
    var i := Find(pool, size);
    if i < |pool| then (SwapRemove(pool, i), pool[i].ptr) else (pool, system)
  }

  /** `operator delete`: the frame is pooled while there is room; true if it goes back to the system. */
  function Delete(pool: seq<Slot>, ptr: nat, size: nat): (seq<Slot>, bool) {
    if |pool| < SLOTS then (pool + [Slot(ptr, size)], false) else (pool, true)
  }

  ghost predicate Distinct(pool: seq<Slot>) {
    forall i, j :: 0 <= i < j < |pool| ==> pool[i].ptr != pool[j].ptr
  }

  /** A search fails only if the pool has no frame of that size. */
  lemma {:induction false} FindMisses(pool: seq<Slot>, size: nat)
    ensures Find(pool, size) == |pool| ==> forall x :: x in pool ==> x.size != size
  {
    if pool != [] {
      FindMisses(pool[1..], size);
      assert pool == [pool[0]] + pool[1..];
    }
  }

  /** Exactly one frame leaves and no other is dropped or repeated. */
  lemma SwapRemoveIs(pool: seq<Slot>, i: nat)
    requires i < |pool| && Distinct(pool)
    ensures var r := SwapRemove(pool, i);
            && |r| == |pool| - 1 && Distinct(r)
            && (forall x :: x in r <==> x in pool && x.ptr != pool[i].ptr)
  {
    var r, last := SwapRemove(pool, i), |pool| - 1;
    assert forall k :: 0 <= k < last ==> r[k] == if k == i then pool[last] else pool[k];
    forall x
      ensures x in r <==> x in pool && x.ptr != pool[i].ptr
    {
      if x in pool && x.ptr != pool[i].ptr {
        var k :| 0 <= k < |pool| && pool[k] == x;
        assert r[if k == last then i else k] == x;
      }
    }
  }
}

/** Threads that allocate and free frames, each through its own pool; a frame may be
    freed by another thread than the one that allocated it. */
module FramePoolProtocol {
  import opened Common
  import opened FramePools

  /** What the system allocator handed out and did not get back: the size it was
      asked for and who has the block, the program or the pool of a thread. */
  datatype Block = Block(size: nat, pool: Option<nat>)

  datatype State = State(pools: seq<seq<Slot>>, blocks: map<nat, Block>)

  datatype Step =
    | Allocate(t: nat, size: nat, system: nat)
    | Free(t: nat, ptr: nat)
    | Exit(t: nat)     // the destructor of a thread's pool

  function Init(threads: nat): State { State(seq(threads, _ => []), map[]) }

  /** The system never hands out a block that is still out; the program frees only what it has. */
  predicate Enabled(s: State, step: Step) {
    && step.t < |s.pools|
    && match step
       case Allocate(_, _, system) => system !in s.blocks
       case Free(_, ptr) => ptr in s.blocks && s.blocks[ptr].pool == None
       case Exit(_) => true
  }

  predicate InPool(s: State, p: nat, t: nat) { p in s.blocks && s.blocks[p].pool == Some(t) }

  function Apply(s: State, step: Step): State
    requires Enabled(s, step)
  {
    match step
    case Allocate(t, size, system) =>
      var (pool, ptr) := New(s.pools[t], size, system);
      State(s.pools[t := pool], s.blocks[ptr := Block(size, None)])
    case Free(t, ptr) =>
      var (pool, toSystem) := Delete(s.pools[t], ptr, s.blocks[ptr].size);
      State(s.pools[t := pool],
            if toSystem then s.blocks - {ptr} else s.blocks[ptr := s.blocks[ptr].(pool := Some(t))])
    case Exit(t) =>
      State(s.pools[t := []], map p | p in s.blocks && s.blocks[p].pool != Some(t) :: s.blocks[p])
  }

  /** The address an allocation returns. */
  function Returned(s: State, step: Step): nat
    requires Enabled(s, step) && step.Allocate?
  {
    New(s.pools[step.t], step.size, step.system).1
  }

  /** The pool of `t` holds exactly the blocks put there, each once and under its size. */
  ghost predicate PoolOk(s: State, t: nat)
    requires t < |s.pools|
  {
    var pool := s.pools[t];
    && |pool| <= SLOTS && Distinct(pool)
    && (forall x :: x in pool ==> x.ptr in s.blocks && s.blocks[x.ptr] == Block(x.size, Some(t)))
    && (forall p :: InPool(s, p, t) ==> Slot(p, s.blocks[p].size) in pool)
  }

  ghost predicate Inv(s: State) {
    && (forall t :: 0 <= t < |s.pools| ==> PoolOk(s, t))
    && (forall p :: p in s.blocks && s.blocks[p].pool.Some? ==> s.blocks[p].pool.value < |s.pools|)
  }

  /** A pool is not touched by what happens to blocks of the program or of other pools. */
  lemma OtherPool(s: State, r: State, t: nat)
    requires t < |s.pools| == |r.pools| && PoolOk(s, t) && r.pools[t] == s.pools[t]
    requires forall p :: InPool(s, p, t) || InPool(r, p, t) ==> InPool(s, p, t) && InPool(r, p, t) && s.blocks[p] == r.blocks[p]
    ensures PoolOk(r, t)
  {
    forall x | x in r.pools[t]
      ensures x.ptr in r.blocks && r.blocks[x.ptr] == Block(x.size, Some(t))
    {
      assert InPool(s, x.ptr, t);
    }
  }

  /** An allocation returns a block of exactly the requested size that nobody has:
      a pooled one if there is one of that size, else a new one of the system. */
  lemma AllocateKeeps(s: State, step: Step)
    requires Inv(s) && Enabled(s, step) && step.Allocate?
    ensures Inv(Apply(s, step))
    ensures var p := Returned(s, step);
            && (p in s.blocks ==> s.blocks[p] == Block(step.size, Some(step.t)))
            && (p !in s.blocks ==> p == step.system && forall x :: x in s.pools[step.t] ==> x.size != step.size)
  {
    var t, r := step.t, Apply(s, step);
    var i := Find(s.pools[t], step.size);
    assert PoolOk(s, t);
    FindMisses(s.pools[t], step.size);
    if i < |s.pools[t]| {
      assert s.pools[t][i] in s.pools[t];
      TakeKeeps(s, t, i);
    }
    forall u | 0 <= u < |r.pools|
      ensures PoolOk(r, u)
    {
      assert PoolOk(s, u);
      if u != t || i == |s.pools[t]| {
        OtherPool(s, r, u);
      }
    }
  }

  lemma TakeKeeps(s: State, t: nat, i: nat)
    requires t < |s.pools| && PoolOk(s, t) && i < |s.pools[t]|
    ensures var x := s.pools[t][i];
            PoolOk(State(s.pools[t := SwapRemove(s.pools[t], i)], s.blocks[x.ptr := Block(x.size, None)]), t)
  {
    SwapRemoveIs(s.pools[t], i);
  }

  lemma FreeKeeps(s: State, t: nat, ptr: nat)
    requires Inv(s) && Enabled(s, Free(t, ptr))
    ensures Inv(Apply(s, Free(t, ptr)))
  {
    var r := Apply(s, Free(t, ptr));
    assert PoolOk(s, t);
    if |s.pools[t]| < SLOTS {
      PutKeeps(s, t, ptr);
    }
    forall u | 0 <= u < |r.pools|
      ensures PoolOk(r, u)
    {
      assert PoolOk(s, u);
      if u != t || |s.pools[t]| >= SLOTS {
        OtherPool(s, r, u);
      }
    }
  }

  lemma PutKeeps(s: State, t: nat, ptr: nat)
    requires t < |s.pools| && PoolOk(s, t) && |s.pools[t]| < SLOTS
    requires ptr in s.blocks && s.blocks[ptr].pool == None
    ensures var pool := s.pools[t] + [Slot(ptr, s.blocks[ptr].size)];
            PoolOk(State(s.pools[t := pool], s.blocks[ptr := s.blocks[ptr].(pool := Some(t))]), t)
  {
    assert forall k :: 0 <= k < |s.pools[t]| ==> s.pools[t][k] in s.pools[t];
  }

  lemma ExitKeeps(s: State, t: nat)
    requires Inv(s) && Enabled(s, Exit(t))
    ensures Inv(Apply(s, Exit(t)))
  {
    var r := Apply(s, Exit(t));
    forall u | 0 <= u < |r.pools|
      ensures PoolOk(r, u)
    {
      assert PoolOk(s, u);
      if u != t {
        OtherPool(s, r, u);
      }
    }
  }

  lemma StepKeeps(s: State, step: Step)
    requires Inv(s) && Enabled(s, step)
    ensures Inv(Apply(s, step)) && |Apply(s, step).pools| == |s.pools|
  {
    match step
    case Allocate(_, _, _) => AllocateKeeps(s, step);
    case Free(t, ptr) => FreeKeeps(s, t, ptr);
    case Exit(t) => ExitKeeps(s, t);
  }

  // ---- whole runs ----

  predicate Runs(s: State, steps: seq<Step>)
    decreases |steps|
  {
    steps == [] || (Enabled(s, steps[0]) && Runs(Apply(s, steps[0]), steps[1..]))
  }

  function Exec(s: State, steps: seq<Step>): State
    requires Runs(s, steps)
    decreases |steps|
  {
    if steps == [] then s else Exec(Apply(s, steps[0]), steps[1..])
  }

  lemma {:induction false} RunKeeps(s: State, steps: seq<Step>)
    requires Inv(s) && Runs(s, steps)
    decreases |steps|
    ensures Inv(Exec(s, steps)) && |Exec(s, steps).pools| == |s.pools|
  {
    if steps != [] {
      StepKeeps(s, steps[0]);
      RunKeeps(Apply(s, steps[0]), steps[1..]);
    }
  }

  /** In every run: pooled blocks are pairwise distinct, within and across threads,
      none of them is with the program, every block of the system is either with the
      program or in one pool, and no pool holds more than eight. */
  lemma BlocksConserved(threads: nat, steps: seq<Step>, t: nat, i: nat, u: nat, j: nat, p: nat)
    requires Runs(Init(threads), steps)
    ensures var s := Exec(Init(threads), steps);
            && |s.pools| == threads
            && (t < threads ==> |s.pools[t]| <= 8)
            && (t < threads && u < threads && i < |s.pools[t]| && j < |s.pools[u]| && (t, i) != (u, j)
                ==> s.pools[t][i].ptr != s.pools[u][j].ptr)
            && (t < threads && i < |s.pools[t]| ==>
                  s.pools[t][i].ptr in s.blocks && s.blocks[s.pools[t][i].ptr] == Block(s.pools[t][i].size, Some(t)))
            && (p in s.blocks && s.blocks[p].pool.Some? ==>
                  s.blocks[p].pool.value < threads && Slot(p, s.blocks[p].size) in s.pools[s.blocks[p].pool.value])
  {
    RunKeeps(Init(threads), steps);
    var s := Exec(Init(threads), steps);
    if t < threads {
      assert PoolOk(s, t);
      assert i < |s.pools[t]| ==> s.pools[t][i] in s.pools[t];
    }
    if u < threads {
      assert PoolOk(s, u);
      assert j < |s.pools[u]| ==> s.pools[u][j] in s.pools[u];
    }
    if p in s.blocks && s.blocks[p].pool.Some? {
      assert PoolOk(s, s.blocks[p].pool.value) && InPool(s, p, s.blocks[p].pool.value);
    }
  }
}

/** The pool's slot array. */
module FramePoolHeap {
  import opened FramePools

  class FramePool {
    const slots: array<Slot>
    var count: nat

    predicate Valid()
      reads this
    {
      slots.Length == SLOTS && count <= SLOTS
    }

    function View(): seq<Slot>
      requires Valid()
      reads this, slots
    {
      slots[..count]
    }

    constructor ()
      ensures Valid() && fresh(slots) && View() == []
    {
      slots := new Slot[SLOTS](_ => Slot(0, 0));
      count := 0;
    }

    /** `operator new`; `system` is what the system allocator would return. */
    method OperatorNew(size: nat, system: nat) returns (mem: nat)
      requires Valid()
      modifies this`count, slots
      ensures Valid() && (View(), mem) == New(old(View()), size, system)
    {
      var i := 0;
      while i < count
        invariant 0 <= i <= count && Valid() && View() == old(View())
        invariant Find(View(), size) == i + Find(View()[i..], size)
      {
        assert View()[i..][0] == slots[i] && View()[i..][1..] == View()[i + 1..];
        if slots[i].size == size {
          ghost var was := View();
          mem := slots[i].ptr;
          count := count - 1;
          slots[i] := slots[count];
          assert View() == SwapRemove(was, i);
          return;
        }
        i := i + 1;
      }
      mem := system;
    }

    /** `operator delete`: true if the frame goes back to the system. */
    method OperatorDelete(ptr: nat, size: nat) returns (toSystem: bool)
      requires Valid()
      modifies this`count, slots
      ensures Valid() && (View(), toSystem) == Delete(old(View()), ptr, size)
    {
      if count < SLOTS {
        ghost var was := View();
        slots[count] := Slot(ptr, size);
        count := count + 1;
        assert View() == was + [Slot(ptr, size)];
        return false;
      }
      toSystem := true;
    }
  }
}
