/** What each operation on the frame pools does to the blocks, exactly, and what a free
    gives to the allocation after it. */
module FramePoolTrace {
  import opened Common
  import opened FramePools
  import opened FramePoolProtocol

  /** No block but these is handed out, given back, pooled or taken. */
  ghost predicate OnlyChanges(s: State, r: State, changed: set<nat>) {
    forall p :: p !in changed ==> (p in s.blocks <==> p in r.blocks) && (p in s.blocks ==> r.blocks[p] == s.blocks[p])
  }

  /** An allocation takes a frame of the requested size from the thread's pool exactly
      if there is one, and the program has it afterwards. */
  lemma AllocateExactly(s: State, t: nat, size: nat, system: nat)
    requires Inv(s) && Enabled(s, Allocate(t, size, system))
    ensures var r, p := Apply(s, Allocate(t, size, system)), Returned(s, Allocate(t, size, system));
            && p in r.blocks && r.blocks[p] == Block(size, None) && OnlyChanges(s, r, {p})
            && (InPool(s, p, t) <==> exists q :: InPool(s, q, t) && s.blocks[q].size == size)
            && (!InPool(s, p, t) ==> p == system && r.pools == s.pools)
  {
    var step := Allocate(t, size, system);
    AllocateKeeps(s, step);
    assert PoolOk(s, t);
    var p := Returned(s, step);
    if q :| InPool(s, q, t) && s.blocks[q].size == size {
      assert Slot(q, size) in s.pools[t];
    }
  }

  /** A freed frame stays in the pool of the freeing thread exactly if that has room. */
  lemma FreeExactly(s: State, t: nat, ptr: nat)
    requires Inv(s) && Enabled(s, Free(t, ptr))
    ensures var r := Apply(s, Free(t, ptr));
            && OnlyChanges(s, r, {ptr})
            && (ptr in r.blocks <==> |s.pools[t]| < 8)
            && (ptr in r.blocks ==> r.blocks[ptr] == Block(s.blocks[ptr].size, Some(t)))
  {
  }

  /** A thread that exits gives back the frames of its pool and no others. */
  lemma ExitExactly(s: State, t: nat)
    requires Inv(s) && Enabled(s, Exit(t))
    ensures var r := Apply(s, Exit(t));
            && r.pools[t] == [] && (forall p :: p in r.blocks <==> p in s.blocks && !InPool(s, p, t))
            && (forall p :: p in r.blocks ==> r.blocks[p] == s.blocks[p])
  {
  }

  /** After a free that found room, the same thread allocates that size without the system. */
  lemma FreeThenAllocate(s: State, t: nat, ptr: nat, system: nat)
    requires Inv(s) && Enabled(s, Free(t, ptr)) && |s.pools[t]| < 8
    requires var r := Apply(s, Free(t, ptr)); Enabled(r, Allocate(t, s.blocks[ptr].size, system))
    ensures var r := Apply(s, Free(t, ptr));
            InPool(r, Returned(r, Allocate(t, s.blocks[ptr].size, system)), t)
  {
    var r := Apply(s, Free(t, ptr));
    FreeKeeps(s, t, ptr);
    AllocateExactly(r, t, s.blocks[ptr].size, system);
    assert InPool(r, ptr, t) && r.blocks[ptr].size == s.blocks[ptr].size;
  }
}
