/** One worker's queues as values, and what forwarding does to them. */
module WorkerQueues {
  import opened Common

  /** `ring` is the ready ring, `cross` the mutex-protected queue, `batch` what the
      running drain took from it and `deferred` the yielded coroutines. */
  datatype Queues<T> = Queues(ring: seq<T>, cross: seq<T>, batch: seq<T>, deferred: seq<T>)

  /** `forward_task`: into the ring, or into the cross queue when the ring is full. */
  function Forward<T>(cap: nat, q: Queues<T>, h: T): Queues<T> {
    if |q.ring| < cap then q.(ring := q.ring + [h]) else q.(cross := q.cross + [h])
  }

  function ForwardAll<T>(cap: nat, q: Queues<T>, hs: seq<T>): Queues<T>
    decreases |hs|
  {
    if hs == [] then q else ForwardAll(cap, Forward(cap, q, hs[0]), hs[1..])
  }

  /** Forwarding a whole list fills the ring first and puts the rest, in order, in the cross queue. */
  lemma {:induction false} ForwardAllIs<T>(cap: nat, q: Queues<T>, hs: seq<T>)
    requires |q.ring| <= cap
    decreases |hs|
    ensures var k := Min(|hs|, cap - |q.ring|);
            ForwardAll(cap, q, hs) == q.(ring := q.ring + hs[..k], cross := q.cross + hs[k..])
  {
    if hs == [] {
      assert q.ring + [] == q.ring && q.cross + [] == q.cross;
    } else {
      ForwardAllIs(cap, Forward(cap, q, hs[0]), hs[1..]);
      if |q.ring| < cap {
        var k := Min(|hs|, cap - |q.ring|);
        assert hs[..k] == [hs[0]] + hs[1..][..k - 1] && hs[k..] == hs[1..][k - 1..];
      } else {
        assert hs[..0] == [] && hs[1..][..0] == [] && hs[0..] == [hs[0]] + hs[1..][0..];
      }
    }
  }

  lemma {:induction false} ForwardAllSnoc<T>(cap: nat, q: Queues<T>, hs: seq<T>, h: T)
    decreases |hs|
    ensures ForwardAll(cap, q, hs + [h]) == Forward(cap, ForwardAll(cap, q, hs), h)
  {
    if hs == [] {
      assert hs + [h] == [h] && [h][1..] == [];
    } else {
      assert (hs + [h])[1..] == hs[1..] + [h];
      ForwardAllSnoc(cap, Forward(cap, q, hs[0]), hs[1..], h);
    }
  }

  /** `drain_cross_thread`, when nobody interferes. */
  function Drain<T>(cap: nat, q: Queues<T>): Queues<T> {
    ForwardAll(cap, q.(cross := []), q.cross)
  }

  /** `drain_deferred`. */
  function DrainDeferred<T>(cap: nat, q: Queues<T>): Queues<T> {
    ForwardAll(cap, q, q.deferred).(deferred := [])
  }
}

/** Whole runs of a worker: spawns from its own thread and from others, deferrals,
    drains handle by handle and resumptions, in any order. */
module WorkerProtocol {
  import opened Common
  import opened WorkerQueues

  /** The sequences after `q` are histories: handles submitted in any way, handles
      resumed, calls of `forward_task`, those of them that found room in the ring,
      and what entered and left the cross queue. */
  datatype State<T> = State(q: Queues<T>, submitted: seq<T>, resumed: seq<T>, calls: seq<T>, accepted: seq<T>,
                            crossed: seq<T>, drained: seq<T>)

  datatype Step<T> =
    | SpawnHere(h: T)      // `co_spawn_unsafe`, or `co_spawn_auto` on the worker's own thread
    | SpawnCross(h: T)     // `co_spawn_cross`
    | Defer(h: T)
    | TakeBatch            // the swap under the lock
    | ForwardBatch         // one turn of the drain loop
    | ForwardDeferred      // one turn of the deferred loop
    | Resume               // `schedule` and the resumption

  function Init<T>(): State<T> { State(Queues([], [], [], []), [], [], [], [], [], []) }

  predicate Enabled<T>(s: State<T>, step: Step<T>) {
    match step
    case TakeBatch => s.q.batch == []
    case ForwardBatch => s.q.batch != []
    case ForwardDeferred => s.q.deferred != []
    case Resume => s.q.ring != []
    case _ => true
  }

  function Call<T>(cap: nat, s: State<T>, h: T): State<T> {
    var full := |s.q.ring| >= cap;
    s.(q := Forward(cap, s.q, h), calls := s.calls + [h],
       accepted := if full then s.accepted else s.accepted + [h],
       crossed := if full then s.crossed + [h] else s.crossed)
  }

  function Apply<T>(cap: nat, s: State<T>, step: Step<T>): State<T>
    requires Enabled(s, step)
  {
    match step
    case SpawnHere(h) => Call(cap, s.(submitted := s.submitted + [h]), h)
    case SpawnCross(h) =>
      s.(q := s.q.(cross := s.q.cross + [h]), submitted := s.submitted + [h], crossed := s.crossed + [h])
    case Defer(h) => s.(q := s.q.(deferred := s.q.deferred + [h]), submitted := s.submitted + [h])
    case TakeBatch => s.(q := s.q.(batch := s.q.cross, cross := []))
    case ForwardBatch =>
      Call(cap, s.(q := s.q.(batch := s.q.batch[1..]), drained := s.drained + [s.q.batch[0]]), s.q.batch[0])
    case ForwardDeferred =>
      Call(cap, s.(q := s.q.(deferred := s.q.deferred[1..])), s.q.deferred[0])
    case Resume => s.(q := s.q.(ring := s.q.ring[1..]), resumed := s.resumed + [s.q.ring[0]])
  }

  /** Every copy of a handle that is in some queue of the worker. */
  function Queued<T>(q: Queues<T>): multiset<T> {
    multiset(q.ring) + multiset(q.cross) + multiset(q.batch) + multiset(q.deferred)
  }

  /** The ring holds what it accepted and did not resume, the cross queue what entered and did not leave. */
  ghost predicate Orders<T>(cap: nat, s: State<T>) {
    && |s.q.ring| <= cap
    && s.crossed == s.drained + s.q.batch + s.q.cross
    && s.resumed + s.q.ring == s.accepted
    && |s.accepted| <= |s.calls| && (|s.accepted| == |s.calls| ==> s.accepted == s.calls)
  }

  ghost predicate Inv<T>(cap: nat, s: State<T>) {
    Orders(cap, s) && multiset(s.submitted) == multiset(s.resumed) + Queued(s.q)
  }

  lemma Split<T>(s: seq<T>)
    requires s != []
    ensures multiset(s) == multiset{s[0]} + multiset(s[1..])
  {
    assert s == [s[0]] + s[1..];
  }

  lemma Regroup<T>(a: seq<T>, b: seq<T>, c: seq<T>)
    ensures (a + b) + c == a + (b + c)
    ensures b != [] ==> (a + [b[0]]) + b[1..] == a + b
  {
  }

  /** Forwarding a handle that is in no queue yet adds exactly it. */
  lemma ForwardAdds<T>(cap: nat, q: Queues<T>, h: T)
    ensures Queued(Forward(cap, q, h)) == Queued(q) + multiset{h}
  {
  }

  lemma CallOrders<T>(cap: nat, s: State<T>, h: T)
    requires Orders(cap, s)
    ensures Orders(cap, Call(cap, s, h))
  {
    Regroup(s.drained + s.q.batch, s.q.cross, [h]);
    Regroup(s.resumed, s.q.ring, [h]);
  }

  lemma SpawnHereKeeps<T>(cap: nat, s: State<T>, h: T)
    requires Inv(cap, s)
    ensures Inv(cap, Apply(cap, s, SpawnHere(h)))
  {
    var u := s.(submitted := s.submitted + [h]);
    CallOrders(cap, u, h);
    ForwardAdds(cap, s.q, h);
  }

  lemma SpawnCrossKeeps<T>(cap: nat, s: State<T>, h: T)
    requires Inv(cap, s)
    ensures Inv(cap, Apply(cap, s, SpawnCross(h)))
  {
    Regroup(s.drained + s.q.batch, s.q.cross, [h]);
  }

  lemma BatchKeeps<T>(cap: nat, s: State<T>)
    requires Inv(cap, s) && s.q.batch != []
    ensures Inv(cap, Apply(cap, s, ForwardBatch))
  {
    var b := s.q.batch;
    var u := s.(q := s.q.(batch := b[1..]), drained := s.drained + [b[0]]);
    Split(b);
    Regroup(s.drained, b, []);
    CallOrders(cap, u, b[0]);
    ForwardAdds(cap, u.q, b[0]);
  }

  lemma DeferredKeeps<T>(cap: nat, s: State<T>)
    requires Inv(cap, s) && s.q.deferred != []
    ensures Inv(cap, Apply(cap, s, ForwardDeferred))
  {
    var d := s.q.deferred;
    var u := s.(q := s.q.(deferred := d[1..]));
    Split(d);
    CallOrders(cap, u, d[0]);
    ForwardAdds(cap, u.q, d[0]);
  }

  lemma DeferKeeps<T>(cap: nat, s: State<T>, h: T)
    requires Inv(cap, s)
    ensures Inv(cap, Apply(cap, s, Defer(h)))
  {
  }

  lemma ResumeKeeps<T>(cap: nat, s: State<T>)
    requires Inv(cap, s) && Enabled(s, Resume)
    ensures Inv(cap, Apply(cap, s, Resume))
  {
    Split(s.q.ring);
    Regroup(s.resumed, s.q.ring, []);
  }

  lemma StepKeeps<T>(cap: nat, s: State<T>, step: Step<T>)
    requires Inv(cap, s) && Enabled(s, step)
    ensures Inv(cap, Apply(cap, s, step))
  {
    match step
    case SpawnHere(h) => SpawnHereKeeps(cap, s, h);
    case SpawnCross(h) => SpawnCrossKeeps(cap, s, h);
    case Defer(h) => DeferKeeps(cap, s, h);
    case TakeBatch =>
    case ForwardBatch => BatchKeeps(cap, s);
    case ForwardDeferred => DeferredKeeps(cap, s);
    case Resume => ResumeKeeps(cap, s);
  }

  // ---- whole runs ----

  predicate Runs<T>(cap: nat, s: State<T>, steps: seq<Step<T>>)
    decreases |steps|
  {
    steps == [] || (Enabled(s, steps[0]) && Runs(cap, Apply(cap, s, steps[0]), steps[1..]))
  }

  function Exec<T>(cap: nat, s: State<T>, steps: seq<Step<T>>): State<T>
    requires Runs(cap, s, steps)
    decreases |steps|
  {
    if steps == [] then s else Exec(cap, Apply(cap, s, steps[0]), steps[1..])
  }

  lemma {:induction false} RunKeeps<T>(cap: nat, s: State<T>, steps: seq<Step<T>>)
    requires Inv(cap, s) && Runs(cap, s, steps)
    decreases |steps|
    ensures Inv(cap, Exec(cap, s, steps))
  {
    if steps != [] {
      StepKeeps(cap, s, steps[0]);
      RunKeeps(cap, Apply(cap, s, steps[0]), steps[1..]);
    }
  }

  /** Every call of `forward_task` in the run finds room in the ring. */
  predicate AllFit<T>(cap: nat, s: State<T>, steps: seq<Step<T>>)
    requires Runs(cap, s, steps)
    decreases |steps|
  {
    steps == [] ||
    (((steps[0].SpawnHere? || steps[0].ForwardBatch? || steps[0].ForwardDeferred?) ==> |s.q.ring| < cap)
     && AllFit(cap, Apply(cap, s, steps[0]), steps[1..]))
  }

  lemma {:induction false} AcceptedIffFit<T>(cap: nat, s: State<T>, steps: seq<Step<T>>)
    requires Inv(cap, s) && Runs(cap, s, steps)
    decreases |steps|
    ensures Exec(cap, s, steps).accepted == Exec(cap, s, steps).calls
            <==> s.accepted == s.calls && AllFit(cap, s, steps)
  {
    if steps != [] {
      StepKeeps(cap, s, steps[0]);
      AcceptedIffFit(cap, Apply(cap, s, steps[0]), steps[1..]);
    }
  }

  /** No run, overflowing or not, loses a handle or resumes it more often than it
      was submitted; handles leave the cross queue in the order they entered it,
      and the ring resumes handles in the order it accepted them. */
  lemma HandlesConserved<T>(cap: nat, steps: seq<Step<T>>, h: T)
    requires Runs(cap, Init(), steps)
    ensures var s := Exec(cap, Init(), steps);
            && multiset(s.submitted)[h] == multiset(s.resumed)[h] + Queued(s.q)[h]
            && multiset(s.resumed)[h] <= multiset(s.submitted)[h]
            && s.drained <= s.crossed && s.resumed <= s.accepted
  {
    RunKeeps(cap, Init(), steps);
  }

  /** The ring accepts every call, in order, if and only if each finds room; handles
      are then resumed in the order they were forwarded. */
  lemma ForwardingOrder<T>(cap: nat, steps: seq<Step<T>>)
    requires Runs(cap, Init(), steps)
    ensures var s := Exec(cap, Init(), steps);
            && (s.accepted == s.calls <==> AllFit(cap, Init(), steps))
            && (AllFit(cap, Init(), steps) ==> s.resumed + s.q.ring == s.calls && s.resumed <= s.calls)
  {
    RunKeeps(cap, Init(), steps);
    AcceptedIffFit(cap, Init<T>(), steps);
  }

  // ---- an overflow lets a later handle pass ----

  function Numbers(lo: nat, hi: nat): seq<nat>
    requires lo <= hi
  {
    seq(hi - lo, i requires 0 <= i < hi - lo => lo + i)
  }

  function SpawnAll(lo: nat, hi: nat): seq<Step<nat>>
    requires lo <= hi
    decreases hi - lo
  {
    if lo == hi then [] else [SpawnHere(lo)] + SpawnAll(lo + 1, hi)
  }

  function ResumeAll(n: nat): seq<Step<nat>> {
    if n == 0 then [] else [Resume] + ResumeAll(n - 1)
  }

  lemma NumbersFrom(before: seq<nat>, lo: nat, hi: nat)
    requires lo < hi
    ensures (before + [lo]) + Numbers(lo + 1, hi) == before + Numbers(lo, hi)
  {
    assert Numbers(lo, hi) == [lo] + Numbers(lo + 1, hi);
  }

  lemma {:induction false} SpawnsFill(cap: nat, s: State<nat>, lo: nat, hi: nat)
    requires lo <= hi && |s.q.ring| + (hi - lo) <= cap
    decreases hi - lo
    ensures Runs(cap, s, SpawnAll(lo, hi))
    ensures var t := Exec(cap, s, SpawnAll(lo, hi));
            && t.q == s.q.(ring := s.q.ring + Numbers(lo, hi))
            && t.calls == s.calls + Numbers(lo, hi) && t.resumed == s.resumed
  {
    if lo == hi {
      assert s.q.ring + [] == s.q.ring && s.calls + [] == s.calls;
    } else {
      var steps := SpawnAll(lo, hi);
      assert steps[0] == SpawnHere(lo) && steps[1..] == SpawnAll(lo + 1, hi);
      SpawnsFill(cap, Apply(cap, s, SpawnHere(lo)), lo + 1, hi);
      NumbersFrom(s.q.ring, lo, hi);
      NumbersFrom(s.calls, lo, hi);
    }
  }

  lemma {:induction false} ResumesEmpty(cap: nat, s: State<nat>)
    decreases |s.q.ring|
    ensures Runs(cap, s, ResumeAll(|s.q.ring|))
    ensures var t := Exec(cap, s, ResumeAll(|s.q.ring|)); t.resumed == s.resumed + s.q.ring && t.calls == s.calls
  {
    var ring := s.q.ring;
    if ring == [] {
      assert s.resumed + [] == s.resumed;
    } else {
      var steps := ResumeAll(|ring|);
      assert steps[0] == Resume && steps[1..] == ResumeAll(|ring| - 1);
      ResumesEmpty(cap, Apply(cap, s, Resume));
      assert (s.resumed + [ring[0]]) + ring[1..] == s.resumed + ring;
    }
  }

  lemma {:induction false} RunsAppend<T>(cap: nat, s: State<T>, a: seq<Step<T>>, b: seq<Step<T>>)
    requires Runs(cap, s, a) && Runs(cap, Exec(cap, s, a), b)
    decreases |a|
    ensures Runs(cap, s, a + b) && Exec(cap, s, a + b) == Exec(cap, Exec(cap, s, a), b)
  {
    if a == [] {
      assert a + b == b;
    } else {
      assert (a + b)[1..] == a[1..] + b;
      RunsAppend(cap, Apply(cap, s, a[0]), a[1..], b);
    }
  }

  /** One call more than the ring holds, one resumption, another call and the rest of
      the resumptions: the last handle overtakes the one that overflowed. */
  lemma OverflowReorders(cap: nat) returns (steps: seq<Step<nat>>)
    requires cap > 0
    ensures Runs(cap, Init(), steps)
    ensures var s := Exec(cap, Init(), steps);
            && s.calls == Numbers(0, cap + 2) && s.resumed == Numbers(0, cap) + [cap + 1]
            && !(s.resumed <= s.calls)
  {
    var spawns := SpawnAll(0, cap);
    SpawnsFill(cap, Init(), 0, cap);
    var s := Exec(cap, Init(), spawns);
    assert s.q.ring == Numbers(0, cap) == s.calls && s.resumed == [];
    var turn := Overtake(cap, s);
    RunsAppend(cap, Init(), spawns, turn);
    steps := spawns + turn;
    var t := Exec(cap, Init(), steps);
    assert t.resumed[cap] == cap + 1 && t.calls[cap] == cap;
  }

  lemma Overtake(cap: nat, s: State<nat>) returns (steps: seq<Step<nat>>)
    requires cap > 0 && s.q.ring == Numbers(0, cap) == s.calls && s.resumed == []
    ensures Runs(cap, s, steps)
    ensures var t := Exec(cap, s, steps); t.calls == Numbers(0, cap + 2) && t.resumed == Numbers(0, cap) + [cap + 1]
  {
    var t := Apply(cap, s, SpawnHere(cap));
    var u := Apply(cap, t, Resume);
    var v := Apply(cap, u, SpawnHere(cap + 1));
    NumbersEnds(cap);
    assert v.resumed == [0] && v.q.ring == Numbers(0, cap)[1..] + [cap + 1];
    ResumesEmpty(cap, v);
    var rest := ResumeAll(|v.q.ring|);
    Prepend(cap, u, SpawnHere(cap + 1), rest);
    Prepend(cap, t, Resume, [SpawnHere(cap + 1)] + rest);
    Prepend(cap, s, SpawnHere(cap), [Resume] + ([SpawnHere(cap + 1)] + rest));
    steps := [SpawnHere(cap)] + ([Resume] + ([SpawnHere(cap + 1)] + rest));
  }

  lemma NumbersEnds(n: nat)
    requires n > 0
    ensures Numbers(0, n)[0] == 0 && [0] + (Numbers(0, n)[1..] + [n + 1]) == Numbers(0, n) + [n + 1]
    ensures (Numbers(0, n) + [n]) + [n + 1] == Numbers(0, n + 2)
  {
  }

  lemma Prepend<T>(cap: nat, s: State<T>, step: Step<T>, rest: seq<Step<T>>)
    requires Enabled(s, step) && Runs(cap, Apply(cap, s, step), rest)
    ensures Runs(cap, s, [step] + rest) && Exec(cap, s, [step] + rest) == Exec(cap, Apply(cap, s, step), rest)
  {
    assert ([step] + rest)[1..] == rest;
  }

  // ---- the uninterrupted drain ----

  function DrainSteps<T>(n: nat): seq<Step<T>> {
    if n == 0 then [] else [ForwardBatch] + DrainSteps(n - 1)
  }

  /** Without interference the steps of a drain amount to `Drain`. */
  lemma {:induction false} DrainIsSteps<T>(cap: nat, s: State<T>)
    ensures Runs(cap, s, DrainSteps(|s.q.batch|))
    ensures Exec(cap, s, DrainSteps(|s.q.batch|)).q == ForwardAll(cap, s.q.(batch := []), s.q.batch)
    decreases |s.q.batch|
  {
    var n := |s.q.batch|;
    if n > 0 {
      var steps: seq<Step<T>> := DrainSteps(n);
      assert steps[0] == ForwardBatch && steps[1..] == DrainSteps(n - 1);
      var t := Apply(cap, s, ForwardBatch);
      DrainIsSteps(cap, t);
    }
  }

  /** The swap and those steps amount to `drain_cross_thread`. */
  lemma SwapAndDrain<T>(cap: nat, s: State<T>)
    requires s.q.batch == []
    ensures var steps := [TakeBatch] + DrainSteps<T>(|s.q.cross|);
            Runs(cap, s, steps) && Exec(cap, s, steps).q == Drain(cap, s.q)
  {
    var t := Apply(cap, s, TakeBatch);
    var drain: seq<Step<T>> := DrainSteps(|s.q.cross|);
    DrainIsSteps(cap, t);
    Prepend(cap, s, TakeBatch, drain);
    assert t.q.(batch := []) == s.q.(cross := []);
  }

  function DeferredSteps<T>(n: nat): seq<Step<T>> {
    if n == 0 then [] else [ForwardDeferred] + DeferredSteps(n - 1)
  }

  lemma {:induction false} ForwardAllKeepsDeferred<T>(cap: nat, q: Queues<T>, hs: seq<T>, d: seq<T>)
    decreases |hs|
    ensures ForwardAll(cap, q.(deferred := d), hs) == ForwardAll(cap, q, hs).(deferred := d)
  {
    if hs != [] {
      ForwardAllKeepsDeferred(cap, Forward(cap, q, hs[0]), hs[1..], d);
      assert Forward(cap, q.(deferred := d), hs[0]) == Forward(cap, q, hs[0]).(deferred := d);
    }
  }

  /** One forwarding per deferred handle amounts to `drain_deferred`. */
  lemma {:induction false} DeferredIsSteps<T>(cap: nat, s: State<T>)
    decreases |s.q.deferred|
    ensures Runs(cap, s, DeferredSteps(|s.q.deferred|))
    ensures Exec(cap, s, DeferredSteps(|s.q.deferred|)).q == DrainDeferred(cap, s.q)
  {
    var d := s.q.deferred;
    if d != [] {
      var steps: seq<Step<T>> := DeferredSteps(|d|);
      assert steps[0] == ForwardDeferred && steps[1..] == DeferredSteps(|d| - 1);
      var t := Apply(cap, s, ForwardDeferred);
      DeferredIsSteps(cap, t);
      var first := Forward(cap, s.q, d[0]);
      assert t.q == first.(deferred := d[1..]);
      ForwardAllKeepsDeferred(cap, first, d[1..], d[1..]);
    }
  }
}

/** The worker's queues in place: a slot array, two wrapping cursors and three vectors. */
module WorkerHeap {
  import opened Common
  import opened CursorWords
  import opened SpscRing
  import opened WorkerQueues

  class SpscCursor {
    const capacity: nat
    var head: nat
    var tail: nat

    function View(): Cursor
      reads this
    {
      Cursor(head, tail)
    }

    predicate Valid()
      reads this
    {
      CursorOk(capacity, View())
    }

    constructor (capacity: nat)
      requires Capacity(capacity)
      ensures Valid() && this.capacity == capacity && View() == Cursor(0, 0)
    {
      this.capacity := capacity;
      head, tail := 0, 0;
    }

    method Pop() returns (slot: nat)
      requires Valid()
      modifies this`head
      ensures Valid() && (View(), slot) == PopCursor(capacity, old(View()))
    {
      CursorPops(capacity, View());
      var h := head;
      if h == tail {
        return NONE;
      }
      head := (h + 1) % WORD;
      slot := BitAnd(h, capacity - 1);
    }

    method Push() returns (slot: nat)
      requires Valid()
      modifies this`tail
      ensures Valid() && (View(), slot) == PushCursor(capacity, old(View()))
    {
      CursorPushes(capacity, View());
      var t := tail;
      if (t - head) % WORD >= capacity {
        return NONE;
      }
      tail := (t + 1) % WORD;
      slot := BitAnd(t, capacity - 1);
    }
  }

  class Worker<T> {
    const reapCur: SpscCursor
    const reapSwap: array<T>
    var crossQueue: seq<T>
    var deferredTasks: seq<T>

    ghost predicate Valid()
      reads this, reapCur, reapSwap
    {
      reapCur.Valid() && reapCur.capacity == reapSwap.Length
    }

    ghost function ReadyRing(): Ring<T>
      reads reapCur, reapSwap
    {
      Ring(reapCur.View(), reapSwap[..])
    }

    /** The queues between two drains. */
    ghost function View(): Queues<T>
      requires Valid()
      reads this, reapCur, reapSwap
    {
      Queues(Contents(ReadyRing()), crossQueue, [], deferredTasks)
    }

    constructor (capacity: nat, nullHandle: T)
      requires Capacity(capacity)
      ensures Valid() && fresh(reapCur) && fresh(reapSwap) && reapSwap.Length == capacity && View() == Queues([], [], [], [])
    {
      reapCur := new SpscCursor(capacity);
      reapSwap := new T[capacity](_ => nullHandle);
      crossQueue, deferredTasks := [], [];
    }

    method RingPop() returns (handle: Option<T>)
      requires Valid()
      modifies reapCur
      ensures Valid() && (ReadyRing(), handle) == Pop(old(ReadyRing()))
    {
      CursorPops(reapSwap.Length, reapCur.View());
      SlotIs(reapSwap.Length, reapCur.View(), 0);
      var slot := reapCur.Pop();
      handle := if slot == NONE then None else Some(reapSwap[slot]);
    }

    method RingPush(handle: T) returns (ok: bool)
      requires Valid()
      modifies reapCur, reapSwap
      ensures Valid() && (ReadyRing(), ok) == Push(old(ReadyRing()), handle)
    {
      CursorPushes(reapSwap.Length, reapCur.View());
      SlotIs(reapSwap.Length, reapCur.View(), Size(reapCur.View()));
      var slot := reapCur.Push();
      ok := slot != NONE;
      if ok {
        reapSwap[slot] := handle;
      }
    }

    method Schedule() returns (handle: Option<T>)
      requires Valid()
      modifies reapCur
      ensures Valid()
      ensures handle == if old(View()).ring == [] then None else Some(old(View()).ring[0])
      ensures View() == if old(View()).ring == [] then old(View()) else old(View()).(ring := old(View()).ring[1..])
    {
      PopRefines(ReadyRing());
      handle := RingPop();
    }

    method ForwardTask(handle: T)
      requires Valid()
      modifies this`crossQueue, reapCur, reapSwap
      ensures Valid() && View() == Forward(reapSwap.Length, old(View()), handle)
    {
      PushRefines(ReadyRing(), handle);
      var ok := RingPush(handle);
      if !ok {
        crossQueue := crossQueue + [handle];
      }
    }

    method CoSpawnCross(handle: T) returns (needWakeup: bool)
      requires Valid()
      modifies this`crossQueue
      ensures Valid() && View() == old(View()).(cross := old(crossQueue) + [handle])
      ensures needWakeup == (old(crossQueue) == [])
    {
      needWakeup := |crossQueue| == 0;
      crossQueue := crossQueue + [handle];
    }

    method DeferTask(handle: T)
      requires Valid()
      modifies this`deferredTasks
      ensures Valid() && View() == old(View()).(deferred := old(deferredTasks) + [handle])
    {
      deferredTasks := deferredTasks + [handle];
    }

    method DrainCrossThread()
      requires Valid()
      modifies this`crossQueue, reapCur, reapSwap
      ensures Valid() && View() == Drain(reapSwap.Length, old(View()))
    {
      if |crossQueue| == 0 {
        return;
      }
      var batch := crossQueue;
      crossQueue := [];
      ghost var start := View();
      var i := 0;
      assert batch[..0] == [];
      while i < |batch|
        invariant 0 <= i <= |batch|
        invariant Valid() && View() == ForwardAll(reapSwap.Length, start, batch[..i])
      {
        assert batch[..i + 1] == batch[..i] + [batch[i]];
        ForwardAllSnoc(reapSwap.Length, start, batch[..i], batch[i]);
        ForwardTask(batch[i]);
        i := i + 1;
      }
      assert batch[..i] == batch;
    }

    method DrainDeferred()
      requires Valid()
      modifies this`crossQueue, this`deferredTasks, reapCur, reapSwap
      ensures Valid() && View() == WorkerQueues.DrainDeferred(reapSwap.Length, old(View()))
    {
      ghost var start := View();
      var i := 0;
      assert deferredTasks[..0] == [];
      while i < |deferredTasks|
        invariant 0 <= i <= |deferredTasks| && deferredTasks == start.deferred
        invariant Valid() && View() == ForwardAll(reapSwap.Length, start, deferredTasks[..i])
      {
        assert deferredTasks[..i + 1] == deferredTasks[..i] + [deferredTasks[i]];
        ForwardAllSnoc(reapSwap.Length, start, deferredTasks[..i], deferredTasks[i]);
        ForwardTask(deferredTasks[i]);
        i := i + 1;
      }
      assert deferredTasks[..i] == deferredTasks;
      deferredTasks := [];
    }
  }
}
