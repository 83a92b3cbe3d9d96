/** The waiter lists of a counting semaphore and the search of `try_release`. */
module SemaphoreLists {
  import opened Common

  /** `stack` is the atomic list, newest first; `cache` the reversed list;
      `consumed` the waiters that woke themselves and are only passed over. */
  datatype Lists<T> = Lists(stack: seq<T>, cache: seq<T>, consumed: set<T>)

  function Unconsumed<T>(s: seq<T>, consumed: set<T>): seq<T> {
    if s == [] then []
    else if s[0] in consumed then Unconsumed(s[1..], consumed)
    else [s[0]] + Unconsumed(s[1..], consumed)
  }

  /** The waiters still to be granted a unit, in order of arrival. */
  function Live<T>(l: Lists<T>): seq<T> {
    Unconsumed(l.cache, l.consumed) + Unconsumed(Reverse(l.stack), l.consumed)
  }

  function SkipConsumed<T>(s: seq<T>, consumed: set<T>): seq<T> {
    if s != [] && s[0] in consumed then SkipConsumed(s[1..], consumed) else s
  }

  /** `try_release`: the head of the cache once consumed waiters are skipped; if
      there is none, the head of the reversed stack without consumed waiters. */
  function TryRelease<T>(l: Lists<T>): (Lists<T>, Option<T>) {
    var head := SkipConsumed(l.cache, l.consumed);
    if head != [] then (l.(cache := head[1..]), Some(head[0]))
    else if l.stack == [] then (l, None)
    else
      var chain := Unconsumed(Reverse(l.stack), l.consumed);
      if chain == [] then (l.(stack := []), None)
      else (l.(stack := [], cache := chain[1..]), Some(chain[0]))
  }

  lemma {:induction false} SkipKeeps<T>(s: seq<T>, consumed: set<T>)
    ensures Unconsumed(SkipConsumed(s, consumed), consumed) == Unconsumed(s, consumed)
    ensures var t := SkipConsumed(s, consumed);
            if t == [] then Unconsumed(s, consumed) == []
            else Unconsumed(s, consumed) == [t[0]] + Unconsumed(t[1..], consumed)
  {
    if s != [] && s[0] in consumed {
      SkipKeeps(s[1..], consumed);
    }
  }

  lemma {:induction false} UnconsumedTwice<T>(s: seq<T>, consumed: set<T>)
    ensures Unconsumed(Unconsumed(s, consumed), consumed) == Unconsumed(s, consumed)
    ensures Unconsumed(s, consumed) != [] ==> Unconsumed(Unconsumed(s, consumed)[1..], consumed) == Unconsumed(s, consumed)[1..]
  {
    if s != [] {
      UnconsumedTwice(s[1..], consumed);
      var u, v := Unconsumed(s, consumed), Unconsumed(s[1..], consumed);
      if s[0] !in consumed {
        assert u[0] == s[0] && u[1..] == v;
      } else {
        assert u == v;
      }
    }
  }

  lemma {:induction false} UnconsumedAppend<T>(a: seq<T>, b: seq<T>, consumed: set<T>)
    ensures Unconsumed(a + b, consumed) == Unconsumed(a, consumed) + Unconsumed(b, consumed)
  {
    if a == [] {
      assert a + b == b;
    } else {
      var all := a + b;
      assert all[1..] == a[1..] + b && all[0] == a[0];
      UnconsumedAppend(a[1..], b, consumed);
      var rest, back := Unconsumed(a[1..], consumed), Unconsumed(b, consumed);
      if a[0] !in consumed {
        assert [a[0]] + (rest + back) == ([a[0]] + rest) + back;
      }
    }
  }

  /** Whoever is granted a unit is the live waiter that came first. */
  lemma TryReleaseTakesOldest<T>(l: Lists<T>)
    ensures Live(l) == [] ==> TryRelease(l).1.None? && Live(TryRelease(l).0) == []
    ensures Live(l) != [] ==> TryRelease(l).1 == Some(Live(l)[0]) && Live(TryRelease(l).0) == Live(l)[1..]
    ensures TryRelease(l).0.consumed == l.consumed
  {
    SkipKeeps(l.cache, l.consumed);
    var head := SkipConsumed(l.cache, l.consumed);
    if head != [] {
      assert Live(l) == [head[0]] + (Unconsumed(head[1..], l.consumed) + Unconsumed(Reverse(l.stack), l.consumed));
    } else {
      UnconsumedTwice(Reverse(l.stack), l.consumed);
      assert Unconsumed(Reverse<T>([]), l.consumed) == [];
      assert Live(l) == Unconsumed(Reverse(l.stack), l.consumed);
      var u := TryRelease(l).0;
      assert l.stack != [] ==> Live(u) == Unconsumed(u.cache, l.consumed);
    }
  }

  lemma {:induction false} UnconsumedMember<T>(s: seq<T>, consumed: set<T>, x: T)
    ensures x in Unconsumed(s, consumed) <==> x in s && x !in consumed
  {
    if s != [] {
      UnconsumedMember(s[1..], consumed, x);
      assert s == [s[0]] + s[1..];
    }
  }

  lemma {:induction false} ConsumeAbsent<T>(s: seq<T>, consumed: set<T>, x: T)
    requires x !in Unconsumed(s, consumed)
    ensures Unconsumed(s, consumed + {x}) == Unconsumed(s, consumed)
  {
    if s != [] {
      UnconsumedMember(s, consumed, x);
      UnconsumedMember(s[1..], consumed, x);
      ConsumeAbsent(s[1..], consumed, x);
    }
  }

  lemma UnconsumedSnoc<T>(s: seq<T>, k: nat, consumed: set<T>)
    requires k < |s|
    ensures Unconsumed(Reverse(s[..k + 1]), consumed)
            == if s[k] in consumed then Unconsumed(Reverse(s[..k]), consumed)
               else [s[k]] + Unconsumed(Reverse(s[..k]), consumed)
  {
    assert s[..k + 1] == s[..k] + [s[k]];
    ReverseSnoc(s[..k], s[k]);
    assert ([s[k]] + Reverse(s[..k]))[1..] == Reverse(s[..k]);
  }

  /** A waiter enters the list last. */
  lemma RegisterIsLast<T>(l: Lists<T>, x: T)
    requires x !in l.consumed
    ensures Live(l.(stack := [x] + l.stack)) == Live(l) + [x]
  {
    ReversePush(x, l.stack);
    UnconsumedAppend(Reverse(l.stack), [x], l.consumed);
    assert Unconsumed([x], l.consumed) == [x] + Unconsumed([x][1..], l.consumed) == [x];
  }

  /** `await_suspend` on the lists: in, and marked consumed if it took a unit itself. */
  function Suspend<T>(l: Lists<T>, x: T, selfWoken: bool): Lists<T> {
    Lists([x] + l.stack, l.cache, if selfWoken then l.consumed + {x} else l.consumed)
  }

  lemma SuspendLive<T>(l: Lists<T>, x: T, selfWoken: bool)
    requires x !in l.stack && x !in l.cache && x !in l.consumed
    ensures Live(Suspend(l, x, selfWoken)) == if selfWoken then Live(l) else Live(l) + [x]
  {
    if selfWoken {
      UnconsumedMember(l.cache, l.consumed, x);
      ReverseMember(l.stack, x);
      UnconsumedMember(Reverse(l.stack), l.consumed, x);
      SelfWakeIsInvisible(l, x);
    } else {
      RegisterIsLast(l, x);
    }
  }

  /** A waiter that takes a unit itself does not count among the live ones. */
  lemma SelfWakeIsInvisible<T>(l: Lists<T>, x: T)
    requires x !in Live(l)
    ensures Live(Lists([x] + l.stack, l.cache, l.consumed + {x})) == Live(l)
  {
    var c := l.consumed + {x};
    ReversePush(x, l.stack);
    UnconsumedAppend(Reverse(l.stack), [x], c);
    assert Unconsumed([x], c) == Unconsumed([x][1..], c) == [];
    ConsumeAbsent(l.cache, l.consumed, x);
    ConsumeAbsent(Reverse(l.stack), l.consumed, x);
  }
}

/** Any number of acquiring coroutines and any releases; `await_ready`,
    `await_suspend` and `release` are one step each. */
module SemaphoreProtocol {
  import opened Common
  import opened SemaphoreLists

  type Id = nat

  datatype Pc =
    | Idle
    | MustSuspend    // `await_ready` found no unit
    | Registered     // suspended in the list
    | Granted        // got its unit

  /** `granted` and `released` are histories: who got a unit, in order, and how many were released. */
  datatype State = State(counter: int, lists: Lists<Id>, pcs: seq<Pc>, granted: seq<Id>, released: nat)

  datatype Step =
    | TryAcquire(i: Id)
    | AwaitReady(i: Id)
    | AwaitSuspend(i: Id)
    | Release
    | ReleaseMany(update: nat)

  function Init(desired: nat, n: nat): State {
    State(desired, Lists([], [], {}), seq(n, _ => Idle), [], 0)
  }

  predicate Enabled(s: State, step: Step) {
    match step
    case TryAcquire(i) => i < |s.pcs| && s.pcs[i].Idle?
    case AwaitReady(i) => i < |s.pcs| && s.pcs[i].Idle?
    case AwaitSuspend(i) => i < |s.pcs| && s.pcs[i].MustSuspend?
    case _ => true
  }

  function Grant(s: State, i: Id): State {
    s.(counter := s.counter - 1, granted := s.granted + [i], pcs := if i < |s.pcs| then s.pcs[i := Granted] else s.pcs)
  }

  function AddUnits(s: State, update: nat): State {
    s.(counter := s.counter + update, released := s.released + update)
  }

  /** The waking loop of `release(update)`, which stops when no waiter is left. */
  function WakeUpTo(s: State, update: nat): State
    decreases update
  {
    if update == 0 then s
    else
      var (lists, first) := TryRelease(s.lists);
      if first.None? then s.(lists := lists)
      else WakeUpTo(Grant(s.(lists := lists), first.value), update - 1)
  }

  function Apply(s: State, step: Step): State
    requires Enabled(s, step)
  {
    match step
    case TryAcquire(i) => if s.counter > 0 then Grant(s, i) else s
    case AwaitReady(i) => if s.counter > 0 then Grant(s, i) else s.(pcs := s.pcs[i := MustSuspend])
    case AwaitSuspend(i) =>
      var listed := s.(lists := Suspend(s.lists, i, s.counter > 0));
      if s.counter > 0 then Grant(listed, i) else listed.(pcs := s.pcs[i := Registered])
    case Release =>
      var t := AddUnits(s, 1);
      var (lists, first) := TryRelease(t.lists);
      if first.None? then t.(lists := lists) else Grant(t.(lists := lists), first.value)
    case ReleaseMany(update) =>
      WakeUpTo(AddUnits(s, update), update)
  }

  predicate IsRegistered(pc: Pc) { pc.Registered? }

  predicate IsGranted(pc: Pc) { pc.Granted? }

  /** Everything but the balance of units and waiters. */
  ghost predicate ListInv(desired: nat, s: State) {
    && s.counter + |s.granted| == desired + s.released
    && Tracks(Live(s.lists), s.pcs, IsRegistered)
    && Tracks(s.granted, s.pcs, IsGranted)
    && forall i :: i in s.lists.consumed ==> i in s.granted
  }

  /** No unit is left lying about while somebody waits for one. */
  ghost predicate Inv(desired: nat, s: State) {
    ListInv(desired, s) && s.counter >= 0 && (s.counter > 0 ==> Live(s.lists) == [])
  }

  lemma InitInv(desired: nat, n: nat)
    ensures Inv(desired, Init(desired, n))
  {
    assert Live(Init(desired, n).lists) == [];
  }

  /** Granting a unit to a coroutine outside the list. */
  lemma GrantKeeps(desired: nat, s: State, i: Id)
    requires ListInv(desired, s) && i < |s.pcs| && (s.pcs[i].Idle? || s.pcs[i].MustSuspend?)
    ensures ListInv(desired, Grant(s, i))
  {
    TracksPush(s.granted, s.pcs, IsGranted, i, Granted);
    TracksKeep(Live(s.lists), s.pcs, IsRegistered, i, Granted);
  }

  lemma SuspendKeeps(desired: nat, s: State, i: Id)
    requires Inv(desired, s) && Enabled(s, AwaitSuspend(i))
    ensures Inv(desired, Apply(s, AwaitSuspend(i)))
  {
    if s.counter > 0 {
      SelfWakeIsInvisible(s.lists, i);
      TracksPush(s.granted, s.pcs, IsGranted, i, Granted);
      TracksKeep(Live(s.lists), s.pcs, IsRegistered, i, Granted);
    } else {
      RegisterIsLast(s.lists, i);
      TracksPush(Live(s.lists), s.pcs, IsRegistered, i, Registered);
      TracksKeep(s.granted, s.pcs, IsGranted, i, Registered);
    }
  }

  /** One turn of the waking loop, when somebody waits. */
  function WakeOne(s: State): State
    requires Live(s.lists) != []
  {
    Grant(s.(lists := TryRelease(s.lists).0), Live(s.lists)[0])
  }

  /** Waking the first live waiter. */
  lemma WakeKeeps(desired: nat, s: State)
    requires ListInv(desired, s) && Live(s.lists) != []
    ensures ListInv(desired, WakeOne(s))
  {
    TryReleaseTakesOldest(s.lists);
    var x := Live(s.lists)[0];
    TracksPop(Live(s.lists), s.pcs, IsRegistered, Granted);
    TracksPush(s.granted, s.pcs, IsGranted, x, Granted);
  }

  lemma WakeUpToStops(s: State, update: nat)
    requires Live(s.lists) == []
    ensures var t := WakeUpTo(s, update);
            t == s.(lists := t.lists) && Live(t.lists) == [] && t.lists.consumed == s.lists.consumed
  {
    TryReleaseTakesOldest(s.lists);
  }

  lemma WakeUpToTurns(s: State, update: nat)
    requires update > 0 && Live(s.lists) != []
    ensures WakeUpTo(s, update) == WakeUpTo(WakeOne(s), update - 1)
    ensures Live(WakeOne(s).lists) == Live(s.lists)[1..]
  {
    TryReleaseTakesOldest(s.lists);
  }

  /** From `s` to `t` the first `k` live waiters got their units, in order. */
  ghost predicate GrantsOldest(s: State, t: State, k: nat)
    requires k <= |Live(s.lists)|
  {
    && t.granted == s.granted + Live(s.lists)[..k]
    && Live(t.lists) == Live(s.lists)[k..]
    && t.counter == s.counter - k && t.released == s.released
  }

  lemma GrantsOneMore(s: State, u: State, t: State, k: nat)
    requires k < |Live(s.lists)| && Live(u.lists) == Live(s.lists)[1..]
    requires u.granted == s.granted + [Live(s.lists)[0]] && u.counter == s.counter - 1 && u.released == s.released
    requires GrantsOldest(u, t, k)
    ensures GrantsOldest(s, t, k + 1)
  {
    var live := Live(s.lists);
    assert live[..k + 1] == [live[0]] + live[1..][..k];
    assert live[k + 1..] == live[1..][k..];
  }

  /** `release(update)` grants exactly the oldest waiters, as many as there are
      units or waiters, and leaves the rest of the units in the counter. */
  lemma {:induction false} WakeUpToGrants(s: State, update: nat)
    decreases update
    ensures GrantsOldest(s, WakeUpTo(s, update), Min(update, |Live(s.lists)|))
  {
    var live := Live(s.lists);
    if update == 0 {
      assert live[..0] == [] && live[0..] == live;
    } else if live == [] {
      WakeUpToStops(s, update);
      assert live[..0] == [] && live[0..] == live;
    } else {
      WakeUpToTurns(s, update);
      WakeUpToGrants(WakeOne(s), update - 1);
      GrantsOneMore(s, WakeOne(s), WakeUpTo(s, update), Min(update - 1, |live| - 1));
    }
  }

  lemma {:induction false} WakeUpToKeeps(desired: nat, s: State, update: nat)
    requires ListInv(desired, s)
    decreases update
    ensures ListInv(desired, WakeUpTo(s, update))
  {
    if update > 0 && Live(s.lists) == [] {
      WakeUpToStops(s, update);
    } else if update > 0 {
      WakeUpToTurns(s, update);
      WakeKeeps(desired, s);
      WakeUpToKeeps(desired, WakeOne(s), update - 1);
    }
  }

  lemma ReleaseManyKeeps(desired: nat, s: State, update: nat)
    requires Inv(desired, s)
    ensures Inv(desired, Apply(s, ReleaseMany(update)))
  {
    var t := AddUnits(s, update);
    assert ListInv(desired, t);
    WakeUpToKeeps(desired, t, update);
    Balanced(s, update);
  }

  lemma Balanced(s: State, update: nat)
    requires s.counter >= 0 && (s.counter > 0 ==> Live(s.lists) == [])
    ensures var t := WakeUpTo(AddUnits(s, update), update);
            t.counter >= 0 && (t.counter > 0 ==> Live(t.lists) == [])
  {
    WakeUpToGrants(AddUnits(s, update), update);
  }

  /** A single release is the bulk release of one. */
  lemma ReleaseIsOne(s: State)
    ensures Apply(s, Release) == Apply(s, ReleaseMany(1))
  {
    var t := AddUnits(s, 1);
    var (lists, first) := TryRelease(t.lists);
    if first.Some? {
      assert WakeUpTo(Grant(t.(lists := lists), first.value), 0) == Grant(t.(lists := lists), first.value);
    }
  }

  lemma StepKeeps(desired: nat, s: State, step: Step)
    requires Inv(desired, s) && Enabled(s, step)
    ensures Inv(desired, Apply(s, step))
  {
    match step
    case AwaitSuspend(i) => SuspendKeeps(desired, s, i);
    case Release =>
      ReleaseIsOne(s);
      ReleaseManyKeeps(desired, s, 1);
    case ReleaseMany(update) => ReleaseManyKeeps(desired, s, update);
    case _ =>
      if s.counter > 0 {
        GrantKeeps(desired, s, step.i);
      } else {
        TracksKeep(s.granted, s.pcs, IsGranted, step.i, MustSuspend);
        TracksKeep(Live(s.lists), s.pcs, IsRegistered, step.i, MustSuspend);
      }
  }

  // ---- whole runs ----

  predicate Runs(s: State, steps: seq<Step>)
    decreases |steps|
  {
    steps == [] || (Enabled(s, steps[0]) && Runs(Apply(s, steps[0]), steps[1..]))
  }

  function Exec(s: State, steps: seq<Step>): State
    requires Runs(s, steps)
    decreases |steps|
  {
    if steps == [] then s else Exec(Apply(s, steps[0]), steps[1..])
  }

  lemma {:induction false} RunKeeps(desired: nat, s: State, steps: seq<Step>)
    requires Inv(desired, s) && Runs(s, steps)
    decreases |steps|
    ensures Inv(desired, Exec(s, steps))
  {
    if steps != [] {
      StepKeeps(desired, s, steps[0]);
      RunKeeps(desired, Apply(s, steps[0]), steps[1..]);
    }
  }

  /** In every run the units add up, nobody gets two for one acquire, and a unit
      is in the counter only when no acquirer is suspended for it. */
  lemma UnitsAddUp(desired: nat, n: nat, steps: seq<Step>, i: Id)
    requires Runs(Init(desired, n), steps)
    ensures var s := Exec(Init(desired, n), steps);
            && s.counter >= 0 && s.counter + |s.granted| == desired + s.released
            && multiset(s.granted)[i] == (if i < |s.pcs| && s.pcs[i].Granted? then 1 else 0)
            && (i < |s.pcs| && s.pcs[i].Registered? ==> s.counter == 0 && i in Live(s.lists))
  {
    InitInv(desired, n);
    RunKeeps(desired, Init(desired, n), steps);
    NoDupCounts(Exec(Init(desired, n), steps).granted, i);
  }
}

/** The semaphore's lists in place. */
module SemaphoreHeap {
  import opened Common
  import opened SemaphoreLists
  import opened WaiterLists

  ghost predicate Marked(s: seq<Waiter>, consumed: set<Waiter>)
    reads s
  {
    forall x :: x in s ==> (x.consumed <==> x in consumed)
  }

  /** Walks past consumed nodes at the front of a list. */
  method Skip(from: Waiter?, ghost s: seq<Waiter>, ghost consumed: set<Waiter>) returns (head: Waiter?, ghost rest: seq<Waiter>)
    requires Linked(from, s) && Marked(s, consumed)
    ensures rest == SkipConsumed(s, consumed) && Linked(head, rest) && Marked(rest, consumed)
  {
    head, rest := from, s;
    while head != null && head.consumed
      invariant Linked(head, rest) && Marked(rest, consumed)
      invariant SkipConsumed(rest, consumed) == SkipConsumed(s, consumed)
      decreases |rest|
    {
      LinkedTail(head, rest);
      assert rest[0] == head && head in rest;
      assert forall x :: x in rest[1..] ==> x in rest;
      head, rest := head.next, rest[1..];
    }
    if head != null {
      assert rest[0] == head && head in rest;
    }
  }

  /** The reversal loop, which leaves consumed nodes out. */
  method ReverseUnconsumed(top: Waiter?, ghost stack: seq<Waiter>, ghost consumed: set<Waiter>)
    returns (head: Waiter?, ghost chain: seq<Waiter>)
    requires Linked(top, stack) && Marked(stack, consumed)
    modifies stack`next
    ensures Linked(head, chain) && chain == Unconsumed(Reverse(stack), consumed)
    ensures Marked(chain, consumed)
  {
    var node: Waiter? := top;
    head, chain := null, [];
    ghost var k := 0;
    assert stack[..0] == [] && stack[0..] == stack;
    while node != null
      invariant 0 <= k <= |stack| && Linked(node, stack[k..])
      invariant Linked(head, chain) && chain == Unconsumed(Reverse(stack[..k]), consumed)
      decreases |stack| - k
    {
      ReverseNext(stack, k);
      ReversedApart(stack, k);
      KeptApart(Reverse(stack[..k]), consumed, stack[k..]);
      UnconsumedSnoc(stack, k, consumed);
      assert node == stack[k];
      node, head, chain := MoveOne(node, stack[k..], head, chain);
      k := k + 1;
    }
    assert stack[..k] == stack;
    KeptMarked(stack, consumed);
  }

  lemma KeptApart(s: seq<Waiter>, consumed: set<Waiter>, rest: seq<Waiter>)
    requires forall x :: x in s ==> x !in rest
    ensures forall x :: x in Unconsumed(s, consumed) ==> x !in rest
  {
    forall x | x in Unconsumed(s, consumed)
      ensures x !in rest
    {
      UnconsumedMember(s, consumed, x);
    }
  }

  lemma KeptMarked(stack: seq<Waiter>, consumed: set<Waiter>)
    requires Marked(stack, consumed)
    ensures Marked(Unconsumed(Reverse(stack), consumed), consumed)
  {
    forall x | x in Unconsumed(Reverse(stack), consumed)
      ensures x in stack
    {
      UnconsumedMember(Reverse(stack), consumed, x);
      ReverseMember(stack, x);
    }
  }

  /** One turn of the reversal: the front node moves over, unless it is consumed. */
  method MoveOne(node: Waiter, ghost rest: seq<Waiter>, head: Waiter?, ghost chain: seq<Waiter>)
    returns (next: Waiter?, head2: Waiter?, ghost chain2: seq<Waiter>)
    requires Linked(node, rest) && rest != [] && Linked(head, chain)
    requires forall x :: x in chain ==> x !in rest
    modifies node`next
    ensures Linked(next, rest[1..])
    ensures chain2 == (if node.consumed then chain else [node] + chain) && Linked(head2, chain2)
  {
    LinkedTail(node, rest);
    assert rest[0] == node && forall j :: 0 < j < |rest| ==> rest[j] != node;
    next, head2, chain2 := node.next, head, chain;
    if !node.consumed {
      Relink(node, head, chain);
      head2, chain2 := node, [node] + chain;
    }
  }

  class Semaphore {
    var counter: int
    var awaiting: Waiter?
    var toResume: Waiter?
    ghost var lists: Lists<Waiter>

    ghost predicate Valid()
      reads this, lists.stack, lists.cache
    {
      && Linked(awaiting, lists.stack) && Marked(lists.stack, lists.consumed)
      && Linked(toResume, lists.cache) && Marked(lists.cache, lists.consumed)
      && forall x :: x in lists.cache ==> x !in lists.stack
    }

    /** The exchange of the atomic head and the reversal of what it yields. */
    method TakeStack() returns (head: Waiter?, ghost chain: seq<Waiter>)
      requires Valid()
      modifies this`awaiting, this`lists, lists.stack`next
      ensures Valid() && lists == old(lists).(stack := [])
      ensures Linked(head, chain) && Marked(chain, lists.consumed)
      ensures chain == Unconsumed(Reverse(old(lists.stack)), lists.consumed)
    {
      ghost var stack, cache := lists.stack, lists.cache;
      assert forall k :: 0 <= k < |cache| ==> cache[k] !in stack;
      head, chain := ReverseUnconsumed(awaiting, stack, lists.consumed);
      assert Linked(toResume, cache);
      awaiting, lists := null, lists.(stack := []);
    }

    /** Returns the head of a private list and caches the rest. */
    method Cache(head: Waiter, ghost chain: seq<Waiter>) returns (first: Waiter)
      requires Linked(head, chain) && Marked(chain, lists.consumed) && chain != []
      requires Linked(awaiting, lists.stack) && Marked(lists.stack, lists.consumed)
      requires forall x :: x in chain ==> x !in lists.stack
      modifies this`toResume, this`lists
      ensures Valid() && first == chain[0] && lists == old(lists).(cache := chain[1..])
    {
      LinkedTail(head, chain);
      assert forall x :: x in chain[1..] ==> x in chain;
      toResume, lists := head.next, lists.(cache := chain[1..]);
      first := head;
    }

    /** `try_release`: the awaiter to wake, or null. */
    method TryReleaseOne() returns (first: Waiter?)
      requires Valid()
      modifies this`awaiting, this`toResume, this`lists, lists.stack`next
      ensures Valid() && lists == TryRelease(old(lists)).0
      ensures first == (match TryRelease(old(lists)).1 case None => null case Some(x) => x)
    {
      var head, chain := Skip(toResume, lists.cache, lists.consumed);
      SkippedAreMembers(lists.cache, lists.consumed);
      if head == null {
        if awaiting == null {
          return null;
        }
        head, chain := TakeStack();
        if head == null {
          return null;
        }
      }
      first := Cache(head, chain);
    }

    constructor (desired: nat)
      ensures Valid() && counter == desired && lists == Lists([], [], {})
    {
      counter, awaiting, toResume, lists := desired, null, null, Lists([], [], {});
    }

    /** `await_ready` and `try_acquire`: takes a unit if there is one. */
    method AwaitReady() returns (taken: bool)
      modifies this`counter
      ensures taken == (old(counter) > 0) && counter == old(counter) - (if taken then 1 else 0)
    {
      taken := counter > 0;
      if taken {
        counter := counter - 1;
      }
    }

    /** `await_suspend`: enters the list, then looks at the counter once more. */
    method AwaitSuspend(self: Waiter) returns (selfWoken: bool)
      requires Valid() && self !in lists.stack && self !in lists.cache
      requires !self.consumed && self !in lists.consumed
      modifies this`counter, this`awaiting, this`lists, self
      ensures Valid() && selfWoken == (old(counter) > 0)
      ensures counter == old(counter) - (if selfWoken then 1 else 0)
      ensures lists == Suspend(old(lists), self, selfWoken)
      ensures Live(lists) == old(Live(lists)) + (if selfWoken then [] else [self])
    {
      SuspendLive(lists, self, counter > 0);
      Push(self);
      selfWoken := AwaitReady();
      if selfWoken {
        Consume(self);
      }
    }

    method Consume(self: Waiter)
      requires Valid() && self !in lists.cache
      modifies this`lists, self`consumed
      ensures Valid() && lists == old(lists).(consumed := old(lists).consumed + {self})
    {
      self.consumed := true;
      lists := lists.(consumed := lists.consumed + {self});
    }

    method Push(self: Waiter)
      requires Valid() && self !in lists.stack && self !in lists.cache
      requires !self.consumed && self !in lists.consumed
      modifies this`awaiting, this`lists, self`next
      ensures Valid() && lists == old(lists).(stack := [self] + old(lists.stack))
    {
      assert forall k :: 0 <= k < |lists.cache| ==> lists.cache[k] != self;
      Relink(self, awaiting, lists.stack);
      assert Linked(toResume, lists.cache);
      awaiting, lists := self, lists.(stack := [self] + lists.stack);
    }

    /** `try_release` seen from outside: the oldest live waiter leaves. */
    method WakeNext() returns (first: Waiter?)
      requires Valid()
      modifies this`awaiting, this`toResume, this`lists, lists.stack`next
      ensures Valid() && (lists.stack == old(lists.stack) || lists.stack == [])
      ensures first == null ==> old(Live(lists)) == [] == Live(lists)
      ensures first != null ==> old(Live(lists)) == [first] + Live(lists)
    {
      TryReleaseSeen(lists);
      first := TryReleaseOne();
    }

    /** `release(update)`: the coroutines handed to the scheduler, in order. */
    method ReleaseMany(update: nat) returns (woken: seq<Waiter>)
      requires Valid()
      modifies this, lists.stack`next
      ensures Valid() && |woken| == Min(update, |old(Live(lists))|)
      ensures woken + Live(lists) == old(Live(lists))
      ensures counter == old(counter) + update - |woken|
    {
      counter := counter + update;
      woken := [];
      ghost var live := Live(lists);
      while |woken| < update
        invariant |woken| <= update
        invariant Valid() && (lists.stack == old(lists.stack) || lists.stack == [])
        invariant woken + Live(lists) == live
        invariant counter == old(counter) + update - |woken|
      {
        ghost var before := Live(lists);
        var first := WakeNext();
        if first == null {
          break;
        }
        assert woken + before == (woken + [first]) + Live(lists);
        counter := counter - 1;
        woken := woken + [first];
      }
    }
  }

  lemma TryReleaseSeen(l: Lists<Waiter>)
    ensures var (t, first) := TryRelease(l);
            && (t.stack == l.stack || t.stack == [])
            && if first.None? then Live(l) == [] == Live(t) else Live(l) == [first.value] + Live(t)
  {
    TryReleaseTakesOldest(l);
  }

  lemma {:induction false} SkippedAreMembers(s: seq<Waiter>, consumed: set<Waiter>)
    ensures forall x :: x in SkipConsumed(s, consumed) ==> x in s
  {
    if s != [] {
      SkippedAreMembers(s[1..], consumed);
      assert forall x :: x in s[1..] ==> x in s;
    }
  }
}
