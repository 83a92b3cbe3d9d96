/** Result positions: which slot of the result tuple a child task fills. */
module ResultSlots {
  import opened Common

  predicate NonVoid(isVoid: bool) { !isVoid }

  /** The number of results, and the slot of a position: the non-void positions before it. */
  function Results(kinds: seq<bool>): nat { Count(kinds, NonVoid) }

  function SlotOf(kinds: seq<bool>, pos: nat): nat
    requires pos <= |kinds|
  {
    Count(kinds[..pos], NonVoid)
  }

  lemma SlotNext(kinds: seq<bool>, pos: nat)
    requires pos < |kinds|
    ensures SlotOf(kinds, pos + 1) == SlotOf(kinds, pos) + (if kinds[pos] then 0 else 1)
  {
    assert kinds[..pos + 1] == kinds[..pos] + [kinds[pos]];
    CountAppend(kinds[..pos], [kinds[pos]], NonVoid);
  }

  lemma {:induction false} SlotGrows(kinds: seq<bool>, i: nat, j: nat)
    requires i <= j <= |kinds|
    ensures SlotOf(kinds, i) <= SlotOf(kinds, j)
    decreases j - i
  {
    if i < j {
      SlotNext(kinds, i);
      SlotGrows(kinds, i + 1, j);
    }
  }

  /** Different non-void positions have different slots, in the same order, inside the tuple. */
  lemma SlotsInOrder(kinds: seq<bool>, i: nat, j: nat)
    requires i < j < |kinds| && !kinds[i] && !kinds[j]
    ensures SlotOf(kinds, i) < SlotOf(kinds, j) < Results(kinds)
  {
    SlotNext(kinds, i);
    SlotGrows(kinds, i + 1, j);
    SlotInside(kinds, j);
  }

  lemma SlotInside(kinds: seq<bool>, j: nat)
    requires j < |kinds| && !kinds[j]
    ensures SlotOf(kinds, j) < Results(kinds)
  {
    SlotNext(kinds, j);
    SlotGrows(kinds, j + 1, |kinds|);
    assert kinds[..|kinds|] == kinds;
  }

  /** Every slot belongs to a non-void position. */
  lemma {:induction false} SlotTaken(kinds: seq<bool>, n: nat, slot: nat) returns (pos: nat)
    requires n <= |kinds| && slot < SlotOf(kinds, n)
    ensures pos < n && !kinds[pos] && SlotOf(kinds, pos) == slot
    decreases n
  {
    SlotNext(kinds, n - 1);
    if slot < SlotOf(kinds, n - 1) {
      pos := SlotTaken(kinds, n - 1, slot);
    } else {
      pos := n - 1;
    }
  }

  /** The compile-time scan over the type list. */
  method NonVoidIdx(pos: nat, kinds: seq<bool>) returns (r: nat)
    requires pos < |kinds|
    ensures r == SlotOf(kinds, pos)
  {
    r := 0;
    var i, k := 0, 0;
    while k < |kinds|
      invariant 0 <= k <= |kinds| && i == Min(k, pos)
      invariant r == SlotOf(kinds, i)
    {
      if i != pos {
        SlotNext(kinds, i);
        if !kinds[k] {
          r := r + 1;
        }
        i := i + 1;
      }
      k := k + 1;
    }
  }
}

/** `all`: any number of children and one caller, with the atomic countdown. */
module WhenAllProtocol {
  import opened Common
  import opened ResultSlots

  datatype Pc<V> =
    | Running
    | Stored(v: V)     // result constructed, not counted down yet
    | Done(v: V)

  /** `kinds[i]` says whether child `i` returns void; `resumes` counts the resumptions of the caller. */
  datatype State<V> = State(kinds: seq<bool>, remaining: nat, storage: seq<Option<V>>, pcs: seq<Pc<V>>, resumes: nat)

  datatype Step<V> = Complete(i: nat, v: V) | CountDown(i: nat)

  function Init<V>(kinds: seq<bool>): State<V> {
    State(kinds, |kinds|, seq(Results(kinds), _ => None), seq(|kinds|, _ => Running), 0)
  }

  predicate Enabled<V>(s: State<V>, step: Step<V>) {
    && step.i < |s.pcs|
    && match step
       case Complete(i, _) => s.pcs[i].Running?
       case CountDown(i) => s.pcs[i].Stored?
  }

  function Store<V>(storage: seq<Option<V>>, slot: nat, v: V): seq<Option<V>> {
    if slot < |storage| then storage[slot := Some(v)] else storage
  }

  function Apply<V>(s: State<V>, step: Step<V>): State<V>
    requires Enabled(s, step) && |s.kinds| == |s.pcs|
  {
    match step
    case Complete(i, v) =>
      s.(pcs := s.pcs[i := Stored(v)],
         storage := if s.kinds[i] then s.storage else Store(s.storage, SlotOf(s.kinds, i), v))
    case CountDown(i) =>
      s.(remaining := (s.remaining + WORD - 1) % WORD,
         resumes := if s.remaining == 1 then s.resumes + 1 else s.resumes,
         pcs := s.pcs[i := Done(s.pcs[i].v)])
  }

  predicate NotDone<V>(pc: Pc<V>) { !pc.Done? }

  /** What the slot of a non-void child holds. */
  function Held<V>(pc: Pc<V>): Option<V> { if pc.Running? then None else Some(pc.v) }

  ghost predicate Filled<V>(s: State<V>)
    requires |s.kinds| == |s.pcs|
  {
    && |s.storage| == Results(s.kinds)
    && forall i :: 0 <= i < |s.kinds| && !s.kinds[i] ==>
         SlotOf(s.kinds, i) < |s.storage| && s.storage[SlotOf(s.kinds, i)] == Held(s.pcs[i])
  }

  ghost predicate Inv<V>(s: State<V>) {
    && |s.kinds| == |s.pcs| < WORD
    && s.remaining == Count(s.pcs, NotDone)
    && s.resumes == (if s.remaining == 0 && |s.pcs| > 0 then 1 else 0)
    && Filled(s)
  }

  lemma InitInv<V>(kinds: seq<bool>)
    requires |kinds| < WORD
    ensures Inv<V>(Init(kinds))
  {
    var s := Init<V>(kinds);
    CountAll(s.pcs, NotDone);
    forall i | 0 <= i < |kinds| && !kinds[i]
      ensures SlotOf(kinds, i) < |s.storage|
    {
      SlotInside(kinds, i);
    }
  }

  lemma {:induction false} CountAll<T>(s: seq<T>, p: T -> bool)
    requires forall x :: x in s ==> p(x)
    ensures Count(s, p) == |s|
  {
    if s != [] {
      CountAll(s[1..], p);
    }
  }

  lemma CompleteKeeps<V>(s: State<V>, i: nat, v: V)
    requires Inv(s) && Enabled(s, Complete(i, v))
    ensures Inv(Apply(s, Complete(i, v)))
    ensures !s.kinds[i] ==> s.storage[SlotOf(s.kinds, i)] == None
  {
    var t := Apply(s, Complete(i, v));
    CountUpdate(s.pcs, i, Stored(v), NotDone);
    forall j | 0 <= j < |s.kinds| && !s.kinds[j]
      ensures t.storage[SlotOf(s.kinds, j)] == Held(t.pcs[j])
    {
      if j != i && !s.kinds[i] {
        SlotsInOrder(s.kinds, if i < j then i else j, if i < j then j else i);
      }
    }
  }

  lemma CountDownKeeps<V>(s: State<V>, i: nat)
    requires Inv(s) && Enabled(s, CountDown(i))
    ensures Inv(Apply(s, CountDown(i)))
  {
    CountUpdate(s.pcs, i, Done(s.pcs[i].v), NotDone);
    CountBound(s.pcs, NotDone);
  }

  lemma StepKeeps<V>(s: State<V>, step: Step<V>)
    requires Inv(s) && Enabled(s, step)
    ensures Inv(Apply(s, step))
  {
    match step
    case Complete(i, v) => CompleteKeeps(s, i, v);
    case CountDown(i) => CountDownKeeps(s, i);
  }

  // ---- whole runs ----

  predicate Runs<V>(s: State<V>, steps: seq<Step<V>>)
    requires |s.kinds| == |s.pcs|
    decreases |steps|
  {
    steps == [] || (Enabled(s, steps[0]) && Runs(Apply(s, steps[0]), steps[1..]))
  }

  function Exec<V>(s: State<V>, steps: seq<Step<V>>): (t: State<V>)
    requires |s.kinds| == |s.pcs| && Runs(s, steps)
    decreases |steps|
    ensures t.kinds == s.kinds && |t.pcs| == |s.pcs|
  {
    if steps == [] then s else Exec(Apply(s, steps[0]), steps[1..])
  }

  lemma {:induction false} RunKeeps<V>(s: State<V>, steps: seq<Step<V>>)
    requires Inv(s) && Runs(s, steps)
    decreases |steps|
    ensures Inv(Exec(s, steps))
  {
    if steps != [] {
      StepKeeps(s, steps[0]);
      RunKeeps(Apply(s, steps[0]), steps[1..]);
    }
  }

  /** The results of the non-void children, in the order of the children. */
  function InOrder<V>(kinds: seq<bool>, pcs: seq<Pc<V>>): seq<Option<V>>
    requires |kinds| == |pcs|
  {
    if kinds == [] then []
    else (if kinds[0] then [] else [Held(pcs[0])]) + InOrder(kinds[1..], pcs[1..])
  }

  lemma {:induction false} InOrderAt<V>(kinds: seq<bool>, pcs: seq<Pc<V>>, i: nat)
    requires |kinds| == |pcs| && i < |kinds| && !kinds[i]
    ensures |InOrder(kinds, pcs)| == Results(kinds) && SlotOf(kinds, i) < Results(kinds)
    ensures InOrder(kinds, pcs)[SlotOf(kinds, i)] == Held(pcs[i])
  {
    InOrderLength(kinds, pcs);
    SlotInside(kinds, i);
    if i > 0 {
      InOrderAt(kinds[1..], pcs[1..], i - 1);
      assert kinds[..i] == [kinds[0]] + kinds[1..][..i - 1];
      assert kinds[..i][1..] == kinds[1..][..i - 1];
    }
  }

  lemma {:induction false} InOrderLength<V>(kinds: seq<bool>, pcs: seq<Pc<V>>)
    requires |kinds| == |pcs|
    ensures |InOrder(kinds, pcs)| == Results(kinds)
  {
    if kinds != [] {
      InOrderLength(kinds[1..], pcs[1..]);
    }
  }

  lemma StorageInOrder<V>(s: State<V>)
    requires |s.kinds| == |s.pcs| && Filled(s)
    ensures s.storage == InOrder(s.kinds, s.pcs)
  {
    InOrderLength(s.kinds, s.pcs);
    assert s.kinds[..|s.kinds|] == s.kinds;
    forall k | 0 <= k < |s.storage|
      ensures s.storage[k] == InOrder(s.kinds, s.pcs)[k]
    {
      var pos := SlotTaken(s.kinds, |s.kinds|, k);
      InOrderAt(s.kinds, s.pcs, pos);
    }
  }

  /** With at least one child the caller is resumed exactly when the last child has
      counted down, exactly once, and then the storage is the tuple of the non-void
      results in the order of the children. Without children it is never resumed. */
  lemma ResumedOnceAfterLast<V>(kinds: seq<bool>, steps: seq<Step<V>>)
    requires |kinds| < WORD && Runs(Init(kinds), steps)
    ensures var s := Exec(Init(kinds), steps);
            && s.resumes <= 1
            && (s.resumes == 1 <==> kinds != [] && forall i :: 0 <= i < |s.pcs| ==> s.pcs[i].Done?)
            && s.storage == InOrder(kinds, s.pcs)
            && (s.resumes == 1 ==> forall k :: 0 <= k < |s.storage| ==> s.storage[k].Some?)
  {
    InitInv<V>(kinds);
    RunKeeps(Init(kinds), steps);
    var s := Exec(Init(kinds), steps);
    CountNone(s.pcs, NotDone);
    StorageInOrder(s);
    if s.resumes == 1 {
      AllHeld(s);
    }
  }

  lemma AllHeld<V>(s: State<V>)
    requires |s.kinds| == |s.pcs| && Filled(s) && forall i :: 0 <= i < |s.pcs| ==> s.pcs[i].Done?
    ensures forall k :: 0 <= k < |s.storage| ==> s.storage[k].Some?
  {
    assert s.kinds[..|s.kinds|] == s.kinds;
    forall k | 0 <= k < |s.storage|
      ensures s.storage[k].Some?
    {
      var pos := SlotTaken(s.kinds, |s.kinds|, k);
    }
  }
}

/** `any` and `some`: the results are collected under a lock, the caller is resumed
    by the child whose completion is the needed one. */
module WhenSomeProtocol {
  import opened Common

  datatype Pc = Running | Resuming | Finished

  /** The lock-protected part of the shared state. */
  datatype Core<V> = Core(needed: nat, completed: nat, winner: Option<(nat, V)>, results: seq<(nat, V)>, resumed: bool)

  /** `on_complete`. */
  function OnComplete<V>(c: Core<V>, idx: nat, v: V): (Core<V>, bool) {
    if c.resumed then (c, false)
    else
      var done := c.completed + 1 >= c.needed;
      (Core(c.needed, c.completed + 1, if c.completed == 0 then Some((idx, v)) else c.winner,
            c.results + [(idx, v)], done), done)
  }

  /** `order` is the history of completions, `taken` what the caller was resumed with
      (the winner and the results) and `resumes` how often it was. */
  datatype State<V> = State(core: Core<V>, pcs: seq<Pc>, order: seq<(nat, V)>,
                            resumes: nat, taken: Option<(Option<(nat, V)>, seq<(nat, V)>)>)

  datatype Step<V> = Complete(i: nat, v: V) | ResumeCaller(i: nat)

  function Init<V>(need: nat, n: nat): State<V> {
    State(Core(need, 0, None, [], false), seq(n, _ => Running), [], 0, None)
  }

  predicate Enabled<V>(s: State<V>, step: Step<V>) {
    && step.i < |s.pcs|
    && match step
       case Complete(i, _) => s.pcs[i].Running?
       case ResumeCaller(i) => s.pcs[i].Resuming?
  }

  function Apply<V>(s: State<V>, step: Step<V>): State<V>
    requires Enabled(s, step)
  {
    match step
    case Complete(i, v) =>
      var (core, done) := OnComplete(s.core, i, v);
      s.(core := core, pcs := s.pcs[i := if done then Resuming else Finished], order := s.order + [(i, v)])
    case ResumeCaller(i) =>
      s.(core := s.core.(resumed := true, results := []), pcs := s.pcs[i := Finished],
         resumes := s.resumes + 1, taken := Some((s.core.winner, s.core.results)))
  }

  /** How many completions the caller waits for: a need of zero acts like one. */
  function Quota(need: nat): nat { if need == 0 then 1 else need }

  predicate IsRunning(pc: Pc) { pc.Running? }

  predicate IsResuming(pc: Pc) { pc.Resuming? }

  ghost predicate Inv<V>(need: nat, n: nat, s: State<V>) {
    var q := Quota(need);
    && |s.pcs| == n && |s.order| + Count(s.pcs, IsRunning) == n
    && s.core.needed == need
    && (s.core.resumed <==> |s.order| >= q)
    && (!s.core.resumed ==> s.core.completed == |s.order| && s.core.results == s.order)
    && s.core.winner == (if s.order == [] then None else Some(s.order[0]))
    && s.resumes + Count(s.pcs, IsResuming) == (if s.core.resumed then 1 else 0)
    && (s.core.resumed && s.resumes == 0 ==> s.core.results == s.order[..q])
    && (s.taken == if s.resumes == 0 then None else if |s.order| >= q then Some((Some(s.order[0]), s.order[..q])) else None)
  }

  lemma {:induction false} InitCounts(n: nat)
    ensures Count(seq(n, _ => Running), IsRunning) == n && Count(seq(n, _ => Running), IsResuming) == 0
  {
    var s := seq(n, _ => Running);
    if n > 0 {
      InitCounts(n - 1);
      assert s[1..] == seq(n - 1, _ => Running);
    }
  }

  lemma CompleteKeeps<V>(need: nat, n: nat, s: State<V>, i: nat, v: V)
    requires Inv(need, n, s) && Enabled(s, Complete(i, v))
    ensures Inv(need, n, Apply(s, Complete(i, v)))
  {
    var q, t := Quota(need), Apply(s, Complete(i, v));
    CountUpdate(s.pcs, i, t.pcs[i], IsRunning);
    CountUpdate(s.pcs, i, t.pcs[i], IsResuming);
    if s.core.resumed {
      assert t.order[..q] == s.order[..q];
    } else if t.core.resumed {
      assert t.order[..q] == t.order;
    }
  }

  lemma ResumeKeeps<V>(need: nat, n: nat, s: State<V>, i: nat)
    requires Inv(need, n, s) && Enabled(s, ResumeCaller(i))
    ensures Inv(need, n, Apply(s, ResumeCaller(i)))
  {
    CountUpdate(s.pcs, i, Finished, IsRunning);
    CountUpdate(s.pcs, i, Finished, IsResuming);
  }

  lemma StepKeeps<V>(need: nat, n: nat, s: State<V>, step: Step<V>)
    requires Inv(need, n, s) && Enabled(s, step)
    ensures Inv(need, n, Apply(s, step))
  {
    match step
    case Complete(i, v) => CompleteKeeps(need, n, s, i, v);
    case ResumeCaller(i) => ResumeKeeps(need, n, s, i);
  }

  // ---- whole runs ----

  predicate Runs<V>(s: State<V>, steps: seq<Step<V>>)
    decreases |steps|
  {
    steps == [] || (Enabled(s, steps[0]) && Runs(Apply(s, steps[0]), steps[1..]))
  }

  function Exec<V>(s: State<V>, steps: seq<Step<V>>): State<V>
    requires Runs(s, steps)
    decreases |steps|
  {
    if steps == [] then s else Exec(Apply(s, steps[0]), steps[1..])
  }

  lemma {:induction false} RunKeeps<V>(need: nat, n: nat, s: State<V>, steps: seq<Step<V>>)
    requires Inv(need, n, s) && Runs(s, steps)
    decreases |steps|
    ensures Inv(need, n, Exec(s, steps))
  {
    if steps != [] {
      StepKeeps(need, n, s, steps[0]);
      RunKeeps(need, n, Apply(s, steps[0]), steps[1..]);
    }
  }

  /** The caller is resumed at most once, and if it is, with the winner and exactly
      the first completions, as many as it needs (one for a need of zero), whatever
      completed before the resumption or completes after it. */
  lemma FirstOnes<V>(need: nat, n: nat, steps: seq<Step<V>>)
    requires Runs(Init(need, n), steps)
    ensures var s := Exec(Init(need, n), steps);
            && s.resumes <= 1
            && (s.resumes == 0 ==> s.taken == None)
            && (s.resumes == 1 ==> |s.order| >= Quota(need) && s.taken == Some((Some(s.order[0]), s.order[..Quota(need)])))
  {
    StartInv<V>(need, n);
    RunKeeps(need, n, Init(need, n), steps);
  }

  lemma StartInv<V>(need: nat, n: nat)
    ensures Inv<V>(need, n, Init(need, n))
  {
    InitCounts(n);
  }

  /** Once every child is through, the caller has been resumed if and only if there
      were as many children as it needs. */
  lemma ResumedIffEnough<V>(need: nat, n: nat, steps: seq<Step<V>>)
    requires Runs(Init(need, n), steps)
    requires forall pc :: pc in Exec(Init(need, n), steps).pcs ==> pc.Finished?
    ensures Exec(Init(need, n), steps).resumes == if Quota(need) <= n then 1 else 0
  {
    StartInv<V>(need, n);
    RunKeeps(need, n, Init(need, n), steps);
    var s := Exec(Init(need, n), steps);
    assert forall i :: 0 <= i < |s.pcs| ==> s.pcs[i] in s.pcs;
    CountNone(s.pcs, IsRunning);
    CountNone(s.pcs, IsResuming);
  }
}

/** The shared states of `all`, `any` and `some`, updated in place. */
module WhenHeap {
  import opened Common
  import opened WhenSomeProtocol
  import WhenAllProtocol

  class AllState<V> {
    var remaining: nat
    const storage: array<Option<V>>

    constructor (n: nat, results: nat)
      ensures remaining == n && fresh(storage) && storage[..] == seq(results, _ => None)
    {
      remaining := n;
      storage := new Option<V>[results](_ => None);
    }

    method Construct(slot: nat, v: V)
      requires slot < storage.Length && storage[slot] == None
      modifies storage
      ensures storage[..] == WhenAllProtocol.Store(old(storage[..]), slot, v)
    {
      storage[slot] := Some(v);
    }

    /** True for the child that has to resume the caller. */
    method CountDown() returns (last: bool)
      requires remaining < WORD
      modifies this`remaining
      ensures remaining == (old(remaining) + WORD - 1) % WORD
      ensures last == (old(remaining) == 1)
    {
      var before := remaining;
      remaining := if before == 0 then WORD - 1 else before - 1;
      last := before == 1;
    }

    /** The result tuple, once every slot is constructed. */
    method Take() returns (results: seq<V>)
      requires forall k :: 0 <= k < storage.Length ==> storage[k].Some?
      ensures |results| == storage.Length && forall k :: 0 <= k < |results| ==> storage[k] == Some(results[k])
    {
      results := [];
      while |results| < storage.Length
        invariant |results| <= storage.Length
        invariant forall k :: 0 <= k < |results| ==> storage[k] == Some(results[k])
      {
        results := results + [storage[|results|].value];
      }
    }
  }

  class AnyState<V> {
    const needed: nat
    var completed: nat
    var winner: Option<(nat, V)>
    var results: seq<(nat, V)>
    var resumed: bool

    function View(): Core<V>
      reads this
    {
      Core(needed, completed, winner, results, resumed)
    }

    constructor (needed: nat)
      ensures View() == Init<V>(needed, 0).core
    {
      this.needed := needed;
      completed, winner, results, resumed := 0, None, [], false;
    }

    method Complete(idx: nat, v: V) returns (resume: bool)
      modifies this
      ensures (View(), resume) == OnComplete(old(View()), idx, v)
    {
      if resumed {
        return false;
      }
      if completed == 0 {
        winner := Some((idx, v));
      }
      results := results + [(idx, v)];
      var prev := completed;
      completed := prev + 1;
      var done := prev + 1 >= needed;
      if done {
        resumed := true;
      }
      resume := done;
    }

    /** `await_resume` of `some`: the results move out to the caller. */
    method TakeResults() returns (taken: seq<(nat, V)>)
      modifies this`resumed, this`results
      ensures taken == old(results) && View() == old(View()).(resumed := true, results := [])
    {
      resumed := true;
      taken := results;
      results := [];
    }
  }
}
