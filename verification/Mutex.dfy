/** The shared words of the coroutine mutex and what each atomic access does to
    them. `T` is whatever stands for a waiter: a coroutine number in the
    protocol, a list node in the heap model. */
module MutexWords {
  import opened Common

  /** The atomic word: free, or held with the stack of waiters it points to, newest first. */
  datatype Word<T> = Free | Held(stack: seq<T>)

  /** The machine value a compare-and-swap compares: 1, 0, or a node pointer. */
  datatype Raw<T> = NotLocked | NoWaiters | Pointer(node: T)

  function RawOf<T>(w: Word<T>): Raw<T> {
    match w
    case Free => NotLocked
    case Held(stack) => if stack == [] then NoWaiters else Pointer(stack[0])
  }

  /** `try_lock`: one strong compare-and-swap from free to held. */
  function TryLock<T>(w: Word<T>): (Word<T>, bool) {
    if w.Free? then (Held([]), true) else (w, false)
  }

  datatype Attempt<T> = Acquired | Suspended | Again(seen: Raw<T>)

  /** One turn of the registration loop of waiter `self`, which last saw `seen`.
      A weak compare-and-swap may fail although the values agree. */
  function Register<T(==)>(w: Word<T>, self: T, seen: Raw<T>, spurious: bool): (Word<T>, Attempt<T>) {
    if RawOf(w) != seen || spurious then (w, Again(RawOf(w)))
    else if seen.NotLocked? then (Held([]), Acquired)
    else (Held([self] + (if w.Held? then w.stack else [])), Suspended)
  }

  /** The unlocking compare-and-swap from held-without-waiters to free. */
  function ReleaseIfAlone<T(==)>(w: Word<T>): (Word<T>, bool) {
    if w == Held([]) then (Free, true) else (w, false)
  }

  /** The unlocking exchange: takes the whole stack, returned oldest first. */
  function TakeWaiters<T>(w: Word<T>): (Word<T>, seq<T>)
    requires w.Held?
  {
    (Held([]), Reverse(w.stack))
  }
}

/** What the mutex promises to everything built on it: an owner and a queue
    served in order of arrival. */
module FifoLock {
  import opened Common

  datatype Lock<T> = Lock(owner: Option<T>, queue: seq<T>)

  /** Nobody waits for a free lock. */
  predicate LockOk<T>(l: Lock<T>) {
    l.owner.None? ==> l.queue == []
  }

  /** Registering: owns a free lock at once, waits behind everybody else otherwise. */
  function Register<T>(l: Lock<T>, x: T): Lock<T> {
    if l.owner.None? then l.(owner := Some(x)) else l.(queue := l.queue + [x])
  }

  /** Unlocking: the waiter that came first becomes the owner. */
  function Unlock<T>(l: Lock<T>): Lock<T> {
    if l.queue == [] then l.(owner := None) else Lock(Some(l.queue[0]), l.queue[1..])
  }
}

/** Any number of coroutines using one mutex, one atomic access per step. */
module MutexProtocol {
  import opened Common
  import opened MutexWords
  import FifoLock

  type Id = nat

  /** Where a coroutine stands inside `lock`, `try_lock` or `unlock`. */
  datatype Pc =
    | Idle
    | Loaded(seen: Raw<Id>)           // inside the registration loop
    | Queued                          // suspended as a list node
    | Owner                           // holds the lock
    | ReleaseCas                      // found no cached waiter
    | ReleaseSwap                     // its compare-and-swap failed
    | ReleaseHand(chain: seq<Id>)     // holds a non-empty list, oldest first

  predicate Holding(pc: Pc) {
    pc.Owner? || pc.ReleaseCas? || pc.ReleaseSwap? || pc.ReleaseHand?
  }

  /** `holder` is a history variable; every other component is in the program. */
  datatype State = State(word: Word<Id>, toResume: seq<Id>, pcs: seq<Pc>, holder: Option<Id>)

  datatype Step =
    | TryLockStep(i: Id)
    | LoadWord(i: Id)
    | RegisterStep(i: Id, spurious: bool)
    | ReadCache(i: Id)
    | UnlockCas(i: Id)
    | UnlockSwap(i: Id)
    | HandOver(i: Id)

  function Init(n: nat): State {
    State(Free, [], seq(n, _ => Idle), None)
  }

  predicate Enabled(s: State, step: Step) {
    && step.i < |s.pcs|
    && match step
       case TryLockStep(i) => s.pcs[i].Idle?
       case LoadWord(i) => s.pcs[i].Idle?
       case RegisterStep(i, _) => s.pcs[i].Loaded?
       case ReadCache(i) => s.pcs[i].Owner?
       case UnlockCas(i) => s.pcs[i].ReleaseCas?
       case UnlockSwap(i) => s.pcs[i].ReleaseSwap? && s.word.Held?
       case HandOver(i) => s.pcs[i].ReleaseHand? && s.pcs[i].chain != [] && s.pcs[i].chain[0] < |s.pcs|
  }

  function Apply(s: State, step: Step): State
    requires Enabled(s, step)
  {
    match step
    case TryLockStep(i) =>
      var (w, ok) := TryLock(s.word);
      if ok then s.(word := w, pcs := s.pcs[i := Owner], holder := Some(i)) else s
    case LoadWord(i) =>
      s.(pcs := s.pcs[i := Loaded(RawOf(s.word))])
    case RegisterStep(i, spurious) =>
      var (w, result) := Register(s.word, i, s.pcs[i].seen, spurious);
      (match result
       case Acquired => s.(word := w, pcs := s.pcs[i := Owner], holder := Some(i))
       case Suspended => s.(word := w, pcs := s.pcs[i := Queued])
       case Again(seen) => s.(pcs := s.pcs[i := Loaded(seen)]))
    case ReadCache(i) =>
      s.(pcs := s.pcs[i := if s.toResume == [] then ReleaseCas else ReleaseHand(s.toResume)])
    case UnlockCas(i) =>
      var (w, freed) := ReleaseIfAlone(s.word);
      if freed then s.(word := w, pcs := s.pcs[i := Idle], holder := None)
      else s.(pcs := s.pcs[i := ReleaseSwap])
    case UnlockSwap(i) =>
      var (w, chain) := TakeWaiters(s.word);
      s.(word := w, pcs := s.pcs[i := ReleaseHand(chain)])
    case HandOver(i) =>
      var chain := s.pcs[i].chain;
      s.(toResume := chain[1..], pcs := s.pcs[i := Idle][chain[0] := Owner], holder := Some(chain[0]))
  }

  // ---- the refinement ----

  /** The oldest-first list the holder owns privately. */
  function Cached(s: State): seq<Id> {
    if s.holder.Some? && s.holder.value < |s.pcs| && s.pcs[s.holder.value].ReleaseHand?
    then s.pcs[s.holder.value].chain
    else s.toResume
  }

  function Queue(s: State): seq<Id> {
    Cached(s) + (if s.word.Held? then Reverse(s.word.stack) else [])
  }

  function Abs(s: State): FifoLock.Lock<Id> {
    FifoLock.Lock(s.holder, Queue(s))
  }

  /** What an atomic access means to the abstract lock. */
  datatype Event = Silent | Registered(i: Id) | Unlocked

  function LockApply(l: FifoLock.Lock<Id>, e: Event): FifoLock.Lock<Id> {
    match e
    case Silent => l
    case Registered(i) => FifoLock.Register(l, i)
    case Unlocked => FifoLock.Unlock(l)
  }

  ghost predicate HolderInv(s: State) {
    && (s.holder.Some? ==> s.holder.value < |s.pcs|)
    && (forall i :: 0 <= i < |s.pcs| ==> (Holding(s.pcs[i]) <==> s.holder == Some(i)))
    && (s.word.Free? <==> s.holder.None?)
    && (s.holder.None? ==> s.toResume == [])
  }

  ghost predicate ReleaseInv(s: State)
    requires HolderInv(s)
  {
    s.holder.Some? ==>
      var pc := s.pcs[s.holder.value];
      && (pc.ReleaseCas? ==> s.toResume == [])
      && (pc.ReleaseSwap? ==> s.toResume == [] && s.word.stack != [])
      && (pc.ReleaseHand? ==> pc.chain != [] && (s.toResume == [] || s.toResume == pc.chain))
  }

  predicate IsQueued(pc: Pc) {
    pc.Queued?
  }

  /** The queue holds each suspended coroutine exactly once and no other. */
  ghost predicate Inv(s: State) {
    HolderInv(s) && ReleaseInv(s) && Tracks(Queue(s), s.pcs, IsQueued)
  }

  /** What the step does at the level of the abstract lock. */
  function EventOf(s: State, step: Step): Event
    requires Enabled(s, step)
  {
    match step
    case TryLockStep(i) => if s.word.Free? then Registered(i) else Silent
    case LoadWord(i) => Silent
    case RegisterStep(i, spurious) =>
      (match Register(s.word, i, s.pcs[i].seen, spurious).1
       case Again(_) => Silent
       case _ => Registered(i))
    case ReadCache(i) => Silent
    case UnlockCas(i) => if ReleaseIfAlone(s.word).1 then Unlocked else Silent
    case UnlockSwap(i) => Silent
    case HandOver(i) => Unlocked
  }

  lemma InitInv(n: nat)
    ensures Inv(Init(n)) && Abs(Init(n)) == FifoLock.Lock(None, [])
  {
  }

  lemma AcquireRefines(s: State, step: Step)
    requires Inv(s) && Enabled(s, step) && EventOf(s, step).Registered? && s.word.Free?
    ensures Inv(Apply(s, step))
    ensures Abs(Apply(s, step)) == LockApply(Abs(s), EventOf(s, step))
  {
    var t := Apply(s, step);
    assert s.word.Free?;
    assert t == s.(word := Held([]), pcs := s.pcs[step.i := Owner], holder := Some(step.i));
    assert Queue(s) == [] == Queue(t);
    TracksKeep(Queue(s), s.pcs, IsQueued, step.i, Owner);
  }

  /** A node pushed on the stack is last in the queue. */
  lemma PushedQueue(s: State, t: State, i: Id)
    requires s.word.Held? && i < |s.pcs| && (s.holder != Some(i))
    requires t == s.(word := Held([i] + s.word.stack), pcs := s.pcs[i := Queued])
    ensures Cached(t) == Cached(s) && Queue(t) == Queue(s) + [i]
  {
    ReversePush(i, s.word.stack);
    assert (Cached(s) + Reverse(s.word.stack)) + [i] == Cached(s) + (Reverse(s.word.stack) + [i]);
  }

  lemma EnqueueRefines(s: State, step: Step)
    requires Inv(s) && Enabled(s, step) && EventOf(s, step).Registered? && s.word.Held?
    ensures Inv(Apply(s, step))
    ensures Abs(Apply(s, step)) == LockApply(Abs(s), EventOf(s, step))
  {
    var t := Apply(s, step);
    assert step.RegisterStep? && t == s.(word := Held([step.i] + s.word.stack), pcs := s.pcs[step.i := Queued]);
    PushedQueue(s, t, step.i);
    TracksPush(Queue(s), s.pcs, IsQueued, step.i, Queued);
  }

  lemma PassOnRefines(s: State, step: Step)
    requires Inv(s) && Enabled(s, step) && step.HandOver?
    ensures Inv(Apply(s, step))
    ensures Abs(Apply(s, step)) == FifoLock.Unlock(Abs(s))
  {
    var t := Apply(s, step);
    var chain := s.pcs[step.i].chain;
    assert s.holder == Some(step.i);
    assert Queue(s)[0] == chain[0];
    assert Queue(t) == Queue(s)[1..];
    TracksKeep(Queue(s), s.pcs, IsQueued, step.i, Idle);
    TracksPop(Queue(s), s.pcs[step.i := Idle], IsQueued, Owner);
  }

  lemma OutsideRefines(s: State, step: Step)
    requires Inv(s) && Enabled(s, step) && EventOf(s, step).Silent?
    requires step.TryLockStep? || step.LoadWord? || step.RegisterStep?
    ensures Inv(Apply(s, step)) && Abs(Apply(s, step)) == Abs(s)
  {
    var t := Apply(s, step);
    assert t == s.(pcs := s.pcs[step.i := t.pcs[step.i]]);
    assert Queue(t) == Queue(s);
    TracksKeep(Queue(s), s.pcs, IsQueued, step.i, t.pcs[step.i]);
  }

  lemma ReadCacheRefines(s: State, step: Step)
    requires Inv(s) && Enabled(s, step) && step.ReadCache?
    ensures Inv(Apply(s, step)) && Abs(Apply(s, step)) == Abs(s)
  {
    var t := Apply(s, step);
    assert t == s.(pcs := s.pcs[step.i := t.pcs[step.i]]);
    assert Cached(t) == s.toResume;
    TracksKeep(Queue(s), s.pcs, IsQueued, step.i, t.pcs[step.i]);
  }

  lemma UnlockCasRefines(s: State, step: Step)
    requires Inv(s) && Enabled(s, step) && step.UnlockCas?
    ensures Inv(Apply(s, step))
    ensures Abs(Apply(s, step)) == LockApply(Abs(s), EventOf(s, step))
  {
    var t := Apply(s, step);
    assert s.holder == Some(step.i);
    assert Cached(t) == s.toResume == [];
    assert Queue(t) == Queue(s);
    TracksKeep(Queue(s), s.pcs, IsQueued, step.i, t.pcs[step.i]);
  }

  lemma UnlockSwapRefines(s: State, step: Step)
    requires Inv(s) && Enabled(s, step) && step.UnlockSwap?
    ensures Inv(Apply(s, step)) && Abs(Apply(s, step)) == Abs(s)
  {
    var t := Apply(s, step);
    assert s.holder == Some(step.i);
    assert Queue(t) == Queue(s) == Reverse(s.word.stack);
    TracksKeep(Queue(s), s.pcs, IsQueued, step.i, t.pcs[step.i]);
  }

  /** Nobody hands the mutex to itself. */
  lemma HandedElsewhere(s: State, i: Id)
    requires Inv(s) && i < |s.pcs| && s.pcs[i].ReleaseHand?
    ensures var chain := s.pcs[i].chain;
            chain != [] && chain[0] < |s.pcs| && s.pcs[chain[0]].Queued? && Queue(s) != [] && Queue(s)[0] == chain[0]
  {
    assert Queue(s)[0] == s.pcs[i].chain[0];
    assert s.pcs[i].chain[0] in Queue(s);
  }

  /** The step leaves its coroutine outside only if it completed an unlock or was a
      `try_lock` of a held mutex, and whoever has to retry has seen the current word. */
  predicate Settles(s: State, step: Step)
    requires Enabled(s, step)
  {
    var t := Apply(s, step);
    && step.i < |t.pcs|
    && (t.pcs[step.i].Idle? <==> EventOf(s, step).Unlocked? || (step.TryLockStep? && s.holder.Some?))
    && (t.pcs[step.i].Loaded? ==> t.pcs[step.i].seen == RawOf(t.word))
  }

  lemma Settled(s: State, step: Step)
    requires Inv(s) && Enabled(s, step)
    ensures Settles(s, step)
  {
    if step.HandOver? {
      HandedElsewhere(s, step.i);
    }
  }

  /** Every atomic step keeps the invariant and is one step, or no step, of the abstract
      lock, and settles where its coroutine goes. */
  lemma Refines(s: State, step: Step)
    requires Inv(s) && Enabled(s, step)
    ensures Inv(Apply(s, step))
    ensures Abs(Apply(s, step)) == LockApply(Abs(s), EventOf(s, step))
    ensures Settles(s, step)
  {
    Settled(s, step);
    match step
    case HandOver(_) => PassOnRefines(s, step);
    case ReadCache(_) => ReadCacheRefines(s, step);
    case UnlockCas(_) => UnlockCasRefines(s, step);
    case UnlockSwap(_) => UnlockSwapRefines(s, step);
    case _ =>
      match EventOf(s, step) {
        case Silent => OutsideRefines(s, step);
        case _ =>
          if s.word.Free? {
            AcquireRefines(s, step);
          } else {
            EnqueueRefines(s, step);
          }
      }
  }

  // ---- whole runs ----

  predicate Runs(s: State, steps: seq<Step>)
    decreases |steps|
  {
    steps == [] || (Enabled(s, steps[0]) && Runs(Apply(s, steps[0]), steps[1..]))
  }

  function Exec(s: State, steps: seq<Step>): State
    requires Runs(s, steps)
    decreases |steps|
  {
    if steps == [] then s else Exec(Apply(s, steps[0]), steps[1..])
  }

  function Events(s: State, steps: seq<Step>): seq<Event>
    requires Runs(s, steps)
    decreases |steps|
  {
    if steps == [] then [] else [EventOf(s, steps[0])] + Events(Apply(s, steps[0]), steps[1..])
  }

  function LockExec(l: FifoLock.Lock<Id>, events: seq<Event>): FifoLock.Lock<Id>
    decreases |events|
  {
    if events == [] then l else LockExec(LockApply(l, events[0]), events[1..])
  }

  /** A run of the program is a run of the abstract first-in first-out lock. */
  lemma {:induction false} RunRefines(s: State, steps: seq<Step>)
    requires Inv(s) && Runs(s, steps)
    decreases |steps|
    ensures Inv(Exec(s, steps))
    ensures Abs(Exec(s, steps)) == LockExec(Abs(s), Events(s, steps))
  {
    if steps != [] {
      Refines(s, steps[0]);
      var t := Apply(s, steps[0]);
      RunRefines(t, steps[1..]);
      assert Events(s, steps)[1..] == Events(t, steps[1..]);
    }
  }

  /** In no run does a coroutine get the mutex past another: whenever it is
      acquired without having waited, it was free and nobody waits. */
  lemma NoBarging(n: nat, steps: seq<Step>, step: Step)
    requires Runs(Init(n), steps)
    requires var s := Exec(Init(n), steps);
             Enabled(s, step) && !Holding(s.pcs[step.i]) && Holding(Apply(s, step).pcs[step.i])
    ensures var s := Exec(Init(n), steps);
            s.holder == None && Queue(s) == [] && Queue(Apply(s, step)) == [] && FifoLock.LockOk(Abs(s))
  {
    InitInv(n);
    RunRefines(Init(n), steps);
    DirectAcquire(Exec(Init(n), steps), step);
  }

  lemma DirectAcquire(s: State, step: Step)
    requires Inv(s) && Enabled(s, step) && !Holding(s.pcs[step.i]) && Holding(Apply(s, step).pcs[step.i])
    ensures s.word.Free? && s.holder == None && Queue(s) == [] && Queue(Apply(s, step)) == []
    ensures FifoLock.LockOk(Abs(s))
  {
    assert step.TryLockStep? || step.RegisterStep?;
    assert s.word.Free?;
    AcquireRefines(s, step);
  }

  /** At most one coroutine is between acquiring and releasing, in every run of any length. */
  lemma MutualExclusion(n: nat, steps: seq<Step>, i: Id, j: Id)
    requires Runs(Init(n), steps)
    requires i < |Exec(Init(n), steps).pcs| && j < |Exec(Init(n), steps).pcs|
    requires Holding(Exec(Init(n), steps).pcs[i]) && Holding(Exec(Init(n), steps).pcs[j])
    ensures i == j
  {
    InitInv(n);
    RunRefines(Init(n), steps);
  }

  /** How much of its `lock` and of the `unlock` to follow a coroutine has before it, given the word. */
  function Work(word: Word<Id>, pc: Pc): nat {
    match pc
    case Idle => 0
    case Loaded(seen) => if seen == RawOf(word) then 6 else 7
    case Queued => 5
    case Owner => 4
    case ReleaseCas => 3
    case ReleaseSwap => 2
    case ReleaseHand(_) => 1
  }

  /** A coroutine that is not suspended can always take its next step: the program's
      own assertions inside `unlock` hold in every reachable state. The step brings it
      closer to the end of its `unlock`, and past that end only by completing it. */
  lemma NeverStuck(s: State, i: Id) returns (step: Step)
    requires Inv(s) && i < |s.pcs| && !s.pcs[i].Queued?
    ensures step.i == i && Enabled(s, step) && i < |Apply(s, step).pcs|
    ensures var t := Apply(s, step);
            && (s.pcs[i].Idle? ==> t.pcs[i].Loaded?)
            && (!s.pcs[i].Idle? ==> Work(t.word, t.pcs[i]) < Work(s.word, s.pcs[i]))
            && (t.pcs[i].Idle? <==> EventOf(s, step).Unlocked?)
            && (t.pcs[i].Queued? || (s.pcs[i].Loaded? && t.pcs[i].Owner?) <==> EventOf(s, step) == Registered(i))
  {
    match s.pcs[i]
    case Idle => step := LoadWord(i);
    case Loaded(_) => step := RegisterStep(i, false);
    case Owner => step := ReadCache(i);
    case ReleaseCas => step := UnlockCas(i);
    case ReleaseSwap => step := UnlockSwap(i);
    case ReleaseHand(chain) =>
      HandedElsewhere(s, i);
      step := HandOver(i);
  }

  /** `try_lock` either takes a free mutex or changes nothing. */
  lemma TryLockTakesFree(s: State, i: Id)
    requires Inv(s) && Enabled(s, TryLockStep(i))
    ensures var t := Apply(s, TryLockStep(i));
            if s.holder.None? then Abs(t) == FifoLock.Lock(Some(i), []) && t.pcs == s.pcs[i := Owner] else t == s
  {
    if s.holder.None? {
      AcquireRefines(s, TryLockStep(i));
    }
  }

  /** A turn that meets the word it last saw registers; any other only learns the current word. */
  lemma TurnRegistersIff(s: State, i: Id)
    requires Inv(s) && Enabled(s, RegisterStep(i, false))
    ensures var t := Apply(s, RegisterStep(i, false));
            if s.pcs[i].seen == RawOf(s.word)
            then Abs(t) == FifoLock.Register(Abs(s), i) && t.pcs == s.pcs[i := if s.holder.None? then Owner else Queued]
            else t == s.(pcs := s.pcs[i := Loaded(RawOf(s.word))])
  {
    Refines(s, RegisterStep(i, false));
  }

  /** So a `lock` that nobody disturbs registers in its second turn at the latest. */
  lemma SecondTurnRegisters(s: State, i: Id)
    requires Inv(s) && Enabled(s, RegisterStep(i, false)) && s.pcs[i].seen != RawOf(s.word)
    ensures var t := Apply(s, RegisterStep(i, false));
            && Enabled(t, RegisterStep(i, false))
            && var u := Apply(t, RegisterStep(i, false));
               Abs(u) == FifoLock.Register(Abs(s), i) && u.pcs == s.pcs[i := if s.holder.None? then Owner else Queued]
  {
    TurnRegistersIff(s, i);
    Refines(s, RegisterStep(i, false));
    var t := Apply(s, RegisterStep(i, false));
    TurnRegistersIff(t, i);
    assert t.pcs[i := if s.holder.None? then Owner else Queued] == s.pcs[i := if s.holder.None? then Owner else Queued];
  }

  /** Another coroutine's step moves a coroutine only from the queue to ownership. */
  lemma OthersOnlyHandOver(s: State, step: Step, i: Id)
    requires Inv(s) && Enabled(s, step) && i < |s.pcs| && i != step.i
    ensures i < |Apply(s, step).pcs|
    ensures Apply(s, step).pcs[i] ==
            if EventOf(s, step).Unlocked? && Queue(s) != [] && Queue(s)[0] == i then Owner else s.pcs[i]
  {
    if step.HandOver? {
      HandedElsewhere(s, step.i);
      assert s.holder == Some(step.i) && Queue(s)[0] == s.pcs[step.i].chain[0];
    }
  }

  // ---- an attempt lasts from `lock` to the end of the `unlock` ----

  /** Whether `i` is between the start of its `lock` and the end of its `unlock`, told
      by the steps and the words they met; it was so before them if `inside`. */
  function Inside(s: State, steps: seq<Step>, i: Id, inside: bool): bool
    requires Runs(s, steps)
    decreases |steps|
  {
    if steps == [] then inside
    else
      var enters := steps[0] == LoadWord(i) || (steps[0] == TryLockStep(i) && s.word.Free?);
      var leaves := steps[0] == HandOver(i) || (steps[0] == UnlockCas(i) && s.word == Held([]));
      Inside(Apply(s, steps[0]), steps[1..], i, (inside || enters) && !leaves)
  }

  lemma InsideStep(s: State, step: Step, i: Id)
    requires Inv(s) && Enabled(s, step) && i < |s.pcs|
    ensures Inv(Apply(s, step)) && i < |Apply(s, step).pcs|
    ensures var enters := step == LoadWord(i) || (step == TryLockStep(i) && s.word.Free?);
            var leaves := step == HandOver(i) || (step == UnlockCas(i) && s.word == Held([]));
            !Apply(s, step).pcs[i].Idle? <==> (!s.pcs[i].Idle? || enters) && !leaves
  {
    Refines(s, step);
    if step.i != i {
      OthersOnlyHandOver(s, step, i);
      assert s.pcs[i].Idle? ==> i !in Queue(s);
    }
  }

  /** Once begun, a `lock` is registering, queued or holding until its unlock completes. */
  lemma {:induction false} InsideUntilUnlocked(s: State, steps: seq<Step>, i: Id)
    requires Inv(s) && Runs(s, steps) && i < |s.pcs|
    decreases |steps|
    ensures i < |Exec(s, steps).pcs|
    ensures !Exec(s, steps).pcs[i].Idle? <==> Inside(s, steps, i, !s.pcs[i].Idle?)
  {
    if steps != [] {
      InsideStep(s, steps[0], i);
      InsideUntilUnlocked(Apply(s, steps[0]), steps[1..], i);
    }
  }

  function OwnSteps(steps: seq<Step>, i: Id): nat {
    if steps == [] then 0 else (if steps[0].i == i then 1 else 0) + OwnSteps(steps[1..], i)
  }

  predicate InUnlock(step: Step) {
    step.ReadCache? || step.UnlockCas? || step.UnlockSwap? || step.HandOver?
  }

  /** An `unlock` takes at most four steps of its coroutine, whatever the others do meanwhile. */
  lemma {:induction false} UnlockTakesFour(s: State, steps: seq<Step>, i: Id)
    requires Inv(s) && Runs(s, steps) && i < |s.pcs| && (Holding(s.pcs[i]) || s.pcs[i].Idle?)
    requires forall k :: 0 <= k < |steps| && steps[k].i == i ==> InUnlock(steps[k])
    decreases |steps|
    ensures var t := Exec(s, steps);
            && i < |t.pcs| && (Holding(t.pcs[i]) || t.pcs[i].Idle?)
            && OwnSteps(steps, i) + Work(t.word, t.pcs[i]) <= Work(s.word, s.pcs[i]) <= 4
  {
    if steps != [] {
      var t := Apply(s, steps[0]);
      Refines(s, steps[0]);
      UnlockStepWorks(s, steps[0], i);
      UnlockTakesFour(t, steps[1..], i);
    }
  }

  lemma UnlockStepWorks(s: State, step: Step, i: Id)
    requires Inv(s) && Enabled(s, step) && i < |s.pcs| && (Holding(s.pcs[i]) || s.pcs[i].Idle?)
    requires step.i == i ==> InUnlock(step)
    ensures var t := Apply(s, step);
            && i < |t.pcs| && (Holding(t.pcs[i]) || t.pcs[i].Idle?)
            && (if step.i == i then 1 else 0) + Work(t.word, t.pcs[i]) <= Work(s.word, s.pcs[i]) <= 4
  {
    if step.i != i {
      OthersOnlyHandOver(s, step, i);
      assert i !in Queue(s);
    } else if step.HandOver? {
      HandedElsewhere(s, i);
    }
  }

  /** The number of completed unlocks among the events. */
  function Unlocks(events: seq<Event>): nat {
    if events == [] then 0
    else (if events[0].Unlocked? then 1 else 0) + Unlocks(events[1..])
  }

  /** One step moves a waiter up if it completes an unlock, and leaves it where it is otherwise. */
  lemma StepAdvances(s: State, step: Step, k: nat)
    requires Inv(s) && Enabled(s, step) && k < |Queue(s)| && (EventOf(s, step).Unlocked? ==> k > 0)
    ensures var left, t := if EventOf(s, step).Unlocked? then k - 1 else k, Apply(s, step);
            Inv(t) && left < |Queue(t)| && Queue(t)[left] == Queue(s)[k]
  {
    Refines(s, step);
    assert Queue(Apply(s, step)) == LockApply(Abs(s), EventOf(s, step)).queue;
  }

  lemma UnlocksFirst(s: State, steps: seq<Step>)
    requires Runs(s, steps) && steps != []
    ensures Unlocks(Events(s, steps))
            == (if EventOf(s, steps[0]).Unlocked? then 1 else 0) + Unlocks(Events(Apply(s, steps[0]), steps[1..]))
  {
    assert Events(s, steps)[1..] == Events(Apply(s, steps[0]), steps[1..]);
  }

  /** A waiter with `k` others ahead moves up by one at every unlock, and keeps its place otherwise. */
  lemma {:induction false} WaiterAdvances(s: State, steps: seq<Step>, k: nat)
    requires Inv(s) && Runs(s, steps) && k < |Queue(s)|
    requires Unlocks(Events(s, steps)) <= k
    decreases |steps|
    ensures var left := k - Unlocks(Events(s, steps));
            && left < |Queue(Exec(s, steps))|
            && Queue(Exec(s, steps))[left] == Queue(s)[k]
  {
    if steps != [] {
      var t, rest := Apply(s, steps[0]), steps[1..];
      var left := if EventOf(s, steps[0]).Unlocked? then k - 1 else k;
      UnlocksFirst(s, steps);
      var n := Unlocks(Events(t, rest));
      assert Unlocks(Events(s, steps)) == n + (k - left);
      StepAdvances(s, steps[0], k);
      WaiterAdvances(t, rest, left);
      assert Exec(s, steps) == Exec(t, rest);
    }
  }

  /** So it owns the lock after exactly `k + 1` completed unlocks, and not before. */
  lemma WaiterServed(s: State, steps: seq<Step>, k: nat, last: Step)
    requires Inv(s) && Runs(s, steps) && k < |Queue(s)|
    requires Unlocks(Events(s, steps)) <= k
    requires Enabled(Exec(s, steps), last)
    requires EventOf(Exec(s, steps), last).Unlocked?
    ensures Exec(s, steps).holder != Some(Queue(s)[k])
    ensures Unlocks(Events(s, steps)) == k <==> Apply(Exec(s, steps), last).holder == Some(Queue(s)[k])
  {
    var t := Exec(s, steps);
    RunRefines(s, steps);
    WaiterAdvances(s, steps, k);
    Refines(t, last);
    assert Queue(s)[k] in Queue(t);
  }
}
