/** The two lists of a condition variable and what each operation does to them. */
module CvLists {
  import opened Common

  /** `stack` is the atomic list, newest first; `cache` the reversed list, oldest first. */
  datatype Cv<T> = Cv(stack: seq<T>, cache: seq<T>)

  /** The waiters in order of arrival. */
  function CvQueue<T>(cv: Cv<T>): seq<T> {
    cv.cache + Reverse(cv.stack)
  }

  function Park<T>(cv: Cv<T>, x: T): Cv<T> {
    cv.(stack := [x] + cv.stack)
  }

  /** What `notify_one` takes: the head of the cache, or of the reversed stack,
      whose remainder becomes the cache. */
  function TakeOne<T>(cv: Cv<T>): (Cv<T>, Option<T>) {
    if cv.cache != [] then (cv.(cache := cv.cache[1..]), Some(cv.cache[0]))
    else if cv.stack == [] then (cv, None)
    else
      var chain := Reverse(cv.stack);
      (Cv([], chain[1..]), Some(chain[0]))
  }

  /** The order in which `notify_all` visits the waiters: the stack as it is, then the cache. */
  function TakeAll<T>(cv: Cv<T>): (Cv<T>, seq<T>) {
    (Cv([], []), cv.stack + cv.cache)
  }

  lemma ParkIsLast<T>(cv: Cv<T>, x: T)
    ensures CvQueue(Park(cv, x)) == CvQueue(cv) + [x]
  {
    ReversePush(x, cv.stack);
  }

  /** `notify_one` removes exactly the oldest waiter. */
  lemma TakeOneIsFirst<T>(cv: Cv<T>)
    ensures CvQueue(cv) == [] ==> TakeOne(cv) == (cv, None)
    ensures CvQueue(cv) != [] ==> TakeOne(cv).1 == Some(CvQueue(cv)[0]) && CvQueue(TakeOne(cv).0) == CvQueue(cv)[1..]
  {
    if cv.cache != [] {
      assert CvQueue(cv)[1..] == cv.cache[1..] + Reverse(cv.stack);
    } else if cv.stack != [] {
      assert CvQueue(cv) == Reverse(cv.stack);
      assert CvQueue(TakeOne(cv).0) == Reverse(cv.stack)[1..];
    }
  }

  /** `notify_all` visits every waiter exactly once. */
  lemma TakeAllVisits<T>(cv: Cv<T>)
    requires NoDup(CvQueue(cv))
    ensures NoDup(TakeAll(cv).1)
    ensures forall x :: x in TakeAll(cv).1 <==> x in CvQueue(cv)
    ensures CvQueue(TakeAll(cv).0) == []
  {
    var q, r, c := CvQueue(cv), Reverse(cv.stack), |cv.cache|;
    forall k | 0 <= k < |cv.stack|
      ensures cv.stack[k] == q[c + |cv.stack| - 1 - k]
    {
      ReverseAt(cv.stack, |cv.stack| - 1 - k);
    }
    assert forall k :: 0 <= k < c ==> cv.cache[k] == q[k];
    forall x
      ensures x in TakeAll(cv).1 <==> x in CvQueue(cv)
    {
      ReverseMember(cv.stack, x);
    }
  }

  /** Those not yet in the cache are visited first, newest first, then the cached ones, oldest first. */
  lemma TakeAllOrder<T>(cv: Cv<T>)
    ensures TakeAll(cv).1 == Reverse(CvQueue(cv)[|cv.cache|..]) + CvQueue(cv)[..|cv.cache|]
  {
    ReverseTwice(cv.stack);
    assert CvQueue(cv)[|cv.cache|..] == Reverse(cv.stack) && CvQueue(cv)[..|cv.cache|] == cv.cache;
  }
}

/** Any number of coroutines using one mutex and one condition variable. The
    mutex is the abstract lock it refines; every notification is one step,
    waiting is one step to enter the list and one to release the mutex. */
module CvProtocol {
  import opened Common
  import opened CvLists
  import opened FifoLock

  type Id = nat

  datatype Pc =
    | Out                    // runs without the mutex
    | Locking                // suspended in `lock`
    | In                     // owns the mutex
    | Parking(woken: bool)   // listed as a waiter, still owns the mutex
    | Asleep                 // suspended in the condition variable
    | Woken                  // notified, suspended in the mutex queue
    | Recheck                // owns the mutex again, inside the wait loop

  predicate Owns(pc: Pc) { pc.In? || pc.Parking? || pc.Recheck? }

  predicate InLock(pc: Pc) { pc.Locking? || pc.Woken? || pc == Parking(true) }

  predicate InCv(pc: Pc) { pc.Asleep? || pc == Parking(false) }

  /** `data` is what the mutex guards; `unannounced` records a write since the last `notify_all`. */
  datatype State<D> = State(
    lock: Lock<Id>, cv: Cv<Id>, pcs: seq<Pc>, data: D, unannounced: bool)

  /** What evaluating a waiting predicate comes to. */
  datatype Verdict = Holds | Fails | Throws

  /** The verdict of a coroutine's waiting predicate on the data. */
  type Stop<!D> = (Id, D) -> Verdict

  datatype Step<D> =
    | LockStep(i: Id)
    | UnlockStep(i: Id)
    | CheckStep(i: Id)               // evaluates the waiting predicate; an exception ends the wait, unseen
    | SuspendStep(i: Id)             // the unlock inside `wait`
    | NotifyOneStep(i: Id)
    | NotifyAllStep(i: Id)
    | WriteStep(i: Id, value: D)

  function Init<D>(n: nat, data: D): State<D> {
    State(Lock(None, []), Cv([], []), seq(n, _ => Out), data, false)
  }

  predicate Enabled<D>(s: State<D>, step: Step<D>) {
    && step.i < |s.pcs|
    && match step
       case LockStep(i) => s.pcs[i].Out?
       case UnlockStep(i) => s.pcs[i].In?
       case CheckStep(i) => s.pcs[i].In? || s.pcs[i].Recheck?
       case SuspendStep(i) => s.pcs[i].Parking?
       case NotifyOneStep(i) => s.pcs[i].In? || s.pcs[i].Out?
       case NotifyAllStep(i) => s.pcs[i].In? || s.pcs[i].Out?
       case WriteStep(i, _) => s.pcs[i].In?
  }

  /** Unlocking: the new owner, if any, continues after `lock` or inside the wait loop. */
  function PassLock<D>(s: State<D>): State<D> {
    var l := Unlock<Id>(s.lock);
    if l.owner.None? || l.owner.value >= |s.pcs| then s.(lock := l)
    else
      var j := l.owner.value;
      s.(lock := l, pcs := s.pcs[j := if s.pcs[j].Locking? then In else Recheck])
  }

  /** A notified waiter registers with the mutex: owns it when free, queues otherwise. */
  function Wake<D>(s: State<D>, x: Id): State<D> {
    if x >= |s.pcs| then s
    else
      s.(lock := Register(s.lock, x),
         pcs := s.pcs[x := if s.lock.owner.None? then Recheck
                           else if s.pcs[x].Parking? then Parking(true) else Woken])
  }

  function WakeAll<D>(s: State<D>, xs: seq<Id>): State<D>
    decreases |xs|
  {
    if xs == [] then s else WakeAll(Wake(s, xs[0]), xs[1..])
  }

  function Apply<D>(stop: Stop<D>, s: State<D>, step: Step<D>): State<D>
    requires Enabled(s, step)
  {
    match step
    case LockStep(i) =>
      s.(lock := Register(s.lock, i), pcs := s.pcs[i := if s.lock.owner.None? then In else Locking])
    case UnlockStep(i) => PassLock(s.(pcs := s.pcs[i := Out]))
    case CheckStep(i) =>
      if !stop(i, s.data).Fails? then s.(pcs := s.pcs[i := In])
      else s.(cv := Park(s.cv, i), pcs := s.pcs[i := Parking(false)])
    case SuspendStep(i) =>
      PassLock(s.(pcs := s.pcs[i := if s.pcs[i].woken then Woken else Asleep]))
    case NotifyOneStep(i) =>
      var (cv, first) := TakeOne(s.cv);
      if first.None? then s.(cv := cv) else Wake(s.(cv := cv), first.value)
    case NotifyAllStep(i) =>
      var (cv, all) := TakeAll(s.cv);
      WakeAll(s.(cv := cv, unannounced := false), all)
    case WriteStep(i, d) => s.(data := d, unannounced := true)
  }

  // ---- invariants ----

  ghost predicate OwnerInv<D>(s: State<D>) {
    && (s.lock.owner.Some? ==> s.lock.owner.value < |s.pcs|)
    && (forall i :: 0 <= i < |s.pcs| ==> (Owns(s.pcs[i]) <==> s.lock.owner == Some(i)))
    && LockOk(s.lock)
  }

  /** `q` are the waiters that are asleep or about to be: the ones listed in the
      condition variable, and while a notification runs those it has unlinked. */
  ghost predicate ListInv<D>(s: State<D>, q: seq<Id>) {
    && OwnerInv(s)
    && Tracks(s.lock.queue, s.pcs, InLock)
    && Tracks(q, s.pcs, InCv)
  }

  ghost predicate PlaceInv<D>(s: State<D>) {
    ListInv(s, CvQueue(s.cv))
  }

  /** A listed waiter whose predicate no longer fails is owed a notification. */
  ghost predicate OwedInv<D>(stop: Stop<D>, s: State<D>) {
    forall i :: i in CvQueue(s.cv) && !stop(i, s.data).Fails? ==> s.unannounced
  }

  ghost predicate Inv<D>(stop: Stop<D>, s: State<D>) {
    PlaceInv(s) && OwedInv(stop, s)
  }

  lemma InitInv<D>(stop: Stop<D>, n: nat, data: D)
    ensures Inv(stop, Init(n, data))
  {
    assert CvQueue(Init(n, data).cv) == [];
  }

  /** Passing the lock on, in a state whose owner has just given it up. */
  lemma PassLockKeeps<D>(s: State<D>, i: Id, v: Pc)
    requires PlaceInv(s) && i < |s.pcs| && Owns(s.pcs[i]) && !Owns(v)
    requires InLock(v) == InLock(s.pcs[i]) && InCv(v) == InCv(s.pcs[i])
    ensures PlaceInv(PassLock(s.(pcs := s.pcs[i := v])))
  {
    var t := s.(pcs := s.pcs[i := v]);
    TracksKeep(s.lock.queue, s.pcs, InLock, i, v);
    TracksKeep(CvQueue(s.cv), s.pcs, InCv, i, v);
    if t.lock.queue != [] {
      var j := t.lock.queue[0];
      assert j in t.lock.queue;
      var w := if t.pcs[j].Locking? then In else Recheck;
      TracksPop(t.lock.queue, t.pcs, InLock, w);
      TracksKeep(CvQueue(t.cv), t.pcs, InCv, j, w);
    }
  }

  lemma WakeKeeps<D>(s: State<D>, q: seq<Id>)
    requires ListInv(s, q) && q != []
    ensures ListInv(Wake(s, q[0]), q[1..])
  {
    var x := q[0];
    assert x in q;
    var v := if s.lock.owner.None? then Recheck else if s.pcs[x].Parking? then Parking(true) else Woken;
    TracksPop(q, s.pcs, InCv, v);
    if s.lock.owner.None? {
      TracksKeep(s.lock.queue, s.pcs, InLock, x, v);
    } else {
      TracksPush(s.lock.queue, s.pcs, InLock, x, v);
    }
  }

  lemma {:induction false} WakeAllKeeps<D>(s: State<D>, xs: seq<Id>)
    requires ListInv(s, xs)
    decreases |xs|
    ensures ListInv(WakeAll(s, xs), [])
    ensures WakeAll(s, xs).cv == s.cv && WakeAll(s, xs).data == s.data && WakeAll(s, xs).unannounced == s.unannounced
  {
    if xs != [] {
      WakeKeeps(s, xs);
      WakeAllKeeps(Wake(s, xs[0]), xs[1..]);
    }
  }

  lemma LockKeeps<D>(stop: Stop<D>, s: State<D>, i: Id)
    requires PlaceInv(s) && Enabled(s, LockStep(i))
    ensures PlaceInv(Apply(stop, s, LockStep(i)))
  {
    if s.lock.owner.None? {
      TracksKeep(s.lock.queue, s.pcs, InLock, i, In);
      TracksKeep(CvQueue(s.cv), s.pcs, InCv, i, In);
    } else {
      TracksPush(s.lock.queue, s.pcs, InLock, i, Locking);
      TracksKeep(CvQueue(s.cv), s.pcs, InCv, i, Locking);
    }
  }

  lemma CheckKeeps<D>(stop: Stop<D>, s: State<D>, i: Id)
    requires PlaceInv(s) && Enabled(s, CheckStep(i))
    ensures PlaceInv(Apply(stop, s, CheckStep(i)))
  {
    if !stop(i, s.data).Fails? {
      TracksKeep(s.lock.queue, s.pcs, InLock, i, In);
      TracksKeep(CvQueue(s.cv), s.pcs, InCv, i, In);
    } else {
      ParkIsLast(s.cv, i);
      TracksKeep(s.lock.queue, s.pcs, InLock, i, Parking(false));
      TracksPush(CvQueue(s.cv), s.pcs, InCv, i, Parking(false));
    }
  }

  lemma NotifyOneKeeps<D>(stop: Stop<D>, s: State<D>, i: Id)
    requires PlaceInv(s) && Enabled(s, NotifyOneStep(i))
    ensures PlaceInv(Apply(stop, s, NotifyOneStep(i)))
  {
    TakeOneIsFirst(s.cv);
    if CvQueue(s.cv) != [] {
      WakeKeeps(s.(cv := TakeOne(s.cv).0), CvQueue(s.cv));
    }
  }

  lemma NotifyAllKeeps<D>(stop: Stop<D>, s: State<D>, i: Id)
    requires PlaceInv(s) && Enabled(s, NotifyAllStep(i))
    ensures PlaceInv(Apply(stop, s, NotifyAllStep(i)))
    ensures CvQueue(Apply(stop, s, NotifyAllStep(i)).cv) == []
  {
    TakeAllVisits(s.cv);
    var (cv, all) := TakeAll(s.cv);
    WakeAllKeeps(s.(cv := cv, unannounced := false), all);
  }

  /** Every step keeps every coroutine in its one place and every owed notification owed. */
  lemma StepKeeps<D>(stop: Stop<D>, s: State<D>, step: Step<D>)
    requires Inv(stop, s) && Enabled(s, step)
    ensures Inv(stop, Apply(stop, s, step))
  {
    match step
    case LockStep(i) => LockKeeps(stop, s, i);
    case UnlockStep(i) => PassLockKeeps(s, i, Out);
    case CheckStep(i) =>
      CheckKeeps(stop, s, i);
      ParkIsLast(s.cv, i);
    case SuspendStep(i) => PassLockKeeps(s, i, if s.pcs[i].woken then Woken else Asleep);
    case NotifyOneStep(i) =>
      NotifyOneKeeps(stop, s, i);
      TakeOneIsFirst(s.cv);
    case NotifyAllStep(i) => NotifyAllKeeps(stop, s, i);
    case WriteStep(i, d) =>
  }

  // ---- whole runs ----

  predicate Runs<D>(stop: Stop<D>, s: State<D>, steps: seq<Step<D>>)
    decreases |steps|, 0
  {
    steps == [] ||
    var front := steps[..|steps| - 1];
    Runs(stop, s, front) && Enabled(Exec(stop, s, front), steps[|steps| - 1])
  }

  function Exec<D>(stop: Stop<D>, s: State<D>, steps: seq<Step<D>>): State<D>
    requires Runs(stop, s, steps)
    decreases |steps|, 1
  {
    if steps == [] then s
    else Apply(stop, Exec(stop, s, steps[..|steps| - 1]), steps[|steps| - 1])
  }

  lemma {:induction false} RunKeeps<D>(stop: Stop<D>, s: State<D>, steps: seq<Step<D>>)
    requires Inv(stop, s) && Runs(stop, s, steps)
    decreases |steps|
    ensures Inv(stop, Exec(stop, s, steps))
  {
    if steps != [] {
      var front := steps[..|steps| - 1];
      RunKeeps(stop, s, front);
      StepKeeps(stop, Exec(stop, s, front), steps[|steps| - 1]);
    }
  }

  lemma ListedOnce<T>(cv: Cv<T>, x: T)
    requires NoDup(CvQueue(cv))
    ensures multiset(cv.stack)[x] + multiset(cv.cache)[x] == if x in CvQueue(cv) then 1 else 0
  {
    var all := TakeAll(cv).1;
    TakeAllVisits(cv);
    NoDupCounts(all, x);
    assert multiset(all) == multiset(cv.stack) + multiset(cv.cache);
  }

  /** In every run each coroutine is listed exactly once while it waits for the
      mutex or for a notification, and nowhere while it is ready or running. */
  lemma ExactlyOnePlace<D>(stop: Stop<D>, n: nat, data: D, steps: seq<Step<D>>, i: Id)
    requires Runs(stop, Init(n, data), steps)
    ensures var s := Exec(stop, Init(n, data), steps);
            multiset(s.lock.queue)[i] + multiset(s.cv.stack)[i] + multiset(s.cv.cache)[i]
            == if i < |s.pcs| && (InLock(s.pcs[i]) || InCv(s.pcs[i])) then 1 else 0
  {
    InitInv(stop, n, data);
    RunKeeps(stop, Init(n, data), steps);
    var s := Exec(stop, Init(n, data), steps);
    NoDupCounts(s.lock.queue, i);
    ListedOnce(s.cv, i);
  }

  /** `notify_one` moves the waiter that came first, and nobody else, to the mutex. */
  lemma NotifyOneMovesOldest<D>(stop: Stop<D>, s: State<D>, i: Id)
    requires Inv(stop, s) && Enabled(s, NotifyOneStep(i)) && CvQueue(s.cv) != []
    ensures var t, w := Apply(stop, s, NotifyOneStep(i)), CvQueue(s.cv)[0];
            && w < |s.pcs|
            && CvQueue(t.cv) == CvQueue(s.cv)[1..]
            && (if s.lock.owner.None? then t.lock.owner == Some(w) && t.lock.queue == [] && t.pcs[w].Recheck?
                else t.lock.owner == s.lock.owner && t.lock.queue == s.lock.queue + [w])
            && forall j :: 0 <= j < |s.pcs| && j != w ==> |t.pcs| == |s.pcs| && t.pcs[j] == s.pcs[j]
  {
    assert CvQueue(s.cv)[0] in CvQueue(s.cv);
    TakeOneIsFirst(s.cv);
  }

  lemma {:induction false} WakeAllOrder<D>(s: State<D>, xs: seq<Id>)
    requires forall x :: x in xs ==> x < |s.pcs|
    decreases |xs|
    ensures var t := WakeAll(s, xs);
            if s.lock.owner.Some? || xs == [] then t.lock.owner == s.lock.owner && t.lock.queue == s.lock.queue + xs
            else t.lock.owner == Some(xs[0]) && t.lock.queue == s.lock.queue + xs[1..]
  {
    if xs != [] {
      assert xs[0] in xs && forall x :: x in xs[1..] ==> x in xs;
      HeadFirst(s.lock.queue, xs);
      WakeAllOrder(Wake(s, xs[0]), xs[1..]);
    }
  }

  lemma HeadFirst(q: seq<Id>, xs: seq<Id>)
    requires xs != []
    ensures (q + [xs[0]]) + xs[1..] == q + xs
  {
  }

  /** `notify_all` empties the condition variable: each waiter, once, becomes
      the owner of a free mutex or joins its queue. */
  lemma NotifyAllMovesEveryone<D>(stop: Stop<D>, s: State<D>, i: Id)
    requires Inv(stop, s) && Enabled(s, NotifyAllStep(i))
    ensures var t, all := Apply(stop, s, NotifyAllStep(i)), TakeAll(s.cv).1;
            && NoDup(all) && (forall x :: x in all <==> x in CvQueue(s.cv))
            && CvQueue(t.cv) == []
            && if s.lock.owner.Some? || all == [] then t.lock.owner == s.lock.owner && t.lock.queue == s.lock.queue + all
               else t.lock.owner == Some(all[0]) && t.lock.queue == all[1..]
  {
    TakeAllVisits(s.cv);
    var (cv, all) := TakeAll(s.cv);
    NotifyAllKeeps(stop, s, i);
    WakeAllOrder(s.(cv := cv, unannounced := false), all);
  }

  /** A wait returns only to a coroutine that owns the mutex; its predicate holds then
      if and only if evaluating it did not throw. */
  lemma WaitReturns<D>(stop: Stop<D>, s: State<D>, step: Step<D>, i: Id)
    requires Inv(stop, s) && Enabled(s, step) && i < |s.pcs|
    requires s.pcs[i].Recheck? || s.pcs[i].Parking? || s.pcs[i].Asleep? || s.pcs[i].Woken?
    requires i < |Apply(stop, s, step).pcs| && Apply(stop, s, step).pcs[i].In?
    ensures step == CheckStep(i) && s.pcs[i].Recheck?
    ensures var t := Apply(stop, s, step);
            t.lock.owner == Some(i) && (stop(i, t.data).Holds? <==> !stop(i, t.data).Throws?)
  {
    match step
    case NotifyAllStep(k) =>
      var (cv, all) := TakeAll(s.cv);
      WakeAllNeverReturns(s.(cv := cv, unannounced := false), all, i);
    case NotifyOneStep(k) =>
      var (cv, first) := TakeOne(s.cv);
      if first.Some? {
        WakeAllNeverReturns(s.(cv := cv), [first.value], i);
      }
    case UnlockStep(k) => PassLockNeverReturns(s.(pcs := s.pcs[k := Out]), i);
    case SuspendStep(k) =>
      PassLockNeverReturns(s.(pcs := s.pcs[k := if s.pcs[k].woken then Woken else Asleep]), i);
    case _ =>
  }

  /** A handed-over mutex lets only a coroutine suspended in `lock` into its critical section. */
  lemma PassLockNeverReturns<D>(s: State<D>, i: Id)
    requires i < |s.pcs| && !s.pcs[i].In? && !s.pcs[i].Locking?
    ensures i < |PassLock(s).pcs| && !PassLock(s).pcs[i].In?
  {
  }

  /** A predicate that throws lets its coroutine out of the wait, the mutex in hand. */
  lemma ThrowingReturns<D>(stop: Stop<D>, data: D)
    requires stop(0, data).Throws?
    ensures var steps: seq<Step<D>> := [LockStep(0), CheckStep(0)];
            && Runs(stop, Init(1, data), steps)
            && Exec(stop, Init(1, data), steps).pcs == [In] && !stop(0, data).Holds?
  {
    var s := Init(1, data);
    var first: seq<Step<D>>, steps: seq<Step<D>> := [LockStep(0)], [LockStep(0), CheckStep(0)];
    assert steps[..1] == first && first[..0] == [];
    assert Runs(stop, s, first) && Exec(stop, s, first) == Apply(stop, s, LockStep(0));
    assert Apply(stop, s, LockStep(0)).pcs == [In];
  }

  lemma {:induction false} WakeAllNeverReturns<D>(s: State<D>, xs: seq<Id>, i: Id)
    requires i < |s.pcs| && !s.pcs[i].In?
    decreases |xs|
    ensures i < |WakeAll(s, xs).pcs| && !WakeAll(s, xs).pcs[i].In?
  {
    if xs != [] {
      WakeAllNeverReturns(Wake(s, xs[0]), xs[1..], i);
    }
  }

  /** Step `c` was the check by which `w`, owning the mutex and seeing its
      predicate false, listed itself, and no `notify_all` came later. */
  ghost predicate ParkedAt<D>(stop: Stop<D>, s0: State<D>, steps: seq<Step<D>>, w: Id, c: nat) {
    && c < |steps| && steps[c] == CheckStep(w)
    && Runs(stop, s0, steps[..c])
    && Exec(stop, s0, steps[..c]).lock.owner == Some(w)
    && stop(w, Exec(stop, s0, steps[..c]).data).Fails?
    && forall k :: c < k < |steps| ==> !steps[k].NotifyAllStep?
  }

  lemma ParkedStill<D>(stop: Stop<D>, s0: State<D>, steps: seq<Step<D>>, last: Step<D>, w: Id, c: nat)
    requires ParkedAt(stop, s0, steps, w, c) && !last.NotifyAllStep?
    ensures ParkedAt(stop, s0, steps + [last], w, c)
  {
    assert (steps + [last])[..c] == steps[..c];
  }

  lemma ParkedNow<D>(stop: Stop<D>, s0: State<D>, steps: seq<Step<D>>, w: Id)
    requires Inv(stop, s0) && Runs(stop, s0, steps)
    requires Enabled(Exec(stop, s0, steps), CheckStep(w)) && stop(w, Exec(stop, s0, steps).data).Fails?
    ensures ParkedAt(stop, s0, steps + [CheckStep(w)], w, |steps|)
  {
    RunKeeps(stop, s0, steps);
    assert (steps + [CheckStep(w)])[..|steps|] == steps;
  }

  /** Whoever is still listed put itself there after the last `notify_all`, at a
      moment when it owned the mutex and its predicate was false. So a critical
      section that makes the predicate true, followed by `notify_all`, leaves
      none of the waiters that had seen it false. */
  lemma {:induction false} ListedSince<D>(stop: Stop<D>, n: nat, data: D, steps: seq<Step<D>>, w: Id)
    returns (c: nat)
    requires Runs(stop, Init(n, data), steps)
    requires w in CvQueue(Exec(stop, Init(n, data), steps).cv)
    decreases |steps|
    ensures ParkedAt(stop, Init(n, data), steps, w, c)
  {
    var s0 := Init(n, data);
    assert CvQueue(s0.cv) == [];
    var front, last := steps[..|steps| - 1], steps[|steps| - 1];
    var s := Exec(stop, s0, front);
    InitInv(stop, n, data);
    assert steps == front + [last];
    if last == CheckStep(w) && stop(w, s.data).Fails? {
      c := |front|;
      ParkedNow(stop, s0, front, w);
    } else {
      RunKeeps(stop, s0, front);
      ListedBefore(stop, s, last, w);
      c := ListedSince(stop, n, data, front, w);
      ParkedStill(stop, s0, front, last, w, c);
    }
  }

  lemma ListedBefore<D>(stop: Stop<D>, s: State<D>, step: Step<D>, w: Id)
    requires Inv(stop, s) && Enabled(s, step)
    requires w in CvQueue(Apply(stop, s, step).cv)
    requires !(step == CheckStep(w) && stop(w, s.data).Fails?)
    ensures w in CvQueue(s.cv) && !step.NotifyAllStep?
  {
    match step
    case CheckStep(i) => ParkIsLast(s.cv, i);
    case NotifyOneStep(i) => TakeOneIsFirst(s.cv);
    case NotifyAllStep(i) => NotifyAllKeeps(stop, s, i);
    case _ =>
  }

  /** Once every write has been announced, every listed waiter's predicate fails. */
  lemma NobodyOverlooked<D>(stop: Stop<D>, n: nat, data: D, steps: seq<Step<D>>, w: Id)
    requires Runs(stop, Init(n, data), steps)
    requires var s := Exec(stop, Init(n, data), steps); !s.unannounced && w in CvQueue(s.cv)
    ensures stop(w, Exec(stop, Init(n, data), steps).data).Fails?
  {
    InitInv(stop, n, data);
    RunKeeps(stop, Init(n, data), steps);
  }
}

/** The condition variable as the program lays it out. */
module CvHeap {
  import opened Common
  import opened CvLists
  import opened WaiterLists

  class ConditionVariable {
    var awaiting: Waiter?
    var toResumeHead: Waiter?
    var toResumeTail: Waiter?
    ghost var cv: Cv<Waiter>

    ghost predicate Valid()
      reads this, cv.stack, cv.cache
    {
      && Linked(awaiting, cv.stack)
      && Linked(toResumeHead, cv.cache)
      && (cv.cache != [] ==> toResumeTail == cv.cache[|cv.cache| - 1])
      && (forall x :: x in cv.cache ==> x !in cv.stack)
    }

    constructor ()
      ensures Valid() && cv == Cv([], [])
    {
      awaiting, toResumeHead, toResumeTail := null, null, null;
      cv := Cv([], []);
    }

    /** One turn of the insertion loop; a weak compare-and-swap may fail although the heads agree. */
    method ParkWaiter(self: Waiter, seen: Waiter?, spurious: bool) returns (parked: bool, head: Waiter?)
      requires Valid() && self !in cv.stack && self !in cv.cache
      modifies this`awaiting, this`cv, self`next
      ensures Valid() && head == awaiting
      ensures parked == (old(awaiting) == seen && !spurious)
      ensures cv == if parked then Park(old(cv), self) else old(cv)
    {
      self.next := seen;
      parked := awaiting == seen && !spurious;
      if parked {
        ghost var stack := cv.stack;
        awaiting, cv := self, Park(cv, self);
        LinkedPush(self, stack);
      }
      head := awaiting;
    }

    method PopCache() returns (first: Waiter)
      requires Valid() && cv.cache != []
      modifies this`toResumeHead, this`cv
      ensures Valid() && first == old(cv.cache)[0] && cv == Cv(old(cv.stack), old(cv.cache)[1..])
    {
      first := toResumeHead;
      LinkedTail(first, cv.cache);
      toResumeHead := first.next;
      cv := cv.(cache := cv.cache[1..]);
    }

    method TakeStack() returns (first: Waiter)
      requires Valid() && cv.cache == [] && cv.stack != []
      modifies this, cv.stack`next
      ensures Valid() && first == Reverse(old(cv.stack))[0] && cv == Cv([], Reverse(old(cv.stack))[1..])
    {
      ghost var stack := cv.stack;
      var head := awaiting;
      awaiting := null;
      var oldest, rest := ReverseBehindOldest(head, stack);
      ReverseAll(stack);
      toResumeHead, toResumeTail := rest, head;
      cv := Cv([], Reverse(stack)[1..]);
      first := oldest;
    }

    /** The unlinking part of `notify_one`: the waiter to wake, if there is one. */
    method NotifyOne() returns (first: Waiter?)
      requires Valid()
      modifies this, cv.stack`next
      ensures Valid() && cv == TakeOne(old(cv)).0
      ensures first == (match TakeOne(old(cv)).1 case None => null case Some(x) => x)
    {
      if toResumeHead != null {
        first := PopCache();
        return;
      }
      toResumeTail := null;
      if awaiting == null {
        return null;
      }
      first := TakeStack();
    }

    /** The walks of `notify_all`, which register the waiters in this order. */
    method NotifyAll() returns (order: seq<Waiter>)
      requires Valid()
      modifies this
      ensures Valid() && (cv, order) == TakeAll(old(cv))
    {
      ghost var stack, cache := cv.stack, cv.cache;
      var head := awaiting;
      awaiting := null;
      cv := cv.(stack := []);
      order := Walk(head, stack);
      head := toResumeHead;
      toResumeHead := null;
      cv := cv.(cache := []);
      var cached := Walk(head, cache);
      order := order + cached;
    }
  }
}
