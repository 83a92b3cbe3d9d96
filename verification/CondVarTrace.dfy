/** What a run of a condition variable comes to, told by its steps alone. Where a
    coroutine stands follows from who owns the mutex, who is listed where, and how
    its last check of the predicate came out. */
module CvTrace {
  import opened Common
  import opened CvLists
  import opened FifoLock
  import opened CvProtocol

  /** `waiting` are the coroutines whose last check of their predicate failed. */
  datatype View<D> = View(lock: Lock<Id>, cv: Cv<Id>, data: D, unannounced: bool, waiting: set<Id>)

  /** Registering several, one after the other. */
  function Admit(l: Lock<Id>, xs: seq<Id>): Lock<Id> {
    if l.owner.Some? || xs == [] then l.(queue := l.queue + xs)
    else Lock(Some(xs[0]), l.queue + xs[1..])
  }

  function Next<D>(stop: Stop<D>, v: View<D>, step: Step<D>): View<D> {
    match step
    case LockStep(i) => v.(lock := Admit(v.lock, [i]))
    case UnlockStep(_) => v.(lock := Unlock(v.lock))
    case SuspendStep(_) => v.(lock := Unlock(v.lock))
    case CheckStep(i) =>
      if stop(i, v.data).Fails? then v.(cv := Park(v.cv, i), waiting := v.waiting + {i})
      else v.(waiting := v.waiting - {i})
    case NotifyOneStep(_) =>
      var (cv, first) := TakeOne(v.cv);
      v.(cv := cv, lock := if first.Some? then Admit(v.lock, [first.value]) else v.lock)
    case NotifyAllStep(_) =>
      v.(cv := Cv([], []), lock := Admit(v.lock, TakeAll(v.cv).1), unannounced := false)
    case WriteStep(_, d) => v.(data := d, unannounced := true)
  }

  function Replay<D>(stop: Stop<D>, data: D, steps: seq<Step<D>>): View<D>
    decreases |steps|
  {
    if steps == [] then View(Lock(None, []), Cv([], []), data, false, {})
    else Next(stop, Replay(stop, data, steps[..|steps| - 1]), steps[|steps| - 1])
  }

  /** Where coroutine `i` stands. */
  ghost function Stands<D>(v: View<D>, i: Id): Pc {
    if v.lock.owner == Some(i) then
      if i !in v.waiting then In
      else if i in CvQueue(v.cv) then Parking(false)
      else if i in v.lock.queue then Parking(true)
      else Recheck
    else if i in CvQueue(v.cv) then Asleep
    else if i in v.lock.queue then (if i in v.waiting then Woken else Locking)
    else Out
  }

  predicate Waits(pc: Pc) {
    pc.Parking? || pc.Asleep? || pc.Woken? || pc.Recheck?
  }

  ghost predicate WaitInv(pcs: seq<Pc>, waiting: set<Id>) {
    forall i: Id :: i in waiting <==> i < |pcs| && Waits(pcs[i])
  }

  ghost predicate Agrees<D>(s: State<D>, v: View<D>) {
    && s.lock == v.lock && s.cv == v.cv && s.data == v.data && s.unannounced == v.unannounced
    && WaitInv(s.pcs, v.waiting)
  }

  lemma PassLockWaits<D>(s: State<D>, i: Id, w: Pc, waiting: set<Id>)
    requires PlaceInv(s) && i < |s.pcs| && Owns(s.pcs[i]) && !Owns(w)
    requires InLock(w) == InLock(s.pcs[i]) && Waits(w) == Waits(s.pcs[i]) && WaitInv(s.pcs, waiting)
    ensures WaitInv(PassLock(s.(pcs := s.pcs[i := w])).pcs, waiting)
    ensures PassLock(s.(pcs := s.pcs[i := w])).lock == Unlock(s.lock)
  {
    var t := s.(pcs := s.pcs[i := w]);
    TracksKeep(s.lock.queue, s.pcs, InLock, i, w);
    if t.lock.queue != [] {
      assert t.lock.queue[0] in t.lock.queue;
    }
  }

  lemma WakeWaits<D>(s: State<D>, x: Id, waiting: set<Id>)
    requires x < |s.pcs| && InCv(s.pcs[x]) && WaitInv(s.pcs, waiting)
    ensures WaitInv(Wake(s, x).pcs, waiting)
  {
  }

  lemma {:induction false} WakeAllWaits<D>(s: State<D>, xs: seq<Id>, waiting: set<Id>)
    requires ListInv(s, xs) && WaitInv(s.pcs, waiting)
    decreases |xs|
    ensures WaitInv(WakeAll(s, xs).pcs, waiting)
  {
    if xs != [] {
      assert xs[0] in xs;
      WakeWaits(s, xs[0], waiting);
      WakeKeeps(s, xs);
      WakeAllWaits(Wake(s, xs[0]), xs[1..], waiting);
    }
  }

  lemma NotifyOneAgrees<D>(stop: Stop<D>, s: State<D>, i: Id, v: View<D>)
    requires Inv(stop, s) && Enabled(s, NotifyOneStep(i)) && Agrees(s, v)
    ensures Agrees(Apply(stop, s, NotifyOneStep(i)), Next(stop, v, NotifyOneStep(i)))
  {
    var (cv, first) := TakeOne(s.cv);
    TakeOneIsFirst(s.cv);
    if first.Some? {
      assert first.value in CvQueue(s.cv);
      WakeWaits(s.(cv := cv), first.value, v.waiting);
    } else {
      assert CvQueue(s.cv) == [];
    }
  }

  lemma NotifyAllAgrees<D>(stop: Stop<D>, s: State<D>, i: Id, v: View<D>)
    requires Inv(stop, s) && Enabled(s, NotifyAllStep(i)) && Agrees(s, v)
    ensures Agrees(Apply(stop, s, NotifyAllStep(i)), Next(stop, v, NotifyAllStep(i)))
  {
    var (cv, all) := TakeAll(s.cv);
    TakeAllVisits(s.cv);
    var t := s.(cv := cv, unannounced := false);
    WakeAllKeeps(t, all);
    WakeAllWaits(t, all, v.waiting);
    WakeAllOrder(t, all);
  }

  /** Every step of the protocol is the same step of the replay. */
  lemma StepAgrees<D>(stop: Stop<D>, s: State<D>, step: Step<D>, v: View<D>)
    requires Inv(stop, s) && Enabled(s, step) && Agrees(s, v)
    ensures Agrees(Apply(stop, s, step), Next(stop, v, step))
  {
    match step
    case UnlockStep(i) => PassLockWaits(s, i, Out, v.waiting);
    case SuspendStep(i) => PassLockWaits(s, i, if s.pcs[i].woken then Woken else Asleep, v.waiting);
    case NotifyOneStep(i) => NotifyOneAgrees(stop, s, i, v);
    case NotifyAllStep(i) => NotifyAllAgrees(stop, s, i, v);
    case _ =>
  }

  lemma {:induction false} RunAgrees<D>(stop: Stop<D>, n: nat, data: D, steps: seq<Step<D>>)
    requires Runs(stop, Init(n, data), steps)
    decreases |steps|
    ensures Inv(stop, Exec(stop, Init(n, data), steps))
    ensures Agrees(Exec(stop, Init(n, data), steps), Replay(stop, data, steps))
  {
    InitInv(stop, n, data);
    RunKeeps(stop, Init(n, data), steps);
    if steps != [] {
      var front := steps[..|steps| - 1];
      RunAgrees(stop, n, data, front);
      StepAgrees(stop, Exec(stop, Init(n, data), front), steps[|steps| - 1], Replay(stop, data, front));
    }
  }

  /** In every run each coroutine stands where the steps alone put it. */
  lemma StandsWhereStepsSay<D>(stop: Stop<D>, n: nat, data: D, steps: seq<Step<D>>, i: Id)
    requires Runs(stop, Init(n, data), steps)
    ensures var s, v := Exec(stop, Init(n, data), steps), Replay(stop, data, steps);
            && s.lock == v.lock && s.cv == v.cv && s.data == v.data && s.unannounced == v.unannounced
            && (i < |s.pcs| ==> s.pcs[i] == Stands(v, i))
  {
    RunAgrees(stop, n, data, steps);
  }

  /** A wait comes back only after a later check of its own predicate that did not fail:
      once a check has failed, its coroutine is not past the wait until another succeeds. */
  lemma {:induction false} ReturnsAfterCheck<D>(stop: Stop<D>, n: nat, data: D, steps: seq<Step<D>>, c: nat, w: Id)
    returns (k: nat)
    requires Runs(stop, Init(n, data), steps) && c < |steps| && steps[c] == CheckStep(w)
    requires stop(w, Replay(stop, data, steps[..c]).data).Fails?
    requires w < |Exec(stop, Init(n, data), steps).pcs|
    requires Exec(stop, Init(n, data), steps).pcs[w].In? || Exec(stop, Init(n, data), steps).pcs[w].Out?
             || Exec(stop, Init(n, data), steps).pcs[w].Locking?
    ensures c < k < |steps| && steps[k] == CheckStep(w)
    ensures !stop(w, Replay(stop, data, steps[..k]).data).Fails?
  {
    RunAgrees(stop, n, data, steps);
    assert w !in Replay(stop, data, steps).waiting;
    k := CheckedSince(stop, data, steps, c, w);
  }

  lemma {:induction false} CheckedSince<D>(stop: Stop<D>, data: D, steps: seq<Step<D>>, c: nat, w: Id) returns (k: nat)
    requires c < |steps| && steps[c] == CheckStep(w) && stop(w, Replay(stop, data, steps[..c]).data).Fails?
    requires w !in Replay(stop, data, steps).waiting
    decreases |steps|
    ensures c < k < |steps| && steps[k] == CheckStep(w) && !stop(w, Replay(stop, data, steps[..k]).data).Fails?
  {
    var last := |steps| - 1;
    var front := steps[..last];
    if c < last {
      if steps[last] == CheckStep(w) && !stop(w, Replay(stop, data, front).data).Fails? {
        k := last;
      } else {
        assert front[..c] == steps[..c];
        k := CheckedSince(stop, data, front, c, w);
        assert front[..k] == steps[..k];
      }
    }
  }

  /** What a coroutine may do next, told by the steps alone: the owner that has been
      listed can only suspend, the one whose check failed and that was notified can only
      check again, and whoever suspended does nothing until it owns the mutex. */
  lemma MayDo<D>(stop: Stop<D>, n: nat, data: D, steps: seq<Step<D>>, step: Step<D>)
    requires Runs(stop, Init(n, data), steps) && step.i < |Exec(stop, Init(n, data), steps).pcs|
    ensures var v, i := Replay(stop, data, steps), step.i;
            var owns, listed := v.lock.owner == Some(i), i in CvQueue(v.cv) || i in v.lock.queue;
            Enabled(Exec(stop, Init(n, data), steps), step) <==>
              if listed then owns && step.SuspendStep?
              else if i in v.waiting then step.CheckStep?
              else if owns then !step.LockStep? && !step.SuspendStep?
              else step.LockStep? || step.NotifyOneStep? || step.NotifyAllStep?
  {
    RunAgrees(stop, n, data, steps);
  }
}
