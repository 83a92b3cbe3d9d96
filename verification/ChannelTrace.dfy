/** What a run of a channel comes to, told by its steps alone: the program counters,
    the ring and the histories of the protocol do not occur in these definitions. */
module ChannelTrace {
  import opened Common
  import opened FifoLock
  import opened CvLists
  import opened ChannelRing
  import opened ChannelProtocol

  function Front<T>(steps: seq<Step<T>>): seq<Step<T>>
    requires steps != []
  {
    steps[..|steps| - 1]
  }

  function Last<T>(steps: seq<Step<T>>): Step<T>
    requires steps != []
  {
    steps[|steps| - 1]
  }

  /** The operation coroutine `i` began last. */
  function Asked<T>(steps: seq<Step<T>>, i: Id): Option<Op<T>>
    decreases |steps|
  {
    if steps == [] then None
    else if Last(steps).BeginStep? && Last(steps).i == i then Some(Last(steps).op)
    else Asked(Front(steps), i)
  }

  /** The items in the channel, those put and those got, in order. */
  datatype Books<T> = Books(queue: seq<T>, put: seq<T>, got: seq<T>)

  /** Whether an operation can pass its critical section. */
  predicate Passes<T>(capacity: nat, b: Books<T>, op: Op<T>) {
    if op.Put? then |b.queue| < capacity else |b.queue| > 0
  }

  function Entry<T>(capacity: nat, b: Books<T>, op: Op<T>): Books<T> {
    if !Passes(capacity, b, op) then b
    else match op
      case Put(x) => Books(b.queue + [x], b.put + [x], b.got)
      case _ => Books(b.queue[1..], b.put, b.got + [b.queue[0]])
  }

  /** A critical section puts the item its coroutine was asked to put, or takes the oldest one. */
  function Ledger<T>(capacity: nat, steps: seq<Step<T>>): Books<T>
    decreases |steps|
  {
    if steps == [] then Books([], [], [])
    else
      var b, last := Ledger(capacity, Front(steps)), Last(steps);
      if last.BodyStep? && Asked(Front(steps), last.i).Some?
      then Entry(capacity, b, Asked(Front(steps), last.i).value)
      else b
  }

  /** Whether the last step is a critical section that finds room, or an item. */
  predicate LastPasses<T>(capacity: nat, steps: seq<Step<T>>)
    requires steps != []
  {
    var asked := Asked(Front(steps), Last(steps).i);
    Last(steps).BodyStep? && asked.Some? && Passes(capacity, Ledger(capacity, Front(steps)), asked.value)
  }

  /** What a coroutine did last: nothing, began, met a full or empty channel, suspended,
      changed the channel, unlocked, or threw (after a suspension or not). */
  datatype Stage = Out | Fresh | Checked | Slept | Done | Announces | Threw(slept: bool)

  function NextStage<T>(stage: Stage, step: Step<T>, passes: bool): Stage {
    match step
    case BeginStep(_, _) => Fresh
    case BodyStep(_) => if passes then Done else Checked
    case ThrowStep(_) => Threw(stage.Slept?)
    case SuspendStep(_) => Slept
    case UnlockStep(_) => Announces
    case NotifyStep(_) => Out
  }

  function StageOf<T>(capacity: nat, steps: seq<Step<T>>, i: Id): Stage
    decreases |steps|
  {
    if steps == [] then Out
    else
      var stage := StageOf(capacity, Front(steps), i);
      if Last(steps).i == i then NextStage(stage, Last(steps), LastPasses(capacity, steps)) else stage
  }

  /** The mutex and the two lists of sleepers. */
  datatype Lists = Lists(lock: Lock<Id>, takers: Cv<Id>, putters: Cv<Id>)

  function Admit(l: Lock<Id>, first: Option<Id>): Lock<Id> {
    if first.None? then l else Register(l, first.value)
  }

  function NextLists<T>(l: Lists, step: Step<T>, put: bool, passes: bool): Lists {
    match step
    case BeginStep(i, _) => l.(lock := Register(l.lock, i))
    case BodyStep(i) =>
      if passes then l
      else if put then l.(putters := Park(l.putters, i)) else l.(takers := Park(l.takers, i))
    case ThrowStep(_) => l
    case SuspendStep(_) => l.(lock := Unlock(l.lock))
    case UnlockStep(_) => l.(lock := Unlock(l.lock))
    case NotifyStep(_) =>
      if put
      then l.(takers := TakeOne(l.takers).0, lock := Admit(l.lock, TakeOne(l.takers).1))
      else l.(putters := TakeOne(l.putters).0, lock := Admit(l.lock, TakeOne(l.putters).1))
  }

  function ListsOf<T>(capacity: nat, steps: seq<Step<T>>): Lists
    decreases |steps|
  {
    if steps == [] then Lists(Lock(None, []), Cv([], []), Cv([], []))
    else
      var asked := Asked(Front(steps), Last(steps).i);
      NextLists(ListsOf(capacity, Front(steps)), Last(steps), asked.Some? && asked.value.Put?, LastPasses(capacity, steps))
  }

  /** Where a coroutine stands that was asked to do `op`. */
  ghost function Stands<T>(l: Lists, stage: Stage, op: Op<T>, i: Id): Pc<T> {
    var owns := l.lock.owner == Some(i);
    match stage
    case Out => Idle
    case Fresh => if owns then Entered(op, false) else Locking(op)
    case Checked => Parking(op, i in l.lock.queue)
    case Slept => if owns then Entered(op, true) else if i in l.lock.queue then Woken(op) else Asleep(op)
    case Done => Leaving(op)
    case Announces => Notifying(op)
    case Threw(slept) => Thrown(op, slept)
  }

  // ---- one step ----

  /** The program counters a stage allows, wherever the coroutine is listed. */
  ghost predicate Fits<T>(pc: Pc<T>, stage: Stage, asked: Option<Op<T>>) {
    && (!stage.Out? ==> asked.Some?)
    && match stage
       case Out => pc.Idle?
       case Fresh => pc == Locking(asked.value) || pc == Entered(asked.value, false)
       case Checked => pc.Parking? && pc.op == asked.value
       case Slept => pc == Asleep(asked.value) || pc == Woken(asked.value) || pc == Entered(asked.value, true)
       case Done => pc == Leaving(asked.value)
       case Announces => pc == Notifying(asked.value)
       case Threw(slept) => pc == Thrown(asked.value, slept)
  }

  /** All that others do to a coroutine: hand it the mutex, or notify it. */
  ghost predicate Moved<T>(p: Pc<T>, q: Pc<T>) {
    || q == p
    || (p.Locking? && q == Entered(p.op, false))
    || ((p.Asleep? || p.Woken?) && (q == Entered(p.op, true) || q == Woken(p.op)))
    || (p.Parking? && q == Parking(p.op, true))
  }

  lemma WakeMoves<T>(s: State<T>, x: Id, i: Id)
    requires i < |s.pcs| && (x < |s.pcs| && s.pcs[x].Parking? ==> s.lock.owner.Some?)
    ensures i < |Wake(s, x).pcs| && Moved(s.pcs[i], Wake(s, x).pcs[i])
  {
  }

  lemma PassLockMoves<T>(s: State<T>, i: Id)
    requires i < |s.pcs|
    ensures i < |PassLock(s).pcs| && Moved(s.pcs[i], PassLock(s).pcs[i])
  {
  }

  lemma NotifyMoves<T>(s: State<T>, op: Op<T>, i: Id)
    requires PlaceInv(s) && i < |s.pcs|
    ensures i < |Notify(s, op).pcs| && Moved(s.pcs[i], Notify(s, op).pcs[i])
  {
    var items, rooms := TakeOne(s.notEmpty), TakeOne(s.notFull);
    if op.Put? && items.1.Some? {
      WakeMoves(s.(notEmpty := items.0), items.1.value, i);
    } else if !op.Put? && rooms.1.Some? {
      WakeMoves(s.(notFull := rooms.0), rooms.1.value, i);
    }
  }

  /** Another coroutine's step hands over the mutex or notifies, and does nothing else. */
  lemma OthersMove<T>(s: State<T>, step: Step<T>, i: Id)
    requires PlaceInv(s) && Enabled(s, step) && i < |s.pcs| && i != step.i
    ensures i < |Apply(s, step).pcs| && Moved(s.pcs[i], Apply(s, step).pcs[i])
  {
    match step
    case SuspendStep(j) =>
      PassLockMoves(s.(pcs := s.pcs[j := if s.pcs[j].woken then Woken(s.pcs[j].op) else Asleep(s.pcs[j].op)]), i);
    case UnlockStep(j) => PassLockMoves(s.(pcs := s.pcs[j := Notifying(s.pcs[j].op)]), i);
    case NotifyStep(j) =>
      IdlePlaces(s, j);
      NotifyMoves(s.(pcs := s.pcs[j := Idle]), s.pcs[j].op, i);
    case _ =>
  }

  /** A coroutine's own step takes it to the next stage. */
  lemma OwnFits<T>(s: State<T>, step: Step<T>, stage: Stage, asked: Option<Op<T>>, passes: bool)
    requires PlaceInv(s) && Enabled(s, step) && Fits(s.pcs[step.i], stage, asked)
    requires step.BodyStep? ==> passes == (if s.pcs[step.i].op.Put? then s.ring.size != |s.ring.slots| else s.ring.size != 0)
    ensures step.i < |Apply(s, step).pcs|
    ensures Fits(Apply(s, step).pcs[step.i], NextStage(stage, step, passes), if step.BeginStep? then Some(step.op) else asked)
  {
    match step
    case SuspendStep(j) =>
      PassLockMoves(s.(pcs := s.pcs[j := if s.pcs[j].woken then Woken(s.pcs[j].op) else Asleep(s.pcs[j].op)]), j);
    case UnlockStep(j) => PassLockMoves(s.(pcs := s.pcs[j := Notifying(s.pcs[j].op)]), j);
    case NotifyStep(j) =>
      IdlePlaces(s, j);
      NotifyMoves(s.(pcs := s.pcs[j := Idle]), s.pcs[j].op, j);
    case _ =>
  }

  lemma StepFits<T>(s: State<T>, step: Step<T>, i: Id, stage: Stage, asked: Option<Op<T>>, passes: bool)
    requires PlaceInv(s) && Enabled(s, step) && i < |s.pcs| && Fits(s.pcs[i], stage, asked)
    requires step == BodyStep(i) ==> passes == (if s.pcs[i].op.Put? then s.ring.size != |s.ring.slots| else s.ring.size != 0)
    ensures i < |Apply(s, step).pcs|
    ensures Fits(Apply(s, step).pcs[i], if step.i == i then NextStage(stage, step, passes) else stage,
                 if step.BeginStep? && step.i == i then Some(step.op) else asked)
  {
    if step.i == i {
      OwnFits(s, step, stage, asked, passes);
    } else {
      OthersMove(s, step, i);
    }
  }

  function View<T>(s: State<T>): Lists {
    Lists(s.lock, s.notEmpty, s.notFull)
  }

  /** A listed sleeper that is woken registers with the mutex. */
  lemma WakeLists<T>(s: State<T>, x: Id)
    requires x < |s.pcs| && Sleeps(s.pcs[x])
    ensures View(Wake(s, x)) == Lists(Register(s.lock, x), s.notEmpty, s.notFull)
  {
  }

  lemma PutNotifies<T>(s: State<T>, op: Op<T>)
    requires PlaceInv(s) && op.Put?
    ensures View(Notify(s, op)) == Lists(Admit(s.lock, TakeOne(s.notEmpty).1), TakeOne(s.notEmpty).0, s.notFull)
  {
    TakeOneIsFirst(s.notEmpty);
    if CvQueue(s.notEmpty) != [] {
      var x := CvQueue(s.notEmpty)[0];
      assert x in CvQueue(s.notEmpty) && AwaitsItem(s.pcs[x]);
      WakeLists(s.(notEmpty := TakeOne(s.notEmpty).0), x);
    }
  }

  lemma TakeNotifies<T>(s: State<T>, op: Op<T>)
    requires PlaceInv(s) && !op.Put?
    ensures View(Notify(s, op)) == Lists(Admit(s.lock, TakeOne(s.notFull).1), s.notEmpty, TakeOne(s.notFull).0)
  {
    TakeOneIsFirst(s.notFull);
    if CvQueue(s.notFull) != [] {
      var x := CvQueue(s.notFull)[0];
      assert x in CvQueue(s.notFull) && AwaitsRoom(s.pcs[x]);
      WakeLists(s.(notFull := TakeOne(s.notFull).0), x);
    }
  }

  lemma StepLists<T>(s: State<T>, step: Step<T>, put: bool, passes: bool)
    requires PlaceInv(s) && Enabled(s, step)
    requires step.BodyStep? || step.NotifyStep? ==> put == s.pcs[step.i].op.Put?
    requires step.BodyStep? ==> passes == (if put then s.ring.size != |s.ring.slots| else s.ring.size != 0)
    ensures View(Apply(s, step)) == NextLists(View(s), step, put, passes)
  {
    if step.NotifyStep? {
      IdlePlaces(s, step.i);
      var t := s.(pcs := s.pcs[step.i := Idle]);
      if put {
        PutNotifies(t, s.pcs[step.i].op);
      } else {
        TakeNotifies(t, s.pcs[step.i].op);
      }
    }
  }

  ghost function BooksOf<T>(s: State<T>): Books<T>
    requires RingOk(s.ring)
  {
    Books(Contents(s.ring), s.inserted, s.removed)
  }

  lemma BodyBooks<T>(s: State<T>, i: Id)
    requires ItemInv(s) && Enabled(s, BodyStep(i))
    ensures var t := Apply(s, BodyStep(i));
            ItemInv(t) && |t.ring.slots| == |s.ring.slots| && BooksOf(t) == Entry(|s.ring.slots|, BooksOf(s), s.pcs[i].op)
  {
    BodyItems(s, i);
    if s.pcs[i].op.Put? && s.ring.size < |s.ring.slots| {
      PushAppends(s.ring, s.pcs[i].op.item);
    } else if !s.pcs[i].op.Put? && s.ring.size > 0 {
      PopRemovesFirst(s.ring);
    }
  }

  lemma OtherBooks<T>(s: State<T>, step: Step<T>)
    requires Enabled(s, step) && !step.BodyStep?
    ensures var t := Apply(s, step); t.ring == s.ring && t.inserted == s.inserted && t.removed == s.removed
  {
  }

  // ---- whole runs ----

  ghost predicate Told<T>(capacity: nat, n: nat, steps: seq<Step<T>>, s: State<T>) {
    && Inv(s) && |s.ring.slots| == capacity && |s.pcs| == n
    && BooksOf(s) == Ledger(capacity, steps)
    && View(s) == ListsOf(capacity, steps)
    && forall i :: 0 <= i < n ==> Fits(s.pcs[i], StageOf(capacity, steps, i), Asked(steps, i))
  }

  lemma AllFit<T>(capacity: nat, n: nat, steps: seq<Step<T>>, s: State<T>)
    requires steps != [] && Told(capacity, n, Front(steps), s) && Enabled(s, Last(steps))
    ensures |Apply(s, Last(steps)).pcs| == n
    ensures forall i :: 0 <= i < n ==> Fits(Apply(s, Last(steps)).pcs[i], StageOf(capacity, steps, i), Asked(steps, i))
  {
    var front, last := Front(steps), Last(steps);
    StepSize(s, last);
    assert Fits(s.pcs[last.i], StageOf(capacity, front, last.i), Asked(front, last.i));
    forall i | 0 <= i < n
      ensures Fits(Apply(s, last).pcs[i], StageOf(capacity, steps, i), Asked(steps, i))
    {
      StepFits(s, last, i, StageOf(capacity, front, i), Asked(front, i), LastPasses(capacity, steps));
    }
  }

  lemma StepTold<T>(capacity: nat, n: nat, steps: seq<Step<T>>, s: State<T>)
    requires steps != [] && Told(capacity, n, Front(steps), s) && Enabled(s, Last(steps))
    ensures Told(capacity, n, steps, Apply(s, Last(steps)))
  {
    var front, last := Front(steps), Last(steps);
    var asked := Asked(front, last.i);
    assert Fits(s.pcs[last.i], StageOf(capacity, front, last.i), asked);
    AllFit(capacity, n, steps, s);
    StepKeeps(s, last);
    StepLists(s, last, asked.Some? && asked.value.Put?, LastPasses(capacity, steps));
    if last.BodyStep? {
      BodyBooks(s, last.i);
    } else {
      OtherBooks(s, last);
    }
  }

  lemma StepSize<T>(s: State<T>, step: Step<T>)
    requires Enabled(s, step)
    ensures |Apply(s, step).pcs| == |s.pcs|
  {
  }

  lemma {:induction false} RunTold<T>(capacity: nat, n: nat, steps: seq<Step<T>>)
    requires capacity > 0 && Runs(Init<T>(capacity, n), steps)
    decreases |steps|
    ensures Told(capacity, n, steps, Exec(Init<T>(capacity, n), steps))
  {
    if steps == [] {
      InitInv<T>(capacity, n);
      EmptyRingOk<T>(capacity);
    } else {
      RunTold(capacity, n, Front(steps));
      StepTold(capacity, n, steps, Exec(Init<T>(capacity, n), Front(steps)));
    }
  }

  /** In every run the channel's content, what was put and what was got are those the
      steps alone tell: each put puts the item it was asked to put, each take gets the oldest. */
  lemma BooksFromSteps<T>(capacity: nat, n: nat, steps: seq<Step<T>>)
    requires capacity > 0 && Runs(Init<T>(capacity, n), steps)
    ensures var s := Exec(Init<T>(capacity, n), steps);
            RingOk(s.ring) && Ledger(capacity, steps) == Books(Contents(s.ring), s.inserted, s.removed)
  {
    RunTold(capacity, n, steps);
  }

  /** In every run a coroutine stands where the steps alone put it, at work on what it was asked to do. */
  lemma StandsWhereStepsSay<T>(capacity: nat, n: nat, steps: seq<Step<T>>, i: Id)
    requires capacity > 0 && Runs(Init<T>(capacity, n), steps) && i < n
    ensures var s := Exec(Init<T>(capacity, n), steps);
            && View(s) == ListsOf(capacity, steps) && i < |s.pcs|
            && (Asked(steps, i).None? ==> s.pcs[i].Idle?)
            && (Asked(steps, i).Some? ==>
                  s.pcs[i] == Stands(ListsOf(capacity, steps), StageOf(capacity, steps, i), Asked(steps, i).value, i))
  {
    RunTold(capacity, n, steps);
    var s := Exec(Init<T>(capacity, n), steps);
    assert Fits(s.pcs[i], StageOf(capacity, steps, i), Asked(steps, i));
    assert AwaitsItem(s.pcs[i]) <==> i in CvQueue(s.notEmpty);
    assert InLock(s.pcs[i]) <==> i in s.lock.queue;
  }

  /** The steps open to a coroutine at a stage. */
  predicate Open<T>(stage: Stage, owns: bool, passes: bool, step: Step<T>) {
    match step
    case BeginStep(_, _) => stage.Out?
    case BodyStep(_) => owns && (stage.Fresh? || stage.Slept?)
    case ThrowStep(_) => owns && (stage.Fresh? || stage.Slept?) && passes
    case SuspendStep(_) => stage.Checked?
    case UnlockStep(_) => stage.Done?
    case NotifyStep(_) => stage.Announces?
  }

  lemma FitsOpen<T>(s: State<T>, step: Step<T>, stage: Stage, asked: Option<Op<T>>)
    requires Inv(s) && step.i < |s.pcs| && Fits(s.pcs[step.i], stage, asked)
    ensures Enabled(s, step) <==>
              Open(stage, s.lock.owner == Some(step.i),
                   asked.Some? && !asked.value.Drop? && Passes(|s.ring.slots|, BooksOf(s), asked.value), step)
  {
    assert Owns(s.pcs[step.i]) <==> s.lock.owner == Some(step.i);
    if s.ring.size > 0 {
      PopRemovesFirst(s.ring);
    }
  }

  /** What a coroutine may do next follows from what it did last, who owns the mutex
      and whether there is room, or an item. */
  lemma MayDo<T>(capacity: nat, n: nat, steps: seq<Step<T>>, step: Step<T>)
    requires capacity > 0 && Runs(Init<T>(capacity, n), steps) && step.i < n
    ensures var asked := Asked(steps, step.i);
            Enabled(Exec(Init<T>(capacity, n), steps), step) <==>
              Open(StageOf(capacity, steps, step.i), ListsOf(capacity, steps).lock.owner == Some(step.i),
                   asked.Some? && !asked.value.Drop? && Passes(capacity, Ledger(capacity, steps), asked.value), step)
  {
    RunTold(capacity, n, steps);
    FitsOpen(Exec(Init<T>(capacity, n), steps), step, StageOf(capacity, steps, step.i), Asked(steps, step.i));
  }

  // ---- every operation runs its course ----

  ghost function Begins<T>(steps: seq<Step<T>>, i: Id): nat
    decreases |steps|
  {
    if steps == [] then 0 else Begins(Front(steps), i) + Weight(Last(steps).BeginStep? && Last(steps).i == i)
  }

  /** Critical sections of `i` in which there was room, or an item. */
  ghost function Passed<T>(capacity: nat, steps: seq<Step<T>>, i: Id): nat
    decreases |steps|
  {
    if steps == [] then 0
    else Passed(capacity, Front(steps), i) + Weight(Last(steps).i == i && LastPasses(capacity, steps))
  }

  ghost function Unlocks<T>(steps: seq<Step<T>>, i: Id): nat
    decreases |steps|
  {
    if steps == [] then 0 else Unlocks(Front(steps), i) + Weight(Last(steps) == UnlockStep(i))
  }

  ghost function Notifies<T>(steps: seq<Step<T>>, i: Id): nat
    decreases |steps|
  {
    if steps == [] then 0 else Notifies(Front(steps), i) + Weight(Last(steps) == NotifyStep(i))
  }

  /** In every run each operation of a coroutine passes its critical section exactly
      once, then unlocks once and notifies once, before it is over. */
  lemma {:induction false} EachOperationOnce<T>(capacity: nat, n: nat, steps: seq<Step<T>>, i: Id)
    requires capacity > 0 && Runs(Init<T>(capacity, n), steps) && i < n
    decreases |steps|
    ensures var begun, passed := Begins(steps, i), Passed(capacity, steps, i);
            var unlocked, stage := Unlocks(steps, i), StageOf(capacity, steps, i);
            && begun == passed + Weight(!stage.Out? && !stage.Done? && !stage.Announces?)
            && passed == unlocked + Weight(stage.Done?)
            && unlocked == Notifies(steps, i) + Weight(stage.Announces?)
  {
    if steps != [] {
      var front, last := Front(steps), Last(steps);
      EachOperationOnce(capacity, n, front, i);
      if last.i == i {
        MayDo(capacity, n, front, last);
      }
    }
  }
}
