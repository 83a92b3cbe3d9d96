/** The eventfd as the epoll instance sees it, and the batch of ready events. */
module EpollQueue {
  import opened Common

  /** A completed operation resumes its coroutine, unless it starts the second half of a chain. */
  datatype Event = EventFd | Io(resumes: bool)

  /** `counter` is the eventfd's value, `edge` its place in the kernel's ready
      list, `ready` the fetched events not handled yet. */
  datatype Epoll = Epoll(counter: nat, edge: bool, ready: seq<Event>)

  function Wakeup(e: Epoll): Epoll { e.(counter := e.counter + 1, edge := true) }

  function Drain(e: Epoll): Epoll { e.(counter := 0) }

  /** Registering again puts a readable eventfd back on the ready list. */
  function Arm(e: Epoll): Epoll { e.(edge := e.edge || e.counter > 0) }

  /** What a wait may return: the eventfd once and only if listed and readable;
      it is passed over only when the batch is full of other events. */
  ghost predicate MayReturn(maxEvents: nat, e: Epoll, events: seq<Event>) {
    && 0 < |events| <= maxEvents
    && (EventFd in events ==> e.edge && e.counter > 0 && multiset(events)[EventFd] == 1)
    && (EventFd !in events && e.edge && e.counter > 0 ==> |events| == maxEvents)
  }

  function Fetch(e: Epoll, events: seq<Event>): Epoll {
    e.(ready := events, edge := e.edge && EventFd !in events)
  }

  /** `wait_completion`, with the answer of the kernel should it have to ask; true
      stands for an I/O completion. An empty answer is an interrupted wait. */
  function WaitCompletion(e: Epoll, answer: seq<Event>): (Epoll, bool) {
    var f := if e.ready == [] then Fetch(e, answer) else e;
    if f.ready == [] then (f, false)
    else
      var g := f.(ready := f.ready[1..]);
      if f.ready[0].EventFd? then (Arm(Drain(g)), false) else (g, true)
  }

  /** A raised counter is on its way to the loop. */
  predicate Pending(e: Epoll) { e.counter > 0 ==> e.edge || EventFd in e.ready }
}

/** Spawners on other threads, the event loop of one worker and its epoll instance. */
module WakeupProtocol {
  import opened Common
  import opened EpollQueue

  /** Where the loop is. */
  datatype Pc =
    | AtDrain          // about to lock and swap the cross queue
    | Forwarding       // drain loop
    | AtDeferred       // deferred loop
    | Working          // about to schedule
    | Running          // a resumed coroutine runs
    | Polling          // about to wait for a completion
    | Arming           // eventfd read, not registered again yet

  /** Queues are counted. `owes` spawners found the cross queue empty and have not
      written the eventfd yet; `stranded`: the ring overflowed into an empty cross
      queue that has not been drained since. */
  datatype State = State(cross: nat, owes: nat, stranded: bool, batch: nat, deferred: nat, ring: nat, epoll: Epoll, pc: Pc)

  datatype Step =
    | SpawnCross
    | WriteEventFd
    | TakeBatch
    | ForwardBatch
    | ForwardDeferred
    | Schedule
    | SpawnHere
    | Defer
    | Suspend
    | Interrupted
    | Wait(events: seq<Event>)
    | Handle
    | Rearm

  /** A worker has a ring of `cap` slots and fetches up to `maxEvents` events. */
  datatype Config = Config(cap: nat, maxEvents: nat)

  function Init(): State { State(0, 0, false, 0, 0, 0, Epoll(0, false, []), AtDrain) }

  ghost predicate Enabled(c: Config, s: State, step: Step) {
    match step
    case SpawnCross => true
    case WriteEventFd => s.owes > 0
    case TakeBatch => s.pc.AtDrain?
    case ForwardBatch => s.pc.Forwarding?
    case ForwardDeferred => s.pc.AtDeferred?
    case Schedule => s.pc.Working?
    case SpawnHere => s.pc.Running?
    case Defer => s.pc.Running?
    case Suspend => s.pc.Running?
    case Interrupted => s.pc.Polling? && s.epoll.ready == []
    case Wait(events) => s.pc.Polling? && s.epoll.ready == [] && MayReturn(c.maxEvents, s.epoll, events)
    case Handle => s.pc.Polling? && s.epoll.ready != []
    case Rearm => s.pc.Arming?
  }

  /** `forward_task`: an overflow goes to the cross queue without a wakeup. */
  function Forward(c: Config, s: State): State {
    if s.ring < c.cap then s.(ring := s.ring + 1)
    else s.(cross := s.cross + 1, stranded := s.stranded || s.cross == 0)
  }

  function Apply(c: Config, s: State, step: Step): State {
    match step
    case SpawnCross => s.(cross := s.cross + 1, owes := if s.cross == 0 then s.owes + 1 else s.owes)
    case WriteEventFd => if s.owes > 0 then s.(owes := s.owes - 1, epoll := Wakeup(s.epoll)) else s
    case TakeBatch =>
      if s.cross == 0 then s.(pc := AtDeferred)
      else s.(batch := s.batch + s.cross, cross := 0, stranded := false, pc := Forwarding)
    case ForwardBatch => if s.batch > 0 then Forward(c, s.(batch := s.batch - 1)) else s.(pc := AtDeferred)
    case ForwardDeferred => if s.deferred > 0 then Forward(c, s.(deferred := s.deferred - 1)) else s.(pc := Working)
    case Schedule => if s.ring > 0 then s.(ring := s.ring - 1, pc := Running) else s.(pc := Polling)
    case SpawnHere => Forward(c, s)
    case Defer => s.(deferred := s.deferred + 1)
    case Suspend => s.(pc := Working)
    case Interrupted => s.(pc := AtDrain)
    case Wait(events) => s.(epoll := Fetch(s.epoll, events))
    case Handle =>
      if s.epoll.ready == [] then s
      else
        var t := s.(epoll := s.epoll.(ready := s.epoll.ready[1..]));
        if s.epoll.ready[0].EventFd? then t.(epoll := Drain(t.epoll), pc := Arming)
        else if s.epoll.ready[0].resumes then Forward(c, t.(pc := AtDrain))
        else t.(pc := AtDrain)
    case Rearm => s.(epoll := Arm(s.epoll), pc := AtDrain)
  }

  /** The loop comes to the cross queue before it can park. */
  predicate WillDrain(s: State) { s.pc.AtDrain? || s.pc.Arming? }

  /** Somebody remembers that the cross queue is not empty. */
  predicate Covered(s: State) {
    s.cross > 0 ==> s.owes > 0 || s.epoll.counter > 0 || WillDrain(s) || s.stranded
  }

  predicate Inv(s: State) {
    && Covered(s) && Pending(s.epoll)
    && (s.stranded ==> s.cross > 0)
    && (s.batch > 0 ==> s.pc.Forwarding?)
    && (s.pc.Polling? ==> s.ring == 0)
  }

  /** Blocked in the wait: nothing fetched, nothing to fetch, nobody about to write. */
  predicate Parked(s: State) {
    s.pc.Polling? && s.epoll.ready == [] && s.owes == 0 && !(s.epoll.edge && s.epoll.counter > 0)
  }

  lemma StepKeeps(c: Config, s: State, step: Step)
    requires Inv(s) && Enabled(c, s, step)
    ensures Inv(Apply(c, s, step))
  {
    if step.Handle? {
      HandleKeeps(c, s);
    }
  }

  lemma HandleKeeps(c: Config, s: State)
    requires Inv(s) && Enabled(c, s, Handle)
    ensures Inv(Apply(c, s, Handle))
  {
    var ready := s.epoll.ready;
    assert ready == [ready[0]] + ready[1..];
    assert ready[0].Io? ==> (EventFd in ready <==> EventFd in ready[1..]);
  }

  /** The steps of one call of `wait_completion` change the epoll instance as the call does. */
  lemma WaitIsSteps(c: Config, s: State, answer: seq<Event>)
    requires s.pc.Polling? && answer != []
    ensures var t := if s.epoll.ready == [] then Apply(c, s, Wait(answer)) else s;
            var u := Apply(c, t, Handle);
            var v := if u.pc.Arming? then Apply(c, u, Rearm) else u;
            (v.epoll, !u.pc.Arming?) == WaitCompletion(s.epoll, answer) && v.pc.AtDrain?
  {
    var t := if s.epoll.ready == [] then Apply(c, s, Wait(answer)) else s;
    assert t.epoll.ready != [] && t.pc.Polling?;
  }

  // ---- whole runs ----

  ghost predicate Runs(c: Config, s: State, steps: seq<Step>)
    decreases |steps|
  {
    steps == [] || (Enabled(c, s, steps[0]) && Runs(c, Apply(c, s, steps[0]), steps[1..]))
  }

  function Exec(c: Config, s: State, steps: seq<Step>): State
    decreases |steps|
  {
    if steps == [] then s else Exec(c, Apply(c, s, steps[0]), steps[1..])
  }

  lemma {:induction false} RunKeeps(c: Config, s: State, steps: seq<Step>)
    requires Inv(s) && Runs(c, s, steps)
    decreases |steps|
    ensures Inv(Exec(c, s, steps))
  {
    if steps != [] {
      StepKeeps(c, s, steps[0]);
      RunKeeps(c, Apply(c, s, steps[0]), steps[1..]);
    }
  }

  lemma {:induction false} RunsAppend(c: Config, s: State, a: seq<Step>, b: seq<Step>)
    requires Runs(c, s, a) && Runs(c, Exec(c, s, a), b)
    decreases |a|
    ensures Runs(c, s, a + b) && Exec(c, s, a + b) == Exec(c, Exec(c, s, a), b)
  {
    if a == [] {
      assert a + b == b;
    } else {
      assert (a + b)[1..] == a[1..] + b;
      RunsAppend(c, Apply(c, s, a[0]), a[1..], b);
    }
  }

  /** Coalesced wakeups lose nothing: in every run a parked loop has an empty ring
      and batch, and work is left in its cross queue exactly when the ring
      overflowed into that queue while it was empty. */
  lemma ParkedWithWorkIffStranded(c: Config, steps: seq<Step>)
    requires Runs(c, Init(), steps) && Parked(Exec(c, Init(), steps))
    ensures var s := Exec(c, Init(), steps);
            s.ring == 0 && s.batch == 0 && (s.cross > 0 <==> s.stranded)
  {
    RunKeeps(c, Init(), steps);
  }

  /** The steps that put a handle into the ring: the last turn of a drain loop and
      the handling of the eventfd do not. */
  predicate Forwards(s: State, step: Step) {
    match step
    case ForwardBatch => s.batch > 0
    case ForwardDeferred => s.deferred > 0
    case SpawnHere => true
    case Handle => s.epoll.ready != [] && s.epoll.ready[0] == Io(true)
    case _ => false
  }

  predicate Roomy(c: Config, s: State, step: Step) {
    Forwards(s, step) ==> s.ring < c.cap
  }

  /** No handle meets a full ring. */
  ghost predicate NeverFull(c: Config, s: State, steps: seq<Step>)
    decreases |steps|
  {
    steps == [] || (Roomy(c, s, steps[0]) && NeverFull(c, Apply(c, s, steps[0]), steps[1..]))
  }

  lemma {:induction false} NeverFullNeverStrands(c: Config, s: State, steps: seq<Step>)
    requires !s.stranded && NeverFull(c, s, steps)
    decreases |steps|
    ensures !Exec(c, s, steps).stranded
  {
    if steps != [] {
      NeverFullNeverStrands(c, Apply(c, s, steps[0]), steps[1..]);
    }
  }

  /** In runs in which no handle meets a full ring the loop is never parked with
      work queued by another thread. */
  lemma NoWakeupLost(c: Config, steps: seq<Step>)
    requires Runs(c, Init(), steps) && NeverFull(c, Init(), steps) && Parked(Exec(c, Init(), steps))
    ensures Exec(c, Init(), steps).cross == 0
  {
    ParkedWithWorkIffStranded(c, steps);
    NeverFullNeverStrands(c, Init(), steps);
  }

  /** A step of the loop's own thread, with whatever the kernel answers. */
  predicate OfLoop(step: Step) { !step.SpawnCross? && !step.WriteEventFd? }

  function LoopSteps(steps: seq<Step>): nat { Count(steps, OfLoop) }

  /** How many of its own steps the loop is away from the swap of the cross queue, at most. */
  function Distance(s: State): nat
    requires s.pc.Polling? || WillDrain(s)
  {
    match s.pc
    case Polling => if s.epoll.ready == [] then 4 else 3
    case Arming => 2
    case _ => 1
  }

  /** From a poll to an empty cross queue the loop takes at most four steps of its
      own, whatever the kernel answers and however the spawners interleave. */
  lemma {:induction false} DrainedWithinFour(c: Config, s: State, steps: seq<Step>) returns (k: nat)
    requires (s.pc.Polling? || WillDrain(s)) && Runs(c, s, steps) && LoopSteps(steps) >= Distance(s)
    ensures k <= |steps| && LoopSteps(steps[..k]) <= Distance(s) <= 4
    ensures Runs(c, s, steps[..k]) && Exec(c, s, steps[..k]).cross == 0
    decreases |steps|
  {
    var first, t := steps[0], Apply(c, s, steps[0]);
    if first.TakeBatch? {
      k := 1;
      assert steps[..1] == [first] && [first][1..] == [];
      assert LoopSteps([first]) == 1 + LoopSteps([]);
    } else {
      var rest := steps[1..];
      k := DrainedWithinFour(c, t, rest);
      assert steps[..k + 1] == [first] + rest[..k] && steps[..k + 1][1..] == rest[..k];
      k := k + 1;
    }
  }

  /** And it is not blocked before: once every spawner has written, such steps exist. */
  lemma NextDrain(c: Config, s: State) returns (steps: seq<Step>)
    requires Inv(s) && c.maxEvents > 0 && c.cap > 0
    requires s.pc.Polling? && s.owes == 0 && s.cross > 0 && !s.stranded
    ensures |steps| <= 4 && forall x :: x in steps ==> x.Wait? || x.Handle? || x.Rearm? || x.TakeBatch?
    ensures Runs(c, s, steps) && Exec(c, s, steps).cross == 0
  {
    if s.epoll.ready == [] {
      var events := [EventFd];
      var t := Apply(c, s, Wait(events));
      StepKeeps(c, s, Wait(events));
      var rest := Unread(c, t);
      steps := [Wait(events)] + rest;
      assert steps[1..] == rest;
    } else {
      steps := Unread(c, s);
    }
  }

  lemma Unread(c: Config, s: State) returns (steps: seq<Step>)
    requires Inv(s) && c.cap > 0 && s.pc.Polling? && s.epoll.ready != [] && s.cross > 0
    ensures |steps| <= 3 && forall x :: x in steps ==> x.Handle? || x.Rearm? || x.TakeBatch?
    ensures Runs(c, s, steps) && Exec(c, s, steps).cross == 0
  {
    var t := Apply(c, s, Handle);
    if s.epoll.ready[0].EventFd? {
      var u := Apply(c, t, Rearm);
      steps := [Handle, Rearm, TakeBatch];
      assert steps[1..] == [Rearm, TakeBatch] && steps[1..][1..] == [TakeBatch] && [TakeBatch][1..] == [];
      assert Runs(c, u, [TakeBatch]) && Runs(c, t, steps[1..]);
      assert Exec(c, u, [TakeBatch]) == Apply(c, u, TakeBatch);
    } else {
      steps := [Handle, TakeBatch];
      assert steps[1..] == [TakeBatch] && [TakeBatch][1..] == [];
      assert Runs(c, t, [TakeBatch]);
      assert Exec(c, t, [TakeBatch]) == Apply(c, t, TakeBatch);
    }
  }

  // ---- the deferred queue ----

  /** The yields since the deferred loop last ended: `n` before the run, and those
      of the run after its last turn of that loop that found nothing. */
  function Yields(c: Config, s: State, steps: seq<Step>, n: nat): nat
    decreases |steps|
  {
    if steps == [] then n
    else Yields(c, Apply(c, s, steps[0]), steps[1..],
                if steps[0].Defer? then n + 1
                else if steps[0].ForwardDeferred? && s.deferred == 0 then 0
                else n)
  }

  lemma {:induction false} DeferredIsYields(c: Config, s: State, steps: seq<Step>, n: nat)
    requires Runs(c, s, steps) && (!s.pc.AtDeferred? ==> s.deferred == n)
    decreases |steps|
    ensures var t := Exec(c, s, steps); !t.pc.AtDeferred? ==> t.deferred == Yields(c, s, steps, n)
  {
    if steps != [] {
      var m := if steps[0].Defer? then n + 1 else if steps[0].ForwardDeferred? && s.deferred == 0 then 0 else n;
      DeferredIsYields(c, Apply(c, s, steps[0]), steps[1..], m);
    }
  }

  /** In every run a parked loop holds exactly the coroutines that yielded since its
      deferred loop last ended; so it holds one if and only if one has. */
  lemma ParkedWithYieldedIff(c: Config, steps: seq<Step>)
    requires Runs(c, Init(), steps) && Parked(Exec(c, Init(), steps))
    ensures Exec(c, Init(), steps).deferred == Yields(c, Init(), steps, 0)
    ensures Exec(c, Init(), steps).deferred > 0 <==> Yields(c, Init(), steps, 0) > 0
  {
    DeferredIsYields(c, Init(), steps, 0);
  }

  // ---- runs that park with work ----

  /** `steps` leads from `s` to `t`. */
  ghost predicate Leads(c: Config, s: State, steps: seq<Step>, t: State) {
    Runs(c, s, steps) && Exec(c, s, steps) == t
  }

  lemma Then(c: Config, s: State, steps: seq<Step>, t: State, step: Step)
    requires Leads(c, s, steps, t) && Enabled(c, t, step)
    ensures Leads(c, s, steps + [step], Apply(c, t, step))
  {
    assert [step][1..] == [];
    RunsAppend(c, s, steps, [step]);
  }

  function Times(step: Step, n: nat): seq<Step> {
    if n == 0 then [] else [step] + Times(step, n - 1)
  }

  lemma {:induction false} Burst(c: Config, s: State, n: nat)
    requires s.pc.Running? && s.ring + n <= c.cap
    ensures Leads(c, s, Times(SpawnHere, n), s.(ring := s.ring + n))
    decreases n
  {
    if n > 0 {
      var steps := Times(SpawnHere, n);
      assert steps[0] == SpawnHere && steps[1..] == Times(SpawnHere, n - 1);
      Burst(c, Apply(c, s, SpawnHere), n - 1);
    }
  }

  function RunRing(n: nat): seq<Step> {
    if n == 0 then [Schedule] else [Schedule] + [Suspend] + RunRing(n - 1)
  }

  lemma {:induction false} Empties(c: Config, s: State)
    requires s.pc.Working?
    ensures Leads(c, s, RunRing(s.ring), s.(ring := 0, pc := Polling))
    decreases s.ring
  {
    var steps := RunRing(s.ring);
    if s.ring == 0 {
      assert steps[1..] == [];
    } else {
      var t := Apply(c, s, Schedule);
      assert steps[0] == Schedule && steps[1..] == [Suspend] + RunRing(s.ring - 1);
      assert steps[1..][1..] == RunRing(s.ring - 1);
      Empties(c, Apply(c, t, Suspend));
    }
  }

  lemma One(c: Config, s: State, step: Step)
    requires Enabled(c, s, step)
    ensures Leads(c, s, [step], Apply(c, s, step))
  {
    assert [step][1..] == [];
  }

  lemma Joins(c: Config, s: State, a: seq<Step>, t: State, b: seq<Step>, u: State)
    requires Leads(c, s, a, t) && Leads(c, t, b, u)
    ensures Leads(c, s, a + b, u)
  {
    RunsAppend(c, s, a, b);
  }

  lemma Pass(c: Config, s: State) returns (steps: seq<Step>)
    requires s.pc.AtDrain? && s.cross == 0 && s.deferred == 0
    ensures Leads(c, s, steps, s.(pc := Working))
  {
    One(c, s, TakeBatch);
    Then(c, s, [TakeBatch], s.(pc := AtDeferred), ForwardDeferred);
    steps := [TakeBatch] + [ForwardDeferred];
  }

  lemma Carry(c: Config, s: State) returns (steps: seq<Step>)
    requires s.pc.AtDrain? && s.cross == 1 && s.batch == s.deferred == s.ring == 0 && c.cap > 0
    ensures Leads(c, s, steps, s.(cross := 0, stranded := false, pc := Running))
  {
    One(c, s, TakeBatch);
    var t := Apply(c, s, TakeBatch);
    steps := [TakeBatch];
    Then(c, s, steps, t, ForwardBatch);
    t, steps := t.(batch := 0, ring := 1), steps + [ForwardBatch];
    Then(c, s, steps, t, ForwardBatch);
    t, steps := t.(pc := AtDeferred), steps + [ForwardBatch];
    Then(c, s, steps, t, ForwardDeferred);
    t, steps := t.(pc := Working), steps + [ForwardDeferred];
    Then(c, s, steps, t, Schedule);
    steps := steps + [Schedule];
  }

  /** A cross-thread spawn wakes the parked loop and sends it to its queue. */
  lemma WakeUp(c: Config, s: State) returns (steps: seq<Step>)
    requires s.pc.Polling? && s.epoll == Epoll(0, false, []) && s.cross == s.owes == 0 && c.maxEvents > 0
    ensures Leads(c, s, steps, s.(cross := 1, pc := AtDrain))
  {
    var events := [EventFd];
    One(c, s, SpawnCross);
    var t := Apply(c, s, SpawnCross);
    steps := [SpawnCross];
    Then(c, s, steps, t, WriteEventFd);
    t, steps := t.(owes := 0, epoll := Epoll(1, true, [])), steps + [WriteEventFd];
    Then(c, s, steps, t, Wait(events));
    t, steps := t.(epoll := Epoll(1, false, events)), steps + [Wait(events)];
    Then(c, s, steps, t, Handle);
    t, steps := t.(epoll := Epoll(0, false, []), pc := Arming), steps + [Handle];
    Then(c, s, steps, t, Rearm);
    steps := steps + [Rearm];
  }

  /** One handle spawned from outside, woken up for and resumed. */
  lemma FirstTask(c: Config) returns (steps: seq<Step>)
    requires c.cap > 0 && c.maxEvents > 0
    ensures Leads(c, Init(), steps, Init().(pc := Running))
  {
    var s := Init();
    var pass := Pass(c, s);
    Then(c, s, pass, s.(pc := Working), Schedule);
    var wake := WakeUp(c, s.(pc := Polling));
    Joins(c, s, pass + [Schedule], s.(pc := Polling), wake, s.(cross := 1));
    var carry := Carry(c, s.(cross := 1));
    steps := pass + [Schedule] + wake;
    Joins(c, s, steps, s.(cross := 1), carry, s.(pc := Running));
    steps := steps + carry;
  }

  /** For every ring size a coroutine that spawns one handle more than the ring
      holds leaves the loop parked with that handle in the cross queue. */
  lemma OverflowStrands(c: Config) returns (steps: seq<Step>)
    requires c.cap > 0 && c.maxEvents > 0
    ensures Runs(c, Init(), steps)
    ensures Parked(Exec(c, Init(), steps)) && Exec(c, Init(), steps).cross == 1
  {
    var first := FirstTask(c);
    var s := Init().(pc := Running);
    Burst(c, s, c.cap);
    RunsAppend(c, Init(), first, Times(SpawnHere, c.cap));
    var burst := first + Times(SpawnHere, c.cap);
    var t := s.(ring := c.cap);
    Then(c, Init(), burst, t, SpawnHere);
    Then(c, Init(), burst + [SpawnHere], Forward(c, t), Suspend);
    var u := Forward(c, t).(pc := Working);
    Empties(c, u);
    steps := burst + [SpawnHere] + [Suspend] + RunRing(u.ring);
    RunsAppend(c, Init(), burst + [SpawnHere] + [Suspend], RunRing(u.ring));
  }

  /** A coroutine that yields when nothing else is ready leaves the loop parked
      with that coroutine in the deferred queue. */
  lemma YieldParks(c: Config) returns (steps: seq<Step>)
    requires c.cap > 0 && c.maxEvents > 0
    ensures Runs(c, Init(), steps)
    ensures Parked(Exec(c, Init(), steps)) && Exec(c, Init(), steps).deferred == 1
  {
    var first := FirstTask(c);
    var s := Init().(pc := Running);
    Then(c, Init(), first, s, Defer);
    Then(c, Init(), first + [Defer], s.(deferred := 1), Suspend);
    Then(c, Init(), first + [Defer] + [Suspend], s.(deferred := 1, pc := Working), Schedule);
    steps := first + [Defer] + [Suspend] + [Schedule];
  }
}

/** The proactor's ready queue in place; `counter` and `edge` are the kernel's. */
module EpollHeap {
  import opened EpollQueue

  class Proactor {
    var counter: nat
    var edge: bool
    const readyEvents: array<Event>
    var readyPos: nat
    var readyCount: nat

    predicate Valid()
      reads this
    {
      readyPos <= readyCount <= readyEvents.Length
    }

    function View(): Epoll
      requires Valid()
      reads this, readyEvents
    {
      Epoll(counter, edge, readyEvents[readyPos..readyCount])
    }

    constructor (maxEvents: nat)
      ensures Valid() && fresh(readyEvents) && readyEvents.Length == maxEvents && View() == Epoll(0, false, [])
    {
      readyEvents := new Event[maxEvents](_ => Io(true));
      counter, edge, readyPos, readyCount := 0, false, 0, 0;
    }

    method WriteEventfd()
      requires Valid()
      modifies this`counter, this`edge
      ensures Valid() && View() == Wakeup(old(View()))
    {
      counter, edge := counter + 1, true;
    }

    method DrainEventfd()
      requires Valid()
      modifies this`counter
      ensures Valid() && View() == Drain(old(View()))
    {
      counter := 0;
    }

    method ArmEventfd()
      requires Valid()
      modifies this`edge
      ensures Valid() && View() == Arm(old(View()))
    {
      if counter > 0 {
        edge := true;
      }
    }

    /** The kernel writes its answer over the exhausted batch. */
    method WriteEvents(answer: seq<Event>)
      requires |answer| <= readyEvents.Length
      modifies readyEvents
      ensures readyEvents[..|answer|] == answer
    {
      var i := 0;
      while i < |answer|
        invariant 0 <= i <= |answer|
        invariant forall k :: 0 <= k < i ==> readyEvents[k] == answer[k]
      {
        readyEvents[i] := answer[i];
        i := i + 1;
      }
    }

    method FillReadyQueue(answer: seq<Event>) returns (any: bool)
      requires Valid() && readyPos == readyCount && |answer| <= readyEvents.Length
      modifies this`edge, this`readyPos, this`readyCount, readyEvents
      ensures Valid() && View() == Fetch(old(View()), answer) && any == (answer != [])
      ensures counter == old(counter)
    {
      WriteEvents(answer);
      readyPos, readyCount := 0, |answer|;
      assert readyEvents[0..readyCount] == readyEvents[..|answer|] == answer;
      if EventFd in answer {
        edge := false;
      }
      any := |answer| > 0;
    }

    method WaitForCompletion(answer: seq<Event>) returns (completed: bool)
      requires Valid() && |answer| <= readyEvents.Length
      modifies this, readyEvents
      ensures Valid() && (View(), completed) == WaitCompletion(old(View()), answer)
    {
      if readyPos >= readyCount {
        var any := FillReadyQueue(answer);
        if !any {
          return false;
        }
      }
      ghost var ready := View().ready;
      var ev := readyEvents[readyPos];
      readyPos := readyPos + 1;
      assert ev == ready[0] && View().ready == ready[1..];
      completed := !ev.EventFd?;
      if ev.EventFd? {
        DrainEventfd();
        ArmEventfd();
      }
    }
  }
}
