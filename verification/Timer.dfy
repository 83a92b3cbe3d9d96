/** Timer entries in the order of the priority queue. */
module TimerQueue {
  import opened Common

  datatype Entry = Entry(deadline: int, seqNo: nat, op: nat)

  function Max(a: int, b: int): int { if a < b then b else a }

  /** The order in which entries leave the heap: by deadline, then by submission. */
  predicate Before(a: Entry, b: Entry) {
    a.deadline < b.deadline || (a.deadline == b.deadline && a.seqNo < b.seqNo)
  }

  ghost predicate Sorted(s: seq<Entry>) {
    forall i, j :: 0 <= i < j < |s| ==> Before(s[i], s[j])
  }

  /** The priority queue is kept as the sequence in which it would be popped. */
  function Insert(heap: seq<Entry>, e: Entry): (r: seq<Entry>)
    ensures multiset(r) == multiset(heap) + multiset{e}
  {
    if heap == [] then [e]
    else if Before(heap[0], e) then
      assert heap == [heap[0]] + heap[1..];
      [heap[0]] + Insert(heap[1..], e)
    else [e] + heap
  }

  lemma InsertMembers(heap: seq<Entry>, e: Entry)
    ensures forall x :: x in Insert(heap, e) <==> x in heap || x == e
  {
    forall x
      ensures x in Insert(heap, e) <==> x in heap || x == e
    {
      assert multiset(Insert(heap, e))[x] == multiset(heap)[x] + multiset{e}[x];
    }
  }

  lemma {:induction false} InsertSorted(heap: seq<Entry>, e: Entry)
    requires Sorted(heap) && forall x :: x in heap ==> x.seqNo != e.seqNo
    ensures Sorted(Insert(heap, e))
  {
    if heap != [] {
      if Before(heap[0], e) {
        InsertSorted(heap[1..], e);
        InsertMembers(heap[1..], e);
        var r := Insert(heap[1..], e);
        forall j | 0 <= j < |r|
          ensures Before(heap[0], r[j])
        {
          assert r[j] in r;
          assert forall x :: x in heap[1..] ==> Before(heap[0], x);
        }
      } else {
        assert Before(e, heap[0]) by {
          assert heap[0] in heap;
        }
      }
    }
  }

  lemma EarliestFirst(heap: seq<Entry>)
    requires Sorted(heap)
    ensures forall x :: x in heap ==> heap[0].deadline <= x.deadline
  {
    forall x | x in heap
      ensures heap[0].deadline <= x.deadline
    {
      var i :| 0 <= i < |heap| && heap[i] == x;
      assert i == 0 || Before(heap[0], heap[i]);
    }
  }

  /** How many entries of a heap are due: a prefix. */
  function DueCount(heap: seq<Entry>, now: int): (k: nat)
    ensures k <= |heap|
  {
    if heap != [] && heap[0].deadline <= now then 1 + DueCount(heap[1..], now) else 0
  }

  lemma {:induction false} DueIsAll(heap: seq<Entry>, now: int)
    requires Sorted(heap)
    ensures forall i :: 0 <= i < |heap| ==> (i < DueCount(heap, now) <==> heap[i].deadline <= now)
  {
    if heap != [] && heap[0].deadline <= now {
      DueIsAll(heap[1..], now);
      forall i | 0 <= i < |heap|
        ensures i < DueCount(heap, now) <==> heap[i].deadline <= now
      {
        if i > 0 {
          assert heap[i] == heap[1..][i - 1];
        }
      }
    }
  }

  lemma SortedJoin(a: seq<Entry>, b: seq<Entry>)
    requires Sorted(a) && Sorted(b) && forall x, y :: x in a && y in b ==> Before(x, y)
    ensures Sorted(a + b)
  {
    forall i, j | 0 <= i < j < |a + b|
      ensures Before((a + b)[i], (a + b)[j])
    {
      if i < |a| <= j {
        assert a[i] in a && b[j - |a|] in b;
      }
    }
  }

  lemma SortedParts(a: seq<Entry>, b: seq<Entry>)
    requires Sorted(a + b)
    ensures Sorted(a) && Sorted(b) && forall x, y :: x in a && y in b ==> Before(x, y)
  {
    assert forall i :: 0 <= i < |a| ==> (a + b)[i] == a[i];
    assert forall j :: 0 <= j < |b| ==> (a + b)[|a| + j] == b[j];
  }

  lemma CollectSplits(heap: seq<Entry>, now: int)
    requires Sorted(heap)
    ensures var k := DueCount(heap, now);
            && heap == heap[..k] + heap[k..] && Sorted(heap[..k]) && Sorted(heap[k..])
            && (forall x :: x in heap[..k] ==> x.deadline <= now && x in heap)
            && (forall x :: x in heap[k..] ==> x.deadline > now && x in heap)
  {
    var k := DueCount(heap, now);
    DueIsAll(heap, now);
    assert heap == heap[..k] + heap[k..];
    SortedParts(heap[..k], heap[k..]);
  }
}

/** Submissions from any thread, worker rounds and deliveries against a monotone clock. */
module TimerProtocol {
  import opened Common
  import opened TimerQueue

  datatype Worker = AtRound | Delivering | Waiting

  /** What the worker waits on: when the waitable timer goes off, if it is set;
      whether it has gone off since it was set; whether the auto-reset event is
      set; and how many submitters have released the lock and not set it yet. */
  datatype Alarm = Alarm(armed: Option<int>, rung: bool, pulse: bool, owed: nat)

  /** `round` is the clock the worker last collected at; `fired` and `submitted` are histories. */
  datatype State = State(now: int, round: int, heap: seq<Entry>, nextSeq: nat, alarm: Alarm, worker: Worker,
                         expired: seq<Entry>, fired: seq<Entry>, submitted: seq<Entry>)

  datatype Step =
    | Tick(to: int)
    | Submit(op: nat, read: int, ms: int)   // `read` is the clock seen before the lock was taken
    | Pulse                                 // the submitter sets the event
    | Ring                                  // the timer goes off
    | Collect                               // the worker's locked section
    | Deliver                               // one turn of the delivery loop
    | Wake                                  // the worker's wait returns

  function Init(start: int): State {
    State(start, start, [], 0, Alarm(None, false, false, 0), AtRound, [], [], [])
  }

  predicate Enabled(s: State, step: Step) {
    match step
    case Tick(to) => to >= s.now
    case Submit(_, read, _) => read <= s.now
    case Pulse => s.alarm.owed > 0
    case Ring => s.alarm.armed.Some? && s.alarm.armed.value <= s.now
    case Collect => s.worker.AtRound?
    case Deliver => s.worker.Delivering? && s.expired != []
    case Wake => s.worker.Waiting? && (s.alarm.rung || s.alarm.pulse)
  }

  /** `arm_timer_locked`: a relative time, never negative; setting a timer takes back a past ring. */
  function Arm(s: State): State {
    if s.heap == [] then s.(alarm := s.alarm.(armed := None))
    else s.(alarm := s.alarm.(armed := Some(Max(s.now, s.heap[0].deadline)), rung := false))
  }

  function Apply(s: State, step: Step): State
    requires Enabled(s, step)
  {
    match step
    case Tick(to) => s.(now := to)
    case Submit(op, read, ms) =>
      var e := Entry(read + ms, s.nextSeq, op);
      Arm(s.(heap := Insert(s.heap, e), nextSeq := s.nextSeq + 1, submitted := s.submitted + [e],
             alarm := s.alarm.(owed := s.alarm.owed + 1)))
    case Pulse => s.(alarm := s.alarm.(pulse := true, owed := s.alarm.owed - 1))
    case Ring => s.(alarm := s.alarm.(armed := None, rung := true))
    case Collect =>
      var k := DueCount(s.heap, s.now);
      var t := s.(round := s.now, heap := s.heap[k..], expired := s.heap[..k],
                  worker := if k == 0 then Waiting else Delivering);
      if t.heap == [] then t else Arm(t)
    case Deliver =>
      s.(expired := s.expired[1..], fired := s.fired + [s.expired[0]],
         worker := if |s.expired| == 1 then AtRound else Delivering)
    case Wake =>
      s.(worker := AtRound,
         alarm := if s.alarm.rung then s.alarm.(rung := false) else s.alarm.(pulse := false))
  }

  /** Everything the worker has taken out of the heap, in order. */
  function Collected(s: State): seq<Entry> { s.fired + s.expired }

  /** The order in which everything submitted has left the heap or would leave it. */
  function Order(s: State): seq<Entry> { Collected(s) + s.heap }

  /** A submission is on time unless something with a later deadline has been taken out already. */
  predicate OnTime(s: State, step: Step) {
    step.Submit? && Collected(s) != [] ==> Collected(s)[|Collected(s)| - 1].deadline <= step.read + step.ms
  }

  /** Entries taken out are due by the last round, the heap is in order, and
      together they are what was submitted. */
  ghost predicate Ledger(round: int, nextSeq: nat, taken: seq<Entry>, heap: seq<Entry>, submitted: seq<Entry>) {
    && multiset(submitted) == multiset(taken) + multiset(heap)
    && (forall x :: x in taken ==> x.deadline <= round && x.seqNo < nextSeq)
    && (forall x :: x in heap ==> x.seqNo < nextSeq)
    && Sorted(heap)
  }

  ghost predicate Books(s: State) {
    && s.round <= s.now
    && Ledger(s.round, s.nextSeq, Collected(s), s.heap, s.submitted)
    && (s.worker.Delivering? <==> s.expired != [])
  }

  /** Unless it is about to look anyway, the worker of a non-empty heap is going to
      be woken by the time the earliest entry is due. */
  predicate Alarmed(s: State) {
    s.heap != [] && !s.worker.AtRound? ==>
      s.alarm.rung || (s.alarm.armed.Some? && s.alarm.armed.value <= Max(s.now, s.heap[0].deadline))
  }

  lemma LedgerSubmit(round: int, nextSeq: nat, taken: seq<Entry>, heap: seq<Entry>, submitted: seq<Entry>, e: Entry)
    requires Ledger(round, nextSeq, taken, heap, submitted) && e.seqNo == nextSeq
    ensures Ledger(round, nextSeq + 1, taken, Insert(heap, e), submitted + [e])
  {
    InsertSorted(heap, e);
    InsertMembers(heap, e);
  }

  lemma Regroup(a: seq<Entry>, b: seq<Entry>, k: nat)
    requires k <= |b|
    ensures (a + b[..k]) + b[k..] == a + b && b[..k] + b[k..] == b
    ensures multiset(a + b[..k]) + multiset(b[k..]) == multiset(a) + multiset(b)
  {
    assert multiset(b[..k] + b[k..]) == multiset(b[..k]) + multiset(b[k..]);
  }

  lemma LedgerCollect(round: int, now: int, nextSeq: nat, taken: seq<Entry>, heap: seq<Entry>, submitted: seq<Entry>)
    requires Ledger(round, nextSeq, taken, heap, submitted) && round <= now
    ensures var k := DueCount(heap, now);
            Ledger(now, nextSeq, taken + heap[..k], heap[k..], submitted) && (taken + heap[..k]) + heap[k..] == taken + heap
  {
    var k := DueCount(heap, now);
    CollectSplits(heap, now);
    Regroup(taken, heap, k);
  }

  lemma SubmitBooks(s: State, op: nat, read: int, ms: int)
    requires Books(s) && read <= s.now
    ensures Books(Apply(s, Submit(op, read, ms)))
    ensures Collected(Apply(s, Submit(op, read, ms))) == Collected(s)
  {
    LedgerSubmit(s.round, s.nextSeq, Collected(s), s.heap, s.submitted, Entry(read + ms, s.nextSeq, op));
  }

  lemma CollectBooks(s: State)
    requires Books(s) && Enabled(s, Collect)
    ensures Books(Apply(s, Collect)) && Order(Apply(s, Collect)) == Order(s)
    ensures forall x :: x in Apply(s, Collect).heap ==> x.deadline > s.now
  {
    assert Collected(s) == s.fired;
    LedgerCollect(s.round, s.now, s.nextSeq, s.fired, s.heap, s.submitted);
    CollectSplits(s.heap, s.now);
  }

  lemma DeliverBooks(s: State)
    requires Books(s) && Enabled(s, Deliver)
    ensures Books(Apply(s, Deliver)) && Collected(Apply(s, Deliver)) == Collected(s)
    ensures s.expired[0].deadline <= s.now
  {
    var x := s.expired[0];
    assert s.fired + s.expired == (s.fired + [x]) + s.expired[1..];
    assert s.expired[0] in Collected(s);
  }

  /** Counts and deadlines are right whatever the delays are. */
  lemma StepBooks(s: State, step: Step)
    requires Books(s) && Enabled(s, step)
    ensures Books(Apply(s, step))
  {
    match step
    case Tick(to) =>
    case Submit(op, read, ms) => SubmitBooks(s, op, read, ms);
    case Collect => CollectBooks(s);
    case Deliver => DeliverBooks(s);
    case _ =>
  }

  lemma StepAlarmed(s: State, step: Step)
    requires Alarmed(s) && Enabled(s, step)
    ensures Alarmed(Apply(s, step))
  {
  }

  /** `t` is `s` with `e` pushed, as far as the order is concerned. */
  predicate PushedTo(s: State, t: State, e: Entry) {
    t.fired == s.fired && t.expired == s.expired && t.heap == Insert(s.heap, e) && e.seqNo == s.nextSeq
  }

  lemma SubmitPushes(s: State, op: nat, read: int, ms: int)
    requires read <= s.now
    ensures PushedTo(s, Apply(s, Submit(op, read, ms)), Entry(read + ms, s.nextSeq, op))
  {
  }

  lemma PushOrder(s: State, t: State, e: Entry)
    requires Books(s) && PushedTo(s, t, e)
    ensures Sorted(Order(t)) <==>
              Sorted(Order(s)) && (Collected(s) != [] ==> Collected(s)[|Collected(s)| - 1].deadline <= e.deadline)
  {
    LedgerOrder(s.round, s.nextSeq, Collected(s), s.heap, s.submitted, e);
  }

  /** A submission keeps the order exactly if it is on time. */
  lemma SubmitOrder(s: State, op: nat, read: int, ms: int)
    requires Books(s) && read <= s.now
    ensures var step := Submit(op, read, ms);
            Sorted(Order(Apply(s, step))) <==> Sorted(Order(s)) && OnTime(s, step)
  {
    SubmitPushes(s, op, read, ms);
    PushOrder(s, Apply(s, Submit(op, read, ms)), Entry(read + ms, s.nextSeq, op));
  }

  lemma LedgerOrder(round: int, nextSeq: nat, taken: seq<Entry>, heap: seq<Entry>, submitted: seq<Entry>, e: Entry)
    requires Ledger(round, nextSeq, taken, heap, submitted) && e.seqNo == nextSeq
    ensures Sorted(taken + Insert(heap, e))
            <==> Sorted(taken + heap) && (taken != [] ==> taken[|taken| - 1].deadline <= e.deadline)
  {
    InsertSorted(heap, e);
    InsertMembers(heap, e);
    if Sorted(taken + Insert(heap, e)) {
      SortedParts(taken, Insert(heap, e));
      SortedJoin(taken, heap);
      assert taken != [] ==> taken[|taken| - 1] in taken;
    }
    if Sorted(taken + heap) && (taken != [] ==> taken[|taken| - 1].deadline <= e.deadline) {
      SortedParts(taken, heap);
      AllBefore(taken, e);
      SortedJoin(taken, Insert(heap, e));
    }
  }

  lemma AllBefore(c: seq<Entry>, e: Entry)
    requires Sorted(c) && (c != [] ==> c[|c| - 1].deadline <= e.deadline) && forall x :: x in c ==> x.seqNo < e.seqNo
    ensures forall x :: x in c ==> Before(x, e)
  {
    forall k | 0 <= k < |c|
      ensures Before(c[k], e)
    {
      assert c[k] in c;
      assert k == |c| - 1 || Before(c[k], c[|c| - 1]);
    }
  }

  lemma StepOrder(s: State, step: Step)
    requires Books(s) && Enabled(s, step)
    ensures Sorted(Order(Apply(s, step))) <==> Sorted(Order(s)) && OnTime(s, step)
  {
    match step
    case Tick(to) =>
    case Submit(op, read, ms) => SubmitOrder(s, op, read, ms);
    case Collect => CollectBooks(s);
    case Deliver => DeliverBooks(s);
    case _ =>
  }

  // ---- whole runs ----

  predicate Runs(s: State, steps: seq<Step>)
    decreases |steps|
  {
    steps == [] || (Enabled(s, steps[0]) && Runs(Apply(s, steps[0]), steps[1..]))
  }

  function Exec(s: State, steps: seq<Step>): State
    requires Runs(s, steps)
    decreases |steps|
  {
    if steps == [] then s else Exec(Apply(s, steps[0]), steps[1..])
  }

  predicate AllOnTime(s: State, steps: seq<Step>)
    requires Runs(s, steps)
    decreases |steps|
  {
    steps == [] || (OnTime(s, steps[0]) && AllOnTime(Apply(s, steps[0]), steps[1..]))
  }

  /** Every submission reads the clock and takes the lock in one go, with no negative delay. */
  predicate Prompt(s: State, steps: seq<Step>)
    requires Runs(s, steps)
    decreases |steps|
  {
    steps == [] || ((steps[0].Submit? ==> steps[0].read == s.now && steps[0].ms >= 0)
                    && Prompt(Apply(s, steps[0]), steps[1..]))
  }

  lemma {:induction false} RunBooks(s: State, steps: seq<Step>)
    requires Books(s) && Alarmed(s) && Runs(s, steps)
    decreases |steps|
    ensures Books(Exec(s, steps)) && Alarmed(Exec(s, steps))
  {
    if steps != [] {
      StepBooks(s, steps[0]);
      StepAlarmed(s, steps[0]);
      RunBooks(Apply(s, steps[0]), steps[1..]);
    }
  }

  lemma {:induction false} RunOrder(s: State, steps: seq<Step>)
    requires Books(s) && Runs(s, steps)
    decreases |steps|
    ensures Sorted(Order(Exec(s, steps))) <==> Sorted(Order(s)) && AllOnTime(s, steps)
  {
    if steps != [] {
      StepBooks(s, steps[0]);
      StepOrder(s, steps[0]);
      RunOrder(Apply(s, steps[0]), steps[1..]);
    }
  }

  lemma {:induction false} PromptIsOnTime(s: State, steps: seq<Step>)
    requires Books(s) && Runs(s, steps) && Prompt(s, steps)
    decreases |steps|
    ensures AllOnTime(s, steps)
  {
    if steps != [] {
      StepBooks(s, steps[0]);
      if Collected(s) != [] {
        assert Collected(s)[|Collected(s)| - 1] in Collected(s);
      }
      PromptIsOnTime(Apply(s, steps[0]), steps[1..]);
    }
  }

  /** Over a whole run the operations complete, or are going to complete, in the
      order of their deadlines, equal deadlines in the order of submission, if and
      only if every submission was on time. */
  lemma InOrderIffOnTime(start: int, steps: seq<Step>)
    requires Runs(Init(start), steps)
    ensures Sorted(Order(Exec(Init(start), steps))) <==> AllOnTime(Init(start), steps)
    ensures AllOnTime(Init(start), steps) ==> Sorted(Exec(Init(start), steps).fired)
  {
    RunOrder(Init(start), steps);
    var s := Exec(Init(start), steps);
    if Sorted(Order(s)) {
      SortedParts(Collected(s), s.heap);
      SortedParts(s.fired, s.expired);
    }
  }

  /** In particular they do when submitting is one step and no delay is negative. */
  lemma PromptFiresInOrder(start: int, steps: seq<Step>)
    requires Runs(Init(start), steps) && Prompt(Init(start), steps)
    ensures Sorted(Exec(Init(start), steps).fired)
  {
    PromptIsOnTime(Init(start), steps);
    InOrderIffOnTime(start, steps);
  }

  /** Whatever the delays: nothing completes before its deadline, and what has
      completed, is being delivered and is pending is what was submitted. */
  lemma NothingEarlyNothingLost(start: int, steps: seq<Step>)
    requires Runs(Init(start), steps)
    ensures var s := Exec(Init(start), steps);
            && (forall x :: x in s.fired ==> x.deadline <= s.now)
            && multiset(s.submitted) == multiset(s.fired) + multiset(s.expired) + multiset(s.heap)
  {
    RunBooks(Init(start), steps);
    var s := Exec(Init(start), steps);
    assert forall x :: x in s.fired ==> x in Collected(s);
  }

  lemma {:induction false} RunsAppend(s: State, a: seq<Step>, b: seq<Step>)
    requires Runs(s, a) && Runs(Exec(s, a), b)
    decreases |a|
    ensures Runs(s, a + b) && Exec(s, a + b) == Exec(Exec(s, a), b)
  {
    if a == [] {
      assert a + b == b;
    } else {
      assert (a + b)[1..] == a[1..] + b;
      RunsAppend(Apply(s, a[0]), a[1..], b);
    }
  }

  /** Blocked in its wait: neither object is signalled. */
  predicate Blocked(s: State) { s.worker.Waiting? && !s.alarm.rung && !s.alarm.pulse }

  /** In every run a worker that is blocked while entries are pending has a running
      timer, which goes off no later than the earliest of them is due, or at once. */
  lemma BlockedIsArmed(start: int, steps: seq<Step>)
    requires Runs(Init(start), steps)
    ensures var s := Exec(Init(start), steps);
            Blocked(s) && s.heap != [] ==>
              && s.alarm.armed.Some? && (forall x :: x in s.heap ==> s.alarm.armed.value <= Max(s.now, x.deadline))
              && (s.heap[0].deadline <= s.now ==> Enabled(s, Ring))
  {
    RunBooks(Init(start), steps);
    EarliestFirst(Exec(Init(start), steps).heap);
  }

  /** Once an entry is due, the waiting worker is three steps of its own and of the
      timer away from having taken it out, whatever else is going on. */
  lemma DueIsCollected(s: State) returns (steps: seq<Step>)
    requires Books(s) && Alarmed(s) && s.worker.Waiting? && s.heap != [] && s.heap[0].deadline <= s.now
    ensures |steps| <= 3 && forall x :: x in steps ==> x.Ring? || x.Wake? || x.Collect?
    ensures Runs(s, steps) && Exec(s, steps).expired != [] && Exec(s, steps).expired[0] == s.heap[0]
  {
    if Blocked(s) {
      var t := Apply(s, Ring);
      steps := [Ring] + [Wake, Collect];
      assert steps[1..] == [Wake, Collect];
      WakeCollects(t);
    } else {
      steps := [Wake, Collect];
      WakeCollects(s);
    }
  }

  lemma WakeCollects(s: State)
    requires Books(s) && s.worker.Waiting? && (s.alarm.rung || s.alarm.pulse)
    requires s.heap != [] && s.heap[0].deadline <= s.now
    ensures var steps := [Wake, Collect];
            Runs(s, steps) && Exec(s, steps).expired != [] && Exec(s, steps).expired[0] == s.heap[0]
  {
    var t := Apply(s, Wake);
    assert [Wake, Collect][1..] == [Collect] && [Collect][1..] == [];
    assert Runs(t, [Collect]) && Exec(t, [Collect]) == Apply(t, Collect);
  }

  /** With nothing else pending, an entry that is due at `to` is collected and delivered then. */
  lemma OneRound(s: State, op: nat, read: int, ms: int, to: int) returns (steps: seq<Step>)
    requires s.heap == [] && s.expired == [] && s.worker.AtRound? && read <= s.now <= to && read + ms <= to
    ensures Runs(s, steps)
    ensures var t := Exec(s, steps);
            && t.heap == [] && t.expired == [] && t.worker.AtRound? && t.now == to
            && t.nextSeq == s.nextSeq + 1 && t.fired == s.fired + [Entry(read + ms, s.nextSeq, op)]
  {
    var e := Entry(read + ms, s.nextSeq, op);
    var t := Apply(s, Submit(op, read, ms));
    assert t.heap == [e];
    var u := Apply(t, Tick(to));
    assert DueCount([e], u.now) == 1 && [e][1..] == [] && [e][..1] == [e];
    var v := Apply(u, Collect);
    assert v.heap == [] && v.expired == [e];
    var w := Apply(v, Deliver);
    var rest := CollectDeliver(u, v, w);
    steps := [Submit(op, read, ms)] + ([Tick(to)] + rest);
    assert ([Tick(to)] + rest)[1..] == rest && steps[1..] == [Tick(to)] + rest;
  }

  lemma CollectDeliver(u: State, v: State, w: State) returns (steps: seq<Step>)
    requires Enabled(u, Collect) && v == Apply(u, Collect) && Enabled(v, Deliver) && w == Apply(v, Deliver)
    ensures Runs(u, steps) && Exec(u, steps) == w
  {
    steps := [Collect, Deliver];
    assert steps[1..] == [Deliver] && [Deliver][1..] == [];
    assert Runs(v, [Deliver]) && Exec(v, [Deliver]) == w;
  }

  /** A single late submission is enough to complete out of order: the clock was
      read, or the delay was such, that the entry is due before one that has
      completed already. The entry it overtakes has a delay of one. */
  lemma LateBreaksOrder(start: int, read: int, ms: int) returns (steps: seq<Step>)
    requires read <= start + 1 && read + ms <= start
    ensures Runs(Init(start), steps) && !Sorted(Exec(Init(start), steps).fired)
  {
    var first := OneRound(Init(start), 0, start, 1, start + 1);
    var s := Exec(Init(start), first);
    var second := OneRound(s, 1, read, ms, start + 1);
    steps := first + second;
    RunsAppend(Init(start), first, second);
    var fired := Exec(Init(start), steps).fired;
    assert fired[0].deadline == start + 1 && fired[1].deadline == read + ms;
    assert !Before(fired[0], fired[1]);
  }
}

/** The timer thread's fields and its locked sections. */
module TimerHeap {
  import opened Common
  import opened TimerQueue

  class TimerThread {
    var heap: seq<Entry>
    var nextSeq: nat
    var armed: Option<int>    // the waitable timer: when it goes off
    var rung: bool            // and whether it has
    var pulse: bool           // the auto-reset event

    ghost predicate Valid()
      reads this
    {
      Sorted(heap) && forall x :: x in heap ==> x.seqNo < nextSeq
    }

    constructor ()
      ensures Valid() && heap == [] && nextSeq == 0 && armed == None && !rung && !pulse
    {
      heap, nextSeq, armed, rung, pulse := [], 0, None, false, false;
    }

    method ArmTimer(now: int)
      modifies this`armed, this`rung
      ensures heap == [] ==> armed == None && rung == old(rung)
      ensures heap != [] ==> armed == Some(Max(now, heap[0].deadline)) && !rung
    {
      if |heap| == 0 {
        armed := None;
        return;
      }
      var rel := heap[0].deadline - now;
      if rel < 0 {
        rel := 0;
      }
      armed, rung := Some(now + rel), false;
    }

    /** The timer is armed for the earliest of all deadlines, and the worker is signalled. */
    method Submit(op: nat, read: int, ms: int, now: int)
      requires Valid()
      modifies this
      ensures Valid() && heap == Insert(old(heap), Entry(read + ms, old(nextSeq), op)) && nextSeq == old(nextSeq) + 1
      ensures armed.Some? && !rung && pulse
      ensures exists x :: x in heap && armed.value == Max(now, x.deadline)
      ensures forall x :: x in heap ==> armed.value <= Max(now, x.deadline)
    {
      var e := Entry(read + ms, nextSeq, op);
      InsertSorted(heap, e);
      InsertMembers(heap, e);
      heap := Insert(heap, e);
      nextSeq := nextSeq + 1;
      EarliestFirst(heap);
      ArmTimer(now);
      assert heap[0] in heap;
      pulse := true;
    }

    /** The popping loop. */
    method PopDue(now: int) returns (expired: seq<Entry>)
      modifies this`heap
      ensures var k := DueCount(old(heap), now); expired == old(heap)[..k] && heap == old(heap)[k..]
    {
      ghost var all := heap;
      expired := [];
      while |heap| > 0 && heap[0].deadline <= now
        invariant |expired| <= |all| && expired == all[..|expired|] && heap == all[|expired|..]
        invariant |expired| + DueCount(heap, now) == DueCount(all, now)
        decreases |heap|
      {
        assert all[|expired|] == heap[0];
        expired := expired + [heap[0]];
        heap := heap[1..];
      }
    }

    /** One locked section of the worker: exactly the due entries, in heap order. */
    method CollectDue(now: int) returns (expired: seq<Entry>)
      requires Valid()
      modifies this`heap, this`armed, this`rung
      ensures Valid() && Sorted(expired) && expired + heap == old(heap)
      ensures (forall x :: x in expired ==> x.deadline <= now) && (forall x :: x in heap ==> x.deadline > now)
      ensures heap != [] ==> armed == Some(heap[0].deadline) && !rung
    {
      ghost var all, k := heap, DueCount(heap, now);
      CollectSplits(all, now);
      expired := PopDue(now);
      assert expired == all[..k] && heap == all[k..];
      if |heap| > 0 {
        assert heap[0] in all[k..];
        ArmTimer(now);
      }
    }

    /** The wait returns for the timer before it returns for the event, and takes back what it returned for. */
    method WaitForWork()
      requires rung || pulse
      modifies this`rung, this`pulse
      ensures !rung && pulse == (old(pulse) && old(rung))
    {
      if rung {
        rung := false;
      } else {
        pulse := false;
      }
    }
  }
}
