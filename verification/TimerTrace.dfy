/** The books of the timer thread: what its clock, its entries, its signals and its
    rounds come to, counted over the steps of a run. */
module TimerTrace {
  import opened Common
  import opened TimerQueue
  import opened TimerProtocol

  /** The clock; the entries submitted; how many have been delivered; submitters that
      have not set the event; whether the event is set, the timer is running and has gone
      off; how often the worker found nothing due, and how often it was woken. */
  datatype Tally = Tally(now: int, entries: seq<Entry>, delivered: nat, owed: int, pulse: bool, running: bool, rung: bool,
                         idleLooks: nat, wakes: nat)

  predicate LooksIdle(s: State, step: Step) {
    step.Collect? && forall x :: x in s.heap ==> x.deadline > s.now
  }

  /** The timer is set anew: at every submission, and after a look that leaves entries. */
  predicate Sets(s: State, step: Step) {
    step.Submit? || (step.Collect? && exists x :: x in s.heap && x.deadline > s.now)
  }

  function Next(s: State, step: Step, t: Tally): Tally {
    Tally(if step.Tick? then step.to else t.now,
          if step.Submit? then t.entries + [Entry(step.read + step.ms, |t.entries|, step.op)] else t.entries,
          t.delivered + (if step.Deliver? then 1 else 0),
          t.owed + (if step.Submit? then 1 else if step.Pulse? then -1 else 0),
          step.Pulse? || (t.pulse && !(step.Wake? && !t.rung)),
          Sets(s, step) || (t.running && !step.Ring?),
          step.Ring? || (t.rung && !step.Wake? && !Sets(s, step)),
          t.idleLooks + (if LooksIdle(s, step) then 1 else 0),
          t.wakes + (if step.Wake? then 1 else 0))
  }

  function TallyAfter(s: State, steps: seq<Step>, t: Tally): Tally
    requires Runs(s, steps)
    decreases |steps|
  {
    if steps == [] then t else TallyAfter(Apply(s, steps[0]), steps[1..], Next(s, steps[0], t))
  }

  ghost predicate Agrees(s: State, t: Tally) {
    && s.now == t.now && s.submitted == t.entries && s.nextSeq == |t.entries|
    && |s.fired| == t.delivered && s.alarm.owed == t.owed && s.alarm.pulse == t.pulse
    && s.alarm.armed.Some? == t.running && s.alarm.rung == t.rung
    && t.idleLooks == t.wakes + if s.worker.Waiting? then 1 else 0
  }

  /** A look takes out exactly what is due, in order, and the worker waits exactly if
      nothing was; the timer is set for the earliest of what is left. */
  lemma CollectTakesDue(s: State)
    requires Books(s) && Enabled(s, Collect)
    ensures var t := Apply(s, Collect);
            && t.expired + t.heap == s.heap && t.fired == s.fired
            && (forall x :: x in t.expired ==> x.deadline <= s.now) && (forall x :: x in t.heap ==> x.deadline > s.now)
            && (t.worker.Waiting? <==> t.expired == []) && (t.worker.Delivering? <==> t.expired != [])
            && (t.heap == [] ==> t.alarm == s.alarm)
            && (t.heap != [] ==> t.alarm.armed == Some(t.heap[0].deadline) && !t.alarm.rung && t.alarm.pulse == s.alarm.pulse)
  {
    CollectSplits(s.heap, s.now);
    var t := Apply(s, Collect);
    assert t.heap != [] ==> t.heap[0] in t.heap;
  }

  /** A submission sets the timer for the earliest entry, which may be the new one. */
  lemma SubmitArms(s: State, op: nat, read: int, ms: int)
    requires Books(s) && Enabled(s, Submit(op, read, ms))
    ensures var t := Apply(s, Submit(op, read, ms));
            && t.heap != [] && t.alarm.armed == Some(Max(s.now, t.heap[0].deadline)) && !t.alarm.rung
            && (forall x :: x in s.heap ==> t.heap[0].deadline <= x.deadline) && t.heap[0].deadline <= read + ms
            && t.worker == s.worker && t.expired == s.expired
  {
    var e := Entry(read + ms, s.nextSeq, op);
    InsertSorted(s.heap, e);
    InsertMembers(s.heap, e);
    EarliestFirst(Insert(s.heap, e));
  }

  lemma LookFinds(s: State)
    requires Books(s) && Enabled(s, Collect)
    ensures LooksIdle(s, Collect) <==> DueCount(s.heap, s.now) == 0
    ensures Sets(s, Collect) <==> DueCount(s.heap, s.now) < |s.heap|
  {
    var heap, k := s.heap, DueCount(s.heap, s.now);
    DueIsAll(heap, s.now);
    if k > 0 {
      assert heap[0] in heap;
    } else {
      forall x | x in heap
        ensures x.deadline > s.now
      {
        var i :| 0 <= i < |heap| && heap[i] == x;
      }
    }
    if k < |heap| {
      assert heap[k] in heap && heap[k].deadline > s.now;
    }
  }

  lemma CollectAgrees(s: State, t: Tally)
    requires Books(s) && Enabled(s, Collect) && Agrees(s, t)
    ensures Agrees(Apply(s, Collect), Next(s, Collect, t))
  {
    LookFinds(s);
    var idle, sets := LooksIdle(s, Collect), Sets(s, Collect);
    assert Apply(s, Collect).heap == [] <==> !sets;
    assert Apply(s, Collect).worker.Waiting? <==> idle;
  }

  lemma StepAgrees(s: State, step: Step, t: Tally)
    requires Books(s) && Enabled(s, step) && Agrees(s, t)
    ensures Agrees(Apply(s, step), Next(s, step, t))
  {
    match step
    case Collect => CollectAgrees(s, t);
    case Submit(op, read, ms) => SubmitArms(s, op, read, ms);
    case _ =>
  }

  lemma {:induction false} RunAgrees(s: State, steps: seq<Step>, t: Tally)
    requires Books(s) && Runs(s, steps) && Agrees(s, t)
    decreases |steps|
    ensures Agrees(Exec(s, steps), TallyAfter(s, steps, t))
  {
    if steps != [] {
      StepBooks(s, steps[0]);
      StepAgrees(s, steps[0], t);
      RunAgrees(Apply(s, steps[0]), steps[1..], Next(s, steps[0], t));
    }
  }

  /** In every run the entries are those submitted, numbered in order; each delivery
      hands over one; the event and the timer are signalled from their setting to the
      wake they cause; and the worker waits once for each look that found nothing due. */
  lemma TimerFollowsSteps(start: int, steps: seq<Step>)
    requires Runs(Init(start), steps)
    ensures Agrees(Exec(Init(start), steps), TallyAfter(Init(start), steps, Tally(start, [], 0, 0, false, false, false, 0, 0)))
  {
    RunAgrees(Init(start), steps, Tally(start, [], 0, 0, false, false, false, 0, 0));
  }
}
