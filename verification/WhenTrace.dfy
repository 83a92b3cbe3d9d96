/** What the children of `all` have come to, told by the steps alone. */
module WhenAllTrace {
  import opened Common
  import opened ResultSlots
  import opened WhenAllProtocol

  /** The answer child `i` completed with, `before` if it already had one. */
  function Answer<V>(before: Option<V>, steps: seq<Step<V>>, i: nat): Option<V>
    decreases |steps|
  {
    if steps == [] then before
    else Answer(if steps[0].Complete? && steps[0].i == i then Some(steps[0].v) else before, steps[1..], i)
  }

  ghost predicate CountedDown<V>(steps: seq<Step<V>>, i: nat) {
    exists k :: 0 <= k < |steps| && steps[k] == CountDown(i)
  }

  function CountDowns<V>(steps: seq<Step<V>>): nat {
    if steps == [] then 0 else (if steps[0].CountDown? then 1 else 0) + CountDowns(steps[1..])
  }

  lemma CountedLater<V>(steps: seq<Step<V>>, i: nat)
    requires steps != []
    ensures CountedDown(steps, i) <==> steps[0] == CountDown(i) || CountedDown(steps[1..], i)
  {
    if k :| 0 <= k < |steps| && steps[k] == CountDown(i) {
      assert k > 0 ==> steps[1..][k - 1] == CountDown(i);
    }
    if k :| 0 <= k < |steps[1..]| && steps[1..][k] == CountDown(i) {
      assert steps[k + 1] == CountDown(i);
    }
  }

  /** Where a child stands. */
  ghost function Stands<V>(answer: Option<V>, counted: bool): Pc<V> {
    match answer
    case None => Running
    case Some(v) => if counted then Done(v) else Stored(v)
  }

  lemma {:induction false} ChildFollowsSteps<V>(s: State<V>, steps: seq<Step<V>>, i: nat)
    requires |s.kinds| == |s.pcs| && Runs(s, steps) && i < |s.pcs|
    decreases |steps|
    ensures Exec(s, steps).pcs[i] == Stands(Answer(Held(s.pcs[i]), steps, i), s.pcs[i].Done? || CountedDown(steps, i))
  {
    if steps != [] {
      CountedLater(steps, i);
      ChildFollowsSteps(Apply(s, steps[0]), steps[1..], i);
    }
  }

  lemma {:induction false} RemainingFollowsSteps<V>(s: State<V>, steps: seq<Step<V>>)
    requires Inv(s) && Runs(s, steps)
    decreases |steps|
    ensures Exec(s, steps).remaining == s.remaining - CountDowns(steps)
  {
    if steps != [] {
      StepKeeps(s, steps[0]);
      RemainingFollowsSteps(Apply(s, steps[0]), steps[1..]);
      CountStep(s, steps[0]);
    }
  }

  lemma CountStep<V>(s: State<V>, step: Step<V>)
    requires Inv(s) && Enabled(s, step)
    ensures Apply(s, step).remaining == s.remaining - (if step.CountDown? then 1 else 0)
  {
    StepKeeps(s, step);
    CountUpdate(s.pcs, step.i, Apply(s, step).pcs[step.i], NotDone);
  }

  /** In every run each child stands where its own steps put it, its answer is in its slot
      as soon as it has completed, and the caller is resumed when as many have counted
      down as there are children. */
  lemma AnswersFollowSteps<V>(kinds: seq<bool>, steps: seq<Step<V>>, i: nat)
    requires |kinds| < WORD && Runs(Init(kinds), steps) && i < |kinds|
    ensures var s := Exec(Init(kinds), steps);
            && s.pcs[i] == Stands(Answer(None, steps, i), CountedDown(steps, i))
            && (!kinds[i] ==> SlotOf(kinds, i) < |s.storage| && s.storage[SlotOf(kinds, i)] == Answer(None, steps, i))
            && (s.resumes == if CountDowns(steps) == |kinds| then 1 else 0)
  {
    var s0 := Init<V>(kinds);
    InitInv<V>(kinds);
    RunKeeps(s0, steps);
    CountAll(s0.pcs, NotDone);
    RemainingFollowsSteps(s0, steps);
    ChildFollowsSteps(s0, steps, i);
  }
}

/** What `any` and `some` have come to, told by the steps alone. */
module WhenSomeTrace {
  import opened Common
  import opened WhenSomeProtocol

  /** The completions, in order. */
  function Completions<V>(steps: seq<Step<V>>): seq<(nat, V)> {
    if steps == [] then []
    else (if steps[0].Complete? then [(steps[0].i, steps[0].v)] else []) + Completions(steps[1..])
  }

  function Resumptions<V>(steps: seq<Step<V>>): nat {
    if steps == [] then 0 else (if steps[0].ResumeCaller? then 1 else 0) + Resumptions(steps[1..])
  }

  lemma {:induction false} OrderFollowsSteps<V>(s: State<V>, steps: seq<Step<V>>)
    requires Runs(s, steps)
    decreases |steps|
    ensures Exec(s, steps).order == s.order + Completions(steps)
    ensures Exec(s, steps).resumes == s.resumes + Resumptions(steps)
  {
    if steps == [] {
      assert s.order + [] == s.order;
    } else {
      var t := Apply(s, steps[0]);
      OrderFollowsSteps(t, steps[1..]);
      var first: seq<(nat, V)> := if steps[0].Complete? then [(steps[0].i, steps[0].v)] else [];
      assert t.order == s.order + first;
      assert (s.order + first) + Completions(steps[1..]) == s.order + (first + Completions(steps[1..]));
    }
  }

  ghost predicate Completed<V>(order: seq<(nat, V)>, i: nat) {
    exists k :: 0 <= k < |order| && order[k].0 == i
  }

  /** Where a child stands: the one whose completion was the last that is needed has to
      resume the caller. */
  ghost function Stands<V>(need: nat, order: seq<(nat, V)>, resumptions: nat, i: nat): Pc {
    var q := Quota(need);
    if !Completed(order, i) then Running
    else if |order| >= q && order[q - 1].0 == i && resumptions == 0 then Resuming
    else Finished
  }

  ghost predicate AllStand<V>(need: nat, s: State<V>) {
    forall i :: 0 <= i < |s.pcs| ==> s.pcs[i] == Stands(need, s.order, s.resumes, i)
  }

  lemma CompletedNow<V>(order: seq<(nat, V)>, i: nat, v: V, j: nat)
    ensures Completed(order + [(i, v)], j) <==> Completed(order, j) || j == i
  {
    var after := order + [(i, v)];
    assert after[|order|] == (i, v);
    if Completed(order, j) {
      var k :| 0 <= k < |order| && order[k].0 == j;
      assert after[k].0 == j;
    }
  }

  lemma CompleteStands<V>(need: nat, n: nat, s: State<V>, i: nat, v: V)
    requires Inv(need, n, s) && AllStand(need, s) && Enabled(s, Complete(i, v))
    ensures AllStand(need, Apply(s, Complete(i, v)))
  {
    var t, q := Apply(s, Complete(i, v)), Quota(need);
    forall j | 0 <= j < |t.pcs|
      ensures t.pcs[j] == Stands(need, t.order, t.resumes, j)
    {
      assert s.pcs[j] == Stands(need, s.order, s.resumes, j);
      CompletedNow(s.order, i, v, j);
      if |s.order| >= q {
        assert t.order[q - 1] == s.order[q - 1];
        assert Completed(s.order, s.order[q - 1].0);
      }
    }
  }

  lemma ResumeStands<V>(need: nat, n: nat, s: State<V>, i: nat)
    requires Inv(need, n, s) && AllStand(need, s) && Enabled(s, ResumeCaller(i))
    ensures AllStand(need, Apply(s, ResumeCaller(i)))
  {
    var t := Apply(s, ResumeCaller(i));
    forall j | 0 <= j < |t.pcs|
      ensures t.pcs[j] == Stands(need, t.order, t.resumes, j)
    {
      assert s.pcs[j] == Stands(need, s.order, s.resumes, j) && s.pcs[i] == Stands(need, s.order, s.resumes, i);
    }
  }

  lemma {:induction false} RunStands<V>(need: nat, n: nat, s: State<V>, steps: seq<Step<V>>)
    requires Inv(need, n, s) && AllStand(need, s) && Runs(s, steps)
    decreases |steps|
    ensures Inv(need, n, Exec(s, steps)) && AllStand(need, Exec(s, steps))
  {
    if steps != [] {
      match steps[0] {
        case Complete(i, v) => CompleteStands(need, n, s, i, v);
        case ResumeCaller(i) => ResumeStands(need, n, s, i);
      }
      StepKeeps(need, n, s, steps[0]);
      RunStands(need, n, Apply(s, steps[0]), steps[1..]);
    }
  }

  /** In every run the history is the completions of the steps, the child that completed
      as the last of those needed and no other resumes the caller, and does so with the
      first completions, in order. */
  lemma ResumesAtQuota<V>(need: nat, n: nat, steps: seq<Step<V>>, i: nat)
    requires Runs(Init(need, n), steps) && i < n
    ensures var s, order, q := Exec(Init(need, n), steps), Completions(steps), Quota(need);
            && s.resumes == Resumptions(steps) <= 1
            && i < |s.pcs| && s.pcs[i] == Stands(need, order, Resumptions(steps), i)
            && (Resumptions(steps) == 1 ==> |order| >= q && s.taken == Some((Some(order[0]), order[..q])))
  {
    var s0 := Init<V>(need, n);
    StartInv<V>(need, n);
    OrderFollowsSteps(s0, steps);
    RunStands(need, n, s0, steps);
    assert s0.order + Completions(steps) == Completions(steps);
    FirstOnes(need, n, steps);
    assert Exec(s0, steps).pcs[i] == Stands(need, Exec(s0, steps).order, Exec(s0, steps).resumes, i);
  }
}
