/** What a run of a semaphore comes to, told by its steps alone. */
module SemaphoreTrace {
  import opened Common
  import opened SemaphoreLists
  import opened SemaphoreProtocol

  /** `tried` are the acquirers that found no unit and have yet to suspend. */
  datatype Account = Account(counter: int, queue: seq<Id>, granted: seq<Id>, released: nat, tried: set<Id>)

  /** Takes a unit if there is one. */
  function Take(a: Account, i: Id): Account {
    if a.counter > 0 then a.(counter := a.counter - 1, granted := a.granted + [i], tried := a.tried - {i}) else a
  }

  /** Releasing `n` units serves the `n` oldest waiters, or all of them. */
  function Serve(a: Account, n: nat): Account {
    var k := Min(n, |a.queue|);
    a.(counter := a.counter + (n - k), queue := a.queue[k..], granted := a.granted + a.queue[..k], released := a.released + n)
  }

  function Next(a: Account, step: Step): Account {
    match step
    case TryAcquire(i) => Take(a, i)
    case AwaitReady(i) => if a.counter > 0 then Take(a, i) else a.(tried := a.tried + {i})
    case AwaitSuspend(i) => if a.counter > 0 then Take(a, i) else a.(queue := a.queue + [i], tried := a.tried - {i})
    case Release => Serve(a, 1)
    case ReleaseMany(n) => Serve(a, n)
  }

  function Replay(a: Account, steps: seq<Step>): Account
    decreases |steps|
  {
    if steps == [] then a else Replay(Next(a, steps[0]), steps[1..])
  }

  /** Where an acquirer stands. */
  ghost function Stands(a: Account, i: Id): Pc {
    if i in a.granted then Granted
    else if i in a.queue then Registered
    else if i in a.tried then MustSuspend
    else Idle
  }

  ghost predicate TriedAre(pcs: seq<Pc>, tried: set<Id>) {
    forall i: Id :: i in tried <==> i < |pcs| && pcs[i].MustSuspend?
  }

  ghost predicate Agrees(s: State, a: Account) {
    && s.counter == a.counter && Live(s.lists) == a.queue && s.granted == a.granted && s.released == a.released
    && TriedAre(s.pcs, a.tried)
  }

  lemma TriedUpdate(pcs: seq<Pc>, tried: set<Id>, i: Id, v: Pc)
    requires TriedAre(pcs, tried) && i < |pcs|
    ensures TriedAre(pcs[i := v], if v.MustSuspend? then tried + {i} else tried - {i})
  {
  }

  lemma SuspendAgrees(desired: nat, s: State, i: Id, a: Account)
    requires Inv(desired, s) && Enabled(s, AwaitSuspend(i)) && Agrees(s, a)
    ensures Agrees(Apply(s, AwaitSuspend(i)), Next(a, AwaitSuspend(i)))
  {
    TriedUpdate(s.pcs, a.tried, i, if s.counter > 0 then Granted else Registered);
    if s.counter > 0 {
      assert i !in Live(s.lists);
      SelfWakeIsInvisible(s.lists, i);
    } else {
      assert i !in s.lists.consumed;
      RegisterIsLast(s.lists, i);
    }
  }

  /** Waking an acquirer that waits makes nobody try or give up trying. */
  lemma WakeOneTried(desired: nat, s: State, tried: set<Id>)
    requires ListInv(desired, s) && Live(s.lists) != [] && TriedAre(s.pcs, tried)
    ensures TriedAre(WakeOne(s).pcs, tried)
  {
    assert Live(s.lists)[0] in Live(s.lists);
  }

  lemma {:induction false} WakeUpToTried(desired: nat, s: State, update: nat, tried: set<Id>)
    requires ListInv(desired, s) && TriedAre(s.pcs, tried)
    decreases update
    ensures TriedAre(WakeUpTo(s, update).pcs, tried)
  {
    if update == 0 {
      assert WakeUpTo(s, update) == s;
    } else if Live(s.lists) == [] {
      WakeUpToStops(s, update);
    } else {
      WakeUpToTurns(s, update);
      WakeKeeps(desired, s);
      WakeOneTried(desired, s, tried);
      var t := WakeOne(s);
      WakeUpToTried(desired, t, update - 1, tried);
    }
  }

  lemma ReleaseAgrees(desired: nat, s: State, n: nat, a: Account)
    requires Inv(desired, s) && Agrees(s, a)
    ensures Agrees(Apply(s, ReleaseMany(n)), Serve(a, n))
  {
    var t := AddUnits(s, n);
    assert ListInv(desired, t);
    WakeUpToGrants(t, n);
    WakeUpToTried(desired, t, n, a.tried);
  }

  /** Every step of the protocol is the same step of the account. */
  lemma StepAgrees(desired: nat, s: State, step: Step, a: Account)
    requires Inv(desired, s) && Enabled(s, step) && Agrees(s, a)
    ensures Agrees(Apply(s, step), Next(a, step))
  {
    match step
    case AwaitSuspend(i) => SuspendAgrees(desired, s, i, a);
    case Release =>
      ReleaseIsOne(s);
      ReleaseAgrees(desired, s, 1, a);
    case ReleaseMany(n) => ReleaseAgrees(desired, s, n, a);
    case _ =>
  }

  lemma {:induction false} RunAgrees(desired: nat, s: State, steps: seq<Step>, a: Account)
    requires Inv(desired, s) && Runs(s, steps) && Agrees(s, a)
    decreases |steps|
    ensures Inv(desired, Exec(s, steps)) && Agrees(Exec(s, steps), Replay(a, steps))
  {
    if steps != [] {
      StepAgrees(desired, s, steps[0], a);
      StepKeeps(desired, s, steps[0]);
      RunAgrees(desired, Apply(s, steps[0]), steps[1..], Next(a, steps[0]));
    }
  }

  /** In every run the counter, the waiters in order, those granted a unit in order, and
      where each acquirer stands are those the steps alone tell: an acquire takes a unit
      exactly if there is one, and otherwise suspends last in the queue. */
  lemma StandsWhereStepsSay(desired: nat, n: nat, steps: seq<Step>, i: Id)
    requires Runs(Init(desired, n), steps)
    ensures var s, a := Exec(Init(desired, n), steps), Replay(Account(desired, [], [], 0, {}), steps);
            && s.counter == a.counter && Live(s.lists) == a.queue && s.granted == a.granted && s.released == a.released
            && (i < |s.pcs| ==> s.pcs[i] == Stands(a, i))
  {
    InitInv(desired, n);
    assert Live(Init(desired, n).lists) == [];
    RunAgrees(desired, Init(desired, n), steps, Account(desired, [], [], 0, {}));
  }

  /** An acquirer may act until it has its unit or waits for it. */
  lemma MayDo(desired: nat, n: nat, steps: seq<Step>, step: Step)
    requires Runs(Init(desired, n), steps)
    requires step.Release? || step.ReleaseMany? || step.i < |Exec(Init(desired, n), steps).pcs|
    ensures var a := Replay(Account(desired, [], [], 0, {}), steps);
            Enabled(Exec(Init(desired, n), steps), step) <==>
              match step
              case AwaitSuspend(i) => i in a.tried
              case Release => true
              case ReleaseMany(_) => true
              case _ => step.i !in a.tried && step.i !in a.granted && step.i !in a.queue
  {
    InitInv(desired, n);
    assert Live(Init(desired, n).lists) == [];
    RunAgrees(desired, Init(desired, n), steps, Account(desired, [], [], 0, {}));
    match step
    case Release =>
    case ReleaseMany(_) =>
    case _ => StandsWhereStepsSay(desired, n, steps, step.i);
  }
}
