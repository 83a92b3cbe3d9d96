/** The one atomic word of a shared task and what each access does to it. */
module SharedWord {
  import opened Common

  /** Not started; started, with the list of waiters, newest first; or ready. */
  datatype Word<T> = NotStarted | Waiters(list: seq<T>) | Ready

  /** The pointer value a compare-and-swap compares. */
  datatype Raw<T> = Self | Empty | Node(node: T) | Done

  function RawOf<T>(w: Word<T>): Raw<T> {
    match w
    case NotStarted => Self
    case Ready => Done
    case Waiters(list) => if list == [] then Empty else Node(list[0])
  }

  /** The strong compare-and-swap that starts the body. */
  function TryStart<T>(w: Word<T>): (Word<T>, bool) {
    if w.NotStarted? then (Waiters([]), true) else (w, false)
  }

  datatype Attempt<T> = Joined | SawReady | Again(seen: Raw<T>)

  /** One turn of the loop in `try_await` by `self`, which last saw `seen`. */
  function TryJoin<T(==)>(w: Word<T>, self: T, seen: Raw<T>, spurious: bool): (Word<T>, Attempt<T>) {
    if seen.Done? then (w, SawReady)
    else if RawOf(w) != seen || spurious then (w, Again(RawOf(w)))
    else (Waiters([self] + (if w.Waiters? then w.list else [])), Joined)
  }

  /** The exchange at final suspension: the waiters found, newest first. */
  function Complete<T>(w: Word<T>): (Word<T>, seq<T>) {
    (Ready, if w.Waiters? then w.list else [])
  }
}

/** Any number of awaiting coroutines on any threads and one body, one atomic access per step. */
module SharedProtocol {
  import opened Common
  import opened SharedWord

  type Id = nat

  datatype Pc =
    | Idle                       // before `await_ready`
    | Loading                    // not ready yet: about to load the word
    | Loaded(seen: Raw<Id>)      // in `try_await`, before the starting compare-and-swap
    | Starting                   // won the start, is inside `resume`
    | Joining(seen: Raw<Id>)     // in the waiter loop
    | Waiting                    // suspended as a waiter
    | Proceeding                 // saw the result ready, never suspended
    | Resumed                    // was spawned by the completion

  datatype BodyState = Unstarted | Active | Walking(left: seq<Id>) | Finished

  /** `starts` and `spawned` are histories: how often the body was entered, and
      the waiters handed to their context, in order. */
  datatype State = State(word: Word<Id>, pcs: seq<Pc>, body: BodyState, starts: nat, spawned: seq<Id>)

  datatype Step =
    | ReadyStep(i: Id)                    // `await_ready`
    | LoadStep(i: Id)
    | StartStep(i: Id)                    // the starting compare-and-swap
    | ReturnStep(i: Id)                   // `resume` came back: load again
    | JoinStep(i: Id, spurious: bool)
    | CompleteStep                        // the exchange
    | SpawnStep                           // one turn of the walk over the waiters

  function Init(n: nat): State {
    State(NotStarted, seq(n, _ => Idle), Unstarted, 0, [])
  }

  predicate Enabled(s: State, step: Step) {
    match step
    case ReadyStep(i) => i < |s.pcs| && s.pcs[i].Idle?
    case LoadStep(i) => i < |s.pcs| && s.pcs[i].Loading?
    case StartStep(i) => i < |s.pcs| && s.pcs[i].Loaded?
    case ReturnStep(i) => i < |s.pcs| && s.pcs[i].Starting?
    case JoinStep(i, _) => i < |s.pcs| && s.pcs[i].Joining?
    case CompleteStep => s.body.Active?
    case SpawnStep => s.body.Walking? && (s.body.left != [] ==> s.body.left[0] < |s.pcs|)
  }

  function Apply(s: State, step: Step): State
    requires Enabled(s, step)
  {
    match step
    case ReadyStep(i) => s.(pcs := s.pcs[i := if s.word.Ready? then Proceeding else Loading])
    case LoadStep(i) => s.(pcs := s.pcs[i := Loaded(RawOf(s.word))])
    case StartStep(i) =>
      if !s.pcs[i].seen.Self? then s.(pcs := s.pcs[i := Joining(s.pcs[i].seen)])
      else
        var (w, won) := TryStart(s.word);
        if won then State(w, s.pcs[i := Starting], Active, s.starts + 1, s.spawned)
        else s.(pcs := s.pcs[i := Joining(RawOf(s.word))])
    case ReturnStep(i) => s.(pcs := s.pcs[i := Joining(RawOf(s.word))])
    case JoinStep(i, spurious) =>
      var (w, result) := TryJoin(s.word, i, s.pcs[i].seen, spurious);
      (match result
       case SawReady => s.(pcs := s.pcs[i := Proceeding])
       case Again(seen) => s.(pcs := s.pcs[i := Joining(seen)])
       case Joined => s.(word := w, pcs := s.pcs[i := Waiting]))
    case CompleteStep =>
      var (w, list) := Complete(s.word);
      s.(word := w, body := Walking(list))
    case SpawnStep =>
      if s.body.left == [] then s.(body := Finished)
      else
        var x := s.body.left[0];
        State(s.word, s.pcs[x := Resumed], Walking(s.body.left[1..]), s.starts, s.spawned + [x])
  }

  // ---- invariant ----

  predicate IsWaiting(pc: Pc) { pc.Waiting? }

  predicate IsResumed(pc: Pc) { pc.Resumed? }

  /** The waiters that have joined and have not been spawned, newest first. */
  function Pending(s: State): seq<Id> {
    if s.body.Walking? then s.body.left
    else if s.word.Waiters? then s.word.list
    else []
  }

  /** A value once loaded stays a possible one: nobody can hold "not started" in the loop. */
  predicate SeenOk(s: State, pc: Pc) {
    && (pc.Joining? ==> !pc.seen.Self?)
    && (pc.Joining? && pc.seen.Done? ==> s.word.Ready?)
    && (pc.Loaded? && !pc.seen.Self? ==> s.starts > 0)
    && (pc.Loaded? && pc.seen.Done? ==> s.word.Ready?)
    && (pc.Joining? || pc.Starting? || pc.Waiting? || pc.Proceeding? || pc.Resumed? ==> s.starts > 0)
    && (pc.Proceeding? || pc.Resumed? ==> s.word.Ready?)
  }

  ghost predicate Inv(s: State) {
    && (s.word.NotStarted? <==> s.body.Unstarted?)
    && (s.word.Waiters? <==> s.body.Active?)
    && s.starts == (if s.word.NotStarted? then 0 else 1)
    && (forall i :: 0 <= i < |s.pcs| ==> SeenOk(s, s.pcs[i]))
    && Tracks(Pending(s), s.pcs, IsWaiting)
    && Tracks(s.spawned, s.pcs, IsResumed)
  }

  lemma InitInv(n: nat)
    ensures Inv(Init(n))
  {
  }

  /** A step that only moves coroutine `i` between places outside the list. */
  lemma LocalKeeps(s: State, i: Id, v: Pc)
    requires Inv(s) && i < |s.pcs| && !s.pcs[i].Waiting? && !s.pcs[i].Resumed?
    requires SeenOk(s, v) && !v.Waiting? && !v.Resumed?
    ensures Inv(s.(pcs := s.pcs[i := v]))
  {
    var t := s.(pcs := s.pcs[i := v]);
    assert Pending(t) == Pending(s);
    TracksKeep(Pending(s), s.pcs, IsWaiting, i, v);
    TracksKeep(s.spawned, s.pcs, IsResumed, i, v);
    assert forall j :: 0 <= j < |t.pcs| ==> SeenOk(t, t.pcs[j]);
  }

  lemma StartKeeps(s: State, i: Id)
    requires Inv(s) && Enabled(s, StartStep(i)) && s.pcs[i].seen.Self? && s.word.NotStarted?
    ensures Inv(Apply(s, StartStep(i)))
  {
    var t := Apply(s, StartStep(i));
    assert Pending(t) == [] == Pending(s);
    TracksKeep(Pending(s), s.pcs, IsWaiting, i, Starting);
    TracksKeep(s.spawned, s.pcs, IsResumed, i, Starting);
    assert forall j :: 0 <= j < |t.pcs| && j != i ==> SeenOk(s, t.pcs[j]);
    assert forall j :: 0 <= j < |t.pcs| ==> SeenOk(t, t.pcs[j]);
  }

  lemma JoinKeeps(s: State, i: Id)
    requires Inv(s) && Enabled(s, JoinStep(i, false)) && TryJoin(s.word, i, s.pcs[i].seen, false).1.Joined?
    ensures Inv(Apply(s, JoinStep(i, false)))
    ensures s.word.Waiters? && Apply(s, JoinStep(i, false)).word == Waiters([i] + s.word.list)
  {
    var t := Apply(s, JoinStep(i, false));
    assert SeenOk(s, s.pcs[i]);
    assert Pending(t) == [i] + Pending(s);
    TracksPush(Pending(s), s.pcs, IsWaiting, i, Waiting);
    TracksFront(Pending(s), t.pcs, IsWaiting, i);
    TracksKeep(s.spawned, s.pcs, IsResumed, i, Waiting);
    assert forall j :: 0 <= j < |t.pcs| && j != i ==> SeenOk(s, t.pcs[j]);
    assert forall j :: 0 <= j < |t.pcs| ==> SeenOk(t, t.pcs[j]);
  }

  /** Tracking does not depend on the order of the list. */
  lemma TracksFront(q: seq<Id>, pcs: seq<Pc>, p: Pc -> bool, i: Id)
    requires Tracks(q + [i], pcs, p)
    ensures Tracks([i] + q, pcs, p)
  {
    var a, b := q + [i], [i] + q;
    assert a[|q|] == i;
    assert forall k :: 0 <= k < |q| ==> a[k] == q[k] && b[k + 1] == q[k];
    assert forall j: nat :: j in b <==> j in a;
  }

  lemma CompleteKeeps(s: State)
    requires Inv(s) && Enabled(s, CompleteStep)
    ensures Inv(Apply(s, CompleteStep)) && Pending(Apply(s, CompleteStep)) == Pending(s)
  {
    var t := Apply(s, CompleteStep);
    assert forall j :: 0 <= j < |t.pcs| ==> SeenOk(s, t.pcs[j]);
    assert forall j :: 0 <= j < |t.pcs| ==> SeenOk(t, t.pcs[j]);
  }

  lemma SpawnKeeps(s: State)
    requires Inv(s) && Enabled(s, SpawnStep)
    ensures Inv(Apply(s, SpawnStep))
  {
    var t := Apply(s, SpawnStep);
    assert forall j :: 0 <= j < |s.pcs| ==> SeenOk(s, s.pcs[j]);
    if s.body.left != [] {
      var x := s.body.left[0];
      TracksPop(s.body.left, s.pcs, IsWaiting, Resumed);
      TracksPush(s.spawned, s.pcs, IsResumed, x, Resumed);
      assert forall j :: 0 <= j < |t.pcs| && j != x ==> t.pcs[j] == s.pcs[j];
    }
    assert forall j :: 0 <= j < |t.pcs| ==> SeenOk(t, t.pcs[j]);
  }

  lemma StepKeeps(s: State, step: Step)
    requires Inv(s) && Enabled(s, step)
    ensures Inv(Apply(s, step))
  {
    match step
    case CompleteStep => CompleteKeeps(s);
    case SpawnStep => SpawnKeeps(s);
    case StartStep(i) =>
      assert SeenOk(s, s.pcs[i]);
      if s.pcs[i].seen.Self? && s.word.NotStarted? {
        StartKeeps(s, i);
      } else {
        LocalKeeps(s, i, Apply(s, step).pcs[i]);
      }
    case JoinStep(i, spurious) =>
      assert SeenOk(s, s.pcs[i]);
      if TryJoin(s.word, i, s.pcs[i].seen, spurious).1.Joined? {
        JoinKeeps(s, i);
      } else {
        LocalKeeps(s, i, Apply(s, step).pcs[i]);
      }
    case _ =>
      assert SeenOk(s, s.pcs[step.i]);
      LocalKeeps(s, step.i, Apply(s, step).pcs[step.i]);
  }

  // ---- whole runs ----

  predicate Runs(s: State, steps: seq<Step>)
    decreases |steps|
  {
    steps == [] || (Enabled(s, steps[0]) && Runs(Apply(s, steps[0]), steps[1..]))
  }

  function Exec(s: State, steps: seq<Step>): State
    requires Runs(s, steps)
    decreases |steps|
  {
    if steps == [] then s else Exec(Apply(s, steps[0]), steps[1..])
  }

  lemma {:induction false} RunKeeps(s: State, steps: seq<Step>)
    requires Inv(s) && Runs(s, steps)
    decreases |steps|
    ensures Inv(Exec(s, steps))
  {
    if steps != [] {
      StepKeeps(s, steps[0]);
      RunKeeps(Apply(s, steps[0]), steps[1..]);
    }
  }

  /** In every interleaving the body is started at most once, every coroutine
      that went to sleep is in the list or has been spawned, once in all, and
      whoever did not sleep saw the result ready. */
  lemma OneStartOneWake(n: nat, steps: seq<Step>, i: Id)
    requires Runs(Init(n), steps) && i < |Exec(Init(n), steps).pcs|
    ensures var s := Exec(Init(n), steps);
            && s.starts <= 1
            && multiset(s.spawned)[i] + multiset(Pending(s))[i]
               == (if s.pcs[i].Waiting? || s.pcs[i].Resumed? then 1 else 0)
            && (s.pcs[i].Resumed? <==> multiset(s.spawned)[i] == 1)
            && (s.pcs[i].Proceeding? ==> s.word.Ready?)
            && (s.body.Finished? ==> !s.pcs[i].Waiting?)
            && (s.starts == 0 <==> s.body.Unstarted?)
            && (s.starts == 0 ==> s.pcs[i].Idle? || s.pcs[i].Loading? || s.pcs[i].Loaded?)
  {
    InitInv(n);
    RunKeeps(Init(n), steps);
    var s := Exec(Init(n), steps);
    NoDupCounts(s.spawned, i);
    NoDupCounts(Pending(s), i);
    assert SeenOk(s, s.pcs[i]);
  }

  // ---- what one `co_await` comes to ----

  predicate AtRest(pc: Pc) { pc.Waiting? || pc.Proceeding? || pc.Resumed? }

  predicate OfBody(step: Step) { step.CompleteStep? || step.SpawnStep? }

  /** A step of coroutine `i` in which no compare-and-swap fails without cause. */
  predicate Own(step: Step, i: Id) {
    !OfBody(step) && step.i == i && (step.JoinStep? ==> !step.spurious)
  }

  /** What coroutine `i` is in for: it starts a task nobody has started, then joins the
      waiters of a task that is not ready; a result that is ready it only takes. */
  function Destination(s: State, i: Id): State
    requires i < |s.pcs|
  {
    if AtRest(s.pcs[i]) then s
    else
      match s.word
      case Ready => s.(pcs := s.pcs[i := Proceeding])
      case NotStarted => State(Waiters([i]), s.pcs[i := Waiting], Active, s.starts + 1, s.spawned)
      case Waiters(list) => s.(word := Waiters([i] + list), pcs := s.pcs[i := Waiting])
  }

  /** At most this many steps of its own are left when nobody disturbs it. */
  function Left(word: Word<Id>, pc: Pc): nat {
    match pc
    case Idle => if word.Ready? then 1 else 6
    case Loading => 5
    case Loaded(_) => 4
    case Starting => 3
    case Joining(seen) => if seen == RawOf(word) then 1 else 2
    case _ => 0
  }

  /** The only step coroutine `i` can take, barring a spurious failure. */
  function OwnStep(pc: Pc, i: Id): Step
    requires !AtRest(pc)
  {
    match pc
    case Idle => ReadyStep(i)
    case Loading => LoadStep(i)
    case Loaded(_) => StartStep(i)
    case Starting => ReturnStep(i)
    case Joining(_) => JoinStep(i, false)
  }

  /** An undisturbed step heads for the same destination and comes closer to it. */
  lemma OwnStepHeads(s: State, i: Id, step: Step)
    requires Inv(s) && i < |s.pcs| && Own(step, i) && Enabled(s, step)
    ensures var t := Apply(s, step);
            && Inv(t) && |t.pcs| == |s.pcs|
            && Destination(t, i) == Destination(s, i) && Left(t.word, t.pcs[i]) < Left(s.word, s.pcs[i])
  {
    StepKeeps(s, step);
    assert SeenOk(s, s.pcs[i]);
    var v, nobody: seq<Id> := Apply(s, step).pcs[i], [];
    assert [i] + nobody == [i];
    assert s.pcs[i := v][i := Waiting] == s.pcs[i := Waiting];
    assert s.pcs[i := v][i := Proceeding] == s.pcs[i := Proceeding];
  }

  lemma StepUnlessAtRest(s: State, i: Id)
    requires i < |s.pcs|
    ensures (exists step :: Own(step, i) && Enabled(s, step)) <==> !AtRest(s.pcs[i])
  {
    if !AtRest(s.pcs[i]) {
      assert Own(OwnStep(s.pcs[i], i), i) && Enabled(s, OwnStep(s.pcs[i], i));
    }
  }

  /** However it begins, an undisturbed `co_await` reaches its destination within six
      steps: there is a next step until it has, and each run of them ends there. */
  lemma {:induction false} AwaitArrives(s: State, steps: seq<Step>, i: Id)
    requires Inv(s) && i < |s.pcs| && Runs(s, steps)
    requires forall k :: 0 <= k < |steps| ==> Own(steps[k], i)
    decreases |steps|
    ensures var t := Exec(s, steps);
            && i < |t.pcs| && |steps| + Left(t.word, t.pcs[i]) <= Left(s.word, s.pcs[i]) <= 6
            && (AtRest(t.pcs[i]) <==> t == Destination(s, i))
            && (AtRest(t.pcs[i]) <==> !exists step :: Own(step, i) && Enabled(t, step))
  {
    if steps == [] {
      StepUnlessAtRest(s, i);
      assert AtRest(Destination(s, i).pcs[i]);
    } else {
      OwnStepHeads(s, i, steps[0]);
      AwaitArrives(Apply(s, steps[0]), steps[1..], i);
    }
  }

  /** Others move a coroutine only by spawning it once it waits. */
  lemma OthersOnlySpawn(s: State, step: Step, i: Id)
    requires Inv(s) && Enabled(s, step) && i < |s.pcs| && (OfBody(step) || step.i != i)
    ensures i < |Apply(s, step).pcs|
    ensures Apply(s, step).pcs[i] ==
            if step.SpawnStep? && s.body.left != [] && s.body.left[0] == i then Resumed else s.pcs[i]
    ensures Apply(s, step).pcs[i].Resumed? && !s.pcs[i].Resumed? ==> s.pcs[i].Waiting?
  {
    if step.SpawnStep? && s.body.left != [] {
      assert Pending(s)[0] in Pending(s);
    }
  }

  /** What the body and its walk over the waiters have before them. */
  function BodyLeft(s: State): nat {
    match s.body
    case Unstarted => 0
    case Active => |Pending(s)| + 2
    case Walking(left) => |left| + 1
    case Finished => 0
  }

  /** A body that runs can complete, and its walk can go on until everybody has been spawned. */
  lemma BodyArrives(s: State) returns (step: Step)
    requires Inv(s) && (s.body.Active? || s.body.Walking?)
    ensures OfBody(step) && Enabled(s, step) && BodyLeft(Apply(s, step)) == BodyLeft(s) - 1
    ensures Apply(s, step).word.Ready? && !Apply(s, step).body.Active?
    ensures Apply(s, step).spawned + Pending(Apply(s, step)) == s.spawned + Pending(s)
  {
    if s.body.Active? {
      step := CompleteStep;
    } else {
      step := SpawnStep;
      if s.body.left != [] {
        assert Pending(s)[0] in Pending(s);
        assert (s.spawned + [s.body.left[0]]) + s.body.left[1..] == s.spawned + s.body.left;
      }
    }
  }

  lemma ReadyKept(s: State, step: Step)
    requires Inv(s) && Enabled(s, step) && s.word.Ready?
    ensures var t := Apply(s, step);
            && t.word.Ready? && |Pending(t)| <= |Pending(s)|
            && t.spawned + Pending(t) == s.spawned + Pending(s)
  {
    var t := Apply(s, step);
    assert step.JoinStep? ==> SeenOk(s, s.pcs[step.i]);
    if step.SpawnStep? && s.body.left != [] {
      assert (s.spawned + [s.body.left[0]]) + s.body.left[1..] == s.spawned + s.body.left;
    }
  }

  /** Once ready the word never changes again, and nobody joins the list. */
  lemma {:induction false} ReadyIsFinal(s: State, steps: seq<Step>)
    requires Inv(s) && Runs(s, steps) && s.word.Ready?
    decreases |steps|
    ensures Exec(s, steps).word.Ready?
    ensures |Pending(Exec(s, steps))| <= |Pending(s)|
    ensures s.spawned + Pending(s) == Exec(s, steps).spawned + Pending(Exec(s, steps))
  {
    if steps != [] {
      StepKeeps(s, steps[0]);
      ReadyKept(s, steps[0]);
      ReadyIsFinal(Apply(s, steps[0]), steps[1..]);
    }
  }
}

/** The waiter list in place. */
module SharedHeap {
  import opened Common
  import opened SharedWord
  import opened WaiterLists

  class SharedPromise {
    var waiters: Raw<Waiter>
    ghost var word: Word<Waiter>

    ghost function List(): seq<Waiter>
      reads this
    {
      if word.Waiters? then word.list else []
    }

    ghost predicate Valid()
      reads this, List()
    {
      waiters == RawOf(word) && Linked(if waiters.Node? then waiters.node else null, List())
    }

    constructor ()
      ensures Valid() && word == NotStarted
    {
      waiters, word := Self, NotStarted;
    }

    method Start() returns (won: bool)
      requires Valid()
      modifies this
      ensures Valid() && (word, won) == TryStart(old(word))
    {
      won := waiters == Self;
      if won {
        waiters, word := Empty, Waiters([]);
      }
    }

    /** One turn of the loop of `try_await`. */
    method Join(self: Waiter, seen: Raw<Waiter>, spurious: bool) returns (result: Attempt<Waiter>)
      requires Valid() && self !in List() && !seen.Self?
      modifies this, self`next
      ensures Valid() && (word, result) == TryJoin(old(word), self, seen, spurious)
      ensures result.SawReady? <==> seen.Done?
      ensures result.Again? <==> !seen.Done? && (old(waiters) != seen || spurious)
      ensures result.Again? ==> word == old(word) && result.seen == old(waiters)
    {
      if seen == Done {
        return SawReady;
      }
      ghost var list := List();
      self.next := if seen.Node? then seen.node else null;
      if waiters == seen && !spurious {
        waiters, word := Node(self), Waiters([self] + list);
        LinkedPush(self, list);
        return Joined;
      }
      result := Again(waiters);
    }

    /** Final suspension: publishes the result and spawns the waiters, newest first. */
    method FinalSuspend() returns (spawned: seq<Waiter>)
      requires Valid()
      modifies this
      ensures Valid() && (word, spawned) == Complete(old(word))
    {
      var head := if waiters.Node? then waiters.node else null;
      spawned := Walk(head, List());
      waiters, word := Done, Ready;
    }
  }
}
