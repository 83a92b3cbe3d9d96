/** Task bodies and their direct, recursive meaning. */
module TaskBody {
  import opened Common

  /** The rest of a task body. A body computes its result from the values it has
      received; `Await` is `co_await` of the task numbered `child`, whose value is
      received, or whose exception is caught or let through. */
  datatype Body<!V, E> =
    | Return(result: seq<V> -> V)
    | Throw(error: E)
    | Await(child: nat, ok: Body<V, E>, caught: Option<Body<V, E>>)

  datatype Outcome<V, E> = Value(value: V) | Failed(error: E)

  /** A body that awaits only tasks numbered below `n`. */
  predicate Below<V, E>(b: Body<V, E>, n: nat) {
    match b
    case Await(child, ok, caught) => child < n && Below(ok, n) && (caught.Some? ==> Below(caught.value, n))
    case _ => true
  }

  predicate Acyclic<V, E>(program: seq<Body<V, E>>) {
    forall i :: 0 <= i < |program| ==> Below(program[i], i)
  }

  /** The outcome of task `i` by direct recursive evaluation. */
  function Eval<V, E>(program: seq<Body<V, E>>, i: nat): Outcome<V, E>
    requires Acyclic(program) && i < |program|
    decreases i, 1, program[i]
  {
    EvalBody(program, i, program[i], [])
  }

  function EvalBody<V, E>(program: seq<Body<V, E>>, i: nat, b: Body<V, E>, env: seq<V>): Outcome<V, E>
    requires Acyclic(program) && i < |program| && Below(b, i)
    decreases i, 0, b
  {
    match b
    case Return(f) => Value(f(env))
    case Throw(e) => Failed(e)
    case Await(child, ok, caught) =>
      match Eval(program, child)
      case Value(v) => EvalBody(program, i, ok, env + [v])
      case Failed(e) => if caught.Some? then EvalBody(program, i, caught.value, env) else Failed(e)
  }

  /** What `await_resume` leaves of a body that awaited a task with this outcome. */
  function Resumed<V, E>(b: Body<V, E>, env: seq<V>, o: Outcome<V, E>): (Body<V, E>, seq<V>)
    requires b.Await?
  {
    match o
    case Value(v) => (b.ok, env + [v])
    case Failed(e) => (if b.caught.Some? then b.caught.value else Throw(e), env)
  }

  function Size<V, E>(b: Body<V, E>): nat {
    match b
    case Await(_, ok, caught) => 1 + Size(ok) + (if caught.Some? then Size(caught.value) else 1)
    case _ => 1
  }

  lemma ResumedKeeps<V, E>(program: seq<Body<V, E>>, i: nat, b: Body<V, E>, env: seq<V>)
    requires Acyclic(program) && i < |program| && Below(b, i) && b.Await?
    ensures var (c, f) := Resumed(b, env, Eval(program, b.child));
            Below(c, i) && EvalBody(program, i, c, f) == EvalBody(program, i, b, env)
    ensures var (c, f) := Resumed(b, env, Eval(program, b.child)); 0 < Size(c) < Size(b)
  {
    SizePositive(b.ok);
    if b.caught.Some? {
      SizePositive(b.caught.value);
    }
  }

  lemma SizePositive<V, E>(b: Body<V, E>)
    ensures Size(b) > 0
  {
  }

  function Total(w: seq<nat>): nat {
    if w == [] then 0 else w[0] + Total(w[1..])
  }

  lemma {:induction false} TotalUpdate(w: seq<nat>, i: nat, v: nat)
    requires i < |w|
    ensures Total(w[i := v]) + w[i] == Total(w) + v
  {
    if i > 0 {
      TotalUpdate(w[1..], i - 1, v);
      assert w[i := v][1..] == w[1..][i - 1 := v];
    } else {
      assert w[i := v][1..] == w[1..];
    }
  }
}

/** Two accounts of a program of tasks that do not combine the outcomes of its parts. */
module TaskLaws {
  import opened Common
  import opened TaskBody

  /** Performs what is left of a body, given what is to be done with its value and with
      an exception that leaves it: an awaited task is performed with the rest of the body
      as what comes after its value. */
  function Perform<V, E, R>(program: seq<Body<V, E>>, i: nat, b: Body<V, E>, env: seq<V>,
                            returned: V -> R, failed: E -> R): R
    requires Acyclic(program) && i < |program| && Below(b, i)
    decreases i, b
  {
    match b
    case Return(f) => returned(f(env))
    case Throw(e) => failed(e)
    case Await(child, ok, caught) =>
      var thrown := (e: E) => if caught.Some? then Perform(program, i, caught.value, env, returned, failed) else failed(e);
      Perform(program, child, program[child], [], v => Perform(program, i, ok, env + [v], returned, failed), thrown)
  }

  function Onward<V, E, R>(o: Outcome<V, E>, returned: V -> R, failed: E -> R): R {
    match o
    case Value(v) => returned(v)
    case Failed(e) => failed(e)
  }

  /** Direct evaluation is what performing a body comes to, whatever is done with the outcome. */
  lemma {:induction false} EvalIsPerformed<V, E, R>(program: seq<Body<V, E>>, i: nat, b: Body<V, E>, env: seq<V>,
                                                    returned: V -> R, failed: E -> R)
    requires Acyclic(program) && i < |program| && Below(b, i)
    decreases i, b
    ensures Perform(program, i, b, env, returned, failed) == Onward(EvalBody(program, i, b, env), returned, failed)
  {
    match b
    case Return(_) =>
    case Throw(_) =>
    case Await(child, ok, caught) =>
      var thrown := (e: E) => if caught.Some? then Perform(program, i, caught.value, env, returned, failed) else failed(e);
      var received := (v: V) => Perform(program, i, ok, env + [v], returned, failed);
      EvalIsPerformed(program, child, program[child], [], received, thrown);
      match Eval(program, child) {
        case Value(v) => EvalIsPerformed(program, i, ok, env + [v], returned, failed);
        case Failed(_) =>
          if caught.Some? {
            EvalIsPerformed(program, i, caught.value, env, returned, failed);
          }
      }
  }

  /** Awaits one task after the other and handles no exception. */
  predicate Straight<V, E>(b: Body<V, E>) {
    b.Await? ==> b.caught.None? && Straight(b.ok)
  }

  /** The tasks a straight body awaits, in order, and what it does after the last. */
  function Children<V, E>(b: Body<V, E>): seq<nat> {
    if b.Await? then [b.child] + Children(b.ok) else []
  }

  function End<V, E>(b: Body<V, E>): (end: Body<V, E>)
    ensures !end.Await?
  {
    if b.Await? then End(b.ok) else b
  }

  /** `k` of the awaited tasks, counted from the first, have values `vs`. */
  ghost predicate Received<V, E>(program: seq<Body<V, E>>, children: seq<nat>, vs: seq<V>)
    requires Acyclic(program)
  {
    && |vs| <= |children|
    && forall j :: 0 <= j < |vs| ==> children[j] < |program| && Eval(program, children[j]) == Value(vs[j])
  }

  /** A straight body fails with the exception of the first awaited task that fails;
      if none does, its end is computed from their values, in the order awaited. */
  lemma {:induction false} StraightTakesAll<V, E>(program: seq<Body<V, E>>, i: nat, b: Body<V, E>, env: seq<V>)
    returns (vs: seq<V>)
    requires Acyclic(program) && i < |program| && Below(b, i) && Straight(b)
    decreases b
    ensures Received(program, Children(b), vs)
    ensures |vs| < |Children(b)| ==>
              var child := Children(b)[|vs|];
              child < |program| && Eval(program, child).Failed? && EvalBody(program, i, b, env) == Eval(program, child)
    ensures |vs| == |Children(b)| ==>
              EvalBody(program, i, b, env) == if End(b).Return? then Value(End(b).result(env + vs)) else Failed(End(b).error)
  {
    vs := [];
    if b.Await? && Eval(program, b.child).Value? {
      var v := Eval(program, b.child).value;
      var rest := StraightTakesAll(program, i, b.ok, env + [v]);
      vs := [v] + rest;
      assert (env + [v]) + rest == env + vs;
    } else {
      assert env + vs == env;
    }
  }
}

/** The machine that runs tasks without recursion, as values: what each task has
    come to, and the chain of tasks that are running, outermost first. */
module TaskSteps {
  import opened Common
  import opened TaskBody

  datatype Task<!V, E> =
    | Fresh
    | Running(body: Body<V, E>, env: seq<V>)
    | Done(outcome: Outcome<V, E>)

  datatype State<!V, E> = State(tasks: seq<Task<V, E>>, chain: seq<nat>)

  function Innermost<V, E>(s: State<V, E>): nat
    requires s.chain != []
  {
    s.chain[|s.chain| - 1]
  }

  predicate CanStep<V, E>(program: seq<Body<V, E>>, s: State<V, E>) {
    && |s.tasks| == |program| && s.chain != [] && Innermost(s) < |s.tasks| && s.tasks[Innermost(s)].Running?
    && var b := s.tasks[Innermost(s)].body;
       b.Await? ==> b.child < |s.tasks| && !s.tasks[b.child].Running?
  }

  /** One turn: finish and go back to the parent, take the outcome of a finished
      child, or enter a child that has not started. */
  function Step<V, E>(program: seq<Body<V, E>>, s: State<V, E>): State<V, E>
    requires CanStep(program, s)
  {
    var c := Innermost(s);
    match s.tasks[c].body
    case Return(f) => Finish(s, Value(f(s.tasks[c].env)))
    case Throw(e) => Finish(s, Failed(e))
    case Await(d, _, _) =>
      if s.tasks[d].Done? then
        var (b, env) := Resumed(s.tasks[c].body, s.tasks[c].env, s.tasks[d].outcome);
        s.(tasks := s.tasks[c := Running(b, env)])
      else Enter(program, s, d)
  }

  function Finish<V, E>(s: State<V, E>, o: Outcome<V, E>): State<V, E>
    requires s.chain != [] && Innermost(s) < |s.tasks|
  {
    State(s.tasks[Innermost(s) := Done(o)], s.chain[..|s.chain| - 1])
  }

  function Enter<V, E>(program: seq<Body<V, E>>, s: State<V, E>, d: nat): State<V, E>
    requires d < |s.tasks| && |s.tasks| == |program|
  {
    State(s.tasks[d := Running(program[d], [])], s.chain + [d])
  }

  /** What a task has come to agrees with its direct evaluation. */
  ghost predicate TaskSound<V, E>(program: seq<Body<V, E>>, i: nat, t: Task<V, E>)
    requires Acyclic(program) && i < |program|
  {
    match t
    case Fresh => true
    case Running(b, env) => Below(b, i) && EvalBody(program, i, b, env) == Eval(program, i)
    case Done(o) => o == Eval(program, i)
  }

  ghost predicate ChainOk<V, E>(s: State<V, E>) {
    && (forall k :: 0 <= k < |s.chain| ==> s.chain[k] < |s.tasks|)
    && (forall k, l :: 0 <= k < l < |s.chain| ==> s.chain[k] > s.chain[l])
    && (forall i: nat :: i < |s.tasks| ==> (s.tasks[i].Running? <==> i in s.chain))
  }

  ghost predicate Sound<V, E>(program: seq<Body<V, E>>, s: State<V, E>) {
    && Acyclic(program) && |s.tasks| == |program| && ChainOk(s)
    && (forall i: nat :: i < |s.tasks| ==> TaskSound(program, i, s.tasks[i]))
  }

  /** A running task can always take its next step: whatever it awaits has either
      finished or not been started, never a task already waiting. */
  lemma NeverStuck<V, E>(program: seq<Body<V, E>>, s: State<V, E>)
    requires Sound(program, s) && s.chain != []
    ensures CanStep(program, s)
  {
    var c := Innermost(s);
    assert c in s.chain;
    assert TaskSound(program, c, s.tasks[c]);
    var b := s.tasks[c].body;
    assert forall k :: 0 <= k < |s.chain| ==> s.chain[k] >= c;
    if b.Await? {
      assert b.child !in s.chain;
    }
  }

  lemma FinishChain<V, E>(s: State<V, E>, o: Outcome<V, E>)
    requires ChainOk(s) && s.chain != []
    ensures ChainOk(Finish(s, o))
  {
    var c, t := Innermost(s), Finish(s, o);
    assert s.chain == t.chain + [c];
    assert c !in t.chain;
    assert forall i: nat :: i in s.chain <==> i in t.chain || i == c;
  }

  lemma EnterChain<V, E>(program: seq<Body<V, E>>, s: State<V, E>, d: nat)
    requires ChainOk(s) && |s.tasks| == |program| && d < |program| && s.tasks[d].Fresh?
    requires s.chain != [] ==> d < Innermost(s)
    ensures ChainOk(Enter(program, s, d))
  {
    var t := Enter(program, s, d);
    assert forall k :: 0 <= k < |s.chain| ==> s.chain[k] >= Innermost(s);
    assert forall i: nat :: i in t.chain <==> i in s.chain || i == d;
  }

  lemma FinishSound<V, E>(program: seq<Body<V, E>>, s: State<V, E>, o: Outcome<V, E>)
    requires Sound(program, s) && s.chain != [] && o == Eval(program, Innermost(s))
    ensures Sound(program, Finish(s, o))
  {
    FinishChain(s, o);
    assert TaskSound(program, Innermost(s), Done(o));
  }

  lemma EnterSound<V, E>(program: seq<Body<V, E>>, s: State<V, E>, d: nat)
    requires Sound(program, s) && d < |program| && s.tasks[d].Fresh?
    requires s.chain != [] ==> d < Innermost(s)
    ensures Sound(program, Enter(program, s, d))
  {
    EnterChain(program, s, d);
    assert TaskSound(program, d, Running(program[d], []));
  }

  lemma ResumeSound<V, E>(program: seq<Body<V, E>>, s: State<V, E>)
    requires Sound(program, s) && CanStep(program, s)
    requires var b := s.tasks[Innermost(s)].body; b.Await? && s.tasks[b.child].Done?
    ensures Sound(program, Step(program, s))
  {
    var c := Innermost(s);
    assert TaskSound(program, c, s.tasks[c]);
    assert TaskSound(program, s.tasks[c].body.child, s.tasks[s.tasks[c].body.child]);
    ResumedKeeps(program, c, s.tasks[c].body, s.tasks[c].env);
    assert TaskSound(program, c, Step(program, s).tasks[c]);
  }

  /** Every step keeps what each task has come to in agreement with direct evaluation. */
  lemma StepSound<V, E>(program: seq<Body<V, E>>, s: State<V, E>)
    requires Sound(program, s) && CanStep(program, s)
    ensures Sound(program, Step(program, s))
  {
    var c := Innermost(s);
    assert TaskSound(program, c, s.tasks[c]);
    match s.tasks[c].body
    case Return(f) => FinishSound(program, s, Value(f(s.tasks[c].env)));
    case Throw(e) => FinishSound(program, s, Failed(e));
    case Await(d, _, _) =>
      if s.tasks[d].Done? {
        ResumeSound(program, s);
      } else {
        EnterSound(program, s, d);
      }
  }

  // ---- termination ----

  function Weight<V, E>(program: seq<Body<V, E>>, i: nat, t: Task<V, E>): nat
    requires i < |program|
  {
    match t
    case Fresh => 1 + Size(program[i])
    case Running(b, _) => Size(b)
    case Done(_) => 0
  }

  function Weights<V, E>(program: seq<Body<V, E>>, tasks: seq<Task<V, E>>): (w: seq<nat>)
    requires |tasks| == |program|
    ensures |w| == |tasks| && forall i :: 0 <= i < |w| ==> w[i] == Weight(program, i, tasks[i])
  {
    seq(|tasks|, i requires 0 <= i < |tasks| => Weight(program, i, tasks[i]))
  }

  function Work<V, E>(program: seq<Body<V, E>>, s: State<V, E>): nat
    requires |s.tasks| == |program|
  {
    Total(Weights(program, s.tasks))
  }

  lemma WorkUpdate<V, E>(program: seq<Body<V, E>>, s: State<V, E>, i: nat, t: Task<V, E>, chain: seq<nat>)
    requires |s.tasks| == |program| && i < |program|
    ensures Work(program, State(s.tasks[i := t], chain)) + Weight(program, i, s.tasks[i])
            == Work(program, s) + Weight(program, i, t)
  {
    var w := Weights(program, s.tasks);
    assert Weights(program, s.tasks[i := t]) == w[i := Weight(program, i, t)];
    TotalUpdate(w, i, Weight(program, i, t));
  }

  lemma StepWorks<V, E>(program: seq<Body<V, E>>, s: State<V, E>)
    requires Sound(program, s) && CanStep(program, s)
    ensures Work(program, Step(program, s)) < Work(program, s)
  {
    var c, t := Innermost(s), Step(program, s);
    assert TaskSound(program, c, s.tasks[c]);
    var b := s.tasks[c].body;
    SizePositive(b);
    if b.Await? && s.tasks[b.child].Fresh? {
      WorkUpdate(program, s, b.child, t.tasks[b.child], t.chain);
    } else {
      if b.Await? {
        assert TaskSound(program, b.child, s.tasks[b.child]);
        ResumedKeeps(program, c, b, s.tasks[c].env);
      }
      WorkUpdate(program, s, c, t.tasks[c], t.chain);
    }
  }

  /** The `root` is the outermost running task, or has finished. */
  ghost predicate Runs<V, E>(program: seq<Body<V, E>>, s: State<V, E>, root: nat) {
    && Sound(program, s) && root < |s.tasks|
    && if s.chain == [] then s.tasks[root].Done? else s.chain[0] == root
  }

  lemma StepRuns<V, E>(program: seq<Body<V, E>>, s: State<V, E>, root: nat)
    requires Runs(program, s, root) && s.chain != []
    ensures CanStep(program, s) && Runs(program, Step(program, s), root)
    ensures Work(program, Step(program, s)) < Work(program, s)
    ensures var b := s.tasks[Innermost(s)].body; b.Await? && s.tasks[b.child].Fresh? ==> b.child < Innermost(s)
  {
    NeverStuck(program, s);
    StepSound(program, s);
    StepWorks(program, s);
    assert TaskSound(program, Innermost(s), s.tasks[Innermost(s)]);
  }

  lemma StartRuns<V, E>(program: seq<Body<V, E>>, s: State<V, E>, root: nat)
    requires Sound(program, s) && s.chain == [] && root < |s.tasks|
    ensures s.tasks[root].Fresh? ==> Runs(program, Enter(program, s, root), root)
    ensures s.tasks[root].Done? ==> Runs(program, s, root)
    ensures s.tasks[root].Fresh? || s.tasks[root].Done?
  {
    if s.tasks[root].Fresh? {
      EnterSound(program, s, root);
    }
  }

  lemma FinalOutcome<V, E>(program: seq<Body<V, E>>, s: State<V, E>, root: nat)
    requires Runs(program, s, root) && s.chain == []
    ensures s.tasks[root] == Done(Eval(program, root))
  {
    assert TaskSound(program, root, s.tasks[root]);
  }
}

/** Task frames linked by parent handles. */
module TaskMachine {
  import opened Common
  import opened TaskBody
  import opened TaskSteps

  datatype Stored<V, E> = Mono | Result(outcome: Outcome<V, E>)

  /** A task frame with its promise. `runs` counts how often its body was started. */
  class Promise<!V, E> {
    var body: Body<V, E>
    var env: seq<V>
    var state: Stored<V, E>
    var parent: Promise?<V, E>      // null stands for the no-op coroutine
    ghost var runs: nat

    constructor (body: Body<V, E>)
      ensures this.body == body && env == [] && state.Mono? && parent == null && runs == 0
    {
      this.body, env, state, parent := body, [], Mono, null;
      runs := 0;
    }

    /** The frame is in the condition the step machine says. */
    ghost predicate Is(t: Task<V, E>, initial: Body<V, E>)
      reads this
    {
      match t
      case Fresh => body == initial && env == [] && state.Mono? && runs == 0
      case Running(b, e) => body == b && env == e && state.Mono? && runs == 1
      case Done(o) => state == Result(o) && runs == 1
    }
  }

  /** The frame that awaits the `k`-th task of the chain; none for the outermost. */
  ghost function ParentOf<V, E>(tasks: seq<Promise<V, E>>, chain: seq<nat>, k: int): Promise?<V, E> {
    if 1 <= k <= |chain| && chain[k - 1] < |tasks| then tasks[chain[k - 1]] else null
  }

  class Tasks<!V, E> {
    const tasks: seq<Promise<V, E>>
    ghost const program: seq<Body<V, E>>
    ghost var view: State<V, E>

    ghost predicate FramesAre(now: seq<Task<V, E>>)
      reads tasks
    {
      && |tasks| == |program| == |now|
      && forall i: nat :: i < |tasks| ==> tasks[i].Is(now[i], program[i])
    }

    ghost predicate ParentsAre(chain: seq<nat>)
      reads tasks
    {
      forall k {:trigger ParentOf(tasks, chain, k)} ::
        0 <= k < |chain| && chain[k] < |tasks| ==> tasks[chain[k]].parent == ParentOf(tasks, chain, k)
    }

    /** The frames are as the step machine says, and each running task but the
        outermost holds the handle of the one that awaits it. */
    ghost predicate Valid()
      reads this, tasks
    {
      NoDup(tasks) && ChainOk(view) && FramesAre(view.tasks) && ParentsAre(view.chain)
    }

    constructor (program: seq<Body<V, E>>)
      ensures Valid() && fresh(tasks) && this.program == program
      ensures view.chain == [] && forall i :: 0 <= i < |tasks| ==> view.tasks[i].Fresh?
    {
      var created: seq<Promise<V, E>> := [];
      var i := 0;
      while i < |program|
        invariant |created| == i <= |program| && NoDup(created) && fresh(created)
        invariant forall k :: 0 <= k < i ==> created[k].Is(Fresh, program[k])
      {
        var p := new Promise(program[i]);
        created := created + [p];
        i := i + 1;
      }
      tasks := created;
      this.program := program;
      view := State(seq(|program|, _ => Fresh), []);
    }

    /** Control enters a task for the first time; its awaiter, if any, is its parent. */
    method EnterTask(d: nat, parent: Promise?<V, E>) returns (current: Promise<V, E>)
      requires Valid() && d < |tasks| && view.tasks[d].Fresh? && parent == ParentOf(tasks, view.chain, |view.chain|)
      requires view.chain != [] ==> d < Innermost(view)
      modifies tasks[d], this`view
      ensures Valid() && view == Enter(program, old(view), d) && current == tasks[d]
    {
      current := tasks[d];
      assert d !in view.chain;
      assert forall k :: 0 <= k < |view.chain| ==> view.chain[k] in view.chain;
      ghost var before := view;
      view := Enter(program, before, d);
      current.parent := parent;
      current.runs := current.runs + 1;
      Entered(before, d);
      FramesEntered(before, d);
    }

    lemma Entered(v: State<V, E>, d: nat)
      requires ChainOk(v) && |v.tasks| == |program| == |tasks| && d < |tasks| && v.tasks[d].Fresh?
      requires v.chain != [] ==> d < Innermost(v)
      requires ParentsAre(v.chain) && tasks[d].parent == ParentOf(tasks, v.chain, |v.chain|)
      ensures ChainOk(Enter(program, v, d)) && ParentsAre(Enter(program, v, d).chain)
    {
      EnterChain(program, v, d);
      var chain := v.chain + [d];
      forall k | 0 <= k < |chain|
        ensures chain[k] < |tasks| ==> tasks[chain[k]].parent == ParentOf(tasks, chain, k)
      {
        assert k < |v.chain| ==> chain[k] == v.chain[k];
        assert ParentOf(tasks, chain, k) == ParentOf(tasks, v.chain, k);
      }
    }

    lemma FramesEntered(v: State<V, E>, d: nat)
      requires |tasks| == |program| == |v.tasks| && d < |tasks| && tasks[d].Is(Running(program[d], []), program[d])
      requires forall j: nat :: j < |tasks| && j != d ==> tasks[j].Is(v.tasks[j], program[j])
      ensures FramesAre(Enter(program, v, d).tasks)
    {
    }

    /** The body ends: the promise keeps the outcome and control goes to the parent. */
    method FinishTask(current: Promise<V, E>, o: Outcome<V, E>) returns (cont: Promise?<V, E>)
      requires Valid() && view.chain != [] && Innermost(view) < |tasks| && current == tasks[Innermost(view)]
      modifies current, this`view
      ensures Valid() && view == Finish(old(view), o)
      ensures cont == ParentOf(tasks, view.chain, |view.chain|)
    {
      ghost var c, chain := Innermost(view), view.chain;
      FinishChain(view, o);
      assert c in chain && view.tasks[c].Running?;
      assert forall j :: 0 <= j < |tasks| && j != c ==> tasks[j] != current;
      current.state := Result(o);
      cont := current.parent;
      view := Finish(view, o);
      assert forall k :: 0 <= k <= |view.chain| ==> ParentOf(tasks, view.chain, k) == ParentOf(tasks, chain, k);
    }

    /** The frame control is in is the innermost one of the chain. */
    lemma CurrentRuns(current: Promise<V, E>)
      requires Valid() && current == ParentOf(tasks, view.chain, |view.chain|)
      ensures view.chain != [] && Innermost(view) < |tasks| && current == tasks[Innermost(view)]
      ensures view.tasks[Innermost(view)].Running? && current.body == view.tasks[Innermost(view)].body
    {
      assert Innermost(view) in view.chain;
    }

    lemma InnermostRuns()
      requires Valid() && view.chain != []
      ensures Innermost(view) < |tasks| && view.tasks[Innermost(view)].Running?
    {
      assert Innermost(view) in view.chain;
    }

    /** The running task goes on for one turn; the result is the task to go on with. */
    method Turn(current: Promise<V, E>) returns (next: Promise?<V, E>)
      requires Valid() && CanStep(program, view) && current == tasks[Innermost(view)]
      requires var b := current.body; b.Await? && view.tasks[b.child].Fresh? ==> b.child < Innermost(view)
      modifies this`view, tasks
      ensures Valid() && view == Step(program, old(view))
      ensures next == ParentOf(tasks, view.chain, |view.chain|)
    {
      match current.body {
        case Return(f) =>
          next := FinishTask(current, Value(f(current.env)));
        case Throw(e) =>
          next := FinishTask(current, Failed(e));
        case Await(d, _, _) =>
          match tasks[d].state {
            case Mono =>
              next := EnterTask(d, current);
            case Result(outcome) =>
              TakeOutcome(current, outcome);
              next := current;
          }
      }
    }

    /** `await_ready` found the child finished, or control came back from it: `await_resume`. */
    method TakeOutcome(current: Promise<V, E>, outcome: Outcome<V, E>)
      requires Valid() && view.chain != [] && Innermost(view) < |tasks| && current == tasks[Innermost(view)]
      requires current.body.Await?
      modifies current, this`view
      ensures Valid()
      ensures var (b, env) := Resumed(old(current.body), old(current.env), outcome);
              view == old(view).(tasks := old(view).tasks[Innermost(old(view)) := Running(b, env)])
    {
      InnermostRuns();
      var (b, env) := Resumed(current.body, current.env, outcome);
      current.body, current.env := b, env;
      view := view.(tasks := view.tasks[Innermost(view) := Running(b, env)]);
    }

    /** `co_await` of the task `root` from outside: its body, and the bodies of the
        tasks it awaits, run at most once ever, and the outcome is the one of
        direct recursive evaluation. */
    method Run(root: nat) returns (o: Outcome<V, E>)
      requires Valid() && Acyclic(program) && root < |tasks|
      requires view.chain == [] && Sound(program, view)
      modifies this`view, tasks
      ensures Valid() && view.chain == [] && Sound(program, view)
      ensures o == Eval(program, root) && view.tasks[root] == Done(o)
      ensures old(view.tasks[root].Done?) ==> view == old(view)
      ensures forall i :: 0 <= i < |tasks| ==> tasks[i].runs <= 1
    {
      StartRuns(program, view, root);
      if tasks[root].state.Mono? {
        Drive(root);
      }
      FinalOutcome(program, view, root);
      o := tasks[root].state.outcome;
    }

    method Drive(root: nat)
      requires Valid() && root < |tasks| && view.chain == [] && view.tasks[root].Fresh?
      requires Acyclic(program) && Runs(program, Enter(program, view, root), root)
      modifies this`view, tasks
      ensures Valid() && view.chain == [] && Runs(program, view, root)
    {
      var current: Promise?<V, E> := EnterTask(root, null);
      while current != null
        invariant Valid() && Runs(program, view, root)
        invariant current == ParentOf(tasks, view.chain, |view.chain|)
        decreases Work(program, view)
      {
        CurrentRuns(current);
        StepRuns(program, view, root);
        current := Turn(current);
      }
    }
  }
}
