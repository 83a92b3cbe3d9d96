/** What a generator body still has to do, and the flat sequence it stands for. */
module GeneratorBody {
  import opened Common

  /** The rest of a generator body. `Nest` is `co_yield elements_of(inner)`: when
      the inner generator ends by an exception, the body continues with `caught`,
      or fails with the same exception if it does not catch. `NestMoved` nests a
      moved-from generator. */
  datatype Body<V, E> =
    | Return
    | Yield(value: V, rest: Body<V, E>)
    | Throw(error: E)
    | Nest(inner: Body<V, E>, rest: Body<V, E>, caught: Option<Body<V, E>>)
    | NestMoved(rest: Body<V, E>)

  /** The values produced and the exception, if any, that follows them. */
  datatype Flat<V, E> = Flat(values: seq<V>, thrown: Option<E>)

  function Prepend<V, E>(xs: seq<V>, f: Flat<V, E>): Flat<V, E> {
    Flat(xs + f.values, f.thrown)
  }

  /** The recursive in-order flattening. */
  function Flatten<V, E>(b: Body<V, E>): Flat<V, E> {
    match b
    case Return => Flat([], None)
    case Yield(v, rest) => Prepend([v], Flatten(rest))
    case Throw(e) => Flat([], Some(e))
    case Nest(inner, rest, caught) =>
      var f := Flatten(inner);
      if f.thrown.None? then Prepend(f.values, Flatten(rest))
      else if caught.Some? then Prepend(f.values, Flatten(caught.value))
      else f
    case NestMoved(rest) => Flatten(rest)
  }

  /** The exception with which a body that has nothing more to do ends, if any. */
  function Ending<V, E>(b: Body<V, E>): Option<E> { if b.Throw? then Some(b.error) else None }

  /** What a body suspended at `Nest` does once its inner generator has ended. */
  function Continue<V, E>(b: Body<V, E>, thrown: Option<E>): Body<V, E>
    requires b.Nest?
  {
    match thrown
    case None => b.rest
    case Some(e) => if b.caught.Some? then b.caught.value else Throw(e)
  }

  /** The flattening of what is left, given the inner part and the suspended
      bodies around it, outermost first. */
  function Unwind<V, E>(outer: seq<Body<V, E>>, f: Flat<V, E>): Flat<V, E>
    requires forall k :: 0 <= k < |outer| ==> outer[k].Nest?
    decreases |outer|
  {
    if outer == [] then f
    else
      var b := outer[|outer| - 1];
      Unwind(outer[..|outer| - 1], Prepend(f.values, Flatten(Continue(b, f.thrown))))
  }

  lemma NestUnfolds<V, E>(b: Body<V, E>)
    requires b.Nest?
    ensures var f := Flatten(b.inner);
            Flatten(b) == Prepend(f.values, Flatten(Continue(b, f.thrown)))
  {
    var f := Flatten(b.inner);
    if f.thrown.Some? && b.caught.None? {
      assert f.values + [] == f.values;
    }
  }

  lemma {:induction false} UnwindPrepends<V, E>(outer: seq<Body<V, E>>, xs: seq<V>, f: Flat<V, E>)
    requires forall k :: 0 <= k < |outer| ==> outer[k].Nest?
    decreases |outer|
    ensures Unwind(outer, Prepend(xs, f)) == Prepend(xs, Unwind(outer, f))
  {
    if outer != [] {
      var b := outer[|outer| - 1];
      var g := Flatten(Continue(b, f.thrown));
      assert (xs + f.values) + g.values == xs + (f.values + g.values);
      UnwindPrepends(outer[..|outer| - 1], xs, Prepend(f.values, g));
    }
  }

  /** The work left in a body, and in a body whose inner generator is running. */
  function Size<V, E>(b: Body<V, E>): nat {
    match b
    case Return => 1
    case Yield(_, rest) => 1 + Size(rest)
    case Throw(_) => 1
    case Nest(inner, _, _) => 1 + Size(inner) + SizeAround(b)
    case NestMoved(rest) => 1 + Size(rest)
  }

  function SizeAround<V, E>(b: Body<V, E>): nat
    requires b.Nest?
    decreases b, 0
  {
    1 + Size(b.rest) + if b.caught.Some? then Size(b.caught.value) else 0
  }

  function SizeAll<V, E>(outer: seq<Body<V, E>>): nat
    requires forall k :: 0 <= k < |outer| ==> outer[k].Nest?
    decreases |outer|
  {
    if outer == [] then 0 else SizeAll(outer[..|outer| - 1]) + SizeAround(outer[|outer| - 1])
  }

  /** The bodies suspended around the innermost one are all at a nesting point. */
  ghost predicate AllNest<V, E>(outer: seq<Body<V, E>>) {
    forall k :: 0 <= k < |outer| ==> outer[k].Nest?
  }

  ghost function Remaining<V, E>(outer: seq<Body<V, E>>, inner: Body<V, E>): Flat<V, E>
    requires AllNest(outer)
  {
    Unwind(outer, Flatten(inner))
  }

  ghost function Work<V, E>(outer: seq<Body<V, E>>, inner: Body<V, E>): nat
    requires AllNest(outer)
  {
    SizeAll(outer) + Size(inner)
  }

  /** Entering a nested generator changes nothing about what is left to produce. */
  lemma NestKeeps<V, E>(outer: seq<Body<V, E>>, b: Body<V, E>)
    requires AllNest(outer) && b.Nest?
    ensures Remaining(outer + [b], b.inner) == Remaining(outer, b)
    ensures Work(outer + [b], b.inner) < Work(outer, b)
  {
    assert (outer + [b])[..|outer|] == outer;
    NestUnfolds(b);
  }

  /** Nor does returning from one, normally or by an exception. */
  lemma ReturnKeeps<V, E>(outer: seq<Body<V, E>>, inner: Body<V, E>, thrown: Option<E>)
    requires AllNest(outer) && outer != []
    requires inner == match thrown case None => Return case Some(e) => Throw(e)
    ensures var front, b := outer[..|outer| - 1], outer[|outer| - 1];
            && AllNest(front)
            && Remaining(front, Continue(b, thrown)) == Remaining(outer, inner)
            && Work(front, Continue(b, thrown)) < Work(outer, inner)
  {
    var b := outer[|outer| - 1];
    assert Prepend([], Flatten(Continue(b, thrown))) == Flatten(Continue(b, thrown));
  }

  lemma YieldKeeps<V, E>(outer: seq<Body<V, E>>, v: V, rest: Body<V, E>)
    requires AllNest(outer)
    ensures Remaining(outer, Yield(v, rest)) == Prepend([v], Remaining(outer, rest))
    ensures Prepend([v], Remaining(outer, rest)).values[0] == v
    ensures Prepend([v], Remaining(outer, rest)).values[1..] == Remaining(outer, rest).values
  {
    UnwindPrepends(outer, [v], Flatten(rest));
  }
}

/** Two accounts of a generator body that do not flatten its parts. */
module GeneratorLaws {
  import opened Common
  import opened GeneratorBody

  /** Performs a body with what is to come after its end, and after an exception that leaves it. */
  function Perform<V, E>(b: Body<V, E>, after: Flat<V, E>, failed: E -> Flat<V, E>): Flat<V, E> {
    match b
    case Return => after
    case Yield(v, rest) => Prepend([v], Perform(rest, after, failed))
    case Throw(e) => failed(e)
    case Nest(inner, rest, None) => Perform(inner, Perform(rest, after, failed), failed)
    case Nest(inner, rest, Some(handler)) =>
      var handled := Perform(handler, after, failed);
      Perform(inner, Perform(rest, after, failed), _ => handled)
    case NestMoved(rest) => Perform(rest, after, failed)
  }

  /** A whole iteration. */
  function Performed<V, E>(b: Body<V, E>): Flat<V, E> {
    Perform(b, Flat([], None), e => Flat([], Some(e)))
  }

  function Onward<V, E>(f: Flat<V, E>, after: Flat<V, E>, failed: E -> Flat<V, E>): Flat<V, E> {
    Prepend(f.values, if f.thrown.None? then after else failed(f.thrown.value))
  }

  lemma PrependTwice<V, E>(a: seq<V>, b: seq<V>, f: Flat<V, E>)
    ensures Prepend(a, Prepend(b, f)) == Prepend(a + b, f)
  {
    assert a + (b + f.values) == (a + b) + f.values;
  }

  lemma OnwardPrepends<V, E>(xs: seq<V>, f: Flat<V, E>, after: Flat<V, E>, failed: E -> Flat<V, E>)
    ensures Onward(Prepend(xs, f), after, failed) == Prepend(xs, Onward(f, after, failed))
  {
    PrependTwice(xs, f.values, if f.thrown.None? then after else failed(f.thrown.value));
  }

  lemma PerformNest<V, E>(inner: Body<V, E>, rest: Body<V, E>, after: Flat<V, E>, failed: E -> Flat<V, E>)
    requires Perform(rest, after, failed) == Onward(Flatten(rest), after, failed)
    requires Perform(inner, Perform(rest, after, failed), failed)
             == Onward(Flatten(inner), Perform(rest, after, failed), failed)
    ensures var b: Body<V, E> := Nest(inner, rest, None); Perform(b, after, failed) == Onward(Flatten(b), after, failed)
  {
    if Flatten(inner).thrown.None? {
      OnwardPrepends(Flatten(inner).values, Flatten(rest), after, failed);
    }
  }

  lemma PerformCatch<V, E>(inner: Body<V, E>, rest: Body<V, E>, handler: Body<V, E>, after: Flat<V, E>, failed: E -> Flat<V, E>)
    requires Perform(rest, after, failed) == Onward(Flatten(rest), after, failed)
    requires Perform(handler, after, failed) == Onward(Flatten(handler), after, failed)
    requires var handled := Perform(handler, after, failed);
             Perform(inner, Perform(rest, after, failed), _ => handled)
             == Onward(Flatten(inner), Perform(rest, after, failed), _ => handled)
    ensures var b := Nest(inner, rest, Some(handler)); Perform(b, after, failed) == Onward(Flatten(b), after, failed)
  {
    if Flatten(inner).thrown.None? {
      OnwardPrepends(Flatten(inner).values, Flatten(rest), after, failed);
    } else {
      OnwardPrepends(Flatten(inner).values, Flatten(handler), after, failed);
    }
  }

  lemma {:induction false} PerformIsFlatten<V, E>(b: Body<V, E>, after: Flat<V, E>, failed: E -> Flat<V, E>)
    ensures Perform(b, after, failed) == Onward(Flatten(b), after, failed)
  {
    match b
    case Return =>
    case Yield(v, rest) =>
      PerformIsFlatten(rest, after, failed);
      OnwardPrepends([v], Flatten(rest), after, failed);
    case Throw(e) =>
    case Nest(inner, rest, caught) =>
      PerformIsFlatten(rest, after, failed);
      if caught.Some? {
        PerformIsFlatten(caught.value, after, failed);
        var handled := Perform(caught.value, after, failed);
        PerformIsFlatten(inner, Perform(rest, after, failed), _ => handled);
        PerformCatch(inner, rest, caught.value, after, failed);
      } else {
        PerformIsFlatten(inner, Perform(rest, after, failed), failed);
        PerformNest(inner, rest, after, failed);
      }
    case NestMoved(rest) => PerformIsFlatten(rest, after, failed);
  }

  /** The flattening of a body is what performing it comes to. */
  lemma FlattenIsPerformed<V, E>(b: Body<V, E>)
    ensures Flatten(b) == Performed(b)
  {
    PerformIsFlatten(b, Flat([], None), (e: E) => Flat([], Some(e)));
  }

  /** Nothing in the body handles an exception. */
  predicate CatchFree<V, E>(b: Body<V, E>) {
    match b
    case Yield(_, rest) => CatchFree(rest)
    case Nest(inner, rest, caught) => caught.None? && CatchFree(inner) && CatchFree(rest)
    case NestMoved(rest) => CatchFree(rest)
    case _ => true
  }

  datatype Token<V, E> = Value(value: V) | Error(error: E)

  /** All yields and throws of a body, in the order they are written. */
  function Tokens<V, E>(b: Body<V, E>): seq<Token<V, E>> {
    match b
    case Return => []
    case Yield(v, rest) => [Value(v)] + Tokens(rest)
    case Throw(e) => [Error(e)]
    case Nest(inner, rest, _) => Tokens(inner) + Tokens(rest)
    case NestMoved(rest) => Tokens(rest)
  }

  /** The values before the first error, and that error. */
  function UpToError<V, E>(ts: seq<Token<V, E>>): Flat<V, E> {
    if ts == [] then Flat([], None)
    else if ts[0].Error? then Flat([], Some(ts[0].error))
    else Prepend([ts[0].value], UpToError(ts[1..]))
  }

  lemma {:induction false} UpToErrorAppend<V, E>(a: seq<Token<V, E>>, b: seq<Token<V, E>>)
    ensures UpToError(a + b) ==
            if UpToError(a).thrown.Some? then UpToError(a) else Prepend(UpToError(a).values, UpToError(b))
  {
    if a == [] {
      assert a + b == b;
    } else {
      assert (a + b)[1..] == a[1..] + b;
      UpToErrorAppend(a[1..], b);
      if a[0].Value? {
        PrependTwice([a[0].value], UpToError(a[1..]).values, UpToError(b));
      }
    }
  }

  /** A body that handles no exception yields what it writes, nested or not, up to its
      first throw, and ends with that. */
  lemma {:induction false} CatchFreeEndsAtFirstThrow<V, E>(b: Body<V, E>)
    requires CatchFree(b)
    ensures Flatten(b) == UpToError(Tokens(b))
  {
    match b
    case Yield(v, rest) =>
      CatchFreeEndsAtFirstThrow(rest);
      assert Tokens(b)[1..] == Tokens(rest);
    case Nest(inner, rest, _) =>
      CatchFreeEndsAtFirstThrow(inner);
      CatchFreeEndsAtFirstThrow(rest);
      UpToErrorAppend(Tokens(inner), Tokens(rest));
    case NestMoved(rest) => CatchFreeEndsAtFirstThrow(rest);
    case _ =>
  }
}

/** Generator frames linked as the promises link them, and the iterator over them. */
module GeneratorMachine {
  import opened Common
  import opened GeneratorBody
  import opened GeneratorLaws

  /** A coroutine frame with its promise. `awaiting` is the nesting record inside
      the awaitable at which the frame is suspended. */
  class Frame<V, E> {
    var body: Body<V, E>
    var done: bool
    var top: Frame<V, E>
    var ptr: Option<V>
    var info: NestInfo?<V, E>
    var awaiting: NestInfo?<V, E>

    constructor (body: Body<V, E>)
      ensures this.body == body && !done && top == this && ptr.None? && info == null && awaiting == null
    {
      this.body, done, top, ptr, info, awaiting := body, false, this, None, null, null;
    }
  }

  class NestInfo<V, E> {
    var except: Option<E>
    var parent: Frame<V, E>
    var root: Frame<V, E>

    constructor (parent: Frame<V, E>, root: Frame<V, E>)
      ensures except.None? && this.parent == parent && this.root == root
    {
      this.except, this.parent, this.root := None, parent, root;
    }
  }

  /** A chain of frames from the root on, with a record between each and the next. */
  ghost predicate Shape<V, E>(root: Frame<V, E>, chain: seq<Frame<V, E>>, infos: seq<NestInfo<V, E>>,
                              outer: seq<Body<V, E>>, repr: set<object>) {
    && (forall x :: x in chain ==> x in repr) && (forall x :: x in infos ==> x in repr)
    && |chain| == |infos| + 1 && |outer| == |infos| && chain[0] == root
    && NoDup(chain) && NoDup(infos) && AllNest(outer)
  }

  lemma ShapeGrows<V, E>(root: Frame<V, E>, chain: seq<Frame<V, E>>, infos: seq<NestInfo<V, E>>,
                         outer: seq<Body<V, E>>, repr: set<object>,
                         target: Frame<V, E>, nested: NestInfo<V, E>, body: Body<V, E>)
    requires Shape(root, chain, infos, outer, repr) && target !in repr && nested !in repr && body.Nest?
    ensures Shape(root, chain + [target], infos + [nested], outer + [body], repr + {target, nested})
  {
  }

  lemma ShapeShrinks<V, E>(root: Frame<V, E>, chain: seq<Frame<V, E>>, infos: seq<NestInfo<V, E>>,
                           outer: seq<Body<V, E>>, repr: set<object>, n: nat)
    requires Shape(root, chain, infos, outer, repr) && n < |infos|
    ensures Shape(root, chain[..n + 1], infos[..n], outer[..n], repr)
  {
  }

  class Generator<V, E> {
    const coro: Frame<V, E>
    ghost var chain: seq<Frame<V, E>>        // the active frames, outermost first
    ghost var infos: seq<NestInfo<V, E>>     // the record between each frame and the next

    ghost var outer: seq<Body<V, E>>         // the bodies of all frames but the last
    ghost var repr: set<object>              // every frame and record of this generator

    ghost predicate Nested(frame: Frame<V, E>, body: Body<V, E>, info: NestInfo<V, E>, inner: Frame<V, E>)
      reads frame, info, inner
    {
      && frame.body == body && frame.awaiting == info && inner.info == info
      && info.parent == frame && info.root == coro && info.except.None?
    }

    ghost predicate NestedAll(chain: seq<Frame<V, E>>, infos: seq<NestInfo<V, E>>, outer: seq<Body<V, E>>)
      requires |chain| == |infos| + 1 && |outer| == |infos|
      reads chain, infos
    {
      forall k {:trigger infos[k]} :: 0 <= k < |infos| ==> Nested(chain[k], outer[k], infos[k], chain[k + 1])
    }

    /** Every frame but the last waits for the next one, which knows its parent
        and the root; the root's `top` is the innermost active frame. */
    ghost predicate Linked()
      reads this, repr
    {
      && Shape(coro, chain, infos, outer, repr) && coro.info == null
      && coro.top == chain[|infos|] && coro.top.awaiting == null
      && NestedAll(chain, infos, outer)
    }

    constructor (body: Body<V, E>)
      ensures Linked() && fresh(repr) && !coro.done && infos == [] && outer == []
      ensures coro.top.body == body
    {
      coro := new Frame(body);
      chain, infos, outer := [coro], [], [];
      repr := {coro};
    }

    lemma InnermostIsRoot()
      requires Linked()
      ensures coro.top.info == null <==> infos == []
      ensures coro.top.info != null ==> coro.top.info == infos[|infos| - 1] && coro.top.info.root == coro
    {
      if infos != [] {
        var k := |infos| - 1;
        assert Nested(chain[k], outer[k], infos[k], chain[k + 1]);
      }
    }

    /** `co_yield elements_of(inner)`: the inner generator becomes the innermost one. */
    method AwaitNested()
      requires Linked() && coro.top.body.Nest?
      modifies this, repr
      ensures Linked() && fresh(repr - old(repr)) && repr >= old(repr) && coro.done == old(coro.done)
      ensures outer == old(outer) + [old(coro.top.body)] && coro.top.body == old(coro.top.body.inner)
    {
      var current := coro.top;
      var target, nested := LinkNested(current);
      ghost var frames, records, bodies, n := chain, infos, outer, |infos|;
      chain, infos, outer := frames + [target], records + [nested], bodies + [current.body];
      repr := repr + {target, nested};
      current.awaiting := nested;
      coro.top := target;
      assert forall k {:trigger records[k]} :: 0 <= k < n ==> Nested(frames[k], bodies[k], records[k], frames[k + 1]);
      NestedGrows(frames, records, bodies, target, nested);
      ShapeGrows(coro, frames, records, bodies, old(repr), target, nested, current.body);
    }

    lemma NestedGrows(chain: seq<Frame<V, E>>, infos: seq<NestInfo<V, E>>, outer: seq<Body<V, E>>,
                      target: Frame<V, E>, nested: NestInfo<V, E>)
      requires |chain| == |infos| + 1 && |outer| == |infos| && NestedAll(chain, infos, outer)
      requires Nested(chain[|infos|], chain[|infos|].body, nested, target)
      ensures NestedAll(chain + [target], infos + [nested], outer + [chain[|infos|].body])
    {
    }

    /** The nested generator's frame and the record that tells it who its parent and the root are. */
    method LinkNested(current: Frame<V, E>) returns (target: Frame<V, E>, nested: NestInfo<V, E>)
      requires Linked() && current == coro.top && current.body.Nest?
      ensures fresh(target) && target.body == current.body.inner && target.info == nested
      ensures target.awaiting == null && target.top == target && !target.done
      ensures fresh(nested) && nested.except.None? && nested.parent == current && nested.root == coro
    {
      InnermostIsRoot();
      target := new Frame(current.body.inner);
      nested := new NestInfo(current, if current.info != null then current.info.root else current);
      target.info := nested;
    }

    /** Final suspension of a nested generator: its parent becomes the innermost
        one and continues after, or fails at, the point where it nested. */
    method ReturnToParent(thrown: Option<E>)
      requires Linked() && infos != []
      modifies this, repr
      ensures Linked() && repr == old(repr) && coro.done == old(coro.done)
      ensures var n := |old(outer)| - 1;
              outer == old(outer)[..n] && coro.top.body == Continue(old(outer)[n], thrown)
    {
      InnermostIsRoot();
      ghost var n := |infos| - 1;
      assert Nested(chain[n], outer[n], infos[n], chain[n + 1]);
      var current := coro.top;
      var nested := current.info;
      var cont := nested.parent;
      ghost var frames, records, bodies := chain, infos, outer;
      assert cont == frames[n] && frames[n + 1] == current && records[n] == nested;
      chain, infos, outer := frames[..n + 1], records[..n], bodies[..n];
      nested.except := thrown;
      current.done := true;
      nested.root.top := cont;
      current.info := null;
      cont.awaiting := null;
      cont.body := Continue(cont.body, nested.except);
      assert forall k {:trigger records[k]} :: 0 <= k < n ==> Nested(frames[k], bodies[k], records[k], frames[k + 1]);
      NestedShrinks(frames, records, bodies, n);
      ShapeShrinks(coro, frames, records, bodies, repr, n);
    }

    lemma NestedShrinks(chain: seq<Frame<V, E>>, infos: seq<NestInfo<V, E>>, outer: seq<Body<V, E>>, n: nat)
      requires n < |infos| == |outer| && |chain| == |infos| + 1
      requires forall k {:trigger infos[k]} :: 0 <= k < n ==> Nested(chain[k], outer[k], infos[k], chain[k + 1])
      ensures NestedAll(chain[..n + 1], infos[..n], outer[..n])
    {
    }

    /** The innermost body goes on to `rest`, with `value` as what its promise points to. */
    method GoOn(value: Option<V>, rest: Body<V, E>)
      requires Linked()
      modifies coro.top`ptr, coro.top`body
      ensures Linked() && coro.top.ptr == value && coro.top.body == rest
    {
      ghost var n := |infos|;
      coro.top.ptr, coro.top.body := value, rest;
      assert forall k {:trigger infos[k]} :: 0 <= k < n ==>
               chain[k] != chain[n] && Nested(chain[k], outer[k], infos[k], chain[k + 1]);
    }

    /** Resuming the innermost generator runs until a value is produced, the root
        returns, or an exception leaves the root. */
    method Resume() returns (thrown: Option<E>)
      requires Linked() && !coro.done
      modifies this, repr
      ensures Linked() && fresh(repr - old(repr)) && repr >= old(repr)
      ensures var f := old(Remaining(outer, coro.top.body));
              if f.values == [] then coro.done && thrown == f.thrown
              else && thrown.None? && !coro.done && coro.top.ptr == Some(f.values[0])
                   && Remaining(outer, coro.top.body) == Flat(f.values[1..], f.thrown)
    {
      ghost var f := Remaining(outer, coro.top.body);
      while true
        invariant Linked() && fresh(repr - old(repr)) && repr >= old(repr) && !coro.done
        invariant Remaining(outer, coro.top.body) == f
        decreases Work(outer, coro.top.body)
      {
        InnermostIsRoot();
        var current := coro.top;
        assert current in chain;
        match current.body {
          case Yield(v, rest) =>
            YieldKeeps(outer, v, rest);
            GoOn(Some(v), rest);
            return None;
          case NestMoved(rest) =>
            GoOn(current.ptr, rest);
          case Nest(_, _, _) =>
            NestKeeps(outer, current.body);
            AwaitNested();
          case _ =>
            var ended := Ending(current.body);
            if current.info == null {
              current.done := true;
              return ended;
            }
            ReturnKeeps(outer, current.body, ended);
            ReturnToParent(ended);
        }
      }
    }
  }

  /** `left` is what the iterator has still to give, the current value included. */
  ghost predicate Stands<V, E>(g: Generator<V, E>, left: Flat<V, E>, thrown: Option<E>)
    requires g.Linked()
    reads g, g.repr
  {
    if g.coro.done then left == Flat([], thrown)
    else
      && thrown.None? && left.values != [] && g.coro.top.ptr == Some(left.values[0])
      && Remaining(g.outer, g.coro.top.body) == Flat(left.values[1..], left.thrown)
  }

  lemma TakeFirst<V, E>(values: seq<V>, left: Flat<V, E>)
    requires left.values != []
    ensures Prepend(values + [left.values[0]], left.(values := left.values[1..])) == Prepend(values, left)
  {
    assert (values + [left.values[0]]) + left.values[1..] == values + left.values;
  }

  /** Iterating from `begin` to the end yields exactly the flattening: its values
      in order, then its exception. */
  method Iterate<V, E>(body: Body<V, E>) returns (values: seq<V>, thrown: Option<E>)
    ensures Flat(values, thrown) == Flatten(body)
    ensures Flat(values, thrown) == Performed(body)
    ensures CatchFree(body) ==> Flat(values, thrown) == UpToError(Tokens(body))
  {
    var g := new Generator(body);
    values := [];
    ghost var left := Flatten(body);
    assert Prepend([], left) == left;
    thrown := g.Resume();
    while !g.coro.done
      invariant g.Linked() && fresh(g) && fresh(g.repr)
      invariant Prepend(values, left) == Flatten(body) && Stands(g, left, thrown)
      decreases |left.values|, !g.coro.done
    {
      TakeFirst(values, left);
      values := values + [g.coro.top.ptr.value];
      left := left.(values := left.values[1..]);
      thrown := g.Resume();
    }
    FlattenIsPerformed(body);
    if CatchFree(body) {
      CatchFreeEndsAtFirstThrow(body);
    }
  }
}
