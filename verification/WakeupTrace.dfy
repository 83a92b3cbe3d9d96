/** The books of a worker's event loop: what its queues, its eventfd and its turns
    come to, counted over the steps of a run. */
module WakeupTrace {
  import opened Common
  import opened EpollQueue
  import opened WakeupProtocol

  /** `submitted` and `resumed` coroutines; what entered the cross queue since it was
      swapped, and whether an overflow was the first of it; how often a spawner found
      that queue empty, and wrote the eventfd; the fetched events not handled yet, the
      writes since the eventfd was read, and whether the kernel has it listed as ready. */
  datatype Books = Books(submitted: nat, resumed: nat, crossed: nat, overflowFirst: bool, empties: nat, writes: nat,
                         unhandled: seq<Event>, raised: nat, listed: bool)

  function Weight(b: bool): nat { if b then 1 else 0 }

  /** The event a step handles. */
  function Handles(b: Books, step: Step): Option<Event> {
    if step.Handle? && b.unhandled != [] then Some(b.unhandled[0]) else None
  }

  /** A coroutine is handed to the worker: spawned, deferred, or its operation has completed. */
  predicate Submits(b: Books, step: Step) {
    step.SpawnCross? || step.SpawnHere? || step.Defer? || Handles(b, step) == Some(Io(true))
  }

  /** Something goes to the cross queue: a spawn from elsewhere, or a handle that meets a full ring. */
  predicate Crosses(c: Config, s: State, b: Books, step: Step) {
    || step.SpawnCross?
    || (s.ring >= c.cap
        && (step.SpawnHere? || (step.ForwardBatch? && s.batch > 0) || (step.ForwardDeferred? && s.deferred > 0)
            || Handles(b, step) == Some(Io(true))))
  }

  function Entry(c: Config, s: State, step: Step, b: Books): Books {
    Books(b.submitted + Weight(Submits(b, step)),
          b.resumed + Weight(step.Schedule? && s.ring > 0),
          if step.TakeBatch? then 0 else b.crossed + Weight(Crosses(c, s, b, step)),
          !step.TakeBatch? && (b.overflowFirst || (s.cross == 0 && !step.SpawnCross? && Crosses(c, s, b, step))),
          b.empties + Weight(step.SpawnCross? && s.cross == 0),
          b.writes + Weight(step.WriteEventFd?),
          if step.Wait? then step.events else if Handles(b, step).Some? then b.unhandled[1..] else b.unhandled,
          if Handles(b, step) == Some(EventFd) then 0 else b.raised + Weight(step.WriteEventFd?),
          if step.Wait? then b.listed && EventFd !in step.events
          else b.listed || step.WriteEventFd? || (step.Rearm? && b.raised > 0))
  }

  function BooksAfter(c: Config, s: State, steps: seq<Step>, b: Books): Books
    decreases |steps|
  {
    if steps == [] then b else BooksAfter(c, Apply(c, s, steps[0]), steps[1..], Entry(c, s, steps[0], b))
  }

  predicate HandlesBalance(s: State, b: Books) {
    && b.submitted == b.resumed + s.ring + s.batch + s.cross + s.deferred
    && b.crossed == s.cross
    && b.overflowFirst == s.stranded && (b.overflowFirst ==> b.crossed > 0)
  }

  predicate EventsBalance(s: State, b: Books) {
    && b.empties == b.writes + s.owes
    && b.unhandled == s.epoll.ready && b.raised == s.epoll.counter && b.listed == s.epoll.edge
  }

  predicate Balanced(s: State, b: Books) { HandlesBalance(s, b) && EventsBalance(s, b) }

  lemma StepHandles(c: Config, s: State, step: Step, b: Books)
    requires Enabled(c, s, step) && Balanced(s, b)
    ensures HandlesBalance(Apply(c, s, step), Entry(c, s, step, b))
  {
  }

  lemma StepEvents(c: Config, s: State, step: Step, b: Books)
    requires Enabled(c, s, step) && Balanced(s, b)
    ensures EventsBalance(Apply(c, s, step), Entry(c, s, step, b))
  {
  }

  lemma {:induction false} RunBalances(c: Config, s: State, steps: seq<Step>, b: Books)
    requires Runs(c, s, steps) && Balanced(s, b)
    decreases |steps|
    ensures Balanced(Exec(c, s, steps), BooksAfter(c, s, steps, b))
  {
    if steps != [] {
      StepHandles(c, s, steps[0], b);
      StepEvents(c, s, steps[0], b);
      RunBalances(c, Apply(c, s, steps[0]), steps[1..], Entry(c, s, steps[0], b));
    }
  }

  /** In every run whatever was handed to the worker is in one of its queues or has been
      resumed, a completed operation handing over its coroutine like a spawn; each
      spawner that found the cross queue empty has written the eventfd or is about to;
      and the eventfd holds the writes since the loop last read it. */
  lemma LoopConserves(c: Config, steps: seq<Step>)
    requires Runs(c, Init(), steps)
    ensures Balanced(Exec(c, Init(), steps), BooksAfter(c, Init(), steps, Books(0, 0, 0, false, 0, 0, [], 0, false)))
  {
    RunBalances(c, Init(), steps, Books(0, 0, 0, false, 0, 0, [], 0, false));
  }

  // ---- the turns of the loop ----

  /** How often each part of a turn has been completed, and how often a coroutine was
      resumed and has suspended. */
  datatype Turns = Turns(swaps: nat, drains: nat, deferreds: nat, emptied: nat, polls: nat, resumed: nat, suspended: nat)

  function Turn(s: State, step: Step, t: Turns): Turns {
    Turns(t.swaps + Weight(step.TakeBatch?),
          t.drains + Weight((step.TakeBatch? && s.cross == 0) || (step.ForwardBatch? && s.batch == 0)),
          t.deferreds + Weight(step.ForwardDeferred? && s.deferred == 0),
          t.emptied + Weight(step.Schedule? && s.ring == 0),
          t.polls + Weight(step.Interrupted? || step.Rearm? || (step.Handle? && s.epoll.ready != [] && s.epoll.ready[0].Io?)),
          t.resumed + Weight(step.Schedule? && s.ring > 0),
          t.suspended + Weight(step.Suspend?))
  }

  function TurnsAfter(c: Config, s: State, steps: seq<Step>, t: Turns): Turns
    decreases |steps|
  {
    if steps == [] then t else TurnsAfter(c, Apply(c, s, steps[0]), steps[1..], Turn(s, steps[0], t))
  }

  /** The parts follow each other: each has been completed as often as the one before
      it, up to the one the loop is in. */
  predicate InTurn(pc: Pc, t: Turns) {
    && t.polls + 1 == t.swaps + Weight(pc.AtDrain?)
    && t.swaps == t.drains + Weight(pc.Forwarding?)
    && t.drains == t.deferreds + Weight(pc.AtDeferred?)
    && t.deferreds == t.emptied + Weight(pc.Working? || pc.Running?)
    && t.emptied == t.polls + Weight(pc.Polling? || pc.Arming?)
    && t.resumed == t.suspended + Weight(pc.Running?)
  }

  lemma StepInTurn(c: Config, s: State, step: Step, t: Turns)
    requires Enabled(c, s, step) && InTurn(s.pc, t)
    ensures InTurn(Apply(c, s, step).pc, Turn(s, step, t))
  {
  }

  lemma {:induction false} RunInTurn(c: Config, s: State, steps: seq<Step>, t: Turns)
    requires Runs(c, s, steps) && InTurn(s.pc, t)
    decreases |steps|
    ensures InTurn(Exec(c, s, steps).pc, TurnsAfter(c, s, steps, t))
  {
    if steps != [] {
      StepInTurn(c, s, steps[0], t);
      RunInTurn(c, Apply(c, s, steps[0]), steps[1..], Turn(s, steps[0], t));
    }
  }

  /** In every run each turn of the loop swaps the cross queue, empties its batch, then its
      deferred list, then the ring, and then polls once; a resumed coroutine suspends
      before the loop goes on. */
  lemma TurnsInOrder(c: Config, steps: seq<Step>)
    requires Runs(c, Init(), steps)
    ensures InTurn(Exec(c, Init(), steps).pc, TurnsAfter(c, Init(), steps, Turns(0, 0, 0, 0, 0, 0, 0)))
  {
    RunInTurn(c, Init(), steps, Turns(0, 0, 0, 0, 0, 0, 0));
  }
}
