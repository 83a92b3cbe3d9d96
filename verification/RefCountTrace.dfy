/** Which variables hold which handles after a run, told by its steps alone. */
module RefCountTrace {
  import opened Common
  import opened RefCounts

  /** A variable as its constructions, assignments and destructions leave it, whatever
      has become of the frame it lives in. */
  datatype Slot = Slot(built: bool, home: Option<nat>, handle: Option<nat>)

  /** The variables, and how many shared tasks have been created. */
  datatype View = View(slots: seq<Slot>, created: nat)

  function Start(n: nat): View {
    View(seq(n, _ => Slot(false, None, None)), 0)
  }

  function Next(v: View, step: Step): View
    requires InRange(v, step)
  {
    match step
    case Empty(dst, home) => v.(slots := v.slots[dst := Slot(true, home, None)])
    case Create(dst, home) => View(v.slots[dst := Slot(true, home, Some(v.created))], v.created + 1)
    case CopyConstruct(dst, home, src) => v.(slots := v.slots[dst := Slot(true, home, v.slots[src].handle)])
    case MoveConstruct(dst, home, src) =>
      v.(slots := Clear(v.slots[dst := Slot(true, home, v.slots[src].handle)], src))
    case CopyAssign(dst, src) => v.(slots := Hold(v.slots, dst, v.slots[src].handle))
    case MoveAssign(dst, src) =>
      if dst == src then v else v.(slots := Clear(Hold(v.slots, dst, v.slots[src].handle), src))
    case Swap(dst, src) =>
      v.(slots := Hold(Hold(v.slots, dst, v.slots[src].handle), src, v.slots[dst].handle))
    case Destruct(dst) => v.(slots := v.slots[dst := v.slots[dst].(built := false)])
  }

  predicate InRange(v: View, step: Step) {
    step.dst < |v.slots|
    && (step.CopyConstruct? || step.MoveConstruct? || step.CopyAssign? || step.MoveAssign? || step.Swap? ==> step.src < |v.slots|)
  }

  function Hold(slots: seq<Slot>, x: nat, h: Option<nat>): (r: seq<Slot>)
    requires x < |slots|
    ensures |r| == |slots|
  {
    slots[x := slots[x].(handle := h)]
  }

  function Clear(slots: seq<Slot>, x: nat): (r: seq<Slot>)
    requires x < |slots|
    ensures |r| == |slots|
  {
    Hold(slots, x, None)
  }

  ghost predicate AllInRange(v: View, steps: seq<Step>) {
    forall k :: 0 <= k < |steps| ==> InRange(v, steps[k])
  }

  function Replay(v: View, steps: seq<Step>): View
    requires AllInRange(v, steps)
    decreases |steps|
  {
    if steps == [] then v else Replay(Next(v, steps[0]), steps[1..])
  }

  predicate Open(frames: seq<Frame>, home: Option<nat>) {
    home.Some? ==> home.value < |frames| && frames[home.value].destroyed == 0
  }

  /** A variable lives if it has been built and its home has not been destroyed; then
      it holds what the steps say. */
  predicate CellAgrees(c: Cell, frames: seq<Frame>, slot: Slot) {
    && (c.live <==> slot.built && Open(frames, slot.home))
    && (c.live ==> c.home == slot.home && c.handle == slot.handle)
    && (slot.built && slot.home.Some? ==> slot.home.value < |frames|)
  }

  ghost predicate Agrees(s: State, v: View) {
    && |s.vars| == |v.slots| && |s.frames| == v.created
    && forall x :: 0 <= x < |s.vars| ==> CellAgrees(s.vars[x], s.frames, v.slots[x])
  }

  /** What settling does to a variable: it ends only with the frame it lives in, and keeps the rest. */
  ghost predicate Settled(before: Cell, frames: seq<Frame>, after: Cell, later: seq<Frame>) {
    && after.home == before.home && after.handle == before.handle && (after.live ==> before.live)
    && (before.live && !after.live ==> !Open(later, before.home))
  }

  ghost predicate Older(frames: seq<Frame>, later: seq<Frame>) {
    && |frames| <= |later|
    && forall f :: 0 <= f < |frames| ==> frames[f].destroyed <= later[f].destroyed
  }

  lemma {:induction false} SettleOlder(vars: seq<Cell>, frames: seq<Frame>, pending: seq<nat>)
    decreases LiveVars(vars) + |pending|
    ensures Older(frames, Settle(vars, frames, pending).1)
  {
    if pending != [] {
      var f, rest := pending[0], pending[1..];
      if f >= |frames| {
        SettleOlder(vars, frames, rest);
      } else {
        EndShrinks(vars, f);
        var detached := frames[f := Detach(frames[f])];
        if frames[f].refs == 1 {
          SettleOlder(EndAll(vars, f), detached, GivenBack(vars, f) + rest);
        } else {
          SettleOlder(vars, detached, rest);
        }
      }
    }
  }

  lemma {:induction false} SettleEnds(vars: seq<Cell>, frames: seq<Frame>, pending: seq<nat>, x: nat)
    requires x < |vars|
    decreases LiveVars(vars) + |pending|
    ensures Settled(vars[x], frames, Settle(vars, frames, pending).0[x], Settle(vars, frames, pending).1)
  {
    if pending != [] {
      var f, rest := pending[0], pending[1..];
      if f >= |frames| {
        SettleEnds(vars, frames, rest, x);
      } else {
        EndShrinks(vars, f);
        var detached := frames[f := Detach(frames[f])];
        if frames[f].refs == 1 {
          EndAllAt(vars, f, x);
          SettleOlder(EndAll(vars, f), detached, GivenBack(vars, f) + rest);
          SettleEnds(EndAll(vars, f), detached, GivenBack(vars, f) + rest, x);
        } else {
          SettleEnds(vars, detached, rest, x);
        }
      }
    }
  }

  /** Settling keeps a variable in agreement, if it ends up right. */
  lemma SettleAgrees(vars: seq<Cell>, frames: seq<Frame>, pending: seq<nat>, x: nat, slot: Slot)
    requires x < |vars| && CellAgrees(vars[x], frames, slot)
    requires var (after, later) := Settle(vars, frames, pending); CellOk(after[x], later)
    ensures var (after, later) := Settle(vars, frames, pending); CellAgrees(after[x], later, slot)
  {
    SettleEnds(vars, frames, pending, x);
    SettleOlder(vars, frames, pending);
  }

  lemma DropAgrees(s: State, dst: nat, x: nat, slot: Slot)
    requires |s.vars| <= WORD && Inv(s) && LiveAt(s, dst) && x < |s.vars|
    requires CellAgrees(Put(s.vars, dst, None)[x], s.frames, slot)
    ensures CellAgrees(Dropped(s, dst).vars[x], Dropped(s, dst).frames, slot)
  {
    DropBalances(s, dst);
    SettleAgrees(Put(s.vars, dst, None), s.frames, Listed(s.vars[dst].handle), x, slot);
  }

  /** An assignment that is safe moves or copies the handle, and what else ends lived in a destroyed frame. */
  lemma AssignAgrees(s: State, dst: nat, src: nat, move: bool, v: View)
    requires |s.vars| <= WORD && Inv(s) && LiveAt(s, dst) && LiveAt(s, src) && dst != src && Agrees(s, v)
    requires !KeptOnlyBy(s, dst, src) && !KeptOnlyBy(s, dst, dst)
    ensures var slots := Hold(v.slots, dst, v.slots[src].handle);
            Agrees(Assign(s, dst, src, move), v.(slots := if move then Clear(slots, src) else slots))
  {
    var t, u := Dropped(s, dst), Assign(s, dst, src, move);
    var slots := Hold(v.slots, dst, v.slots[src].handle);
    var later := if move then Clear(slots, src) else slots;
    EndsIffKept(s, dst, src);
    EndsIffKept(s, dst, dst);
    forall x | 0 <= x < |s.vars|
      ensures CellAgrees(u.vars[x], u.frames, later[x])
    {
      assert CellAgrees(s.vars[x], s.frames, v.slots[x]) && CellAgrees(s.vars[src], s.frames, v.slots[src]);
      DropAgrees(s, dst, x, if x == dst then v.slots[x].(handle := None) else v.slots[x]);
      RetainOpen(t.frames, t.vars[src].handle, v.slots[x].home);
    }
  }

  lemma RetainOpen(frames: seq<Frame>, h: Option<nat>, home: Option<nat>)
    ensures Open(Retain(frames, h), home) <==> Open(frames, home)
  {
  }

  lemma BuildAgrees(s: State, step: Step, v: View)
    requires Inv(s) && Enabled(s, step) && Agrees(s, v)
    requires step.Empty? || step.Create? || step.CopyConstruct? || step.MoveConstruct? || step.Swap?
    ensures InRange(v, step) && Agrees(Apply(s, step), Next(v, step))
  {
    var t, w := Apply(s, step), Next(v, step);
    forall x | 0 <= x < |s.vars|
      ensures CellAgrees(t.vars[x], t.frames, w.slots[x])
    {
      assert CellAgrees(s.vars[x], s.frames, v.slots[x]) && CellAgrees(s.vars[step.dst], s.frames, v.slots[step.dst]);
      if step.CopyConstruct? || step.MoveConstruct? || step.Swap? {
        assert CellAgrees(s.vars[step.src], s.frames, v.slots[step.src]);
      }
    }
  }

  lemma DestructAgrees(s: State, dst: nat, v: View)
    requires Inv(s) && LiveAt(s, dst) && Agrees(s, v)
    ensures Agrees(Apply(s, Destruct(dst)), Next(v, Destruct(dst)))
  {
    var t, w := Apply(s, Destruct(dst)), Next(v, Destruct(dst));
    DestructKeeps(s, dst);
    var ended := s.vars[dst := s.vars[dst].(live := false)];
    forall x | 0 <= x < |s.vars|
      ensures CellAgrees(t.vars[x], t.frames, w.slots[x])
    {
      assert CellAgrees(s.vars[x], s.frames, v.slots[x]) && CellOk(t.vars[x], t.frames);
      SettleAgrees(ended, s.frames, Listed(s.vars[dst].handle), x, w.slots[x]);
    }
  }

  /** Every safe operation does to the variables what its name says. */
  lemma StepAgrees(s: State, step: Step, v: View)
    requires |s.vars| <= WORD && Inv(s) && Enabled(s, step) && Safe(s, step) && Agrees(s, v)
    ensures InRange(v, step) && Agrees(Apply(s, step), Next(v, step))
  {
    match step
    case CopyAssign(dst, src) =>
      assert CellAgrees(s.vars[dst], s.frames, v.slots[dst]) && CellAgrees(s.vars[src], s.frames, v.slots[src]);
      if s.vars[dst].handle == s.vars[src].handle {
        assert Next(v, step).slots == v.slots;
      } else {
        AssignAgrees(s, dst, src, false, v);
      }
    case MoveAssign(dst, src) =>
      if dst != src {
        AssignAgrees(s, dst, src, true, v);
      }
    case Destruct(dst) => DestructAgrees(s, dst, v);
    case _ => BuildAgrees(s, step, v);
  }

  lemma {:induction false} RunAgrees(s: State, steps: seq<Step>, v: View)
    requires |s.vars| <= WORD && Inv(s) && Runs(s, steps) && AllSafe(s, steps) && Agrees(s, v)
    decreases |steps|
    ensures AllInRange(v, steps) && Agrees(Exec(s, steps), Replay(v, steps))
  {
    if steps != [] {
      StepAgrees(s, steps[0], v);
      StepKeeps(s, steps[0]);
      RunAgrees(Apply(s, steps[0]), steps[1..], Next(v, steps[0]));
      assert forall k :: 0 < k < |steps| ==> steps[k] == steps[1..][k - 1];
    }
  }

  /** In every run whose assignments are safe, a variable lives exactly if the steps have
      built it and the frame it lives in has not been destroyed, and then it holds the
      handle that the constructions, copies, moves and swaps of the run put there. */
  lemma HoldsWhatStepsSay(n: nat, steps: seq<Step>, x: nat)
    requires n <= WORD && Runs(Init(n), steps) && AllSafe(Init(n), steps) && x < n
    ensures AllInRange(Start(n), steps)
    ensures var s, v := Exec(Init(n), steps), Replay(Start(n), steps);
            && |s.frames| == v.created && x < |s.vars| && x < |v.slots|
            && CellAgrees(s.vars[x], s.frames, v.slots[x])
  {
    InitInv(n);
    RunAgrees(Init(n), steps, Start(n));
    RunKeeps(Init(n), steps);
  }
}
