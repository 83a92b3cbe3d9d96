/** Handle variables of shared tasks and the reference counts of the frames they refer to. */
module RefCounts {
  import opened Common

  /** `refs` is a 32-bit counter; `destroyed` is a history: how often the frame has been destroyed. */
  datatype Frame = Frame(refs: nat, destroyed: nat)

  function AddRef(f: Frame): Frame {
    f.(refs := (f.refs + 1) % WORD)
  }

  /** `try_detach`, and the destruction when it found the count at one. */
  function Detach(f: Frame): Frame {
    Frame((f.refs + WORD - 1) % WORD, if f.refs == 1 then f.destroyed + 1 else f.destroyed)
  }

  /** A handle variable. It lives outside all frames, or in one: as a local variable
      or inside the result. A variable that has ended leaves its handle in its storage. */
  datatype Cell = Cell(live: bool, home: Option<nat>, handle: Option<nat>)

  predicate LivesIn(c: Cell, f: nat) { c.live && c.home == Some(f) }

  predicate Holds(c: Cell, f: nat) { c.live && c.handle == Some(f) }

  function Listed(h: Option<nat>): seq<nat> { if h.Some? then [h.value] else [] }

  /** The destruction of frame `f` ends the variables that live in it. */
  function EndAll(vars: seq<Cell>, f: nat): (r: seq<Cell>)
    ensures |r| == |vars|
  {
    if vars == [] then []
    else [if LivesIn(vars[0], f) then vars[0].(live := false) else vars[0]] + EndAll(vars[1..], f)
  }

  /** The handles their destructors give back, in order. */
  function GivenBack(vars: seq<Cell>, f: nat): seq<nat> {
    if vars == [] then []
    else (if LivesIn(vars[0], f) then Listed(vars[0].handle) else []) + GivenBack(vars[1..], f)
  }

  function LiveVars(vars: seq<Cell>): nat {
    if vars == [] then 0 else (if vars[0].live then 1 else 0) + LiveVars(vars[1..])
  }

  lemma {:induction false} EndShrinks(vars: seq<Cell>, f: nat)
    ensures LiveVars(EndAll(vars, f)) + |GivenBack(vars, f)| <= LiveVars(vars)
  {
    if vars != [] {
      EndShrinks(vars[1..], f);
      assert EndAll(vars, f)[1..] == EndAll(vars[1..], f);
    }
  }

  lemma {:induction false} EndAllAt(vars: seq<Cell>, f: nat, i: nat)
    requires i < |vars|
    ensures EndAll(vars, f)[i] == if LivesIn(vars[i], f) then vars[i].(live := false) else vars[i]
  {
    if i > 0 {
      EndAllAt(vars[1..], f, i - 1);
    }
  }

  /** `destroy` for each handle of a list, with the destructions it brings about,
      innermost first: variables that end with a frame give their handles back. */
  function Settle(vars: seq<Cell>, frames: seq<Frame>, pending: seq<nat>): (r: (seq<Cell>, seq<Frame>))
    decreases LiveVars(vars) + |pending|
    ensures |r.0| == |vars| && |r.1| == |frames|
  {
    if pending == [] then (vars, frames)
    else
      var f, rest := pending[0], pending[1..];
      if f >= |frames| then Settle(vars, frames, rest)
      else
        var detached := frames[f := Detach(frames[f])];
        EndShrinks(vars, f);
        if frames[f].refs == 1 then Settle(EndAll(vars, f), detached, GivenBack(vars, f) + rest)
        else Settle(vars, detached, rest)
  }

  /** `clean` is a history: no operation has read or written a variable that had ended. */
  datatype State = State(vars: seq<Cell>, frames: seq<Frame>, clean: bool)

  datatype Step =
    | Empty(dst: nat, home: Option<nat>)
    | Create(dst: nat, home: Option<nat>)
    | CopyConstruct(dst: nat, home: Option<nat>, src: nat)
    | MoveConstruct(dst: nat, home: Option<nat>, src: nat)
    | CopyAssign(dst: nat, src: nat)
    | MoveAssign(dst: nat, src: nat)
    | Swap(dst: nat, src: nat)
    | Destruct(dst: nat)

  function Init(n: nat): State {
    State(seq(n, _ => Cell(false, None, None)), [], true)
  }

  predicate HomeOpen(s: State, home: Option<nat>) {
    home.Some? ==> home.value < |s.frames| && s.frames[home.value].destroyed == 0
  }

  predicate LiveAt(s: State, x: nat) { x < |s.vars| && s.vars[x].live }

  predicate Enabled(s: State, step: Step) {
    match step
    case Empty(dst, home) => dst < |s.vars| && !s.vars[dst].live && HomeOpen(s, home)
    case Create(dst, home) => dst < |s.vars| && !s.vars[dst].live && HomeOpen(s, home)
    case CopyConstruct(dst, home, src) => dst < |s.vars| && !s.vars[dst].live && HomeOpen(s, home) && LiveAt(s, src)
    case MoveConstruct(dst, home, src) => dst < |s.vars| && !s.vars[dst].live && HomeOpen(s, home) && LiveAt(s, src)
    case CopyAssign(dst, src) => LiveAt(s, dst) && LiveAt(s, src)
    case MoveAssign(dst, src) => LiveAt(s, dst) && LiveAt(s, src)
    case Swap(dst, src) => LiveAt(s, dst) && LiveAt(s, src)
    case Destruct(dst) => LiveAt(s, dst)
  }

  function Retain(frames: seq<Frame>, h: Option<nat>): (r: seq<Frame>)
    ensures |r| == |frames|
  {
    if h.Some? && h.value < |frames| then frames[h.value := AddRef(frames[h.value])] else frames
  }

  function Put(vars: seq<Cell>, x: nat, h: Option<nat>): (r: seq<Cell>)
    requires x < |vars|
    ensures |r| == |vars|
  {
    vars[x := vars[x].(handle := h)]
  }

  /** `destroy` of the handle in `dst`, the variable itself living on. (In the code
      the variable keeps the old pointer until it is assigned. Should it end in the
      meantime, it gives the handle back once more.) */
  function Dropped(s: State, dst: nat): State
    requires dst < |s.vars|
  {
    var (vars, frames) := Settle(Put(s.vars, dst, None), s.frames, Listed(s.vars[dst].handle));
    State(vars, frames, s.clean)
  }

  /** An assignment drops the old handle first and reads the source afterwards. */
  function Assign(s: State, dst: nat, src: nat, move: bool): State
    requires dst < |s.vars| && src < |s.vars|
  {
    var t := Dropped(s, dst);
    var h := t.vars[src].handle;
    State(if move then Put(Put(t.vars, dst, h), src, None) else Put(t.vars, dst, h),
          if move then t.frames else Retain(t.frames, h),
          t.clean && t.vars[src].live && t.vars[dst].live)
  }

  function Apply(s: State, step: Step): State
    requires Enabled(s, step)
  {
    match step
    case Empty(dst, home) => s.(vars := s.vars[dst := Cell(true, home, None)])
    case Create(dst, home) =>
      s.(vars := s.vars[dst := Cell(true, home, Some(|s.frames|))], frames := s.frames + [Frame(1, 0)])
    case CopyConstruct(dst, home, src) =>
      s.(vars := s.vars[dst := Cell(true, home, s.vars[src].handle)], frames := Retain(s.frames, s.vars[src].handle))
    case MoveConstruct(dst, home, src) =>
      s.(vars := Put(s.vars[dst := Cell(true, home, s.vars[src].handle)], src, None))
    case CopyAssign(dst, src) =>
      if s.vars[dst].handle == s.vars[src].handle then s else Assign(s, dst, src, false)
    case MoveAssign(dst, src) =>
      if dst == src then s else Assign(s, dst, src, true)
    case Swap(dst, src) =>
      s.(vars := Put(Put(s.vars, dst, s.vars[src].handle), src, s.vars[dst].handle))
    case Destruct(dst) =>
      var ended := s.vars[dst := s.vars[dst].(live := false)];
      var (vars, frames) := Settle(ended, s.frames, Listed(s.vars[dst].handle));
      State(vars, frames, s.clean)
  }

  // ---- counting handles ----

  /** The number of live variables that hold a handle of frame `f`. */
  function Handles(vars: seq<Cell>, f: nat): nat {
    if vars == [] then 0 else (if Holds(vars[0], f) then 1 else 0) + Handles(vars[1..], f)
  }

  function Occurs(pending: seq<nat>, f: nat): nat {
    if pending == [] then 0 else (if pending[0] == f then 1 else 0) + Occurs(pending[1..], f)
  }

  lemma {:induction false} HandlesUpdate(vars: seq<Cell>, i: nat, c: Cell, f: nat)
    requires i < |vars|
    ensures Handles(vars[i := c], f) + (if Holds(vars[i], f) then 1 else 0)
            == Handles(vars, f) + (if Holds(c, f) then 1 else 0)
  {
    if i == 0 {
      assert vars[i := c][1..] == vars[1..];
    } else {
      assert vars[i := c][1..] == vars[1..][i - 1 := c];
      HandlesUpdate(vars[1..], i - 1, c, f);
    }
  }

  lemma {:induction false} HandlesBound(vars: seq<Cell>, f: nat)
    ensures Handles(vars, f) <= |vars|
    ensures Handles(vars, f) == 0 <==> forall i :: 0 <= i < |vars| ==> !Holds(vars[i], f)
  {
    if vars != [] {
      HandlesBound(vars[1..], f);
      assert forall i :: 0 < i < |vars| ==> vars[i] == vars[1..][i - 1];
      assert forall i :: 0 <= i < |vars[1..]| ==> vars[1..][i] == vars[i + 1];
    }
  }

  lemma {:induction false} OccursAppend(a: seq<nat>, b: seq<nat>, f: nat)
    ensures Occurs(a + b, f) == Occurs(a, f) + Occurs(b, f)
  {
    if a == [] {
      assert a + b == b;
    } else {
      assert (a + b)[1..] == a[1..] + b;
      OccursAppend(a[1..], b, f);
    }
  }

  /** Ending the variables of a frame turns the handles they hold into handles to be given back. */
  lemma {:induction false} EndBalances(vars: seq<Cell>, g: nat, f: nat)
    ensures Handles(EndAll(vars, g), f) + Occurs(GivenBack(vars, g), f) == Handles(vars, f)
  {
    if vars != [] {
      EndBalances(vars[1..], g, f);
      assert EndAll(vars, g)[1..] == EndAll(vars[1..], g);
      OccursAppend(if LivesIn(vars[0], g) then Listed(vars[0].handle) else [], GivenBack(vars[1..], g), f);
    }
  }

  lemma {:induction false} GivenBackKnown(vars: seq<Cell>, g: nat, n: nat)
    requires forall i :: 0 <= i < |vars| && vars[i].live && vars[i].handle.Some? ==> vars[i].handle.value < n
    ensures forall x :: x in GivenBack(vars, g) ==> x < n
  {
    if vars != [] {
      assert forall i :: 0 <= i < |vars[1..]| ==> vars[1..][i] == vars[i + 1];
      GivenBackKnown(vars[1..], g, n);
    }
  }

  // ---- the counts are right ----

  /** The count is the number `h` of handles, and the frame is destroyed, once, exactly when none is left. */
  predicate CountOk(f: Frame, h: nat) {
    h <= WORD && f.refs == h % WORD && f.destroyed == if h == 0 then 1 else 0
  }

  lemma AddRefCounts(f: Frame, h: nat)
    requires CountOk(f, h) && 1 <= h < WORD
    ensures CountOk(AddRef(f), h + 1)
  {
    assert h % WORD == h;
  }

  lemma DetachCounts(f: Frame, h: nat)
    requires CountOk(f, h) && 1 <= h
    ensures CountOk(Detach(f), h - 1) && (f.refs == 1 <==> h == 1)
  {
    if h == WORD {
      assert h % WORD == 0;
    } else {
      assert h % WORD == h;
      assert (h + WORD - 1) % WORD == h - 1;
    }
  }

  /** A live variable refers to a known frame and lives in one that is not destroyed. */
  predicate CellOk(c: Cell, frames: seq<Frame>) {
    c.live ==>
      && (c.handle.Some? ==> c.handle.value < |frames|)
      && (c.home.Some? ==> c.home.value < |frames| && frames[c.home.value].destroyed == 0)
  }

  ghost predicate CellsOk(vars: seq<Cell>, frames: seq<Frame>) {
    forall i :: 0 <= i < |vars| ==> CellOk(vars[i], frames)
  }

  ghost predicate FrameOk(vars: seq<Cell>, frames: seq<Frame>, pending: seq<nat>, f: nat)
    requires f < |frames|
  {
    CountOk(frames[f], Handles(vars, f) + Occurs(pending, f))
  }

  /** Handles in live variables and handles being given back account for every count. */
  ghost predicate Balanced(vars: seq<Cell>, frames: seq<Frame>, pending: seq<nat>) {
    && CellsOk(vars, frames)
    && (forall x :: x in pending ==> x < |frames|)
    && forall f: nat :: f < |frames| ==> FrameOk(vars, frames, pending, f)
  }

  ghost predicate Inv(s: State) { Balanced(s.vars, s.frames, []) }

  /** Giving back a handle of a frame that has others. */
  lemma DetachKeeps(vars: seq<Cell>, frames: seq<Frame>, pending: seq<nat>)
    requires Balanced(vars, frames, pending) && pending != [] && pending[0] < |frames| && frames[pending[0]].refs != 1
    ensures Balanced(vars, frames[pending[0] := Detach(frames[pending[0]])], pending[1..])
  {
    var f, after := pending[0], frames[pending[0] := Detach(frames[pending[0]])];
    assert forall x :: x in pending[1..] ==> x in pending;
    assert FrameOk(vars, frames, pending, f);
    DetachCounts(frames[f], Handles(vars, f) + Occurs(pending, f));
    forall i | 0 <= i < |vars|
      ensures CellOk(vars[i], after)
    {
      assert CellOk(vars[i], frames);
    }
    forall g: nat | g < |after|
      ensures FrameOk(vars, after, pending[1..], g)
    {
      assert FrameOk(vars, frames, pending, g);
    }
  }

  /** Giving back the last one ends the variables of the frame. */
  lemma DestroyKeeps(vars: seq<Cell>, frames: seq<Frame>, pending: seq<nat>)
    requires Balanced(vars, frames, pending) && pending != [] && pending[0] < |frames| && frames[pending[0]].refs == 1
    ensures var f := pending[0];
            && Handles(vars, f) == 0
            && Balanced(EndAll(vars, f), frames[f := Detach(frames[f])], GivenBack(vars, f) + pending[1..])
  {
    var f, rest := pending[0], pending[1..];
    var after, left := frames[f := Detach(frames[f])], GivenBack(vars, f) + rest;
    assert FrameOk(vars, frames, pending, f);
    DetachCounts(frames[f], Handles(vars, f) + Occurs(pending, f));
    EndCells(vars, frames, f);
    GivenBackKnown(vars, f, |frames|);
    assert forall x :: x in rest ==> x in pending;
    forall g: nat | g < |after|
      ensures FrameOk(EndAll(vars, f), after, left, g)
    {
      assert FrameOk(vars, frames, pending, g);
      EndBalances(vars, f, g);
      OccursAppend(GivenBack(vars, f), rest, g);
    }
  }

  lemma EndCells(vars: seq<Cell>, frames: seq<Frame>, f: nat)
    requires CellsOk(vars, frames) && f < |frames|
    ensures CellsOk(EndAll(vars, f), frames[f := Detach(frames[f])])
    ensures forall i :: 0 <= i < |vars| && vars[i].live && vars[i].handle.Some? ==> vars[i].handle.value < |frames|
  {
    forall i | 0 <= i < |vars|
      ensures CellOk(EndAll(vars, f)[i], frames[f := Detach(frames[f])]) && CellOk(vars[i], frames)
    {
      EndAllAt(vars, f, i);
    }
  }

  lemma {:induction false} SettleKeeps(vars: seq<Cell>, frames: seq<Frame>, pending: seq<nat>)
    requires Balanced(vars, frames, pending)
    decreases LiveVars(vars) + |pending|
    ensures var (v, g) := Settle(vars, frames, pending); Balanced(v, g, [])
  {
    if pending != [] {
      var f := pending[0];
      assert f in pending;
      var detached := frames[f := Detach(frames[f])];
      if frames[f].refs == 1 {
        DestroyKeeps(vars, frames, pending);
        EndShrinks(vars, f);
        SettleKeeps(EndAll(vars, f), detached, GivenBack(vars, f) + pending[1..]);
      } else {
        DetachKeeps(vars, frames, pending);
        SettleKeeps(vars, detached, pending[1..]);
      }
    }
  }

  // ---- what a drop ends ----

  /** Variable `c` lives in one of the frames. */
  predicate LivesAmong(c: Cell, frames: seq<nat>) {
    c.live && c.home.Some? && c.home.value in frames
  }

  /** Every handle of `f` is in a variable that lives in one of the frames. */
  ghost predicate HeldOnlyFrom(vars: seq<Cell>, f: nat, frames: seq<nat>) {
    forall j :: 0 <= j < |vars| && Holds(vars[j], f) ==> LivesAmong(vars[j], frames)
  }

  /** Frames that have nobody but those before them: nobody has the first. */
  ghost predicate Doomed(vars: seq<Cell>, chain: seq<nat>) {
    forall i :: 0 <= i < |chain| ==> HeldOnlyFrom(vars, chain[i], chain[..i])
  }

  /** The variables are as before, but for those that live in one of the frames, which have ended. */
  ghost predicate EndedIn(before: seq<Cell>, vars: seq<Cell>, chain: seq<nat>) {
    && |vars| == |before|
    && forall j :: 0 <= j < |vars| ==>
         vars[j] == if LivesAmong(before[j], chain) then before[j].(live := false) else before[j]
  }

  lemma DoomedNext(before: seq<Cell>, vars: seq<Cell>, chain: seq<nat>, f: nat)
    requires EndedIn(before, vars, chain) && Doomed(before, chain) && Handles(vars, f) == 0
    ensures Doomed(before, chain + [f]) && EndedIn(before, EndAll(vars, f), chain + [f])
  {
    var next := chain + [f];
    HandlesBound(vars, f);
    forall i | 0 <= i < |next|
      ensures HeldOnlyFrom(before, next[i], next[..i])
    {
      if i < |chain| {
        assert next[..i] == chain[..i];
      } else {
        assert next[..i] == chain;
        assert forall j :: 0 <= j < |before| && Holds(before[j], f) ==> !Holds(vars[j], f);
      }
    }
    forall j | 0 <= j < |vars|
      ensures EndAll(vars, f)[j] == if LivesAmong(before[j], next) then before[j].(live := false) else before[j]
    {
      EndAllAt(vars, f, j);
      assert LivesAmong(before[j], next) <==> LivesAmong(before[j], chain) || LivesIn(before[j], f);
    }
  }

  /** What `Settle` ends are the variables of a doomed chain of frames. */
  lemma {:induction false} SettleTraces(before: seq<Cell>, vars: seq<Cell>, frames: seq<Frame>, pending: seq<nat>,
                                        chain: seq<nat>, first: nat) returns (full: seq<nat>)
    requires Balanced(vars, frames, pending) && EndedIn(before, vars, chain) && Doomed(before, chain)
    requires if chain == [] then pending == [] || pending == [first] else chain[0] == first
    decreases LiveVars(vars) + |pending|
    ensures EndedIn(before, Settle(vars, frames, pending).0, full) && Doomed(before, full)
    ensures full != [] ==> full[0] == first
  {
    full := chain;
    if pending != [] {
      var f := pending[0];
      assert f in pending;
      var detached := frames[f := Detach(frames[f])];
      if frames[f].refs == 1 {
        DestroyKeeps(vars, frames, pending);
        EndShrinks(vars, f);
        DoomedNext(before, vars, chain, f);
        full := SettleTraces(before, EndAll(vars, f), detached, GivenBack(vars, f) + pending[1..], chain + [f], first);
      } else {
        DetachKeeps(vars, frames, pending);
        full := SettleTraces(before, vars, detached, pending[1..], chain, first);
      }
    }
  }

  /** And a doomed chain leaves nothing alive. */
  lemma {:induction false} DoomedEnds(before: seq<Cell>, vars: seq<Cell>, frames: seq<Frame>,
                                      ended: seq<nat>, chain: seq<nat>, i: nat)
    requires Balanced(vars, frames, []) && EndedIn(before, vars, ended) && Doomed(before, chain) && i <= |chain|
    ensures forall j :: 0 <= j < |vars| ==> !LivesAmong(vars[j], chain[..i])
    decreases i
  {
    if i > 0 {
      DoomedEnds(before, vars, frames, ended, chain, i - 1);
      var f := chain[i - 1];
      assert HeldOnlyFrom(before, f, chain[..i - 1]);
      NobodyHolds(before, vars, ended, f, chain[..i - 1]);
      assert f < |frames| ==> FrameOk(vars, frames, [], f);
      assert chain[..i] == chain[..i - 1] + [f];
      forall j | 0 <= j < |vars|
        ensures !LivesAmong(vars[j], chain[..i])
      {
        assert CellOk(vars[j], frames);
        assert !LivesAmong(vars[j], chain[..i - 1]);
      }
    }
  }

  lemma NobodyHolds(before: seq<Cell>, vars: seq<Cell>, ended: seq<nat>, f: nat, dead: seq<nat>)
    requires EndedIn(before, vars, ended) && HeldOnlyFrom(before, f, dead)
    requires forall j :: 0 <= j < |vars| ==> !LivesAmong(vars[j], dead)
    ensures Handles(vars, f) == 0
  {
    forall j | 0 <= j < |vars|
      ensures !Holds(vars[j], f)
    {
      assert !LivesAmong(vars[j], dead);
    }
    HandlesBound(vars, f);
  }

  /** Variable `x` lives in a frame that only the handle in `dst` keeps alive: a
      caller finds it by following handles back from the frame `x` lives in, and
      meets no variable on the way but `dst` and those inside such frames. */
  ghost predicate KeptOnlyBy(s: State, dst: nat, x: nat)
    requires dst < |s.vars| && x < |s.vars|
  {
    exists chain: seq<nat> ::
      && chain != [] && s.vars[dst].handle == Some(chain[0])
      && Doomed(Put(s.vars, dst, None), chain)
      && LivesAmong(s.vars[x], chain)
  }

  lemma DropBalances(s: State, dst: nat)
    requires |s.vars| <= WORD && Inv(s) && LiveAt(s, dst)
    ensures Balanced(Put(s.vars, dst, None), s.frames, Listed(s.vars[dst].handle))
    ensures Balanced(Dropped(s, dst).vars, Dropped(s, dst).frames, [])
  {
    var vars, pending := Put(s.vars, dst, None), Listed(s.vars[dst].handle);
    assert forall i :: 0 <= i < |s.vars| ==> CellOk(s.vars[i], s.frames);
    forall i | 0 <= i < |vars|
      ensures CellOk(vars[i], s.frames)
    {
      assert CellOk(s.vars[i], s.frames);
    }
    forall f: nat | f < |s.frames|
      ensures FrameOk(vars, s.frames, pending, f)
    {
      assert FrameOk(s.vars, s.frames, [], f);
      HandlesUpdate(s.vars, dst, vars[dst], f);
    }
    SettleKeeps(vars, s.frames, pending);
  }

  /** Dropping the handle in `dst` ends a live variable if and only if that handle alone keeps it. */
  lemma EndsIffKept(s: State, dst: nat, x: nat)
    requires |s.vars| <= WORD && Inv(s) && LiveAt(s, dst) && LiveAt(s, x)
    ensures Dropped(s, dst).vars[x].live <==> !KeptOnlyBy(s, dst, x)
    ensures Dropped(s, dst).vars[x] == (if x == dst then Put(s.vars, dst, None)[dst] else s.vars[x]).(live := Dropped(s, dst).vars[x].live)
  {
    var before, h, t := Put(s.vars, dst, None), s.vars[dst].handle, Dropped(s, dst);
    DropBalances(s, dst);
    var first := if h.Some? then h.value else 0;
    var full := SettleTraces(before, before, s.frames, Listed(h), [], first);
    assert !t.vars[x].live ==> LivesAmong(s.vars[x], full);
    if !t.vars[x].live {
      assert KeptOnlyBy(s, dst, x);
    }
    forall chain: seq<nat> | chain != [] && Doomed(before, chain) && LivesAmong(s.vars[x], chain)
      ensures !t.vars[x].live
    {
      DoomedEnds(before, t.vars, t.frames, full, chain, |chain|);
      assert chain[..|chain|] == chain;
      assert !LivesAmong(t.vars[x], chain);
    }
  }

  // ---- every operation ----

  /** An assignment is safe unless dropping the destination's handle ends the
      source, which is read afterwards, or the destination, which is written. */
  ghost predicate Safe(s: State, step: Step)
    requires Enabled(s, step)
  {
    match step
    case CopyAssign(dst, src) =>
      s.vars[dst].handle == s.vars[src].handle || (!KeptOnlyBy(s, dst, src) && !KeptOnlyBy(s, dst, dst))
    case MoveAssign(dst, src) =>
      dst == src || (!KeptOnlyBy(s, dst, src) && !KeptOnlyBy(s, dst, dst))
    case _ => true
  }

  /** Putting a handle of a frame with a known count into a live variable. */
  lemma PutCells(vars: seq<Cell>, frames: seq<Frame>, x: nat, c: Cell)
    requires CellsOk(vars, frames) && x < |vars| && CellOk(c, frames)
    ensures CellsOk(vars[x := c], frames)
  {
    var after := vars[x := c];
    forall i | 0 <= i < |after|
      ensures CellOk(after[i], frames)
    {
      assert CellOk(vars[i], frames);
    }
  }

  /** One more handle of `h`, counted: in a variable that held none. */
  lemma CopyKeeps(vars: seq<Cell>, frames: seq<Frame>, dst: nat, src: nat, c: Cell)
    requires |vars| <= WORD && Balanced(vars, frames, []) && dst < |vars| && src < |vars| && vars[src].live
    requires !vars[dst].live || vars[dst].handle == None
    requires c.live && c.handle == vars[src].handle && CellOk(c, frames)
    ensures Balanced(vars[dst := c], Retain(frames, c.handle), [])
  {
    var more, after := vars[dst := c], Retain(frames, c.handle);
    PutCells(vars, frames, dst, c);
    forall i | 0 <= i < |vars|
      ensures CellOk(more[i], after)
    {
      assert CellOk(more[i], frames);
    }
    forall f: nat | f < |after|
      ensures FrameOk(more, after, [], f)
    {
      assert FrameOk(vars, frames, [], f);
      HandlesUpdate(vars, dst, c, f);
      HandlesBound(vars, f);
      HandlesBound(more, f);
      if c.handle == Some(f) {
        AddRefCounts(frames[f], Handles(vars, f));
      }
    }
  }

  /** A handle changes variables. */
  lemma MoveKeeps(vars: seq<Cell>, frames: seq<Frame>, dst: nat, src: nat, c: Cell)
    requires Balanced(vars, frames, []) && dst < |vars| && src < |vars| && dst != src && vars[src].live
    requires !vars[dst].live || vars[dst].handle == None
    requires c.live && c.handle == vars[src].handle && CellOk(c, frames)
    ensures Balanced(Put(vars[dst := c], src, None), frames, [])
  {
    var moved := vars[dst := c];
    var empty := moved[src].(handle := None);
    assert CellOk(vars[src], frames);
    PutCells(vars, frames, dst, c);
    PutCells(moved, frames, src, empty);
    var after := Put(moved, src, None);
    forall f: nat | f < |frames|
      ensures FrameOk(after, frames, [], f)
    {
      assert FrameOk(vars, frames, [], f);
      HandlesUpdate(vars, dst, c, f);
      HandlesUpdate(moved, src, empty, f);
    }
  }

  lemma AssignKeeps(s: State, dst: nat, src: nat, move: bool)
    requires |s.vars| <= WORD && Inv(s) && LiveAt(s, dst) && LiveAt(s, src) && dst != src
    requires !KeptOnlyBy(s, dst, src) && !KeptOnlyBy(s, dst, dst)
    ensures Inv(Assign(s, dst, src, move)) && Assign(s, dst, src, move).clean == s.clean
  {
    var t := Dropped(s, dst);
    DropBalances(s, dst);
    EndsIffKept(s, dst, src);
    EndsIffKept(s, dst, dst);
    var c := t.vars[dst].(handle := t.vars[src].handle);
    assert CellOk(t.vars[src], t.frames) && CellOk(t.vars[dst], t.frames);
    if move {
      MoveKeeps(t.vars, t.frames, dst, src, c);
    } else {
      CopyKeeps(t.vars, t.frames, dst, src, c);
    }
  }

  lemma CreateKeeps(s: State, dst: nat, home: Option<nat>)
    requires Inv(s) && Enabled(s, Create(dst, home))
    ensures Inv(Apply(s, Create(dst, home)))
  {
    var t, n := Apply(s, Create(dst, home)), |s.frames|;
    forall i | 0 <= i < |t.vars|
      ensures CellOk(t.vars[i], t.frames)
    {
      assert CellOk(s.vars[i], s.frames);
    }
    assert forall i :: 0 <= i < |s.vars| ==> CellOk(s.vars[i], s.frames);
    HandlesBound(s.vars, n);
    forall f: nat | f < |t.frames|
      ensures FrameOk(t.vars, t.frames, [], f)
    {
      assert f < n ==> FrameOk(s.vars, s.frames, [], f);
      HandlesUpdate(s.vars, dst, t.vars[dst], f);
    }
  }

  lemma EmptyKeeps(s: State, dst: nat, home: Option<nat>)
    requires Inv(s) && Enabled(s, Empty(dst, home))
    ensures Inv(Apply(s, Empty(dst, home)))
  {
    var c := Cell(true, home, None);
    var vars, frames := s.vars[dst := c], s.frames;
    PutCells(s.vars, s.frames, dst, c);
    forall f: nat | f < |frames|
      ensures FrameOk(vars, frames, [], f)
    {
      assert FrameOk(s.vars, s.frames, [], f);
      HandlesUpdate(s.vars, dst, c, f);
    }
  }

  lemma SwapKeeps(s: State, dst: nat, src: nat)
    requires Inv(s) && Enabled(s, Swap(dst, src))
    ensures Inv(Apply(s, Swap(dst, src)))
  {
    var c := s.vars[dst].(handle := s.vars[src].handle);
    var half := s.vars[dst := c];
    var d := half[src].(handle := s.vars[dst].handle);
    assert CellOk(s.vars[dst], s.frames) && CellOk(s.vars[src], s.frames);
    PutCells(s.vars, s.frames, dst, c);
    PutCells(half, s.frames, src, d);
    var vars, frames := half[src := d], s.frames;
    forall f: nat | f < |frames|
      ensures FrameOk(vars, frames, [], f)
    {
      assert FrameOk(s.vars, s.frames, [], f);
      HandlesUpdate(s.vars, dst, c, f);
      HandlesUpdate(half, src, d, f);
    }
  }

  lemma DestructKeeps(s: State, dst: nat)
    requires Inv(s) && LiveAt(s, dst)
    ensures Inv(Apply(s, Destruct(dst)))
  {
    var c, pending := s.vars[dst].(live := false), Listed(s.vars[dst].handle);
    assert CellOk(s.vars[dst], s.frames);
    var vars, frames := s.vars[dst := c], s.frames;
    PutCells(s.vars, s.frames, dst, c);
    forall f: nat | f < |frames|
      ensures FrameOk(vars, frames, pending, f)
    {
      assert FrameOk(s.vars, s.frames, [], f);
      HandlesUpdate(s.vars, dst, c, f);
    }
    SettleKeeps(vars, frames, pending);
  }

  /** Every operation but an unsafe assignment keeps every count right and touches no ended variable. */
  lemma StepKeeps(s: State, step: Step)
    requires |s.vars| <= WORD && Inv(s) && Enabled(s, step) && Safe(s, step)
    ensures var t := Apply(s, step); Inv(t) && |t.vars| == |s.vars| && t.clean == s.clean
  {
    match step
    case Empty(dst, home) => EmptyKeeps(s, dst, home);
    case Create(dst, home) => CreateKeeps(s, dst, home);
    case CopyConstruct(dst, home, src) =>
      assert CellOk(s.vars[src], s.frames);
      CopyKeeps(s.vars, s.frames, dst, src, Cell(true, home, s.vars[src].handle));
    case MoveConstruct(dst, home, src) =>
      assert CellOk(s.vars[src], s.frames);
      MoveKeeps(s.vars, s.frames, dst, src, Cell(true, home, s.vars[src].handle));
    case CopyAssign(dst, src) =>
      if s.vars[dst].handle != s.vars[src].handle {
        AssignKeeps(s, dst, src, false);
      }
    case MoveAssign(dst, src) =>
      if dst != src {
        AssignKeeps(s, dst, src, true);
      }
    case Swap(dst, src) => SwapKeeps(s, dst, src);
    case Destruct(dst) => DestructKeeps(s, dst);
  }

  /** An operation leaves every count right and touches no variable that has ended,
      if and only if it is safe. */
  lemma RightIffSafe(s: State, step: Step)
    requires |s.vars| <= WORD && Inv(s) && s.clean && Enabled(s, step)
    ensures Inv(Apply(s, step)) && Apply(s, step).clean <==> Safe(s, step)
  {
    if Safe(s, step) {
      StepKeeps(s, step);
    } else {
      EndsIffKept(s, step.dst, step.src);
      EndsIffKept(s, step.dst, step.dst);
    }
  }

  /** Two conditions that are enough: the variables live outside all frames, or the
      destination's is not the last handle of its frame. */
  lemma UsuallySafe(s: State, step: Step)
    requires |s.vars| <= WORD && Inv(s) && Enabled(s, step) && (step.CopyAssign? || step.MoveAssign?)
    requires || (s.vars[step.dst].home.None? && s.vars[step.src].home.None?)
             || s.vars[step.dst].handle.None?
             || s.frames[s.vars[step.dst].handle.value].refs != 1
    ensures Safe(s, step)
  {
    var dst := step.dst;
    var before, h := Put(s.vars, dst, None), s.vars[dst].handle;
    assert CellOk(s.vars[dst], s.frames);
    if h.Some? && s.frames[h.value].refs != 1 {
      var f := h.value;
      assert FrameOk(s.vars, s.frames, [], f);
      HandlesUpdate(s.vars, dst, before[dst], f);
      HandlesBound(s.vars, f);
      HandlesBound(before, f);
      var j :| 0 <= j < |before| && Holds(before[j], f);
      assert forall chain: seq<nat> :: chain != [] && chain[0] == f && Doomed(before, chain) ==> HeldOnlyFrom(before, f, []);
    }
  }

  // ---- whole runs ----

  predicate Runs(s: State, steps: seq<Step>)
    decreases |steps|
  {
    steps == [] || (Enabled(s, steps[0]) && Runs(Apply(s, steps[0]), steps[1..]))
  }

  function Exec(s: State, steps: seq<Step>): State
    requires Runs(s, steps)
    decreases |steps|
  {
    if steps == [] then s else Exec(Apply(s, steps[0]), steps[1..])
  }

  ghost predicate AllSafe(s: State, steps: seq<Step>)
    requires Runs(s, steps)
    decreases |steps|
  {
    steps == [] || (Safe(s, steps[0]) && AllSafe(Apply(s, steps[0]), steps[1..]))
  }

  lemma {:induction false} RunKeeps(s: State, steps: seq<Step>)
    requires |s.vars| <= WORD && Inv(s) && Runs(s, steps) && AllSafe(s, steps)
    decreases |steps|
    ensures Inv(Exec(s, steps)) && |Exec(s, steps).vars| == |s.vars|
  {
    if steps != [] {
      StepKeeps(s, steps[0]);
      RunKeeps(Apply(s, steps[0]), steps[1..]);
    }
  }

  lemma {:induction false} UncleanStays(s: State, steps: seq<Step>)
    requires !s.clean && Runs(s, steps)
    decreases |steps|
    ensures !Exec(s, steps).clean
  {
    if steps != [] {
      UncleanStays(Apply(s, steps[0]), steps[1..]);
    }
  }

  lemma {:induction false} CleanIffSafe(s: State, steps: seq<Step>)
    requires |s.vars| <= WORD && Inv(s) && s.clean && Runs(s, steps)
    decreases |steps|
    ensures Exec(s, steps).clean <==> AllSafe(s, steps)
  {
    if steps != [] {
      var t := Apply(s, steps[0]);
      RightIffSafe(s, steps[0]);
      if Safe(s, steps[0]) {
        StepKeeps(s, steps[0]);
        CleanIffSafe(t, steps[1..]);
      } else {
        EndsIffKept(s, steps[0].dst, steps[0].src);
        EndsIffKept(s, steps[0].dst, steps[0].dst);
        UncleanStays(t, steps[1..]);
      }
    }
  }

  lemma InitInv(n: nat)
    ensures Inv(Init(n))
  {
  }

  /** With at most 2^32 handle variables, in any run: no variable is used after it
      has ended if and only if every assignment is safe. */
  lemma NeverUsedAfterEndIff(n: nat, steps: seq<Step>)
    requires n <= WORD && Runs(Init(n), steps)
    ensures Exec(Init(n), steps).clean <==> AllSafe(Init(n), steps)
  {
    InitInv(n);
    CleanIffSafe(Init(n), steps);
  }

  /** And if every assignment is, every frame is destroyed exactly once, when its
      last handle goes; no live variable refers to a destroyed frame or lives in
      one; and below 2^32 handles the count is exact. */
  lemma DestroyedWithLastHandle(n: nat, steps: seq<Step>, f: nat, x: nat)
    requires n <= WORD && Runs(Init(n), steps) && AllSafe(Init(n), steps)
    requires f < |Exec(Init(n), steps).frames| && x < |Exec(Init(n), steps).vars|
    ensures var s := Exec(Init(n), steps);
            && s.frames[f].destroyed == (if exists i :: 0 <= i < |s.vars| && Holds(s.vars[i], f) then 0 else 1)
            && (Handles(s.vars, f) < WORD ==> s.frames[f].refs == Handles(s.vars, f))
            && (LivesIn(s.vars[x], f) ==> s.frames[f].destroyed == 0)
  {
    InitInv(n);
    RunKeeps(Init(n), steps);
    var s := Exec(Init(n), steps);
    HandlesBound(s.vars, f);
    assert FrameOk(s.vars, s.frames, [], f) && CellOk(s.vars[x], s.frames);
    assert Handles(s.vars, f) < WORD ==> Handles(s.vars, f) % WORD == Handles(s.vars, f);
  }

  // ---- the runs that go wrong ----

  /** A task whose result holds the handle of another: the first in variable 0, the
      second only inside the result of the first. */
  function Linked(): State {
    State([Cell(true, None, Some(0)), Cell(true, Some(0), Some(1))], [Frame(1, 0), Frame(1, 0)], true)
  }

  lemma LinkedReached()
    ensures var steps := [Create(0, None), Create(1, Some(0))];
            Runs(Init(2), steps) && Exec(Init(2), steps) == Linked()
  {
    var s := Apply(Init(2), Create(0, None));
    var t := Apply(s, Create(1, Some(0)));
    assert [Create(0, None), Create(1, Some(0))][1..] == [Create(1, Some(0))];
    assert [Create(1, Some(0))][1..] == [];
    assert t == Linked();
    assert Runs(s, [Create(1, Some(0))]) && Exec(s, [Create(1, Some(0))]) == t;
  }

  lemma EndTwo(a: Cell, b: Cell, f: nat)
    ensures EndAll([a, b], f)
            == [if LivesIn(a, f) then a.(live := false) else a, if LivesIn(b, f) then b.(live := false) else b]
    ensures GivenBack([a, b], f)
            == (if LivesIn(a, f) then Listed(a.handle) else []) + (if LivesIn(b, f) then Listed(b.handle) else [])
  {
    assert [a, b][1..] == [b] && [b][1..] == [];
    assert EndAll([b], f) == [if LivesIn(b, f) then b.(live := false) else b] + EndAll([], f);
    assert GivenBack([b], f) == (if LivesIn(b, f) then Listed(b.handle) else []) + GivenBack([], f);
  }

  lemma SettleDestroys(vars: seq<Cell>, frames: seq<Frame>, f: nat)
    requires f < |frames| && frames[f].refs == 1
    ensures Settle(vars, frames, [f]) == Settle(EndAll(vars, f), frames[f := Detach(frames[f])], GivenBack(vars, f))
  {
    assert GivenBack(vars, f) + [f][1..] == GivenBack(vars, f);
  }

  /** Dropping the first ends the handle in its result and with it the second. */
  lemma LinkedDropped()
    ensures Dropped(Linked(), 0)
            == State([Cell(true, None, None), Cell(false, Some(0), Some(1))], [Frame(0, 1), Frame(0, 1)], true)
  {
    var out, next, ended := Cell(true, None, None), Cell(true, Some(0), Some(1)), Cell(false, Some(0), Some(1));
    var f0, f1 := [Frame(1, 0), Frame(1, 0)], [Frame(0, 1), Frame(1, 0)];
    assert Put(Linked().vars, 0, None) == [out, next];
    EndTwo(out, next, 0);
    SettleDestroys([out, next], f0, 0);
    assert f0[0 := Detach(f0[0])] == f1;
    assert Settle([out, next], f0, [0]) == Settle([out, ended], f1, [1]);
    EndTwo(out, ended, 1);
    SettleDestroys([out, ended], f1, 1);
    assert f1[1 := Detach(f1[1])] == [Frame(0, 1), Frame(0, 1)];
    assert Settle([out, ended], f1, [1]) == Settle([out, ended], [Frame(0, 1), Frame(0, 1)], []);
  }

  /** Advancing along such a link, `t = t.result().next`, reads the source after it
      has ended: the variable is left with a handle of a destroyed frame, copied or moved. */
  lemma AdvancingIsUnsafe(move: bool)
    ensures var s, step := Linked(), if move then MoveAssign(0, 1) else CopyAssign(0, 1);
            && Enabled(s, step) && !Safe(s, step) && !Apply(s, step).clean
            && Holds(Apply(s, step).vars[0], 1) && Apply(s, step).frames[1].destroyed == 1
  {
    var s := Linked();
    LinkedDropped();
    assert Doomed(Put(s.vars, 0, None), [0]);
    assert LivesAmong(s.vars[1], [0]);
    assert KeptOnlyBy(s, 0, 1);
  }

  // ---- one handle more, and the counter wraps ----

  /** One shared task in variable 0 and copies of it in the variables after it. */
  function Copies(n: nat, k: nat): seq<Step>
    requires 0 < k <= n
  {
    if k == 1 then [Create(0, None)] else Copies(n, k - 1) + [CopyConstruct(k - 1, None, 0)]
  }

  function Shared(n: nat, k: nat): State
    requires 0 < k <= n
  {
    State(seq(n, i => if i < k then Cell(true, None, Some(0)) else Cell(false, None, None)), [Frame(k % WORD, 0)], true)
  }

  lemma {:induction false} RunSnoc(s: State, steps: seq<Step>, last: Step)
    requires Runs(s, steps) && Enabled(Exec(s, steps), last)
    decreases |steps|
    ensures Runs(s, steps + [last]) && Exec(s, steps + [last]) == Apply(Exec(s, steps), last)
  {
    var all := steps + [last];
    if steps == [] {
      assert all[1..] == [];
    } else {
      RunSnoc(Apply(s, steps[0]), steps[1..], last);
      assert all[1..] == steps[1..] + [last];
    }
  }

  lemma CopyShares(n: nat, k: nat)
    requires 0 < k < n
    ensures Enabled(Shared(n, k), CopyConstruct(k, None, 0))
    ensures Apply(Shared(n, k), CopyConstruct(k, None, 0)) == Shared(n, k + 1)
  {
    var s := Shared(n, k);
    assert (k % WORD + 1) % WORD == (k + 1) % WORD;
    assert s.frames[0 := AddRef(s.frames[0])] == Shared(n, k + 1).frames;
    assert s.vars[k := Cell(true, None, Some(0))] == Shared(n, k + 1).vars;
  }

  lemma {:induction false} CopiesShare(n: nat, k: nat)
    requires 0 < k <= n
    ensures Runs(Init(n), Copies(n, k)) && Exec(Init(n), Copies(n, k)) == Shared(n, k)
  {
    if k == 1 {
      assert Copies(n, 1)[1..] == [];
      assert Apply(Init(n), Create(0, None)) == Shared(n, 1);
    } else {
      CopiesShare(n, k - 1);
      CopyShares(n, k - 1);
      RunSnoc(Init(n), Copies(n, k - 1), CopyConstruct(k - 1, None, 0));
    }
  }

  lemma {:induction false} NobodyEnds(vars: seq<Cell>, f: nat)
    requires forall i :: 0 <= i < |vars| ==> !LivesIn(vars[i], f)
    ensures EndAll(vars, f) == vars && GivenBack(vars, f) == []
  {
    if vars != [] {
      assert forall i :: 0 <= i < |vars[1..]| ==> vars[1..][i] == vars[i + 1];
      NobodyEnds(vars[1..], f);
      assert vars == [vars[0]] + vars[1..];
    }
  }

  /** Whenever more than 2^32 handle variables exist, a run of copies destroys a frame that handles still refer to. */
  lemma DestroyedTooEarly(n: nat) returns (steps: seq<Step>)
    requires n > WORD
    ensures Runs(Init(n), steps)
    ensures var s := Exec(Init(n), steps); |s.frames| == 1 && s.frames[0].destroyed == 1 && |s.vars| > 1 && Holds(s.vars[1], 0)
  {
    var k := WORD + 1;
    CopiesShare(n, k);
    RunSnoc(Init(n), Copies(n, k), Destruct(0));
    steps := Copies(n, k) + [Destruct(0)];
    assert k % WORD == 1;
    var s := Shared(n, k);
    var vars, frames := s.vars[0 := s.vars[0].(live := false)], [Detach(s.frames[0])];
    NobodyEnds(vars, 0);
    assert s.frames[0 := Detach(s.frames[0])] == frames && [] + [0][1..] == [];
    assert Settle(vars, s.frames, [0]) == Settle(vars, frames, []) == (vars, frames);
  }
}

/** The handle variables and coroutine frames of a program, updated in place. */
module SharedHandles {
  import opened Common
  import opened RefCounts

  class Coroutine {
    const id: nat
    var frame: Frame

    constructor (id: nat)
      ensures this.id == id && frame == Frame(1, 0)
    {
      this.id := id;
      frame := Frame(1, 0);
    }
  }

  function Id(c: Coroutine?): Option<nat> { if c == null then None else Some(c.id) }

  function Ids(s: seq<Coroutine>): seq<nat> {
    if s == [] then [] else [s[0].id] + Ids(s[1..])
  }

  lemma {:induction false} IdsAppend(a: seq<Coroutine>, b: seq<Coroutine>)
    ensures Ids(a + b) == Ids(a) + Ids(b)
  {
    if a == [] {
      assert a + b == b;
    } else {
      assert (a + b)[1..] == a[1..] + b;
      IdsAppend(a[1..], b);
    }
  }

  class Program {
    const vars: seq<SharedTask>
    var coros: seq<Coroutine>
    ghost var view: State

    ghost predicate Known(c: Coroutine?)
      reads this
    {
      c == null || (c.id < |coros| && coros[c.id] == c)
    }

    ghost predicate AllKnown(s: seq<Coroutine>)
      reads this
    {
      forall c :: c in s ==> Known(c)
    }

    ghost predicate VarIs(i: nat)
      requires i < |vars|
      reads this, vars
    {
      var v := vars[i];
      && i < |view.vars| && view.vars[i] == Cell(v.live, Id(v.home), Id(v.coroutine))
      && Known(v.home) && Known(v.coroutine)
    }

    ghost predicate Valid()
      reads this, vars, coros
    {
      && NoDup(vars) && |view.vars| == |vars| && |view.frames| == |coros|
      && (forall i: nat {:trigger VarIs(i)} :: i < |vars| ==> VarIs(i))
      && (forall f {:trigger coros[f]} :: 0 <= f < |coros| ==> coros[f].id == f && coros[f].frame == view.frames[f])
    }

    constructor (n: nat)
      ensures Valid() && fresh(vars) && view == Init(n)
    {
      var created: seq<SharedTask> := [];
      while |created| < n
        invariant |created| <= n && NoDup(created) && fresh(created)
        invariant forall i :: 0 <= i < |created| ==> !created[i].live && created[i].home == null && created[i].coroutine == null
      {
        var v := new SharedTask();
        created := created + [v];
      }
      vars, coros := created, [];
      view := Init(n);
    }

    /** Writes the pointer of a variable. */
    method Store(v: SharedTask, h: Coroutine?, ghost x: nat)
      requires Valid() && x < |vars| && vars[x] == v && Known(h)
      modifies v`coroutine, this`view
      ensures Valid() && view == old(view).(vars := Put(old(view).vars, x, Id(h)))
      ensures v.coroutine == h
    {
      assert VarIs(x);
      assert forall i: nat :: i < |vars| ==> VarIs(i);
      v.coroutine := h;
      view := view.(vars := Put(view.vars, x, Id(h)));
      forall i: nat | i < |vars|
        ensures VarIs(i)
      {
        assert i != x ==> vars[i] != v && old(VarIs(i));
      }
    }

    /** Starts or ends the life of a variable. */
    method SetLive(v: SharedTask, live: bool, home: Coroutine?, ghost x: nat)
      requires Valid() && x < |vars| && vars[x] == v && Known(home)
      modifies v`live, v`home, this`view
      ensures Valid() && v.live == live && v.coroutine == old(v.coroutine)
      ensures view == old(view).(vars := old(view).vars[x := Cell(live, Id(home), old(view).vars[x].handle)])
    {
      assert VarIs(x);
      assert forall i: nat :: i < |vars| ==> VarIs(i);
      v.live, v.home := live, home;
      view := view.(vars := view.vars[x := Cell(live, Id(home), view.vars[x].handle)]);
      forall i: nat | i < |vars|
        ensures VarIs(i)
      {
        assert i != x ==> vars[i] != v && old(VarIs(i));
      }
    }

    method SetFrame(c: Coroutine, frame: Frame)
      requires Valid() && Known(c)
      modifies c`frame, this`view
      ensures Valid() && view == old(view).(frames := old(view).frames[c.id := frame])
    {
      assert forall i: nat :: i < |vars| ==> VarIs(i);
      assert forall f :: 0 <= f < |coros| && f != c.id ==> coros[f] != c;
      c.frame := frame;
      view := view.(frames := view.frames[c.id := frame]);
      forall i: nat | i < |vars|
        ensures VarIs(i)
      {
        assert old(VarIs(i));
      }
    }

    ghost method Touched(clean: bool)
      requires Valid()
      modifies this`view
      ensures Valid() && view == old(view).(clean := clean)
    {
      assert forall i: nat :: i < |vars| ==> VarIs(i);
      view := view.(clean := clean);
      forall i: nat | i < |vars|
        ensures VarIs(i)
      {
        assert old(VarIs(i));
      }
    }

    /** The destructor of variable `i`, if it lives in frame `f`: its handle is to be given back too. */
    method EndMember(f: Coroutine, i: nat, held: seq<Coroutine>) returns (more: seq<Coroutine>)
      requires Valid() && Known(f) && i < |vars| && AllKnown(held)
      modifies this`view, vars
      ensures Valid() && view == old(view).(vars := EndOne(old(view).vars, i, f.id))
      ensures AllKnown(more)
      ensures var c := old(view).vars[i];
              Ids(more) == Ids(held) + (if LivesIn(c, f.id) then Listed(c.handle) else [])
    {
      var v := vars[i];
      assert VarIs(i);
      more := held;
      if v.live && v.home == f {
        var h := v.coroutine;
        SetLive(v, false, v.home, i);
        if h != null {
          IdsAppend(held, [h]);
          assert Ids([h]) == [h.id] + Ids([h][1..]) == [h.id];
          more := held + [h];
        }
      }
    }

    /** The variables that live in a frame end with it; their handles are to be given back. */
    method EndMembers(f: Coroutine) returns (held: seq<Coroutine>)
      requires Valid() && Known(f)
      modifies this`view, vars
      ensures Valid() && view == old(view).(vars := EndAll(old(view).vars, f.id))
      ensures Ids(held) == GivenBack(old(view).vars, f.id) && AllKnown(held)
    {
      ghost var before := view;
      var i := 0;
      held := [];
      EndBounds(before.vars, f.id);
      while i < |vars|
        invariant 0 <= i <= |vars| == |before.vars| && Valid() && AllKnown(held)
        invariant EndedSoFar(before, view, i, f.id, Ids(held))
      {
        ghost var mid, back := view, Ids(held);
        held := EndMember(f, i, held);
        EndNext(before.vars, i, f.id);
        assert EndedSoFar(before, view, i + 1, f.id, Ids(held)) by {
          assert mid.vars == EndFirst(before.vars, i, f.id) && back == GivenBack(before.vars[..i], f.id);
        }
        i := i + 1;
      }
    }

    /** `try_detach` for each of the handles, and the destruction of a frame that
        has none left, with what its variables give back. */
    method GiveBack(handles: seq<Coroutine>)
      requires Valid() && AllKnown(handles)
      modifies this`view, vars, coros
      ensures Valid()
      ensures var (v, g) := Settle(old(view).vars, old(view).frames, Ids(handles));
              view == State(v, g, old(view).clean)
    {
      var pending := handles;
      ghost var goal := Settle(view.vars, view.frames, Ids(handles));
      ghost var known := coros;
      while pending != []
        invariant Valid() && coros == known && view.clean == old(view.clean)
        invariant AllKnown(pending)
        invariant Settle(view.vars, view.frames, Ids(pending)) == goal
        decreases LiveVars(view.vars) + |pending|
      {
        var f := pending[0];
        assert f in pending && forall c :: c in pending[1..] ==> c in pending;
        pending := pending[1..];
        var last := f.frame.refs == 1;
        EndShrinks(view.vars, f.id);
        SetFrame(f, Detach(f.frame));
        if last {
          var held := EndMembers(f);
          IdsAppend(held, pending);
          IdsLength(held);
          pending := held + pending;
        }
      }
    }
  }

  lemma {:induction false} IdsLength(s: seq<Coroutine>)
    ensures |Ids(s)| == |s|
  {
    if s != [] {
      IdsLength(s[1..]);
    }
  }

  function EndOne(vars: seq<Cell>, i: nat, f: nat): (r: seq<Cell>)
    requires i < |vars|
    ensures |r| == |vars|
  {
    if LivesIn(vars[i], f) then vars[i := vars[i].(live := false)] else vars
  }

  /** The first `i` variables have had their turn. */
  function EndFirst(vars: seq<Cell>, i: nat, f: nat): (r: seq<Cell>)
    requires i <= |vars|
    ensures |r| == |vars|
  {
    EndAll(vars[..i], f) + vars[i..]
  }

  /** The first `i` variables have had their turn and given back `back`. */
  ghost predicate EndedSoFar(before: State, s: State, i: nat, f: nat, back: seq<nat>)
    requires i <= |before.vars|
  {
    s == before.(vars := EndFirst(before.vars, i, f)) && back == GivenBack(before.vars[..i], f)
  }

  lemma EndBounds(vars: seq<Cell>, f: nat)
    ensures EndFirst(vars, 0, f) == vars && GivenBack(vars[..0], f) == []
    ensures EndFirst(vars, |vars|, f) == EndAll(vars, f) && GivenBack(vars[..|vars|], f) == GivenBack(vars, f)
  {
    assert vars[0..] == vars && vars[..|vars|] == vars && vars[|vars|..] == [];
  }

  lemma EndNext(vars: seq<Cell>, i: nat, f: nat)
    requires i < |vars|
    ensures EndFirst(vars, i, f)[i] == vars[i]
    ensures EndOne(EndFirst(vars, i, f), i, f) == EndFirst(vars, i + 1, f)
    ensures GivenBack(vars[..i + 1], f)
            == GivenBack(vars[..i], f) + (if LivesIn(vars[i], f) then Listed(vars[i].handle) else [])
  {
    assert vars[..i + 1] == vars[..i] + [vars[i]];
    EndAppend(vars[..i], vars[i], f);
    BackAppend(vars[..i], vars[i], f);
  }

  function EndCell(c: Cell, f: nat): Cell { if LivesIn(c, f) then c.(live := false) else c }

  function BackFrom(c: Cell, f: nat): seq<nat> { if LivesIn(c, f) then Listed(c.handle) else [] }

  lemma {:induction false} EndAppend(vars: seq<Cell>, c: Cell, f: nat)
    ensures EndAll(vars + [c], f) == EndAll(vars, f) + [EndCell(c, f)]
  {
    var all := vars + [c];
    if vars == [] {
      assert all == [c] && all[1..] == [];
    } else {
      assert all[0] == vars[0] && all[1..] == vars[1..] + [c];
      EndAppend(vars[1..], c, f);
      var first, rest := [EndCell(vars[0], f)], EndAll(vars[1..], f);
      assert first + (rest + [EndCell(c, f)]) == (first + rest) + [EndCell(c, f)];
    }
  }

  lemma {:induction false} BackAppend(vars: seq<Cell>, c: Cell, f: nat)
    ensures GivenBack(vars + [c], f) == GivenBack(vars, f) + BackFrom(c, f)
  {
    var all := vars + [c];
    if vars == [] {
      assert all == [c] && all[1..] == [];
    } else {
      assert all[0] == vars[0] && all[1..] == vars[1..] + [c];
      BackAppend(vars[1..], c, f);
      var first, rest := BackFrom(vars[0], f), GivenBack(vars[1..], f);
      assert first + (rest + BackFrom(c, f)) == (first + rest) + BackFrom(c, f);
    }
  }

  /** The handle class. A variable is a place in the program's storage, which outlives it. */
  class SharedTask {
    var live: bool
    var home: Coroutine?
    var coroutine: Coroutine?

    constructor ()
      ensures !live && home == null && coroutine == null
    {
      live, home, coroutine := false, null, null;
    }

    /** `destroy`, with the pointer taken out first. */
    method DropHandle(p: Program, ghost x: nat)
      requires p.Valid() && x < |p.vars| && p.vars[x] == this
      modifies p`view, p.vars, p.coros
      ensures p.Valid() && p.view == Dropped(old(p.view), x)
    {
      assert p.VarIs(x);
      var c := coroutine;
      p.Store(this, null, x);
      if c == null {
        p.GiveBack([]);
      } else {
        assert Ids([c]) == [c.id] + Ids([c][1..]) == [c.id];
        p.GiveBack([c]);
      }
    }

    method AddReference(p: Program, ghost x: nat)
      requires p.Valid() && x < |p.vars| && p.vars[x] == this
      modifies p`view, p.coros
      ensures p.Valid() && p.view == old(p.view).(frames := Retain(old(p.view).frames, old(p.view).vars[x].handle))
    {
      assert p.VarIs(x);
      if coroutine != null {
        p.SetFrame(coroutine, AddRef(coroutine.frame));
      }
    }

    method CopyConstruct(p: Program, other: SharedTask, home: Coroutine?, ghost dst: nat, ghost src: nat)
      requires p.Valid() && dst < |p.vars| && src < |p.vars| && p.vars[dst] == this && p.vars[src] == other
      requires p.Known(home) && Enabled(p.view, RefCounts.CopyConstruct(dst, Id(home), src))
      modifies p`view, p.vars, p.coros
      ensures p.Valid() && p.view == Apply(old(p.view), RefCounts.CopyConstruct(dst, Id(home), src))
    {
      assert p.VarIs(dst) && p.VarIs(src);
      var h := other.coroutine;
      p.SetLive(this, true, home, dst);
      p.Store(this, h, dst);
      AddReference(p, dst);
    }

    method MoveConstruct(p: Program, other: SharedTask, home: Coroutine?, ghost dst: nat, ghost src: nat)
      requires p.Valid() && dst < |p.vars| && src < |p.vars| && p.vars[dst] == this && p.vars[src] == other
      requires p.Known(home) && Enabled(p.view, RefCounts.MoveConstruct(dst, Id(home), src))
      modifies p`view, p.vars
      ensures p.Valid() && p.view == Apply(old(p.view), RefCounts.MoveConstruct(dst, Id(home), src))
    {
      assert p.VarIs(dst) && p.VarIs(src);
      var h := other.coroutine;
      p.SetLive(this, true, home, dst);
      p.Store(this, h, dst);
      p.Store(other, null, src);
    }

    method SwapWith(p: Program, other: SharedTask, ghost dst: nat, ghost src: nat)
      requires p.Valid() && dst < |p.vars| && src < |p.vars| && p.vars[dst] == this && p.vars[src] == other
      requires live && other.live
      modifies p`view, p.vars
      ensures p.Valid() && Enabled(old(p.view), Swap(dst, src)) && p.view == Apply(old(p.view), Swap(dst, src))
    {
      assert p.VarIs(dst) && p.VarIs(src);
      var mine, theirs := coroutine, other.coroutine;
      p.Store(this, theirs, dst);
      p.Store(other, mine, src);
    }

    /** The destructor; the storage keeps the pointer. */
    method Destruct(p: Program, ghost dst: nat)
      requires p.Valid() && dst < |p.vars| && p.vars[dst] == this && live
      modifies p`view, p.vars, p.coros
      ensures p.Valid() && Enabled(old(p.view), RefCounts.Destruct(dst))
      ensures p.view == Apply(old(p.view), RefCounts.Destruct(dst))
    {
      assert p.VarIs(dst);
      p.SetLive(this, false, home, dst);
      if coroutine == null {
        p.GiveBack([]);
      } else {
        assert Ids([coroutine]) == [coroutine.id] + Ids([coroutine][1..]) == [coroutine.id];
        p.GiveBack([coroutine]);
      }
    }

    /** Drops the old handle, then reads the source, wherever the two variables live
        and whether or not they are still there. */
    method MoveAssign(p: Program, other: SharedTask, ghost dst: nat, ghost src: nat)
      requires p.Valid() && dst < |p.vars| && src < |p.vars| && p.vars[dst] == this && p.vars[src] == other
      requires live && other.live
      modifies p`view, p.vars, p.coros
      ensures p.Valid() && Enabled(old(p.view), RefCounts.MoveAssign(dst, src))
      ensures p.view == Apply(old(p.view), RefCounts.MoveAssign(dst, src))
    {
      assert p.VarIs(dst) && p.VarIs(src);
      if this != other {
        DropHandle(p, dst);
        assert p.VarIs(dst) && p.VarIs(src);
        ghost var clean := p.view.clean && other.live && live;
        p.Store(this, other.coroutine, dst);
        p.Store(other, null, src);
        p.Touched(clean);
      }
    }

    method CopyAssign(p: Program, other: SharedTask, ghost dst: nat, ghost src: nat)
      requires p.Valid() && dst < |p.vars| && src < |p.vars| && p.vars[dst] == this && p.vars[src] == other
      requires live && other.live
      modifies p`view, p.vars, p.coros
      ensures p.Valid() && Enabled(old(p.view), RefCounts.CopyAssign(dst, src))
      ensures p.view == Apply(old(p.view), RefCounts.CopyAssign(dst, src))
    {
      assert p.VarIs(dst) && p.VarIs(src);
      if coroutine != other.coroutine {
        DropHandle(p, dst);
        assert p.VarIs(dst) && p.VarIs(src);
        ghost var clean := p.view.clean && other.live && live;
        p.Store(this, other.coroutine, dst);
        AddReference(p, dst);
        p.Touched(clean);
      }
    }
  }
}
