/** The slots of a buffered channel as values: which are constructed and in what order. */
module ChannelRing {
  import opened Common

  /** `first` and `last` are the slots the two pointers point at; a constructed slot holds `Some`. */
  datatype Ring<T> = Ring(slots: seq<Option<T>>, first: nat, last: nat, size: nat)

  function Wrap(k: nat, n: nat): nat {
    if k >= n then k - n else k
  }

  /** How far slot `k` lies behind the front of the ring. */
  function Offset<T>(r: Ring<T>, k: nat): int {
    if k >= r.first then k - r.first else k + |r.slots| - r.first
  }

  /** A slot is constructed exactly when it lies in the live window. */
  ghost predicate RingOk<T>(r: Ring<T>) {
    && r.first < |r.slots| && r.size <= |r.slots|
    && r.last == Wrap(r.first + r.size, |r.slots|)
    && forall k: nat :: k < |r.slots| ==> (r.slots[k].Some? <==> Offset(r, k) < r.size)
  }

  /** The items in the ring, oldest first. */
  ghost function Contents<T>(r: Ring<T>): (s: seq<T>)
    requires RingOk(r)
    ensures |s| == r.size
    ensures forall j: nat :: j < r.size ==> r.slots[Wrap(r.first + j, |r.slots|)] == Some(s[j])
  {
    seq(r.size, j requires 0 <= j < r.size =>
      assert Offset(r, Wrap(r.first + j, |r.slots|)) == j;
      r.slots[Wrap(r.first + j, |r.slots|)].value)
  }

  function EmptyRing<T>(n: nat): Ring<T> {
    Ring(seq(n, _ => None), 0, 0, 0)
  }

  /** Construct at `last`, then `push_one`. */
  function Push<T>(r: Ring<T>, v: T): Ring<T>
    requires r.last < |r.slots|
  {
    Ring(r.slots[r.last := Some(v)], r.first,
         if r.last + 1 == |r.slots| then 0 else r.last + 1, r.size + 1)
  }

  /** Destroy at `first`, then `pop_one`. */
  function Pop<T>(r: Ring<T>): Ring<T>
    requires r.first < |r.slots| && r.size > 0
  {
    Ring(r.slots[r.first := None],
         if r.first + 1 == |r.slots| then 0 else r.first + 1, r.last, r.size - 1)
  }

  lemma EmptyRingOk<T>(n: nat)
    requires n > 0
    ensures RingOk(EmptyRing<T>(n)) && Contents(EmptyRing<T>(n)) == []
  {
  }

  /** Insertion constructs a dead slot and appends. */
  lemma PushAppends<T>(r: Ring<T>, v: T)
    requires RingOk(r) && r.size < |r.slots|
    ensures r.last < |r.slots| && r.slots[r.last].None?
    ensures RingOk(Push(r, v)) && Contents(Push(r, v)) == Contents(r) + [v]
  {
    assert Offset(r, r.last) == r.size;
    PushKeepsRing(r, v);
    var s, u := Contents(Push(r, v)), Contents(r) + [v];
    forall j: nat | j < |u|
      ensures s[j] == u[j]
    {
      PushedAt(r, v, j);
    }
    assert s == u;
  }

  lemma PushKeepsRing<T>(r: Ring<T>, v: T)
    requires RingOk(r) && r.size < |r.slots|
    ensures RingOk(Push(r, v))
  {
    assert Offset(r, r.last) == r.size;
  }

  lemma PushedAt<T>(r: Ring<T>, v: T, j: nat)
    requires RingOk(r) && r.size < |r.slots| && j <= r.size && RingOk(Push(r, v))
    ensures Contents(Push(r, v))[j] == if j < r.size then Contents(r)[j] else v
  {
    var k := Wrap(r.first + j, |r.slots|);
    assert Offset(r, k) == j && Offset(r, r.last) == r.size;
    assert Push(r, v).slots[k] == Some(Contents(Push(r, v))[j]);
  }

  /** Removal destroys a live slot, the one that holds the oldest item. */
  lemma PopRemovesFirst<T>(r: Ring<T>)
    requires RingOk(r) && r.size > 0
    ensures r.slots[r.first] == Some(Contents(r)[0])
    ensures RingOk(Pop(r)) && Contents(Pop(r)) == Contents(r)[1..]
  {
    assert Wrap(r.first + 0, |r.slots|) == r.first;
    var t := Pop(r);
    forall j: nat | j < t.size
      ensures Contents(t)[j] == Contents(r)[j + 1]
    {
      assert Wrap(t.first + j, |r.slots|) == Wrap(r.first + (j + 1), |r.slots|);
    }
  }

  /** The single-slot channel keeps an optional item; it behaves as a ring of one slot. */
  function SingleSlot<T>(buf: Option<T>): Ring<T> {
    Ring([buf], 0, 0, if buf.Some? then 1 else 0)
  }

  lemma SingleSlotIsRing<T>(buf: Option<T>, v: T)
    ensures RingOk(SingleSlot(buf))
    ensures buf.None? <==> SingleSlot(buf).size == 0
    ensures buf.Some? <==> SingleSlot(buf).size == |SingleSlot(buf).slots|
    ensures buf.None? ==> Push(SingleSlot(buf), v) == SingleSlot(Some(v))
    ensures buf.Some? ==> Pop(SingleSlot(buf)) == SingleSlot<T>(None) && Contents(SingleSlot(buf)) == [buf.value]
  {
    var r := SingleSlot(buf);
    assert forall k: nat :: k < 1 ==> Offset(r, k) == 0;
    if buf.None? {
      assert [buf][0 := Some(v)] == [Some(v)];
    } else {
      assert [buf][0 := None] == [None];
      assert Contents(r)[0] == r.slots[Wrap(r.first + 0, 1)].value;
    }
  }
}

/** The ring in place: an array of slots and two slot pointers. */
module ChannelBuffer {
  import opened Common
  import opened ChannelRing

  class Buffer<T> {
    const slots: array<Option<T>>
    var first: nat
    var last: nat
    var size: nat

    ghost function View(): Ring<T>
      reads this, slots
    {
      Ring(slots[..], first, last, size)
    }

    constructor (capacity: nat)
      requires capacity > 0
      ensures fresh(slots) && slots.Length == capacity
      ensures RingOk(View()) && Contents(View()) == []
    {
      slots := new Option<T>[capacity](_ => None);
      first, last, size := 0, 0, 0;
      new;
      assert View() == EmptyRing<T>(capacity);
      EmptyRingOk<T>(capacity);
    }

    method PushOne()
      requires last < slots.Length
      modifies this`last, this`size
      ensures last == (if old(last) + 1 == slots.Length then 0 else old(last) + 1) && size == old(size) + 1
    {
      last, size := last + 1, size + 1;
      if last == slots.Length {
        last := 0;
      }
    }

    method PopOne()
      requires first < slots.Length && size > 0
      modifies this`first, this`size
      ensures first == (if old(first) + 1 == slots.Length then 0 else old(first) + 1) && size == old(size) - 1
    {
      first, size := first + 1, size - 1;
      if first == slots.Length {
        first := 0;
      }
    }

    /** The critical section of `release`. */
    method Put(v: T)
      requires RingOk(View()) && size < slots.Length
      modifies this`last, this`size, slots
      ensures View() == Push(old(View()), v)
      ensures RingOk(View()) && Contents(View()) == old(Contents(View())) + [v]
    {
      PushAppends(View(), v);
      slots[last] := Some(v);
      PushOne();
      assert View() == Push(old(View()), v);
    }

    /** The critical section of `acquire`. */
    method Take() returns (item: T)
      requires RingOk(View()) && size > 0
      modifies this`first, this`size, slots
      ensures View() == Pop(old(View()))
      ensures RingOk(View()) && [item] + Contents(View()) == old(Contents(View()))
    {
      PopRemovesFirst(View());
      item := slots[first].value;
      slots[first] := None;
      PopOne();
      assert View() == Pop(old(View()));
    }
  }
}

/** Any number of coroutines inserting into, taking from and dropping from one
    channel: lock, body, unlock and notification are separate steps. */
module ChannelProtocol {
  import opened Common
  import opened FifoLock
  import opened CvLists
  import opened ChannelRing

  type Id = nat

  datatype Op<T> = Put(item: T) | Take | Drop

  datatype Pc<T> =
    | Idle
    | Locking(op: Op<T>)                  // suspended in `lock`
    | Entered(op: Op<T>, woken: bool)     // owns the mutex, has yet to check; `woken` by a notification
    | Parking(op: Op<T>, woken: bool)     // listed as a waiter, still owns the mutex
    | Asleep(op: Op<T>)                   // suspended in a condition variable
    | Woken(op: Op<T>)                    // notified, suspended in the mutex queue
    | Leaving(op: Op<T>)                  // body done, still owns the mutex
    | Notifying(op: Op<T>)                // unlocked, has yet to notify
    | Thrown(op: Op<T>, woken: bool)      // ended by an exception of the element, the mutex never unlocked

  predicate Owns<T>(pc: Pc<T>) { pc.Entered? || pc.Parking? || pc.Leaving? || pc.Thrown? }

  predicate InLock<T>(pc: Pc<T>) { pc.Locking? || pc.Woken? || (pc.Parking? && pc.woken) }

  predicate Sleeps<T>(pc: Pc<T>) { pc.Asleep? || (pc.Parking? && !pc.woken) }

  predicate AwaitsItem<T>(pc: Pc<T>) { Sleeps(pc) && !pc.op.Put? }

  predicate AwaitsRoom<T>(pc: Pc<T>) { Sleeps(pc) && pc.op.Put? }

  /** Notified and not yet checked again, or ended by an exception before the ring changed. */
  predicate Notified<T>(pc: Pc<T>) { pc.Woken? || ((pc.Parking? || pc.Entered? || pc.Thrown?) && pc.woken) }

  predicate NotifiedTaker<T>(pc: Pc<T>) { Notified(pc) && !pc.op.Put? }

  predicate NotifiedPutter<T>(pc: Pc<T>) { Notified(pc) && pc.op.Put? }

  /** Between changing the ring and notifying the other side. */
  predicate AfterPut<T>(pc: Pc<T>) { (pc.Leaving? || pc.Notifying?) && pc.op.Put? }

  predicate AfterTake<T>(pc: Pc<T>) { (pc.Leaving? || pc.Notifying?) && !pc.op.Put? }

  /** `inserted` and `removed` are histories of the items, in the order of the critical sections. */
  datatype State<T> = State(
    lock: Lock<Id>, notEmpty: Cv<Id>, notFull: Cv<Id>, ring: Ring<T>, pcs: seq<Pc<T>>,
    inserted: seq<T>, removed: seq<T>)

  datatype Step<T> =
    | BeginStep(i: Id, op: Op<T>)
    | BodyStep(i: Id)
    | ThrowStep(i: Id)     // constructing the item in its slot, or moving it out, throws
    | SuspendStep(i: Id)
    | UnlockStep(i: Id)
    | NotifyStep(i: Id)

  function Init<T>(capacity: nat, n: nat): State<T> {
    State(Lock(None, []), Cv([], []), Cv([], []), EmptyRing(capacity), seq(n, _ => Idle), [], [])
  }

  predicate Enabled<T>(s: State<T>, step: Step<T>) {
    && step.i < |s.pcs| && s.ring.first < |s.ring.slots| && s.ring.last < |s.ring.slots|
    && match step
       case BeginStep(i, _) => s.pcs[i].Idle?
       case BodyStep(i) => s.pcs[i].Entered? && (s.ring.size > 0 ==> s.ring.slots[s.ring.first].Some?)
       case ThrowStep(i) =>
         s.pcs[i].Entered? && (if s.pcs[i].op.Put? then s.ring.size < |s.ring.slots| else s.pcs[i].op.Take? && s.ring.size > 0)
       case SuspendStep(i) => s.pcs[i].Parking?
       case UnlockStep(i) => s.pcs[i].Leaving?
       case NotifyStep(i) => s.pcs[i].Notifying?
  }

  function PassLock<T>(s: State<T>): State<T> {
    var l := Unlock<Id>(s.lock);
    if l.owner.None? || l.owner.value >= |s.pcs| then s.(lock := l)
    else
      var j := l.owner.value;
      s.(lock := l, pcs := s.pcs[j := Granted(s.pcs[j])])
  }

  function Granted<T>(pc: Pc<T>): Pc<T> {
    match pc
    case Locking(op) => Entered(op, false)
    case Woken(op) => Entered(op, true)
    case _ => pc
  }

  function Wake<T>(s: State<T>, x: Id): State<T> {
    if x >= |s.pcs| || !Sleeps(s.pcs[x]) then s
    else
      var op := s.pcs[x].op;
      s.(lock := Register(s.lock, x),
         pcs := s.pcs[x := if s.lock.owner.None? then Entered(op, true)
                           else if s.pcs[x].Parking? then Parking(op, true) else Woken(op)])
  }

  function Body<T>(s: State<T>, i: Id, op: Op<T>): State<T>
    requires i < |s.pcs| && s.ring.first < |s.ring.slots| && s.ring.last < |s.ring.slots|
    requires s.ring.size > 0 ==> s.ring.slots[s.ring.first].Some?
  {
    if op.Put? then
      if s.ring.size == |s.ring.slots| then
        s.(notFull := Park(s.notFull, i), pcs := s.pcs[i := Parking(op, false)])
      else
        s.(ring := Push(s.ring, op.item), inserted := s.inserted + [op.item], pcs := s.pcs[i := Leaving(op)])
    else
      if s.ring.size == 0 then
        s.(notEmpty := Park(s.notEmpty, i), pcs := s.pcs[i := Parking(op, false)])
      else
        s.(ring := Pop(s.ring), removed := s.removed + [s.ring.slots[s.ring.first].value],
           pcs := s.pcs[i := Leaving(op)])
  }

  function Notify<T>(s: State<T>, op: Op<T>): State<T> {
    if op.Put? then
      var (cv, first) := TakeOne(s.notEmpty);
      if first.None? then s.(notEmpty := cv) else Wake(s.(notEmpty := cv), first.value)
    else
      var (cv, first) := TakeOne(s.notFull);
      if first.None? then s.(notFull := cv) else Wake(s.(notFull := cv), first.value)
  }

  function Apply<T>(s: State<T>, step: Step<T>): State<T>
    requires Enabled(s, step)
  {
    match step
    case BeginStep(i, op) =>
      s.(lock := Register(s.lock, i),
         pcs := s.pcs[i := if s.lock.owner.None? then Entered(op, false) else Locking(op)])
    case BodyStep(i) => Body(s, i, s.pcs[i].op)
    case ThrowStep(i) => s.(pcs := s.pcs[i := Thrown(s.pcs[i].op, s.pcs[i].woken)])
    case SuspendStep(i) =>
      var op := s.pcs[i].op;
      PassLock(s.(pcs := s.pcs[i := if s.pcs[i].woken then Woken(op) else Asleep(op)]))
    case UnlockStep(i) => PassLock(s.(pcs := s.pcs[i := Notifying(s.pcs[i].op)]))
    case NotifyStep(i) => Notify(s.(pcs := s.pcs[i := Idle]), s.pcs[i].op)
  }

  // ---- structure: who owns the mutex, who is listed where ----

  ghost predicate OwnerInv<T>(s: State<T>) {
    && (s.lock.owner.Some? ==> s.lock.owner.value < |s.pcs|)
    && (forall i :: 0 <= i < |s.pcs| ==> (Owns(s.pcs[i]) <==> s.lock.owner == Some(i)))
    && LockOk(s.lock)
  }

  ghost predicate ListInv<T>(s: State<T>, items: seq<Id>, rooms: seq<Id>) {
    && OwnerInv(s)
    && Tracks(s.lock.queue, s.pcs, InLock)
    && Tracks(items, s.pcs, AwaitsItem)
    && Tracks(rooms, s.pcs, AwaitsRoom)
  }

  ghost predicate PlaceInv<T>(s: State<T>) {
    ListInv(s, CvQueue(s.notEmpty), CvQueue(s.notFull))
  }

  // ---- the items ----

  ghost predicate ItemInv<T>(s: State<T>) {
    RingOk(s.ring) && s.inserted == s.removed + Contents(s.ring)
  }

  // ---- the counting bound ----

  /** A sleeping taker is outnumbered by the items only as far as notified takers
      and pending notifications account for, and the same on the other side. */
  ghost predicate BoundInv<T>(s: State<T>) {
    && (CvQueue(s.notEmpty) != [] ==>
          s.ring.size <= Count(s.pcs, NotifiedTaker) + Count(s.pcs, AfterPut))
    && (CvQueue(s.notFull) != [] ==>
          |s.ring.slots| - s.ring.size <= Count(s.pcs, NotifiedPutter) + Count(s.pcs, AfterTake))
  }

  ghost predicate Inv<T>(s: State<T>) {
    PlaceInv(s) && ItemInv(s) && BoundInv(s)
  }

  lemma InitInv<T>(capacity: nat, n: nat)
    requires capacity > 0
    ensures Inv(Init<T>(capacity, n))
  {
    EmptyRingOk<T>(capacity);
    var s := Init<T>(capacity, n);
    assert CvQueue(s.notEmpty) == [] == CvQueue(s.notFull);
  }

  // ---- structure is kept ----

  lemma PassLockPlaces<T>(s: State<T>, i: Id, v: Pc<T>)
    requires PlaceInv(s) && i < |s.pcs| && Owns(s.pcs[i]) && !Owns(v)
    requires InLock(v) == InLock(s.pcs[i])
    requires AwaitsItem(v) == AwaitsItem(s.pcs[i]) && AwaitsRoom(v) == AwaitsRoom(s.pcs[i])
    ensures PlaceInv(PassLock(s.(pcs := s.pcs[i := v])))
  {
    var t := s.(pcs := s.pcs[i := v]);
    TracksKeep(s.lock.queue, s.pcs, InLock, i, v);
    TracksKeep(CvQueue(s.notEmpty), s.pcs, AwaitsItem, i, v);
    TracksKeep(CvQueue(s.notFull), s.pcs, AwaitsRoom, i, v);
    if t.lock.queue != [] {
      var j := t.lock.queue[0];
      assert j in t.lock.queue;
      var w := Granted(t.pcs[j]);
      TracksPop(t.lock.queue, t.pcs, InLock, w);
      TracksKeep(CvQueue(s.notEmpty), t.pcs, AwaitsItem, j, w);
      TracksKeep(CvQueue(s.notFull), t.pcs, AwaitsRoom, j, w);
    }
  }

  lemma WakeTakerPlaces<T>(s: State<T>, items: seq<Id>, rooms: seq<Id>)
    requires ListInv(s, items, rooms) && items != []
    ensures ListInv(Wake(s, items[0]), items[1..], rooms)
  {
    var x := items[0];
    assert x in items;
    var v := Wake(s, x).pcs[x];
    TracksPop(items, s.pcs, AwaitsItem, v);
    TracksKeep(rooms, s.pcs, AwaitsRoom, x, v);
    if s.lock.owner.None? {
      TracksKeep(s.lock.queue, s.pcs, InLock, x, v);
    } else {
      TracksPush(s.lock.queue, s.pcs, InLock, x, v);
    }
  }

  lemma WakePutterPlaces<T>(s: State<T>, items: seq<Id>, rooms: seq<Id>)
    requires ListInv(s, items, rooms) && rooms != []
    ensures ListInv(Wake(s, rooms[0]), items, rooms[1..])
  {
    var x := rooms[0];
    assert x in rooms;
    var v := Wake(s, x).pcs[x];
    TracksPop(rooms, s.pcs, AwaitsRoom, v);
    TracksKeep(items, s.pcs, AwaitsItem, x, v);
    if s.lock.owner.None? {
      TracksKeep(s.lock.queue, s.pcs, InLock, x, v);
    } else {
      TracksPush(s.lock.queue, s.pcs, InLock, x, v);
    }
  }

  lemma BeginPlaces<T>(s: State<T>, i: Id, op: Op<T>)
    requires PlaceInv(s) && Enabled(s, BeginStep(i, op))
    ensures PlaceInv(Apply(s, BeginStep(i, op)))
  {
    var v := Apply(s, BeginStep(i, op)).pcs[i];
    TracksKeep(CvQueue(s.notEmpty), s.pcs, AwaitsItem, i, v);
    TracksKeep(CvQueue(s.notFull), s.pcs, AwaitsRoom, i, v);
    if s.lock.owner.None? {
      TracksKeep(s.lock.queue, s.pcs, InLock, i, v);
    } else {
      TracksPush(s.lock.queue, s.pcs, InLock, i, v);
    }
  }

  lemma BodyPlaces<T>(s: State<T>, i: Id)
    requires PlaceInv(s) && Enabled(s, BodyStep(i))
    ensures PlaceInv(Apply(s, BodyStep(i)))
  {
    var v := Apply(s, BodyStep(i)).pcs[i];
    TracksKeep(s.lock.queue, s.pcs, InLock, i, v);
    if v.Leaving? {
      TracksKeep(CvQueue(s.notEmpty), s.pcs, AwaitsItem, i, v);
      TracksKeep(CvQueue(s.notFull), s.pcs, AwaitsRoom, i, v);
    } else if v.op.Put? {
      ParkIsLast(s.notFull, i);
      TracksKeep(CvQueue(s.notEmpty), s.pcs, AwaitsItem, i, v);
      TracksPush(CvQueue(s.notFull), s.pcs, AwaitsRoom, i, v);
    } else {
      ParkIsLast(s.notEmpty, i);
      TracksPush(CvQueue(s.notEmpty), s.pcs, AwaitsItem, i, v);
      TracksKeep(CvQueue(s.notFull), s.pcs, AwaitsRoom, i, v);
    }
  }

  lemma ThrowPlaces<T>(s: State<T>, i: Id)
    requires PlaceInv(s) && Enabled(s, ThrowStep(i))
    ensures PlaceInv(Apply(s, ThrowStep(i)))
  {
    var v := Apply(s, ThrowStep(i)).pcs[i];
    TracksKeep(s.lock.queue, s.pcs, InLock, i, v);
    TracksKeep(CvQueue(s.notEmpty), s.pcs, AwaitsItem, i, v);
    TracksKeep(CvQueue(s.notFull), s.pcs, AwaitsRoom, i, v);
  }

  lemma IdlePlaces<T>(s: State<T>, i: Id)
    requires PlaceInv(s) && i < |s.pcs| && s.pcs[i].Notifying?
    ensures PlaceInv(s.(pcs := s.pcs[i := Idle]))
  {
    TracksKeep(s.lock.queue, s.pcs, InLock, i, Idle);
    TracksKeep(CvQueue(s.notEmpty), s.pcs, AwaitsItem, i, Idle);
    TracksKeep(CvQueue(s.notFull), s.pcs, AwaitsRoom, i, Idle);
  }

  lemma NotifyPlaces<T>(s: State<T>, op: Op<T>)
    requires PlaceInv(s)
    ensures PlaceInv(Notify(s, op))
    ensures Notify(s, op).ring == s.ring && Notify(s, op).inserted == s.inserted && Notify(s, op).removed == s.removed
  {
    if op.Put? {
      TakeOneIsFirst(s.notEmpty);
      if CvQueue(s.notEmpty) != [] {
        WakeTakerPlaces(s.(notEmpty := TakeOne(s.notEmpty).0), CvQueue(s.notEmpty), CvQueue(s.notFull));
      }
    } else {
      TakeOneIsFirst(s.notFull);
      if CvQueue(s.notFull) != [] {
        WakePutterPlaces(s.(notFull := TakeOne(s.notFull).0), CvQueue(s.notEmpty), CvQueue(s.notFull));
      }
    }
  }

  lemma StepPlaces<T>(s: State<T>, step: Step<T>)
    requires PlaceInv(s) && Enabled(s, step)
    ensures PlaceInv(Apply(s, step))
  {
    match step
    case BeginStep(i, op) => BeginPlaces(s, i, op);
    case BodyStep(i) => BodyPlaces(s, i);
    case ThrowStep(i) => ThrowPlaces(s, i);
    case SuspendStep(i) =>
      PassLockPlaces(s, i, if s.pcs[i].woken then Woken(s.pcs[i].op) else Asleep(s.pcs[i].op));
    case UnlockStep(i) => PassLockPlaces(s, i, Notifying(s.pcs[i].op));
    case NotifyStep(i) =>
      IdlePlaces(s, i);
      NotifyPlaces(s.(pcs := s.pcs[i := Idle]), s.pcs[i].op);
  }

  // ---- the items are kept ----

  lemma Regroup<T>(removed: seq<T>, held: seq<T>, item: T)
    ensures (removed + held) + [item] == removed + (held + [item])
    ensures held != [] ==> (removed + [held[0]]) + held[1..] == removed + held
  {
  }

  lemma BodyItems<T>(s: State<T>, i: Id)
    requires ItemInv(s) && Enabled(s, BodyStep(i))
    ensures ItemInv(Apply(s, BodyStep(i)))
    ensures |Apply(s, BodyStep(i)).ring.slots| == |s.ring.slots|
  {
    var op, held := s.pcs[i].op, Contents(s.ring);
    if op.Put? && s.ring.size < |s.ring.slots| {
      PushAppends(s.ring, op.item);
      Regroup(s.removed, held, op.item);
    } else if !op.Put? && s.ring.size > 0 {
      PopRemovesFirst(s.ring);
      Regroup(s.removed, held, held[0]);
    }
  }

  lemma StepItems<T>(s: State<T>, step: Step<T>)
    requires PlaceInv(s) && ItemInv(s) && Enabled(s, step)
    ensures ItemInv(Apply(s, step)) && |Apply(s, step).ring.slots| == |s.ring.slots|
  {
    match step
    case BodyStep(i) => BodyItems(s, i);
    case NotifyStep(i) =>
      IdlePlaces(s, i);
      NotifyPlaces(s.(pcs := s.pcs[i := Idle]), s.pcs[i].op);
    case _ =>
  }

  // ---- the bound is kept ----

  /** The contribution of one program counter to the counts of the bound. */
  function Weight(b: bool): nat { if b then 1 else 0 }

  lemma CountsUpdate<T>(pcs: seq<Pc<T>>, i: Id, v: Pc<T>)
    requires i < |pcs|
    ensures var u := pcs[i := v];
            && Count(u, NotifiedTaker) + Weight(NotifiedTaker(pcs[i])) == Count(pcs, NotifiedTaker) + Weight(NotifiedTaker(v))
            && Count(u, NotifiedPutter) + Weight(NotifiedPutter(pcs[i])) == Count(pcs, NotifiedPutter) + Weight(NotifiedPutter(v))
            && Count(u, AfterPut) + Weight(AfterPut(pcs[i])) == Count(pcs, AfterPut) + Weight(AfterPut(v))
            && Count(u, AfterTake) + Weight(AfterTake(pcs[i])) == Count(pcs, AfterTake) + Weight(AfterTake(v))
  {
    CountUpdate(pcs, i, v, NotifiedTaker);
    CountUpdate(pcs, i, v, NotifiedPutter);
    CountUpdate(pcs, i, v, AfterPut);
    CountUpdate(pcs, i, v, AfterTake);
  }

  ghost predicate SameCounts<T>(a: seq<Pc<T>>, b: seq<Pc<T>>) {
    && Count(a, NotifiedTaker) == Count(b, NotifiedTaker) && Count(a, AfterPut) == Count(b, AfterPut)
    && Count(a, NotifiedPutter) == Count(b, NotifiedPutter) && Count(a, AfterTake) == Count(b, AfterTake)
  }

  /** Handing the mutex over changes none of the counts. */
  lemma PassLockCounts<T>(s: State<T>)
    ensures SameCounts(PassLock(s).pcs, s.pcs)
  {
    var l := Unlock<Id>(s.lock);
    if l.owner.Some? && l.owner.value < |s.pcs| {
      CountsUpdate(s.pcs, l.owner.value, Granted(s.pcs[l.owner.value]));
    }
  }

  /** Going to sleep: the ring is empty, or full, and stays so. */
  lemma ParkBound<T>(s: State<T>, i: Id)
    requires Inv(s) && Enabled(s, BodyStep(i)) && Apply(s, BodyStep(i)).pcs[i].Parking?
    ensures BoundInv(Apply(s, BodyStep(i)))
  {
    CountsUpdate(s.pcs, i, Parking(s.pcs[i].op, false));
  }

  /** Changing the ring: the notification now owed makes up for it. */
  lemma MoveBound<T>(s: State<T>, i: Id)
    requires Inv(s) && Enabled(s, BodyStep(i)) && Apply(s, BodyStep(i)).pcs[i].Leaving?
    ensures BoundInv(Apply(s, BodyStep(i)))
  {
    CountsUpdate(s.pcs, i, Leaving(s.pcs[i].op));
  }

  /** A notification either finds nobody asleep or turns the announcement into a notified waiter. */
  lemma NotifyBound<T>(s: State<T>, i: Id)
    requires Inv(s) && Enabled(s, NotifyStep(i))
    ensures BoundInv(Apply(s, NotifyStep(i)))
  {
    var u := s.(pcs := s.pcs[i := Idle]);
    CountsUpdate(s.pcs, i, Idle);
    IdlePlaces(s, i);
    if s.pcs[i].op.Put? {
      TakeOneIsFirst(s.notEmpty);
      if CvQueue(s.notEmpty) != [] {
        assert CvQueue(u.notEmpty)[0] in CvQueue(u.notEmpty);
        WakeCounts(u.(notEmpty := TakeOne(s.notEmpty).0), CvQueue(s.notEmpty)[0]);
      }
    } else {
      TakeOneIsFirst(s.notFull);
      if CvQueue(s.notFull) != [] {
        assert CvQueue(u.notFull)[0] in CvQueue(u.notFull);
        WakeCounts(u.(notFull := TakeOne(s.notFull).0), CvQueue(s.notFull)[0]);
      }
    }
  }

  lemma WakeCounts<T>(s: State<T>, x: Id)
    requires x < |s.pcs| && Sleeps(s.pcs[x])
    ensures var t := Wake(s, x).pcs;
            && Count(t, NotifiedTaker) == Count(s.pcs, NotifiedTaker) + Weight(!s.pcs[x].op.Put?)
            && Count(t, NotifiedPutter) == Count(s.pcs, NotifiedPutter) + Weight(s.pcs[x].op.Put?)
            && Count(t, AfterPut) == Count(s.pcs, AfterPut) && Count(t, AfterTake) == Count(s.pcs, AfterTake)
  {
    CountsUpdate(s.pcs, x, Wake(s, x).pcs[x]);
  }

  /** Giving the mutex up, to a state `v` that the counts do not tell apart. */
  lemma HandOverBound<T>(s: State<T>, i: Id, v: Pc<T>)
    requires BoundInv(s) && i < |s.pcs|
    requires Notified(v) == Notified(s.pcs[i]) && AfterPut(v) == AfterPut(s.pcs[i]) && AfterTake(v) == AfterTake(s.pcs[i])
    requires Notified(v) ==> v.op == s.pcs[i].op
    ensures BoundInv(PassLock(s.(pcs := s.pcs[i := v])))
  {
    CountsUpdate(s.pcs, i, v);
    PassLockCounts(s.(pcs := s.pcs[i := v]));
  }

  lemma StepBound<T>(s: State<T>, step: Step<T>)
    requires Inv(s) && Enabled(s, step)
    ensures BoundInv(Apply(s, step))
  {
    match step
    case BeginStep(i, op) => CountsUpdate(s.pcs, i, Apply(s, step).pcs[i]);
    case BodyStep(i) =>
      if Apply(s, step).pcs[i].Parking? {
        ParkBound(s, i);
      } else {
        MoveBound(s, i);
      }
    case ThrowStep(i) => CountsUpdate(s.pcs, i, Apply(s, step).pcs[i]);
    case SuspendStep(i) =>
      HandOverBound(s, i, if s.pcs[i].woken then Woken(s.pcs[i].op) else Asleep(s.pcs[i].op));
    case UnlockStep(i) => HandOverBound(s, i, Notifying(s.pcs[i].op));
    case NotifyStep(i) => NotifyBound(s, i);
  }

  lemma StepKeeps<T>(s: State<T>, step: Step<T>)
    requires Inv(s) && Enabled(s, step)
    ensures Inv(Apply(s, step)) && |Apply(s, step).ring.slots| == |s.ring.slots|
  {
    StepPlaces(s, step);
    StepItems(s, step);
    StepBound(s, step);
  }

  // ---- whole runs ----

  predicate Runs<T>(s: State<T>, steps: seq<Step<T>>)
    decreases |steps|, 0
  {
    steps == [] ||
    var front := steps[..|steps| - 1];
    Runs(s, front) && Enabled(Exec(s, front), steps[|steps| - 1])
  }

  function Exec<T>(s: State<T>, steps: seq<Step<T>>): State<T>
    requires Runs(s, steps)
    decreases |steps|, 1
  {
    if steps == [] then s
    else Apply(Exec(s, steps[..|steps| - 1]), steps[|steps| - 1])
  }

  lemma {:induction false} RunKeeps<T>(s: State<T>, steps: seq<Step<T>>)
    requires Inv(s) && Runs(s, steps)
    decreases |steps|
    ensures Inv(Exec(s, steps)) && |Exec(s, steps).ring.slots| == |s.ring.slots|
  {
    if steps != [] {
      var front := steps[..|steps| - 1];
      RunKeeps(s, front);
      StepKeeps(Exec(s, front), steps[|steps| - 1]);
    }
  }

  /** First in, first out: what has been removed is a prefix of what was
      inserted, and the ring holds exactly the rest, for any capacity of at least one. */
  lemma FirstInFirstOut<T>(capacity: nat, n: nat, steps: seq<Step<T>>)
    requires capacity > 0 && Runs(Init<T>(capacity, n), steps)
    ensures var s := Exec(Init<T>(capacity, n), steps);
            && RingOk(s.ring) && s.ring.size <= capacity
            && s.removed <= s.inserted
            && Contents(s.ring) == s.inserted[|s.removed|..]
  {
    InitInv<T>(capacity, n);
    RunKeeps(Init<T>(capacity, n), steps);
  }

  /** The bound behind every other guarantee, in each state of each run: while a
      taker sleeps there are at most as many items as notified takers that have not
      looked again and putters that have not notified yet; and the same of free
      slots while a putter sleeps. */
  lemma SleepersAccountedFor<T>(capacity: nat, n: nat, steps: seq<Step<T>>, i: Id)
    requires capacity > 0 && Runs(Init<T>(capacity, n), steps)
    requires i < |Exec(Init<T>(capacity, n), steps).pcs|
    ensures var s := Exec(Init<T>(capacity, n), steps);
            && (AwaitsItem(s.pcs[i]) ==> s.ring.size <= Count(s.pcs, NotifiedTaker) + Count(s.pcs, AfterPut))
            && (AwaitsRoom(s.pcs[i]) ==> capacity - s.ring.size <= Count(s.pcs, NotifiedPutter) + Count(s.pcs, AfterTake))
  {
    InitInv<T>(capacity, n);
    RunKeeps(Init<T>(capacity, n), steps);
    var s := Exec(Init<T>(capacity, n), steps);
    assert AwaitsItem(s.pcs[i]) ==> i in CvQueue(s.notEmpty);
    assert AwaitsRoom(s.pcs[i]) ==> i in CvQueue(s.notFull);
  }

  /** Nothing is under way: every coroutine is idle or asleep. */
  ghost predicate Quiescent<T>(s: State<T>) {
    forall i :: 0 <= i < |s.pcs| ==> s.pcs[i].Idle? || s.pcs[i].Asleep?
  }

  /** No wake-up is lost: when nothing is under way, takers sleep only if the
      ring is empty and putters only if it is full, so never both. */
  lemma QuiescentIsLegitimate<T>(capacity: nat, n: nat, steps: seq<Step<T>>)
    requires capacity > 0 && Runs(Init<T>(capacity, n), steps)
    requires Quiescent(Exec(Init<T>(capacity, n), steps))
    ensures var s := Exec(Init<T>(capacity, n), steps);
            && (forall i :: 0 <= i < |s.pcs| && AwaitsItem(s.pcs[i]) ==> s.ring.size == 0)
            && (forall i :: 0 <= i < |s.pcs| && AwaitsRoom(s.pcs[i]) ==> s.ring.size == capacity)
            && !(exists i, j :: 0 <= i < |s.pcs| && 0 <= j < |s.pcs| && AwaitsItem(s.pcs[i]) && AwaitsRoom(s.pcs[j]))
  {
    var s := Exec(Init<T>(capacity, n), steps);
    InitInv<T>(capacity, n);
    RunKeeps(Init<T>(capacity, n), steps);
    QuietCounts(s);
    forall i: nat | i < |s.pcs|
      ensures AwaitsItem(s.pcs[i]) ==> s.ring.size == 0
      ensures AwaitsRoom(s.pcs[i]) ==> s.ring.size == capacity
    {
      SleepersAccountedFor(capacity, n, steps, i);
    }
  }

  lemma QuietCounts<T>(s: State<T>)
    requires Quiescent(s)
    ensures Count(s.pcs, NotifiedTaker) == Count(s.pcs, NotifiedPutter) == 0
    ensures Count(s.pcs, AfterPut) == Count(s.pcs, AfterTake) == 0
  {
    CountNone(s.pcs, NotifiedTaker);
    CountNone(s.pcs, NotifiedPutter);
    CountNone(s.pcs, AfterPut);
    CountNone(s.pcs, AfterTake);
  }

  /** No deadlock while no element has thrown in a critical section: as long as
      anything is under way, some coroutine can take its next step without a new
      operation being begun. */
  lemma SomebodyCanMove<T>(s: State<T>, i: Id) returns (step: Step<T>)
    requires Inv(s) && i < |s.pcs| && !s.pcs[i].Idle? && !s.pcs[i].Asleep?
    requires forall k :: 0 <= k < |s.pcs| ==> !s.pcs[k].Thrown?
    ensures Enabled(s, step) && !step.BeginStep?
  {
    if s.pcs[i].Notifying? {
      if s.ring.size > 0 {
        PopRemovesFirst(s.ring);
      }
      step := NotifyStep(i);
    } else {
      if !Owns(s.pcs[i]) {
        assert i in s.lock.queue;
      }
      OwnerMovesIff(s);
      step :| Enabled(s, step) && step.i == s.lock.owner.value && !step.BeginStep?;
    }
  }

  /** The owner of the mutex can go on if and only if no exception has ended it. */
  lemma OwnerMovesIff<T>(s: State<T>)
    requires Inv(s) && s.lock.owner.Some?
    ensures (exists step :: Enabled(s, step) && step.i == s.lock.owner.value && !step.BeginStep?)
            <==> !s.pcs[s.lock.owner.value].Thrown?
  {
    var j := s.lock.owner.value;
    if s.ring.size > 0 {
      PopRemovesFirst(s.ring);
    }
    match s.pcs[j]
    case Entered(_, _) => assert Enabled(s, BodyStep(j));
    case Parking(_, _) => assert Enabled(s, SuspendStep(j));
    case Leaving(_) => assert Enabled(s, UnlockStep(j));
    case _ =>
  }

  /** From `s` to `u` coroutine `t`, which had thrown, has kept the mutex. */
  ghost predicate Held<T>(s: State<T>, u: State<T>, t: Id) {
    && |u.pcs| == |s.pcs| && t < |s.pcs| && u.pcs[t] == s.pcs[t] && u.ring == s.ring
    && u.lock.owner == s.lock.owner == Some(t) && s.lock.queue <= u.lock.queue
  }

  lemma WakeHeld<T>(s: State<T>, x: Id, t: Id)
    requires t < |s.pcs| && s.pcs[t].Thrown? && s.lock.owner == Some(t)
    ensures Held(s, Wake(s, x), t)
  {
  }

  lemma NotifyHeld<T>(s: State<T>, i: Id, t: Id)
    requires Enabled(s, NotifyStep(i)) && t < |s.pcs| && s.pcs[t].Thrown? && s.lock.owner == Some(t)
    ensures Held(s, Apply(s, NotifyStep(i)), t)
  {
    var u := s.(pcs := s.pcs[i := Idle]);
    var items, rooms := TakeOne(s.notEmpty), TakeOne(s.notFull);
    if s.pcs[i].op.Put? && items.1.Some? {
      WakeHeld(u.(notEmpty := items.0), items.1.value, t);
    } else if !s.pcs[i].op.Put? && rooms.1.Some? {
      WakeHeld(u.(notFull := rooms.0), rooms.1.value, t);
    }
  }

  lemma ThrownStays<T>(s: State<T>, step: Step<T>, t: Id)
    requires Inv(s) && Enabled(s, step) && t < |s.pcs| && s.pcs[t].Thrown?
    ensures Held(s, Apply(s, step), t)
  {
    assert Owns(s.pcs[t]) && s.lock.owner == Some(t);
    match step
    case BeginStep(i, op) => assert i != t;
    case NotifyStep(i) => NotifyHeld(s, i, t);
    case _ =>
      OwnersMove(s, step);
      assert false;
  }

  /** Steps inside a critical section are those of the owner, and of one that has not thrown. */
  lemma OwnersMove<T>(s: State<T>, step: Step<T>)
    requires Inv(s) && Enabled(s, step) && !step.BeginStep? && !step.NotifyStep?
    ensures s.lock.owner == Some(step.i) && !s.pcs[step.i].Thrown?
  {
    assert Owns(s.pcs[step.i]);
  }

  /** Once one has thrown, its coroutine keeps the mutex for ever: nothing enters or
      leaves the ring again, and whoever waits for the mutex waits on. */
  lemma {:induction false} ThrownHoldsForever<T>(s: State<T>, steps: seq<Step<T>>, t: Id)
    requires Inv(s) && Runs(s, steps) && t < |s.pcs| && s.pcs[t].Thrown?
    decreases |steps|
    ensures Held(s, Exec(s, steps), t)
  {
    assert Owns(s.pcs[t]) && s.lock.owner == Some(t);
    if steps != [] {
      var front := steps[..|steps| - 1];
      RunKeeps(s, front);
      ThrownHoldsForever(s, front, t);
      ThrownStays(Exec(s, front), steps[|steps| - 1], t);
    }
  }

  lemma RunSnoc<T>(s: State<T>, steps: seq<Step<T>>, last: Step<T>)
    requires Runs(s, steps) && Enabled(Exec(s, steps), last)
    ensures Runs(s, steps + [last]) && Exec(s, steps + [last]) == Apply(Exec(s, steps), last)
  {
    assert (steps + [last])[..|steps|] == steps;
  }

  /** The run that sticks, for every capacity: an item whose construction throws,
      and a second coroutine that then waits for the mutex. */
  lemma ThrowSticks<T>(capacity: nat, n: nat, item: T) returns (steps: seq<Step<T>>)
    requires capacity > 0 && n >= 2
    ensures Runs(Init<T>(capacity, n), steps)
    ensures var s := Exec(Init<T>(capacity, n), steps);
            && |s.pcs| == n && s.pcs[0].Thrown? && s.pcs[1].Locking?
            && forall step :: Enabled(s, step) ==> step.BeginStep?
  {
    var s := Init<T>(capacity, n);
    var op := Put(item);
    steps := [];
    RunSnoc(s, steps, BeginStep(0, op));
    steps := steps + [BeginStep(0, op)];
    RunSnoc(s, steps, ThrowStep(0));
    steps := steps + [ThrowStep(0)];
    RunSnoc(s, steps, BeginStep(1, op));
    steps := steps + [BeginStep(1, op)];
    assert Exec(s, steps).pcs == seq(n, _ => Idle)[0 := Thrown(op, false)][1 := Locking(op)];
  }
}
