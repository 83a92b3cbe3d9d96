/** 32-bit cursors: masking, and the wrapped distance between two of them. */
module CursorWords {
  import opened Common

  /** `cur_t(-1)`, the answer of a cursor that cannot move. */
  const NONE: nat := WORD - 1

  function BitAnd(a: nat, b: nat): nat {
    if a == 0 || b == 0 then 0 else 2 * BitAnd(a / 2, b / 2) + (a % 2) * (b % 2)
  }

  function Pow2(k: nat): (p: nat)
    ensures p >= 1
  {
    if k == 0 then 1 else 2 * Pow2(k - 1)
  }

  /** What the static assertion on the capacity of a ring admits, and not zero. */
  predicate Capacity(c: nat) { 0 < c < WORD && BitAnd(c, c - 1) == 0 }

  lemma {:induction false} AndSame(a: nat)
    ensures BitAnd(a, a) == a
  {
    if a != 0 {
      AndSame(a / 2);
    }
  }

  lemma AndOdd(a: nat)
    ensures BitAnd(2 * a + 1, 2 * a) == 2 * a
  {
    var x, y := 2 * a + 1, 2 * a;
    assert x / 2 == a && y / 2 == a && y % 2 == 0;
    if a > 0 {
      AndSame(a);
      assert BitAnd(x, y) == 2 * BitAnd(x / 2, y / 2) + (x % 2) * (y % 2);
    }
  }

  lemma {:induction false} Exponent(c: nat) returns (k: nat)
    requires c > 0 && BitAnd(c, c - 1) == 0
    ensures c == Pow2(k)
  {
    if c == 1 {
      k := 0;
    } else {
      AndOdd(c / 2);
      assert c == 2 * (c / 2);
      assert (c - 1) / 2 == c / 2 - 1;
      k := Exponent(c / 2);
      k := k + 1;
    }
  }

  lemma {:induction false} AndLowBits(x: nat, k: nat)
    ensures BitAnd(x, Pow2(k) - 1) == x % Pow2(k)
  {
    if x == 0 || k == 0 {
    } else {
      var p := Pow2(k - 1);
      AndLowBits(x / 2, k - 1);
      assert (2 * p - 1) / 2 == p - 1 && (2 * p - 1) % 2 == 1;
      HalfRemainder(x, p);
    }
  }

  lemma HalfRemainder(x: nat, p: nat)
    requires p > 0
    ensures x % (2 * p) == 2 * ((x / 2) % p) + x % 2
  {
    var q, r := (x / 2) / p, (x / 2) % p;
    assert x == (2 * p) * q + (2 * r + x % 2);
    RemainderIs(x, 2 * p, q, 2 * r + x % 2);
  }

  lemma RemainderIs(x: int, d: int, q: int, r: int)
    requires d > 0 && x == d * q + r && 0 <= r < d
    ensures x % d == r
  {
    var e := x / d - q;
    assert d * e == r - x % d;
    assert e >= 1 ==> d * e >= d;
    assert e <= -1 ==> d * e <= -d;
  }

  lemma RemaindersDiffer(x: int, y: int, d: int)
    requires d > 0 && x < y < x + d
    ensures x % d != y % d
  {
    var q, r, k := x / d, x % d, y - x;
    assert x == d * q + r;
    if r + k < d {
      RemainderIs(y, d, q, r + k);
    } else {
      assert y == d * (q + 1) + (r + k - d);
      RemainderIs(y, d, q + 1, r + k - d);
    }
  }

  /** The source masks with `capacity - 1`: that is the remainder by the capacity. */
  lemma MaskIsRemainder(x: nat, c: nat)
    requires Capacity(c)
    ensures BitAnd(x, c - 1) == x % c
  {
    var k := Exponent(c);
    AndLowBits(x, k);
  }

  lemma {:induction false} Pow2Divides(k: nat, n: nat)
    requires k <= n
    ensures Pow2(n) % Pow2(k) == 0
    decreases n - k
  {
    if k < n {
      var p := Pow2(k);
      Pow2Divides(k + 1, n);
      assert Pow2(n) == (2 * p) * (Pow2(n) / (2 * p));
      assert Pow2(n) == p * (2 * (Pow2(n) / (2 * p))) + 0;
      RemainderIs(Pow2(n), p, 2 * (Pow2(n) / (2 * p)), 0);
    } else {
      RemainderIs(Pow2(n), Pow2(k), 1, 0);
    }
  }

  lemma {:induction false} Pow2Grows(k: nat, n: nat)
    requires k <= n
    ensures Pow2(k) <= Pow2(n)
  {
    if k < n {
      Pow2Grows(k, n - 1);
    }
  }

  lemma CapacityDivides(c: nat)
    requires Capacity(c)
    ensures c <= WORD / 2 && WORD % c == 0
  {
    var k := Exponent(c);
    assert Pow2(8) == 256;
    assert Pow2(16) == 65536;
    assert Pow2(24) == 0x100_0000;
    assert Pow2(32) == WORD;
    if k >= 32 {
      Pow2Grows(32, k);
      assert false;
    }
    Pow2Divides(k, 32);
    Pow2Grows(k, 31);
  }

  /** Wrapping a cursor does not change the slot it stands for. */
  lemma WrapKeepsSlot(x: nat, c: nat)
    requires Capacity(c)
    ensures (x % WORD) % c == x % c
  {
    CapacityDivides(c);
    var m, q, r := WORD / c, x / WORD, (x % WORD) / c;
    assert WORD == c * m;
    assert x == (c * m) * q + (c * r + (x % WORD) % c);
    assert (c * m) * q == c * (m * q);
    assert x == c * (m * q + r) + (x % WORD) % c;
    RemainderIs(x, c, m * q + r, (x % WORD) % c);
  }
}

/** The single-producer single-consumer ring: cursors that wrap over a fixed slot
    array, against the unbounded FIFO queue with a length limit. */
module SpscRing {
  import opened Common
  import opened CursorWords

  datatype Cursor = Cursor(head: nat, tail: nat)

  function Size(c: Cursor): nat { (c.tail - c.head) % WORD }

  function PopCursor(cap: nat, c: Cursor): (Cursor, nat)
    requires cap > 0
  {
    if c.head == c.tail then (c, NONE)
    else (c.(head := (c.head + 1) % WORD), BitAnd(c.head, cap - 1))
  }

  function PushCursor(cap: nat, c: Cursor): (Cursor, nat)
    requires cap > 0
  {
    if Size(c) >= cap then (c, NONE)
    else (c.(tail := (c.tail + 1) % WORD), BitAnd(c.tail, cap - 1))
  }

  predicate CursorOk(cap: nat, c: Cursor) {
    Capacity(cap) && c.head < WORD && c.tail < WORD && Size(c) <= cap
  }

  /** The slot of the `i`-th element still in the ring. */
  function Slot(cap: nat, c: Cursor, i: nat): nat
    requires cap > 0
  {
    BitAnd((c.head + i) % WORD, cap - 1)
  }

  lemma SlotIs(cap: nat, c: Cursor, i: nat)
    requires Capacity(cap)
    ensures Slot(cap, c, i) == (c.head + i) % cap < cap < NONE
  {
    MaskIsRemainder((c.head + i) % WORD, cap);
    WrapKeepsSlot(c.head + i, cap);
    CapacityDivides(cap);
  }

  /** Elements still in the ring never share a slot, wherever the cursors wrapped. */
  lemma SlotsDistinct(cap: nat, c: Cursor, i: nat, j: nat)
    requires CursorOk(cap, c) && i < j < Size(c) + (if Size(c) < cap then 1 else 0)
    ensures Slot(cap, c, i) != Slot(cap, c, j)
  {
    SlotIs(cap, c, i);
    SlotIs(cap, c, j);
    RemaindersDiffer(c.head + i, c.head + j, cap);
  }

  /** The wrapped difference, by cases. */
  lemma WrapSub(h: nat, t: nat)
    requires h < WORD && t < WORD
    ensures (t - h) % WORD == if h <= t then t - h else t - h + WORD
  {
  }

  lemma WrapNext(x: nat)
    requires x < WORD
    ensures (x + 1) % WORD == if x + 1 == WORD then 0 else x + 1
  {
  }

  lemma HeadMoves(c: Cursor)
    requires c.head < WORD && c.tail < WORD && c.head != c.tail
    ensures Size(c.(head := (c.head + 1) % WORD)) == Size(c) - 1
  {
    WrapNext(c.head);
    WrapSub(c.head, c.tail);
    WrapSub((c.head + 1) % WORD, c.tail);
  }

  lemma TailMoves(c: Cursor)
    requires c.head < WORD && c.tail < WORD && Size(c) < WORD - 1
    ensures Size(c.(tail := (c.tail + 1) % WORD)) == Size(c) + 1
  {
    WrapNext(c.tail);
    WrapSub(c.head, c.tail);
    WrapSub(c.head, (c.tail + 1) % WORD);
  }

  /** Where the two cursors stand: at the oldest slot and behind the newest. */
  lemma CursorSlots(cap: nat, c: Cursor)
    requires cap > 0 && c.head < WORD && c.tail < WORD
    ensures Slot(cap, c, 0) == BitAnd(c.head, cap - 1)
    ensures Slot(cap, c, Size(c)) == BitAnd(c.tail, cap - 1)
    ensures Size(c) == 0 <==> c.head == c.tail
  {
    WrapSub(c.head, c.tail);
    assert (c.head + 0) % WORD == c.head;
    assert (c.head + Size(c)) % WORD == c.tail;
  }

  /** An empty cursor refuses to pop, and only then; otherwise the oldest slot is
      given out and the wrapped distance shrinks by one. */
  lemma CursorPops(cap: nat, c: Cursor)
    requires CursorOk(cap, c)
    ensures var (d, slot) := PopCursor(cap, c);
            && CursorOk(cap, d)
            && (slot == NONE <==> Size(c) == 0)
            && (slot == NONE ==> d == c)
            && (slot != NONE ==> slot == Slot(cap, c, 0) && Size(d) == Size(c) - 1)
  {
    SlotIs(cap, c, 0);
    CursorSlots(cap, c);
    if c.head != c.tail {
      HeadMoves(c);
      WrapNext(c.head);
    }
  }

  /** A full cursor refuses to push, and only then. */
  lemma CursorPushes(cap: nat, c: Cursor)
    requires CursorOk(cap, c)
    ensures var (d, slot) := PushCursor(cap, c);
            && CursorOk(cap, d)
            && (slot == NONE <==> Size(c) == cap)
            && (slot == NONE ==> d == c)
            && (slot != NONE ==> slot == Slot(cap, c, Size(c)) && Size(d) == Size(c) + 1)
  {
    SlotIs(cap, c, Size(c));
    CursorSlots(cap, c);
    CapacityDivides(cap);
    if Size(c) < cap {
      TailMoves(c);
      WrapNext(c.tail);
    }
  }

  // ---- the ring ----

  datatype Ring<T> = Ring(cursor: Cursor, slots: seq<T>)

  predicate RingOk<T>(r: Ring<T>) { CursorOk(|r.slots|, r.cursor) }

  /** The elements in the ring, oldest first. */
  function Contents<T>(r: Ring<T>): (s: seq<T>)
    requires RingOk(r)
    ensures |s| == Size(r.cursor)
  {
    seq(Size(r.cursor), i requires 0 <= i => SlotIs(|r.slots|, r.cursor, i); r.slots[Slot(|r.slots|, r.cursor, i)])
  }

  function Push<T>(r: Ring<T>, x: T): (Ring<T>, bool)
    requires RingOk(r)
  {
    var (c, slot) := PushCursor(|r.slots|, r.cursor);
    CursorPushes(|r.slots|, r.cursor);
    SlotIs(|r.slots|, r.cursor, Size(r.cursor));
    if slot == NONE then (r, false) else (Ring(c, r.slots[slot := x]), true)
  }

  function Pop<T>(r: Ring<T>): (Ring<T>, Option<T>)
    requires RingOk(r)
  {
    var (c, slot) := PopCursor(|r.slots|, r.cursor);
    CursorPops(|r.slots|, r.cursor);
    SlotIs(|r.slots|, r.cursor, 0);
    if slot == NONE then (r, None) else (r.(cursor := c), Some(r.slots[slot]))
  }

  lemma PushRefines<T>(r: Ring<T>, x: T)
    requires RingOk(r)
    ensures var (t, ok) := Push(r, x);
            && RingOk(t) && |t.slots| == |r.slots|
            && (ok <==> |Contents(r)| < |r.slots|)
            && Contents(t) == if ok then Contents(r) + [x] else Contents(r)
  {
    var cap, c, n := |r.slots|, r.cursor, Size(r.cursor);
    CursorPushes(cap, c);
    SlotIs(cap, c, n);
    if Push(r, x).1 {
      PushAppends(r, x);
    }
  }

  lemma ContentsAt<T>(r: Ring<T>, i: nat)
    requires RingOk(r) && i < Size(r.cursor)
    ensures Slot(|r.slots|, r.cursor, i) < |r.slots| && Contents(r)[i] == r.slots[Slot(|r.slots|, r.cursor, i)]
  {
    SlotIs(|r.slots|, r.cursor, i);
  }

  /** What a successful push leaves in the slots: the new element, and the others where they were. */
  lemma PushedAt<T>(r: Ring<T>, x: T, i: nat)
    requires RingOk(r) && RingOk(Push(r, x).0) && Push(r, x).1 && i <= Size(r.cursor)
    ensures |Contents(Push(r, x).0)| == Size(r.cursor) + 1
    ensures Contents(Push(r, x).0)[i] == if i < Size(r.cursor) then Contents(r)[i] else x
  {
    var cap, c, n, t := |r.slots|, r.cursor, Size(r.cursor), Push(r, x).0;
    CursorPushes(cap, c);
    SlotIs(cap, c, n);
    assert t.slots == r.slots[Slot(cap, c, n) := x] && t.cursor.head == c.head;
    ContentsAt(t, i);
    if i < n {
      ContentsAt(r, i);
      SlotsDistinct(cap, c, i, n);
    }
  }

  lemma PushAppends<T>(r: Ring<T>, x: T)
    requires RingOk(r) && RingOk(Push(r, x).0) && Push(r, x).1
    ensures Contents(Push(r, x).0) == Contents(r) + [x]
  {
    var s, u := Contents(Push(r, x).0), Contents(r) + [x];
    PushedAt(r, x, 0);
    forall i | 0 <= i < |u|
      ensures s[i] == u[i]
    {
      PushedAt(r, x, i);
    }
    assert s == u;
  }

  lemma PopRefines<T>(r: Ring<T>)
    requires RingOk(r)
    ensures var (t, x) := Pop(r);
            && RingOk(t) && |t.slots| == |r.slots|
            && (Contents(r) == [] ==> x.None? && t == r)
            && (Contents(r) != [] ==> x == Some(Contents(r)[0]) && Contents(t) == Contents(r)[1..])
  {
    var cap, c := |r.slots|, r.cursor;
    CursorPops(cap, c);
    SlotIs(cap, c, 0);
    var (t, x) := Pop(r);
    if x.Some? {
      forall i | 0 <= i < Size(c) - 1
        ensures Contents(t)[i] == Contents(r)[i + 1]
      {
        SlotIs(cap, c, i + 1);
        NextSlot(cap, c, i);
      }
      assert Contents(t) == Contents(r)[1..];
    }
  }

  lemma NextSlot(cap: nat, c: Cursor, i: nat)
    requires Capacity(cap)
    ensures Slot(cap, c.(head := (c.head + 1) % WORD), i) == Slot(cap, c, i + 1)
  {
    assert ((c.head + 1) % WORD + i) % WORD == (c.head + (i + 1)) % WORD;
  }

  // ---- any number of operations ----

  datatype Op<T> = DoPush(x: T) | DoPop
  datatype Answer<T> = Pushed(ok: bool) | Popped(x: Option<T>)

  function RunRing<T>(r: Ring<T>, ops: seq<Op<T>>): seq<Answer<T>>
    requires RingOk(r)
    decreases |ops|
  {
    if ops == [] then []
    else match ops[0]
      case DoPush(x) => PushRefines(r, x); [Pushed(Push(r, x).1)] + RunRing(Push(r, x).0, ops[1..])
      case DoPop => PopRefines(r); [Popped(Pop(r).1)] + RunRing(Pop(r).0, ops[1..])
  }

  function RunQueue<T>(cap: nat, q: seq<T>, ops: seq<Op<T>>): seq<Answer<T>>
    decreases |ops|
  {
    if ops == [] then []
    else match ops[0]
      case DoPush(x) =>
        if |q| < cap then [Pushed(true)] + RunQueue(cap, q + [x], ops[1..]) else [Pushed(false)] + RunQueue(cap, q, ops[1..])
      case DoPop =>
        if q != [] then [Popped(Some(q[0]))] + RunQueue(cap, q[1..], ops[1..]) else [Popped(None)] + RunQueue(cap, q, ops[1..])
  }

  /** However often the cursors wrap, a ring answers every sequence of
      operations as the FIFO queue of its contents does. */
  lemma {:induction false} RingIsQueue<T>(r: Ring<T>, ops: seq<Op<T>>)
    requires RingOk(r)
    decreases |ops|
    ensures RunRing(r, ops) == RunQueue(|r.slots|, Contents(r), ops)
  {
    if ops != [] {
      match ops[0]
      case DoPush(x) =>
        PushRefines(r, x);
        RingIsQueue(Push(r, x).0, ops[1..]);
      case DoPop =>
        PopRefines(r);
        RingIsQueue(Pop(r).0, ops[1..]);
    }
  }
}
