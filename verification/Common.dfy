/** Small vocabulary shared by every model: optional values, reversal of a
    sequence and counting the positions of a sequence that satisfy a test. */
module Common {

  datatype Option<+T> = None | Some(value: T)

  /** The values of a 32-bit word. */
  const WORD: nat := 0x1_0000_0000

  function Min(a: nat, b: nat): nat { if a < b then a else b }

  /** The elements of `s` in the opposite order: what unlinking a head-inserted
      list node by node and relinking it produces. */
  function Reverse<T>(s: seq<T>): (r: seq<T>)
    ensures |r| == |s|
  {
    if s == [] then [] else Reverse(s[1..]) + [s[0]]
  }

  lemma ReversePush<T>(x: T, s: seq<T>)
    ensures Reverse([x] + s) == Reverse(s) + [x]
  {
    assert ([x] + s)[1..] == s;
  }

  lemma {:induction false} ReverseSnoc<T>(s: seq<T>, x: T)
    ensures Reverse(s + [x]) == [x] + Reverse(s)
  {
    if s == [] {
      assert s + [x] == [x];
    } else {
      ReverseSnoc(s[1..], x);
      assert (s + [x])[1..] == s[1..] + [x];
    }
  }

  lemma {:induction false} ReverseTwice<T>(s: seq<T>)
    ensures Reverse(Reverse(s)) == s
  {
    if s != [] {
      ReverseSnoc(Reverse(s[1..]), s[0]);
      ReverseTwice(s[1..]);
    }
  }

  lemma {:induction false} ReverseAt<T>(s: seq<T>, k: nat)
    requires k < |s|
    ensures Reverse(s)[k] == s[|s| - 1 - k]
  {
    if k < |s| - 1 {
      ReverseAt(s[1..], k);
    }
  }

  lemma {:induction false} ReverseMember<T>(s: seq<T>, x: T)
    ensures x in Reverse(s) <==> x in s
  {
    if s != [] {
      ReverseMember(s[1..], x);
      assert s == [s[0]] + s[1..];
    }
  }

  ghost predicate NoDup<T>(s: seq<T>) {
    forall i, j :: 0 <= i < j < |s| ==> s[i] != s[j]
  }

  lemma {:induction false} NoDupCounts<T>(s: seq<T>, x: T)
    requires NoDup(s)
    ensures multiset(s)[x] == if x in s then 1 else 0
  {
    if s != [] {
      NoDupCounts(s[1..], x);
      assert s == [s[0]] + s[1..];
      assert s[0] !in s[1..];
    }
  }

  /** The list `q` holds, each exactly once, the coroutines whose program counter satisfies `p`. */
  ghost predicate Tracks<P>(q: seq<nat>, pcs: seq<P>, p: P -> bool) {
    && NoDup(q)
    && forall i: nat :: i in q <==> i < |pcs| && p(pcs[i])
  }

  lemma TracksPush<P>(q: seq<nat>, pcs: seq<P>, p: P -> bool, i: nat, v: P)
    requires Tracks(q, pcs, p) && i < |pcs| && !p(pcs[i]) && p(v)
    ensures Tracks(q + [i], pcs[i := v], p)
  {
    assert i !in q;
    assert forall j: nat :: j in q + [i] <==> j in q || j == i;
  }

  lemma TracksPop<P>(q: seq<nat>, pcs: seq<P>, p: P -> bool, v: P)
    requires Tracks(q, pcs, p) && q != [] && !p(v)
    ensures q[0] in q && q[0] < |pcs| && p(pcs[q[0]])
    ensures Tracks(q[1..], pcs[q[0] := v], p)
  {
    assert q[0] in q;
    forall j: nat
      ensures j in q[1..] <==> j in q && j != q[0]
    {
      if j in q && j != q[0] {
        var k :| 0 <= k < |q| && q[k] == j;
        assert q[1..][k - 1] == j;
      }
    }
  }

  lemma TracksKeep<P>(q: seq<nat>, pcs: seq<P>, p: P -> bool, i: nat, v: P)
    requires Tracks(q, pcs, p) && i < |pcs| && p(pcs[i]) == p(v)
    ensures Tracks(q, pcs[i := v], p)
  {
  }

  /** The number of positions of `s` whose element satisfies `p`. */
  function Count<T>(s: seq<T>, p: T -> bool): nat {
    if s == [] then 0 else (if p(s[0]) then 1 else 0) + Count(s[1..], p)
  }

  lemma {:induction false} CountUpdate<T>(s: seq<T>, i: nat, v: T, p: T -> bool)
    requires i < |s|
    ensures Count(s[i := v], p) + (if p(s[i]) then 1 else 0) == Count(s, p) + (if p(v) then 1 else 0)
  {
    var t := s[i := v];
    if i == 0 {
      assert t[1..] == s[1..];
    } else {
      assert t[1..] == s[1..][i - 1 := v];
      CountUpdate(s[1..], i - 1, v, p);
    }
  }

  lemma {:induction false} CountAppend<T>(a: seq<T>, b: seq<T>, p: T -> bool)
    ensures Count(a + b, p) == Count(a, p) + Count(b, p)
  {
    if a == [] {
      assert a + b == b;
    } else {
      assert (a + b)[1..] == a[1..] + b;
      CountAppend(a[1..], b, p);
    }
  }

  lemma {:induction false} CountNone<T>(s: seq<T>, p: T -> bool)
    ensures Count(s, p) == 0 <==> forall i :: 0 <= i < |s| ==> !p(s[i])
  {
    if s != [] {
      CountNone(s[1..], p);
      assert forall i :: 0 < i < |s| ==> s[i] == s[1..][i - 1];
      assert forall i :: 0 <= i < |s[1..]| ==> s[1..][i] == s[i + 1];
    }
  }

  lemma {:induction false} CountBound<T>(s: seq<T>, p: T -> bool)
    ensures Count(s, p) <= |s|
  {
    if s != [] {
      CountBound(s[1..], p);
    }
  }
}
