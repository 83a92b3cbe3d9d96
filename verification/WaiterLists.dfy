/** Awaiter objects linked through `next`, as every list of the library keeps them. */
module WaiterLists {
  import opened Common

  /** `consumed` is the mark a semaphore awaiter carries; the other lists do not use it. */
  class Waiter {
    var next: Waiter?
    var consumed: bool

    constructor ()
      ensures next == null && !consumed
    {
      next, consumed := null, false;
    }
  }

  function At(s: seq<Waiter>, k: int): Waiter? {
    if 0 <= k < |s| then s[k] else null
  }

  /** `p` is the head of a null-terminated list that visits exactly the nodes `s`. */
  ghost predicate Linked(p: Waiter?, s: seq<Waiter>)
    reads s
  {
    && p == At(s, 0)
    && (forall k :: 0 <= k < |s| ==> s[k].next == At(s, k + 1))
    && NoDup(s)
  }

  lemma LinkedTail(p: Waiter, s: seq<Waiter>)
    requires Linked(p, s) && s != []
    ensures Linked(p.next, s[1..])
  {
    assert s[0].next == At(s, 1);
    forall k | 0 <= k < |s[1..]|
      ensures s[1..][k].next == At(s[1..], k + 1)
    {
      assert s[1..][k] == s[k + 1];
    }
  }

  lemma ReverseAll<T>(s: seq<T>)
    ensures forall k :: 0 <= k < |s| ==> Reverse(s)[k] == s[|s| - 1 - k]
    ensures NoDup(s) ==> NoDup(Reverse(s))
  {
    forall k | 0 <= k < |s|
      ensures Reverse(s)[k] == s[|s| - 1 - k]
    {
      ReverseAt(s, k);
    }
  }

  lemma LinkedPush(self: Waiter, s: seq<Waiter>)
    requires self !in s && Linked(self.next, s)
    ensures Linked(self, [self] + s)
  {
    var t := [self] + s;
    assert forall k :: 0 < k < |t| ==> t[k] == s[k - 1];
  }

  /** Puts one node in front of a list it is not in. */
  method Relink(node: Waiter, head: Waiter?, ghost chain: seq<Waiter>)
    requires node !in chain && Linked(head, chain)
    modifies node`next
    ensures Linked(node, [node] + chain)
  {
    node.next := head;
    LinkedPush(node, chain);
  }

  lemma Apart(stack: seq<Waiter>, k: nat)
    requires NoDup(stack) && k <= |stack|
    ensures forall x :: x in stack[..k] ==> x !in stack[k..]
  {
  }

  /** The front node of one list moves to the front of another. */
  method MoveFront(node: Waiter, ghost rest: seq<Waiter>, head: Waiter?, ghost chain: seq<Waiter>) returns (next: Waiter?)
    requires Linked(node, rest) && rest != [] && Linked(head, chain)
    requires forall x :: x in chain ==> x !in rest
    modifies node`next
    ensures next == old(node.next) && Linked(next, rest[1..]) && Linked(node, [node] + chain)
  {
    LinkedTail(node, rest);
    assert rest[0] == node && forall j :: 0 < j < |rest| ==> rest[j] != node;
    next := node.next;
    Relink(node, head, chain);
  }

  lemma ReverseNext(stack: seq<Waiter>, k: nat)
    requires k < |stack|
    ensures Reverse(stack[..k + 1]) == [stack[k]] + Reverse(stack[..k])
    ensures stack[k..][1..] == stack[k + 1..] && stack[k..][0] == stack[k]
  {
    assert stack[..k + 1] == stack[..k] + [stack[k]];
    ReverseSnoc(stack[..k], stack[k]);
  }

  lemma ReversedApart(stack: seq<Waiter>, k: nat)
    requires NoDup(stack) && k <= |stack|
    ensures forall x :: x in Reverse(stack[..k]) ==> x !in stack[k..]
  {
    Apart(stack, k);
    forall x | x in Reverse(stack[..k])
      ensures x !in stack[k..]
    {
      ReverseMember(stack[..k], x);
    }
  }

  /** The in-place reversal loop: relinks a newest-first list oldest first. */
  method ReverseList(top: Waiter, ghost stack: seq<Waiter>) returns (head: Waiter)
    requires stack != [] && Linked(top, stack)
    modifies stack`next
    ensures Linked(head, Reverse(stack))
  {
    var node: Waiter? := top;
    var resumeHead: Waiter? := null;
    ghost var k := 0;
    assert stack[..0] == [] && stack[0..] == stack;
    while node != null
      invariant 0 <= k <= |stack| && Linked(node, stack[k..]) && Linked(resumeHead, Reverse(stack[..k]))
      decreases |stack| - k
    {
      ReverseNext(stack, k);
      ReversedApart(stack, k);
      var tmp := MoveFront(node, stack[k..], resumeHead, Reverse(stack[..k]));
      resumeHead := node;
      node := tmp;
      k := k + 1;
    }
    assert stack[..k] == stack;
    head := resumeHead;
  }

  /** The loop of `notify_one`: the oldest node ends up in front of nothing, the
      others are relinked oldest first behind it. */
  method ReverseBehindOldest(top: Waiter, ghost stack: seq<Waiter>) returns (oldest: Waiter, rest: Waiter?)
    requires stack != [] && Linked(top, stack)
    modifies stack`next
    ensures oldest == Reverse(stack)[0] && Linked(rest, Reverse(stack)[1..])
  {
    var head: Waiter := top;
    var succ: Waiter?, pred: Waiter? := null, top.next;
    ghost var k := 0;
    assert stack[..0] == [] && stack[0..] == stack;
    while pred != null
      invariant 0 <= k < |stack| && head.next == pred
      invariant Linked(head, stack[k..]) && Linked(succ, Reverse(stack[..k]))
      decreases |stack| - k
    {
      ghost var rest, chain := stack[k..], Reverse(stack[..k]);
      ReverseNext(stack, k);
      ReversedApart(stack, k);
      assert head == rest[0] == stack[k];
      var next := MoveFront(head, rest, succ, chain);
      succ := head;
      head := next;
      pred := head.next;
      k := k + 1;
    }
    ReverseNext(stack, k);
    assert stack[..k + 1] == stack;
    oldest, rest := head, succ;
  }

  /** Visits the nodes of a list in order. */
  method Walk(from: Waiter?, ghost s: seq<Waiter>) returns (visited: seq<Waiter>)
    requires Linked(from, s)
    ensures visited == s
  {
    visited := [];
    var head := from;
    while head != null
      invariant |visited| <= |s| && visited == s[..|visited|]
      invariant head == At(s, |visited|)
      decreases |s| - |visited|
    {
      assert head == s[|visited|];
      visited := visited + [head];
      head := head.next;
    }
  }
}
