/** The mutex as the program lays it out: awaiter nodes linked through `next`,
    a word that is free, empty or a node pointer, and the cached list. Every
    method is one atomic access of the protocol and returns what the word
    functions say. */
module MutexHeap {
  import opened Common
  import opened MutexWords
  import opened WaiterLists

  class CoMutex {
    var awaiting: Raw<Waiter>
    var toResume: Waiter?
    ghost var word: Word<Waiter>
    ghost var cached: seq<Waiter>

    ghost function Stack(): seq<Waiter>
      reads this
    {
      if word.Held? then word.stack else []
    }

    ghost predicate Valid()
      reads this, Stack(), cached
    {
      && awaiting == RawOf(word)
      && Linked(if awaiting.Pointer? then awaiting.node else null, Stack())
      && Linked(toResume, cached)
      && (forall x :: x in cached ==> x !in Stack())
    }

    /** The waiters, the one to be served first in front. */
    ghost function Queue(): seq<Waiter>
      reads this
    {
      cached + Reverse(Stack())
    }

    constructor ()
      ensures Valid() && word == Free && cached == []
    {
      awaiting, toResume := NotLocked, null;
      word, cached := Free, [];
    }

    method TryLockMutex() returns (ok: bool)
      requires Valid()
      modifies this`awaiting, this`word
      ensures Valid() && (word, ok) == TryLock(old(word))
    {
      ok := awaiting == NotLocked;
      if ok {
        awaiting, word := NoWaiters, Held([]);
      }
    }

    method RegisterAwaiting(self: Waiter, seen: Raw<Waiter>, spurious: bool)
      returns (result: Attempt<Waiter>)
      requires Valid() && self !in Stack() && self !in cached
      modifies this`awaiting, this`word, self
      ensures Valid() && (word, result) == Register(old(word), self, seen, spurious)
      ensures result.Again? <==> old(awaiting) != seen || spurious
      ensures result.Again? ==> word == old(word) && result.seen == old(awaiting)
    {
      if seen == NotLocked {
        if awaiting == seen && !spurious {
          awaiting, word := NoWaiters, Held([]);
          return Acquired;
        }
      } else {
        ghost var stack := Stack();
        assert forall k :: 0 <= k < |cached| ==> cached[k] != self;
        assert forall k :: 0 <= k < |stack| ==> stack[k] != self;
        self.next := if seen.Pointer? then seen.node else null;
        assert Linked(toResume, cached);
        if awaiting == seen && !spurious {
          LinkedPush(self, stack);
          awaiting, word := Pointer(self), Held([self] + stack);
          return Suspended;
        }
      }
      result := Again(awaiting);
    }

    method UnlockCas() returns (freed: bool)
      requires Valid() && cached == []
      modifies this`awaiting, this`word
      ensures Valid() && (word, freed) == ReleaseIfAlone(old(word))
    {
      freed := awaiting == NoWaiters;
      if freed {
        awaiting, word := NotLocked, Free;
      }
    }

    /** Takes the stack and reverses it in place; the result is private to the caller. */
    method UnlockSwap() returns (head: Waiter, ghost chain: seq<Waiter>)
      requires Valid() && word.Held? && word.stack != [] && cached == []
      modifies this`awaiting, this`word, Stack()
      ensures Valid() && (word, chain) == TakeWaiters(old(word))
      ensures chain != [] && Linked(head, chain)
    {
      var top := awaiting.node;
      chain := Reverse(word.stack);
      head := ReverseList(top, word.stack);
      awaiting, word := NoWaiters, Held([]);
    }

    /** Wakes the head of the private list and caches the rest. */
    method HandOver(head: Waiter, ghost chain: seq<Waiter>) returns (resumed: Waiter)
      requires Valid() && chain != [] && Linked(head, chain)
      requires forall x :: x in chain ==> x !in Stack()
      modifies this`toResume, this`cached
      ensures Valid() && cached == chain[1..] && resumed == chain[0]
    {
      LinkedTail(head, chain);
      toResume, cached := head.next, chain[1..];
      resumed := head;
    }

    /** `unlock` without cached waiters: frees the mutex, or takes the stack. */
    method UnlockUncached() returns (resumed: Waiter?)
      requires Valid() && word.Held? && cached == []
      modifies this, Stack()
      ensures Valid()
      ensures old(Stack()) == [] ==> resumed == null && word == Free && cached == []
      ensures old(Stack()) != [] ==>
                word == Held([]) && resumed == Reverse(old(Stack()))[0] && cached == Reverse(old(Stack()))[1..]
    {
      var freed := UnlockCas();
      if freed {
        return null;
      }
      var head, chain := UnlockSwap();
      resumed := HandOver(head, chain);
    }

    /** `unlock` when no other thread interferes: frees the mutex if nobody
        waits, and otherwise hands it to the waiter that came first. */
    method Unlock() returns (resumed: Waiter?)
      requires Valid() && word.Held?
      modifies this, Stack()
      ensures Valid()
      ensures old(Queue()) == [] ==> resumed == null && word == Free && Queue() == []
      ensures old(Queue()) != [] ==> word.Held? && resumed == old(Queue())[0] && Queue() == old(Queue())[1..]
    {
      ghost var front, back := cached, Reverse(Stack());
      TailFirst(front, back);
      TailFirst(back, []);
      var head := toResume;
      if head != null {
        resumed := HandOver(head, front);
        assert front != [] && Queue() == front[1..] + back;
      } else {
        assert front == [] && front + back == back;
        resumed := UnlockUncached();
        assert back != [] ==> Queue() == back[1..] + [] == back[1..];
      }
    }
  }

  lemma TailFirst<T>(a: seq<T>, b: seq<T>)
    ensures a != [] ==> (a + b)[0] == a[0] && (a + b)[1..] == a[1..] + b
    ensures [] + a == a == a + []
  {
  }
}
