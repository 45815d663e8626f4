/**
 * The class template Stack<T, Cont> of stack3.hpp: a thin stack over a
 * sequence container Cont (std::vector<T> by default, or std::deque<T>).
 * The stack uses only push_back, pop_back, back and empty of the container,
 * and both containers give these the same meaning on the sequence of
 * elements they hold, so the container is modelled as that sequence,
 * bottom first, and the choice of container is recorded but never read.
 */
module ContainerStack {
  import opened StackOrder

  /** The backing container chosen by the template argument Cont. */
  datatype Container = Vector | Deque

  class Stack<T> {
    /** Which container backs this stack; no operation depends on it. */
    const container: Container
    /** The container's elements, bottom first: the top is the last one. */
    var elems: seq<T>

    /** A default-constructed stack over an empty container. */
    constructor (container: Container)
      ensures this.container == container && elems == []
    {
      this.container := container;
      elems := [];
    }

    /** empty(): whether the container holds no element. */
    function Empty(): (r: bool)
      reads this
      ensures r <==> elems == []
    {
      |elems| == 0
    }

    /** push(elem): push_back appends a copy of elem as the new top; nothing below it changes. */
    method Push(e: T)
      modifies this
      ensures elems == old(elems) + [e]
    {
      elems := elems + [e];
    }

    /** pop(): on a non-empty stack (the assert), pop_back removes exactly the top. */
    method Pop()
      requires !Empty()
      modifies this
      ensures elems == old(elems)[..|old(elems)| - 1]
    {
      elems := elems[..|elems| - 1];
    }

    /** top(): on a non-empty stack (the assert), back() is the top; the stack is what lies below it plus it. */
    function Top(): (r: T)
      reads this
      requires !Empty()
      ensures elems == elems[..|elems| - 1] + [r]
    {
      elems[|elems| - 1]
    }
  }

  /** push(e) then pop() puts the stack back as it was. */
  method PushThenPop<T>(s: Stack<T>, e: T)
    modifies s
    ensures s.elems == old(s.elems)
  {
    s.Push(e);
    s.Pop();
    assert s.elems == (old(s.elems) + [e])[..|old(s.elems)|];
  }

  /** push(e) then top() yields e, and the stack is non-empty. */
  method PushThenTop<T>(s: Stack<T>, e: T) returns (r: T)
    modifies s
    ensures r == e && !s.Empty()
    ensures s.elems == old(s.elems) + [e]
  {
    s.Push(e);
    r := s.Top();
  }

  /** Pushes x1, ..., xn in order: they land on top of the old contents, xn highest. */
  method PushAll<T>(s: Stack<T>, xs: seq<T>)
    modifies s
    ensures s.elems == old(s.elems) + xs
  {
    var i := 0;
    while i < |xs|
      invariant 0 <= i <= |xs|
      invariant s.elems == old(s.elems) + xs[..i]
    {
      s.Push(xs[i]);
      assert xs[..i + 1] == xs[..i] + [xs[i]];
      i := i + 1;
    }
    assert xs[..i] == xs;
  }

  /** Top-then-pop until empty: the elements come back from the top down and the stack is left empty. */
  method Drain<T>(s: Stack<T>) returns (popped: seq<T>)
    modifies s
    ensures popped == Reversed(old(s.elems)) && s.Empty()
  {
    popped := [];
    while !s.Empty()
      invariant popped + Reversed(s.elems) == Reversed(old(s.elems))
      decreases |s.elems|
    {
      var t := s.Top();
      s.Pop();
      popped := popped + [t];
    }
  }

  /**
   * LIFO: pushing x1, ..., xn onto a new stack and then running n top-then-pop
   * rounds yields xn, ..., x1 and leaves the stack empty, whichever container
   * backs the stack.
   */
  method PushThenDrain<T>(container: Container, xs: seq<T>) returns (popped: seq<T>, emptyAfter: bool)
    ensures |popped| == |xs| && emptyAfter
    ensures forall k :: 0 <= k < |xs| ==> popped[k] == xs[|xs| - 1 - k]
  {
    var s := new Stack<T>(container);
    PushAll(s, xs);
    assert s.elems == xs;
    popped := Drain(s);
    emptyAfter := s.Empty();
    forall k | 0 <= k < |xs|
      ensures popped[k] == xs[|xs| - 1 - k]
    {
      ReversedAt(xs, k);
    }
  }

  /**
   * The two instantiations of main, Stack<int> over std::vector and
   * Stack<int, std::deque<int>>, behave alike: after the same pushes their
   * tops agree, and so does every later sequence of pops.
   */
  method VectorAndDequeAgree(xs: seq<int>) returns (vectorOut: seq<int>, dequeOut: seq<int>)
    ensures vectorOut == dequeOut == Reversed(xs)
  {
    var intStack := new Stack<int>(Vector);
    var dintStack := new Stack<int>(Deque);
    PushAll(intStack, xs);
    PushAll(dintStack, xs);
    assert intStack.elems == dintStack.elems == xs;
    vectorOut := Drain(intStack);
    dequeOut := Drain(dintStack);
  }
}
