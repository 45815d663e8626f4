/**
 * The class template Stack<T, MaxArraySize> of stacknontype.hpp: a stack of
 * at most MaxArraySize elements held in a std::array that never grows, with a
 * std::size_t counter numElems of the occupied slots. The occupied slots are
 * elems[0], ..., elems[numElems - 1], bottom first.
 */
module BoundedStack {
  import opened StackOrder

  /** std::size_t is a 64-bit unsigned integer: arithmetic on it wraps modulo 2^64. */
  const SizeModulus: nat := 0x1_0000_0000_0000_0000

  class Stack<T(0)> {
    /** The compile-time capacity MaxArraySize. */
    const MaxArraySize: nat
    /** The buffer std::array<T, MaxArraySize>; it is written in place, never replaced. */
    const elems: array<T>
    /** How many slots of elems are occupied. */
    var numElems: nat

    /** The class invariant: 0 <= numElems <= MaxArraySize, and the counter fits a std::size_t. */
    ghost predicate Valid()
      reads this
    {
      elems.Length == MaxArraySize && numElems <= MaxArraySize && MaxArraySize < SizeModulus
    }

    /** The abstract stack, bottom first: the occupied prefix of the buffer. */
    ghost function Contents(): (s: seq<T>)
      reads this, elems
      requires Valid()
      ensures |s| == numElems
    {
      elems[..numElems]
    }

    /** Stack(): numElems(0); the buffer's slots hold default values. */
    constructor (capacity: nat)
      requires capacity < SizeModulus
      ensures Valid() && fresh(elems)
      ensures MaxArraySize == capacity && numElems == 0 && Contents() == []
    {
      MaxArraySize := capacity;
      elems := new T[capacity];
      numElems := 0;
    }

    /** empty(): whether the stack holds no element. */
    function Empty(): (r: bool)
      reads this, elems
      requires Valid()
      ensures r <==> Contents() == []
    {
      numElems == 0
    }

    /** size(): how many elements the stack holds, never more than the capacity. */
    function Size(): (n: nat)
      reads this, elems
      requires Valid()
      ensures n == |Contents()| && n <= MaxArraySize
    {
      numElems
    }

    /**
     * push(elem): the caller must leave room (the assert on numElems < MaxArraySize);
     * elem goes into slot numElems and the counter grows by one. No other slot changes.
     */
    method Push(e: T)
      requires Valid()
      requires numElems < MaxArraySize
      modifies this, elems
      ensures Valid()
      ensures numElems == old(numElems) + 1
      ensures elems[..] == old(elems[..])[old(numElems) := e]
      ensures Contents() == old(Contents()) + [e]
    {
      elems[numElems] := e;
      numElems := numElems + 1;
    }

    /**
     * pop(): the caller must supply a non-empty stack (the source's assert does not
     * check this; see IntendedGuardKeepsCount). Only the counter changes: the
     * vacated slot keeps its value until a later push overwrites it.
     */
    method Pop()
      requires Valid()
      requires numElems > 0
      modifies this
      ensures Valid()
      ensures numElems == old(numElems) - 1
      ensures elems[..] == old(elems[..])
      ensures Contents() == old(Contents())[..old(numElems) - 1]
    {
      numElems := numElems - 1;
    }

    /** top(): on a non-empty stack, the element in the highest occupied slot; nothing changes. */
    method Top() returns (r: T)
      requires Valid()
      requires numElems > 0
      ensures r == elems[numElems - 1]
      ensures Contents() == Contents()[..numElems - 1] + [r]
    {
      r := elems[numElems - 1];
    }
  }

  /**
   * The guard written in pop and top, !elems.empty(). For a std::array<T, N>,
   * empty() holds exactly when N == 0, so the guard reads only the capacity
   * and ignores the counter.
   */
  function WrittenGuard(maxArraySize: nat, numElems: nat): (r: bool)
    ensures r <==> maxArraySize > 0
  {
    !(maxArraySize == 0)
  }

  /** The guard pop and top need: the stack holds at least one element. */
  function IntendedGuard(numElems: nat): (r: bool)
  {
    numElems > 0
  }

  /** --numElems, and the index numElems - 1, on a std::size_t: zero wraps to the largest value. */
  function SizeDecrement(numElems: nat): (r: nat)
    requires numElems < SizeModulus
    ensures r < SizeModulus
    ensures numElems > 0 ==> r == numElems - 1
    ensures numElems == 0 ==> r == SizeModulus - 1
  {
    (numElems + SizeModulus - 1) % SizeModulus
  }

  /**
   * As written: on an empty stack of any non-zero capacity the guard passes,
   * pop leaves a counter far above the capacity, and top reads the slot at
   * that index, outside the buffer.
   */
  lemma WrittenGuardAdmitsEmptyPop(maxArraySize: nat)
    requires 0 < maxArraySize < SizeModulus
    ensures WrittenGuard(maxArraySize, 0)
    ensures SizeDecrement(0) >= maxArraySize
  {
  }

  /**
   * As intended: for a counter within the capacity, the decrement of pop and
   * the index of top stay inside the buffer exactly when the intended guard
   * holds; this is the precondition Stack.Pop and Stack.Top carry.
   */
  lemma IntendedGuardKeepsCount(maxArraySize: nat, numElems: nat)
    requires numElems <= maxArraySize < SizeModulus
    ensures IntendedGuard(numElems) <==> SizeDecrement(numElems) < maxArraySize
  {
  }

  /** A push followed by top yields the pushed element, and the stack has grown by exactly it. */
  method PushThenTop<T(0)>(s: Stack<T>, e: T) returns (r: T)
    requires s.Valid() && s.numElems < s.MaxArraySize
    modifies s, s.elems
    ensures s.Valid()
    ensures r == e && s.Contents() == old(s.Contents()) + [e]
  {
    s.Push(e);
    r := s.Top();
  }

  /** pop leaves the vacated slot alone; the next push overwrites exactly that slot. */
  method PopThenPush<T(0)>(s: Stack<T>, e: T)
    requires s.Valid() && s.numElems > 0
    modifies s, s.elems
    ensures s.Valid() && s.numElems == old(s.numElems)
    ensures s.elems[..] == old(s.elems[..])[old(s.numElems) - 1 := e]
    ensures s.Contents() == old(s.Contents())[..old(s.numElems) - 1] + [e]
  {
    s.Pop();
    s.Push(e);
  }

  /** Pushes x1, ..., xn in order onto a stack with room for them: they land on top, xn highest. */
  method PushAll<T(0)>(s: Stack<T>, xs: seq<T>)
    requires s.Valid() && s.numElems + |xs| <= s.MaxArraySize
    modifies s, s.elems
    ensures s.Valid() && s.Contents() == old(s.Contents()) + xs
  {
    var i := 0;
    while i < |xs|
      invariant 0 <= i <= |xs|
      invariant s.Valid() && s.numElems == old(s.numElems) + i
      invariant s.Contents() == old(s.Contents()) + xs[..i]
    {
      s.Push(xs[i]);
      assert xs[..i + 1] == xs[..i] + [xs[i]];
      i := i + 1;
    }
    assert xs[..i] == xs;
  }

  /** Top-then-pop until empty: the elements come back from the top down and the stack is left empty. */
  method Drain<T(0)>(s: Stack<T>) returns (popped: seq<T>)
    requires s.Valid()
    modifies s
    ensures s.Valid() && s.Empty()
    ensures popped == Reversed(old(s.Contents()))
  {
    popped := [];
    while !s.Empty()
      invariant s.Valid()
      invariant popped + Reversed(s.Contents()) == Reversed(old(s.Contents()))
      decreases s.numElems
    {
      var t := s.Top();
      ghost var before := s.Contents();
      s.Pop();
      assert before == s.Contents() + [t];
      popped := popped + [t];
    }
  }

  /**
   * A stack of capacity |xs| takes exactly |xs| pushes: afterwards size() is the
   * capacity and no further push is allowed. Then |xs| top-then-pop rounds hand
   * the elements back last pushed first and leave the stack empty.
   */
  method FillThenDrain<T(0)>(xs: seq<T>) returns (size: nat, full: bool, popped: seq<T>, emptyAfter: bool)
    requires |xs| < SizeModulus
    ensures size == |xs| && full && emptyAfter
    ensures popped == Reversed(xs)
  {
    var s := new Stack<T>(|xs|);
    PushAll(s, xs);
    assert s.Contents() == xs;
    size := s.Size();
    full := !(s.numElems < s.MaxArraySize);
    popped := Drain(s);
    emptyAfter := s.Empty();
  }
}
