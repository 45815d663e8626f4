# Two generic stacks and a member-pointer fold, modelled in Dafny

This project models three small C++ template snippets and proves what they promise:

- `BoundedStack` models `Stack<T, MaxArraySize>` of `stacknontype.hpp`. It is a stack over a
  fixed `std::array` buffer plus a `std::size_t` counter `numElems`. The model is a class
  whose `const` array is written in place. The counter is a `nat` field that `Push` and `Pop`
  update. The class invariant is `numElems <= MaxArraySize`, and the ghost view `Contents()`
  is `elems[..numElems]`.
- `ContainerStack` models `Stack<T, Cont>` of `stack3.hpp`. It is a stack over a sequence
  container. The container is a `seq<T>` field that the methods reassign. The
  `std::vector` and `std::deque` instantiations are both recorded in a `Container` tag that
  no operation reads, because the stack uses only `push_back`, `pop_back`, `back` and
  `empty`, and these mean the same on both containers.
- `FoldTraverse` models `Node` and `traverse` of `foldtraverse.cpp`. A `Node*` is a `Tree`
  value, and `Nil` stands for `nullptr`. The member pointers `left` and `right` are a
  `Selector`. `traverse(np, p1, ..., pn)` is the recursive function `Traverse` over a
  `seq<Selector>`. It requires that every pointer it dereferences is non-null; the last
  link it reads may be null.
- `StackOrder` defines `Reversed`. This is the order in which top-then-pop rounds hand
  back the elements of either stack.

In the source, the bounded stack's `pop` and `top` guard with `assert(!elems.empty())`.
For a `std::array` this holds whenever `MaxArraySize != 0`, whatever `numElems` is. So the
guard does not reject an empty stack. The model gives `Stack.Pop` and `Stack.Top` the
precondition `numElems > 0` that the code needs but does not check. "Findings" below
records the guard as written. The same `assert(!elems.empty())` in `stack3.hpp` (lines 26
and 32) does reject an empty stack, because there `elems` is the growable container itself.

## Model

| member | source | states |
|---|---|---|
| `BoundedStack.Stack.constructor` | C++/source/C++_Templates/codes/stacknontype.hpp:23-24 | a new stack has `numElems == 0`, so its contents are empty and the invariant holds |
| `BoundedStack.Stack.Empty` | C++/source/C++_Templates/codes/stacknontype.hpp:14-16 | `empty()` holds exactly when the abstract contents are empty |
| `BoundedStack.Stack.Size` | C++/source/C++_Templates/codes/stacknontype.hpp:18-20 | `size()` is the number of elements held and never exceeds `MaxArraySize` |
| `BoundedStack.Stack.Push` | C++/source/C++_Templates/codes/stacknontype.hpp:26-31 | requires room; stores `e` at old `numElems`, adds one to the counter, leaves every other slot alone, keeps the invariant, and appends `e` to the contents |
| `BoundedStack.Stack.Pop` | C++/source/C++_Templates/codes/stacknontype.hpp:33-37 | requires `numElems > 0`; only the counter drops by one, the buffer is untouched, the invariant holds, and the contents lose exactly their last element |
| `BoundedStack.Stack.Top` | C++/source/C++_Templates/codes/stacknontype.hpp:39-43 | requires `numElems > 0`; returns `elems[numElems-1]`, which is the last of the contents, and changes nothing |
| `BoundedStack.WrittenGuard` | C++/source/C++_Templates/codes/stacknontype.hpp:35-41 | the guard `!elems.empty()` in `pop` and `top` holds exactly when the capacity is non-zero, whatever the counter |
| `BoundedStack.SizeDecrement` | C++/source/C++_Templates/codes/stacknontype.hpp:36 | `--numElems` on a `std::size_t` is the predecessor for a positive counter and wraps to 2^64-1 at zero |
| `BoundedStack.WrittenGuardAdmitsEmptyPop` | C++/source/C++_Templates/codes/stacknontype.hpp:34-42 | for every non-zero capacity, the written guard passes on an empty stack, and the counter after `pop` (and the index `top` reads) lies outside the buffer |
| `BoundedStack.IntendedGuardKeepsCount` | C++/source/C++_Templates/codes/stacknontype.hpp:34-42 | for a counter within capacity, `numElems > 0` holds exactly when the decremented counter stays inside the buffer |
| `BoundedStack.PushThenTop` | C++/source/C++_Templates/codes/stacknontype.hpp:26-43 | after `push(e)`, `top()` returns `e` and the contents have grown by exactly `e` |
| `BoundedStack.PopThenPush` | C++/source/C++_Templates/codes/stacknontype.hpp:26-37 | `pop` leaves the vacated slot unchanged, and the following `push(e)` overwrites exactly that slot |
| `BoundedStack.PushAll` | C++/source/C++_Templates/codes/stacknontype.hpp:26-31 | pushing `xs` onto a stack with room for them appends `xs` to the contents |
| `BoundedStack.Drain` | C++/source/C++_Templates/codes/stacknontype.hpp:33-43 | top-then-pop until empty returns the contents in reverse and leaves the stack empty |
| `BoundedStack.FillThenDrain` | C++/source/C++_Templates/codes/stacknontype.hpp:23-43 | a stack of capacity C takes C pushes, after which `size() == C` and no further push is allowed; draining it then yields the pushes in reverse and leaves it empty |
| `ContainerStack.Stack.constructor` | C++/source/C++_Templates/codes/basics/stack3.hpp:5-8 | a new stack over either container is empty |
| `ContainerStack.Stack.Empty` | C++/source/C++_Templates/codes/basics/stack3.hpp:14-16 | `empty()` holds exactly when the container's sequence is empty |
| `ContainerStack.Stack.Push` | C++/source/C++_Templates/codes/basics/stack3.hpp:19-22 | `push(e)` appends `e` as the new last element and leaves every earlier element unchanged |
| `ContainerStack.Stack.Pop` | C++/source/C++_Templates/codes/basics/stack3.hpp:24-28 | requires a non-empty stack; removes exactly the last element |
| `ContainerStack.Stack.Top` | C++/source/C++_Templates/codes/basics/stack3.hpp:30-34 | requires a non-empty stack; the stack is what lies below the result plus the result, so the result is the last element, and nothing changes |
| `ContainerStack.PushThenPop` | C++/source/C++_Templates/codes/basics/stack3.hpp:19-28 | `push(e)` then `pop()` restores the previous contents |
| `ContainerStack.PushThenTop` | C++/source/C++_Templates/codes/basics/stack3.hpp:19-34 | `push(e)` then `top()` yields `e` on a non-empty stack |
| `ContainerStack.PushAll` | C++/source/C++_Templates/codes/basics/stack3.hpp:19-22 | pushing `xs` appends `xs` to the contents |
| `ContainerStack.Drain` | C++/source/C++_Templates/codes/basics/stack3.hpp:24-34 | top-then-pop until empty returns the contents in reverse and leaves the stack empty |
| `ContainerStack.PushThenDrain` | C++/source/C++_Templates/codes/basics/stack3.hpp:19-34 | LIFO: after pushing `x1..xn` onto a new stack, n top-then-pop rounds yield `xn..x1`, the k-th being `x(n-k)`, and leave the stack empty |
| `ContainerStack.VectorAndDequeAgree` | C++/source/C++_Templates/codes/basics/stack3.hpp:36-43 | the `std::vector` and `std::deque` instantiations of `main` give the same results for the same pushes followed by a full drain |
| `StackOrder.Reversed` | C++/source/C++_Templates/codes/basics/stack3.hpp:30-34 | the order in which the elements come back has as many elements as the stack |
| `StackOrder.ReversedAt` | C++/source/C++_Templates/codes/basics/stack3.hpp:24-34 | the k-th element handed back is the k-th from the top |
| `FoldTraverse.NewNode` | C++/source/C++_Templates/codes/basics/foldtraverse.cpp:3-8 | `Node(i)` holds `i` and has null left and right links |
| `FoldTraverse.Follow` | C++/source/C++_Templates/codes/basics/foldtraverse.cpp:10-16 | `np ->* p` requires a non-null `np` and reads a link strictly below it |
| `FoldTraverse.Traverse` | C++/source/C++_Templates/codes/basics/foldtraverse.cpp:13-17 | requires every dereferenced pointer to be non-null; the node reached lies at least one level per selector below the start |
| `FoldTraverse.TraverseNone` | C++/source/C++_Templates/codes/basics/foldtraverse.cpp:14-16 | with no selectors the fold yields `np` itself |
| `FoldTraverse.TraverseFirst` | C++/source/C++_Templates/codes/basics/foldtraverse.cpp:16 | `traverse(np, p1, ..., pn) == traverse(traverse(np, p1), p2, ..., pn)` |
| `FoldTraverse.DefinedConcat` | C++/source/C++_Templates/codes/basics/foldtraverse.cpp:16 | a path `p ++ q` can be followed exactly when `p` can and `q` can from where `p` ends |
| `FoldTraverse.TraverseConcat` | C++/source/C++_Templates/codes/basics/foldtraverse.cpp:16 | traversing `p ++ q` equals traversing `q` from the node `p` reaches |
| `FoldTraverse.TraverseLast` | C++/source/C++_Templates/codes/basics/foldtraverse.cpp:16 | the fold is a left fold: the last selector is applied to the node the others reach, which must be non-null |
| `FoldTraverse.ExampleTree` | C++/source/C++_Templates/codes/basics/foldtraverse.cpp:21-23 | the tree `main` builds has root 0, left child 1, and that child's right child 2, with every other link null |
| `FoldTraverse.ExampleTraversal` | C++/source/C++_Templates/codes/basics/foldtraverse.cpp:19-25 | on the tree `main` builds, `traverse(root, left, right)` is defined and reaches the node holding 2 |

## Left out

- Heap allocation of nodes with `new`, and the fact that they are never freed: a tree is a value. So the model has no sharing, aliasing or cycles between nodes, and `traverse` cannot change the tree. The example tree is built by updating values in the same order as `main` links its nodes.
- Undefined behaviour of `traverse` when a link it dereferences is null: `Defined` makes this a precondition instead.
- `std::vector` and `std::deque` internals (allocation, reallocation, iterator invalidation, out-of-memory): only their sequence semantics are modelled.
- Debug versus release behaviour of `assert` (`NDEBUG`): the asserts become preconditions.
- Template mechanics (parameter packs, member-pointer types, default template arguments): these become a type parameter, a capacity given to the constructor, and a `seq<Selector>`.
- `BoundedStack.Stack.Top` and `ContainerStack.Stack.Top` return the element by value, not a `const` reference into the buffer.
- `BoundedStack.Stack.constructor`: the slots of the new buffer hold Dafny's default value of `T`; in C++ the slots are default-initialized (indeterminate for a scalar `T`).
- `BoundedStack.SizeDecrement`: `std::size_t` is taken to be 64 bits wide.
- The unused `<iostream>` include, and the `main` functions except as the concrete examples above.

## Findings

| source | as written | input that shows it | evidently intended | confidence | as-written member | corrected member |
|---|---|---|---|---|---|---|
| C++/source/C++_Templates/codes/stacknontype.hpp:35-36 | `pop` guards with `!elems.empty()`, which depends only on `MaxArraySize`, then runs `--numElems` | a fresh `Stack<int, 1>` and one `pop()`: the guard passes, and `numElems` wraps to 2^64-1 | `pop` on an empty stack is a precondition violation (`numElems > 0`) | high, not executed | `BoundedStack.WrittenGuardAdmitsEmptyPop` | `BoundedStack.Stack.Pop` |
| C++/source/C++_Templates/codes/stacknontype.hpp:41-42 | `top` guards with `!elems.empty()`, then reads `elems[numElems - 1]` | a fresh `Stack<int, 1>` and one `top()`: the guard passes, and the index wraps to 2^64-1, outside the buffer | `top` on an empty stack is a precondition violation (`numElems > 0`) | high, not executed | `BoundedStack.WrittenGuardAdmitsEmptyPop` | `BoundedStack.Stack.Top` |
