/**
 * The function template traverse of foldtraverse.cpp: starting from a node
 * pointer, follow a pack of member pointers (&Node::left, &Node::right) one
 * after the other, as the binary left fold (np ->* ... ->* paths).
 * A Node* is modelled as a tree value: Nil is the null pointer.
 */
module FoldTraverse {

  /** A Node*: null, or a node with an int value and two child links. */
  datatype Tree = Nil | Node(value: int, left: Tree, right: Tree)

  /** The member pointers left = &Node::left and right = &Node::right. */
  datatype Selector = Left | Right

  /** The number of nodes reachable through a pointer. */
  function Size(t: Tree): (n: nat)
  {
    match t
    case Nil => 0
    case Node(_, l, r) => 1 + Size(l) + Size(r)
  }

  /** Node(int i = 0): a node holding i whose links are both null. */
  function NewNode(i: int := 0): (t: Tree)
    ensures t.Node? && t.value == i && t.left == Nil && t.right == Nil
  {
    Node(i, Nil, Nil)
  }

  /** np ->* p: dereferences np, which must not be null, and reads the link p selects. */
  function Follow(np: Tree, p: Selector): (c: Tree)
    requires np.Node?
    ensures Size(c) < Size(np)
  {
    match p
    case Left => np.left
    case Right => np.right
  }

  /** Every pointer the traversal dereferences is non-null; the last link reached may be null. */
  predicate Defined(np: Tree, paths: seq<Selector>)
    decreases |paths|
  {
    paths == [] || (np.Node? && Defined(Follow(np, paths[0]), paths[1..]))
  }

  /**
   * traverse(np, paths...): ((np ->* p1) ->* p2) ... ->* pn. Each step
   * descends one link, so the node reached lies at least |paths| nodes
   * below np.
   */
  function Traverse(np: Tree, paths: seq<Selector>): (r: Tree)
    requires Defined(np, paths)
    ensures Size(r) + |paths| <= Size(np)
    decreases |paths|
  {
    if paths == [] then np else Traverse(Follow(np, paths[0]), paths[1..])
  }

  /** With an empty pack the fold yields its initial operand np. */
  lemma TraverseNone(np: Tree)
    ensures Defined(np, []) && Traverse(np, []) == np
  {
  }

  /** The first selector is applied first: traverse(np, p1, ..., pn) == traverse(traverse(np, p1), p2, ..., pn). */
  lemma TraverseFirst(np: Tree, p: Selector, rest: seq<Selector>)
    requires Defined(np, [p] + rest)
    ensures Defined(np, [p]) && Defined(Traverse(np, [p]), rest)
    ensures Traverse(np, [p] + rest) == Traverse(Traverse(np, [p]), rest)
  {
  }

  /** A path p ++ q can be followed exactly when p can, and q can from where p ends. */
  lemma {:induction false} DefinedConcat(np: Tree, p: seq<Selector>, q: seq<Selector>)
    ensures Defined(np, p + q) <==> Defined(np, p) && Defined(Traverse(np, p), q)
    decreases |p|
  {
    if p == [] {
      assert p + q == q;
    } else {
      assert (p + q)[1..] == p[1..] + q;
      if np.Node? {
        DefinedConcat(Follow(np, p[0]), p[1..], q);
      }
    }
  }

  /** Traversing p ++ q is traversing q from the node p reaches. */
  lemma {:induction false} TraverseConcat(np: Tree, p: seq<Selector>, q: seq<Selector>)
    requires Defined(np, p + q)
    ensures Defined(np, p) && Defined(Traverse(np, p), q)
    ensures Traverse(np, p + q) == Traverse(Traverse(np, p), q)
    decreases |p|
  {
    DefinedConcat(np, p, q);
    if p == [] {
      assert p + q == q;
    } else {
      assert (p + q)[1..] == p[1..] + q;
      TraverseConcat(Follow(np, p[0]), p[1..], q);
    }
  }

  /** The fold is a left fold: the last selector is applied to what the others reached. */
  lemma TraverseLast(np: Tree, paths: seq<Selector>, p: Selector)
    requires Defined(np, paths + [p])
    ensures Defined(np, paths) && Traverse(np, paths).Node?
    ensures Traverse(np, paths + [p]) == Follow(Traverse(np, paths), p)
  {
    TraverseConcat(np, paths, [p]);
  }

  /**
   * The tree main builds by linking new nodes: root 0, its left child 1, and
   * that child's right child 2; every other link is null.
   */
  function ExampleTree(): (root: Tree)
    ensures root.Node? && root.value == 0 && root.right == Nil
    ensures root.left.Node? && root.left.value == 1 && root.left.left == Nil
    ensures root.left.right == NewNode(2)
  {
    var root := NewNode(0);
    var root := root.(left := NewNode(1));
    root.(left := root.left.(right := NewNode(2)))
  }

  /** traverse(root, left, right) in main reaches the node holding 2. */
  lemma ExampleTraversal()
    ensures Defined(ExampleTree(), [Left, Right])
    ensures Traverse(ExampleTree(), [Left, Right]) == NewNode(2)
  {
  }
}
