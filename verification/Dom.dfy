/** The document as the selector engine sees it: a finite ordered tree whose nodes are numbered so that
    every parent, and every earlier sibling, has a smaller number (document order is one such numbering). */
module Dom {
  datatype Node = Node(parent: int, element: bool, tag: string, id: string, classes: set<string>)

  const DOCUMENT: nat := 0

  /** Node 0 is the document. A node that is not an element (document, fragment) can only have children
      when it is the root of its tree. */
  ghost predicate WellFormed(t: seq<Node>) {
    && |t| > 0
    && !t[DOCUMENT].element
    && forall i :: 0 <= i < |t| ==>
         && -1 <= t[i].parent < i
         && (t[i].parent >= 0 && !t[t[i].parent].element ==> t[t[i].parent].parent == -1)
  }

  type Tree = t: seq<Node> | WellFormed(t) witness [Node(-1, false, "", "", {})]

  datatype Dir = ParentNode | PreviousSibling

  /** The closest node before `n` whose parent is `p`, or -1. */
  function LastChildBefore(t: Tree, p: int, n: nat): (r: int)
    requires n <= |t|
    ensures -1 <= r < n
    ensures r >= 0 ==> t[r].parent == p
    ensures forall k :: r < k < n ==> t[k].parent != p
  {
    if n == 0 then -1
    else if t[n - 1].parent == p then n - 1
    else LastChildBefore(t, p, n - 1)
  }

  /** `elem[dir]`, with -1 for null. */
  function Step(t: Tree, d: Dir, n: nat): (r: int)
    requires n < |t|
    ensures -1 <= r < n
  {
    match d
    case ParentNode => t[n].parent
    case PreviousSibling => if t[n].parent < 0 then -1 else LastChildBefore(t, t[n].parent, n)
  }

  /** `a` is reached from `n` by one or more steps in direction `d`. */
  predicate Above(t: Tree, d: Dir, n: nat, a: nat)
    requires n < |t|
    decreases n
  {
    var next := Step(t, d, n);
    next >= 0 && (next == a || Above(t, d, next, a))
  }

  lemma AboveIsBefore(t: Tree, d: Dir, n: nat, a: nat)
    requires n < |t| && Above(t, d, n, a)
    ensures a < n
  {
  }

  lemma AboveTransitive(t: Tree, d: Dir, n: nat, m: nat, a: nat)
    requires n < |t| && m < |t| && Above(t, d, n, m) && Above(t, d, m, a)
    ensures Above(t, d, n, a)
    decreases n
  {
  }

  /** Walking back over siblings meets exactly the earlier nodes with the same parent. */
  lemma {:induction false} SiblingsAbove(t: Tree, n: nat, a: nat)
    requires n < |t|
    ensures Above(t, PreviousSibling, n, a) <==> a < n && t[n].parent >= 0 && t[a].parent == t[n].parent
    decreases n
  {
    var next := Step(t, PreviousSibling, n);
    if next >= 0 {
      SiblingsAbove(t, next, a);
    }
  }
}
