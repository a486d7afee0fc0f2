/** :nth-child and its relatives: the position of a child, found with cached indexes, and the an+b test
    (Selectors Level 3, section 6.6.5.2). */
module NthChild {
  import opened Helpers

  datatype Child = Child(element: bool, name: string)

  // The an+b test

  /** The remainder of JavaScript: it takes the sign of the dividend. */
  function Remainder(a: int, b: int): int
    requires b != 0
  {
    var m := if b > 0 then b else -b;
    if a >= 0 then a % m else -((-a) % m)
  }

  /** `diff === first || ( diff % first === 0 && diff / first >= 0 )` after `diff -= last`;
      a remainder by zero is NaN. */
  predicate Cycles(first: int, last: int, position: int) {
    var diff := position - last;
    diff == first || (first != 0 && Remainder(diff, first) == 0 && diff as real / first as real >= 0.0)
  }

  /** The position is a*n + b for some n >= 0. */
  ghost predicate InCycle(a: int, b: int, position: int) {
    exists n: nat :: position == a * n + b
  }

  lemma QuotientSign(d: int, a: int)
    requires a != 0
    ensures d as real / a as real >= 0.0 <==> d == 0 || (d > 0 <==> a > 0)
  {
    var q := d as real / a as real;
    assert q * a as real == d as real;
  }

  lemma {:induction false} MultipleHasNoRemainder(d: int, a: int, n: int)
    requires a != 0 && d == a * n
    ensures Remainder(d, a) == 0
  {
    var m := if a > 0 then a else -a;
    var e := if d >= 0 then d else -d;
    var k := if (d >= 0) == (a > 0) then n else -n;
    assert e == m * k by {
      assert m * k == if a > 0 then a * k else -(a * k);
      assert a * -n == -(a * n);
    }
    DivisionExact(e, m, k);
  }

  lemma {:induction false} DivisionExact(e: int, m: int, k: int)
    requires m > 0 && e == m * k
    ensures e % m == 0
  {
    var q, r := e / m, e % m;
    assert e == m * q + r && 0 <= r < m;
    assert r == m * (k - q);
    MultipleSize(m, k - q);
  }

  lemma MultipleSize(m: int, x: int)
    requires m > 0
    ensures if x >= 1 then m * x >= m else if x <= -1 then m * x <= -m else m * x == 0
  {
  }

  lemma {:induction false} InCycleTests(a: int, b: int, position: int)
    requires InCycle(a, b, position)
    ensures Cycles(a, b, position)
  {
    var d := position - b;
    var n: nat :| position == a * n + b;
    if a == 0 {
      assert a * n == 0;
    } else {
      MultipleHasNoRemainder(d, a, n);
      QuotientSign(d, a);
      assert d == a * n && (n == 0 ==> d == 0) && (n > 0 ==> (d > 0 <==> a > 0));
    }
  }

  lemma TestInCycle(a: int, b: int, position: int)
    requires Cycles(a, b, position)
    ensures InCycle(a, b, position)
  {
    var d := position - b;
    if d == a {
      assert position == a * 1 + b;
    } else {
      QuotientSign(d, a);
      var m := if a > 0 then a else -a;
      var e := if d >= 0 then d else -d;
      var n := e / m;
      assert e == m * n;
      assert d == a * n;
    }
  }

  lemma CycleTest(a: int, b: int, position: int)
    ensures Cycles(a, b, position) <==> InCycle(a, b, position)
  {
    if InCycle(a, b, position) {
      InCycleTests(a, b, position);
    }
    if Cycles(a, b, position) {
      TestInCycle(a, b, position);
    }
  }

  /** The argument: a keyword, or the parts of xn+y that are written. */
  datatype Argument = EvenWord | OddWord | Formula(x: Option<Coefficient>, y: Option<int>)

  /** The coefficient of n: a sign, and digits unless they are left out. */
  datatype Coefficient = Coefficient(negative: bool, digits: Option<nat>)

  /** `match[4]` and `match[5]` of the CHILD preFilter. */
  function Numbers(arg: Argument): (int, int) {
    match arg
    case EvenWord => (2, 0)
    case OddWord => (2, 1)
    case Formula(x, y) =>
      (match x
       case None => 0
       case Some(c) =>
         var magnitude := if c.digits.None? then 1 else c.digits.value;
         if c.negative then -magnitude else magnitude,
       if y.None? then 0 else y.value)
  }

  lemma Keywords(position: nat)
    ensures InCycle(Numbers(EvenWord).0, Numbers(EvenWord).1, position) <==> position % 2 == 0
    ensures InCycle(Numbers(OddWord).0, Numbers(OddWord).1, position) <==> position % 2 == 1
  {
    if position % 2 == 0 {
      assert position == 2 * (position / 2) + 0;
    } else {
      assert position == 2 * (position / 2) + 1;
    }
  }

  /** A formula without x is one position, +n+b the positions from b on, -n+b those up to b. */
  lemma Formulas(position: nat, y: Option<int>)
    ensures var b := if y.None? then 0 else y.value;
            var one, up, down := Numbers(Formula(None, y)), Numbers(Formula(Some(Coefficient(false, None)), y)),
                                 Numbers(Formula(Some(Coefficient(true, None)), y));
            && (InCycle(one.0, one.1, position) <==> position == b)
            && (InCycle(up.0, up.1, position) <==> position >= b)
            && (InCycle(down.0, down.1, position) <==> position <= b)
  {
    var b := if y.None? then 0 else y.value;
    assert position == 0 * 0 + b || position != b;
    assert position == 1 * (position - b) + b;
    assert position == -1 * (b - position) + b;
  }

  /** A formula with digits selects b and then every k-th position, upwards or, after a minus sign, downwards. */
  lemma {:induction false} EveryKth(position: nat, k: nat, y: Option<int>)
    ensures var b := if y.None? then 0 else y.value;
            var up, down := Numbers(Formula(Some(Coefficient(false, Some(k))), y)),
                            Numbers(Formula(Some(Coefficient(true, Some(k))), y));
            && (InCycle(up.0, up.1, position) <==>
                  position == b || (k >= 1 && position >= b && (position - b) % k == 0))
            && (InCycle(down.0, down.1, position) <==>
                  position == b || (k >= 1 && position <= b && (b - position) % k == 0))
  {
    var b := if y.None? then 0 else y.value;
    UpFrom(position, k, b);
    DownFrom(position, 0 - k, b);
  }

  lemma UpFrom(position: int, k: nat, b: int)
    ensures InCycle(k, b, position) <==> position == b || (k >= 1 && position >= b && (position - b) % k == 0)
  {
    if n: nat :| position == k * n + b {
      MultipleOf(position - b, k, n);
    }
    if position == b {
      assert position == k * 0 + b;
    } else if k >= 1 && position >= b && (position - b) % k == 0 {
      assert position == k * ((position - b) / k) + b;
    }
  }

  lemma DownFrom(position: int, a: int, b: int)
    requires a <= 0
    ensures InCycle(a, b, position) <==> position == b || (a < 0 && position <= b && (b - position) % -a == 0)
  {
    if n: nat :| position == a * n + b {
      assert -(a * n) == -a * n;
      MultipleOf(b - position, -a, n);
    }
    if position == b {
      assert position == a * 0 + b;
    } else if a < 0 && position <= b && (b - position) % -a == 0 {
      var n := (b - position) / -a;
      assert b - position == -a * n && -a * n == -(a * n);
      assert position == a * n + b;
    }
  }

  lemma MultipleOf(d: int, k: nat, n: nat)
    requires d == k * n
    ensures d >= 0 && (k >= 1 ==> d % k == 0) && (k == 0 ==> d == 0)
  {
    if k >= 1 {
      DivisionExact(d, k, n);
    }
  }

  // The position of a child

  /** The children that are counted: elements, or nodes with a given name. */
  predicate Counts(ofType: Option<string>, c: Child) {
    if ofType.Some? then c.name == ofType.value else c.element
  }

  /** How many children before index `k` are counted. */
  function CountTo(children: seq<Child>, ofType: Option<string>, k: nat): nat
    requires k <= |children|
  {
    if k == 0 then 0 else CountTo(children, ofType, k - 1) + if Counts(ofType, children[k - 1]) then 1 else 0
  }

  /** The one-based position of child `k` among the counted ones, from the front or from the back. */
  function PositionOf(children: seq<Child>, ofType: Option<string>, forward: bool, k: nat): int
    requires k < |children|
  {
    if forward then CountTo(children, ofType, k + 1)
    else CountTo(children, ofType, |children|) - CountTo(children, ofType, k)
  }

  lemma {:induction false} CountedSet(children: seq<Child>, ofType: Option<string>, low: nat, high: nat)
    requires low <= high <= |children|
    ensures CountTo(children, ofType, high) - CountTo(children, ofType, low) ==
            |set i | low <= i < high && Counts(ofType, children[i])|
    decreases high
  {
    if low != high {
      CountedSet(children, ofType, low, high - 1);
      var before := set i | low <= i < high - 1 && Counts(ofType, children[i]);
      var all := set i | low <= i < high && Counts(ofType, children[i]);
      assert all == if Counts(ofType, children[high - 1]) then before + {high - 1} else before;
    }
  }

  /** The position of an element is the number of elements up to it, or from it on. */
  lemma {:induction false} ElementPosition(children: seq<Child>, k: nat)
    requires k < |children|
    ensures PositionOf(children, None, true, k) == |set i | 0 <= i <= k && children[i].element|
    ensures PositionOf(children, None, false, k) == |set i | k <= i < |children| && children[i].element|
  {
    CountedSet(children, None, 0, k + 1);
    CountedSet(children, None, k, |children|);
    assert (set i | 0 <= i < k + 1 && Counts(None, children[i])) == set i | 0 <= i <= k && children[i].element;
    assert (set i | k <= i < |children| && Counts(None, children[i])) ==
           set i | k <= i < |children| && children[i].element;
  }

  /** By type it is the number of nodes of that name. */
  lemma {:induction false} TypePosition(children: seq<Child>, name: string, k: nat)
    requires k < |children|
    ensures PositionOf(children, Some(name), true, k) == |set i | 0 <= i <= k && children[i].name == name|
    ensures PositionOf(children, Some(name), false, k) == |set i | k <= i < |children| && children[i].name == name|
  {
    CountedSet(children, Some(name), 0, k + 1);
    CountedSet(children, Some(name), k, |children|);
    assert (set i | 0 <= i < k + 1 && Counts(Some(name), children[i])) ==
           set i | 0 <= i <= k && children[i].name == name;
    assert (set i | k <= i < |children| && Counts(Some(name), children[i])) ==
           set i | k <= i < |children| && children[i].name == name;
  }

  /** The types of the filters that are not nth. */
  datatype Side = FirstChild | LastChild | OnlyChild

  /** A node with the children that the queries are about, and the indexes cached on it and on them. */
  class Parent {
    const childNodes: seq<Child>
    /** `outerCache.nth`: the search number, the index of the last child found, its position. */
    var nth: Option<(nat, nat, int)>
    /** `node[expando]["nth-last"]` of each child: the search number and the position. */
    var nthLast: map<nat, (nat, int)>

    constructor (childNodes: seq<Child>)
      ensures this.childNodes == childNodes && forall dirruns :: Consistent(dirruns)
    {
      this.childNodes := childNodes;
      nth, nthLast := None, map[];
    }

    /** The numbers cached by the current search are the real positions of elements. */
    ghost predicate Consistent(dirruns: nat)
      reads this
    {
      && (nth.Some? && nth.value.0 == dirruns ==>
            && nth.value.1 < |childNodes| && childNodes[nth.value.1].element
            && nth.value.2 == PositionOf(childNodes, None, true, nth.value.1))
      && forall k | k in nthLast && nthLast[k].0 == dirruns ::
           k < |childNodes| && childNodes[k].element && nthLast[k].1 == PositionOf(childNodes, None, false, k)
    }

    /** Seeks `elem` from the cached index, and from the start once the end is reached. */
    method SeekForward(elem: nat, dirruns: nat) returns (diff: int)
      requires Consistent(dirruns) && elem < |childNodes| && childNodes[elem].element
      modifies this`nth
      ensures Consistent(dirruns) && diff == PositionOf(childNodes, None, true, elem)
      ensures nth == Some((dirruns, elem, diff))
      ensures forall d | d != dirruns :: old(Consistent(d)) ==> Consistent(d)
    {
      var hit := nth.Some? && nth.value.0 == dirruns;
      var nodeIndex := if hit then nth.value.1 else 0;
      diff := if hit then nth.value.2 else 0;
      var node := if nodeIndex != 0 then nodeIndex else -1;
      var start := true;
      while true
        invariant -1 <= node < |childNodes|
        invariant node >= 0 ==> node == nodeIndex && diff == PositionOf(childNodes, None, true, node)
        invariant !start ==> 0 <= node < elem
        decreases start, |childNodes| - node
      {
        nodeIndex := nodeIndex + 1;
        if nodeIndex != 0 && node >= 0 && node + 1 < |childNodes| {
          node := node + 1;
        } else {
          diff, nodeIndex := 0, 0;
          if !start {
            break;
          }
          start, node := false, 0;
        }
        assert CountTo(childNodes, None, node + 1) ==
               CountTo(childNodes, None, node) + if childNodes[node].element then 1 else 0;
        if childNodes[node].element {
          diff := diff + 1;
          if node == elem {
            nth := Some((dirruns, nodeIndex, diff));
            return;
          }
        }
      }
      assert false;
    }

    /** The position cached on the child, or the one found by walking from the end, caching every element passed. */
    method SeekBackward(elem: nat, dirruns: nat) returns (diff: int)
      requires Consistent(dirruns) && elem < |childNodes| && childNodes[elem].element
      modifies this`nthLast
      ensures Consistent(dirruns) && diff == PositionOf(childNodes, None, false, elem)
      ensures forall d | d != dirruns :: old(Consistent(d)) ==> Consistent(d)
    {
      if elem in nthLast && nthLast[elem].0 == dirruns {
        return nthLast[elem].1;
      }
      diff := 0;
      var node := |childNodes| - 1;
      while true
        invariant elem <= node < |childNodes| && Consistent(dirruns)
        invariant forall d | d != dirruns :: old(Consistent(d)) ==> Consistent(d)
        invariant diff == CountTo(childNodes, None, |childNodes|) - CountTo(childNodes, None, node + 1)
        decreases node
      {
        if childNodes[node].element {
          diff := diff + 1;
          nthLast := nthLast[node := (dirruns, diff)];
          if node == elem {
            return;
          }
        }
        node := node - 1;
      }
    }

    /** The same walk without a cache, in either direction: XML documents and the of-type filters. */
    method SeekUncached(elem: nat, ofType: Option<string>, forward: bool) returns (diff: int)
      requires elem < |childNodes| && Counts(ofType, childNodes[elem])
      ensures diff == PositionOf(childNodes, ofType, forward, elem)
    {
      diff := 0;
      var node := if forward then 0 else |childNodes| - 1;
      while true
        invariant 0 <= node < |childNodes| && if forward then node <= elem else elem <= node
        invariant diff == if forward then CountTo(childNodes, ofType, node)
                          else CountTo(childNodes, ofType, |childNodes|) - CountTo(childNodes, ofType, node + 1)
        decreases if forward then elem - node else node - elem
      {
        if Counts(ofType, childNodes[node]) {
          diff := diff + 1;
          if node == elem {
            return;
          }
        }
        node := if forward then node + 1 else node - 1;
      }
    }

    /** :first-child, :last-child, :only-child and their of-type forms, asked about child `elem`: no other counted
        child comes before it, after it, or on either side. */
    method IsOnly(elem: nat, ofType: bool, kind: Side) returns (b: bool)
      requires elem < |childNodes| && childNodes[elem].element
      ensures var name := if ofType then Some(childNodes[elem].name) else None;
              b <==> && (kind != LastChild ==> PositionOf(childNodes, name, true, elem) == 1)
                     && (kind != FirstChild ==> PositionOf(childNodes, name, false, elem) == 1)
    {
      var name := if ofType then Some(childNodes[elem].name) else None;
      var back, again := kind != LastChild, kind == OnlyChild;
      b := true;
      while true
        invariant b && (again ==> kind == OnlyChild && back)
        invariant !again && kind == OnlyChild ==> !back && PositionOf(childNodes, name, true, elem) == 1
        invariant kind == FirstChild ==> back
        invariant kind == LastChild ==> !back
        decreases again
      {
        b := NoneBeside(elem, name, back);
        if !b || !again {
          return;
        }
        back, again := false, false;
      }
    }

    /** Walks away from `elem` until a counted child is met. */
    method NoneBeside(elem: nat, name: Option<string>, back: bool) returns (none: bool)
      requires elem < |childNodes| && Counts(name, childNodes[elem])
      ensures none <==> PositionOf(childNodes, name, back, elem) == 1
    {
      var node := elem;
      while if back then node > 0 else node + 1 < |childNodes|
        invariant 0 <= node < |childNodes| && if back then node <= elem else elem <= node
        invariant if back then CountTo(childNodes, name, elem) == CountTo(childNodes, name, node)
                  else CountTo(childNodes, name, node + 1) == CountTo(childNodes, name, elem + 1)
        decreases if back then node else |childNodes| - node
      {
        node := if back then node - 1 else node + 1;
        if Counts(name, childNodes[node]) {
          CountToMonotone(childNodes, name, node + 1, if back then elem else |childNodes|);
          CountToMonotone(childNodes, name, 0, node);
          return false;
        }
      }
      none := true;
    }

    /** :nth-child, :nth-last-child and their of-type forms, asked about child `elem`. */
    method Matches(elem: nat, ofType: bool, forward: bool, first: int, last: int, dirruns: nat, xml: bool)
      returns (b: bool)
      requires Consistent(dirruns) && elem < |childNodes| && childNodes[elem].element
      modifies this
      ensures Consistent(dirruns)
      ensures forall d | d != dirruns :: old(Consistent(d)) ==> Consistent(d)
      ensures var name := if ofType then Some(childNodes[elem].name) else None;
              b <==> InCycle(first, last, PositionOf(childNodes, name, forward, elem))
    {
      var name := if ofType then Some(childNodes[elem].name) else None;
      ghost var position := PositionOf(childNodes, name, forward, elem);
      CycleTest(first, last, position);
      if first == 1 && last == 0 {
        PositionPositive(childNodes, name, forward, elem);
        assert position == 1 * position + 0;
        return true;
      }
      var diff;
      if forward && !xml && !ofType {
        diff := SeekForward(elem, dirruns);
      } else if !xml && !ofType {
        diff := SeekBackward(elem, dirruns);
      } else {
        diff := SeekUncached(elem, name, forward);
      }
      b := Cycles(first, last, diff);
    }
  }

  lemma {:induction false} CountToMonotone(children: seq<Child>, ofType: Option<string>, j: nat, k: nat)
    requires j <= k <= |children|
    ensures CountTo(children, ofType, j) <= CountTo(children, ofType, k)
  {
    if j < k {
      CountToMonotone(children, ofType, j, k - 1);
    }
  }

  lemma PositionPositive(children: seq<Child>, ofType: Option<string>, forward: bool, k: nat)
    requires k < |children| && Counts(ofType, children[k])
    ensures PositionOf(children, ofType, forward, k) >= 1
  {
    CountToMonotone(children, ofType, k + 1, |children|);
  }
}
