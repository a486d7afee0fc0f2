/** Compiled matchers and what they compute without any memo. */
module Matchers {
  import opened Dom
  import opened Selectors

  /** `Combine` is what addCombinator returns: `done` is its private number. `Foundation` is the first matcher
      of every compiled group, with one combinator for a single context and one for an array of contexts. */
  datatype Matcher =
    | Leaf(filter: Simple)
    | IsContext
    | Combine(inner: Matcher, comb: Comb, base: bool, done: nat)
    | Foundation(leading: bool, one: Matcher, any: Matcher)
    | All(parts: seq<Matcher>)

  /** The nodes at which the walk of a combinator stops to ask its inner matcher. */
  predicate Stops(t: Tree, c: Comb, base: bool, n: nat)
    requires n < |t|
  {
    t[n].element || (base && c.Dir() == ParentNode)
  }

  /** The uncached evaluation, the one used for XML documents. */
  predicate Plain(t: Tree, cx: Context, m: Matcher, n: nat)
    requires n < |t|
    decreases m, n
  {
    match m
    case Leaf(f) => Holds(t, f, n)
    case IsContext => n in cx.nodes
    case Combine(inner, c, base, _) =>
      var next := Step(t, c.Dir(), n);
      && next >= 0
      && if Stops(t, c, base, next) then Plain(t, cx, inner, next) || (!c.First() && Plain(t, cx, m, next))
         else Plain(t, cx, m, next)
    case Foundation(leading, one, any) =>
      (!leading && cx.whole) || Plain(t, cx, if cx.many then any else one, n)
    case All(parts) => forall p | p in parts :: Plain(t, cx, p, n)
  }

  /** The matcher `elementMatcher` makes of a list. */
  function ElementMatcher(matchers: seq<Matcher>): Matcher
    requires |matchers| > 0
  {
    if |matchers| > 1 then All(matchers) else matchers[0]
  }

  predicate PlainAll(t: Tree, cx: Context, matchers: seq<Matcher>, n: nat)
    requires n < |t|
  {
    forall p | p in matchers :: Plain(t, cx, p, n)
  }

  // The shape of a compiled group

  /** The first matcher of a group, under the numbers from `done` on. */
  function FirstMatcher(token: Token, done: nat): (m: Matcher)
    ensures m.Foundation?
  {
    var c := if token.Rel? then token.comb else Descendant;
    Foundation(token.Rel?, Combine(IsContext, c, true, done), Combine(IsContext, c, true, done + 1))
  }

  /** A list of matchers, and the number for the next combinator. */
  datatype Building = Building(matchers: seq<Matcher>, done: nat)

  function Extended(b: Building, token: Token): (r: Building)
    requires |b.matchers| > 0
    ensures |r.matchers| > 0
  {
    match token
    case Rel(c) => Building([Combine(ElementMatcher(b.matchers), c, false, b.done)], b.done + 1)
    case Filter(f) => Building(b.matchers + [Leaf(f)], b.done)
  }

  /** The list after the first `i` tokens. */
  function BuildingOf(tokens: seq<Token>, done: nat, i: nat): (r: Building)
    requires i <= |tokens| && |tokens| > 0
    ensures |r.matchers| > 0
  {
    if i == 0 || (i == 1 && tokens[0].Rel?) then Building([FirstMatcher(tokens[0], done)], done + 2)
    else Extended(BuildingOf(tokens, done, i - 1), tokens[i - 1])
  }

  /** The matcher of a whole group. */
  function Compiled(tokens: seq<Token>, done: nat): Matcher
    requires |tokens| > 0
  {
    ElementMatcher(BuildingOf(tokens, done, |tokens|).matchers)
  }

  // A combinator's walk finds exactly the nodes in its relation

  lemma {:induction false} WalkAll(t: Tree, cx: Context, m: Matcher, n: nat)
    requires n < |t| && m.Combine? && !m.comb.First()
    ensures Plain(t, cx, m, n) <==>
            exists a: nat | a < |t| :: && Above(t, m.comb.Dir(), n, a)
                                       && Stops(t, m.comb, m.base, a) && Plain(t, cx, m.inner, a)
    decreases n
  {
    var next := Step(t, m.comb.Dir(), n);
    if next >= 0 {
      WalkAll(t, cx, m, next);
      assert Above(t, m.comb.Dir(), n, next);
    }
  }

  /** `a` is the closest node above `n` at which the walk of `m` stops. */
  ghost predicate Closest(t: Tree, m: Matcher, n: nat, a: nat)
    requires n < |t| && a < |t| && m.Combine?
  {
    && Above(t, m.comb.Dir(), n, a) && Stops(t, m.comb, m.base, a)
    && forall k: nat | a < k < n :: Above(t, m.comb.Dir(), n, k) ==> !Stops(t, m.comb, m.base, k)
  }

  lemma ClosestStep(t: Tree, m: Matcher, n: nat, a: nat)
    requires n < |t| && a < |t| && m.Combine? && Step(t, m.comb.Dir(), n) >= 0
    ensures var next := Step(t, m.comb.Dir(), n);
            Closest(t, m, n, a) <==> if Stops(t, m.comb, m.base, next) then a == next else Closest(t, m, next, a)
  {
    var d := m.comb.Dir();
    var next := Step(t, d, n);
    forall k: nat ensures Above(t, d, n, k) <==> k == next || Above(t, d, next, k) {
    }
    forall k: nat | Above(t, d, next, k) ensures k < next {
      AboveIsBefore(t, d, next, k);
    }
  }

  lemma {:induction false} WalkFirst(t: Tree, cx: Context, m: Matcher, n: nat)
    requires n < |t| && m.Combine? && m.comb.First()
    ensures Plain(t, cx, m, n) <==>
            exists a: nat | a < |t| :: Closest(t, m, n, a) && Plain(t, cx, m.inner, a)
    decreases n
  {
    var next := Step(t, m.comb.Dir(), n);
    if next >= 0 {
      WalkFirst(t, cx, m, next);
      forall a: nat | a < |t| ensures Closest(t, m, n, a) <==>
                                      if Stops(t, m.comb, m.base, next) then a == next else Closest(t, m, next, a) {
        ClosestStep(t, m, n, a);
      }
      if Stops(t, m.comb, m.base, next) {
        assert Closest(t, m, n, next);
      } else if a: nat :| a < |t| && Closest(t, m, next, a) && Plain(t, cx, m.inner, a) {
        assert Closest(t, m, n, a);
      }
    }
  }

  lemma CombineMeaning(t: Tree, cx: Context, m: Matcher, n: nat)
    requires n < |t| && m.Combine?
    ensures Plain(t, cx, m, n) <==>
            exists a: nat | a < |t| :: Related(t, m.comb, m.base, a, n) && Plain(t, cx, m.inner, a)
  {
    forall a: nat | a < |t|
      ensures Related(t, m.comb, m.base, a, n) <==>
              if m.comb.First() then Closest(t, m, n, a)
              else Above(t, m.comb.Dir(), n, a) && Stops(t, m.comb, m.base, a)
    {
      RelatedIsReached(t, m, n, a);
    }
    if m.comb.First() {
      WalkFirst(t, cx, m, n);
    } else {
      WalkAll(t, cx, m, n);
    }
  }

  lemma RelatedIsReached(t: Tree, m: Matcher, n: nat, a: nat)
    requires n < |t| && a < |t| && m.Combine?
    ensures Related(t, m.comb, m.base, a, n) <==>
            if m.comb.First() then Closest(t, m, n, a)
            else Above(t, m.comb.Dir(), n, a) && Stops(t, m.comb, m.base, a)
  {
    match m.comb
    case Descendant =>
    case Sibling => SiblingsAbove(t, n, a);
    case Adjacent =>
      forall k: nat | k < |t| {
        SiblingsAbove(t, n, k);
      }
    case Child =>
      if t[n].parent >= 0 {
        ClosestStep(t, m, n, a);
      }
  }

  lemma PlainAllSnoc(t: Tree, cx: Context, matchers: seq<Matcher>, m: Matcher, n: nat)
    requires n < |t|
    ensures PlainAll(t, cx, matchers + [m], n) <==> PlainAll(t, cx, matchers, n) && Plain(t, cx, m, n)
  {
    var longer := matchers + [m];
    assert m in longer && forall p | p in matchers :: p in longer;
  }

  /** The foundation checks exactly how the leftmost node must be related to the context. */
  lemma FoundationMeaning(t: Tree, cx: Context, m: Matcher, c: Comb, n: nat)
    requires n < |t| && m.Foundation?
    requires exists d :: m.one == Combine(IsContext, c, true, d)
    requires exists d :: m.any == Combine(IsContext, c, true, d)
    ensures Plain(t, cx, m, n) <==> Anchored(t, cx, m.leading, c, n)
  {
    CombineMeaning(t, cx, m.one, n);
    CombineMeaning(t, cx, m.any, n);
  }
}
