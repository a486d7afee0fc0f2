/** The compiler and the evaluator, with the state they keep between searches. */
module Sizzle {
  import opened Dom
  import opened Selectors
  import opened Matchers
  import opened DirCache

  /** The matchers in `matchers` together accept exactly the nodes that `tokens` selects. */
  ghost predicate Compiles(matchers: seq<Matcher>, tokens: seq<Token>)
    requires |tokens| > 0
  {
    forall t: Tree, cx, n: nat | n < |t| :: PlainAll(t, cx, matchers, n) <==> Selects(t, cx, tokens, n)
  }

  /** `m` accepts exactly the nodes that `tokens` selects. */
  ghost predicate CompilesTo(m: Matcher, tokens: seq<Token>)
    requires |tokens| > 0
  {
    forall t: Tree, cx, n: nat | n < |t| :: Plain(t, cx, m, n) <==> Selects(t, cx, tokens, n)
  }

  lemma CompilesFirst(foundation: Matcher, token: Token)
    requires foundation.Foundation? && foundation.leading == token.Rel?
    requires var c := if token.Rel? then token.comb else Descendant;
             && (exists d :: foundation.one == Combine(IsContext, c, true, d))
             && (exists d :: foundation.any == Combine(IsContext, c, true, d))
    ensures Compiles([foundation] + if token.Rel? then [] else [Leaf(token.filter)], [token])
  {
    var c := if token.Rel? then token.comb else Descendant;
    forall t: Tree, cx, n: nat | n < |t|
      ensures PlainAll(t, cx, [foundation] + if token.Rel? then [] else [Leaf(token.filter)], n) <==>
              Selects(t, cx, [token], n)
    {
      SelectsOne(t, cx, token, n);
      FoundationMeaning(t, cx, foundation, c, n);
      PlainAllSnoc(t, cx, [], foundation, n);
      assert [] + [foundation] == [foundation] == [foundation] + [];
      if token.Filter? {
        PlainAllSnoc(t, cx, [foundation], Leaf(token.filter), n);
      }
    }
  }

  lemma CompilesFilter(matchers: seq<Matcher>, tokens: seq<Token>, f: Simple)
    requires |tokens| > 0 && Compiles(matchers, tokens)
    ensures Compiles(matchers + [Leaf(f)], tokens + [Filter(f)])
  {
    forall t: Tree, cx, n: nat | n < |t|
      ensures PlainAll(t, cx, matchers + [Leaf(f)], n) <==> Selects(t, cx, tokens + [Filter(f)], n)
    {
      PlainAllSnoc(t, cx, matchers, Leaf(f), n);
      SelectsFilter(t, cx, tokens, f, n);
    }
  }

  lemma ElementMatcherMeaning(t: Tree, cx: Context, matchers: seq<Matcher>, n: nat)
    requires |matchers| > 0 && n < |t|
    ensures Plain(t, cx, ElementMatcher(matchers), n) <==> PlainAll(t, cx, matchers, n)
  {
    if |matchers| == 1 {
      assert matchers == [matchers[0]];
    }
  }

  lemma CompilesRel(matchers: seq<Matcher>, tokens: seq<Token>, c: Comb, done: nat)
    requires |tokens| > 0 && |matchers| > 0 && Compiles(matchers, tokens)
    ensures Compiles([Combine(ElementMatcher(matchers), c, false, done)], tokens + [Rel(c)])
  {
    var m := Combine(ElementMatcher(matchers), c, false, done);
    forall t: Tree, cx, n: nat | n < |t|
      ensures PlainAll(t, cx, [m], n) <==> Selects(t, cx, tokens + [Rel(c)], n)
    {
      assert m in [m];
      CombineMeaning(t, cx, m, n);
      SelectsRel(t, cx, tokens, c, n);
      forall a: nat | a < |t|
        ensures Plain(t, cx, m.inner, a) <==> Selects(t, cx, tokens, a)
      {
        ElementMatcherMeaning(t, cx, matchers, a);
      }
    }
  }

  lemma ExtendedCompiles(b: Building, tokens: seq<Token>, token: Token)
    requires |b.matchers| > 0 && |tokens| > 0 && Compiles(b.matchers, tokens)
    ensures Compiles(Extended(b, token).matchers, tokens + [token])
  {
    match token
    case Rel(c) => CompilesRel(b.matchers, tokens, c, b.done);
    case Filter(f) => CompilesFilter(b.matchers, tokens, f);
  }

  /** What the matchers of the first `i` tokens accept. */
  lemma {:induction false} BuildingCompiles(tokens: seq<Token>, done: nat, i: nat)
    requires 0 < i <= |tokens|
    ensures Compiles(BuildingOf(tokens, done, i).matchers, tokens[..i])
  {
    if i == 1 {
      var m := FirstMatcher(tokens[0], done);
      CompilesFirst(m, tokens[0]);
      assert tokens[..1] == [tokens[0]] && [m] + [] == [m];
    } else {
      BuildingCompiles(tokens, done, i - 1);
      assert tokens[..i] == tokens[..i - 1] + [tokens[i - 1]];
      ExtendedCompiles(BuildingOf(tokens, done, i - 1), tokens[..i - 1], tokens[i - 1]);
    }
  }

  /** The compiled matcher accepts exactly the nodes that its group selects. */
  lemma CompiledMeaning(tokens: seq<Token>, done: nat)
    requires |tokens| > 0
    ensures CompilesTo(Compiled(tokens, done), tokens)
  {
    BuildingCompiles(tokens, done, |tokens|);
    assert tokens[..|tokens|] == tokens;
    forall t: Tree, cx, n: nat | n < |t| {
      ElementMatcherMeaning(t, cx, BuildingOf(tokens, done, |tokens|).matchers, n);
    }
  }

  /** The first matcher of the list has registered combinators, the others are simple filters. */
  ghost predicate Built(matchers: seq<Matcher>, made: seq<Matcher>, done: nat) {
    |matchers| > 0 && Registered(matchers[0], made, done) && forall j | 0 < j < |matchers| :: matchers[j].Leaf?
  }

  /** The compiled function of a selector list: its groups and the run counter it keeps across searches. */
  class SuperMatcher {
    const elementMatchers: seq<Matcher>
    var matcherCachedRuns: nat

    constructor (elementMatchers: seq<Matcher>)
      ensures this.elementMatchers == elementMatchers
    {
      this.elementMatchers := elementMatchers;
      matcherCachedRuns := 0;
    }
  }

  predicate AnyAccepts(t: Tree, cx: Context, matchers: seq<Matcher>, n: nat)
    requires n < |t|
  {
    exists m | m in matchers :: Plain(t, cx, m, n)
  }

  /** The elements of `elems` that some matcher accepts, in order. */
  function Accepted(t: Tree, cx: Context, matchers: seq<Matcher>, elems: seq<nat>): (r: seq<nat>)
    requires forall i | 0 <= i < |elems| :: elems[i] < |t|
  {
    if elems == [] then []
    else
      var k := |elems| - 1;
      Accepted(t, cx, matchers, elems[..k]) +
      if AnyAccepts(t, cx, matchers, elems[k]) then [elems[k]] else []
  }

  ghost predicate AnySelects(t: Tree, cx: Context, groups: seq<seq<Token>>, n: nat)
    requires n < |t| && forall g | g in groups :: |g| > 0
  {
    exists g | g in groups :: Selects(t, cx, g, n)
  }

  /** Some matcher accepts a node iff some group selects it. */
  ghost predicate AcceptsAny(matchers: seq<Matcher>, groups: seq<seq<Token>>)
    requires forall g | g in groups :: |g| > 0
  {
    forall t: Tree, cx, n: nat | n < |t| :: AnyAccepts(t, cx, matchers, n) <==> AnySelects(t, cx, groups, n)
  }

  lemma AcceptsAnyMore(matchers: seq<Matcher>, m: Matcher, g: seq<Token>, groups: seq<seq<Token>>)
    requires |g| > 0 && CompilesTo(m, g) && (forall h | h in groups :: |h| > 0) && AcceptsAny(matchers, groups)
    ensures AcceptsAny(matchers + [m], [g] + groups)
  {
    var matchers', groups' := matchers + [m], [g] + groups;
    forall t: Tree, cx, n: nat | n < |t| ensures AnyAccepts(t, cx, matchers', n) <==> AnySelects(t, cx, groups', n) {
      assert AnyAccepts(t, cx, matchers, n) <==> AnySelects(t, cx, groups, n);
      assert m in matchers' && forall p | p in matchers :: p in matchers';
      assert g in groups' && forall h | h in groups :: h in groups';
    }
  }

  class Engine {
    var done: nat
    var dirruns: nat
    var cachedruns: nat
    var memo: Memo
    ghost var made: seq<Matcher>

    /** Combinators are numbered in the order in which they are made, and no slot is from a later search. */
    ghost predicate Valid()
      reads this
    {
      |made| == done && forall key | key in memo :: memo[key].dirruns <= dirruns
    }

    constructor ()
      ensures Valid()
    {
      done, dirruns, cachedruns, memo, made := 0, 0, 0, map[], [];
    }

    method AddCombinator(inner: Matcher, comb: Comb, base: bool) returns (m: Matcher)
      requires Valid() && Registered(inner, made, done)
      modifies this`done, this`made
      ensures Valid() && Registered(m, made, done)
      ensures m == Combine(inner, comb, base, old(done)) && done == old(done) + 1 && made == old(made) + [m]
    {
      m := Combine(inner, comb, base, done);
      RegisteredMore(inner, made, made + [m], done, done);
      made := made + [m];
      done := done + 1;
    }

    /** The foundational matcher of a group: the leftmost node is reachable from the context. */
    method MakeFoundation(token: Token) returns (m: Matcher)
      requires Valid()
      modifies this`done, this`made
      ensures Valid() && old(made) <= made && Registered(m, made, done)
      ensures m == FirstMatcher(token, old(done)) && done == old(done) + 2
      ensures Compiles([m] + if token.Rel? then [] else [Leaf(token.filter)], [token])
    {
      var implicitRelative := if token.Rel? then token.comb else Descendant;
      var one := AddCombinator(IsContext, implicitRelative, true);
      var any := AddCombinator(IsContext, implicitRelative, true);
      RegisteredMore(one, made[..done - 1], made, done - 1, done);
      m := Foundation(token.Rel?, one, any);
      CompilesFirst(m, token);
    }

    /** One round of the compiling loop: a combinator condenses the list into one matcher, a filter joins it. */
    method AddToken(matchers: seq<Matcher>, token: Token) returns (longer: seq<Matcher>)
      requires Valid() && Built(matchers, made, done)
      modifies this`done, this`made
      ensures Valid() && old(made) <= made && Built(longer, made, done)
      ensures Building(longer, done) == Extended(Building(matchers, old(done)), token)
    {
      match token {
        case Rel(comb) =>
          var head := AddCombinator(ElementMatcher(matchers), comb, false);
          longer := [head];
        case Filter(f) =>
          longer := matchers + [Leaf(f)];
      }
    }

    /** Compiles one group without positional filters: the matcher that the tokens determine, which accepts exactly
        the nodes that they select. */
    method MatcherFromTokens(tokens: seq<Token>) returns (m: Matcher)
      requires Valid() && |tokens| > 0
      modifies this`done, this`made
      ensures Valid() && old(made) <= made && Registered(m, made, done)
      ensures CompilesTo(m, tokens) && m == Compiled(tokens, old(done))
    {
      var foundation := MakeFoundation(tokens[0]);
      var matchers := [foundation];
      var i := if tokens[0].Rel? then 1 else 0;
      while i < |tokens|
        invariant i <= |tokens| && Valid() && old(made) <= made && Built(matchers, made, done)
        invariant Building(matchers, done) == BuildingOf(tokens, old(done), i) && (tokens[0].Rel? ==> i > 0)
      {
        matchers := AddToken(matchers, tokens[i]);
        i := i + 1;
      }
      CompiledMeaning(tokens, old(done));
      m := ElementMatcher(matchers);
    }

    /** Asks matcher `m` about node `n`, with the memo. */
    method Match(t: Tree, cx: Context, m: Matcher, n: nat) returns (b: bool)
      requires n < |t|
      modifies this`memo
      ensures (b, memo) == Eval(t, cx, Run(dirruns, cachedruns), m, n, old(memo))
      decreases m
    {
      ghost var run := Run(dirruns, cachedruns);
      match m {
        case Leaf(f) => b := Holds(t, f, n);
        case IsContext => b := n in cx.nodes;
        case Foundation(leading, one, any) =>
          if !leading && cx.whole {
            b := true;
          } else if cx.many {
            b := Match(t, cx, any, n);
          } else {
            b := Match(t, cx, one, n);
          }
        case All(parts) =>
          var i := |parts|;
          while i > 0
            invariant 0 <= i <= |parts|
            invariant EvalLast(t, cx, run, m, i, n, memo) == Eval(t, cx, run, m, n, old(memo))
          {
            i := i - 1;
            b := Match(t, cx, parts[i], n);
            if !b {
              return;
            }
          }
          b := true;
        case Combine(inner, comb, base, doneName) =>
          var dir := comb.Dir();
          var elem := n;
          while Step(t, dir, elem) >= 0
            invariant 0 <= elem < |t|
            invariant Eval(t, cx, run, m, elem, memo) == Eval(t, cx, run, m, n, old(memo))
            decreases elem
          {
            elem := Step(t, dir, elem);
            if Stops(t, comb, base, elem) {
              if comb.First() {
                b := Match(t, cx, inner, elem);
                return;
              }
              var key := Place(elem, dir);
              if key in memo && memo[key].dirruns == dirruns && memo[key].done == doneName {
                if memo[key].data == Yes || memo[key].data == Ran(cachedruns) {
                  b := memo[key].data == Yes;
                  return;
                }
              } else {
                memo := memo[key := Slot(dirruns, doneName, Unset)];
                b := Match(t, cx, inner, elem);
                memo := memo[key := Slot(dirruns, doneName, if b then Yes else Ran(cachedruns))];
                if b {
                  return;
                }
              }
            }
          }
          b := false;
      }
    }

    /** Compiles the groups of a selector list, last one first. */
    method Compile(groups: seq<seq<Token>>) returns (sm: SuperMatcher)
      requires Valid() && forall g | g in groups :: |g| > 0
      modifies this`done, this`made
      ensures Valid() && fresh(sm)
      ensures forall m | m in sm.elementMatchers :: Registered(m, made, done)
      ensures AcceptsAny(sm.elementMatchers, groups)
    {
      var matchers: seq<Matcher> := [];
      var i := |groups|;
      while i > 0
        invariant 0 <= i <= |groups| && Valid()
        invariant forall m | m in matchers :: Registered(m, made, done)
        invariant AcceptsAny(matchers, groups[i..])
      {
        i := i - 1;
        ghost var before, bound := made, done;
        var m := MatcherFromTokens(groups[i]);
        forall p | p in matchers ensures Registered(p, made, done) {
          RegisteredMore(p, before, made, bound, done);
        }
        assert groups[i..] == [groups[i]] + groups[i + 1..];
        AcceptsAnyMore(matchers, m, groups[i], groups[i + 1..]);
        matchers := matchers + [m];
      }
      assert groups[0..] == groups;
      sm := new SuperMatcher(matchers);
    }

    /** Runs a compiled selector over `elems`: one new search number, one new run number for each element. */
    method SuperMatch(sm: SuperMatcher, t: Tree, cx: Context, elems: seq<nat>, results: seq<nat>)
      returns (out: seq<nat>)
      requires Valid() && forall m | m in sm.elementMatchers :: Registered(m, made, done)
      requires forall i | 0 <= i < |elems| :: elems[i] < |t|
      modifies this`memo, this`dirruns, this`cachedruns, sm`matcherCachedRuns
      ensures Valid() && out == results + Accepted(t, cx, sm.elementMatchers, elems)
    {
      dirruns := dirruns + 1;
      cachedruns := sm.matcherCachedRuns;
      out := results;
      var i := 0;
      while i < |elems|
        invariant 0 <= i <= |elems| && Valid() && cachedruns == sm.matcherCachedRuns
        invariant Ready(t, cx)
        invariant out == results + Accepted(t, cx, sm.elementMatchers, elems[..i])
      {
        assert elems[..i + 1][..i] == elems[..i];
        var matched := MatchAny(sm.elementMatchers, t, cx, elems[i]);
        if matched {
          out := out + [elems[i]];
        }
        NextElement(t, cx, Run(dirruns, cachedruns), made, memo, done);
        sm.matcherCachedRuns := sm.matcherCachedRuns + 1;
        cachedruns := sm.matcherCachedRuns;
        i := i + 1;
      }
      assert elems[..i] == elems;
    }

    /** The slots as they are between two elements of a search. */
    ghost predicate Ready(t: Tree, cx: Context)
      reads this
    {
      var run := Run(dirruns, cachedruns);
      Truthful(t, cx, run, made, memo) && Filled(run, memo, done) && Settled(t, cx, run, made, memo, done)
    }

    /** Asks the matchers about one element until one accepts it. */
    method MatchAny(matchers: seq<Matcher>, t: Tree, cx: Context, elem: nat) returns (matched: bool)
      requires Valid() && Ready(t, cx) && elem < |t|
      requires forall m | m in matchers :: Registered(m, made, done)
      modifies this`memo
      ensures Valid() && matched == AnyAccepts(t, cx, matchers, elem)
      ensures Truthful(t, cx, Run(dirruns, cachedruns), made, memo) && Filled(Run(dirruns, cachedruns), memo, done)
    {
      ghost var run := Run(dirruns, cachedruns);
      matched := false;
      var j := 0;
      while j < |matchers| && !matched
        invariant 0 <= j <= |matchers| && Valid()
        invariant Truthful(t, cx, run, made, memo) && Filled(run, memo, done)
        invariant !matched ==> Settled(t, cx, run, made, memo, done)
        invariant matched == exists k | 0 <= k < j :: Plain(t, cx, matchers[k], elem)
      {
        ghost var before := memo;
        EvalOk(t, cx, run, made, matchers[j], elem, memo, done);
        matched := Match(t, cx, matchers[j], elem);
        forall key | key in memo ensures memo[key].dirruns <= dirruns {
          assert SameAt(before, memo, key) || Current(run, memo, key, done);
        }
        j := j + 1;
      }
    }
  }
}
