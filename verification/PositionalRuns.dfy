/** Set matchers whose filters are compiled groups: every condense runs its filter with the memo, under the run number
    of the element before the search. What this computes equals the matcher on sets of nodes as far as no condense
    loses an entry. */
module PositionalRuns {
  import opened Helpers
  import opened Dom
  import opened Selectors
  import opened Matchers
  import opened DirCache
  import Sizzle
  import opened SharedRuns
  import opened SetMatchers

  /** The tokens of a filter, and the number of its first combinator. */
  datatype Group = Group(tokens: seq<Token>, done: nat) {
    function Matcher(): Matcher
      requires tokens != []
    {
      Compiled(tokens, done)
    }

    /** The number after its last combinator. */
    function End(): nat
      requires tokens != []
    {
      BuildingOf(tokens, done, |tokens|).done
    }
  }

  datatype Positional = Positional(pre: Option<Group>, position: Option<Position>, post: Option<Positional>) {
    predicate Valid() {
      && (position.None? ==> pre.Some? && post.None?)
      && (pre.Some? ==> pre.value.tokens != []) && (post.Some? ==> post.value.Valid())
    }

    /** No number is given to two combinators: the filters are compiled from left to right. */
    predicate Numbered(done: nat)
      requires Valid()
    {
      && (pre.Some? ==> pre.value.done >= done)
      && (post.Some? ==> post.value.Numbered(if pre.Some? then pre.value.End() else done))
    }

    /** Every filter walks with a memo at one token at most. */
    predicate FewWalks(cx: Context)
      requires Valid()
    {
      && (pre.Some? ==> forall i, j | 0 <= i < j < |pre.value.tokens| ::
                          !(WalksAt(pre.value.tokens, cx, i) && WalksAt(pre.value.tokens, cx, j)))
      && (post.Some? ==> post.value.FewWalks(cx))
    }

    /** The matcher whose filters are the nodes that the groups accept. */
    function OnSets(t: Tree, cx: Context): (r: SetMatcher)
      requires Valid()
      ensures r.Valid()
    {
      SetMatcher(if pre.None? then None else Some(AcceptedNodes(t, cx, pre.value.Matcher())), position,
                 if post.None? then None else Some(post.value.OnSets(t, cx)))
    }
  }

  /** The elements in the two arrays are nodes of the tree. */
  predicate Inside(t: Tree, from: Slots, to: Slots) {
    |from| == |to| && Within(t, from) && Within(t, to)
  }

  /** The list that the post-filter gets. */
  function ToFilter(m: Positional, from: Slots, to: Slots): (r: Slots)
    requires |from| == |to|
  {
    var to1 := Moved(from, to, Named(m.position, from)).1;
    Gather(to1, Kept(None, to1))
  }

  lemma ToFilterInside(t: Tree, m: Positional, from: Slots, to: Slots)
    requires Inside(t, from, to)
    ensures Within(t, ToFilter(m, from, to)) && Within(t, Holes(|ToFilter(m, from, to)|))
  {
  }

  /** The primary match and the post-filter, with the slots. */
  function CoreEval(t: Tree, cx: Context, run: Run, m: Positional, from: Slots, to: Slots, memo: Memo)
    : (r: ((Slots, Slots), Memo))
    requires m.Valid() && Inside(t, from, to)
    ensures |r.0.0| == |r.0.1| == |from|
    decreases m, 0
  {
    var (from1, to1) := Moved(from, to, Named(m.position, from));
    if m.post.None? then ((from1, to1), memo)
    else
      var list := ToFilter(m, from, to);
      ToFilterInside(t, m, from, to);
      var (temp, memo') := RunEval(t, cx, run, m.post.value, list, Holes(|list|), memo);
      var (to2, from2) := Moved(to1, from1, Image(temp.0, Kept(None, to1)));
      ((from2, to2), memo')
  }

  /** The whole set matcher, with the slots. */
  function RunEval(t: Tree, cx: Context, run: Run, m: Positional, seed: Slots, results: Slots, memo: Memo)
    : (r: ((Slots, Slots), Memo))
    requires m.Valid() && Inside(t, seed, results)
    ensures |r.0.0| == |r.0.1| == |seed|
    decreases m, 1
  {
    if m.pre.None? then CoreEval(t, cx, run, m, seed, results, memo)
    else
      var (preMap, memo1) := KeptEval(t, cx, run, m.pre.value.Matcher(), seed, memo);
      var (out, memo2) := CoreEval(t, cx, run, m, Gather(seed, preMap), Holes(|preMap|), memo1);
      (Moved(seed, results, Image(out.1, preMap)), memo2)
  }

  // The matcher in place

  /** Every element in `slots` is the one of `list` at the same index. */
  predicate PartOf(slots: Slots, list: Slots) {
    |slots| == |list| && forall k | 0 <= k < |slots| && slots[k].At? :: slots[k] == list[k]
  }

  lemma CorePartOf(t: Tree, cx: Context, run: Run, m: Positional, list: Slots, memo: Memo)
    requires m.Valid() && Within(t, list)
    ensures var r := CoreEval(t, cx, run, m, list, Holes(|list|), memo).0;
            PartOf(r.0, list) && PartOf(r.1, list)
  {
  }

  lemma RunPartOf(t: Tree, cx: Context, run: Run, m: Positional, list: Slots, memo: Memo)
    requires m.Valid() && Within(t, list)
    ensures PartOf(RunEval(t, cx, run, m, list, Holes(|list|), memo).0.0, list)
  {
    if m.pre.None? {
      CorePartOf(t, cx, run, m, list, memo);
    }
  }

  /** The primary match and the post-filter, in place. */
  method MatchCore(engine: Sizzle.Engine, t: Tree, cx: Context, m: Positional, from: array<SetMatchers.Slot>,
                   to: array<SetMatchers.Slot>)
    requires m.Valid() && m.position.Some? && from != to && Inside(t, from[..], to[..])
    modifies from, to, engine`memo
    ensures ((from[..], to[..]), engine.memo) ==
            CoreEval(t, cx, Run(engine.dirruns, engine.cachedruns), m, old(from[..]), old(to[..]), old(engine.memo))
    decreases m, 0
  {
    MatchPositions(m.position.value, from, to);
    if m.post.Some? {
      var temp, postMap := SetMatchers.Condense(None, to);
      var matched := new SetMatchers.Slot[temp.Length](_ => Hole);
      ghost var list := temp[..];
      assert matched[..] == Holes(|postMap|);
      RunPartOf(t, cx, Run(engine.dirruns, engine.cachedruns), m.post.value, list, engine.memo);
      MatchSet(engine, t, cx, m.post.value, temp, matched);
      MoveThrough(temp, postMap, to, from);
    }
  }

  /** The function that setMatcher returns, called with a seed. */
  method MatchSet(engine: Sizzle.Engine, t: Tree, cx: Context, m: Positional, seed: array<SetMatchers.Slot>,
                  results: array<SetMatchers.Slot>)
    requires m.Valid() && seed != results && Inside(t, seed[..], results[..])
    modifies seed, results, engine`memo
    ensures ((seed[..], results[..]), engine.memo) ==
            RunEval(t, cx, Run(engine.dirruns, engine.cachedruns), m, old(seed[..]), old(results[..]),
                    old(engine.memo))
    decreases m, 1
  {
    if m.pre.None? {
      MatchCore(engine, t, cx, m, seed, results);
    } else {
      ghost var run := Run(engine.dirruns, engine.cachedruns);
      KeptEvalAscends(t, cx, run, m.pre.value.Matcher(), seed[..], engine.memo);
      var matcherIn, preMap := SharedRuns.Condense(engine, t, cx, m.pre.value.Matcher(), seed);
      ghost var list := matcherIn[..];
      CorePartOf(t, cx, run, m, list, engine.memo);
      var matcherOut := matcherIn;
      if m.position.Some? {
        matcherOut := new SetMatchers.Slot[matcherIn.Length](_ => Hole);
        assert matcherOut[..] == Holes(|preMap|);
        MatchCore(engine, t, cx, m, matcherIn, matcherOut);
      } else {
        AllNamed(list);
      }
      MoveThrough(matcherOut, preMap, seed, results);
    }
  }

  /** Without a positional filter everything moves. */
  lemma AllNamed(list: Slots)
    ensures Moved(list, Holes(|list|), Named(None, list)).1 == list
  {
  }

  // Every condense keeps what it should

  ghost predicate CoreRight(t: Tree, cx: Context, run: Run, m: Positional, from: Slots, to: Slots, memo: Memo)
    requires m.Valid() && Inside(t, from, to)
    decreases m, 0
  {
    var list := ToFilter(m, from, to);
    ToFilterInside(t, m, from, to);
    m.post.Some? ==> RunRight(t, cx, run, m.post.value, list, Holes(|list|), memo)
  }

  ghost predicate RunRight(t: Tree, cx: Context, run: Run, m: Positional, seed: Slots, results: Slots, memo: Memo)
    requires m.Valid() && Inside(t, seed, results)
    decreases m, 1
  {
    if m.pre.None? then CoreRight(t, cx, run, m, seed, results, memo)
    else
      var (preMap, memo1) := KeptEval(t, cx, run, m.pre.value.Matcher(), seed, memo);
      && preMap == KeptPlain(t, cx, m.pre.value.Matcher(), seed)
      && CoreRight(t, cx, run, m, Gather(seed, preMap), Holes(|preMap|), memo1)
  }

  lemma {:induction false} CoreOnSets(t: Tree, cx: Context, run: Run, m: Positional, from: Slots, to: Slots, memo: Memo)
    requires m.Valid() && Inside(t, from, to) && CoreRight(t, cx, run, m, from, to, memo)
    ensures CoreEval(t, cx, run, m, from, to, memo).0 == Core(m.OnSets(t, cx), from, to)
    decreases m, 0
  {
    if m.post.Some? {
      var list := ToFilter(m, from, to);
      ToFilterInside(t, m, from, to);
      RunOnSets(t, cx, run, m.post.value, list, Holes(|list|), memo);
    }
  }

  /** Then the whole matcher is the one on sets of nodes. */
  lemma {:induction false} RunOnSets(t: Tree, cx: Context, run: Run, m: Positional, seed: Slots, results: Slots,
                                     memo: Memo)
    requires m.Valid() && Inside(t, seed, results) && RunRight(t, cx, run, m, seed, results, memo)
    ensures RunEval(t, cx, run, m, seed, results, memo).0 == SetMatchers.Run(m.OnSets(t, cx), seed, results)
    decreases m, 1
  {
    if m.pre.None? {
      CoreOnSets(t, cx, run, m, seed, results, memo);
    } else {
      var (preMap, memo1) := KeptEval(t, cx, run, m.pre.value.Matcher(), seed, memo);
      CoreOnSets(t, cx, run, m, Gather(seed, preMap), Holes(|preMap|), memo1);
    }
  }

  // The numbers of the slots

  /** No slot of the search that is running has a number from `done` on. */
  predicate Unused(run: Run, memo: Memo, done: nat) {
    forall key | key in memo && memo[key].dirruns == run.dirruns :: memo[key].done < done
  }

  /** All combinators have numbers below `bound`. */
  predicate Below(m: Matcher, bound: nat) {
    match m
    case Leaf(_) => true
    case IsContext => true
    case Combine(inner, _, _, done) => done < bound && Below(inner, bound)
    case Foundation(_, one, any) => Below(one, bound) && Below(any, bound)
    case All(parts) => forall p | p in parts :: Below(p, bound)
  }

  lemma {:induction false} BelowMore(m: Matcher, bound: nat, more: nat)
    requires Below(m, bound) && bound <= more
    ensures Below(m, more)
  {
    match m
    case Leaf(_) =>
    case IsContext =>
    case Combine(inner, _, _, _) => BelowMore(inner, bound, more);
    case Foundation(_, one, any) =>
      BelowMore(one, bound, more);
      BelowMore(any, bound, more);
    case All(parts) =>
      forall p | p in parts {
        BelowMore(p, bound, more);
      }
  }

  predicate AllBelow(ms: seq<Matcher>, bound: nat) {
    forall m | m in ms :: Below(m, bound)
  }

  lemma ExtendedBelow(b: Building, token: Token)
    requires |b.matchers| > 0 && AllBelow(b.matchers, b.done)
    ensures AllBelow(Extended(b, token).matchers, Extended(b, token).done)
  {
    if token.Rel? {
      BelowMore(ElementMatcher(b.matchers), b.done, b.done + 1);
    }
  }

  lemma {:induction false} BuildsBelow(tokens: seq<Token>, done: nat, i: nat)
    requires tokens != [] && i <= |tokens|
    ensures AllBelow(BuildingOf(tokens, done, i).matchers, BuildingOf(tokens, done, i).done)
    ensures BuildingOf(tokens, done, i).done >= done
  {
    if !(i == 0 || (i == 1 && tokens[0].Rel?)) {
      BuildsBelow(tokens, done, i - 1);
      ExtendedBelow(BuildingOf(tokens, done, i - 1), tokens[i - 1]);
    } else {
      var f := FirstMatcher(tokens[0], done);
      assert Below(f.one.inner, done + 2) && Below(f.one, done + 2) && Below(f.any, done + 2);
    }
  }

  lemma {:induction false} EvalUnused(t: Tree, cx: Context, run: Run, m: Matcher, n: nat, memo: Memo, done: nat)
    requires n < |t| && Below(m, done) && Unused(run, memo, done)
    ensures Unused(run, Eval(t, cx, run, m, n, memo).1, done)
    decreases m, n + 1, 0
  {
    match m
    case Leaf(_) =>
    case IsContext =>
    case Foundation(leading, one, any) =>
      if leading || !cx.whole {
        EvalUnused(t, cx, run, if cx.many then any else one, n, memo, done);
      }
    case All(parts) => LastUnused(t, cx, run, m, |parts|, n, memo, done);
    case Combine(inner, c, base, number) =>
      var next := Step(t, c.Dir(), n);
      if next < 0 {
      } else if !Stops(t, c, base, next) {
        EvalUnused(t, cx, run, m, next, memo, done);
      } else if c.First() {
        EvalUnused(t, cx, run, inner, next, memo, done);
      } else {
        var key := Place(next, c.Dir());
        var memo1 := memo[key := DirCache.Slot(run.dirruns, number, Unset)];
        EvalUnused(t, cx, run, m, next, memo, done);
        EvalUnused(t, cx, run, inner, next, memo1, done);
        var memo2 := Eval(t, cx, run, inner, next, memo1).1;
        EvalUnused(t, cx, run, m, next, memo2[key := DirCache.Slot(run.dirruns, number, Ran(run.cachedruns))], done);
      }
  }

  lemma {:induction false} LastUnused(t: Tree, cx: Context, run: Run, m: Matcher, k: nat, n: nat, memo: Memo, done: nat)
    requires n < |t| && m.All? && k <= |m.parts| && Below(m, done) && Unused(run, memo, done)
    ensures Unused(run, EvalLast(t, cx, run, m, k, n, memo).1, done)
    decreases m, 0, k
  {
    if k > 0 {
      EvalUnused(t, cx, run, m.parts[k - 1], n, memo, done);
      LastUnused(t, cx, run, m, k - 1, n, Eval(t, cx, run, m.parts[k - 1], n, memo).1, done);
    }
  }

  lemma {:induction false} KeptUnused(t: Tree, cx: Context, run: Run, m: Matcher, list: Slots, memo: Memo, done: nat)
    requires Within(t, list) && Below(m, done) && Unused(run, memo, done)
    ensures Unused(run, KeptEval(t, cx, run, m, list, memo).1, done)
  {
    if list != [] {
      var k := |list| - 1;
      KeptUnused(t, cx, run, m, list[..k], memo, done);
      if list[k].At? {
        EvalUnused(t, cx, run, m, list[k].node, KeptEval(t, cx, run, m, list[..k], memo).1, done);
      }
    }
  }

  /** After a filter the numbers from its end on are unused. */
  lemma GroupUnused(t: Tree, cx: Context, run: Run, g: Group, list: Slots, memo: Memo)
    requires Within(t, list) && g.tokens != [] && Unused(run, memo, g.done)
    ensures Unused(run, KeptEval(t, cx, run, g.Matcher(), list, memo).1, g.End()) && g.End() >= g.done
  {
    BuildsBelow(g.tokens, g.done, |g.tokens|);
    KeptUnused(t, cx, run, g.Matcher(), list, memo, g.End());
  }

  // The exact condition

  /** No two entries of the list collide on the memoised walk of the filter. */
  ghost predicate Clear(t: Tree, cx: Context, g: Group, list: Slots)
    requires Within(t, list) && g.tokens != []
  {
    forall i | 0 <= i < |g.tokens| && OnlyWalk(g.tokens, cx, i) ::
      var m, w := g.Matcher(), WalkAt(g.tokens, g.done, cx, i);
      Memoised(w, cx) && Single(m, cx, w) && forall j, k | 0 <= j < k < |list| :: !Clash(t, cx, m, w, list, j, k)
  }

  ghost predicate CoreClear(t: Tree, cx: Context, m: Positional, from: Slots, to: Slots)
    requires m.Valid() && Inside(t, from, to)
    decreases m, 0
  {
    var list := ToFilter(m, from, to);
    ToFilterInside(t, m, from, to);
    m.post.Some? ==> RunClear(t, cx, m.post.value, list, Holes(|list|))
  }

  /** No filter of the set matcher gets a list with such entries. */
  ghost predicate RunClear(t: Tree, cx: Context, m: Positional, seed: Slots, results: Slots)
    requires m.Valid() && Inside(t, seed, results)
    decreases m, 1
  {
    if m.pre.None? then CoreClear(t, cx, m, seed, results)
    else
      var preMap := KeptPlain(t, cx, m.pre.value.Matcher(), seed);
      Clear(t, cx, m.pre.value, seed) && CoreClear(t, cx, m, Gather(seed, preMap), Holes(|preMap|))
  }

  lemma WalkNumber(tokens: seq<Token>, done: nat, cx: Context, i: nat)
    requires i < |tokens| && WalksAt(tokens, cx, i)
    ensures WalkAt(tokens, done, cx, i).Combine? && WalkAt(tokens, done, cx, i).done >= done
  {
    if i > 0 {
      ExtendedHead(tokens, done, i);
      BuildsBelow(tokens, done, i);
    }
  }

  lemma FilterExactly(t: Tree, cx: Context, run: Run, g: Group, list: Slots, memo: Memo)
    requires Within(t, list) && g.tokens != [] && Unused(run, memo, g.done)
    requires forall i, j | 0 <= i < j < |g.tokens| :: !(WalksAt(g.tokens, cx, i) && WalksAt(g.tokens, cx, j))
    ensures KeptEval(t, cx, run, g.Matcher(), list, memo).0 == KeptPlain(t, cx, g.Matcher(), list) <==>
            Clear(t, cx, g, list)
  {
    if i :| 0 <= i < |g.tokens| && WalksAt(g.tokens, cx, i) {
      WalkNumber(g.tokens, g.done, cx, i);
      assert OnlyWalk(g.tokens, cx, i);
      OneWalk(t, cx, run, g.tokens, g.done, i, list, memo);
    } else {
      NoWalk(t, cx, run, g.tokens, g.done, list, memo);
      forall i | 0 <= i < |g.tokens| ensures !OnlyWalk(g.tokens, cx, i) {
        assert !WalksAt(g.tokens, cx, i);
      }
    }
  }

  lemma {:induction false} CoreExactly(t: Tree, cx: Context, run: Run, m: Positional, from: Slots, to: Slots,
                                       memo: Memo, done: nat)
    requires m.Valid() && Inside(t, from, to) && m.FewWalks(cx) && Unused(run, memo, done)
    requires m.post.Some? ==> m.post.value.Numbered(done)
    ensures CoreRight(t, cx, run, m, from, to, memo) <==> CoreClear(t, cx, m, from, to)
    decreases m, 0
  {
    if m.post.Some? {
      var list := ToFilter(m, from, to);
      ToFilterInside(t, m, from, to);
      RunExactly(t, cx, run, m.post.value, list, Holes(|list|), memo, done);
    }
  }

  /** Exactly when every condense of a set matcher keeps what it should. */
  lemma {:induction false} RunExactly(t: Tree, cx: Context, run: Run, m: Positional, seed: Slots, results: Slots,
                                      memo: Memo, done: nat)
    requires m.Valid() && Inside(t, seed, results) && m.FewWalks(cx) && m.Numbered(done) && Unused(run, memo, done)
    ensures RunRight(t, cx, run, m, seed, results, memo) <==> RunClear(t, cx, m, seed, results)
    decreases m, 1
  {
    if m.pre.None? {
      CoreExactly(t, cx, run, m, seed, results, memo, done);
    } else {
      var g := m.pre.value;
      FilterExactly(t, cx, run, g, seed, memo);
      GroupUnused(t, cx, run, g, seed, memo);
      var (preMap, memo1) := KeptEval(t, cx, run, g.Matcher(), seed, memo);
      if preMap == KeptPlain(t, cx, g.Matcher(), seed) {
        CoreExactly(t, cx, run, m, Gather(seed, preMap), Holes(|preMap|), memo1, g.End());
      }
    }
  }

  /** If no filter gets a list with entries that collide, the memo makes no difference to the set matcher. */
  lemma ClearOnSets(t: Tree, cx: Context, run: Run, m: Positional, seed: Slots, results: Slots, memo: Memo, done: nat)
    requires m.Valid() && Inside(t, seed, results) && m.FewWalks(cx) && m.Numbered(done) && Unused(run, memo, done)
    requires RunClear(t, cx, m, seed, results)
    ensures RunEval(t, cx, run, m, seed, results, memo).0 == SetMatchers.Run(m.OnSets(t, cx), seed, results)
  {
    RunExactly(t, cx, run, m, seed, results, memo, done);
    RunOnSets(t, cx, run, m, seed, results, memo);
  }

  // A wrong pick

  /** `div p:last` */
  function LastDivP(done: nat): Positional {
    Positional(Some(Group(DIV_P, done)), Some(Last), None)
  }

  /** What ":last" picks from the entries in `kept`. */
  lemma PickedLast(seed: Slots, kept: seq<nat>)
    requires kept != [] && (forall i | 0 <= i < |kept| :: kept[i] < |seed|) && seed[kept[|kept| - 1]].At?
    ensures var list := Gather(seed, kept);
            Image(Moved(list, Holes(|list|), Named(Some(Last), list)).1, kept) == {kept[|kept| - 1]}
  {
    var list, last := Gather(seed, kept), |kept| - 1;
    var out := Moved(list, Holes(|list|), Named(Some(Last), list)).1;
    assert Named(Some(Last), list) == {last};
    assert Named(None, out) == {last};
  }

  lemma MovedPair(a: SetMatchers.Slot, b: SetMatchers.Slot)
    ensures Moved([a, b], Holes(2), {0}).1 == [a, Hole] && Moved([a, b], Holes(2), {1}).1 == [Hole, b]
  {
  }

  /** Filtering the two `p` elements of the tree by `div p:last` should pick the second one. It picks the first. */
  lemma {:induction false} WrongPick(cx: Context, run: Run, done: nat, memo: Memo)
    requires cx.whole && forall x: nat :: !Mine(run, WalkAt(DIV_P, done, cx, 1), memo, x)
    ensures var m := LastDivP(done);
            && SetMatchers.Run(m.OnSets(TWO_LEAVES, cx), TWO_P, Holes(2)).1 == [Hole, At(4)]
            && RunEval(TWO_LEAVES, cx, run, m, TWO_P, Holes(2), memo).0.1 == [At(3), Hole]
  {
    SharedRunNumber(cx, run, done, memo);
    PickedLast(TWO_P, [0]);
    PickedLast(TWO_P, [0, 1]);
    MovedPair(At(3), At(4));
  }
}
