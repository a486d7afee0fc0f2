/** The memo of the ancestor and sibling walks: one slot per node and direction, shared by all the
    combinators of that direction. `Eval` is the memoised evaluation as a function of the slots;
    the lemmas show that it answers what `Plain` answers, and what the slots mean in between. */
module DirCache {
  import opened Dom
  import opened Selectors
  import opened Matchers

  /** `cache[1]`: not written yet, `true`, or the number of the run in which the node failed. */
  datatype Data = Unset | Yes | Ran(run: nat)

  /** `cache`: the two parts of `dirkey`, and the data. */
  datatype Slot = Slot(dirruns: nat, done: nat, data: Data)

  /** `elem[expando][dir]` */
  datatype Place = Place(node: nat, dir: Dir)

  type Memo = map<Place, Slot>

  /** The two global run numbers: `dirruns` changes with each top-level search, `cachedruns` with each element. */
  datatype Run = Run(dirruns: nat, cachedruns: nat)

  function Eval(t: Tree, cx: Context, run: Run, m: Matcher, n: nat, memo: Memo): (r: (bool, Memo))
    requires n < |t|
    decreases m, n + 1, 0
  {
    match m
    case Leaf(f) => (Holds(t, f, n), memo)
    case IsContext => (n in cx.nodes, memo)
    case Foundation(leading, one, any) =>
      if !leading && cx.whole then (true, memo)
      else Eval(t, cx, run, if cx.many then any else one, n, memo)
    case All(parts) => EvalLast(t, cx, run, m, |parts|, n, memo)
    case Combine(inner, c, base, done) =>
      var next := Step(t, c.Dir(), n);
      if next < 0 then (false, memo)
      else if !Stops(t, c, base, next) then Eval(t, cx, run, m, next, memo)
      else if c.First() then Eval(t, cx, run, inner, next, memo)
      else
        var key := Place(next, c.Dir());
        if key in memo && memo[key].dirruns == run.dirruns && memo[key].done == done then
          if memo[key].data == Yes then (true, memo)
          else if memo[key].data == Ran(run.cachedruns) then (false, memo)
          else Eval(t, cx, run, m, next, memo)
        else
          var (b, memo') := Eval(t, cx, run, inner, next, memo[key := Slot(run.dirruns, done, Unset)]);
          if b then (true, memo'[key := Slot(run.dirruns, done, Yes)])
          else Eval(t, cx, run, m, next, memo'[key := Slot(run.dirruns, done, Ran(run.cachedruns))])
  }

  /** The first `k` parts of a list of matchers, last one first. */
  function EvalLast(t: Tree, cx: Context, run: Run, m: Matcher, k: nat, n: nat, memo: Memo): (r: (bool, Memo))
    requires n < |t| && m.All? && k <= |m.parts|
    decreases m, 0, k
  {
    if k == 0 then (true, memo)
    else
      var (b, memo') := Eval(t, cx, run, m.parts[k - 1], n, memo);
      if b then EvalLast(t, cx, run, m, k - 1, n, memo') else (false, memo')
  }

  // What the slots mean

  /** Every combinator in `m` is the one made under its number, below `bound`; in a list, only the first
      part, the one evaluated last, is not a simple filter. */
  ghost predicate Registered(m: Matcher, made: seq<Matcher>, bound: nat)
    decreases m
  {
    match m
    case Leaf(_) => true
    case IsContext => true
    case Combine(inner, c, base, done) =>
      done < bound && done < |made| && made[done] == m && Registered(inner, made, done)
    case Foundation(_, one, any) =>
      one.Combine? && any.Combine? && Registered(one, made, bound) && Registered(any, made, bound)
    case All(parts) =>
      |parts| > 0 && Registered(parts[0], made, bound) && forall i | 0 < i < |parts| :: parts[i].Leaf?
  }

  /** The slot belongs to the search that is running, under a number below `bound`. */
  predicate Current(run: Run, memo: Memo, key: Place, bound: nat) {
    key in memo && memo[key].dirruns == run.dirruns && memo[key].done < bound
  }

  /** The slots of the current search tell the truth: `Yes` means that the node matches,
      a run number that it does not. */
  ghost predicate Truthful(t: Tree, cx: Context, run: Run, made: seq<Matcher>, memo: Memo) {
    forall key | key in memo && memo[key].dirruns == run.dirruns ::
      && key.node < |t| && memo[key].done < |made|
      && var m := made[memo[key].done];
      && m.Combine? && m.comb.Dir() == key.dir
      && (memo[key].data == Yes ==> Plain(t, cx, m.inner, key.node))
      && (memo[key].data.Ran? ==> memo[key].data.run <= run.cachedruns && !Plain(t, cx, m.inner, key.node))
  }

  /** No slot is still waiting for its data. */
  ghost predicate Filled(run: Run, memo: Memo, bound: nat) {
    forall key | Current(run, memo, key, bound) :: memo[key].data != Unset
  }

  /** The current run number in a slot means that nothing above the node matches either. */
  ghost predicate Settled(t: Tree, cx: Context, run: Run, made: seq<Matcher>, memo: Memo, bound: nat) {
    forall key | Current(run, memo, key, bound) && memo[key].data == Ran(run.cachedruns) ::
      key.node < |t| && memo[key].done < |made| && !Plain(t, cx, made[memo[key].done], key.node)
  }

  /** The same while the walk of `m` has come down to `n`: the nodes it has passed are decided by what
      lies above `n`. */
  ghost predicate Walking(t: Tree, cx: Context, run: Run, made: seq<Matcher>, memo: Memo, bound: nat, m: Matcher,
                          n: nat)
    requires m.Combine? && n < |t|
  {
    forall key | Current(run, memo, key, bound) && memo[key].data == Ran(run.cachedruns) ::
      && key.node < |t| && memo[key].done < |made|
      && (Plain(t, cx, made[memo[key].done], key.node) ==>
            memo[key].done == m.done && key.node >= n && Plain(t, cx, m, n))
  }

  predicate SameAt(memo: Memo, memo': Memo, key: Place) {
    (key in memo <==> key in memo') && (key in memo ==> memo[key] == memo'[key])
  }

  /** An evaluation at `n` only writes slots of earlier nodes, under numbers below `bound`. */
  ghost predicate Frame(run: Run, memo: Memo, memo': Memo, bound: nat, n: nat) {
    forall key :: SameAt(memo, memo', key) || (key.node < n && Current(run, memo', key, bound))
  }

  lemma {:induction false} EvalOk(t: Tree, cx: Context, run: Run, made: seq<Matcher>, m: Matcher, n: nat, memo: Memo,
                                  bound: nat)
    requires n < |t| && Registered(m, made, bound)
    requires Truthful(t, cx, run, made, memo) && Filled(run, memo, bound) && Settled(t, cx, run, made, memo, bound)
    ensures var (b, memo') := Eval(t, cx, run, m, n, memo);
            && b == Plain(t, cx, m, n)
            && Truthful(t, cx, run, made, memo') && Filled(run, memo', bound)
            && (!b ==> Settled(t, cx, run, made, memo', bound))
            && Frame(run, memo, memo', bound, n)
    decreases m, n + 1, 1
  {
    match m
    case Leaf(f) =>
    case IsContext =>
    case Foundation(leading, one, any) =>
      if leading || !cx.whole {
        EvalOk(t, cx, run, made, if cx.many then any else one, n, memo, bound);
      }
    case All(parts) => EvalLastOk(t, cx, run, made, m, |parts|, n, memo, bound);
    case Combine(inner, c, base, done) =>
      var next := Step(t, c.Dir(), n);
      if next < 0 {
      } else if !c.First() {
        WalkOk(t, cx, run, made, m, n, memo, bound);
      } else if Stops(t, c, base, next) {
        EvalOk(t, cx, run, made, inner, next, memo, done);
      } else {
        EvalOk(t, cx, run, made, m, next, memo, bound);
      }
  }

  lemma {:induction false} EvalLastOk(t: Tree, cx: Context, run: Run, made: seq<Matcher>, m: Matcher, k: nat, n: nat,
                                      memo: Memo, bound: nat)
    requires n < |t| && m.All? && k <= |m.parts| && Registered(m, made, bound)
    requires Truthful(t, cx, run, made, memo) && Filled(run, memo, bound) && Settled(t, cx, run, made, memo, bound)
    ensures var (b, memo') := EvalLast(t, cx, run, m, k, n, memo);
            && b == (forall i | 0 <= i < k :: Plain(t, cx, m.parts[i], n))
            && Truthful(t, cx, run, made, memo') && Filled(run, memo', bound)
            && (!b ==> Settled(t, cx, run, made, memo', bound))
            && Frame(run, memo, memo', bound, n)
    decreases m, 0, k
  {
    if k > 0 {
      EvalOk(t, cx, run, made, m.parts[k - 1], n, memo, bound);
      var (b, memo') := Eval(t, cx, run, m.parts[k - 1], n, memo);
      if b && k > 1 {
        EvalLastOk(t, cx, run, made, m, k - 1, n, memo', bound);
      }
    }
  }

  lemma {:induction false} WalkOk(t: Tree, cx: Context, run: Run, made: seq<Matcher>, m: Matcher, n: nat, memo: Memo,
                                  bound: nat)
    requires n < |t| && m.Combine? && !m.comb.First() && Registered(m, made, bound)
    requires Truthful(t, cx, run, made, memo) && Filled(run, memo, bound)
    requires Walking(t, cx, run, made, memo, bound, m, n)
    ensures var (b, memo') := Eval(t, cx, run, m, n, memo);
            && b == Plain(t, cx, m, n)
            && Truthful(t, cx, run, made, memo') && Filled(run, memo', bound)
            && (!b ==> Settled(t, cx, run, made, memo', bound))
            && Frame(run, memo, memo', bound, n)
    decreases m, n + 1, 0
  {
    var next := Step(t, m.comb.Dir(), n);
    if next < 0 {
    } else if !Stops(t, m.comb, m.base, next) {
      WalkOk(t, cx, run, made, m, next, memo, bound);
    } else if Current(run, memo, Place(next, m.comb.Dir()), bound) && memo[Place(next, m.comb.Dir())].done == m.done {
      if memo[Place(next, m.comb.Dir())].data.Ran? && memo[Place(next, m.comb.Dir())].data.run < run.cachedruns {
        WalkOk(t, cx, run, made, m, next, memo, bound);
      }
    } else {
      MissOk(t, cx, run, made, m, n, next, memo, bound);
    }
  }

  /** A new slot without data changes nothing for numbers below its own. */
  lemma MissReady(t: Tree, cx: Context, run: Run, made: seq<Matcher>, m: Matcher, n: nat, next: nat, memo: Memo,
                  bound: nat)
    requires n < |t| && next < n && m.Combine? && Registered(m, made, bound)
    requires Truthful(t, cx, run, made, memo) && Filled(run, memo, bound)
    requires Walking(t, cx, run, made, memo, bound, m, n)
    ensures var memo1 := memo[Place(next, m.comb.Dir()) := Slot(run.dirruns, m.done, Unset)];
            && Truthful(t, cx, run, made, memo1) && Filled(run, memo1, m.done)
            && Settled(t, cx, run, made, memo1, m.done)
  {
  }

  /** The walk at a node `next` without a usable slot. */
  lemma {:induction false} MissOk(t: Tree, cx: Context, run: Run, made: seq<Matcher>, m: Matcher, n: nat, next: nat,
                                  memo: Memo, bound: nat)
    requires n < |t| && m.Combine? && !m.comb.First() && Registered(m, made, bound)
    requires next == Step(t, m.comb.Dir(), n) && Stops(t, m.comb, m.base, next)
    requires !(Current(run, memo, Place(next, m.comb.Dir()), bound) && memo[Place(next, m.comb.Dir())].done == m.done)
    requires Truthful(t, cx, run, made, memo) && Filled(run, memo, bound)
    requires Walking(t, cx, run, made, memo, bound, m, n)
    ensures var (b, memo') := Eval(t, cx, run, m, n, memo);
            && b == Plain(t, cx, m, n)
            && Truthful(t, cx, run, made, memo') && Filled(run, memo', bound)
            && (!b ==> Settled(t, cx, run, made, memo', bound))
            && Frame(run, memo, memo', bound, n)
    decreases m, next + 1, 1
  {
    var key := Place(next, m.comb.Dir());
    var memo1 := memo[key := Slot(run.dirruns, m.done, Unset)];
    MissReady(t, cx, run, made, m, n, next, memo, bound);
    EvalOk(t, cx, run, made, m.inner, next, memo1, m.done);
    var (b, memo2) := Eval(t, cx, run, m.inner, next, memo1);
    assert SameAt(memo1, memo2, key);
    var memo3 := memo2[key := Slot(run.dirruns, m.done, if b then Yes else Ran(run.cachedruns))];
    assert Frame(run, memo, memo3, bound, n);
    if !b {
      WalkOk(t, cx, run, made, m, next, memo3, bound);
    }
  }

  lemma {:induction false} RegisteredMore(m: Matcher, made: seq<Matcher>, made': seq<Matcher>, bound: nat, bound': nat)
    requires Registered(m, made, bound) && made <= made' && bound <= bound'
    ensures Registered(m, made', bound')
    decreases m
  {
    match m
    case Leaf(_) =>
    case IsContext =>
    case Combine(inner, _, _, done) => RegisteredMore(inner, made, made', done, done);
    case Foundation(_, one, any) =>
      RegisteredMore(one, made, made', bound, bound');
      RegisteredMore(any, made, made', bound, bound');
    case All(parts) => RegisteredMore(parts[0], made, made', bound, bound');
  }

  /** A new run number settles every slot. */
  lemma NextElement(t: Tree, cx: Context, run: Run, made: seq<Matcher>, memo: Memo, bound: nat)
    requires Truthful(t, cx, run, made, memo)
    ensures var run' := Run(run.dirruns, run.cachedruns + 1);
            Truthful(t, cx, run', made, memo) && Settled(t, cx, run', made, memo, bound)
  {
  }
}
