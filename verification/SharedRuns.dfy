/** Several elements evaluated under one run number: condense with a compiled matcher as its filter, as the pre-filter
    of a positional group runs it. No new run number settles the slots between two elements. */
module SharedRuns {
  import opened Helpers
  import opened Dom
  import opened Selectors
  import opened Matchers
  import opened DirCache
  import opened Sizzle
  import SetMatchers

  type Slots = seq<SetMatchers.Slot>

  predicate Within(t: Tree, list: Slots) {
    forall k | 0 <= k < |list| && list[k].At? :: list[k].node < |t|
  }

  /** The indexes that condense keeps, and the memo that it leaves. */
  function KeptEval(t: Tree, cx: Context, run: Run, m: Matcher, list: Slots, memo: Memo): (r: (seq<nat>, Memo))
    requires Within(t, list)
    ensures forall i | 0 <= i < |r.0| :: r.0[i] < |list|
  {
    if list == [] then ([], memo)
    else
      var k := |list| - 1;
      var (kept, memo1) := KeptEval(t, cx, run, m, list[..k], memo);
      if list[k].Hole? then (kept, memo1)
      else
        var (b, memo2) := Eval(t, cx, run, m, list[k].node, memo1);
        (if b then kept + [k] else kept, memo2)
  }

  function AcceptedNodes(t: Tree, cx: Context, m: Matcher): set<nat> {
    set n: nat | n < |t| && Plain(t, cx, m, n)
  }

  /** What it should keep. */
  function KeptPlain(t: Tree, cx: Context, m: Matcher, list: Slots): seq<nat> {
    SetMatchers.Kept(Some(AcceptedNodes(t, cx, m)), list)
  }

  lemma KeptPlainMore(t: Tree, cx: Context, m: Matcher, list: Slots)
    requires Within(t, list) && list != []
    ensures var k := |list| - 1;
            KeptPlain(t, cx, m, list) ==
            if list[k].At? && Plain(t, cx, m, list[k].node) then KeptPlain(t, cx, m, list[..k]) + [k]
            else KeptPlain(t, cx, m, list[..k])
  {
    var k := |list| - 1;
    assert list[k].At? ==> (list[k].node in AcceptedNodes(t, cx, m) <==> Plain(t, cx, m, list[k].node));
    assert KeptPlain(t, cx, m, list[..k]) + [] == KeptPlain(t, cx, m, list[..k]);
  }

  /** condense with the filter `m`. */
  method Condense(engine: Engine, t: Tree, cx: Context, m: Matcher, unmatched: array<SetMatchers.Slot>)
    returns (newUnmatched: array<SetMatchers.Slot>, map': seq<nat>)
    requires Within(t, unmatched[..])
    modifies engine`memo
    ensures (map', engine.memo) ==
            KeptEval(t, cx, Run(engine.dirruns, engine.cachedruns), m, unmatched[..], old(engine.memo))
    ensures fresh(newUnmatched) && newUnmatched[..] == SetMatchers.Gather(unmatched[..], map')
  {
    map' := [];
    var i := 0;
    while i < unmatched.Length
      invariant 0 <= i <= unmatched.Length
      invariant (map', engine.memo) ==
                KeptEval(t, cx, Run(engine.dirruns, engine.cachedruns), m, unmatched[..i], old(engine.memo))
    {
      assert unmatched[..i + 1][..i] == unmatched[..i] && unmatched[i] == unmatched[..][i];
      if unmatched[i].At? {
        var b := engine.Match(t, cx, m, unmatched[i].node);
        if b {
          map' := map' + [i];
        }
      }
      i := i + 1;
    }
    assert unmatched[..i] == unmatched[..];
    newUnmatched := new SetMatchers.Slot[|map'|](
      k requires 0 <= k < |map'| && map'[k] < unmatched.Length reads unmatched => unmatched[map'[k]]);
  }

  // Nothing is kept wrongly

  /** The slots that say `true` tell the truth. */
  ghost predicate YesTruthful(t: Tree, cx: Context, run: Run, made: seq<Matcher>, memo: Memo) {
    forall key | key in memo && memo[key].dirruns == run.dirruns && memo[key].data == Yes ::
      && key.node < |t| && memo[key].done < |made| && made[memo[key].done].Combine?
      && Plain(t, cx, made[memo[key].done].inner, key.node)
  }

  lemma {:induction false} YesOnly(t: Tree, cx: Context, run: Run, made: seq<Matcher>, m: Matcher, n: nat, memo: Memo,
                                   bound: nat)
    requires n < |t| && Registered(m, made, bound) && YesTruthful(t, cx, run, made, memo)
    ensures var (b, memo') := Eval(t, cx, run, m, n, memo);
            (b ==> Plain(t, cx, m, n)) && YesTruthful(t, cx, run, made, memo')
    decreases m, n + 1, 0
  {
    match m
    case Leaf(_) =>
    case IsContext =>
    case Foundation(leading, one, any) =>
      if leading || !cx.whole {
        YesOnly(t, cx, run, made, if cx.many then any else one, n, memo, bound);
      }
    case All(parts) => YesOnlyLast(t, cx, run, made, m, |parts|, n, memo, bound);
    case Combine(inner, c, base, done) =>
      var next := Step(t, c.Dir(), n);
      if next < 0 {
      } else if !Stops(t, c, base, next) {
        YesOnly(t, cx, run, made, m, next, memo, bound);
      } else if c.First() {
        YesOnly(t, cx, run, made, inner, next, memo, done);
      } else {
        var key := Place(next, c.Dir());
        if key in memo && memo[key].dirruns == run.dirruns && memo[key].done == done {
          if memo[key].data != Yes && memo[key].data != Ran(run.cachedruns) {
            YesOnly(t, cx, run, made, m, next, memo, bound);
          }
        } else {
          YesOnlyMiss(t, cx, run, made, m, next, memo, bound);
        }
      }
  }

  lemma {:induction false} YesOnlyMiss(t: Tree, cx: Context, run: Run, made: seq<Matcher>, m: Matcher, next: nat,
                                       memo: Memo, bound: nat)
    requires next < |t| && m.Combine? && Registered(m, made, bound) && YesTruthful(t, cx, run, made, memo)
    ensures var key := Place(next, m.comb.Dir());
            var (b, memo2) := Eval(t, cx, run, m.inner, next, memo[key := Slot(run.dirruns, m.done, Unset)]);
            if b then
              Plain(t, cx, m.inner, next) && YesTruthful(t, cx, run, made, memo2[key := Slot(run.dirruns, m.done, Yes)])
            else
              var memo3 := memo2[key := Slot(run.dirruns, m.done, Ran(run.cachedruns))];
              var (b', memo') := Eval(t, cx, run, m, next, memo3);
              (b' ==> Plain(t, cx, m, next)) && YesTruthful(t, cx, run, made, memo')
    decreases m, next + 1, 1
  {
    var key := Place(next, m.comb.Dir());
    var memo1 := memo[key := Slot(run.dirruns, m.done, Unset)];
    YesOnly(t, cx, run, made, m.inner, next, memo1, m.done);
    var (b, memo2) := Eval(t, cx, run, m.inner, next, memo1);
    if !b {
      YesOnly(t, cx, run, made, m, next, memo2[key := Slot(run.dirruns, m.done, Ran(run.cachedruns))], bound);
    }
  }

  lemma {:induction false} YesOnlyLast(t: Tree, cx: Context, run: Run, made: seq<Matcher>, m: Matcher, k: nat, n: nat,
                                       memo: Memo, bound: nat)
    requires n < |t| && m.All? && k <= |m.parts| && Registered(m, made, bound) && YesTruthful(t, cx, run, made, memo)
    ensures var (b, memo') := EvalLast(t, cx, run, m, k, n, memo);
            (b ==> forall i | 0 <= i < k :: Plain(t, cx, m.parts[i], n)) && YesTruthful(t, cx, run, made, memo')
    decreases m, 0, k
  {
    if k > 0 {
      YesOnly(t, cx, run, made, m.parts[k - 1], n, memo, bound);
      var (b, memo') := Eval(t, cx, run, m.parts[k - 1], n, memo);
      if b {
        YesOnlyLast(t, cx, run, made, m, k - 1, n, memo', bound);
      }
    }
  }

  /** Whatever the matcher, the list and the run number: what condense keeps does match. */
  lemma {:induction false} NothingWrong(t: Tree, cx: Context, run: Run, made: seq<Matcher>, m: Matcher, list: Slots,
                                        memo: Memo, bound: nat)
    requires Within(t, list) && Registered(m, made, bound) && YesTruthful(t, cx, run, made, memo)
    ensures var (kept, memo') := KeptEval(t, cx, run, m, list, memo);
            && YesTruthful(t, cx, run, made, memo')
            && forall k | k in kept :: list[k].At? && Plain(t, cx, m, list[k].node)
  {
    if list != [] {
      var k := |list| - 1;
      NothingWrong(t, cx, run, made, m, list[..k], memo, bound);
      if list[k].At? {
        YesOnly(t, cx, run, made, m, list[k].node, KeptEval(t, cx, run, m, list[..k], memo).1, bound);
      }
    }
  }

  // Without a memoised walk

  /** No evaluation of `m` reads or writes a slot: the combinators that it reaches all look at one node only. */
  predicate Unmemoised(m: Matcher, cx: Context) {
    match m
    case Leaf(_) => true
    case IsContext => true
    case Combine(inner, c, _, _) => c.First() && Unmemoised(inner, cx)
    case Foundation(leading, one, any) => (!leading && cx.whole) || Unmemoised(if cx.many then any else one, cx)
    case All(parts) => forall p | p in parts :: Unmemoised(p, cx)
  }

  /** Such a matcher is always right, and leaves the memo alone. */
  lemma {:induction false} UnmemoisedEval(t: Tree, cx: Context, run: Run, m: Matcher, n: nat, memo: Memo)
    requires n < |t| && Unmemoised(m, cx)
    ensures Eval(t, cx, run, m, n, memo) == (Plain(t, cx, m, n), memo)
    decreases m, n + 1, 0
  {
    match m
    case Leaf(_) =>
    case IsContext =>
    case Foundation(leading, one, any) =>
      if leading || !cx.whole {
        UnmemoisedEval(t, cx, run, if cx.many then any else one, n, memo);
      }
    case All(parts) => UnmemoisedLast(t, cx, run, m, |parts|, n, memo);
    case Combine(inner, c, base, _) =>
      var next := Step(t, c.Dir(), n);
      if next >= 0 {
        UnmemoisedEval(t, cx, run, if Stops(t, c, base, next) then inner else m, next, memo);
      }
  }

  lemma {:induction false} UnmemoisedLast(t: Tree, cx: Context, run: Run, m: Matcher, k: nat, n: nat, memo: Memo)
    requires n < |t| && m.All? && k <= |m.parts| && Unmemoised(m, cx)
    ensures EvalLast(t, cx, run, m, k, n, memo) == (forall i | 0 <= i < k :: Plain(t, cx, m.parts[i], n), memo)
    decreases m, 0, k
  {
    if k > 0 {
      UnmemoisedEval(t, cx, run, m.parts[k - 1], n, memo);
      UnmemoisedLast(t, cx, run, m, k - 1, n, memo);
    }
  }

  lemma {:induction false} UnmemoisedCondense(t: Tree, cx: Context, run: Run, m: Matcher, list: Slots, memo: Memo)
    requires Within(t, list) && Unmemoised(m, cx)
    ensures KeptEval(t, cx, run, m, list, memo) == (KeptPlain(t, cx, m, list), memo)
  {
    if list != [] {
      var k := |list| - 1;
      UnmemoisedCondense(t, cx, run, m, list[..k], memo);
      if list[k].At? {
        UnmemoisedEval(t, cx, run, m, list[k].node, memo);
      }
      KeptPlainMore(t, cx, m, list);
    }
  }

  // With one memoised walk

  /** A combinator whose walk is memoised, around a matcher that uses no memo. */
  predicate Memoised(w: Matcher, cx: Context) {
    w.Combine? && !w.comb.First() && Unmemoised(w.inner, cx)
  }

  /** Every evaluation of `m` uses the memo through the walk of `w` only, once at most. */
  predicate Single(m: Matcher, cx: Context, w: Matcher) {
    m == w ||
    match m
    case Leaf(_) => false
    case IsContext => false
    case Combine(inner, c, _, _) => c.First() && Single(inner, cx, w)
    case Foundation(leading, one, any) => (leading || !cx.whole) && Single(if cx.many then any else one, cx, w)
    case All(parts) => |parts| > 0 && Single(parts[0], cx, w) && forall i | 0 < i < |parts| :: parts[i].Leaf?
  }

  /** The node from which `w` walks when `m` is asked about `n`, or -1. */
  function Asked(t: Tree, cx: Context, m: Matcher, w: Matcher, n: nat): (r: int)
    requires n < |t| && Single(m, cx, w)
    ensures -1 <= r <= n
    decreases m, n
  {
    if m == w then n
    else
      match m
      case Combine(inner, c, base, _) =>
        var next := Step(t, c.Dir(), n);
        if next < 0 then -1
        else if Stops(t, c, base, next) then Asked(t, cx, inner, w, next)
        else Asked(t, cx, m, w, next)
      case Foundation(_, one, any) => Asked(t, cx, if cx.many then any else one, w, n)
      case All(parts) =>
        if forall i | 0 < i < |parts| :: Holds(t, parts[i].filter, n) then Asked(t, cx, parts[0], w, n) else -1
  }

  /** Asking `m` is asking `w` there. */
  lemma {:induction false} AskedEval(t: Tree, cx: Context, run: Run, m: Matcher, w: Matcher, n: nat, memo: Memo)
    requires n < |t| && Single(m, cx, w) && Memoised(w, cx)
    ensures var q := Asked(t, cx, m, w, n);
            && Eval(t, cx, run, m, n, memo) == (if q < 0 then (false, memo) else Eval(t, cx, run, w, q, memo))
            && (Plain(t, cx, m, n) <==> q >= 0 && Plain(t, cx, w, q))
    decreases m, n
  {
    if m != w {
      match m
      case Combine(inner, c, base, _) =>
        var next := Step(t, c.Dir(), n);
        if next >= 0 {
          AskedEval(t, cx, run, if Stops(t, c, base, next) then inner else m, w, next, memo);
        }
      case Foundation(_, one, any) => AskedEval(t, cx, run, if cx.many then any else one, w, n, memo);
      case All(parts) =>
        AskedEval(t, cx, run, parts[0], w, n, memo);
        LeavesFirst(t, cx, run, m, |parts|, n, memo);
        assert Plain(t, cx, m, n) <==> forall i | 0 <= i < |parts| :: Plain(t, cx, parts[i], n) by {
          assert forall i | 0 <= i < |parts| :: parts[i] in parts;
        }
    }
  }

  lemma {:induction false} LeavesFirst(t: Tree, cx: Context, run: Run, m: Matcher, k: nat, n: nat, memo: Memo)
    requires n < |t| && m.All? && 0 < k <= |m.parts| && forall i | 0 < i < |m.parts| :: m.parts[i].Leaf?
    ensures EvalLast(t, cx, run, m, k, n, memo) ==
            if forall i | 0 < i < k :: Holds(t, m.parts[i].filter, n) then Eval(t, cx, run, m.parts[0], n, memo)
            else (false, memo)
  {
    if k > 1 {
      LeavesFirst(t, cx, run, m, k - 1, n, memo);
    }
  }

  /** The closest accepted node at which the walk of `w` from `n` stops, or -1. */
  function Nearest(t: Tree, cx: Context, w: Matcher, n: nat): (r: int)
    requires n < |t| && w.Combine?
    ensures -1 <= r < n
  {
    var next := Step(t, w.comb.Dir(), n);
    if next < 0 then -1
    else if Stops(t, w.comb, w.base, next) && Plain(t, cx, w.inner, next) then next
    else Nearest(t, cx, w, next)
  }

  /** The nodes at which it stops before that. */
  function Refused(t: Tree, cx: Context, w: Matcher, n: nat): (r: set<nat>)
    requires n < |t| && w.Combine?
    ensures forall x | x in r :: x < n
  {
    var next := Step(t, w.comb.Dir(), n);
    if next < 0 then {}
    else if !Stops(t, w.comb, w.base, next) then Refused(t, cx, w, next)
    else if Plain(t, cx, w.inner, next) then {}
    else {next} + Refused(t, cx, w, next)
  }

  /** All the nodes at which it stops. */
  function Walked(t: Tree, cx: Context, w: Matcher, n: nat): (r: set<nat>)
    requires n < |t| && w.Combine?
    ensures forall x | x in r :: x < n
  {
    Refused(t, cx, w, n) + if Nearest(t, cx, w, n) >= 0 then {Nearest(t, cx, w, n)} else {}
  }

  lemma {:induction false} NearestIsPlain(t: Tree, cx: Context, w: Matcher, n: nat)
    requires n < |t| && w.Combine? && !w.comb.First()
    ensures Plain(t, cx, w, n) <==> Nearest(t, cx, w, n) >= 0
    decreases n
  {
    var next := Step(t, w.comb.Dir(), n);
    if next >= 0 {
      NearestIsPlain(t, cx, w, next);
    }
  }

  /** A refused node is a stop below the accepted one, from which the walk goes on to the same node. */
  lemma {:induction false} RefusedAt(t: Tree, cx: Context, w: Matcher, n: nat, x: nat)
    requires n < |t| && x < |t| && w.Combine?
    ensures x in Refused(t, cx, w, n) <==>
            && Above(t, w.comb.Dir(), n, x) && Stops(t, w.comb, w.base, x) && Nearest(t, cx, w, n) < x
    ensures x in Refused(t, cx, w, n) ==>
            && !Plain(t, cx, w.inner, x)
            && Nearest(t, cx, w, x) == Nearest(t, cx, w, n) && Walked(t, cx, w, x) <= Walked(t, cx, w, n)
    decreases n
  {
    var d := w.comb.Dir();
    var next := Step(t, d, n);
    if next >= 0 {
      RefusedAt(t, cx, w, next, x);
      if Above(t, d, next, x) {
        AboveIsBefore(t, d, next, x);
      }
    }
  }

  /** The walks from `p` and `q` end at the same accepted node and share a stop below it. */
  ghost predicate Collide(t: Tree, cx: Context, w: Matcher, p: nat, q: nat)
    requires p < |t| && q < |t| && w.Combine?
  {
    var d, a := w.comb.Dir(), Nearest(t, cx, w, p);
    && a >= 0 && Nearest(t, cx, w, q) == a
    && exists x: nat | x < |t| :: a < x && Stops(t, w.comb, w.base, x) && Above(t, d, p, x) && Above(t, d, q, x)
  }

  lemma CollideMeaning(t: Tree, cx: Context, w: Matcher, p: nat, q: nat)
    requires p < |t| && q < |t| && w.Combine? && Nearest(t, cx, w, q) >= 0
    ensures Collide(t, cx, w, p, q) <==> !(Refused(t, cx, w, q) !! Walked(t, cx, w, p))
  {
    AcceptedEnd(t, cx, w, p);
    if x :| x in Refused(t, cx, w, q) && x in Walked(t, cx, w, p) {
      RefusedAt(t, cx, w, q, x);
      RefusedAt(t, cx, w, p, x);
    }
    if Collide(t, cx, w, p, q) {
      var d := w.comb.Dir();
      var x: nat :| x < |t| && Nearest(t, cx, w, p) < x && Stops(t, w.comb, w.base, x) &&
                    Above(t, d, p, x) && Above(t, d, q, x);
      RefusedAt(t, cx, w, q, x);
      RefusedAt(t, cx, w, p, x);
      assert x in Refused(t, cx, w, q) && x in Walked(t, cx, w, p);
    }
  }

  lemma {:induction false} AcceptedEnd(t: Tree, cx: Context, w: Matcher, n: nat)
    requires n < |t| && w.Combine?
    ensures Nearest(t, cx, w, n) >= 0 ==> Plain(t, cx, w.inner, Nearest(t, cx, w, n))
  {
    var next := Step(t, w.comb.Dir(), n);
    if next >= 0 {
      AcceptedEnd(t, cx, w, next);
    }
  }

  // The slots of the walk

  /** The walk of `w` has a slot at `x` in the search that is running. */
  predicate Mine(run: Run, w: Matcher, memo: Memo, x: nat) {
    w.Combine? &&
    var key := Place(x, w.comb.Dir());
    key in memo && memo[key].dirruns == run.dirruns && memo[key].done == w.done
  }

  /** The walk has slots at exactly the nodes in `seen`, which say what the inner matcher says, under this run. */
  ghost predicate Noted(t: Tree, cx: Context, run: Run, w: Matcher, memo: Memo, seen: set<nat>)
    requires w.Combine?
  {
    forall x: nat :: (x in seen <==> Mine(run, w, memo, x)) &&
      (x in seen ==> x < |t| && memo[Place(x, w.comb.Dir())].data ==
                                if Plain(t, cx, w.inner, x) then Yes else Ran(run.cachedruns))
  }

  /** With a refused node below `n`, all the nodes of the walk from there have been seen. */
  ghost predicate Closed(t: Tree, cx: Context, w: Matcher, seen: set<nat>, n: nat)
    requires w.Combine?
  {
    forall x | x in seen && x < n && x < |t| && !Plain(t, cx, w.inner, x) :: Walked(t, cx, w, x) <= seen
  }

  /** One walk: it finds its node iff none of the stops below it has been seen, and afterwards all of its stops have. */
  lemma {:induction false} WalkNoted(t: Tree, cx: Context, run: Run, w: Matcher, n: nat, memo: Memo, seen: set<nat>)
    requires n < |t| && Memoised(w, cx) && Noted(t, cx, run, w, memo, seen) && Closed(t, cx, w, seen, n)
    ensures var (b, memo') := Eval(t, cx, run, w, n, memo);
            && b == (Nearest(t, cx, w, n) >= 0 && Refused(t, cx, w, n) !! seen)
            && Noted(t, cx, run, w, memo', seen + Walked(t, cx, w, n))
    decreases n, 0
  {
    var next := Step(t, w.comb.Dir(), n);
    if next < 0 {
      assert seen + Walked(t, cx, w, n) == seen;
    } else if !Stops(t, w.comb, w.base, next) {
      WalkNoted(t, cx, run, w, next, memo, seen);
    } else if next in seen {
      WalkHits(t, cx, run, w, n, memo, seen);
    } else {
      WalkMisses(t, cx, run, w, n, next, memo, seen);
    }
  }

  lemma WalkHits(t: Tree, cx: Context, run: Run, w: Matcher, n: nat, memo: Memo, seen: set<nat>)
    requires n < |t| && Memoised(w, cx) && Noted(t, cx, run, w, memo, seen) && Closed(t, cx, w, seen, n)
    requires var next := Step(t, w.comb.Dir(), n); next >= 0 && Stops(t, w.comb, w.base, next) && next in seen
    ensures var (b, memo') := Eval(t, cx, run, w, n, memo);
            && b == (Nearest(t, cx, w, n) >= 0 && Refused(t, cx, w, n) !! seen)
            && memo' == memo && seen + Walked(t, cx, w, n) == seen
  {
    var next: nat := Step(t, w.comb.Dir(), n);
    assert Mine(run, w, memo, next);
    if !Plain(t, cx, w.inner, next) {
      assert Walked(t, cx, w, n) == {next} + Walked(t, cx, w, next);
    }
  }

  lemma {:induction false} WalkMisses(t: Tree, cx: Context, run: Run, w: Matcher, n: nat, next: nat, memo: Memo,
                                      seen: set<nat>)
    requires n < |t| && Memoised(w, cx) && Noted(t, cx, run, w, memo, seen) && Closed(t, cx, w, seen, n)
    requires next == Step(t, w.comb.Dir(), n) && Stops(t, w.comb, w.base, next) && next !in seen
    ensures var (b, memo') := Eval(t, cx, run, w, n, memo);
            && b == (Nearest(t, cx, w, n) >= 0 && Refused(t, cx, w, n) !! seen)
            && Noted(t, cx, run, w, memo', seen + Walked(t, cx, w, n))
    decreases next, 1
  {
    var key := Place(next, w.comb.Dir());
    var b := Plain(t, cx, w.inner, next);
    assert !Mine(run, w, memo, next);
    var memo1 := memo[key := Slot(run.dirruns, w.done, Unset)];
    UnmemoisedEval(t, cx, run, w.inner, next, memo1);
    var memo2 := memo1[key := Slot(run.dirruns, w.done, if b then Yes else Ran(run.cachedruns))];
    NoteOne(t, cx, run, w, next, memo, seen, memo2);
    if !b {
      WalkNoted(t, cx, run, w, next, memo2, seen + {next});
      assert seen + Walked(t, cx, w, n) == seen + {next} + Walked(t, cx, w, next);
    } else {
      assert Walked(t, cx, w, n) == {next};
    }
  }

  lemma NoteOne(t: Tree, cx: Context, run: Run, w: Matcher, x: nat, memo: Memo, seen: set<nat>, memo': Memo)
    requires w.Combine? && x < |t| && Noted(t, cx, run, w, memo, seen)
    requires var data := if Plain(t, cx, w.inner, x) then Yes else Ran(run.cachedruns);
             memo' == memo[Place(x, w.comb.Dir()) := Slot(run.dirruns, w.done, data)]
    ensures Noted(t, cx, run, w, memo', seen + {x})
  {
    forall y: nat | y != x ensures Mine(run, w, memo', y) <==> Mine(run, w, memo, y) {
    }
  }

  // A list of elements

  /** The nodes from which `w` walks for the entries of a list; -1 for those for which it does not. */
  function AskedFor(t: Tree, cx: Context, m: Matcher, w: Matcher, list: Slots, k: nat): (r: int)
    requires Within(t, list) && Single(m, cx, w) && k < |list|
    ensures -1 <= r < |t|
  {
    if list[k].Hole? then -1 else Asked(t, cx, m, w, list[k].node)
  }

  function SeenBy(t: Tree, cx: Context, m: Matcher, w: Matcher, list: Slots): set<nat>
    requires Within(t, list) && Single(m, cx, w) && w.Combine?
  {
    if list == [] then {}
    else
      var k := |list| - 1;
      var q := AskedFor(t, cx, m, w, list, k);
      SeenBy(t, cx, m, w, list[..k]) + if q >= 0 then Walked(t, cx, w, q) else {}
  }

  lemma {:induction false} SeenClosed(t: Tree, cx: Context, m: Matcher, w: Matcher, list: Slots, n: nat)
    requires Within(t, list) && Single(m, cx, w) && w.Combine?
    ensures Closed(t, cx, w, SeenBy(t, cx, m, w, list), n)
  {
    if list != [] {
      var k := |list| - 1;
      SeenClosed(t, cx, m, w, list[..k], n);
      var q := AskedFor(t, cx, m, w, list, k);
      if q >= 0 {
        AcceptedEnd(t, cx, w, q);
        forall x | x in Walked(t, cx, w, q) && !Plain(t, cx, w.inner, x) {
          RefusedAt(t, cx, w, q, x);
        }
      }
    }
  }

  /** No stop below the node that the walk for entry `k` finds was seen for the entries before. */
  ghost predicate Finds(t: Tree, cx: Context, m: Matcher, w: Matcher, list: Slots, k: nat)
    requires Within(t, list) && Single(m, cx, w) && w.Combine? && k < |list|
  {
    var q := AskedFor(t, cx, m, w, list, k);
    q >= 0 && Nearest(t, cx, w, q) >= 0 && Refused(t, cx, w, q) !! SeenBy(t, cx, m, w, list[..k])
  }

  lemma FindsSoFar(t: Tree, cx: Context, m: Matcher, w: Matcher, list: Slots, n: nat, k: nat)
    requires Within(t, list) && Single(m, cx, w) && w.Combine? && k < n <= |list|
    ensures Finds(t, cx, m, w, list[..n], k) == Finds(t, cx, m, w, list, k)
  {
    assert list[..n][..k] == list[..k];
  }

  /** The last entry of a list, with the slots that the entries before it have left. */
  lemma EntryNoted(t: Tree, cx: Context, run: Run, m: Matcher, w: Matcher, list: Slots, memo: Memo)
    requires Within(t, list) && Single(m, cx, w) && Memoised(w, cx) && list != [] && list[|list| - 1].At?
    requires Noted(t, cx, run, w, memo, SeenBy(t, cx, m, w, list[..|list| - 1]))
    ensures var n := |list| - 1;
            var (b, memo') := Eval(t, cx, run, m, list[n].node, memo);
            b == Finds(t, cx, m, w, list, n) && Noted(t, cx, run, w, memo', SeenBy(t, cx, m, w, list))
  {
    var n := |list| - 1;
    var q := AskedFor(t, cx, m, w, list, n);
    AskedEval(t, cx, run, m, w, list[n].node, memo);
    if q >= 0 {
      SeenClosed(t, cx, m, w, list[..n], q);
      WalkNoted(t, cx, run, w, q, memo, SeenBy(t, cx, m, w, list[..n]));
    }
  }

  /** Exactly these entries are kept, when the walk has no slots to begin with. */
  lemma {:induction false} ListNoted(t: Tree, cx: Context, run: Run, m: Matcher, w: Matcher, list: Slots, memo: Memo)
    requires Within(t, list) && Single(m, cx, w) && Memoised(w, cx) && Noted(t, cx, run, w, memo, {})
    ensures var (kept, memo') := KeptEval(t, cx, run, m, list, memo);
            && Noted(t, cx, run, w, memo', SeenBy(t, cx, m, w, list))
            && forall k | 0 <= k < |list| :: k in kept <==> Finds(t, cx, m, w, list, k)
  {
    if list != [] {
      var n := |list| - 1;
      ListNoted(t, cx, run, m, w, list[..n], memo);
      var (kept1, memo1) := KeptEval(t, cx, run, m, list[..n], memo);
      if list[n].At? {
        EntryNoted(t, cx, run, m, w, list, memo1);
      }
      forall k | 0 <= k < n ensures k in kept1 <==> Finds(t, cx, m, w, list, k) {
        FindsSoFar(t, cx, m, w, list, n, k);
      }
    }
  }

  lemma {:induction false} SeenMeets(t: Tree, cx: Context, m: Matcher, w: Matcher, list: Slots, s: set<nat>)
    requires Within(t, list) && Single(m, cx, w) && w.Combine?
    ensures s !! SeenBy(t, cx, m, w, list) <==>
            forall i | 0 <= i < |list| :: var p := AskedFor(t, cx, m, w, list, i); p >= 0 ==> s !! Walked(t, cx, w, p)
  {
    if list != [] {
      var k := |list| - 1;
      SeenMeets(t, cx, m, w, list[..k], s);
      assert forall i | 0 <= i < k :: AskedFor(t, cx, m, w, list[..k], i) == AskedFor(t, cx, m, w, list, i);
    }
  }

  /** Two entries of the list whose walks collide. */
  ghost predicate Clash(t: Tree, cx: Context, m: Matcher, w: Matcher, list: Slots, i: nat, k: nat)
    requires Within(t, list) && Single(m, cx, w) && w.Combine? && i < |list| && k < |list|
  {
    var p, q := AskedFor(t, cx, m, w, list, i), AskedFor(t, cx, m, w, list, k);
    p >= 0 && q >= 0 && Collide(t, cx, w, p, q)
  }

  lemma FindsMeaning(t: Tree, cx: Context, m: Matcher, w: Matcher, list: Slots, k: nat)
    requires Within(t, list) && Single(m, cx, w) && Memoised(w, cx) && k < |list|
    ensures Finds(t, cx, m, w, list, k) <==>
            && list[k].At? && Plain(t, cx, m, list[k].node)
            && forall i | 0 <= i < k :: !Clash(t, cx, m, w, list, i, k)
  {
    var q := AskedFor(t, cx, m, w, list, k);
    if list[k].At? {
      AskedEval(t, cx, Run(0, 0), m, w, list[k].node, map[]);
    }
    if q >= 0 {
      NearestIsPlain(t, cx, w, q);
      SeenMeets(t, cx, m, w, list[..k], Refused(t, cx, w, q));
      forall i | 0 <= i < k
        ensures AskedFor(t, cx, m, w, list[..k], i) == AskedFor(t, cx, m, w, list, i)
        ensures Nearest(t, cx, w, q) >= 0 && AskedFor(t, cx, m, w, list, i) >= 0 ==>
                (Clash(t, cx, m, w, list, i, k) <==>
                 !(Refused(t, cx, w, q) !! Walked(t, cx, w, AskedFor(t, cx, m, w, list, i))))
      {
        if Nearest(t, cx, w, q) >= 0 && AskedFor(t, cx, m, w, list, i) >= 0 {
          CollideMeaning(t, cx, w, AskedFor(t, cx, m, w, list, i), q);
        }
      }
    }
  }

  predicate Ascends(s: seq<nat>) {
    forall i, j | 0 <= i < j < |s| :: s[i] < s[j]
  }

  lemma {:induction false} KeptEvalAscends(t: Tree, cx: Context, run: Run, m: Matcher, list: Slots, memo: Memo)
    requires Within(t, list)
    ensures Ascends(KeptEval(t, cx, run, m, list, memo).0)
  {
    if list != [] {
      var k := |list| - 1;
      KeptEvalAscends(t, cx, run, m, list[..k], memo);
      var (kept, memo1) := KeptEval(t, cx, run, m, list[..k], memo);
      assert Ascends(kept) && Ascends(kept + [k]);
    }
  }

  lemma PlainKept(t: Tree, cx: Context, m: Matcher, list: Slots, k: nat)
    requires Within(t, list) && k < |list|
    ensures k in KeptPlain(t, cx, m, list) <==> list[k].At? && Plain(t, cx, m, list[k].node)
  {
    var filter := Some(AcceptedNodes(t, cx, m));
    if SetMatchers.Passes(filter, list[k]) {
      SetMatchers.KeptAll(filter, list, k);
    }
  }

  /** Exactly when condense keeps what it should under one run number, for every matcher with one memoised walk: no
      two entries of the list make that walk end at the same accepted node and share a stop below it. */
  lemma SharedExactly(t: Tree, cx: Context, run: Run, m: Matcher, w: Matcher, list: Slots, memo: Memo)
    requires Within(t, list) && Single(m, cx, w) && Memoised(w, cx) && forall x: nat :: !Mine(run, w, memo, x)
    ensures KeptEval(t, cx, run, m, list, memo).0 == KeptPlain(t, cx, m, list) <==>
            forall i, k | 0 <= i < k < |list| :: !Clash(t, cx, m, w, list, i, k)
  {
    var kept, plain := KeptEval(t, cx, run, m, list, memo).0, KeptPlain(t, cx, m, list);
    ListNoted(t, cx, run, m, w, list, memo);
    forall k | 0 <= k < |list|
      ensures k in kept <==> k in plain && forall i | 0 <= i < k :: !Clash(t, cx, m, w, list, i, k)
    {
      FindsMeaning(t, cx, m, w, list, k);
      PlainKept(t, cx, m, list, k);
    }
    if forall i, k | 0 <= i < k < |list| :: !Clash(t, cx, m, w, list, i, k) {
      KeptEvalAscends(t, cx, run, m, list, memo);
      SetMatchers.SortedUnique(kept, plain);
    }
    forall i, k | 0 <= i < k < |list| && Clash(t, cx, m, w, list, i, k) ensures k in plain && k !in kept {
      ClashIsPlain(t, cx, m, w, list, i, k);
      PlainKept(t, cx, m, list, k);
    }
  }

  lemma ClashIsPlain(t: Tree, cx: Context, m: Matcher, w: Matcher, list: Slots, i: nat, k: nat)
    requires Within(t, list) && Single(m, cx, w) && Memoised(w, cx) && i < |list| && k < |list|
    requires Clash(t, cx, m, w, list, i, k)
    ensures list[k].At? && Plain(t, cx, m, list[k].node)
  {
    AskedEval(t, cx, Run(0, 0), m, w, list[k].node, map[]);
    NearestIsPlain(t, cx, w, AskedFor(t, cx, m, w, list, k));
  }

  // With any number of memoised walks

  /** The slots are as a search leaves them after an element that does not match. */
  ghost predicate Prepared(t: Tree, cx: Context, run: Run, made: seq<Matcher>, memo: Memo, bound: nat) {
    Truthful(t, cx, run, made, memo) && Filled(run, memo, bound) && Settled(t, cx, run, made, memo, bound)
  }

  /** Both lists are empty, or begin with the same index. */
  predicate SameFirst(kept: seq<nat>, plain: seq<nat>) {
    if kept == [] then plain == [] else plain != [] && kept[0] == plain[0]
  }

  lemma NextEntry(t: Tree, cx: Context, run: Run, made: seq<Matcher>, m: Matcher, n: nat, memo: Memo, bound: nat)
    requires n < |t| && Registered(m, made, bound) && Prepared(t, cx, run, made, memo, bound)
    ensures var (b, memo') := Eval(t, cx, run, m, n, memo);
            b == Plain(t, cx, m, n) && (!b ==> Prepared(t, cx, run, made, memo', bound))
  {
    EvalOk(t, cx, run, made, m, n, memo, bound);
  }

  lemma SameFirstMore(kept: seq<nat>, plain: seq<nat>, k: nat, b: bool, p: bool)
    requires SameFirst(kept, plain) && (kept == [] ==> b == p)
    ensures SameFirst(if b then kept + [k] else kept, if p then plain + [k] else plain)
  {
  }

  /** Until something is kept the slots are settled: condense keeps nothing iff nothing matches, and the first entry
      that it keeps is the first one that matches. */
  lemma {:induction false} FirstKept(t: Tree, cx: Context, run: Run, made: seq<Matcher>, m: Matcher, list: Slots,
                                     memo: Memo, bound: nat)
    requires Within(t, list) && Registered(m, made, bound) && Prepared(t, cx, run, made, memo, bound)
    ensures var (kept, memo') := KeptEval(t, cx, run, m, list, memo);
            && SameFirst(kept, KeptPlain(t, cx, m, list))
            && (kept == [] ==> Prepared(t, cx, run, made, memo', bound))
  {
    if list != [] {
      var k := |list| - 1;
      FirstKept(t, cx, run, made, m, list[..k], memo, bound);
      KeptPlainMore(t, cx, m, list);
      var (kept, memo1) := KeptEval(t, cx, run, m, list[..k], memo);
      if list[k].At? {
        var n := list[k].node;
        if kept == [] {
          NextEntry(t, cx, run, made, m, n, memo1, bound);
        }
        SameFirstMore(kept, KeptPlain(t, cx, m, list[..k]), k, Eval(t, cx, run, m, n, memo1).0, Plain(t, cx, m, n));
      }
    }
  }

  lemma KeptIsPlain(t: Tree, cx: Context, run: Run, made: seq<Matcher>, m: Matcher, list: Slots, memo: Memo, bound: nat)
    requires Within(t, list) && Registered(m, made, bound) && YesTruthful(t, cx, run, made, memo)
    ensures forall k | k in KeptEval(t, cx, run, m, list, memo).0 :: k in KeptPlain(t, cx, m, list)
  {
    NothingWrong(t, cx, run, made, m, list, memo, bound);
    forall k | k in KeptEval(t, cx, run, m, list, memo).0 ensures k in KeptPlain(t, cx, m, list) {
      PlainKept(t, cx, m, list, k);
    }
  }

  lemma SameShort(kept: seq<nat>, plain: seq<nat>)
    requires Ascends(kept) && (forall k | k in kept :: k in plain) && |plain| <= 1 && (kept == [] <==> plain == [])
    ensures kept == plain
  {
    if plain != [] {
      assert kept[0] in plain;
    }
    SetMatchers.SortedUnique(kept, plain);
  }

  /** A list in which at most one entry matches is filtered rightly, whatever the matcher. */
  lemma AtMostOne(t: Tree, cx: Context, run: Run, made: seq<Matcher>, m: Matcher, list: Slots, memo: Memo, bound: nat)
    requires Within(t, list) && Registered(m, made, bound) && |KeptPlain(t, cx, m, list)| <= 1
    requires Prepared(t, cx, run, made, memo, bound)
    ensures KeptEval(t, cx, run, m, list, memo).0 == KeptPlain(t, cx, m, list)
  {
    FirstKept(t, cx, run, made, m, list, memo, bound);
    KeptIsPlain(t, cx, run, made, m, list, memo, bound);
    KeptEvalAscends(t, cx, run, m, list, memo);
    SameShort(KeptEval(t, cx, run, m, list, memo).0, KeptPlain(t, cx, m, list));
  }

  // Compiled groups

  /** The compiled group walks with a memo at token `i`: a descendant or sibling combinator, or the foundation,
      unless a search of the whole document skips it. */
  predicate WalksAt(tokens: seq<Token>, cx: Context, i: nat)
    requires i < |tokens|
  {
    if tokens[i].Rel? then !tokens[i].comb.First() else i == 0 && !cx.whole
  }

  /** A list of matchers of which all but the first are simple filters. */
  predicate LeavesAfter(ms: seq<Matcher>) {
    |ms| > 0 && forall k | 0 < k < |ms| :: ms[k].Leaf?
  }

  lemma {:induction false} BuildsLeaves(tokens: seq<Token>, done: nat, i: nat)
    requires i <= |tokens| && |tokens| > 0
    ensures LeavesAfter(BuildingOf(tokens, done, i).matchers)
  {
    if i > 1 || (i == 1 && tokens[0].Filter?) {
      BuildsLeaves(tokens, done, i - 1);
    }
  }

  lemma UnmemoisedList(ms: seq<Matcher>, cx: Context)
    requires LeavesAfter(ms) && Unmemoised(ms[0], cx)
    ensures Unmemoised(ElementMatcher(ms), cx)
  {
  }

  lemma SingleList(ms: seq<Matcher>, cx: Context, w: Matcher)
    requires LeavesAfter(ms) && Single(ms[0], cx, w)
    ensures Single(ElementMatcher(ms), cx, w)
  {
  }

  /** The head of the list changes at a combinator only. */
  lemma ExtendedHead(tokens: seq<Token>, done: nat, i: nat)
    requires 0 < i < |tokens|
    ensures var before, after := BuildingOf(tokens, done, i), BuildingOf(tokens, done, i + 1);
            after.matchers[0] == if tokens[i].Filter? then before.matchers[0]
                                 else Combine(ElementMatcher(before.matchers), tokens[i].comb, false, before.done)
  {
  }

  lemma FirstHead(tokens: seq<Token>, done: nat)
    requires |tokens| > 0
    ensures BuildingOf(tokens, done, 0).matchers[0] == FirstMatcher(tokens[0], done)
    ensures BuildingOf(tokens, done, 1).matchers[0] == FirstMatcher(tokens[0], done)
  {
  }

  lemma {:induction false} BuildsUnmemoised(tokens: seq<Token>, done: nat, cx: Context, i: nat)
    requires 0 < i <= |tokens| && forall j | 0 <= j < i :: !WalksAt(tokens, cx, j)
    ensures Unmemoised(BuildingOf(tokens, done, i).matchers[0], cx)
    ensures Unmemoised(ElementMatcher(BuildingOf(tokens, done, i).matchers), cx)
  {
    if i == 1 {
      FirstHead(tokens, done);
      assert !WalksAt(tokens, cx, 0);
    } else {
      BuildsUnmemoised(tokens, done, cx, i - 1);
      ExtendedHead(tokens, done, i - 1);
      assert !WalksAt(tokens, cx, i - 1);
    }
    BuildsLeaves(tokens, done, i);
    UnmemoisedList(BuildingOf(tokens, done, i).matchers, cx);
  }

  /** A group without such a walk is filtered rightly under any run number, and the memo is not touched. */
  lemma NoWalk(t: Tree, cx: Context, run: Run, tokens: seq<Token>, done: nat, list: Slots, memo: Memo)
    requires Within(t, list) && |tokens| > 0 && forall j | 0 <= j < |tokens| :: !WalksAt(tokens, cx, j)
    ensures var m := Compiled(tokens, done);
            KeptEval(t, cx, run, m, list, memo) == (KeptPlain(t, cx, m, list), memo)
  {
    BuildsUnmemoised(tokens, done, cx, |tokens|);
    UnmemoisedCondense(t, cx, run, Compiled(tokens, done), list, memo);
  }

  /** The walk at token `i`. */
  function WalkAt(tokens: seq<Token>, done: nat, cx: Context, i: nat): Matcher
    requires i < |tokens|
  {
    if i > 0 then BuildingOf(tokens, done, i + 1).matchers[0]
    else if cx.many then FirstMatcher(tokens[0], done).any
    else FirstMatcher(tokens[0], done).one
  }

  predicate OnlyWalk(tokens: seq<Token>, cx: Context, i: nat)
    requires i < |tokens|
  {
    forall j | 0 <= j < |tokens| :: WalksAt(tokens, cx, j) <==> j == i
  }

  lemma WalkMemoised(tokens: seq<Token>, done: nat, cx: Context, i: nat)
    requires i < |tokens| && OnlyWalk(tokens, cx, i)
    ensures Memoised(WalkAt(tokens, done, cx, i), cx)
  {
    assert WalksAt(tokens, cx, i);
    if i > 0 {
      BuildsUnmemoised(tokens, done, cx, i);
      ExtendedHead(tokens, done, i);
    }
  }

  lemma {:induction false} BuildsSingle(tokens: seq<Token>, done: nat, cx: Context, i: nat, j: nat)
    requires i < |tokens| && OnlyWalk(tokens, cx, i) && i < j <= |tokens|
    ensures Single(BuildingOf(tokens, done, j).matchers[0], cx, WalkAt(tokens, done, cx, i))
    ensures Single(ElementMatcher(BuildingOf(tokens, done, j).matchers), cx, WalkAt(tokens, done, cx, i))
  {
    if j > i + 1 {
      BuildsSingle(tokens, done, cx, i, j - 1);
      ExtendedHead(tokens, done, j - 1);
      assert !WalksAt(tokens, cx, j - 1);
    } else if i == 0 {
      FirstHead(tokens, done);
      assert WalksAt(tokens, cx, 0);
    }
    BuildsLeaves(tokens, done, j);
    SingleList(BuildingOf(tokens, done, j).matchers, cx, WalkAt(tokens, done, cx, i));
  }

  /** For a group with one such walk: which entries are lost can be read from the tree. */
  lemma OneWalk(t: Tree, cx: Context, run: Run, tokens: seq<Token>, done: nat, i: nat, list: Slots, memo: Memo)
    requires Within(t, list) && i < |tokens| && OnlyWalk(tokens, cx, i)
    requires forall x: nat :: !Mine(run, WalkAt(tokens, done, cx, i), memo, x)
    ensures var m, w := Compiled(tokens, done), WalkAt(tokens, done, cx, i);
            && Memoised(w, cx) && Single(m, cx, w)
            && (KeptEval(t, cx, run, m, list, memo).0 == KeptPlain(t, cx, m, list) <==>
                forall j, k | 0 <= j < k < |list| :: !Clash(t, cx, m, w, list, j, k))
  {
    WalkMemoised(tokens, done, cx, i);
    BuildsSingle(tokens, done, cx, i, |tokens|);
    SharedExactly(t, cx, run, Compiled(tokens, done), WalkAt(tokens, done, cx, i), list, memo);
  }

  /** For any group: nothing wrong is kept, and the first entry that matches is. */
  lemma AnyWalks(t: Tree, cx: Context, run: Run, made: seq<Matcher>, tokens: seq<Token>, done: nat, list: Slots,
                 memo: Memo, bound: nat)
    requires Within(t, list) && |tokens| > 0 && Registered(Compiled(tokens, done), made, bound)
    requires Prepared(t, cx, run, made, memo, bound)
    ensures var kept := KeptEval(t, cx, run, Compiled(tokens, done), list, memo).0;
            var plain := KeptPlain(t, cx, Compiled(tokens, done), list);
            && (forall k | k in kept :: k in plain) && SameFirst(kept, plain)
            && (|plain| <= 1 ==> kept == plain)
            && forall k | 0 <= k < |list| ::
                 k in plain <==> list[k].At? && Selects(t, cx, tokens, list[k].node)
  {
    var m := Compiled(tokens, done);
    CompiledMeaning(tokens, done);
    FirstKept(t, cx, run, made, m, list, memo, bound);
    KeptIsPlain(t, cx, run, made, m, list, memo, bound);
    forall k | 0 <= k < |list| {
      PlainKept(t, cx, m, list, k);
    }
    if |KeptPlain(t, cx, m, list)| <= 1 {
      AtMostOne(t, cx, run, made, m, list, memo, bound);
    }
  }

  // A list that is filtered wrongly

  /** document > div > span > (p, p) */
  const TWO_LEAVES: Tree :=
    [Node(-1, false, "", "", {}), Node(0, true, "div", "", {}), Node(1, true, "span", "", {}),
     Node(2, true, "p", "", {}), Node(2, true, "p", "", {})]

  const DIV_P: seq<Token> := [Filter(Tag("div")), Rel(Descendant), Filter(Tag("p"))]

  lemma DivP(cx: Context, done: nat)
    requires cx.whole
    ensures OnlyWalk(DIV_P, cx, 1)
    ensures var head := All([FirstMatcher(DIV_P[0], done), Leaf(Tag("div"))]);
            var w := Combine(head, Descendant, false, done + 2);
            WalkAt(DIV_P, done, cx, 1) == w && Compiled(DIV_P, done) == All([w, Leaf(Tag("p"))])
  {
    assert BuildingOf(DIV_P, done, 1) == Building([FirstMatcher(DIV_P[0], done), Leaf(Tag("div"))], done + 2);
    assert BuildingOf(DIV_P, done, 2) == Extended(BuildingOf(DIV_P, done, 1), DIV_P[1]);
    assert BuildingOf(DIV_P, done, 3) == Extended(BuildingOf(DIV_P, done, 2), DIV_P[2]);
  }

  lemma WalkInTree(cx: Context, w: Matcher, n: nat)
    requires cx.whole && w.Combine? && w.comb == Descendant && !w.base && (n == 3 || n == 4)
    requires exists f: Matcher :: f.Foundation? && !f.leading && w.inner == All([f, Leaf(Tag("div"))])
    ensures Nearest(TWO_LEAVES, cx, w, n) == 1 && Above(TWO_LEAVES, ParentNode, n, 2)
  {
    var t := TWO_LEAVES;
    assert Step(t, ParentNode, n) == 2 && Step(t, ParentNode, 2) == 1;
    var parts := w.inner.parts;
    assert parts[0] in parts && parts[1] in parts && parts[1] == Leaf(Tag("div"));
    assert !Plain(t, cx, parts[1], 2) && Plain(t, cx, parts[1], 1) && Plain(t, cx, parts[0], 1);
    assert !Plain(t, cx, w.inner, 2);
    assert Plain(t, cx, w.inner, 1);
    assert Nearest(t, cx, w, 2) == 1;
  }

  lemma AskedInTree(cx: Context, w: Matcher, m: Matcher, n: nat)
    requires w.Combine? && m == All([w, Leaf(Tag("p"))]) && Single(m, cx, w) && (n == 3 || n == 4)
    ensures Asked(TWO_LEAVES, cx, m, w, n) == n
  {
    assert Asked(TWO_LEAVES, cx, w, w, n) == n;
    assert m.parts[0] == w && m.parts[1] == Leaf(Tag("p")) && |m.parts| == 2;
    assert Holds(TWO_LEAVES, Tag("p"), n);
  }

  const TWO_P: Slots := [SetMatchers.At(3), SetMatchers.At(4)]

  lemma TwoWalks(cx: Context, done: nat)
    requires cx.whole
    ensures var t, m, w := TWO_LEAVES, Compiled(DIV_P, done), WalkAt(DIV_P, done, cx, 1);
            && OnlyWalk(DIV_P, cx, 1) && Memoised(w, cx) && Single(m, cx, w)
            && Plain(t, cx, m, 3) && Plain(t, cx, m, 4) && Clash(t, cx, m, w, TWO_P, 0, 1)
  {
    var t, m, w := TWO_LEAVES, Compiled(DIV_P, done), WalkAt(DIV_P, done, cx, 1);
    DivP(cx, done);
    WalkMemoised(DIV_P, done, cx, 1);
    BuildsSingle(DIV_P, done, cx, 1, 3);
    WalkInTree(cx, w, 3);
    WalkInTree(cx, w, 4);
    AskedInTree(cx, w, m, 3);
    AskedInTree(cx, w, m, 4);
    assert AskedFor(t, cx, m, w, TWO_P, 0) == 3 && AskedFor(t, cx, m, w, TWO_P, 1) == 4;
    assert Collide(t, cx, w, 3, 4);
    ClashIsPlain(t, cx, m, w, TWO_P, 0, 1);
    assert Collide(t, cx, w, 4, 3) && Clash(t, cx, m, w, TWO_P, 1, 0);
    ClashIsPlain(t, cx, m, w, TWO_P, 1, 0);
  }

  lemma BothMatch(cx: Context, done: nat)
    requires cx.whole
    ensures KeptPlain(TWO_LEAVES, cx, Compiled(DIV_P, done), TWO_P) == [0, 1]
  {
    var t, m := TWO_LEAVES, Compiled(DIV_P, done);
    TwoWalks(cx, done);
    PlainKept(t, cx, m, TWO_P, 0);
    PlainKept(t, cx, m, TWO_P, 1);
    SetMatchers.SortedUnique(KeptPlain(t, cx, m, TWO_P), [0, 1]);
  }

  lemma OnlyFirst(t: Tree, cx: Context, run: Run, m: Matcher, w: Matcher, list: Slots, memo: Memo)
    requires Within(t, list) && Single(m, cx, w) && Memoised(w, cx) && forall x: nat :: !Mine(run, w, memo, x)
    requires |list| == 2 && list[0].At? && Plain(t, cx, m, list[0].node) && Clash(t, cx, m, w, list, 0, 1)
    ensures KeptEval(t, cx, run, m, list, memo).0 == [0]
  {
    var kept := KeptEval(t, cx, run, m, list, memo).0;
    ListNoted(t, cx, run, m, w, list, memo);
    FindsMeaning(t, cx, m, w, list, 0);
    FindsMeaning(t, cx, m, w, list, 1);
    KeptEvalAscends(t, cx, run, m, list, memo);
    SetMatchers.SortedUnique(kept, [0]);
  }

  /** Filtering the two `p` elements of the tree by the compiled group `div p`, both under one run number: both are
      inside the `div`, and only the first one is kept. */
  lemma SharedRunNumber(cx: Context, run: Run, done: nat, memo: Memo)
    requires cx.whole && forall x: nat :: !Mine(run, WalkAt(DIV_P, done, cx, 1), memo, x)
    ensures var m := Compiled(DIV_P, done);
            && KeptPlain(TWO_LEAVES, cx, m, TWO_P) == [0, 1]
            && KeptEval(TWO_LEAVES, cx, run, m, TWO_P, memo).0 == [0]
  {
    TwoWalks(cx, done);
    BothMatch(cx, done);
    OnlyFirst(TWO_LEAVES, cx, run, Compiled(DIV_P, done), WalkAt(DIV_P, done, cx, 1), TWO_P, memo);
  }
}
