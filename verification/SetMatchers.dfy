/** Positional filters on a seed: slots move from `seed` to `results` at their own index,
    and matches of several groups are put back together in seed order. */
module SetMatchers {
  import opened Helpers

  /** A slot of a JavaScript array: an element, or `false`/`undefined`. */
  datatype Slot = Hole | At(node: nat)

  datatype Position = First | Last | Eq(arg: int) | Even | Odd | Lt(arg: int) | Gt(arg: int)

  /** What `setMatcher` closes over. Filters are the nodes they accept. A post-filter that is not
      positional becomes a set matcher with only a pre-filter. */
  datatype SetMatcher = SetMatcher(pre: Option<set<nat>>, position: Option<Position>, post: Option<SetMatcher>) {
    predicate Valid() {
      (position.None? ==> pre.Some? && post.None?) && (post.Some? ==> post.value.Valid())
    }
  }

  // Positions

  /** How far the position `j` of a list of `length` elements is behind the one that `arg` names: the first one is
      number zero, the last one number minus one. */
  function Behind(arg: int, length: nat, j: nat): int {
    if arg >= 0 then j - arg else (j - length) - arg
  }

  /** The position `j` of a list of `length` elements is one that the filter names. */
  predicate Chosen(p: Position, length: nat, j: nat) {
    match p
    case First => j == 0
    case Last => j == length - 1
    case Eq(arg) => Behind(arg, length, j) == 0
    case Even => j % 2 == 0
    case Odd => j % 2 == 1
    case Lt(arg) => Behind(arg, length, j) < 0
    case Gt(arg) => Behind(arg, length, j) > 0
  }

  /** Without a sign the argument counts from the front. */
  lemma FromFront(length: nat, j: nat, k: nat)
    requires j < length
    ensures Chosen(Eq(k), length, j) <==> j == k
    ensures Chosen(Lt(k), length, j) <==> j < k
    ensures Chosen(Gt(k), length, j) <==> j > k
  {
  }

  /** A negative argument counts from the back, where the last element is number one. */
  lemma FromBack(length: nat, j: nat, k: int)
    requires j < length && k >= 1
    ensures Chosen(Eq(-k), length, j) <==> j + k == length
    ensures Chosen(Lt(-k), length, j) <==> j + k < length
    ensures Chosen(Gt(-k), length, j) <==> j + k > length
  {
  }

  /** The position `j` is the one that a negative argument names, or before or after it. */
  predicate Back(p: Position, length: nat, j: nat) {
    || (p.Eq? && p.arg < 0 && j - p.arg == length)
    || (p.Lt? && p.arg < 0 && j - p.arg < length)
    || (p.Gt? && p.arg < 0 && j - p.arg > length)
  }

  /** `argument < 0 ? argument + length : argument` */
  function Offset(arg: int, length: nat): int {
    if arg < 0 then arg + length else arg
  }

  /** The functions given to createPositionalPseudo. */
  method MatchIndexes(p: Position, length: nat) returns (indexes: seq<int>)
    ensures forall j | 0 <= j < length :: j in indexes <==> Chosen(p, length, j)
    ensures (p.Eq? || p.Lt? || p.Gt?) && p.arg < 0 ==>
              forall j | 0 <= j < length :: j in indexes <==> Back(p, length, j)
  {
    indexes := [];
    match p {
      case First => indexes := [0];
      case Last => indexes := [length - 1];
      case Eq(arg) => indexes := [Offset(arg, length)];
      case Even => indexes := EverySecond(0, length);
      case Odd => indexes := EverySecond(1, length);
      case Lt(arg) =>
        var i := Offset(arg, length) - 1;
        while i >= 0
          invariant i < Offset(arg, length)
          invariant forall j | 0 <= j :: j in indexes <==> i < j < Offset(arg, length)
        {
          indexes := indexes + [i];
          i := i - 1;
        }
      case Gt(arg) =>
        var i := Offset(arg, length) + 1;
        while i < length
          invariant i > Offset(arg, length)
          invariant forall j | j < length :: j in indexes <==> Offset(arg, length) < j < i
        {
          indexes := indexes + [i];
          i := i + 1;
        }
    }
  }

  method EverySecond(start: nat, length: nat) returns (indexes: seq<int>)
    requires start < 2
    ensures forall j | 0 <= j < length :: j in indexes <==> j % 2 == start
  {
    indexes := [];
    var i := start;
    while i < length
      invariant i % 2 == start
      invariant forall j | 0 <= j < length :: j in indexes <==> j < i && j % 2 == start
    {
      indexes := indexes + [i];
      i := i + 2;
    }
  }

  // The matcher as a function of the two arrays

  predicate Passes(filter: Option<set<nat>>, s: Slot) {
    s.At? && (filter.None? || s.node in filter.value)
  }

  /** `condense` keeps these indexes, in order. */
  function Kept(filter: Option<set<nat>>, s: seq<Slot>): (r: seq<nat>)
    ensures forall i | 0 <= i < |r| :: r[i] < |s| && Passes(filter, s[r[i]])
    ensures forall i, j | 0 <= i < j < |r| :: r[i] < r[j]
  {
    if s == [] then []
    else
      var k := |s| - 1;
      Kept(filter, s[..k]) + if Passes(filter, s[k]) then [k] else []
  }

  lemma {:induction false} KeptAll(filter: Option<set<nat>>, s: seq<Slot>, k: nat)
    requires k < |s| && Passes(filter, s[k])
    ensures k in Kept(filter, s)
  {
    if k < |s| - 1 {
      KeptAll(filter, s[..|s| - 1], k);
    }
  }

  function Gather(s: seq<Slot>, map': seq<nat>): (r: seq<Slot>)
    requires forall i | 0 <= i < |map'| :: map'[i] < |s|
    ensures |r| == |map'|
  {
    seq(|map'|, i requires 0 <= i < |map'| => s[map'[i]])
  }

  function Holes(n: nat): seq<Slot> {
    seq(n, _ => Hole)
  }

  /** Moves the slots in `moved` from `from` to `to`. */
  function Moved(from: seq<Slot>, to: seq<Slot>, moved: set<nat>): (r: (seq<Slot>, seq<Slot>))
    requires |from| == |to|
    ensures |r.0| == |r.1| == |from|
  {
    (seq(|from|, k requires 0 <= k < |from| => if k in moved then Hole else from[k]),
     seq(|to|, k requires 0 <= k < |to| => if k in moved then from[k] else to[k]))
  }

  /** The slots that a position names. */
  function Named(p: Option<Position>, s: seq<Slot>): set<nat> {
    set k | 0 <= k < |s| && s[k].At? && (p.None? || Chosen(p.value, |s|, k))
  }

  /** The original indexes of the entries in `picked`. */
  function Through(map': seq<nat>, picked: set<nat>): set<nat> {
    set i | i in picked && i < |map'| :: map'[i]
  }

  lemma ThroughAt(map': seq<nat>, picked: set<nat>, i: nat)
    requires i < |map'| && forall j, k | 0 <= j < k < |map'| :: map'[j] < map'[k]
    ensures map'[i] in Through(map', picked) <==> i in picked
  {
  }

  /** The image under `map'` of the slots of `s` that hold an element. */
  function Image(s: seq<Slot>, map': seq<nat>): set<nat>
    requires |s| == |map'|
  {
    Through(map', Named(None, s))
  }

  /** The primary match and the post-filter on a pair of arrays. */
  function Core(m: SetMatcher, from: seq<Slot>, to: seq<Slot>): (r: (seq<Slot>, seq<Slot>))
    requires m.Valid() && |from| == |to|
    ensures |r.0| == |r.1| == |from|
    decreases m, 0
  {
    var (from1, to1) := Moved(from, to, Named(m.position, from));
    if m.post.None? then (from1, to1)
    else
      var postMap := Kept(None, to1);
      var temp := Run(m.post.value, Gather(to1, postMap), Holes(|postMap|)).0;
      var (to2, from2) := Moved(to1, from1, Image(temp, postMap));
      (from2, to2)
  }

  /** The whole set matcher, on a seed, without a post-finder. */
  function Run(m: SetMatcher, seed: seq<Slot>, results: seq<Slot>): (r: (seq<Slot>, seq<Slot>))
    requires m.Valid() && |seed| == |results|
    ensures |r.0| == |r.1| == |seed|
    decreases m, 1
  {
    if m.pre.None? then Core(m, seed, results)
    else
      var preMap := Kept(m.pre, seed);
      var matcherOut := Core(m, Gather(seed, preMap), Holes(|preMap|)).1;
      Moved(seed, results, Image(matcherOut, preMap))
  }

  // What it selects

  /** The slots of `list` that the position names and the post-filter then picks from the list of those. */
  function Survivors(m: SetMatcher, list: seq<Slot>): (r: set<nat>)
    requires m.Valid()
    ensures r <= Named(m.position, list)
    decreases m, 0
  {
    if m.post.None? then Named(m.position, list)
    else
      var order := InOrder(Named(m.position, list), |list|);
      Through(order, Picks(m.post.value, Gather(list, order)))
  }

  /** The slots of `s` that a set matcher selects: the survivors of the pre-filtered list. */
  function Picks(m: SetMatcher, s: seq<Slot>): (r: set<nat>)
    requires m.Valid()
    ensures r <= Named(None, s)
    decreases m, 1
  {
    if m.pre.None? then Survivors(m, s)
    else
      var preMap := Kept(m.pre, s);
      Through(preMap, Survivors(m, Gather(s, preMap)))
  }

  lemma {:induction false} SortedUnique(a: seq<nat>, b: seq<nat>)
    requires forall i, j | 0 <= i < j < |a| :: a[i] < a[j]
    requires forall i, j | 0 <= i < j < |b| :: b[i] < b[j]
    requires forall x :: x in a <==> x in b
    ensures a == b
  {
    if a == [] {
      var x := if b == [] then 0 else b[0];
      assert x in b <==> x in a;
    } else {
      var m, n := |a| - 1, |b| - 1;
      assert a[m] in b && b[n] in a;
      assert a[m] == b[n];
      forall x ensures x in a[..m] <==> x in b[..n] {
        assert x in a <==> x in a[..m] || x == a[m];
        assert x in b <==> x in b[..n] || x == b[n];
      }
      SortedUnique(a[..m], b[..n]);
    }
  }

  /** Condensing the primary matches lists them in order. */
  lemma PostMap(from: seq<Slot>, named: set<nat>)
    requires named <= Named(None, from)
    ensures var to1 := Moved(from, Holes(|from|), named).1;
            var order := InOrder(named, |from|);
            Kept(None, to1) == order && Gather(to1, order) == Gather(from, order)
  {
    var to1 := Moved(from, Holes(|from|), named).1;
    var order := InOrder(named, |from|);
    var postMap := Kept(None, to1);
    InOrderAll(named, |from|);
    forall x ensures x in postMap <==> x in order {
      if x in order {
        KeptAll(None, to1, x);
      }
    }
    SortedUnique(postMap, order);
  }

  /** Moving the named slots, and then all but the picked ones back, moves the picked ones. */
  lemma MoveBack(from: seq<Slot>, named: set<nat>, picked: set<nat>, temp: seq<Slot>)
    requires named <= Named(None, from)
    requires var order := InOrder(named, |from|);
             |temp| == |order| && forall i | 0 <= i < |order| :: temp[i].At? <==> i !in picked
    ensures var order := InOrder(named, |from|);
            var (from1, to1) := Moved(from, Holes(|from|), named);
            var (to2, from2) := Moved(to1, from1, Image(temp, order));
            (from2, to2) == Moved(from, Holes(|from|), Through(order, picked))
  {
    var order := InOrder(named, |from|);
    var back, survivors := Image(temp, order), Through(order, picked);
    InOrderAll(named, |from|);
    forall k | k in named ensures k in back <==> k !in survivors {
      var i :| 0 <= i < |order| && order[i] == k;
      ThroughAt(order, Named(None, temp), i);
      ThroughAt(order, picked, i);
    }
    MovedTwice(from, named, survivors, back);
  }

  lemma MovedTwice(from: seq<Slot>, named: set<nat>, survivors: set<nat>, back: set<nat>)
    requires survivors <= named && back <= named && forall k | k in named :: k in back <==> k !in survivors
    ensures var (from1, to1) := Moved(from, Holes(|from|), named);
            var (to2, from2) := Moved(to1, from1, back);
            (from2, to2) == Moved(from, Holes(|from|), survivors)
  {
    var (from1, to1) := Moved(from, Holes(|from|), named);
    var (to2, from2) := Moved(to1, from1, back);
    var goal := Moved(from, Holes(|from|), survivors);
    assert from2 == goal.0 && to2 == goal.1;
  }

  /** Starting without earlier results, exactly the picked slots move, each at its own index. */
  lemma {:induction false} CorePicks(m: SetMatcher, from: seq<Slot>)
    requires m.Valid()
    ensures Core(m, from, Holes(|from|)) == Moved(from, Holes(|from|), Survivors(m, from))
    decreases m, 0
  {
    if m.post.Some? {
      var named := Named(m.position, from);
      var order := InOrder(named, |from|);
      var list := Gather(from, order);
      PostMap(from, named);
      RunPicks(m.post.value, list, Holes(|order|));
      MoveBack(from, named, Picks(m.post.value, list), Run(m.post.value, list, Holes(|order|)).0);
    }
  }

  lemma {:induction false} RunPicks(m: SetMatcher, seed: seq<Slot>, results: seq<Slot>)
    requires m.Valid() && |seed| == |results| && (m.pre.Some? || m.post.None? || results == Holes(|seed|))
    ensures Run(m, seed, results) == Moved(seed, results, Picks(m, seed))
    decreases m, 1
  {
    if m.pre.None? && m.post.None? {
      assert Picks(m, seed) == Named(m.position, seed);
    } else if m.pre.None? {
      CorePicks(m, seed);
    } else {
      var preMap := Kept(m.pre, seed);
      var list := Gather(seed, preMap);
      CorePicks(m, list);
      assert Image(Core(m, list, Holes(|preMap|)).1, preMap) == Picks(m, seed);
    }
  }

  // Conservation

  /** No slot is filled on both sides. */
  predicate Apart(seed: seq<Slot>, results: seq<Slot>) {
    |seed| == |results| && forall k | 0 <= k < |seed| :: seed[k].Hole? || results[k].Hole?
  }

  function Either(a: Slot, b: Slot): Slot {
    if a.At? then a else b
  }

  /** Every slot holds on one of the two sides what it held before on one of them. */
  predicate Conserved(seed: seq<Slot>, results: seq<Slot>, after: (seq<Slot>, seq<Slot>)) {
    && |seed| == |results| && Apart(after.0, after.1) && |after.0| == |seed|
    && forall k | 0 <= k < |seed| :: Either(after.0[k], after.1[k]) == Either(seed[k], results[k])
  }

  lemma MovedConserves(from: seq<Slot>, to: seq<Slot>, moved: set<nat>)
    requires Apart(from, to) && forall k | k in moved :: k < |from| && from[k].At?
    ensures Conserved(from, to, Moved(from, to, moved))
  {
  }

  lemma RunConserves(m: SetMatcher, seed: seq<Slot>, results: seq<Slot>)
    requires m.Valid() && Apart(seed, results)
    ensures Conserved(seed, results, Run(m, seed, results))
  {
    if m.pre.Some? {
      var preMap := Kept(m.pre, seed);
      MovedConserves(seed, results, Image(Core(m, Gather(seed, preMap), Holes(|preMap|)).1, preMap));
    } else {
      var named := Named(m.position, seed);
      var (from1, to1) := Moved(seed, results, named);
      MovedConserves(seed, results, named);
      if m.post.Some? {
        var postMap := Kept(None, to1);
        var temp := Run(m.post.value, Gather(to1, postMap), Holes(|postMap|)).0;
        MovedConserves(to1, from1, Image(temp, postMap));
      }
    }
  }

  // Without a pre-filter the post-filter is also applied to the results of earlier groups

  /** What the post-filter picks from the earlier results together with the slots that the position names. */
  function PickedTogether(m: SetMatcher, seed: seq<Slot>, results: seq<Slot>): (r: set<nat>)
    requires m.Valid() && m.post.Some? && |seed| == |results|
    ensures r <= Named(None, results) + Named(m.position, seed)
  {
    var to1 := Moved(seed, results, Named(m.position, seed)).1;
    var postMap := Kept(None, to1);
    Through(postMap, Picks(m.post.value, Gather(to1, postMap)))
  }

  lemma ThroughKept(s: seq<Slot>, picked: set<nat>, k: nat) returns (i: nat)
    requires k < |s| && s[k].At?
    ensures var postMap := Kept(None, s);
            i < |postMap| && postMap[i] == k && (k in Through(postMap, picked) <==> i in picked)
  {
    var postMap := Kept(None, s);
    KeptAll(None, s, k);
    i :| 0 <= i < |postMap| && postMap[i] == k;
    ThroughAt(postMap, picked, i);
  }

  /** A filled slot goes back iff it is not picked. */
  lemma GoesBack(to1: seq<Slot>, picked: set<nat>, temp: seq<Slot>, k: nat)
    requires k < |to1| && to1[k].At? && |temp| == |Kept(None, to1)|
    requires forall i | 0 <= i < |temp| :: temp[i].At? <==> i !in picked
    ensures k in Image(temp, Kept(None, to1)) <==> k !in Through(Kept(None, to1), picked)
  {
    var i := ThroughKept(to1, picked, k);
    ThroughAt(Kept(None, to1), Named(None, temp), i);
  }

  lemma AllGoBack(to1: seq<Slot>, picked: set<nat>, temp: seq<Slot>)
    requires |temp| == |Kept(None, to1)| && forall i | 0 <= i < |temp| :: temp[i].At? <==> i !in picked
    ensures Image(temp, Kept(None, to1)) == Named(None, to1) - Through(Kept(None, to1), picked)
  {
    forall k | k in Named(None, to1)
      ensures k in Image(temp, Kept(None, to1)) <==> k !in Through(Kept(None, to1), picked)
    {
      GoesBack(to1, picked, temp, k);
    }
  }

  lemma {:induction false} Unpicked(post: SetMatcher, list: seq<Slot>)
    requires post.Valid() && forall i | 0 <= i < |list| :: list[i].At?
    ensures var temp := Run(post, list, Holes(|list|)).0;
            forall i | 0 <= i < |temp| :: temp[i].At? <==> i !in Picks(post, list)
  {
    RunPicks(post, list, Holes(|list|));
  }

  lemma {:induction false} GoBack(post: SetMatcher, to1: seq<Slot>)
    requires post.Valid()
    ensures var postMap := Kept(None, to1);
            var list := Gather(to1, postMap);
            Image(Run(post, list, Holes(|list|)).0, postMap) == Named(None, to1) - Through(postMap, Picks(post, list))
  {
    var list := Gather(to1, Kept(None, to1));
    Unpicked(post, list);
    AllGoBack(to1, Picks(post, list), Run(post, list, Holes(|list|)).0);
  }

  /** The effect of a group without a pre-filter: the named slots join the earlier results, and what the
      post-filter does not pick from all of them goes back. */
  lemma NoPreFilter(m: SetMatcher, seed: seq<Slot>, results: seq<Slot>)
    requires m.Valid() && m.pre.None? && m.post.Some? && Apart(seed, results)
    ensures var to1 := Moved(seed, results, Named(m.position, seed)).1;
            forall k | 0 <= k < |seed| ::
              Run(m, seed, results).1[k] == if k in PickedTogether(m, seed, results) then to1[k] else Hole
  {
    var to1 := Moved(seed, results, Named(m.position, seed)).1;
    GoBack(m.post.value, to1);
  }

  /** The post-filter, applied to the earlier results together with the named slots, picks every earlier result
      and, among the named slots, those that it picks from the named slots alone. */
  ghost predicate LeavesEarlier(m: SetMatcher, seed: seq<Slot>, results: seq<Slot>)
    requires m.Valid() && m.post.Some? && |seed| == |results|
  {
    var picked := PickedTogether(m, seed, results);
    && (forall k | k in Named(None, results) :: k in picked)
    && (forall k | k in Named(m.position, seed) :: k in picked <==> k in Picks(m, seed))
  }

  /** Exactly when a group without a pre-filter moves its own picks and nothing else. */
  lemma EarlierResults(m: SetMatcher, seed: seq<Slot>, results: seq<Slot>)
    requires m.Valid() && m.pre.None? && m.post.Some? && Apart(seed, results)
    ensures Run(m, seed, results) == Moved(seed, results, Picks(m, seed)) <==> LeavesEarlier(m, seed, results)
  {
    NoPreFilter(m, seed, results);
    RunConserves(m, seed, results);
    var own := Moved(seed, results, Picks(m, seed));
    MovedConserves(seed, results, Picks(m, seed));
    var after := Run(m, seed, results);
    forall k | 0 <= k < |seed|
      ensures after.1[k] == own.1[k] <==> (k in PickedTogether(m, seed, results) <==> own.1[k].At?)
    {
    }
    if forall k | 0 <= k < |seed| :: after.1[k] == own.1[k] {
      assert forall k | 0 <= k < |seed| :: after.0[k] == own.0[k];
      assert after.0 == own.0 && after.1 == own.1;
    }
  }

  function Only(accepted: set<nat>): SetMatcher {
    SetMatcher(Some(accepted), None, None)
  }

  lemma {:induction false} OnlyPicks(accepted: set<nat>, list: seq<Slot>, k: nat)
    requires k < |list|
    ensures k in Picks(Only(accepted), list) <==> Passes(Some(accepted), list[k])
  {
    var preMap := Kept(Some(accepted), list);
    if Passes(Some(accepted), list[k]) {
      KeptAll(Some(accepted), list, k);
      var j :| 0 <= j < |preMap| && preMap[j] == k;
      assert j in Survivors(Only(accepted), Gather(list, preMap));
    }
  }

  /** A plain post-filter picks the slots that pass it. */
  lemma OnlyTogether(m: SetMatcher, accepted: set<nat>, seed: seq<Slot>, results: seq<Slot>, k: nat)
    requires m.Valid() && m.post == Some(Only(accepted)) && |seed| == |results| && k < |seed|
    ensures k in PickedTogether(m, seed, results) <==>
            Passes(Some(accepted), Moved(seed, results, Named(m.position, seed)).1[k])
  {
    var to1 := Moved(seed, results, Named(m.position, seed)).1;
    var postMap := Kept(None, to1);
    if to1[k].At? {
      var i := ThroughKept(to1, Picks(Only(accepted), Gather(to1, postMap)), k);
      OnlyPicks(accepted, Gather(to1, postMap), i);
    }
  }

  lemma {:induction false} OnlyAlone(m: SetMatcher, accepted: set<nat>, seed: seq<Slot>, k: nat)
    requires m.Valid() && m.pre.None? && m.post == Some(Only(accepted)) && k in Named(m.position, seed)
    ensures k in Picks(m, seed) <==> seed[k].node in accepted
  {
    var order := InOrder(Named(m.position, seed), |seed|);
    InOrderAll(Named(m.position, seed), |seed|);
    var i :| 0 <= i < |order| && order[i] == k;
    ThroughAt(order, Picks(Only(accepted), Gather(seed, order)), i);
    OnlyPicks(accepted, Gather(seed, order), i);
  }

  /** With a plain post-filter a group moves its own picks and nothing else iff every earlier result passes the
      filter. */
  lemma PlainLeaves(m: SetMatcher, accepted: set<nat>, seed: seq<Slot>, results: seq<Slot>)
    requires m.Valid() && m.pre.None? && m.post == Some(Only(accepted)) && Apart(seed, results)
    ensures LeavesEarlier(m, seed, results) <==>
            forall k | 0 <= k < |seed| && results[k].At? :: results[k].node in accepted
    ensures Run(m, seed, results) == Moved(seed, results, Picks(m, seed)) <==>
            forall k | 0 <= k < |seed| && results[k].At? :: results[k].node in accepted
  {
    forall k | 0 <= k < |seed|
      ensures results[k].At? ==> (k in PickedTogether(m, seed, results) <==> results[k].node in accepted)
      ensures k in Named(m.position, seed) ==> (k in PickedTogether(m, seed, results) <==> k in Picks(m, seed))
    {
      OnlyTogether(m, accepted, seed, results, k);
      if k in Named(m.position, seed) {
        OnlyAlone(m, accepted, seed, k);
      }
    }
    EarlierResults(m, seed, results);
  }

  const LAST_B := SetMatcher(None, Some(Last), Some(Only({2})))
  const FIRST_A := SetMatcher(None, Some(First), Some(Only({1})))

  /** Filtering [1, 2] by ":first.a, :last.b" where 1 has class a and 2 has class b: the groups run last one
      first, and the second one undoes the match of the first. */
  lemma LostMatch()
    ensures var (seed, results) := Run(LAST_B, [At(1), At(2)], Holes(2));
            results[1] == At(2) && Run(FIRST_A, seed, results).1[1] == Hole
  {
    var start := [At(1), At(2)];
    LastMatched();
    RunConserves(LAST_B, start, Holes(2));
    var (seed, results) := Run(LAST_B, start, Holes(2));
    NoPreFilter(FIRST_A, seed, results);
    OnlyTogether(FIRST_A, {1}, seed, results, 1);
  }

  lemma LastMatched()
    ensures Run(LAST_B, [At(1), At(2)], Holes(2)).1[1] == At(2)
  {
    var start := [At(1), At(2)];
    var to1 := Moved(start, Holes(2), Named(Some(Last), start)).1;
    assert to1[1] == At(2);
    NoPreFilter(LAST_B, start, Holes(2));
    OnlyTogether(LAST_B, {2}, start, Holes(2), 1);
  }

  const FIRST_LAST := SetMatcher(None, Some(First), Some(SetMatcher(None, Some(Last), None)))

  /** The group ":first:last" would pick the element 1, but after an earlier group has matched the element 2 it
      keeps that match and loses its own pick. */
  lemma LostPick()
    ensures var seed, results := [At(1), Hole], [Hole, At(2)];
            && 0 in Picks(FIRST_LAST, seed)
            && Run(FIRST_LAST, seed, results).1 == [Hole, At(2)]
  {
    var seed, results := [At(1), Hole], [Hole, At(2)];
    var to1 := Moved(seed, results, Named(Some(First), seed)).1;
    assert to1 == [At(1), At(2)];
    BothKept();
    FirstAlone();
    NoPreFilter(FIRST_LAST, seed, results);
    ThroughAt([0, 1], Picks(FIRST_LAST.post.value, to1), 0);
    ThroughAt([0, 1], Picks(FIRST_LAST.post.value, to1), 1);
  }

  lemma FirstAlone()
    ensures 0 in Picks(FIRST_LAST, [At(1), Hole])
  {
    var seed := [At(1), Hole];
    var order := InOrder(Named(Some(First), seed), 2);
    InOrderAtMostOne(Named(Some(First), seed), 2, 0);
    assert order == [0] && Gather(seed, order) == [At(1)];
    assert 0 in Picks(FIRST_LAST.post.value, [At(1)]);
    ThroughAt(order, Picks(FIRST_LAST.post.value, [At(1)]), 0);
  }

  lemma BothKept()
    ensures Kept(None, [At(1), At(2)]) == [0, 1] && Gather([At(1), At(2)], [0, 1]) == [At(1), At(2)]
  {
    assert [At(1), At(2)][..1] == [At(1)] && [At(1)][..0] == [];
    assert Kept(None, [At(1)]) == [0];
  }

  // The matcher on arrays

  /** `newUnmatched` and `map` of condense. */
  method Condense(filter: Option<set<nat>>, s: array<Slot>) returns (kept: array<Slot>, map': seq<nat>)
    ensures map' == Kept(filter, s[..]) && fresh(kept) && kept[..] == Gather(s[..], map')
  {
    map' := [];
    var i := 0;
    while i < s.Length
      invariant 0 <= i <= s.Length && map' == Kept(filter, s[..i])
    {
      assert s[..i + 1][..i] == s[..i];
      if Passes(filter, s[i]) {
        map' := map' + [i];
      }
      i := i + 1;
    }
    assert s[..i] == s[..];
    kept := new Slot[|map'|](k requires 0 <= k < |map'| && map'[k] < s.Length reads s => s[map'[k]]);
  }

  /** The matcher that createPositionalPseudo returns. */
  method MatchPositions(p: Position, from: array<Slot>, to: array<Slot>)
    requires from != to && from.Length == to.Length
    modifies from, to
    ensures (from[..], to[..]) == Moved(old(from[..]), old(to[..]), Named(Some(p), old(from[..])))
    ensures (p.Eq? || p.Lt? || p.Gt?) && p.arg < 0 ==>
              forall j | 0 <= j < from.Length ::
                if old(from[j]).At? && Back(p, from.Length, j) then from[j] == Hole && to[j] == old(from[j])
                else from[j] == old(from[j]) && to[j] == old(to[j])
  {
    var matchIndexes := MatchIndexes(p, from.Length);
    var i := |matchIndexes|;
    while i > 0
      invariant 0 <= i <= |matchIndexes|
      invariant forall k | 0 <= k < from.Length ::
                  if old(from[k]).At? && k in matchIndexes[i..] then from[k] == Hole && to[k] == old(from[k])
                  else from[k] == old(from[k]) && to[k] == old(to[k])
    {
      i := i - 1;
      var j := matchIndexes[i];
      assert matchIndexes[i..] == [j] + matchIndexes[i + 1..];
      if 0 <= j < from.Length && from[j].At? {
        to[j] := from[j];
        from[j] := Hole;
      }
    }
    assert matchIndexes[0..] == matchIndexes;
    ghost var goal := Moved(old(from[..]), old(to[..]), Named(Some(p), old(from[..])));
    assert from[..] == goal.0 && to[..] == goal.1;
  }

  /** Moves the elements left in `temp` from one array to the other, at their original indexes. */
  method MoveThrough(temp: array<Slot>, map': seq<nat>, from: array<Slot>, to: array<Slot>)
    requires temp.Length == |map'| && from.Length == to.Length && from != to && temp != from && temp != to
    requires forall i | 0 <= i < |map'| :: map'[i] < from.Length && (temp[i].At? ==> temp[i] == from[map'[i]])
    requires forall i, j | 0 <= i < j < |map'| :: map'[i] < map'[j]
    modifies from, to
    ensures (from[..], to[..]) == Moved(old(from[..]), old(to[..]), Image(temp[..], map'))
  {
    var i := temp.Length;
    while i > 0
      invariant 0 <= i <= temp.Length
      invariant forall k | 0 <= k < i :: from[map'[k]] == old(from[map'[k]]) && to[map'[k]] == old(to[map'[k]])
      invariant forall k | i <= k < temp.Length && temp[k].At? :: from[map'[k]] == Hole && to[map'[k]] == temp[k]
      invariant forall k | 0 <= k < from.Length ::
                  || (from[k] == old(from[k]) && to[k] == old(to[k]))
                  || exists q | i <= q < temp.Length :: map'[q] == k && temp[q].At?
    {
      i := i - 1;
      if temp[i].At? {
        to[map'[i]] := temp[i];
        from[map'[i]] := Hole;
      }
    }
    ghost var goal := Moved(old(from[..]), old(to[..]), Image(temp[..], map'));
    forall k | 0 <= k < from.Length ensures from[k] == goal.0[k] && to[k] == goal.1[k] {
      if k in Image(temp[..], map') {
        var q :| 0 <= q < |map'| && temp[q].At? && map'[q] == k;
      }
    }
    assert from[..] == goal.0 && to[..] == goal.1;
  }

  /** The primary match and the post-filter, in place. */
  method MatchCore(m: SetMatcher, from: array<Slot>, to: array<Slot>)
    requires m.Valid() && m.position.Some? && from != to && from.Length == to.Length
    modifies from, to
    ensures (from[..], to[..]) == Core(m, old(from[..]), old(to[..]))
    decreases m, 0
  {
    MatchPositions(m.position.value, from, to);
    if m.post.Some? {
      var temp, postMap := Condense(None, to);
      var matched := new Slot[temp.Length](_ => Hole);
      ghost var list := temp[..];
      assert matched[..] == Holes(|postMap|);
      MatchSet(m.post.value, temp, matched);
      LeavesSeedSlots(m.post.value, list);
      MoveThrough(temp, postMap, to, from);
    }
  }

  /** Whatever a set matcher leaves in its seed was there before. */
  lemma {:induction false} LeavesSeedSlots(m: SetMatcher, list: seq<Slot>)
    requires m.Valid()
    ensures var temp := Run(m, list, Holes(|list|)).0;
            forall i | 0 <= i < |list| && temp[i].At? :: temp[i] == list[i]
  {
    RunPicks(m, list, Holes(|list|));
  }

  /** The function that setMatcher returns, called with a seed. */
  method MatchSet(m: SetMatcher, seed: array<Slot>, results: array<Slot>)
    requires m.Valid() && seed != results && seed.Length == results.Length
    modifies seed, results
    ensures (seed[..], results[..]) == Run(m, old(seed[..]), old(results[..]))
    decreases m, 1
  {
    if m.pre.None? {
      MatchCore(m, seed, results);
    } else {
      var matcherIn, preMap := Condense(m.pre, seed);
      ghost var list := matcherIn[..];
      var matcherOut := matcherIn;
      if m.position.Some? {
        matcherOut := new Slot[matcherIn.Length](_ => Hole);
        assert matcherOut[..] == Holes(|preMap|);
        MatchCore(m, matcherIn, matcherOut);
      }
      CorePicks(m, list);
      assert Named(None, matcherOut[..]) == Named(None, Core(m, list, Holes(|preMap|)).1);
      MoveThrough(matcherOut, preMap, seed, results);
    }
  }

  // Reintegration in the compiled selector

  /** All the set matchers of a selector list, one after the other. */
  function RunAll(ms: seq<SetMatcher>, seed: seq<Slot>, results: seq<Slot>): (r: (seq<Slot>, seq<Slot>))
    requires (forall m | m in ms :: m.Valid()) && |seed| == |results|
    ensures |r.0| == |r.1| == |seed|
  {
    if ms == [] then (seed, results)
    else
      var (seed1, results1) := RunAll(ms[..|ms| - 1], seed, results);
      Run(ms[|ms| - 1], seed1, results1)
  }

  lemma {:induction false} RunAllConserves(ms: seq<SetMatcher>, seed: seq<Slot>, results: seq<Slot>)
    requires (forall m | m in ms :: m.Valid()) && Apart(seed, results)
    ensures Conserved(seed, results, RunAll(ms, seed, results))
  {
    if ms != [] {
      RunAllConserves(ms[..|ms| - 1], seed, results);
      var (seed1, results1) := RunAll(ms[..|ms| - 1], seed, results);
      RunConserves(ms[|ms| - 1], seed1, results1);
    }
  }

  /** What the set matchers select, each from what the ones before it have left. */
  function SuccessivePicks(ms: seq<SetMatcher>, seed: seq<Slot>): (r: set<nat>)
    requires forall m | m in ms :: m.Valid()
    ensures r <= Named(None, seed)
  {
    if ms == [] then {}
    else
      var before := SuccessivePicks(ms[..|ms| - 1], seed);
      before + Picks(ms[|ms| - 1], Moved(seed, Holes(|seed|), before).0)
  }

  /** Every group without a pre-filter but with a post-filter leaves, at its turn, the results of the groups
      before it alone. */
  ghost predicate AllLeaveEarlier(ms: seq<SetMatcher>, seed: seq<Slot>, results: seq<Slot>)
    requires (forall m | m in ms :: m.Valid()) && |seed| == |results|
  {
    ms == [] ||
    var before, m := RunAll(ms[..|ms| - 1], seed, results), ms[|ms| - 1];
    && AllLeaveEarlier(ms[..|ms| - 1], seed, results)
    && (m.pre.Some? || m.post.None? || LeavesEarlier(m, before.0, before.1))
  }

  lemma MovedAgain(seed: seq<Slot>, results: seq<Slot>, first: set<nat>, second: set<nat>)
    requires |seed| == |results| && second <= Named(None, Moved(seed, Holes(|seed|), first).0)
    ensures var (seed1, results1) := Moved(seed, results, first);
            && seed1 == Moved(seed, Holes(|seed|), first).0
            && Moved(seed1, results1, second) == Moved(seed, results, first + second)
  {
    var (seed1, results1) := Moved(seed, results, first);
    var twice, once := Moved(seed1, results1, second), Moved(seed, results, first + second);
    assert seed1 == Moved(seed, Holes(|seed|), first).0;
    assert twice.0 == once.0 && twice.1 == once.1;
  }

  /** Then the set matchers together move exactly the successive picks, each to its own index. */
  lemma {:induction false} RunAllPicks(ms: seq<SetMatcher>, seed: seq<Slot>, results: seq<Slot>)
    requires (forall m | m in ms :: m.Valid()) && Apart(seed, results) && AllLeaveEarlier(ms, seed, results)
    ensures RunAll(ms, seed, results) == Moved(seed, results, SuccessivePicks(ms, seed))
  {
    if ms == [] {
      var same := Moved(seed, results, {});
      assert same.0 == seed && same.1 == results;
    } else {
      var init, m := ms[..|ms| - 1], ms[|ms| - 1];
      RunAllPicks(init, seed, results);
      RunAllConserves(init, seed, results);
      var (seed1, results1) := RunAll(init, seed, results);
      if m.pre.Some? || m.post.None? {
        RunPicks(m, seed1, results1);
      } else {
        EarlierResults(m, seed1, results1);
      }
      MovedAgain(seed, results, SuccessivePicks(init, seed), Picks(m, seed1));
    }
  }

  /** The groups with a pre-filter and the groups without a post-filter need no condition. */
  lemma {:induction false} FilteredFirst(ms: seq<SetMatcher>, seed: seq<Slot>, results: seq<Slot>)
    requires (forall m | m in ms :: m.Valid() && (m.pre.Some? || m.post.None?)) && |seed| == |results|
    ensures AllLeaveEarlier(ms, seed, results)
  {
    if ms != [] {
      FilteredFirst(ms[..|ms| - 1], seed, results);
    }
  }

  /** The seed as the set matchers get it: without the elements that an element matcher accepted. */
  function Unmatched(seed: seq<nat>, byElement: set<nat>): (r: seq<Slot>)
    ensures |r| == |seed|
  {
    seq(|seed|, k requires 0 <= k < |seed| => if seed[k] in byElement then Hole else At(seed[k]))
  }

  /** The slots of the seed that some group accepts. */
  function AcceptedSlots(seed: seq<nat>, byElement: set<nat>, ms: seq<SetMatcher>): set<nat>
    requires forall m | m in ms :: m.Valid()
  {
    set k | 0 <= k < |seed| &&
      (seed[k] in byElement || RunAll(ms, Unmatched(seed, byElement), Holes(|seed|)).1[k].At?)
  }

  /** What the compiled selector accepts: what an element group accepts, and what the set groups pick of the rest. */
  lemma AcceptedByPicks(seed: seq<nat>, byElement: set<nat>, ms: seq<SetMatcher>)
    requires forall m | m in ms :: m.Valid()
    requires AllLeaveEarlier(ms, Unmatched(seed, byElement), Holes(|seed|))
    ensures AcceptedSlots(seed, byElement, ms) ==
            ByElement(seed, byElement) + SuccessivePicks(ms, Unmatched(seed, byElement))
  {
    RunAllPicks(ms, Unmatched(seed, byElement), Holes(|seed|));
  }

  /** The elements in the given slots, in seed order. */
  function InSeedOrder(seed: seq<nat>, slots: set<nat>): seq<nat> {
    if seed == [] then []
    else
      var k := |seed| - 1;
      InSeedOrder(seed[..k], slots) + if k in slots then [seed[k]] else []
  }

  lemma {:induction false} InSeedOrderSame(seed: seq<nat>, slots: set<nat>, slots': set<nat>)
    requires forall k | 0 <= k < |seed| :: k in slots <==> k in slots'
    ensures InSeedOrder(seed, slots) == InSeedOrder(seed, slots')
  {
    if seed != [] {
      InSeedOrderSame(seed[..|seed| - 1], slots, slots');
    }
  }

  function ByElement(seed: seq<nat>, byElement: set<nat>): set<nat> {
    set k | 0 <= k < |seed| && seed[k] in byElement
  }

  /** The compiled function of a selector list with positional groups, on a seed: every accepted slot gives
      its element once, in seed order, after the results that were there before. */
  method SuperMatch(seed: seq<nat>, byElement: set<nat>, setMatchers: seq<SetMatcher>, results: seq<nat>)
    returns (out: seq<nat>)
    requires forall m | m in setMatchers :: m.Valid()
    ensures out == results + InSeedOrder(seed, AcceptedSlots(seed, byElement, setMatchers))
  {
    var unmatched := new Slot[|seed|];
    var matchedCount := 0;
    out := results;
    var i := 0;
    while i < |seed|
      invariant 0 <= i <= |seed| && 0 <= matchedCount <= i
      invariant forall k | 0 <= k < i :: unmatched[k] == Unmatched(seed, byElement)[k]
      invariant out == results + InSeedOrder(seed[..i], ByElement(seed, byElement))
      invariant matchedCount == |out| - |results|
      invariant matchedCount == i ==> forall k | 0 <= k < i :: seed[k] in byElement
    {
      assert seed[..i + 1][..i] == seed[..i];
      if seed[i] in byElement {
        out := out + [seed[i]];
        unmatched[i] := Hole;
        matchedCount := matchedCount + 1;
      } else {
        unmatched[i] := At(seed[i]);
      }
      i := i + 1;
    }
    assert seed[..i] == seed && unmatched[..] == Unmatched(seed, byElement);
    if matchedCount != |seed| {
      var setMatched := new Slot[|seed|](_ => Hole);
      assert setMatched[..] == Holes(|seed|);
      RunSetMatchers(setMatchers, unmatched, setMatched);
      out := Reintegrate(seed, byElement, setMatchers, unmatched, setMatched, results, out);
    } else {
      InSeedOrderSame(seed, ByElement(seed, byElement), AcceptedSlots(seed, byElement, setMatchers));
    }
  }

  method RunSetMatchers(ms: seq<SetMatcher>, seed: array<Slot>, results: array<Slot>)
    requires (forall m | m in ms :: m.Valid()) && seed != results && seed.Length == results.Length
    modifies seed, results
    ensures (seed[..], results[..]) == RunAll(ms, old(seed[..]), old(results[..]))
  {
    var j := 0;
    while j < |ms|
      invariant 0 <= j <= |ms| && (seed[..], results[..]) == RunAll(ms[..j], old(seed[..]), old(results[..]))
    {
      assert ms[..j + 1][..j] == ms[..j];
      MatchSet(ms[j], seed, results);
      j := j + 1;
    }
    assert ms[..j] == ms;
  }

  /** Pops the element matches back into their slots, last one first, and appends all the matches in slot order. */
  method Reintegrate(seed: seq<nat>, byElement: set<nat>, ms: seq<SetMatcher>, unmatched: array<Slot>,
                     setMatched: array<Slot>, results: seq<nat>, pushed: seq<nat>) returns (out: seq<nat>)
    requires (forall m | m in ms :: m.Valid()) && unmatched != setMatched
    requires unmatched.Length == setMatched.Length == |seed|
    requires (unmatched[..], setMatched[..]) == RunAll(ms, Unmatched(seed, byElement), Holes(|seed|))
    requires pushed == results + InSeedOrder(seed, ByElement(seed, byElement))
    modifies setMatched
    ensures out == results + InSeedOrder(seed, AcceptedSlots(seed, byElement, ms))
  {
    RunAllConserves(ms, Unmatched(seed, byElement), Holes(|seed|));
    ghost var slots := AcceptedSlots(seed, byElement, ms);
    out := pushed;
    var i := |seed|;
    assert seed[..i] == seed;
    while i > 0
      invariant 0 <= i <= |seed|
      invariant out == results + InSeedOrder(seed[..i], ByElement(seed, byElement))
      invariant forall k | 0 <= k < i :: setMatched[k] == old(setMatched[k])
      invariant forall k | i <= k < |seed| :: setMatched[k] == if k in slots then At(seed[k]) else Hole
    {
      i := i - 1;
      assert seed[..i + 1][..i] == seed[..i];
      assert Either(unmatched[i], setMatched[i]) == Unmatched(seed, byElement)[i];
      if unmatched[i].Hole? && setMatched[i].Hole? {
        setMatched[i] := At(out[|out| - 1]);
        out := out[..|out| - 1];
      }
    }
    out := AppendMatches(seed, slots, setMatched, out);
  }

  /** Discards the empty slots and appends the others. */
  method AppendMatches(seed: seq<nat>, ghost slots: set<nat>, setMatched: array<Slot>, results: seq<nat>)
    returns (out: seq<nat>)
    requires setMatched.Length == |seed|
    requires forall k | 0 <= k < |seed| :: setMatched[k] == if k in slots then At(seed[k]) else Hole
    ensures out == results + InSeedOrder(seed, slots)
  {
    out := results;
    var k := 0;
    while k < |seed|
      invariant 0 <= k <= |seed| && out == results + InSeedOrder(seed[..k], slots)
    {
      assert seed[..k + 1][..k] == seed[..k];
      if setMatched[k].At? {
        out := out + [setMatched[k].node];
      }
      k := k + 1;
    }
    assert seed[..k] == seed;
  }
}
