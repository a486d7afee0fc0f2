/** jQuery.Deferred: three callback lists that settle each other, under any interleaving of resolve, reject,
    notify, done, fail and progress by callbacks that do not throw. */
module Deferred {
  import opened Helpers
  import opened Callbacks
  import CallbackMeaning

  datatype Which = Done | Fail | Progress

  datatype Status = Pending | Resolved | Rejected

  const ONCE_MEMORY := Options(true, true, false, false)
  const MEMORY := Options(false, true, false, false)

  /** The three functions that come first in the done and fail lists. */
  const SETTLE: seq<Fn> := [SetState, DisableOther, LockProgress]

  /** `calls` are the lists whose callbacks are being called, innermost last. */
  datatype Deferred = Deferred(done: Cb, fail: Cb, progress: Cb, state: Status, calls: seq<Which>) {
    function Get(w: Which): Cb {
      match w
      case Done => done
      case Fail => fail
      case Progress => progress
    }

    function Set(w: Which, c: Cb): Deferred {
      match w
      case Done => this.(done := c)
      case Fail => this.(fail := c)
      case Progress => this.(progress := c)
    }

    /** What one of the settling functions in list `w` does. */
    function Effect(w: Which, fn: Fn): Deferred {
      match fn
      case User(_) => this
      case SetState => this.(state := if w == Done then Resolved else Rejected)
      case DisableOther => var other := if w == Done then Fail else Done; Set(other, Disable(Get(other)))
      case LockProgress => this.(progress := Lock(progress))
    }
  }

  function Create(): Deferred {
    Deferred(Add(New(ONCE_MEMORY), SETTLE), Add(New(ONCE_MEMORY), SETTLE), New(MEMORY), Pending, [])
  }

  /** The callback that list `w` calls: a caller's function stays on the stack of calls, a settling function
      runs at once and returns. Settling functions are only in lists without a stack. */
  function Drive(d: Deferred, w: Which): Deferred
    decreases d.Get(w).firingLength - d.Get(w).firingIndex
  {
    var c := d.Get(w);
    if !c.firing || c.list.None? || !(0 <= c.firingIndex < |c.list.value|) || c.firingLength != |c.list.value| then d
    else
      var fn := c.list.value[c.firingIndex].fn;
      if fn.User? || c.stack.Some? || w == Progress then d.(calls := d.calls + [w])
      else
        var d' := d.Effect(w, fn).Set(w, Return(c, false));
        ReturnAdvances(c);
        assert d'.Get(w) == Return(c, false);
        Drive(d', w)
  }

  lemma ReturnAdvances(c: Cb)
    requires c.firing && c.InBounds() && c.firingIndex >= -1 && c.stack.None?
    ensures var r := Return(c, false); r.firingIndex == c.firingIndex + 1 && r.firingLength == c.firingLength
  {
    var c1 := c.(firingIndex := c.firingIndex + 1);
    assert Return(c, false) == Head(c1);
    if c.list.None? || c1.firingIndex >= c1.firingLength {
      assert Head(c1) == Finish(c1, false);
    }
  }

  datatype Action = AddTo(w: Which, ids: seq<nat>) | Fire(w: Which, data: Data) | CallbackReturns

  function Users(ids: seq<nat>): seq<Fn> {
    seq(|ids|, i requires 0 <= i < |ids| => User(ids[i]))
  }

  /** List `w` has become `c`; if that started a pass, its first callback is called. */
  function Put(d: Deferred, w: Which, c: Cb): Deferred {
    if !d.Get(w).firing && c.firing then Drive(d.Set(w, c), w) else d.Set(w, c)
  }

  /** done, fail and progress; resolve, reject and notify; and the return of the innermost callback. */
  function Step(d: Deferred, a: Action): Deferred {
    match a
    case AddTo(w, ids) => Put(d, w, Add(d.Get(w), Users(ids)))
    case Fire(w, data) => Put(d, w, FireWith(d.Get(w), data))
    case CallbackReturns =>
      if d.calls == [] then d
      else
        var w := d.calls[|d.calls| - 1];
        var d' := d.(calls := d.calls[..|d.calls| - 1]);
        var c := d.Get(w);
        if c.firing && c.InBounds() && c.firingIndex >= -1 then Drive(d'.Set(w, Return(c, false)), w) else d'
  }

  function After(run: seq<Action>): Deferred {
    if run == [] then Create() else Step(After(run[..|run| - 1]), run[|run| - 1])
  }

  // What a settled list is like

  /** The calls that are due for the functions in `added`, in the order of adding. */
  function CallsFor(added: seq<Fn>, v: Data): seq<(Entry, Data)> {
    seq(|added|, i requires 0 <= i < |added| => (Entry(added[i], i), v))
  }

  /** The first three functions of a done or fail list settle, all others are the caller's. */
  predicate Settling(added: seq<Fn>) {
    |added| >= 3 && added[..3] == SETTLE && forall i | 3 <= i < |added| :: added[i].User?
  }

  /** A done or fail list before its deferred settles: everything added is in the list, nothing was called. */
  predicate Open(c: Cb) {
    && c.options == ONCE_MEMORY && c.stack.None? && c.memory.None? && !c.fired && !c.firing && c.firingStart == 0
    && c.list == Some(Numbered(c.book.added, 0)) && Settling(c.book.added)
    && c.book.calls == [] && c.book.requested == [] && c.book.passes == []
  }

  /** How many of the functions ever added have been called. */
  function Called(c: Cb): int {
    |c.book.added| - if c.firing && c.list.Some? then |c.list.value| - 1 - c.firingIndex else 0
  }

  /** The list that won, fired with `v`: the functions called so far are the first ones that were added, each
      once, in order, with `v`; the others are in the list after the one being called. */
  predicate Won(c: Cb, v: Data) {
    && c.options == ONCE_MEMORY && c.stack.None? && c.memory == Some(v) && c.fired && c.firingStart == 0
    && c.list.Some? && Settling(c.book.added) && c.book.requested == [v]
    && |c.list.value| <= |c.book.added|
    && c.list.value == Numbered(c.book.added, 0)[|c.book.added| - |c.list.value|..]
    && (if c.firing then 0 <= c.firingIndex < c.firingLength == |c.list.value| && c.book.data == v
        else c.list.value == [])
    && c.book.calls == CallsFor(c.book.added, v)[..Called(c)]
  }

  /** The list that lost: no function in it was ever called. */
  predicate Lost(c: Cb) {
    c.list.None? && c.stack.None? && c.memory.None? && !c.firing && c.book.calls == []
  }

  lemma OpenAdd(c: Cb, fns: seq<Fn>)
    requires Open(c) && forall i | 0 <= i < |fns| :: fns[i].User?
    ensures Open(Add(c, fns)) && Add(c, fns).book.added == c.book.added + fns
  {
    PushAll(c, fns);
    assert Numbered(c.book.added + fns, 0) == Numbered(c.book.added, 0) + Numbered(fns, |c.book.added|);
  }

  lemma OpenFire(c: Cb, v: Data)
    requires Open(c)
    ensures var r := FireWith(c, v);
            Won(r, v) && r.firing && r.firingIndex == 0 && r.book.added == c.book.added && r.list == c.list
  {
    assert CallsFor(c.book.added, v)[..1] == [(Entry(c.book.added[0], 0), v)];
  }

  /** After a callback the next function that was added is called, or all of them have been. */
  lemma WonReturn(c: Cb, v: Data)
    requires Won(c, v) && c.firing
    ensures var r := Return(c, false);
            && Won(r, v) && r.book.added == c.book.added && r.firingIndex == c.firingIndex + 1
            && (r.firing <==> c.firingIndex + 1 < |c.list.value|) && (r.firing ==> r.list == c.list)
            && Called(r) == Called(c) + if r.firing then 1 else 0
  {
    if c.firingIndex + 1 < |c.list.value| {
      var k := Called(c);
      assert c.list.value[c.firingIndex + 1] == Entry(c.book.added[k], k);
      assert CallsFor(c.book.added, v)[..k + 1] == CallsFor(c.book.added, v)[..k] + [(Entry(c.book.added[k], k), v)];
    } else {
      var c1 := c.(firingIndex := c.firingIndex + 1);
      assert Head(c1) == Finish(c1, false);
    }
  }

  lemma OrderMore(added: seq<Fn>, fns: seq<Fn>, v: Data)
    ensures Numbered(added + fns, 0) == Numbered(added, 0) + Numbered(fns, |added|)
    ensures CallsFor(added + fns, v)[..|added|] == CallsFor(added, v)
    ensures fns != [] ==> CallsFor(added + fns, v)[..|added| + 1] == CallsFor(added, v) + [(Entry(fns[0], |added|), v)]
  {
  }

  /** A function added while the list is being fired is called in the same pass, after the others. */
  lemma WonAddFiring(c: Cb, v: Data, fns: seq<Fn>)
    requires Won(c, v) && c.firing && forall i | 0 <= i < |fns| :: fns[i].User?
    ensures var r := Add(c, fns);
            && Won(r, v) && r.book.added == c.book.added + fns
            && r.firing && r.firingIndex == c.firingIndex && c.list.value <= r.list.value && Called(r) == Called(c)
  {
    PushAll(c, fns);
    OrderMore(c.book.added, fns, v);
    var n, k := Called(c), |c.book.added| - |c.list.value|;
    assert CallsFor(c.book.added + fns, v)[..n] == CallsFor(c.book.added, v)[..n];
    assert (Numbered(c.book.added, 0) + Numbered(fns, |c.book.added|))[k..] ==
           Numbered(c.book.added, 0)[k..] + Numbered(fns, |c.book.added|);
  }

  /** A function added later is called at once. */
  lemma WonAddIdle(c: Cb, v: Data, fns: seq<Fn>)
    requires Won(c, v) && !c.firing && forall i | 0 <= i < |fns| :: fns[i].User?
    ensures var r := Add(c, fns);
            && Won(r, v) && r.book.added == c.book.added + fns
            && (r.firing <==> fns != []) && Called(r) == |c.book.added| + if r.firing then 1 else 0
  {
    PushAll(c, fns);
    OrderMore(c.book.added, fns, v);
    var c1 := Push(c, fns);
    assert c1.list.value == Numbered(fns, |c.book.added|);
    WonPass(Begin(c1.(firingStart := 0), v, false), v, c.book.added, fns);
  }

  /** The pass that serves the functions added to a winning list that is not being fired. */
  lemma WonPass(c: Cb, v: Data, added: seq<Fn>, fns: seq<Fn>)
    requires c.options == ONCE_MEMORY && c.stack.None? && c.memory == Some(v) && c.fired && c.firingStart == 0
    requires c.firing && c.firingIndex == 0 && c.firingLength == |fns| && c.list == Some(Numbered(fns, |added|))
    requires c.book.added == added + fns && Settling(added + fns) && c.book.requested == [v] && c.book.data == v
    requires c.book.calls == CallsFor(added, v)
    ensures var r := Head(c);
            && Won(r, v) && r.book.added == added + fns
            && (r.firing <==> fns != []) && Called(r) == |added| + if r.firing then 1 else 0
  {
    OrderMore(added, fns, v);
    if fns == [] {
      assert Head(c) == Finish(c, false);
      assert added + fns == added;
    } else {
      assert Head(c) == c.(book := Callbacks.Called(c.book, c.list.value[0]));
    }
  }

  // What a deferred is like

  /** A progress list that is locked: it keeps the last notified value, or nothing at all. */
  predicate Locked(c: Cb) {
    && c.options == MEMORY && c.stack.None? && c.InBounds() && c.firingIndex >= 0 && c.firingStart == 0
    && (c.list.Some? ==> c.memory.Some? && c.fired) && (c.firing ==> c.list.Some?)
  }

  predicate OpenProgress(c: Cb) {
    Stable(c) && Remembers(c)
  }

  /** A list with memory keeps a value once it has been fired. */
  predicate Remembers(c: Cb) {
    c.options == MEMORY && c.firingIndex >= 0 && (c.fired <==> c.memory.Some?)
  }

  function Other(w: Which): Which {
    if w == Done then Fail else Done
  }

  /** The list whose callbacks run in a settled deferred. */
  function Winner(s: Status): Which {
    if s == Resolved then Done else Fail
  }

  /** The stack of calls names each list that is being fired, once. */
  predicate CallsMatch(d: Deferred) {
    && (forall i, j | 0 <= i < j < |d.calls| :: d.calls[i] != d.calls[j])
    && (forall w: Which :: w in d.calls <==> d.Get(w).firing)
  }

  predicate Sound(d: Deferred) {
    && CallsMatch(d)
    && if d.state == Pending then Open(d.done) && Open(d.fail) && OpenProgress(d.progress)
       else
         && Settled(d, Winner(d.state)) && Locked(d.progress)
         && Lost(d.Get(Other(Winner(d.state))))
  }

  /** List `w` has won, and its settling functions have all run. */
  predicate Settled(d: Deferred, w: Which) {
    var c := d.Get(w);
    c.memory.Some? && Won(c, c.memory.value) && Called(c) >= 3 && (c.firing ==> Called(c) > 3)
  }

  lemma {:induction false} HeadRemembers(c: Cb)
    requires c.firing && c.list.Some? && c.stack.Some? && c.firingLength == |c.list.value| && c.fired && Remembers(c)
    ensures Remembers(Head(c))
    decreases c.StackSize()
  {
    if c.firingIndex >= c.firingLength {
      assert Head(c) == Finish(c, false);
      if c.stack.value != [] {
        HeadRemembers(Next(c, false));
      }
    }
  }

  lemma ProgressAdd(c: Cb, fns: seq<Fn>)
    requires OpenProgress(c)
    ensures OpenProgress(Add(c, fns)) && (c.firing ==> Add(c, fns).firing)
  {
    AddStable(c, fns);
    if !c.firing && c.memory.Some? {
      HeadRemembers(Begin(Push(c, fns).(firingStart := |c.list.value|), c.memory.value, false));
    }
  }

  lemma ProgressFire(c: Cb, data: Data)
    requires OpenProgress(c)
    ensures OpenProgress(FireWith(c, data)) && (c.firing ==> FireWith(c, data).firing)
  {
    FireWithStable(c, data);
    if !c.firing {
      HeadRemembers(Begin(c.(book := c.book.(requested := c.book.requested + [data])), data, true));
    }
  }

  lemma ProgressReturn(c: Cb)
    requires OpenProgress(c) && c.firing
    ensures OpenProgress(Return(c, false))
  {
    ReturnStable(c, false);
    HeadRemembers(c.(firingIndex := c.firingIndex + 1));
  }

  lemma LockedAdd(c: Cb, fns: seq<Fn>)
    requires Locked(c)
    ensures Locked(Add(c, fns)) && (c.firing ==> Add(c, fns).firing)
  {
    if c.list.Some? {
      var c1 := Push(c, fns);
      PushAll(c, fns);
      if !c.firing {
        LockedHead(Begin(c1.(firingStart := |c.list.value|), c.memory.value, false));
      }
    }
  }

  lemma LockedHead(c: Cb)
    requires c.firing && c.list.Some? && c.firingLength == |c.list.value| && 0 <= c.firingIndex <= c.firingLength
    requires c.options == MEMORY && c.stack.None? && c.firingStart == 0 && c.memory.Some? && c.fired
    ensures Locked(Head(c))
  {
    if c.firingIndex >= c.firingLength {
      assert Head(c) == Finish(c, false);
    }
  }

  lemma LockedReturn(c: Cb)
    requires Locked(c) && c.firing
    ensures Locked(Return(c, false))
  {
    LockedHead(c.(firingIndex := c.firingIndex + 1));
  }

  // The deferred as a whole

  /** A caller's function stays on the stack of calls. */
  lemma DriveUser(d: Deferred, w: Which)
    requires var c := d.Get(w);
             && c.firing && c.list.Some? && 0 <= c.firingIndex < |c.list.value| == c.firingLength
             && (w == Progress || c.list.value[c.firingIndex].fn.User?)
    ensures Drive(d, w) == d.(calls := d.calls + [w])
  {
  }

  /** The first three functions of the winning list run at once. */
  lemma DriveSettling(d: Deferred, w: Which, k: nat, v: Data)
    requires w != Progress && k < 3 && AtStart(d.Get(w), v, k)
    ensures Drive(d, w) == Drive(d.Effect(w, SETTLE[k]).Set(w, Return(d.Get(w), false)), w)
  {
    var c := d.Get(w);
    assert c.list.value[k] == Entry(c.book.added[k], k) && c.book.added[k] == c.book.added[..3][k] == SETTLE[k];
  }

  /** A winning list that is being fired calls a caller's function. */
  lemma WinnerDrives(d: Deferred, w: Which)
    requires w != Progress && Settled(d, w)
    ensures Drive(d, w) == if d.Get(w).firing then d.(calls := d.calls + [w]) else d
  {
    var c := d.Get(w);
    if c.firing {
      assert c.list.value[c.firingIndex] == Entry(c.book.added[Called(c) - 1], Called(c) - 1);
      DriveUser(d, w);
    }
  }

  /** The deferred when the settling functions of list `w` have run and the list has become `c`. */
  function AfterSettling(d: Deferred, w: Which, c: Cb): Deferred {
    d.Effect(w, SetState).Effect(w, DisableOther).Effect(w, LockProgress).Set(w, c)
  }

  /** A won list whose pass is at the `k`-th function that was ever added. */
  predicate AtStart(c: Cb, v: Data, k: nat) {
    Won(c, v) && c.firing && c.firingIndex == k && |c.list.value| == |c.book.added|
  }

  lemma NextSettling(c: Cb, v: Data, k: nat)
    requires AtStart(c, v, k) && k < 3
    ensures k < 2 ==> AtStart(Return(c, false), v, k + 1)
    ensures k == 2 ==> var r := Return(c, false); Won(r, v) && Called(r) >= 3 && (r.firing ==> Called(r) > 3)
  {
    WonReturn(c, v);
  }

  lemma SettlingRuns(d: Deferred, w: Which, v: Data) returns (c: Cb)
    requires Open(d.Get(w)) && w != Progress
    ensures Put(d, w, FireWith(d.Get(w), v)) == Drive(AfterSettling(d, w, c), w)
    ensures Won(c, v) && Called(c) >= 3 && (c.firing ==> Called(c) > 3)
  {
    OpenFire(d.Get(w), v);
    var c0 := FireWith(d.Get(w), v);
    var c1 := Return(c0, false);
    NextSettling(c0, v, 0);
    var c2 := Return(c1, false);
    NextSettling(c1, v, 1);
    c := Return(c2, false);
    NextSettling(c2, v, 2);
    DriveAll(d, w, v, c0, c1, c2);
  }

  lemma DriveAll(d: Deferred, w: Which, v: Data, c0: Cb, c1: Cb, c2: Cb)
    requires w != Progress && AtStart(c0, v, 0) && AtStart(c1, v, 1) && AtStart(c2, v, 2)
    requires c1 == Return(c0, false) && c2 == Return(c1, false)
    ensures Drive(d.Set(w, c0), w) == Drive(AfterSettling(d, w, Return(c2, false)), w)
  {
    var d1 := d.Effect(w, SetState).Set(w, c1);
    var d2 := d.Effect(w, SetState).Effect(w, DisableOther).Set(w, c2);
    DriveSettling(d.Set(w, c0), w, 0, v);
    assert d.Set(w, c0).Effect(w, SetState).Set(w, c1) == d1;
    DriveSettling(d1, w, 1, v);
    assert d1.Effect(w, DisableOther).Set(w, c2) == d2;
    DriveSettling(d2, w, 2, v);
    assert d2.Effect(w, LockProgress).Set(w, Return(c2, false)) == AfterSettling(d, w, Return(c2, false));
  }

  /** Resolving or rejecting: the state changes, the other list is disabled, the progress list is locked, and
      the caller's functions are called from the first one. */
  lemma SettleNow(d: Deferred, w: Which, v: Data)
    requires Sound(d) && d.state == Pending && w != Progress
    ensures var r := Put(d, w, FireWith(d.Get(w), v));
            Sound(r) && r.state == (if w == Done then Resolved else Rejected) && r.Get(w).memory == Some(v)
  {
    var c := SettlingRuns(d, w, v);
    var d' := AfterSettling(d, w, c);
    assert d'.Get(w) == c && d'.progress == Lock(d.progress) && d'.Get(Other(w)) == Disable(d.Get(Other(w)));
    WinnerDrives(d', w);
    CallsAfterSettling(d, w, c);
    SoundWhenSettled(Drive(d', w), w);
  }

  lemma CallsAfterSettling(d: Deferred, w: Which, c: Cb)
    requires CallsMatch(d) && Open(d.done) && Open(d.fail) && w != Progress && OpenProgress(d.progress)
    ensures var d' := AfterSettling(d, w, c);
            CallsMatch(if c.firing then d'.(calls := d.calls + [w]) else d')
  {
    var d' := AfterSettling(d, w, c);
    assert d'.progress.firing == d.progress.firing && d'.Get(w) == c && !d'.Get(Other(w)).firing;
    assert w !in d.calls && Other(w) !in d.calls;
    forall x: Which ensures d'.Get(x).firing <==> if x == w then c.firing else d.Get(x).firing {
    }
  }

  /** Replacing a list by one that is not newly being fired keeps the stack of calls right. */
  lemma CallsKept(d: Deferred, w: Which, c: Cb)
    requires CallsMatch(d) && c.firing == d.Get(w).firing
    ensures CallsMatch(d.Set(w, c))
  {
    forall x: Which ensures d.Set(w, c).Get(x).firing <==> d.Get(x).firing {
    }
  }

  lemma CallsPushed(d: Deferred, w: Which, c: Cb)
    requires CallsMatch(d) && c.firing && !d.Get(w).firing
    ensures CallsMatch(d.Set(w, c).(calls := d.calls + [w]))
  {
    var d' := d.Set(w, c).(calls := d.calls + [w]);
    forall x: Which ensures x in d'.calls <==> d'.Get(x).firing {
      assert d'.Get(x) == if x == w then c else d.Get(x);
    }
  }

  /** The innermost callback returns, and another one of the list is called or not. */
  lemma CallsReturned(d: Deferred, c: Cb)
    requires CallsMatch(d) && d.calls != []
    ensures var w, rest := d.calls[|d.calls| - 1], d.calls[..|d.calls| - 1];
            CallsMatch(d.Set(w, c).(calls := if c.firing then rest + [w] else rest))
  {
    var w, rest := d.calls[|d.calls| - 1], d.calls[..|d.calls| - 1];
    assert rest + [w] == d.calls && w !in rest;
    forall x: Which
      ensures d.Set(w, c).Get(x) == (if x == w then c else d.Get(x)) && (x in d.calls <==> x in rest || x == w)
    {
    }
  }

  lemma PutProgress(d: Deferred, c: Cb)
    requires CallsMatch(d) && (d.progress.firing ==> c.firing)
    requires c.firing ==> c.list.Some? && 0 <= c.firingIndex < |c.list.value| == c.firingLength
    ensures var r := Put(d, Progress, c); CallsMatch(r) && r == d.(progress := c, calls := r.calls)
  {
    if c.firing && !d.progress.firing {
      DriveUser(d.Set(Progress, c), Progress);
      CallsPushed(d, Progress, c);
    } else {
      CallsKept(d, Progress, c);
    }
  }

  lemma SoundWhenSettled(d: Deferred, w: Which)
    requires w != Progress && d.state == (if w == Done then Resolved else Rejected)
    requires CallsMatch(d) && Settled(d, w) && Locked(d.progress) && Lost(d.Get(Other(w)))
    ensures Sound(d)
  {
  }

  lemma AddSound(d: Deferred, w: Which, ids: seq<nat>)
    requires Sound(d)
    ensures Sound(Step(d, AddTo(w, ids))) && Step(d, AddTo(w, ids)).state == d.state
  {
    var fns := Users(ids);
    var c := Add(d.Get(w), fns);
    if w == Progress {
      if d.state == Pending {
        ProgressAdd(d.progress, fns);
      } else {
        LockedAdd(d.progress, fns);
      }
      PutProgress(d, c);
    } else if d.state == Pending {
      OpenAdd(d.Get(w), fns);
      CallsKept(d, w, c);
    } else if w == Winner(d.state) {
      WinnerAdds(d, w, fns);
    } else {
      assert c == d.Get(w);
      CallsKept(d, w, c);
    }
  }

  lemma WinnerAdds(d: Deferred, w: Which, fns: seq<Fn>)
    requires w != Progress && CallsMatch(d) && Settled(d, w) && forall i | 0 <= i < |fns| :: fns[i].User?
    ensures var r := Put(d, w, Add(d.Get(w), fns));
            Settled(r, w) && CallsMatch(r) && r == d.Set(w, r.Get(w)).(calls := r.calls)
  {
    var c, v := d.Get(w), d.Get(w).memory.value;
    var c' := Add(c, fns);
    if c.firing {
      WonAddFiring(c, v, fns);
      CallsKept(d, w, c');
    } else {
      WonAddIdle(c, v, fns);
      if c'.firing {
        WinnerDrives(d.Set(w, c'), w);
        CallsPushed(d, w, c');
      } else {
        CallsKept(d, w, c');
      }
    }
  }

  lemma FireSound(d: Deferred, w: Which, data: Data)
    requires Sound(d)
    ensures Sound(Step(d, Fire(w, data)))
    ensures d.state != Pending ==> Step(d, Fire(w, data)) == d
    ensures Step(d, Fire(Progress, data)).state == d.state
  {
    if d.state == Pending {
      ProgressFire(d.progress, data);
      PutProgress(d, FireWith(d.progress, data));
      if w != Progress {
        SettleNow(d, w, data);
      }
    } else {
      assert FireWith(d.Get(w), data) == d.Get(w);
      assert FireWith(d.progress, data) == d.progress;
    }
  }

  lemma ReturnSound(d: Deferred)
    requires Sound(d) && d.calls != []
    ensures Sound(Step(d, CallbackReturns)) && Step(d, CallbackReturns).state == d.state
  {
    var w := d.calls[|d.calls| - 1];
    assert w in d.calls;
    if w == Progress {
      ReturnFromProgress(d);
    } else {
      ReturnFromWinner(d, w);
    }
  }

  /** The list and the stack of calls after the innermost callback has returned, before the next one is called. */
  function Popped(d: Deferred, c: Cb): Deferred
    requires d.calls != []
  {
    d.Set(d.calls[|d.calls| - 1], c).(calls := d.calls[..|d.calls| - 1])
  }

  lemma StepReturns(d: Deferred, w: Which)
    requires d.calls != [] && d.calls[|d.calls| - 1] == w
    requires d.Get(w).firing && d.Get(w).InBounds() && d.Get(w).firingIndex >= -1
    ensures Step(d, CallbackReturns) == Drive(Popped(d, Return(d.Get(w), false)), w)
  {
  }

  lemma ReturnFromProgress(d: Deferred)
    requires Sound(d) && d.calls != [] && d.calls[|d.calls| - 1] == Progress && d.progress.firing
    ensures Sound(Step(d, CallbackReturns)) && Step(d, CallbackReturns).state == d.state
  {
    var c := Return(d.progress, false);
    if d.state == Pending {
      ProgressReturn(d.progress);
    } else {
      LockedReturn(d.progress);
    }
    StepReturns(d, Progress);
    CallsReturned(d, c);
    if c.firing {
      DriveUser(Popped(d, c), Progress);
    }
    var d' := Step(d, CallbackReturns);
    assert d'.done == d.done && d'.fail == d.fail && d'.progress == c && d'.state == d.state;
    assert CallsMatch(d');
  }

  /** What the winning list becomes when its callback returns. */
  lemma WinnerReturns(d: Deferred, w: Which)
    requires w != Progress && Settled(d, w) && d.Get(w).firing && d.calls != [] && d.calls[|d.calls| - 1] == w
    ensures var d' := Popped(d, Return(d.Get(w), false));
            Settled(d', w) && Drive(d', w) == if d'.Get(w).firing then d'.(calls := d.calls) else d'
  {
    WonReturn(d.Get(w), d.Get(w).memory.value);
    var d' := Popped(d, Return(d.Get(w), false));
    assert d'.Get(w) == Return(d.Get(w), false);
    WinnerDrives(d', w);
    assert d'.calls + [w] == d.calls;
  }

  lemma ReturnFromWinner(d: Deferred, w: Which)
    requires Sound(d) && d.calls != [] && d.calls[|d.calls| - 1] == w != Progress && d.Get(w).firing
    ensures Sound(Step(d, CallbackReturns)) && Step(d, CallbackReturns).state == d.state
  {
    StepReturns(d, w);
    WinnerReturns(d, w);
    CallsReturned(d, Return(d.Get(w), false));
    SoundWhenSettled(Step(d, CallbackReturns), w);
  }

  lemma {:induction false} RunSound(run: seq<Action>)
    ensures Sound(After(run))
  {
    if run != [] {
      var d := After(run[..|run| - 1]);
      RunSound(run[..|run| - 1]);
      match run[|run| - 1]
      case AddTo(w, ids) => AddSound(d, w, ids);
      case Fire(w, data) => FireSound(d, w, data);
      case CallbackReturns => if d.calls != [] { ReturnSound(d); }
    } else {
      CreateSound();
    }
  }

  lemma NewIsOpen()
    ensures Open(Add(New(ONCE_MEMORY), SETTLE))
  {
    var c := New(ONCE_MEMORY);
    PushAll(c, SETTLE);
    assert SETTLE[..3] == SETTLE;
    assert Add(c, SETTLE).list.value == Numbered(SETTLE, 0) && Add(c, SETTLE).book.added == SETTLE;
  }

  lemma NewIsRepeatable()
    ensures OpenProgress(New(MEMORY))
  {
    var p := New(MEMORY);
    assert p.book.calls == AllCalls([]) + [] && p.book.requested == Fired([]) + [] + [];
    assert Base(p);
  }

  lemma CreateSound()
    ensures Sound(Create())
  {
    NewIsOpen();
    NewIsRepeatable();
  }

  // Main results, over every run

  /** Callbacks of the list that lost are never called, and none is called while the deferred is pending. Those of
      the list that won are called in the order in which they were added, before, during or after settling, each
      once, with the value of the one call that settled it; all of them have been when none is being called. */
  lemma CallsInOrder(run: seq<Action>)
    ensures var d := After(run);
            if d.state == Pending then d.done.book.calls == [] && d.fail.book.calls == []
            else
              var w := Winner(d.state);
              var c := d.Get(w);
              && d.Get(Other(w)).book.calls == []
              && |c.book.requested| == 1
              && c.book.calls <= CallsFor(c.book.added, c.book.requested[0])
              && (!c.firing ==> c.book.calls == CallsFor(c.book.added, c.book.requested[0]))
  {
    RunSound(run);
  }

  /** Adding callbacks records them, after those added before, unless the list has lost. */
  lemma AddsRecorded(run: seq<Action>, w: Which, ids: seq<nat>)
    requires w != Progress
    ensures var d := After(run);
            Step(d, AddTo(w, ids)).Get(w).book.added ==
              if d.state != Pending && w != Winner(d.state) then d.Get(w).book.added
              else d.Get(w).book.added + Users(ids)
  {
    RunSound(run);
    var d := After(run);
    var c := d.Get(w);
    if d.state == Pending {
      OpenAdd(c, Users(ids));
    } else if w == Winner(d.state) {
      if c.firing {
        WonAddFiring(c, c.memory.value, Users(ids));
      } else {
        WonAddIdle(c, c.memory.value, Users(ids));
        var c' := Add(c, Users(ids));
        if c'.firing {
          WinnerDrives(d.Set(w, c'), w);
        }
      }
    }
  }

  /** The first resolve or reject decides the state and the value; after that no resolve, reject or notify
      changes anything, and nothing changes the state. */
  lemma SettlesOnce(run: seq<Action>, a: Action)
    ensures var d, d' := After(run), Step(After(run), a);
            && (d.state != Pending ==> d'.state == d.state && (a.Fire? ==> d' == d))
            && (d.state == Pending && a.Fire? && a.w != Progress ==>
                  d'.state == (if a.w == Done then Resolved else Rejected) && d'.Get(a.w).book.requested == [a.data])
            && (d.state == Pending && (a.Fire? ==> a.w == Progress) ==> d'.state == Pending)
  {
    RunSound(run);
    var d := After(run);
    match a
    case AddTo(w, ids) => AddSound(d, w, ids);
    case Fire(w, data) =>
      FireSound(d, w, data);
      if d.state == Pending && w != Progress {
        SettleNow(d, w, data);
      }
    case CallbackReturns => if d.calls != [] { ReturnSound(d); }
  }

  /** Until the deferred settles, its progress list is a repeatable list. */
  lemma ProgressIsRepeatable(run: seq<Action>)
    ensures After(run).state == Pending ==> Stable(After(run).progress)
  {
    RunSound(run);
  }

  // What notify and progress do

  /** What an action of a pending deferred does to its progress list. */
  function Doing(a: Action): seq<Callbacks.Action> {
    match a
    case AddTo(w, ids) => if w == Progress then [Adds(Users(ids))] else []
    case Fire(w, data) => if w == Progress then [Fires(data)] else []
    case CallbackReturns => [Returns(false)]
  }

  function DoingAll(run: seq<Action>): seq<Callbacks.Action> {
    if run == [] then [] else DoingAll(run[..|run| - 1]) + Doing(run[|run| - 1])
  }

  /** The values that the run notifies, and the functions that it adds with progress, in order. */
  function NotifiedIn(run: seq<Action>): seq<Data> {
    if run == [] then []
    else
      var a := run[|run| - 1];
      NotifiedIn(run[..|run| - 1]) + if a.Fire? && a.w == Progress then [a.data] else []
  }

  function ProgressIn(run: seq<Action>): seq<Fn> {
    if run == [] then []
    else
      var a := run[|run| - 1];
      ProgressIn(run[..|run| - 1]) + if a.AddTo? && a.w == Progress then Users(a.ids) else []
  }

  /** The list after one more operation, or after none. */
  function StepAll(c: Cb, does: seq<Callbacks.Action>): Cb
    requires |does| <= 1
  {
    if does == [] then c else Callbacks.Step(c, does[0])
  }

  lemma PendingReturn(d: Deferred)
    requires Sound(d) && d.state == Pending
    ensures Step(d, CallbackReturns).progress == Callbacks.Step(d.progress, Returns(false))
  {
    if d.calls != [] {
      assert d.calls[|d.calls| - 1] in d.calls && d.calls[|d.calls| - 1] == Progress;
      StepReturns(d, Progress);
      ProgressReturn(d.progress);
      var c := Return(d.progress, false);
      if c.firing {
        DriveUser(Popped(d, c), Progress);
      }
    } else {
      assert Progress !in d.calls && !d.Get(Progress).firing;
    }
  }

  lemma PendingStep(d: Deferred, a: Action)
    requires Sound(d) && d.state == Pending && Step(d, a).state == Pending
    ensures Step(d, a).progress == StepAll(d.progress, Doing(a))
  {
    match a
    case AddTo(w, ids) =>
      if w == Progress {
        ProgressAdd(d.progress, Users(ids));
        PutProgress(d, Add(d.progress, Users(ids)));
      } else {
        OpenAdd(d.Get(w), Users(ids));
      }
    case Fire(w, data) =>
      if w == Progress {
        ProgressFire(d.progress, data);
        PutProgress(d, FireWith(d.progress, data));
      } else {
        SettleNow(d, w, data);
      }
    case CallbackReturns => PendingReturn(d);
  }

  lemma StateStays(run: seq<Action>)
    requires run != [] && After(run).state == Pending
    ensures After(run[..|run| - 1]).state == Pending
  {
    SettlesOnce(run[..|run| - 1], run[|run| - 1]);
  }

  lemma AfterAll(does: seq<Callbacks.Action>, more: seq<Callbacks.Action>)
    requires |more| <= 1
    ensures Callbacks.After(MEMORY, does + more) == StepAll(Callbacks.After(MEMORY, does), more)
  {
    if more == [] {
      assert does + more == does;
    } else {
      assert (does + more)[..|does|] == does && (does + more)[|does|] == more[0];
    }
  }

  /** Until the deferred settles, its progress list is a repeatable list on which exactly the notify and progress calls
      of the run were made. */
  lemma {:induction false} ProgressIsList(run: seq<Action>)
    requires After(run).state == Pending
    ensures After(run).progress == Callbacks.After(MEMORY, DoingAll(run))
  {
    if run != [] {
      var init := run[..|run| - 1];
      StateStays(run);
      RunSound(init);
      ProgressIsList(init);
      PendingStep(After(init), run[|run| - 1]);
      AfterAll(DoingAll(init), Doing(run[|run| - 1]));
    }
  }

  lemma {:induction false} DoingRequests(run: seq<Action>)
    ensures FiresOf(DoingAll(run)) == NotifiedIn(run) && AddsOf(DoingAll(run)) == ProgressIn(run)
    ensures forall a | a in DoingAll(run) :: !a.Removes?
  {
    if run != [] {
      DoingRequests(run[..|run| - 1]);
      DoingMore(DoingAll(run[..|run| - 1]), Doing(run[|run| - 1]));
    }
  }

  lemma DoingMore(does: seq<Callbacks.Action>, more: seq<Callbacks.Action>)
    requires |more| <= 1
    ensures FiresOf(does + more) == FiresOf(does) + if more != [] && more[0].Fires? then [more[0].data] else []
    ensures AddsOf(does + more) == AddsOf(does) + if more != [] && more[0].Adds? then more[0].fns else []
  {
    if more == [] {
      assert does + more == does;
    } else {
      assert (does + more)[..|does|] == does;
    }
  }

  /** Until the deferred settles, every value that the run notifies is requested, in order, and every function that it
      adds with progress is in the list, in order. */
  lemma NotifiesRecorded(run: seq<Action>)
    requires After(run).state == Pending
    ensures var c := After(run).progress;
            && c.book.requested == NotifiedIn(run)
            && c.book.added == ProgressIn(run) && c.list == Some(Numbered(ProgressIn(run), 0))
  {
    ProgressIsList(run);
    DoingRequests(run);
    RunRequests(MEMORY, DoingAll(run));
    RunAdds(MEMORY, DoingAll(run));
  }

  /** Which callbacks are called with which values, and which ones are still to be called. */
  lemma NotifiesMean(run: seq<Action>)
    requires After(run).state == Pending
    ensures CallbackMeaning.Meaning(After(run).progress) ==
            CallbackMeaning.Planned(MEMORY, CallbackMeaning.Plainly(DoingAll(run)))
  {
    ProgressIsList(run);
    CallbackMeaning.SameRun(MEMORY, DoingAll(run));
    CallbackMeaning.RunMeans(MEMORY, CallbackMeaning.Plainly(DoingAll(run)));
  }

  /** A value that is notified while no progress callback runs goes to all of them, in the order of adding. */
  lemma {:induction false} NotifyCalls(run: seq<Action>, v: Data)
    requires After(run).state == Pending && !After(run).progress.firing && ProgressIn(run) != []
    ensures var c, r := After(run).progress, Step(After(run), Fire(Progress, v)).progress;
            var all := Numbered(ProgressIn(run), 0);
            && r.book.calls == c.book.calls + [(all[0], v)]
            && CallbackMeaning.Meaning(r).serving == Some(CallbackMeaning.Serving(v, all[1..]))
  {
    var d := After(run);
    RunSound(run);
    PendingStep(d, Fire(Progress, v));
    NotifiesRecorded(run);
    CallbackMeaning.FireMeans(d.progress, v);
    CallbackMeaning.ServeFirst(CallbackMeaning.Meaning(d.progress), v, d.progress.list.value);
  }

  // The progress list of a deferred that settles

  /** What an action does to the progress list of any deferred: settling locks it, and only the innermost callback
      returns. */
  function DoesTo(d: Deferred, a: Action): seq<CallbackMeaning.Operation> {
    match a
    case AddTo(w, ids) => if w == Progress then [CallbackMeaning.Calls(Adds(Users(ids)))] else []
    case Fire(w, data) =>
      if w == Progress then [CallbackMeaning.Calls(Fires(data))]
      else if d.state == Pending then [CallbackMeaning.Locks]
      else []
    case CallbackReturns =>
      if d.calls != [] && d.calls[|d.calls| - 1] == Progress then [CallbackMeaning.Calls(Returns(false))] else []
  }

  function DoesThroughout(run: seq<Action>): seq<CallbackMeaning.Operation> {
    if run == [] then []
    else DoesThroughout(run[..|run| - 1]) + DoesTo(After(run[..|run| - 1]), run[|run| - 1])
  }

  function DoAll(c: Cb, does: seq<CallbackMeaning.Operation>): Cb
    requires |does| <= 1
  {
    if does == [] then c else CallbackMeaning.Do(c, does[0])
  }

  lemma SettlingLocks(d: Deferred, w: Which, v: Data)
    requires Sound(d) && d.state == Pending && w != Progress
    ensures Step(d, Fire(w, v)).progress == Lock(d.progress)
  {
    var c := SettlingRuns(d, w, v);
    var d' := AfterSettling(d, w, c);
    assert d'.Get(w) == c && d'.progress == Lock(d.progress);
    WinnerDrives(d', w);
  }

  lemma SettledReturn(d: Deferred)
    requires Sound(d) && d.state != Pending && d.calls != []
    ensures Step(d, CallbackReturns).progress == DoAll(d.progress, DoesTo(d, CallbackReturns))
  {
    var w := d.calls[|d.calls| - 1];
    assert w in d.calls && d.Get(w).firing;
    StepReturns(d, w);
    if w == Progress {
      var c := Return(d.progress, false);
      LockedReturn(d.progress);
      if c.firing {
        DriveUser(Popped(d, c), Progress);
      }
    } else {
      WinnerReturns(d, w);
    }
  }

  lemma SettledStep(d: Deferred, a: Action)
    requires Sound(d) && d.state != Pending
    ensures Step(d, a).progress == DoAll(d.progress, DoesTo(d, a))
  {
    match a
    case AddTo(w, ids) =>
      if w == Progress {
        LockedAdd(d.progress, Users(ids));
        PutProgress(d, Add(d.progress, Users(ids)));
      } else if w == Winner(d.state) {
        WinnerAdds(d, w, Users(ids));
      }
    case Fire(w, data) => FireSound(d, w, data);
    case CallbackReturns => if d.calls != [] { SettledReturn(d); }
  }

  lemma AnyStep(d: Deferred, a: Action)
    requires Sound(d)
    ensures Step(d, a).progress == DoAll(d.progress, DoesTo(d, a))
  {
    if d.state != Pending {
      SettledStep(d, a);
    } else if a.Fire? && a.w != Progress {
      SettlingLocks(d, a.w, a.data);
    } else if a.CallbackReturns? {
      PendingReturn(d);
      if d.calls != [] {
        assert d.calls[|d.calls| - 1] in d.calls;
      }
    } else {
      PendingPut(d, a);
    }
  }

  lemma PendingPut(d: Deferred, a: Action)
    requires Sound(d) && d.state == Pending && (a.AddTo? || (a.Fire? && a.w == Progress))
    ensures Step(d, a).progress == DoAll(d.progress, DoesTo(d, a))
  {
    if a.AddTo? {
      AddSound(d, a.w, a.ids);
    } else {
      FireSound(d, a.w, a.data);
    }
    PendingStep(d, a);
  }

  /** Over every run the progress list means what those operations mean: settling locks it, so that it keeps the value
      of the last pass and gives it to callbacks that are added later, and drops what waits. */
  lemma {:induction false} ProgressMeans(run: seq<Action>)
    ensures After(run).progress == CallbackMeaning.Done(MEMORY, DoesThroughout(run))
    ensures CallbackMeaning.Meaning(After(run).progress) == CallbackMeaning.Planned(MEMORY, DoesThroughout(run))
  {
    if run != [] {
      var init := run[..|run| - 1];
      ProgressMeans(init);
      RunSound(init);
      AnyStep(After(init), run[|run| - 1]);
      DoneMore(DoesThroughout(init), DoesTo(After(init), run[|run| - 1]));
    }
    CallbackMeaning.RunMeans(MEMORY, DoesThroughout(run));
  }

  lemma DoneMore(does: seq<CallbackMeaning.Operation>, more: seq<CallbackMeaning.Operation>)
    requires |more| <= 1
    ensures CallbackMeaning.Done(MEMORY, does + more) == DoAll(CallbackMeaning.Done(MEMORY, does), more)
  {
    if more == [] {
      assert does + more == does;
    } else {
      assert (does + more)[..|does|] == does && (does + more)[|does|] == more[0];
    }
  }
}
