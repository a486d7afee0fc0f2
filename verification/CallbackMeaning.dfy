/** What a callback list is meant to do, without indexes, lengths and restarts: a running pass is just the entries that
    it still has to call. The operations on the closure variables mean the operations here, over every run. */
module CallbackMeaning {
  import opened Helpers
  import opened Callbacks

  /** A pass under way: its value, and the entries that it has not called yet. */
  datatype Serving = Serving(data: Data, rest: seq<Entry>)

  /** `entries` is None for a disabled list, `waiting` for a list that cannot be fired again. */
  datatype Plan = Plan(options: Options, entries: Option<seq<Entry>>, pushed: nat, waiting: Option<seq<Data>>,
                       remembered: Option<Data>, fired: bool, serving: Option<Serving>, calls: seq<(Entry, Data)>)
  {
    function Waiting(): nat {
      if waiting.Some? then |waiting.value| else 0
    }
  }

  function Start(options: Options): Plan {
    Plan(options, Some([]), 0, if options.once then None else Some([]), None, false, None, [])
  }

  // The operations

  /** A pass that calls the entries of `rest` with `data`, up to its first callback. */
  function Serve(p: Plan, data: Data, rest: seq<Entry>): Plan
    decreases p.Waiting(), 2
  {
    Advance(p.(fired := true, remembered := if p.options.memory then Some(data) else None,
               serving := Some(Serving(data, rest))))
  }

  /** The next callback of the pass, or its end. */
  function Advance(p: Plan): Plan
    requires p.serving.Some?
    decreases p.Waiting(), 1
  {
    var Serving(data, rest) := p.serving.value;
    if rest == [] then Over(p)
    else p.(serving := Some(Serving(data, rest[1..])), calls := p.calls + [(rest[0], data)])
  }

  /** After a pass: the next value that waits, or what becomes of a list that cannot be fired again. */
  function Over(p: Plan): Plan
    decreases p.Waiting(), 0
  {
    var idle := p.(serving := None);
    if p.entries.None? then idle
    else if p.waiting.Some? then
      if p.waiting.value == [] then idle
      else Serve(idle.(waiting := Some(p.waiting.value[1..])), p.waiting.value[0], p.entries.value)
    else if p.remembered.Some? then idle.(entries := Some([]))
    else Disabled(idle)
  }

  function Disabled(p: Plan): Plan {
    p.(entries := None, waiting := None, remembered := None,
       serving := if p.serving.Some? then Some(Serving(p.serving.value.data, [])) else None)
  }

  function Locked(p: Plan): Plan {
    if p.remembered.None? then Disabled(p) else p.(waiting := None)
  }

  /** The functions of `fns` that are not known, each at its first place. */
  function Fresh(known: set<Fn>, fns: seq<Fn>): seq<Fn>
    decreases |fns|
  {
    if fns == [] then []
    else if fns[0] in known then Fresh(known, fns[1..])
    else [fns[0]] + Fresh(known + {fns[0]}, fns[1..])
  }

  function FnsOf(entries: seq<Entry>): set<Fn> {
    set e | e in entries :: e.fn
  }

  /** The entries that `add` makes. */
  function News(p: Plan, fns: seq<Fn>): seq<Entry>
    requires p.entries.Some?
  {
    Numbered(if p.options.unique then Fresh(FnsOf(p.entries.value), fns) else fns, p.pushed)
  }

  /** The new entries go to the end of the list, and to the end of a running pass. Without one they are called with
      the remembered value, if there is one. */
  function Added(p: Plan, fns: seq<Fn>): Plan {
    if p.entries.None? then p
    else
      var news := News(p, fns);
      var p1 := p.(entries := Some(p.entries.value + news), pushed := p.pushed + |news|);
      if p.serving.Some? then p1.(serving := Some(Serving(p.serving.value.data, p.serving.value.rest + news)))
      else if p.remembered.Some? then Serve(p1, p.remembered.value, news)
      else p1
  }

  /** The entries whose function is not in `fns`. */
  function Unlike(entries: seq<Entry>, fns: seq<Fn>): seq<Entry> {
    if entries == [] then []
    else (if entries[0].fn in fns then [] else [entries[0]]) + Unlike(entries[1..], fns)
  }

  /** The entries of the functions go, from the list and from a running pass. */
  function Removed(p: Plan, fns: seq<Fn>): Plan {
    if p.entries.None? then p
    else p.(entries := Some(Unlike(p.entries.value, fns)),
            serving := if p.serving.None? then None
                       else Some(Serving(p.serving.value.data, Unlike(p.serving.value.rest, fns))))
  }

  /** A value that is fired during a pass waits for its end. A list that can be fired once ignores all but the first. */
  function Requested(p: Plan, data: Data): Plan {
    if p.entries.None? || (p.fired && p.waiting.None?) then p
    else if p.serving.None? then Serve(p, data, p.entries.value)
    else p.(waiting := Some((if p.waiting.Some? then p.waiting.value else []) + [data]))
  }

  /** A callback that returns false ends the pass if the options say so, and its value is forgotten. */
  function Returned(p: Plan, returnedFalse: bool): Plan {
    if p.serving.None? then p
    else if returnedFalse && p.options.stopOnFalse then Over(p.(remembered := None))
    else Advance(p)
  }

  // Runs

  datatype Operation = Calls(a: Action) | Locks | Disables

  function Do(c: Cb, o: Operation): Cb {
    match o
    case Calls(a) => Step(c, a)
    case Locks => Lock(c)
    case Disables => Disable(c)
  }

  function Done(options: Options, run: seq<Operation>): Cb {
    if run == [] then New(options) else Do(Done(options, run[..|run| - 1]), run[|run| - 1])
  }

  function Meant(p: Plan, o: Operation): Plan {
    match o
    case Calls(Adds(fns)) => Added(p, fns)
    case Calls(Removes(fns)) => Removed(p, fns)
    case Calls(Fires(data)) => Requested(p, data)
    case Calls(Returns(returnedFalse)) => Returned(p, returnedFalse)
    case Locks => Locked(p)
    case Disables => Disabled(p)
  }

  function Planned(options: Options, run: seq<Operation>): Plan {
    if run == [] then Start(options) else Meant(Planned(options, run[..|run| - 1]), run[|run| - 1])
  }

  // The meaning of the closure variables

  /** When the entries from `index` on are still to be called. */
  function MeaningAt(c: Cb, index: int): Plan {
    var rest := if c.list.Some? && 0 <= index <= |c.list.value| then c.list.value[index..] else [];
    Plan(c.options, c.list, |c.book.added|, c.stack, c.memory, c.fired,
         if c.firing then Some(Serving(c.book.data, rest)) else None, c.book.calls)
  }

  /** Between two operations. */
  function Meaning(c: Cb): Plan {
    MeaningAt(c, c.firingIndex + 1)
  }

  predicate Tracks(c: Cb) {
    c.InBounds() && c.firingStart == 0 && (c.firing ==> c.fired && c.firingIndex >= -1)
  }

  /** At the head of the loop. */
  predicate AtHead(c: Cb) {
    && c.firing && c.fired && c.firingStart == 0 && c.firingIndex >= 0
    && (c.list.Some? ==> c.firingIndex <= c.firingLength == |c.list.value|)
  }

  lemma {:induction false} HeadMeans(c: Cb)
    requires AtHead(c)
    ensures Tracks(Head(c)) && Meaning(Head(c)) == Advance(MeaningAt(c, c.firingIndex))
    decreases c.StackSize(), 1
  {
    if c.list.Some? && c.firingIndex < c.firingLength {
      assert c.list.value[c.firingIndex..][1..] == c.list.value[c.firingIndex + 1..];
    } else {
      FinishMeans(c, c.firingIndex, false);
    }
  }

  lemma {:induction false} FinishMeans(c: Cb, index: int, stopped: bool)
    requires c.firing && c.fired && c.firingStart == 0
    ensures Tracks(Finish(c, stopped)) && Meaning(Finish(c, stopped)) == Over(MeaningAt(c, index))
    decreases c.StackSize(), 0
  {
    if c.list.Some? && c.stack.Some? && c.stack.value != [] {
      BeginMeans(Ended(c, stopped).(stack := Some(c.stack.value[1..])), c.stack.value[0], true);
    }
  }

  lemma {:induction false} BeginMeans(c: Cb, data: Data, full: bool)
    requires c.list.Some? && c.firingStart <= |c.list.value|
    ensures var r := Head(Begin(c, data, full));
            Tracks(r) && Meaning(r) == Serve(MeaningAt(c, 0).(serving := None), data, c.list.value[c.firingStart..])
    decreases c.StackSize(), 2
  {
    HeadMeans(Begin(c, data, full));
  }

  // Adding

  lemma HasFn(entries: seq<Entry>, fn: Fn)
    ensures Has(entries, fn) <==> fn in FnsOf(entries)
  {
    if fn in FnsOf(entries) {
      var e :| e in entries && e.fn == fn;
    }
  }

  lemma {:induction false} FreshMore(known: set<Fn>, fns: seq<Fn>, fn: Fn)
    ensures Fresh(known, fns + [fn]) == Fresh(known, fns) + if fn in known || fn in fns then [] else [fn]
    decreases |fns|
  {
    if fns == [] {
      assert [fn][1..] == [] && Fresh(known, [fn]) == if fn in known then [] else [fn];
    } else {
      assert (fns + [fn])[1..] == fns[1..] + [fn];
      FreshMore(if fns[0] in known then known else known + {fns[0]}, fns[1..], fn);
    }
  }

  /** The new functions are those that were not known, each once. */
  lemma {:induction false} FreshOnes(known: set<Fn>, fns: seq<Fn>)
    ensures forall fn :: fn in Fresh(known, fns) <==> fn in fns && fn !in known
    ensures forall i, j | 0 <= i < j < |Fresh(known, fns)| :: Fresh(known, fns)[i] != Fresh(known, fns)[j]
    decreases |fns|
  {
    if fns != [] {
      FreshOnes(if fns[0] in known then known else known + {fns[0]}, fns[1..]);
    }
  }

  /** The functions that `add` pushes. */
  function Pushed(c: Cb, fns: seq<Fn>): seq<Fn>
    requires c.list.Some?
  {
    if c.options.unique then Fresh(FnsOf(c.list.value), fns) else fns
  }

  lemma PushedMore(c: Cb, fns: seq<Fn>, fn: Fn)
    requires c.list.Some?
    ensures Pushed(c, fns + [fn]) ==
            if c.options.unique && Has(c.list.value + Numbered(Pushed(c, fns), |c.book.added|), fn) then Pushed(c, fns)
            else Pushed(c, fns) + [fn]
  {
    var known := FnsOf(c.list.value);
    FreshMore(known, fns, fn);
    FreshOnes(known, fns);
    HasNumbered(c.list.value, Pushed(c, fns), |c.book.added|, fn);
  }

  lemma NumberedMore(list: seq<Entry>, fns: seq<Fn>, fn: Fn, n: nat)
    ensures list + Numbered(fns, n) + [Entry(fn, n + |fns|)] == list + Numbered(fns + [fn], n)
  {
  }

  /** `c1` is the list `c` with `fns` pushed. */
  predicate HasPushed(c: Cb, c1: Cb, fns: seq<Fn>)
    requires c.list.Some?
  {
    && c1 == c.(list := c1.list, book := c.book.(added := c1.book.added))
    && c1.list == Some(c.list.value + Numbered(Pushed(c, fns), |c.book.added|))
    && |c1.book.added| == |c.book.added| + |Pushed(c, fns)|
  }

  lemma PushLast(c: Cb, c1: Cb, fns: seq<Fn>, fn: Fn)
    requires c.list.Some? && HasPushed(c, c1, fns)
    ensures HasPushed(c, if c.options.unique && Has(c1.list.value, fn) then c1
                         else c1.(list := Some(c1.list.value + [Entry(fn, |c1.book.added|)]),
                                  book := c1.book.(added := c1.book.added + [fn])), fns + [fn])
  {
    PushedMore(c, fns, fn);
    NumberedMore(c.list.value, Pushed(c, fns), fn, |c.book.added|);
  }

  lemma {:induction false} PushMeans(c: Cb, fns: seq<Fn>)
    requires c.list.Some?
    ensures HasPushed(c, Push(c, fns), fns)
  {
    if fns == [] {
      assert c.list.value + Numbered([], |c.book.added|) == c.list.value;
    } else {
      var init := fns[..|fns| - 1];
      PushMeans(c, init);
      PushLast(c, Push(c, init), init, fns[|fns| - 1]);
      assert init + [fns[|fns| - 1]] == fns;
    }
  }

  lemma HasNumbered(list: seq<Entry>, fns: seq<Fn>, n: nat, fn: Fn)
    ensures Has(list + Numbered(fns, n), fn) <==> fn in FnsOf(list) || fn in fns
  {
    HasFn(list, fn);
    var all := list + Numbered(fns, n);
    if Has(list, fn) {
      var i :| 0 <= i < |list| && list[i].fn == fn;
      assert all[i].fn == fn;
    }
    if fn in fns {
      var i :| 0 <= i < |fns| && fns[i] == fn;
      assert all[|list| + i].fn == fn;
    }
    if Has(all, fn) && !Has(list, fn) {
      var i :| 0 <= i < |all| && all[i].fn == fn;
      assert i >= |list| && fns[i - |list|] == fn;
    }
  }

  /** New entries of a running pass come last. */
  lemma AddFiringMeans(c: Cb, c1: Cb, news: seq<Entry>)
    requires Tracks(c) && c.list.Some? && c.firing
    requires c1 == c.(list := Some(c.list.value + news), book := c.book.(added := c1.book.added),
                      firingLength := |c.list.value + news|)
    ensures Tracks(c1)
    ensures var p := Meaning(c);
            Meaning(c1) == p.(entries := Some(p.entries.value + news), pushed := |c1.book.added|,
                              serving := Some(Serving(p.serving.value.data, p.serving.value.rest + news)))
  {
    assert c1.list.value[c.firingIndex + 1..] == c.list.value[c.firingIndex + 1..] + news;
  }

  lemma AddIdleMeans(c: Cb, start: nat, data: Data)
    requires c.list.Some? && start <= |c.list.value| && !c.firing && c.memory.Some?
    ensures var r := Head(Begin(c.(firingStart := start), data, false));
            Tracks(r) && Meaning(r) == Serve(Meaning(c), data, c.list.value[start..])
  {
    BeginMeans(c.(firingStart := start), data, false);
  }

  lemma AddMeans(c: Cb, fns: seq<Fn>)
    requires Tracks(c)
    ensures Tracks(Add(c, fns)) && Meaning(Add(c, fns)) == Added(Meaning(c), fns)
  {
    if c.list.Some? {
      var c1, news := Push(c, fns), News(Meaning(c), fns);
      PushMeans(c, fns);
      assert c1.list.value == c.list.value + news;
      if c.firing {
        AddFiringMeans(c, Add(c, fns), news);
      } else if c.memory.Some? {
        AddIdleMeans(c1, |c.list.value|, c.memory.value);
        assert c1.list.value[|c.list.value|..] == news;
      }
    }
  }

  // Removing

  /** The entries whose function is not `fn`. */
  function Other(entries: seq<Entry>, fn: Fn): seq<Entry> {
    if entries == [] then []
    else if entries[0].fn == fn then Other(entries[1..], fn)
    else [entries[0]] + Other(entries[1..], fn)
  }

  lemma {:induction false} OtherIsWithout(entries: seq<Entry>, fn: Fn)
    ensures Other(entries, fn) == Without(entries, fn)
  {
    if entries != [] {
      OtherIsWithout(entries[1..], fn);
      assert [] + Without(entries[1..], fn) == Without(entries[1..], fn);
    }
  }

  lemma {:induction false} UnlikeMore(entries: seq<Entry>, fns: seq<Fn>, fn: Fn)
    ensures Unlike(entries, fns + [fn]) == Other(Unlike(entries, fns), fn)
  {
    if entries != [] {
      UnlikeMore(entries[1..], fns, fn);
      var rest := Unlike(entries[1..], fns);
      if entries[0].fn in fns {
        assert [] + rest == rest;
      } else {
        assert ([entries[0]] + rest)[1..] == rest;
      }
    }
  }

  lemma {:induction false} UnlikeNothing(entries: seq<Entry>)
    ensures Unlike(entries, []) == entries
  {
    if entries != [] {
      UnlikeNothing(entries[1..]);
    }
  }

  /** What the loop of remove leaves of the entries from `next` on when it has come to `index`. */
  function RestKept(list: seq<Entry>, next: nat, fn: Fn, index: nat): seq<Entry>
    requires next <= |list| && index <= |list|
  {
    if index <= next then Other(list[next..], fn) else list[next..index] + Other(list[index..], fn)
  }

  lemma SpliceTracks(c: Cb, index: nat)
    requires Tracks(c) && c.list.Some? && c.firing && index < |c.list.value|
    ensures Tracks(Splice(c, index)) && Splice(c, index).firing
  {
  }

  lemma {:induction false} RemoveFromMeans(c: Cb, fn: Fn, index: nat)
    requires Tracks(c) && c.list.Some? && c.firing && index <= |c.list.value|
    ensures var r := RemoveFrom(c, fn, index);
            && Tracks(r) && r.firing
            && r.list.value[r.firingIndex + 1..] == RestKept(c.list.value, c.firingIndex + 1, fn, index)
    decreases |c.list.value| - index
  {
    var list, next := c.list.value, c.firingIndex + 1;
    if index == |list| {
      assert list[index..] == [] && list[next..index] + [] == list[next..];
    } else if list[index].fn == fn {
      SpliceTracks(c, index);
      RemoveFromMeans(Splice(c, index), fn, index);
      SplicedRest(list, next, fn, index);
    } else {
      RemoveFromMeans(c, fn, index + 1);
      SkippedRest(list, next, fn, index);
    }
  }

  lemma OtherFrom(list: seq<Entry>, fn: Fn, index: nat)
    requires index < |list|
    ensures Other(list[index..], fn) ==
            if list[index].fn == fn then Other(list[index + 1..], fn) else [list[index]] + Other(list[index + 1..], fn)
  {
    assert list[index..][1..] == list[index + 1..];
  }

  lemma SplicedRest(list: seq<Entry>, next: nat, fn: Fn, index: nat)
    requires next <= |list| && index < |list| && list[index].fn == fn
    ensures var list1 := list[..index] + list[index + 1..];
            RestKept(list1, if index < next then next - 1 else next, fn, index) == RestKept(list, next, fn, index)
  {
    var list1 := list[..index] + list[index + 1..];
    assert list1[index..] == list[index + 1..];
    if index < next {
      assert list1[next - 1..] == list[next..];
    } else {
      OtherFrom(list, fn, index);
      assert list1[next..index] == list[next..index];
    }
  }

  lemma SkippedRest(list: seq<Entry>, next: nat, fn: Fn, index: nat)
    requires next <= |list| && index < |list| && list[index].fn != fn
    ensures RestKept(list, next, fn, index + 1) == RestKept(list, next, fn, index)
  {
    if index >= next {
      OtherFrom(list, fn, index);
      assert list[next..index + 1] == list[next..index] + [list[index]];
      Regrouped(list[next..index], [list[index]], Other(list[index + 1..], fn));
    }
  }

  lemma Regrouped(a: seq<Entry>, b: seq<Entry>, c: seq<Entry>)
    ensures a + b + c == a + (b + c)
  {
  }

  /** Without the entries of one function. */
  function RemovedOne(p: Plan, fn: Fn): Plan
    requires p.entries.Some?
  {
    p.(entries := Some(Other(p.entries.value, fn)),
       serving := if p.serving.None? then None
                  else Some(Serving(p.serving.value.data, Other(p.serving.value.rest, fn))))
  }

  lemma RemovedNothing(p: Plan)
    ensures Removed(p, []) == p
  {
    if p.entries.Some? {
      UnlikeNothing(p.entries.value);
    }
    if p.serving.Some? {
      UnlikeNothing(p.serving.value.rest);
    }
  }

  lemma RemovedMore(p: Plan, fns: seq<Fn>, fn: Fn)
    requires p.entries.Some?
    ensures Removed(p, fns + [fn]) == RemovedOne(Removed(p, fns), fn)
  {
    UnlikeMore(p.entries.value, fns, fn);
    if p.serving.Some? {
      UnlikeMore(p.serving.value.rest, fns, fn);
    }
  }

  lemma {:induction false} RemoveMeans(c: Cb, fns: seq<Fn>)
    requires Tracks(c)
    ensures Tracks(Remove(c, fns)) && Meaning(Remove(c, fns)) == Removed(Meaning(c), fns)
  {
    if fns == [] {
      RemovedNothing(Meaning(c));
    } else if c.list.Some? {
      var init, fn := fns[..|fns| - 1], fns[|fns| - 1];
      RemoveMeans(c, init);
      RemoveOneMeans(Remove(c, init), fn);
      RemovedMore(Meaning(c), init, fn);
      assert init + [fn] == fns;
    }
  }

  lemma {:induction false} RemoveOneList(c: Cb, fn: Fn)
    requires c.list.Some?
    ensures var r := RemoveFrom(c, fn, 0);
            r == c.(list := Some(Other(c.list.value, fn)), firingIndex := r.firingIndex, firingLength := r.firingLength)
  {
    RemoveFromList(c, fn, 0);
    OtherIsWithout(c.list.value, fn);
    WholeKept(c.list.value, fn);
  }

  lemma WholeKept(list: seq<Entry>, fn: Fn)
    ensures Kept(list, fn, 0) == Without(list, fn)
  {
    assert list[..0] == [] && list[0..] == list;
    assert [] + Without(list, fn) == Without(list, fn);
  }

  lemma {:induction false} RemoveOneMeans(c: Cb, fn: Fn)
    requires Tracks(c) && c.list.Some?
    ensures var r := RemoveFrom(c, fn, 0); Tracks(r) && Meaning(r) == RemovedOne(Meaning(c), fn)
  {
    RemoveOneList(c, fn);
    if c.firing {
      RemoveFromMeans(c, fn, 0);
    }
  }

  // Every operation

  lemma FireMeans(c: Cb, data: Data)
    requires Tracks(c)
    ensures Tracks(FireWith(c, data)) && Meaning(FireWith(c, data)) == Requested(Meaning(c), data)
  {
    if c.list.Some? && !c.firing && (!c.fired || c.stack.Some?) {
      BeginMeans(c.(book := c.book.(requested := c.book.requested + [data])), data, true);
      assert c.list.value[0..] == c.list.value;
    }
  }

  lemma AdvanceMeans(c: Cb)
    requires Tracks(c) && c.firing
    ensures var c1 := c.(firingIndex := c.firingIndex + 1);
            Tracks(Head(c1)) && Meaning(Head(c1)) == Advance(Meaning(c))
  {
    var c1 := c.(firingIndex := c.firingIndex + 1);
    assert AtHead(c1) && MeaningAt(c1, c1.firingIndex) == Meaning(c);
    HeadMeans(c1);
  }

  lemma StopMeans(c: Cb)
    requires Tracks(c) && c.firing
    ensures var c1 := c.(memory := None);
            Tracks(Finish(c1, true)) && Meaning(Finish(c1, true)) == Over(Meaning(c).(remembered := None))
  {
    FinishMeans(c.(memory := None), c.firingIndex + 1, true);
  }

  lemma ReturnMeans(c: Cb, returnedFalse: bool)
    requires Tracks(c) && c.firing
    ensures Tracks(Return(c, returnedFalse)) && Meaning(Return(c, returnedFalse)) == Returned(Meaning(c), returnedFalse)
  {
    AdvanceMeans(c);
    StopMeans(c);
  }

  lemma {:induction false} DoMeans(c: Cb, o: Operation)
    requires Tracks(c)
    ensures Tracks(Do(c, o)) && Meaning(Do(c, o)) == Meant(Meaning(c), o)
  {
    match o
    case Calls(Adds(fns)) => AddMeans(c, fns);
    case Calls(Removes(fns)) => RemoveMeans(c, fns);
    case Calls(Fires(data)) => FireMeans(c, data);
    case Calls(Returns(returnedFalse)) => if c.firing { ReturnMeans(c, returnedFalse); }
    case Locks =>
    case Disables =>
  }

  /** Over every run, with any options and with locking and disabling, the callbacks that are called and the values
      that they get are those that are meant. */
  lemma {:induction false} RunMeans(options: Options, run: seq<Operation>)
    ensures Tracks(Done(options, run)) && Meaning(Done(options, run)) == Planned(options, run)
  {
    if run != [] {
      RunMeans(options, run[..|run| - 1]);
      DoMeans(Done(options, run[..|run| - 1]), run[|run| - 1]);
    }
  }

  function Plainly(run: seq<Action>): seq<Operation> {
    seq(|run|, i requires 0 <= i < |run| => Calls(run[i]))
  }

  lemma {:induction false} SameRun(options: Options, run: seq<Action>)
    ensures Done(options, Plainly(run)) == After(options, run)
  {
    if run != [] {
      SameRun(options, run[..|run| - 1]);
      assert Plainly(run)[..|run| - 1] == Plainly(run[..|run| - 1]);
    }
  }

  lemma {:induction false} ServeFirst(p: Plan, data: Data, rest: seq<Entry>)
    requires rest != []
    ensures Serve(p, data, rest).calls == p.calls + [(rest[0], data)]
    ensures Serve(p, data, rest).serving == Some(Serving(data, rest[1..]))
  {
    var p1 := p.(fired := true, remembered := if p.options.memory then Some(data) else None,
                 serving := Some(Serving(data, rest)));
    assert Serve(p, data, rest) == Advance(p1);
  }

  lemma NumberedFirst(fns: seq<Fn>, n: nat)
    requires fns != []
    ensures Numbered(fns, n)[0] == Entry(fns[0], n) && Numbered(fns, n)[1..] == Numbered(fns[1..], n + 1)
  {
  }

  /** An idle list with a remembered value serves what is added. */
  lemma AddedIdle(p: Plan, fns: seq<Fn>, v: Data)
    requires p.entries.Some? && p.serving.None? && p.remembered == Some(v) && !p.options.unique && fns != []
    ensures var r := Added(p, fns);
            && r.calls == p.calls + [(Entry(fns[0], p.pushed), v)]
            && r.serving == Some(Serving(v, Numbered(fns[1..], p.pushed + 1)))
  {
    var news := Numbered(fns, p.pushed);
    NumberedFirst(fns, p.pushed);
    ServeFirst(p.(entries := Some(p.entries.value + news), pushed := p.pushed + |news|), v, news);
  }

  /** Callbacks that are added when nothing is being fired, to a list that remembers a value, are called with it, and
      no others are. */
  lemma {:induction false} LateAdd(options: Options, run: seq<Operation>, fns: seq<Fn>, v: Data)
    requires var c := Done(options, run);
             c.list.Some? && !c.firing && c.memory == Some(v) && !c.options.unique && fns != []
    ensures var c, r := Done(options, run), Done(options, run + [Calls(Adds(fns))]);
            && r.book.calls == c.book.calls + [(Entry(fns[0], |c.book.added|), v)]
            && Meaning(r).serving == Some(Serving(v, Numbered(fns[1..], |c.book.added| + 1)))
  {
    var longer := run + [Calls(Adds(fns))];
    assert longer[..|longer| - 1] == run;
    RunMeans(options, run);
    AddMeans(Done(options, run), fns);
    AddedIdle(Meaning(Done(options, run)), fns, v);
  }
}
