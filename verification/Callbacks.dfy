/** jQuery.Callbacks: a list whose callbacks may add, remove and fire while it is being fired.
    `fire` is cut where it calls a callback: an operation runs until a callback is called or it returns, and
    `Return` goes on after the callback. Between the two anything may be called, so every re-entrant
    behaviour of callbacks that do not throw is a sequence of these operations. */
module Callbacks {
  import opened Helpers

  datatype Options = Options(once: bool, memory: bool, unique: bool, stopOnFalse: bool)

  /** A callback: a caller's function, or one of the three that a Deferred puts into its lists. */
  datatype Fn = User(id: nat) | SetState | DisableOther | LockProgress

  /** One occurrence of a callback in the list; occurrences are numbered as they are pushed. */
  datatype Entry = Entry(fn: Fn, tag: nat)

  type Data = int

  /** A finished pass: what was fired, whether from the start of the list, the first number it had to serve,
      the occurrences it called, the list it left, and whether a callback stopped it. */
  datatype Pass = Pass(data: Data, full: bool, from: nat, ran: seq<Entry>, left: seq<Entry>, stopped: bool)

  /** An observer's notes; no branch of the code depends on them. `added` lists every function ever pushed:
      the number of an occurrence is its index there. */
  datatype Book = Book(added: seq<Fn>, requested: seq<Data>, passes: seq<Pass>, calls: seq<(Entry, Data)>,
                       data: Data, full: bool, from: nat, ran: seq<Entry>)

  /** The closure variables; None stands for undefined or false. */
  datatype Cb = Cb(options: Options, list: Option<seq<Entry>>, stack: Option<seq<Data>>, memory: Option<Data>,
                   fired: bool, firing: bool, firingIndex: int, firingLength: int, firingStart: nat, book: Book)
  {
    /** While a pass is on, its end is the end of the list and the index is inside. */
    predicate InBounds() {
      firing && list.Some? ==> firingLength == |list.value| && -1 <= firingIndex < firingLength
    }

    function StackSize(): nat {
      if stack.Some? then |stack.value| else 0
    }
  }

  function New(options: Options): Cb {
    Cb(options, Some([]), if options.once then None else Some([]), None, false, false, 0, 0, 0,
       Book([], [], [], [], 0, false, 0, []))
  }

  // The operations

  function Disable(c: Cb): Cb {
    c.(list := None, stack := None, memory := None)
  }

  function Lock(c: Cb): Cb {
    if c.memory.None? then Disable(c) else c.(stack := None)
  }

  /** The beginning of `fire`. */
  function Begin(c: Cb, data: Data, full: bool): Cb
    requires c.list.Some?
  {
    var start := c.firingStart;
    var from := if start < |c.list.value| && start > 0 then c.list.value[start].tag
                else if start > 0 then |c.book.added| else 0;
    c.(memory := if c.options.memory then Some(data) else None, fired := true,
       firingIndex := start, firingStart := 0, firingLength := |c.list.value|, firing := true,
       book := c.book.(data := data, full := full, from := from, ran := []))
  }

  function Called(b: Book, e: Entry): Book {
    b.(ran := b.ran + [e], calls := b.calls + [(e, b.data)])
  }

  /** The head of the loop of `fire`: the next callback is called, or the pass ends. */
  function Head(c: Cb): Cb
    requires c.firing && c.firingIndex >= 0 && (c.list.Some? ==> c.firingLength == |c.list.value|)
    decreases c.StackSize(), 1
  {
    if c.list.Some? && c.firingIndex < c.firingLength then
      c.(book := Called(c.book, c.list.value[c.firingIndex]))
    else Finish(c, false)
  }

  /** The state after the loop, with the pass in the book. */
  function Ended(c: Cb, stopped: bool): Cb {
    var left := if c.list.Some? then c.list.value else [];
    var pass := Pass(c.book.data, c.book.full, c.book.from, c.book.ran, left, stopped);
    c.(firing := false, book := c.book.(passes := c.book.passes + [pass], ran := []))
  }

  /** What follows the loop: a stacked fire, or what becomes of a list that cannot fire again. */
  function Finish(c: Cb, stopped: bool): Cb
    requires c.firing
    decreases c.StackSize(), 0
  {
    var c1 := Ended(c, stopped);
    if c.list.None? then c1
    else if c.stack.Some? then
      if c.stack.value == [] then c1
      else Head(Begin(c1.(stack := Some(c.stack.value[1..])), c.stack.value[0], true))
    else if c.memory.Some? then c1.(list := Some([]))
    else Disable(c1)
  }

  function Has(list: seq<Entry>, fn: Fn): bool {
    exists i | 0 <= i < |list| :: list[i].fn == fn
  }

  /** Pushes the functions of an `add` call in order. */
  function Push(c: Cb, fns: seq<Fn>): (r: Cb)
    requires c.list.Some?
    ensures r.list.Some? && r == c.(list := r.list, book := r.book)
  {
    if fns == [] then c
    else
      var c1 := Push(c, fns[..|fns| - 1]);
      var fn := fns[|fns| - 1];
      if c.options.unique && Has(c1.list.value, fn) then c1
      else c1.(list := Some(c1.list.value + [Entry(fn, |c1.book.added|)]),
               book := c1.book.(added := c1.book.added + [fn]))
  }

  function Add(c: Cb, fns: seq<Fn>): Cb {
    if c.list.None? then c
    else
      var c1 := Push(c, fns);
      if c.firing then c1.(firingLength := |c1.list.value|)
      else if c.memory.Some? then Head(Begin(c1.(firingStart := |c.list.value|), c.memory.value, false))
      else c1
  }

  /** Splices out the entry at `index` and moves the loop variables of a running pass. */
  function Splice(c: Cb, index: nat): Cb
    requires c.list.Some? && index < |c.list.value|
  {
    c.(list := Some(c.list.value[..index] + c.list.value[index + 1..]),
       firingLength := if c.firing && index <= c.firingLength then c.firingLength - 1 else c.firingLength,
       firingIndex := if c.firing && index <= c.firingIndex then c.firingIndex - 1 else c.firingIndex)
  }

  /** Removes every occurrence of `fn` from `index` on. */
  function RemoveFrom(c: Cb, fn: Fn, index: nat): (r: Cb)
    requires c.list.Some? && index <= |c.list.value|
    ensures r.list.Some?
    decreases |c.list.value| - index
  {
    if index == |c.list.value| then c
    else if c.list.value[index].fn == fn then RemoveFrom(Splice(c, index), fn, index)
    else RemoveFrom(c, fn, index + 1)
  }

  function Remove(c: Cb, fns: seq<Fn>): (r: Cb)
    ensures c.list.Some? ==> r.list.Some?
  {
    if c.list.None? || fns == [] then c
    else RemoveFrom(Remove(c, fns[..|fns| - 1]), fns[|fns| - 1], 0)
  }

  function FireWith(c: Cb, data: Data): Cb {
    if c.list.Some? && (!c.fired || c.stack.Some?) then
      var c1 := c.(book := c.book.(requested := c.book.requested + [data]));
      if c.firing then c1.(stack := Some((if c.stack.Some? then c.stack.value else []) + [data]))
      else Head(Begin(c1, data, true))
    else c
  }

  /** The callback that was called last returns. */
  function Return(c: Cb, returnedFalse: bool): Cb
    requires c.firing && c.InBounds() && c.firingIndex >= -1
  {
    if returnedFalse && c.options.stopOnFalse then Finish(c.(memory := None), true)
    else Head(c.(firingIndex := c.firingIndex + 1))
  }

  // What add and remove do to the list

  function Numbered(fns: seq<Fn>, first: nat): seq<Entry> {
    seq(|fns|, i requires 0 <= i < |fns| => Entry(fns[i], first + i))
  }

  /** Without the unique option every argument is pushed, in order. */
  lemma {:induction false} PushAll(c: Cb, fns: seq<Fn>)
    requires c.list.Some? && !c.options.unique
    ensures var r := Push(c, fns);
            && r.list.value == c.list.value + Numbered(fns, |c.book.added|)
            && r.book == c.book.(added := c.book.added + fns)
  {
    if fns == [] {
      assert c.book.added + fns == c.book.added;
      assert c.list.value + Numbered(fns, |c.book.added|) == c.list.value;
    } else {
      var init, last := fns[..|fns| - 1], fns[|fns| - 1];
      PushAll(c, init);
      assert Numbered(fns, |c.book.added|) == Numbered(init, |c.book.added|) + [Entry(last, |c.book.added| + |init|)];
      assert c.book.added + fns == c.book.added + init + [last];
    }
  }

  function Without(list: seq<Entry>, fn: Fn): (r: seq<Entry>)
    ensures forall e :: e in r <==> e in list && e.fn != fn
  {
    if list == [] then []
    else (if list[0].fn == fn then [] else [list[0]]) + Without(list[1..], fn)
  }

  /** What the loop of remove leaves of `list` when it has come to `index`. */
  function Kept(list: seq<Entry>, fn: Fn, index: nat): seq<Entry>
    requires index <= |list|
  {
    list[..index] + Without(list[index..], fn)
  }

  lemma KeptStep(list: seq<Entry>, fn: Fn, index: nat)
    requires index < |list|
    ensures Kept(list, fn, index) ==
            if list[index].fn == fn then Kept(list[..index] + list[index + 1..], fn, index)
            else Kept(list, fn, index + 1)
  {
    var rest := Without(list[index + 1..], fn);
    assert list[index..][0] == list[index] && list[index..][1..] == list[index + 1..];
    if list[index].fn == fn {
      var list' := list[..index] + list[index + 1..];
      assert list'[..index] == list[..index] && list'[index..] == list[index + 1..];
      assert [] + rest == rest;
    } else {
      assert list[..index] + ([list[index]] + rest) == list[..index + 1] + rest;
    }
  }

  lemma KeptEnd(list: seq<Entry>, fn: Fn)
    ensures Kept(list, fn, |list|) == list
  {
    assert list[..|list|] == list && list + [] == list;
  }

  /** `remove` takes out every occurrence of its argument, keeps the others in order, and changes nothing
      but the list and the loop variables. */
  lemma {:induction false} RemoveFromList(c: Cb, fn: Fn, index: nat)
    requires c.list.Some? && index <= |c.list.value|
    ensures var r := RemoveFrom(c, fn, index);
            && r.list == Some(Kept(c.list.value, fn, index))
            && r == c.(list := r.list, firingIndex := r.firingIndex, firingLength := r.firingLength)
    decreases |c.list.value| - index
  {
    var list := c.list.value;
    if index == |list| {
      KeptEnd(list, fn);
    } else {
      KeptStep(list, fn, index);
      if list[index].fn == fn {
        RemoveFromList(Splice(c, index), fn, index);
      } else {
        RemoveFromList(c, fn, index + 1);
      }
    }
  }

  // What every pass of a repeatable list does

  predicate Ascending(entries: seq<Entry>) {
    forall i, j | 0 <= i < j < |entries| :: entries[i].tag < entries[j].tag
  }

  /** The highest number the running pass is done with. */
  function Reached(b: Book): int {
    if b.ran == [] then b.from - 1 else b.ran[|b.ran| - 1].tag
  }

  /** Unless it was stopped, a pass called every occurrence that it had to serve and that was not removed;
      it called each one once, in the order in which they were added. */
  predicate Complete(p: Pass) {
    && Ascending(p.ran) && Ascending(p.left)
    && (p.full ==> p.from == 0)
    && (!p.stopped ==> forall e | e in p.left && e.tag >= p.from :: e in p.ran)
  }

  /** The values of the passes that were asked for by `fire`. */
  function Fired(passes: seq<Pass>): seq<Data> {
    if passes == [] then []
    else Fired(passes[..|passes| - 1]) + if passes[|passes| - 1].full then [passes[|passes| - 1].data] else []
  }

  /** The calls of one pass. */
  function CallsOf(ran: seq<Entry>, data: Data): seq<(Entry, Data)> {
    seq(|ran|, i requires 0 <= i < |ran| => (ran[i], data))
  }

  function AllCalls(passes: seq<Pass>): seq<(Entry, Data)> {
    if passes == [] then []
    else AllCalls(passes[..|passes| - 1]) + CallsOf(passes[|passes| - 1].ran, passes[|passes| - 1].data)
  }

  /** The entries before `index` are done with, the others are still to come. */
  predicate Split(c: Cb, index: int)
    requires c.list.Some?
  {
    var list := c.list.value;
    && 0 <= index <= |list|
    && (forall i | 0 <= i < index ::
          list[i].tag <= Reached(c.book) && (list[i].tag >= c.book.from ==> list[i] in c.book.ran))
    && (forall i | index <= i < |list| :: list[i].tag > Reached(c.book))
  }

  /** What holds of a repeatable list that is not locked or disabled, at every point. */
  predicate Base(c: Cb) {
    && !c.options.once && c.list.Some? && c.stack.Some?
    && Ascending(c.list.value) && (forall e | e in c.list.value :: e.tag < |c.book.added|)
    && (forall p | p in c.book.passes :: Complete(p))
    && c.firingStart == 0
    && c.book.requested ==
       Fired(c.book.passes) + (if c.firing && c.book.full then [c.book.data] else []) + c.stack.value
    && c.book.calls == AllCalls(c.book.passes) + if c.firing then CallsOf(c.book.ran, c.book.data) else []
  }

  /** The running pass, when the entries before `index` are done with. */
  predicate Passing(c: Cb, index: int)
    requires c.list.Some?
  {
    && c.firing && c.fired && Split(c, index) && c.firingLength == |c.list.value|
    && Ascending(c.book.ran) && Reached(c.book) < |c.book.added| && (c.book.full ==> c.book.from == 0)
    && (forall e | e in c.book.ran :: e.tag >= c.book.from)
  }

  /** Between two operations: nothing is stacked unless a pass is on, and then its callback is being called. */
  predicate Stable(c: Cb) {
    Base(c) && if c.firing then Passing(c, c.firingIndex + 1) else c.stack == Some([])
  }

  lemma BeginPassing(c: Cb, data: Data, full: bool)
    requires c.list.Some? && Ascending(c.list.value) && (forall e | e in c.list.value :: e.tag < |c.book.added|)
    requires c.firingStart <= |c.list.value| && (full ==> c.firingStart == 0)
    ensures Passing(Begin(c, data, full), c.firingStart)
  {
  }

  lemma CallsOfMore(ran: seq<Entry>, e: Entry, data: Data)
    ensures CallsOf(ran + [e], data) == CallsOf(ran, data) + [(e, data)]
  {
  }

  /** Calling the next entry takes it to the side of those that are done with. */
  lemma CallSplit(c: Cb, e: Entry)
    requires c.list.Some? && Ascending(c.list.value) && (forall e | e in c.list.value :: e.tag < |c.book.added|)
    requires Passing(c, c.firingIndex) && c.firingIndex < c.firingLength && e == c.list.value[c.firingIndex]
    ensures Passing(c.(book := Called(c.book, e)), c.firingIndex + 1)
  {
    var list, ran := c.list.value, c.book.ran;
    var ran' := ran + [e];
    assert e in list && e.tag > Reached(c.book) && Reached(Called(c.book, e)) == e.tag;
    assert ran'[|ran|] == e && forall x | x in ran :: x in ran';
    assert Ascending(ran') by {
      assert forall i | 0 <= i < |ran| :: ran'[i] == ran[i] && ran[i].tag <= Reached(c.book);
    }
  }

  lemma {:induction false} HeadStable(c: Cb)
    requires Base(c) && Passing(c, c.firingIndex)
    ensures Stable(Head(c))
    decreases c.StackSize(), 1
  {
    if c.firingIndex < c.firingLength {
      CallSplit(c, c.list.value[c.firingIndex]);
      CallsOfMore(c.book.ran, c.list.value[c.firingIndex], c.book.data);
    } else {
      FinishStable(c, c.firingIndex, false);
    }
  }

  lemma EndedBase(c: Cb, index: int, stopped: bool)
    requires Base(c) && Passing(c, index) && (!stopped ==> index == |c.list.value|)
    ensures var c1 := Ended(c, stopped);
            && (forall p | p in c1.book.passes :: Complete(p))
            && c1.book.requested == Fired(c1.book.passes) + c1.stack.value
            && c1.book.calls == AllCalls(c1.book.passes)
  {
    var passes := Ended(c, stopped).book.passes;
    var pass := passes[|passes| - 1];
    assert passes[..|passes| - 1] == c.book.passes;
    assert Complete(pass);
  }

  lemma {:induction false} FinishStable(c: Cb, index: int, stopped: bool)
    requires Base(c) && Passing(c, index) && (!stopped ==> index == |c.list.value|)
    ensures Stable(Finish(c, stopped))
    decreases c.StackSize(), 0
  {
    EndedBase(c, index, stopped);
    if c.stack.value != [] {
      NextBase(c, index, stopped);
      HeadStable(Next(c, stopped));
    }
  }

  /** The pass of the first stacked fire, at its beginning. */
  function Next(c: Cb, stopped: bool): Cb
    requires c.list.Some? && c.stack.Some? && c.stack.value != []
  {
    Begin(Ended(c, stopped).(stack := Some(c.stack.value[1..])), c.stack.value[0], true)
  }

  lemma NextBase(c: Cb, index: int, stopped: bool)
    requires Base(c) && Passing(c, index) && (!stopped ==> index == |c.list.value|) && c.stack.value != []
    ensures Base(Next(c, stopped)) && Passing(Next(c, stopped), 0)
  {
    EndedBase(c, index, stopped);
    var data := c.stack.value[0];
    var c2 := Ended(c, stopped).(stack := Some(c.stack.value[1..]));
    BeginPassing(c2, data, true);
    assert Fired(c2.book.passes) + c.stack.value == Fired(c2.book.passes) + [data] + c2.stack.value;
    assert AllCalls(c2.book.passes) == AllCalls(c2.book.passes) + CallsOf([], data);
  }

  lemma FireWithStable(c: Cb, data: Data)
    requires Stable(c)
    ensures Stable(FireWith(c, data))
  {
    if !c.firing {
      var c1 := c.(book := c.book.(requested := c.book.requested + [data]));
      BeginPassing(c1, data, true);
      HeadStable(Begin(c1, data, true));
    }
  }

  /** The pass is the same when only the index of the loop and the memory change. */
  lemma SamePass(c: Cb, c1: Cb, index: int)
    requires Base(c) && Passing(c, index) && c1 == c.(firingIndex := c1.firingIndex, memory := c1.memory)
    ensures Base(c1) && Passing(c1, index)
  {
  }

  lemma ReturnStable(c: Cb, returnedFalse: bool)
    requires Stable(c) && c.firing
    ensures Stable(Return(c, returnedFalse))
  {
    var index := c.firingIndex + 1;
    if returnedFalse && c.options.stopOnFalse {
      SamePass(c, c.(memory := None), index);
      FinishStable(c.(memory := None), index, true);
    } else {
      SamePass(c, c.(firingIndex := index), index);
      HeadStable(c.(firingIndex := index));
    }
  }

  /** The pushed occurrences follow those of the list, with new numbers. */
  lemma {:induction false} PushStable(c: Cb, fns: seq<Fn>)
    requires c.list.Some? && Ascending(c.list.value) && forall e | e in c.list.value :: e.tag < |c.book.added|
    ensures var r := Push(c, fns);
            && r == c.(list := r.list, book := c.book.(added := r.book.added))
            && c.list.value <= r.list.value && Ascending(r.list.value) && c.book.added <= r.book.added
            && (forall e | e in r.list.value :: e.tag < |r.book.added|)
            && (forall i | |c.list.value| <= i < |r.list.value| :: r.list.value[i].tag >= |c.book.added|)
  {
    if fns != [] {
      PushStable(c, fns[..|fns| - 1]);
    }
  }

  lemma AddStable(c: Cb, fns: seq<Fn>)
    requires Stable(c)
    ensures Stable(Add(c, fns))
  {
    var c1 := Push(c, fns);
    PushedBase(c, fns);
    if c.firing {
      var c2 := c1.(firingLength := |c1.list.value|);
      AddedSplit(c, c2, c.firingIndex + 1);
      assert Passing(c2, c.firingIndex + 1);
    } else if c.memory.Some? {
      AddedPassing(c1, |c.list.value|, c.memory.value);
      HeadStable(Begin(c1.(firingStart := |c.list.value|), c.memory.value, false));
    }
  }

  lemma PushedBase(c: Cb, fns: seq<Fn>)
    requires Base(c)
    ensures var r := Push(c, fns);
            && Base(r) && r == c.(list := r.list, book := c.book.(added := r.book.added))
            && c.list.value <= r.list.value && c.book.added <= r.book.added
            && (forall i | |c.list.value| <= i < |r.list.value| :: r.list.value[i].tag >= |c.book.added|)
  {
    PushStable(c, fns);
  }

  /** The pass that serves only the callbacks just added. */
  lemma AddedPassing(c: Cb, start: nat, data: Data)
    requires Base(c) && !c.firing && c.stack == Some([]) && start <= |c.list.value|
    ensures var c1 := Begin(c.(firingStart := start), data, false);
            Base(c1) && Passing(c1, c1.firingIndex)
  {
    BeginPassing(c.(firingStart := start), data, false);
    assert AllCalls(c.book.passes) == AllCalls(c.book.passes) + CallsOf([], data);
  }

  lemma AddedSplit(c: Cb, c1: Cb, index: int)
    requires c.list.Some? && c1.list.Some? && c.list.value <= c1.list.value && Split(c, index)
    requires c1.book == c.book.(added := c1.book.added) && Reached(c.book) < |c.book.added|
    requires forall i | |c.list.value| <= i < |c1.list.value| :: c1.list.value[i].tag >= |c.book.added|
    ensures Split(c1, index)
  {
    assert forall i | 0 <= i < |c.list.value| :: c1.list.value[i] == c.list.value[i];
  }

  /** Taking an entry out moves the entries after it one place forward. */
  lemma SplicedList(list: seq<Entry>, index: nat, i: nat)
    requires index < |list| && i < |list| - 1
    ensures (list[..index] + list[index + 1..])[i] == if i < index then list[i] else list[i + 1]
  {
  }

  lemma SplicedAscends(list: seq<Entry>, index: nat)
    requires index < |list| && Ascending(list)
    ensures Ascending(list[..index] + list[index + 1..])
    ensures forall e | e in list[..index] + list[index + 1..] :: e in list
  {
    forall i: nat | i < |list| - 1 {
      SplicedList(list, index, i);
    }
  }

  /** Removing any entry keeps done and coming entries apart, and the loop variables in step with them. */
  lemma SpliceStable(c: Cb, index: nat)
    requires Stable(c) && index < |c.list.value|
    ensures Stable(Splice(c, index))
  {
    SplicedAscends(c.list.value, index);
    forall i: nat | i < |c.list.value| - 1 {
      SplicedList(c.list.value, index, i);
    }
  }

  lemma {:induction false} RemoveFromStable(c: Cb, fn: Fn, index: nat)
    requires Stable(c) && index <= |c.list.value|
    ensures Stable(RemoveFrom(c, fn, index))
    decreases |c.list.value| - index
  {
    if index < |c.list.value| {
      if c.list.value[index].fn == fn {
        SpliceStable(c, index);
        RemoveFromStable(Splice(c, index), fn, index);
      } else {
        RemoveFromStable(c, fn, index + 1);
      }
    }
  }

  lemma {:induction false} RemoveStable(c: Cb, fns: seq<Fn>)
    requires Stable(c)
    ensures Stable(Remove(c, fns))
  {
    if fns != [] {
      RemoveStable(c, fns[..|fns| - 1]);
      RemoveFromStable(Remove(c, fns[..|fns| - 1]), fns[|fns| - 1], 0);
    }
  }

  // Runs

  datatype Action = Adds(fns: seq<Fn>) | Removes(fns: seq<Fn>) | Fires(data: Data) | Returns(returnedFalse: bool)

  /** One operation; only a callback that is being called can return. */
  function Step(c: Cb, a: Action): Cb {
    match a
    case Adds(fns) => Add(c, fns)
    case Removes(fns) => Remove(c, fns)
    case Fires(data) => FireWith(c, data)
    case Returns(returnedFalse) =>
      if c.firing && c.InBounds() && c.firingIndex >= -1 then Return(c, returnedFalse) else c
  }

  function After(options: Options, run: seq<Action>): Cb {
    if run == [] then New(options) else Step(After(options, run[..|run| - 1]), run[|run| - 1])
  }

  /** The values that the run fires, in order. */
  function FiresOf(run: seq<Action>): seq<Data> {
    if run == [] then []
    else FiresOf(run[..|run| - 1]) + if run[|run| - 1].Fires? then [run[|run| - 1].data] else []
  }

  /** The loop does not write down requests or additions, and leaves a repeatable list as it is. */
  lemma {:induction false} HeadRequests(c: Cb)
    requires c.firing && c.firingIndex >= 0 && (c.list.Some? ==> c.firingLength == |c.list.value|)
    ensures Head(c).book.requested == c.book.requested && Head(c).book.added == c.book.added
    ensures Head(c).options == c.options && (c.stack.Some? ==> Head(c).list == c.list)
    decreases c.StackSize(), 1
  {
    if !(c.list.Some? && c.firingIndex < c.firingLength) {
      FinishRequests(c, false);
    }
  }

  lemma {:induction false} FinishRequests(c: Cb, stopped: bool)
    requires c.firing
    ensures Finish(c, stopped).book.requested == c.book.requested && Finish(c, stopped).book.added == c.book.added
    ensures Finish(c, stopped).options == c.options && (c.stack.Some? ==> Finish(c, stopped).list == c.list)
    decreases c.StackSize(), 0
  {
    if c.list.Some? && c.stack.Some? && c.stack.value != [] {
      HeadRequests(Next(c, stopped));
    }
  }

  lemma {:induction false} RemoveRequests(c: Cb, fns: seq<Fn>)
    ensures Remove(c, fns).book == c.book
  {
    if c.list.Some? && fns != [] {
      RemoveRequests(c, fns[..|fns| - 1]);
      RemoveFromList(Remove(c, fns[..|fns| - 1]), fns[|fns| - 1], 0);
    }
  }

  /** No request to a repeatable list is lost or made up. */
  lemma StepRequests(c: Cb, a: Action)
    requires Stable(c)
    ensures Step(c, a).book.requested == c.book.requested + if a.Fires? then [a.data] else []
  {
    match a
    case Adds(fns) =>
      PushedBase(c, fns);
      if !c.firing && c.memory.Some? {
        HeadRequests(Begin(Push(c, fns).(firingStart := |c.list.value|), c.memory.value, false));
      }
    case Removes(fns) => RemoveRequests(c, fns);
    case Fires(data) =>
      if !c.firing {
        HeadRequests(Begin(c.(book := c.book.(requested := c.book.requested + [data])), data, true));
      }
    case Returns(returnedFalse) => ReturnKeeps(c, returnedFalse);
  }

  /** The requests of a repeatable list are the values that the run fires, in order, whatever is being called then. */
  lemma {:induction false} RunRequests(options: Options, run: seq<Action>)
    requires !options.once
    ensures After(options, run).book.requested == FiresOf(run)
  {
    if run != [] {
      RunRequests(options, run[..|run| - 1]);
      RunStable(options, run[..|run| - 1]);
      StepRequests(After(options, run[..|run| - 1]), run[|run| - 1]);
    }
  }

  /** The functions that the run adds, in order. */
  function AddsOf(run: seq<Action>): seq<Fn> {
    if run == [] then []
    else AddsOf(run[..|run| - 1]) + if run[|run| - 1].Adds? then run[|run| - 1].fns else []
  }

  /** An operation other than `remove` keeps the list, and `add` appends to it. */
  lemma StepAdds(c: Cb, a: Action)
    requires Stable(c) && !c.options.unique && !a.Removes?
    ensures var fns := if a.Adds? then a.fns else [];
            && Step(c, a).options == c.options && Step(c, a).book.added == c.book.added + fns
            && Step(c, a).list == Some(c.list.value + Numbered(fns, |c.book.added|))
  {
    assert c.book.added + [] == c.book.added && c.list.value + Numbered([], |c.book.added|) == c.list.value;
    match a
    case Adds(fns) =>
      PushAll(c, fns);
      PushedBase(c, fns);
      if !c.firing && c.memory.Some? {
        HeadRequests(Begin(Push(c, fns).(firingStart := |c.list.value|), c.memory.value, false));
      }
    case Fires(data) =>
      if !c.firing {
        HeadRequests(Begin(c.(book := c.book.(requested := c.book.requested + [data])), data, true));
      }
    case Returns(returnedFalse) => ReturnKeeps(c, returnedFalse);
  }

  lemma NextKeeps(c: Cb)
    requires c.firing && c.InBounds() && c.firingIndex >= -1 && c.list.Some? && c.stack.Some?
    ensures var r := Head(c.(firingIndex := c.firingIndex + 1));
            && r.list == c.list && r.options == c.options
            && r.book.added == c.book.added && r.book.requested == c.book.requested
  {
    HeadRequests(c.(firingIndex := c.firingIndex + 1));
  }

  lemma ReturnKeeps(c: Cb, returnedFalse: bool)
    requires c.InBounds() && c.list.Some? && c.stack.Some?
    ensures var r := Step(c, Returns(returnedFalse));
            && r.list == c.list && r.options == c.options
            && r.book.added == c.book.added && r.book.requested == c.book.requested
  {
    if c.firing {
      if returnedFalse && c.options.stopOnFalse {
        FinishRequests(c.(memory := None), true);
      } else {
        NextKeeps(c);
      }
    }
  }

  /** Without removing, a repeatable list holds the functions that the run adds, in order. */
  lemma {:induction false} RunAdds(options: Options, run: seq<Action>)
    requires !options.once && !options.unique && forall a | a in run :: !a.Removes?
    ensures var c := After(options, run);
            c.book.added == AddsOf(run) && c.list == Some(Numbered(AddsOf(run), 0)) && c.options == options
  {
    if run != [] {
      var init, a := run[..|run| - 1], run[|run| - 1];
      RunAdds(options, init);
      RunStable(options, init);
      StepAdds(After(options, init), a);
      var fns := if a.Adds? then a.fns else [];
      assert Numbered(AddsOf(init) + fns, 0) == Numbered(AddsOf(init), 0) + Numbered(fns, |AddsOf(init)|);
    } else {
      assert Numbered([], 0) == [];
    }
  }

  /** Over every run of a repeatable list, with operations at any point of any callback: the calls of the
      passes never interleave; the values that the run fires get their passes in their order, those still stacked
      coming last; no pass skips a surviving occurrence or calls one twice; and the end of a running
      pass is always the end of the list. */
  lemma {:induction false} RepeatablePasses(options: Options, run: seq<Action>)
    requires !options.once
    ensures var c := After(options, run);
            && c.list.Some? && c.stack.Some? && c.InBounds()
            && c.book.calls == AllCalls(c.book.passes) + (if c.firing then CallsOf(c.book.ran, c.book.data) else [])
            && FiresOf(run) ==
               Fired(c.book.passes) + (if c.firing && c.book.full then [c.book.data] else []) + c.stack.value
            && c.book.requested == FiresOf(run)
            && (!c.firing ==> c.stack.value == [])
            && (forall p | p in c.book.passes :: Complete(p))
  {
    RunStable(options, run);
    RunRequests(options, run);
  }

  lemma {:induction false} RunStable(options: Options, run: seq<Action>)
    requires !options.once
    ensures Stable(After(options, run))
  {
    if run != [] {
      var before := After(options, run[..|run| - 1]);
      RunStable(options, run[..|run| - 1]);
      match run[|run| - 1]
      case Adds(fns) => AddStable(before, fns);
      case Removes(fns) => RemoveStable(before, fns);
      case Fires(data) => FireWithStable(before, data);
      case Returns(returnedFalse) => if before.firing { ReturnStable(before, returnedFalse); }
    }
  }
}
