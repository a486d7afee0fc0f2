/** The Callbacks object itself: its closure variables as fields, each method equal to the operation on them. */
module CallbackList {
  import opened Helpers
  import opened Callbacks

  class CallbackObject {
    const options: Options
    var list: Option<seq<Entry>>
    var stack: Option<seq<Data>>
    var memory: Option<Data>
    var fired: bool
    var firing: bool
    var firingIndex: int
    var firingLength: int
    var firingStart: nat
    var book: Book

    function State(): Cb
      reads this
    {
      Cb(options, list, stack, memory, fired, firing, firingIndex, firingLength, firingStart, book)
    }

    constructor (options: Options)
      ensures State() == New(options)
    {
      this.options := options;
      list, stack, memory := Some([]), if options.once then None else Some([]), None;
      fired, firing, firingIndex, firingLength, firingStart := false, false, 0, 0, 0;
      book := Book([], [], [], [], 0, false, 0, []);
    }

    method Disable()
      modifies this
      ensures State() == Callbacks.Disable(old(State()))
    {
      list, stack, memory := None, None, None;
    }

    method Lock()
      modifies this
      ensures State() == Callbacks.Lock(old(State()))
    {
      stack := None;
      if memory.None? {
        Disable();
      }
    }

    /** `fire`, up to the first callback. */
    method Fire(data: Data, full: bool)
      requires list.Some?
      modifies this
      ensures State() == Head(Begin(old(State()), data, full))
      decreases State().StackSize(), 2
    {
      var begun := Begin(State(), data, full);
      memory := if options.memory then Some(data) else None;
      fired := true;
      firingIndex := firingStart;
      firingStart := 0;
      firingLength := |list.value|;
      firing := true;
      book := begun.book;
      LoopHead();
    }

    method LoopHead()
      requires firing && firingIndex >= 0 && (list.Some? ==> firingLength == |list.value|)
      modifies this
      ensures State() == Head(old(State()))
      decreases State().StackSize(), 1
    {
      if list.Some? && firingIndex < firingLength {
        book := Called(book, list.value[firingIndex]);
      } else {
        AfterLoop(false);
      }
    }

    method AfterLoop(stopped: bool)
      requires firing
      modifies this
      ensures State() == Finish(old(State()), stopped)
      decreases State().StackSize(), 0
    {
      book := Ended(State(), stopped).book;
      firing := false;
      if list.Some? {
        if stack.Some? {
          if stack.value != [] {
            var data := stack.value[0];
            stack := Some(stack.value[1..]);
            Fire(data, true);
          }
        } else if memory.Some? {
          list := Some([]);
        } else {
          Disable();
        }
      }
    }

    /** The callback that was called last returns, and the loop goes on. */
    method Return(returnedFalse: bool)
      requires firing && State().InBounds() && firingIndex >= -1
      modifies this
      ensures State() == Callbacks.Return(old(State()), returnedFalse)
    {
      if returnedFalse && options.stopOnFalse {
        memory := None;
        AfterLoop(true);
      } else {
        firingIndex := firingIndex + 1;
        LoopHead();
      }
    }

    method Add(fns: seq<Fn>)
      modifies this
      ensures State() == Callbacks.Add(old(State()), fns)
    {
      if list.Some? {
        var start := |list.value|;
        var i := 0;
        while i < |fns|
          invariant 0 <= i <= |fns| && list.Some? && State() == Push(old(State()), fns[..i])
        {
          assert fns[..i + 1][..i] == fns[..i];
          if !options.unique || !Has(list.value, fns[i]) {
            list := Some(list.value + [Entry(fns[i], |book.added|)]);
            book := book.(added := book.added + [fns[i]]);
          }
          i := i + 1;
        }
        assert fns[..i] == fns;
        if firing {
          firingLength := |list.value|;
        } else if memory.Some? {
          firingStart := start;
          Fire(memory.value, false);
        }
      }
    }

    /** `jQuery.inArray` on the list. */
    method IndexOf(fn: Fn, from: nat) returns (index: int)
      requires list.Some? && from <= |list.value|
      ensures index >= -1 && (index >= 0 ==> from <= index < |list.value| && list.value[index].fn == fn)
      ensures RemoveFrom(State(), fn, from) == RemoveFrom(State(), fn, if index >= 0 then index else |list.value|)
    {
      index := from;
      while index < |list.value|
        invariant from <= index <= |list.value|
        invariant RemoveFrom(State(), fn, from) == RemoveFrom(State(), fn, index)
      {
        if list.value[index].fn == fn {
          return;
        }
        index := index + 1;
      }
      index := -1;
    }

    method SpliceAt(index: nat)
      requires list.Some? && index < |list.value|
      modifies this
      ensures State() == Splice(old(State()), index)
    {
      list := Some(list.value[..index] + list.value[index + 1..]);
      if firing {
        if index <= firingLength {
          firingLength := firingLength - 1;
        }
        if index <= firingIndex {
          firingIndex := firingIndex - 1;
        }
      }
    }

    method RemoveOne(fn: Fn)
      requires list.Some?
      modifies this
      ensures State() == RemoveFrom(old(State()), fn, 0)
    {
      var index := IndexOf(fn, 0);
      while index > -1
        invariant list.Some? && -1 <= index < |list.value| && (index > -1 ==> list.value[index].fn == fn)
        invariant RemoveFrom(old(State()), fn, 0) == RemoveFrom(State(), fn, if index >= 0 then index else |list.value|)
        decreases |list.value|
      {
        SpliceAt(index);
        index := IndexOf(fn, index);
      }
    }

    method Remove(fns: seq<Fn>)
      modifies this
      ensures State() == Callbacks.Remove(old(State()), fns)
    {
      if list.Some? {
        var i := 0;
        while i < |fns|
          invariant 0 <= i <= |fns| && list.Some? && State() == Callbacks.Remove(old(State()), fns[..i])
        {
          assert fns[..i + 1][..i] == fns[..i];
          RemoveOne(fns[i]);
          i := i + 1;
        }
        assert fns[..i] == fns;
      }
    }

    method FireWith(data: Data)
      modifies this
      ensures State() == Callbacks.FireWith(old(State()), data)
    {
      if list.Some? && (!fired || stack.Some?) {
        book := book.(requested := book.requested + [data]);
        if firing {
          stack := Some((if stack.Some? then stack.value else []) + [data]);
        } else {
          Fire(data, true);
        }
      }
    }
  }
}
