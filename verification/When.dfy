/** jQuery.when with two or more arguments: a master that waits for all of them. */
module When {
  import opened Helpers
  import Deferred

  /** How a deferred settles. */
  datatype Outcome = Resolved(value: int) | Rejected(error: int)

  /** An argument: an ordinary value, or a deferred that may have settled already. */
  datatype Arg = Plain(value: int) | Promise(outcome: Option<Outcome>)

  /** Entries of `resolveValues`: the argument itself until its deferred resolves. */
  datatype Entry = Value(value: int) | Waiting

  datatype Master = Pending | AllResolved(values: seq<Entry>) | FirstRejected(error: int)

  /** Argument `index` turned out as `outcome`; an ordinary value counts as resolved. */
  datatype Event = Event(index: nat, outcome: Outcome)

  // What the master should be, from the order in which the arguments turned out

  predicate Known(history: seq<Event>, i: nat) {
    exists k | 0 <= k < |history| :: history[k].index == i
  }

  /** Each of the `n` arguments turns out at most once. */
  predicate Once(n: nat, history: seq<Event>) {
    && (forall k | 0 <= k < |history| :: history[k].index < n)
    && forall j, k | 0 <= j < k < |history| :: history[j].index != history[k].index
  }

  function FirstRejection(history: seq<Event>): Option<int> {
    if history == [] then None
    else
      var before, last := FirstRejection(history[..|history| - 1]), history[|history| - 1].outcome;
      if before.Some? then before else if last.Rejected? then Some(last.error) else None
  }

  /** What the `i`-th argument has resolved to so far. */
  function ValueAt(history: seq<Event>, i: nat): Entry {
    if history == [] then Waiting
    else
      var last := history[|history| - 1];
      if last.index == i && last.outcome.Resolved? then Value(last.outcome.value)
      else ValueAt(history[..|history| - 1], i)
  }

  function Values(n: nat, history: seq<Event>): seq<Entry> {
    seq(n, i requires 0 <= i < n => ValueAt(history, i))
  }

  /** The arguments that have not resolved. */
  function Unresolved(n: nat, history: seq<Event>): set<nat> {
    set i: nat | i < n && ValueAt(history, i) == Waiting
  }

  function MasterOf(n: nat, history: seq<Event>): Master {
    if FirstRejection(history).Some? then FirstRejected(FirstRejection(history).value)
    else if forall i: nat | i < n :: Known(history, i) then AllResolved(Values(n, history))
    else Pending
  }

  /** The value of an argument is Waiting exactly when it did not turn out, or was rejected. */
  lemma {:induction false} ValueKnown(n: nat, history: seq<Event>, i: nat)
    requires Once(n, history)
    ensures ValueAt(history, i) != Waiting <==>
            exists k | 0 <= k < |history| :: history[k].index == i && history[k].outcome.Resolved?
  {
    if history != [] {
      var k := |history| - 1;
      ValueKnown(n, history[..k], i);
      if ValueAt(history, i) == Waiting {
        assert forall j | 0 <= j < k :: history[..k][j] == history[j];
      }
    }
  }

  lemma {:induction false} RejectionKnown(history: seq<Event>)
    ensures FirstRejection(history).Some? <==> exists k | 0 <= k < |history| :: history[k].outcome.Rejected?
  {
    if history != [] {
      var k := |history| - 1;
      RejectionKnown(history[..k]);
      assert forall j | 0 <= j < k :: history[..k][j] == history[j];
    }
  }

  /** Nothing is left to wait for exactly when the master resolves. */
  lemma NothingUnresolved(n: nat, history: seq<Event>)
    requires Once(n, history)
    ensures Unresolved(n, history) == {} <==> MasterOf(n, history).AllResolved?
  {
    RejectionKnown(history);
    forall i: nat {
      ValueKnown(n, history, i);
    }
    if FirstRejection(history).Some? {
      var k :| 0 <= k < |history| && history[k].outcome.Rejected?;
      assert history[k].index in Unresolved(n, history);
    } else if Unresolved(n, history) == {} {
      forall i: nat | i < n ensures Known(history, i) {
        assert i !in Unresolved(n, history);
      }
    } else {
      var i :| i in Unresolved(n, history);
      assert !Known(history, i);
    }
  }

  /** The values of a resolved master are the values of its arguments, each at the place of its argument. */
  lemma ValuesInPlace(n: nat, history: seq<Event>, k: nat)
    requires Once(n, history) && k < |history| && history[k].outcome.Resolved?
    requires MasterOf(n, history).AllResolved?
    ensures var values := MasterOf(n, history).values;
            |values| == n && values[history[k].index] == Value(history[k].outcome.value)
  {
    ValueOf(n, history, history[k]);
  }

  /** And every place is filled so. */
  lemma EveryPlace(n: nat, history: seq<Event>, i: nat) returns (k: nat)
    requires Once(n, history) && i < n && MasterOf(n, history).AllResolved?
    ensures k < |history| && history[k].index == i && history[k].outcome.Resolved?
    ensures MasterOf(n, history).values[i] == Value(history[k].outcome.value)
  {
    assert Known(history, i);
    k :| 0 <= k < |history| && history[k].index == i;
    RejectionKnown(history);
    ValueOf(n, history, history[k]);
  }

  /** The settling order does not matter when all arguments resolve: the same events in another order
      give the master the same values. */
  lemma OrderIrrelevant(n: nat, history: seq<Event>, history': seq<Event>)
    requires Once(n, history) && Once(n, history') && forall e :: e in history <==> e in history'
    requires MasterOf(n, history).AllResolved?
    ensures MasterOf(n, history') == MasterOf(n, history)
  {
    RejectionKnown(history);
    RejectionKnown(history');
    forall k | 0 <= k < |history'| ensures !history'[k].outcome.Rejected? {
      assert history'[k] in history;
    }
    forall i: nat | i < n ensures Known(history', i) && ValueAt(history', i) == ValueAt(history, i) {
      assert Known(history, i);
      var k :| 0 <= k < |history| && history[k].index == i;
      assert history[k] in history';
      ValueOf(n, history, history[k]);
      ValueOf(n, history', history[k]);
    }
  }

  lemma {:induction false} ValueOf(n: nat, history: seq<Event>, e: Event)
    requires Once(n, history) && e in history && e.outcome.Resolved?
    ensures ValueAt(history, e.index) == Value(e.outcome.value)
  {
    var k := |history| - 1;
    if history[k] != e {
      assert e in history[..k] by {
        var j :| 0 <= j < |history| && history[j] == e;
        assert history[..k][j] == e;
      }
      ValueOf(n, history[..k], e);
    }
  }

  // The function and its callbacks

  /** The arguments that have turned out when `when` is called, in argument order. */
  function SettledBefore(args: seq<Arg>): (r: seq<Event>)
    ensures Once(|args|, r)
  {
    if args == [] then []
    else
      var k := |args| - 1;
      SettledBefore(args[..k]) + match args[k]
                                 case Plain(v) => [Event(k, Resolved(v))]
                                 case Promise(None) => []
                                 case Promise(Some(o)) => [Event(k, o)]
  }

  lemma {:induction false} NotKnownLater(args: seq<Arg>, k: nat)
    requires k >= |args|
    ensures !Known(SettledBefore(args), k)
  {
    if args != [] {
      NotKnownLater(args[..|args| - 1], k);
    }
  }

  /** One more argument. */
  lemma SettledMore(args: seq<Arg>, k: nat)
    requires k < |args|
    ensures !Known(SettledBefore(args[..k]), k)
    ensures SettledBefore(args[..k + 1]) ==
            SettledBefore(args[..k]) + match args[k]
                                       case Plain(v) => [Event(k, Resolved(v))]
                                       case Promise(None) => []
                                       case Promise(Some(o)) => [Event(k, o)]
  {
    NotKnownLater(args[..k], k);
    assert args[..k + 1][..k] == args[..k];
  }

  /** While an argument is missing the master cannot have resolved. */
  lemma NotAllYet(n: nat, history: seq<Event>, k: nat)
    requires k < n && !Known(history, k)
    ensures !MasterOf(n, history).AllResolved?
  {
  }

  lemma {:induction false} AllUnresolved(n: nat)
    ensures |Unresolved(n, [])| == n
  {
    if n > 0 {
      AllUnresolved(n - 1);
      assert Unresolved(n, []) == Unresolved(n - 1, []) + {n - 1};
    }
  }

  lemma UnresolvedAfter(n: nat, history: seq<Event>, e: Event)
    requires Once(n, history) && e.index < n && !Known(history, e.index)
    ensures Once(n, history + [e])
    ensures |Unresolved(n, history + [e])| == |Unresolved(n, history)| - if e.outcome.Resolved? then 1 else 0
    ensures e.index in Unresolved(n, history)
    ensures forall i: nat | i != e.index :: ValueAt(history + [e], i) == ValueAt(history, i)
  {
    var after := history + [e];
    assert after[..|history|] == history;
    ValueKnown(n, history, e.index);
    assert forall i: nat | i != e.index :: ValueAt(after, i) == ValueAt(history, i);
    if e.outcome.Resolved? {
      assert Unresolved(n, after) == Unresolved(n, history) - {e.index};
    } else {
      assert Unresolved(n, after) == Unresolved(n, history);
    }
  }

  lemma SingleEvent(e: Event)
    requires e.index == 0 && e.outcome.Resolved?
    ensures Once(1, [e]) && Unresolved(1, [e]) == {} && ValueAt([e], 0) == Value(e.outcome.value)
  {
    assert [e][..0] == [];
    assert ValueAt([e], 0) != Waiting;
  }

  lemma SingleValue(args: seq<Arg>)
    requires |args| == 1 && args[0].Plain?
    ensures var history := [Event(0, Resolved(args[0].value))];
            && SettledBefore(args) == history && Once(1, history) && Unresolved(1, history) == {}
            && ValueAt(history, 0) == Value(args[0].value) && MasterOf(1, history).AllResolved?
  {
    var e := Event(0, Resolved(args[0].value));
    SettledMore(args, 0);
    assert args[..1] == args && [] + [e] == [e];
    SingleEvent(e);
    NothingUnresolved(1, [e]);
  }

  class WhenAll {
    const length: nat
    var remaining: int
    var resolveValues: seq<Entry>
    var master: Master
    ghost var history: seq<Event>

    /** `remaining` counts the arguments that are not accounted for, and `resolveValues` has the values of the
        others. */
    ghost predicate Counting()
      reads this
    {
      && |resolveValues| == length && Once(length, history) && remaining == |Unresolved(length, history)|
      && forall i: nat | i < length && ValueAt(history, i) != Waiting :: resolveValues[i] == ValueAt(history, i)
    }

    ghost predicate Valid()
      reads this
    {
      Counting() && master == MasterOf(length, history)
    }

    /** A single deferred is the master itself, so that it settles the master; a single value is not waited for. */
    constructor (args: seq<Arg>)
      ensures Valid() && length == |args| && history == SettledBefore(args)
    {
      var single := |args| == 1 && args[0].Plain?;
      length := |args|;
      remaining := if single then 0 else |args|;
      resolveValues := seq(|args|, i requires 0 <= i < |args| =>
                                     if args[i].Plain? then Value(args[i].value) else Waiting);
      master := Pending;
      history := [];
      new;
      if single {
        SingleSettled(args);
      } else {
        AllUnresolved(length);
        Listen(args);
      }
      if remaining == 0 {
        ResolveMaster();
      }
    }

    /** There is nothing to wait for. */
    ghost method SingleSettled(args: seq<Arg>)
      requires |args| == 1 && args[0].Plain? && length == 1 && remaining == 0 && resolveValues == [Value(args[0].value)]
      modifies this`history
      ensures Counting() && history == SettledBefore(args) && MasterOf(length, history).AllResolved?
    {
      SingleValue(args);
      history := SettledBefore(args);
    }

    /** Adds the callbacks to the arguments. */
    method Listen(args: seq<Arg>)
      requires Counting() && |args| == length && history == [] && master.Pending? && (length == 1 ==> args[0].Promise?)
      requires forall k: nat | k < length && args[k].Plain? :: resolveValues[k] == Value(args[k].value)
      modifies this
      ensures Counting() && history == SettledBefore(args)
      ensures master == MasterOf(length, history) ||
              (remaining == 0 && master.Pending? && MasterOf(length, history).AllResolved?)
    {
      if |args| == 1 {
        Subordinate(args);
      } else if |args| > 1 {
        Arguments(args);
      } else {
        NothingUnresolved(0, []);
      }
    }

    /** A single deferred. */
    method Subordinate(args: seq<Arg>)
      requires Counting() && |args| == length == 1 && args[0].Promise? && history == [] && master.Pending?
      modifies this
      ensures Valid() && history == SettledBefore(args)
    {
      assert !Known(history, 0);
      SettledMore(args, 0);
      assert args[..1] == args;
      match args[0].outcome {
        case Some(o) => Settle(0, o);
        case None =>
      }
    }

    /** The loop over two or more arguments. */
    method Arguments(args: seq<Arg>)
      requires Counting() && |args| == length > 1 && history == [] && master.Pending?
      requires forall k: nat | k < length && args[k].Plain? :: resolveValues[k] == Value(args[k].value)
      modifies this
      ensures Counting() && history == SettledBefore(args)
      ensures master == MasterOf(length, history) ||
              (remaining == 0 && master.Pending? && MasterOf(length, history).AllResolved?)
    {
      assert !Known(history, 0);
      var i := 0;
      while i < |args|
        invariant 0 <= i <= |args| && Counting() && history == SettledBefore(args[..i])
        invariant master == MasterOf(length, history) ||
                  (i == |args| && remaining == 0 && master.Pending? && MasterOf(length, history).AllResolved?)
        invariant forall k: nat | i <= k < length && args[k].Plain? :: resolveValues[k] == Value(args[k].value)
      {
        Argument(args, i);
        i := i + 1;
      }
      assert args[..i] == args;
    }

    /** One round of the loop over the arguments. */
    method Argument(args: seq<Arg>, i: nat)
      requires Valid() && i < |args| == length && history == SettledBefore(args[..i])
      requires args[i].Plain? ==> resolveValues[i] == Value(args[i].value)
      modifies this
      ensures Counting() && history == SettledBefore(args[..i + 1])
      ensures master == MasterOf(length, history) ||
              (i + 1 == length && remaining == 0 && master.Pending? && MasterOf(length, history).AllResolved?)
      ensures forall k | 0 <= k < length && k != i :: resolveValues[k] == old(resolveValues[k])
    {
      SettledMore(args, i);
      match args[i] {
        case Plain(v) =>
          PlainArgument(i, v);
          if i + 1 < |args| {
            SettledMore(args, i + 1);
            NotAllYet(length, history, i + 1);
          }
        case Promise(None) =>
          assert history + [] == history;
        case Promise(Some(o)) => Settle(i, o);
      }
    }

    /** An ordinary value only counts down; the master is resolved after the loop. */
    method PlainArgument(i: nat, v: int)
      requires Valid() && i < length && !Known(history, i) && resolveValues[i] == Value(v)
      modifies this`remaining, this`history
      ensures Counting() && history == old(history) + [Event(i, Resolved(v))]
      ensures master == MasterOf(length, history) ||
              (remaining == 0 && master.Pending? && MasterOf(length, history).AllResolved?)
    {
      UnresolvedAfter(length, history, Event(i, Resolved(v)));
      MasterAfterPlain(length, history, Event(i, Resolved(v)));
      history := history + [Event(i, Resolved(v))];
      NothingUnresolved(length, history);
      remaining := remaining - 1;
    }

    /** `deferred.resolveWith`: only the first call has an effect. */
    method ResolveMaster()
      requires Counting() && remaining == 0
      requires master == MasterOf(length, history) || (master.Pending? && MasterOf(length, history).AllResolved?)
      modifies this`master
      ensures Valid()
    {
      NothingUnresolved(length, history);
      forall i: nat | i < length ensures ValueAt(history, i) != Waiting {
        assert i !in Unresolved(length, history);
      }
      assert resolveValues == Values(length, history);
      if master.Pending? {
        master := AllResolved(resolveValues);
      }
    }

    /** A deferred among the arguments settles, or had settled before: its done or fail callback runs. */
    method Settle(i: nat, outcome: Outcome)
      requires Valid() && i < length && !Known(history, i)
      modifies this
      ensures Valid() && history == old(history) + [Event(i, outcome)]
      ensures forall k | 0 <= k < length && k != i :: resolveValues[k] == old(resolveValues[k])
    {
      match outcome {
        case Resolved(v) => Update(i, v);
        case Rejected(e) => Reject(i, e);
      }
    }

    /** `updateFunc` for a resolve value. */
    method Update(i: nat, value: int)
      requires Valid() && i < length && !Known(history, i)
      modifies this
      ensures Valid() && history == old(history) + [Event(i, Resolved(value))]
      ensures resolveValues == old(resolveValues)[i := Value(value)]
    {
      ghost var e := Event(i, Resolved(value));
      UnresolvedAfter(length, history, e);
      MasterAfter(length, history, e);
      NothingUnresolved(length, history + [e]);
      history := history + [e];
      resolveValues := resolveValues[i := Value(value)];
      remaining := remaining - 1;
      if remaining == 0 {
        ResolveMaster();
      }
    }

    /** `deferred.reject` as the fail callback of an argument. */
    method Reject(i: nat, error: int)
      requires Valid() && i < length && !Known(history, i)
      modifies this`master, this`history
      ensures Valid() && history == old(history) + [Event(i, Rejected(error))]
    {
      UnresolvedAfter(length, history, Event(i, Rejected(error)));
      MasterAfter(length, history, Event(i, Rejected(error)));
      history := history + [Event(i, Rejected(error))];
      if master.Pending? {
        master := FirstRejected(error);
      }
    }
  }

  /** How one more settled argument changes the master: a rejection decides it unless it is decided, a resolution
      only when it is the last one. */
  lemma MasterAfter(n: nat, history: seq<Event>, e: Event)
    requires Once(n, history) && e.index < n && !Known(history, e.index)
    ensures var before, after := MasterOf(n, history), MasterOf(n, history + [e]);
            && !before.AllResolved?
            && (before.FirstRejected? ==> after == before)
            && (before.Pending? && e.outcome.Rejected? ==> after == FirstRejected(e.outcome.error))
            && (before.Pending? && e.outcome.Resolved? ==> !after.FirstRejected?)
  {
    assert (history + [e])[..|history|] == history;
  }

  lemma MasterAfterPlain(n: nat, history: seq<Event>, e: Event)
    requires Once(n, history) && e.index < n && !Known(history, e.index) && e.outcome.Resolved?
    ensures var before, after := MasterOf(n, history), MasterOf(n, history + [e]);
            after == before || (before.Pending? && after.AllResolved?)
  {
    MasterAfter(n, history, e);
  }

  // The master as a deferred

  /** What the callbacks of the arguments call on the master: reject for each rejection, and resolve when
      nothing is left to wait for. The resolved values stand for the one value that is passed. */
  function MasterCalls(n: nat, history: seq<Event>, values: int): seq<Deferred.Action> {
    if history == [] then []
    else
      var last := history[|history| - 1].outcome;
      MasterCalls(n, history[..|history| - 1], values) +
      if last.Rejected? then [Deferred.Fire(Deferred.Fail, last.error)]
      else if Unresolved(n, history) == {} then [Deferred.Fire(Deferred.Done, values)]
      else []
  }

  predicate Shows(d: Deferred.Deferred, m: Master, values: int) {
    match m
    case Pending => d.state == Deferred.Pending
    case AllResolved(_) => d.state == Deferred.Resolved && d.done.book.requested == [values]
    case FirstRejected(error) => d.state == Deferred.Rejected && d.fail.book.requested == [error]
  }

  lemma ShowsMore(run: seq<Deferred.Action>, w: Deferred.Which, value: int)
    requires w != Deferred.Progress
    ensures var d, d' := Deferred.After(run), Deferred.After(run + [Deferred.Fire(w, value)]);
            if d.state != Deferred.Pending then d' == d
            else d'.state == (if w == Deferred.Done then Deferred.Resolved else Deferred.Rejected) &&
                 d'.Get(w).book.requested == [value]
  {
    var a := Deferred.Fire(w, value);
    assert (run + [a])[..|run|] == run;
    Deferred.SettlesOnce(run, a);
  }

  lemma RejectShows(n: nat, init: seq<Event>, e: Event, run: seq<Deferred.Action>, values: int)
    requires Once(n, init) && e.index < n && !Known(init, e.index) && e.outcome.Rejected?
    requires Shows(Deferred.After(run), MasterOf(n, init), values)
    ensures var fail := Deferred.Fire(Deferred.Fail, e.outcome.error);
            Shows(Deferred.After(run + [fail]), MasterOf(n, init + [e]), values)
  {
    MasterAfter(n, init, e);
    ShowsMore(run, Deferred.Fail, e.outcome.error);
  }

  lemma ResolveShows(n: nat, init: seq<Event>, e: Event, run: seq<Deferred.Action>, values: int)
    requires Once(n, init) && e.index < n && !Known(init, e.index) && e.outcome.Resolved?
    requires Shows(Deferred.After(run), MasterOf(n, init), values) && MasterOf(n, init + [e]).AllResolved?
    ensures Shows(Deferred.After(run + [Deferred.Fire(Deferred.Done, values)]), MasterOf(n, init + [e]), values)
  {
    MasterAfter(n, init, e);
    ShowsMore(run, Deferred.Done, values);
  }

  lemma WaitShows(n: nat, init: seq<Event>, e: Event, d: Deferred.Deferred, values: int)
    requires Once(n, init) && e.index < n && !Known(init, e.index) && e.outcome.Resolved?
    requires Shows(d, MasterOf(n, init), values) && !MasterOf(n, init + [e]).AllResolved?
    ensures Shows(d, MasterOf(n, init + [e]), values)
  {
    MasterAfter(n, init, e);
  }

  /** The master that these calls settle is the deferred of Deferred: it is pending, resolved or rejected as the
      history says, with the first rejection or with the values. */
  lemma {:induction false} MasterIsDeferred(n: nat, history: seq<Event>, values: int)
    requires n > 0 && Once(n, history)
    ensures Shows(Deferred.After(MasterCalls(n, history, values)), MasterOf(n, history), values)
  {
    if history == [] {
      assert !Known(history, 0);
    } else {
      var init, e := history[..|history| - 1], history[|history| - 1];
      assert history == init + [e] && !Known(init, e.index);
      MasterIsDeferred(n, init, values);
      NothingUnresolved(n, history);
      var run := MasterCalls(n, init, values);
      if e.outcome.Rejected? {
        RejectShows(n, init, e, run, values);
      } else if Unresolved(n, history) == {} {
        ResolveShows(n, init, e, run, values);
      } else {
        WaitShows(n, init, e, Deferred.After(run), values);
        assert MasterCalls(n, history, values) == run + [] == run;
      }
    }
  }
}
