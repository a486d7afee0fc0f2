/** The handlers of one element and event type: delegated ones in front, in a single list edited in place. */
module HandlerList {
  import opened Helpers

  /** `selector` is empty for a handler bound directly, as when no selector is given: the source tells the two apart
      nowhere. A namespace list is a set of names. */
  datatype HandleObj = HandleObj(origType: string, guid: nat, namespaces: set<string>, selector: string) {
    predicate Delegated() {
      selector != ""
    }
  }

  /** The arguments of `remove` that select handlers. An empty selector selects any. */
  datatype Filter = Filter(mappedTypes: bool, origType: string, guid: Option<nat>, namespaces: set<string>,
                           selector: string)

  /** The condition under which `remove` takes a handler out. */
  predicate Selects(f: Filter, h: HandleObj) {
    && (f.mappedTypes || f.origType == h.origType)
    && (f.guid.None? || f.guid.value == h.guid)
    && f.namespaces <= h.namespaces
    && (f.selector == "" || f.selector == h.selector || (f.selector == "**" && h.Delegated()))
  }

  datatype Op = Adds(h: HandleObj) | Removes(f: Filter)

  function Without(hs: seq<HandleObj>, f: Filter): seq<HandleObj> {
    if hs == [] then []
    else (if Selects(f, hs[0]) then [] else [hs[0]]) + Without(hs[1..], f)
  }

  /** The handlers that a sequence of calls leaves, in the order in which they were added. */
  function Survivors(ops: seq<Op>): seq<HandleObj> {
    if ops == [] then []
    else
      var before := Survivors(ops[..|ops| - 1]);
      match ops[|ops| - 1]
      case Adds(h) => before + [h]
      case Removes(f) => Without(before, f)
  }

  /** The delegated handlers of a list, or the direct ones, in order. */
  function Part(hs: seq<HandleObj>, delegated: bool): (r: seq<HandleObj>)
    ensures forall h | h in r :: h.Delegated() == delegated
  {
    if hs == [] then []
    else (if hs[0].Delegated() == delegated then [hs[0]] else []) + Part(hs[1..], delegated)
  }

  lemma {:induction false} PartConcat(a: seq<HandleObj>, b: seq<HandleObj>, delegated: bool)
    ensures Part(a + b, delegated) == Part(a, delegated) + Part(b, delegated)
  {
    if a == [] {
      assert a + b == b;
    } else {
      assert (a + b)[0] == a[0] && (a + b)[1..] == a[1..] + b;
      PartConcat(a[1..], b, delegated);
    }
  }

  lemma {:induction false} WithoutConcat(a: seq<HandleObj>, b: seq<HandleObj>, f: Filter)
    ensures Without(a + b, f) == Without(a, f) + Without(b, f)
  {
    if a == [] {
      assert a + b == b;
    } else {
      assert (a + b)[0] == a[0] && (a + b)[1..] == a[1..] + b;
      WithoutConcat(a[1..], b, f);
    }
  }

  /** Taking handlers out of a part is the part of what is left. */
  lemma {:induction false} PartWithout(hs: seq<HandleObj>, f: Filter, delegated: bool)
    ensures Without(Part(hs, delegated), f) == Part(Without(hs, f), delegated)
  {
    if hs != [] {
      PartWithout(hs[1..], f, delegated);
      var head := if hs[0].Delegated() == delegated then [hs[0]] else [];
      assert Part(hs, delegated) == head + Part(hs[1..], delegated);
      WithoutConcat(head, Part(hs[1..], delegated), f);
      var kept := if Selects(f, hs[0]) then [] else [hs[0]];
      PartConcat(kept, Without(hs[1..], f), delegated);
      assert Without([hs[0]], f) == kept && Part([hs[0]], delegated) == head;
    }
  }

  class HandlerList {
    var handlers: seq<HandleObj>
    var delegateCount: int
    ghost var ops: seq<Op>

    /** The list is the surviving delegated handlers in add order, then the surviving direct ones in add order. */
    ghost predicate Valid()
      reads this
    {
      && handlers == Part(Survivors(ops), true) + Part(Survivors(ops), false)
      && delegateCount == |Part(Survivors(ops), true)|
    }

    constructor ()
      ensures Valid() && ops == []
    {
      handlers, delegateCount, ops := [], 0, [];
    }

    method Add(h: HandleObj)
      requires Valid()
      modifies this
      ensures Valid() && ops == old(ops) + [Adds(h)]
    {
      AddedLayout(Survivors(ops), h);
      assert (ops + [Adds(h)])[..|ops|] == ops;
      if h.Delegated() {
        handlers := handlers[..delegateCount] + [h] + handlers[delegateCount..];
        delegateCount := delegateCount + 1;
      } else {
        handlers := handlers + [h];
      }
      ops := ops + [Adds(h)];
    }

    /** `handlers.splice( j, 1 )` with the count of delegated handlers. */
    method Splice(j: nat)
      requires j < |handlers| && delegateCount == |Part(handlers, true)|
      modifies this`handlers, this`delegateCount
      ensures handlers == old(handlers)[..j] + old(handlers)[j + 1..] && delegateCount == |Part(handlers, true)|
    {
      var handleObj := handlers[j];
      assert handlers == handlers[..j] + ([handleObj] + handlers[j + 1..]);
      SplicedCount(handlers[..j], handleObj, handlers[j + 1..]);
      handlers := handlers[..j] + handlers[j + 1..];
      if handleObj.Delegated() {
        delegateCount := delegateCount - 1;
      }
    }

    method Remove(f: Filter)
      requires Valid()
      modifies this
      ensures Valid() && ops == old(ops) + [Removes(f)]
    {
      ghost var all, before := handlers, Survivors(ops);
      PartOfLayout(before);
      var j := |handlers|;
      assert all[..j] == all;
      while j > 0
        invariant 0 <= j <= |all| && handlers == all[..j] + Without(all[j..], f) && ops == old(ops)
        invariant delegateCount == |Part(handlers, true)|
      {
        j := j - 1;
        WithoutStep(all, j, f);
        if Selects(f, handlers[j]) {
          Splice(j);
        }
      }
      assert all[0..] == all;
      RemovedLayout(before, f);
      ops := ops + [Removes(f)];
      assert ops[..|ops| - 1] == old(ops);
    }

    /** The two halves that `handlers` works on: the first `delegateCount` entries and the rest. */
    method Split() returns (delegates: seq<HandleObj>, direct: seq<HandleObj>)
      requires Valid()
      ensures delegates == Part(Survivors(ops), true) && direct == Part(Survivors(ops), false)
      ensures (forall h | h in delegates :: h.Delegated()) && forall h | h in direct :: !h.Delegated()
    {
      delegates, direct := handlers[..delegateCount], handlers[delegateCount..];
    }
  }

  lemma {:induction false} AllOf(hs: seq<HandleObj>, delegated: bool)
    requires forall h | h in hs :: h.Delegated() == delegated
    ensures Part(hs, delegated) == hs && Part(hs, !delegated) == []
  {
    if hs != [] {
      AllOf(hs[1..], delegated);
    }
  }

  lemma {:induction false} AddedLayout(before: seq<HandleObj>, h: HandleObj)
    ensures Part(before + [h], true) == Part(before, true) + if h.Delegated() then [h] else []
    ensures Part(before + [h], false) == Part(before, false) + if h.Delegated() then [] else [h]
  {
    PartConcat(before, [h], true);
    PartConcat(before, [h], false);
  }

  lemma PartOfLayout(hs: seq<HandleObj>)
    ensures Part(Part(hs, true) + Part(hs, false), true) == Part(hs, true)
  {
    PartConcat(Part(hs, true), Part(hs, false), true);
    AllOf(Part(hs, true), true);
    AllOf(Part(hs, false), false);
  }

  /** One round of the loop of remove, from the back. */
  lemma WithoutStep(all: seq<HandleObj>, j: nat, f: Filter)
    requires j < |all|
    ensures var hs := all[..j + 1] + Without(all[j + 1..], f);
            && hs[j] == all[j]
            && all[..j] + Without(all[j..], f) == if Selects(f, all[j]) then hs[..j] + hs[j + 1..] else hs
  {
    var back := Without(all[j + 1..], f);
    assert all[j..][0] == all[j] && all[j..][1..] == all[j + 1..];
    assert all[..j + 1] + back == all[..j] + ([all[j]] + back);
    assert [] + back == back;
  }

  lemma SplicedCount(front: seq<HandleObj>, h: HandleObj, back: seq<HandleObj>)
    ensures |Part(front + ([h] + back), true)| == |Part(front + back, true)| + if h.Delegated() then 1 else 0
  {
    PartConcat(front, [h] + back, true);
    PartConcat([h], back, true);
    PartConcat(front, back, true);
  }

  lemma RemovedLayout(before: seq<HandleObj>, f: Filter)
    ensures var all := Part(before, true) + Part(before, false);
            && Without(all, f) == Part(Without(before, f), true) + Part(Without(before, f), false)
            && Part(Without(all, f), true) == Part(Without(before, f), true)
  {
    WithoutConcat(Part(before, true), Part(before, false), f);
    PartWithout(before, f, true);
    PartWithout(before, f, false);
    var a, b := Part(Without(before, f), true), Part(Without(before, f), false);
    PartConcat(a, b, true);
    AllOf(a, true);
    AllOf(b, false);
  }

  // What calls of remove leave

  /** Exactly the handlers that are not selected stay. */
  lemma {:induction false} StaysIff(hs: seq<HandleObj>, f: Filter, h: HandleObj)
    ensures h in Without(hs, f) <==> h in hs && !Selects(f, h)
  {
    if hs != [] {
      StaysIff(hs[1..], f, h);
      assert h in hs <==> h == hs[0] || h in hs[1..];
    }
  }

  /** And one that stays behind another was behind it before. */
  lemma OrderStays(a: seq<HandleObj>, h: HandleObj, b: seq<HandleObj>, f: Filter)
    requires !Selects(f, h)
    ensures Without(a + ([h] + b), f) == Without(a, f) + ([h] + Without(b, f))
  {
    WithoutConcat(a, [h] + b, f);
    assert ([h] + b)[1..] == b;
  }

  /** Removing a handler of one type, or of all types, leaves the other handlers and the other types. */
  lemma RemoveHandler(hs: seq<HandleObj>, origType: string, guid: nat, h: HandleObj)
    ensures h in Without(hs, Filter(false, origType, Some(guid), {}, "")) <==>
            h in hs && !(h.origType == origType && h.guid == guid)
    ensures h in Without(hs, Filter(true, origType, Some(guid), {}, "")) <==> h in hs && h.guid != guid
  {
    StaysIff(hs, Filter(false, origType, Some(guid), {}, ""), h);
    StaysIff(hs, Filter(true, origType, Some(guid), {}, ""), h);
  }

  /** Removing by namespaces leaves the handlers that lack one of them. */
  lemma RemoveNamespaces(hs: seq<HandleObj>, origType: string, namespaces: set<string>, h: HandleObj)
    ensures h in Without(hs, Filter(true, origType, None, namespaces, "")) <==>
            h in hs && exists n | n in namespaces :: n !in h.namespaces
  {
    StaysIff(hs, Filter(true, origType, None, namespaces, ""), h);
  }

  /** Removing by a selector leaves the handlers with another one and those without any. */
  lemma RemoveSelector(hs: seq<HandleObj>, origType: string, selector: string, h: HandleObj)
    requires selector != "" && selector != "**"
    ensures h in Without(hs, Filter(true, origType, None, {}, selector)) <==> h in hs && h.selector != selector
  {
    StaysIff(hs, Filter(true, origType, None, {}, selector), h);
  }

  /** `**` removes all delegated handlers and leaves the direct ones. */
  lemma {:induction false} RemoveDelegated(hs: seq<HandleObj>, origType: string)
    ensures Without(hs, Filter(true, origType, None, {}, "**")) == Part(hs, false)
  {
    if hs != [] {
      RemoveDelegated(hs[1..], origType);
    }
  }
}
