/** What several modules need: optional values, and finite sets of numbers listed in order. */
module Helpers {
  datatype Option<T> = None | Some(value: T)

  /** The members of `s` below `n` in order. */
  function InOrder(s: set<nat>, n: nat): (r: seq<nat>)
    ensures forall i | 0 <= i < |r| :: r[i] < n && r[i] in s
  {
    if n == 0 then [] else InOrder(s, n - 1) + if n - 1 in s then [n - 1] else []
  }

  lemma {:induction false} InOrderAll(s: set<nat>, n: nat)
    ensures var r := InOrder(s, n);
            && (forall i, j | 0 <= i < j < |r| :: r[i] < r[j])
            && forall i | 0 <= i < n && i in s :: i in r
  {
    if n > 0 {
      InOrderAll(s, n - 1);
    }
  }

  lemma InOrderHas(s: set<nat>, n: nat, i: nat)
    requires i in s && i < n
    ensures i in InOrder(s, n)
  {
    InOrderAll(s, n);
  }

  lemma {:induction false} InOrderSame(s: set<nat>, s': set<nat>, n: nat)
    requires forall i | 0 <= i < n :: i in s <==> i in s'
    ensures InOrder(s, n) == InOrder(s', n)
  {
    if n > 0 {
      InOrderSame(s, s', n - 1);
    }
  }

  lemma {:induction false} InOrderAtMostOne(s: set<nat>, n: nat, e: nat)
    requires e in s && e < n && forall i | i in s && i < n :: i == e
    ensures InOrder(s, n) == [e]
  {
    if e < n - 1 {
      InOrderAtMostOne(s, n - 1, e);
    } else {
      InOrderSame(s, {}, n - 1);
      InOrderEmpty({}, n - 1);
    }
  }

  lemma {:induction false} InOrderEmpty(s: set<nat>, n: nat)
    requires forall i | i in s :: i >= n
    ensures InOrder(s, n) == []
  {
    if n > 0 {
      InOrderEmpty(s, n - 1);
    }
  }
}
