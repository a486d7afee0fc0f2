/** What a tokenized selector means (Selectors Level 3, section 8), independent of how it is compiled. */
module Selectors {
  import opened Dom

  /** A simple filter. `Pure` stands for any other filter that only looks at the node: the nodes it accepts. */
  datatype Simple = Id(id: string) | Class(name: string) | Tag(name: string) | Pure(accepted: set<nat>)

  datatype Comb = Descendant | Child | Adjacent | Sibling {
    function Dir(): Dir {
      if Descendant? || Child? then ParentNode else PreviousSibling
    }

    /** Only the closest element in the direction is examined. */
    predicate First() {
      Child? || Adjacent?
    }
  }

  datatype Token = Rel(comb: Comb) | Filter(filter: Simple)

  /** The context of a search: one node or an array of nodes. `whole` says that it is the document. */
  datatype Context = Context(nodes: set<nat>, many: bool, whole: bool)

  predicate Holds(t: Tree, f: Simple, n: nat)
    requires n < |t|
  {
    match f
    case Id(id) => t[n].id == id
    case Class(name) => name in t[n].classes
    case Tag(name) => name == "*" || t[n].tag == name
    case Pure(accepted) => n in accepted
  }

  /** A compound selector with the combinator on its left. */
  datatype Link = Link(comb: Comb, compound: seq<Simple>)

  /** A filter joins the rightmost compound. */
  function AddFilter(links: seq<Link>, f: Simple): (r: seq<Link>)
    requires |links| > 0
    ensures |r| == |links| && r[0].comb == links[0].comb
  {
    var k := |links| - 1;
    links[k := Link(links[k].comb, links[k].compound + [f])]
  }

  /** The compounds of a token list, left to right. A list without a leading combinator
      starts with an implied descendant combinator. */
  function Links(tokens: seq<Token>): (links: seq<Link>)
    requires |tokens| > 0
    ensures |links| > 0
  {
    var last := tokens[|tokens| - 1];
    if |tokens| == 1 then
      match last
      case Rel(c) => [Link(c, [])]
      case Filter(f) => [Link(Descendant, [f])]
    else
      var init := Links(tokens[..|tokens| - 1]);
      match last
      case Rel(c) => init + [Link(c, [])]
      case Filter(f) => AddFilter(init, f)
  }

  /** `a` stands to `b` as the combinator says. In base position `a` is the search context,
      which may be a node that is not an element. */
  predicate Related(t: Tree, c: Comb, base: bool, a: nat, b: nat)
    requires a < |t| && b < |t|
  {
    match c
    case Descendant => Above(t, ParentNode, b, a) && (base || t[a].element)
    case Child => t[b].parent == a && (base || t[a].element)
    case Sibling => a < b && 0 <= t[b].parent == t[a].parent && t[a].element
    case Adjacent =>
      && a < b && 0 <= t[b].parent == t[a].parent && t[a].element
      && forall k | a < k < b :: t[k].parent == t[b].parent ==> !t[k].element
  }

  predicate HoldAll(t: Tree, compound: seq<Simple>, n: nat)
    requires n < |t|
  {
    forall i | 0 <= i < |compound| :: Holds(t, compound[i], n)
  }

  /** The nodes of `chain` satisfy the compounds in order, each related to its predecessor. */
  ghost predicate Fits(t: Tree, links: seq<Link>, chain: seq<nat>) {
    && |chain| == |links| > 0
    && (forall i | 0 <= i < |chain| :: chain[i] < |t|)
    && (forall i | 0 <= i < |chain| :: HoldAll(t, links[i].compound, chain[i]))
    && (forall i | 0 < i < |chain| :: Related(t, links[i].comb, false, chain[i - 1], chain[i]))
  }

  /** The leftmost node is related to the context. Without a leading combinator a search of
      the whole document puts no condition on it. */
  ghost predicate Anchored(t: Tree, cx: Context, leading: bool, c: Comb, n: nat)
    requires n < |t|
  {
    (!leading && cx.whole) || exists a | a in cx.nodes && a < |t| :: Related(t, c, true, a, n)
  }

  ghost predicate IsChain(t: Tree, cx: Context, tokens: seq<Token>, chain: seq<nat>)
    requires |tokens| > 0
  {
    && Fits(t, Links(tokens), chain)
    && Anchored(t, cx, tokens[0].Rel?, Links(tokens)[0].comb, chain[0])
  }

  /** The meaning of a selector: some chain of nodes ending in `n` satisfies it. */
  ghost predicate Selects(t: Tree, cx: Context, tokens: seq<Token>, n: nat)
    requires |tokens| > 0
  {
    exists chain :: IsChain(t, cx, tokens, chain) && chain[|chain| - 1] == n
  }

  // The meaning of a token list from the meaning of the list without its last token

  lemma LinksSnoc(tokens: seq<Token>, token: Token)
    requires |tokens| > 0
    ensures Links(tokens + [token]) ==
            if token.Rel? then Links(tokens) + [Link(token.comb, [])] else AddFilter(Links(tokens), token.filter)
  {
    var longer := tokens + [token];
    assert longer[..|longer| - 1] == tokens && longer[|longer| - 1] == token && |longer| > 1;
  }

  lemma HoldAllSnoc(t: Tree, compound: seq<Simple>, f: Simple, n: nat)
    requires n < |t|
    ensures HoldAll(t, compound + [f], n) <==> HoldAll(t, compound, n) && Holds(t, f, n)
  {
    assert (compound + [f])[|compound|] == f;
    assert forall i | 0 <= i < |compound| :: (compound + [f])[i] == compound[i];
  }

  lemma FitsFilter(t: Tree, links: seq<Link>, f: Simple, chain: seq<nat>)
    requires |links| > 0
    ensures Fits(t, AddFilter(links, f), chain) <==> Fits(t, links, chain) && Holds(t, f, chain[|chain| - 1])
  {
    if |chain| == |links| && chain[|chain| - 1] < |t| {
      HoldAllSnoc(t, links[|links| - 1].compound, f, chain[|chain| - 1]);
    }
  }

  lemma SelectsOne(t: Tree, cx: Context, token: Token, n: nat)
    requires n < |t|
    ensures Selects(t, cx, [token], n) <==>
            match token
            case Rel(c) => Anchored(t, cx, true, c, n)
            case Filter(f) => Anchored(t, cx, false, Descendant, n) && Holds(t, f, n)
  {
    var links := Links([token]);
    if token.Filter? {
      assert links[0].compound == [token.filter];
      HoldAllSnoc(t, [], token.filter, n);
    }
    if Anchored(t, cx, token.Rel?, links[0].comb, n) && HoldAll(t, links[0].compound, n) {
      assert IsChain(t, cx, [token], [n]);
    }
  }

  lemma SelectsFilter(t: Tree, cx: Context, tokens: seq<Token>, f: Simple, n: nat)
    requires |tokens| > 0 && n < |t|
    ensures Selects(t, cx, tokens + [Filter(f)], n) <==> Selects(t, cx, tokens, n) && Holds(t, f, n)
  {
    LinksSnoc(tokens, Filter(f));
    forall chain: seq<nat> | |chain| > 0 && chain[|chain| - 1] == n
      ensures IsChain(t, cx, tokens + [Filter(f)], chain) <==> IsChain(t, cx, tokens, chain) && Holds(t, f, n)
    {
      FitsFilter(t, Links(tokens), f, chain);
    }
  }

  lemma FitsRel(t: Tree, links: seq<Link>, c: Comb, chain: seq<nat>, n: nat)
    requires n < |t|
    ensures Fits(t, links + [Link(c, [])], chain + [n]) <==>
            if links == [] then chain == [] else Fits(t, links, chain) && Related(t, c, false, chain[|chain| - 1], n)
  {
    var links', chain' := links + [Link(c, [])], chain + [n];
    if |chain| == |links| {
      assert forall i | 0 <= i < |chain| :: chain'[i] == chain[i] && links'[i] == links[i];
      assert chain'[|chain|] == n && links'[|links|] == Link(c, []);
    }
  }

  /** The chain of a selected node. */
  lemma ChainTo(t: Tree, cx: Context, tokens: seq<Token>, n: nat) returns (chain: seq<nat>)
    requires |tokens| > 0 && Selects(t, cx, tokens, n)
    ensures IsChain(t, cx, tokens, chain) && chain != [] && chain[|chain| - 1] == n
  {
    chain :| IsChain(t, cx, tokens, chain) && chain[|chain| - 1] == n;
  }

  lemma ChainSelects(t: Tree, cx: Context, tokens: seq<Token>, chain: seq<nat>)
    requires |tokens| > 0 && IsChain(t, cx, tokens, chain)
    ensures chain != [] && Selects(t, cx, tokens, chain[|chain| - 1])
  {
  }

  lemma ChainShorter(t: Tree, cx: Context, tokens: seq<Token>, c: Comb, init: seq<nat>, n: nat)
    requires |tokens| > 0 && n < |t| && IsChain(t, cx, tokens + [Rel(c)], init + [n])
    ensures IsChain(t, cx, tokens, init) && init != [] && Related(t, c, false, init[|init| - 1], n)
  {
    LinksSnoc(tokens, Rel(c));
    FitsRel(t, Links(tokens), c, init, n);
    assert (tokens + [Rel(c)])[0] == tokens[0];
  }

  lemma ChainLonger(t: Tree, cx: Context, tokens: seq<Token>, c: Comb, init: seq<nat>, n: nat)
    requires |tokens| > 0 && n < |t| && IsChain(t, cx, tokens, init)
    requires Related(t, c, false, init[|init| - 1], n)
    ensures IsChain(t, cx, tokens + [Rel(c)], init + [n])
  {
    LinksSnoc(tokens, Rel(c));
    FitsRel(t, Links(tokens), c, init, n);
    assert (tokens + [Rel(c)])[0] == tokens[0];
  }

  lemma SelectsRel(t: Tree, cx: Context, tokens: seq<Token>, c: Comb, n: nat)
    requires |tokens| > 0 && n < |t|
    ensures Selects(t, cx, tokens + [Rel(c)], n) <==>
            exists a: nat | a < |t| :: Related(t, c, false, a, n) && Selects(t, cx, tokens, a)
  {
    var longer := tokens + [Rel(c)];
    if Selects(t, cx, longer, n) {
      var chain := ChainTo(t, cx, longer, n);
      var init := chain[..|chain| - 1];
      assert chain == init + [n];
      ChainShorter(t, cx, tokens, c, init, n);
      ChainSelects(t, cx, tokens, init);
    }
    if a: nat :| a < |t| && Related(t, c, false, a, n) && Selects(t, cx, tokens, a) {
      var init := ChainTo(t, cx, tokens, a);
      ChainLonger(t, cx, tokens, c, init, n);
      ChainSelects(t, cx, longer, init + [n]);
    }
  }
}
