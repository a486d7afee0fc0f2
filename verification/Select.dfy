/** Optimised selection: the ID shortcut, the seed set of the rightmost finder, and the plain search. */
module Select {
  import opened Helpers
  import opened Dom
  import opened Selectors
  import opened Matchers
  import opened DirCache
  import opened Sizzle

  /** A group of tokens, as the token cache holds it. */
  class TokenList {
    var tokens: seq<Token>

    constructor (tokens: seq<Token>)
      ensures this.tokens == tokens
    {
      this.tokens := tokens;
    }
  }

  /** The context of a search from one node. */
  function From(ctx: nat): Context {
    Context({ctx}, false, ctx == DOCUMENT)
  }

  /** The elements below `root`. */
  function Descendants(t: Tree, root: nat): set<nat> {
    set i: nat | i < |t| && t[i].element && Above(t, ParentNode, i, root)
  }

  /** What the search should give: every element below the context that some group selects. */
  ghost function Naive(t: Tree, ctx: nat, groups: seq<seq<Token>>): set<nat>
    requires forall g | g in groups :: |g| > 0
  {
    set i: nat | i < |t| && i in Descendants(t, ctx) && AnySelects(t, From(ctx), groups, i)
  }

  /** A single filter selects from the fields of the nodes. */
  lemma NaiveByFields(t: Tree, ctx: nat, name: string)
    ensures Naive(t, ctx, [[Filter(Tag("*"))]]) == Descendants(t, ctx)
    ensures name != "*" ==> Naive(t, ctx, [[Filter(Tag(name))]]) == set i | i in Descendants(t, ctx) && t[i].tag == name
    ensures Naive(t, ctx, [[Filter(Class(name))]]) == set i | i in Descendants(t, ctx) && name in t[i].classes
    ensures Naive(t, ctx, [[Filter(Id(name))]]) == set i | i in Descendants(t, ctx) && t[i].id == name
  {
    NaiveOne(t, ctx, Tag("*"));
    NaiveOne(t, ctx, Tag(name));
    NaiveOne(t, ctx, Class(name));
    NaiveOne(t, ctx, Id(name));
  }

  lemma NaiveOne(t: Tree, ctx: nat, f: Simple)
    ensures Naive(t, ctx, [[Filter(f)]]) == set i | i in Descendants(t, ctx) && Holds(t, f, i)
  {
    var groups := [[Filter(f)]];
    forall i: nat | i < |t| && i in Descendants(t, ctx)
      ensures AnySelects(t, From(ctx), groups, i) <==> Holds(t, f, i)
    {
      AnyOfOne(t, From(ctx), [Filter(f)], i);
      SelectsOne(t, From(ctx), Filter(f), i);
      AboveIsBefore(t, ParentNode, i, ctx);
      assert Related(t, Descendant, true, ctx, i);
    }
  }

  lemma AcceptedMore(t: Tree, cx: Context, matchers: seq<Matcher>, elems: seq<nat>, e: nat)
    requires e < |t| && forall i | 0 <= i < |elems| :: elems[i] < |t|
    ensures Accepted(t, cx, matchers, elems + [e]) ==
            Accepted(t, cx, matchers, elems) + if AnyAccepts(t, cx, matchers, e) then [e] else []
  {
    assert (elems + [e])[..|elems|] == elems;
  }

  /** Filtering a set in document order keeps the order. */
  lemma {:induction false} AcceptedInOrder(t: Tree, cx: Context, matchers: seq<Matcher>, s: set<nat>, s': set<nat>,
                                           n: nat)
    requires n <= |t|
    requires forall i: nat | i < n :: i in s' <==> i in s && AnyAccepts(t, cx, matchers, i)
    ensures Accepted(t, cx, matchers, InOrder(s, n)) == InOrder(s', n)
  {
    if n > 0 {
      AcceptedInOrder(t, cx, matchers, s, s', n - 1);
      if n - 1 in s {
        AcceptedMore(t, cx, matchers, InOrder(s, n - 1), n - 1);
      } else {
        assert InOrder(s, n) == InOrder(s, n - 1);
      }
    }
  }

  // Where selected nodes lie

  lemma RelatedInside(t: Tree, c: Comb, base: bool, a: nat, b: nat, root: nat)
    requires a < |t| && b < |t| && Related(t, c, base, a, b) && Above(t, ParentNode, a, root)
    ensures Above(t, ParentNode, b, root)
  {
    if c.Descendant? {
      AboveTransitive(t, ParentNode, b, a, root);
    }
  }

  /** The node before a node of the tree below `root` is below `root`, unless it is not below it at all. */
  lemma RelatedOutside(t: Tree, c: Comb, a: nat, b: nat)
    requires a < |t| && b < |t| && Related(t, c, false, a, b) && Above(t, ParentNode, b, DOCUMENT)
    ensures Above(t, ParentNode, a, DOCUMENT)
  {
    if c.Descendant? {
      BetweenAbove(t, b, a, DOCUMENT);
    }
  }

  lemma {:induction false} BetweenAbove(t: Tree, n: nat, a: nat, b: nat)
    requires n < |t| && a < |t| && Above(t, ParentNode, n, a) && Above(t, ParentNode, n, b) && b < a
    ensures Above(t, ParentNode, a, b)
    decreases n
  {
    var next := Step(t, ParentNode, n);
    if next == b {
      AboveIsBefore(t, ParentNode, next, a);
    } else if next != a {
      BetweenAbove(t, next, a, b);
    }
  }

  lemma {:induction false} ChainInside(t: Tree, links: seq<Link>, chain: seq<nat>, root: nat)
    requires Fits(t, links, chain) && Above(t, ParentNode, chain[0], root)
    ensures forall i | 0 <= i < |chain| :: Above(t, ParentNode, chain[i], root)
  {
    for i := 1 to |chain|
      invariant forall k | 0 <= k < i :: Above(t, ParentNode, chain[k], root)
    {
      RelatedInside(t, links[i].comb, false, chain[i - 1], chain[i], root);
    }
  }

  /** Everything that a selector without a leading combinator selects lies below the context. */
  lemma SelectedInside(t: Tree, ctx: nat, tokens: seq<Token>, n: nat)
    requires |tokens| > 0 && tokens[0].Filter? && n < |t| && ctx != DOCUMENT
    requires Selects(t, From(ctx), tokens, n)
    ensures Above(t, ParentNode, n, ctx)
  {
    var chain :| IsChain(t, From(ctx), tokens, chain) && chain[|chain| - 1] == n;
    FirstLink(tokens);
    ChainInside(t, Links(tokens), chain, ctx);
  }

  lemma {:induction false} FirstLink(tokens: seq<Token>)
    requires |tokens| > 0
    ensures Links(tokens)[0].comb == if tokens[0].Rel? then tokens[0].comb else Descendant
  {
    if |tokens| > 1 {
      FirstLink(tokens[..|tokens| - 1]);
    }
  }

  // The ID shortcut

  /** At most one element of the document has a given id. */
  ghost predicate UniqueIds(t: Tree) {
    forall i, j | i in Descendants(t, DOCUMENT) && j in Descendants(t, DOCUMENT) && t[i].id == t[j].id != "" :: i == j
  }

  ghost predicate HasId(t: Tree, id: string, n: nat) {
    n in Descendants(t, DOCUMENT) && t[n].id == id
  }

  lemma {:induction false} LinksAfterFirst(first: Token, rest: seq<Token>)
    requires first.Filter? && |rest| > 0 && rest[0].Rel?
    ensures Links([first] + rest) == [Link(Descendant, [first.filter])] + Links(rest)
  {
    var k := |rest| - 1;
    assert ([first] + rest)[..|rest|] == [first] + rest[..k];
    if k == 0 {
      assert [first] + rest[..k] == [first];
    } else {
      LinksAfterFirst(first, rest[..k]);
    }
  }

  lemma FitsTail(t: Tree, f: Simple, links: seq<Link>, e: nat, chain: seq<nat>)
    requires |links| > 0 && Fits(t, [Link(Descendant, [f])] + links, [e] + chain)
    ensures e < |t| && Holds(t, f, e) && Fits(t, links, chain) && Related(t, links[0].comb, false, e, chain[0])
  {
    var links', chain' := [Link(Descendant, [f])] + links, [e] + chain;
    assert HoldAll(t, links'[0].compound, chain'[0]) && [f][0] == f;
    forall i | 0 <= i < |chain| ensures chain[i] < |t| && HoldAll(t, links[i].compound, chain[i]) {
      assert chain[i] == chain'[i + 1] && links[i] == links'[i + 1];
    }
    forall i | 0 < i < |chain| ensures Related(t, links[i].comb, false, chain[i - 1], chain[i]) {
      assert Related(t, links'[i + 1].comb, false, chain'[i], chain'[i + 1]);
    }
    assert Related(t, links'[1].comb, false, chain'[0], chain'[1]);
  }

  lemma FitsCons(t: Tree, f: Simple, links: seq<Link>, e: nat, chain: seq<nat>)
    requires e < |t| && Holds(t, f, e) && Fits(t, links, chain) && Related(t, links[0].comb, false, e, chain[0])
    ensures Fits(t, [Link(Descendant, [f])] + links, [e] + chain)
  {
    var links', chain' := [Link(Descendant, [f])] + links, [e] + chain;
    forall i | 0 <= i < |chain'| ensures chain'[i] < |t| && HoldAll(t, links'[i].compound, chain'[i]) {
      if i > 0 {
        assert chain[i - 1] == chain'[i] && links[i - 1] == links'[i];
      }
    }
    forall i | 0 < i < |chain'| ensures Related(t, links'[i].comb, false, chain'[i - 1], chain'[i]) {
      if i > 1 {
        assert Related(t, links[i - 1].comb, false, chain[i - 2], chain[i - 1]);
      }
    }
  }

  /** A chain that ends in the document starts in the document. */
  lemma {:induction false} ChainOutside(t: Tree, links: seq<Link>, chain: seq<nat>)
    requires Fits(t, links, chain) && chain[|chain| - 1] in Descendants(t, DOCUMENT)
    ensures chain[0] in Descendants(t, DOCUMENT)
  {
    var i := |chain| - 1;
    while i > 0
      invariant 0 <= i < |chain| && chain[i] in Descendants(t, DOCUMENT)
    {
      RelatedOutside(t, links[i].comb, chain[i - 1], chain[i]);
      i := i - 1;
    }
  }

  lemma AnchoredAt(t: Tree, e: nat, c: Comb, n: nat)
    requires e < |t| && n < |t| && t[e].element
    ensures Anchored(t, From(e), true, c, n) <==> Related(t, c, false, e, n)
  {
    assert From(e).nodes == {e};
  }

  /** A chain from the document starts with the element that has the leading id. */
  lemma ChainAfterId(t: Tree, tokens: seq<Token>, e: nat, chain: seq<nat>)
    requires |tokens| > 1 && tokens[0].Filter? && tokens[0].filter.Id? && tokens[1].Rel?
    requires UniqueIds(t) && tokens[0].filter.id != "" && HasId(t, tokens[0].filter.id, e)
    requires IsChain(t, From(DOCUMENT), tokens, chain) && chain[|chain| - 1] in Descendants(t, DOCUMENT)
    ensures |chain| > 1 && IsChain(t, From(e), tokens[1..], chain[1..])
  {
    var rest := tokens[1..];
    LinksAfterFirst(tokens[0], rest);
    assert tokens == [tokens[0]] + rest;
    FirstLink(rest);
    assert chain == [chain[0]] + chain[1..];
    FitsTail(t, tokens[0].filter, Links(rest), chain[0], chain[1..]);
    ChainOutside(t, Links(tokens), chain);
    assert HasId(t, tokens[0].filter.id, chain[0]) && HasId(t, tokens[0].filter.id, e);
    assert chain[0] == e;
    AnchoredAt(t, e, rest[0].comb, chain[1]);
  }

  lemma ChainFromId(t: Tree, tokens: seq<Token>, e: nat, chain: seq<nat>)
    requires |tokens| > 1 && tokens[0].Filter? && tokens[0].filter.Id? && tokens[1].Rel? && tokens[0].filter.id != ""
    requires HasId(t, tokens[0].filter.id, e) && IsChain(t, From(e), tokens[1..], chain)
    ensures IsChain(t, From(DOCUMENT), tokens, [e] + chain)
  {
    var rest := tokens[1..];
    LinksAfterFirst(tokens[0], rest);
    assert tokens == [tokens[0]] + rest;
    FirstLink(rest);
    AnchoredAt(t, e, rest[0].comb, chain[0]);
    FitsCons(t, tokens[0].filter, Links(rest), e, chain);
  }

  /** Once the element with the leading id is known, searching from the document for the whole selector is
      searching from that element for the rest. */
  lemma IdShortcut(t: Tree, tokens: seq<Token>, n: nat, e: nat)
    requires |tokens| > 1 && tokens[0].Filter? && tokens[0].filter.Id? && tokens[1].Rel? && tokens[0].filter.id != ""
    requires UniqueIds(t) && n in Descendants(t, DOCUMENT) && HasId(t, tokens[0].filter.id, e)
    ensures Selects(t, From(DOCUMENT), tokens, n) <==> Selects(t, From(e), tokens[1..], n)
  {
    if Selects(t, From(DOCUMENT), tokens, n) {
      var chain := ChainTo(t, From(DOCUMENT), tokens, n);
      ChainAfterId(t, tokens, e, chain);
      ChainSelects(t, From(e), tokens[1..], chain[1..]);
    }
    if Selects(t, From(e), tokens[1..], n) {
      var chain := ChainTo(t, From(e), tokens[1..], n);
      ChainFromId(t, tokens, e, chain);
      ChainSelects(t, From(DOCUMENT), tokens, [e] + chain);
    }
  }

  /** Without an element with the leading id nothing is selected. */
  lemma NoId(t: Tree, tokens: seq<Token>, n: nat)
    requires |tokens| > 1 && tokens[0].Filter? && tokens[0].filter.Id? && tokens[1].Rel?
    requires n in Descendants(t, DOCUMENT) && Selects(t, From(DOCUMENT), tokens, n)
    ensures exists e :: HasId(t, tokens[0].filter.id, e)
  {
    var chain :| IsChain(t, From(DOCUMENT), tokens, chain) && chain[|chain| - 1] == n;
    var rest := tokens[1..];
    LinksAfterFirst(tokens[0], rest);
    assert tokens == [tokens[0]] + rest && chain == [chain[0]] + chain[1..];
    FitsTail(t, tokens[0].filter, Links(rest), chain[0], chain[1..]);
    ChainOutside(t, Links(tokens), chain);
    assert HasId(t, tokens[0].filter.id, chain[0]);
  }

  // The seed set

  lemma {:induction false} SelectsFilters(t: Tree, cx: Context, tokens: seq<Token>, filters: seq<Token>, n: nat)
    requires |tokens| > 0 && n < |t| && forall i | 0 <= i < |filters| :: filters[i].Filter?
    ensures Selects(t, cx, tokens + filters, n) <==>
            Selects(t, cx, tokens, n) && forall i | 0 <= i < |filters| :: Holds(t, filters[i].filter, n)
  {
    if filters == [] {
      assert tokens + filters == tokens;
    } else {
      var k := |filters| - 1;
      SelectsFilters(t, cx, tokens, filters[..k], n);
      assert tokens + filters == tokens + filters[..k] + [Filter(filters[k].filter)];
      SelectsFilter(t, cx, tokens + filters[..k], filters[k].filter, n);
      assert forall i | 0 <= i < k :: filters[..k][i] == filters[i];
    }
  }

  lemma SplitInner(t: Tree, cx: Context, pre: seq<Token>, f: Simple, post: seq<Token>, n: nat)
    requires |pre| > 0 && n < |t| && forall k | 0 <= k < |post| :: post[k].Filter?
    ensures Selects(t, cx, pre + [Filter(f)] + post, n) <==> Holds(t, f, n) && Selects(t, cx, pre + post, n)
  {
    SelectsFilters(t, cx, pre + [Filter(f)], post, n);
    SelectsFilter(t, cx, pre, f, n);
    SelectsFilters(t, cx, pre, post, n);
  }

  lemma SplitFirst(t: Tree, cx: Context, f: Simple, post: seq<Token>, n: nat)
    requires n < |t| && forall k | 0 <= k < |post| :: post[k].Filter?
    ensures Selects(t, cx, [Filter(f)] + post, n) <==>
            Holds(t, f, n) && if post == [] then Anchored(t, cx, false, Descendant, n) else Selects(t, cx, post, n)
  {
    SelectsOne(t, cx, Filter(f), n);
    SelectsFilters(t, cx, [Filter(f)], post, n);
    if post != [] {
      assert post == [post[0]] + post[1..];
      SelectsOne(t, cx, post[0], n);
      SelectsFilters(t, cx, [post[0]], post[1..], n);
      assert forall k | 0 < k < |post| :: post[k] == post[1..][k - 1];
    }
  }

  /** A filter of the rightmost compound can be tested apart from the rest. */
  lemma SplitFilter(t: Tree, cx: Context, tokens: seq<Token>, i: nat, n: nat)
    requires i < |tokens| && n < |t| && forall k | i <= k < |tokens| :: tokens[k].Filter?
    ensures Selects(t, cx, tokens, n) <==>
            && Holds(t, tokens[i].filter, n)
            && if |tokens| == 1 then Anchored(t, cx, false, Descendant, n)
               else Selects(t, cx, tokens[..i] + tokens[i + 1..], n)
  {
    var f, post := tokens[i].filter, tokens[i + 1..];
    assert tokens == tokens[..i] + [Filter(f)] + post;
    if i > 0 {
      SplitInner(t, cx, tokens[..i], f, post, n);
    } else {
      assert tokens == [Filter(f)] + post && tokens[..0] + post == post;
      SplitFirst(t, cx, f, post, n);
    }
  }

  // The method

  /** `Expr.find`: the elements below `root`, in document order; None when there is no finder for the filter,
      as for an ID below anything but the document. */
  function Find(t: Tree, f: Simple, root: nat): (r: Option<seq<nat>>)
    ensures r.Some? ==> forall i | 0 <= i < |r.value| :: r.value[i] < |t|
  {
    var all := InOrder(set i | i in Descendants(t, root) && i < |t| && Holds(t, f, i), |t|);
    match f
    case Id(_) => if root != DOCUMENT then None else Some(if all == [] then [] else [all[0]])
    case Class(_) => Some(all)
    case Tag(_) => Some(all)
    case Pure(_) => None
  }

  /** What a finder returns when it returns something: the elements below the root that pass the filter. */
  lemma {:induction false} FindMeaning(t: Tree, f: Simple, root: nat)
    requires UniqueIds(t) && f != Id("")
    ensures var r := Find(t, f, root);
            r.Some? ==> r.value == InOrder(set i | i in Descendants(t, root) && i < |t| && Holds(t, f, i), |t|)
  {
    var s := set i | i in Descendants(t, root) && i < |t| && Holds(t, f, i);
    if f.Id? && root == DOCUMENT {
      if e :| e in s {
        InOrderAtMostOne(s, |t|, e);
      } else {
        InOrderEmpty(s, |t|);
      }
    }
  }

  /** `rsibling.test`: some combinator looks at siblings. */
  predicate HasSibling(tokens: seq<Token>) {
    exists k | 0 <= k < |tokens| :: tokens[k].Rel? && tokens[k].comb.Dir() == PreviousSibling
  }

  /** `rsibling` on the first token. */
  predicate LeadsAside(tokens: seq<Token>)
    requires |tokens| > 0
  {
    tokens[0].Rel? && tokens[0].comb.Dir() == PreviousSibling
  }

  /** Where the elements are looked for: below the context, or below its parent. */
  function Root(t: Tree, context: nat, expand: bool): (r: nat)
    requires context < |t|
    ensures r < |t|
  {
    if expand && t[context].parent >= 0 then t[context].parent else context
  }

  lemma BelowRoot(t: Tree, context: nat, expand: bool)
    requires context < |t|
    ensures Descendants(t, context) <= Descendants(t, Root(t, context, expand))
  {
    forall i | i in Descendants(t, context) ensures i in Descendants(t, Root(t, context, expand)) {
      if Root(t, context, expand) != context {
        AboveTransitive(t, ParentNode, i, context, t[context].parent);
      }
    }
  }

  /** Filtering `pool` by `lists`, searched from `context`, gives what the naive search gives. */
  ghost predicate Reduced(t: Tree, ctx: nat, groups: seq<seq<Token>>, context: nat, pool: set<nat>,
                          lists: seq<seq<Token>>)
    requires (forall g | g in groups :: |g| > 0) && forall g | g in lists :: |g| > 0
  {
    forall i: nat | i < |t| :: i in Naive(t, ctx, groups) <==> i in pool && AnySelects(t, From(context), lists, i)
  }

  lemma {:induction false} ReducedPlain(t: Tree, ctx: nat, groups: seq<seq<Token>>, expand: bool)
    requires ctx < |t| && forall g: seq<Token> | g in groups :: |g| > 0 && g[0].Filter?
    ensures Reduced(t, ctx, groups, ctx, Descendants(t, Root(t, ctx, expand)), groups)
  {
    BelowRoot(t, ctx, expand);
    forall i: nat | i < |t| && i in Descendants(t, Root(t, ctx, expand)) && AnySelects(t, From(ctx), groups, i)
      ensures i in Descendants(t, ctx)
    {
      var g :| g in groups && Selects(t, From(ctx), g, i);
      if ctx != DOCUMENT {
        SelectedInside(t, ctx, g, i);
      }
    }
  }

  /** Everything that a selector with a leading combinator selects lies below the parent of the context,
      or below the context itself when that combinator does not look at siblings. */
  lemma SelectedNear(t: Tree, e: nat, tokens: seq<Token>, n: nat)
    requires |tokens| > 0 && tokens[0].Rel? && n < |t| && e < |t| && t[e].element
    requires Selects(t, From(e), tokens, n)
    ensures if LeadsAside(tokens) then t[e].parent >= 0 && Above(t, ParentNode, n, t[e].parent)
            else Above(t, ParentNode, n, e)
  {
    var chain :| IsChain(t, From(e), tokens, chain) && chain[|chain| - 1] == n;
    FirstLink(tokens);
    AnchoredAt(t, e, tokens[0].comb, chain[0]);
    ChainInside(t, Links(tokens), chain, if LeadsAside(tokens) then t[e].parent else e);
  }

  lemma ReducedById(t: Tree, tokens: seq<Token>, e: nat, expand: bool)
    requires |tokens| > 1 && tokens[0].Filter? && tokens[0].filter.Id? && tokens[1].Rel? && tokens[0].filter.id != ""
    requires UniqueIds(t) && HasId(t, tokens[0].filter.id, e) && (LeadsAside(tokens[1..]) ==> expand)
    ensures Reduced(t, DOCUMENT, [tokens], e, Descendants(t, Root(t, e, expand)), [tokens[1..]])
  {
    var root := Root(t, e, expand);
    forall i: nat | i < |t|
      ensures i in Naive(t, DOCUMENT, [tokens]) <==>
              i in Descendants(t, root) && AnySelects(t, From(e), [tokens[1..]], i)
    {
      if i in Descendants(t, DOCUMENT) {
        IdShortcut(t, tokens, i, e);
      }
      if i in Descendants(t, root) {
        RootInDocument(t, e, expand);
      }
      if t[i].element && Selects(t, From(e), tokens[1..], i) {
        SelectedNear(t, e, tokens[1..], i);
        BelowRoot(t, e, expand);
      }
      assert tokens[1..] in [tokens[1..]] && tokens in [tokens];
    }
  }

  lemma RootInDocument(t: Tree, e: nat, expand: bool)
    requires e in Descendants(t, DOCUMENT)
    ensures Descendants(t, Root(t, e, expand)) <= Descendants(t, DOCUMENT)
  {
    var root := Root(t, e, expand);
    forall i | i in Descendants(t, root) ensures i in Descendants(t, DOCUMENT) {
      if root != DOCUMENT {
        AboveTransitive(t, ParentNode, i, root, DOCUMENT);
      }
    }
  }

  lemma NothingById(t: Tree, tokens: seq<Token>)
    requires |tokens| > 1 && tokens[0].Filter? && tokens[0].filter.Id? && tokens[1].Rel?
    requires !exists e :: HasId(t, tokens[0].filter.id, e)
    ensures Naive(t, DOCUMENT, [tokens]) == {}
  {
    if n :| n in Naive(t, DOCUMENT, [tokens]) {
      NoId(t, tokens, n);
    }
  }

  lemma AnyOfOne(t: Tree, cx: Context, tokens: seq<Token>, n: nat)
    requires n < |t| && |tokens| > 0
    ensures AnySelects(t, cx, [tokens], n) <==> Selects(t, cx, tokens, n)
  {
    assert tokens in [tokens];
  }

  lemma SeedOne(t: Tree, context: nat, tokens: seq<Token>, i: nat, n: nat)
    requires n < |t| && n in Descendants(t, context)
    requires i < |tokens| && forall k | i <= k < |tokens| :: tokens[k].Filter?
    ensures AnySelects(t, From(context), [tokens], n) <==>
            && Holds(t, tokens[i].filter, n)
            && (|tokens| > 1 ==> AnySelects(t, From(context), [tokens[..i] + tokens[i + 1..]], n))
  {
    SplitFilter(t, From(context), tokens, i, n);
    AnyOfOne(t, From(context), tokens, n);
    if |tokens| > 1 {
      AnyOfOne(t, From(context), tokens[..i] + tokens[i + 1..], n);
    } else {
      AboveIsBefore(t, ParentNode, n, context);
      assert context in From(context).nodes && Related(t, Descendant, true, context, n);
    }
  }

  /** Taking the seed from the filter at `i` and testing the rest. */
  lemma ReducedBySeed(t: Tree, ctx: nat, groups: seq<seq<Token>>, context: nat, tokens: seq<Token>, i: nat,
                      seed: set<nat>)
    requires (forall g | g in groups :: |g| > 0) && |tokens| > 0
    requires Reduced(t, ctx, groups, context, Descendants(t, context), [tokens])
    requires i < |tokens| && forall k | i <= k < |tokens| :: tokens[k].Filter?
    requires seed == set n | n in Descendants(t, context) && n < |t| && Holds(t, tokens[i].filter, n)
    ensures |tokens| == 1 ==> forall n: nat | n < |t| :: n in Naive(t, ctx, groups) <==> n in seed
    ensures |tokens| > 1 ==> Reduced(t, ctx, groups, context, seed, [tokens[..i] + tokens[i + 1..]])
    ensures seed == {} ==> Naive(t, ctx, groups) == {}
  {
    forall n: nat | n < |t|
      ensures n in Naive(t, ctx, groups) <==>
              && n in seed
              && (|tokens| > 1 ==> AnySelects(t, From(context), [tokens[..i] + tokens[i + 1..]], n))
    {
      if n in Descendants(t, context) {
        SeedOne(t, context, tokens, i, n);
      }
    }
  }

  lemma ReducedResult(t: Tree, ctx: nat, groups: seq<seq<Token>>, context: nat, pool: set<nat>, lists: seq<seq<Token>>,
                      matchers: seq<Matcher>)
    requires (forall g | g in groups :: |g| > 0) && forall g | g in lists :: |g| > 0
    requires Reduced(t, ctx, groups, context, pool, lists) && AcceptsAny(matchers, lists)
    ensures Accepted(t, From(context), matchers, InOrder(pool, |t|)) == InOrder(Naive(t, ctx, groups), |t|)
  {
    AcceptedInOrder(t, From(context), matchers, pool, Naive(t, ctx, groups), |t|);
  }

  /** `needsContext`: the text starts with a combinator other than the descendant one. */
  predicate NeedsContext(tokens: seq<Token>) {
    |tokens| > 0 && tokens[0].Rel? && !tokens[0].comb.Descendant?
  }

  function TokensOf(groups: seq<TokenList>): (r: seq<seq<Token>>)
    reads groups
    ensures |r| == |groups| && forall i | 0 <= i < |r| :: r[i] == groups[i].tokens
    ensures (forall g | g in groups :: Admissible(g.tokens)) ==> forall ts | ts in r :: Admissible(ts)
  {
    if groups == [] then [] else [groups[0].tokens] + TokensOf(groups[1..])
  }

  /** The groups the optimised search is promised for: no leading combinator, and ids are not empty. */
  predicate Admissible(tokens: seq<Token>) {
    && |tokens| > 0 && tokens[0].Filter?
    && NoEmptyId(tokens)
  }

  predicate NoEmptyId(tokens: seq<Token>) {
    forall k | 0 <= k < |tokens| && tokens[k].Filter? :: tokens[k].filter != Id("")
  }

  lemma NothingFound(t: Tree, ts: seq<Token>)
    requires |t| > 0 && UniqueIds(t) && Admissible(ts) && |ts| > 2 && ts[0].filter.Id? && ts[1].Rel?
    requires Find(t, ts[0].filter, DOCUMENT) == Some([])
    ensures Naive(t, DOCUMENT, [ts]) == {}
  {
    FindMeaning(t, ts[0].filter, DOCUMENT);
    forall e | HasId(t, ts[0].filter.id, e) ensures false {
      InOrderHas(set i | i in Descendants(t, DOCUMENT) && i < |t| && Holds(t, ts[0].filter, i), |t|, e);
    }
    NothingById(t, ts);
  }

  /** The shortcut for a leading ID: None when nothing can match, else the new context. */
  method LeadingId(t: Tree, tokens: TokenList, ctx: nat) returns (context: Option<nat>)
    requires ctx < |t| && (ctx == DOCUMENT || t[ctx].element) && UniqueIds(t)
    requires Admissible(tokens.tokens)
    modifies tokens
    ensures |tokens.tokens| > 0 && NoEmptyId(tokens.tokens)
    ensures context.None? ==> Naive(t, ctx, [old(tokens.tokens)]) == {}
    ensures context.Some? ==> context.value < |t|
    ensures context.Some? ==>
              forall expand: bool | LeadsAside(tokens.tokens) ==> expand ::
                Reduced(t, ctx, [old(tokens.tokens)], context.value, Descendants(t, Root(t, context.value, expand)),
                        [tokens.tokens])
  {
    var ts := tokens.tokens;
    if |ts| > 2 && ts[0].filter.Id? && ctx == DOCUMENT && ts[1].Rel? {
      var found := Find(t, ts[0].filter, ctx).value;
      FindMeaning(t, ts[0].filter, ctx);
      if found == [] {
        NothingFound(t, ts);
        return None;
      }
      context := Some(found[0]);
      forall expand: bool | LeadsAside(ts[1..]) ==> expand {
        ReducedById(t, ts, found[0], expand);
      }
      tokens.tokens := ts[1..];
    } else {
      context := Some(ctx);
      forall expand: bool {
        ReducedPlain(t, ctx, [ts], expand);
      }
    }
  }

  /** Looks for the rightmost filter with a finder, up to the first combinator: its elements are the seed,
      and it leaves the list. */
  method FindSeed(t: Tree, tokens: TokenList, context: nat) returns (seed: Option<seq<nat>>)
    requires context < |t| && UniqueIds(t) && |tokens.tokens| > 0 && NoEmptyId(tokens.tokens)
    modifies tokens
    ensures seed.None? ==> tokens.tokens == old(tokens.tokens)
    ensures seed.Some? ==> !LeadsAside(old(tokens.tokens))
    ensures seed.Some? ==>
              exists i | 0 <= i < |old(tokens.tokens)| ::
                Seeded(t, old(tokens.tokens), context, i, seed.value, tokens.tokens)
  {
    var ts := tokens.tokens;
    var i := if NeedsContext(ts) then 0 else |ts|;
    while i > 0
      invariant 0 <= i <= |ts| && tokens.tokens == ts
      invariant if NeedsContext(ts) then i == 0 else forall k | i <= k < |ts| :: ts[k].Filter?
    {
      i := i - 1;
      if ts[i].Rel? {
        break;
      }
      var root := Root(t, context, LeadsAside(ts));
      seed := Find(t, ts[i].filter, root);
      if seed.Some? {
        FindMeaning(t, ts[i].filter, context);
        tokens.tokens := ts[..i] + ts[i + 1..];
        assert Seeded(t, ts, context, i, seed.value, tokens.tokens);
        return;
      }
    }
    seed := None;
  }

  /** `seed` is what the filter at `i` finds below the context, and `rest` is the list without it. */
  ghost predicate Seeded(t: Tree, tokens: seq<Token>, context: nat, i: nat, seed: seq<nat>, rest: seq<Token>)
    requires i < |tokens|
  {
    && (forall k | i <= k < |tokens| :: tokens[k].Filter?)
    && seed == InOrder(set n | n in Descendants(t, context) && n < |t| && Holds(t, tokens[i].filter, n), |t|)
    && rest == tokens[..i] + tokens[i + 1..]
  }

  /** Searches a compiled selector over `pool`. */
  method Search(engine: Engine, t: Tree, context: nat, lists: seq<seq<Token>>, elems: seq<nat>, results: seq<nat>)
    returns (out: seq<nat>, ghost matchers: seq<Matcher>)
    requires engine.Valid() && (forall g | g in lists :: |g| > 0) && forall i | 0 <= i < |elems| :: elems[i] < |t|
    modifies engine
    ensures engine.Valid() && AcceptsAny(matchers, lists)
    ensures out == results + Accepted(t, From(context), matchers, elems)
  {
    var sm := engine.Compile(lists);
    matchers := sm.elementMatchers;
    out := engine.SuperMatch(sm, t, From(context), elems, results);
  }

  /** Several groups, or none: every element below the context, or below its parent, is tested. */
  method SelectMany(engine: Engine, t: Tree, ctx: nat, lists: seq<seq<Token>>, siblingText: bool, results: seq<nat>)
    returns (out: seq<nat>)
    requires engine.Valid() && ctx < |t| && forall g | g in lists :: |g| > 0 && Admissible(g)
    modifies engine
    ensures engine.Valid() && out == results + InOrder(Naive(t, ctx, lists), |t|)
  {
    var expand := siblingText || exists g | g in lists :: HasSibling(g);
    ReducedPlain(t, ctx, lists, expand);
    var pool := Descendants(t, Root(t, ctx, expand));
    ghost var matchers;
    out, matchers := Search(engine, t, ctx, lists, InOrder(pool, |t|), results);
    ReducedResult(t, ctx, lists, ctx, pool, lists, matchers);
  }

  /** The search for a single group works on a copy of its tokens. */
  method SelectOne(engine: Engine, t: Tree, ctx: nat, group: TokenList, siblingText: bool, results: seq<nat>)
    returns (out: seq<nat>)
    requires engine.Valid() && ctx < |t| && (ctx == DOCUMENT || t[ctx].element) && UniqueIds(t)
    requires Admissible(group.tokens)
    modifies engine
    ensures engine.Valid()
    ensures out == results + InOrder(Naive(t, ctx, [group.tokens]), |t|)
  {
    var tokens := new TokenList(group.tokens);
    var context := LeadingId(t, tokens, ctx);
    if context.None? {
      InOrderEmpty({}, |t|);
      return results;
    }
    var rest := tokens.tokens;
    var seed := FindSeed(t, tokens, context.value);
    if seed.Some? {
      assert Root(t, context.value, false) == context.value;
      ghost var pool := SeedResult(t, ctx, group.tokens, context.value, rest, seed.value, tokens.tokens);
      if seed.value == [] || tokens.tokens == [] {
        return results + seed.value;
      }
      out := SearchFor(engine, t, ctx, group.tokens, context.value, tokens.tokens, pool, seed.value, results);
    } else {
      var expand := siblingText || HasSibling(rest);
      var pool := Descendants(t, Root(t, context.value, expand));
      out := SearchFor(engine, t, ctx, group.tokens, context.value, rest, pool, InOrder(pool, |t|), results);
    }
  }

  /** Searching a reduced problem gives the result of the original one. */
  method SearchFor(engine: Engine, t: Tree, ctx: nat, ghost g: seq<Token>, context: nat, tokens: seq<Token>,
                   ghost pool: set<nat>, elems: seq<nat>, results: seq<nat>) returns (out: seq<nat>)
    requires engine.Valid() && |g| > 0 && |tokens| > 0 && elems == InOrder(pool, |t|)
    requires Reduced(t, ctx, [g], context, pool, [tokens])
    modifies engine
    ensures engine.Valid() && out == results + InOrder(Naive(t, ctx, [g]), |t|)
  {
    ghost var matchers;
    out, matchers := Search(engine, t, context, [tokens], elems, results);
    ReducedResult(t, ctx, [g], context, pool, [tokens], matchers);
  }

  /** What is left to do once a seed has been found. */
  lemma SeedResult(t: Tree, ctx: nat, g: seq<Token>, context: nat, tokens: seq<Token>, seed: seq<nat>, rest: seq<Token>)
    returns (pool: set<nat>)
    requires |g| > 0 && |tokens| > 0 && Reduced(t, ctx, [g], context, Descendants(t, context), [tokens])
    requires exists i | 0 <= i < |tokens| :: Seeded(t, tokens, context, i, seed, rest)
    ensures seed == InOrder(pool, |t|)
    ensures if seed == [] || rest == [] then seed == InOrder(Naive(t, ctx, [g]), |t|)
            else Reduced(t, ctx, [g], context, pool, [rest])
  {
    var i :| 0 <= i < |tokens| && Seeded(t, tokens, context, i, seed, rest);
    pool := set n | n in Descendants(t, context) && n < |t| && Holds(t, tokens[i].filter, n);
    ReducedBySeed(t, ctx, [g], context, tokens, i, pool);
    if seed == [] {
      forall n | n in pool ensures false {
        InOrderHas(pool, |t|, n);
      }
      InOrderEmpty(Naive(t, ctx, [g]), |t|);
    } else if rest == [] {
      InOrderSame(pool, Naive(t, ctx, [g]), |t|);
    }
  }

  /** The optimised search. `siblingText` says that some filter contains a character that `rsibling` looks for.
      The result is what filtering every element below the context would give, in document order;
      the lists held by the token cache are left as they are. */
  method Select(engine: Engine, t: Tree, ctx: nat, groups: seq<TokenList>, siblingText: bool, results: seq<nat>)
    returns (out: seq<nat>)
    requires engine.Valid() && ctx < |t| && (ctx == DOCUMENT || t[ctx].element) && UniqueIds(t)
    requires forall g | g in groups :: Admissible(g.tokens)
    modifies engine
    ensures engine.Valid()
    ensures out == results + InOrder(Naive(t, ctx, TokensOf(groups)), |t|)
    ensures forall g | g in groups :: g.tokens == old(g.tokens)
  {
    if |groups| == 1 {
      assert TokensOf(groups) == [groups[0].tokens];
      out := SelectOne(engine, t, ctx, groups[0], siblingText, results);
    } else {
      out := SelectMany(engine, t, ctx, TokensOf(groups), siblingText, results);
    }
  }
}
