# Selector engine, callbacks and store-and-forward launcher: a verified model

This project models the algorithmic parts of two programs and proves what they are for.

**The engines inside jQuery 1.9.1** (`FIRSTAPP/src/main/webapp/js/jquery-1.9.1.js`):

- `Dom`, `Selectors`, `Matchers`: a finite ordered tree of nodes, what a tokenized selector means on it (section 8
  of Selectors Level 3), and what compiled matchers compute without a memo.
- `DirCache`: the memo of the ancestor and sibling walks, one slot for each node and direction that all combinators
  share, and the invariant that makes it right.
- `Sizzle`: the compiler and the evaluator as objects with their run counters and slots. `SharedRuns`: what happens
  to the memo when several elements are evaluated under one run number. `PositionalRuns`: positional groups whose
  filters are evaluated so.
- `Select`: the optimised search (ID shortcut, seed of the rightmost finder, early return) against the naive one.
- `SetMatchers`: positional filters on arrays of slots and the reintegration of mixed groups.
- `NthChild`: `:nth-child` with its cached indexes. `BoundedCache`: `createCache`.
- `Tokenizer`: `tokenize` and `toSelector`, on strings.
- `Callbacks`, `CallbackList`: `jQuery.Callbacks` cut where it calls a callback, so that every re-entrant behaviour is
  a sequence of operations; first as a state machine, then as the object with its closure variables.
  `CallbackMeaning`: what a list is meant to do, without indexes, and that every run does it.
- `Deferred`, `When`: the three lists of a deferred that settle each other, and the master of `jQuery.when`.
- `HandlerList`: the list of event handlers that `add`, `remove` and `handlers` share. `AjaxConvert`: the converter
  chain.

**The launcher's store-and-forward protocol to the SIB** (`launcher/src/main/java/com/indra/sofia2/kpmodelo`):

- `Sib`: a transition system of the send queue with its one thread, the link, the session, the listeners, the table,
  the four kinds of events handled in any order, and the clock. The environment chooses every answer and may drop the
  link, set the clock, submit messages and subscribe listeners between any two steps.
- `Launcher`: the same as an object whose methods are the source's methods, each proved to do the protocol's steps.

A method is proved against a function of the old state or of its inputs; the lemmas say what the source promises about
that function. Integers are unbounded where the source's numbers do not come near their limits; the remainder of
JavaScript is written out.

## What the proofs found

- The memo of the walks is right for the loop that takes a new run number for each element. It can miss elements when
  several share a run number, which happens when the pre-filter of a positional group is applied to a list
  (`SharedRuns.SharedRunNumber`). It never keeps a wrong one (`SharedRuns.NothingWrong`). A group without a memoised
  walk is always filtered rightly (`SharedRuns.NoWalk`); with one such walk exactly the lists without two entries
  whose walks share a stop below the same accepted node are (`SharedRuns.OneWalk`). With any number of walks the first
  match of a list is kept, so that a list with one match is filtered rightly (`SharedRuns.AnyWalks`). For a whole
  positional group, post-filters included, the condition is in `PositionalRuns.RunExactly`; without it `div p:last` can
  pick the wrong element (`PositionalRuns.WrongPick`).
- A positional filter that starts its group and is followed by another filter applies that filter to the results of
  the groups that ran before it too. It can undo them, or lose its own picks to them; `SetMatchers.EarlierResults`
  says exactly when it does neither, and `SetMatchers.LostMatch` and `SetMatchers.LostPick` show both failures.
- `tokenize` rejects a leading comma only if no whitespace precedes it (`Tokenizer.LeadingCommas`); a trailing comma
  that is not escaped is always rejected.
- `createCache` removes one entry at most, before it stores. It keeps to the limits that are set at its stores iff each
  is at least one and not below the number of entries held before (`BoundedCache.BoundedExactly`): a limit that is
  lowered in between is not kept (`BoundedCache.LoweredLimit`), and a limit of zero forgets nothing. With one limit for
  all stores the condition is that it is at least one (`BoundedCache.SizeBounded`).
- A row that was resent and acknowledged comes back if an older error event for the same message is handled after the
  deletion; without such an event the table drains (`Sib.DrainsExactly`). `Sib.UndrainedRow` is a run to such a state.
- A connect registers every listener once exactly if none is subscribed while it is under way (`Sib.ConnectExactly`,
  over whole runs `Sib.ListenersExactly`); one that is, is registered twice (`Sib.LateListener`).

## Model

| member | source | states |
|---|---|---|
| `Dom.LastChildBefore` | FIRSTAPP/src/main/webapp/js/jquery-1.9.1.js:4551-4556 | the previous sibling of a node: the closest earlier node with the same parent, and none in between |
| `Dom.SiblingsAbove` | FIRSTAPP/src/main/webapp/js/jquery-1.9.1.js:5120-5121 | walking `previousSibling` meets exactly the earlier nodes with the same parent |
| `Selectors.SelectsOne` | FIRSTAPP/src/main/webapp/js/jquery-1.9.1.js:5269-5288 | what a list of one token selects: a filter that holds, or a combinator that leads to the context |
| `Selectors.SelectsFilter` | FIRSTAPP/src/main/webapp/js/jquery-1.9.1.js:5290-5315 | adding a simple filter to a selector selects the nodes that were selected and pass the filter |
| `Selectors.SelectsRel` | FIRSTAPP/src/main/webapp/js/jquery-1.9.1.js:5290-5292 | adding a combinator selects the nodes that are related by it to a selected node (section 8 of Selectors Level 3) |
| `Matchers.WalkAll` | FIRSTAPP/src/main/webapp/js/jquery-1.9.1.js:5112-5119 | the uncached walk of a combinator accepts iff some node above at which it stops is accepted |
| `Matchers.WalkFirst` | FIRSTAPP/src/main/webapp/js/jquery-1.9.1.js:5096-5104 | the walk of `>` and `+` accepts iff the closest node above at which it stops is accepted |
| `Matchers.CombineMeaning` | FIRSTAPP/src/main/webapp/js/jquery-1.9.1.js:5091-5119 | a combinator matcher accepts a node iff a node that stands to it as the combinator says is accepted by the inner matcher |
| `Matchers.FoundationMeaning` | FIRSTAPP/src/main/webapp/js/jquery-1.9.1.js:5276-5288 | the first matcher of a group accepts exactly the nodes that are related to the context, one node or an array, as a leading or implied combinator demands |
| `DirCache.EvalOk` | FIRSTAPP/src/main/webapp/js/jquery-1.9.1.js:5107-5138 | the memoised evaluation gives the answer of the uncached one and keeps what every slot means: `true` for a match, a run number for a failure, and after a failure the current run number for a node above which nothing matches |
| `DirCache.EvalLastOk` | FIRSTAPP/src/main/webapp/js/jquery-1.9.1.js:5141-5153 | the same for a list of matchers that is evaluated last one first |
| `DirCache.WalkOk` | FIRSTAPP/src/main/webapp/js/jquery-1.9.1.js:5121-5136 | the same for one walk under way, which relies only on the slots of the nodes that it has not passed |
| `DirCache.NextElement` | FIRSTAPP/src/main/webapp/js/jquery-1.9.1.js:5355-5358 | a new run number turns all slots of the search into settled ones, whatever was found before |
| `SharedRuns.Condense` | FIRSTAPP/src/main/webapp/js/jquery-1.9.1.js:5155-5174 | condense with a compiled filter: the kept elements, their indexes and the slots that evaluating the elements one after the other, under one run number, gives |
| `SharedRuns.YesOnly` | FIRSTAPP/src/main/webapp/js/jquery-1.9.1.js:5120-5137 | under any run number a matcher answers `true` only for a node that matches, if the slots that say `true` do |
| `SharedRuns.NothingWrong` | FIRSTAPP/src/main/webapp/js/jquery-1.9.1.js:5155-5174 | what condense keeps does match, for every compiled matcher, list and run number: only misses are possible |
| `SharedRuns.UnmemoisedEval` | FIRSTAPP/src/main/webapp/js/jquery-1.9.1.js:5096-5104 | a matcher that reaches no memoised walk answers what the uncached evaluation answers, under any run number, and leaves the slots alone |
| `SharedRuns.UnmemoisedCondense` | FIRSTAPP/src/main/webapp/js/jquery-1.9.1.js:5155-5174 | so condense keeps exactly what matches, for every tree and list |
| `SharedRuns.NoWalk` | FIRSTAPP/src/main/webapp/js/jquery-1.9.1.js:5269-5319 | the same, read from the tokens: no descendant or sibling combinator, and a foundation that the search of the whole document skips or that looks at one node only |
| `SharedRuns.AskedEval` | FIRSTAPP/src/main/webapp/js/jquery-1.9.1.js:5096-5153 | asking a matcher with one memoised walk is asking that walk about one node, or about none |
| `SharedRuns.RefusedAt` | FIRSTAPP/src/main/webapp/js/jquery-1.9.1.js:5120-5137 | the nodes that a walk refuses are its stops below the node that it finds, and the walk from any of them goes on to the same node |
| `SharedRuns.WalkNoted` | FIRSTAPP/src/main/webapp/js/jquery-1.9.1.js:5120-5137 | a walk under a shared run number finds its node iff none of its stops below that node has a slot, and afterwards all its stops have one |
| `SharedRuns.ListNoted` | FIRSTAPP/src/main/webapp/js/jquery-1.9.1.js:5155-5174 | which entries of a list condense keeps, and which slots it leaves |
| `SharedRuns.SharedExactly` | FIRSTAPP/src/main/webapp/js/jquery-1.9.1.js:5155-5174 | for every matcher with one memoised walk, condense keeps exactly what matches iff no two entries of the list make the walk end at the same accepted node and share a stop strictly below it |
| `SharedRuns.OneWalk` | FIRSTAPP/src/main/webapp/js/jquery-1.9.1.js:5269-5319 | the same condition for the compiled matcher of any group with one such walk, wherever it is |
| `SharedRuns.FirstKept` | FIRSTAPP/src/main/webapp/js/jquery-1.9.1.js:5155-5174 | for every registered matcher, with any number of walks: condense keeps nothing iff nothing matches, and the first entry that it keeps is the first one that matches |
| `SharedRuns.AtMostOne` | FIRSTAPP/src/main/webapp/js/jquery-1.9.1.js:5155-5174 | so a list in which at most one entry matches is filtered rightly by every matcher |
| `SharedRuns.AnyWalks` | FIRSTAPP/src/main/webapp/js/jquery-1.9.1.js:5269-5319 | the same for the compiled matcher of any group, about the entries that its tokens select: none is kept wrongly, the first one is kept, and all are if there is only one |
| `SharedRuns.SharedRunNumber` | FIRSTAPP/src/main/webapp/js/jquery-1.9.1.js:5183-5195 | a counterexample: `div p`, compiled, filters two `p` elements inside a `span` inside a `div` and keeps only the first |
| `Sizzle.ExtendedCompiles` | FIRSTAPP/src/main/webapp/js/jquery-1.9.1.js:5290-5315 | one more token keeps the list of matchers equivalent to the tokens |
| `Sizzle.BuildingCompiles` | FIRSTAPP/src/main/webapp/js/jquery-1.9.1.js:5269-5319 | the list of matchers after any number of tokens accepts what those tokens select |
| `Sizzle.CompiledMeaning` | FIRSTAPP/src/main/webapp/js/jquery-1.9.1.js:5269-5319 | the matcher that the tokens determine accepts a node iff they select it |
| `Sizzle.CompilesRel` | FIRSTAPP/src/main/webapp/js/jquery-1.9.1.js:5291-5292 | wrapping the matchers so far in a combinator matcher accepts what the tokens with that combinator select |
| `Sizzle.CompilesFilter` | FIRSTAPP/src/main/webapp/js/jquery-1.9.1.js:5294-5314 | a pushed filter narrows the compiled matchers to what the longer token list selects |
| `Sizzle.Engine.AddCombinator` | FIRSTAPP/src/main/webapp/js/jquery-1.9.1.js:5091-5094 | a combinator matcher under a number that no other one has |
| `Sizzle.Engine.MakeFoundation` | FIRSTAPP/src/main/webapp/js/jquery-1.9.1.js:5271-5288 | a first matcher that accepts what the first token alone selects |
| `Sizzle.Engine.AddToken` | FIRSTAPP/src/main/webapp/js/jquery-1.9.1.js:5290-5315 | one round of the compiling loop makes the list that the token determines, with registered combinators |
| `Sizzle.Engine.MatcherFromTokens` | FIRSTAPP/src/main/webapp/js/jquery-1.9.1.js:5269-5319 | the compiled matcher accepts a node iff some chain of nodes satisfies the compounds under the combinators, with the leftmost one related to the context, for every tree, context and node |
| `Sizzle.Engine.Match` | FIRSTAPP/src/main/webapp/js/jquery-1.9.1.js:5107-5153 | asking a matcher gives the answer and the slots of the memoised evaluation |
| `Sizzle.Engine.Compile` | FIRSTAPP/src/main/webapp/js/jquery-1.9.1.js:5422-5447 | some compiled group accepts a node iff some group selects it |
| `Sizzle.Engine.SuperMatch` | FIRSTAPP/src/main/webapp/js/jquery-1.9.1.js:5321-5415 | over a whole top-level search, with the memo left by earlier searches, the results grow by exactly the elements that the uncached evaluation of some group accepts, in order |
| `Sizzle.Engine.MatchAny` | FIRSTAPP/src/main/webapp/js/jquery-1.9.1.js:5348-5354 | asking the groups in turn about one element answers whether one accepts it, and leaves truthful slots |
| `Select.SelectedInside` | FIRSTAPP/src/main/webapp/js/jquery-1.9.1.js:5335 | what a selector without a leading combinator selects lies below the context |
| `Select.SelectedNear` | FIRSTAPP/src/main/webapp/js/jquery-1.9.1.js:5335 | what a selector with a leading combinator selects lies below the parent of the context, or below the context if the combinator does not look at siblings |
| `Select.NaiveByFields` | FIRSTAPP/src/main/webapp/js/jquery-1.9.1.js:4635-4654 | what the naive search gives for `*`, a tag, a class and an id, from the fields of the nodes |
| `Select.IdShortcut` | FIRSTAPP/src/main/webapp/js/jquery-1.9.1.js:5466-5478 | with unique ids, selecting from the document is selecting the rest of the selector from the element with the leading id |
| `Select.NoId` | FIRSTAPP/src/main/webapp/js/jquery-1.9.1.js:5473-5475 | if no element has the leading id nothing is selected |
| `Select.SplitFilter` | FIRSTAPP/src/main/webapp/js/jquery-1.9.1.js:5480-5497 | a filter of the rightmost compound can be tested on its own, and the other tokens without it |
| `Select.FindMeaning` | FIRSTAPP/src/main/webapp/js/jquery-1.9.1.js:4099-4105 | a finder returns the elements below its root that pass the filter, in document order |
| `Select.ReducedById` | FIRSTAPP/src/main/webapp/js/jquery-1.9.1.js:5466-5478 | after the shortcut, filtering the elements below the new root by the remaining tokens gives the naive result |
| `Select.ReducedBySeed` | FIRSTAPP/src/main/webapp/js/jquery-1.9.1.js:5489-5505 | filtering the seed by the tokens without its filter gives the naive result; an empty seed or an empty rest is the result itself |
| `Select.LeadingId` | FIRSTAPP/src/main/webapp/js/jquery-1.9.1.js:5466-5478 | the shortcut returns a context from which the remaining tokens give the naive result, or nothing when the naive result is empty |
| `Select.FindSeed` | FIRSTAPP/src/main/webapp/js/jquery-1.9.1.js:5480-5507 | the seed is what the finder of a filter right of all combinators finds, and just that token is gone from the list |
| `Select.SelectOne` | FIRSTAPP/src/main/webapp/js/jquery-1.9.1.js:5464-5509 | a single group gives the naive result in document order, its cached token list untouched |
| `Select.SelectMany` | FIRSTAPP/src/main/webapp/js/jquery-1.9.1.js:5511-5520 | several groups give the naive result of the groups together |
| `Select.Select` | FIRSTAPP/src/main/webapp/js/jquery-1.9.1.js:5458-5521 | optimised selection returns, after the earlier results, every element below the context that some group selects, in document order and once; the token lists of the cache are unchanged |
| `SetMatchers.MatchIndexes` | FIRSTAPP/src/main/webapp/js/jquery-1.9.1.js:4959-5002 | each positional filter lists exactly the positions that it names, for every length and argument; with a negative argument -k the position j with j + k = length, those before it, or those after it |
| `SetMatchers.FromFront` | FIRSTAPP/src/main/webapp/js/jquery-1.9.1.js:4966-5000 | an argument without a sign counts from the front of the list |
| `SetMatchers.FromBack` | FIRSTAPP/src/main/webapp/js/jquery-1.9.1.js:4966-5000 | a negative argument counts from the end of the list, for `:eq`, `:lt` and `:gt` |
| `SetMatchers.Condense` | FIRSTAPP/src/main/webapp/js/jquery-1.9.1.js:5155-5174 | the elements that pass, in order, with a map of their indexes |
| `SetMatchers.MatchPositions` | FIRSTAPP/src/main/webapp/js/jquery-1.9.1.js:4487-4503 | exactly the named slots that hold an element move to the matches, at their own index; for negative arguments the slots are named by counting from the end |
| `SetMatchers.CorePicks` | FIRSTAPP/src/main/webapp/js/jquery-1.9.1.js:5208-5225 | the positional match and the moving back of what fails the post-filter leave exactly the chosen positions that pass the post-filter |
| `SetMatchers.RunPicks` | FIRSTAPP/src/main/webapp/js/jquery-1.9.1.js:5183-5251 | a set matcher with a pre-filter, without a post-filter, or without earlier results, moves exactly the slots chosen among the pre-filtered elements that pass the post-filter, mapped back to their own index |
| `SetMatchers.RunConserves` | FIRSTAPP/src/main/webapp/js/jquery-1.9.1.js:5183-5251 | every slot holds afterwards, in the seed or in the results and not in both, the element that it held before |
| `SetMatchers.RunAllConserves` | FIRSTAPP/src/main/webapp/js/jquery-1.9.1.js:5378-5381 | the same over all set matchers of a selector list |
| `SetMatchers.GoBack` | FIRSTAPP/src/main/webapp/js/jquery-1.9.1.js:5213-5225 | of the matches exactly those that the post-filter does not pick go back |
| `SetMatchers.NoPreFilter` | FIRSTAPP/src/main/webapp/js/jquery-1.9.1.js:5197-5225 | without a pre-filter, whatever the post-filter, the named slots join the earlier results and the post-filter keeps what it picks from all of them |
| `SetMatchers.EarlierResults` | FIRSTAPP/src/main/webapp/js/jquery-1.9.1.js:5197-5225 | such a group moves its own picks and nothing else iff its post-filter, applied to the earlier results together with the named slots, picks every earlier result and, of the named slots, those that it picks from them alone |
| `SetMatchers.OnlyTogether` | FIRSTAPP/src/main/webapp/js/jquery-1.9.1.js:5213-5225 | a plain post-filter picks a slot of the earlier results and the named slots together iff its element passes the filter |
| `SetMatchers.PlainLeaves` | FIRSTAPP/src/main/webapp/js/jquery-1.9.1.js:5197-5225 | with a plain post-filter such a group moves its own picks and nothing else iff every earlier result passes the filter |
| `SetMatchers.LostMatch` | FIRSTAPP/src/main/webapp/js/jquery-1.9.1.js:5197-5225 | a counterexample: `:first.a, :last.b` on a seed of two loses the match of the group that ran first |
| `SetMatchers.LostPick` | FIRSTAPP/src/main/webapp/js/jquery-1.9.1.js:5197-5225 | a counterexample: `:first:last` after another group keeps the earlier match and loses its own pick |
| `SetMatchers.RunAllPicks` | FIRSTAPP/src/main/webapp/js/jquery-1.9.1.js:5378-5381 | a list of set matchers that leave earlier results alone moves exactly the successive picks, each from what the ones before it left, to their own index |
| `SetMatchers.FilteredFirst` | FIRSTAPP/src/main/webapp/js/jquery-1.9.1.js:5197-5206 | matchers with a pre-filter or without a post-filter always do |
| `SetMatchers.AcceptedByPicks` | FIRSTAPP/src/main/webapp/js/jquery-1.9.1.js:5326-5415 | then the compiled selector accepts what the element groups accept and what the set groups pick of the rest |
| `SetMatchers.MatchCore` | FIRSTAPP/src/main/webapp/js/jquery-1.9.1.js:5208-5225 | the in-place match and post-filter compute the specified pair of arrays |
| `SetMatchers.MoveThrough` | FIRSTAPP/src/main/webapp/js/jquery-1.9.1.js:5218-5249 | the backward loops move exactly the slots that the map names |
| `SetMatchers.MatchSet` | FIRSTAPP/src/main/webapp/js/jquery-1.9.1.js:5183-5266 | the whole in-place set matcher computes the specified seed and results |
| `SetMatchers.RunSetMatchers` | FIRSTAPP/src/main/webapp/js/jquery-1.9.1.js:5378-5381 | the in-place loop over the set matchers computes the specified arrays |
| `SetMatchers.Reintegrate` | FIRSTAPP/src/main/webapp/js/jquery-1.9.1.js:5383-5398 | popping the element matches back and condensing gives every accepted slot once, in seed order, after the earlier results |
| `SetMatchers.SuperMatch` | FIRSTAPP/src/main/webapp/js/jquery-1.9.1.js:5326-5415 | mixed groups on a seed: every element accepted by an element group or picked by a set group appears once, in seed order, and earlier results stay |
| `PositionalRuns.MatchCore` | FIRSTAPP/src/main/webapp/js/jquery-1.9.1.js:5208-5225 | the in-place match and post-filter with compiled filters compute the specified arrays and slots |
| `PositionalRuns.MatchSet` | FIRSTAPP/src/main/webapp/js/jquery-1.9.1.js:5183-5266 | so does the whole in-place set matcher, which runs condense with its compiled pre-filter and the memo of the engine |
| `PositionalRuns.RunOnSets` | FIRSTAPP/src/main/webapp/js/jquery-1.9.1.js:5183-5251 | a set matcher with compiled filters and the memo equals the one on the sets of nodes that the filters accept, if every condense keeps what it should |
| `PositionalRuns.GroupUnused` | FIRSTAPP/src/main/webapp/js/jquery-1.9.1.js:5091-5094 | a filter leaves no slot of the running search under the numbers of a filter that is compiled after it |
| `PositionalRuns.FilterExactly` | FIRSTAPP/src/main/webapp/js/jquery-1.9.1.js:5155-5174 | condense with a group of at most one walk keeps what it should iff no two entries of the list collide on that walk |
| `PositionalRuns.RunExactly` | FIRSTAPP/src/main/webapp/js/jquery-1.9.1.js:5183-5251 | every condense of a set matcher, its pre-filter and those of the nested post-filters, keeps what it should iff no filter gets a list with entries that collide |
| `PositionalRuns.ClearOnSets` | FIRSTAPP/src/main/webapp/js/jquery-1.9.1.js:5183-5251 | then the memo makes no difference to the seed and the results of the whole set matcher |
| `PositionalRuns.WrongPick` | FIRSTAPP/src/main/webapp/js/jquery-1.9.1.js:5183-5251 | a counterexample: `div p:last`, compiled, picks the first of two `p` elements inside a `span` inside a `div` |
| `NthChild.CycleTest` | FIRSTAPP/src/main/webapp/js/jquery-1.9.1.js:4762-4764 | the remainder and sign test holds iff position = a*n + b for some n >= 0, for all integers a and b, zero and negative ones too (section 6.6.5.2 of Selectors Level 3) |
| `NthChild.Keywords` | FIRSTAPP/src/main/webapp/js/jquery-1.9.1.js:4591-4594 | `even` and `odd` select the even and the odd positions |
| `NthChild.Formulas` | FIRSTAPP/src/main/webapp/js/jquery-1.9.1.js:4591-4594 | what formulas without x, with n and with -n select: one position, those from b on, those up to b |
| `NthChild.EveryKth` | FIRSTAPP/src/main/webapp/js/jquery-1.9.1.js:4591-4594 | a formula with digits selects b and then every k-th position, upwards or, after a minus sign, downwards; with k = 0 only b |
| `NthChild.ElementPosition` | FIRSTAPP/src/main/webapp/js/jquery-1.9.1.js:4718-4737 | the position of an element is the number of elements up to it or, for the `last` filters, from it on |
| `NthChild.TypePosition` | FIRSTAPP/src/main/webapp/js/jquery-1.9.1.js:4743-4760 | by type it is the number of nodes of that name |
| `NthChild.Parent.IsOnly` | FIRSTAPP/src/main/webapp/js/jquery-1.9.1.js:4701-4714 | the first, last and only filters accept iff the position from the front, from the back, or from both is one |
| `NthChild.Parent.NoneBeside` | FIRSTAPP/src/main/webapp/js/jquery-1.9.1.js:4703-4709 | the walk in one direction meets no counted sibling iff the position from that side is one |
| `NthChild.Parent.SeekForward` | FIRSTAPP/src/main/webapp/js/jquery-1.9.1.js:4718-4737 | from any cached index the wrap-around search ends at the element with its position among the element children, and caches a true triple; what other searches cached stays true |
| `NthChild.Parent.SeekBackward` | FIRSTAPP/src/main/webapp/js/jquery-1.9.1.js:4739-4760 | the position from the end, from the cache of the child or from a walk that caches true positions only; what other searches cached stays true |
| `NthChild.Parent.SeekUncached` | FIRSTAPP/src/main/webapp/js/jquery-1.9.1.js:4743-4760 | the same search without a cache, also counting by node name |
| `NthChild.Parent.Matches` | FIRSTAPP/src/main/webapp/js/jquery-1.9.1.js:4680-4766 | the filter accepts iff the position, forward or backward, by element or by type, is in the cycle, whatever was asked before in whatever order |
| `BoundedCache.Cache.Store` | FIRSTAPP/src/main/webapp/js/jquery-1.9.1.js:3855-3862 | the entry is stored, and the oldest key goes when the list of keys is over the limit that is set at this store |
| `BoundedCache.Cache.Recall` | FIRSTAPP/src/main/webapp/js/jquery-1.9.1.js:5017-5077 | a hit returns the entry unchanged, a miss stores and returns the value |
| `BoundedCache.HoldsRecent` | FIRSTAPP/src/main/webapp/js/jquery-1.9.1.js:3851-3863 | whatever positive limits were set between the stores, a cache that is stored to on misses only holds exactly the last entries with their last values, the oldest going first |
| `BoundedCache.PutBounded` | FIRSTAPP/src/main/webapp/js/jquery-1.9.1.js:3857-3859 | a store with a positive limit leaves the entries within it iff they were within it before: it removes one key at most |
| `BoundedCache.BoundedExactly` | FIRSTAPP/src/main/webapp/js/jquery-1.9.1.js:3855-3862 | for every sequence of misses, after every store the entries are within the limit of that store iff every limit is at least one and not below the number of entries held before its store |
| `BoundedCache.LoweredLimit` | FIRSTAPP/src/main/webapp/js/jquery-1.9.1.js:4542-4543 | a counterexample: after three misses under the limits 2, 2 and 1 there are two entries |
| `BoundedCache.HoldsLatest` | FIRSTAPP/src/main/webapp/js/jquery-1.9.1.js:3851-3863 | with one positive limit for all stores, these are that many of the last entries, or all of them |
| `BoundedCache.ZeroKeepsAll` | FIRSTAPP/src/main/webapp/js/jquery-1.9.1.js:3855-3862 | with a limit that is always zero every entry stays for ever |
| `BoundedCache.SizeBounded` | FIRSTAPP/src/main/webapp/js/jquery-1.9.1.js:3848-3849 | one limit for all stores is kept over all sequences of misses iff it is at least one |
| `Tokenizer.Spaces` | FIRSTAPP/src/main/webapp/js/jquery-1.9.1.js:3750 | the longest run of whitespace at the start of the text |
| `Tokenizer.LexText` | FIRSTAPP/src/main/webapp/js/jquery-1.9.1.js:5023-5065 | the texts of the tokens and the text that is left make up the text, which gets strictly shorter with every group |
| `Tokenizer.LexAgain` | FIRSTAPP/src/main/webapp/js/jquery-1.9.1.js:5081-5089 | the text of the tokens of a group lexes to the same tokens, whatever came after it |
| `Tokenizer.GroupsAgain` | FIRSTAPP/src/main/webapp/js/jquery-1.9.1.js:5014-5089 | each group of a tokenized selector tokenizes to itself from its own text |
| `Tokenizer.CommaSelf` | FIRSTAPP/src/main/webapp/js/jquery-1.9.1.js:5027-5030 | the text between two groups is a comma with any whitespace around it, and no whitespace is left after it |
| `Tokenizer.Shape` | FIRSTAPP/src/main/webapp/js/jquery-1.9.1.js:5014-5078 | on success the selector is the texts of the groups with the comma texts between them |
| `Tokenizer.RoundTrip` | FIRSTAPP/src/main/webapp/js/jquery-1.9.1.js:5014-5089 | both together, for every selector that tokenizes |
| `Tokenizer.LeadingComma` | FIRSTAPP/src/main/webapp/js/jquery-1.9.1.js:5025-5032 | a comma that nothing precedes is rejected |
| `Tokenizer.LeadingCommas` | FIRSTAPP/src/main/webapp/js/jquery-1.9.1.js:5025-5047 | a selector of whitespace and a comma is accepted iff there is whitespace and what follows the comma tokenizes |
| `Tokenizer.AcceptedComma` | FIRSTAPP/src/main/webapp/js/jquery-1.9.1.js:5025-5047 | a counterexample: a selector that begins with a space and a comma tokenizes |
| `Tokenizer.TrailingCommas` | FIRSTAPP/src/main/webapp/js/jquery-1.9.1.js:5027-5030 | a selector that ends in a comma that is not escaped, with any whitespace after it, is rejected whatever comes before |
| `Tokenizer.KindsFit` | FIRSTAPP/src/main/webapp/js/jquery-1.9.1.js:5035-5061 | in every group of a tokenized selector the kind of a token is the one that its text says: a combinator iff it is that character with any whitespace around it, a descendant combinator iff it is whitespace, an id, a class or a tag by its first character; and whitespace or name characters are never left to a second token |
| `Tokenizer.NameText` | FIRSTAPP/src/main/webapp/js/jquery-1.9.1.js:3752 | a name consists of name characters and escapes, and ends where neither begins |
| `Tokenizer.SelectorText` | FIRSTAPP/src/main/webapp/js/jquery-1.9.1.js:5081-5089 | the loop computes the text of the tokens |
| `Tokenizer.TokenizeText` | FIRSTAPP/src/main/webapp/js/jquery-1.9.1.js:5014-5077 | the loop, with its three kinds of tokens per round, terminates and computes the groups, or nothing for the selectors that raise an error |
| `Tokenizer.TakeFilters` | FIRSTAPP/src/main/webapp/js/jquery-1.9.1.js:5050-5061 | the inner loop takes the filters without changing what the whole selector tokenizes to |
| `Callbacks.RemoveFromList` | FIRSTAPP/src/main/webapp/js/jquery-1.9.1.js:1089-1108 | `remove` takes out every occurrence of a callback, keeps the others in order and changes nothing but the list and the loop variables |
| `Callbacks.SpliceStable` | FIRSTAPP/src/main/webapp/js/jquery-1.9.1.js:1093-1104 | taking out any entry keeps the entries that are done with apart from those still to come, and the end of the pass at the end of the list |
| `Callbacks.HeadStable` | FIRSTAPP/src/main/webapp/js/jquery-1.9.1.js:1036-1053 | the loop of `fire`, with the stacked fires that follow it, keeps the invariant of a repeatable list |
| `Callbacks.AddStable` | FIRSTAPP/src/main/webapp/js/jquery-1.9.1.js:1058-1087 | `add` keeps the invariant, during a pass, outside one, and when it fires the remembered value |
| `Callbacks.FireWithStable` | FIRSTAPP/src/main/webapp/js/jquery-1.9.1.js:1141-1152 | `fireWith` keeps the invariant, stacked or at once |
| `Callbacks.RemoveStable` | FIRSTAPP/src/main/webapp/js/jquery-1.9.1.js:1089-1108 | `remove` keeps the invariant for any arguments at any point of a pass |
| `Callbacks.RepeatablePasses` | FIRSTAPP/src/main/webapp/js/jquery-1.9.1.js:1029-1152 | over every run of a repeatable list: passes never interleave, the values that the run fires, during a pass or not, get one pass each in their order, those not served yet being stacked, no surviving callback is skipped or called twice in a pass, and `firingLength` is the length of the list throughout a pass |
| `Callbacks.RunRequests` | FIRSTAPP/src/main/webapp/js/jquery-1.9.1.js:1141-1152 | the requests of a repeatable list are exactly the values that the run fires, in order |
| `Callbacks.RunAdds` | FIRSTAPP/src/main/webapp/js/jquery-1.9.1.js:1062-1073 | without removing, a repeatable list holds exactly the functions that the run adds, in order |
| `Callbacks.RunStable` | FIRSTAPP/src/main/webapp/js/jquery-1.9.1.js:1029-1152 | the invariant behind it holds after every run |
| `CallbackMeaning.RunMeans` | FIRSTAPP/src/main/webapp/js/jquery-1.9.1.js:1012-1152 | over every run, with any options, locking and disabling: the callbacks that are called and their values are those of a simple form without indexes, in which a pass is the entries that it has yet to call, values fired during a pass wait, `add` appends to the list and the pass or serves just the new callbacks with the remembered value, and a false result stops a pass under `stopOnFalse` only |
| `CallbackMeaning.AddMeans` | FIRSTAPP/src/main/webapp/js/jquery-1.9.1.js:1058-1087 | `add` pushes all its functions or, under `unique`, those that are not there yet, and they are served as the simple form says |
| `CallbackMeaning.FreshOnes` | FIRSTAPP/src/main/webapp/js/jquery-1.9.1.js:1065-1067 | under `unique` the new functions are those that were not in the list, each once |
| `CallbackMeaning.RemoveMeans` | FIRSTAPP/src/main/webapp/js/jquery-1.9.1.js:1089-1108 | `remove` takes the entries of all its arguments out of the list and out of what a running pass has yet to call, and no others |
| `CallbackMeaning.FireMeans` | FIRSTAPP/src/main/webapp/js/jquery-1.9.1.js:1141-1152 | a fire during a pass waits for its end, one at another time is served at once, and only a list that can be fired once ignores it |
| `CallbackMeaning.ReturnMeans` | FIRSTAPP/src/main/webapp/js/jquery-1.9.1.js:1037-1053 | when a callback returns the next entry is called, or the pass ends and the next value that waits is served; a false result ends it under `stopOnFalse` only |
| `CallbackMeaning.LateAdd` | FIRSTAPP/src/main/webapp/js/jquery-1.9.1.js:1078-1083 | callbacks that are added when nothing is being fired, to a list that remembers a value, are called with it, and no others are |
| `CallbackList.CallbackObject.constructor` | FIRSTAPP/src/main/webapp/js/jquery-1.9.1.js:1012-1027 | a new list on the closure variables, the whole new state |
| `CallbackList.CallbackObject.Disable` | FIRSTAPP/src/main/webapp/js/jquery-1.9.1.js:1120-1123 | `disable` as the operation of the machine on the closure variables, the whole new state |
| `CallbackList.CallbackObject.Lock` | FIRSTAPP/src/main/webapp/js/jquery-1.9.1.js:1129-1135 | `lock` as the operation of the machine on the closure variables, the whole new state |
| `CallbackList.CallbackObject.Fire` | FIRSTAPP/src/main/webapp/js/jquery-1.9.1.js:1029-1036 | `fire` up to the first callback on the closure variables, the whole new state |
| `CallbackList.CallbackObject.LoopHead` | FIRSTAPP/src/main/webapp/js/jquery-1.9.1.js:1036-1041 | the loop until a callback is called or the pass ends on the closure variables, the whole new state |
| `CallbackList.CallbackObject.AfterLoop` | FIRSTAPP/src/main/webapp/js/jquery-1.9.1.js:1042-1053 | what follows the loop, stacked fires included on the closure variables, the whole new state |
| `CallbackList.CallbackObject.Return` | FIRSTAPP/src/main/webapp/js/jquery-1.9.1.js:1037-1041 | what happens when a callback returns on the closure variables, the whole new state |
| `CallbackList.CallbackObject.Add` | FIRSTAPP/src/main/webapp/js/jquery-1.9.1.js:1058-1087 | `add` as the operation of the machine on the closure variables, the whole new state |
| `CallbackList.CallbackObject.IndexOf` | FIRSTAPP/src/main/webapp/js/jquery-1.9.1.js:1093 | the search finds the next occurrence, so that nothing before it needs removing on the closure variables, the whole new state |
| `CallbackList.CallbackObject.SpliceAt` | FIRSTAPP/src/main/webapp/js/jquery-1.9.1.js:1094-1103 | the splice with the moved loop variables on the closure variables, the whole new state |
| `CallbackList.CallbackObject.RemoveOne` | FIRSTAPP/src/main/webapp/js/jquery-1.9.1.js:1091-1104 | the loop for one argument on the closure variables, the whole new state |
| `CallbackList.CallbackObject.Remove` | FIRSTAPP/src/main/webapp/js/jquery-1.9.1.js:1089-1108 | `remove` as the operation of the machine on the closure variables, the whole new state |
| `CallbackList.CallbackObject.FireWith` | FIRSTAPP/src/main/webapp/js/jquery-1.9.1.js:1141-1152 | `fireWith` as the operation of the machine on the closure variables, the whole new state |
| `Deferred.RunSound` | FIRSTAPP/src/main/webapp/js/jquery-1.9.1.js:1168-1253 | after every run of re-entrant calls the three lists and the state fit together: pending with open lists, or settled with one winner, one disabled list and a locked progress list |
| `Deferred.CallsInOrder` | FIRSTAPP/src/main/webapp/js/jquery-1.9.1.js:1218-1241 | no callback of the losing list is ever called, and those of the winning list are called in the order of adding, before, during or after settling, each once, with the value of the one call that settled it |
| `Deferred.AddsRecorded` | FIRSTAPP/src/main/webapp/js/jquery-1.9.1.js:1222-1223 | what is added counts after what was added before, unless its list has lost |
| `Deferred.SettlesOnce` | FIRSTAPP/src/main/webapp/js/jquery-1.9.1.js:1225-1241 | the first resolve or reject decides the state and the value; after that neither they nor notify change anything |
| `Deferred.ProgressIsRepeatable` | FIRSTAPP/src/main/webapp/js/jquery-1.9.1.js:1173 | while the deferred is pending its progress list is a repeatable list, so that its passes are in order and complete |
| `Deferred.ProgressIsList` | FIRSTAPP/src/main/webapp/js/jquery-1.9.1.js:1222-1240 | while the deferred is pending its progress list is the list on which exactly the notify and progress calls of the run were made |
| `Deferred.NotifiesRecorded` | FIRSTAPP/src/main/webapp/js/jquery-1.9.1.js:1237-1240 | while it is pending, the requests are the values that the run notifies, in order, and the list holds the functions that it adds with progress, in order |
| `Deferred.NotifiesMean` | FIRSTAPP/src/main/webapp/js/jquery-1.9.1.js:1173 | while it is pending, which progress callbacks were called with which values, and which are still to be called, is what the simple form of a list makes of the run |
| `Deferred.NotifyCalls` | FIRSTAPP/src/main/webapp/js/jquery-1.9.1.js:1237-1240 | a value notified while no progress callback runs goes to all progress callbacks, in the order of adding |
| `Deferred.ProgressMeans` | FIRSTAPP/src/main/webapp/js/jquery-1.9.1.js:1225-1240 | over every run, settling included, the progress list is what its calls make it: settling locks it, so that it drops what waits and keeps the value of its last pass for callbacks that are added later |
| `When.NothingUnresolved` | FIRSTAPP/src/main/webapp/js/jquery-1.9.1.js:1274-1302 | nothing is left to wait for iff the master resolves, which is iff all arguments have resolved |
| `When.ValuesInPlace` | FIRSTAPP/src/main/webapp/js/jquery-1.9.1.js:1268-1278 | when the master resolves, the value that an argument resolved with stands at the place of that argument |
| `When.EveryPlace` | FIRSTAPP/src/main/webapp/js/jquery-1.9.1.js:1268-1278 | and every place holds the value that its argument resolved with |
| `When.OrderIrrelevant` | FIRSTAPP/src/main/webapp/js/jquery-1.9.1.js:1268-1278 | the order in which the arguments settle does not change the values of the master |
| `When.MasterAfter` | FIRSTAPP/src/main/webapp/js/jquery-1.9.1.js:1268-1297 | the first rejection decides the master for good, and a resolution never makes it reject |
| `When.UnresolvedAfter` | FIRSTAPP/src/main/webapp/js/jquery-1.9.1.js:1274 | one more argument lowers the count by one iff it resolved |
| `When.MasterIsDeferred` | FIRSTAPP/src/main/webapp/js/jquery-1.9.1.js:1264-1302 | the deferred that the callbacks' calls settle is pending, resolved or rejected as the history of the arguments says, with the first rejection or the values |
| `When.WhenAll.constructor` | FIRSTAPP/src/main/webapp/js/jquery-1.9.1.js:1256-1302 | with any number of arguments, none and one included and some of them settled before, the master is what the arguments in order make it |
| `When.WhenAll.Arguments` | FIRSTAPP/src/main/webapp/js/jquery-1.9.1.js:1282-1297 | the loop leaves the right master, or only the final resolve to do |
| `When.WhenAll.Argument` | FIRSTAPP/src/main/webapp/js/jquery-1.9.1.js:1287-1296 | one round of the loop over the arguments leaves the right master, or only the final resolve to do |
| `When.WhenAll.PlainArgument` | FIRSTAPP/src/main/webapp/js/jquery-1.9.1.js:1293-1295 | an ordinary value is counted, and at most the final resolve is left to do |
| `When.WhenAll.ResolveMaster` | FIRSTAPP/src/main/webapp/js/jquery-1.9.1.js:1299-1302 | the final resolve, possibly after a rejection or a second time, leaves the right master |
| `When.WhenAll.Settle` | FIRSTAPP/src/main/webapp/js/jquery-1.9.1.js:1288-1292 | after one more argument settles the master and `remaining` are what the whole history makes them, and no other value changes |
| `When.WhenAll.Update` | FIRSTAPP/src/main/webapp/js/jquery-1.9.1.js:1268-1278 | a resolve value goes to the place of its argument |
| `When.WhenAll.Reject` | FIRSTAPP/src/main/webapp/js/jquery-1.9.1.js:1291 | a rejection changes no value |
| `HandlerList.PartWithout` | FIRSTAPP/src/main/webapp/js/jquery-1.9.1.js:2860-2872 | removing from the delegated or the direct handlers is the same as removing and then taking that part |
| `HandlerList.WithoutStep` | FIRSTAPP/src/main/webapp/js/jquery-1.9.1.js:2860-2878 | one round of the backward loop removes the entry iff it is selected |
| `HandlerList.RemovedLayout` | FIRSTAPP/src/main/webapp/js/jquery-1.9.1.js:2860-2878 | removing from the list leaves the surviving delegated handlers and then the surviving direct ones |
| `HandlerList.StaysIff` | FIRSTAPP/src/main/webapp/js/jquery-1.9.1.js:2862-2869 | removing leaves exactly the handlers that are not selected |
| `HandlerList.OrderStays` | FIRSTAPP/src/main/webapp/js/jquery-1.9.1.js:2862-2869 | and in their order |
| `HandlerList.RemoveHandler` | FIRSTAPP/src/main/webapp/js/jquery-1.9.1.js:2865-2866 | removing a handler, of one type or of all, leaves the other handlers and the other types |
| `HandlerList.RemoveNamespaces` | FIRSTAPP/src/main/webapp/js/jquery-1.9.1.js:2867 | removing by namespaces leaves the handlers that lack one of them |
| `HandlerList.RemoveSelector` | FIRSTAPP/src/main/webapp/js/jquery-1.9.1.js:2868 | removing by a selector leaves the handlers with another one and those without any |
| `HandlerList.RemoveDelegated` | FIRSTAPP/src/main/webapp/js/jquery-1.9.1.js:2868 | `**` removes all delegated handlers and leaves the direct ones, in order |
| `HandlerList.HandlerList.Add` | FIRSTAPP/src/main/webapp/js/jquery-1.9.1.js:2812-2817 | after any sequence of calls and one `add` the list is the surviving delegated handlers in add order, then the surviving direct ones, with the right count |
| `HandlerList.HandlerList.Splice` | FIRSTAPP/src/main/webapp/js/jquery-1.9.1.js:2868-2872 | one entry goes and the count stays that of the delegated ones |
| `HandlerList.HandlerList.Remove` | FIRSTAPP/src/main/webapp/js/jquery-1.9.1.js:2860-2878 | the same after one `remove`: exactly the selected handlers are gone |
| `HandlerList.HandlerList.Split` | FIRSTAPP/src/main/webapp/js/jquery-1.9.1.js:3109-3135 | the split at `delegateCount` gives exactly the surviving delegated handlers and exactly the direct ones |
| `AjaxConvert.Settings.ChosenExists` | FIRSTAPP/src/main/webapp/js/jquery-1.9.1.js:8206-8235 | a step has a choice of converters iff one converter or two take it |
| `AjaxConvert.Settings.FailureMeaning` | FIRSTAPP/src/main/webapp/js/jquery-1.9.1.js:8206-8247 | the conversion fails for want of a converter only at a step that neither one nor two converters can take, and succeeds only if every step can be taken |
| `AjaxConvert.Settings.SuccessMeaning` | FIRSTAPP/src/main/webapp/js/jquery-1.9.1.js:8197-8257 | on success the result is the response sent through registered converters along the only path that the rules allow: through the requested types in order, by the converter for exactly the two types before the one for any type, and over another type only if there is neither, then over that of the first registered key that can be used |
| `AjaxConvert.Settings.OneConversion` | FIRSTAPP/src/main/webapp/js/jquery-1.9.1.js:8197-8250 | one conversion read from the settings: nothing for the same type or from any type, else the exact converter before the one for any type, where `true` keeps the data and a function gives its result or throws |
| `AjaxConvert.Settings.PairIsFirst` | FIRSTAPP/src/main/webapp/js/jquery-1.9.1.js:8211-8233 | the intermediate type is that of the first registered key that leads to the wanted type from one that can be reached |
| `AjaxConvert.Settings.Inserted` | FIRSTAPP/src/main/webapp/js/jquery-1.9.1.js:8223-8229 | inserting the intermediate type and making the first conversion leads to the same result: the walk finds the second converter directly |
| `AjaxConvert.Settings.FindPair` | FIRSTAPP/src/main/webapp/js/jquery-1.9.1.js:8211-8233 | the loop finds the first usable pair |
| `AjaxConvert.Convert` | FIRSTAPP/src/main/webapp/js/jquery-1.9.1.js:8178-8260 | the loop terminates although it inserts into the list it walks, and computes the specified result or failure |
| `Sib.OfMore` | launcher/src/main/java/com/indra/sofia2/kpmodelo/infraestructure/subscription/SubscriptionServiceImpl.java:68-72 | the listeners of a map do not depend on the order in which its keys are visited |
| `Sib.ValuesPut` | launcher/src/main/java/com/indra/sofia2/kpmodelo/infraestructure/subscription/SubscriptionServiceImpl.java:50-62 | replacing the listener of a key replaces one registration |
| `Sib.DeleteRow` | launcher/src/main/java/com/indra/sofia2/kpmodelo/worker/Sib/DataSendToSIBWorkerImpl.java:28-33 | deleting removes the row of the message and no other |
| `Sib.RecoverSafe` | launcher/src/main/java/com/indra/sofia2/kpmodelo/infraestructure/SIB.java:208-233 | a failed attempt is reported before anything else, so that it is not lost |
| `Sib.HandleErrorSafe` | launcher/src/main/java/com/indra/sofia2/kpmodelo/worker/Sib/ErrorSendToSIBWorkerImpl.java:30-39 | storing a failed message keeps one row for it, without a session key |
| `Sib.HandleSentSafe` | launcher/src/main/java/com/indra/sofia2/kpmodelo/worker/Sib/DataSendToSIBWorkerImpl.java:24-36 | deleting keeps every failed message stored, reported or acknowledged |
| `Sib.StepSafe` | launcher/src/main/java/com/indra/sofia2/kpmodelo/infraestructure/SIB.java:95-236 | every step of the environment, the sending thread and the handlers keeps the safety of the protocol |
| `Sib.RunSafe` | launcher/src/main/java/com/indra/sofia2/kpmodelo/infraestructure/SIB.java:95-236 | so does every run: a message whose sending raised is in the table, has a pending error event, or was acknowledged; a message has at most one row; what is sent carries the key of the OK join of the latest connection |
| `Sib.StartSafe` | launcher/src/main/java/com/indra/sofia2/kpmodelo/infraestructure/SIB.java:63-93 | from the initial state the same holds after every run |
| `Sib.DeletedWhenAcked` | launcher/src/main/java/com/indra/sofia2/kpmodelo/worker/Sib/DataSendToSIBWorkerImpl.java:24-36 | a row goes only when a sent event for the same message is handled, and the SIB has acknowledged that message |
| `Sib.HistoryGrows` | launcher/src/main/java/com/indra/sofia2/kpmodelo/infraestructure/SIB.java:186-233 | a message is acknowledged only by an OK answer to it on a connected link, and counts as failed only when its task gives up and reports it |
| `Sib.QueueInOrder` | launcher/src/main/java/com/indra/sofia2/kpmodelo/infraestructure/SIB.java:147-170 | first in, first out, over every run: the messages that the tasks take, in order, followed by the queue are the first queue followed by the messages that were submitted or resent, in order, so that no message disappears before a task takes it |
| `Sib.TaskIsAboutFirst` | launcher/src/main/java/com/indra/sofia2/kpmodelo/infraestructure/SIB.java:153-166 | a task sends the message that it takes, over the link or over a new one, unless the last error is at most twice the response timeout ago |
| `Sib.TaskKeepsMessage` | launcher/src/main/java/com/indra/sofia2/kpmodelo/infraestructure/SIB.java:172-187 | from its beginning to its end a task is about one message, with the session key set before it is sent |
| `Sib.DropFails` | launcher/src/main/java/com/indra/sofia2/kpmodelo/infraestructure/SIB.java:208-233 | a link that drops while a message is being sent makes its task fail, whatever the answer |
| `Sib.FailsExactly` | launcher/src/main/java/com/indra/sofia2/kpmodelo/infraestructure/SIB.java:208-233 | a message is reported as failed, the link given up and the back-off begun exactly when connecting fails, the join is refused or raises, or sending raises |
| `Sib.Acknowledges` | launcher/src/main/java/com/indra/sofia2/kpmodelo/infraestructure/SIB.java:190-197 | an OK answer publishes one event for the message and leaves the link up |
| `Sib.Connects` | launcher/src/main/java/com/indra/sofia2/kpmodelo/infraestructure/SIB.java:102-129 | a connection registers the listeners, and an OK join sets the session key and publishes one connection event |
| `Sib.NotOk` | launcher/src/main/java/com/indra/sofia2/kpmodelo/infraestructure/SIB.java:198-206 | an answer that is not OK ends the task and changes nothing else: the link stays up, no back-off begins, no event is published |
| `Sib.StepKeepsListeners` | launcher/src/main/java/com/indra/sofia2/kpmodelo/infraestructure/subscription/SubscriptionServiceImpl.java:50-82 | every step, but a subscription during a connect, keeps the registrations right |
| `Sib.ListenersOnce` | launcher/src/main/java/com/indra/sofia2/kpmodelo/infraestructure/SIB.java:102-137 | over all runs of failures, refusals and drops, a connection has exactly the configured listeners registered, never one twice because of a reconnect, if none is subscribed while `kp.connect` is under way |
| `Sib.WhileConnecting` | launcher/src/main/java/com/indra/sofia2/kpmodelo/infraestructure/SIB.java:102-109 | until `kp.connect` is answered nothing but subscriptions registers listeners, and a registration is not taken away |
| `Sib.ConnectExactly` | launcher/src/main/java/com/indra/sofia2/kpmodelo/infraestructure/SIB.java:105-109 | whatever happens between removing the listeners and the answer to `kp.connect`, a successful connect registers every configured listener once iff no listener was subscribed meanwhile |
| `Sib.ReconnectExactly` | launcher/src/main/java/com/indra/sofia2/kpmodelo/infraestructure/SIB.java:95-109 | the same from every state with the right registrations in which a task begins to reconnect |
| `Sib.ListenersExactly` | launcher/src/main/java/com/indra/sofia2/kpmodelo/infraestructure/SIB.java:95-137 | over every run from the initial state: all successful connects register each configured listener exactly once iff no listener is subscribed while such a connect is under way |
| `Sib.LateListener` | launcher/src/main/java/com/indra/sofia2/kpmodelo/infraestructure/subscription/SubscriptionServiceImpl.java:50-72 | a counterexample: a listener subscribed during `kp.connect` is registered twice |
| `Sib.UpAfterJoin` | launcher/src/main/java/com/indra/sofia2/kpmodelo/infraestructure/SIB.java:114-129 | a task that has reconnected has passed the back-off test, so the link is up for the tasks after it |
| `Sib.StaysUp` | launcher/src/main/java/com/indra/sofia2/kpmodelo/infraestructure/SIB.java:155-167 | with OK answers and a clock that is not set back the link stays up and no new error is reported |
| `Sib.NotBypassed` | launcher/src/main/java/com/indra/sofia2/kpmodelo/infraestructure/SIB.java:156-166 | while the link is up the first message of the queue is sent and not bypassed |
| `Sib.StepLeaves` | launcher/src/main/java/com/indra/sofia2/kpmodelo/worker/Sib/ConnectionToSIBWorkerImpl.java:29-45 | a row that is to be deleted stays on its way through events, queue, sending and answer |
| `Sib.RunDrains` | launcher/src/main/java/com/indra/sofia2/kpmodelo/worker/Sib/ConnectionToSIBWorkerImpl.java:29-45 | with OK answers, once everything is consumed, a seen row without a pending error event is gone |
| `Sib.Consume` | launcher/src/main/java/com/indra/sofia2/kpmodelo/worker/Sensor/DataToSendWorkerImpl.java:23-30 | from every state with the link up everything can be consumed |
| `Sib.RowReturns` | launcher/src/main/java/com/indra/sofia2/kpmodelo/worker/Sib/ErrorSendToSIBWorkerImpl.java:30-39 | a counterexample for any seen row: an error event for it that is handled last makes the row again |
| `Sib.DrainsExactly` | launcher/src/main/java/com/indra/sofia2/kpmodelo/worker/Sib/ConnectionToSIBWorkerImpl.java:29-45 | whatever the order of events and tasks, all rows that the handler of a connection event saw are gone in the end iff none of them had an error event pending |
| `Sib.UndrainedRow` | launcher/src/main/java/com/indra/sofia2/kpmodelo/worker/Sib/ConnectionToSIBWorkerImpl.java:29-45 | a reachable one: a run from the initial state that ends with the link up, a connection event, and a row whose error event is pending, so that the table is not drained |
| `Sib.DrainsAfterReconnect` | launcher/src/main/java/com/indra/sofia2/kpmodelo/infraestructure/SIB.java:95-170 | the same after any reachable reconnect, provided that from then on all answers are OK, the link does not drop and the clock is not set back |
| `Launcher.Launcher.constructor` | launcher/src/main/java/com/indra/sofia2/kpmodelo/infraestructure/SIB.java:73-93 | the initial state |
| `Launcher.Launcher.SubscribeListeners` | launcher/src/main/java/com/indra/sofia2/kpmodelo/infraestructure/subscription/SubscriptionServiceImpl.java:68-72 | the loop registers every configured listener once more |
| `Launcher.Launcher.RemoveListeners` | launcher/src/main/java/com/indra/sofia2/kpmodelo/infraestructure/subscription/SubscriptionServiceImpl.java:74-82 | the loop takes away one registration of every configured listener |
| `Launcher.Launcher.SubscribeListener` | launcher/src/main/java/com/indra/sofia2/kpmodelo/infraestructure/subscription/SubscriptionServiceImpl.java:50-62 | a listener replaces the one with the same key, as the step of the protocol |
| `Launcher.Launcher.MqttConnect` | launcher/src/main/java/com/indra/sofia2/kpmodelo/infraestructure/SIB.java:95-137 | connecting and joining leaves the state in which the exception finds it, or the joined one |
| `Launcher.Launcher.MqttDisconnect` | launcher/src/main/java/com/indra/sofia2/kpmodelo/infraestructure/SIB.java:238-257 | the listeners are taken away and the link is down |
| `Launcher.Launcher.Fail` | launcher/src/main/java/com/indra/sofia2/kpmodelo/infraestructure/SIB.java:208-233 | the catch clauses, as the recovery step of the protocol |
| `Launcher.Launcher.SendOver` | launcher/src/main/java/com/indra/sofia2/kpmodelo/infraestructure/SIB.java:182-206 | the answer step of the protocol, with the session key set |
| `Launcher.Launcher.MqttSend` | launcher/src/main/java/com/indra/sofia2/kpmodelo/infraestructure/SIB.java:172-236 | sending a message is connecting, joining and sending as far as they get |
| `Launcher.Launcher.RunTask` | launcher/src/main/java/com/indra/sofia2/kpmodelo/infraestructure/SIB.java:151-170 | a task is the four steps of the protocol in order, and keeps it safe |
| `Launcher.Launcher.SendNow` | launcher/src/main/java/com/indra/sofia2/kpmodelo/infraestructure/SIB.java:155-166 | the body of a task: nothing during the back-off, otherwise the time is noted and the message sent |
| `Launcher.Launcher.Send` | launcher/src/main/java/com/indra/sofia2/kpmodelo/infraestructure/SIB.java:168-169 | the message goes to the end of the queue |
| `Launcher.Launcher.OnError` | launcher/src/main/java/com/indra/sofia2/kpmodelo/worker/Sib/ErrorSendToSIBWorkerImpl.java:30-39 | the handler's step of the protocol |
| `Launcher.Launcher.OnSent` | launcher/src/main/java/com/indra/sofia2/kpmodelo/worker/Sib/DataSendToSIBWorkerImpl.java:24-41 | the handler's step of the protocol |
| `Launcher.Launcher.OnConnection` | launcher/src/main/java/com/indra/sofia2/kpmodelo/worker/Sib/ConnectionToSIBWorkerImpl.java:29-45 | the loop publishes one event for every row |
| `Launcher.Launcher.OnData` | launcher/src/main/java/com/indra/sofia2/kpmodelo/worker/Sensor/DataToSendWorkerImpl.java:23-25 | the handler's step of the protocol |
| `Launcher.TaskRun` | launcher/src/main/java/com/indra/sofia2/kpmodelo/infraestructure/SIB.java:151-236 | a whole task, with the branches of its exceptions, is a run of the protocol |

## Left out

- Select.Select: for groups without a leading combinator, ids that are not empty and at most one element with an id; the context is the document or an element.
- Select.SelectOne: for groups without a leading combinator, as Select.Select.
- Select.SelectMany: for groups without a leading combinator, as Select.Select.
- Select.LeadingId: for groups without a leading combinator, as Select.Select.
- Select.FindMeaning: the native getElementById, getElementsByTagName and getElementsByClassName are taken to return what they document; the fallbacks for browsers without them are not modelled.
- Sizzle.Engine.AddToken: the branch for a positional filter, which ends the loop with a set matcher, is the constructor of SetMatchers.SetMatcher.
- Sizzle.Engine.MatcherFromTokens: for groups without positional filters, as the row says.
- Sizzle.Engine.Compile: all groups are element matchers, and the cache of compiled selectors is BoundedCache.
- Sizzle.Engine.SuperMatch: for groups without positional filters; the groups with them are in SetMatchers, where the filters are the sets of nodes that they accept.
- Sizzle.BuildingCompiles: the tokens are simple filters and combinators; positional filters are in SetMatchers.
- Sizzle.CompiledMeaning: for groups without positional filters, as Sizzle.BuildingCompiles.
- SharedRuns.SharedExactly: for matchers with one memoised walk; with two or more, SharedRuns.NothingWrong, SharedRuns.FirstKept and SharedRuns.AtMostOne state that only misses are possible, that the first match is kept, and that a list with one match is filtered rightly, but no exact condition is given.
- SharedRuns.OneWalk: for groups with one memoised walk, as SharedRuns.SharedExactly; SharedRuns.AnyWalks is about the others.
- PositionalRuns.RunExactly: for filters with at most one memoised walk each, as SharedRuns.OneWalk.
- PositionalRuns.MatchSet: no post-finder and no search without a seed, as SetMatchers.RunPicks.
- SetMatchers.Condense: the filter is the set of nodes that it accepts; SharedRuns.Condense is the same loop with a compiled filter and its memo, and PositionalRuns.RunExactly says when both agree.
- SetMatchers.CorePicks: from an empty output array; SetMatchers.NoPreFilter covers earlier results.
- SetMatchers.MatchSet: no post-finder and no search without a seed, as SetMatchers.RunPicks.
- SetMatchers.SuperMatch: what the element groups accept is a given set of nodes.
- SetMatchers.RunPicks: no post-finder (a combinator after the positional filter) and no search without a seed; both call the whole engine again.
- Tokenizer.TokenizeText: the lexicon is ids, classes, tags, combinators and commas; attributes and pseudo-classes are filters with a given set of nodes in Selectors, and unescaping is not modelled.
- NthChild.Parent.Matches: the children of the parent do not change between the queries.
- Callbacks.RepeatablePasses: callbacks that throw, and `empty`, which does not reset the loop variables, are not modelled; runs with locking and disabling are in CallbackMeaning.RunMeans.
- Deferred.CallsInOrder: `then`, `pipe` and `always` are built from the modelled calls and are left out; contexts and argument lists are one value.
- When.WhenAll.Settle: progress values are left out.
- HandlerList.HandlerList.Remove: a namespace is a set of names and matches by inclusion, as the built regular expression does on sorted names; special events, the DOM listener and the data store are left out.
- HandlerList.HandlerList.Split: the walk from the event's target and the matching of the delegated selectors, which is a search, are left out.
- AjaxConvert.Convert: the data filter and rethrowing are left out, and no registered converter is falsy.
- BoundedCache.Cache.Recall: the string suffix that keeps keys apart from built-in properties is left out.
- Sib.RunSafe: claims what failed and was stored only; the code itself drops messages during the back-off and does not store messages that were answered with an error.
- Sib.DrainsExactly: the hooks before and after sending do nothing, and the JSON form of a message without its session key is its identity.
- Sib.ListenersOnce: the sufficient direction; Sib.ListenersExactly is the iff over runs. Disconnecting is taken to work, the client counts registrations, and the listeners are configured before the first task; each submitted message is an object of its own.
- Sib.StepKeepsListeners: the registrations that SubscriptionServiceImpl.unsubscribeListeners (84-92) takes away when the application is stopped (StopAppWorkerImpl:28) are not modelled; the model ends before.
- Launcher.Launcher.Send: the future that the caller may wait for is left out.
- Launcher.Launcher.OnData: the hook before sending is the identity, and the handler's wait for the answer, which changes nothing, is left out.
- Launcher.Launcher.RunTask: a task runs without interleaving and at one reading of the clock; the interleavings are in Sib.Next.
- Nested calls of the engine (`:has`, `:not` with a selector), which change the run numbers in the middle of a search; the native querySelectorAll path, which avoids the engine; and whole searches of XML documents, whose walks are the uncached ones of Matchers.
- The caches of compiled selectors and tokens inside the search: Select works on token lists that it must not change, and BoundedCache states what a cache returns.
- Document fragments as the parent of the context, and nodes that move during a search.
- Creation of the executor, the transaction manager, logging, monitoring and the width of the table's column.
- The rest of the launcher (installing and starting applications, configuration) and of jQuery (DOM, CSS, animation, transports).
