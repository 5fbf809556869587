# Verified models of the Jestyr compiler

Jestyr is a compiler whose sources hold several self-contained algorithms with strong promises.
This project models nine of them in Dafny and proves the promises. Code that works by updating
state (the hash table's slabs and shards, the move checker's context, the compile-time
interpreter, the lexer, the in-place sort and the row swaps) is modelled by classes, arrays and
loops, each proved against a specification on values; code made of recursion is modelled by
functions.

| area | modules | main results |
|---|---|---|
| D-HARHT, the compiler's hash table | `Scattering`, `RadixTree`, `Slabs`, `Shards`, `FrontDirectories`, `DHarhts` | any run of a table behaves as a plain map; with fewer than 256 shards, exactly when keys clash it does not, and exactly when sealing brings a lost key back |
| consuming (move) rule | `Moves`, `MoveRuns`, `MoveYields`, `MoveSoundness`, `MovePaths`, `MoveMarks`, `MoveReports`, `MoveHazards`, `MoveSlips`, `MoveAlarms`, `MoveCheckers` | outside nine shapes an accepted function never touches a moved binding; in straightforward functions every reported one has a run that does; functions that show each condition needed |
| effect contracts | `Lexicographic`, `EffectChains` | the fixpoint yields the unique table of shortest call chains; the contract check is exact where no call resolves to a name two modules share |
| compile-time interpreter | `ComptimeValues`, `Comptime`, `ComptimeMeaning`, `ComptimeRefinement`, `ComptimeHazards`, `ComptimeFuel`, `ComptimeSpace`, `ComptimeOperators`, `ComptimeForms`, `ComptimeInterpreters` | operators by the equations they solve; flags implement structured control flow on tidy programs; four programs where they do not; fuel bounds time and space and nothing else |
| `@span` and spelling suggestions | `SpanContracts`, `SpanBounds`, `EditDistance` | the computed class is the growth of the longest run; exactly when the check errs; the two-row loop computes a metric |
| layout | `Layouts`, `LayoutModels`, `LayoutMeanings` | every layout is the least placement of its members; reordering is optimal; the syntax-side and the checked-type model agree |
| attestation | `RangeTexts`, `ContractDiffs`, `Manifests` | no breaking change means behavioural subtyping; printing and parsing a manifest is a round trip |
| lexer and lossless tree | `Lexical`, `Lexers`, `LexicalShapes`, `LosslessTree` | the token stream is the one division of the text by the grammar; trivia never matters; every text is rendered back exactly |
| error sets | `ErrorSets` | after a clean census no undeclared error leaves any function exactly when none is propagated from outside the file |

`Wrappers` holds `Option` and `Result`. `dafny verify dfyconfig.toml` checks everything.

## How to read the models

**D-HARHT.** A slab's entries are read as *views* (a leaf slot, or a map from radix to child), and
a tree as a map from routes to entries; `dict` and `contents` are the plain maps that a shard and
the table stand for. Keys are 64-bit words, indices and ids have the widths the source gives them.
`Insert` needs room for 20 more entries in the slabs of its shard, because the source stops with
an assertion when an index outgrows 29 bits (src/dharht.rs:135); hence the bound on the number of
operations in `Replay`. The root works at depth 1 (src/dharht.rs:756), so the top byte of a
scattered key is told apart by the shard number alone: with 256 shards, the default, nothing is
lost, and with fewer `Insert` says exactly when a key is. The lost key's leaf stays in the slab,
where sealing lists it in the front directory, so sealing is invisible exactly unless such a key
shares its prefix with at most sixteen leaves (`SealForLookup`).

**Consuming rule.** The calculus has the forms whose values can move: names, `self`, fields and
elements of any base, `let`, assignment, calls and literals, `if`, `match` with guards, `catch`,
`?`, blocks, loops with stride and `else`, `return`, jumps, `requires` and `ensures` clauses.
Operators, conditions, ranges and f-strings are lists of operands; casts and `unsafe`, `region`
and `concurrent` blocks are blocks, `and` and `or` evaluate their second operand or not, `par for`
is a loop. Which places own a resource is an input, as is what becomes of an argument: it is lent,
taken by a parameter that the checker resolves, or kept where it looks for none, as in a literal's
field or by an explicit parameter of a method (src/escape.rs:2119-2149).

A run chooses every branch, iteration and jump from a tape; some arm of a `match` is taken in
every run, and an endless loop is left only by a jump or a return. The value of an expression is
nobody's, all that a binding owns, or a part of it, and it moves when it is given, kept, bound,
matched or assigned, whatever form it comes out of; the code generator, too, takes a name that is
assigned or put into a field, or is a block's tail, for moved (src/cgen.rs:3442-3472,
src/cgen.rs:3629-3650). A run goes bad when it reads, overwrites, lends or gives away a moved
binding, or gives away or returns a part whose owner lives on. Beside the checker's marks and
reports the walk keeps `Unseen` marks and suspicions (`hazards`), on which the checker's own
fields do not depend. Nine shapes are accepted by the checker although some run of theirs goes
bad:

- `UsedUnseen`, a use after a move that the checker does not look at: of the result of a block,
  `if`, `match`, `catch` or `?` that is given or bound (src/escape.rs:2351, src/escape.rs:848-856),
  of `self`, of what was kept or assigned;
- `ReachesMoved`, a place that is looked at before an operand moves it and reached behind that: the
  target of an assignment, the base of an index, an argument lent to the same call;
- `MovedInLoop`, a rebinding of an outer name inside a loop, or such an unseen move of it, which has
  no floor test (src/escape.rs:848-856, unlike src/escape.rs:2316-2330);
- `GuardMoves`, a guard that gives a value away, since later arms start from the marks before the
  match;
- `GivesPart`, a part bound by `let` or by a pattern, or the result of a form, that is then given
  away. The comment at src/escape.rs:838-842 says that `let w = pair.writer` is already refused; the
  code refuses a place chain only as a `take` argument;
- `PartOutlives`, such a part used after its owner was given away;
- `ReturnsPart`, a part that is returned while its owner is dropped (src/cgen.rs:3112-3132);
- `StrideMoves`, a stride that moves something or uses what was moved: it is evaluated behind every
  round (src/cgen.rs:8883-8901) and never walked (src/escape.rs:1346);
- `ClauseMoves`, the same for `requires` and `ensures` clauses, which are asserted before the body
  and behind the result (src/cgen.rs:3047-3053, src/cgen.rs:3127-3133), while only the body is
  walked (src/escape.rs:763-795).

The soundness theorem excludes these nine shapes and nothing else; the walk decides all nine from
the function's text, and `MoveHazards` and `MoveSlips` show functions of each going bad. Values
behind a pointer are owned by no binding, and what a borrow names belongs to the caller: that it
is not given away is the borrow rule's promise, not this one's.

In the other direction, `ReportsAreReal` gives for every reported function that is
*straightforward* a run that goes bad. Straightforward is a test on the text, too: nothing
returns, jumps or loops forever before the end, save as the last statement of the body, or at the
end of the first branch of an `if` that gives nothing away; what a loop iterates over gives
nothing away; and a `match` has arms. Without the conditions on giving away, reports can be false
alarms (`MoveAlarms`): the checker joins the marks of a branch that has left, and walks an
iteration source above the loop's floor. `CheckIsExact` puts both directions together. For all
other functions `ReportsNameGiven` says that a report is about a name of which the body gives
something away or which it binds anew.

**Effects.** The graph is the one the probe pass records: calls between free functions, and the
intrinsics or external functions that have the effect. `HasEffect` says that some nesting of such
calls performs it. The pass stores what it measured under the declared name
(src/escape.rs:217-226), while a call is looked up under the name it was resolved to
(src/escape.rs:1959-1967), which differs when two modules declare one name (src/types.rs:35-41).
Calls of such functions are never reported. `CheckContract` is exact for the calls that are seen,
hence for all calls where none resolves to a shared name; any call of a shared name can be missed
(`SharedCallCanBeMissed`), and `SharedNameIsMissed` is a program where one is. The walk that
records calls skips the stride of a loop and the `requires` and `ensures` clauses
(src/escape.rs:1346, src/escape.rs:763-795), so a body here has no calls in those.

**Compile-time interpreter.** Operators are specified by what their results solve
(`ComptimeOperators.Computes`, `Combines`), which does not mention how these are computed; that
all integers held anywhere are 64-bit words (`ComptimeSpace.Bounded`) makes the specification
apply in every state a run can be in. An integer literal is its number; one that is no word is an
error, and lengths and positions are cast to words as in the source. `Comptime` has the
interpreter's flags and budget as values, `ComptimeInterpreters` as fields updated in place, and
`ComptimeMeaning` is a big-step semantics in which statements end normally or abruptly. *Tidy*
programs keep `return`, `break` and `continue` in statement, `if`, block and loop positions, jump
only inside a loop of the same function, have no bare `return` in constant initialisers, and leave
a loop that has an `else` only normally or by its own `break`. Termination is proved for all
programs, tidy or not: each function's measure is the fuel and the syntax.

**`@span`.** A run of a body has a length; loops go round at most `n` times, and a call is one
step, as the source's own note says. The check does not look inside operands, nor, by the same
line, into the bodies of `with alive` and `select`, which count as operands here
(src/attrs.rs:974), nor at what a loop iterates over or its stride (src/attrs.rs:938-942), nor at
the guards of arms (src/attrs.rs:967-969), though runs pay for all of these. `MissedIff` says
exactly when that makes the check wrong, and each of the three blind spots has an instance. The
body of a closure counts where the closure is called.

**Layout.** `LayoutMeanings` says what a layout is without computing one: the least placement in
which members have room, alignment and, in a struct, bytes of their own. The checked type table is
derived from the declarations by `Resolved` and `TableOf`, which stand for the type checker. Array
lengths are numbers.

**Attestation.** A *reading* interprets clause texts; the diff's promise is stated for every
reading that takes the text of a range at its word. Which range a text spells is said by a decimal
printer (`RangeTexts.Spells`), apart from the parser. A round trip holds for texts on one line,
clauses that do not end in a backtick, and error names without commas, and the two `...Kept`
lemmas say that the last two conditions are needed. The source's comment calls the phrases
round-trip safe (src/attest.rs:363-364); a payload error with two type arguments, printed by
`err_name_str`, is not.

**Lexer.** `LexicalShapes` is the grammar: where each kind of token and of trivia ends, by the
positions of quotes, comment marks and digits rather than by scanning. Positions count characters,
not bytes. Which characters beyond ASCII are blank or alphabetic is a parameter. The source says
that `token_range` gives the tokens inside a span (src/cst.rs:74); for arbitrary spans the code
gives the tokens that the span touches, which is the same for spans cut at token ends, and both
are proved.

**Error sets.** A program is its flat expression arena, in which operands stand before the
expressions that use them, and its owners. An error leaves a function at `err`, `?` or a rethrow,
raised there or propagated from anything the call may reach by name. The census reads one file
(src/main.rs:793-808), and a field call, be it a method call or a module-qualified one, is
resolved among the file's own methods. A call is marked `elsewhere` when it goes through an
imported module or type, so that it may reach functions the file does not show; what those may
fail with is not known. `FineIsSafeIff` says what a clean census is worth then, and
`QualifiedCallLeaks` is a file where it is worth nothing.

## Model

| member | source | states |
|---|---|---|
| `Scattering.ScatterInjective` | src/dharht.rs:1169-1174 | the scatter never maps two 64-bit keys to one value |
| `Scattering.ScatterIsPermutation` | src/dharht.rs:1169-1174 | the scatter is a bijection on 64-bit keys: the reversed steps undo it on both sides |
| `Scattering.XorShiftInjective` | src/dharht.rs:1169-1174 | `x ^ (x >> n)` with `n > 0` determines `x`, at every width |
| `Scattering.MulInjective` | src/dharht.rs:1169-1174 | wrapping multiplication by a number with an inverse modulo 2^64 determines the factor |
| `Scattering.RouteDeterminesKey` | src/dharht.rs:1177-1183 | two keys with the same top byte and the same radix bytes at depths 1 to 7 are the same key |
| `Scattering.FullShardsSeparate` | src/dharht.rs:572-578 | with 256 shards two keys of one shard with the same seven radix bytes are equal, so some depth 1 to 7 separates distinct ones |
| `Scattering.PrefixDeterminesShard` | src/dharht.rs:228-231 | keys that share a directory prefix of at least 8 bits lie in one shard, for every shard count |
| `Slabs.Tagged` | src/dharht.rs:133-155 | packing a slab index and a node kind into one tagged word loses neither |
| `Slabs.FirstAt` | src/dharht.rs:1207-1216 | the first slot that holds the radix, or none: every earlier slot holds another |
| `Slabs.Slab.FindChild` | src/dharht.rs:990-1032 | in every node kind the child found for a radix is the one the branch maps that radix to, and none when it maps none |
| `Slabs.Slab.GrowNode4ToNode16` | src/dharht.rs:1097-1112 | the entry becomes a Node16 of the same count and no branch's children change |
| `Slabs.Slab.GrowNode16ToNode32` | src/dharht.rs:1114-1129 | the entry becomes a Node32 of the same count and no branch's children change |
| `Slabs.Slab.GrowNode32ToNode48` | src/dharht.rs:1131-1147 | for a branch without duplicate radices the move to an index table changes no branch's children |
| `Slabs.Slab.GrowNode48ToNode256` | src/dharht.rs:1149-1166 | the direct table has the children the index table had, for every radix |
| `Slabs.ToIndexed` | src/dharht.rs:1131-1147 | the 48-slot node with its 256-entry index has, for each radix, the child in the last slot of that radix, which need not be the one that the search in the 32-slot node finds |
| `Slabs.LastIsFirstIff` | src/dharht.rs:1131-1147 | the move to an index table keeps a node's children exactly when the first and the last slot of each radix lead to one child, hence always without duplicate radices |
| `Slabs.ToDirect` | src/dharht.rs:1149-1166 | the 256-slot node has the children of the indexed node it is filled from |
| `Slabs.KeyedAppend` | src/dharht.rs:1034-1095 | a child put in the next slot is found from then on, unless an earlier slot has its radix, which keeps winning |
| `Slabs.Slab.AddChild` | src/dharht.rs:1034-1095 | at every fill level of every kind, with growth where the node is full, exactly the one binding radix to child is added and no other branch changes |
| `Slabs.Slab.AllocLeaf` | src/dharht.rs:906-910 | a new leaf slot and a new entry for it; every other entry means what it did |
| `Slabs.Slab.JoinLeavesInPlace` | src/dharht.rs:954-988 | the target becomes a chain of branches along the common radices with both leaves under different radices at its end; the tree stays well formed, and if the seven radices are all equal only the first leaf is reachable |
| `Slabs.Slab.JoinBelow` | src/dharht.rs:969-983 | one more branch for a shared radix, and the join goes on below it |
| `Slabs.Slab.HangLeaves` | src/dharht.rs:984-987 | the `else` that ends the join: both leaves are bound, or only the left one when the radices are equal |
| `Slabs.Slab.InsertAt` | src/dharht.rs:922-952 | returns the previous value of the key; afterwards the tree binds the map with the key added, or exactly the old map when another bound key has the same seven radices |
| `Slabs.Slab.SplitLeaf` | src/dharht.rs:933-939 | the split of a leaf by another key: the old leaf's entry moves down beside the new leaf, with the same outcome as the insertion |
| `RadixTree.RoutePrefix` | src/dharht.rs:775-839 | every beginning of a reachable route is reachable and a branch there leads on along the route |
| `RadixTree.LeafDecides` | src/dharht.rs:787-792 | a leaf met on the route of a key is the only leaf that could hold the key |
| `RadixTree.DeadEnd` | src/dharht.rs:793-835 | a branch on the route without the next radix proves the key is not bound |
| `RadixTree.SplitBinds` | src/dharht.rs:933-939 | after a split the tree binds the old map plus the new key exactly when the two keys differ in some radix of depths 1 to 7, and else the old map |
| `RadixTree.HangBinds` | src/dharht.rs:942-951 | a leaf hung under a free radix adds its binding, keeps the tree well formed and complete, and cannot collide |
| `RadixTree.RebindLeaf` | src/dharht.rs:929-931 | replacing a leaf's value rebinds that key and no other |
| `RadixTree.RelocateTree` | src/dharht.rs:700-722 | moving leaves by any permutation and remapping the leaf entries leaves the bound map, the tree and its completeness as they were |
| `Shards.Shard.Get` | src/dharht.rs:775-839 | the shortcut, jump and walk together answer what the shard's plain map holds, for present and absent keys |
| `Shards.Shard.Insert` | src/dharht.rs:754-773 | returns the previous binding; the shard's map gains the key, or stays the same exactly when the key collides |
| `Shards.Shard.RebuildSecondJump` | src/dharht.rs:848-862 | after the rebuild each of the 256 slots names the leaf, or the branch, or nothing that the root has for that radix |
| `Shards.ShortcutTells` | src/dharht.rs:775-789 | a leaf shortcut is on the route of the keys with that radix and a jump leads to depth 2 of the route |
| `Shards.LeafAnswers` | src/dharht.rs:787-792 | comparing the key of a reached leaf settles the lookup both ways |
| `Shards.Shard.CompactLeaves` | src/dharht.rs:700-735 | leaves end up sorted by scattered key and are the old ones rearranged, and the shard's map and shortcuts answer as before, whether or not a key was lost |
| `Slabs.SortLeaves` | src/dharht.rs:706 | the order found is a permutation of the leaf ids sorted by scattered key and key |
| `Slabs.Relocate` | src/dharht.rs:708-714 | the compacted leaves are the old ones in that order and the remap says where each one went |
| `Slabs.RemapEntries` | src/dharht.rs:716-720 | each leaf entry points to where its leaf went; branch entries are untouched |
| `FrontDirectories.PackRoundTrip` | src/dharht.rs:183-226 | unpacking undoes packing for every kind of directory word within its field widths, and only the empty word packs to 0 |
| `FrontDirectories.LeafRoundTrip` | src/dharht.rs:171-181 | unpacking a packed (shard, leaf) pair gives the pair back |
| `FrontDirectories.BuildDense` | src/dharht.rs:675-680 | each prefix of the dense table holds its last listed word, every other the empty word |
| `FrontDirectories.BuildSparse` | src/dharht.rs:681-695 | the paged table holds, page by page, the same words as the dense one would |
| `FrontDirectories.GroupByPrefix` | src/dharht.rs:590-601 | each prefix lists every leaf of that prefix in every shard, each once, and nothing else |
| `FrontDirectories.EnumerationSize` | src/dharht.rs:590-601 | a list that names every leaf of a prefix once is as long as there are such leaves |
| `FrontDirectories.OneShard` | src/dharht.rs:228-231 | all leaves of one prefix lie in one shard, so one shard id per bucket is enough |
| `FrontDirectories.MakeBucket` | src/dharht.rs:611-628 | a bucket holds exactly the leaves of its prefix, each once and with its key, in as many slots as the kind has |
| `FrontDirectories.BuildWords` | src/dharht.rs:603-667 | each prefix gets the word of its number of leaves: none for 0 or more than 16, the leaf itself for 1, a bucket of all its leaves of kind 4, 8 or 16 for 2-4, 5-8 and 9-16 |
| `FrontDirectories.BuildFrontDirectory` | src/dharht.rs:672-698 | under every profile the directory yields for each prefix that word, so it has none exactly for prefixes with 0 or more than 16 leaves |
| `DHarhts.WordAnswers` | src/dharht.rs:463-505 | a directory word settles the lookup of every key of its prefix, stored or not; there is no word exactly where the prefix of a stored key is crowded |
| `DHarhts.BucketSettles` | src/dharht.rs:305-351 | the first live slot that holds the key gives its value, and no live slot means the key is absent |
| `DHarhts.DHarht.BucketGet` | src/dharht.rs:472-481 | reads the value at the first matching live slot of a bucket |
| `DHarhts.DHarht.Get` | src/dharht.rs:455-509 | answers what a plain map of the table's contents holds, for every key, but that a sealed table also answers a lost key when at most 16 leaves share its prefix |
| `DHarhts.DHarht.Insert` | src/dharht.rs:446-453 | returns the previous binding and unseals; the contents gain the binding, or stay the same exactly when another bound key of the shard has the same seven radices |
| `DHarhts.FullTableNeverClashes` | src/dharht.rs:738-742 | in the default table of 256 shards that case never arises |
| `DHarhts.DHarht.SetLookupProfile` | src/dharht.rs:437-444 | choosing a profile unseals and leaves the contents alone |
| `DHarhts.DHarht.SealForLookup` | src/dharht.rs:584-670 | sealing leaves the contents alone and sorts all shards; it changes the answer for a key exactly when the key was lost and at most 16 leaves share its prefix |
| `DHarhts.DHarht.NothingToRecall` | src/dharht.rs:584-670 | a table that lost no key answers as its map does, sealed or not |
| `DHarhts.DHarht.CompactLeafStorage` | src/dharht.rs:700-735 | compacting every shard keeps the contents and the number of leaves under each prefix and sorts each shard's leaves, whether or not keys were lost |
| `DHarhts.Replay` | src/dharht.rs:437-509 | any run of inserts, lookups, profile changes and seals on a fresh table gives, step for step, the answers of a plain map |
| `DHarhts.FullTableClashFree` | src/dharht.rs:738-742 | with 256 shards every run qualifies for `Replay` |
| `DHarhts.TwinsClash` | src/dharht.rs:984-987 | for every smaller shard count two named keys share the shard and all seven radices |
| `DHarhts.LosesKey` | src/dharht.rs:984-987 | inserting these two keys into a fresh table of fewer than 256 shards leaves only the first one; the lookup of the second finds nothing |
| `DHarhts.SealFindsLostKey` | src/dharht.rs:584-670 | sealing that table makes the lookup of the lost key find it again |
| `Moves.Depth` | src/escape.rs:448-452 | the innermost scope that binds a name, so shadowed bindings are told apart |
| `Moves.Walk` | src/escape.rs:881-1425 | walking any expression closes every scope it opens, drops no report and no mark, and, when it reports nothing, adds no mark below the innermost loop floor |
| `Moves.WalkLoop` | src/escape.rs:1336-1398 | the same for a loop with its own floor and scope |
| `Moves.WalkStmt` | src/escape.rs:797-875 | the same for a statement, which may only add a binding to the innermost scope |
| `Moves.Merge` | src/escape.rs:490-496 | branch marks are united scope by scope |
| `MoveYields.YieldsSound` | src/escape.rs:876-930 | in every run the value of an expression, whatever its form, is nobody's, or comes out of one of the bindings the checker's scopes show at its tails, and is a part only where they show one |
| `MoveSoundness.UseSound` | src/escape.rs:1417-1425 | a name used without a report has not been moved away |
| `MoveSoundness.GiveSound` | src/escape.rs:2305-2353 | whatever form an argument has, when it is given without a report or a suspicion its value is no part of a living owner, and a mark, the checker's or an unseen one, covers the move in every run |
| `MoveSoundness.SlipSound` | src/escape.rs:2305-2353 | a value that moves where the checker does not look is a whole value, and the unseen marks cover every binding it may come out of |
| `MoveSoundness.LentSound` | src/escape.rs:1109-1124 | nothing that a call was lent has been moved by its other arguments |
| `MoveSoundness.ExprSound` | src/escape.rs:881-1425 | for every expression and run the marks after the walk cover the bindings moved in the run, on every path and through results of any form |
| `MoveSoundness.IfSound` | src/escape.rs:887-903 | the same across the two branches of an `if` and across a missing `else` |
| `MoveSoundness.ArmsSound` | src/escape.rs:904-927 | the same across the arms and guards of a `match`, each arm starting from the marks before it |
| `MoveSoundness.LoopKeepsMarks` | src/escape.rs:1336-1398 | a loop walked without reports marks nothing declared outside it |
| `MoveSoundness.IterateSound` | src/escape.rs:1336-1398 | hence one walk of the loop covers any number of iterations, ended any way, each with its stride |
| `MoveSoundness.StrideSound` | src/escape.rs:1328-1398 | the stride, which is evaluated behind every round and never walked, leaves the marks before the loop covering the run |
| `MoveSoundness.StmtSound` | src/escape.rs:797-875 | the same for `let`, `return` and expression statements, with initialisers and results of any form |
| `MoveSoundness.AcceptedNeverBad` | src/escape.rs:763-927 | a function without a report and without one of the nine hazards never reads, overwrites, lends or gives away a moved binding, nor gives away or returns a part of a living one, in any run, its clauses and strides included |
| `MoveMarks.GentleMarks` | src/escape.rs:881-1425 | in any expression whatever, code that gives nothing of a name away adds no mark to it, and no report about it where there was no mark |
| `MoveReports.ReachExpr` | src/escape.rs:881-1425 | whatever the walk of straight code marks as moved, some run has moved: for each mark at its end there is a run up to there after which the binding is gone |
| `MoveReports.HarmExpr` | src/escape.rs:881-1425 | every report in straight code has its clue: nothing, a mark made before, or a binding that a round of the enclosing loop gives away and the next one meets; and wherever the clue holds some run goes bad |
| `MoveReports.HarmRounds` | src/escape.rs:1336-1398 | a clue within a loop body holds from outside the loop: where it takes two rounds, the first moves the binding and the second meets it moved |
| `MoveReports.ReportsAreReal` | src/escape.rs:763-927 | reports are right: a straightforward function with a report has a run that goes bad, and the lemma gives its tape |
| `MoveReports.CheckIsExact` | src/escape.rs:763-927 | for straightforward functions without one of the nine hazards there is no report exactly when no run goes bad |
| `MoveReports.ReportsNameGiven` | src/escape.rs:2305-2353 | in any function whatever, with jumps and endless loops too, each report is about a name of which the body gives an owning place away or which it binds anew |
| `MoveReports.GentleIsAccepted` | src/escape.rs:763-927 | hence a function that gives nothing away gets no report |
| `MoveAlarms.SourceAlarm` | src/escape.rs:1340-1350 | `for x in eat(take d) { }` is reported though no run goes bad: what is iterated over is walked above the loop's floor, but evaluated once |
| `MoveAlarms.LeavingAlarm` | src/escape.rs:887-903 | `if c { eat(take d); return }` and then `d` is reported though no run goes bad: the marks of a branch that leaves are joined all the same |
| `MoveHazards.LoopHazardIsReal` | src/escape.rs:848-856 | rebinding an outer name inside a loop is accepted, and its second pass moves a value already gone |
| `MoveHazards.GuardHazardIsReal` | src/escape.rs:904-927 | a guard that gives a value away is accepted although a later arm uses it |
| `MoveHazards.OverwriteHazardIsReal` | src/escape.rs:2305-2353 | `d = f(take d)` is accepted although it overwrites a moved binding |
| `MoveHazards.PartHazardIsReal` | src/escape.rs:837-857 | `let w = d.part; g(take w)` is accepted although `d` still owns the part |
| `MoveHazards.LeftPartHazardIsReal` | src/escape.rs:837-857 | `let w = d.part; g(take d)` and then `w` is accepted although the part went with `d` |
| `MoveHazards.PatternHazardIsReal` | src/escape.rs:904-927 | `match d { P(x) => g(take x) }` is accepted although `d` still owns the part |
| `MoveSlips.ResultHazardIsReal` | src/escape.rs:2305-2353 | `eat({ d }) eat(d)` is accepted although one value is given away twice |
| `MoveSlips.InitialiserHazardIsReal` | src/escape.rs:837-857 | `let w = if c { d } else { make() }; eat(w); eat(d)` is accepted although one value is given away twice |
| `MoveSlips.ReceiverHazardIsReal` | src/escape.rs:1428-1438 | `eat(self) eat(self)` is accepted in a method that takes `self` |
| `MoveSlips.LiteralHazardIsReal` | src/escape.rs:2119-2149 | what a literal's field or a parameter the checker does not resolve keeps can be given away again |
| `MoveSlips.AssignHazardIsReal` | src/escape.rs:995-1072 | `g = d; eat(d)` is accepted although the value is in `g` |
| `MoveSlips.ResultPartHazardIsReal` | src/escape.rs:2305-2353 | `eat({ d.part })` is accepted, unlike `eat(d.part)` |
| `MoveSlips.ReturnHazardIsReal` | src/cgen.rs:3112-3132 | `return d.part` is accepted although `d` is dropped, with its part, before the caller has it |
| `MoveSlips.LentHazardIsReal` | src/escape.rs:1109-1124 | `f(d, take d)` is accepted although the callee reads what it was lent behind the move |
| `MoveSlips.IndexHazardIsReal` | src/escape.rs:1148-1151 | `d[eat(d)]` is accepted although `d` is read behind the move |
| `MoveSlips.StrideHazardIsReal` | src/escape.rs:1340-1350 | a loop whose stride gives `d` away is accepted, and its second round gives a value already gone |
| `MoveSlips.ClauseHazardIsReal` | src/escape.rs:763-795 | `ensures d.id > 0` behind `return eat(d)` is accepted although it reads a moved binding |
| `MoveCheckers.Checker.WalkExpr` | src/escape.rs:881-1425 | the context updated in place ends as the value-level walk of the soundness theorem does |
| `MoveCheckers.Checker.WalkIf` | src/escape.rs:887-903 | forking, swapping and merging the consumed sets in place gives the union of both branches |
| `MoveCheckers.Checker.WalkMatchArms` | src/escape.rs:904-927 | the accumulator over the arms gives the union of all of them, each from the saved marks |
| `MoveCheckers.Checker.WalkCall` | src/escape.rs:1109-1124 | `take` arguments are marked in evaluation order, each as soon as it was walked |
| `MoveCheckers.Checker.WalkPlace` | src/escape.rs:1147-1151 | the base of a field or an element is walked before its index |
| `MoveCheckers.Checker.WalkFor` | src/escape.rs:1336-1398 | pushing and popping the floor and the scope in place is the value-level loop walk |
| `MoveCheckers.Checker.ConsumeTakeArg` | src/escape.rs:2305-2353 | marks a bare owning name bound inside the innermost loop, reports one bound outside it and any owning part, and does nothing else; that these reports are right and enough is `MoveReports.CheckIsExact` |
| `MoveCheckers.Checker.MarkConsumed` | src/escape.rs:471-476 | the mark goes to the innermost scope that binds the name |
| `MoveCheckers.Checker.MergeConsumed` | src/escape.rs:490-496 | unites the marks of one branch into the current ones |
| `MoveCheckers.Checker.ScopeDepthOf` | src/escape.rs:448-452 | the search from the inside finds the innermost scope, or none |
| `MoveCheckers.Checker.CheckBlock` | src/escape.rs:797-875 | a block's scope is opened and closed around its statements |
| `MoveCheckers.CheckFn` | src/escape.rs:763-795 | no report and none of the nine hazards means no bad run at all; in a straightforward function a report means a bad run |
| `Lexicographic.LessStrictTotal` | src/escape.rs:267 | the order on chains of names is a strict total order whenever the one on names is |
| `EffectChains.BetterIsTotal` | src/escape.rs:264-268 | shorter first, then lexicographic: of two different chains exactly one is better |
| `EffectChains.ClosureUnique` | src/escape.rs:238-292 | at most one table satisfies the closure's specification, so the result does not depend on any visiting order |
| `EffectChains.Relax` | src/escape.rs:257-272 | the best candidate leads to the effect, is never worse than the recorded chain, and no callee offers a better one |
| `EffectChains.Sweep` | src/escape.rs:250-280 | one pass keeps every entry a valid chain, only improves entries, and reports a change exactly when some entry got better |
| `EffectChains.NearGrows` | src/escape.rs:250-284 | a changing sweep settles some function further away than any before, so there are at most as many sweeps as functions |
| `EffectChains.StableIsBest` | src/escape.rs:281-284 | once a sweep changes nothing every entry is the best chain there is |
| `EffectChains.ShortestChains` | src/escape.rs:238-292 | terminates on every graph; the table holds exactly the functions from which a direct one is reachable, each with a shortest chain, the lexicographically least of those |
| `EffectChains.EffectClosure` | src/escape.rs:193-233 | the probe pass records exactly the own effect and the callees of each function whose name no other module shares, and the table is the closure of what was recorded |
| `EffectChains.ChainPerforms` | src/escape.rs:193-292 | a recorded chain is a call path along which the effect is performed |
| `EffectChains.PerformsHasChain` | src/escape.rs:193-292 | whatever performs the effect within some depth has a chain no longer than that depth |
| `EffectChains.TableIsEffect` | src/escape.rs:193-292 | a function with a name of its own is in the table exactly when some nesting of calls of such functions performs the effect |
| `EffectChains.CheckBody` | src/escape.rs:1975-2047 | one finding for each guilty operation, in order, with a chain from the called function to a culprit |
| `EffectChains.CheckContract` | src/escape.rs:1975-2047 | an annotated body gets no finding exactly when it cannot perform the effect along calls of functions with names of their own; where no call resolves to a shared name, exactly when it cannot perform it at all |
| `EffectChains.ContractIsExact` | src/escape.rs:1975-2047 | the per-call test is free of findings exactly when the body cannot perform the effect along calls of functions with names of their own |
| `EffectChains.UnsharedSuffices` | src/escape.rs:1959-1967 | where no call resolves to a shared name those calls are all there is |
| `EffectChains.SharedCallUnseen` | src/escape.rs:1959-1967 | a call that resolves to a shared name is never reported, whatever the function does |
| `EffectChains.SharedCallCanBeMissed` | src/escape.rs:1959-1967 | for every call of a shared name in a body without an effect of its own there are function bodies with which the body performs the effect and nothing is found |
| `EffectChains.SharedNameIsMissed` | src/types.rs:35-41 | two modules declare `make` and one of them allocates: a caller of that one passes |
| `EffectChains.ChainEndsAtCulprit` | src/escape.rs:2029-2030 | the last name of a chain has the effect by itself |
| `ComptimeValues.IntOpStaysInRange` | src/comptime.rs:535-582 | every integer operator that succeeds on 64-bit words yields a 64-bit word |
| `ComptimeValues.RemainderIsSmall` | src/comptime.rs:535-582 | division truncates toward zero: the remainder has the dividend's sign and is smaller than the divisor |
| `ComptimeValues.BitwiseStaysInRange` | src/comptime.rs:535-582 | bitwise operators on two's-complement words stay within their width |
| `ComptimeOperators.IntOpComputes` | src/comptime.rs:535-582 | an integer operator yields the one 64-bit word that solves its equation, or an error that tells why none does: a difference `c` has `c + b == a`, a product is repeated addition, quotient and remainder recompose the dividend, shifts are by powers of two, the rest goes bit by bit; comparisons go by the sign of the difference |
| `ComptimeOperators.SolutionUnique` | src/comptime.rs:535-582 | these equations have at most one word as a solution |
| `ComptimeOperators.OneComparison` | src/comptime.rs:535-582 | exactly one of less, equal and greater holds, and the other three are their negations |
| `ComptimeOperators.BitsDetermine` | src/comptime.rs:550-565 | a number is determined by its bits, of any width |
| `ComptimeOperators.BinaryCombines` | src/comptime.rs:482-533 | operators on any two values: integers compute, strings join and compare at their first difference, lists and truth values only equal each other, and nothing else combines |
| `ComptimeOperators.UnaryTurns` | src/comptime.rs:445-458 | negation cancels against its operand and fails exactly where no word does, complement turns every bit |
| `ComptimeOperators.OperatorMeans` | src/comptime.rs:460-533 | evaluating an operation evaluates the operands from left to right, ends at the first error and yields what the operator's specification says, in every state a run can be in |
| `ComptimeOperators.PrefixMeans` | src/comptime.rs:445-458 | the same for prefix operators |
| `ComptimeOperators.ConstantMeans` | src/comptime.rs:190-198 | hence for every constant that is one operation on two others |
| `ComptimeOperators.CompoundLeaves` | src/comptime.rs:829-879 | what `place op= v` leaves in its place is what the operator makes of the old value and `v` |
| `ComptimeOperators.UpdateMeans` | src/comptime.rs:829-879 | after the write the place holds that, and no other place changes |
| `ComptimeOperators.AssignMeans` | src/comptime.rs:829-879 | evaluating an assignment evaluates the value, then the place, and then leaves that in the place |
| `ComptimeForms.AssignedReads` | src/comptime.rs:881-947 | behind `x[n0][n1]... = v` the same expression evaluates to the value of `v`, and every place apart to what it was |
| `ComptimeForms.PlaceIs` | src/comptime.rs:881-901 | an indexed name is the place of that name with the indices from left to right |
| `ComptimeForms.ValueIs` | src/comptime.rs:319-343 | as an expression it has the value read from that place, or the error |
| `ComptimeForms.LogicMeans` | src/comptime.rs:460-480 | `and` and `or` are the connectives, and the right side is evaluated exactly when the left one leaves the answer open |
| `ComptimeForms.RangeMeans` | src/comptime.rs:770-801 | a range yields `lo`, `lo + stride` and so on as long as these have not passed its end, a step each, and fails exactly when the budget ends first or an item's successor is no word |
| `ComptimeForms.OpenedReads` | src/comptime.rs:679-692 | in an iteration the first name is the item, the second its position, and other names mean what they did |
| `ComptimeForms.LiteralReads` | src/comptime.rs:298-343 | indexing a list literal gives the number at that position or the error of the index; it runs out of steps exactly beyond 99 997 numbers |
| `ComptimeForms.LengthReads` | src/comptime.rs:344-352 | `.len` counts the elements of a list literal and the characters of a string |
| `ComptimeForms.RepeatReads` | src/comptime.rs:307-318 | `[v; n]` holds `v` at exactly the positions below `n`, with a step for each |
| `ComptimeForms.ParameterReads` | src/comptime.rs:994-1006 | a callee sees its arguments under its parameters, in order |
| `ComptimeForms.DepthIs64` | src/comptime.rs:41-44 | a function that calls itself `n` times succeeds exactly when that is fewer than 64 |
| `ComptimeValues.Find` | src/comptime.rs:903-910 | the innermost scope that binds the name and the latest binding in it |
| `ComptimeValues.WritePathReads` | src/comptime.rs:912-930 | a written element path reads back the new value and every separate path reads as before |
| `ComptimeValues.WriteReads` | src/comptime.rs:932-947 | the same for a place in the environment: no other name and no separate place changes |
| `Comptime.Eval` | src/comptime.rs:283-417 | every evaluation, failed or not, leaves as many scopes open as it found, restores the call depth and the constants in progress, and never gains fuel |
| `Comptime.EvalBlock` | src/comptime.rs:584-589 | the same for a block whose statements fail or jump |
| `Comptime.LoopItems` | src/comptime.rs:675-693 | the same for a loop over items, whose scope is closed however the body ends |
| `Comptime.EvalCall` | src/comptime.rs:949-1016 | the same for a call, whose caller keeps its scopes and depth even when the body fails |
| `ComptimeRefinement.ExprAgrees` | src/comptime.rs:283-417 | for tidy code the flag interpreter and the structured semantics give the same value or error, environment and fuel, and the flags say how the code ended |
| `ComptimeRefinement.StmtsAgree` | src/comptime.rs:591-631 | the same for statement sequences: the rest is skipped exactly when a transfer is under way |
| `ComptimeRefinement.BodyAgrees` | src/comptime.rs:712-736 | one iteration: a labelled transfer stops exactly the loops inside its target and is consumed by its target |
| `ComptimeRefinement.ForAgrees` | src/comptime.rs:640-707 | loops of all three heads with `else` agree |
| `ComptimeRefinement.ItemsAgree` | src/comptime.rs:675-693 | each iteration has its own scope and binding in both |
| `ComptimeRefinement.NameAgrees` | src/comptime.rs:419-443 | a constant means its initialiser in an empty scope, cycles included |
| `ComptimeRefinement.AssignAgrees` | src/comptime.rs:829-901 | assignments through index paths agree, with the place evaluated first |
| `ComptimeRefinement.CallAgrees` | src/comptime.rs:949-1016 | a callee's `return` ends the callee alone and never changes its caller's state |
| `ComptimeRefinement.InterpreterMeansIt` | src/comptime.rs:190-198 | the interpreter's result on a tidy program is the meaning of the expression |
| `ComptimeHazards.ElseRunsAfterReturn` | src/comptime.rs:701-705 | after a `return` in its body a loop still runs the first statement of its `else`, so the interpreter fails where the meaning is 1 |
| `ComptimeHazards.ConstantReturnsForItsReader` | src/comptime.rs:437-442 | a bare `return` in a constant's initialiser ends the function that reads the constant |
| `ComptimeHazards.CalleeStopsItsCaller` | src/comptime.rs:1007-1013 | a stray `break` in a callee stops the caller's statements |
| `ComptimeHazards.OperandRunsAfterReturn` | src/comptime.rs:460-533 | a `return` inside an operand does not keep the other operand from running |
| `ComptimeFuel.MoreFuel` | src/comptime.rs:270-281 | an evaluation that does not run out of fuel ends the same with any larger budget and leaves exactly the extra over |
| `ComptimeFuel.BudgetDoesNotMatter` | src/comptime.rs:190-198 | a constant that evaluates within some budget keeps its value or error under every larger one |
| `ComptimeSpace.Bounded` | src/comptime.rs:283-317 | whatever is held anywhere, at any depth: an integer is a 64-bit word and a list is no longer than the fuel spent so far |
| `ComptimeSpace.TablesFitTheBudget` | src/comptime.rs:270-281 | hence no constant holds a list longer than the whole budget |
| `ComptimeInterpreters.Interp.Evaluate` | src/comptime.rs:190-198 | starts afresh whatever came before; its result is the flag function's, and on tidy programs the meaning; what the operators in it compute is `ComptimeOperators.OperatorMeans` |
| `ComptimeInterpreters.Interp.EvaluateLength` | src/comptime.rs:201-211 | a length is the evaluated value when that is a non-negative integer, and an error otherwise |
| `ComptimeInterpreters.Interp.EvaluateConst` | src/comptime.rs:214-219 | an unknown constant is an error, a known one its evaluated initialiser |
| `ComptimeInterpreters.Interp.CallFn` | src/comptime.rs:229-254 | the error cases in order; on tidy programs the result is the meaning of the body with its parameters bound |
| `ComptimeInterpreters.Interp.EvalExpr` | src/comptime.rs:283-417 | with fuel, depth and flags as fields and the scope stack updated in place, the evaluator ends as the flag function does, in result, fields and stack |
| `ComptimeInterpreters.Interp.NameOf` | src/comptime.rs:419-443 | the constant's mark is set and cleared around its initialiser |
| `ComptimeInterpreters.Interp.LogicOf` | src/comptime.rs:460-480 | short-circuit operators evaluate the right side only when needed |
| `ComptimeInterpreters.Interp.StmtsOf` | src/comptime.rs:591-631 | the statement loop stops as soon as a flag is up |
| `ComptimeInterpreters.Interp.ForOf` | src/comptime.rs:640-707 | the loop and its `else`, with the accumulator that remembers a `break` |
| `ComptimeInterpreters.Interp.BodyOf` | src/comptime.rs:712-736 | one iteration consumes or passes on the pending transfer |
| `ComptimeInterpreters.Interp.Forever` | src/comptime.rs:656-661 | an endless loop pays a step for each iteration, so it always ends |
| `ComptimeInterpreters.Interp.WhileTrue` | src/comptime.rs:662-674 | a conditional loop pays a step before each test |
| `ComptimeInterpreters.Interp.Each` | src/comptime.rs:675-693 | each item's scope is opened and closed around the body, failed or not |
| `ComptimeInterpreters.Interp.Count` | src/comptime.rs:770-801 | a range pays a step for each integer it produces and fails when the next one does not exist |
| `ComptimeInterpreters.Interp.AssignTo` | src/comptime.rs:829-879 | plain and compound assignment in place through an index path |
| `ComptimeInterpreters.Interp.CallOf` | src/comptime.rs:949-1016 | the callee's frame, the depth, and the caller's `return`, saved and put back |
| `EditDistance.DistSymmetric` | src/attrs.rs:1112-1125 | the distance does not depend on the order of its arguments |
| `EditDistance.DistToItself` | src/attrs.rs:1112-1125 | no string is at a positive distance from itself |
| `EditDistance.DistZeroOnlyIfEqual` | src/attrs.rs:1112-1125 | only equal strings are at distance zero |
| `EditDistance.DistTriangle` | src/attrs.rs:1112-1125 | the triangle inequality, so the distance is a metric |
| `EditDistance.ScriptIsLongEnough` | src/attrs.rs:1112-1125 | no sequence of single-character insertions, deletions and replacements is shorter than the distance |
| `EditDistance.ShortestScript` | src/attrs.rs:1112-1125 | some such sequence has exactly that length |
| `EditDistance.Levenshtein` | src/attrs.rs:1112-1125 | the two rows, filled in place and swapped, yield the distance for all inputs |
| `EditDistance.DidYouMean` | src/attrs.rs:1088-1097 | the first name at minimum distance when that is at most 2, else none |
| `SpanContracts.RunsAtMost` | src/attrs.rs:913-976 | no run of a body is longer than its longest-run function says |
| `SpanContracts.LongestRuns` | src/attrs.rs:913-976 | some run is exactly as long |
| `SpanBounds.PolylogBelowLinear` | src/attrs.rs:610-612 | every power of the logarithm is at most a constant times n |
| `SpanBounds.OrderBounds` | src/attrs.rs:610-612 | a class no higher in rank grows no faster, up to a constant |
| `SpanBounds.Outgrows` | src/attrs.rs:610-612 | a class of higher rank outgrows every multiple of the lower one, so rank order is growth order |
| `SpanBounds.LongestBelow` | src/attrs.rs:913-976 | the longest run is at most a constant times the computed class, for every n |
| `SpanBounds.LongestAbove` | src/attrs.rs:913-976 | and at least the class, so the class is tight |
| `SpanBounds.ObeysIffSpan` | src/attrs.rs:879-909 | some constant bounds all runs in a class exactly when the full class of the body is at most it |
| `SpanBounds.WordMeans` | src/attrs.rs:864-875 | each word names its own growth, `quadratic` a constant times `n * n`, and only these words name one |
| `SpanBounds.ContractIsExact` | src/attrs.rs:862-909 | for bodies with no loop in an operand, in a source or stride of a loop or in an arm's guard the check accepts exactly the known words whose bound, up to one constant, all runs keep |
| `SpanBounds.FindingIsRight` | src/attrs.rs:879-909 | a reported violation is one, for every body: no constant makes all runs keep the word's bound |
| `SpanBounds.MissedIff` | src/attrs.rs:935-976 | for every body a violation goes unreported exactly when the declared class lies between what the check sees and the full class |
| `SpanBounds.HiddenLoopIsMissed` | src/attrs.rs:974 | a loop inside an operand is such a case: linear runs pass as constant |
| `SpanBounds.GuardLoopIsMissed` | src/attrs.rs:967-969 | so is a loop in an arm's guard, since only the arms' bodies are visited |
| `SpanBounds.SourceLoopIsMissed` | src/attrs.rs:938-942 | and any iteration source above linear, since only the condition of a `while` is visited: its runs pass as linear |
| `SpanBounds.LoopIsLinear` | src/attrs.rs:938-950 | a loop over constant steps and constant sources has the linear class |
| `Layouts.AlignToBounds` | src/layout.rs:98-103 | rounding up gives the next multiple of the alignment and no further one |
| `Layouts.PlaceFields` | src/layout.rs:287-300 | the loop over a running offset yields each field's rounded-up offset, the padded size and the strictest alignment |
| `Layouts.AggregateAligned` | src/layout.rs:287-300 | an aggregate of aligned fields is aligned: power-of-two alignment, size a multiple of it |
| `Layouts.AutoOrderOrders` | src/layout.rs:366-371 | the order falls in alignment and keeps declaration order between equals |
| `Layouts.AutoOrderIsPermutation` | src/layout.rs:366-371 | each field is emitted exactly once |
| `Layouts.SortByAlign` | src/layout.rs:366-371 | the stable sort in place yields that order |
| `Layouts.Insert` | src/layout.rs:366-371 | one step of it: the index moves behind all of at least its alignment, the rest keep their places |
| `Layouts.NoPadding` | src/layout.rs:345-365 | in falling order of alignment each offset is the sum of the sizes before it |
| `Layouts.AutoKeepsFields` | src/layout.rs:366-371 | reordering keeps the fields and the aggregate's alignment |
| `Layouts.AutoIsBest` | src/layout.rs:345-371 | the emitted order has no interior padding and no permutation of the fields has a smaller total size |
| `LayoutMeanings.StructUnique` | src/layout.rs:287-300 | there is at most one least placement of members in order: each at a multiple of its alignment, none sharing a byte, all inside a multiple of the strictest alignment |
| `LayoutMeanings.AggregateIsStruct` | src/layout.rs:287-300 | the struct rule computes it, offsets and size |
| `LayoutMeanings.UnionIsUnion` | src/layout.rs:247-257 | a union is the least space of the strictest alignment in which every member fits from its beginning |
| `LayoutMeanings.TaggedIsTagged` | src/layout.rs:270-283 | in a tagged enum all payloads fit from one aligned offset behind the four bytes of the tag, and offset and size are the least for which they do |
| `LayoutMeanings.AutoIsSmallest` | src/layout.rs:366-371 | a reordered struct is the smallest one that these members have in any order |
| `LayoutMeanings.NicheIsNullable` | src/layout.rs:140-154 | an enum is a bare pointer exactly when it has two variants, one empty and one of a single pointer |
| `LayoutMeanings.PrimMeans` | src/layout.rs:106-136 | exactly these primitives have a layout: numbers by the width in their name, words as wide as a pointer, texts as an address and a length, owned texts and lists as three words |
| `LayoutMeanings.ArrayIsStruct` | src/layout.rs:199-228 | an array is the struct of its elements, and an empty one keeps their alignment |
| `LayoutMeanings.TypeMeans` | src/layout.rs:199-228 | so each type has the least placement of what it is made of |
| `LayoutMeanings.NamedMeans` | src/layout.rs:232-283 | and each declared type: struct, reordered struct, union, tagged or niche enum, distinct |
| `LayoutMeanings.DeclMeans` | src/layout.rs:473-541 | the same for the syntax-side model, from the declarations alone |
| `LayoutMeanings.DeclKnownIff` | src/layout.rs:473-541 | it has a layout for a declaration exactly unless that has a bit-field, is generic or holds a type without one |
| `LayoutMeanings.TypeKnownIff` | src/layout.rs:433-464 | and for a type exactly unless it is unknowable, an array of such a type or of unknown length, or an undeclared name |
| `LayoutMeanings.OffsetMeans` | src/layout.rs:580-600 | a queried offset is the field's place in the least placement that is emitted, 0 in a union |
| `LayoutModels.AlignInvariant` | src/layout.rs:380-404 | which struct is reordered or overlapped never changes what is knowable or any alignment, so asking under an empty model is sound |
| `LayoutModels.NamedInvariant` | src/layout.rs:232-283 | the same for declared types |
| `LayoutModels.MoreFuel` | src/layout.rs:199-283 | an answer at some nesting depth is the answer at every greater one |
| `LayoutModels.NicheAgrees` | src/layout.rs:140-154 | the niche test on the checked variants and the one on the syntax are the same |
| `LayoutModels.GrantedWhenAsked` | src/layout.rs:178-193 | where every field is knowable the model records a struct exactly when it asked to be reordered |
| `LayoutModels.ModelsAgree` | src/layout.rs:433-464 | whenever the syntax-side model gives a type a layout the checked-type model gives the same one |
| `LayoutModels.NamedAgree` | src/layout.rs:473-541 | the same for structs, unions, tagged and niche enums and distinct types, nested and reordered; what that layout is says `LayoutMeanings.DeclMeans` |
| `LayoutModels.OffsetsAgree` | src/layout.rs:580-600 | a queried field offset is the offset the layout report gives |
| `LayoutModels.LayoutAligned` | src/layout.rs:199-228 | every layout computed is aligned, at every nesting depth |
| `LayoutModels.ReorderedStructIsSmallest` | src/layout.rs:262-267 | hence a reordered struct has the smallest size any order of its fields has |
| `RangeTexts.ParsesDecimal` | src/attest.rs:684-693 | a text parses as a number exactly when it denotes it in decimal, with an optional sign, and the number has 64 bits |
| `RangeTexts.ParsesRanges` | src/attest.rs:684-693 | a text parses as a range exactly when it spells it: two such numbers, padded or not, around `..` or `..=` |
| `RangeTexts.PrintedRangeParses` | src/attest.rs:684-693 | printed in decimal, every range of 64-bit bounds is read back |
| `ContractDiffs.WidenedMeans` | src/attest.rs:676-683 | widened means that both texts spell ranges of one form and both bounds moved outwards or stayed |
| `ContractDiffs.WidenedIsSuperset` | src/attest.rs:676-693 | of two texts that spell ranges of one form, widened means superset, and conversely when the old one is not empty |
| `ContractDiffs.DiffItem` | src/attest.rs:589-671 | reports exactly the differences of two item contracts, each with its verdict |
| `ContractDiffs.DiffStatus` | src/attest.rs:592-629 | the visibility, signature, deprecation and `@no_panic` part of that |
| `ContractDiffs.DiffClauses` | src/attest.rs:631-653 | the error, `requires` and `ensures` part |
| `ContractDiffs.DiffBounds` | src/attest.rs:655-670 | the refinement part, with each range change judged |
| `ContractDiffs.Diff` | src/attest.rs:551-576 | reports exactly the removed, added and changed items; that a verdict on a range goes by the numbers it spells is `ContractDiffs.WidenedMeans` |
| `ContractDiffs.CompatibleSubstitutes` | src/attest.rs:589-671 | if all differences of an item are compatible then, under any reading of the clause texts, every legal old call is legal and every new outcome was allowed before |
| `ContractDiffs.FaithfulParses` | src/attest.rs:684-693 | a reading takes the texts that spell ranges at their word, `lo..hi` as the integers from `lo` to below `hi`, exactly when it does so with every text that parses |
| `ContractDiffs.NoBreakingKeepsPromises` | src/attest.rs:551-671 | a diff without a breaking change keeps every public item, its core signature and that guarantee |
| `ContractDiffs.BreakingIsReal` | src/attest.rs:589-671 | each breaking verdict about a contract comes with a reading under which some caller is let down, but for a range that only looks narrower |
| `ContractDiffs.NarrowedIsRealIff` | src/attest.rs:676-693 | a changed range keeps some integer out under some reading exactly when the old one is not empty or not literal and a literal new one does not cover it, whatever the two forms |
| `ContractDiffs.SameRangeIsReported` | src/attest.rs:676-693 | for all bounds, one range rewritten in the other form, as `0..9` to `0..=8`, is reported as narrowed all the same |
| `ContractDiffs.Reflexive` | src/attest.rs:551-576 | no contract breaks itself |
| `ContractDiffs.Composes` | src/attest.rs:551-576 | no public break at either of two steps means none across both |
| `ContractDiffs.InternalDoesNotCompose` | src/attest.rs:556-563 | for internal items this fails: removed and added again with another signature is a break only across both steps |
| `Manifests.LinesOfText` | src/attest.rs:420-422 | splitting the printed text gives its lines back |
| `Manifests.ClauseTextKept` | src/attest.rs:368-371 | a clause text survives printing and absorbing exactly when it does not end in a backtick |
| `Manifests.ErrorSetKept` | src/attest.rs:376-381 | an error set survives exactly when no name holds a comma, which a payload with two type arguments does |
| `Manifests.AbsorbsDemand` | src/doc.rs:466-468 | the printed `requires` phrase adds exactly its clause |
| `Manifests.AbsorbsPromise` | src/doc.rs:469-471 | the printed `ensures` phrase adds exactly its clause |
| `Manifests.AbsorbsBound` | src/attest.rs:410-415 | the printed refinement phrase adds exactly its parameter and range |
| `Manifests.AbsorbsErrors` | src/doc.rs:477-480 | the printed error phrase adds exactly its names |
| `Manifests.AbsorbsNoPanic` | src/doc.rs:463-465 | the printed `@no_panic` phrase sets the flag alone |
| `Manifests.AbsorbsGuarantees` | src/doc.rs:461-482 | all phrases of a function together give back its exact facts |
| `Manifests.ReadsItem` | src/attest.rs:91-110 | an item's printed lines are read back as the item, with absent, bare and worded deprecations told apart |
| `Manifests.ReadsBody` | src/attest.rs:445-478 | so are all items in turn |
| `Manifests.ParseManifest` | src/attest.rs:420-479 | the parser refuses a text without the format tag and otherwise reads header and items as specified |
| `Manifests.ParseHeader` | src/attest.rs:430-443 | the header loop stops at the first empty line and ignores lines it does not know |
| `Manifests.ParseItems` | src/attest.rs:445-478 | the item loop with its open item and flushes reads what the recursive reader does |
| `Manifests.RoundTrip` | src/attest.rs:75-112 | parsing a printed manifest recovers the header and every item's meaning, for all texts within the stated shapes |
| `Manifests.EveryRecordFound` | src/attest.rs:447-451 | with keys of their own all records are found under their keys |
| `Lexical.Trivia` | src/lexer.rs:342-355 | trivia is skipped whole: what is left starts with none |
| `Lexical.MaximalMunch` | src/lexer.rs:127-215 | the operator read is an operator and no longer one starts there |
| `Lexical.LexLocal` | src/lexer.rs:127-333 | a token depends on its own text and at most two characters behind it |
| `Lexical.SqueezeFollows` | src/lexer.rs:342-420 | after squeezing, what follows each token may follow it |
| `Lexical.NoNewTrivia` | src/lexer.rs:342-355 | what may follow a token cannot turn it into trivia |
| `Lexical.TriviaNeverMatters` | src/lexer.rs:127-420 | replacing each run of trivia between tokens by one blank leaves all token kinds and texts as they are, for every source text |
| `LexicalShapes.QuoteEndIs` | src/lexer.rs:295-312 | a quoted literal ends behind the first quote that an even number of backslashes precedes, or at the end of the text if there is none |
| `LexicalShapes.BlockEndIs` | src/lexer.rs:380-420 | a block comment ends behind the first mark at which closes outnumber opens, or at the end of the text |
| `LexicalShapes.NumbersAre` | src/lexer.rs:254-292 | a number is the longest one of its base; a dot belongs to it only before a digit, and it is a float exactly with a fraction or an exponent |
| `LexicalShapes.OperatorsAre` | src/lexer.rs:127-215 | an operator is the longest one of the list that starts there |
| `LexicalShapes.ReservedAre` | src/lexer.rs:219-235 | the words that are no identifiers, by their first letter |
| `LexicalShapes.CharactersAre` | src/lexer.rs:423-430 | letters, digits and blanks of ASCII by their codes |
| `LexicalShapes.LexReadsToken` | src/lexer.rs:127-333 | a token is taken exactly when the grammar sees it there, with its kind and length, so the grammar leaves no choice |
| `LexicalShapes.TriviaReads` | src/lexer.rs:342-420 | exactly the blanks and comments in front of a token are skipped |
| `LexicalShapes.DivisionUnique` | src/lexer.rs:59-70 | there is at most one way to divide a text into trivia and tokens of the grammar |
| `LexicalShapes.ScanIsDivision` | src/lexer.rs:59-70 | and the token stream is that one |
| `Lexers.Lexer.SkipTrivia` | src/lexer.rs:342-355 | the cursor ends behind all trivia |
| `Lexers.Lexer.LineComment` | src/lexer.rs:357-378 | the cursor ends at the line's end |
| `Lexers.Lexer.BlockComment` | src/lexer.rs:380-420 | the cursor ends behind the matching close, nesting counted, or at the end of the text |
| `Lexers.Lexer.NextToken` | src/lexer.rs:127-215 | returns the token behind the trivia, or the end marker, and always advances to its end |
| `Lexers.Lexer.Word` | src/lexer.rs:219-251 | identifiers, keywords and f-strings |
| `Lexers.Lexer.Quoted` | src/lexer.rs:295-312 | the cursor ends where the literal does, which `LexicalShapes.QuoteEndIs` says |
| `Lexers.Lexer.CharLiteral` | src/lexer.rs:314-335 | character literals, closed or not |
| `Lexers.Lexer.Number` | src/lexer.rs:254-292 | integers and floats; a dot counts only before a digit |
| `Lexers.Lexer.Tokenize` | src/lexer.rs:59-70 | terminates, and yields the token stream up to its end marker, which is the one division of the text by the grammar (`LexicalShapes.ScanIsDivision`) |
| `Lexers.ScanOrdered` | src/lexer.rs:59-70 | the stream's spans are ordered, not empty, inside the text, and end in an end marker at its end |
| `Lexers.ScanReadsTokens` | src/lexer.rs:59-70 | the spans cut out exactly the tokens of the grammar |
| `LosslessTree.AttachedTiles` | src/cst.rs:110-122 | the elements tile the text without gap or overlap |
| `LosslessTree.Lossless` | src/cst.rs:110-132 | rendering what was attached gives every source text back |
| `LosslessTree.Attach` | src/cst.rs:110-122 | the loop with its running end pairs each token with the trivia before it |
| `LosslessTree.Render` | src/cst.rs:125-132 | the loop appends each element's trivia and token text |
| `LosslessTree.PartitionPoint` | src/cst.rs:80-86 | binary search for the end of the elements that satisfy a monotone test |
| `LosslessTree.TokenRange` | src/cst.rs:80-86 | the range holds exactly the tokens that the span touches |
| `LosslessTree.NodeSpanExact` | src/cst.rs:80-86 | for a span cut at token ends these are exactly the tokens inside it |
| `LosslessTree.TokenAt` | src/cst.rs:91-94 | finds the one token around a position and nothing inside trivia |
| `LosslessTree.ElementAt` | src/cst.rs:101-104 | finds exactly one element for every position of the text and none beyond |
| `LosslessTree.Pieces` | src/cst.rs:162-203 | the pieces tile the trivia span in order and each is one that `NextPiece` may cut |
| `LosslessTree.NextPiece` | src/cst.rs:166-201 | one piece: a maximal run of ASCII blanks, a line comment up to its line's end, a block comment up to its matching close, or else a single character |
| `LosslessTree.StraysAreBlanks` | src/cst.rs:194-199 | in trivia the lexer produced the single-character fallback is reached, against the comment there, only at blanks that are not ASCII blanks, such as a vertical tab |
| `LosslessTree.PiecesSpellTrivia` | src/cst.rs:150-161 | together the pieces spell out the trivia they were cut from |
| `ErrorSets.OwnerOf` | src/errsets.rs:221-226 | the owner of a span contains it and none that contains it starts later |
| `ErrorSets.Index` | src/errsets.rs:141-194 | the two maps hold each free function's first set and all sets of each method name |
| `ErrorSets.Judge` | src/errsets.rs:229-291 | the verdict by map lookup is the verdict by search over all owners |
| `ErrorSets.CallIsJudged` | src/errsets.rs:260-291 | the verdict on a propagated call by what it may reach: if everything reached declares one set, `Fine` exactly when that set is included in the caller's and `Violation` otherwise; unresolved if nothing is reached or the declarations disagree; intrinsics are named |
| `ErrorSets.Collect` | src/errsets.rs:133-348 | visits the arena in order and yields one judged site for each obligation outside `comptime` |
| `ErrorSets.ReachedDeclares` | src/errsets.rs:260-291 | whatever function or method of the file a resolved call may reach declares the set it was resolved to |
| `ErrorSets.ResolvedIsNotOpaque` | src/errsets.rs:260-291 | a resolved call may fail with more than the file declares exactly when it may mean something declared elsewhere |
| `ErrorSets.DeclaredSetsAreSound` | src/errsets.rs:294-348 | if all verdicts are fine and no error is propagated from a call that may mean something declared elsewhere, every error that can leave a function, through any nesting of calls and any dispatch by name, is in its declared set, and none leaves an infallible one |
| `ErrorSets.FineIsSafeIff` | src/main.rs:793-808 | for a file with only fine verdicts no error leaves undeclared exactly when none is propagated from such a call |
| `ErrorSets.QualifiedCallLeaks` | src/errsets.rs:260-291 | a file whose `lib.get()?` is resolved to its own method `get` has only fine verdicts, and an error it does not declare leaves it |
| `ErrorSets.ExactWhenTight` | src/errsets.rs:294-348 | when no declared error is idle and every call is resolved and fallible, all verdicts are fine and nothing is propagated from elsewhere exactly when no function leaks |
| `ErrorSets.ViolationLeaks` | src/errsets.rs:229-257 | under the same conditions each violation is a real leak |

## Left out

- MoveReports.ReportsAreReal: says nothing about functions that are not straightforward, where a report need not have a bad run (`MoveAlarms.LeavingAlarm`, `MoveAlarms.SourceAlarm`); and it is about whether there is a report, not how many there are or in which words.
- MoveSoundness.AcceptedNeverBad: one of the nine shapes does not always have a bad run; each is shown needed by a function in `MoveHazards` or `MoveSlips`.
- LosslessTree.NextPiece: positions count characters, where `pieces` steps in bytes (src/cst.rs:162-203). At a blank outside comments that is not ASCII, which `StraysAreBlanks` shows to be the only place for the fallback, the source's piece ends inside the character.
- ComptimeRefinement.InterpreterMeansIt: one direction only. Untidy code that never reaches its offending transfer also agrees; each condition of tidiness is shown needed by a program in `ComptimeHazards`.
- DHarhts.DHarht.Insert: for tables that lost no key yet. A table that lost one, which takes fewer than 256 shards, can be looked up, sealed and compacted here but takes no further insertion: two slots of one radix may then lead to two keys, and when such a node moves to an index table the other key answers (`Slabs.LastIsFirstIff`, src/dharht.rs:1140-1143).
- DHarhts.Replay: for as many operations as fit the 29-bit slab indices at 20 entries each, beyond which the source may stop with an assertion.
- ContractDiffs.BreakingIsReal: not for the removal or signature verdicts, which speak about linking.
- ErrorSets.ExactWhenTight: the conditions are needed; an idle declared error or an unresolved call makes the census stricter than the runs.
- SpanContracts.RunsAtMost: calls cost one, as the source's own note says.
- LayoutModels.ModelsAgree: one direction, as promised: the checked-type model also knows types the syntax-side one does not, such as bit-field structs. Programs in which two modules declare one type name are left out (`DistinctNames`). Sizes are unbounded, so 64-bit overflow of a size is not modelled.
- Lexers.Lexer.Tokenize: whole texts only; diagnostics, doc-comment records and region slices are not modelled.
- Manifests.RoundTrip: signatures and header values are opaque texts; `trim` knows the ASCII blanks; the sorting of records before printing is not modelled (the parser's map does not depend on it).
- D-HARHT: memory accounting, blueprint texts, capacity reservation, `contains_key`; the SSE2 search (src/dharht.rs:1216-1230), Node4's and the micro-buckets' bit masks are modelled as the first live matching slot, the standard library's stable sort by an insertion sort.
- src/escape.rs: dropping at the end of a scope and of what an assignment overwrites, borrow escapes, regions, generational references with `with alive`, `select`, closures and `spawn`, slice aliasing, the error name that `catch` binds. Operands are evaluated from left to right; in which order the generated C does it is not modelled. Diagnostic texts.
- src/escape.rs effects: methods, closures and calls through values are not in the graph, as in the source.
- ComptimeInterpreters.Interp.EvaluateLength: `.len` of a string counts its characters (`ComptimeValues.Length`), where the source counts bytes.
- src/comptime.rs: reflection, layout queries, casts, the digits of integer literals and the escapes in character and string literals, spans and texts of errors.
- src/attrs.rs: the attribute registry and its validators. The distance is over characters; attribute names are ASCII.
- src/layout.rs: the rendered report; bit-fields are not knowable, as in the syntax-side model.
- src/attest.rs: how `sig_core` cuts texts out of a signature (it is an opaque value here), the order and wording of changes.
- src/errsets.rs: wording and rendering of the census; free functions of a file have names of their own.
- The parser, type checker, code generator, printer, doc rendering, build scripts and command line.
