# Verified models of the flow checker, the publish, the parser and the exact values

A Dafny 4.11 model of the logic in ObjectFlow that decides things: whether a declaration's rules contradict each other, what publishing a version does to a store, how an expression reads, and the arithmetic, time records and digests that rest under them. `dafny verify dfyconfig.toml` checks every file.

**The contradiction analysis** (`scripts/flowlogic.py`). `TypeModel` gives expressions their three-valued meaning over an object, independently of the analysis: `Truth` and `ValueOf` on a `World`. `Conditions`, `Expansion` and `CaseProducts` are the analysis's expansion of a condition into conjunctions of atoms; `Exactness` proves that expansion exact against the meaning. `Bounds` is Floyd-Warshall on a matrix in place, proved a decision procedure for difference bounds; `Deciding` gathers a conjunction and decides it; `Requirements`, `Declarations`, `Observed` and `Findings` are the reductions, the smallest contradictory set and the analysis of a type, each finding proved to be one. `Objects` has the objects conditions are evaluated on, one there is and one being created. `Writing` is what a transition does, step by step (`scripts/flowrun.py`), when its writes are read as it makes them, and when reading them ends; `Framing` has the names a condition turns on, and with them the condition on a declaration under which a write that is reported is one that breaks an invariant; `Clashes` has its converses. `Limits` and `Misreadings` hold what the analysis does not promise, each with an input beside the condition that excludes it.

**The parser** (`scripts/flowexpr.py`). `Grammar` is the grammar as a function of tokens, `Parser` the recursive-descent class proved to read it within the nesting bound, `Depths` the stack that counts a tree's depth. `Printer` writes a tree back, `RoundTrip` and `Building` prove printing and parsing inverse, `Holding` and `Splicing` the rewriting of an invariant through the attribute holding its value.

**The publish** (`scripts/flowpublish.py`). `Reports` is the gathering of findings; `Versions` and `Impact` the declarations, mappings and judgements; `Mappings` and `Simulating` the mappings, as functions of the store and object by object; `Judging` the dry run and what a clean one promises; `Publishing` the report; `Lifecycle` and `Stores` the lifecycle, the approval and the installation over a store; `Runs` what holds over every run; `Renames` the values a rename carries. Expression evaluation, the failing invariants, the live parts of a composite, the loading of a source, its checks, its hash and the rest of the report are functions the model knows nothing of (`Impact.Runner`, `Publishing.Lab`): every result holds whatever they answer.

**Exact rationals** (`core/crates/objectflow-core/src/rat.rs`) are `Divisors`, `Rationals`, `Rounding` and `Comparing`, with 128-bit ranges written out; **intervals** (`scripts/check-scenarios.py`) are `Intervals`; **the digest's bytes** (`core/crates/objectflow-core/src/source.rs`) are `Digests`.

## What turned out not to hold

Each of these is proved of the code as it is, with a concrete input and, where one exists, the exact condition.

- A count is keyed by its collection and filter alone, so two different aggregates on one key, one with a body or a distinct one beside the plain one, are taken for one number, against section 8.3 of the declaration syntax: `Limits.CountBodyIgnored`, and for any two `Clashes.MixedCountsClash`. Findings are proved for declarations whose conditions in question hold no two such (`Observed.Unmixed`), which `Limits.CountIsItsNumber` shows exact.
- `any` and `none` are read through a count that is unknown where a filter is, against section 8.2. No finding about guards or states is wrong for it (`Observed.SeenCovers`, `Observed.UnderHolds`); the query after a write is, where one aggregate is tested before it and compared after: `Limits.TestedAndComparedMisread`, exactly as `Limits.OneNumberServes` says, and for any such aggregates `Clashes.SharedCountsExactly`.
- An opaque expression is keyed by its text, so what a guard reads before a write and an invariant after it are one truth: `Limits.SharedOpaqueMisread`. `Framing.Apart` is the condition on a declaration that excludes it, and `Clashes.SharedOpenExactly` and `Clashes.SharedCountsExactly` show where what is shared makes a false alarm and where not.
- The query after a write reads some attributes otherwise than the transition leaves them. It knows of required inputs alone, and the runtime writes an optional one that is given too (`Misreadings.OptionalInputMisread`); of assignments and clears alone, and other steps change attributes (`Misreadings.OtherStepMisread`); it reads a write that is exactly an optional input as absent where that is not given, and the runtime skips it (`Misreadings.SkippedWriteMisread`); and a tree that reads through `this` what the transition also writes, as though it read the value written, since `names_in` sees only `this` (`Limits.WriteReadThroughAnother`). Each makes a transition reported that a request takes. `Writing.WritesReadExactly` says exactly which attributes are read right, `Writing.StateReadExactly` when the state is, and `Writing.UnwrittenReadsExactly` which of those read as they were; `Framing.WritesRead` asks it of the names the invariants checked are read by, and no more, and `Framing.WriteFoundIsBroken` is sound under it, for every request.
- Where such a tree comes back to its own attribute, `n := this.n`, the source's recursion does not end: `Limits.OwnValueNeverRead`, exactly as `Writing.ResolvesExactly` says.
- A creation's guards are evaluated where there is no object, and read as though there were one: `state is null` is reported as never true of it (`Misreadings.NewStateMisread`). `Findings.Askable` is the condition that excludes it, and every name it excludes makes such an alarm (`Misreadings.AbsenceMisread`).
- Integers beside rationals in one case make the difference-bound test a relaxation, and not monotone: `Limits.MixedIsRelaxed`, `Limits.FewerAtomsRejected`.
- A rename onto a name whose old attribute changes its type, or onto one the object also holds, loses a value, and no finding names the object: `Renames.RenameOntoChangedLosesValue`, `Renames.RenameOntoHeldLosesValue`, with the exact condition of an object in `Renames.KeepsExactly` and of a type in `Renames.RenamesLoseNothing`.
- `Rat::ceil` turns its numerator's sign unchecked, which overflows for the least 128-bit integer: `Rounding.Ceil` answers for every other.
- A tracked member written by an event that occurred before its current span was entered closes that span before it opened: `Intervals.BackdatedIsNegative`, exactly as `Intervals.GivenExactly` says. Time is conserved all the same.
- Printing with parentheses by precedence alone does not round-trip through an aggregate's call: `Parsing.AggregatesTakeTheirWords`.
- The approval's refusal of a change drafted against another version, `current`, never happens: every open change is superseded at each publish (`Stores.Store.Approve`, `Runs.EveryRunKeeps`).

## Model

| member | source | states |
|---|---|---|
| `Bounds.RelaxThrough` | scripts/flowlogic.py:458-467 | One pass of the closure, in place: the matrix is then closed under paths through one node more, every assignment that kept the bounds still keeps them, and an entry that was an integer still is. |
| `Bounds.Close` | scripts/flowlogic.py:458-467 | The passes together: no entry is looser, every assignment that kept the bounds keeps the matrix, integers stay integers, and it is left closed under every path or showing a negative or strict zero cycle. |
| `Bounds.Assignment` | scripts/flowlogic.py:458-468 | A closed matrix without such a cycle has an assignment that meets every entry, strict ones included, of integers where its entries are integers. |
| `Bounds.TighteningIsExact` | scripts/flowlogic.py:451-452 | Over integers, a strict or fractional bound and its tightened form admit the same differences. |
| `Bounds.Consistent` | scripts/flowlogic.py:434-468 | A decision procedure: it answers yes if and only if some values, zero for `ZERO` and integers where every node is one, meet every bound. |
| `Deciding.Gather` | scripts/flowlogic.py:404-421 | The loop that sorts a case's atoms: it clashes only where no valuation holds the case, and else what it gathered says exactly what the case's atoms say. |
| `Deciding.Satisfiable` | scripts/flowlogic.py:402-431 | A conjunction that some valuation satisfies is never rejected; a well-formed one is accepted if and only if some valuation satisfies it with the integers of a mixed case read as rationals. |
| `Deciding.OneSortIsExact` | scripts/flowlogic.py:402-431 | Where the ordered values of a case are all integers or all rationals, that relaxation relaxes nothing: the valuations are those of the declared types. |
| `Limits.MixedIsRelaxed` | scripts/flowlogic.py:441-456 | With an integer and a rational compared in one case, the test accepts `0 < n < 1`, which no object satisfies: the promise needs one sort. |
| `Limits.FewerAtomsRejected` | scripts/flowlogic.py:476-494 | And it is not monotone there: a case it rejects becomes one it accepts when atoms are added. |
| `CaseProducts.Product` | scripts/flowlogic.py:39-48 | The loop over the lists comes to the product it is specified by, and raises exactly where that passes the limit. |
| `CaseProducts.ProductHolds` | scripts/flowlogic.py:39-48 | A valuation holds some case of a product exactly where it holds some case of every list. |
| `CaseProducts.FlatHolds` | scripts/flowlogic.py:51-55 | A valuation holds some case of a union exactly where it holds some case of some list. |
| `Exactness.LinearDenotes` | scripts/flowlogic.py:203-221 | What an expression is read as on a line, a variable and a constant, has the value the expression has. |
| `Exactness.MembershipExact` | scripts/flowlogic.py:352-376 | Membership has the wanted truth exactly where a case of it holds. |
| `Exactness.LeafReads` | scripts/flowlogic.py:238-300 | A condition that is not a connective is read as one truth: the cases of that truth hold under the valuation, and of no other; and it is the condition's own, as far as the aggregates it turns on are read. Null tests, comparisons, membership, counts, `any` and `none`, `open`, booleans, and what is opaque. |
| `Exactness.ExpandReads` | scripts/flowlogic.py:238-376 | The cases an expansion yields part every valuation: for each of true, false and unknown they hold exactly where the condition is read as that, however its aggregates are. |
| `Exactness.ReadRelates` | scripts/flowlogic.py:238-376 | What a condition is read as is what it is, where the numbers its aggregates are read through are theirs; is it wherever it is true or false, where those known are; and is true or false only where it is, where the numbers known are. |
| `Exactness.ExpandExact` | scripts/flowlogic.py:238-376 | Case expansion is exact: over every object, and every valuation that has of it what the condition reads, the condition has the wanted truth if and only if some case of its expansion holds; derived attributes inlined, or else the expansion raises. |
| `Shapes.ExpandFits` | scripts/flowlogic.py:238-376 | Every case an expansion yields is one the decision procedure reads in full: its atoms are of their variables' kinds, and every variable it bounds is present. |
| `Requirements.AnySatisfiable` | scripts/flowlogic.py:471-473 | Requirements that can hold together are never said not to; the converse where their values are of one sort. |
| `Requirements.ImpliedHolds` | scripts/flowlogic.py:476-479 | Where a case is implied by the given one, every valuation holding the given one holds it. |
| `Requirements.Fixed` | scripts/flowlogic.py:482-494 | Under every valuation of the given case, the reduced requirements are met exactly where the whole are, although requirements and cases are dropped. |
| `Requirements.FixedKeepsAnswer` | scripts/flowlogic.py:482-494 | So with the given case they can hold together if and only if the whole can. |
| `Requirements.Core` | scripts/flowlogic.py:497-504 | What is kept cannot hold together and is not empty; and where the values are of one sort, dropping any one of it leaves a set that can hold. |
| `Observed.SeenExact` | scripts/flowlogic.py:238-376 | An object whose tallies settle the aggregates a condition turns on has such a valuation: the condition has a truth of it exactly where a case of its expansion holds under it. |
| `Observed.ReadExactly` | scripts/flowlogic.py:271-277 | Some numbers read every aggregate exactly if and only if none is both compared as a number and tested by `any` or `none` while its tally has an element known to meet its filter and another that may. |
| `Observed.SeenCovers` | scripts/flowlogic.py:238-376 | Of every object, whatever its tallies leave undecided, and of none where a creation makes one and the condition does not test for that, a condition that is true, or that is false, has a case of that truth that holds. |
| `Objects.AskedSound` | scripts/flowrun.py:2985-2997 | What a creation's guards are evaluated on, no state, no attribute but those taken as inputs, nothing derived, is covered by what the analysis reads there: each leaf that does not test for the absence of what is read though it is not there is known to be only what it is read as. |
| `Observed.UnderHolds` | scripts/flowlogic.py:531-533 | And an invariant that is not false has a case of its being true or unknown that holds. |
| `Observed.CoversBefore` | scripts/flowlogic.py:603-623 | Under one valuation for an object before and after a transition, a guard true before, of an object or of none yet, has a case that holds, whatever its tallies leave undecided, where the counts it shares with what is read after agree. |
| `Observed.HoldsAfter` | scripts/flowlogic.py:603-623 | And an invariant not false of any state after has a case of its being true or unknown that holds, where the values it is read by are there what the analysis reads them as and the opaque expressions it shares with the guards are as they were. |
| `Limits.SharedOpaqueMisread` | scripts/flowlogic.py:234-236 | Without that it is a false alarm: an object, a request and a state after it that meet the guard and the invariant, and no valuation that meets both requirements. |
| `Limits.TestedAndComparedMisread` | scripts/flowlogic.py:271-277 | Another: a guard `any(i in items where i.bad)`, a request supplying `items`, and an invariant that counts fewer than one bad. Of two items one is bad and the other may be; the request is taken, the invariant unknown after it, and no valuation meets both. |
| `Limits.OneNumberServes` | scripts/flowlogic.py:271-277 | Exactly when one number serves an aggregate tested for being nought and compared: if and only if the number is not unknown with an element known to meet the filter. |
| `Framing.FramedAlike` | scripts/flowlogic.py:58-78 | A condition turns on no more of its object than the names it reads, bare, through `this`, as the state or through a derived attribute: of two objects that differ by no name it reads, it is true, false or unknown of both alike. |
| `Framing.SharedAgree` | scripts/flowlogic.py:603-623 | By the declaration alone: where no opaque expression and no count the guards share with the invariants checked turns on a name the transition changes, its optional inputs and its other steps' names among them, and none is tested before and compared after, what they share is after as before. |
| `Framing.WriteFoundIsBroken` | scripts/flowlogic.py:616-629 | So of a declaration whose writes are read as they are made, a reported write is no false alarm: of whatever a request leaves of any object the transition is taken on, its inputs written, its steps taken in order, those not followed changing what they may, some invariant is false. |
| `Framing.RunKeeps` | scripts/flowrun.py:3009-3064 | The names a transition may change, by its declaration, are all it changes: whatever the request, every step leaves every other attribute, and the state unless it is among them, as they were. |
| `Clashes.CountKeptExactly` | scripts/flowlogic.py:211-212 | A count is the same of all objects that differ by some names if and only if it turns on none of them. |
| `Clashes.SharedCountsExactly` | scripts/flowlogic.py:271-277 | Of any two aggregates read through one count, `count`, `any` or `none`, a guard that some element meets the one's filter and an invariant that none meets the other's are found contradictory; and an object before and one after meet both, a false alarm, if and only if the two are not kept apart: they turn on a changed name, or are not one aggregate, or one is tested before and compared after. |
| `Clashes.OpenKeptExactly` | scripts/flowlogic.py:234-236 | As is the truth of an expression the declaration leaves open, or of a comparison of one, as `n * 2 > 3` is. |
| `Clashes.SharedOpenExactly` | scripts/flowlogic.py:234-236 | And a guard that such a condition is true and an invariant that it is not are found contradictory, where an object before and one after meet both if and only if it turns on a changed name. |
| `Writing.WritesReadExactly` | scripts/flowlogic.py:147-197 | An attribute is read, of every object and every request, as the value the transition leaves it, if and only if, whatever inputs a request gives, the analysis resolves it to what the effect leaves in it, step by step: each input given written, a write that is exactly an input not given skipped, a step not followed leaving anything, a creation's defaults its own. |
| `Writing.RunPictured` | scripts/flowrun.py:3174-3256 | After each step of any run, every attribute holds what the declaration and the inputs given say it does: what a variable held before, one value, none, or anything. |
| `Writing.StateReadExactly` | scripts/flowrun.py:3009-3064 | And the state, if and only if no step not followed may change it. |
| `Writing.UnwrittenReadsExactly` | scripts/flowlogic.py:604-620 | So of an object there is, an attribute the query takes to be as it was, read through `this`, is read right if and only if it is not an optional input and no step not followed changes it. |
| `Writing.ResolvesExactly` | scripts/flowlogic.py:147-197 | A tree is resolved at all if and only if no written attribute is met twice on the way, and then to what the model resolves it to. |
| `Limits.WriteReadThroughAnother` | scripts/flowlogic.py:604-623 | Where the first fails: `previous := this.level`, `level := inputs.new` and the invariant `level > previous` are reported although a request keeps it. |
| `Misreadings.OptionalInputMisread` | scripts/flowrun.py:3042-3046 | Another: an optional input `n`, `level := 5`, a guard `n >= 10` and the invariant `level > this.n` are reported although a request giving 1 keeps it: the query knows of required inputs alone. |
| `Misreadings.OtherStepMisread` | scripts/flowlogic.py:604-620 | The same where a step that is not followed changes `n`. |
| `Misreadings.SkippedWriteMisread` | scripts/flowrun.py:3189-3194 | Another: `level := inputs.new`, a guard `inputs.new is null` and the invariant `level is not null` are reported although a request without `new` leaves the level there was, its write skipped. |
| `Limits.OwnValueNeverRead` | scripts/flowlogic.py:147-162 | Where the second fails: `n := this.n` is never resolved, in however many calls. |
| `Declarations.StateInvariants` | scripts/flowlogic.py:507-523 | The invariants analysed are exactly those declared, those the states' required attributes generate, one of a name replacing the one declared, and none `taken_by` generated whose attribute no other reads. |
| `Framing.LeftOutKeepsAnswer` | scripts/flowlogic.py:507-523 | Leaving those out changes no answer: where they are as `taken_by` generates them and nothing else turns on their attributes, some object in a state leaves every invariant true or unknown if and only if some leaves those kept so. |
| `Declarations.Writes` | scripts/flowlogic.py:604-615 | The loop over a transition's effect leaves each attribute the last tree written, unknown where a tree reads what the transition writes. |
| `Findings.AnalyseState` | scripts/flowlogic.py:545-563 | A state is reported only where no object in it, whatever its tallies, leaves every invariant true or unknown; and one a transition enters, its invariants comparing one sort, is left alone only where some valuation does. |
| `Findings.AnalyseTransition` | scripts/flowlogic.py:565-633 | A transition is reported only where no object in its from-states, or none yet where it creates one, makes every blocking guard true, a flagged guard only where none of those makes it true, a write only where every state after such an object that is read as the analysis reads it makes an invariant false; and, what is compared being of one sort, each is left unreported only where some valuation takes it, passes it, or keeps what is written. |
| `Findings.AnalyseType` | scripts/flowlogic.py:536-634 | Over every type: each contradiction reported is one, wherever aggregates read as one number are one and no creation's guard tests for the absence of what is not there yet, a write's as `Framing.WriteFoundIsBroken` says; and where a state or a transition has none and is not left undecided, some values meet all that was read of it. |
| `Misreadings.NewStateMisread` | scripts/flowrun.py:2985-2997 | Outside that: a creation with the guard `state is null` is reported as never taken, and every request for it may be. |
| `Misreadings.AbsenceMisread` | scripts/flowrun.py:2985-2997 | And so wherever a creation's guards test for its absence a name that is read though there is no object yet, the state, a counter, or an attribute a declared input only shares its name with: the tests are true of no object, and no valuation meets them. |
| `Limits.CountBodyIgnored` | scripts/flowlogic.py:211-212 | A false alarm: `count(i in items)` and `count(i in items: i.bad)` are one number to the analysis, and two guards both true of an order are found contradictory. |
| `Limits.CountIsItsNumber` | scripts/flowlogic.py:211-212 | Exactly when two counts are one number, over every object: if and only if they are one aggregate, of one collection, filter, body and distinctness, and of one binder where the filter or the body turns on it. |
| `Clashes.MixedCountsClash` | scripts/flowlogic.py:211-212 | And wherever two that are not, `count`, `any` or `none`, are read through one variable, there is such a false alarm on an object of the same values, whatever the type derives. |
| `Parser.Parser.Expression` | scripts/flowexpr.py:140-145 | From any place in the tokens and any depth, the parser reads what the grammar reads, exactly where that nests within the bound, and is left past it at the depth it was. |
| `Parser.Parser.Disjunction` | scripts/flowexpr.py:164-169 | The loop reads the longest left-associated run of `or`, as the grammar does. |
| `Parser.Parser.Compare` | scripts/flowexpr.py:178-197 | A comparison, a membership or a null test reads as the grammar has it, and none chains. |
| `Parser.Parser.Unary` | scripts/flowexpr.py:213-221 | `not` and negation read as the grammar has them, each a level of nesting. |
| `Parser.Parser.Postfix` | scripts/flowexpr.py:223-236 | Members and calls follow an operand as the grammar has them, a call only of a path. |
| `Parser.Parser.Arguments` | scripts/flowexpr.py:238-246 | Arguments, and a set's items, read up to the closing token, a comma after each but the last. |
| `Parser.Parser.Call_` | scripts/flowexpr.py:292-355 | A call reads as an aggregate over its own rows, a comprehension, a metric, `changed_since` or a plain call, by the words after its parenthesis. |
| `Depths.CountDepth` | scripts/flowexpr.py:96-107 | The stack comes to the depth of the tree, every node a level and a metric's binding one too. |
| `RoundTrip.Closed` | scripts/flowexpr.py:140-290 | At every level of precedence, a tree's tokens read as that tree, where what follows ends them, and nest exactly as deep as its printing does. |
| `RoundTrip.Loop` | scripts/flowexpr.py:164-236 | Where an operator of a left-associative level follows, the tree is what that level's loop has read so far. |
| `Parsing.Parse` | scripts/flowexpr.py:358-372 | The whole expression: every token read, nested at most 64 levels, its tree at most 128 deep; anything else is refused. |
| `Parsing.ParsingUndoesPrinting` | scripts/flowexpr.py:358-372 | Parsing undoes printing: for every tree the grammar builds, its tokens, parenthesised only where precedence, associativity or an aggregate's words need it, parse as that tree, exactly where they nest and it is deep within the bounds. |
| `Building.BuildsAt` | scripts/flowexpr.py:140-355 | Every tree the grammar reads from tokens is one of those trees, so none that parses is left out. |
| `Parsing.PrintingAfterParsing` | scripts/flowexpr.py:358-372 | So what parses prints as tokens that parse as it again, where they nest within the bound. |
| `Parsing.PrintingIsInjective` | scripts/flowexpr.py:140-290 | Different trees have different tokens. |
| `Parsing.AggregatesTakeTheirWords` | scripts/flowexpr.py:292-324 | Precedence alone does not place parentheses: `count` called on `x in c`, printed without them, parses as a loop over `c`. |
| `Holding.HeldAt` | scripts/flowexpr.py:77-93 | At every level, tokens rewritten to read each bare field through its holder read as the tree with each such name replaced, call names and path members untouched. |
| `Holding.HeldThroughParses` | scripts/flowexpr.py:77-93 | The whole rewriting parses as `holder is null or` that tree, one level deeper. |
| `Parsing.HoldingRefinesSubstitution` | scripts/flowexpr.py:77-93 | So parsing what is rewritten is substituting in what is parsed, for an expression without aggregates, metrics or `changed_since`, exactly where the result is within the bounds. |
| `Splicing.HeldText` | scripts/flowexpr.py:81-93 | The loop over the tokens' positions leaves every space and every other token as it was, and writes each field through the holder. |
| `Splicing.PlacesSpellTokens` | scripts/flowexpr.py:81-93 | What the text has in each token's place spells the rewritten tokens there. |
| `Reports.Found.Add` | scripts/flowpublish.py:348-358 | Findings stay one to a code, each as grave as the gravest met of it and naming each id met with it once. |
| `Reports.OrderDoesNotMatter` | scripts/flowpublish.py:342-367 | Whatever order the objects are met in, the same codes are found, as grave, of the same ids. |
| `Simulating.Simulation.Moves` | scripts/flowpublish.py:661-747 | The objects are exactly as the moves of the specification leave them: each as it was, or of the type its entry names, in a state of it where the mapped targets are declared, its admissions kept, and named in the report; and unless something fatal is found, every object of a moved type has moved. |
| `Simulating.Simulation.Apply` | scripts/flowpublish.py:824-891 | After renames, removed members and removed states, the objects are exactly as specified, and each is named by a mapping's finding or is as it was under the new names, in a declared state unless something fatal is found. |
| `Simulating.Simulation.Backfills` | scripts/flowpublish.py:892-931 | Backfills keep that: none writes an object the report does not name. |
| `Simulating.Simulation.Clears` | scripts/flowpublish.py:932-952 | Clears keep it too. |
| `Judging.Run` | scripts/flowpublish.py:778-1054 | The dry run leaves exactly the specified objects, its findings complete and its own: every judgement of every object is met, and nothing of those codes besides. |
| `Judging.ViolationsNamed` | scripts/flowpublish.py:1019-1045 | The report names an object under an invariant exactly where it fails it under the new version and no standing admission covers it. |
| `Judging.DischargesNamed` | scripts/flowpublish.py:1022-1032 | And under a discharge exactly where it holds an admission its move leaves behind or its version cures. |
| `Judging.ProposalsNamed` | scripts/flowpublish.py:1147-1168 | A proposal is named invalidated exactly where it is pending and the version breaks it. |
| `Judging.SupersededNamed` | scripts/flowpublish.py:1047-1050 | And a change superseded exactly where it is another still open. |
| `Judging.FaultsNamed` | scripts/flowpublish.py:953-1016 | An object is named under a fault, fatal each, exactly where it has it: a value of a removed member, a required one absent, a state no transition enters, live parts left behind, a reference that does not fit. |
| `Judging.CleanRunConforms` | scripts/flowpublish.py:824-1016 | A dry run with nothing fatal leaves a conforming store: states declared and, but for mirrors, reached; no removed member held; nothing required absent; no live part stranded; every reference a mapping wrote, or to a moved object, of the type it references. |
| `Renames.KeepsExactly` | scripts/flowpublish.py:835-856 | An object keeps every value it holds, each under the name its attribute ends at, if and only if no two that differ end at one name and none at a name whose old attribute changes its type. |
| `Renames.RenamesLoseNothing` | scripts/flowpublish.py:835-856 | Renames lose no value of any object holding only attributes whose type is kept, which no finding names, if and only if, of those a type declared, no two end at one name and none at one whose type changes. |
| `Renames.RenameOntoChangedLosesValue` | scripts/flowpublish.py:835-856 | A value dropped: `note` renamed onto `mark`, whose old attribute was of another type, by an object that held no `mark`. |
| `Renames.RenameOntoHeldLosesValue` | scripts/flowpublish.py:838 | Another: `note` renamed onto a held `mark`, nothing changing its type; of two values one is left. |
| `Publishing.Simulate` | scripts/flowpublish.py:377-438 | A dry run's report is of the findings gathered, accepted only with nothing fatal and every decision admitted, and writes nothing. |
| `Publishing.AdmissionsAreViolations` | scripts/flowpublish.py:1017-1045 | After an accepted report, what an object not an observation is left admitting is exactly what it fails: each new violation admitted, each cured one discharged, a moved object's old ones all discharged before its target's are added. |
| `Stores.Store.Request` | scripts/flowpublish.py:166-253 | A request is refused for the first reason that bars it, or for its dry run, with a row of the attempt log and nothing else; or is not run, with nothing; or moves its change as its transition says, with one event at the next position and nothing else. The store's invariant is kept. |
| `Stores.Store.ChangeEvent` | scripts/flowpublish.py:150-163 | A change's event takes the next position and moves it one version on. |
| `Stores.Store.Approve` | scripts/flowpublish.py:1226-1269 | An approval is refused for the first reason that bars it, never as not current, and then changes nothing; or installs the version of the change read, its impact run again at the attached report's time and all of it shown. |
| `Stores.Store.Install` | scripts/flowpublish.py:1272-1427 | What is installed: each object as its mappings left it and its admissions settled, each newly personal value of an erased one gone and what that leaves violated admitted, each open change superseded and each broken proposal invalidated, and everything due an event recorded once, at the next position, caused by the publish. |
| `Stores.Store.MigrateAll` | scripts/flowpublish.py:1314-1373 | One migration for each object a mapping, an admit or a discharge reaches, and for no other. |
| `Stores.Store.RedactAll` | scripts/flowpublish.py:1374-1406 | One redaction for each erased object with a value newly personal, in the order created, admitting among the objects as they then stand every invariant it leaves violated. |
| `Runs.OthersSuperseded` | scripts/flowpublish.py:1047-1050 | After an approval, every other change that was open is superseded, and none that was closed. |
| `Runs.EveryRunKeeps` | scripts/flowpublish.py:21-23 | Over every run: an open change was drafted against the version installed; a submitted one holds a report, with nothing fatal, of the source it holds; positions rise by exactly one; what is published, rejected, withdrawn or superseded is never left. |
| `Runs.VersionsCounted` | scripts/flowpublish.py:1416-1417 | From a store without changes, the version installed is the one it began at and one for each change published. |
| `Runs.NothingUnshown` | scripts/flowpublish.py:1255-1269 | Every object an approval migrates and every proposal it invalidates is named in the report its approver was shown, under the same category. |
| `Runs.UnshownUnchanged` | scripts/flowpublish.py:1314-1373 | And an object that report does not name is left as it was, but for the version's new names and what it redacts. |
| `Runs.AdmissionsExact` | scripts/flowpublish.py:1323-1352 | After an applied approval, the standing admissions of every object no redaction touches are exactly the invariants it violates, judged at the report's time. |
| `Runs.ApprovalConforms` | scripts/flowpublish.py:1226-1427 | The store an approval leaves conforms to the version installed, what a redaction empties apart: every object not of a built-in or retired type in a declared state some transition enters, mirrors apart; no removed member held; nothing required absent; every reference a mapping wrote, or to an object moved, of the type it references; no part stranded. |
| `Runs.EveryRunDeclared` | scripts/flowpublish.py:824-1016 | And what that asks of the store it meets, every object in a state its type declares, holds over every run whose versions declare the states they map to. |
| `Rationals.GcdOf` | core/crates/objectflow-core/src/rat.rs:15-21 | For all two numbers, the loop comes to the greatest common divisor of their magnitudes, or one where that is nought or past 128 bits. |
| `Divisors.LowestTerms` | core/crates/objectflow-core/src/rat.rs:25-36 | Divided by it, two numbers share no divisor but one, and are the same fraction. |
| `Rationals.New` | core/crates/objectflow-core/src/rat.rs:25-36 | It answers exactly where the denominator is not nought and no sign turned passes 128 bits, and then with the same value in lowest terms over a positive denominator. |
| `Rationals.Add` | core/crates/objectflow-core/src/rat.rs:51-57 | Where the products and their sum fit, the exact sum; else none. |
| `Rationals.Subtract` | core/crates/objectflow-core/src/rat.rs:59-64 | Where they and the opposite fit, the exact difference; else none. |
| `Rationals.Multiply` | core/crates/objectflow-core/src/rat.rs:66-68 | Where the products fit, the exact product; else none. |
| `Rationals.Divide` | core/crates/objectflow-core/src/rat.rs:70-73 | Where they fit and the divisor is not nought, the exact quotient; else none. |
| `Rounding.Trunc` | core/crates/objectflow-core/src/rat.rs:75-78 | The integer of the value's sign, at most it in magnitude and within one of it. |
| `Rounding.Ceil` | core/crates/objectflow-core/src/rat.rs:80-83 | The least integer at least the value, for every numerator that has an opposite in 128 bits, and for no other. |
| `Rounding.HalfEven` | core/crates/objectflow-core/src/rat.rs:85-98 | It answers exactly where the scale, the scaled numerator and twice the remainder fit, with an integer nearest to the scaled value, even where two are; its `floor + 1` never overflows. |
| `Rounding.NearestUnique` | core/crates/objectflow-core/src/rat.rs:85-98 | There is one such integer. |
| `Rounding.RoundingIsMonotone` | core/crates/objectflow-core/src/rat.rs:85-98 | Of a value at most another, the rounded is at most the other's. |
| `Rounding.NearestOdd` | core/crates/objectflow-core/src/rat.rs:85-98 | The opposite rounds to the opposite. |
| `Comparing.WideMul` | core/crates/objectflow-core/src/rat.rs:101-111 | The high half times 2^128 and the low half make the product, for all magnitudes, no intermediate value past 128 bits. |
| `Comparing.CmpIsValue` | core/crates/objectflow-core/src/rat.rs:113-128 | The comparison is that of the values, at full range. |
| `Comparing.EqualIsIdentical` | core/crates/objectflow-core/src/rat.rs:113-128 | Two in lowest terms compare equal exactly where they are the same pair. |
| `Comparing.CmpIsTotalOrder` | core/crates/objectflow-core/src/rat.rs:113-128 | It is a total order: reversed by exchange, transitive, antisymmetric. |
| `Intervals.Obj.OpenInterval` | scripts/check-scenarios.py:436-439 | The states' intervals still tile the object's life, the last alone open and the one entered. |
| `Intervals.Obj.Hold` | scripts/check-scenarios.py:441-448 | A member's record is exactly as given: its spans still tile, adjacent ones of different values, and a value already held opens none. |
| `Intervals.Obj.Apply` | scripts/check-scenarios.py:768-798 | A transition taken keeps both: the state entered is the current interval, each tracked member holds the last it was given; and no span is negative if and only if none was and the transition does not precede the entry of what it replaces. |
| `Intervals.Obj.Migrate` | scripts/check-scenarios.py:592-600 | A publish's removed state is left as a transition leaves one. |
| `Intervals.TimeConserved` | scripts/check-scenarios.py:1145-1148 | The time in each of a record's values adds up to now less when it began. |
| `Intervals.EnteredAtIsLatest` | scripts/check-scenarios.py:450-452 | When a state was last entered is an entry of it, and none is later; none where it never was. |
| `Intervals.PresentEntry` | scripts/check-scenarios.py:450-452 | Entered in order, the present state's is its current interval's. |
| `Intervals.FollowedExactly` | scripts/check-scenarios.py:436-448 | A write leaves no span negative if and only if none was and it does not precede the current span's entry. |
| `Intervals.GivenExactly` | scripts/check-scenarios.py:797-798 | Of one event's writes to tracked members, repeated or not: if and only if none precedes the entry of a different value it replaces. |
| `Intervals.NoneNegativeIsAscending` | scripts/check-scenarios.py:436-448 | A record that tiles has no negative span exactly where it is entered in order. |
| `Intervals.BackdatedIsNegative` | scripts/check-scenarios.py:797-798 | Where it does: a member given one value at ten, and another by an event of five, has spent less than no time in the first. |
| `Digests.BytesOf` | core/crates/objectflow-core/src/source.rs:56-72 | Nothing exactly where two files share a name; else the encoding of the files in ascending order of their names. |
| `Digests.OrderDoesNotMatter` | core/crates/objectflow-core/src/source.rs:56-61 | Canonical: in whatever order the same files are given, the order they are encoded in is one. |
| `Digests.DifferentFilesDiffer` | core/crates/objectflow-core/src/source.rs:52-72 | Injective: where no name holds a line feed, two sources encode alike if and only if they are the same files. |
| `Digests.FeedsCollide` | core/crates/objectflow-core/src/source.rs:63-70 | With a line feed in a name, one file and two encode alike. |
| `Digests.PartedDigests` | core/crates/objectflow-core/src/source.rs:42-49 | Parted into the version's own files and those its examples read, each file is in the one part its name says, and the parts together encode as the source did. |

## Left out

- Bounds.Consistent: rationals are Dafny reals rather than `Fraction`s; the arithmetic used, sums and comparisons, is the same.
- Findings.AnalyseType: the order of findings, their messages and the counts of guards decided in full are not modelled; `Justified` states what each finding says of objects; and where an effect's tree comes back to its own attribute the source answers nothing, which the model does not carry through (`Writing.ResolvesExactly`).
- Findings.AnalyseTransition: its finding about writes is justified of a state after that is read as the analysis reads it, and of what every request leaves only where `Framing.WritesRead` holds; a step it does not follow, a cascade, and what the caller does afterwards are known only by the names they change and those that what else they change is read through.
- Framing.WriteFoundIsBroken: an object there is holds values as its type declares, so none an erasure or an import emptied; and refusals of a value an attribute cannot hold, which only leave fewer requests taken, are not modelled.
- Writing.WritesReadExactly: its objects are of any values, typed or not, and a tree worked out of others, as `n + 1` is, may give any value; so an attribute it calls misread may be one whose type or whose tree admits the value read and no other.
- Objects.AskedSound: an input of a counter's type is taken to be given; what a creation's guards say of collections and of other objects is left open.
- Exactness.ExpandExact: a valuation that reads every aggregate exactly exists where `Observed.ReadExactly` says; for other objects the one-sided `Observed.SeenCovers` and `Observed.UnderHolds` stand in its place.
- Declarations.StateInvariants: types, `from` lists and expressions are taken as parsed and resolved, derived attributes as acyclic, and which of two states' generated invariants of one name stays is left open.
- Parsing.Parse: from tokens; the tokenizing pattern, error messages and positions, and a read filter's parameters are not modelled.
- Splicing.HeldText: the tokens' places in the text are given; that the rewritten text tokenizes as the rewritten tokens rests on the tokenizing pattern.
- Holding.HeldAt: stated for holders that are names other than `where` and `distinct`, which an aggregate would take as its own words, and fields no unit or currency is spelled as.
- Reports.Found.Add: a code is a datatype rather than its joined text, a check's finding carries its message in its code, and messages and samples are not modelled.
- Judging.Run: what the runner and the flow checker answer is uninterpreted, and with them the notices of offers gained or lost, media types, possible renames, entries with nothing to act on and shadowed identities (`Runner.noted`).
- Simulating.Simulation.Moves: a moved object's intervals, write index and earlier events' states are not modelled.
- Simulating.Simulation.Apply: the spans, the write index and the migrated index a rename carries are not modelled.
- Stores.Store.Install: the intervals, the store's history of versions and renames and the migrated index are not modelled.
- Stores.Store.MigrateAll: the intervals a migration closes and opens are not modelled.
- Runs.AdmissionsExact: what an object violates is judged among the objects as the mappings left them, so not where another's redaction feeds its invariants; what a redaction admits is in `Lifecycle.RedactedOver`.
- Runs.EveryRunDeclared: that a version declares its mappings' targets and keeps its observation kinds' states is the flow checker's to see, and a premise here.
- Stores.Store.Request: the evidence a change cites, its reader and the two refusals naming unknown inputs are not modelled; a draft's inputs are well formed or not (`Lab.formed`).
- Judging.CleanRunConforms: an observation's state is not judged, since no migration reaches one.
- Runs.EveryRunKeeps: whatever else a store does between changes is one step that leaves its changes and version alone.
- Rounding.Ceil: what the unchecked negation gives at the least integer, a panic or a wrapped value by the build, is not modelled.
- Intervals.Obj.Apply: effects, guards and invariants are data of one flow; imported intervals, set before an object's own, are not modelled.
- Digests.BytesOf: the hash is not modelled, and the sort is an insertion sort standing for the library's; names are bytes, and UTF-8 is not modelled.
- The HTTP server, the core's child process, the wire forwarder and the studio's pages: plumbing and user interface.
- The SQLite and PostgreSQL stores, the reference runner and the flow checker's other sixty-odd checks: not part of this model.
- YAML and JSON reading and writing: foreign calls.
- The document checkers and the profiling and release scripts: text scanning and measurement.
