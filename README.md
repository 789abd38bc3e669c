# resolve-lite: a Dafny model of the verification-condition core

This project models, in Dafny, the part of the resolve-lite compiler that
builds and rewrites verification conditions (VCs), together with the small
symbol-table and runtime structures the VC machinery relies on. Each file
follows one group of source classes:

- `absyn_terms.dfy`, `absyn_equality.dfy`, `absyn_substitution.dfy`,
  `absyn_queries.dfy`, `absyn_methods.dfy`: the immutable prover terms
  (`PSymbol`, `PApply`, `PSegments`, `PQuantified`, and `PLambda` as a leaf).
  They cover the two 32-bit hashes, Java `equals`, `substitute` over a
  `HashMap<PExp, PExp>` (modelled as an association list looked up by hash and
  `equals`), dotted-name component renaming, conjunct splitting, name and
  variable queries, the lazily filled caches, and the two builders. The loops
  of the source (hash accumulation, argument-wise equality, the splitting
  accumulator, the map-filling `substitute` overloads) are methods proved
  against the functions.
- `vc_blocks.dfy`, `vc_assume.dfy`: the assertive block builder with its
  sequents and the block deque, and the `assume` statement.
- correspondence.dfy: the correspondence-reducing visitor and the basic
  beta-reducing visitor.
- parsimonious.dfy: the parsimonious assume rule. It classifies equality
  assumptions into substitutions, non-effectual equalities and remaining
  assumptions, and adds each assumption only to the sequents that share a
  symbol name with it.
- `if_else.dfy`, `conditional.dfy`: the if/else fork rule and the one-sided
  if and else rules.
- `model_builder.dfy`: the assertive-block stack of `ModelBuilderProto`,
  with the procedure, representation and type-initialization blocks, and
  the conjuncts that parameter modes add to requires and ensures clauses.
- congruence.dfy: the congruence-closure driver of one VC. It covers the
  loading order, the four boolean seeds, the goal set and the proof status.
- `prog_types.dfy`, `math_types.dfy`, `math_symbol.dfy`, `prog_parameter.dfy`:
  record and generic program types, math classifications, math symbols
  (with `deschematize`'s guards), and the parameter-mode implementation table.
- `module_identifier.dfy`, `module_parameterization.dfy`, `scope_builder.dfy`,
  `unqualified_path.dfy`: module identifiers and their ordering, the zip of
  formal to actual generics, scope binding tables, and the unqualified name
  search (local scope, then imports).
- `immutable_lists.dfy`: the concatenation view of two immutable lists.
- `standard_array.dfy`: the runtime realization of a bounded array indexed
  from a lower bound.
- `java_lang.dfy`, `wrappers.dfy`: Java `int` wrap-around, `String.hashCode`,
  `compareTo`, `split` on a dot, `Integer.toString`, and the
  `Result`/`Option` types that model thrown exceptions.

Collaborators whose code is not part of this model are parameters. These
are the type graph's conjunct builders, the prover's registry and conjunction,
`Utilities.replacePExp`, invocation conditions, `Scope.addMatches` and
`RESOLVEBase.swap`. Exceptions thrown by the source become `Error` results
with the exception named.

## Model

| member | source | states |
|---|---|---|
| HashFacts.ArgFoldIsWeightedSum | compiler/src/edu/clemson/resolve/proving/absyn/PSymbol.java:164-175 | The argument loop of both `calculateHashes`, run step by step in `int` arithmetic, ends at the start value plus Σ hᵢ·(mod + i), wrapped once to 32 bits. |
| HashFacts.SymbolHashes | compiler/src/edu/clemson/resolve/proving/absyn/PSymbol.java:150-181 | A symbol's structure hash is 0 with no arguments and otherwise 17 + Σ argᵢ.structureHash·(i+2); its value hash is hash(lprint)·59 + hash(rprint) + Σ argᵢ.valueHash·(i+2), all wrapped to `int`. |
| HashFacts.ApplyHashes | compiler/src/edu/clemson/resolve/proving/absyn/PApply.java:379-396 | An application's structure hash is 0 with no arguments and otherwise 17 + Σ argᵢ.structureHash·(i+2); its value hash starts at the function portion's value hash and adds Σ argᵢ.valueHash·(i+2), wrapped to `int`. |
| HashFacts.QuantifiedHashes | compiler/src/edu/clemson/resolve/proving/absyn/PQuantified.java:24-32 | A quantified node's structure and value hashes are its assertion's. |
| Terms.StructureHash | compiler/src/edu/clemson/resolve/proving/absyn/PSymbol.java:150-181 | The structure hash is a Java `int`: every step of the argument loop wraps to 32 bits. |
| Terms.ValueHash | compiler/src/edu/clemson/resolve/proving/absyn/PSymbol.java:150-181 | The value hash is a Java `int`: every step of the argument loop wraps to 32 bits. |
| EqualityFacts.NotEqualToQuantified | compiler/src/edu/clemson/resolve/proving/absyn/PQuantified.java:110-116 | No term is `equals` to a quantified node, because that node's own `equals` only compares its assertion with the whole other object. |
| EqualityFacts.QuantifiedEqualsNothing | compiler/src/edu/clemson/resolve/proving/absyn/PQuantified.java:110-116 | A quantified node's `equals` is false for every argument, including itself. |
| EqualityFacts.SymbolEqualsIgnoresQuantification | compiler/src/edu/clemson/resolve/proving/absyn/PSymbol.java:547-574 | Symbol equality does not change when either symbol's quantification is replaced. |
| EqualityFacts.EqualsImpliesSameHash | compiler/src/edu/clemson/resolve/proving/absyn/PExp.java:84-87 | `hashCode` (the value hash) agrees with `equals`: equal terms have equal hash codes, through symbols, applications, segments and quantified nodes. |
| EqualityFacts.HashCode | compiler/src/edu/clemson/resolve/proving/absyn/PExp.java:84-87 | `hashCode` is a Java `int`, and every term that this term `equals` has the same hash code. |
| EqualityFacts.EqualsSymmetric | compiler/src/edu/clemson/resolve/proving/absyn/PApply.java:402-421 | `a.equals(o)` implies `o.equals(a)` for every pair of terms. |
| EqualityFacts.EqualsReflexive | compiler/src/edu/clemson/resolve/proving/absyn/PSymbol.java:547-574 | A term `equals` itself exactly when it has no quantified node where `equals` looks. |
| SubstMaps.FindKey | compiler/src/edu/clemson/resolve/proving/absyn/PSymbol.java:266 | The lookup of a key in a `HashMap<PExp, PExp>` finds the first entry whose key has the same hash code and is `equals` to it, and finds none exactly when no entry matches. |
| SubstMaps.Get | compiler/src/edu/clemson/resolve/proving/absyn/PSymbol.java:266-268 | `get` gives a value exactly when some entry's key matches, and that value is an entry's value. |
| SubstMaps.Put | compiler/src/edu/clemson/resolve/vcgen/CorrespondenceReducingVisitor.java:24-25 | `put` keeps every existing key; it either keeps the size (a matching key takes the new value) or appends the new entry. |
| SubstMaps.PutThenGet | compiler/src/edu/clemson/resolve/proving/absyn/PExp.java:144-148 | After `put(k, v)`, `get(k)` gives `v` for every key whose `equals` is reflexive. |
| SubstMaps.PutKeepsOthers | compiler/src/edu/clemson/resolve/proving/absyn/PExp.java:100-106 | A `put` does not change the lookup of a key that reaches neither the new entry nor the entry that was updated. |
| Substitution.ReplaceAll | compiler/src/edu/clemson/resolve/proving/absyn/PSymbol.java:337-338 | `Collections.replaceAll` keeps the list's length. |
| Substitution.SubstituteZip | compiler/src/edu/clemson/resolve/proving/absyn/PExp.java:118-123 | `substitute(currents, repls)` fails with IllegalArgumentException exactly when the two lists differ in length. |
| Substitution.Substitute | compiler/src/edu/clemson/resolve/proving/absyn/PSymbol.java:265-322 | A symbol, application or segments receiver that is a key of the map becomes the mapped value. Otherwise a symbol stays a symbol with as many arguments and the same style, and is no longer a literal; an application stays an application with as many arguments and the same style; a quantified node keeps its quantifier and declarations; a lambda is left alone. |
| SubstitutionFacts.QuantifiedNeverAKey | compiler/src/edu/clemson/resolve/proving/absyn/PQuantified.java:50-54 | A quantified node is never found in a map; its substitution rewrites only the assertion and keeps the quantification type and declarations. |
| SubstitutionFacts.SymbolSubstitution | compiler/src/edu/clemson/resolve/proving/absyn/PSymbol.java:268-312 | A symbol that is not a key keeps its style, math types and incoming flag, loses its literal flag and qualifier, and has every argument substituted. Its quantification is kept unless a symbol mapped for its nullary prefix form supplies one. An outfix symbol is renamed `lprint...rprint`; any other takes the dotted-component renaming as its name and prints. |
| SubstitutionFacts.ApplySubstitution | compiler/src/edu/clemson/resolve/proving/absyn/PApply.java:193-209 | An application that is not a key has its function portion and every argument substituted, keeps its style, classification and vc information, and loses its bracket flag. |
| SubstitutionFacts.FlattenOfPlain | compiler/src/main/java/org/resolvelite/proving/absyn/PSegments.java:47-58 | Splicing leaves a list without segments nodes unchanged. |
| SubstitutionFacts.FlattenIsFlat | compiler/src/main/java/org/resolvelite/proving/absyn/PSegments.java:47-58 | After splicing, no element is a segments node, provided every spliced segments node held none. |
| SubstitutionFacts.SegmentsSubstitution | compiler/src/main/java/org/resolvelite/proving/absyn/PSegments.java:41-63 | Segments that are not a key have each segment substituted, with nested segments spliced in flat; the type is taken from the last new segment. |
| SubstitutionFacts.LiteralNeverStaysSame | compiler/src/edu/clemson/resolve/proving/absyn/PExp.java:133-136 | A literal symbol that is not replaced outright never stays the same after substitution, because the rebuilt symbol loses its literal flag. |
| SubstitutionFacts.SubstituteEmptyIdentity | compiler/src/edu/clemson/resolve/proving/absyn/PSymbol.java:265-312 | Substituting with the empty map rebuilds a plain term exactly. |
| SubstitutionFacts.StaysSameUnderEmptyMap | compiler/src/edu/clemson/resolve/proving/absyn/PExp.java:133-136 | A plain term stays the same under the empty map exactly when it has no quantified node. |
| SubstitutionFacts.SubstituteOneOnItself | compiler/src/edu/clemson/resolve/proving/absyn/PExp.java:144-148 | `substitute(current, replacement)` on `current` itself gives `replacement`. |
| SubstitutionFacts.FillMapValues | compiler/src/edu/clemson/resolve/proving/absyn/PExp.java:100-106 | Every value in the map `substitute(currents, repl)` fills is `repl`. |
| SubstitutionFacts.FillMapKeys | compiler/src/edu/clemson/resolve/proving/absyn/PExp.java:100-106 | Every key in that map is one of the currents. |
| SubstitutionFacts.FillMapMapsCurrents | compiler/src/edu/clemson/resolve/proving/absyn/PExp.java:100-106 | That map sends every current whose `equals` is reflexive to `repl`. |
| SubstitutionFacts.ZipMapFacts | compiler/src/edu/clemson/resolve/proving/absyn/PExp.java:118-123 | The zipped map holds at most one entry per current; each key is a current and each value a replacement. |
| Substitution.RenameUntouched | compiler/src/edu/clemson/resolve/proving/absyn/PSymbol.java:331-341 | The component loop leaves components unchanged when no symbol-to-symbol key names any of them. |
| Substitution.SubstituteNamedComponents | compiler/src/edu/clemson/resolve/proving/absyn/PSymbol.java:324-343 | A name without a dot, or holding "...", is kept; so is a name that no symbol-to-symbol key's name matches in any dotted component and that does not end in a dot. |
| SubstitutionFacts.RenameSwap | compiler/src/edu/clemson/resolve/proving/absyn/PSymbol.java:331-341 | Swapping two neighbouring symbol-to-symbol entries does not change the renamed components when neither entry's key name is the other's key name or the name the other renames to; so, under that condition, the `HashMap` iteration order does not matter. |
| SubstitutionFacts.ReplaceAllCommute | compiler/src/edu/clemson/resolve/proving/absyn/PSymbol.java:336-338 | Two `Collections.replaceAll` renamings commute when neither's key is the other's key or the other's new name. |
| SubstitutionFacts.NamedComponentRenamed | compiler/src/edu/clemson/resolve/proving/absyn/PSymbol.java:324-343 | In a dotted name without `...`, a component equal to a one-entry map's key name is replaced by the value's name, and the components are joined by `.` again. |
| TermMethods.HashArguments | compiler/src/edu/clemson/resolve/proving/absyn/PSymbol.java:167-174 | The argument loop, from start value `s`, returns `s` + Σ hᵢ·(i+2), wrapped to `int`. |
| TermMethods.CalculateSymbolHashes | compiler/src/edu/clemson/resolve/proving/absyn/PSymbol.java:150-181 | `PSymbol.calculateHashes` returns structure hash 0 with no arguments, else 17 + Σ argᵢ.structureHash·(i+2). Its value hash is hash(left)·59 + hash(right) + Σ argᵢ.valueHash·(i+2). Everything is in `int` arithmetic. |
| TermMethods.CombineSymbolHashes | compiler/src/edu/clemson/resolve/proving/absyn/PSymbol.java:153-181 | The same arithmetic, given the two print hashes and the argument hashes. |
| TermMethods.CalculateApplyHashes | compiler/src/edu/clemson/resolve/proving/absyn/PApply.java:379-396 | `PApply.calculateHashes` returns structure hash 0 with no arguments, else 17 + Σ argᵢ.structureHash·(i+2). Its value hash is the function portion's value hash + Σ argᵢ.valueHash·(i+2). |
| TermMethods.LoopHashesAreTermHashes | compiler/src/edu/clemson/resolve/proving/absyn/PSymbol.java:130-133 | The hashes the constructor loops compute are exactly the ones every symbol and application carries. |
| TermMethods.Equals | compiler/src/edu/clemson/resolve/proving/absyn/PQuantified.java:110-116 | The dispatching `equals` returns exactly the equality predicate, including the quantified node's comparison of its assertion with the whole other term. |
| TermMethods.SymbolEquals | compiler/src/edu/clemson/resolve/proving/absyn/PSymbol.java:547-574 | `PSymbol.equals` is true iff the other term is a symbol with the same value hash, name, literal flag, incoming flag and qualifier, and pairwise-equal arguments of the same count. |
| TermMethods.ApplyEquals | compiler/src/edu/clemson/resolve/proving/absyn/PApply.java:402-421 | `PApply.equals` is true iff the other term is an application with the same value hash, an equal function portion and pairwise-equal arguments in order, of the same count. |
| TermMethods.ArgumentsEqual | compiler/src/edu/clemson/resolve/proving/absyn/PApply.java:412-419 | The lock-step iterator walk is true iff the lists have the same length and are pairwise equal. |
| TermMethods.SegmentsEquals | compiler/src/main/java/org/resolvelite/proving/absyn/PSegments.java:129-145 | `PSegments.equals` is false when the segment counts differ; otherwise it requires pairwise-equal segments. |
| TermMethods.SplitIntoAccumulator | compiler/src/edu/clemson/resolve/proving/absyn/PApply.java:258-268 | The accumulator form appends exactly this term's conjuncts to the list it is given. |
| TermMethods.SplitIntoConjuncts | compiler/src/edu/clemson/resolve/proving/absyn/PExp.java:299-303 | `splitIntoConjuncts()` returns a fresh list that the accumulator alone fills, which is the term's conjunct list. |
| TermMethods.SubstituteArguments | compiler/src/edu/clemson/resolve/proving/absyn/PSymbol.java:292-301 | The argument loop returns every argument substituted, in order. |
| TermMethods.SubstituteSegments | compiler/src/main/java/org/resolvelite/proving/absyn/PSegments.java:45-58 | The segment loop returns each segment substituted, with any segment that comes back as `PSegments` spliced in flat. |
| TermMethods.SubstituteAllWith | compiler/src/edu/clemson/resolve/proving/absyn/PExp.java:100-106 | `substitute(currents, repl)` substitutes with the map that puts every current to `repl`, in order. |
| TermMethods.SubstituteLists | compiler/src/edu/clemson/resolve/proving/absyn/PExp.java:118-123 | `substitute(currents, repls)` throws IllegalArgumentException on lists of different length; otherwise it substitutes with the zipped map. |
| TermMethods.PExpCache.constructor | compiler/src/edu/clemson/resolve/proving/absyn/PExp.java:48-51 | A term starts with all four caches empty. |
| TermMethods.PExpCache.GetQuantifiedVariables | compiler/src/edu/clemson/resolve/proving/absyn/PExp.java:347-353 | Returns the uncached quantified variables and caches them; once cached, later calls return the same set. |
| TermMethods.PExpCache.GetIncomingVariables | compiler/src/edu/clemson/resolve/proving/absyn/PExp.java:336-341 | The same, for the incoming variables. |
| TermMethods.PExpCache.GetFunctionApplications | compiler/src/edu/clemson/resolve/proving/absyn/PExp.java:361-367 | The same, for the function applications. |
| TermMethods.PExpCache.GetFreeVariables | compiler/src/edu/clemson/resolve/proving/absyn/PExp.java:373-379 | The same, for the free variables. |
| TermMethods.QuantifiedVariablesTwice | compiler/src/edu/clemson/resolve/proving/absyn/PExp.java:347-353 | Two successive calls of the cached getter return the same set, which is the term's quantified variables. |
| TermMethods.SymbolBuilderNaming | compiler/src/edu/clemson/resolve/proving/absyn/PSymbol.java:619-633 | The two-print builder fails with IllegalStateException iff both prints are null. A null right print copies the left one, and the name is then the left print. Otherwise the name is `lprint...rprint`. |
| TermMethods.PSymbolBuilder.constructor | compiler/src/edu/clemson/resolve/proving/absyn/PSymbol.java:603-613 | A new builder has the given names, and the defaults: no qualifier, not incoming, not literal, PREFIX, quantification NONE, no math types, no arguments. |
| TermMethods.PSymbolBuilder.SetQualifier | compiler/src/edu/clemson/resolve/proving/absyn/PSymbol.java:639-642 | Sets the qualifier. |
| TermMethods.PSymbolBuilder.SetLiteral | compiler/src/edu/clemson/resolve/proving/absyn/PSymbol.java:644-647 | Sets the literal flag. |
| TermMethods.PSymbolBuilder.SetMathType | compiler/src/edu/clemson/resolve/proving/absyn/PSymbol.java:649-652 | Sets the math type. |
| TermMethods.PSymbolBuilder.SetMathTypeValue | compiler/src/edu/clemson/resolve/proving/absyn/PSymbol.java:654-657 | Sets the math type value. |
| TermMethods.PSymbolBuilder.SetQuantification | compiler/src/edu/clemson/resolve/proving/absyn/PSymbol.java:669-675 | A null quantification sets NONE; any other is kept. |
| TermMethods.PSymbolBuilder.SetStyle | compiler/src/edu/clemson/resolve/proving/absyn/PSymbol.java:677-680 | Sets the display style. |
| TermMethods.PSymbolBuilder.SetIncoming | compiler/src/edu/clemson/resolve/proving/absyn/PSymbol.java:682-685 | Sets the incoming flag. |
| TermMethods.PSymbolBuilder.AddArguments | compiler/src/edu/clemson/resolve/proving/absyn/PSymbol.java:698-702 | Appends the arguments in order. |
| TermMethods.PSymbolBuilder.Build | compiler/src/edu/clemson/resolve/proving/absyn/PSymbol.java:715-722 | `build` fails iff the math type is null (IllegalStateException) or the left print is null (the hash of a null string). Otherwise it gives the symbol holding exactly the builder's fields. |
| TermMethods.RebuildSymbol | compiler/src/edu/clemson/resolve/proving/absyn/PSymbol.java:615-617 | A symbol whose prints are its name is rebuilt exactly by a one-name builder given its fields. |
| TermMethods.PApplyBuilder.constructor | compiler/src/edu/clemson/resolve/proving/absyn/PApply.java:491-493 | A new builder holds the function portion and the defaults: no arguments, no vc info, no type, PREFIX, not bracket-based. |
| TermMethods.PApplyBuilder.FromApply | compiler/src/edu/clemson/resolve/proving/absyn/PApply.java:481-489 | The copying builder takes every field of the existing application. |
| TermMethods.PApplyBuilder.SetStyle | compiler/src/edu/clemson/resolve/proving/absyn/PApply.java:495-510 | Sets the style and the bracket flag; `style(s)` passes false. |
| TermMethods.PApplyBuilder.SetApplicationType | compiler/src/edu/clemson/resolve/proving/absyn/PApply.java:512-515 | Sets the application type. |
| TermMethods.PApplyBuilder.SetVCInfo | compiler/src/edu/clemson/resolve/proving/absyn/PApply.java:517-521 | Sets the vc location and explanation. |
| TermMethods.PApplyBuilder.AddArguments | compiler/src/edu/clemson/resolve/proving/absyn/PApply.java:523-531 | Appends the arguments in order. |
| TermMethods.PApplyBuilder.Build | compiler/src/edu/clemson/resolve/proving/absyn/PApply.java:535-540 | `build` throws iff the application type is null; otherwise it gives the application of exactly the builder's fields. |
| TermMethods.RebuildApply | compiler/src/edu/clemson/resolve/proving/absyn/PApply.java:481-489 | Copying an application into a builder and building it again gives the same application. |
| Queries.SubExpressions | compiler/src/edu/clemson/resolve/proving/absyn/PApply.java:213-218 | `getSubExpressions` gives only terms strictly smaller than the term: the arguments, the function portion followed by the arguments, the segments, or `[assertion]`. |
| QueriesFacts.ObviouslyTrueOnSameSides | compiler/src/edu/clemson/resolve/proving/absyn/PSymbol.java:345-349 | A binary `=` symbol whose two arguments are the same quantifier-free term is obviously true. |
| QueriesFacts.ObviouslyTrueSidesHashAlike | compiler/src/edu/clemson/resolve/proving/absyn/PApply.java:220-229 | The two sides of an obviously true equality have the same value hash. |
| QueriesFacts.ObviouslyTrueNullary | compiler/src/edu/clemson/resolve/proving/absyn/PSymbol.java:345-349 | A nullary symbol is obviously true iff its name is `true`, ignoring case. |
| QueriesFacts.SymbolNamesOfQuantified | compiler/src/edu/clemson/resolve/proving/absyn/PSymbol.java:504-513 | A quantified symbol's own name is left out of its symbol names; its arguments' names are kept. |
| Queries.SymbolNames | compiler/src/edu/clemson/resolve/proving/absyn/PSymbol.java:504-513 | A symbol that is not quantified contributes its canonical name, whatever the flags; a quantified constant contributes nothing, nor do segments and lambdas. |
| QueriesFacts.SymbolNamesIgnoreLiterals | compiler/src/edu/clemson/resolve/proving/absyn/PApply.java:330-339 | The excludeLiterals flag is passed down but never changes the names collected. |
| QueriesFacts.SymbolNamesExcludeAppsNarrows | compiler/src/edu/clemson/resolve/proving/absyn/PApply.java:330-339 | Excluding applications only drops names: the set is a subset of the one collected with applications. |
| QueriesFacts.HasSymbolNamesInCommonSymmetric | compiler/src/edu/clemson/resolve/proving/absyn/PExp.java:291-296 | Sharing symbol names is symmetric for the same flags. |
| QueriesFacts.HasSymbolNamesInCommonWitness | compiler/src/edu/clemson/resolve/proving/absyn/PExp.java:291-296 | `hasSymbolNamesInCommonWith` holds iff some name is in both name sets computed with the same flags. |
| Queries.Conjuncts | compiler/src/edu/clemson/resolve/proving/absyn/PSymbol.java:406-414 | No conjunct is itself a binary `and` (or `∧` application) or a segments node; a term that does not split is its own only conjunct, and a segments node contributes none. |
| QueriesFacts.ConjunctsIdempotent | compiler/src/edu/clemson/resolve/proving/absyn/PExp.java:299-303 | Splitting is idempotent: each conjunct splits into exactly itself. |
| QueriesFacts.ConjunctsOfChain | compiler/src/edu/clemson/resolve/proving/absyn/PSymbol.java:406-414 | A left-nested `and` chain of any length over atomic leaves splits into exactly its leaves, left to right. |
| QueriesFacts.WedgeSplitsButIsNoConjunct | compiler/src/edu/clemson/resolve/proving/absyn/PApply.java:237-268 | A binary `∧` application is split like `and`, yet `isConjunct` does not recognise it. |
| QueriesFacts.FunctionApplicationsAreApplications | compiler/src/edu/clemson/resolve/proving/absyn/PApply.java:322-327 | Every listed function application is one, and an application lists itself first. |
| QueriesFacts.QuantifiedVariablesAreQuantified | compiler/src/edu/clemson/resolve/proving/absyn/PSymbol.java:487-502 | Every quantified variable is a nullary quantified symbol. |
| QueriesFacts.IncomingVariablesAreIncoming | compiler/src/edu/clemson/resolve/proving/absyn/PSymbol.java:474-485 | Every incoming variable is a nullary symbol with the incoming mark. |
| QueriesFacts.ContainsNameOfSubExpression | compiler/src/edu/clemson/resolve/proving/absyn/PSymbol.java:351-358 | A name contained in a subexpression is contained in the term. |
| QueriesFacts.ContainsNameFromSubExpression | compiler/src/edu/clemson/resolve/proving/absyn/PApply.java:179-186 | A name contained in a term is the symbol's own name or is contained in one of its subexpressions. |
| QueriesFacts.FlipTwice | compiler/src/edu/clemson/resolve/proving/absyn/PQuantified.java:79-82 | Flipping quantifiers twice gives the term back, for terms whose prints are their names (the symbol case rebuilds from the name alone). |
| Queries.WithQuantifiersFlipped | compiler/src/edu/clemson/resolve/proving/absyn/PSymbol.java:463-472 | A symbol keeps its name, style and arity and gets the flipped quantification (changed unless NONE), each argument flipped; an application keeps its style and arity with the function portion flipped; a quantified node flips its quantifier and keeps its declarations; segments and lambdas are unchanged. |
| QueriesFacts.NamesOf | compiler/src/main/java/org/resolvelite/proving/absyn/PSegments.java:147-149 | The list of the segments' names, one per segment. |
| QueriesFacts.SegmentsToString | compiler/src/main/java/org/resolvelite/proving/absyn/PSegments.java:147-149 | Segments of plain nullary names print as the names joined by `.`. |
| QueriesFacts.SegmentsToStringSplits | compiler/src/main/java/org/resolvelite/proving/absyn/PSegments.java:147-149 | Splitting that text at its dots gives back the segment names, when no name holds a dot. |
| Queries.ToString | compiler/src/edu/clemson/resolve/proving/absyn/PExp.java:407-410 | `toString(parenthesizeApplications)` returns exactly when the reference predicate `Printable` holds, and throws (None) otherwise. `Printable` spells out the cases: an infix symbol or application needs two printable arguments; an outfix symbol needs only its first argument; prefix, mixfix and outfix applications need every argument, a mixfix or outfix one also a symbol as function portion, and a mixfix one at least one argument; segments need every segment; a quantified node needs a declaration and a printable assertion. A nullary symbol prints as its name, after an `@` when incoming, and a lambda prints its display text. |
| Queries.SymbolToString | compiler/src/edu/clemson/resolve/proving/absyn/PSymbol.java:576-599 | `PSymbol.toString()` returns exactly when `Printable` holds, whatever the flag: infix needs arguments 0 and 1, outfix only argument 0, prefix every argument. A nullary symbol is its name after an `@` when incoming. |
| Queries.ApplyToString | compiler/src/edu/clemson/resolve/proving/absyn/PApply.java:36-103 | `PApply.toString(parenthesizeApplications)` returns exactly when `Printable` holds for the application under the same flag, so each display style fails exactly when a piece it prints fails. |
| AssertiveBlocks.AddLeft | compiler/src/edu/clemson/resolve/vcgen/app/ParsimoniousAssumeApplicationStrategy.java:115-116 | `addLeft` gives a new sequent whose right side is unchanged and whose left side is the old one with the formula appended. |
| AssertiveBlocks.SubstituteEach | compiler/src/edu/clemson/resolve/vcgen/app/ParsimoniousAssumeApplicationStrategy.java:83-85 | Each formula is substituted under the map, in order. |
| AssertiveBlocks.SubstituteSequents | compiler/src/edu/clemson/resolve/vcgen/app/ParsimoniousAssumeApplicationStrategy.java:86 | `withSequentFormulaSubstitution` substitutes every formula of every sequent, one result sequent per input sequent. |
| AssertiveBlocks.ReboundTo | compiler/src/edu/clemson/resolve/vcgen/application/IfElseApplicationStrategy.java:31 | `copyWithEnclosingBlock` applied to each statement changes only its enclosing block, and keeps the count and order. |
| AssertiveBlocks.VCAssertiveBlockBuilder.constructor | compiler/src/edu/clemson/resolve/vcgen/ModelBuilderProto.java:161-163 | A new assertive block builder has the given name and nothing else yet: no free variables, assumptions, confirms, final confirm or statements, and it is not remembered. |
| AssertiveBlocks.VCAssertiveBlockBuilder.Copy | compiler/src/edu/clemson/resolve/vcgen/application/IfElseApplicationStrategy.java:27 | The copying builder starts in the same state as the one it copies. |
| AssertiveBlocks.VCAssertiveBlockBuilder.Snapshot | compiler/src/edu/clemson/resolve/vcgen/application/IfElseApplicationStrategy.java:37 | `snapshot` records the block's name, assumptions, final confirm and statements as they are now. |
| AssertiveBlocks.VCAssertiveBlockBuilder.SetFreeVars | compiler/src/edu/clemson/resolve/vcgen/ModelBuilderProto.java:164 | `freeVars` sets the free variables. |
| AssertiveBlocks.VCAssertiveBlockBuilder.Assume | compiler/src/edu/clemson/resolve/vcgen/ModelBuilderProto.java:165 | `assume(e)` appends one assumption. |
| AssertiveBlocks.VCAssertiveBlockBuilder.AssumeAll | compiler/src/edu/clemson/resolve/vcgen/ModelBuilderProto.java:166-167 | `assume(list)` appends the assumptions in order. |
| AssertiveBlocks.VCAssertiveBlockBuilder.Confirm | compiler/src/edu/clemson/resolve/vcgen/ModelBuilderProto.java:140 | `confirm(e)` appends one confirm. |
| AssertiveBlocks.VCAssertiveBlockBuilder.FinalConfirmExp | compiler/src/edu/clemson/resolve/vcgen/ModelBuilderProto.java:168 | `finalConfirm(e)` makes the goal the single sequent that proves `e` from nothing. |
| AssertiveBlocks.VCAssertiveBlockBuilder.FinalConfirmSequents | compiler/src/edu/clemson/resolve/vcgen/app/ParsimoniousAssumeApplicationStrategy.java:94 | `finalConfirm(sequents)` replaces the goal's sequents. |
| AssertiveBlocks.VCAssertiveBlockBuilder.AddStats | compiler/src/edu/clemson/resolve/vcgen/application/IfElseApplicationStrategy.java:31 | `stats(list)`, called on a block that still holds the statements before the `if`, adds the listed statements after them and keeps every earlier one (an assumed behaviour; see "## Left out"). |
| AssertiveBlocks.VCAssertiveBlockBuilder.Remember | compiler/src/edu/clemson/resolve/vcgen/ModelBuilderProto.java:168 | `remember` marks the block as remembering its incoming values. |
| AssertiveBlocks.BlockDeque.constructor | compiler/src/edu/clemson/resolve/vcgen/ModelBuilderProto.java:54-55 | The block stack starts empty. |
| AssertiveBlocks.BlockDeque.Push | compiler/src/edu/clemson/resolve/vcgen/ModelBuilderProto.java:169 | `push` puts the block on top. |
| AssertiveBlocks.BlockDeque.Pop | compiler/src/edu/clemson/resolve/vcgen/ModelBuilderProto.java:177 | `pop` on an empty stack throws NoSuchElementException and changes nothing; otherwise it returns the top and removes it. |
| AssertiveBlocks.BlockDeque.Peek | compiler/src/edu/clemson/resolve/vcgen/ModelBuilderProto.java:192 | `peek` gives the top block, or null on an empty stack. |
| Assumes.NewAssume | compiler/src/edu/clemson/resolve/vcgen/stats/VCAssume.java:16-18 | The three-argument constructor ignores `stipulate`: the assume is neither stipulated nor a notice, uses the parsimonious strategy, and holds the given block and expression. |
| Assumes.CopyWithEnclosingBlock | compiler/src/edu/clemson/resolve/vcgen/stats/VCAssume.java:40-43 | The copy changes only the enclosing block: strategy, both flags and expression are kept, so its text is the same. |
| Assumes.AssumeToString | compiler/src/edu/clemson/resolve/vcgen/stats/VCAssume.java:45-59 | The text is `Notice e;` whenever the notice flag is set, whatever the stipulated flag says. Otherwise it is `Stipulated_Assume e;` or `Assume e;`. It exists exactly when the expression prints. |
| AssumesFacts.TextDeterminesKind | compiler/src/edu/clemson/resolve/vcgen/stats/VCAssume.java:45-59 | Two assumes with the same text agree on being a notice, and when neither is a notice they agree on being stipulated. |
| IfElseRule.GetMathCondition | compiler/src/edu/clemson/resolve/vcgen/application/IfElseApplicationStrategy.java:58-76 | The condition node is the if-statement's when the context is one and the while-statement's otherwise; any other context fails the cast with ClassCastException. The math condition is the translation of the program condition at that node. |
| IfElseRule.NegateMathCondition | compiler/src/edu/clemson/resolve/vcgen/application/IfElseApplicationStrategy.java:47-55 | The negation is a boolean application of `⌐`, whose function type is boolean to boolean, to exactly one argument, the condition. It names the same symbols, is its own only conjunct and is no equality. |
| IfElseRule.ApplyIfElse | compiler/src/edu/clemson/resolve/vcgen/application/IfElseApplicationStrategy.java:24-38 | The block assumes the condition and adds the then-statements, re-bound to itself, after the statements it still holds. A copy made before that assumption assumes the negated condition, adds the else-statements re-bound to the copy after the same statements, and is the one block pushed onto the branches. The result is the block's snapshot. A failed condition lookup changes nothing. |
| IfElseFacts.ReboundToIsIdentity | compiler/src/edu/clemson/resolve/vcgen/application/IfElseApplicationStrategy.java:31 | Re-binding leaves the statements unchanged iff every statement is already in that block. |
| IfElseFacts.ReboundTwice | compiler/src/edu/clemson/resolve/vcgen/application/IfElseApplicationStrategy.java:35 | Re-binding twice is re-binding to the last block. |
| ConditionalRules.IfCondition | compiler/src/edu/clemson/resolve/vcgen/application/ConditionalApplicationStrategy.java:76-85 | The one-sided rules cast the context to an if-statement: they fail with ClassCastException on anything else, and otherwise translate the condition at that node. |
| ConditionalRules.ApplyIf | compiler/src/edu/clemson/resolve/vcgen/application/ConditionalApplicationStrategy.java:22-35 | The If rule assumes the math condition, adds the then-statements as they are after the statements the block still holds, and returns the snapshot of the same block. No other block is made or pushed. |
| ConditionalRules.ApplyElse | compiler/src/edu/clemson/resolve/vcgen/application/ConditionalApplicationStrategy.java:48-55 | The Else rule assumes the negated condition, adds the else-statements after the statements the block still holds, and returns the snapshot of the same block. |
| ConditionalFacts.ConditionReadingsAgree | compiler/src/edu/clemson/resolve/vcgen/application/ConditionalApplicationStrategy.java:76-85 | On an if-statement both rules read the same condition. On a while statement only the if/else rule finds one. On any other context both fail. |
| Parsimonious.Sides | compiler/src/edu/clemson/resolve/vcgen/app/ParsimoniousAssumeApplicationStrategy.java:37-42 | The two sides of an equality are its subexpressions 1 and 2. Reading them succeeds iff there are at least three subexpressions, and fails with IndexOutOfBoundsException otherwise. |
| Parsimonious.NamesOf | compiler/src/edu/clemson/resolve/vcgen/app/ParsimoniousAssumeApplicationStrategy.java:190-199 | The names gathered from a list of formulas, leaving out applications and literals, are exactly the union of each formula's names: each one's names are included, and every gathered name comes from some formula. |
| Parsimonious.ParsimoniousStep | compiler/src/edu/clemson/resolve/vcgen/app/ParsimoniousAssumeApplicationStrategy.java:104-122 | Each step makes one new sequent per old sequent, in the same order. Each new sequent is its old one stepped through the assumptions. |
| Parsimonious.ChangesSome | compiler/src/edu/clemson/resolve/vcgen/app/ParsimoniousAssumeApplicationStrategy.java:134-137 | The inner loop's answer is true iff substituting [s ↦ t] changes some formula of the list. |
| Parsimonious.SubstitutesAnyOf | compiler/src/edu/clemson/resolve/vcgen/app/ParsimoniousAssumeApplicationStrategy.java:132-144 | The nested loops with their early return answer true iff some formula on either side of some sequent changes under [s ↦ t]. |
| Parsimonious.SortOne | compiler/src/edu/clemson/resolve/vcgen/app/ParsimoniousAssumeApplicationStrategy.java:33-77 | One turn of the conjunct loop does what the one-conjunct sorting function defines. |
| Parsimonious.SortAll | compiler/src/edu/clemson/resolve/vcgen/app/ParsimoniousAssumeApplicationStrategy.java:32-78 | The conjunct loop sorts the whole list of conjuncts, starting from nothing sorted. |
| Parsimonious.SequentSymbolNames | compiler/src/edu/clemson/resolve/vcgen/app/ParsimoniousAssumeApplicationStrategy.java:190-199 | The loops over both sides of a sequent gather its symbol names, leaving out applications and literals. |
| Parsimonious.StepOneSequent | compiler/src/edu/clemson/resolve/vcgen/app/ParsimoniousAssumeApplicationStrategy.java:109-120 | The loop over the assumptions steps one sequent as the step function defines: each assumption is weighed against the sequent as it has grown so far. |
| Parsimonious.PerformParsimoniousStep | compiler/src/edu/clemson/resolve/vcgen/app/ParsimoniousAssumeApplicationStrategy.java:104-122 | The method computes the parsimonious step over every sequent of the goal. |
| Parsimonious.NewGoal | compiler/src/edu/clemson/resolve/vcgen/app/ParsimoniousAssumeApplicationStrategy.java:31-94 | The new goal is made this way: sort the conjuncts; keep the non-effectual equalities as they are and substitute the others; substitute every sequent; then take the step. An exception in sorting is passed on. |
| Parsimonious.WithEqualSubstitutions | compiler/src/edu/clemson/resolve/vcgen/app/ParsimoniousAssumeApplicationStrategy.java:79-85 | The assumptions the step adds are `NewAssumptions` of the sorting: every set-aside equality, then every kept conjunct with the collected substitutions applied, each in its original order. |
| Parsimonious.ApplyRule | compiler/src/edu/clemson/resolve/vcgen/app/ParsimoniousAssumeApplicationStrategy.java:21-96 | The block's goal becomes the new goal, and the result is the block's snapshot. An exception leaves the goal unchanged, and only the goal changes. |
| Parsimonious.StipulatedSortsNothing | compiler/src/edu/clemson/resolve/vcgen/app/ParsimoniousAssumeApplicationStrategy.java:33-36 | A stipulated assumption keeps every conjunct in order and makes neither a substitution nor a set-aside. |
| ParsimoniousFacts.StipulatedStepAddsAll | compiler/src/edu/clemson/resolve/vcgen/app/ParsimoniousAssumeApplicationStrategy.java:115-116 | On a stipulated step every assumption joins the left of the sequent, in order, and the right side is unchanged. |
| ParsimoniousFacts.StipulatedGoal | compiler/src/edu/clemson/resolve/vcgen/app/ParsimoniousAssumeApplicationStrategy.java:33-94 | A stipulated assume always succeeds. Each sequent gains all the conjuncts on its left, and only the empty map is substituted. |
| ParsimoniousFacts.StipulatedGoalIsStep | compiler/src/edu/clemson/resolve/vcgen/app/ParsimoniousAssumeApplicationStrategy.java:33-89 | A stipulated assume's goal is one parsimonious step that adds every conjunct, each rewritten by no substitution, to the sequents rewritten by no substitution. |
| ParsimoniousFacts.SortingFacts | compiler/src/edu/clemson/resolve/vcgen/app/ParsimoniousAssumeApplicationStrategy.java:37-77 | Kept and set-aside conjuncts come from the input. What is already kept stays kept. The set-aside ones are equalities whose substitution changes no formula of the goal. Every non-equality is kept. Every substitution key is a variable. |
| ParsimoniousFacts.SortOneKeys | compiler/src/edu/clemson/resolve/vcgen/app/ParsimoniousAssumeApplicationStrategy.java:43-72 | Sorting one unstipulated conjunct keeps every old substitution key in its place and can add only a key that is a variable. |
| ParsimoniousFacts.VariableEquality | compiler/src/edu/clemson/resolve/vcgen/app/ParsimoniousAssumeApplicationStrategy.java:43-50 | An equality between two variables becomes lhs ↦ rhs exactly when lhs is a verification variable, and is kept otherwise. |
| ParsimoniousFacts.VariableLeftSide | compiler/src/edu/clemson/resolve/vcgen/app/ParsimoniousAssumeApplicationStrategy.java:52-59 | When only the lhs is a variable, the equality becomes lhs ↦ rhs if that changes a formula of the goal or the lhs is a verification variable. Otherwise it is set aside as non-effectual. |
| ParsimoniousFacts.VariableRightSide | compiler/src/edu/clemson/resolve/vcgen/app/ParsimoniousAssumeApplicationStrategy.java:61-68 | When only the rhs is a variable, the equality becomes rhs ↦ lhs under the same test, and is set aside otherwise. |
| ParsimoniousFacts.NoVariableSide | compiler/src/edu/clemson/resolve/vcgen/app/ParsimoniousAssumeApplicationStrategy.java:70-77 | An equality with no variable side, like any non-equality, is kept. |
| ParsimoniousFacts.SymbolEqualityThrows | compiler/src/edu/clemson/resolve/vcgen/app/ParsimoniousAssumeApplicationStrategy.java:37-42 | An equality written as the symbol `=` applied to two arguments has only two subexpressions. Reading its sides throws IndexOutOfBoundsException, and the whole rule fails. |
| ParsimoniousFacts.StepSequentFacts | compiler/src/edu/clemson/resolve/vcgen/app/ParsimoniousAssumeApplicationStrategy.java:109-120 | A step keeps the right side and keeps the old left side as a prefix. What it adds comes from the assumptions and, unless stipulated, is never obviously true. |
| ParsimoniousFacts.IrrelevantAssumptionsDropped | compiler/src/edu/clemson/resolve/vcgen/app/ParsimoniousAssumeApplicationStrategy.java:112-118 | Assumptions that share no symbol name with a sequent never join it, so a non-stipulated step leaves that sequent unchanged. |
| ParsimoniousFacts.ObviouslyTrueNeverJoins | compiler/src/edu/clemson/resolve/vcgen/app/ParsimoniousAssumeApplicationStrategy.java:112-118 | An obviously true assumption never joins a sequent in a non-stipulated step. |
| Parsimonious.ParsimoniousGoal | compiler/src/edu/clemson/resolve/vcgen/app/ParsimoniousAssumeApplicationStrategy.java:32-89 | The new goal has as many sequents as the old one, and a stipulated assume never throws. |
| Correspondence.PlainForm | compiler/src/edu/clemson/resolve/vcgen/CorrespondenceReducingVisitor.java:74-78 | The lookup key made from a conceptual application is a nullary, unquantified symbol. It has the application's name, its incoming mark, its math type and its type value. |
| Correspondence.BetaStep | compiler/src/edu/clemson/resolve/vcgen/CorrespondenceReducingVisitor.java:72-86 | A symbol other than a defined `conc.` application leaves the term unchanged. A definition that is not a lambda throws ClassCastException, and nothing else does. Arity mismatch between parameters and arguments throws IllegalArgumentException. Otherwise the application is replaced in the working term by the lambda body with its parameters instantiated by the arguments. |
| Correspondence.CorrespondenceStep | compiler/src/edu/clemson/resolve/vcgen/CorrespondenceReducingVisitor.java:51-55 | A visited symbol that is a key is substituted by its value in the working term; any other symbol leaves the term as it is. |
| Correspondence.EntryOf | compiler/src/edu/clemson/resolve/vcgen/CorrespondenceReducingVisitor.java:23-26 | A conjunct contributes subexpression 0 mapped to subexpression 1. Subexpression 0 must be a symbol, or ClassCastException is thrown. With too few subexpressions, IndexOutOfBoundsException is thrown. |
| Correspondence.PutEntriesStep | compiler/src/edu/clemson/resolve/vcgen/CorrespondenceReducingVisitor.java:23-26 | The constructor's loop stops at the first conjunct without an entry, with that conjunct's exception. Otherwise it puts the entry and goes on with the rest. |
| Correspondence.BasicBetaReducingVisitor.constructor | compiler/src/edu/clemson/resolve/vcgen/CorrespondenceReducingVisitor.java:66-70 | The beta reducer keeps the map it is given and starts its working term at the start term. |
| Correspondence.BasicBetaReducingVisitor.EndPSymbol | compiler/src/edu/clemson/resolve/vcgen/CorrespondenceReducingVisitor.java:72-86 | The working term after the call, or the exception thrown, is the beta step on the old working term. Nothing else changes. |
| Correspondence.BasicBetaReducingVisitor.Accept | compiler/src/edu/clemson/resolve/vcgen/CorrespondenceReducingVisitor.java:43 | The visit runs the beta step on every visited symbol in order, and stops at the first exception. |
| Correspondence.BetaReduceWith | compiler/src/edu/clemson/resolve/vcgen/CorrespondenceReducingVisitor.java:39-45 | A fresh beta reducer started at the term visits that term, and the result is its working term. |
| Correspondence.BuildSubstitutions | compiler/src/edu/clemson/resolve/vcgen/CorrespondenceReducingVisitor.java:22-26 | The loop over the correspondence's conjuncts builds the map by putting each conjunct's entry in turn, with the first exception passed on. |
| Correspondence.CorrespondenceReduce | compiler/src/edu/clemson/resolve/vcgen/ModelBuilderProto.java:231-237 | A conjunct without an entry makes the substitution throw the exception of some such conjunct; a correspondence with no conjuncts leaves the start term as it is. |
| Correspondence.CorrespondenceReducingVisitor.Of | compiler/src/edu/clemson/resolve/vcgen/CorrespondenceReducingVisitor.java:28-29 | The visitor holds the map and the reduced term it is given. |
| Correspondence.CorrespondenceReducingVisitor.FromCorrespondence | compiler/src/edu/clemson/resolve/vcgen/CorrespondenceReducingVisitor.java:22-30 | The visitor made from a correspondence holds the map built from the conjuncts, and as its term the start term beta-reduced under that map. An exception from either stage is passed on. |
| Correspondence.CorrespondenceReducingVisitor.FromMap | compiler/src/edu/clemson/resolve/vcgen/CorrespondenceReducingVisitor.java:32-37 | The visitor made from a map holds that map, and as its term the start term beta-reduced under it. |
| Correspondence.CorrespondenceReducingVisitor.EndPSymbol | compiler/src/edu/clemson/resolve/vcgen/CorrespondenceReducingVisitor.java:51-55 | The working term becomes the correspondence step of the old one. |
| Correspondence.CorrespondenceReducingVisitor.Accept | compiler/src/edu/clemson/resolve/vcgen/ModelBuilderProto.java:235 | The visit runs the correspondence step on every visited symbol in order. |
| Correspondence.WithCorrespondencePartsSubstituted | compiler/src/edu/clemson/resolve/vcgen/ModelBuilderProto.java:231-237 | The result is the start term beta-reduced under the correspondence's map, with every visited key then substituted by its value. |
| CorrespondenceFacts.VisitedSymbolsAreSymbols | compiler/src/edu/clemson/resolve/vcgen/CorrespondenceReducingVisitor.java:51 | Only symbols are visited, and a symbol is visited last, after everything below it. |
| CorrespondenceFacts.VisitedAllAreSymbols | compiler/src/edu/clemson/resolve/vcgen/CorrespondenceReducingVisitor.java:51 | The symbols visited in a list of terms are all symbols. |
| Correspondence.BetaFoldWithoutReducible | compiler/src/edu/clemson/resolve/vcgen/CorrespondenceReducingVisitor.java:72-86 | Symbols with no defined conceptual application among them leave the working term unchanged, with no exception. |
| CorrespondenceFacts.BetaReduceWithoutConcApplications | compiler/src/edu/clemson/resolve/vcgen/CorrespondenceReducingVisitor.java:39-45 | A term none of whose visited symbols is a defined `conc.` application is its own beta reduction. |
| CorrespondenceFacts.BetaFoldAppend | compiler/src/edu/clemson/resolve/vcgen/CorrespondenceReducingVisitor.java:43 | Two visits in a row do the first visit's steps, then, unless one threw, the second visit's steps from the result. |
| CorrespondenceFacts.NonLambdaDefinitionFails | compiler/src/edu/clemson/resolve/vcgen/CorrespondenceReducingVisitor.java:80 | Once the visit reaches a conceptual application defined by something other than a lambda, the reduction throws ClassCastException. |
| Correspondence.CorrespondenceFoldEmpty | compiler/src/edu/clemson/resolve/vcgen/CorrespondenceReducingVisitor.java:51-55 | With no substitutions the correspondence steps change nothing. |
| Correspondence.ReduceWithEmptyMap | compiler/src/edu/clemson/resolve/vcgen/CorrespondenceReducingVisitor.java:32-49 | A visitor with an empty map hands back the term it was started on. |
| CorrespondenceFacts.CorrespondenceFoldWithoutKeys | compiler/src/edu/clemson/resolve/vcgen/CorrespondenceReducingVisitor.java:51-55 | When no visited symbol is a key, the term is left as it is. |
| CorrespondenceFacts.PutEntriesIsZip | compiler/src/edu/clemson/resolve/vcgen/CorrespondenceReducingVisitor.java:22-26 | When every conjunct has an entry, the map is the formal-to-actual zip of the conjuncts' subexpressions 0 and 1. |
| CorrespondenceFacts.PutEntriesPaired | compiler/src/edu/clemson/resolve/vcgen/CorrespondenceReducingVisitor.java:22-26 | Each entry the constructor's put loop leaves either was there before the loop or pairs a conjunct's subexpression 1 with that conjunct's subexpression 0, or with a key that matches it and kept its place. |
| Correspondence.PutEntriesFails | compiler/src/edu/clemson/resolve/vcgen/CorrespondenceReducingVisitor.java:22-26 | The map building fails exactly when some conjunct has no entry, and it fails with such a conjunct's exception. |
| CorrespondenceFacts.CorrespondenceMapFromConjuncts | compiler/src/edu/clemson/resolve/vcgen/CorrespondenceReducingVisitor.java:22-26 | In a successfully built map, every key is subexpression 0 of some conjunct. Every value is subexpression 1 of the same conjunct as a key that is the entry's own key or `equals` it with the same hash code, so no value is detached from the left side it was put under. |
| CorrespondenceFacts.SymbolConjunctEntry | compiler/src/edu/clemson/resolve/vcgen/CorrespondenceReducingVisitor.java:24-25 | A conjunct written as a symbol `x = y` contributes x ↦ y. |
| CorrespondenceFacts.ApplicationConjunctEntry | compiler/src/edu/clemson/resolve/vcgen/CorrespondenceReducingVisitor.java:24-25 | A conjunct written as an application f(a, …) contributes f ↦ a. Its subexpression 0 is the function portion, not the left operand. |
| ModelBuilders.FreeVars | compiler/src/edu/clemson/resolve/vcgen/ModelBuilderProto.java:214-219 | The free variables are exactly the scope's parameters and variables, and every other symbol is dropped. There are never more free variables than symbols. |
| ModelBuilders.AssertionsOfKind | compiler/src/edu/clemson/resolve/vcgen/ModelBuilderProto.java:243-251 | An expression is among a module's assertions of a kind iff some assertion of that kind encloses it. |
| ModelBuilders.ModuleLevelAssertions | compiler/src/edu/clemson/resolve/vcgen/ModelBuilderProto.java:239-254 | Reading the assertions of the related modules succeeds iff every related module is in the module table. Otherwise it is a NullPointerException. |
| ModelBuilders.NamedSymbol | compiler/src/edu/clemson/resolve/vcgen/ModelBuilderProto.java:272-274 | A symbol built from a name and a math type is a nullary, non-literal symbol with that name and the chosen incoming mark. |
| ModelBuilders.RequiresStep | compiler/src/edu/clemson/resolve/vcgen/ModelBuilderProto.java:265-307 | A parameter of a named type adds exactly two conjuncts after the earlier ones: initialization, then constraint or convention. A generic parameter adds none. Only a representation parameter rewrites the requires, and only it can fail. |
| ModelBuilders.ReprRewrite | compiler/src/edu/clemson/resolve/vcgen/ModelBuilderProto.java:337-355 | A representation parameter adds exactly one conjunct, the convention about the parameter, after the earlier ones. |
| ModelBuilders.ModeRewrite | compiler/src/edu/clemson/resolve/vcgen/ModelBuilderProto.java:356-376 | The mode part adds no conjunct. Every mode except preserves, restores and clears leaves the ensures as it is. |
| ModelBuilders.EnsuresStep | compiler/src/edu/clemson/resolve/vcgen/ModelBuilderProto.java:331-377 | One parameter adds one conjunct after the earlier ones if it is of a representation type, and none otherwise. Only a representation's correspondence can make it fail. |
| ModelBuilders.RequiresFoldError | compiler/src/edu/clemson/resolve/vcgen/ModelBuilderProto.java:264-311 | Once one parameter's rewriting fails, the whole requires rewriting fails with that error. |
| ModelBuilders.EnsuresFoldError | compiler/src/edu/clemson/resolve/vcgen/ModelBuilderProto.java:324-378 | Once one parameter's rewriting fails, the whole ensures rewriting fails with that error. |
| ModelBuilders.RequiresForParam | compiler/src/edu/clemson/resolve/vcgen/ModelBuilderProto.java:265-310 | The loop body for one parameter computes one requires step. |
| ModelBuilders.ModifyRequiresByParams | compiler/src/edu/clemson/resolve/vcgen/ModelBuilderProto.java:256-314 | The loop over the parameters gives the conjunction of the parameter conjuncts, in order, followed by the rewritten requires. |
| ModelBuilders.EnsuresForParam | compiler/src/edu/clemson/resolve/vcgen/ModelBuilderProto.java:325-377 | The loop body for one parameter computes one ensures step. |
| ModelBuilders.ModifyEnsuresByParams | compiler/src/edu/clemson/resolve/vcgen/ModelBuilderProto.java:316-381 | The loop over the parameters gives the conjunction of the representation conventions, in order, followed by the rewritten ensures. |
| ModelBuilders.ProcedureBlock | compiler/src/edu/clemson/resolve/vcgen/ModelBuilderProto.java:161-168 | A procedure block assumes the rewritten requires first, then one assumption per module-level requires and per module-level constraint. It final-confirms the single sequent ⊢ rewritten ensures and is remembered. |
| ModelBuilders.ModelBuilder.constructor | compiler/src/edu/clemson/resolve/vcgen/ModelBuilderProto.java:47-61 | A new builder starts with an empty block stack, no output, no module scope, no representation symbol and no statements. |
| ModelBuilders.ModelBuilder.EnterModule | compiler/src/edu/clemson/resolve/vcgen/ModelBuilderProto.java:67-69 | The module scope is the table's entry for the module, or null when the table lacks it. |
| ModelBuilders.ModelBuilder.LevelAssertions | compiler/src/edu/clemson/resolve/vcgen/ModelBuilderProto.java:239-254 | With no current module scope, reading the module-level assertions is a NullPointerException. |
| ModelBuilders.ModelBuilder.GetModuleLevelAssertionsOfType | compiler/src/edu/clemson/resolve/vcgen/ModelBuilderProto.java:239-254 | The loop over the related modules collects the assertions of the kind, module by module, in order. A module missing from the table is a NullPointerException. |
| ModelBuilders.ModelBuilder.EnterTypeRepresentationDecl | compiler/src/edu/clemson/resolve/vcgen/ModelBuilderProto.java:71-89 | A failed lookup leaves the representation symbol null. A block named `Well_Def_Corr_Hyp=` + name is pushed on top iff the symbol was found and the module-level requires can be read. That block assumes those requires, then the convention, over the scope's free variables. Otherwise the stack is unchanged. |
| ModelBuilders.ModelBuilder.ExitTypeRepresentationDecl | compiler/src/edu/clemson/resolve/vcgen/ModelBuilderProto.java:91-110 | With no representation symbol nothing happens. Otherwise the top block is popped. It final-confirms the type's constraint, or true, with the exemplar replaced by the conceptual exemplar and the correspondence reduced, and is emitted. Only the popped builder may change: every other builder left on the stack keeps its contents. A failed reduction or an empty stack emits nothing and changes no builder. |
| ModelBuilders.ModelBuilder.EnterTypeImplInit | compiler/src/edu/clemson/resolve/vcgen/ModelBuilderProto.java:112-121 | A block named `T_Init_Hypo=` + the representation's name, assuming the module-level requires, is pushed on top. With no representation symbol, or with unreadable assertions, the call fails and the stack is unchanged. |
| ModelBuilders.ModelBuilder.ExitTypeImplInit | compiler/src/edu/clemson/resolve/vcgen/ModelBuilderProto.java:123-142 | The top block is popped and the collected statements are added to it. It confirms the convention and final-confirms the reduced initialization ensures, and is emitted. Only the popped builder may change: every other builder left on the stack, such as the enclosing representation's, keeps its contents. Any failure emits nothing and changes no builder. |
| ModelBuilders.ModelBuilder.ReduceInitEnsures | compiler/src/edu/clemson/resolve/vcgen/ModelBuilderProto.java:124-136 | The goal an initialization block final-confirms is `ReprInitGoal`: the type model's initialization ensures, or true without a model, with the exemplar replaced by the conceptual exemplar and the correspondence reduced in; a reduction error is passed on. |
| ModelBuilders.ModelBuilder.EmitInitBlock | compiler/src/edu/clemson/resolve/vcgen/ModelBuilderProto.java:137-141 | The top block is popped and emitted with the collected statements added to its own, the convention appended to its confirms and the goal as its only final confirm; every other block keeps its contents, and an empty stack fails with `NoSuchElementException` and emits nothing. |
| ModelBuilders.ModelBuilder.VisitTypeImplInit | compiler/src/edu/clemson/resolve/vcgen/ModelBuilderProto.java:112-142 | Entering and leaving a representation's initialization emits one block, `T_Init_Hypo=` + the representation's name, assuming the module-level requires, holding the collected statements, confirming the convention and final-confirming the reduced initialization ensures. The stack is back as it was and no other block changes; it fails exactly when there is no representation symbol, the assertions cannot be read or the reduction fails. |
| ModelBuilders.ModelBuilder.VisitRepresentationBody | compiler/src/edu/clemson/resolve/vcgen/ModelBuilderProto.java:91-142 | After entering a representation: the initialization block is emitted, then the representation block from the top of the stack with the reduced constraint as final confirm, and that block is popped; every other block keeps its contents. |
| ModelBuilders.ModelBuilder.BuildProcedureBlock | compiler/src/edu/clemson/resolve/vcgen/ModelBuilderProto.java:161-168 | The block built is the procedure block over the scope's free variables, the rewritten clauses and the module-level requires and constraints. It fails with NullPointerException iff those assertions cannot be read. |
| ModelBuilders.ModelBuilder.EnterProcedureDecl | compiler/src/edu/clemson/resolve/vcgen/ModelBuilderProto.java:144-174 | A failed operation lookup is caught and leaves the stack as it was. Otherwise the procedure block of the rewritten requires and ensures is pushed on top, iff both rewritings and both assertion reads succeed. |
| ModelBuilders.ModelBuilder.ExitProcedureDecl | compiler/src/edu/clemson/resolve/vcgen/ModelBuilderProto.java:176-180 | The top block is popped, the collected statements are added to it, and it is emitted at the end of the output. Only the popped builder may change: every other builder left on the stack keeps its contents. An empty stack throws NoSuchElementException and emits nothing. |
| ModelBuilders.ModelBuilder.VisitProcedure | compiler/src/edu/clemson/resolve/vcgen/ModelBuilderProto.java:144-180 | Entering and then leaving a procedure leaves the stack as it was, and every builder on it keeps its contents. Exactly the procedure's block, with its statements, is emitted, and it fails exactly when one of the rewritings or assertion reads fails. |
| ModelBuilders.ModelBuilder.VisitRepresentation | compiler/src/edu/clemson/resolve/vcgen/ModelBuilderProto.java:71-142 | A representation with its initialization nested inside: the initialization block is emitted first, then the representation block with exactly the assumptions entering gave it and the reduced constraint as final confirm; the stack is back as it was, and it fails exactly when the lookup, the assertion read or one of the two reductions fails. |
| ModelBuilders.ModelBuilder.ExitStmt | compiler/src/edu/clemson/resolve/vcgen/ModelBuilderProto.java:186-188 | A statement is mapped to the rule-backed statement of its first child, and nothing else in the map changes. |
| ModelBuilders.ModelBuilder.ExitCallStmt | compiler/src/edu/clemson/resolve/vcgen/ModelBuilderProto.java:190-196 | A call statement is mapped to an explicit-call statement in the block on top of the stack, over the call's expression. |
| ModelBuilders.ModelBuilder.ExitSwapStmt | compiler/src/edu/clemson/resolve/vcgen/ModelBuilderProto.java:198-204 | A swap statement is mapped to a swap statement in the top block, over its two sides. |
| ModelBuilders.ModelBuilder.ExitAssignStmt | compiler/src/edu/clemson/resolve/vcgen/ModelBuilderProto.java:206-212 | An assignment is mapped to a function-assignment statement in the top block, over its two sides. |
| ModelBuilderFacts.RequiresConjunctCount | compiler/src/edu/clemson/resolve/vcgen/ModelBuilderProto.java:270-307 | Every parameter of a named type contributes exactly two conjuncts to the requires. |
| ModelBuilderFacts.EnsuresConjunctCount | compiler/src/edu/clemson/resolve/vcgen/ModelBuilderProto.java:337-355 | Every parameter of a representation type contributes exactly one conjunct to the ensures, its convention. |
| ModelBuilderFacts.FamiliesKeepRequires | compiler/src/edu/clemson/resolve/vcgen/ModelBuilderProto.java:278-283 | Without a representation parameter, the requires rewriting cannot fail and keeps the requires unchanged, as the last conjunct. |
| ModelBuilderFacts.FamiliesAddNoEnsuresConjunct | compiler/src/edu/clemson/resolve/vcgen/ModelBuilderProto.java:331-377 | Without a representation parameter, the ensures rewriting cannot fail and adds no conjunct. |
| ModelBuilderFacts.UnnamedContributeNothing | compiler/src/edu/clemson/resolve/vcgen/ModelBuilderProto.java:308-310 | Parameters of a generic or record type contribute nothing: the requires and the ensures are each conjoined alone, unchanged. |
| ModelBuilderFacts.RequiresConjunctsInOrder | compiler/src/edu/clemson/resolve/vcgen/ModelBuilderProto.java:264-311 | The conjuncts from a prefix of the parameters come first, in the same order, among the conjuncts from all of them. |
| ModelBuilderFacts.SingleFamilyParameter | compiler/src/edu/clemson/resolve/vcgen/ModelBuilderProto.java:270-283 | For a single family parameter the requires becomes its initialization ensures, then its constraint, each about the parameter, then the requires. |
| ModelBuilderFacts.SingleRepresentationParameter | compiler/src/edu/clemson/resolve/vcgen/ModelBuilderProto.java:286-306 | For a single representation parameter the requires becomes its initialization, then its convention, then the reduced requires. The reduced requires has the exemplar replaced by the conceptual exemplar and the correspondence reduced. The rewriting fails iff that reduction fails. |
| ModelBuilderFacts.PreservesAddsEquality | compiler/src/edu/clemson/resolve/vcgen/ModelBuilderProto.java:356-366 | A preserved or restored family parameter turns a literal ensures into exactly `p = @p`, and conjoins `p = @p` to any other ensures. |
| ModelBuilderFacts.ClearsAddsInit | compiler/src/edu/clemson/resolve/vcgen/ModelBuilderProto.java:367-376 | A cleared family parameter turns a literal ensures into its type's initialization ensures about the parameter, and conjoins that to any other ensures. |
| ModelBuilderFacts.OtherModesKeepEnsures | compiler/src/edu/clemson/resolve/vcgen/ModelBuilderProto.java:356-377 | A family parameter of any other mode leaves the ensures as it is. |
| ModelBuilderFacts.ParamExpIsParameterSymbol | compiler/src/edu/clemson/resolve/vcgen/ModelBuilderProto.java:325-330 | The ensures rewriting's parameter expression is the parameter's own symbol, as the requires rewriting uses it, and `@p` is that symbol marked incoming. |
| ModelBuilderFacts.LevelAssertionsConcatenate | compiler/src/edu/clemson/resolve/vcgen/ModelBuilderProto.java:242-252 | The assertions of a list of related modules are those of its two parts, one after the other. |
| ModelBuilderFacts.FreeVarsConcatenate | compiler/src/edu/clemson/resolve/vcgen/ModelBuilderProto.java:214-219 | The free variables of a scope are those of its two parts, in order. |
| CongruenceClosure.IsProved | compiler/src/edu/clemson/resolve/proving/VerificationConditionCongruenceClosureImpl.java:100-110 | The status is never Unprovable. It is FalseAssumption iff the conjunction evaluates to false, and Proved iff it does not and `true` is a goal. |
| CongruenceClosure.AddFormulaGoal | compiler/src/edu/clemson/resolve/proving/VerificationConditionCongruenceClosureImpl.java:122-129 | Adding a formula appends it to the conjunction's history. The root of the symbol naming it joins the goals. |
| CongruenceClosure.AddConjunct | compiler/src/edu/clemson/resolve/proving/VerificationConditionCongruenceClosureImpl.java:116-130 | An antecedent conjunct is added as an assumption and leaves the goals alone. A consequent conjunct whose top operation is `orB` adds its first two subexpressions as formula goals, in order; with fewer than two it throws IndexOutOfBoundsException, and nothing else does. Any other consequent conjunct is one formula goal. |
| CongruenceClosure.Construct | compiler/src/edu/clemson/resolve/proving/VerificationConditionCongruenceClosureImpl.java:31-90 | Construction throws exactly when loading the consequent throws, with that exception. After it the goals are those the consequent made, and the history ends with the four seed facts. |
| CongruenceClosure.VerificationConditionCongruenceClosure.Empty | compiler/src/edu/clemson/resolve/proving/VerificationConditionCongruenceClosureImpl.java:33-43 | Before loading, the name is the VC number in decimal, the conjunction is empty and there are no goals. |
| CongruenceClosure.VerificationConditionCongruenceClosure.GetStatus | compiler/src/edu/clemson/resolve/proving/VerificationConditionCongruenceClosureImpl.java:100-110 | The status is the one computed from the current history and goals. |
| CongruenceClosure.VerificationConditionCongruenceClosure.AddGoal | compiler/src/edu/clemson/resolve/proving/VerificationConditionCongruenceClosureImpl.java:135-140 | The root symbol of the given symbol joins the goal set, once. |
| CongruenceClosure.VerificationConditionCongruenceClosure.AddFormula | compiler/src/edu/clemson/resolve/proving/VerificationConditionCongruenceClosureImpl.java:122-129 | The formula is added to the conjunction, and the root of the symbol for its index becomes a goal. |
| CongruenceClosure.VerificationConditionCongruenceClosure.AddPExp | compiler/src/edu/clemson/resolve/proving/VerificationConditionCongruenceClosureImpl.java:112-133 | The while loop loads the conjuncts in order, each replaced first, and stops once the conjunction evaluates to false. The new state, or the exception, is the one the loading function gives. |
| CongruenceClosure.VerificationConditionCongruenceClosure.AddExpression | compiler/src/edu/clemson/resolve/proving/VerificationConditionCongruenceClosureImpl.java:59 | A seed is appended to the conjunction as an assumption. |
| CongruenceClosure.NewCongruenceClosure | compiler/src/edu/clemson/resolve/proving/VerificationConditionCongruenceClosureImpl.java:31-90 | Construction loads the consequent as goals, then the antecedent as assumptions, then the four seed facts. It fails exactly when loading fails, with the same exception. The name is the VC number. |
| CongruenceClosureFacts.SeedsAreTrue | compiler/src/edu/clemson/resolve/proving/VerificationConditionCongruenceClosureImpl.java:47-89 | Under the two-valued reading of `=B` and `andB`, each of the four seeds is a true fact. |
| CongruenceClosure.AntecedentAssumesInOrder | compiler/src/edu/clemson/resolve/proving/VerificationConditionCongruenceClosureImpl.java:113-118 | Loading the antecedent never fails and leaves the goals alone. It adds each conjunct, replaced, as an assumption, in order, and stops early only when the conjunction evaluates to false. |
| CongruenceClosureFacts.FormulaExtensionTransitive | compiler/src/edu/clemson/resolve/proving/VerificationConditionCongruenceClosureImpl.java:112-133 | Extending the history by formulas in two stages is one extension, with the goal bounds added. |
| CongruenceClosureFacts.ConsequentConjunctExtends | compiler/src/edu/clemson/resolve/proving/VerificationConditionCongruenceClosureImpl.java:119-130 | A consequent conjunct adds one or two formulas, no assumption, and at most two goals, and keeps every goal there was. |
| CongruenceClosureFacts.ConsequentOnlyFormulas | compiler/src/edu/clemson/resolve/proving/VerificationConditionCongruenceClosureImpl.java:112-133 | Loading the consequent adds only formulas, keeps every goal there was, and adds at most two goals per conjunct. |
| CongruenceClosureFacts.StopsOnceFalse | compiler/src/edu/clemson/resolve/proving/VerificationConditionCongruenceClosureImpl.java:100-113 | Once the conjunction evaluates to false, no conjunct is consumed and the status is FalseAssumption. |
| CongruenceClosureFacts.DisjunctionSplits | compiler/src/edu/clemson/resolve/proving/VerificationConditionCongruenceClosureImpl.java:121-125 | A disjunctive goal adds both disjuncts as formulas and makes the roots of both a goal. |
| CongruenceClosureFacts.ConstructionOrder | compiler/src/edu/clemson/resolve/proving/VerificationConditionCongruenceClosureImpl.java:44-89 | After construction, the history is the consequent's formulas, then at most one assumption per antecedent conjunct, then the seeds. The goals are exactly those the consequent made. |
| ProgTypes.FieldNames | compiler/src/edu/clemson/resolve/semantics/programtype/ProgRecordType.java:20 | A record's field names are its fields' names, in order. |
| ProgTypes.ToMath | compiler/src/edu/clemson/resolve/semantics/programtype/ProgRecordType.java:21-27 | A record's math alter-ego is a cartesian product with one element per field, tagged with the field's name. A generic's is the named math type of its name, and a family's is its own math type. |
| ProgTypes.InstantiateGenerics | compiler/src/edu/clemson/resolve/semantics/programtype/ProgRecordType.java:58-68 | A record instantiates each field type and keeps its field names. A generic whose name is mapped becomes its instantiation and is otherwise itself. |
| ProgTypes.GetFieldType | compiler/src/edu/clemson/resolve/semantics/programtype/ProgRecordType.java:31-38 | Looking up a field succeeds iff the name is a field name, and gives the type stored with that name. Otherwise it throws NoSuchElementException. |
| ProgTypesFacts.InstantiateWithNothing | compiler/src/main/java/org/resolvelite/semantics/programtype/PTGeneric.java:27-35 | Instantiating with no bindings changes no type. |
| ProgTypesFacts.RecordMathElements | compiler/src/edu/clemson/resolve/semantics/programtype/ProgRecordType.java:23-26 | Each element of a record's math alter-ego is the field's name with the math type of the field's program type. |
| ProgTypesFacts.FieldOfInstantiated | compiler/src/edu/clemson/resolve/semantics/programtype/ProgRecordType.java:58-68 | Looking up a field of an instantiated record gives the instantiated type of that field, and succeeds whenever the original lookup does. |
| ProgTypesFacts.FieldTypeOfDistinct | compiler/src/edu/clemson/resolve/semantics/programtype/ProgRecordType.java:31-38 | A record built from a map finds each field's type under that field's own name. |
| ProgTypesFacts.GenericIdentity | compiler/src/main/java/org/resolvelite/semantics/programtype/PTGeneric.java:37-49 | Two generics are equal exactly when they have the same math alter-ego. The same holds for the same text, and for being the same type. |
| ProgTypesFacts.AggregateIffRecordUnderneath | compiler/src/edu/clemson/resolve/semantics/programtype/ProgRecordType.java:40-43 | A type is aggregate exactly when what its chain of representations finally stands for is a record: every record is, and a representation is when its base type is. |
| MathSymbols.NewMathSymbol | compiler/src/main/java/org/resolvelite/semantics/symbol/MathSymbol.java:20-39 | The constructor keeps the name, quantification and type, and keeps a given type value. With none given, the symbol has a type value iff its type is known to hold only math types. |
| MathSymbols.NewUnquantifiedMathSymbol | compiler/src/main/java/org/resolvelite/semantics/symbol/MathSymbol.java:41-45 | The shorter constructor makes an unquantified symbol. |
| MathSymbols.GetTypeValue | compiler/src/main/java/org/resolvelite/semantics/symbol/MathSymbol.java:55-58 | Reading the type value throws SymbolNotOfKindTypeException iff the symbol has none, and gives that value otherwise. |
| MathSymbols.FactorTypes | compiler/src/main/java/org/resolvelite/semantics/symbol/MathSymbol.java:114-116 | There is one parameter type per factor of a product. |
| MathSymbols.ExpandDomain | compiler/src/main/java/org/resolvelite/semantics/symbol/MathSymbol.java:109-124 | The loop lists a product's factor types one at a time. A `Void` domain gives nothing; any other domain gives itself. |
| MathSymbols.ArgumentTypes | compiler/src/main/java/org/resolvelite/semantics/symbol/MathSymbol.java:72-74 | There is one actual type per argument. |
| MathSymbols.Deschematize | compiler/src/main/java/org/resolvelite/semantics/symbol/MathSymbol.java:64-103 | Deschematizing fails only with NoSolutionException. |
| MathSymbolFacts.TypeValueOfNewSymbol | compiler/src/main/java/org/resolvelite/semantics/symbol/MathSymbol.java:27-38 | A new symbol defines a type iff it was given a type value or its type holds only math types. In the second case the type it defines is the proper type named after the symbol, and that type's own type is the symbol's type. |
| MathSymbolFacts.DeschematizeArity | compiler/src/main/java/org/resolvelite/semantics/symbol/MathSymbol.java:69-78 | A function symbol deschematizes iff the argument count matches its domain: none for `Void`, one per factor for a product, one for anything else. |
| MathSymbolFacts.DeschematizeNeedsFunction | compiler/src/main/java/org/resolvelite/semantics/symbol/MathSymbol.java:67 | A symbol whose type is not a function type never deschematizes. |
| MathSymbolFacts.DeschematizedSymbol | compiler/src/main/java/org/resolvelite/semantics/symbol/MathSymbol.java:94-102 | A deschematized symbol keeps its name and quantification and takes the specialized type. It defines a type only when that type holds only math types. |
| MathSymbolFacts.ExpandProduct | compiler/src/main/java/org/resolvelite/semantics/symbol/MathSymbol.java:109-117 | The parameter list of a product domain has each factor's type at that factor's position. |
| ProgParameters.ValidImplementationModes | compiler/src/org/rsrg/semantics/symbol/ProgParameterSymbol.java:18-54 | The table gives each mode its valid implementation modes, with the mode itself first. |
| ProgParameters.Contains | compiler/src/org/rsrg/semantics/symbol/ProgParameterSymbol.java:59-68 | The linear search that stops at the first match answers true iff the element occurs. |
| ProgParameters.CanBeImplementedWith | compiler/src/org/rsrg/semantics/symbol/ProgParameterSymbol.java:55-57 | A mode can be implemented with another iff that mode is in its table row. |
| ProgParameters.LowerModeName | compiler/src/org/rsrg/semantics/symbol/ProgParameterSymbol.java:151 | Each mode's lower-case name is its enum name in lower case. |
| ProgParameters.GetModeMapping | compiler/src/org/rsrg/semantics/symbol/ProgParameterSymbol.java:73-80 | The loop puts every mode under its lower-case name, in declaration order. |
| ProgParameters.ParameterToString | compiler/src/org/rsrg/semantics/symbol/ProgParameterSymbol.java:150-152 | The text is `<`, the mode's lower-case name, `>`, then the parameter's name, with nothing else; ToStringInjective reads mode and name back. |
| ProgParameters.ToMathSymbol | compiler/src/org/rsrg/semantics/symbol/ProgParameterSymbol.java:96-98 | A parameter's math alter-ego is an unquantified math symbol with its name and its declared type's math type. |
| ProgParameters.AsPSymbol | compiler/src/org/rsrg/semantics/symbol/ProgParameterSymbol.java:131-134 | A parameter's expression is a nullary symbol with its name and its declared type's math type. |
| ProgParameters.BuildPSymbol | compiler/src/org/rsrg/semantics/symbol/ProgParameterSymbol.java:131-134 | Building that symbol through the symbol builder gives exactly that expression. |
| ProgParameters.InstantiateParameter | compiler/src/org/rsrg/semantics/symbol/ProgParameterSymbol.java:140-148 | Instantiation keeps the parameter's name and mode. |
| ProgParameterFacts.ImplementsReflexive | compiler/src/org/rsrg/semantics/symbol/ProgParameterSymbol.java:18-54 | Every mode can be implemented with itself. |
| ProgParameterFacts.ImplementsTransitive | compiler/src/org/rsrg/semantics/symbol/ProgParameterSymbol.java:18-54 | The implementation relation is transitive. |
| ProgParameterFacts.ImplementsAntisymmetric | compiler/src/org/rsrg/semantics/symbol/ProgParameterSymbol.java:18-54 | Two distinct modes never implement each other both ways. |
| ProgParameterFacts.OnlyThemselves | compiler/src/org/rsrg/semantics/symbol/ProgParameterSymbol.java:35-54 | Clears, preserves and evaluates admit only themselves. |
| ProgParameterFacts.ClearsImplements | compiler/src/org/rsrg/semantics/symbol/ProgParameterSymbol.java:18-38 | Clears is a valid implementation exactly of alters, updates, replaces and clears. |
| ProgParameterFacts.LowerNamesDistinct | compiler/src/org/rsrg/semantics/symbol/ProgParameterSymbol.java:77 | Lower-case names tell modes apart and never contain `>`. |
| ProgParameterFacts.ModeMapValue | compiler/src/org/rsrg/semantics/symbol/ProgParameterSymbol.java:73-80 | The mode mapping, entry by entry, is each lower-case name mapped to its mode. |
| ProgParameterFacts.ModeMappingInverse | compiler/src/org/rsrg/semantics/symbol/ProgParameterSymbol.java:73-80 | The mapping finds every mode under its lower-case name, and every name it holds maps back to a mode with that name. |
| ProgParameterFacts.BracketedWord | compiler/src/org/rsrg/semantics/symbol/ProgParameterSymbol.java:150-152 | A word free of `>` can be read back from the text `<word>rest`, and so can the rest. |
| ProgParameterFacts.ToStringInjective | compiler/src/org/rsrg/semantics/symbol/ProgParameterSymbol.java:150-152 | Two parameters with the same text have the same mode and the same name. |
| ProgParameterFacts.InstantiateParameterWithNothing | compiler/src/org/rsrg/semantics/symbol/ProgParameterSymbol.java:140-148 | Instantiating with no bindings gives back the same parameter. |
| ProgParameterFacts.AlterEgosAgree | compiler/src/org/rsrg/semantics/symbol/ProgParameterSymbol.java:96-98 | The symbol a parameter stands for in assertions has the name and type of its math alter-ego. |
| ModuleIdentifiers.NewModuleIdentifier | compiler/src/edu/clemson/resolve/semantics/ModuleIdentifier.java:50-54 | An identifier made by the public constructor is never global. |
| ModuleIdentifiers.IdentifierHash | compiler/src/edu/clemson/resolve/semantics/ModuleIdentifier.java:79-81 | The hash is the 32-bit string hash of the name's text. |
| ModuleIdentifierFacts.EqualsIsEquivalence | compiler/src/edu/clemson/resolve/semantics/ModuleIdentifier.java:71-77 | `equals` is reflexive, symmetric and transitive. |
| ModuleIdentifiers.IdentifierEquals | compiler/src/edu/clemson/resolve/semantics/ModuleIdentifier.java:71-86 | `equals` holds exactly when the names have the same text; equal identifiers have equal hash codes, and `equals` holds exactly when `compareTo` gives zero. |
| ModuleIdentifiers.IdentifierCompare | compiler/src/edu/clemson/resolve/semantics/ModuleIdentifier.java:84-86 | `compareTo` is zero exactly when the names have the same text, and swapping the operands negates it. |
| ModuleIdentifierFacts.UserModuleNamedGlobal | compiler/src/edu/clemson/resolve/semantics/ModuleIdentifier.java:40-43 | The global flag plays no part in `equals`: a user module named `GLOBAL` equals the global identifier, though only the latter is global. |
| ModuleIdentifierFacts.FromPathIgnored | compiler/src/edu/clemson/resolve/semantics/ModuleIdentifier.java:45-54 | Identifiers with one name and different `from` paths are equal and hash alike. |
| ModuleParameterizations.FormalGenerics | compiler/src/org/rsrg/semantics/ModuleParameterization.java:63-76 | The formal generics are exactly the wrapped program parameters of mode `TYPE`; every other parameter is skipped. |
| ModuleParameterizations.GenericInstantiations | compiler/src/org/rsrg/semantics/ModuleParameterization.java:77-85 | The instantiation fails only with the RuntimeException `generic list sizes do not match`. |
| ModuleParameterizations.GetGenericInstantiations | compiler/src/org/rsrg/semantics/ModuleParameterization.java:58-93 | The two loops give the positional instantiation map: the first collects the formals, the second pairs each formal's name with the actual at its position. The RuntimeException is thrown when the two lists differ in length. |
| ModuleParameterizations.GetModuleScope | compiler/src/org/rsrg/semantics/ModuleParameterization.java:33-34 | A module's scope is found iff the table holds the module's name. Otherwise NoSuchModuleException is thrown. |
| ModuleParameterizations.Instantiations | compiler/src/org/rsrg/semantics/ModuleParameterization.java:86-91 | The instantiation map binds exactly the formals' names, and the last formal is bound to the last actual. |
| ModuleParameterizationFacts.InstantiationBindsPositionally | compiler/src/org/rsrg/semantics/ModuleParameterization.java:86-91 | When the names are distinct, each formal generic is bound to the actual at its own position. |
| ModuleParameterizationFacts.InstantiationsNeedEqualLengths | compiler/src/org/rsrg/semantics/ModuleParameterization.java:77-85 | The instantiation succeeds iff there are as many actual generics as formal ones. |
| ModuleParameterizationFacts.NoTypeParameters | compiler/src/org/rsrg/semantics/ModuleParameterization.java:67-76 | Parameters none of which is a program parameter of mode `TYPE` give no formal generics. |
| ModuleParameterizationFacts.NoFormalGenerics | compiler/src/org/rsrg/semantics/ModuleParameterization.java:77-92 | A module without formal generics instantiates to the empty map, and does so only when there are no actuals. |
| ModuleParameterizationFacts.ScopeOutcomes | compiler/src/org/rsrg/semantics/ModuleParameterization.java:31-44 | A missing module throws NoSuchModuleException. Not instantiated, the scope is the module's own. Instantiated, it also fails on mismatched generic lists, and otherwise carries the module's scope with the bindings and the instantiating facility. |
| ScopeBuilders.Put | compiler/src/edu/clemson/resolve/semantics/ScopeBuilder.java:25-34 | Putting a binding into the insertion-ordered table sets the name's entry and keeps the table well formed: each name once in the order, the order listing exactly the bound names. |
| ScopeBuilders.ScopeBuilder.constructor | compiler/src/edu/clemson/resolve/semantics/ScopeBuilder.java:30-36 | A new scope has the given defining tree and module, no bindings and no children. |
| ScopeBuilders.ScopeBuilder.AddChild | compiler/src/edu/clemson/resolve/semantics/ScopeBuilder.java:43-45 | The child is appended to the list of children. |
| ScopeBuilders.ScopeBuilder.GetChildren | compiler/src/edu/clemson/resolve/semantics/ScopeBuilder.java:47-50 | The children handed out are the builder's children, as a copy. |
| ScopeBuilders.ScopeBuilder.EntryFor | compiler/src/edu/clemson/resolve/semantics/ScopeBuilder.java:58-59 | The entry made for a binding has the name, the quantification, the classification and the scope's module. |
| ScopeBuilders.ScopeBuilder.AddBinding | compiler/src/edu/clemson/resolve/semantics/ScopeBuilder.java:52-62 | The name is bound to a new entry, replacing any earlier one, and the table stays well formed. No duplicate is ever reported. |
| ScopeBuilders.ScopeBuilder.AddQuantifiedBinding | compiler/src/edu/clemson/resolve/semantics/ScopeBuilder.java:64-70 | The overload without a type value binds the same entry. |
| ScopeBuilders.ScopeBuilder.AddValueBinding | compiler/src/edu/clemson/resolve/semantics/ScopeBuilder.java:72-79 | The overload without a quantification binds the entry with quantification NONE. |
| ScopeBuilders.ScopeBuilder.AddPlainBinding | compiler/src/edu/clemson/resolve/semantics/ScopeBuilder.java:81-86 | The overload with neither binds the entry with quantification NONE, through the quantified overload. |
| ScopeBuilderFacts.PutLookup | compiler/src/edu/clemson/resolve/semantics/ScopeBuilder.java:60 | After a put, the name finds the new entry and every other name finds what it found before. |
| ScopeBuilderFacts.PutOrder | compiler/src/edu/clemson/resolve/semantics/ScopeBuilder.java:25-34 | A name put again keeps its place in the order, and a new name goes after all others. The order always lists as many names as there are entries. |
| ScopeBuilderFacts.OrderCountsEntries | compiler/src/edu/clemson/resolve/semantics/ScopeBuilder.java:25-34 | In a well-formed table, the order lists as many names as there are entries. |
| ScopeBuilderFacts.PutIdempotent | compiler/src/edu/clemson/resolve/semantics/ScopeBuilder.java:60 | Binding the same name to the same entry twice is the same as binding it once. |
| ScopeBuilderFacts.PutCommutesOnEntries | compiler/src/edu/clemson/resolve/semantics/ScopeBuilder.java:60 | Bindings of two different names commute, as far as the entries go. |
| UnqualifiedPaths.SearchState.constructor | compiler/src/main/java/org/resolvelite/semantics/UnqualifiedPath.java:54-55 | A search starts with an empty results list and no scope searched. |
| UnqualifiedPaths.UnqualifiedPath.constructor | compiler/src/main/java/org/resolvelite/semantics/UnqualifiedPath.java:43-48 | The path keeps its import strategy, facility strategy and local priority. |
| UnqualifiedPaths.UnqualifiedPath.SearchFromContextM | compiler/src/main/java/org/resolvelite/semantics/UnqualifiedPath.java:50-62 | Searching from a context gives the results of one module search from the source. That search starts with no results, nothing searched, depth 0 and the path's own import strategy. Any exception is passed on. |
| UnqualifiedPaths.UnqualifiedPath.SearchModuleM | compiler/src/main/java/org/resolvelite/semantics/UnqualifiedPath.java:64-121 | The shared results and searched scopes end as the search on values leaves them, and the answer is its finished flag. It searches locally first, refuses facilities, then the imports in order with the cascaded strategy one level deeper, stopping at the first import that is finished. An error is passed on. |
| UnqualifiedPaths.SearchModule | compiler/src/main/java/org/resolvelite/semantics/UnqualifiedPath.java:64-121 | An error of the local search (such as a DuplicateSymbolException) is passed on unchanged. When the local search only ever adds to the results and the searched scopes, the whole search only adds to them too: the results it was given stay a prefix, and no searched scope is forgotten. When the local search also records the scope it looked in, a successful search has the source scope among the searched scopes. |
| UnqualifiedPaths.SearchImports | compiler/src/main/java/org/resolvelite/semantics/UnqualifiedPath.java:97-118 | A missing import is the wrapped NoSuchSymbolException. With a local search that only adds, the loop over the imports only adds to the results and searched scopes it starts from; when the local search also records its scope, a successful loop has searched the first import's scope. |
| UnqualifiedPathFacts.LocalFirst | compiler/src/main/java/org/resolvelite/semantics/UnqualifiedPath.java:72-76 | When the imports are not searched, the outcome is the local search of the source alone. |
| UnqualifiedPathFacts.FacilitiesRefused | compiler/src/main/java/org/resolvelite/semantics/UnqualifiedPath.java:78-90 | An unfinished local search under a facility strategy other than ignoring facilities throws UnsupportedOperationException with the compiler's message. |
| UnqualifiedPathFacts.ImportsWhenAsked | compiler/src/main/java/org/resolvelite/semantics/UnqualifiedPath.java:92-113 | The imports are searched exactly when the local results are empty or local priority is off, the source is syntactic and the strategy is not IMPORT_NONE. The module's imports are then searched from the local outcome, with the cascaded strategy one level deeper. |
| UnqualifiedPathFacts.ImportNoneIsLocal | compiler/src/main/java/org/resolvelite/semantics/UnqualifiedPath.java:95 | With IMPORT_NONE the search never leaves the source scope. |
| UnqualifiedPathFacts.LocalPriorityStops | compiler/src/main/java/org/resolvelite/semantics/UnqualifiedPath.java:93 | With local priority, a local match means the imports are never searched. |
| UnqualifiedPathFacts.FirstFinishedImportStops | compiler/src/main/java/org/resolvelite/semantics/UnqualifiedPath.java:104-113 | The loop over the imports stops at the first import whose search is finished, and later imports are not searched. |
| UnqualifiedPathFacts.ImportsAppend | compiler/src/main/java/org/resolvelite/semantics/UnqualifiedPath.java:104-113 | For any list of imports, one more import at the end is searched exactly when the earlier ones left the search unfinished (or there were none), and it starts from where they left off; an error of the earlier ones is kept. |
| UnqualifiedPathFacts.FromContextStartsEmpty | compiler/src/main/java/org/resolvelite/semantics/UnqualifiedPath.java:54-61 | A search from the context succeeds iff the module search from the source with nothing found and nothing searched succeeds. Its results are that search's results. |
| ImmutableLists.Size | compiler/src/edu/clemson/resolve/proving/immutableadts/ImmutableListConcatenation.java:58-60 | A list's size is the number of elements its iterator yields; for a concatenation, the sum of its parts' sizes. |
| ImmutableLists.Get | compiler/src/edu/clemson/resolve/proving/immutableadts/ImmutableListConcatenation.java:29-38 | `get(i)` succeeds exactly when 0 ≤ i < size, and then gives the i-th element the iterator yields; otherwise it throws IndexOutOfBoundsException. |
| ImmutableLists.Head | compiler/src/edu/clemson/resolve/proving/immutableadts/ImmutableListConcatenation.java:40-51 | `head(n)` succeeds exactly when 0 ≤ n ≤ size, and the list it gives yields the first n elements; otherwise it throws IndexOutOfBoundsException. |
| ImmutableLists.Tail | compiler/src/edu/clemson/resolve/proving/immutableadts/ImmutableListConcatenation.java:66-78 | `tail(s)` succeeds exactly when 0 ≤ s ≤ size, and the list it gives yields the elements from position s on; otherwise it throws IndexOutOfBoundsException. |
| ImmutableLists.SubList | compiler/src/edu/clemson/resolve/proving/immutableadts/ImmutableListConcatenation.java:62-64 | `subList(s, n)` succeeds exactly when the n elements from s lie within the list, and yields exactly those elements; otherwise it throws IndexOutOfBoundsException. |
| ImmutableListFacts.ConcatenationElements | compiler/src/edu/clemson/resolve/proving/immutableadts/ImmutableListConcatenation.java:17-38 | A concatenation's size is the sum of its parts', an index before the first part's end reads the first part, and any later index reads the second part shifted by the first's size. |
| CeramicArrays.ArrayRep.constructor | src/concepts/ceramic_array_template/Standard_Array_Realiz.java:38-43 | The representation is a new array of the given length whose every cell is a new, distinct entry holding the entry type's initial value. |
| CeramicArrays.CeramicArray.constructor | src/concepts/ceramic_array_template/Standard_Array_Realiz.java:16-18 | An array value holds the representation it is built with. |
| CeramicArrays.CeramicArray.SetRep | src/concepts/ceramic_array_template/Standard_Array_Realiz.java:24-26 | `setRep` replaces the representation with the given one and changes nothing else. |
| CeramicArrays.StandardArrayRealiz.constructor | src/concepts/ceramic_array_template/Standard_Array_Realiz.java:58-62 | The realization keeps the entry type and the values of the lower and upper bound integers. |
| CeramicArrays.StandardArrayRealiz.NewArrayRep | src/concepts/ceramic_array_template/Standard_Array_Realiz.java:38-43 | Allocating the representation fails with a negative-array-size error exactly when upper − lower + 1, in `int` arithmetic, is negative; otherwise it gives an array of that length of distinct new entries, each with the initial value. |
| CeramicArrays.StandardArrayRealiz.InitCeramicArray | src/concepts/ceramic_array_template/Standard_Array_Realiz.java:54-56 | `initCeramic_Array` (and `initialValue`, lines 32-34) gives a new array value with a new representation, failing exactly when the allocation does. |
| CeramicArrays.StandardArrayRealiz.SwapEntry | src/concepts/ceramic_array_template/Standard_Array_Realiz.java:64-68 | `Swap_Entry(A, e, i)` throws an out-of-bounds error, changing nothing, exactly when i − lower, in `int` arithmetic, is not an index of the representation; otherwise e and that cell trade representations by the swap rule and no other cell changes. |
| CeramicArrays.StandardArrayRealiz.GetUpperBound | src/concepts/ceramic_array_template/Standard_Array_Realiz.java:83-85 | `getUpper_Bound` gives a new integer holding the upper bound. |
| CeramicArrays.StandardArrayRealiz.GetLowerBound | src/concepts/ceramic_array_template/Standard_Array_Realiz.java:87-89 | `getLower_Bound` gives a new integer holding the lower bound. |
| CeramicArrayFacts.LengthCountsIndices | src/concepts/ceramic_array_template/Standard_Array_Realiz.java:39 | Without overflow the array has one cell per index from the lower to the upper bound, and its allocation fails exactly when the upper bound is below the lower bound minus one. |
| CeramicArrayFacts.IndexInBounds | src/concepts/ceramic_array_template/Standard_Array_Realiz.java:65-67 | Without overflow an index reaches a cell exactly when it lies between the two bounds. |
| CeramicArrayFacts.FullRangeIsEmpty | src/concepts/ceramic_array_template/Standard_Array_Realiz.java:39 | With bounds spanning all of `int` the length wraps around to 0, so no index reaches a cell. |
| JavaLang.Wrap | compiler/src/edu/clemson/resolve/proving/absyn/PSymbol.java:150-181 | Java `int` arithmetic: the result lies in the 32-bit range, agrees with the exact value modulo 2³², and is the exact value when that fits. |
| JavaLang.StringHash | compiler/src/edu/clemson/resolve/semantics/ModuleIdentifier.java:79-81 | `String.hashCode` is a 32-bit `int` and is 0 for the empty string. |
| JavaLang.CompareTo | compiler/src/edu/clemson/resolve/semantics/ModuleIdentifier.java:84-86 | `String.compareTo` of a string with itself is 0. |
| JavaLang.CompareToZeroIffEqual | compiler/src/edu/clemson/resolve/semantics/ModuleIdentifier.java:84-86 | Two module names compare as 0 exactly when they are equal, in both directions. |
| JavaLang.CompareToAntisymmetric | compiler/src/edu/clemson/resolve/semantics/ModuleIdentifier.java:84-86 | Comparing b with a gives the negation of comparing a with b. |
| JavaLang.ToLower | compiler/src/org/rsrg/semantics/symbol/ProgParameterSymbol.java:77 | Lower-casing a mode's name keeps its length. |
| JavaLang.JoinDotPieces | compiler/src/edu/clemson/resolve/proving/absyn/PSymbol.java:328-342 | Joining with dots the pieces a name has between its dots, empty pieces included, gives the name back. |
| JavaLang.SplitOnDotJoin | compiler/src/edu/clemson/resolve/proving/absyn/PSymbol.java:328-342 | A name not ending in a dot is given back by `split("\\.")` followed by `Utils.join(…, ".")`, so a substitution that replaces no component leaves the name as it was. |
| JavaLang.SplitOnDotDropsTrailingDot | compiler/src/edu/clemson/resolve/proving/absyn/PSymbol.java:328-342 | For any dot-free pieces whose last piece is empty, the joined name ends in a dot; `split` gives the pieces back without the trailing empty ones, so joining again gives a name that does not end in a dot. |
| JavaLang.DotPiecesOfJoin | compiler/src/edu/clemson/resolve/proving/absyn/PSymbol.java:328-342 | Cutting a dot-join of dot-free pieces at its dots gives the pieces back. |
| JavaLang.SplitOnDotOfJoin | compiler/src/edu/clemson/resolve/proving/absyn/PSymbol.java:328-342 | `split("\\.")` undoes a dot-join of dot-free pieces whose last piece is not empty. |
| JavaLang.NatToString | compiler/src/edu/clemson/resolve/proving/VerificationConditionCongruenceClosureImpl.java:34 | The decimal rendering of a natural number is a non-empty string of digits. |
| JavaLang.IntToString | compiler/src/edu/clemson/resolve/proving/VerificationConditionCongruenceClosureImpl.java:34 | `Integer.toString` is non-empty and begins with a minus sign exactly when the number is negative. |
| JavaLang.NatToStringValue | compiler/src/edu/clemson/resolve/proving/VerificationConditionCongruenceClosureImpl.java:34 | Reading the decimal digits back gives the number. |
| JavaLang.NatToStringInjective | compiler/src/edu/clemson/resolve/proving/VerificationConditionCongruenceClosureImpl.java:34 | Different natural numbers have different renderings. |
| JavaLang.IntToStringInjective | compiler/src/edu/clemson/resolve/proving/VerificationConditionCongruenceClosureImpl.java:34 | Different VC numbers give the congruence-closure VCs different names. |
| MathTypes.Flipped | compiler/src/edu/clemson/resolve/proving/absyn/PQuantified.java:79-82 | Flipping a quantification trades universal and existential, and leaves no quantification as it is: the result is none exactly when the input is none, and otherwise differs from it. |

## Left out

- Symbol-table population, type annotation, code generation and packaging are outside the modelled core.
- `SwapApplicationStrategy` has no live behaviour (its body returns the block unchanged), so it is not modelled.
- `PSet` and the older `org.resolvelite` `ScopeBuilder` are not part of this model.
- Queries.ToString: the contract states when printing fails and the exact text of a nullary symbol and a lambda, not the full layout of composite terms. The VC text that the congruence driver keeps for display and `ModuleIdentifier.toString` are left out; they only build display strings.
- `PLambda` is a leaf with an uninterpreted body and parameters. Substitution does not look inside it, and a correspondence value that is not a lambda fails the cast as an error result.
- Java `null` is not modelled as a value; dereferencing the result of a missing lookup is a `NullPointer` error. Null arguments, which `PApply.calculateHashes` skips, and a null-valued record field, which `getFieldType` would return, do not occur in the model. A missing right print is the builder's `Option`, and the symbol then carries its left print on both sides, which hashes as the source does.
- The reference-identity shortcut of `HashMap` lookup is not modelled: keys are found by hash and `equals` only. This differs from the source only for a `PQuantified` key, which `equals` never matches.
- Substitution.Substitute: the function is total. Two exceptions of `PSegments.substitute` are not modelled. One is the cast failure of a segment that does not become a `PSymbol`. The other is the `IndexOutOfBoundsException` of rebuilding a segments node whose new segment list is empty: the rebuild reads the last segment's types (PSegments.java:17). That list is empty when the node was built empty through the two-argument constructor, or when every segment maps to an empty segments node. The model then keeps an empty segments node with the old math type.
- Queries.QuantifiedVariables: the result is a structural set, where the source fills a `HashSet<PSymbol>`. The `HashSet` merges two symbols that `PSymbol.equals` calls equal but that differ in a field `equals` does not read (math type, quantification, style). The model keeps both, so the set's size, and which of such symbols is kept, can differ.
- Queries.IncomingVariables: the same structural set in place of the `HashSet<PSymbol>`, with the same difference.
- AssertiveBlocks.VCAssertiveBlockBuilder.AddStats: `VCAssertiveBlock` is not part of this model. Its `stats(list)` is taken to add the statements after those the block still holds. On the fresh blocks of the model builder, adding and replacing agree. The If, Else and IfElse rule contracts (ConditionalRules.ApplyIf, ConditionalRules.ApplyElse, IfElseRule.ApplyIfElse) depend on this reading: they keep the statements that precede the `if`.
- Math classifications are a small datatype, `MathTypes.MathType`: the type graph itself and the `MathClssftn` generation of classes are not part of this model, and `RType` casts are not modelled.
- The congruence-closure registry and conjunction (union-find internals) are not part of this model. Their observable answers, whether the conjunction evaluates to false and which goal roots are recorded, are a function of the formulas added so far.
- `Utils.collect` of proof statistics and the error manager's reports are not modelled; the model records the blocks and results only.
- ModelBuilders.ModelBuilder.ExitStmt: when a statement's child produced no statement, the model drops the entry where the source stores `null`.
- CongruenceClosure.VerificationConditionCongruenceClosure.AddPExp: an `orB` consequent with exactly one subexpression fails before that subexpression is added, while the source adds it and then throws. The partial state cannot be observed, because the exception escapes the constructor.
- The congruence driver works on its own term type, `CongruenceClosure.Exp` (top-level operation and subexpressions), rather than on the prover terms of the other files; `Utilities.replacePExp` is a parameter on it.
- MathSymbols.Deschematize: the loop over calling-context generics and `MTFunction.deschematize` are one parameter, the specialization; only the guards and the construction of the result are modelled. The specialization is a total function, so it is assumed to succeed: the "if" half of MathSymbolFacts.DeschematizeArity rests on that assumption.
- The `TYPE` parameter mode of module parameters is the `isTypeMode` flag.
- ModuleParameterizations.GetModuleScope: the instantiated scope's `actualArguments`, which the source passes as `null` and never reads, are not kept.
- UnqualifiedPaths.UnqualifiedPath.SearchModuleM: a fuel bound limits the depth of the import recursion, and running out is an extra `OutOfFuel` error. Generic instantiations and the instantiating facility are always empty there. `addMatches` is a parameter; its errors, such as a duplicate symbol, are passed on unchanged.
- Substitution.RenameComponents: the entries are applied in insertion order, which is the iteration order of a `LinkedHashMap`; a `HashMap` iterates in bucket order, which the model does not follow. SubstitutionFacts.RenameSwap shows that swapping two neighbouring entries does not change the result when their names are unrelated.
- ProgTypes.InstantiateGenerics: a record's fields are a sequence in declaration order. The source rebuilds them into a `HashMap` (ProgRecordType.java:61-67), whose order the model does not follow.
- ProgTypesFacts.InstantiateWithNothing: its equality compares the fields in declaration order; the source compares the two field maps, which have no order.
- Terms.StructureHash: the contract states only that the hash is a Java `int`; the closed forms are HashFacts.SymbolHashes, ApplyHashes and QuantifiedHashes.
- Terms.ValueHash: the contract states only that the hash is a Java `int`; the closed forms are HashFacts.SymbolHashes, ApplyHashes and QuantifiedHashes.
- `JavaLang.ToLower` folds ASCII letters only; the mode names it is applied to are ASCII.
- JavaLang.StringHash: it works over Dafny `char`s, which are Unicode scalar values, while Java's `String.hashCode` works over UTF-16 code units; the two differ for strings with characters above U+FFFF.
- JavaLang.CompareTo: it works over Unicode scalar values where Java's `compareTo` compares UTF-16 code units, so the two can differ for characters above U+FFFF.
- CeramicArrays: the entry type's `initialValue` is a fresh object holding the type's initial representation, and `Integer` boxing is the `StdInteger` class. `RESOLVEBase.swap` is a rule giving the two new representations, and `getRep`'s cast back to `Array_Rep` is not modelled.
- Concurrency is absent from the modelled code, and the file output of the model builder is a sequence of blocks.
