# A verified model of pyccel's array expansion and code-generation helpers

pyccel translates annotated Python into Fortran or C. This project models, in Dafny, the
part of the compiler that rewrites elementwise array statements into explicit loops, and the
smaller self-contained pieces around it. Each piece comes with contracts and lemmas about what it
computes.

- **Array expansion** (`pyccel/ast/utilities.py`): `compatible_operation` and `insert_index`
  (module `ArrayOperands`); `collect_loops`, which groups statements into a tree of loop levels
  while growing a pool of index variables (module `LoopCollection`, a method proved against a left
  fold); `insert_fors` and `expand_to_loops` (module `LoopInsertion`), with a worked `c = a + b`
  example (module `LoopExpansionExample`). The argument splitting, the `types` decorator builder
  and the built-in import and function helpers are in module `AstUtilities`.
- **C-API wrapper planning**: the wrapper printer's name allocation over mutable name sets, its
  converter cache, the bit-packed interface dispatch key and the type-check function
  (`CWrapperPrinter`, a class); the argument-parsing and value-building format strings, whose units
  follow the "Parsing arguments and building values" section of the Python/C API
  (`CWrapperNodes`).
- **Runtime array acceptance** (`pyccel/stdlib/cwrapper/cwrapper.c`): the dtype, rank and order
  checks, the stride and shape buffers, the conversion to an `t_ndarray`, and the boolean
  conversions (`CWrapperRuntime`, with arrays and classes).
- **NumPy nodes** (`pyccel/ast/numpyext.py`): the attribute rules (dtype, rank, shape, order,
  precision) and the `fprint` structure of the array-building and reducing functions
  (`NumpyNodes`).
- **Small AST nodes**: `Slice`, `Symbol`, `symbols` and `PyccelArraySize` (`Internals`); the
  macros (`Macros`); `Product` (`ItertoolsExt`).
- **Front-end rewrites** (`pyccel/parser/syntactic.py`): operator re-association
  (`change_priority`), the boolean and comparison visitors, argument splitting, the header text
  built from a `types` decorator, and the split of a module body into module and program parts
  (`Syntactic`).
- **OpenMP**: clause checking against each construct's allow-list, clause and combined-construct
  text (`OpenmpSyntax`), and the construct nodes' names and flags (`OmpNodes`). The directives and
  clauses follow chapter 2 ("Directives") of the OpenMP API 5.1 specification.
- **Functional sub-language typing** (`pyccel/functional/parser.py`): the type-prefix table, the
  rank of nested list types, the label and key scheme of the type dictionaries, `sanitize` and the
  bounded `to_type` loop (`FunctionalTyping`, with `SemanticParser` as a class).
- **MPI** (`pyccel/parallel/mpi.py`): element counts as the product of a shape and datatype names
  after section 3.2.2 ("Message Data") of MPI-3.1 (`Mpi`).
- **Just-in-time source extraction** (`pyccel/epyccel.py`): the removal of a function's
  indentation and the derivation of module names (`Epyccel`).

Python exceptions become the `Failure` case of a `Result` (module `Wrappers`), which carries the
exception class and, where the source formats one, the message. Reports made through pyccel's
`Errors` object are an appended list of (message, severity) pairs, and a fatal report is a
failure. Where the source mutates state (the printer's name sets and caches, `collect_loops`'s
index pool and tree, the C buffers, the semantic parser's dictionaries, the accumulating loops),
the model is a method with a loop or a class with fields, proved against a function that states what it computes.

The expansion is sometimes described as introducing loops from the innermost axis outward. The
code (`pyccel/ast/utilities.py:353`) indexes from the leading axis inward, `range(-rank, 0)`, and
stops at the first depth where the statement becomes compatible. The model follows the code.

## Model

| member | source | states |
|---|---|---|
| ArrayOperands.ScalarCompatibility | pyccel/ast/utilities.py:203-211 | without vector support, operands other than a single one are compatible exactly when every one of them is scalar |
| ArrayOperands.AllScalarNotVectorCompatible | pyccel/ast/utilities.py:205-210 | with vector support, two or more operands that are all scalar are not compatible, because they give no shape signature |
| ArrayOperands.VectorCompatibility | pyccel/ast/utilities.py:205-210 | with vector support, operands sharing one shape signature, with one declared memory order, are compatible |
| ArrayOperands.MismatchNotVectorCompatible | pyccel/ast/utilities.py:205-210 | two non-scalar operands with different signatures (F-order shapes reversed, symbolic sizes as -1) make the operation incompatible |
| ArrayOperands.InsertIndex | pyccel/ast/utilities.py:244-275 | a variable gets the index at axis rank+pos and full slices elsewhere, or is returned unchanged when scalar or when the position is past its rank; an indexed element keeps every other entry and changes only a slice at pos; the base never changes |
| ArrayOperands.IndexedInsertion | pyccel/ast/utilities.py:256-272 | the new entry of an indexed element is index*step+start, each term only when present; a size-1 axis gets literal 0 and a start there fails the assertion |
| ArrayOperands.IndexedTooShort | pyccel/ast/utilities.py:255-256 | an indexed element with fewer entries than -pos fails with IndexError, as Python's list indexing does |
| ArrayOperands.InsertIndexDropsAxis | pyccel/ast/utilities.py:244-250 | indexing a variable at an axis within its rank removes exactly one axis from the shape |
| ArrayOperands.BoundedSliceLengths | pyccel/ast/utilities.py:372 | the trip count a bounded slice gives its axis is that slice's length of that axis, and two bounded slices of one axis give equal trip counts exactly when they are the same slice, so the loop-reuse test does not merge slices of different extents |
| ArrayOperands.InsertAllPositionsScalar | pyccel/ast/utilities.py:353-362 | indexing at every position from -rank inward always succeeds and leaves a scalar, so the axis loop reaches a compatible state |
| ArrayOperands.PositionsPrefix | pyccel/ast/utilities.py:353-360 | indexing always succeeds; after the first t positions a variable whose own axes are not reached yet is left whole, and once they are, the axes reached carry the loop indices (or 0 on size-1 axes) in order and the others are still full slices |
| LoopCollection.SubstituteKeepsSkeleton | pyccel/ast/utilities.py:364 | substituting indexed versions of a statement's own variables changes no underlying variable: the statement's skeleton is unchanged |
| LoopCollection.PoolUpTo | pyccel/ast/utilities.py:355-357 | the index pool after indexing to a depth has the larger of its old length and that depth, and holds at each position the existing name or the appended `i_k` |
| LoopCollection.InsertAll | pyccel/ast/utilities.py:359 | inserting an index into every operand keeps each operand's underlying variable |
| LoopCollection.IndexFromStops | pyccel/ast/utilities.py:353-362 | the axis loop run from depth `kk` ends deeper than `kk` and no deeper than the target's rank, at compatible operands unless every axis is indexed, and keeps each operand's underlying variable |
| LoopCollection.IndexFromFirstCompatible | pyccel/ast/utilities.py:353-362 | against the reference `StepVars` (index the first `s` axes one after another): the loop ends with the operands of its final depth, and every depth it passed was reached without error with incompatible operands |
| LoopCollection.IndexOutcomeFirstCompatible | pyccel/ast/utilities.py:349-362 | the whole axis loop ends at the first depth whose operands are compatible, or at the target's rank, with the operands `StepVars` gives for that depth |
| LoopCollection.IndexUntilCompatible | pyccel/ast/utilities.py:351-362 | the loop over axes returns the indexing outcome of the search and the pool grown with `i_k` up to the depth reached |
| LoopCollection.ReuseDepth | pyccel/ast/utilities.py:367-378 | the levels re-entered are exactly the leading open levels whose trip count equals the target's extent and that wrote none of the variables read through functions; the first that does not match stops the search |
| LoopCollection.ReuseUnique | pyccel/ast/utilities.py:370-378 | the reuse depth is determined: two depths meeting the first-mismatch description are equal |
| LoopCollection.IndexOutcomeBounds | pyccel/ast/utilities.py:347-362 | indexing goes no deeper than the target's rank, keeps the operands' underlying variables, and stops short of the rank only when compatible |
| LoopCollection.StepKeepsLine | pyccel/ast/utilities.py:314-389 | a statement that is not an expandable assignment, or is already compatible, is appended at the top level unchanged and resets the current level to 0 |
| LoopCollection.StepIndexFails | pyccel/ast/utilities.py:351-362 | a failure while indexing an incompatible statement makes the statement loop fail |
| LoopCollection.StepExpands | pyccel/ast/utilities.py:347-384 | an incompatible statement is indexed, re-enters the matching open levels, opens new levels down to its depth, and sets the current level to that depth |
| LoopCollection.RunExtend | pyccel/ast/utilities.py:310-390 | after a prefix of the block succeeds, its tree is open to exactly the current level, and one more statement is one more step of the statement loop from that state |
| LoopCollection.CollectLoops | pyccel/ast/utilities.py:278-390 | the method returns the loop tree and the grown index pool that the left fold of the statement step describes, and fails exactly when it does |
| LoopCollection.CollectStatement | pyccel/ast/utilities.py:311-389 | one iteration of the statement loop computes exactly the statement step |
| LoopCollection.RunFailsOnPrefix | pyccel/ast/utilities.py:310-390 | a failure on a prefix of the block is the failure of the whole block, with the same error kind and message |
| LoopCollection.FlattenPlace | pyccel/ast/utilities.py:367-384 | placing a statement in the tree appends it, at its new depth, to the statements of the tree in order |
| LoopCollection.StepFlatten | pyccel/ast/utilities.py:311-389 | one step appends exactly the processed statement to the tree, with its skeleton kept and its depth at most its target's rank |
| LoopCollection.RunKeepsStatements | pyccel/ast/utilities.py:310-390 | `collect_loops` keeps every statement of the block, in order, with the same underlying variables, each under at most as many loops as its target has axes; statements that are not expanded are kept unchanged |
| LoopCollection.RunPool | pyccel/ast/utilities.py:355-357 | the index pool only grows, and what it gains at depth k is `i_k` |
| LoopCollection.RunCovered | pyccel/ast/utilities.py:353-382 | every loop level of the result has an index in the returned pool, which `insert_fors` reads by depth |
| LoopCollection.PlaceSpine | pyccel/ast/utilities.py:370-382 | the re-entered levels keep their trip counts and gain the written variable; the new levels below take the target's extents, one per remaining axis |
| LoopInsertion.InsertForsStatements | pyccel/ast/utilities.py:392-420 | `insert_fors` adds loops only: the statements of the generated code are those of the tree level, in order |
| LoopInsertion.InsertForsListStatements | pyccel/ast/utilities.py:410-414 | the code generated for a list of entries holds the statements of the entries, in order |
| LoopInsertion.InsertForsWellFormed | pyccel/ast/utilities.py:415-418 | every loop generated for a level uses an index from the pool at its depth and has a trip count other than the literal 1 |
| LoopInsertion.UnitLevelHasNoLoop | pyccel/ast/utilities.py:415-416 | a level of trip count 1 produces no loop: its body is emitted in place |
| LoopInsertion.Expanded | pyccel/ast/utilities.py:422-460 | `expand_to_loops` is `insert_fors` applied from level 0 to the tree `collect_loops` builds from an empty index pool; it fails exactly when collecting fails, with the same error |
| LoopInsertion.ExpandToLoops | pyccel/ast/utilities.py:422-460 | the method returns the loops and index pool `Expanded` describes (so each level of the collected tree becomes a `for` over its index, and expanded statements come out indexed), or collecting's error; it also keeps one statement per input statement, in order, each with its skeleton and unexpanded ones unchanged; every loop is well formed; the index pool is `i_0, i_1, ...` |
| LoopExpansionExample.VectorAddExample | pyccel/ast/utilities.py:445-455 | the documented example, stated of `expand_to_loops` itself: `c = a + b` on arrays of four elements without vector support expands to one loop over `i_0` around `c[i_0] = a[i_0] + b[i_0]`, with index pool `["i_0"]` |
| AstUtilities.FirstValued | pyccel/ast/utilities.py:170-174 | the split point is the first argument carrying a default value, every argument before it has none, and it is the length of the list when no argument has one |
| AstUtilities.KwargsOf | pyccel/ast/utilities.py:177-181 | the keyword dictionary has exactly the names of the trailing arguments as keys |
| AstUtilities.SplitPositionalKeyword | pyccel/ast/utilities.py:165-183 | the positional part is the prefix before the first valued argument and holds no valued argument; the keyword dictionary's keys are the names from that argument on |
| AstUtilities.KwargsLastWins | pyccel/ast/utilities.py:177-181 | a name repeated among the keyword arguments keeps the value of its last occurrence |
| AstUtilities.SplitIsPartition | pyccel/ast/utilities.py:170-174 | the positional part followed by the remaining arguments is the whole argument list, and the first remaining argument is valued and becomes a key |
| AstUtilities.BuildTypesDecorator | pyccel/ast/utilities.py:140-162 | the decorator list succeeds exactly when every argument is a variable (otherwise TypeError) and then has one entry per argument, in order |
| AstUtilities.ColonsCount | pyccel/ast/utilities.py:152-155 | the shape string of an array of rank n holds exactly n colons |
| AstUtilities.TypeEntryAxes | pyccel/ast/utilities.py:147-157 | an entry holds one `:` per axis, and an array of rank above 1 carries `(order=...)` after its axes when an order is asked for |
| AstUtilities.SelectTargets | pyccel/ast/utilities.py:87-98 | the collected pairs are exactly the targets found in the dictionary, each under its code name (the alias when there is one) with the object stored under its import name |
| AstUtilities.BuiltinImport | pyccel/ast/utilities.py:100-123 | an import from pyccel.decorators yields nothing and reports each unknown target; a registered module yields the targets it knows (or its whole dictionary when no target is named); any other source yields nothing and reports nothing |
| AstUtilities.DecoratorErrors | pyccel/ast/utilities.py:111-118 | one error-severity report per target that is not a decorator, and none exactly when all targets are decorators |
| AstUtilities.BuiltinFunction | pyccel/ast/utilities.py:44-65 | TypeError is raised exactly for an expression that is neither a function call nor a name; a built-in result is a registered name applied to the given arguments; a `map` result comes from a call, when `map` is not registered, over the arguments after the first (the full dispatch is `BuiltinFunctionCases`) |
| AstUtilities.BuiltinFunctionCases | pyccel/ast/utilities.py:44-65 | for a call or a name: a registered built-in is applied to the given arguments; otherwise `map` as a bare name raises AttributeError, `map` on a call without arguments raises IndexError, and `map` on any other call applies the call's first argument to the given arguments after the first; otherwise `lambdify` is deferred with the arguments; any other name yields no built-in |
| CWrapperPrinter.SetFlagValue | pyccel/codegen/printing/cwrappercode.py:350-374 | the new flag is the old one shifted by four bits plus the registry code of the argument's (dtype, precision), and an unknown pair raises NotImplementedError |
| CWrapperPrinter.DispatchKeyIsFold | pyccel/codegen/printing/cwrappercode.py:870-881 | the key an overload is dispatched on exists exactly when every argument type has a registry code, and is then the four-bit left fold of those codes |
| CWrapperPrinter.FoldIsShiftSum | pyccel/codegen/printing/cwrappercode.py:568-578 | the dispatch key of an overload equals the sum the type-check function accumulates, each argument's code shifted by four bits per later argument |
| CWrapperPrinter.FlagFoldNonNegative | pyccel/codegen/printing/cwrappercode.py:370-374 | with non-negative codes the dispatch key is non-negative |
| CWrapperPrinter.FlagFoldInjective | pyccel/codegen/printing/cwrappercode.py:870-881 | with codes below 16, two overloads of the same arity with different argument codes get different dispatch keys |
| CWrapperPrinter.ArgBranchesDistinct | pyccel/codegen/printing/cwrappercode.py:561-566 | the type check of one argument tests each C type at most once |
| CWrapperPrinter.ArgBranchesCover | pyccel/codegen/printing/cwrappercode.py:561-566 | the type check covers every candidate type of an argument |
| CWrapperPrinter.ArgBranchesFlags | pyccel/codegen/printing/cwrappercode.py:568-578 | each test adds the code of one candidate type shifted to the argument's position |
| CWrapperPrinter.ChecksStep | pyccel/codegen/printing/cwrappercode.py:556-584 | the checks for the first i+1 parameters are those for the first i followed by the check of parameter i |
| CWrapperPrinter.ConverterBaseNameShape | pyccel/codegen/printing/cwrappercode.py:526-541 | a converter's requested name starts with `py_to_`, marks an optional argument with `o_` right after it, and holds the C type with its spaces turned into underscores |
| CWrapperPrinter.FreeStatements | pyccel/codegen/printing/cwrappercode.py:398-414 | an array is deallocated when the target is C and an optional argument is freed, in that order, and nothing is emitted exactly when no release is needed |
| CWrapperPrinter.DeclareType | pyccel/codegen/printing/cwrappercode.py:181-211 | the declaration succeeds exactly when the type is registered and any array is an ndarray, a registered non-ndarray array being a fatal report, and is the C type (or `t_ndarray`) followed by `**`, `*` or nothing according to the pointer and optional flags |
| CWrapperPrinter.DeclareTypeAsWrittenNameError | pyccel/codegen/printing/cwrappercode.py:198-203 | as written, a registered array that is not an ndarray raises NameError (the restriction constant is not imported) where the fatal report was meant, and every other argument is declared as intended |
| CWrapperPrinter.DeclareTypeIndirection | pyccel/codegen/printing/cwrappercode.py:205-211 | the declared type adds two levels of indirection for an optional pointer, one for a pointer or an optional, none otherwise |
| CWrapperPrinter.StaticArgs | pyccel/codegen/printing/cwrappercode.py:321-348 | a Fortran array is passed as one size per axis followed by its data buffer; any other argument is passed as is |
| CWrapperPrinter.NoneBeforeTypeChecks | pyccel/codegen/printing/cwrappercode.py:477-483 | an optional argument given `None` is accepted before any type check is made |
| CWrapperPrinter.ConverterChecksType | pyccel/codegen/printing/cwrappercode.py:440-454 | a converter checks the argument's type exactly when it is an array or not part of an interface |
| CWrapperPrinter.Printer.constructor | pyccel/codegen/printing/cwrappercode.py:57-63 | a new printer has no wrapper names, no global names and no converters, and keeps its target language |
| CWrapperPrinter.Printer.GetNewName | pyccel/codegen/printing/cwrappercode.py:68-94 | the name returned is not among the used names and is added to them; it is the requested name when that is free, otherwise one of the incremented candidates |
| CWrapperPrinter.Printer.GetWrapperName | pyccel/codegen/printing/cwrappercode.py:96-117 | the wrapper name is free in both the caller's and the global names, is `<name>_wrapper` when that is free, and is recorded for the function and added to both sets; the converters are untouched |
| CWrapperPrinter.Printer.ConverterName | pyccel/codegen/printing/cwrappercode.py:508-543 | the converter name exists exactly when the type is registered (otherwise KeyError, with the used names unchanged), is fresh and added to the used names, and is the requested name when that is free |
| CWrapperPrinter.Printer.GetPyArgParseConverter | pyccel/codegen/printing/cwrappercode.py:603-643 | a converter cached under the argument's key is returned unchanged; otherwise a new one under a fresh name, with the registered cast, is built and cached under the key, and this succeeds exactly when the argument's type has a C name and (for a scalar) a registered cast; an unregistered C type raises KeyError before any name is taken, a missing scalar cast raises NotImplementedError after the fresh name was added to the used names; a failure caches nothing; names of wrappers and globals do not change |
| CWrapperPrinter.Printer.GenerateInterfaceCheck | pyccel/codegen/printing/cwrappercode.py:549-597 | the type-check function holds one argument check per parameter, fails exactly when some check cannot be built, and gets a fresh global name |
| CWrapperNodes.RegistryMatchesFormatUnits | pyccel/ast/cwrapper.py:72-84 | integers and reals are read with the format unit whose C object has the precision's width (integers of 1, 2, 4 or 8 bytes, reals of 4 or 8), complex numbers and Python objects with `O`, booleans with `p`, strings with `s`, and no unit is the optional marker |
| CWrapperNodes.UnitsPointwise | pyccel/ast/cwrapper.py:172-173 | the unit string has one registry unit per value, in order, and fails exactly when some (dtype, precision) pair is not registered |
| CWrapperNodes.FirstValued | pyccel/ast/cwrapper.py:124-128 | the split index is the first argument with a default, and no argument before it has one |
| CWrapperNodes.TupleFlagsSplit | pyccel/ast/cwrapper.py:123-132 | the format string is the units of the arguments before the first default, `|` when there is such an argument, then the units of the rest |
| CWrapperNodes.TupleFlagsRegistered | pyccel/ast/cwrapper.py:124-132 | a format string exists only when every argument's type is registered |
| CWrapperNodes.TupleFlagsUnits | pyccel/ast/cwrapper.py:123-132 | the format string holds one registry unit per argument in declared order, shifted by one after the `|` that precedes the first argument with a default |
| CWrapperNodes.TupleFlagsBar | pyccel/ast/cwrapper.py:128-129 | the format string holds a `|` exactly when some argument has a default, and only at the first such argument |
| CWrapperNodes.ParseTupleFlags | pyccel/ast/cwrapper.py:123-132 | the two loops over the shared index build exactly the specified format string, or fail with KeyError when it does not exist |
| CWrapperNodes.ParseRestFlags | pyccel/ast/cwrapper.py:129-131 | the second loop appends one unit per remaining argument, giving the given prefix followed by exactly the units of that suffix, or the KeyError of the first unregistered one |
| CWrapperNodes.ParseHeadFlags | pyccel/ast/cwrapper.py:123-127 | the first loop gives the units of exactly the arguments before the first one with a default, stopping at that index, or the KeyError of the first unregistered one |
| CWrapperNodes.BuildValueFlags | pyccel/ast/cwrapper.py:169-173 | the loop over the results builds exactly their concatenated units |
| CWrapperNodes.ParseAndBuildAgree | pyccel/ast/cwrapper.py:123-132 | arguments without defaults are parsed with the same format string that builds them back |
| CWrapperNodes.AsWrittenAcceptsNonVariable | pyccel/ast/cwrapper.py:109-112 | the list test as written accepts a list holding something other than a Variable, which the intended test rejects |
| CWrapperNodes.ListTestStrengthens | pyccel/ast/cwrapper.py:109-112 | the intended test accepts exactly the lists whose items are all Variables, and rejects everything the test as written rejects |
| CWrapperNodes.NewParseTupleNode | pyccel/ast/cwrapper.py:104-137 | invalid inputs raise the first applicable TypeError, lists being checked with the corrected test of the Findings table rather than the one written at lines 109-112; otherwise the node is built exactly when the format string exists, keeps the parse arguments and keyword names, and a single warning (never a fatal report) is issued exactly when a Variable argument is keyword-only |
| CWrapperNodes.NewBuildValueNode | pyccel/ast/cwrapper.py:169-173 | the node is built exactly when every result type is registered, keeps the results, and its format string has the registry unit of each result in order |
| CWrapperRuntime.CheckArrayAccepts | pyccel/stdlib/cwrapper/cwrapper.c:211-349 | an array is accepted exactly when its type matches (or no type is checked), its rank matches, and, for rank above 1, it has the requested contiguity (or none is requested) |
| CWrapperRuntime.CheckArrayFirstFailure | pyccel/stdlib/cwrapper/cwrapper.c:340-349 | the first failing check is the one reported: a type mismatch raises TypeError naming both types and hides a rank mismatch, which in turn hides an ordering problem; no ordering problem is reported for rank 1 or less |
| CWrapperRuntime.CDivStride | pyccel/stdlib/cwrapper/cwrapper.c:375-384 | a byte stride that is a whole number of elements, of either sign, is turned back into that number of elements by C's truncating division |
| CWrapperRuntime.NumpyToNdarrayStrides | pyccel/stdlib/cwrapper/cwrapper.c:375-384 | a fresh buffer of nd element strides, each the byte stride divided by the element size |
| CWrapperRuntime.NumpyToNdarrayShape | pyccel/stdlib/cwrapper/cwrapper.c:391-400 | a fresh buffer holding the first nd entries of the shape |
| CWrapperRuntime.PyarrayToNdarray | pyccel/stdlib/cwrapper/cwrapper.c:403-437 | the status is the combined object and array check and the result is true exactly when it passes; on failure nothing is written; with an ordering request only the data pointer and NumPy's shape are taken; otherwise every field is filled from the array, with fresh shape and element-stride buffers, and the result is marked as a view |
| CWrapperRuntime.BoolRoundTrip | pyccel/stdlib/cwrapper/cwrapper.c:111-174 | a C boolean survives the trip through Python and back, a Python boolean survives the trip through C and back, and any object other than `Py_True` reads as false |
| Internals.NewSliceValidates | pyccel/ast/internals.py:110-122 | a slice is built as given exactly when the stage is syntactic or every bound present is an integer; otherwise a TypeError names the first bad bound, start before stop before step |
| Internals.SliceStrReadsBack | pyccel/ast/internals.py:156-165 | the text of a slice is its start, ` : `, then its stop (empty text for an absent bound), so both bounds can be read back, and the step is never shown |
| Internals.NewSymbolChecksName | pyccel/ast/internals.py:183-187 | a symbol is built exactly when its name is a string, and then keeps that name |
| Internals.SymbolEqualityLaws | pyccel/ast/internals.py:195-202 | symbol equality is reflexive, symmetric and transitive, never holds between different classes, coincides with equal class and name, and equal symbols hash alike |
| Internals.SplitJoin | pyccel/ast/internals.py:233 | splitting gives one piece more than there are separators, no piece holds the separator, and joining the pieces with it gives the text back |
| Internals.StripCutsWhitespace | pyccel/ast/internals.py:234 | stripping keeps a middle slice of the text, cuts only whitespace on either side, and leaves no whitespace at either end |
| Internals.Symbols | pyccel/ast/internals.py:210-235 | one symbol per comma-separated piece, in order, named by the stripped piece |
| Internals.SymbolsSplitNames | pyccel/ast/internals.py:233-235 | there is one symbol per comma plus one, and for names written without whitespace joining the symbol names with commas gives the text back |
| Internals.ArraySizeMessageNamesArg | pyccel/ast/internals.py:55-56 | with a valid node as the array and a plain integer as the index, the message as written names the class of the array where the intended one names `int` |
| Internals.ArraySizeChecks | pyccel/ast/internals.py:50-63 | the size node is built exactly when the array is a list, tuple or node and the index is a node; it is then an integer scalar of the default integer precision over the given array and index; each rejection names the class of the offending argument; the version as written accepts and rejects the same inputs |
| Macros.ConstructMacroDispatch | pyccel/ast/macros.py:114-125 | a name that is not a string, or a known macro name over an argument that is neither a symbol nor a variable, raises TypeError; the names `shape`, `dtype` and `count` build the macro of that name over the argument (a shape macro keeps the parameter as its index); any other name gives None |
| Macros.ConstructMacroRoundTrip | pyccel/ast/macros.py:114-125 | a macro is rebuilt from its own name, argument and index |
| Macros.MacroAttributes | pyccel/ast/macros.py:47-108 | every macro is a scalar; the shape and count macros are integers and the type macro is generic with precision 0; each has a name of its own |
| Macros.MacroShapeStrIndex | pyccel/ast/macros.py:66-71 | the text of a shape macro over an argument written without a comma shows a comma exactly when an index is set, and then ends with `, index)` |
| ItertoolsExt.NewProductFactors | pyccel/ast/itertoolsext.py:22-31 | building a product fails only without arguments; otherwise it stands for the arguments in order, and is a product node exactly when there are at least two |
| Mpi.ShapeCount | pyccel/parallel/mpi.py:21-31 | the loop computes the element count a shape stands for: 1 when unset, the product of a list of sizes, a single size as is |
| Mpi.GetShape | pyccel/parallel/mpi.py:16-33 | a variable gives its shape's element count, an indexed element the count of its base, and anything else a TypeError |
| Mpi.ProductAppend | pyccel/parallel/mpi.py:26-29 | the count of two shapes joined end to end is the product of their counts |
| Mpi.ProductReverse | pyccel/parallel/mpi.py:26-29 | the count does not depend on the order the sizes are listed in, so a shape and its reverse give the same count, and any zero size gives an empty message |
| Mpi.IndexedElementCountsBase | pyccel/parallel/mpi.py:32-33 | an indexed element, however deeply indexed, counts as its whole base |
| Mpi.MpiDatatypeNames | pyccel/parallel/mpi.py:69-78 | exactly integers, single and double reals have an MPI datatype; integers and doubles get names of the C binding and single reals the name of the Fortran binding; different element types never share a name |
| Mpi.CallCount | pyccel/parallel/mpi.py:334-359 | the count of a communication call is its buffer's element count, and waitall, which has no buffer, raises AttributeError |
| Mpi.SendCount | pyccel/parallel/mpi.py:425-436 | the send count is the element count of the send buffer's shape |
| Mpi.RecvCount | pyccel/parallel/mpi.py:438-449 | the receive count is the element count of the receive buffer's shape |
| Mpi.SendRecvSymmetric | pyccel/parallel/mpi.py:425-453 | a send-receive between buffers of the same shape and element type sends as many elements of the same MPI datatype as it receives, and its counts agree with the shape count of a variable of that shape |
| Epyccel.DedentLines | pyccel/epyccel.py:39-44 | each line loses its first k characters, whatever they are, and a line shorter than that becomes empty |
| Epyccel.GetSourceFunction | pyccel/epyccel.py:29-46 | a non-callable raises TypeError; otherwise the loop accumulates the lines, each with as many leading characters removed as the first line is indented |
| Epyccel.DedentZero | pyccel/epyccel.py:39-44 | removing no character leaves every line as it is |
| Epyccel.SourceTextFirstLine | pyccel/epyccel.py:36-44 | the first line loses exactly its indentation, and an unindented first line leaves the plain concatenation of the lines |
| Epyccel.DedentIndentRoundTrip | pyccel/epyccel.py:36-44 | when every line starts with the first line's indentation, putting that indentation back in front of the extracted lines gives the source lines back |
| Epyccel.RandomString | pyccel/epyccel.py:22-26 | a tag of n characters, each the generator's choice among lowercase letters and digits |
| Epyccel.RandomStringCoversAlphabet | pyccel/epyccel.py:22-26 | every string of lowercase letters and digits is a possible tag |
| Epyccel.ModuleNameShape | pyccel/epyccel.py:63-80 | a function's module is named `mod_` and the tag, a module's name is the last component of its dotted name, `_` and the tag, anything else raises TypeError, and different tags give different names |
| NumpyNodes.RemoveChar | pyccel/ast/numpyext.py:58 | removing a character leaves no occurrence of it |
| NumpyNodes.NewArrayRules | pyccel/ast/numpyext.py:49-112 | an argument that is not a list, tuple or list node raises TypeError; an order other than K, A, C or F (quotes removed) raises ValueError; a built array has the argument's shape and rank, is F-ordered exactly when F was asked for, and K or A give C |
| NumpyNodes.ReductionRules | pyccel/ast/numpyext.py:148-222 | a sum or product is built exactly when its operand is of an accepted class, is then a scalar of the operand's dtype, and its printed assignment is the left-hand side, ` = `, and the printed call |
| NumpyNodes.MatmulTranspose | pyccel/ast/numpyext.py:223-273 | printing fails exactly when both operands have a set order and the orders differ; a product of two C-ordered operands is printed as the product of the F-ordered operands swapped; the node always has rank 1 |
| NumpyNodes.SizeCalls | pyccel/ast/numpyext.py:336-375 | the Fortran sizes of an argument of rank n are `size(t,1)` to `size(t,n)` |
| NumpyNodes.ShapeSizesOrder | pyccel/ast/numpyext.py:336-375 | a shape lists one size per axis, the Fortran sizes in order for an F-ordered argument and backwards for a C-ordered one |
| NumpyNodes.ShapeRules | pyccel/ast/numpyext.py:282-334 | a shape node is built exactly when its argument is of an accepted class and is then a one-axis array with one entry per axis of the argument; its text shows the index exactly when the index is truthy, so index 0 prints like no index |
| NumpyNodes.CastRules | pyccel/ast/numpyext.py:376-575 | Real accepts everything Int does plus nil and applications; a cast is built exactly when its argument is accepted and is then a scalar of the default precision of its kind; a complex is built exactly when both parts are accepted and has the default complex precision |
| NumpyNodes.LinspaceAsWrittenCount | pyccel/ast/numpyext.py:655-678 | for `linspace(0, 1, 5)` the node has 5 values but the printed loop as written yields one value and allocates `(0:5)` without naming the array |
| NumpyNodes.LinspaceCount | pyccel/ast/numpyext.py:655-678 | with the corrected bound the printed loop yields as many values as the size and allocates `lhs(0:size-1)`; the node is a one-axis F-ordered real array |
| NumpyNodes.NewLinspaceRules | pyccel/ast/numpyext.py:583-600 | a linspace is built exactly from three accepted arguments, kept as start, stop and size; every argument is checked before their number, which otherwise raises ValueError |
| NumpyNodes.DiagRank | pyccel/ast/numpyext.py:689-767 | for a vector or a matrix the rank the print allocates is the node's rank, and the diagonal of the diagonal has the original rank; for any other rank the node is a matrix and printing fails |
| NumpyNodes.CrossProductLaws | pyccel/ast/numpyext.py:824-888 | the printed components form the cross product: swapping the operands changes every sign, and the result is orthogonal to both operands |
| NumpyNodes.CrossRules | pyccel/ast/numpyext.py:778-888 | a cross node is built exactly when both operands are accepted and takes rank and dtype from the first; printing works exactly for rank 1 or 2, and a C-ordered operand is indexed with the two indices swapped |
| NumpyNodes.WhereRules | pyccel/ast/numpyext.py:889-935 | the print allocates the result first, then fills its first column; the node is a rank-2 array |
| NumpyNodes.WhereColumnPositions | pyccel/ast/numpyext.py:922-933 | the column `pack([(ind,ind=0,size(mask)-1)], mask)` stores has `count(mask)` entries, the rows the allocation makes, and holds exactly the positions of the true mask entries, each once, in increasing order |
| NumpyNodes.Bounds | pyccel/ast/numpyext.py:1043-1070 | one bound `0:d-1` per dimension |
| NumpyNodes.NewFullShape | pyccel/ast/numpyext.py:978-1023 | a built array has one axis per given size (one for a single size), an order of C or F taken from the argument, and the given fill value; any other order fails |
| NumpyNodes.InferDtypeOrder | pyccel/ast/numpyext.py:988-996 | without a dtype, the fill value decides, testing integer, then real, then complex, then boolean; any other value raises TypeError |
| NumpyNodes.NewFullInfers | pyccel/ast/numpyext.py:978-1023 | a fill value whose dtype cannot be inferred fails the construction with that error; an integer fill value makes an array of the registry's `int` entry |
| NumpyNodes.UnitFillRules | pyccel/ast/numpyext.py:1091-1131 | zeros and ones fill each supported kind with its additive and multiplicative identity and fail on the same kinds; an empty array prints no initialisation |
| NumpyNodes.FullFprintLayout | pyccel/ast/numpyext.py:1043-1070 | a C-ordered array allocates the dimensions of the F-ordered one backwards, one bound per axis, and prints an allocation unless on the stack and an initialisation when it has a fill |
| NumpyNodes.ZerosLikeAgreesWithZeros | pyccel/ast/numpyext.py:1202-1246 | `zeros_like` of an array of a native kind starts with the value `zeros` fills that kind with; a variable of another datatype raises TypeError; an indexed element takes its base's kind |
| NumpyNodes.NormShapeRank | pyccel/ast/numpyext.py:1344-1377 | the norm's shape removes the chosen axis (negative positions count from the end) and keeps the others in order, so it has as many entries as the norm's rank |
| NumpyNodes.NormDimZeroAsWritten | pyccel/ast/numpyext.py:1378-1389 | a matrix norm along axis 0 has rank 1 and loses axis 0 from its shape, but the print as written is `Norm2(x)`, the scalar norm |
| NumpyNodes.NormFprintAgreesWithRank | pyccel/ast/numpyext.py:1378-1389 | with the corrected test the print passes a dimension exactly when one is given, that is exactly when the norm's rank is the argument's minus one |
| Syntactic.ChangePriorityRegroups | pyccel/parser/syntactic.py:107-135 | regrouping keeps the operands and operators in their written order, and from operands already grouped left to right it produces an expression grouped left to right |
| Syntactic.VisitBinOpAsWritten | pyccel/parser/syntactic.py:574-610 | the regrouped operator node still holds the first operand, the operator and the second operand in their written order |
| Syntactic.VisitBinOp | pyccel/parser/syntactic.py:574-610 | the node built as Python's parser grouped it holds the first operand, the operator and the second operand in their written order |
| Syntactic.VisitBinOpMeaning | pyccel/parser/syntactic.py:574-610 | the intended node computes the operator on the values of the two operands it was parsed with, for any operand values and operator meanings |
| Syntactic.VisitBinOpAsWrittenChangesValue | pyccel/parser/syntactic.py:107-135 | the regrouping as written turns `1-(1-1)`, worth 1, into `(1-1)-1`, worth -1, and `2**(3**2)`, worth 512, into `(2**3)**2`, worth 64 |
| Syntactic.ChangePriorityExamples | pyccel/parser/syntactic.py:107-135 | `1-(1-1)` becomes `(1-1)-1`, `1-(1*1)` is left alone, and `1/(1*1)` becomes `(1/1)*1` |
| Syntactic.ChangePriorityPowChain | pyccel/parser/syntactic.py:126-133 | `a**(b**c)` is regrouped as `(a**b)**c` like every other chain of operators of equal priority |
| Syntactic.VisitBoolOpAsWrittenDropsOperands | pyccel/parser/syntactic.py:611-635 | as written, `a and b and c` with c false is read as `a and b`, which is true where Python's value is false |
| Syntactic.VisitBoolOpAsWrittenRegroups | pyccel/parser/syntactic.py:611-635 | as written, a second operand of the other kind is regrouped: `a and (b or c)` is read as `(a and b) or c` |
| Syntactic.VisitBoolOp | pyccel/parser/syntactic.py:611-635 | the corrected visitor's node is true exactly when Python's `and` or `or` of the values is |
| Syntactic.VisitBoolOpKeepsOperands | pyccel/parser/syntactic.py:611-635 | the corrected visitor keeps every operand in order, and agrees with the version as written for two values whose second is not of the other kind |
| Syntactic.VisitCompareMeaning | pyccel/parser/syntactic.py:637-667 | a single comparison is accepted exactly when its operator is not `in` or `not in`, keeps both operands in place, and a value comparison holds exactly when Python's does |
| Syntactic.VisitCompareRefusesChains | pyccel/parser/syntactic.py:641-643 | a chained comparison is a fatal restriction whatever its operators |
| Syntactic.VisitAugAssignKeepsOperator | pyccel/parser/syntactic.py:425-448 | an augmented assignment is accepted exactly when its operator is one of `+ - * / %`, and then carries that operator between the same two sides; any other is a fatal restriction |
| Syntactic.VisitSliceKeepsBounds | pyccel/parser/syntactic.py:881-901 | a slice is accepted exactly when it has no step, and then keeps both bounds, present or absent, in their places |
| Syntactic.ZipValued | pyccel/parser/syntactic.py:449-464 | pairing names with defaults stops at the shorter list and keeps each pair's order |
| Syntactic.VisitArgumentsLayout | pyccel/parser/syntactic.py:449-464 | `*args` or `**kwargs` is fatal; otherwise the parameters come out in order, exactly the last `len(defaults)` positional ones carry a default, the i-th of those the i-th default, and keyword-only parameters appear only in a function without positional ones |
| Syntactic.ThenAssociative | pyccel/parser/syntactic.py:743-777 | appending what two stretches of the decorator collect is associative, so the loop may be cut anywhere |
| Syntactic.Lift | pyccel/parser/syntactic.py:769 | the items of a `results` value become plain positional arguments, in order |
| Syntactic.TypesHeader | pyccel/parser/syntactic.py:743-783 | the loop over the `types` decorator's arguments, restarted on the items of `results=`, builds the header text and the errors from exactly what `Collect` gathers from them |
| Syntactic.AddItem | pyccel/parser/syntactic.py:752-775 | a symbol's name or a string's text stripped of its quotes goes to the end of the list being collected into, any other argument adds one error naming its class, and nothing else changes |
| Syntactic.CollectHead | pyccel/parser/syntactic.py:749-777 | an item goes to the current list; `results=v` continues on the items of v in the result list, dropping what follows; any other keyword is reported and switches to the result list |
| Syntactic.CollectConcat | pyccel/parser/syntactic.py:749-777 | without keywords, collecting two stretches of arguments one after the other collects each in turn |
| Syntactic.CollectContainer | pyccel/parser/syntactic.py:744-762 | without keywords, items go in order to the argument types, or to the result types once the result list is current, with the same errors either way |
| Syntactic.CollectResultsKeyword | pyccel/parser/syntactic.py:749-777 | in `@types(a, b, results=r)` the arguments before `results` give the argument types, the items of r the result types, and anything after it is ignored |
| Syntactic.UnquoteQuoted | pyccel/parser/syntactic.py:750-760 | a type written in single quotes reads back unquoted when it neither starts nor ends with a quote |
| Syntactic.CollectQuoted | pyccel/parser/syntactic.py:749-777 | a decorator of quoted types gives exactly those types, in order, with no result type and no error |
| Syntactic.BuildTypesDecoratorReadsBack | pyccel/ast/utilities.py:140-162 | the entries `build_types_decorator` produces for typed variables read back through a `@types` decorator as the same argument types |
| Syntactic.SpliceKeepsCode | pyccel/parser/syntactic.py:285-288 | moving pending headers and comments in front of the last statement never moves code and loses nothing |
| Syntactic.NextPlaces | pyccel/parser/syntactic.py:254-283 | each statement read is placed once, an import twice |
| Syntactic.NextCode | pyccel/parser/syntactic.py:256-283 | a statement's code goes to the module exactly when it is module code, to the program exactly when it is program code, and never stays pending; defined names are recorded; the file becomes a program at its first executable statement |
| Syntactic.StepKeeps | pyccel/parser/syntactic.py:254-288 | one turn of the loop keeps the split invariant |
| Syntactic.SplitBodyInvariant | pyccel/parser/syntactic.py:254-290 | after the loop, every statement is in the module, the program or the pending list, the module holds exactly the definitions and imports in order, the program the imports and executable statements in order |
| Syntactic.VisitModule | pyccel/parser/syntactic.py:245-316 | the loop over the file's statements and the final assembly give the module and program that `Finish` makes of the split `SplitBody` describes |
| Syntactic.VisitModuleSplits | pyccel/parser/syntactic.py:245-316 | the program exists exactly when the file has an executable statement, the module exactly when it defines something or has none; the module holds the definitions and imports in order, the program an import of every defined name when there is a module and then the imports and executable statements in order; only headers, comments and blank lines may move |
| Syntactic.SplitBodyLosesNothing | pyccel/parser/syntactic.py:254-290 | before assembly, every statement is in the module, the program or the leftover headers, and each import is in both |
| Syntactic.VisitModuleExample | pyccel/parser/syntactic.py:254-316 | a comment stays with the definition that follows it, and the program imports the module's function |
| OpenmpSyntax.OptionalArgumentsShow | pyccel/parser/syntax/openmp.py:865-1014 | an optional clause argument shows exactly when given: `ordered` alone or with its count, `schedule(kind)` or `schedule(kind, chunk)`; a reduction puts its operator before `: ` |
| OpenmpSyntax.FirstInvalid | pyccel/parser/syntax/openmp.py:62-67 | the first clause outside the allow-list, with every clause before it allowed |
| OpenmpSyntax.CheckGetClauses | pyccel/parser/syntax/openmp.py:57-68 | the loop over the clauses builds exactly the text `CheckClauses` gives, or stops with its error |
| OpenmpSyntax.CheckFailureSticks | pyccel/parser/syntax/openmp.py:62-67 | once a clause is refused, later clauses do not change the error |
| OpenmpSyntax.FirstInvalidAt | pyccel/parser/syntax/openmp.py:62-67 | a refused clause with every clause before it allowed is the first refused clause |
| OpenmpSyntax.CheckClausesMeaning | pyccel/parser/syntax/openmp.py:57-68 | clauses are accepted exactly when every one is in the allow-list, and then give their texts, each after a space, in order; otherwise a TypeError names the first refused clause's class and the construct |
| OpenmpSyntax.ClausesTextConcat | pyccel/parser/syntax/openmp.py:61-64 | the text of two lists of clauses one after the other is their texts joined |
| OpenmpSyntax.CheckClausesConcat | pyccel/parser/syntax/openmp.py:57-68 | a list is accepted exactly when both its halves are, and its text is theirs joined |
| OpenmpSyntax.CombinedTextGuards | pyccel/parser/syntax/openmp.py:1166-1307 | a later name of a combined construct shows only under the one before it: `simd` needs `taskloop` in a masked taskloop and the loop name in a target parallel, and `simd` after `distribute` takes the place of `parallel for` |
| OpenmpSyntax.CombinedTextStartsWithFirstName | pyccel/parser/syntax/openmp.py:1146-1307 | each combined text starts with its first name, and is exactly that name when no later name is given |
| OpenmpSyntax.ParallelAsWrittenDropsCombined | pyccel/parser/syntax/openmp.py:80-99 | as written, `parallel for` builds a node whose `has_nowait` is `for` and that has no combined construct, and `parallel sections` builds one that has lost `sections` |
| OpenmpSyntax.ParallelKeepsCombined | pyccel/parser/syntax/openmp.py:70-99 | a parallel construct is accepted exactly when its clauses are in the allow-list its combination gives; the corrected node keeps the clause text and the combination's text as its combined construct, with nothing in `has_nowait`; the version as written accepts the same clauses and builds the same text, but has no combined construct and carries every combination's text except the sections' in `has_nowait` |
| OpenmpSyntax.ParallelAllowList | pyccel/parser/syntax/openmp.py:78-95 | combining only widens the parallel allow-list; `filter` is allowed only with a masked taskloop, and `linear` with a masked taskloop only when `simd` is named |
| OpenmpSyntax.MaskedTaskloopAsWrittenDropsCombined | pyccel/parser/syntax/openmp.py:285-295 | as written, `masked taskloop` builds a node that has lost `taskloop` |
| OpenmpSyntax.MaskedKeepsCombined | pyccel/parser/syntax/openmp.py:276-295 | the corrected masked construct keeps the taskloop it is combined with, accepts the same clauses as the version as written, and agrees with it when nothing is combined |
| OpenmpSyntax.TargetClausesLoop | pyccel/parser/syntax/openmp.py:499-506 | the target construct's loop over the clauses builds exactly the text `TargetClausesText` gives, or stops with its error |
| OpenmpSyntax.TargetFailureSticks | pyccel/parser/syntax/openmp.py:499-506 | once a target clause is refused, later clauses do not change the error |
| OpenmpSyntax.TargetCopyin | pyccel/parser/syntax/openmp.py:486-508 | `copyin` is refused on `target parallel` although the parallel clauses include it, and accepted on `target teams distribute parallel for`, whose corrected node keeps that text as its combined construct; a plain target accepts no parallel clause |
| OpenmpSyntax.TargetAsWrittenDropsCombined | pyccel/parser/syntax/openmp.py:485-508 | as written, `target parallel` builds a node whose `has_nowait` is `parallel` and that has no combined construct |
| OpenmpSyntax.TargetKeepsCombined | pyccel/parser/syntax/openmp.py:485-508 | the corrected target node keeps its combination's text as its combined construct, with nothing in `has_nowait`; the version as written accepts the same clauses and builds the same text, with that text in `has_nowait` and no combined construct |
| OpenmpSyntax.TeamsAllowList | pyccel/parser/syntax/openmp.py:519-542 | a teams construct accepts its clauses exactly when they are in the allow-list its combination gives, and the corrected node keeps the combination's text as its combined construct |
| OpenmpSyntax.TeamsAsWrittenDropsCombined | pyccel/parser/syntax/openmp.py:530-542 | as written, `teams distribute` builds a node whose `has_nowait` is `distribute` and that has no combined construct |
| OpenmpSyntax.TeamsKeepsCombined | pyccel/parser/syntax/openmp.py:530-542 | the corrected teams node differs from the one as written only in where the combination's text goes: the combined construct instead of `has_nowait` |
| OpenmpSyntax.NamedText | pyccel/parser/syntax/openmp.py:154-201 | a named construct's text is its name followed by its clauses, each after a space, when every clause is allowed, and otherwise a TypeError naming the first that is not |
| OpenmpSyntax.SingleConstructText | pyccel/parser/syntax/openmp.py:187-201 | a single construct reads `single` and its private and firstprivate clauses; any other clause is refused by its class name |
| OpenmpSyntax.LoopConstructText | pyccel/parser/syntax/openmp.py:110-119 | the loop construct's text is its clauses alone, without a name |
| OpenmpSyntax.EndTextLayout | pyccel/parser/syntax/openmp.py:583-590 | an end directive reads `end`, the constructs it closes, then the simd and nowait slots, each after one space even when empty |
| OpenmpSyntax.CollectNodes | pyccel/parser/syntax/openmp.py:1464-1468 | the loop over the model's statements collects exactly the nodes `Nodes` gives, or stops with the first construct's error |
| OpenmpSyntax.NodesFailureSticks | pyccel/parser/syntax/openmp.py:1464-1468 | once a construct fails, later statements do not change the error |
| OpenmpSyntax.NodesCount | pyccel/parser/syntax/openmp.py:1464-1468 | one node per OpenMP statement |
| OpenmpSyntax.ParseShape | pyccel/parser/syntax/openmp.py:1440-1473 | without a filename or text, parsing raises ValueError; otherwise it gives one node per OpenMP statement in order, unwrapped when there is exactly one |
| OmpNodes.NamedClasses | pyccel/ast/omp.py:48-148 | exactly the loop, parallel, masked, target and teams nodes have a name, the directive's own word; of those, all but the loop open a block |
| OmpNodes.UnnamedClasses | pyccel/ast/omp.py:35-165 | task, single, critical, master, sections and section open a block but have no name; the plain comment, simd, distribute, cancel and the end clause neither open a block nor have a name |
| OmpNodes.NewStores | pyccel/ast/omp.py:37-165 | a node stores the text, `has_nowait` (false when left out) and the combined text it is given; a class with its own initialiser raises TypeError on a missing `has_nowait` or a `combined` keyword |
| OmpNodes.NewArgsKeep | pyccel/ast/omp.py:63-67 | the arguments a node is rebuilt from are its text and combined text, without `has_nowait`, so nodes differing only there rebuild alike |
| OmpNodes.TextAloneCall | pyccel/ast/omp.py:37-165 | a call with the text alone is refused exactly by the classes with their own initialiser, and the others build a node without nowait or combined text |
| FunctionalTyping.AttributesFromType | pyccel/functional/parser.py:71-87 | the attributes come from the innermost type variable under the lists, each enclosing list adding one to its rank, and the other entries of the dictionary are kept; the first component is that variable wrapped once per list in the pair the inner call returned; a tuple raises NotImplementedError |
| FunctionalTyping.AttributesOfList | pyccel/functional/parser.py:72-75 | wrapping a term in a list raises the rank by one and keeps every other attribute; allocatable and shape come from the starting dictionary; from the defaults the rank is the variable's plus the number of lists |
| FunctionalTyping.DefaultTypeTable | pyccel/functional/parser.py:281-305 | exactly the prefixes i, s, d, c and z are accepted, different prefixes select different types, `d` selects the 8-byte real, each complex precision is twice that of the matching real, and no prefix selects a boolean |
| FunctionalTyping.SanitizeAll | pyccel/functional/parser.py:175 | the arguments are sanitized one by one, in order, and the list fails exactly when some argument does |
| FunctionalTyping.SanitizeMeaning | pyccel/functional/parser.py:165-192 | a sanitized expression has every call to a known operator turned into its node and keeps every call's number of arguments and a lambda's variables |
| FunctionalTyping.SanitizeMapExample | pyccel/functional/parser.py:177-183 | `map(f, xs)` becomes the map node with `f` named as a function and `xs` unchanged |
| FunctionalTyping.SanitizeUnknownExample | pyccel/functional/parser.py:172-186 | a call to an unknown function keeps its name and arguments, and a functor called without arguments fails |
| FunctionalTyping.LabelScheme | pyccel/functional/parser.py:233-388 | a function's codomain is labelled by its name and, when it is typed or a math function, its domain by the name and `_args`, so for a function definition the two labels differ; a definition's key is its domain label; asking for both at once is refused; only functions and symbols have a key |
| FunctionalTyping.UntypedDomainLabel | pyccel/functional/parser.py:376-388 | the domain label of a function that is neither typed nor a math function is its bare name, the same as its codomain label |
| FunctionalTyping.ToTypeResult | pyccel/functional/parser.py:411-428 | the resulting expression and tables are those after n steps, for n at most 2, with no type variable before them, and the expression is a type variable when fewer than two steps were taken |
| FunctionalTyping.ToTypeStops | pyccel/functional/parser.py:411-428 | a type variable is left unchanged with the tables untouched, a step that reaches a type variable is the last, steps that record nothing leave the tables as they were, and steps that only add entries lose no label |
| FunctionalTyping.ToTypeUnique | pyccel/functional/parser.py:414-425 | the count at which the loop stops is the one the result describes |
| FunctionalTyping.SemanticParser.constructor | pyccel/functional/parser.py:251-268 | a new parser has no types and no expressions recorded and no default type yet, and keeps the expression, its typed functions and its tag |
| FunctionalTyping.SemanticParser.Init | pyccel/functional/parser.py:270-326 | the typed functions' types are written first; a prefix other than i, s, d, c, z then raises ValueError with only those written; otherwise the default type is the tag's dummy variable of the type the prefix selects, and construction succeeds exactly when every called function is callable, leaving the typed and the elemental entries over the old tables |
| FunctionalTyping.SemanticParser.SetType | pyccel/functional/parser.py:398-405 | the type is stored under the target's label and the target under the type's name, so reading the type back gives it; a refused label changes nothing |
| FunctionalTyping.SemanticParser.RegisterTyped | pyccel/functional/parser.py:271-277 | the tables become the old ones overwritten by each typed function's domain under its name and `_args` and its codomain under its name, and the function under each type's name; when no labels collide, reading each function's domain and codomain back gives them; the expression is unchanged |
| FunctionalTyping.TypedTypesLookup | pyccel/functional/parser.py:271-277 | when no name is another's name or domain label, every typed function's domain and codomain are found under its two labels |
| FunctionalTyping.TypedTypesKeys | pyccel/functional/parser.py:271-277 | the typed functions' registration writes no key other than their names and domain labels |
| FunctionalTyping.SemanticParser.RegisterFunctions | pyccel/functional/parser.py:312-326 | the construction goes on exactly when every called function is an elemental math function, an operator or a typed function, and then the tables are the old ones with the default type under each elemental math function's two labels; otherwise it raises NotImplementedError naming the first one that is not, with the entries of the functions before it written |
| FunctionalTyping.ElementalTypesLookup | pyccel/functional/parser.py:315-321 | every elemental math function called gets entries under both its labels, every entry written is the default type, and the only expression written is under the default type's name and is an elemental math function that was called |
| FunctionalTyping.SemanticParser.ToType | pyccel/functional/parser.py:411-428 | the loop leaves in `main`, and returns, the typing `ToTypeResult` describes, and the tables as the steps it took recorded them |

## Left out

- CWrapperNodes.NewParseTupleNode: rejects any C or parse argument list holding a non-Variable (`CWrapperNodes.ListOfVariables`), whereas the source's test at pyccel/ast/cwrapper.py:109-112 lets a list such as `[1]` through (`CWrapperNodes.ListOfVariablesAsWritten`, see Findings); what the source then does with such an item is not modelled.
- The textX grammars that turn OpenMP pragmas and functional-language text into objects, and the external header parser: the parsed clause, construct and type-term objects are the inputs.
- The traversal plumbing of `pyccel/parser/syntactic.py` beyond the modelled visitors, file reading and import insertion: each visitor is given its operands already visited.
- SymPy: assumptions, symbolic shapes (a dimension is either a literal or an opaque symbol), `Linspace.step` arithmetic, `Sqrt` and the trigonometric and logarithmic wrapper classes of `pyccel/ast/numpyext.py`, and `to_sympy` in the functional parser.
- Floating-point and signed narrowing conversions of `pyccel/stdlib/cwrapper/cwrapper.c`: complex and float conversions and implementation-defined casts are outside integer reasoning. NumPy and Python C-API accessors (`PyArray_TYPE`, `PyArray_NDIM`, `PyArray_CHKFLAGS`, `PyErr_Format`) are fields of a given array object.
- The text templates of the printer's `_print_Module`, `_print_FunctionDef` and `_print_Interface`, and `get_PyBuildValue_Converter`, `python_function_as_argument` and `private_function_printer`: string boilerplate around the modelled name, flag and cache logic.
- `flags_registry`, `get_custom_key` and the Python-to-C cast table used by the printer are not part of the shown `pyccel/ast/cwrapper.py`: they are parameters of the printer model.
- `create_incremented_string` is not part of this model: `CWrapperPrinter.Candidate` stands in for it as `prefix_<n>` with the first free `n` from 1, and only freshness and the prefix are claimed.
- The `variable.py` rules for indexing a variable are not part of this model: a full slice keeps the axis, a bounded slice gives a symbolic length made of the axis and the slice's bounds (equal exactly when these are, which is how the loop-reuse test at pyccel/ast/utilities.py:372 compares them; a slice whose length simplifies to a literal is not recognised as such), an index drops the axis, and the order is unset below rank 2.
- `Errors` is an appended list of (message, severity) reports; a fatal report is a `Failure` of kind `FatalReport`. The report's bounding box and the output stream are not modelled.
- The debug `print(result)` in `collect_loops` (pyccel/ast/utilities.py:367), `_to_type_functor_reduce` (it prints and exits), and the `inspect` source reading and `build_namespace` of the functional parser: I/O.
- The functional parser's `_to_type` for each kind of expression is a parameter of `SemanticParser.ToType`: a step from the expression and the two tables to the new expression and tables, so whatever it records through `_set_type` and `_set_expr` is kept, but what each kind of expression records is not modelled. The types of a typed function's arguments and results (`assign_type`) are given to `SemanticParser.Init`, and so are the called functions, which the source collects from the expression's atoms into a set, in an order the model takes as given; the random tag is a constructor parameter.
- `epyccel_seq`'s directory changes, file writing, compilation and import, and the MPI broadcast in `epyccel`: I/O. This includes the final lookup of a compiled function in the imported package under its lowered name (pyccel/epyccel.py:141-142). The lines of a function and the choices of the random generator in `random_string` are parameters.
- Actual MPI communication. `MPI_waitall.count` reads an attribute `data` the class does not have (pyccel/parallel/mpi.py:357-359); `Mpi.CallCount` returns that AttributeError.
- Mpi.CallDatatype: a buffer that is neither a variable nor an indexed variable, such as an indexed element, is taken to have no `dtype` and gives AttributeError; `IndexedElement` is defined in `pyccel.types.ast`, which is not part of this model, and may carry one.
- NumpyNodes.WhereColumnPositions: the mask is a one-dimensional logical array, and the Fortran intrinsics `count` and `pack` are given their meaning in the Fortran standard (`NumpyNodes.MaskCount`, `NumpyNodes.Pack`); a multi-dimensional mask, packed in column-major order, is not modelled.
- An assignment whose left-hand side is a tuple or another non-variable target (pyccel/ast/utilities.py:321-323) cannot be built: `LoopCollection.Stmt` assigns to one operand, a variable or an indexed element.
- The NotImplementedError that `insert_index` raises for an expression that is neither a variable nor an indexed element (pyccel/ast/utilities.py:274-275): the model's operands are only those two.
- FunctionalTyping.SemanticParser.constructor: the `assert isinstance(expr, Lambda)` at pyccel/functional/parser.py:253 is not modelled; the expression is always taken to be a lambda (a `Typing` term), so the AssertionError for any other expression cannot arise.
- Strings: the character tests and conversions (`Internals.IsSpace`, `Internals.Strip`, `Epyccel.LeadingSpaces` and `Wrappers.Lower`) treat only ASCII letters and ASCII whitespace, whereas Python's `str.strip`, `str.lower` and `str.isspace` also act on other Unicode characters.
- Syntactic.VisitBinOp: builds the node as Python's parser grouped it (see Findings); the regrouping as written is `Syntactic.VisitBinOpAsWritten`. Parsing itself (`extend_tree`) is not modelled: operands come as trees.
- LoopCollection.Operands and LoopCollection.UsedList assume that `get_attribute_nodes` descends into the arguments of function calls and internal functions; it is defined in `pyccel/ast/basic.py`, which is not part of this model.
- AttributesFromType: a type term of none of the three classes (list, tuple, variable), for which the source returns None, cannot be built in the model.
- `builtin_import` raising TypeError on an argument that is not an import statement: the model's argument type admits only imports.
- Python `is` comparisons with string literals (pyccel/codegen/printing/cwrappercode.py:403, 414, 631) are modelled as string equality.
- The OmpNodes classes with their own `__init__(txt, has_nowait)` cannot be called with the text alone, yet `pyccel/parser/syntax/openmp.py` calls several of them so (`OmpNodes.TextAloneCall` states the refusal). `OpenmpSyntax` records what each construct passes to its node class (the text, the positional second argument and the `combined` keyword) and not the TypeError that mismatch raises. The four constructs that can be combined pass their combined text positionally, where the base initialiser stores it as `has_nowait` (see Findings); `OpenmpSyntax.Expr` uses the corrected constructs, which pass it as `combined`.
- CWrapperPrinter.CheckFor: the TypeError text lists the argument's C types once each in the order they first occur among its candidates, whereas the source joins a Python `set` (pyccel/codegen/printing/cwrappercode.py:557, 580), whose order is not defined and changes with string hash randomisation; the model fixes one of the orders the program may print, and only the set of types listed is what the source promises (`CWrapperPrinter.ArgBranchesDistinct`, `CWrapperPrinter.ArgBranchesCover`).
- Syntactic.ChangePriority: a right operand is a binary operator node or a leaf. The source regroups any `PyccelOperator` of no higher priority on the right (pyccel/parser/syntactic.py:127-134), unary and comparison nodes included, and reads their `args[1]`; the priorities of those classes are defined in `pyccel/ast/operators.py`, which is not part of this model, so what the regrouping does to them is not captured.
- Internals.SizeArg.TypeText: stands in for Python's `type(x)` text. A node's class prints with its module path in the source (`<class 'pyccel.ast....'>`); the model prints a fixed `<class 'PyccelAstNode'>`, and only which argument's type the message names is claimed.
- Internals.SliceStr: the class documentation of `Slice` shows `start : stop : step` for a slice with a step (pyccel/ast/internals.py:105-106), but `__str__` and `_sympystr` (lines 143-165) print `start : stop` only; the model follows the code, and `Internals.SliceStrReadsBack` states that the step is never shown.
- `_visit_Module`'s test `if mod_code:` is read as a test that a module block was made; the truth value of a `CodeBlock` is not in the modelled sources. The module name is given, not derived from the file path with `os.path`.
- Optional clause arguments (of `schedule`, `ordered` and the like) are an `Option`, not a possibly missing attribute.
- The C header files `cwrapper.h` and `ndarrays.h`: declarations only.

## Findings

| source | as written | input that shows it | evidently intended | confidence | as-written member | corrected member |
|---|---|---|---|---|---|---|
| pyccel/ast/cwrapper.py:109-112 | `not isinstance(x, list) and any(...)` rejects only a non-list holding a non-Variable | a list `[1]` of one literal passes the test | reject anything that is not a list of Variables (`or`) | high, not executed | CWrapperNodes.AsWrittenAcceptsNonVariable | CWrapperNodes.ListTestStrengthens |
| pyccel/ast/internals.py:55-56 | the message for a bad `index` formats `type(arg)` | a node as `arg` and the plain integer `1` as `index` | the message names the type of `index` | high, not executed | Internals.ArraySizeMessageNamesArg | Internals.ArraySizeChecks |
| pyccel/ast/numpyext.py:655-678 | the implied-do loop runs to `stop-1` and the allocation is `allocate(0:size)` | `numpy.linspace(0, 1, 5)`: the loop `0,1-1` gives one value for a node of shape `(5,)` | `size` values from index 0 to `size-1`, into `lhs(0:size-1)` | medium, not executed | NumpyNodes.LinspaceAsWrittenCount | NumpyNodes.LinspaceCount |
| pyccel/ast/numpyext.py:1378-1386 | `if self.dim:` treats `dim=0` as no dimension | `Norm(x, dim=0)` of a matrix: rank 1, yet printed as `Norm2(x)` | test `self.dim is not None`, as `shape` and `rank` do | high, not executed | NumpyNodes.NormDimZeroAsWritten | NumpyNodes.NormFprintAgreesWithRank |
| pyccel/parser/syntactic.py:611-635 | only `values[0]` and `values[1]` are visited | `True and True and False` becomes `True and True` | every operand of the boolean operation is kept | high, not executed | Syntactic.VisitBoolOpAsWrittenDropsOperands | Syntactic.VisitBoolOpKeepsOperands |
| pyccel/parser/syntax/openmp.py:80-99 | `OMP_Parallel_Construct(txt, com)` passes `com` positionally, so against the initialiser `(txt, has_nowait=False, combined=None)` of pyccel/ast/omp.py:37 it lands in `has_nowait` and `combined` is None; for sections the text goes to `self.com` and `com` stays None | `#$ omp parallel for` builds a node with `has_nowait` `for` and no combined construct; `#$ omp parallel sections` loses `sections` | pass every combination's text as `combined=com` | medium (the two files may come from different versions), not executed | OpenmpSyntax.ParallelAsWrittenDropsCombined | OpenmpSyntax.ParallelKeepsCombined |
| pyccel/parser/syntax/openmp.py:285-295 | the taskloop text is stored in `self.com`, and the node gets the local `com`, still None, as its positional `has_nowait` | `#$ omp masked taskloop` builds a masked node without `taskloop` | pass the taskloop text as `combined=` | high, not executed | OpenmpSyntax.MaskedTaskloopAsWrittenDropsCombined | OpenmpSyntax.MaskedKeepsCombined |
| pyccel/parser/syntax/openmp.py:485-508 | `OMP_Target_Construct(txt, com)` passes `com` positionally, so against the initialiser `(txt, has_nowait=False, combined=None)` of pyccel/ast/omp.py:37 it lands in `has_nowait` and `combined` is None | `#$ omp target parallel` builds a node with `has_nowait` `parallel` and no combined construct | pass the combination's text as `combined=com` | medium (the two files may come from different versions), not executed | OpenmpSyntax.TargetAsWrittenDropsCombined | OpenmpSyntax.TargetKeepsCombined |
| pyccel/parser/syntax/openmp.py:530-542 | `OMP_Teams_Construct(txt, com)` passes `com` positionally, so against the initialiser `(txt, has_nowait=False, combined=None)` of pyccel/ast/omp.py:37 it lands in `has_nowait` and `combined` is None | `#$ omp teams distribute` builds a node with `has_nowait` `distribute` and no combined construct | pass the combination's text as `combined=com` | medium (the two files may come from different versions), not executed | OpenmpSyntax.TeamsAsWrittenDropsCombined | OpenmpSyntax.TeamsKeepsCombined |
| pyccel/codegen/printing/cwrappercode.py:198-203 | a non-ndarray array is reported with `PYCCEL_RESTRICTION_TODO`, which the module never imports | a rank-2 `float` argument that is a plain pointer, not an ndarray, raises NameError | a fatal report of the restriction | high, not executed | CWrapperPrinter.DeclareTypeAsWrittenNameError | CWrapperPrinter.DeclareType |
| pyccel/parser/syntactic.py:107-135 | `change_priority` regroups `a op (b op' c)` as `(a op b) op' c` whenever `op'` has no higher priority, undoing a right-hand grouping that Python's parser only produces from explicit parentheses or for `**` | `1-(1-1)` (the first example of its own documentation) becomes `(1-1)-1`, and `2**3**2` becomes `(2**3)**2` | keep the tree Python's parser builds, which already reflects priority and associativity | medium, not executed | Syntactic.VisitBinOpAsWrittenChangesValue | Syntactic.VisitBinOpMeaning |
