# qed in Dafny

A Dafny model of the core of the qed repository (hocuscodus/qed). It has two parts.

The primary part is the N-dimensional growable array of `qedarray.js`:
- `QEDArray_` keeps a rectangular nested array and its per-axis extents `dims`.
- `Insert(pos, size)` grows the array by `size[d]` slots at offset `pos[d]` on every axis at once.
- `InsertLevel` walks the axes, shifting and recursing, and calls the user's `Init` once per new leaf with the shared cursor `pp`.
- Every step resumes through the one-slot deferred-call scheduler `post_` / `executeEvents_`.
- `src/qedarray.js` holds a smaller recursive rectangular initialiser.

The secondary part is the sequential machinery of the qni compiler and runtime written in C++:
- the scanner, the Pratt parser with its panic-mode recovery, and the binary-operator typing of the resolver;
- the locals and upvalues of the compiler;
- jump encoding, patching and decoding, and the emission shapes of the code generator;
- the growable chunk and value buffers;
- the `IndexList` bitset and the sorted open-upvalue list;
- the bit tricks of `attrset.cpp`, the sorted children of a `Sizer`, `Path` and `ValueStack`.

Each source file keeps its own form:
- Code that updates fields step by step becomes a Dafny `class` whose methods have loops with invariants. Those methods are proved against specification functions, and lemmas state what the specification functions promise.
- Pure case analyses become functions.

The modules are:

| module | file | models |
|---|---|---|
| `QedArray` | qedarray.dfy | `QEDArray_`, `InsertLevel`, the specification `Grow` and its lemmas |
| `Scheduler` | scheduler.dfy | `post_`, `executeEvents_` |
| `QedArrayDemo` | demo.dfy | the demo initialiser and the two demo calls |
| `QedArrayRect` | rectinit.dfy | `src/qedarray.js` |
| `Value` | value.dfy | `src/value.cpp`, the value-array buffer |
| `Memory` | memory.dfy | `GROW_CAPACITY` |
| `Chunk` | chunk.dfy | `src/chunk.cpp`, the opcode layout of `src/chunk.hpp` |
| `Scanners` | scanner.dfy | `src/scanner.cpp` |
| `Parsers` | parser.dfy | `src/parser.cpp` and the rule table of `src/scanner.hpp` |
| `Resolvers` | resolver.dfy | binary and logical typing of `src/resolver.cpp` |
| `Compilers` | compiler.dfy | `src/compiler.cpp` |
| `Callables` | callable.dfy | `ObjCallable::addUpvalue` |
| `CodeGen` | codegen.dfy | the emitters of `src/codegen.cpp` |
| `Jumps` | jumps.dfy | where each emitted jump lands when the interpreter decodes it |
| `Literals` | literals.dfy | which constants each emitted expression adds |
| `Objects` | object.dfy | `IndexList` and the jump-operand decode of `src/object.cpp` |
| `CoThreads` | cothread.dfy | `CoThread` stack, `captureUpvalue`, `closeUpvalues` |
| `AttrSets` | attrset.dfy | `ctz0`, `ctz`, `getLargestDim`, `getSizerType` |
| `Sizers` | sizer.dfy | `Sizer::findIndex`, `Sizer::put`, `Adder`/`Maxer::process` |
| `Paths` | path.dfy | `Path` |
| `ValueStacks` | valuestack.dfy | `ValueStack<T>` |

## Model

| member | source | states |
|---|---|---|
| QedArray.ShiftUp | qedarray.js:186-194 | copying slot k to k + size for k from dims - 1 down to pos leaves exactly the old slots shifted: the result equals `Shifted` of the old contents, so no slot is overwritten before it is copied |
| QedArray.ShiftedSlots | qedarray.js:232-240 | after the shift at the last axis the slots below pos are untouched and every slot from pos + size on holds the old slot size places lower; with size 0 nothing moves |
| QedArray.SplicedSlots | qedarray.js:186-194 | after the shift the array is the old prefix [0, pos), the block, then the old suffix [pos, dims); with size 0 nothing moves |
| QedArray.QEDArray.constructor | qedarray.js:133-136 | the array keeps its Init callback and starts with no axes and no slots |
| QedArray.QEDArray.Size | qedarray.js:137-147 | the intended size(): the loop from the last axis down yields the product of all extents |
| QedArray.QEDArray.SizeAsWritten | qedarray.js:140 | size() as written always fails: `dims.size()` is not a method of a JavaScript array |
| QedArray.QEDArray.InitArray | qedarray.js:148-154 | dims becomes `size` and the slots are what an insertion of `size` at the origin into an all-zero array produces, with the Init cursors in call order |
| QedArray.QEDArray.Insert | qedarray.js:155-170 | newSize[d] = dims[d] + size[d] on every axis; the array stays rectangular; slots and Init calls are those of the specification `Grow`; dims becomes newSize only after InsertLevel; with no axes nothing changes |
| QedArray.QEDArray.InsertLevel | qedarray.js:171-264 | the in-place walk of one axis (prefix recursion, descending shift, fresh block subtrees, suffix recursion, or the Init loop at the last axis) produces exactly `Grow` of that level, and leaves the cursor entries of the outer axes as it found them |
| QedArray.QEDArray.InnerLevel | qedarray.js:173-229 | at an inner axis the grown slot array and the calls equal the specification's walk over all newSize[level] slots |
| QedArray.QEDArray.ShiftAndFill | qedarray.js:185-222 | after the prefix loop, the descending shift followed by the block and suffix loops completes the specification's walk |
| QedArray.QEDArray.BlockAndSuffix | qedarray.js:195-222 | once the suffix has been shifted, the block loop (fresh `[]` subtrees grown from zero extents) and the suffix loop complete the walk |
| QedArray.QEDArray.GrowSlots | qedarray.js:177-183 | a posted loop over slots [lo, hi) that recurses into each old slot extends the specification's walk from lo to hi and touches no later slot |
| QedArray.QEDArray.GrowSlotAt | qedarray.js:180-183 | one recursive step at slot k replaces slot k by the specification's subtree for k, returns its calls, leaves every other slot and the outer cursor entries unchanged |
| QedArray.QEDArray.InitLeaves | qedarray.js:230-257 | at the last axis the slots become old prefix, one Init value per new position of the block, old suffix; Init receives the cursors (outer entries, pos), ..., (outer entries, pos + size - 1) in that order |
| QedArray.GrowShape | qedarray.js:171-264 | after InsertLevel every node at depth d has newSize[d] children: the result is rectangular with the new extents |
| QedArray.GrowRangeAt | qedarray.js:177-222 | the walk over the first hi slots yields hi slots, each the specification's subtree for its index |
| QedArray.GrowCells | qedarray.js:177-253 | value preservation and exact initialisation: a new coordinate j holds init(j) when it lies in the inserted range on at least one axis (a cross, not only the box), and otherwise holds the old value at the coordinate obtained by subtracting size on every axis where j is past the block |
| QedArray.GrowKeepsOld | qedarray.js:177-253 | the converse of GrowCells: every old cell i inside the old extents is found after the insertion at Shift(i), its coordinate moved up by size on every axis where it is at or past pos |
| QedArray.GrowCellsInner | qedarray.js:177-216 | the same statement at an inner axis: prefix, block and suffix slots each hold what the cross rule says |
| QedArray.GrowCellsLast | qedarray.js:232-253 | the same statement at the last axis: new leaves hold init of their cursor, shifted leaves hold their old values |
| QedArray.GrowCallsSound | qedarray.js:195-204 | Init is called only with cursors that are new coordinates in the cross of the inserted ranges |
| QedArray.GrowRangeCallsSound | qedarray.js:177-222 | the walk over the first hi slots calls Init only with cross coordinates whose entry at this axis is below hi |
| QedArray.GrowCallsComplete | qedarray.js:241-253 | every new coordinate in the cross is passed to Init |
| QedArray.GrowRangeCallsIncl | qedarray.js:177-222 | the calls made for slot k are among the calls of any walk over more than k slots |
| QedArray.GrowCallsAscending | qedarray.js:175-253 | Init calls come in strictly ascending row-major order of the cursor, hence no cursor is passed twice |
| QedArray.GrowRangeCallsAscending | qedarray.js:175-220 | the walk over the first hi slots calls Init in strictly ascending order: prefix, block, then suffix |
| QedArray.AscendingConcat | qedarray.js:175-220 | two ascending call sequences whose every element of the first precedes every element of the second concatenate to an ascending sequence |
| QedArray.GrowCallsCount | qedarray.js:195-204 | Init is called prod(newSize) - prod(dims) times |
| QedArray.GrowRangeCallsCount | qedarray.js:177-222 | the walk over the first hi slots makes one full subtree's worth of calls per block slot and the growth of each old subtree per other slot |
| QedArray.ProdMonotone | qedarray.js:156-163 | the product of the new extents is at least the product of the old ones, so the count above is a natural number |
| QedArray.GrowNoOp | qedarray.js:186 | with size all zero InsertLevel leaves the slots unchanged and calls Init never |
| QedArray.GrowRangeNoOp | qedarray.js:232-243 | with size all zero the walk over the first hi slots returns the first hi old slots and no calls |
| Scheduler.EventLoop.constructor | qedarray.js:5 | the slot `postHandler` starts empty and nothing has been logged |
| Scheduler.EventLoop.Post | qedarray.js:36-41 | post_ logs once when a continuation is already pending and then overwrites the slot with the new one |
| Scheduler.EventLoop.RunTask | qedarray.js:36-41 | running a continuation leaves in the slot the last continuation it posted (or what was pending before if it posted none), with one log line per overwrite |
| Scheduler.EventLoop.RunNext | qedarray.js:43-47 | one turn of executeEvents_ clears the slot before running what it held |
| Scheduler.EventLoop.ExecuteEvents | qedarray.js:42-51 | executeEvents_ ends with the slot empty, having run exactly the chain `DrainSlot` of continuations |
| Scheduler.DrainStep | qedarray.js:42-48 | draining from a continuation is that continuation followed by the drain of whatever it left in the slot |
| Scheduler.DrainChain | qedarray.js:42-48 | the continuations run form a chain: each one after the first is the last continuation its predecessor posted, and the last one posts nothing |
| Scheduler.SinglePostsNeverLog | qedarray.js:36-41 | when no continuation posts more than once, as in every loop of InsertLevel, post_ never logs |
| Scheduler.TotalAppend | qedarray.js:36-41 | the log count of a trace grows by the overwrites of each continuation appended to it |
| Scheduler.Steps | qedarray.js:177-183 | the trace of a posted loop from counter k to n is the n - k + 1 steps k, k + 1, ..., n |
| Scheduler.LoopDrain | qedarray.js:177-183 | a loop that posts its own continuation for k + 1 while k < n runs every step once in order and never logs |
| QedArrayDemo.DemoLeaves | qedarray.js:344-351 | the demo Init stores (pos[0] + 1) * (pos[1] + 1) at each new leaf of a row |
| QedArrayDemo.DemoInitArray | qedarray.js:352 | `InitArray([2, 3])` yields [[1, 2, 3], [2, 4, 6]] |
| QedArrayDemo.DemoPrefixRow | qedarray.js:353 | after `Insert([1, 1], [3, 2])` row 0 is [1, 2, 3, 2, 3] |
| QedArrayDemo.DemoBlockRow | qedarray.js:353 | after the same insertion each row r from 1 to 3 is new and holds (r + 1) * (c + 1) in columns c = 0..4 |
| QedArrayDemo.DemoSuffixRow | qedarray.js:353 | after the same insertion row 4 is the old row 1 with the block spliced in: [2, 10, 15, 4, 6] |
| QedArrayDemo.DemoInsert | qedarray.js:353 | the insertion yields rows [1,2,3,2,3], [2,4,6,8,10], [3,6,9,12,15], [4,8,12,16,20], [2,10,15,4,6] |
| QedArrayDemo.RunDemo | qedarray.js:344-353 | running the class on the demo yields those two arrays in turn |
| QedArrayRect.QEDArray.constructor | src/qedarray.js:16-20 | the constructor stores dims and fn and sets the array to the recursive build from index 0, calling fn prod(dims) times |
| QedArrayRect.QEDArray.InitArrayIndex | src/qedarray.js:2-13 | initArrayIndex(index) returns the build of the remaining axes and calls fn exactly prod(dims[index..]) times, zero times when an extent is 0 |
| QedArrayRect.BuildShape | src/qedarray.js:2-12 | the result from index has dims[index] entries per node on every remaining axis and a value of fn at depth dims.length |
| QedArrayRect.BuildAt | src/qedarray.js:6-12 | the leaf at coordinate j holds fn of its row-major rank: leaves are filled in row-major order |
| QedArrayRect.OffsetBound | src/qedarray.js:6-7 | the row-major rank of an in-range coordinate is below prod(dims) |
| QedArrayRect.OffsetInjective | src/qedarray.js:6-7 | distinct in-range coordinates have distinct ranks, so every call of fn fills a different leaf |
| QedArrayRect.ProdZero | src/qedarray.js:6 | an extent of 0 makes the product, and so the number of fn calls, 0 |
| QedArrayRect.Sample | src/qedarray.js:24 | `new QEDArray([3, 2], () => "Martin")` is a 3 by 2 grid of "Martin" |
| Memory.GrowCapacity | src/memory.h:29-30 | GROW_CAPACITY always exceeds the old capacity, is at least 8, and doubles any capacity of 8 or more |
| Memory.CapacityAfterBounds | src/memory.h:29-30 | after n appends to an empty buffer the capacity is 0 for n = 0 and otherwise 8 * 2^k, holds all n elements, and is 8 or less than 2n |
| Memory.Reallocate | src/memory.h:32-33 | RESIZE_ARRAY yields storage of the new size whose first oldCount slots hold the old contents |
| Value.TypeEqualsEquivalence | src/value.cpp:24-26 | Type::equals is reflexive, symmetric and transitive; it compares value types, and object types only when the value type is VAL_OBJ |
| Value.MemcmpSpec | src/value.cpp:42-56 | over bytes both strings have, memcmp is 0 exactly when they agree, and swapping the operands flips its sign |
| Value.PrefixComparesEqual | src/value.cpp:51-52 | with the length check commented out, valuesCompare finds a string equal to every string that extends it |
| Value.LongerFirstOperand | src/value.cpp:51-52 | a first operand longer than the second is compared with the second's terminating NUL: valuesCompare("ab", "a") is positive |
| Value.ValueArray.constructor | src/value.cpp:58-62 | a new array has count and capacity 0 and no storage |
| Value.ValueArray.Init | src/value.cpp:58-62 | initValueArray leaves count = capacity = 0, no storage and no contents |
| Value.ValueArray.Write | src/value.cpp:64-73 | writeValueArray appends exactly the value, keeps the earlier values, increments count, grows capacity by GROW_CAPACITY only when the array was full, and keeps count <= capacity |
| Value.ValueArray.Free | src/value.cpp:75-78 | freeValueArray leaves count = capacity = 0, no storage and no contents |
| Value.WriteAll | src/value.cpp:64-73 | writing n values into a fresh array keeps them all in order and leaves the capacity the growth policy gives for n appends |
| Chunk.FloatTwin | src/chunk.hpp:47-60 | adding OP_ADD_FLOAT - OP_ADD_INT to an int arithmetic or comparison opcode yields a float opcode |
| Chunk.FloatShiftMapsTwins | src/chunk.hpp:47-60 | the shift is 7 and maps OP_EQUAL_INT, OP_GREATER_INT, OP_LESS_INT, OP_ADD_INT, OP_SUBTRACT_INT, OP_MULTIPLY_INT and OP_DIVIDE_INT each to its float twin, and every float opcode of that block comes from its int twin |
| Chunk.Chunk.constructor | src/chunk.cpp:22-28 | a new chunk has count = capacity = 0, no buffers and an empty constant array |
| Chunk.Chunk.Init | src/chunk.cpp:22-28 | init leaves count = capacity = 0, null buffers and an empty constant array |
| Chunk.Chunk.Uninit | src/chunk.cpp:30-34 | uninit frees the constant array, leaving it empty with capacity 0 |
| Chunk.Chunk.Reset | src/chunk.cpp:36-39 | reset leaves an empty chunk: no bytes, no lines, no constants |
| Chunk.Chunk.WriteChunk | src/chunk.cpp:41-52 | writeChunk appends the byte to the code and the line to the lines, keeps every earlier entry, increments count, and grows capacity by GROW_CAPACITY only when full, so count <= capacity holds |
| Chunk.Chunk.AddConstant | src/chunk.cpp:54-59 | addConstant returns the previous constant count and stores the value at that index, changing nothing else in the chunk |
| Callables.FirstMatch | src/object.cpp:50-55 | the search returns the lowest slot naming (index, isLocal), or -1 when no slot does |
| Callables.AddResult | src/object.cpp:49-67 | the returned slot names (index, isLocal) unless the error was reported; the table only grows, by at most one entry, stays within 256 entries and keeps its entries distinct; the error comes with slot 0 on a full table |
| Callables.AddTwice | src/object.cpp:50-55 | adding the same variable again returns the slot the first add gave and leaves the table unchanged |
| Callables.Callable.constructor | src/object.cpp:49-67 | a new callable has no upvalues |
| Callables.Callable.AddUpvalue | src/object.cpp:49-67 | addUpvalue's loop and append leave the table, slot and error that `AfterAdd` describes |
| Compilers.LastMatch | src/compiler.cpp:143-152 | the backward scan returns the highest slot below n whose non-empty name matches, or -1 when no slot matches |
| Compilers.LastMatchPrefix | src/compiler.cpp:143-152 | locals pushed above the scanned range do not change what the scan finds there |
| Compilers.ResolveAfterPush | src/compiler.cpp:110-118 | a local pushed with a name hides every earlier local of that name; a temporary pushed with the empty name changes no resolution |
| Compilers.EmptyNeverResolves | src/parser.cpp:576-578 | the empty name never matches, so it resolves to -1 |
| Compilers.Compiler.constructor | src/compiler.cpp:31-41 | slot 0 holds the function object at depth 0, scopeDepth is 0, there are no upvalues, and the prefix is "qni" at top level, otherwise the enclosing prefix followed by "_" and the enclosing function's name |
| Compilers.Compiler.BeginScope | src/compiler.cpp:83-85 | beginScope increments scopeDepth and changes nothing else |
| Compilers.Compiler.EndScope | src/compiler.cpp:87-98 | endScope decrements scopeDepth, pops exactly the trailing locals deeper than the new depth, and returns how many it popped |
| Compilers.Compiler.AddLocal | src/compiler.cpp:104-118 | at 256 locals addLocal reports "Too many local variables in function." and leaves the locals unchanged; otherwise it appends one local with depth scopeDepth, an empty name and isCaptured false |
| Compilers.Compiler.RemoveLocal | src/compiler.cpp:120-122 | removeLocal pops the top local and returns its type |
| Compilers.Compiler.PeekLocal | src/compiler.cpp:124-126 | peekLocal(i) is the local i places below the top |
| Compilers.Compiler.SetLocalName | src/compiler.cpp:128-130 | setLocalName changes only the name of the top local |
| Compilers.Compiler.SetLocalObjType | src/compiler.cpp:132-133 | setLocalObjType changes only the object type of the top local |
| Compilers.Compiler.ResolveLocal | src/compiler.cpp:143-152 | resolveLocal returns the innermost local of that name, or -1 |
| Compilers.Compiler.MarkCaptured | src/compiler.cpp:159 | marking a local captured changes only its isCaptured flag |
| Compilers.Compiler.ResolveUpvalue | src/compiler.cpp:154-170 | the result is -1 exactly when no enclosing function has the name in scope; a local of the enclosing function is marked captured and added with isLocal set; otherwise the enclosing function's upvalue is added with isLocal clear; errors reported on the way are kept in order |
| Compilers.Compiler.CaptureLocal | src/compiler.cpp:156-161 | the enclosing local is marked captured and added to this function's upvalues as a local |
| Compilers.Compiler.CaptureOuter | src/compiler.cpp:163-166 | the name resolved as an upvalue of the enclosing function is added to this function's upvalues as a non-local, or -1 is returned with nothing changed |
| Compilers.Compiler.AddUpvalue | src/compiler.cpp:172-174 | the compiler's addUpvalue is its function's addUpvalue |
| Resolvers.NegatedComparisons | src/resolver.cpp:333-365 | `!=`, `>=` and `<=` get the opcode of `==`, `<` and `>` with notFlag set; no other operator sets notFlag |
| Resolvers.ArithOperandsAgree | src/resolver.cpp:430-469 | with a numeric first operand the resolver reports no error exactly when the second is numeric too; then both operands reach an int opcode as ints or a float opcode as floats after their conversions, and the result is bool for comparisons, else int or float as the opcode says |
| Resolvers.PromotionSymmetric | src/resolver.cpp:436-469 | int op float wraps the left operand in OP_INT_TO_FLOAT and float op int wraps the right one; both give the same float opcode and result |
| Resolvers.StringOperands | src/resolver.cpp:405-427 | a string first operand with `+` gives OP_ADD_STRING and a string result, converting the second operand to a string and reporting an error only for void; a comparison gives bool and reports an error unless the second operand is a string |
| Resolvers.NonNumericFirst | src/resolver.cpp:471-474 | a first operand that is neither numeric nor usable as a string reports "First operand must be numeric" and pushes its own type |
| Resolvers.UncheckedOperators | src/resolver.cpp:483-494 | bitwise or, bitwise and and the three shifts give int, and logical or and logical and give bool, with no check of the operands |
| Resolvers.ResolveLogical | src/resolver.cpp:950-962 | a logical expression always gives bool and reports an error unless both operands are bool |
| Resolvers.VisitBinary | src/resolver.cpp:297-495 | visitBinaryExpr pops the two operand types and pushes the result type `ResolveBinary` decides, if any |
| Resolvers.VisitLogical | src/resolver.cpp:950-962 | visitLogicalExpr pops two operand types and pushes bool |
| Resolvers.ScopeStart | src/resolver.cpp:1119-1124 | the scan covers exactly the locals above the first one, from the top, declared in a shallower block |
| Resolvers.CheckDeclaration | src/resolver.cpp:1117-1129 | checkDeclaration reports "Already a variable with this name in this scope." exactly when a local of the current block has that name, and reports nothing else |
| Scanners.AlphaExactly | src/scanner.cpp:22-26 | isAlpha's case folding (`c & ~0x20`) accepts exactly the ASCII letters and the underscore |
| Scanners.HexLetterExactly | src/scanner.cpp:32-35 | isHexLetter accepts exactly a to f and A to F |
| Scanners.FindsKeywordsAToF | src/scanner.cpp:322-336 | identifierType finds `as`, `def`, `else`, `false`, and gives TOKEN_TYPE_LITERAL for `bool` and `float` |
| Scanners.FindsKeywordsFToM | src/scanner.cpp:328-345 | identifierType finds `for`, `fun`, `if`, `import`, `mod`, and gives TOKEN_TYPE_LITERAL for `int` |
| Scanners.FindsKeywordsNToS | src/scanner.cpp:346-356 | identifierType finds `new`, `package`, `print`, `return`, `super`, and gives TOKEN_TYPE_LITERAL for `String` |
| Scanners.FindsKeywordsTToW | src/scanner.cpp:357-378 | identifierType finds `this`, `true`, `val`, `while`, and gives TOKEN_TYPE_LITERAL for `var` and `void` |
| Scanners.KeywordCases | src/scanner.cpp:322-382 | the keyword table holds exactly the reserved words the trie checks |
| Scanners.TrieSound | src/scanner.cpp:318-382 | whenever identifierType does not give TOKEN_IDENTIFIER, the whole lexeme is the keyword of that type: a prefix or an extension of a keyword is never taken for it |
| Scanners.TrieComplete | src/scanner.cpp:318-382 | every keyword lexeme is recognised with its own type |
| Scanners.IdentifierTypeIsKeyword | src/scanner.cpp:318-382 | identifierType is the keyword table's entry for a whole lexeme and TOKEN_IDENTIFIER for any other word |
| Scanners.SoundABDE | src/scanner.cpp:324-327 | the trie branches for a, b, d and e recognise only whole keywords |
| Scanners.SoundF | src/scanner.cpp:328-336 | the trie branch for f recognises only whole keywords |
| Scanners.SoundIP | src/scanner.cpp:337-353 | the trie branches for i and p recognise only whole keywords |
| Scanners.SoundMNRS | src/scanner.cpp:345-356 | the trie branches for m, n, r, S and s recognise only whole keywords |
| Scanners.SoundTVW | src/scanner.cpp:357-378 | the trie branches for t, v and w recognise only whole keywords |
| Scanners.OperatorAtSlice | src/scanner.cpp:129-177 | the operator read at a position of the source is the operator of the lexeme cut out there |
| Scanners.WordTypes | src/scanner.cpp:384-388 | identifierType never gives TOKEN_ERROR or TOKEN_EOF |
| Scanners.OperatorTypes | src/scanner.cpp:95-177 | no operator is TOKEN_ERROR or TOKEN_EOF |
| Scanners.DecimalLexeme | src/scanner.cpp:390-408 | a run of decimal digits is an integer lexeme |
| Scanners.HexLexeme | src/scanner.cpp:391-396 | `0x` followed by hexadecimal digits is an integer lexeme that is not all decimal |
| Scanners.FractionLexeme | src/scanner.cpp:399-405 | digits, a point and at least one digit form a float lexeme |
| Scanners.EqualIsText | src/scanner.cpp:53-55 | Token::equal holds exactly when the token's text is the string |
| Scanners.Scanner.constructor | src/scanner.cpp:71-75 | a new scanner starts at the first character, on line 1 |
| Scanners.Scanner.Advance | src/scanner.cpp:211-213 | advance returns the current character and moves past it |
| Scanners.Scanner.Match | src/scanner.cpp:224-228 | match consumes the next character exactly when it is the expected one and the input has not ended |
| Scanners.Scanner.MakeToken | src/scanner.cpp:230-237 | a token's text is the lexeme from start to current, so its length is current - start |
| Scanners.Scanner.SkipRecursiveComment | src/scanner.cpp:282-316 | a block comment is skipped to the `*/` that closes it, nested comments whole, counting its newlines; it fails only at the end of the input |
| Scanners.Scanner.SkipWhitespace | src/scanner.cpp:248-280 | blanks, line comments (up to their newline) and block comments are skipped; only block comments count lines; on success the next character starts neither, and it fails only at the end of the input inside a comment |
| Scanners.Scanner.ScanIdentifier | src/scanner.cpp:384-388 | an identifier runs over all following letters, digits and underscores and gets the type identifierType gives the whole lexeme |
| Scanners.Scanner.Digits | src/scanner.cpp:396 | the digit loop consumes exactly the maximal run of digits, with hexadecimal letters when scanning hex |
| Scanners.Scanner.Fraction | src/scanner.cpp:399-405 | a point followed by a digit is consumed with the maximal run of digits after it |
| Scanners.Scanner.Number | src/scanner.cpp:390-409 | `0x` and hex digits, or decimal digits, give TOKEN_INT; a point is consumed only when a digit follows it, giving TOKEN_FLOAT; each number stops at the first character that cannot extend it |
| Scanners.Scanner.ScanString | src/scanner.cpp:411-422 | a string lexeme spans both quotes and counts every newline inside; end of input first gives "Unterminated string." |
| Scanners.Scanner.Dollar | src/scanner.cpp:182-191 | `$` and the letters after it give TOKEN_INSERT when they spell `$EXPR`, else "Unexpected character." |
| Scanners.Scanner.ScanSeparator | src/scanner.cpp:193-201 | a run of newlines and semicolons, with blanks and comments between, is one TOKEN_SEPARATOR; without block comments in it only a first newline counts a line; an unclosed comment gives "Unclosed comment" |
| Scanners.Scanner.PairOperator | src/scanner.cpp:135-168 | `/`, `*`, `!`, `=`, `^`, `:` give the longest operator at the start |
| Scanners.Scanner.SignOperator | src/scanner.cpp:129-133 | `-` and `+` give the longest operator: `-=`, `--`, `->`, `-`, `+=`, `++`, `+` |
| Scanners.Scanner.LogicOperator | src/scanner.cpp:170-174 | the and and or characters give the longest operator of their family (`&=`, `&&`, `&` and the or forms) |
| Scanners.Scanner.LessOperator | src/scanner.cpp:147-154 | `<` gives the longest of `<=`, `<<=`, `<<`, `<` |
| Scanners.Scanner.GreaterOperator | src/scanner.cpp:156-165 | `>` gives the longest of `>=`, `>>>`, `>>=`, `>>`, `>` |
| Scanners.Scanner.Punctuation | src/scanner.cpp:95-177 | single-character punctuation and every operator give the longest operator at the start; other characters fall through |
| Scanners.Scanner.ScanLexeme | src/scanner.cpp:90-204 | by its first character a token is a word typed by identifierType, a number, a string, `$EXPR`, a separator or the longest operator, or one of the three error messages |
| Scanners.Scanner.ScanToken | src/scanner.cpp:83-205 | scanToken: an unclosed comment is an error; at the end of input it gives TOKEN_EOF with an empty lexeme; any other token consumes input and its text is its lexeme, classified as ScanLexeme says |
| Parsers.Rule | src/scanner.hpp:23-99 | the active rule table (expanded by parser.cpp's KEYS_DEF) gives every token a precedence from PREC_NONE up to, but not including, PREC_PRIMARY |
| Parsers.NullInfixCalled | src/parser.cpp:567-570 | `+=`, `%` and `^` have a precedence the infix loop accepts but no infix handler, so the loop as written calls a null handler on them |
| Parsers.AppliesDiffersOnNullInfix | src/parser.cpp:567-570 | the loop test as written and the corrected one (which also demands an infix handler) disagree exactly on tokens without a handler whose precedence reaches the level |
| Parsers.BinaryLeftAssociative | src/parser.cpp:224-250 | after a binary operator its right operand is parsed one level higher, so no operator of the same or a lower level is taken into it |
| Parsers.AssignmentRightAssociative | src/parser.cpp:197-222 | `=` and `?` parse their right side at their own level, so they group to the right |
| Parsers.OperatorLevels | src/parser.hpp:24-42 | the precedence order assignment below ternary below logical or, logical and, bitwise or, xor, bitwise and, equality, comparison, shift, term, factor, call, member |
| Parsers.Closing | src/parser.cpp:389-413 | each opening bracket is paired with a closing token that starts and continues nothing and is not end of input |
| Parsers.GroupingOpeners | src/parser.cpp:389-413 | only `(`, `[` and `{` have the grouping prefix rule |
| Parsers.ElseHiddenAtTopLevel | src/parser.cpp:121-128 | check over a terminator list stops at its first TOKEN_EOF, so the list {separator, EOF, else, EOF} never matches `else` though `else` is in it |
| Parsers.ListedWithoutInnerEof | src/parser.cpp:121-128 | when EOF appears only at the end of the list, stopping at the first EOF and searching the whole list agree |
| Parsers.DigitRun | src/parser.cpp:519-523 | strtol's digit run is the longest prefix of digits valid in the base |
| Parsers.IntNumber | src/parser.cpp:519-523 | intNumber reads base 16 when the second character is `x`, else base 10, and its value lies between 0 and LONG_MAX |
| Parsers.AllDigitsRun | src/parser.cpp:519-523 | a lexeme made only of valid digits is read to its end |
| Parsers.DecimalValue | src/parser.cpp:519-523 | a decimal literal has its positional value, clamped to LONG_MAX |
| Parsers.HexValue | src/parser.cpp:519-523 | a `0x` literal has the positional base-16 value of the digits after `0x`, clamped to LONG_MAX |
| Parsers.LeadingZero | src/parser.cpp:519-523 | a leading zero does not change a numeral's value |
| Parsers.DecimalExample | src/parser.cpp:519-523 | `42` reads as 42 |
| Parsers.HexExample | src/parser.cpp:519-523 | `0x1f` reads as 31 |
| Parsers.IntNumberSaturates | src/parser.cpp:519-523 | a decimal literal of 20 or more digits without a leading zero saturates at LONG_MAX |
| Parsers.NumeralAtLeastFirst | src/parser.cpp:519-523 | a numeral is at least its first digit times the base to the power of the remaining length |
| Parsers.PowerProduct | src/parser.cpp:519-523 | base^(m+n) equals base^m times base^n, the step used for saturation |
| Parsers.Literal | src/parser.cpp:352-366 | `true` and `false` give the boolean literal of that value |
| Parsers.PrimitiveType | src/parser.cpp:372-387 | a type keyword gives a variable expression with a type code from 0 to 5, chosen by its first letter among v, b, i, f, S; any other lexeme gives none |
| Parsers.TypeCode | src/parser.cpp:372-387 | each value type has a code from 0 to 4 |
| Parsers.PrimitiveTypeCodes | src/parser.cpp:372-387 | var is 5, void 0, bool 1, int 2, float 3, String 4 |
| Parsers.LiteralType | src/parser.cpp:649-663 | readType gives the String object type exactly for a lexeme starting with `S` and a primitive type otherwise |
| Parsers.StringContents | src/parser.cpp:525-527 | a string literal's value is its lexeme without the first and last characters |
| Parsers.StringContentsUnquoted | src/parser.cpp:525-527 | for a scanned string lexeme, re-quoting the contents gives the lexeme back and the contents hold no quote |
| Parsers.NewOperand | src/parser.cpp:537-551 | `new` before a call not yet marked sets its new flag and reports nothing; before a marked call it reports 'Use new once'; before anything else it reports 'Cannot use new before non-callable' and keeps the operand |
| Parsers.NewOperandAsWritten | src/parser.cpp:537-551 | as written, a missing operand after `new` is dereferenced; any other operand is handled as NewOperand says |
| Parsers.NewWithoutOperand | src/parser.cpp:537-551 | `new` followed by end of input reaches that null dereference, and the corrected version reports an error instead |
| Parsers.TernaryNodeAsWritten | src/parser.cpp:281-300 | the ternary node keeps its operator and condition |
| Parsers.TernaryNode | src/parser.cpp:281-300 | the ternary node keeps its operator and condition |
| Parsers.TernaryBranches | src/parser.cpp:281-300 | the node as written takes the false branch where the true one belongs; the corrected node takes `a` when true and `b` when false |
| Parsers.GroupResult | src/parser.cpp:494-510 | a parenthesised group whose single item is an expression statement unwraps to that expression; otherwise it is a grouping node with the same name, directive and item count, earlier items unchanged |
| Parsers.Parser.constructor | src/parser.cpp:88-93 | a parser starts at scope depth -1 with no statement flags and no tree, having read its first token |
| Parsers.Parser.ErrorAt | src/parser.cpp:160-167 | outside panic mode an error is recorded at the token and panic mode starts; in panic mode nothing is recorded |
| Parsers.Parser.Scan | src/parser.cpp:95-106 | one scanner step never moves back, moves forward unless it gives EOF, and gives EOF exactly at the end of the source |
| Parsers.Parser.Advance | src/parser.cpp:95-106 | advance makes the current token the previous one and skips error tokens, recording each as an error; after EOF it stays at EOF |
| Parsers.Parser.CheckAnyAsWritten | src/parser.cpp:121-128 | check over a list answers whether the current token appears before the list's first EOF |
| Parsers.Parser.CheckAny | src/parser.cpp:121-128 | check over a list ending in EOF answers whether the current token appears in the list |
| Parsers.Parser.Match | src/parser.cpp:130-135 | match consumes the current token exactly when it has the given type, and otherwise changes nothing |
| Parsers.Parser.Consume | src/parser.cpp:108-115 | consume takes a token of the expected type, and otherwise reports the message at the current token |
| Parsers.Parser.PassSeparator | src/parser.cpp:193-195 | passSeparator consumes one separator if there is one, and otherwise changes nothing |
| Parsers.Parser.ErrorAtPrevious | src/parser.cpp:150-153 | error reports at the previous token, keeping the error log's earlier entries |
| Parsers.Parser.Synchronize | src/parser.cpp:823-845 | synchronize skips tokens until a separator was passed or a statement keyword or EOF is next, and stops at the first such point |
| Parsers.Parser.ParsePrecedence | src/parser.cpp:557-574 | a token without a prefix rule gives no expression; otherwise the loop stops at the first token whose rule does not apply at the level |
| Parsers.Parser.Operand | src/parser.cpp:557-574 | a parsed operand leaves no operator of its level or higher unconsumed |
| Parsers.Parser.Binary | src/parser.cpp:224-250 | binary builds a node with the left operand and the operator, a missing right operand is an error, and the right operand stops before any operator not above the operator's level |
| Parsers.Parser.Assignment | src/parser.cpp:197-222 | assignment to a variable gives an assign node, to a property a set node, and to anything else reports 'Invalid assignment target' and keeps the left side |
| Parsers.Parser.Ternary | src/parser.cpp:281-300 | corrected: ternary builds TernaryNode on the operator and the condition with the operand parsed after `?` as the middle (taken when the condition holds) and the one after `:` as the alternative, reporting a missing true operand; as written the two operands are swapped, so the middle is the false branch and is never checked |
| Parsers.Parser.Dot | src/parser.cpp:302-306 | dot builds a property access on the left expression, its name an identifier unless an error was reported |
| Parsers.Parser.Call | src/parser.cpp:308-334 | call builds an unmarked call on the callee; `()` has no arguments, and the 8-bit argument count keeps the count modulo 256 after reporting 'Cannot have more than 255 arguments' |
| Parsers.Parser.Handler | src/parser.cpp:328-331 | without `->` after the arguments there is no handler and nothing is consumed |
| Parsers.Parser.Arguments | src/parser.cpp:314-324 | the argument list holds the count of parsed arguments modulo 256, with an error beyond 255 |
| Parsers.Parser.Unary | src/parser.cpp:533-555 | corrected: an operator other than `new` gives a unary node on it; `new` either marks a call or reports an error, including when no operand follows, where the source as written dereferences the NULL it gets at end of input |
| Parsers.Parser.Item | src/parser.cpp:595-602 | one list item consumes input, and a missing item reports 'Expect expression' |
| Parsers.Parser.Expression | src/parser.cpp:595-619 | corrected: expression is a single item or a list node of all items, reports every missing item, and stops at any listed terminator or EOF; as written the terminator test stops at the list's first EOF, so a top-level `else` does not end the list |
| Parsers.Parser.DeclareVariable | src/parser.cpp:580-586 | a declaration node of the read type and the previous name, with an initializer only after `=` |
| Parsers.Parser.ReadType | src/parser.cpp:649-663 | a type literal gives its type; otherwise the type is named by the identifier consumed, or 'Expect type.' is reported |
| Parsers.Parser.ParseVariable | src/parser.cpp:588-593 | a declaration whose name is an identifier unless an error was reported |
| Parsers.Parser.VarDeclaration | src/parser.cpp:675-682 | a declaration, with an error when it is followed by neither a separator nor the group end |
| Parsers.Parser.ExpressionStatement | src/parser.cpp:684-693 | a statement node that sets the current scope's statement flag, with an error when followed by neither a separator, `else` nor the group end |
| Parsers.Parser.PrintStatement | src/parser.cpp:781-789 | a print node, with an error when followed by neither a separator nor the group end |
| Parsers.Parser.IfStatement | src/parser.cpp:736-750 | a ternary node on the `if` token |
| Parsers.Parser.WhileStatement | src/parser.cpp:752-763 | a binary node on the `while` token |
| Parsers.Parser.ForStatement | src/parser.cpp:695-734 | a `for` becomes a while node, wrapped in a two-item brace group with the initializer first when there is one |
| Parsers.Parser.ForInitializer | src/parser.cpp:700-701 | a leading separator means no initializer |
| Parsers.Parser.ForClauses | src/parser.cpp:703-709 | an empty condition is the literal `true` |
| Parsers.Parser.Statement | src/parser.cpp:805-821 | a statement always consumes input |
| Parsers.Parser.Declaration | src/parser.cpp:765-779 | a declaration consumes input and panic mode is left on only after an error was recorded |
| Parsers.Parser.Attribute | src/parser.cpp:415-432 | an attribute node whose name is the token after the separator pass, an identifier or separator unless an error was reported |
| Parsers.Parser.Directive | src/parser.cpp:444-467 | a directive node linked to its previous sibling, holding only attributes and ending its child chain in a directive or nothing |
| Parsers.Parser.Attributes | src/parser.cpp:449-455 | the attribute loop gives only attributes, and none without a leading identifier |
| Parsers.Parser.Children | src/parser.cpp:457-464 | the child loop ends in a directive or nothing |
| Parsers.Parser.Grouping | src/parser.cpp:389-413 | grouping() is called only after `(`, `[` or `{`, and parsing the group keeps the parser valid and gives back no input |
| Parsers.Parser.GroupingUntil | src/parser.cpp:469-511 | grouping(end) gives GroupResult of its items and directive, unwrapping only in parentheses after a statement expression, and at top level reaches EOF unless an error was reported |
| Parsers.Parser.Declarations | src/parser.cpp:477-489 | the item loop stops at the end token, EOF, or a `<` inside brackets or braces, and each pass consumes input |
| Parsers.Parser.Parse | src/parser.cpp:171-191 | parse succeeds exactly when no error was recorded, and then the tree is a grouping and the input is consumed |
| CodeGen.Quotient256 | src/codegen.cpp:357-358 | n / 256 is the one q with 256q <= n < 256q + 256, the arithmetic shift `>> 8` on a C int |
| CodeGen.HighLowShifts | src/codegen.cpp:397-398 | the two operand bytes are `(n >> 8) & 0xff` and `n & 0xff` |
| CodeGen.ReadShort | src/object.cpp:369 | READ_SHORT stored in an int16_t reads a value from -32768 to 32767 |
| CodeGen.ShortRoundTrip | src/object.cpp:369 | writing a 16-bit signed value as two bytes the way patchJump and emitLoop do and reading it back with READ_SHORT gives the value |
| CodeGen.PlaceholderIsMinusOne | src/codegen.cpp:362-367 | emitJump's 0xff 0xff placeholder is the encoding of -1 |
| CodeGen.PatchPlaceholder | src/codegen.cpp:392-402 | overwriting a placeholder's two operand bytes with a value gives the jump to that value, the code around it unchanged |
| CodeGen.AfterErrorsConcat | src/parser.cpp:160-167 | error requests made in two batches leave the parser as if made in one |
| CodeGen.AfterErrorsReportsFirst | src/parser.cpp:160-167 | of several error requests only the first is reported, and only outside panic mode; hadError and panic mode follow |
| CodeGen.Chain | src/codegen.cpp:336-348 | code appended in two steps is the concatenation of both steps' code, constants and errors |
| CodeGen.ThenAssoc | src/codegen.cpp:336-348 | appending is associative |
| CodeGen.ThenNothing | src/codegen.cpp:336-348 | appending nothing changes nothing |
| CodeGen.Regroup | src/codegen.cpp:392-402 | errors added after a patch join the last part's errors |
| CodeGen.PatchStep | src/codegen.cpp:392-402 | patching the placeholder of an emitted jump turns it into the jump to the computed distance, adding 'Too much code to jump over' beyond 32767 |
| CodeGen.PatchClean | src/codegen.cpp:392-402 | the same, for a jump emitted without errors of its own |
| CodeGen.WhileAssembled | src/codegen.cpp:49-59 | the condition, the exit jump, the body, the backward loop and the patched exit, emitted in that order, make WhileCode |
| CodeGen.AndAssembled | src/codegen.cpp:237-246 | the left side, a jump-if-false, a pop, the right side and the patch make AndCode |
| CodeGen.OrAssembled | src/codegen.cpp:237-258 | the left side, a jump-if-false, a jump, the patched first jump, a pop, the right side and the patched second jump make OrCode |
| CodeGen.BinaryAssembled | src/codegen.cpp:62-75 | left operand, right operand, the opcode and an optional OP_NOT make BinaryCode |
| CodeGen.TernaryAssembled | src/codegen.cpp:289-304 | condition, pop-jump-if-false, the middle and the patch make TernaryCode |
| CodeGen.TernaryElseAssembled | src/codegen.cpp:289-304 | condition, pop-jump-if-false, the middle, a jump over the alternative, the alternative and both patches make TernaryElseCode |
| CodeGen.CodeGenerator.constructor | src/codegen.cpp:26-28 | a new generator writes to an empty chunk with no errors |
| CodeGen.CodeGenerator.ErrorWhen | src/codegen.cpp:357-358 | a conditional call to parser.error appends the message when the condition holds |
| CodeGen.CodeGenerator.EmitByte | src/codegen.cpp:341-343 | emitByte appends one byte |
| CodeGen.CodeGenerator.EmitBytes | src/codegen.cpp:345-348 | emitBytes appends the two bytes in order |
| CodeGen.CodeGenerator.EmitJump | src/codegen.cpp:362-367 | emitJump appends the opcode and the 0xff 0xff placeholder and returns the placeholder's offset |
| CodeGen.CodeGenerator.PatchJump | src/codegen.cpp:392-402 | patchJump writes the distance from the operand's end to the chunk's end into the placeholder, reporting 'Too much code to jump over' beyond 32767 |
| CodeGen.CodeGenerator.EmitLoop | src/codegen.cpp:350-360 | emitLoop appends OP_JUMP and the negated distance back to the loop start, reporting 'Loop body too large' beyond 32767 |
| CodeGen.CodeGenerator.MakeConstant | src/codegen.cpp:377-386 | the constant is always added; its index is returned, or 0 with 'Too many constants in one chunk' past 255 |
| CodeGen.CodeGenerator.EmitConstant | src/codegen.cpp:388-390 | OP_CONSTANT followed by the constant's index |
| CodeGen.CodeGenerator.Emit | src/codegen.cpp:30-330 | the visitor appends exactly the code, constants and errors Gen gives for the expression |
| CodeGen.CodeGenerator.EmitThenJump | src/codegen.cpp:237-238 | an operand followed by a jump placeholder, returning the placeholder's offset |
| CodeGen.CodeGenerator.EmitBinary | src/codegen.cpp:62-75 | visitBinaryExpr outside `while` appends GenBinary, with -1.0 as the missing right operand |
| CodeGen.CodeGenerator.EmitRight | src/codegen.cpp:67-70 | the right operand's code, or the constant -1.0 when it is missing, is appended and its literals join the constant table |
| CodeGen.CodeGenerator.EmitOperator | src/codegen.cpp:72-75 | the operator byte is appended, followed by OP_NOT exactly when the not-flag is set, and the constant table is untouched |
| CodeGen.CodeGenerator.EmitWhile | src/codegen.cpp:49-59 | the `while` form of visitBinaryExpr appends GenWhile |
| CodeGen.CodeGenerator.EmitWhileBody | src/codegen.cpp:50-56 | condition, exit placeholder and body, with the placeholder's offset |
| CodeGen.CodeGenerator.EmitAnd | src/codegen.cpp:237-246 | `&&` appends GenAnd |
| CodeGen.CodeGenerator.EmitPatched | src/codegen.cpp:243-244 | an operand followed by patchJump: the placeholder now holds the distance past the operand, with 'Too much code to jump over' added beyond 32767 |
| CodeGen.CodeGenerator.EmitAndLeft | src/codegen.cpp:237-243 | the left side, its jump-if-false placeholder and the pop |
| CodeGen.CodeGenerator.EmitOr | src/codegen.cpp:237-258 | logical or (`or`) appends GenOr |
| CodeGen.CodeGenerator.EmitOrJumps | src/codegen.cpp:237-254 | the left side, both placeholders with the first patched, and the pop |
| CodeGen.CodeGenerator.EmitTernary | src/codegen.cpp:289-304 | a ternary without alternative appends GenTernary |
| CodeGen.CodeGenerator.EmitTernaryHead | src/codegen.cpp:290-293 | condition, pop-jump-if-false placeholder and middle, with the placeholder's offset |
| CodeGen.CodeGenerator.EmitTernaryElse | src/codegen.cpp:289-304 | a ternary with alternative appends GenTernary |
| CodeGen.CodeGenerator.EmitTernaryMiddle | src/codegen.cpp:290-298 | condition, the patched first jump, the middle and the jump over the alternative |
| CodeGen.CodeGenerator.EmitGrouping | src/codegen.cpp:118-133 | a group's expressions in order, then one pop per level and, in parentheses, a pop and a read of that local |
| CodeGen.CodeGenerator.EmitGroupTail | src/codegen.cpp:122-128 | one pop per level and, in parentheses, a pop and a read of local n, appended after the group's expressions |
| Jumps.JumpAt | src/object.cpp:589-603 | a jump written with an in-range value sends the interpreter to the address after its operand plus the value |
| Jumps.WhileJumps | src/codegen.cpp:49-59 | a loop is 6 bytes longer than its parts; it reports nothing new exactly when it fits in 32767; then the exit jump lands at the loop's end and the backward jump at the condition's start |
| Jumps.AndJumps | src/codegen.cpp:237-246 | `&&` is 4 bytes longer than its operands with a pop after the jump; it reports nothing new exactly when the right side fits, and then a false left side jumps to the end |
| Jumps.OrLayout | src/codegen.cpp:237-258 | the layout of logical or (`or`): left, jump-if-false over the next jump, jump to the end, pop, right |
| Jumps.OrJumps | src/codegen.cpp:237-258 | a false left side lands on the pop before the right side; a true one jumps to the end, exactly when the right side fits |
| Jumps.TernaryJumps | src/codegen.cpp:289-304 | a false condition skips the middle, exactly when the middle fits |
| Jumps.TernaryElseJumps | src/codegen.cpp:289-304 | a false condition lands on the alternative, and the end of the middle jumps past the alternative, each when its span fits |
| Literals.BinaryShape | src/codegen.cpp:62-75 | a binary node adds its operands' constants in order |
| Literals.WhileShape | src/codegen.cpp:49-59 | a loop adds its condition's constants, then its body's |
| Literals.AndShape | src/codegen.cpp:237-246 | `&&` adds the left then the right constants |
| Literals.OrShape | src/codegen.cpp:237-258 | logical or (`or`) adds the left then the right constants |
| Literals.TernaryShape | src/codegen.cpp:289-304 | a ternary adds condition then middle constants |
| Literals.TernaryElseShape | src/codegen.cpp:289-304 | then the alternative's |
| Literals.GenConstants | src/codegen.cpp:233-235 | the constants an expression adds are its literals in source order, wherever the table starts |
| Literals.BinaryConstants | src/codegen.cpp:62-75 | a binary node's constants are its operands' literals, with -1.0 for a missing right operand |
| Literals.WhileConstants | src/codegen.cpp:49-59 | a loop's constants are its condition's then its body's literals |
| Literals.AndConstants | src/codegen.cpp:237-246 | `&&` keeps its operands' literals in order |
| Literals.OrConstants | src/codegen.cpp:237-258 | logical or (`or`) keeps its operands' literals in order |
| Literals.TernaryConstants | src/codegen.cpp:289-304 | a ternary keeps condition and middle literals in order |
| Literals.TernaryElseConstants | src/codegen.cpp:289-304 | and the alternative's after them |
| Literals.GenAllConstants | src/codegen.cpp:118-120 | a group's constants are its expressions' literals in order |
| Objects.KeepAbove | src/object.cpp:104 | `num & ~mask` with the low m bits in the mask keeps every bit from m up |
| Objects.ClearBelow | src/object.cpp:104 | and clears every bit below m |
| Objects.SetOne | src/object.cpp:96 | `w` or-ed with `1L << b` holds exactly w's bits and bit b |
| Objects.GetBit | src/object.cpp:125 | `(w >> b) & 1` is 1 exactly when bit b is set |
| Objects.GrowKeeps | src/object.cpp:90-94 | growing the word array with zeroed words keeps the set of indices |
| Objects.SetBit | src/object.cpp:87-97 | setting the bit of an index in its word adds exactly that index |
| Objects.WithBit | src/object.cpp:96 | the new word holds the old word's bits and bit `index & 0x3F` |
| Objects.LowestIndex | src/object.cpp:106 | ctz answers -1 exactly for 0, and otherwise the lowest set bit |
| Objects.FirstWord | src/object.cpp:100-101 | getNext starts at word oldIndex / 64 (`oldIndex >> 6`) with its low oldIndex % 64 + 1 bits masked, or at word 0 unmasked for -1, having passed over no set index after oldIndex; at bit 63 all 64 bits are masked, the corrected half of the object.cpp:101 finding |
| Objects.ScanWord | src/object.cpp:103-116 | one round finds the next index after oldIndex in its word or shows that word holds none |
| Objects.FirstMaskAsWritten | src/object.cpp:101 | the first mask as written is 0, masking nothing, for -1 and for every index at bit 63 |
| Objects.ScanWordAsWritten | src/object.cpp:103-116 | a round as written finds only indices of its own word, finds nothing under the later rounds' mask -1L, and always finds something in a nonzero word under mask 0 |
| Objects.IndexList.constructor | src/object.cpp:69-72 | a new list has size -1 and no index |
| Objects.IndexList.FromWord | src/object.cpp:74-78 | a list made from one word has size 0 and holds exactly that word's bits as indices |
| Objects.IndexList.Get | src/object.cpp:122-126 | get answers 1 exactly for a set index and 0 past the last word |
| Objects.IndexList.Set | src/object.cpp:87-97 | set adds exactly the index, growing the word count to cover it |
| Objects.IndexList.GetNext | src/object.cpp:99-120 | the corrected getNext answers the smallest set index after oldIndex, or -1 when there is none |
| Objects.IndexList.GetNextAsWritten | src/object.cpp:99-120 | getNext as written answers only indices in oldIndex's word, and when oldIndex is set at bit 63 it answers an index not after oldIndex |
| Objects.SkipsLaterWords | src/object.cpp:99-120 | after set(64), getNext(-1) as written answers -1 where 64 is intended |
| Objects.RereadsBit63 | src/object.cpp:99-120 | after set(63), getNext(63) as written answers 63 again where -1 is intended |
| CoThreads.InsertElements | src/object.cpp:257-280 | inserting a slot into the open list adds exactly that slot |
| CoThreads.InsertDescending | src/object.cpp:257-280 | the open list stays sorted from the highest slot down |
| CoThreads.InsertOnce | src/object.cpp:266-267 | a slot already captured is not added again; a new one lengthens the list by one |
| CoThreads.InsertAt | src/object.cpp:260-278 | the walk stops at the first slot not above the local, and the new node goes in just before it |
| CoThreads.DropFromSpec | src/object.cpp:282-291 | closing removes exactly the leading slots at or above `last`, leaving the lower ones in order |
| CoThreads.HeadOnce | src/object.cpp:282-291 | the head node appears once in the list, so closing it touches no other entry |
| CoThreads.Linked | src/object.cpp:271-277 | linking a node in keeps each node pointing at its slot |
| CoThreads.ObjUpvalue.constructor | src/object.cpp:257-280 | a new upvalue points at its stack slot |
| CoThreads.CoThread.constructor | src/object.cpp:171-178 | a new thread has an empty 64-value stack and no open upvalues |
| CoThreads.CoThread.Push | src/object.cpp:185-187 | push puts the value on top of the stack |
| CoThreads.CoThread.Pop | src/object.cpp:189-191 | pop removes and returns the top value |
| CoThreads.CoThread.Peek | src/object.cpp:193-195 | peek(d) is the value d places below the top |
| CoThreads.CoThread.LinkAt | src/object.cpp:271-277 | linking a new node at a position of the chain |
| CoThreads.CoThread.CaptureUpvalue | src/object.cpp:257-280 | captureUpvalue returns the node for the slot, reusing an open one or linking a new one in its sorted place |
| CoThreads.CoThread.CloseHead | src/object.cpp:285-289 | closing the head copies its slot's value into it, points it at its own copy and unlinks it |
| CoThreads.CoThread.CloseUpvalues | src/object.cpp:282-291 | closeUpvalues closes and unlinks exactly the leading upvalues at or above `last`, each keeping its slot's value |
| AttrSets.Ctz0 | src/attrset.cpp:21-29 | ctz0 gives 0 and leaves a zero word alone, and otherwise gives the lowest set bit `n & -n` and clears it |
| AttrSets.Ctz | src/attrset.cpp:31-67 | ctz gives -1 exactly for a zero word, and otherwise the position of the lowest set bit, which it clears |
| AttrSets.BitIndex | src/attrset.cpp:39-64 | the binary search over halves finds the position of a single set bit |
| AttrSets.CtzStep | src/attrset.cpp:21-29 | clearing the lowest set bit leaves exactly the bits above it |
| AttrSets.ScanStep | src/attrset.cpp:72-73 | each later ctz call in getLargestDim finds a bit above the last one found |
| AttrSets.GetLargestDim | src/attrset.cpp:69-77 | getLargestDim gives 0 for no flags, and otherwise the position of the highest set flag |
| AttrSets.LargestFound | src/attrset.cpp:69-77 | the last bit the loop finds is the highest one |
| AttrSets.GetSizerType | src/attrset.cpp:562-564 | a direction's sizer is an adder or a maxer |
| AttrSets.AdderExactly | src/attrset.cpp:562-564 | it is an adder exactly when the child-direction flags hold that direction's bit |
| Sizers.KindOf | src/sizer.cpp:89-111 | only the getter type makes a getter, and a getter keeps its offset and direction counts |
| Sizers.FirstAtLeast | src/sizer.cpp:74-81 | findIndex's scan stops at a position within the children |
| Sizers.FirstAtLeastIsFirst | src/sizer.cpp:74-81 | the scan stops at the first child whose index is not below the one sought |
| Sizers.PositionOfFinds | src/sizer.cpp:74-81 | over ascending indices, findIndex without locationFlag finds the index exactly when a child has it, at that child's position |
| Sizers.InsertedElements | src/sizer.cpp:111 | inserting at a position keeps the other children around the new one |
| Sizers.InsertKeepsAscending | src/sizer.cpp:83-116 | inserting an index at findIndex's position keeps the children ascending, adds the index and loses none |
| Sizers.IndicesSplit | src/sizer.cpp:111 | the children's indices after an insertion are the old ones with the new index at that position |
| Sizers.Sizer.constructor | src/sizer.cpp:20-22 | a new sizer has its index and no children |
| Sizers.Sizer.FindIndex | src/sizer.cpp:74-81 | with locationFlag the insertion position, without it the position of the index or -1 |
| Sizers.Sizer.Put | src/sizer.cpp:83-116 | put returns the child with the index, creating one of the requested type at the sorted position only when none exists, and appends to the path the index or the position |
| Sizers.Process | src/sizer.cpp:186-219 | an adder sums two areas and a maxer takes the larger |
| Sizers.ProcessCombines | src/sizer.cpp:186-219 | both are commutative and associative, and the adder's sum gives back one area given the other |
| Paths.Single | src/path.cpp:23-25 | Path(value) is the one-element path |
| Paths.Concat | src/path.cpp:30-35 | concat keeps the path and appends the value |
| Paths.Normalized | src/path.cpp:50-56 | a negative start is clamped to 0, shortening the range by as much, and the range is cut at the path's end |
| Paths.Trim | src/path.cpp:46-70 | the corrected trim(start, range) gives Trimmed, the path without the clamped range |
| Paths.TrimAsWritten | src/path.cpp:46-70 | as written, the elements go into reserved storage through `[]` without growing the vector, so the returned path is empty |
| Paths.TrimFrom | src/path.cpp:37-44 | corrected: trim(index) drops everything from an index inside the path, and otherwise returns the path; as written it delegates to trim(start, range) and so returns an empty path for an index inside it |
| Paths.TrimmedElements | src/path.cpp:46-70 | trimming keeps the elements before the start and shifts the later ones down by the range |
| Paths.TrimUndoesConcat | src/path.cpp:30-70 | trimming the last element off a concat gives the path back |
| Paths.TrimNothing | src/path.cpp:46-70 | trimming an empty range changes nothing |
| Paths.TrimAsWrittenLosesElements | src/path.cpp:46-70 | on [1, 2, 3], trim(1, 1) as written gives [] where [1, 3] is intended |
| ValueStacks.ValueStack.constructor | src/listunitareas.hpp:83-88 | a new value stack has its default value and no keys |
| ValueStacks.ValueStack.Push | src/listunitareas.hpp:90-95 | push puts the value on the key's stack, creating it when absent |
| ValueStacks.ValueStack.Pop | src/listunitareas.hpp:97-112 | pop returns the key's top and removes it, erasing an emptied stack; an absent key gives the default value and changes nothing |
| ValueStacks.PushPopKeepNoEmpty | src/listunitareas.hpp:90-112 | no key is ever left with an empty stack, so get's top is always defined |
| ValueStacks.GetAfterPush | src/listunitareas.hpp:90-117 | get after push gives the pushed value |
| ValueStacks.PopUndoesPush | src/listunitareas.hpp:90-112 | pop after push restores the stacks |
| ValueStacks.PopLastErases | src/listunitareas.hpp:97-112 | popping a key's last value erases the key, so get then gives the default |
| ValueStacks.OtherKeysUnchanged | src/listunitareas.hpp:90-117 | push and pop on one key leave every other key's top as it was |

## Left out

- Graphics, timers, the UI layout and event code, the attribute stacks of `attrset.cpp` and the rest of its sizer construction: they draw or lay out and need a display.
- The interpreter loop of `object.cpp` beyond the decoding of jump operands, and `vm.cpp`, `qed.cpp`, `qni.cpp`: they run whole programs through native calls.
- `src/memory.cpp` is not part of this model; `Memory.Reallocate` stands in for its `reallocate` as fresh storage holding the old slots.
- `CoList`, the CPS and reifier transforms, the AST printers, the generator under `gen/`, `LocationUnit::addValue`, `layout.cpp` and `expr.cpp`: they are unfinished or outside the compiler's sequential core.
- Code under `#if 0` and in comments, including the Dart text of `path.cpp`, is not modelled.
- The scheduler runs one continuation at a time, as the JavaScript event loop does; timing and concurrency are not modelled.
- The third demo call, `Insert([0, 0], [1, 1])`, is not modelled; the first two are.
- Scheduler.EventLoop.Post: the console message is modelled as a count of "postHandler not null" lines, not as text.
- QedArray.QEDArray.Insert: requires `pos[d] <= dims[d]` and `pos`, `size` and `dims` of equal length; the source does not check these, and out-of-range positions would build jagged arrays.
- QedArray.QEDArray.InitArray: requires the array to hold no slots yet; the source resets only `dims`, so a second call would grow the old slots as if they had zero extents. The model covers the first initialisation, which is how the demo calls it.
- QedArray.QEDArray: the user's `Init(array, index, pp, handler)` writes the slot and posts its continuation; the model takes `Init` as a pure function of the cursor whose value is stored at that slot, and each call completes before the next. An `Init` that writes elsewhere, reads the array, or never calls its handler is not modelled.
- QedArrayRect.QEDArray.constructor: `fn` takes no argument in the source; the model passes it the number of earlier calls, so a stateful `fn` is covered.
- The resolver is modelled after operand resolution: it sees the static types of the two operands, not their expressions, and a conversion is the opcode wrapped around an operand. `convertToInt` is called nowhere, and `isType` and `convertType` serve only the call and declaration visitors, so they are not modelled.
- `Scanner::reset` is not modelled: nothing in the core calls it.
- Parsers.Parser.Grouping: states only that the step keeps the parser valid; what a group yields is stated on `GroupingUntil`, which it calls with the closing token chosen by `Closing`.
- Parsers.Parser.Statement: states only that a statement consumes input; the node each statement form builds is stated on its own method.
- Parsers.Parser.IfStatement: states the node's kind and operator, not its branches.
- Parsers.Parser.Ternary, Parsers.Parser.Unary, Parsers.Parser.Expression and Paths.TrimFrom are built on the corrected TernaryNode, NewOperand, CheckAny and Trim; the as-written behaviour of each is stated only on the members named in the Findings table.
- Parsers.Parser.WhileStatement: states the node's kind and operator, not its operands.
- Parsers.Parser.ApplyPrefix and Parsers.Parser.ApplyInfix dispatch on the rule table and state only that the parser stays valid.
- Parsers.GroupResult: the source casts the last item of a parenthesised group to `StatementExpr` whenever the depth's flag is set, even when that item is a `for` loop whose initializer set it; the model unwraps only a real statement expression.
- `scopeDepth` is a file-level static in the source, shared by every parser, and `statementExprs` is a bit mask whose `1 << scopeDepth` overflows past depth 31; the model gives each parser its own depth and keeps the flags as a set of depths.
- Scanners.Scanner: the source is a sequence of characters, each scanned as one unit; the C scanner walks bytes, so a non-ASCII character gives one "Unexpected character." per byte there and one per character here.
- `floatNumber` calls `strtod`; a float literal keeps its lexeme, and floating point is not modelled.
- `funDeclaration`, `function` and `returnStatement` are commented out of `declaration` and `statement`, so they are not modelled.
- `logical` and `binaryOrPostfix` appear in no entry of the active rule table, so they are not modelled.
- Errors are modelled as the list of reports `declareError` would attach to tokens; the formatting of messages through `vsnprintf` is not modelled.
- Parsers.Parser.Attribute: the source takes the attribute's name after the separator pass, so the name can be the separator token; the model does the same.
- Objects.IndexList: the words are a sequence of bit-vectors; `malloc`, `realloc` and `free` are not modelled.
- CoThreads.CoThread: the stack is the 64 values the constructor allocates; an overflow past 64 is excluded by `requires`, as the source never checks it.
- Callables.Callable: `ObjCallable` is reduced to its upvalue table.
- CodeGen.CodeGenerator: the line written with each byte is always 1 in the source and is not modelled; the chunk is its bytes and constants.
- CodeGen.CodeGenerator.Emit covers literals, variables, binary, while, logical, ternary and grouping expressions; calls, assignments, property access and the UI nodes are not modelled.
- Sizers: `parseResize`, `adjustPos`, `findZone` and the `Getter` sizing are left out; they are stubs or need the layout tree.

## Findings

| source | as written | input that shows it | evidently intended | confidence | as-written member | corrected member |
|---|---|---|---|---|---|---|
| qedarray.js:137-147 | `size()` calls `this.dims.size()`, which a JavaScript array does not have | any call of `size()` | the product of the extents | not executed | QedArray.QEDArray.SizeAsWritten | QedArray.QEDArray.Size |
| src/path.cpp:46-70 | `trim` writes through `[]` into storage only reserved, so the vector stays empty; `trim(index)` (path.cpp:37-44) delegates to it and inherits the empty result | `[1, 2, 3].trim(1, 1)` gives `[]` | `[1, 3]` | not executed | Paths.TrimAsWrittenLosesElements | Paths.Trim |
| src/object.cpp:99-120 | `getNext` searches past the first word with mask `-1L`, which masks every bit | `set(64)` then `getNext(-1)` gives -1 | 64 | not executed | Objects.SkipsLaterWords | Objects.IndexList.GetNext |
| src/object.cpp:101 | the first mask shifts `1L` by 64 for an index at bit 63, which the shift instruction takes as 0, so the mask is 0 | `set(63)` then `getNext(63)` gives 63 | -1 | not executed | Objects.RereadsBit63 | Objects.IndexList.GetNext |
| src/parser.cpp:567-570 | parsePrecedence continues on any token of high enough precedence, even one without an infix function | `x += 1` calls a null infix function | stop at a token without an infix function | not executed | Parsers.NullInfixCalled | Parsers.Parser.ParsePrecedence |
| src/parser.cpp:121-128 | `check` over a terminator list stops at its first TOKEN_EOF, which a top-level end type of EOF puts in the middle | `else` at top level is never a terminator | every listed type is a terminator | not executed | Parsers.ElseHiddenAtTopLevel | Parsers.Parser.CheckAny |
| src/parser.cpp:281-300 | `ternary` passes the false branch as the middle, which code generation takes when the condition holds | `c ? a : b` with `c` true yields `b` | `a` | not executed | Parsers.TernaryBranches | Parsers.TernaryNode |
| src/parser.cpp:537-551 | `unary` reads `right->type` without checking that `parsePrecedence` returned an expression | `new` at the end of input dereferences NULL | report 'Cannot use new before non-callable expression' | not executed | Parsers.NewWithoutOperand | Parsers.NewOperand |
