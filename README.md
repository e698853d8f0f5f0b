# Token kinds, source positions and interning of a compiler's lexer, in Dafny

This project models the parts of a compiler's lexical front end whose
behaviour is fixed by its enumerations and its driver tests. It has three
pieces.

- **The enumerations** of `src/compiler/enums.h`. These are the token kinds
  (`TokenType`), the binary and compound-assignment operators, the
  precedence levels, the statement exit kinds, the scope flags, the attribute
  domains and the lexer states. The code relies on how they are laid out:
  - `TOKEN_EOF` is the last kind, so it sizes arrays and bounds loops over kinds.
  - The assigning binary operators come last, in the same order as the
    `AssignOp` members.
  - Exit kinds are listed in priority order.
  - Scope flags and attribute domains are distinct single bits.

  Each enumeration is a datatype with a function giving each member its C
  value, and lemmas pin down the layout.
- **The per-file line-start index** that `test_file` exercises
  (`src/compiler_tests/tests.c:101-127`). A `SourceFile` object holds the
  global offsets at which its lines start. They are kept strictly increasing,
  and the first one is the file's `start_id`. Appending a terminator adds one
  start. A position query is a binary search for the rightmost start at or
  before the offset. It is proved equal to a linear count specification
  (`LineOf`), and the test scenario itself is a verified method.
- **The symbol table** that interns lexemes. It is exercised by the keyword
  check of `test_lexer` (`src/compiler_tests/tests.c:20-49`):
  - A `SymbolTable` object maps byte strings to their canonical copy and
    their kind.
  - It is seeded with the reserved spellings.
  - Interning a known spelling reports its kind; interning a new one adds it
    with the caller's kind.
  - The keyword check is a method whose loop interns the spelling of every
    kind value `1 <= i < TOKEN_EOF` with `TOKEN_IDENT`. It counts the
    spellings reported as something else.
  - Lemmas show what that count means for a seed that reserves a given set
    of kinds.

Files: `tokens.dfy` (module `Tokens`), `operators.dfy` (`Operators`),
`semantics.dfy` (`Semantics`), `source_file.dfy` (`SourceFiles`),
`symtab.dfy` (`Symtab`) and `compiler_tests.dfy` (`CompilerTests`).

## Model

| member | source | states |
|---|---|---|
| Tokens.SingleCharIndex | src/compiler/enums.h:308-335 | the position of each of the single-character tokens within its section is below the section size |
| Tokens.SingleCharFromIndex | src/compiler/enums.h:308-335 | the section part of the cast `(TokenType)i`: position i < 28 of the section is read as the kind listed there; SingleCharFromIndexInverse states that it reads back to i |
| Tokens.SingleCharIndexInverse | src/compiler/enums.h:308-335 | the section position of a kind reads back as that kind |
| Tokens.SingleCharFromIndexInverse | src/compiler/enums.h:308-335 | every position inside the section is the position of the kind it reads back as |
| Tokens.TwoCharIndex | src/compiler/enums.h:338-360 | the position of each of the two-character tokens within its section is below the section size |
| Tokens.TwoCharFromIndex | src/compiler/enums.h:338-360 | the section part of the cast `(TokenType)i`: position i < 23 of the section is read as the kind listed there; TwoCharFromIndexInverse states that it reads back to i |
| Tokens.TwoCharIndexInverse | src/compiler/enums.h:338-360 | the section position of a kind reads back as that kind |
| Tokens.TwoCharFromIndexInverse | src/compiler/enums.h:338-360 | every position inside the section is the position of the kind it reads back as |
| Tokens.ThreeCharIndex | src/compiler/enums.h:363-367 | the position of each of the three-character tokens within its section is below the section size |
| Tokens.ThreeCharFromIndex | src/compiler/enums.h:363-367 | the section part of the cast `(TokenType)i`: position i < 5 of the section is read as the kind listed there; ThreeCharFromIndexInverse states that it reads back to i |
| Tokens.ThreeCharIndexInverse | src/compiler/enums.h:363-367 | the section position of a kind reads back as that kind |
| Tokens.ThreeCharFromIndexInverse | src/compiler/enums.h:363-367 | every position inside the section is the position of the kind it reads back as |
| Tokens.BasicTypeIndex | src/compiler/enums.h:370-385 | the position of each of the basic type names within its section is below the section size |
| Tokens.BasicTypeFromIndex | src/compiler/enums.h:370-385 | the section part of the cast `(TokenType)i`: position i < 16 of the section is read as the kind listed there; BasicTypeFromIndexInverse states that it reads back to i |
| Tokens.BasicTypeIndexInverse | src/compiler/enums.h:370-385 | the section position of a kind reads back as that kind |
| Tokens.BasicTypeFromIndexInverse | src/compiler/enums.h:370-385 | every position inside the section is the position of the kind it reads back as |
| Tokens.CTypeIndex | src/compiler/enums.h:388-395 | the position of each of the C interoperability type names within its section is below the section size |
| Tokens.CTypeFromIndex | src/compiler/enums.h:388-395 | the section part of the cast `(TokenType)i`: position i < 8 of the section is read as the kind listed there; CTypeFromIndexInverse states that it reads back to i |
| Tokens.CTypeIndexInverse | src/compiler/enums.h:388-395 | the section position of a kind reads back as that kind |
| Tokens.CTypeFromIndexInverse | src/compiler/enums.h:388-395 | every position inside the section is the position of the kind it reads back as |
| Tokens.LiteralIndex | src/compiler/enums.h:400-412 | the position of each of the identifiers and literals within its section is below the section size |
| Tokens.LiteralFromIndex | src/compiler/enums.h:400-412 | the section part of the cast `(TokenType)i`: position i < 9 of the section is read as the kind listed there; LiteralFromIndexInverse states that it reads back to i |
| Tokens.LiteralIndexInverse | src/compiler/enums.h:400-412 | the section position of a kind reads back as that kind |
| Tokens.LiteralFromIndexInverse | src/compiler/enums.h:400-412 | every position inside the section is the position of the kind it reads back as |
| Tokens.KeywordIndex | src/compiler/enums.h:415-458 | the position of each of the keywords within its section is below the section size |
| Tokens.KeywordFromIndex | src/compiler/enums.h:415-458 | the section part of the cast `(TokenType)i`: position i < 44 of the section is read as the kind listed there; KeywordFromIndexInverse states that it reads back to i |
| Tokens.KeywordIndexInverse | src/compiler/enums.h:415-458 | the section position of a kind reads back as that kind |
| Tokens.KeywordFromIndexInverse | src/compiler/enums.h:415-458 | every position inside the section is the position of the kind it reads back as |
| Tokens.AtDirectiveIndex | src/compiler/enums.h:460-468 | the position of each of the `@` directives within its section is below the section size |
| Tokens.AtDirectiveFromIndex | src/compiler/enums.h:460-468 | the section part of the cast `(TokenType)i`: position i < 9 of the section is read as the kind listed there; AtDirectiveFromIndexInverse states that it reads back to i |
| Tokens.AtDirectiveIndexInverse | src/compiler/enums.h:460-468 | the section position of a kind reads back as that kind |
| Tokens.AtDirectiveFromIndexInverse | src/compiler/enums.h:460-468 | every position inside the section is the position of the kind it reads back as |
| Tokens.CtDirectiveIndex | src/compiler/enums.h:470-476 | the position of each of the `$` directives within its section is below the section size |
| Tokens.CtDirectiveFromIndex | src/compiler/enums.h:470-476 | the section part of the cast `(TokenType)i`: position i < 7 of the section is read as the kind listed there; CtDirectiveFromIndexInverse states that it reads back to i |
| Tokens.CtDirectiveIndexInverse | src/compiler/enums.h:470-476 | the section position of a kind reads back as that kind |
| Tokens.CtDirectiveFromIndexInverse | src/compiler/enums.h:470-476 | every position inside the section is the position of the kind it reads back as |
| Tokens.DocsIndex | src/compiler/enums.h:478-481 | the position of each of the documentation-comment tokens within its section is below the section size |
| Tokens.DocsFromIndex | src/compiler/enums.h:478-481 | the section part of the cast `(TokenType)i`: position i < 4 of the section is read as the kind listed there; DocsFromIndexInverse states that it reads back to i |
| Tokens.DocsIndexInverse | src/compiler/enums.h:478-481 | the section position of a kind reads back as that kind |
| Tokens.DocsFromIndexInverse | src/compiler/enums.h:478-481 | every position inside the section is the position of the kind it reads back as |
| Tokens.Ordinal | src/compiler/enums.h:303-485 | every kind has a C value below 155, the number of kinds |
| Tokens.FromOrdinal | src/compiler_tests/tests.c:27 | the cast `(TokenType)i` for every value below 155, section by section; its round trips with Ordinal are OrdinalRoundTrip and FromOrdinalRoundTrip |
| Tokens.OrdinalRoundTrip | src/compiler/enums.h:303-485 | casting the value of a kind back to TokenType gives the kind |
| Tokens.FromOrdinalRoundTrip | src/compiler/enums.h:303-485 | every value below 155 is the value of the kind it is cast to |
| Tokens.OrdinalInjective | src/compiler/enums.h:303-485 | two kinds with the same value are the same kind |
| Tokens.SentinelOrdinals | src/compiler/enums.h:305-483 | TOKEN_INVALID_TOKEN is 0, TOKEN_EOF is 154, every other kind lies strictly between them |
| Tokens.InnerOrdinalsEnumerateInnerKinds | src/compiler_tests/tests.c:25-27 | a loop over 1 <= i < TOKEN_EOF casts each i to a non-sentinel kind of value i, and reaches every non-sentinel kind at its own value and no other |
| Tokens.SectionsAreContiguous | src/compiler/enums.h:307-481 | each section of the enumeration is exactly one contiguous range of values, in both directions |
| Tokens.IdentifierKindsInOrder | src/compiler/enums.h:400-408 | TOKEN_IDENT is 81, followed by the constant, type, `@`, `#` and `$` identifier kinds at 82 to 86 in listing order |
| Tokens.LexerStateOrdinal | src/compiler/enums.h:256-261 | the three lexer states have values below 3 |
| Tokens.LexerStatesDistinct | src/compiler/enums.h:256-261 | distinct lexer states have distinct values and only LEXER_STATE_NORMAL is 0 |
| Operators.AssignOrdinal | src/compiler/enums.h:7-23 | the 14 AssignOp members have values below 14 |
| Operators.AssignFromOrdinal | src/compiler/enums.h:7-23 | the cast `(AssignOp)i` for every value below 14; AssignFromOrdinalRoundTrip states that it reads back to i |
| Operators.BinaryOrdinal | src/compiler/enums.h:25-60 | the 32 BinaryOp members have values below 32 |
| Operators.BinaryFromOrdinal | src/compiler/enums.h:25-60 | the cast `(BinaryOp)i` for every value below 32; BinaryFromOrdinalRoundTrip states that it reads back to i |
| Operators.AssignOrdinalRoundTrip | src/compiler/enums.h:7-23 | casting the value of an AssignOp back gives the operator |
| Operators.AssignFromOrdinalRoundTrip | src/compiler/enums.h:7-23 | every value below 14 is the value of the AssignOp it is cast to |
| Operators.BinaryOrdinalRoundTrip | src/compiler/enums.h:25-60 | casting the value of a BinaryOp back gives the operator |
| Operators.BinaryFromOrdinalRoundTrip | src/compiler/enums.h:25-60 | every value below 32 is the value of the BinaryOp it is cast to |
| Operators.IsAssign | src/compiler/enums.h:46-59 | a BinaryOp is one of the `_ASSIGN` forms exactly when its value is at least that of BINARYOP_ASSIGN, in both directions |
| Operators.ToAssignOp | src/compiler/enums.h:47-59 | shifting an assigning BinaryOp by the offset between BINARYOP_ASSIGN and ASSIGNOP_ASSIGN lands on the AssignOp of the same name (enums.h:10-22), never on ASSIGNOP_ERROR |
| Operators.ToBinaryOp | src/compiler/enums.h:10-22 | shifting an AssignOp other than ASSIGNOP_ERROR back lands on the assigning BinaryOp of the same name |
| Operators.ToAssignOpInverse | src/compiler/enums.h:47-59 | the shift maps each assigning BinaryOp to an AssignOp other than ASSIGNOP_ERROR, and shifting back recovers it |
| Operators.ToBinaryOpInverse | src/compiler/enums.h:10-22 | every AssignOp other than ASSIGNOP_ERROR is the shift of exactly one assigning BinaryOp, so the shift is a bijection |
| Operators.PrecedenceOrdinal | src/compiler/enums.h:271-284 | the 11 precedence levels have values below 11 |
| Operators.PrecedenceFromOrdinal | src/compiler/enums.h:271-284 | the cast `(Precedence)i` for every value below 11, through which `p + 1` steps to the next tighter level (Tighter) |
| Operators.PrecedenceLevelsIncrease | src/compiler/enums.h:273-283 | levels lie between PREC_NONE and PREC_CALL, each next-tighter level adds exactly one, and the steps follow the listing from PREC_NONE through PREC_ASSIGNMENT to PREC_CALL |
| Operators.PrecedenceOrdinalInjective | src/compiler/enums.h:273-283 | distinct levels have distinct values |
| Semantics.ExitPriority | src/compiler/enums.h:208-215 | the five exits have values below 5 |
| Semantics.MergeExits | src/compiler/enums.h:207-215 | the exit of two branches is one of them and has a priority at least that of both |
| Semantics.ExitPriorityInjective | src/compiler/enums.h:208-215 | distinct exits have distinct priorities |
| Semantics.MergeExitsLaws | src/compiler/enums.h:207-215 | merging is commutative, associative and idempotent, EXIT_NONE is its unit and the lowest exit, EXIT_RETURN the highest |
| Semantics.ScopeFlagValue | src/compiler/enums.h:288-293 | the word of a scope flag is 0 exactly for SCOPE_NONE and a single bit for every other flag |
| Semantics.ScopeFlagsAreDistinctBits | src/compiler/enums.h:288-293 | every flag other than SCOPE_NONE is the bit 1 << k at its listing position k, and distinct flags share no bit |
| Semantics.SetScopeFlag | src/compiler/enums.h:288-293 | `flags \| f` has every bit of f set and every bit outside f as it was |
| Semantics.HasScopeFlag | src/compiler/enums.h:288-293 | `flags & f` is non-zero exactly when f is not SCOPE_NONE and all of f's bits are in the word |
| Semantics.SetScopeFlagIsolated | src/compiler/enums.h:288-293 | or-ing a flag into a word sets that flag and leaves every other flag as it was |
| Semantics.AttributeDomainIndex | src/compiler/enums.h:547-554 | each attribute domain has a listing position below 8 |
| Semantics.AttributeDomainValue | src/compiler/enums.h:547-554 | the word of each attribute domain is a single bit within the low byte |
| Semantics.AttributeDomainsAreDistinctBits | src/compiler/enums.h:547-554 | each domain is the single bit 1 << k at its listing position k, distinct domains share no bit, and the eight together are 0xFF |
| SourceFiles.CountAtMost | src/compiler_tests/tests.c:107 | the number of recorded starts at or before an offset is at most the number of starts |
| SourceFiles.LineOf | src/compiler_tests/tests.c:107-126 | the line of an offset, the reference the position query is proved against, is at least 1 and at most the number of recorded starts |
| SourceFiles.CountAtSplit | src/compiler_tests/tests.c:107 | if the first k starts are at or before the offset and the rest after it, the count is k |
| SourceFiles.CountIsSplit | src/compiler_tests/tests.c:105-106 | in an increasing start table the counted starts are exactly a prefix: those before the count are at or before the offset, the rest after it |
| SourceFiles.LineIsRightmostStart | src/compiler_tests/tests.c:107-108 | the line is between 1 and the number of starts, is the 1-based index of the rightmost start at or before the offset, is 1 before the file, and is the last line past the last start |
| SourceFiles.CountAppend | src/compiler_tests/tests.c:109 | appending a start adds one to the count of an offset exactly when the new start is at or before it |
| SourceFiles.AppendKeepsIncreasing | src/compiler_tests/tests.c:109 | a start beyond the last recorded one keeps the start table strictly increasing |
| SourceFiles.AppendKeepsEarlierLines | src/compiler_tests/tests.c:109-126 | appending a start above all others keeps the table increasing, leaves the line of every offset below the new start unchanged and puts every offset from it on the new last line |
| SourceFiles.SourceFile.constructor | src/compiler_tests/tests.c:104-106 | a new file records exactly one line start, its start_id |
| SourceFiles.SourceFile.AppendLineStart | src/compiler_tests/tests.c:109 | appending a larger offset keeps the table valid and adds exactly that entry at the end |
| SourceFiles.SourceFile.FindPosition | src/compiler_tests/tests.c:107 | the binary search returns LineOf, the line count specification: a line between 1 and the number of starts whose start is at or before the offset (when the offset is inside the file) and whose successor start is after it, and the column as the distance from that start |
| Symtab.KindOf | src/compiler_tests/tests.c:29-32 | the kind symtab_add reports when passed TOKEN_IDENT: a kind other than TOKEN_IDENT is the stored kind of a stored spelling, and an unknown spelling reports TOKEN_IDENT |
| Symtab.GrownKeepsKinds | src/compiler_tests/tests.c:30-32 | adding spellings as plain identifiers never changes the kind a lookup reports |
| Symtab.GrownTransitive | src/compiler_tests/tests.c:25-31 | growing a table twice is growing it once |
| Symtab.DistinctSpellingsDistinctCopies | src/compiler_tests/tests.c:31 | distinct interned spellings have distinct canonical copies |
| Symtab.SymbolTable.constructor | src/compiler_tests/tests.c:24 | a new table holds no spellings and no copies |
| Symtab.SymbolTable.Add | src/compiler_tests/tests.c:31 | a known spelling returns its stored copy and kind and changes nothing; a new one gets a fresh copy holding it, is stored with the caller's kind, and the caller's kind is returned |
| Symtab.SymbolTable.InternIdent | src/compiler_tests/tests.c:29-32 | interning with TOKEN_IDENT reports the stored kind of a known spelling and leaves the table as it was; a new spelling reports TOKEN_IDENT and is the only entry added, as a plain identifier with the next copy |
| Symtab.SymbolTable.SeedKeywords | src/compiler_tests/tests.c:24 | seeding with distinct new spellings stores each with its kind, keeps every earlier entry and adds nothing else |
| Symtab.AddTwice | src/compiler_tests/tests.c:31 | interning a spelling twice yields the same copy and the same kind, which is the stored kind or else the first caller's; the table afterwards is the old one, with the spelling added under the first caller's kind when it was new |
| CompilerTests.QueriesWithOneLine | src/compiler_tests/tests.c:107-108 | with starts [3], offsets 3 and 10 are on line 1 |
| CompilerTests.QueriesWithTwoLines | src/compiler_tests/tests.c:110-112 | with starts [3, 9], offsets 3, 5 are on line 1 and 10 on line 2 |
| CompilerTests.QueriesWithThreeLines | src/compiler_tests/tests.c:114-118 | with starts [3, 9, 19], offsets 3, 5, 10, 15, 21 are on lines 1, 1, 2, 2, 3 |
| CompilerTests.QueriesWithFourLines | src/compiler_tests/tests.c:120-126 | with starts [3, 9, 19, 29], offsets 3, 5, 10, 15, 21, 25, 31 are on lines 1, 1, 2, 2, 3, 3, 4 |
| CompilerTests.TestFile | src/compiler_tests/tests.c:101-127 | the whole test_file scenario, from start_id 3 with terminators at 9, 19 and 29, reports every line its assertions expect |
| CompilerTests.ReservedSpellings | src/compiler_tests/tests.c:25-47 | the number of reserved spellings among the values in a range is at most the size of the range |
| CompilerTests.SpellingsAreTheNames | src/compiler_tests/tests.c:25-27 | a spelling is among those of the values in a range exactly when some value in the range has it |
| CompilerTests.CheckOne | src/compiler_tests/tests.c:27-46 | one pass of the loop body: tokens[i] ends as the spelling if reserved and "casi" otherwise, no other entry of tokens changes, the count goes up exactly when the spelling was reserved in the seed, and the spelling is the only key the table gains |
| CompilerTests.CheckKeywords | src/compiler_tests/tests.c:20-47 | the loop finds exactly the number of visited values whose spelling was reserved beforehand, stores the spelling or "casi" for each value, keeps every seeded entry, and ends with exactly the old keys plus the spelling of every visited value, the new ones as plain identifiers |
| CompilerTests.HonestSeedReserves | src/compiler_tests/tests.c:30-32 | when the seed stores each reserved value's spelling with that value's kind and every other visited spelling as an identifier, the visited values with a reserved spelling are exactly the reserved ones |
| CompilerTests.ReservedCount | src/compiler_tests/tests.c:25-47 | when exactly the values of a set have reserved spellings, the loop's count over a range is the number of those values in the range |
| CompilerTests.HonestSeedFindsEveryKeyword | src/compiler_tests/tests.c:21-49 | for such a seed the keyword count is the number of reserved values and a value is counted exactly when it is reserved; the kind its lookup reports is the one with that value, which only restates the seed's promise |

## Left out

- The wrapped TokenType: in C it is one flat list of 155 enumerators. Here each commented section is a datatype of its own, wrapped by one constructor of `TokenType`. `Tokens.Ordinal` and `Tokens.FromOrdinal` give exactly the C values, so `(TokenType)i` and comparisons of values are modelled.
- The spelling comments in `enums.h` are not used as spellings; some are wrong (`TOKEN_BIT_OR // =` at line 311, `TOKEN_SHL // >>` at line 360, `TOKEN_SHL_ASSIGN // >>=` at line 367). `token_type_to_string` is not part of this model. The spelling of the kind with value `i` is the parameter `name` of `CompilerTests.CheckKeywords`.
- The count of 12 + 73 + 9 = 94 keywords (tests.c:21, tests.c:49) depends on the spelling table and the seed, and neither is part of this model. `CompilerTests.HonestSeedFindsEveryKeyword` proves that the count equals the number of reserved kinds of any honest seed. It does not prove that this number is 94.
- `fnv1a` and where the table places an entry are not modelled. The table is a map from byte strings, so lookup is by content and the hash argument has no counterpart. The canonical copy is the position of the spelling in the sequence of copies made, not a pointer into an arena.
- `symtab.c`, `source_file.c` and the lexer are not part of this model. The symbol table's contract is taken from how tests.c:30-46 uses it: the kind argument is in/out. `SourceFiles.SourceFile.FindPosition`'s binary search is this model's own implementation of the rightmost-start query that the assertions of tests.c:107-126 pin down.
- SourceFiles.SourceFile.AppendLineStart: `source_file_append_line_end(file, off)` is modelled as recording `off` itself as the next line start. The assertions of test_file hold equally if `off + 1` were recorded, and they do not decide between the two.
- SourceFiles.SourceFile.FindPosition: offsets and lines are unbounded naturals, not 32-bit values. The column of an offset before `start_id` is a negative integer rather than a wrapped unsigned value.
- `lexer_check_init`, `lexer_scan_ident_test`, `lexer_scan_token`, `lexer_test_setup` and the token-stream loop over `shorttest.c` (tests.c:24, 34-39, 65-93): the lexer is not part of this model. The assertion that the scanned kind of each reserved spelling is `i` is represented only by the lookup result that `CompilerTests.HonestSeedFindsEveryKeyword` states.
- The `len[]` array of tests.c:23-45 holds `strlen` of each entry of `tokens[]`. It is not modelled separately: it is the length of the corresponding spelling. Entry 0 of `tokens[]`, which C leaves unset, is the empty spelling here.
- In CompilerTests.CheckKeywords, the table is seeded by the caller (`Symtab.SymbolTable.SeedKeywords`). The keyword list `lexer_check_init` passes is not part of this model.
- Benchmarking, timing and `printf` output (tests.c:14-18, 48, 51-63, 67-93, with `double` results): I/O, the clock and floating point.
- `run_arena_allocator_tests`, `compiler_init` and `test_compiler` (tests.c:17, 96-99): calls into code that is not part of this model.
- The tag enumerations of `enums.h` with no stated invariant: `AstKind`, `AttrKind`, `CaseValueType`, `CastKind`, `CastType`, `ConstType`, `DeclKind`, `ExprKind`, `GotoType`, `ImportType`, `NumberType`, `ResolveStatus`, `TypeKind`, `UnaryOp`, `VarDeclKind` and `Visibility`. The commented-out block at enums.h:139-163 is dead code.
