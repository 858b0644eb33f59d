# PL/0 compiler and stack machine, modelled in Dafny

This project models the core of a one-pass compiler for an extended PL/0
language and the virtual machine that runs its object code. The language
has constants, variables and one-dimensional arrays, functions and
procedures with parameters, and these statements: `if`/`else`, `unless`,
`while`, `do … while`, `repeat … until`, `for`, `begin … end`, `return`,
`call`, `write` and `writeln`. The core is four C files:

- `getSource.c`: the scanner. It reads characters, classifies them through
  a 256-entry class table, and turns them into tokens: reserved words,
  identifiers, numerals and operators. It also keeps the running count of
  diagnostics and aborts the compilation after too many. `checkGet` is the
  parser's "expect token K" primitive, with its insert/replace recovery.
- `table.c`: the name table. It holds the names in an append-only array and
  keeps the block structure as saved table heights and saved allocation
  counters, one per enclosing block. Lookup is a backward scan that stops
  at a sentinel in cell 0. A name that is not found is reported, and it is
  declared as a variable when it is used as one.
- `codegen.c`: the code array. It appends instructions and back-patches
  forward jumps. A peephole drops a second `ret`. The listing pass labels
  every instruction that is a jump or call target. `execute()` is the
  stack machine, with a display of frame bases for nested blocks.
- `compile.c`: the recursive-descent parser. It emits code while it reads
  tokens, so no syntax tree is built in between.

The Dafny modules follow those files:

- `Tokens` (tokens.dfy): token kinds, the keyword table and the
  character-class table.
- `Source` (source.dfy): the `Errors` counter, the `Lexer` class with the
  pure scanner `Scan` that specifies it, and the `TokenStream` the parser
  reads.
- `Table` (table.dfy): the `SymbolTable` class and the pure lookup `Find`.
- `CodeGen` (codegen.dfy): the `Generator` class and listing labels.
- `Machine` (machine.dfy): the pure step function `Step`, the run `Run`,
  and the `VM` class, which updates its arrays in place and is proved
  equal to `Run`.
- `Compile` (compile.dfy): the `Parser` class, plus the expression and
  condition trees that state what the parser read and emitted.

Global state in the C files becomes class fields. A fixed-size C array
becomes a Dafny `array`; the object code, the name table and the class
table all do. The stack machine keeps its stack and display as arrays too.
A fatal error (`errorF`, which exits the process) sets `Errors.fatal`.
Every method requires that flag to be off, and every caller returns as
soon as it is set.

The scanner never produces the kinds `For`, `Call`, `Lbracket` or
`Rbracket`. The keyword table (getSource.c:40-78) and the class table
(getSource.c:109-115) have no entries for `for`, `call`, `[` or `]`, yet
`compile.c` dispatches on all four. `Source.ScanAllNeverBracket` proves
this for the scanner as written. The parser therefore reads a token
sequence, as a `TokenStream`, so that those statements and array accesses
are modelled at all. Each token comes with the diagnostics the scanner
records while reading it ("too long" for an identifier of MAXNAME or more
characters, "too large" for a numeral of more than MAXNUM digits), and
the stream records them when the parser reads that token, as `nextToken`
does. `Compile.CompileSource` feeds the parser exactly what the scanner
yields for a text (`ScanAll` with `ScanDiags`), so its error count is the
one `compile()` judges.

The parser's contracts come in two strengths. When a compilation records
no counted diagnostic ("clean"), each expression method returns the
`Expr` tree it read. The contract then says three things, as equations on
the token sequence and on the code array:

- the tokens consumed are exactly `TokensOf(e)`;
- the code appended is exactly `CodeOf(e)`, in postfix order;
- the tree has the precedence shape: a sum of terms, each a product of
  factors, both grouping to the left.

`ParseUnique` shows that this shape leaves no choice. Two trees with the
same top-level operators and factors are equal. Conditions are treated the
same way. Statements are stated even when diagnostics are counted, as
jump shapes: which `jpc` or `jmp` sits where, and where it points once
patched.

## Model

| member | source | states |
|---|---|---|
| Tokens.KeyWdClass | getSource.c:81-84 | `isKeyWd`, an enumeration-range test, holds exactly for the reserved words, listed independently |
| Tokens.KeyClassesSplit | getSource.c:81-92 | no key is both a reserved word and a symbol; together they are exactly the keys before `end_of_KeySym` |
| Tokens.KeySymClass | getSource.c:87-92 | `isKeySym` holds exactly for the operators and delimiters, plus the `end_of_KeyWd` marker itself |
| Tokens.KeywordFrom | getSource.c:460-466 | the search of the reserved-word table for a spelling: a hit is an entry with that spelling and kind, a miss means no entry from `i` on has that spelling |
| Tokens.KeywordIsReserved | getSource.c:40-78 | a spelling found in the table yields a reserved word spelled that way, never `for` or `call` |
| Tokens.TableKinds | getSource.c:40-58 | every entry of the reserved-word part of the table is a reserved word other than `for` and `call` |
| Tokens.KeywordNeverUnscanned | getSource.c:40-78 | no spelling turns into `for`, `call`, `[` or `]` |
| Tokens.TableScanned | getSource.c:40-58 | no table entry is one of the four kinds the scanner never yields |
| Tokens.TableSpellings | getSource.c:40-58 | each entry's spelling is the spelling of its kind |
| Tokens.SymbolClass | getSource.c:109-115 | the single-character symbols and the colon never get class `letter` or `digit` |
| Tokens.SymbolEntry | getSource.c:109-115 | the m-th assignment of the symbol block sets a code below 256 to its class, and its rank is m |
| Tokens.RankInjective | getSource.c:109-115 | no two of the thirteen symbol assignments write the same code, so their order does not matter |
| Tokens.SymbolOrder | getSource.c:100-115 | the table before the symbol block is the letter/digit table, and after all thirteen assignments it is the full class table |
| Tokens.ClassNeverBracket | getSource.c:95-116 | no character has class `for`, `call`, `[`, `]`, `Id`, `Num` or `nul` |
| Tokens.AlnumClass | getSource.c:101-108 | letters and digits are exactly the characters of class `letter` or `digit`, and digits exactly those of class `digit` |
| Source.CountOfAppend | getSource.c:207-220 | recording a diagnostic adds one to the count exactly when it is counted; a deletion adds nothing |
| Source.Errors.constructor | getSource.c:26 | the count starts at 0, with nothing recorded and no abort |
| Source.Errors.ErrorNoCheck | getSource.c:207-220 | the count goes up by one, and the compilation aborts exactly when the count before exceeded MAXERROR |
| Source.Errors.Record | getSource.c:207-220 | the diagnostic is appended, counted unless it is a deletion, and aborts when the count before exceeded the limit |
| Source.Errors.ErrorType | getSource.c:223-240 | records a type error with its label, counted |
| Source.Errors.ErrorInsert | getSource.c:243-266 | records an insertion of the key, counted |
| Source.Errors.ErrorMissingId | getSource.c:269-282 | records a missing name, counted |
| Source.Errors.ErrorMissingOp | getSource.c:285-298 | records a missing operator, counted |
| Source.Errors.ErrorDelete | getSource.c:301-370 | records the deletion of the token; the count is unchanged and it never aborts |
| Source.Errors.ErrorMessage | getSource.c:373-383 | records a free-text message, counted |
| Source.Errors.ErrorF | getSource.c:386-400 | records and counts the message, then always stops the compilation |
| Source.Errors.ErrorN | getSource.c:403-406 | the error count is the number of counted diagnostics in the log |
| Source.Stream | getSource.c:409-425 | the characters `nextChar` hands out: the newline `ch` starts with, the text, and a final '\0' exactly when the text's last line has no newline, as `fgets` leaves it in the buffer |
| Source.TextTokensComplete | getSource.c:409-425 | every token that starts at a non-blank character of the text is read in full on its stream, so a word, numeral or operator that ends an unterminated last line is still yielded |
| Source.FinalPeriodScanned | getSource.c:516-519 | a text `.` with no final newline scans to the period, as `.` followed by a newline does |
| Source.SkipBlanks | getSource.c:437-447 | the first non-blank position at or after `p`: everything skipped is a blank, and the stop is not one |
| Source.RunEndIsMaximal | getSource.c:450-454 | the run an identifier or numeral loop reads is maximal: every character up to its end belongs to it, and the character at its end does not |
| Source.RunEndAt | getSource.c:450-454 | a run is identified by where it ends: any maximal run from `p` ending at `e` is the one `RunEnd` finds |
| Source.DecimalValueNonNegative | getSource.c:472-476 | a digit string folded by `10*v + d` over unbounded integers has a value of at least 0; C's 32-bit `num` can wrap negative, which is not modelled |
| Source.ScanWord | getSource.c:449-470 | an identifier scan consumes at least its first letter, stays inside the input and records at most one diagnostic; only a run reaching the end of the stream, which `TextTokensComplete` rules out for a word of the text, ends the input |
| Source.ScanNumeral | getSource.c:471-481 | a numeral scan consumes at least one digit, stays inside the input and records at most one diagnostic; only a run reaching the end of the stream ends the input |
| Source.Pair | getSource.c:484-515 | a two-character operator scan consumes at least its first character and stays inside the input; `PairConsumesBoth` states its kind and that it consumes both characters |
| Source.PairConsumesBoth | getSource.c:484-515 | a two-character operator yields its kind with no diagnostic and consumes both characters; the scan reaches the end of the input exactly when the pair is the last two characters of the stream, which never holds for a pair in the text since the stream ends in a newline or '\0' |
| Source.ScanSymbol | getSource.c:482-520 | an operator or delimiter scan consumes at least one character, stays inside the input and records at most one diagnostic; `ScanOperators` states the kind and the next position for each input |
| Source.Scan | getSource.c:428-524 | one token from `p`: blanks skipped, first character consumed, at most one diagnostic |
| Source.ScanAt | getSource.c:448-521 | the dispatch on the class of the first character consumes at least that character |
| Source.ScanNeverBracket | getSource.c:428-524 | one scan never yields `for`, `call`, `[` or `]` |
| Source.WordNeverBracket | getSource.c:449-470 | an identifier scan never yields those four kinds |
| Source.IdentNeverBracket | getSource.c:459-469 | the keyword lookup of a spelling never yields those four kinds |
| Source.SymbolKinds | getSource.c:482-520 | a symbol scan yields `:=`, `nul`, `<=`, `<>`, `<`, `>=`, `>` or the class of the character itself |
| Source.ScanOperators | getSource.c:482-520 | case by case: `:=` is Assign and `:` alone is `nul`, `<=` LssEq, `<>` NotEq, `<` alone Lss, `>=` GtrEq, `>` alone Gtr, each pair consuming two characters and each lone symbol leaving the next one unread; any other class is a one-character token of that class |
| Source.ScanIdentifier | getSource.c:449-470 | an identifier is the maximal letter/digit run. A run of MAXNAME or more characters is cut to MAXNAME-1 with one "too long" message, and a shorter one gets no message. An exact match with a reserved word gives that word; anything else gives an `Id` carrying the spelling |
| Source.ScanNumber | getSource.c:471-481 | a numeral is the maximal digit run, valued by the decimal fold. "too large" is recorded exactly when it has more than MAXNUM digits, and the value is kept either way |
| Source.Lexer.constructor | getSource.c:14-26 | the static initial state: the input is a newline followed by the text, the class table is fresh with 256 cells, nothing is read yet, and the last token is all zero |
| Source.Lexer.ClassOf | getSource.c:448 | the table lookup of a character gives its class; the class is letter-or-digit exactly for alphanumerics, and `digit` exactly for digits |
| Source.Lexer.ContinuesWord | getSource.c:454 | the loop test continues an identifier exactly on a letter or digit |
| Source.Lexer.ContinuesNumeral | getSource.c:476 | the loop test continues a numeral exactly on a digit |
| Source.Lexer.InitCharClassT | getSource.c:98-116 | every one of the 256 cells holds the class of its code |
| Source.Lexer.FillAlnum | getSource.c:100-108 | after the four loops: digits, letters, and `others` everywhere else |
| Source.Lexer.SetSymbols | getSource.c:109-115 | the thirteen symbol assignments over the letter/digit table give the full class table |
| Source.Lexer.InitSource | getSource.c:149-154 | nothing consumed, `ch` holds a newline, the class table is filled |
| Source.Lexer.NextChar | getSource.c:409-425 | advances one character; a read past the stream's last character (the final newline, or the '\0' of an unterminated last line) records "end of file" and stops the compilation |
| Source.Lexer.SkipSpace | getSource.c:437-447 | stops exactly at the first non-blank; reaching the end of the stream instead is fatal, which happens only after a final newline since '\0' is not blank |
| Source.Lexer.ReadRun | getSource.c:450-454 | reads the whole letter/digit run and keeps its first MAXNAME characters; running off the end of the stream is fatal exactly when the run reaches it, which never happens in the text since the stream ends in a newline or '\0' |
| Source.Lexer.LookupKeyword | getSource.c:459-469 | the reserved word spelled that way, or an identifier exactly when no entry matches |
| Source.Lexer.ReadWord | getSource.c:449-470 | does what `ScanWord` specifies: the same token, diagnostics and position |
| Source.Lexer.ReadNumeral | getSource.c:471-481 | does what `ScanNumeral` specifies |
| Source.Lexer.ReadDigits | getSource.c:473-476 | the digit loop: it ends at the end of the run with the fold of all digits so far and their count; running off the end of the stream is fatal exactly when the run reaches it, which never happens in the text since the stream ends in a newline or '\0' |
| Source.Lexer.ReadPair | getSource.c:484-515 | does what `Pair` specifies for the second character of `:=`, `<=`, `<>` or `>=` |
| Source.Lexer.ReadSymbol | getSource.c:482-520 | does what `ScanSymbol` specifies |
| Source.Lexer.SecondChar | getSource.c:482-516 | the character after `:`, `<` or `>` is read as `ScanSymbol` specifies |
| Source.Lexer.NextToken | getSource.c:428-524 | does what `Scan` specifies from the current position, and always advances unless it is fatal |
| Source.Lexer.ReadToken | getSource.c:448-521 | does what `ScanAt` specifies |
| Source.ScanAllNeverBracket | getSource.c:428-524 | no token of a whole scan is `for`, `call`, `[` or `]` |
| Source.ScanDiagsShape | getSource.c:449-481 | the scanner records one list of diagnostics per token it yields, each empty or a single counted message |
| Source.TokenStream.constructor | getSource.c:20 | the tokens and their scanner diagnostics as given; nothing read yet, and the last token is all zero |
| Source.TokenStream.NextToken | getSource.c:428-524 | first records the scanner's diagnostics for the token at the read position ("too long" at getSource.c:456, "too large" at getSource.c:478), counted and aborting past MAXERROR; unless that aborted, the token becomes the last token read. The end of the input is fatal |
| Source.TokenStream.CheckGet | getSource.c:533-544 | A match is consumed. A mismatch within one class is a substitution: it deletes the last token, inserts `k` and reads on. Any other mismatch inserts `k` and leaves `t`. Every outcome either consumes a token or counts a diagnostic |
| Source.TokenStream.Replace | getSource.c:537-541 | the substitution: a deletion of the last token and an insertion of `k` are recorded, counted once, and then the next token is read as `NextToken` reads it, unless the insertion aborted |
| Source.TokenStream.FinalSource | getSource.c:173-178 | a final `.` records nothing; anything else records an inserted `.` |
| Table.Find | table.c:167-175 | the newest cell among 1..t spelled `id`, or 0: the answer holds `id` and no cell above it does |
| Table.FindNewest | table.c:167-175 | a name just entered hides every earlier name with the same spelling |
| Table.FindFrame | table.c:167-175 | a lookup below height `t` depends only on the names in cells 1..t |
| Table.FindAfterEnter | table.c:101-107 | a name entered at t+1 is found by its own spelling and leaves every other lookup as it was |
| Table.SymbolTable.constructor | table.c:25-31 | the static initial state: every cell zero, height 0, level -1 |
| Table.SymbolTable.BlockBegin | table.c:45-60 | The main block starts afresh and saves nothing. An inner block saves the height and counter of the enclosing one at its level, and leaves every other saved value alone. Opening one more block at level MAXLEVEL-1 is fatal "too many nested blocks" |
| Table.SymbolTable.BlockEnd | table.c:63-68 | one level less; the enclosing block's saved height and counter come back |
| Table.SymbolTable.ForwardAllocatedAddr | table.c:215-218 | the frame grows by `n` cells; nothing else changes |
| Table.SymbolTable.EnterT | table.c:101-107 | the next cell takes the name and keeps its other words; a full table is fatal "too many names" |
| Table.SymbolTable.EnterTsequence | table.c:89-98 | the entry gets its kind, the current level, its start address and 0 parameters; it becomes the entry whose parameters are counted next |
| Table.SymbolTable.EnterTfunc | table.c:110-113 | as `EnterTsequence` with kind function |
| Table.SymbolTable.EnterTproc | table.c:116-119 | as `EnterTsequence` with kind procedure |
| Table.SymbolTable.EnterTpar | table.c:122-129 | a parameter at the current level; the owner's parameter count goes up by one; no other cell changes |
| Table.SymbolTable.EnterTvar | table.c:132-139 | a variable at the next free address of the current frame, which grows by one |
| Table.SymbolTable.EnterTconst | table.c:142-148 | a constant whose value is `v` |
| Table.SymbolTable.EndPar | table.c:151-158 | the j-th of the n parameters gets address j-1-n; every other cell is unchanged |
| Table.SymbolTable.ChangeV | table.c:161-164 | only the start address of cell `ti` changes |
| Table.SymbolTable.BLevel | table.c:71-74 | the current block level, between -1 and MAXLEVEL-1 |
| Table.SymbolTable.InProcedureBlock | table.c:77-80 | the current block belongs to a procedure exactly when it is an inner block whose owner, the entry at the saved height one level down, has kind procedure |
| Table.SymbolTable.FPars | table.c:83-86 | the parameter count of the owner of the current block, and 0 for the main block |
| Table.SymbolTable.KindOf | table.c:185-188 | the kind word of cell `i` |
| Table.SymbolTable.RelAddrOf | table.c:191-194 | the address of cell `ti`: its level word and its offset word |
| Table.SymbolTable.Val | table.c:197-200 | the value of a constant is the word that holds the level of an address, as in the C union |
| Table.SymbolTable.ParsOf | table.c:203-206 | the parameter count of the function or procedure in cell `ti` |
| Table.SymbolTable.FrameL | table.c:209-212 | the frame size of the current block is its next free address |
| Table.SymbolTable.SearchT | table.c:167-182 | A hit is the newest entry with that name, and nothing but the sentinel changes. A miss records "undef". For a variable use it then declares the name as a fresh variable; for any other use the answer is 0 |
| Table.SymbolTable.ScanNames | table.c:169-175 | the backward scan that stops at the sentinel finds what `Find` specifies |
| Table.FindAgree | table.c:169-175 | a scan that stops at `i` with no match above it agrees with `Find` |
| CodeGen.OperatorOf | codegen.c:133-148 | decoding an operator word: a hit encodes back to the word, and the word names no operator exactly when it is outside 0..13 |
| CodeGen.OperatorRoundTrip | codegen.c:54-60 | decoding the word of an encoded operator gives the operator back |
| CodeGen.MarkedSnoc | codegen.c:95-98 | an index is marked in a longer array exactly when it was marked before or the new instruction refers to it |
| CodeGen.JumpTargetsMarked | codegen.c:109-156 | every `jmp`, `jpc` and `cal` target in the array is labelled |
| CodeGen.Generator.constructor | codegen.c:22-24 | an empty code array, with `cIndex` at -1 |
| CodeGen.Generator.CheckMax | codegen.c:76-81 | takes the next slot; running past MAXCODE instructions is fatal "too many code" |
| CodeGen.Generator.NextCode | codegen.c:30-33 | the index of the next instruction is the number of instructions generated so far, at most MAXCODE |
| CodeGen.Generator.GenCodeV | codegen.c:36-42 | appends the instruction with operand `v` and returns its index |
| CodeGen.Generator.GenCodeT | codegen.c:45-51 | appends the instruction with the address of table entry `ti` |
| CodeGen.Generator.GenCodeO | codegen.c:54-60 | appends `opr` with the operator's number |
| CodeGen.Generator.GenCodeR | codegen.c:63-73 | after a `ret`, emits nothing and changes nothing; otherwise appends `retp` or `ret` with the block level and the parameter count |
| CodeGen.Generator.BackPatch | codegen.c:84-87 | only the first operand word of instruction `i` changes, to the next index |
| CodeGen.Generator.ListLabels | codegen.c:90-106 | index `x` is labelled exactly when some generated instruction refers to it |
| CodeGen.Generator.UpdateRef | codegen.c:109-156 | marks exactly the index instruction `i` refers to, and keeps earlier marks |
| Machine.Init | codegen.c:220-222 | `top` and `pc` are 0, the two save cells of the main block are 0, and so is display entry 0 |
| Machine.TruncDiv | codegen.c:267 | C's `/` on `int`: the magnitude of the quotient is the quotient of the magnitudes, and its sign is negative only for operands of opposite signs |
| Machine.TruncDivSpec | codegen.c:267 | C's `/`: the remainder is smaller than the divisor in magnitude and has the sign of the dividend |
| Machine.PushCell | codegen.c:228 | a push keeps the machine state well-formed |
| Machine.ExecLod | codegen.c:230-232 | `lod` keeps the state well-formed |
| Machine.ExecSto | codegen.c:233-235 | `sto` keeps the state well-formed |
| Machine.ExecCal | codegen.c:236-241 | `cal` keeps the state well-formed |
| Machine.ExecRet | codegen.c:242-249 | `ret` keeps the state well-formed |
| Machine.ExecRetp | codegen.c:285-290 | `retp` keeps the state well-formed |
| Machine.ExecIct | codegen.c:250-254 | `ict` leaves the stack and the display alone |
| Machine.ExecJpc | codegen.c:257-260 | `jpc` keeps the state well-formed |
| Machine.ExecLoda | codegen.c:278-280 | `loda` keeps the state well-formed, and `LodaEffect` states its effect |
| Machine.ExecStoa | codegen.c:281-284 | `stoa` keeps the state well-formed, and `StoaEffect` states its effect |
| Machine.ExecOperator | codegen.c:261-277 | every operator keeps the state well-formed |
| Machine.Exec | codegen.c:226-291 | every instruction keeps the state well-formed, including an `opr` that falls through into `loda` |
| Machine.Step | codegen.c:224-292 | a fetch and execute keeps the state well-formed |
| Machine.Run | codegen.c:224-292 | the loop runs step by step until a step stops it; with no steps left it has not ended |
| Machine.RunFuel | codegen.c:224-292 | the step budget only bounds the run: a run that ends within `f` steps ends the same way with any larger budget |
| Machine.PushOne | codegen.c:227-232 | `lit` pushes its value and `lod` pushes the addressed cell; `top` grows by one and nothing else changes |
| Machine.StoPops | codegen.c:233-235 | `sto` pops the top cell into the addressed cell |
| Machine.Jumps | codegen.c:255-260 | `jmp` always jumps; `jpc` pops one cell and jumps exactly when it was 0 |
| Machine.IctGrows | codegen.c:250-254 | `ict n` adds n to `top`, and stops the run with "stack overflow" exactly when `top` reaches MAXMEM-MAXREG |
| Machine.BinaryPopsOne | codegen.c:264-274 | A two-operand operator replaces its two operands by its result and leaves every other cell alone. A relational result is 0 or 1, and division truncates |
| Machine.DivByZeroFaults | codegen.c:267 | division by zero never completes a step |
| Machine.LodaEffect | codegen.c:278-280 | `loda` replaces only the index on top by the element it selects; `top`, `pc` and the display stay, and the cell under the index, the array's first cell that `lod` pushed, is left as it was |
| Machine.StoaEffect | codegen.c:281-284 | `stoa` pops the value and the index under it and stores the value at that element; nothing else changes |
| Machine.UnaryEffects | codegen.c:262-276 | `neg` negates the top cell in place; `odd` leaves the lowest bit of the value; `wrt` pops and prints it; `wrl` prints a newline and leaves the stack alone |
| Machine.CallReturn | codegen.c:236-249 | `cal` followed by the callee's `ret` returns to just after the `cal` and restores the display entry. It drops the argument cells and leaves the result where the first argument was |
| Machine.CallReturnProc | codegen.c:285-290 | the same for `retp`, which leaves no value |
| Machine.MainReturnHalts | codegen.c:242-249 | the main block's `ret 0,0` sets `pc` to the saved 0, which ends the loop at codegen.c:292 |
| Machine.VM.constructor | codegen.c:214-222 | the arrays are fresh and the state is the initial one |
| Machine.VM.Push | codegen.c:228 | the array machine does what `PushCell` specifies |
| Machine.VM.Lod | codegen.c:230-232 | the array machine does what `ExecLod` specifies |
| Machine.VM.Sto | codegen.c:233-235 | the array machine does what `ExecSto` specifies |
| Machine.VM.Cal | codegen.c:236-241 | the array machine does what `ExecCal` specifies |
| Machine.VM.Ret | codegen.c:242-249 | the array machine does what `ExecRet` specifies |
| Machine.VM.Retp | codegen.c:285-290 | the array machine does what `ExecRetp` specifies |
| Machine.VM.Ict | codegen.c:250-254 | the array machine does what `ExecIct` specifies |
| Machine.VM.Jpc | codegen.c:257-260 | the array machine does what `ExecJpc` specifies |
| Machine.VM.Loda | codegen.c:278-280 | the array machine does what `ExecLoda` specifies |
| Machine.VM.Stoa | codegen.c:281-284 | the array machine does what `ExecStoa` specifies |
| Machine.VM.Operate | codegen.c:261-277 | the array machine does what `ExecOperator` specifies |
| Machine.VM.Cycle | codegen.c:224-292 | one pass of the loop does what `Step` specifies |
| Machine.VM.Perform | codegen.c:226-291 | the instruction switch does what `Exec` specifies |
| Machine.Execute | codegen.c:212-293 | the run over arrays gives the outcome of the pure `Run` from the initial state |
| Compile.FlattenSpells | compile.c:416-455 | the top-level operators and factors of an expression spell exactly the tokens read for it |
| Compile.TermItems | compile.c:441-455 | a term starts with a factor and has no `+` or `-` at its top level |
| Compile.ExpressionItems | compile.c:416-438 | an expression has at least one top-level item |
| Compile.TermUnique | compile.c:441-455 | two terms with the same items are the same tree: products group to the left |
| Compile.SumIsNotTerm | compile.c:428-437 | a sum at the root differs, item for item, from a signed or plain term |
| Compile.SignedIsNotTerm | compile.c:420-427 | a signed term differs from a plain term: it starts with its sign |
| Compile.ParseUnique | compile.c:416-455 | Two expressions with the same top-level operators and factors are the same tree. So the root is the last top-level `+` or `-`, or failing that the last `*` or `/` |
| Compile.Parser.constructor | compile.c:9 | the current token starts all zero |
| Compile.Parser.Next | compile.c:50 | reads one token: the current token is the next one of the input, and only the scanner's diagnostics for it are recorded |
| Compile.Parser.Expect | getSource.c:533-544 | a matching token is read, recording only the scanner's diagnostics for the next token; with no diagnostic counted, the token was the expected one |
| Compile.Parser.EmitV | codegen.c:36-42 | the code is the old code plus the one instruction |
| Compile.Parser.EmitT | codegen.c:45-51 | the code is the old code plus the instruction with the entry's address |
| Compile.Parser.EmitO | codegen.c:54-60 | the code is the old code plus `opr p` |
| Compile.Parser.EmitR | codegen.c:63-73 | no second `ret`; otherwise `retp` or `ret` with the level and the parameter count |
| Compile.Parser.Patch | codegen.c:84-87 | only instruction `i` changes, its target set to the next index |
| Compile.Parser.Expression | compile.c:416-438 | if clean, the tree read is an expression, its tokens were consumed, and exactly its postfix code was appended |
| Compile.Parser.Operand | compile.c:420-436 | the sign or operator token and a term read, then the operator emitted, if any |
| Compile.Parser.Term | compile.c:441-455 | if clean, a term was read and exactly its code appended |
| Compile.Parser.Multiplicand | compile.c:446-453 | `*` or `/`, a factor, then `mul` or `div` |
| Compile.Parser.Factor | compile.c:458-532 | if clean, a factor was read and exactly its code appended; otherwise earlier code and scopes are kept and the input only moves forward |
| Compile.Parser.Primary | compile.c:462-520 | if clean, a name, a number or a parenthesised expression was read and exactly its code appended |
| Compile.Parser.NumberFactor | compile.c:511-514 | a number compiles to `lit` of its value |
| Compile.Parser.ParenFactor | compile.c:516-520 | "(" expression ")" compiles to the inner expression's code |
| Compile.Parser.ParenRest | compile.c:517-519 | the inner expression and ")" complete a parenthesised factor |
| Compile.Parser.NameFactor | compile.c:462-465 | the entry used is searchT's answer for the name as a variable use (`Resolves`: the newest entry spelled so, or the variable declared after a counted "undef"); if clean, the factor is the one `NameLeaf` gives for that entry |
| Compile.NameLeafCode | compile.c:465-508 | a name's factor starts with `lod` of a variable or parameter entry and, for an element, ends with `loda` of it; it is `lit` of a constant's value; it ends with the function's `cal`; a procedure emits nothing |
| Compile.Parser.NamedFactor | compile.c:465-508 | the dispatch on the kind of entry `ti`: if clean, the loads of a variable or parameter, `lit` of a constant's value, the `cal` of a function, and nothing for a procedure, all with that entry's level and address |
| Compile.Parser.ConstFactor | compile.c:477-480 | a constant compiles to `lit` of its value |
| Compile.Parser.FuncFactor | compile.c:481-507 | if clean, a call of the name with exactly as many arguments as the function has parameters, the arguments' code, then `cal` with entry `ti`'s level and address |
| Compile.Parser.VarFactor | compile.c:466-476 | if clean, `lod` with entry `ti`'s level and address, and for an element the index and `loda` of the same entry |
| Compile.Parser.ElementFactor | compile.c:470-475 | "[" index "]" after the given `lod`: if clean, an element of the name with that load, the index's code, then `loda` of entry `ti` |
| Compile.Parser.Element | compile.c:471-474 | the index expression's code, then the element instruction for the entry |
| Compile.Parser.ElementEnd | compile.c:473-474 | the element instruction is appended and "]" is read |
| Compile.Parser.CallTail | compile.c:482-506 | Always ends in `cal` of the entry. With "(", the arguments are counted against the parameter count and a mismatch records one "\#par". Without "(", two insertions are recorded |
| Compile.Parser.ParenCall | compile.c:483-501 | the arguments in parentheses, then `cal`, with one "\#par" exactly on a count mismatch |
| Compile.Parser.EmitCall | compile.c:506 | `cal` with the callee's level and start address comes after the arguments' code |
| Compile.Parser.MissingParens | compile.c:502-505 | a call without "(" records insertions of "(" and ")", counted twice |
| Compile.Parser.CountedArguments | compile.c:484-500 | the diagnostics of the arguments, plus one "\#par" exactly when their number is not the parameter count |
| Compile.Parser.Arguments | compile.c:484-498 | if clean, "(" arguments ")" consume exactly their tokens, append their code left to right, and return their number |
| Compile.Parser.ArgumentList | compile.c:486-495 | expression {"," expression} ")": the argument list's tokens and code |
| Compile.Parser.ArgumentStep | compile.c:487-494 | one more argument extends the list and its code; a comma means another follows |
| Compile.Parser.ArgumentEnd | compile.c:489-493 | a comma is read and another argument follows; otherwise the token must be ")" |
| Compile.Parser.Condition | compile.c:535-581 | if clean, the condition tree was read and its code, the operands followed by the test, was appended; `odd` always ends in `opr odd` |
| Compile.Parser.OddCondition | compile.c:538-542 | "odd" expression, then `opr odd` |
| Compile.Parser.Relation | compile.c:544-579 | A relational operator ends in its comparison. Any other token records "rel-op", is read anyway, and the second expression is compiled with no comparison emitted |
| Compile.Parser.Comparison | compile.c:545-579 | the operator check, the second expression, and the comparison exactly when the token is relational |
| Compile.Parser.SecondOperand | compile.c:558-579 | the second expression, then the comparison the operator names |
| Compile.Parser.EmitCompare | compile.c:560-579 | each relational token emits its comparison operator, completing the condition's code |
| Compile.Parser.RelOperator | compile.c:545-558 | the operator is read; "rel-op" is recorded exactly when it is not relational |
| Compile.Parser.Statement | compile.c:205-391 | earlier code and enclosing scopes are kept, and the input only moves forward |
| Compile.Parser.Construct | compile.c:215-381 | as `Statement`, for a token that begins a statement |
| Compile.Parser.LoopOrCall | compile.c:303-381 | as `Statement`, for do, repeat, for, call, write and writeln |
| Compile.Parser.Assignment | compile.c:216-235 | the stored entry is searchT's answer for the name on the left (`Resolves`); the code ends in `sto` of that entry, or `stoa` exactly when the token after the name is "[" |
| Compile.Parser.AssignTarget | compile.c:219-222 | the entry is searchT's answer for the left name as a variable use (`Resolves`); a kind other than variable or parameter records "var/par"; enclosing scopes are kept |
| Compile.Parser.AssignRest | compile.c:224-234 | an optional subscript exactly when the current token is "[", ":=", the value, then `stoa` or `sto` of the entry |
| Compile.Parser.Subscript | compile.c:225-230 | "[" expression "]": earlier code and scopes are kept |
| Compile.Parser.AssignTail | compile.c:232-234 | ":=" expression, then the store instruction of the entry |
| Compile.Parser.IfHead | compile.c:237-240 | the condition, then a `jpc` still to be patched |
| Compile.Parser.IfStatement | compile.c:236-251 | Without `else`, the `jpc` jumps just past the then-branch. With `else`, it jumps just past the `jmp` that ends the then-branch, and that `jmp` jumps past the else-branch |
| Compile.Parser.ElsePart | compile.c:242-248 | the then-branch's `jpc` is patched to the else-branch and the `jmp` before it to the end |
| Compile.Parser.UnlessStatement | compile.c:252-261 | a `jpc` over a `jmp` that skips the statement |
| Compile.Parser.UnlessHead | compile.c:253-257 | the condition, then an unpatched `jpc` and `jmp` |
| Compile.Parser.ReturnStatement | compile.c:262-270 | the statement ends in `ret`, or, in a procedure block, in `retp` with the block level and the parameter count |
| Compile.Parser.BeginStatement | compile.c:271-292 | earlier code and enclosing scopes are kept |
| Compile.Parser.Separator | compile.c:275-290 | ";" continues and "end" finishes, each read with only the scanner's diagnostics for the next token. A statement-begin token counts as a missing ";" and is not read. Any other token is deleted |
| Compile.Parser.SeparatorStep | compile.c:276-289 | one examination of the token after a statement: stop on ";", "end" or a statement start, otherwise delete it and read on |
| Compile.Parser.SeparatorRepair | compile.c:284-289 | a statement start counts as a missing ";"; anything else is deleted and skipped |
| Compile.Parser.WhileHead | compile.c:294-298 | the loop start, the condition, and its unpatched `jpc` |
| Compile.Parser.WhileStatement | compile.c:293-302 | the body ends in a `jmp` back to the test, and the test's `jpc` jumps just past that `jmp` |
| Compile.Parser.LoopBack | compile.c:309-311 | a `jpc` that leaves the loop just past the `jmp` back to the start that follows it |
| Compile.Parser.DoStatement | compile.c:303-312 | the body first, then the test; a true condition jumps back to the body |
| Compile.Parser.DoTail | compile.c:307-311 | "while" condition, then the exit `jpc` and the `jmp` back to the start |
| Compile.Parser.DoTest | compile.c:307-308 | "while" and the condition after the body: earlier code and enclosing scopes are kept, and the input only moves forward |
| Compile.Parser.RepeatStatement | compile.c:313-320 | a false condition jumps back to the body's start |
| Compile.Parser.RepeatTail | compile.c:317-319 | "until" condition, then the `jpc` back to the start |
| Compile.Parser.ForStatement | compile.c:321-338 | The layout is init, test, `jpc` out, `jmp` to the body, step, `jmp` to the test, body, `jmp` to the step. The `jpc` leaves past the last `jmp` |
| Compile.Parser.ForLoop | compile.c:324-337 | the same layout for everything after the init statement |
| Compile.Parser.ForTest | compile.c:324-328 | ";" condition ";": the test's start and its unpatched `jpc` |
| Compile.Parser.TestJump | compile.c:326-327 | the condition, then its `jpc` |
| Compile.Parser.ForStep | compile.c:329-332 | the `jmp` over the step, the step statement, and the `jmp` back to the test |
| Compile.Parser.ForBody | compile.c:333-337 | the body, the `jmp` back to the step, and the exit `jpc` patched past it |
| Compile.Parser.JumpBack | compile.c:336-337 | `jmp step`, then the exit `jpc` patched to the instruction after it |
| Compile.Parser.CallStatement | compile.c:339-372 | the entry is searchT's answer for the name after "call" as a procedure use (`Resolves`); a procedure is called with `cal` of that entry; any other kind records "proc" and emits nothing |
| Compile.Parser.CallProc | compile.c:341-371 | the entry is searchT's answer for the name (`Resolves`); it is called with `cal` of that entry, or reported |
| Compile.Parser.ProcLookup | compile.c:341-343 | the entry is searchT's answer for the name as a procedure use (`Resolves`: the newest entry spelled so, or 0 after a counted "undef"); a kind other than procedure records "proc" |
| Compile.Parser.WriteStatement | compile.c:373-377 | the value, then `opr wrt` |
| Compile.Parser.WriteLnStatement | compile.c:378-381 | exactly one `opr wrl` and one token read, with only the scanner's diagnostics for that token |
| Compile.Parser.Block | compile.c:41-77 | The block starts with a `jmp` over the inner functions. It lands on the block's `ict`, and the block ends in `ret` or `retp` (always `ret` for the main block). Closing the block restores the enclosing scope |
| Compile.Parser.BlockBody | compile.c:71-76 | the skip `jmp` is patched to the `ict` that reserves the frame, the statement is compiled, and the block ends in a return and is closed |
| Compile.Parser.BlockEntry | compile.c:71-73 | the skip `jmp` and the owner's start address both point at the new `ict frameL()` |
| Compile.Parser.BlockExit | compile.c:75-76 | the return of the block, then one level less with the enclosing height and counter back |
| Compile.Parser.Declarations | compile.c:47-69 | earlier code and enclosing scopes are kept |
| Compile.Parser.Declaration | compile.c:79-204 | for every kind, as `procDecl` and the other wrappers pass it: earlier code and enclosing scopes are kept, and the input only moves forward |
| Compile.Parser.ListContinues | compile.c:99-107 | "," is read and the list goes on; a name counts as a missing "," and is not read; anything else ends the list |
| Compile.Parser.ConstList | compile.c:85-110 | enclosing scopes and the frame size are kept |
| Compile.Parser.ConstItems | compile.c:86-108 | enclosing scopes and the frame size are kept |
| Compile.Parser.ConstItem | compile.c:87-98 | name "=" number enters a constant with that name; without a name, a missing name is recorded and nothing is read |
| Compile.Parser.ConstValue | compile.c:90-95 | a number is entered as the constant's value; anything else records "number"; either way it is read |
| Compile.Parser.ConstEnter | compile.c:91-94 | enters the constant exactly when the token is a number, and otherwise records "number" |
| Compile.Parser.VarList | compile.c:111-140 | enclosing scopes are kept |
| Compile.Parser.VarItems | compile.c:112-138 | enclosing scopes are kept |
| Compile.Parser.VarStep | compile.c:113-137 | one item of the list and the separator after it: earlier scopes are kept, and each step reads a token or counts a diagnostic, so the list ends |
| Compile.Parser.VarItem | compile.c:113-128 | A variable is entered at the next free address. An array reserves the number of cells its size gives, or one cell when there is no size. Without a name, a missing name is recorded and nothing is read |
| Compile.Parser.VarEntry | compile.c:115-125 | The name is entered as a variable at the next free address. The frame grows by one cell, or by the size given in "[" number "]" (one cell when the number is missing) |
| Compile.Parser.VarName | compile.c:115-116 | the variable is entered at the next free address and its name read |
| Compile.Parser.ArraySize | compile.c:118-125 | "[" number "]": the array takes the number of cells given, or 1 when the number is missing; the frame grows by all but the first |
| Compile.Parser.FuncDecl | compile.c:141-177 | The new entry stays visible after its block. It starts at the block's `ict`, counts its parameters, and the block's own names are gone again. Without a name, a missing name is recorded and nothing else happens |
| Compile.Parser.FuncEntry | compile.c:144-146 | the name is entered as a function or procedure starting at the next instruction, and becomes the parameter owner |
| Compile.Parser.FuncBody | compile.c:147-173 | the block runs one level deeper and the level, height and frame come back afterwards. Only the owner's start address and parameter count change |
| Compile.Parser.FuncScope | compile.c:147-167 | the block is opened and its parameters entered at the new level, each with its address j-1-n |
| Compile.Parser.FuncBlock | compile.c:172-173 | the block of the entry and the ";" after it; the block starts with an `ict` |
| Compile.Parser.ParameterPart | compile.c:148-171 | the n parameters are entered with addresses j-1-n, ")" is read, and a ";" before the block is deleted |
| Compile.Parser.CloseParameters | compile.c:166-171 | ")", the parameters' addresses back-filled, and a ";" before the block deleted |
| Compile.Parser.DropSemicolon | compile.c:168-171 | a ";" right after the parameter list is deleted; anything else is left |
| Compile.Parser.Parameters | compile.c:148-165 | each name is entered as a parameter at the current level and counted at the owner |
| Compile.Parser.ParameterStep | compile.c:149-164 | one parameter entered and counted, then whether another follows |
| Compile.Parser.Parameter | compile.c:149-153 | one parameter name entered, counted at the owner, and read |
| Compile.Parser.OpenScope | compile.c:147 | `blockBegin(FIRSTADDR)` for an inner block, seen cell by cell |
| Compile.Parser.Program | compile.c:29-31 | the code starts with the `jmp` to the main block's `ict` and ends with the main block's `ret` |
| Compile.BinaryCompiled | compile.c:429-437 | an operator and its right operand after the left operand form the binary expression, whose code is left, right, then the operator |
| Compile.ParenCompiled | compile.c:516-520 | "(" expression ")" spells and compiles as the parenthesised factor |
| Compile.AppliedCompiled | compile.c:481-507 | a function name, its parenthesised arguments and `cal` form the call factor |
| Compile.IndexedCompiled | compile.c:466-476 | an array name with `lod`, then "[" index "]" and `loda`, form the element factor |
| Compile.ArgStep | compile.c:487-495 | one more argument and its separator extend the list by one, both its tokens and its code |
| Compile.ArgCompiled | compile.c:487-492 | one more argument's tokens and code extend the list |
| Compile.CompareCompiled | compile.c:544-579 | two expressions around a relational operator, then the comparison, form the condition's tokens and code |
| Compile.Compile | compile.c:24-38 | A finished compilation reports whether the error count, which includes the scanner diagnostics recorded when their tokens are read, is below MINERROR. Its code starts with a `jmp` to the main block's `ict`, ends with `ret`, and fits in MAXCODE |
| Compile.CompileSource | compile.c:24-38 | `Compile` on the tokens and diagnostics the scanner yields for the text's stream, with the same guarantees; a program whose final `.` has no newline after it still ends in that period (`Source.FinalPeriodScanned`) |

## Left out

- main.c, file handling and every printed transcript: the HTML/LaTeX token listing, `printcToken`, `printSpaces`, `setIdKind`, `printCode` and the text `listCode` prints. They only produce output. `ListLabels` keeps the part of the listing that decides something: which lines get a label.
- The line buffer of `nextChar` and the `fgets` line limit: the model reads from one character sequence. Lines longer than MAXLINE are not modelled.
- Source.Stream: after the '\0' that ends an unterminated last line, C's `nextChar` goes on reading whatever its line buffer still holds, because it only resets the buffer at a newline. The model treats a read past that '\0' as the end of file. A well-formed program is never read past its final `.`. A malformed one can be: for the program `.`, or `begin x := 1 .` with no `end`, the statement parser deletes the `.` and reads on. C's result then depends on stale bytes of its static line buffer, and is undefined once the reads pass MAXLINE.
- Source.Lexer.ClassOf and Tokens.CodeClass: the model reads Unicode characters and gives every code of 128 or more the class `others`. C indexes `charClassT` with a plain `char`, which is signed on common targets, so a byte of 0x80 or more (for example part of a UTF-8 character) reads before the table.
- The values of `spaces` and `CR` that `nextToken` counts are only printed, so the model does not keep them.
- `getSource.h`, `table.h` and `codegen.h` are not part of this model. The order of `KeyId` is assumed to be the order of the keyword table, with `for` and `call` after `writeln` and `[` and `]` after `:=`. Only the position of the two end markers matters to the proofs.
- Tokens other than identifiers carry the empty spelling, and tokens other than numerals carry value 0. In C those union bytes are garbage and never read.
- Compile.Parser: reads a token sequence with the scanner's diagnostics for each token, not characters, because the scanner as written never yields `for`, `call`, `[` or `]`. `Source.ScanAllNeverBracket` proves that, and the parser would be unreachable for those statements otherwise. `Compile.CompileSource` is the compilation of a text; the character-level scanner is tied to `ScanAll` through `Source.Lexer.NextToken`, not run inside the parser.
- Source.ScanNumber: the value is the unbounded decimal fold. The 32-bit `int` overflow of `num` for long numerals is not modelled; the "too large" diagnostic is.
- Machine: an operation stops with `Fault` where C's behaviour is undefined by 32-bit `int` overflow, a stack or display index out of range, or division by zero. Two undefined behaviours are given a value instead. `stoa` (codegen.c:282-283) reads `top` in its target index and changes it with `top--` in one unsequenced expression; the model takes the intended reading: pop the value, pop the index, store. C sets only `display[0]` (codegen.c:221), and `cal` saves `display[lev]` (codegen.c:238), which may never have been set; the model starts all five display entries, and every stack cell, at 0.
- Machine.Run: has a step budget (`fuel`), because a PL/0 program need not terminate. Running out is `OutOfFuel`.
- Table.SymbolTable: has MAXTABLE+1 cells. When the table holds 99 names, `enterT` writes the hundredth name into cell 100, one past the C array; the model gives that cell a place instead of leaving it undefined.
- Table.SymbolTable.BlockEnd: closing the main block reads `index[-1]` in C. The model leaves the height and the counter unchanged there, which is all that follows it (`finalSource`).
- Table.SymbolTable.InProcedureBlock and FPars: for the main block they read `nameTable[index[-1]]` in C; the model answers "not a procedure" and 0.
- Table.SymbolTable.EndPar: requires the parameters to fit in the table, which the callers guarantee because every parameter was entered.
- CodeGen.Generator.GenCodeR: requires at least one generated instruction, because it reads the last one. Every block emits its `jmp` first.
- CodeGen.Generator.BackPatch: requires `i` to be a generated instruction, which every caller passes.
- CodeGen.Generator.UpdateRef: a target outside the code array marks nothing; in C it writes outside `ref`.
- The state after a fatal error: `errorF` and the abort in `errorNoCheck` end the process, so the model states nothing once `fatal` is set.
- Compile.Parser.Expression and the other expression and condition methods: the exact tree, tokens and code are stated only when the whole call records no counted diagnostic. With diagnostics, only progress and the kept state are stated, plus the final instruction where the source always emits one.
- Compile.Parser.NamedFactor: the leaf instructions of names (`lit`, `lod`, `cal`) are tied to the entry the lookup answers (`NameLeaf`, with `Resolves` in NameFactor). That this entry is the declaration visible in the enclosing blocks is what `Table.Find` states; no separate lemma follows a name back to the declaration that entered it.
- Compile.Parser.Statement, Construct, LoopOrCall, BeginStatement, Declarations, Declaration, ConstList, ConstItems, VarList, VarItems, Subscript: state only that earlier code and enclosing scopes are kept and that the input moves forward. The code of each statement kind is stated by its own method as a jump shape, not as a full instruction sequence.
- Compile.Compile: runs on a token sequence with each token's scanner diagnostics and returns the code and the diagnostic log instead of filling the static arrays. `execute()` is a separate entry point (`Machine.Execute`), as in main.c.
