# asmc, verified core

asmc builds a C compiler in small steps: an assembler, a compiler for a small language called G, and on top of
it, written in G, a C preprocessor and compiler, with a C library beside them.  This project models
the algorithms in that chain that are hardest to get right, and proves what they promise.

Code that only computes is a function here; code that updates counters, vectors, buffers or heap records is a class
or a method on arrays, proved against functions whose properties are then proved as lemmas.
`dafny verify dfyconfig.toml` verifies every file here.

| part | files | the main results |
|---|---|---|
| G compiler | `GSyntax`, `GSpelling`, `GCompile`, `GAccept`, `GEncoding`, `GReading`, `GSymbols`, `GCompiler`, `GTwoPass`, `GEarly`, `GAgree`, `GShape`, `GFrame`, `GMachine`, `GSemantics`, `GCorrect`, `GStrings`, `GData`, `GLayout`, `GProgram`, `GDepth`, `GLeftover`, `GRoutines`, `GLibrary` | the first pass accepts exactly what its rules allow; compiled programs do what they mean, with constants, globals, arrays and strings as the text of the program says; the bytes emitted are, to the processor, the instructions meant; the second pass accepts what the first accepts, at the same locations, exactly if no location is taken too early; the stack is as deep as reckoned on every path; the operators of the library, run instruction by instruction, do what they mean, and exactly when three of them do not do what C does |
| 64-bit division | `Powers`, `Words`, `Int64`, `Int64Div` | the estimate is at most one too large; all four divisions, mended, are exact for all operands; for each of the four, exactly when its shipped text is |
| expression parser | `CAst`, `CAstReading`, `CGrammar`, `CBlanks`, `CAccepted`, `CSentences`, `CAstParser` | every sentence of the C expression grammar is read to its end and gives its tree, with blanks between its tokens exactly if they leave no gap; printing with the fewest parentheses and parsing is the identity; whatever is accepted has operands and operators grouped by the tables, exactly if no operator stands behind a dot - operands that the parser does not look at, so that a stray bracket may be one - and is a sentence of the grammar exactly if its operands are words, assignments are to unary expressions and names follow dots |
| C statements | `CPaths`, `CStatements`, `CPlan`, `CLabels`, `CDiscipline`, `CSwitches`, `CProgram`, `CMeaning`, `CFollows`, `CCompiler` | the three stages accept exactly what the language admits; the code evaluates the expressions that the statements mean - guards, the parts of a `for`, values of switches and returns, and initialisers too - in that order, each with the stack just as deep as the variables in scope; every label is reached with the recorded stack depth, exactly if no dispatch that lies on a path finds a case label of another depth |
| quicksort | `Qsort` | sorts an array of bytes cut into elements of any size, for every count and every total preorder; scans stay inside; 64 slots suffice |
| map | `CString`, `BstShape`, `BstMap` | the tree of records is a finite map under set, erase, lookup, traversal |
| allocator | `Kmalloc` | blocks in use are disjoint, kept and large enough; no block is lost; exactly which sizes are refused |
| numbers | `Strtox`, `Numerals`, `Subjects`, `Printf`, `Fields` | the strto* functions take the longest beginning of the input that has the form of a number, in any base, and clamp; what the printf conversions write is the one field that width, precision and flags allow, and is read back; what vsnprintf leaves in its buffer, and exactly when it ends with a zero |
| macros | `Preproc` | repeated passes end, exactly if no token of the input leads into a cycle of macros, and then in the recursive expansion, the only list without macros that the input can be rewritten to |
| file image | `DiskFs` | what the writer writes has the format described, and the reader reads it |

## How the G compiler is modelled

`GSyntax` turns tokens into trees, `GCompile` says what one pass does with a tree (functions `Run...` on the state of a
pass), `GReading` joins the two, and the class `GCompiler.Compiler` has the counters, the stack of names, the
token buffer and the token loops of attic/gstaging.c, with a symbol table like the one of attic/staging.c.
`GSemantics` is an interpreter for the meaning of README.md:521-673, `GMachine` the processor.  Instructions are abstract
but as long as the bytes that the compiler emits; `GEncoding` has the bytes, and a decoder after the processor's manual that
finds in them what `GMachine` carries out.  What a name stands for is taken from the text (`GData.SymbolsOf`), with only the
places of functions, globals, arrays, labels and strings left to the compiler, and `GLayout` and `GStrings` say what lies
there.

The compiler relies on rules that it does not check: at a closing brace there are as many temporaries as at the opening
one; the guard of an `if` or a `while` leaves one; no name is `__temp`; no constant, length or arity is taken from a
function that is declared and not yet defined.  The pass notes in its state (`clean`) whether they were
kept.  What the compiled program does is claimed of programs that keep to them; that the two passes agree needs none of
them, and its exact condition is said of the text of the program (`GEarly.ReadsEarly`).  A run of the interpreter that
does something undefined, overflows the stack or exceeds the number of calls and loop turns it is given is `Stuck`, and
nothing is claimed about it; the number is arbitrary, so every run that ends is covered.

## Where the code and its descriptions differ

- README.md:580-582 lets a G function leave values on its stack.  The compiler rejects a program if and only if some
  function's block ends with more temporaries than it began with (`GLeftover.RejectedIffLeftover`; the smallest such
  program is `GLeftover.LeftoverRejected`).
- README.md:646-648 calls the operators of G very similar to those of C.  `/` of asmg/kernel-asmg.asm:301-308 clears edx and then
  divides as signed: it truncates as C does if and only if the dividend is not negative (`GLibrary.SlashExactIff`), and
  for `%` there are a few more cases (`GLibrary.PercentExactIff`).  `--`, of one argument, negates the dword above its
  argument (`GLibrary.NegateExactIff`).
- asmg/int64_div.g declares `tmp2` and `tmp2_` (lines 113-114) and `one` and `one_` (lines 115-116) in the order opposite to all
  other pairs, and line 133 has `@n` for `n`.  `Int64Div.Udiv` is the routine with all three mended (with `tmp2` mended alone, the
  high dword of `one` would lie on it), `Int64Div.UdivShipped` the one as it is.  `ShippedExactIff` says when it is
  exact, `SdivShippedExactIff`, `UmodShippedExactIff` and `SmodShippedExactIff` say it of the routines that call it, and
  `ShippedWrong` names operands for which it is not.
- asmg/c_ast.g:372-387 looks at the token behind the parenthesis of a call before it skips blanks: a list of arguments that
  consists of blanks is refused (`CBlanks.BlanksIff`).
- asmg/c_ast.g:425-474 pushes a prefix operator behind `.` or `->`, which then takes the placeholder of the prefix operator
  for its right operand: such input is accepted with a tree that no expression has (`CAccepted.AcceptedIff`, `CAccepted.DotPrefix`).
- asmg/c_ast.g:495-503 takes any token that is not an operator or an opening parenthesis for an operand, and the priorities of
  lines 116-172 let a sum stand left of an assignment: `a + ]` and `a + b = c` are accepted.  `CSentences.SentenceIff`
  says which accepted inputs are expressions of the language (`CSentences.StrayOperand` has the smallest that are not).
- strcmp of asmg/utils.g:248-266 answers with the sign opposite to the C function, so the trees of asmg/avl_map.g have
  the greater keys on the left and map_foreach visits keys from the last to the first (`BstMap.VisitedBackwards`).
- asmg/c_compile.g:2371-2387 moves the stack before a conditional jump whether or not it is taken.  The dispatch of a
  switch therefore reaches its labels as recorded if and only if all case labels are as deep as the switch
  (`CSwitches.DispatchExact`), and a function keeps to its recorded depths if and only if that holds of every
  dispatch that lies on a path (`CSwitches.FunctionExact`); a case behind a declaration breaks it
  (`CSwitches.MisplacedCase`).
- asmg/kmalloc.g:80 adds the header to the size in a signed word: from 2^31 - 4 on the block is too small
  (`Kmalloc.BlockSize`).
- attic/gstaging.c:519-540 and 451-464 take a location from a function that is declared and not yet defined as 0xffffffff in the first
  pass and as something else in the second.  A program that the first pass accepts is then refused by the second if and only if
  such a function, defined later on, is the operand of a `const`, the arity of a call through a value, or the length of an
  array without lying at location 0 (`GAgree.SecondPassAgrees`; the smallest such program is `GAgree.PendingConstantRejected`).
- A number printed with `%#u` or `%#d` has no prefix; in base 0 it is read back if and only if no zeros lead or it is
  below 8 (`Printf.DecimalInBaseZero`).
- diskfs/stdlib/_printf.h:646-686 ends an overlong text with a zero only if a conversion ends at the limit or behind it
  (`Printf.Vsnprintf`).
- asmg/c_preproc.g:880-900 runs for ever if and only if a token of its input leads into a cycle of macros (`Preproc.EndsIff`).
- asmg/diskfs.g:89-114 lets a position lie before the file; a read there passes its test, which is signed, and gives what the
  disk has before the file (`DiskFs.DiskFd.Seek`, `DiskFs.DiskFd.Read`).

## Model

| member | source | states |
|---|---|---|
| `GProgram.CompilerCorrect` | attic/gstaging.c:583-602 | main result: a program that the first pass accepts and that keeps to the rules is accepted by the second pass, and a call of any of its functions, with any arguments and memory, in the loaded code, with the constants and the kinds of names that the text gives, returns the value and leaves the memory that the meaning of README.md:521-673 gives, with the stack and frame pointers of the caller restored |
| `GProgram.ProgramStarts` | attic/gstaging.c:583-602 | main result: so does a call of a function without arguments, right after loading, when every global and every word of an array is zero |
| `GData.TableIsText` | attic/gstaging.c:496-545 | main result: the table that the first pass leaves is the one that the text asks for: each `const` has its number, or the value or location of the symbol that it names as known there, and every name the kind and the number of arguments of its declaration |
| `GLayout.ConstantsMean` | attic/gstaging.c:519-525 | in an accepted program each `const` has its literal, or the location of the symbol that it names |
| `GLayout.DataInPlace` | attic/gstaging.c:526-540 | main result: in the loaded code each global has four zero bytes at its location, and each array as many as its length says, inside the program and apart from the bytes of every other declaration |
| `GLayout.StoreLoaded` | attic/gstaging.c:526-540 | loaded as memory these bytes are zero words for globals and arrays, all inside the program |
| `GLayout.CellsApart` | attic/gstaging.c:526-540 | and no two of these words overlap |
| `GStrings.StringsInPlace` | attic/gstaging.c:465-476 | main result: in the loaded code of an accepted program the address pushed for a string literal leads to the bytes of its token, one after the other, and a zero behind them |
| `GEncoding.CodeRead` | attic/gstaging.c:67-91 | main result: the bytes of the whole code, decoded at the place of any instruction in it as the processor does (Intel 64 and IA-32 manual, volume 2), are an instruction of that length which does what the machine of this model does, operands cut to 32 bits; where data stands they are the data |
| `GEncoding.InstrRead` | attic/gstaging.c:293-346 | the same of each instruction that the compiler emits, wherever its bytes lie |
| `GEncoding.WordRead` | attic/gstaging.c:75-80 | a number written by emit32, lowest byte first, is read back as the signed number of its low 32 bits |
| `GSpelling.ReadsIff` | attic/gstaging.c:391-545 | main result: the compiler reads exactly the sequences of tokens that spell a program, and reads that program, but for the numbers of its labels |
| `GSpelling.ProgramSpelled` | attic/gstaging.c:495-545 | what is read spells the tokens that were read, all of them |
| `GSpelling.ProgramRead` | attic/gstaging.c:495-545 | and a program that is spelled out is read back |
| `GAccept.PassAccepted` | attic/gstaging.c:583-602 | main result: the first pass accepts a program exactly if each of its pieces is allowed in the state that those before it leave, and nothing is left on the stack at the end; what is allowed is said of each piece without the code that it makes |
| `GAccept.DeclAccepted` | attic/gstaging.c:500-543 | a declaration: names are new, short enough and within the table, but that an `ifun` may come again and a function may have been declared with as many arguments and not been defined; what a definition refers to comes before it, but that the length of an array may be the array itself |
| `GAccept.BlockAccepted` | attic/gstaging.c:391-493 | a block: its statements, and a stack not less deep at its end than at its start |
| `GAccept.ItemAccepted` | attic/gstaging.c:401-486 | a statement of each kind: a local only where no temporaries are on the stack, a call through a value only with its arguments below it |
| `GAccept.GuardAccepted` | attic/gstaging.c:349-378 | a guard must leave a value to decide by |
| `GAccept.PushAccepted` | attic/gstaging.c:293-346 | an expression: no `@` before a number or a constant, its name known, the arguments of a call on the stack, room for the result, room in the table for the labels of a string; and how it changes the number of temporaries |
| `GProgram.FunctionCorrect` | attic/gstaging.c:502-511 | the same for a single function in memory, called from anywhere, early `ret` or not |
| `GProgram.FunctionFound` | attic/gstaging.c:502-511 | each function is found at the address of its own name; no two share one |
| `GProgram.ProgramLoaded` | attic/gstaging.c:496-545 | every function lies in memory as its body compiles |
| `GLeftover.RejectedIffLeftover` | attic/gstaging.c:586-601 | main result: a program whose declarations all compile fails the checks behind the pass if and only if some function's block ends with more temporaries than it began with; no later function can make up for it |
| `GLeftover.LeftoversAddUp` | attic/gstaging.c:496-545 | the count behind a program is positive if and only if it was before, or some function leaves values |
| `GLeftover.BlockNoLess` | attic/gstaging.c:488-492 | an excess of temporaries over the stack never shrinks, through any statement and its closing brace |
| `GLeftover.LeftoverRejected` | attic/gstaging.c:488-511 | the smallest such program: one function that pushes one value |
| `GCorrect.BlockCorrect` | attic/gstaging.c:392-493 | a block: run from any state that lays out the frame, its code reaches a state that lays out the result, and its locals are gone |
| `GCorrect.ItemsCorrect` | attic/gstaging.c:397-487 | a sequence of statements, including one that returns in the middle |
| `GCorrect.ItemCorrect` | attic/gstaging.c:401-487 | each kind of statement follows its meaning |
| `GCorrect.IfCorrect` | attic/gstaging.c:415-433 | `if` with and without `else`: the processor takes the branch that the guard says, and both come out behind it |
| `GCorrect.WhileCorrect` | attic/gstaging.c:434-445 | a loop of any number of turns |
| `GCorrect.GuardCorrect` | attic/gstaging.c:415-420 | the guard is evaluated, popped, and sends the processor on or to the label |
| `GCorrect.CallCorrect` | attic/gstaging.c:336-346 | a call of a function of the program, of a library routine or of `param`: arguments popped, result pushed, the frame of the caller kept |
| `GCorrect.ParamCall` | asmg/kernel-asmg.asm:257-267 | `param` reads the argument of the function that calls it, counted from the last |
| `GCorrect.FindIndex` | attic/gstaging.c:147-155 | the distance that the lookup finds leads to the innermost local of that name |
| `GCorrect.VariableCorrect` | attic/gstaging.c:303-331 | a local, a global or a constant pushes its value, or with `@` its address |
| `GCorrect.StringCorrect` | attic/gstaging.c:465-476 | a string literal pushes the address of its bytes, which end with a zero, and is jumped over |
| `GCorrect.IndirectCorrect` | attic/gstaging.c:451-464 | a call through a value |
| `GCorrect.RetCorrect` | attic/gstaging.c:407-414 | `ret` from any depth takes the whole frame off and returns the top value |
| `GCorrect.SemiCorrect` | attic/gstaging.c:403-406 | `;` drops all temporaries |
| `GDepth.DepthOnEveryPath` | attic/gstaging.c:115-155 | main result: on every path through the body of a function, whatever the values, esp == ebp - 4 * depth at every instruction, for the depth that the compiler reckons there |
| `GDepth.ItemEdges` | attic/gstaging.c:415-445 | both arms of an `if`, the way into a loop and its back edge agree on the depth where they meet |
| `GDepth.RetEdges` | attic/gstaging.c:407-414 | a return takes exactly the depth off |
| `GAgree.SecondPassAgrees` | attic/gstaging.c:583-602 | main result: whatever the first pass accepts the second accepts too, with as many bytes and with every symbol and label at the location that the first recorded, if and only if no function that is declared, not yet defined and defined later is the operand of a `const`, the arity of a call through a value, or, with a positive location, the length of an array |
| `GAgree.CleanAgrees` | attic/gstaging.c:583-602 | so a program that keeps to the rules is accepted by the second pass |
| `GAgree.ProgramAgrees` | attic/gstaging.c:496-545 | the same from any point of a program on, with the functions declared and defined before it |
| `GAgree.ItemsSim` | attic/gstaging.c:397-487 | statements that take no arity too early pass again, from states that match to states that match |
| `GAgree.ItemsRejected` | attic/gstaging.c:451-464 | statements that do fail in the second pass: the call would pop more values than all the bytes before it can have pushed |
| `GAgree.ComeApart` | attic/gstaging.c:511-540 | once the locations of the passes differ, the next declaration that has one is refused |
| `GAgree.DeclRejected` | attic/gstaging.c:496-545 | a declaration that takes a location too early stops the second pass, at once or at the next one with a location |
| `GAgree.PendingConstantRejected` | attic/gstaging.c:519-525 | the smallest such program: `ifun f 0 const c f fun f 0 { }` passes the first pass and not the second |
| `GEarly.PendingLater` | attic/gstaging.c:502-518 | a declared function gets a location if and only if it is defined in what follows, and then one that lies there |
| `GEarly.CleanReadsNothingEarly` | attic/gstaging.c:451-540 | where the first pass has noted nothing, no location was taken too early |
| `GTwoPass.ProgramFacts` | attic/gstaging.c:496-545 | the code of a program is as long as the location has moved, and the table only grows |
| `GShape.BlockShape` | attic/gstaging.c:488-492 | a block gives the symbolic stack back as it was |
| `GShape.LoopStack` | attic/gstaging.c:434-445 | at the start of a loop, after its guard is popped and after its body the symbolic stack is the same |
| `GShape.WhileParts` | attic/gstaging.c:434-445 | the labels of a loop are where its code begins and ends |
| `GLibrary.RoutineHolds` | asmg/kernel-asmg.asm:239-495 | each routine behind an operator, executed instruction by instruction from its arguments on the stack, leaves in eax and in memory what the operator means; a byte is loaded and stored where a word starts |
| `GLibrary.OperatorHolds` | asmg/kernel-asmg.asm:269-461 | all binary operators that store nothing, the bitwise ones too, wherever C gives them a meaning and no negative number is divided |
| `GLibrary.BitwiseBits` | asmg/kernel-asmg.asm:423-448 | each bit of the result of `&`, `&#124;` and `^` is that of the bits of the operands |
| `GLibrary.LibraryHolds` | asmg/kernel-asmg.asm:239-495 | so these routines meet all that the correctness of the compiler asks of the library |
| `GLibrary.SlashExactIff` | asmg/kernel-asmg.asm:301-308 | `/` gives the truncated quotient, without a fault, if and only if the dividend is not negative |
| `GLibrary.PercentExactIff` | asmg/kernel-asmg.asm:310-318 | `%` gives the remainder of truncating division if and only if the dividend is not negative, or the quotient fits and the divisor divides the dividend and 2^32 |
| `GLibrary.NegateExactIff` | asmg/kernel-asmg.asm:285-291 | `--` gives the negated argument if and only if the dword above the argument happens to equal it |
| `GLibrary.ImulWraps` | asmg/kernel-asmg.asm:293-299 | the low dword of the signed product is the product modulo 2^32 |
| `GCompiler.Compiler.Compile` | attic/gstaging.c:583-602 | succeeds exactly if both passes do, and emits what the second emits; what the first pass accepts succeeds if and only if it takes no location too early; a program that keeps to the rules fails in the first pass if at all; what is compiled is the program that the tokens spell, and its names stand in the table for what its text says |
| `GCompiler.Compiler.Pass` | attic/gstaging.c:586-600 | one pass over the input is the pass function on what the tokens spell |
| `GCompiler.Compiler.Parse` | attic/gstaging.c:496-545 | the declarations: exactly those of the input, read to its end |
| `GCompiler.Compiler.ParseDeclaration` | attic/gstaging.c:500-543 | one declaration of each kind |
| `GCompiler.Compiler.ParseFunction` | attic/gstaging.c:502-511 | prologue, block, epilogue |
| `GCompiler.Compiler.DefineArray` | attic/gstaging.c:531-540 | an array: its symbol, and as many zero bytes as its length says |
| `GCompiler.Compiler.EmitZeros` | attic/gstaging.c:537-540 | the loop that lays out the zero bytes; none for a negative length |
| `GCompiler.Compiler.ParseBlock` | attic/gstaging.c:392-493 | a block is read and compiled up to its closing brace, and the depth restored |
| `GCompiler.Compiler.ParseStatements` | attic/gstaging.c:397-487 | the loop over the statements |
| `GCompiler.Compiler.ParseStatement` | attic/gstaging.c:401-486 | one statement, by its first token |
| `GCompiler.Compiler.ParseIf` | attic/gstaging.c:415-433 | `if`, its block, and the `else` or the token given back |
| `GCompiler.Compiler.ParseWhile` | attic/gstaging.c:434-445 | `while` |
| `GCompiler.Compiler.PushExprUntilBrace` | attic/gstaging.c:349-378 | a guard up to its brace, which is given back |
| `GCompiler.Compiler.PushExpr` | attic/gstaging.c:293-346 | a number, a local, a global or a call |
| `GCompiler.Compiler.PushString` | attic/gstaging.c:465-476 | a string literal, between its two labels |
| `GCompiler.Compiler.CallIndirect` | attic/gstaging.c:451-464 | a call through a value, with an arity from a number or a symbol |
| `GCompiler.Compiler.Return_` | attic/gstaging.c:407-414 | `ret` |
| `GCompiler.Compiler.DeclareVar` | attic/gstaging.c:446-450 | `$name` |
| `GCompiler.Compiler.UnwindStack` | attic/gstaging.c:488-492 | the end of a block: the difference of the depths is added to esp and the depth restored; refused if the stack is less deep than at its start |
| `GCompiler.Compiler.EndBlock` | attic/gstaging.c:488-492 | the same with the depth of blocks, behind the code of the statements |
| `GCompiler.Compiler.PushVar` | attic/gstaging.c:115-127 | push_var of a local: refused for an empty or overlong name or a full stack, and where temporaries are on top |
| `GCompiler.Compiler.PopVar` | attic/gstaging.c:130-137 | pop_var |
| `GCompiler.Compiler.PopVars` | attic/gstaging.c:459-462 | as many values as a call takes |
| `GCompiler.Compiler.FindInStack` | attic/gstaging.c:147-155 | the search from the top: the distance of the innermost variable of that name, or -1 |
| `GCompiler.Compiler.GetToken` | attic/gstaging.c:163-228 | the next token of the input, or the one given back |
| `GCompiler.Compiler.GiveBackToken` | attic/gstaging.c:231-234 | never twice in a row |
| `GCompiler.Compiler.DecodeNumberOrSymbol` | attic/gstaging.c:381-389 | a number, or the location of a symbol |
| `GSymbols.SymbolTable.IndexOf` | attic/staging.c:176-184 | the row of a name, or the number of symbols |
| `GSymbols.SymbolTable.Find` | attic/staging.c:187-200 | location and arity of a symbol, or that there is none |
| `GSymbols.SymbolTable.Add` | attic/staging.c:203-214 | a new row; refused for a name that is there, an empty or overlong name or a full table |
| `GSymbols.SymbolTable.AddWrapper` | attic/staging.c:217-231 | defined in the first pass, checked in the second |
| `GSymbols.SymbolTable.AddPlaceholder` | attic/staging.c:234-246 | declared in the first pass, checked to be there in the second |
| `GSymbols.SymbolTable.FixPlaceholder` | attic/staging.c:249-266 | a declared symbol gets its location in the first pass, and is checked in the second |
| `DivisionEstimate.EstimateBound` | asmg/int64_div.g:91-129 | main result: for 2^32 <= d <= n < 2^64 the estimate is the quotient or one more |
| `DivisionEstimate.NlzNormalises` | asmg/int64_div.g:37-64 | shifted by its count of leading zeros a word has its top bit set, and loses nothing |
| `DivisionEstimate.TopWordCuts` | asmg/int64_div.g:103-117 | normalising loses no bit on the left, and cutting the low dword is a division by a power of two |
| `DivisionEstimate.RemainderDecides` | asmg/int64_div.g:130-136 | the remainder left by the estimate minus one is below d exactly if the estimate is one too large |
| `DivisionEstimate.TwoStepDivision` | asmg/int64_div.g:72-90 | dividing the high dword first and carrying its remainder down is division |
| `Int64Div.CountLeadingZeros` | asmg/int64_div.g:37-64 | the five masks count the leading zeros of every nonzero word |
| `Int64Div.EstimateNeedsNoTrap` | asmg/int64_div.g:118-124 | the 64-by-32 division of the normalised operands cannot overflow |
| `Int64Div.EstimateQuotient` | asmg/int64_div.g:103-129 | leaves the estimate minus one and its product with d, as shipped |
| `Int64Div.UdivSmall` | asmg/int64_div.g:72-90 | a divisor of 32 bits: the exact quotient |
| `Int64Div.UdivLarge` | asmg/int64_div.g:91-141 | a divisor of more: the exact quotient, with lines 113-116 and 133 mended |
| `Int64Div.Udiv` | asmg/int64_div.g:66-142 | with lines 113-116 and 133 mended: n becomes floor(n / d), for all n and d != 0; refused for d == 0; nothing but n and the frame changes |
| `Int64Div.Sdiv` | asmg/int64_div.g:144-180 | over the mended i64_udiv: truncates toward zero for all signed operands with d != 0, -2^63 included, modulo 2^64 |
| `Int64Div.Umod` | asmg/int64_div.g:182-194 | over the mended i64_udiv: n becomes n mod d |
| `Int64Div.Smod` | asmg/int64_div.g:196-208 | over the mended i64_udiv: n becomes the remainder of the truncating division, of the sign of n |
| `Words.TruncDivMeaning` | asmg/int64_div.g:144-208 | what truncation means: n == q * d + r, &#124;r&#124; < &#124;d&#124;, r zero or of the sign of n (section 6.5.5 of ISO/IEC 9899:2011) |
| `Int64Div.UdivShipped` | asmg/int64_div.g:66-142 | what the routine computes exactly as shipped, from operands, addresses and the saved frame pointer |
| `Int64Div.ShippedExactIff` | asmg/int64_div.g:112-136 | the shipped quotient is right if and only if the divisor has 32 bits, or exceeds n, or the bytes that line 133 copies compare as the remainder would |
| `Int64Div.ShippedOffByOne` | asmg/int64_div.g:130-136 | when it is wrong it is wrong by one |
| `Int64Div.SdivShipped` | asmg/int64_div.g:144-180 | what i64_sdiv leaves in n exactly as shipped: it hands its own locals to i64_udiv, so line 133 copies the address of tmp1 and this frame pointer |
| `Int64Div.SdivShippedExactIff` | asmg/int64_div.g:144-180 | that is the truncated quotient if and only if the magnitudes meet the condition of i64_udiv |
| `Int64Div.UmodShipped` | asmg/int64_div.g:182-194 | what i64_umod leaves in n exactly as shipped |
| `Int64Div.UmodShippedExactIff` | asmg/int64_div.g:182-194 | that is n mod d if and only if the operands meet the condition of i64_udiv |
| `Int64Div.SmodShipped` | asmg/int64_div.g:196-208 | what i64_smod leaves in n exactly as shipped |
| `Int64Div.SmodShippedExactIff` | asmg/int64_div.g:196-208 | that is the remainder of truncating division if and only if the magnitudes meet the condition of i64_udiv |
| `Int64Div.ShippedWrong` | asmg/int64_div.g:133-134 | 2^63 / 2^63 comes out as 0 whenever the stack lies below 2^31 |
| `Int64.Add` | diskfs/int64/int64.asm:123-131 | addition modulo 2^64 by two dword additions |
| `Int64.Sub` | diskfs/int64/int64.asm:133-140 | subtraction modulo 2^64, operands overlapping or not |
| `Int64.Neg` | diskfs/int64/int64.asm:142-157 | negation modulo 2^64 |
| `Int64.Mul` | diskfs/int64/int64.asm:159-181 | multiplication modulo 2^64 from three dword products |
| `Int64.UdivByWord` | diskfs/int64/int64.asm:183-197 | the quotient, upper dword 0, if the upper dword is below the divisor |
| `Int64.Shl` | diskfs/int64/int64.asm:199-218 | shift left modulo 2^64; for counts from 64 on, by 32 and what the processor takes of the count |
| `Int64.Shr` | diskfs/int64/int64.asm:220-240 | shift right; for counts from 64 on likewise |
| `Int64.Ul` | diskfs/int64/int64.asm:337-347 | unsigned comparison |
| `CGrammar.ParsesTheGrammar` | asmg/c_ast.g:287-541 | main result: every sentence of the expression grammar (section 6.5 of ISO/IEC 9899:2011), followed by an end token or nothing, is read to its end, nothing more, and gives the tree of its derivation |
| `CGrammar.RoundTrip` | asmg/c_ast.g:287-541 | main result: every well-formed tree, printed with parentheses only where an operand needs them, is parsed back |
| `CGrammar.PrintShortest` | asmg/c_ast.g:287-541 | no proper expression with the same tree has fewer parentheses than the printed one |
| `CBlanks.BlanksIff` | asmg/c_ast.g:324-326 | main result: a sequence of tokens is accepted if and only if it is accepted without its blanks and no blanks stand alone between two parentheses, and then with the same tree |
| `CBlanks.ParsesWithBlanks` | asmg/c_ast.g:287-541 | so a sentence of the grammar with blanks between its tokens gives its tree if the blanks leave no gap, and is refused otherwise |
| `CBlanks.LoopBlanks` | asmg/c_ast.g:304-512 | from any stacks on, the loop does the same with and without the blanks |
| `CBlanks.LoopGaps` | asmg/c_ast.g:372-387 | what has been read to its end has no gap |
| `CAccepted.AcceptedIff` | asmg/c_ast.g:287-541 | main result: an accepted sequence of tokens, blanks aside, is the text of an expression that is grouped by the tables and has the returned tree, if and only if no operator stands right behind `.` or `->`; the parser does not look at operands, so that a closing bracket or a colon counts as one |
| `CAccepted.AcceptedReads` | asmg/c_ast.g:287-541 | that expression, its operands any tokens that the parser takes: no token is lost, added or moved |
| `CSentences.SentenceIff` | asmg/c_ast.g:287-541 | main result: an accepted sequence of tokens, blanks aside, is a sentence of the grammar if and only if it can be read with words for operands, a unary expression before every assignment operator and a name behind every dot |
| `CSentences.ReadingDerives` | asmg/c_ast.g:116-227 | an expression grouped by the tables derives from the grammar if and only if it meets these three conditions |
| `CSentences.StrayOperand` | asmg/c_ast.g:495-503 | `a + ]` is accepted, with the bracket for an operand, and is no sentence |
| `CAccepted.LoopAccepted` | asmg/c_ast.g:297-512 | the invariant behind it: the stacks always hold the text read so far |
| `CAccepted.Rewinds` | asmg/c_ast.g:229-283 | rewinding completes operators without changing the text, and leaves what the new operator must not reduce |
| `CAccepted.LoopDoomed` | asmg/c_ast.g:116-172 | an operator without a priority where it stands is never accepted, even if it is the first |
| `CAccepted.DotPrefix` | asmg/c_ast.g:425-474 | `a . ! b` is accepted, with a tree in which `.` has no right operand |
| `CGrammar.GrammarUnambiguous` | asmg/c_ast.g:116-227 | two derivations of the same tokens give the same tree |
| `CGrammar.DerivesProper` | asmg/c_ast.g:116-227 | the priority and associativity tables agree with the levels of the grammar |
| `CGrammar.PrintProper` | asmg/c_ast.g:116-227 | the printed form puts every operand where its priority allows it |
| `CAstReading.ParseReads` | asmg/c_ast.g:287-541 | every expression whose operands stand as the tables demand is read back wherever it stands in the input |
| `CAstReading.Reads` | asmg/c_ast.g:297-512 | the invariant behind it: reading an expression puts its right spine on the three stacks |
| `CAstReading.RewindFolds` | asmg/c_ast.g:229-283 | ast_rewind_stack folds up exactly the operators that bind at least as tightly |
| `CAstReading.SpineReduces` | asmg/c_ast.g:229-283 | an operator that may take an expression as its left operand reduces everything on its spine |
| `CAstReading.ReadsTernary` | asmg/c_ast.g:352-365 | the centre of `?:` is read as an expression of its own |
| `CAstReading.ReadsCall` | asmg/c_ast.g:372-387 | a call, with or without arguments |
| `CAstReading.ReadsPrefix` | asmg/c_ast.g:425-474 | prefix operators, with placeholder operands |
| `CAstReading.LevelsAgree` | asmg/c_ast.g:174-227 | operators of equal priority group the same way |
| `CAstParser.ParseV` | asmg/c_ast.g:287-541 | the loop over tokens with its vectors and one token of give-back computes the parsing function, fails exactly where it does, and terminates |
| `CAstParser.ParseOperator` | asmg/c_ast.g:335-401 | a token where an operator is expected |
| `CAstParser.ParseOperand` | asmg/c_ast.g:402-505 | a token where an operand is expected |
| `CAstParser.ParseEnclosed` | asmg/c_ast.g:543-556 | a parenthesised or bracketed expression and its closing token |
| `CAstParser.Stacks.RewindStack` | asmg/c_ast.g:229-283 | the loop over the vectors computes the rewinding function, and fails exactly where an assertion does |
| `CAstParser.TokenSource.GetToken` | asmg/c_preproc.g:54-71 | the next token, or null at the end, where the index stays |
| `CAstParser.TokenSource.GiveBackToken` | asmg/c_preproc.g:83-91 | one step back |
| `CCompiler.Compiler.Compile` | asmg/c_compile.g:6015-6062 | main result: the three stages succeed if and only if every function is admitted by the language (sections 6.8.1, 6.8.4.2 but for equal constants, and 6.8.6 of ISO/IEC 9899:2011); the stored code of every function evaluates the expressions of its statements - guards, the parts of a `for`, values of switches and returns, initialisers - as they mean, in order; and on every path it keeps to the recorded stack depths if and only if every dispatch on a path finds all case labels as deep as the switch, and then evaluates each expression with the stack exactly as deep as the variables in scope |
| `CSwitches.FunctionExact` | asmg/c_compile.g:5599-5620 | main result: a function keeps to the recorded depths on every path, at labels and at expressions, if and only if every dispatch that lies on a path finds all case labels as deep as its switch |
| `CSwitches.DispatchNeeds` | asmg/c_compile.g:5379-5422 | that a dispatch on a path finds them so is needed |
| `CSwitches.PlanShaped` | asmg/c_compile.g:5059-5563 | comparisons stand in dispatches only |
| `CSwitches.FunctionDisciplined` | asmg/c_compile.g:5599-5620 | where case labels stand before all declarations of their blocks: fall-through, break, continue, goto in either direction, return, case and default reach their labels, and the end of the function, as deep as recorded |
| `CDiscipline.PlanLeads` | asmg/c_compile.g:5059-5563 | each kind of statement, entered at its depth, leads on at its depth, whatever jumps it takes |
| `CFollows.FunctionBehaves` | asmg/c_compile.g:5599-5620 | main result: run from its start, with any answers to its guards, a function evaluates exactly the expressions that its statements mean, in their order, and comes to its end: expression statements, the guards of `if` and of loops before each test, the first expression of a `for` once and the third between its turns, the values of switches and returns, and initialisers; beside each stands how many bytes of variables are in scope, its own included for an initialiser |
| `CFollows.RunsKeepDepths` | asmg/c_compile.g:2346-2388 | and if it keeps to its recorded depths on every path, that run meets every label, and the epilogue, with the stack as deep as recorded, and every expression with the stack as deep as the compiler takes it to be |
| `CFollows.ScopesKept` | asmg/c_compile.g:5511-5581 | main result: then it evaluates each expression with the stack exactly as deep as the variables in scope by the statements - for an initialiser its own variable among them - and ends with an empty stack |
| `CFollows.BodyFollows` | asmg/c_compile.g:5599-5620 | the same from any entry, `goto` from label to label included |
| `CFollows.Follows` | asmg/c_compile.g:5059-5563 | one statement, entered at its start or at a label inside, does what it means and goes where that leads: on, to the end of the loop or switch, to its next turn, to a named label, or out of the function |
| `CFollows.IfFollows` | asmg/c_compile.g:5136-5172 | `if`: the guard is evaluated first, and then the branch that it picks |
| `CFollows.LoopFollows` | asmg/c_compile.g:5175-5337 | `for`, `while` and `do`, for any number of turns, entered from above or at a label in the body |
| `CFollows.TurnsFollow` | asmg/c_compile.g:5199-5217 | the turns of a loop: the guard before each, and none to evaluate where a `for` has no second expression |
| `CFollows.LoopBack` | asmg/c_compile.g:5219-5248 | from the end of the body, and from where `continue` leads: the third expression of a `for` and the next turn, or the guard of a `do` |
| `CFollows.SwitchFollows` | asmg/c_compile.g:5339-5431 | `switch`: its value is evaluated, and it is entered at the case label that the dispatch picks, at `default`, or not at all |
| `CFollows.OnceUnique` | asmg/c_compile.g:2264-2284 | where every label is fixed at most once, each is found at one place of the code |
| `CFollows.PartsBehave` | asmg/c_compile.g:6023-6049 | every function of a program, among the others |
| `CMeaning.AdmittedNeverWrong` | asmg/c_compile.g:5059-5563 | the meaning of an admitted function never comes to a break, continue, case or name that leads nowhere |
| `CSwitches.CasesStand` | asmg/c_compile.g:5433-5452 | case labels before all declarations of their blocks are as deep as the switch |
| `CSwitches.DispatchExact` | asmg/c_compile.g:5379-5422 | the dispatch of a switch reaches its labels as recorded if and only if all case labels are as deep as the switch |
| `CDiscipline.ComparisonsFollow` | asmg/c_compile.g:5382-5413 | the comparisons of a dispatch, taken one after the other, give the stack back as it was |
| `CSwitches.MisplacedCase` | asmg/c_compile.g:2371-2387 | a function that the language admits, with a case behind a declaration, reaches its break label 4 bytes too deep |
| `CProgram.StagesAgree` | asmg/c_compile.g:2230-2284 | with the positions that the first stage records, the other two pass their checks if and only if every label is fixed exactly once |
| `CProgram.AcceptedIffAdmitted` | asmg/c_compile.g:6023-6049 | that is the case for exactly the programs that the language admits |
| `CLabels.FunctionLabels` | asmg/c_compile.g:5469-5503 | each label of a function is fixed once if and only if every name that is used labels exactly one statement; labels of different functions are different |
| `CLabels.Counted` | asmg/c_compile.g:5059-5563 | a label that the compiler makes for itself is fixed once, one with a name as often as the name labels a statement |
| `CPlan.FunctionPlanned` | asmg/c_compile.g:5433-5467 | outside the checks on labels, exactly those functions are accepted whose break, continue, case and default stand where they may, with at most one default per switch |
| `CPlan.PlannedIffScoped` | asmg/c_compile.g:5091-5467 | the same for statements in any context |
| `CPaths.WalkSpeaksForPaths` | asmg/c_compile.g:2346-2388 | one walk along the code that finds every label as recorded speaks for every path |
| `CCompiler.Compiler.CompileStage` | asmg/c_compile.g:6023-6049 | one stage over all functions succeeds exactly if its checks allow all orders, records the positions in the first and stores the code in the last |
| `CCompiler.Compiler.CompileFunction` | asmg/c_compile.g:5599-5620 | a function |
| `CCompiler.Compiler.CompileStatement` | asmg/c_compile.g:5059-5563 | a statement: the planned orders are carried out exactly if no check of the stage stands in the way |
| `CCompiler.Compiler.CompileBlock` | asmg/c_compile.g:5565-5581 | a block: its variables leave the stack |
| `CCompiler.Compiler.CompileIf` | asmg/c_compile.g:5136-5172 | `if`: guard, branches and labels in their places |
| `CCompiler.Compiler.CompileLoop` | asmg/c_compile.g:5175-5337 | `for`, `while` and `do`: the labels, the first expression of a `for`, guard, third expression, body and jumps in their places, with the labels in force inside only |
| `CCompiler.Compiler.CompileSwitch` | asmg/c_compile.g:5339-5431 | `switch`: its value, the body, and the dispatch behind it |
| `CCompiler.Compiler.CompileExpression` | asmg/c_compile.g:5187-5222 | an expression, where there is one |
| `CCompiler.Compiler.GenDispatch` | asmg/c_compile.g:5382-5422 | the loop over the case labels |
| `CCompiler.Compiler.CompileCase` | asmg/c_compile.g:5433-5452 | `case`; refused outside a switch |
| `CCompiler.Compiler.CompileDefault` | asmg/c_compile.g:5454-5467 | `default`; refused outside a switch and the second time |
| `CCompiler.Compiler.CompileGoto` | asmg/c_compile.g:5469-5483 | `goto`, forward or backward |
| `CCompiler.Compiler.CompileLabeled` | asmg/c_compile.g:5485-5503 | a named label |
| `CCompiler.Compiler.GenLabel` | asmg/c_compile.g:2230-2262 | a new label; in the last stage refused if it was never fixed |
| `CCompiler.Compiler.FixLabel` | asmg/c_compile.g:2264-2284 | its position: recorded in the first stage, checked in the others, twice fixed refused in the second |
| `CCompiler.Compiler.GenJump` | asmg/c_compile.g:2346-2388 | a jump, with the stack moved to the depth of the label |
| `CCompiler.Compiler.GenJumpIfZero` | asmg/c_compile.g:2346-2388 | a conditional jump |
| `CCompiler.Compiler.PushVar` | asmg/c_compile.g:2081-2107 | a variable takes its footprint |
| `CCompiler.Compiler.RestoreStatus` | asmg/c_compile.g:2049-2079 | the variables of a block go; the two checks cannot fail |
| `Qsort.Sort` | diskfs/stdlib/_qsort.h:37-122 | main result: the bytes, cut into elements of the given size, end sorted and a permutation of what they were, for every count, every size and every total preorder; the explicit stack never overflows its 64 slots |
| `Qsort.Elements.Exchange` | diskfs/stdlib/_qsort.h:13-19 | memswp at the addresses of two elements exchanges these elements and touches no other |
| `Qsort.SlotsSuffice` | diskfs/stdlib/_qsort.h:31-35 | a segment that is still partitioned, with m pairs below it and at most N / 2^m elements, has m < 29 for every 32-bit count N, so the next pair fits |
| `Qsort.SegmentStep` | diskfs/stdlib/_qsort.h:46-121 | replacing a pending segment by its parts keeps all order established so far |
| `Qsort.Partition` | diskfs/stdlib/_qsort.h:50-84 | the scans and exchanges cut the segment in three, and never leave it |
| `Qsort.Sentinels` | diskfs/stdlib/_qsort.h:63-82 | the two scans without bounds tests always have an element ahead that stops them |
| `Qsort.ScanRight` | diskfs/stdlib/_qsort.h:65-69 | stops at the first element not below the pivot |
| `Qsort.ScanLeft` | diskfs/stdlib/_qsort.h:70-74 | stops at the first element not above the pivot |
| `Qsort.MedianOfThree` | diskfs/stdlib/_qsort.h:58-61 | exchanges the first element with the middle one, then orders second, first and last, so that the first is their median |
| `Qsort.PivotPlaced` | diskfs/stdlib/_qsort.h:75-84 | the last exchange puts the pivot between the two sides |
| `Qsort.InsertionSort` | diskfs/stdlib/_qsort.h:99-111 | sorts a short segment in place |
| `Qsort.Insert` | diskfs/stdlib/_qsort.h:103-110 | carries one element down to its place |
| `Qsort.MemSwp` | diskfs/stdlib/_qsort.h:13-19 | the byte loop exchanges two blocks and nothing else |
| `BstMap.BstMap.Find` | asmg/avl_map.g:86-126 | the record of a key, made if asked for and absent; the map gains just that entry |
| `BstMap.BstMap.Search` | asmg/avl_map.g:94-125 | the loop down the tree: where the key is, or the one gap where it belongs |
| `BstMap.BstMap.At` | asmg/avl_map.g:128-145 | the value of a key, or that it is missing |
| `BstMap.BstMap.Has` | asmg/avl_map.g:147-163 | whether the key is there |
| `BstMap.BstMap.Set` | asmg/avl_map.g:165-184 | the finite map is updated at one key; the counter follows |
| `BstMap.BstMap.EraseLeaf` | asmg/avl_map.g:186-214 | a leaf is unlinked; nothing else changes |
| `BstMap.BstMap.Swap` | asmg/avl_map.g:216-229 | keys and values of two neighbours change places |
| `BstMap.BstMap.EraseAt` | asmg/avl_map.g:231-260 | although swapping breaks the order on the way, in the end just the one entry is gone and the order is back; the recursion ends |
| `BstMap.BstMap.Erase` | asmg/avl_map.g:262-275 | the key leaves the map; order, parent links and counter are kept |
| `BstMap.BstMap.Size` | asmg/avl_map.g:277-282 | the number of keys |
| `BstMap.BstMap.Visit` | asmg/avl_map.g:284-298 | calls the function once per entry, in the order of the tree |
| `BstMap.BstMap.Foreach` | asmg/avl_map.g:300-309 | every entry once, the greatest key first |
| `BstMap.VisitedBackwards` | asmg/avl_map.g:284-309 | so the visits are in increasing order if and only if there is at most one entry |
| `BstMap.SwapThenRemove` | asmg/avl_map.g:231-260 | exchanging with a neighbour and removing the neighbour is removing the entry |
| `BstMap.InsertRepresents` | asmg/avl_map.g:101-106 | an entry put into its gap keeps the order and updates the map |
| `BstShape.SubstRep` | asmg/avl_map.g:186-214 | a subtree replaced by another: the records still form a tree with right parent links |
| `BstShape.SubstAddrs` | asmg/avl_map.g:186-214 | and in order they are the old ones with the part exchanged |
| `CString.Strcmp` | asmg/utils.g:248-266 | 0 exactly for equal strings; 1 exactly if at some place behind equal beginnings the first has the smaller character, -1 exactly if the second has: the reverse of the C function |
| `CString.LessMeans` | asmg/utils.g:248-266 | one string comes first exactly if up to some place both agree and there its character, or the zero at its end, is the smaller |
| `CString.LessTotal` | asmg/utils.g:248-266 | two strings are equal or one comes first |
| `Kmalloc.Allocator.Malloc` | asmg/kmalloc.g:48-100 | stops exactly for negative sizes and those without a bucket; otherwise a block that was not in use, from the chain if there is one; what owners stored elsewhere is untouched |
| `Kmalloc.Allocator.Free` | asmg/kmalloc.g:102-123 | the block goes back to its chain; no check fails; all other blocks in use keep their contents |
| `Kmalloc.Allocator.GetSize` | asmg/kmalloc.g:125-140 | the room in a block |
| `Kmalloc.Allocator.TakeFree` | asmg/kmalloc.g:87-99 | the first block of a chain comes into use |
| `Kmalloc.Allocator.TakeNew` | asmg/kmalloc.g:87-99 | a new block is disjoint from all others |
| `Kmalloc.Allocator.InitTable` | asmg/kmalloc.g:61-70 | the table of empty chains |
| `Kmalloc.Allocator.ClientStore` | asmg/kmalloc.g:48-123 | a store into a block by its owner leaves the chains and the table intact |
| `Kmalloc.Allocator.LiveDisjoint` | asmg/kmalloc.g:48-123 | in every valid state blocks in use share no byte with other blocks or the table |
| `Kmalloc.Allocator.Conservation` | asmg/kmalloc.g:87-122 | per size: blocks requested == in use + free == the most that were ever in use at once |
| `Kmalloc.BlockSize` | asmg/kmalloc.g:72-85 | a block holds size + 4 bytes if and only if that does not overflow, and then it is the smallest one or less than twice as large |
| `Kmalloc.Refused` | asmg/kmalloc.g:72-85 | no bucket is found exactly for the sizes that with their header exceed 2^30 and do not overflow |
| `Kmalloc.ReuseInMemory` | asmg/kmalloc.g:94-98 | unlinking the first block keeps the chain threaded, without cycles |
| `Kmalloc.ReleaseInMemory` | asmg/kmalloc.g:121-122 | and so does linking one in |
| `Strtox.StrtoSigned` | diskfs/stdlib/_strtox.h:110-144 | strtol and strtoll: the number spelled, clamped to the range of the type, ERANGE exactly if it was out of range, and the end of the maximal run of digits (section 7.22.1.4 of ISO/IEC 9899:2011) |
| `Strtox.StrtoUnsigned` | diskfs/stdlib/_strtox.h:146-167 | strtoul and strtoull: the same, with negation in the unsigned type |
| `Subjects.LongestSubject` | diskfs/stdlib/_strtox.h:33-108 | main result: what is read is the longest beginning of the input that has the form described in section 7.22.1.4 of ISO/IEC 9899:2011 - white space, sign, prefix, digits of the base - with the number of that form; nothing is read exactly if none has it |
| `Subjects.ReadHasForm` | diskfs/stdlib/_strtox.h:33-108 | what is read has that form and that number |
| `Subjects.NothingLonger` | diskfs/stdlib/_strtox.h:33-108 | nothing longer has it |
| `Numerals.NumeralReads` | diskfs/stdlib/_strtox.h:78-108 | a number written in any base from 2 to 36 with the characters of the table, signed or not, is read back, to its end |
| `Numerals.NumeralRoundTrip` | diskfs/stdlib/_strtox.h:110-144 | so strtol and strtoll give every number of their type back, in every base |
| `Strtox.DigitInverse` | diskfs/stdlib/_digits.h:4-4 | a character stands for d exactly if, in lower case, it is the d-th of the table of 36 |
| `Strtox.Prelim` | diskfs/stdlib/_strtox.h:33-76 | white space, sign and base prefix; 0x counts only if a digit follows |
| `Strtox.Accumulate` | diskfs/stdlib/_strtox.h:78-108 | the accumulator never exceeds the limit, and the error value comes back exactly if the number does |
| `Strtox.WithinLimit` | diskfs/stdlib/_strtox.h:86-88 | the test of limval and limdigit is the comparison of the whole product |
| `Strtox.NegativeLimit` | diskfs/stdlib/_strtox.h:122-122 | the limits computed by truncating division of the least number are those of its magnitude |
| `Printf.RoundTrip` | diskfs/stdlib/_printf.h:76-229 | main result: what d, u, o, x, X print, with any flags, width and precision, spells the value in the base of the conversion, and in base 0 too with the prefix of the base |
| `Fields.PrintedIff` | diskfs/stdlib/_printf.h:76-229 | main result: what a conversion prints is the one text with blanks, sign or prefix, zeros, digits and blanks that is as long as the greater of the width and what sign, prefix and digits take, has at least as many digits as the precision asks for, blanks in front only without `-` and `0` and behind only with `-`, and more zeros than the precision asks for only with `0` and without `-` |
| `Fields.PrintedIsField` | diskfs/stdlib/_printf.h:76-229 | what is printed is such a text |
| `Printf.RoundTripSigned` | diskfs/stdlib/_printf.h:76-229 | through the signed type of either width, the least number included, strtol or strtoll gives the value back |
| `Printf.RoundTripUnsigned` | diskfs/stdlib/_printf.h:76-229 | through the unsigned type of either width strtoul or strtoull gives every unsigned value back |
| `Printf.DecimalInBaseZero` | diskfs/stdlib/_printf.h:76-174 | what d and u print, which never has a prefix, is read back in base 0 if and only if no zeros lead or the magnitude is below 8 |
| `Printf.OctalIsLess` | diskfs/stdlib/_strtox.h:83-91 | decimal digits read as octal, up to the first 8 or 9, give less unless only one counts |
| `Printf.Vsnprintf` | diskfs/stdlib/_printf.h:646-686 | main result: the answer is the full length; the buffer holds the text as far as its limit; a text shorter than the limit is ended with a zero, a longer one if and only if some conversion ends at the limit or behind it; nothing behind the limit or the zero changes |
| `Printf.Printer.Print` | diskfs/stdlib/_printf.h:504-583 | the characters delivered are exactly the padding, prefix or sign, zeros, digits and trailing blanks that the conversion asks for; the buffer shows those below its limit, with a zero in the last cell of a full one |
| `Printf.Printer.IntFormat` | diskfs/stdlib/_printf.h:76-174 | everything that stands before the digits |
| `Printf.Printer.Int2Base` | diskfs/stdlib/_printf.h:175-229 | digits counted on the way down and put on the way up: most significant first, for negative values too |
| `Printf.Printer.Put` | diskfs/stdlib/_printf.h:63-73 | one character: stored if it is below the limit, and counted in any case |
| `Printf.DigitsValue` | diskfs/stdlib/_printf.h:175-229 | the digits spell the magnitude |
| `Preproc.EndsIff` | asmg/c_preproc.g:880-900 | main result: the passes come to an end if and only if no token of the input leads into a cycle of macros, whatever else the table holds |
| `Preproc.Replace` | asmg/c_preproc.g:880-900 | where they end at all the loop ends, and what is left is the recursive expansion of every token, which the input can be rewritten to |
| `Preproc.OneNormalForm` | asmg/c_preproc.g:880-900 | main result: however the input is rewritten, one macro at a time and in whatever order: once no macro is left, it is the expansion |
| `Preproc.NormalFormIff` | asmg/c_preproc.g:880-900 | it can be rewritten until no macro is left if and only if no token leads into a cycle |
| `Preproc.PassRewrites` | asmg/c_preproc.g:860-878 | a pass does nothing but such replacements |
| `Preproc.EnoughPasses` | asmg/c_preproc.g:880-900 | as many passes as the highest token stands above its end are enough, and give the expansion |
| `Preproc.EndlessStep` | asmg/c_preproc.g:880-900 | a token never ends if and only if it is a macro, other than its own name, with such a token in its replacement |
| `Preproc.ReplaceInt` | asmg/c_preproc.g:860-878 | one pass over the list, and whether it changed anything |
| `Preproc.ProcessToken` | asmg/c_preproc.g:713-775 | one token: replaced by the tokens of its macro unless that is just itself |
| `Preproc.PassKeeps` | asmg/c_preproc.g:860-878 | a pass does not change what the list expands to |
| `Preproc.PassDone` | asmg/c_preproc.g:880-900 | where a pass changes nothing the list is its own expansion |
| `Preproc.HeightFalls` | asmg/c_preproc.g:880-900 | each pass brings the highest rank in the list down |
| `Preproc.TrapToken` | asmg/c_preproc.g:880-900 | a list with a token of such a cycle keeps one through every pass |
| `Preproc.LayersFall` | asmg/c_preproc.g:880-900 | the tokens that end can be ranked |
| `DiskFs.WriteImage` | create_diskfs.py:26-61 | the image: magic, table of names, starts and sizes, end mark, data; refused exactly if a number does not fit in 32 bits |
| `DiskFs.TableFormat` | create_diskfs.py:48-61 | the format: the magic, then for each file its name, a zero, and two numbers of four bytes with the highest first, where its data begin and how long they are; a zero behind the table; then the data, one file behind the other, up to the end |
| `DiskFs.Layout` | create_diskfs.py:36-46 | where each file starts |
| `DiskFs.WriteTable` | create_diskfs.py:48-57 | the table |
| `DiskFs.Mount` | asmg/diskfs.g:171-267 | reads the names, starts and sizes of the image back; stops exactly at a repeated name |
| `DiskFs.TablesLead` | asmg/diskfs.g:171-267 | for distinct names the tables lead to every file |
| `DiskFs.FileBytes` | asmg/diskfs.g:157-169 | where the tables lead, the disk has the bytes of the file, whatever descriptors have read before |
| `DiskFs.Open` | asmg/diskfs.g:157-169 | a descriptor at the start of the file, or null for an unknown name |
| `DiskFs.ReadAll` | asmg/diskfs.g:38-71 | main result: reading an open file gives back what was written, then EOF |
| `DiskFs.DiskFd.Read` | asmg/diskfs.g:38-71 | the byte of the disk at the position, counted from the start of the file, through the cache, or -1 at the end; the cache stays empty or the sector of the position |
| `DiskFs.DiskFd.Seek` | asmg/diskfs.g:89-114 | the position asked for, or the size if that is less; the cache is dropped at every call; the position may lie before the file |
| `DiskFs.DataAt` | create_diskfs.py:48-61 | where the data of the k-th file lies in the image |
| `DiskFs.EntriesAt` | create_diskfs.py:48-57 | where the k-th entry of the table lies |
| `DiskFs.ReadBig` | asmg/diskfs.g:229-241 | four bytes, the most significant first, without overflow |
| `DiskFs.ReadName` | asmg/diskfs.g:200-223 | a name up to its zero byte |

## Left out

- GEncoding.CodeRead: the operands that the processor reads are cut to 32 bits, where `GMachine` has numbers of any size; so the two agree on operands that are signed 32-bit numbers.
- x86 encodings of the C compiler, and of the routines of the library.
- GCompiler.Compiler.GetToken: tokens arrive cut and classified; the loop over characters that cuts them is not modelled.
- The other lexers: keywords are not names, and a constant, a name and a string are told apart.
- G programs: word cells do not overlap, addresses and words are unbounded integers, and the bytes of strings in the code cannot be read back as data.
- Names of the form `.N` in G programs, which could collide with labels; in the model labels are apart from names.
- GLibrary.RoutineHolds: `=c` and `**c` have a meaning where the byte is the lowest of a word that the program has, since memory is by words; the ports and the routines that are not operators have none here, and a call of one is taken to do what it promises.
- GLibrary.LibraryHolds: the same.
- The arity of `fun` and `ifun`, which attic/gstaging.c:507 and 517 take from any text that atoi reads: it is a natural number here. A negative one could match that of a constant or a variable in fix_symbol_placeholder.
- The preamble of attic/gstaging.c:547-580, which has four of the routines of asmg/kernel-asmg.asm.
- asmg/asmg.asm is not modelled by itself: it is the same compiler in assembly.
- Casts, sizeof of a type, and compound literals, which need the parser for types.
- Evaluation and compilation of C expressions, with the labels of their own that they make; a statement sees an expression as one thing that is evaluated and leaves the stack as it was, but for the value of a switch, which stays until the end of its dispatch. The constants of case labels are not followed.
- CFollows.FunctionBehaves: the depths in its trace are those that the compiler notes; that the stack is so deep is CFollows.ScopesKept, for code that keeps to its recorded depths (CSwitches.FunctionExact).
- CAccepted.AcceptedIff: the expressions of its conclusion may have brackets or colons for operands and sums on the left of assignments; CSentences.SentenceIff says which are expressions of the language.
- CAccepted.AcceptedReads: the same.
- A declaration as the statement of a label, an `if` or a loop, which the C compiler reads and the language does not have.
- CCompiler.Compiler.Compile: `break` and `continue` outside loops and switches; the C compiler then uses a field that lctx_init does not set, and what it does depends on what memory held. The model refuses the function, as the language does.
- CPlan.FunctionPlanned: the same.
- CPlan.PlannedIffScoped: the same.
- CProgram.AcceptedIffAdmitted: the same; and case labels have no constants in the model, so that the rule of section 6.8.4.2 against equal ones, which the C compiler does not check, is not part of what is admitted. Which case a value picks is one of the answers that a run is given.
- Byte locations of C labels: only their stack positions are followed through the stages, and their places in the order of the code.
- Kmalloc.Allocator.ClientStore: memory has one cell for the word at each address, so what a store does to words that overlap the one it writes, all of the same block, is not followed.
- Widths of the counters of asmg/kmalloc.g, and malloc_stats: the counters are integers here.
- platform_allocate: it always succeeds, with memory that nobody has.
- Destruction of maps and keys that are not strings; map.g and rb_map.g are not part of this model beyond the finite map.
- Streams, `%n`, `%s`, `%c`, `%p` and floats of _printf.h; parsing of the format string, so a conversion arrives as its flags, width and precision.
- Strtox.StrtoSigned and its like: errno is an answer of the method.
- Preproc.ProcessToken: function-like macros of asmg/c_preproc.g:618-711, with `##` and `#`; includes and conditionals.
- Disk errors and writing to the disk; the stat of a file and its contents agree; a position so far before the file that it lies before the disk.
