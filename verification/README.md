# A model of the cgen.cc code-generator skeleton

This project models the part of the compiler back end in `cgen.cc` that has real
logic:

- **The frame-address formatter pair.** `count_len_addr_reg_shift` predicts how many bytes to allocate. `addr_reg_shift` then writes `-<offset>(<reg>)` into a buffer of that size.
- **The global-data pass** `code_global_data`. For each global it emits the directives chosen by its type name (`sameType`, `emit_global_int/float/bool`). It then appends the global's location `name(%rip)` to `name_proc` and binds the name to that entry's index in the scoped environment `varNameToAddr`.
- **`CallDecl_class::code`**, the code for one function:
  - function header;
  - prologue that pushes RBP and the callee-saved registers RBX, R12–R15;
  - one spill per parameter against `CALL_REGS[i]` at a frame cursor that starts at 40 and grows by 8, binding the parameter to a new `name_proc` entry;
  - body;
  - epilogue that pops in reverse, then `leave`, `ret`, and the size directive.
- **The scope discipline** of `code`, `CallDecl_class::code` and `StmtBlock_class::code`. Each enters a scope and leaves it again.
- **The pass driver.** `code` runs the global pass and then `code_calls`, which emits the read-only section line once and every function in source order.

Modelling choices:

- The generator's state is a `GenState`: the output stream as one string per line, the environment as a stack of maps from name to `name_proc` index, and `name_proc` as a sequence of C strings.
- C strings are their contents, with no NUL. Buffers are maps from index to character, so a write past a caller-sized buffer shows up as a cell outside its bounds.
- The assembler macro constants (`MOV`, `GLOBAL`, `RDI`, …) come from a header that is not part of this model. Module `Macros` declares each one as a fixed but unspecified string.
- Emitted frame instructions are values of an `Instr` datatype. `Asm.Render` turns each one into the line its `emit_*` formatter writes.
- A small word-level machine (module `Machine`) gives the prologue, the spills and the epilogue a meaning. Registers hold integers, and the stack holds words with the top last.

Behaviour of the code that the model keeps as written:

- Float globals are declared with size 8 and are followed by two `FLOATTAG 0` words (cgen.cc:420-428).
- Each parameter is spilled to an address formatted against its own argument register `CALL_REGS[i]` as base register, not against RBP (cgen.cc:596-600).
- The frame cursor starts at 40 for every function, `main` included (cgen.cc:589).
- Every function ends with the same fall-through epilogue: the pops, then `leave` and `ret` (cgen.cc:612-620).
- Parameters are spilled only through the integer argument registers `CALL_REGS` (cgen.cc:593-600). No floating argument register is used.

## Model

| member | source | states |
|---|---|---|
| Decimal.NumDigitsBounds | cgen.cc:448-453 | the number of times the counting loop divides by ten is the `d` with 10^(d-1) <= n < 10^d, the length of n in base ten |
| Decimal.DecimalText | cgen.cc:470-471 | the text `sprintf("%d")` writes for a positive number has exactly the counted number of characters, all decimal digits, the first not `0` |
| Decimal.ParseDecimalText | cgen.cc:471 | reading the printed digits back as a number gives the number that was printed |
| Decimal.DecimalTextInjective | cgen.cc:471 | distinct positive numbers print as distinct digit strings |
| CStrings.Place | cgen.cc:472-478 | writing a run of characters at a position sets exactly those cells to those characters and leaves every other cell as it was |
| CStrings.ReadPlaced | cgen.cc:459 | a C string copied with its terminator into a buffer reads back as the same string |
| CStrings.StrCpy | cgen.cc:459 | strcpy writes exactly the cells 0 through strlen(src), leaves every other cell as it was, and the buffer then reads back as src |
| CStrings.StrCmp | cgen.cc:440 | strcmp yields -1, 0 or 1; the empty string orders before any non-empty one |
| CStrings.StrCmpZeroIff | cgen.cc:440 | strcmp reports 0 exactly when the two strings are equal, in both directions |
| CStrings.StrCmpAntisymmetric | cgen.cc:440 | swapping strcmp's operands negates its answer |
| CStrings.PlaceFits | cgen.cc:598-599 | a fresh buffer written from cell 0 stays inside a buffer of a given size exactly when the text is no longer than that size |
| AddrFormat.AddrTextLength | cgen.cc:463-478 | the address text for a positive deviation is `-`, the digits, the register in parentheses: digits + strlen(reg) + 3 characters, starting with `-` |
| AddrFormat.CountDigits | cgen.cc:448-453 | the digit-counting loop ends with the number of decimal digits of the positive deviation |
| AddrFormat.CountLenAddrRegShift | cgen.cc:443-455 | the predicted length is strlen(reg) for deviation 0, -1 for a negative deviation, and strlen(reg) + digits + 4 otherwise, which is exactly the address text's length plus its terminator |
| AddrFormat.WriteRun | cgen.cc:476 | the character copy loop extends the written prefix by the copied characters and touches no other cell |
| AddrFormat.WriteAddr | cgen.cc:463-479 | for a positive deviation the cell writes leave the address text followed by a terminator from cell 0 on, and every other cell untouched; the NUL written at `digit+1` is overwritten by `(` |
| AddrFormat.AddrRegShift | cgen.cc:457-480 | a zero deviation copies the register with its terminator; a negative one writes nothing; a positive one writes the address text and terminator from cell 0 |
| AddrFormat.PositiveShiftFits | cgen.cc:597-599 | for a positive deviation the bytes written fit the predicted length exactly, not one byte fewer, and read back as the address text |
| AddrFormat.ZeroShiftOverflows | cgen.cc:444-459 | for a zero deviation strcpy writes strlen(reg) + 1 bytes: the terminator lands outside a buffer of the predicted strlen(reg) bytes |
| AddrFormat.CountLenFixed | cgen.cc:443-455 | with the zero case counting the terminator, every non-negative deviation's output fits the predicted length with no byte to spare; negatives still give -1 |
| AddrFormat.ParseAddrText | cgen.cc:463-478 | parsing an address the formatter wrote recovers its register and deviation |
| AddrFormat.AddrTextInjective | cgen.cc:463-478 | different (register, deviation) pairs are formatted as different addresses |
| Asm.RenderAll | cgen.cc:109-152 | rendering a listing emits one line per instruction |
| Asm.Render | cgen.cc:109-337 | each line starts with the formatter's mnemonic; push and pop end with the register; mov, add and sub put the source operand right after the mnemonic and end with the destination, in the (source, dest) order of emit_mov, emit_add and emit_sub; leave and ret are the bare mnemonic |
| Asm.RenderAllAt | cgen.cc:319-337 | line k of a rendered listing is the line of instruction k |
| Asm.RenderAllAppend | cgen.cc:582-620 | rendering two listings in sequence emits the lines of the first, then the lines of the second |
| Env.LookupInnermostFirst | cgen.cc:20-21 | lookup finds v exactly when some scope binds the name to v and no scope inside it binds the name, in both directions |
| Env.EnterScope | cgen.cc:552 | enterscope adds one scope and keeps the outer scopes unchanged |
| Env.EnterScopeLookup | cgen.cc:573 | entering a scope changes no lookup |
| Env.ExitScope | cgen.cc:558 | exitscope removes exactly one scope, the innermost, and leaves every outer scope as it was; ExitEnterScope shows it undoes enterscope |
| Env.ExitEnterScope | cgen.cc:629-643 | leaving a scope just entered gives back the environment as it was |
| Env.AddId | cgen.cc:499 | addid keeps the number of scopes and every scope but the innermost |
| Env.AddIdLookup | cgen.cc:602 | after addid the name resolves to its new index and every other name resolves as before |
| Env.LastIndexOf | cgen.cc:484-499 | there is a last occurrence exactly when the name occurs, and it points at an occurrence of the name |
| Env.LastIndexOfIsLast | cgen.cc:484-499 | no occurrence of the name follows the one found |
| Env.BindAll | cgen.cc:484-509 | binding a list of names keeps the number of scopes and the outer scopes |
| Env.BindAllSnoc | cgen.cc:592-606 | binding one more name at the end of the list is one more addid with the next index |
| Env.LookupBindAll | cgen.cc:484-509 | after binding a list of names from index base, a name in the list resolves to base plus its last position; a name not in it resolves as before |
| Env.LookupBoundName | cgen.cc:602 | in an environment built by binding a list, a name whose last position is k resolves to base + k |
| Frame.Pushes | cgen.cc:584-588 | one push per register |
| Frame.Pops | cgen.cc:612-616 | one pop per register |
| Frame.PushedPushes | cgen.cc:584-588 | the registers a run of pushes saves are the given registers, in order |
| Frame.PoppedPops | cgen.cc:612-616 | the registers a run of pops restores are the given registers, in order |
| Frame.ProloguePushes | cgen.cc:582-588 | the prologue pushes RBP, then RBX, R12, R13, R14, R15, and no other register |
| Frame.EpiloguePopsInReverse | cgen.cc:612-620 | the epilogue pops exactly the callee-saved registers the prologue pushes after RBP, in reverse order, and no other register |
| Frame.PrologueText | cgen.cc:582-588 | the prologue renders as emit_push(RBP), emit_mov(RSP, RBP) and emit_push of RBX, R12, R13, R14, R15, in that order |
| Frame.EpilogueText | cgen.cc:612-620 | the epilogue renders as emit_pop of R15, R14, R13, R12, RBX, then emit_leave and emit_ret |
| Frame.SpillCode | cgen.cc:592-600 | n parameters produce two instructions each |
| Frame.SpillCodeAt | cgen.cc:592-600 | parameter k's instructions are `sub $8, %rsp` and a move of CALL_REGS[k] to offset 48 + 8k formatted against CALL_REGS[k] |
| Frame.ParamSpillText | cgen.cc:594-600 | one parameter's spill renders as emit_sub("$8", RSP) and then emit_mov from CALL_REGS[i] to the text addr_reg_shift formats for CALL_REGS[i] at the current cursor |
| Frame.RunPushes | cgen.cc:584-588 | pushing registers other than RSP stacks their values in order and changes no register |
| Frame.RunPops | cgen.cc:612-616 | popping into registers other than RSP takes the top words off the stack into those registers |
| Frame.PopIntoOther | cgen.cc:612-616 | a register outside the popped list keeps its value |
| Frame.RunFrameEntry | cgen.cc:582-588 | pushing RBP, moving RSP into RBP and pushing registers leaves RBP pointing just above the saved RBP, with the pushed values stacked in order |
| Frame.RunPrologue | cgen.cc:582-588 | the prologue stacks RBP and the five callee-saved registers and points RBP at the saved RBP |
| Frame.RunSpillCode | cgen.cc:592-600 | each parameter spill reserves one stack word; the store goes outside the stack |
| Frame.ExecPop | cgen.cc:329-332 | a pop moves the top word into the register |
| Frame.RunFrameExit | cgen.cc:612-620 | pops then `leave` and `ret`: the top words go to the registers, RBP is reloaded from below the frame pointer, and the return address is dropped |
| Frame.RunEpilogue | cgen.cc:612-620 | the epilogue loads R15, R14, R13, R12, RBX from the top five words, top first, then restores RBP and returns |
| Frame.PopsFive | cgen.cc:612-616 | the five pops put the fifth word from the top into RBX and the top word into R15 |
| Frame.AfterPrologueStack | cgen.cc:582-589 | after the prologue the stack holds the caller's words, the saved RBP, then RBX, R12, R13, R14, R15, with RBP pointing at the saved RBP |
| Frame.FrameRestoresWithoutParams | cgen.cc:582-620 | with no parameters, prologue then epilogue restores RBP and every callee-saved register and pops the return address |
| Frame.EpilogueAfterPrologue | cgen.cc:582-620 | run on the machine the prologue leaves, the epilogue restores RBP and every callee-saved register and leaves the caller's stack without the return address |
| Frame.SplitTopFive | cgen.cc:592-616 | with n >= 1 parameter words above the saved registers, the top five words end in a parameter word; with one parameter the fifth from the top is R12's saved value |
| Frame.SpilledFrameMisrestores | cgen.cc:592-620 | as written, with at least one parameter the epilogue loads R15 from a parameter word, and with exactly one parameter RBX gets R12's saved value |
| Frame.RunReleaseParams | cgen.cc:612 | releasing 8n bytes drops exactly the n words the spills reserved |
| Frame.RunCorrectedEpilogue | cgen.cc:612-620 | the corrected epilogue on a frame holding n parameter words has exactly the outcome of the plain epilogue on the frame without them |
| Frame.CorrectedFrameRestores | cgen.cc:582-620 | with the parameter words released before the pops, every parameter count restores RBP and every callee-saved register and pops the return address |
| Cgen.SameType | cgen.cc:439-441 | sameType holds exactly when the two type names are spelled the same |
| Cgen.Label | cgen.cc:416 | the label line `name:` defines name: reading a label line back gives the name |
| Cgen.GlobalHeader | cgen.cc:411-416 | the shared global header is five lines whose last is the label of the global's name |
| Cgen.EmitGlobalInt | cgen.cc:411-418 | emit_global_int writes six lines: the header labelling the name, then one `INTTAG 0` word |
| Cgen.EmitGlobalFloat | cgen.cc:420-428 | emit_global_float writes seven lines: the header labelling the name, then two `FLOATTAG 0` words |
| Cgen.EmitGlobalBool | cgen.cc:430-437 | emit_global_bool writes six lines: the header labelling the name, then one `BOOLTAG 0` word |
| Cgen.GlobalData | cgen.cc:489-497 | an Int global gets the shared header and one `INTTAG 0` line; a Float one gets two `FLOATTAG 0` lines; a Bool one gets one `BOOLTAG 0` line; any other type gets no lines |
| Cgen.GlobalDataDeclares | cgen.cc:489-497 | the directives of two Int, Float or Bool globals coincide only when the globals have the same name |
| Cgen.GlobalLocationBytes | cgen.cc:500-509 | the bytes written for a global's name_proc entry fit the strlen(name) + 7 bytes allocated and read back as `name(%rip)` |
| Cgen.GlobalLocation | cgen.cc:500-509 | a global's location is its name followed by `(%rip)`, six characters longer |
| Cgen.GlobalLocationInjective | cgen.cc:500-509 | distinct globals get distinct location entries |
| Cgen.GlobalLocations | cgen.cc:500-509 | one location per global, and entry k is global k's `name(%rip)` |
| Cgen.CodeGlobalData | cgen.cc:482-513 | the pass emits every variable's directives in order and skips calls; name_proc gains each variable's location in order; the environment binds the variables' names, in order, to consecutive new indices |
| Cgen.GlobalStep | cgen.cc:485-509 | one iteration leaves the state unchanged for a call declaration; for a variable it appends its directives and its location, binds its name to the old name_proc size, keeps every other name's binding and the number of scopes |
| Cgen.GlobalStepOut | cgen.cc:484-497 | one iteration emits the declaration's directives ahead of the rest's |
| Cgen.GlobalStepLocations | cgen.cc:499-509 | one iteration appends the declaration's location ahead of the rest's |
| Cgen.GlobalStepBinds | cgen.cc:499 | one iteration binds the name to the old name_proc size, and the rest bind from one index higher |
| Cgen.GlobalsResolve | cgen.cc:499-509 | after the pass a global name whose last declaration is variable k resolves to the name_proc entry k places past the old end, and that entry holds the name's own `name(%rip)` location |
| Cgen.ParamSlots | cgen.cc:597-605 | n parameters give n name_proc entries |
| Cgen.ParamSlotsAt | cgen.cc:589-605 | parameter k's entry is its spill address, offset 48 + 8k against CALL_REGS[k] |
| Cgen.ParamSlotsDistinct | cgen.cc:592-605 | distinct parameters of one function are spilled to distinct addresses |
| Cgen.SpillStep | cgen.cc:593-605 | one parameter iteration keeps the number of scopes |
| Cgen.SpillParams | cgen.cc:589-606 | after n iterations the frame cursor is 40 + 8n, and name_proc has grown by n entries |
| Cgen.SpillParamsBinds | cgen.cc:592-606 | the loop binds the first n parameters, in order, to consecutive new name_proc indices |
| Cgen.SpillParamsEmits | cgen.cc:592-606 | the loop emits the spill code for n parameters, parameter by parameter |
| Cgen.SpillParamsSlots | cgen.cc:597-605 | the loop appends the n parameters' spill addresses to name_proc, in order |
| Cgen.CallFrame | cgen.cc:573-606 | entering the function's frame adds one scope |
| Cgen.CallFrameEnv | cgen.cc:573-606 | the frame's environment binds the parameter names, in order, over a fresh scope |
| Cgen.CallFrameExit | cgen.cc:573-623 | leaving the frame's scope restores the caller's environment |
| Cgen.CallFrameOut | cgen.cc:575-606 | building the frame emits the header lines, the prologue and the parameter spills, in that order |
| Cgen.FunctionHeader | cgen.cc:576-578 | a function's header is three lines whose last is the label of the function's name |
| Cgen.SizeLine | cgen.cc:621 | the closing directive starts with SIZE and the function's name and ends with `.-name`, measuring from the function's label |
| Cgen.CallFrameSlots | cgen.cc:589-606 | building the frame adds the parameters' spill addresses to name_proc, in order |
| Cgen.ParamLookupInFrame | cgen.cc:602 | in the body a parameter name resolves to the name_proc index of its last declaration |
| Cgen.ParamSlotInFrame | cgen.cc:596-605 | that name_proc entry holds the parameter's spill address |
| Cgen.ParamsBoundInBody | cgen.cc:589-606 | a parameter name whose last declaration is parameter k resolves in the body to a name_proc entry holding offset 48 + 8k against CALL_REGS[k] |
| Cgen.StmtsCode | cgen.cc:636-641 | the statement loop generates the nested blocks in order and leaves the environment and name_proc unchanged |
| Cgen.StmtBlockCode | cgen.cc:627-645 | a block emits its locals' code and then its statements' code, and gives back the environment and name_proc as they were |
| Cgen.CallDeclCode | cgen.cc:571-625 | the function's code is header, prologue, spills, body, epilogue, size line; the environment comes back as it was, and name_proc gains the parameters' spill addresses |
| Cgen.CallsStep | cgen.cc:519-523 | one iteration of code_calls leaves the environment as it was |
| Cgen.CallsStepOut | cgen.cc:518-524 | one iteration emits the call declaration's code ahead of the rest's |
| Cgen.CallsStepSlots | cgen.cc:518-524 | one iteration adds the call declaration's slots ahead of the rest's |
| Cgen.CallsCode | cgen.cc:518-524 | the loop generates every call declaration in source order, skips the variables, and keeps the environment |
| Cgen.CodeCalls | cgen.cc:515-525 | code_calls emits the read-only section line (`SECTION RODATA`, cgen.cc:516) once and then every function in source order |
| Cgen.Code | cgen.cc:549-559 | `code` emits the globals' directives, then the section line and every function; the environment comes back as it was; name_proc gains every global's location and then every parameter's slot |

## Left out

- The empty generators for if, while, for, return, break, continue, calls, actuals, assignment, arithmetic, comparisons, logical operators, constants and variable references (cgen.cc:647-794). They emit nothing, so they are one `Stub` statement that contributes no lines.
- The string, integer and float constant tables (cgen.cc:368-403). They wrap `emit_string_constant` and the string table, which are not part of this model.
- `SymbolTable`, `idtable` and the symbols' storage are not part of this model. Only the scope contract is kept: enter, exit, add, innermost-first lookup.
- `VariableDecl_class::code` is not part of this model. It is a parameter `LocalCode` giving the lines for one local declaration.
- Cgen.StmtBlockCode: the claims that a block hands `name_proc` back unchanged and binds nothing outside its own scope hold because `LocalCode` only returns lines. They assume `VariableDecl_class::code`, whose body is not part of this model, neither binds a name nor appends to `name_proc`. The same assumption underlies what Cgen.StmtsCode, Cgen.CallDeclCode, Cgen.CallsCode, Cgen.CodeCalls and Cgen.Code say about `name_proc` and the environment.
- Debug tracing to `cout` (cgen.cc:553, 556, 572, 624, 628, 644) has no effect on the output stream and is not modelled.
- Heap allocation of `name_proc` entries and the leaked `new int` indices are not modelled.
- The floating-point and other `emit_*` formatters that the modelled core does not call (`emit_rmmov`, `emit_mrmov`, the SSE and conversion formatters) are not modelled.
- Macros: the text of the assembler constants is not modelled, because their header is not part of this model.
- Decimal.Int32: the C `int` range is kept for the formatter's deviation. The frame cursor is an unbounded integer, since it never exceeds 88 with at most six parameters.
- Machine.Exec: a store to a memory operand is a step that changes no register and no stack word. Memory outside the stack is not modelled.
- Machine.Zeros: the words `sub $8, %rsp` reserves have unspecified contents in the source; the machine takes them to be zero. `Frame.SpilledFrameMisrestores` states `R15 == 0` under this choice; its RBX claim does not depend on it.
- CStrings.StrCmp: returns exactly -1, 0 or 1 where C's strcmp may return any negative or positive value. The source uses only the comparison with zero (cgen.cc:440).
- Asm.OperandText: a memory operand with offset 0 is rendered as the bare register, as `addr_reg_shift` writes it. The generator never produces one: the cursor starts at 40 (cgen.cc:589) and is already 48 when the first parameter is spilled (cgen.cc:596).
- A function with more than six parameters reads past `CALL_REGS` in the source. The model requires at most six, through `ParamsFit` and the `|params| <= |CallRegs|` preconditions.

## Findings

| source | as written | input that shows it | evidently intended | confidence | as-written member | corrected member |
|---|---|---|---|---|---|---|
| cgen.cc:444-446 | for deviation 0 the length predictor returns strlen(reg), but `addr_reg_shift` then does `strcpy`, writing strlen(reg) + 1 bytes | any register name with deviation 0: the terminator lands one byte past the predicted buffer | return strlen(reg) + 1 so the terminator fits | not executed | AddrFormat.ZeroShiftOverflows | AddrFormat.CountLenFixed |
| cgen.cc:612-616 | the epilogue pops the five callee-saved registers while the parameter words from `sub $8, %rsp` are still on the stack | a function with one parameter: R15 is loaded from the parameter word and RBX from R12's saved value | release the 8n parameter bytes (`add $8n, %rsp`) before the pops | not executed | Frame.SpilledFrameMisrestores | Frame.CorrectedFrameRestores |
