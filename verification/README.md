# A Dafny model of a Brainfuck compiler and interpreter

This project models the core of a small Rust Brainfuck interpreter. It has
three stages, each written in Dafny as pure functions, with lemmas about
them:

- **`tokenizer`** (src/tokenizer.rs) is a one-pass scanner. It turns the
  eight command characters `+ - > < , . [ ]` into `Token`s. A stack
  back-patches the loop targets of `[` and `]`. Unbalanced brackets are
  reported with a line and column. The model is `Tokenizer.Tokenize`: a
  left fold of `Tokenizer.Feed` over the characters.
- **`optimize`** (src/tokenizer.rs) folds every run of one counted token
  (`+`, `-`, `>`, `<`) into a single token that carries the wrapping sum.
  It works in place with a read cursor and a write cursor. The functional
  definition is `Optimizer.Optimize`. `Optimizer.OptimizeInPlace` is the
  two-cursor loop, proved equal to it.
- **`VM::new` and `VM::run`** (src/vm.rs):
  - `VM::new` loads the instructions into 4 MiB of zeroed memory.
  - `VM::run` is a fetch/dispatch loop over the instructions.
  - The model is `Vm.New` and `Vm.Step`. `Vm.Run` applies `Step` for at
    most `fuel` iterations.
  - Standard input and output are byte sequences held by the machine.
- **`VM::new_from_file`**, after the file is read: `Pipeline.Compile`
  runs tokenize, then optimize, then `New`, and `Pipeline.Execute` then
  runs the result.

Rust's integer semantics are explicit in the model:

- `u8` and `usize` `+`/`-` panic on overflow in a debug build and wrap in
  a release build. `Vm.Build` (`Debug` or `Release`) selects which.
- Slice indexing is bounds-checked in both builds. An out-of-range index
  is a `Panic(IndexOutOfBounds(index, len))` outcome.
- `Primitives.Outcome` is `Result` extended with a panic.

## Behaviour of the code worth knowing

The model follows the code as written, including these behaviours:

- **Loop targets are character offsets.** The tokenizer's counter `pc`
  goes up on every character, comments and newlines included
  (src/tokenizer.rs:74). The targets written are therefore
  `org + 1` and `pc + 1` in character offsets (src/tokenizer.rs:68-69),
  not instruction indices.
- **The back-patch can miss.** `ir[org]` indexes the token list with a
  character offset (src/tokenizer.rs:69). When a comment precedes a `[`,
  this overwrites some other token (`TokenizerExamples.CommentBeforeOpen`)
  or panics (`TokenizerExamples.PatchOutOfRange`). Without such a comment
  it lands on the `[`'s own placeholder
  (`TokenizerKinds.PatchHitsPlaceholder`).
- **`optimize` does not renumber loop targets.** It copies `LoopStart` and
  `LoopEnd` verbatim (src/tokenizer.rs:126-127), and the repository's own
  test expects exactly that (src/tokenizer.rs:157-166). Folding therefore
  changes what a program does: `++[-]` loops forever unoptimized, but
  optimized it leaves its loop after one pass with the cell at 1
  (`PipelineExamples.ClearTwiceExecutes`).
- **A jump lands one past its target.** The VM sets `pc = x` and then
  still does `pc += 1` (src/vm.rs:105, 112, 117).
- **`<` is guarded by a bit test, not an underflow check.** The test is
  `(point + x) >> 7 == 0xf`, which holds exactly for `point + x` in
  1920..2047 (src/vm.rs:78). The subtraction `point - x` that follows
  panics (debug build) or wraps (release build) when `x > point`.
- **Cell arithmetic depends on the build.** `mem[point] += x` and
  `mem[point] -= x` (src/vm.rs:65-70) panic on `u8` overflow in a debug
  build and wrap modulo 256 in a release build.
- **`UncloseRightBracket` reports the innermost `[`.** It names the line of
  the `[` on top of the stack (src/tokenizer.rs:77-82), the innermost
  unclosed one. The column is never advanced, so every reported column
  is 0.

## Model

| member | source | states |
|---|---|---|
| Tokenizer.Feed | src/tokenizer.rs:45-75 | every character read moves the counter `pc` on by exactly one, comments and newlines included, and every open `[` lies before it; a stopped scan stays stopped |
| Tokenizer.ScanPrefix | src/tokenizer.rs:43-75 | after reading a prefix the counter equals the number of characters read, not the number of tokens emitted; there are no more tokens than characters, every column saved or reported is 0, and a stopped scan failed only with `UncloseLeftBracket` |
| Tokenizer.Tokenize | src/tokenizer.rs:38-85 | a successful scan gives at most one token per character, and every error is reported at column 0; `TokenizerErrors.TokenizeErrors`, `TokenizerKinds.TokenizeKinds` and `TokenizerTargets.TokenizeTargets` give which result each source gets |
| Tokenizer.ScanThenFeed | src/tokenizer.rs:45 | the scan is a left fold: scanning `p + q` is scanning `p` and then feeding the characters of `q` one at a time |
| TokenizerStack.ScanInv | src/tokenizer.rs:39-75 | after every prefix: the line is 1 plus the newlines read, the column is 0, there is one token per command character, the stack holds exactly the unmatched `[`s in order with their lines, and its height is the bracket depth |
| TokenizerStack.FeedKeeps | src/tokenizer.rs:46-74 | one character, of any of the three kinds (`[`, `]`, other), keeps that invariant |
| TokenizerErrors.ScanFailure | src/tokenizer.rs:62-67 | the scan fails only with `UncloseLeftBracket`, at the first `]` without a partner, with that `]`'s line and column 0 |
| TokenizerErrors.TokenizeErrors | src/tokenizer.rs:38-85 | success only for a balanced source, with one token per command character; `UncloseLeftBracket` names the line of the first unmatched `]`; `UncloseRightBracket` comes only from a source that never goes negative and ends with depth above 0, and names the line of the innermost open `[`; the column is always 0 |
| TokenizerErrors.TokenizeErrorCases | src/tokenizer.rs:62-84 | the bracket structure decides the result (a panic aside): a prefix closing more than it opened gives `UncloseLeftBracket`, an unclosed `[` gives `UncloseRightBracket`, and a balanced source succeeds |
| TokenizerKinds.PatchTarget | src/tokenizer.rs:59-69 | when no comment precedes the `[` at character offset `org`, the `org`-th command character is that `[`: the commands up to it are exactly the characters up to it, so character offsets and command indices agree there |
| TokenizerKinds.TokenizeKinds | src/tokenizer.rs:45-72 | when no comment precedes a `[`, `tokenizer` never panics, and on success token `q` is the `q`-th command character, with every counted token carrying 1 |
| TokenizerKinds.PatchHitsPlaceholder | src/tokenizer.rs:58-70 | when no comment precedes a `[`, every open `[` still holds its `LoopStart(0)` placeholder in the token list at its character offset, so the write `ir[org]` of the next `]` is in range and hits the innermost one's placeholder |
| TokenizerTargets.TokenizeTargets | src/tokenizer.rs:58-74 | a balanced source made only of command characters tokenizes successfully, one token per character; the `[` at `i` whose partner `]` is at `j` becomes `LoopStart(j + 1)`, and that `]` becomes `LoopEnd(i + 1)` |
| TokenizerExamples.LoopProgram | src/tokenizer.rs:136-145 | `+[,.]` tokenizes to `IncrementData(1), LoopStart(5), Input, Output, LoopEnd(2)` |
| TokenizerExamples.UnopenedClose | src/tokenizer.rs:147-150 | `]` fails with `UncloseLeftBracket` at line 1 |
| TokenizerExamples.UnclosedOpen | src/tokenizer.rs:152-155 | `[` fails with `UncloseRightBracket` at line 1 |
| TokenizerExamples.InnermostLine | src/tokenizer.rs:77-82 | with `[` left open on lines 1 and 2, the error names line 2, the innermost |
| TokenizerExamples.CommentBeforeOpen | src/tokenizer.rs:58-69 | `a[]` succeeds with `LoopStart(0), LoopStart(3)`: the patch at character offset 1 overwrites the `LoopEnd` |
| TokenizerExamples.PatchOutOfRange | src/tokenizer.rs:69 | `ab[]` panics indexing token 2 of a list of 2 |
| TokenizerExamples.RepeatedIncTokens | src/tokenizer.rs:157 | `[++++++]` tokenizes to `LoopStart(8)`, six `IncrementData(1)`, `LoopEnd(1)` |
| TokenizerExamples.RepeatedIncFolds | src/tokenizer.rs:158-166 | optimizing those tokens gives `LoopStart(8), IncrementData(6), LoopEnd(1)` |
| TokenizerExamples.RepeatedInc | src/tokenizer.rs:157-166 | `[++++++]` tokenized and optimized is `LoopStart(8), IncrementData(6), LoopEnd(1)`, the stale targets kept |
| TokenizerExamples.ClearTwiceTokens | src/tokenizer.rs:58-74 | `++[-]` tokenizes to `IncrementData(1), IncrementData(1), LoopStart(5), DecrementData(1), LoopEnd(3)` |
| TokenizerExamples.ClearTwiceFolds | src/tokenizer.rs:118-127 | optimizing those tokens gives `IncrementData(2), LoopStart(5), DecrementData(1), LoopEnd(3)`: the targets stay while the instructions shift |
| Optimizer.RunLength | src/tokenizer.rs:94-102 | the scan for a run stops at the first token of another variant: every token before it has the first token's variant, and the one at it does not |
| Optimizer.Optimize | src/tokenizer.rs:118-130 | the result is never longer than the input |
| Optimizer.OptimizeHead | src/tokenizer.rs:118-130 | the result is empty exactly when the input is, and starts with a token of the input's first variant |
| Optimizer.FoldRun | src/tokenizer.rs:92-107 | `_flod_ir`: the read cursor ends one past the maximal run, and the written token has the run's variant and the run's sum modulo 2^8 or 2^64 |
| Optimizer.OptimizeInPlace | src/tokenizer.rs:87-132 | the two-cursor in-place loop, with `writer <= observer` throughout, then truncation to `writer`, leaves exactly the functional `Optimize` of its input |
| OptimizerProofs.OptimizeCompact | src/tokenizer.rs:94-123 | in the result no counted token is followed by another token of its variant |
| OptimizerProofs.OptimizeFixpoint | src/tokenizer.rs:87-132 | a sequence with no two neighbouring tokens of one counted variant is left unchanged |
| OptimizerProofs.OptimizeIdempotent | src/tokenizer.rs:87-132 | optimizing twice gives the same as optimizing once |
| OptimizerProofs.OptimizeKeepsControl | src/tokenizer.rs:124-127 | `Input`, `Output`, `LoopStart` and `LoopEnd` come out unchanged, payload included, in their original order |
| OptimizerProofs.OptimizeKeepsTotal | src/tokenizer.rs:96-123 | for each counted variant, the total count in the result equals the input's, modulo 256 for data and 2^64 for the pointer |
| OptimizerProofs.OptimizeOnes | src/tokenizer.rs:92-107 | `n > 0` single increments fold into one `IncrementData(n mod 256)` |
| Vm.New | src/vm.rs:35-47 | `InstructionIsNull` exactly for an empty program; otherwise the instructions are kept, memory is `MEMORY_SIZE` zero bytes, and the cached lengths are the real ones |
| Vm.Add | src/vm.rs:65-82 | unsigned `+` of width `w`: a debug build panics exactly when the sum reaches `w`; otherwise the result is the sum, or the sum minus `w` |
| Vm.Sub | src/vm.rs:68-81 | unsigned `-`: a debug build panics exactly when `x > a`; otherwise the result is the difference, or the difference plus `w` |
| Vm.Step | src/vm.rs:63-117 | one loop iteration keeps the program and the memory size, and leaves `pc` at most `inst_len + 1` |
| Vm.Jump | src/vm.rs:102-117 | a bracket keeps the program and either jumps, landing at most at `inst_len + 1`, or falls through to `pc + 1` |
| Vm.Run | src/vm.rs:58-120 | a run keeps the program and memory size; it returns `Ok(())` only with `pc >= inst_len`, and any other ending is at an instruction |
| VmProofs.DataStep | src/vm.rs:65-70 | with the pointer off memory `+`/`-` panic indexing in both builds; with it on a cell, `+`/`-` panic in a debug build exactly on `u8` overflow; otherwise only `mem[point]` changes, to the sum mod 256, and the pointer and streams stay |
| VmProofs.PointerUpStep | src/vm.rs:71-76 | `>` panics only in a debug build on `usize` overflow; otherwise it returns `PointerOverFlow` exactly when the new pointer is not a cell, and moves the pointer there when it is |
| VmProofs.GuardRange | src/vm.rs:78 | `(v >> 7) == 0xf` holds exactly for `v` in 1920..2047 |
| VmProofs.PointerDownStep | src/vm.rs:77-82 | `<` returns `PointerOverFlow` exactly when `point + x` is in 1920..2047; otherwise it sets the pointer to `point - x`, which panics in a debug build when `x > point` and wraps in a release build |
| VmProofs.IoStep | src/vm.rs:83-101 | `.` appends `mem[point]` and changes nothing else; `,` at end of input changes nothing; `,` with input stores its first byte in `mem[point]` and consumes it; both panic with the pointer off memory |
| VmProofs.JumpStep | src/vm.rs:102-117 | with the pointer off memory `[`/`]` panic indexing in both builds; otherwise `[x` with a zero cell, or `]x` with a non-zero cell, and `x <= inst_len` makes the next `pc` `x + 1`; otherwise the next `pc` is `pc + 1` |
| VmProofs.DebugPointerInRange | src/vm.rs:71-82 | in a debug build every step that goes on keeps the pointer on a cell |
| VmProofs.DebugNoIndexPanic | src/vm.rs:63-117 | a debug-build run starting on a cell never indexes out of bounds: its only panics are arithmetic overflows |
| VmProofs.ReleaseNoOverflow | src/vm.rs:63-117 | a release-build run never panics on arithmetic, only on indexing |
| VmProofs.DebugStepIsRelease | src/vm.rs:63-117 | a debug step that does not panic is the release step |
| VmProofs.DebugRunIsRelease | src/vm.rs:58-120 | a debug run that does not panic behaves exactly like the release run |
| VmProofs.RunAppend | src/vm.rs:63-118 | running `f` iterations and then `g` more is running `f + g` |
| VmProofs.RunMonotone | src/vm.rs:63-119 | once a run has ended, more fuel changes nothing |
| VmProofs.RunSpins | src/vm.rs:63-118 | a machine that one step leaves unchanged never ends |
| VmProofs.StepStreams | src/vm.rs:83-101 | a step only appends to the output and only consumes input from the front |
| VmProofs.RunStreams | src/vm.rs:58-120 | a whole run only appends to the output and only consumes input from the front |
| VmProofs.RunStopsAtFirstError | src/vm.rs:63-119 | `Ok(())` comes only with `pc >= inst_len`; an error or panic is exactly what the instruction at the final machine does |
| VmProofs.RunReachesLast | src/vm.rs:72-98 | the machine a run stopped at was reached without error in fewer iterations, so no later instruction ran |
| VmExamples.ClearTwiceSpins | src/vm.rs:109-117 | unoptimized, `++[-]` never ends in either build: `]` at 4 jumps to 3, and `pc += 1` brings it back to 4, with the cell at 1 |
| VmExamples.ClearTwiceFoldedEnds | src/vm.rs:102-119 | optimized, `++[-]` ends after four iterations with the cell at 1 |
| VmExamples.WalkBackEnds | src/vm.rs:71-82 | `>` 1917 and then three `<` 1 end with the pointer at 1914 |
| VmExamples.WalkBackFoldedStops | src/vm.rs:77-80 | the folded form `>` 1917, `<` 3 returns `PointerOverFlow`, because 1917 + 3 = 1920 trips the guard |
| VmExamples.BelowZeroDebug | src/vm.rs:81 | `<` at cell 0 panics on `usize` underflow in a debug build |
| VmExamples.BelowZeroRelease | src/vm.rs:81-85 | in a release build the pointer wraps to 2^64 - 1, and the next `.` panics indexing memory |
| VmExamples.CountUp | src/vm.rs:65-117 | `n` single increments of a cell holding `c` end with the cell at `(c + n) mod 256`, unless a debug build sees it pass 255 |
| VmExamples.CountUpOverflows | src/vm.rs:66 | in a debug build those increments panic at the one that would make the cell 256 |
| VmExamples.ManyIncrements | src/vm.rs:65-67 | 259 single increments: release ends with the cell at 3, debug panics at the 256th; folded into `IncrementData(3)`, both builds end with the cell at 3 |
| Pipeline.Compile | src/vm.rs:36-55 | a tokenizer error becomes `VmError::Token`; a source with no command character is refused as `InstructionIsNull`; otherwise the optimized tokens are loaded into zeroed memory, no more of them than command characters |
| Pipeline.Execute | src/vm.rs:53-58 | running a source gives a run exactly when it compiles, and that run executes the compiled instructions |
| PipelineExamples.ClearTwiceCompiles | src/vm.rs:53-55 | `++[-]` compiles to `IncrementData(2), LoopStart(5), DecrementData(1), LoopEnd(3)` |
| PipelineExamples.ClearTwiceExecutes | src/vm.rs:53-120 | run from source, `++[-]` ends with the cell at 1, while the token list before `optimize` never ends |

## Left out

- File reading in `VM::new_from_file`, and its `expect` panics. `Pipeline.Compile` starts from the text already read.
- `VmError::IO` and I/O failures. Standard input and output are byte sequences, and a read returns one byte or end of input.
- src/main.rs: argument handling, the usage message and the exit code.
- The `jit` module, which is not part of this model.
- `fmt::Display` for `TokenizerError`, the `thiserror` derives and `shrink_to_fit`. They have no behaviour to state.
- `test_vm_run`: it reads a file.
- Termination of `run`: Brainfuck programs need not end. `Vm.Run` takes a fuel bound, and `OutOfFuel` says the bound was reached.
- Tokenizer.Tokenize: requires fewer than 2^32 characters, because the `u32` counter `pc` would overflow beyond that.
- Tokenizer.Tokenize: `line` and `col` are unbounded integers. The `i32` overflow of `line` after 2^31 newlines is not modelled.
- TokenizerTargets.TokenizeTargets: only covers sources made of command characters alone. With comments, targets are character offsets that no token index matches, and the examples show what happens.
- TokenizerKinds.TokenizeKinds: requires that no comment precede a `[`. Otherwise the back-patch overwrites another token or panics, as `TokenizerExamples.CommentBeforeOpen` and `TokenizerExamples.PatchOutOfRange` show.
- Vm.Step: assumes a 64-bit target, so `usize` is 2^64 wide and the shift is 7.
