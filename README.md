# bf-rs core in Dafny

A Dafny model of the core of bf-rs, a Brainfuck interpreter written in Rust
that adds an eighth command, `#`, as a breakpoint for its debugger. The model
covers three parts of the program:

- **The parser.** `Program::parse` turns source bytes into a tree of
  commands. It appears twice: the stepping interpreter's version in
  `src/interpreter/program.rs`, and an older copy without `#` in
  `src/main.rs`.
- **The tape.** `Storage` in `src/interpreter/storage.rs` is a zero-filled
  byte vector with a pointer. It grows on demand up to a sanity limit of 4096,
  and its cells wrap modulo 256.
- **The two execution engines.**
  - The stepping engine: `RunInstance::next` and `Program::step`. They replace
    recursion with an explicit stack of `(program, pc)` frames and yield one
    `StepResult` per call.
  - The older recursive engine: `Program::run` of `src/main.rs` with its
    `Interpreter`.

Modules:

- **`Base`**: the byte type and the error taxonomy of `src/error.rs`. Also the
  three-way `Outcome`: success, recoverable error, or panic (`Halt`). And the
  two streams an interpreter uses. `ByteStream` is an iterator over a fixed
  byte sequence; it stands for the parser's input and for the program's
  stdin. `Sink` is an append-only writer; it stands for stdout.
- **`Commands`**: the command tree of the stepping interpreter.
- **`Storage`**: `Memory` is the value of a tape. Pure functions on it
  specify each operation. The class `Storage` updates `tape` and `ptr` in
  place, and its methods are proved equal to those functions.
- **`Program`**: the parser. `ParseLevel` is a recursive specification that
  returns the commands of one nesting level and the unread rest. The
  imperative `ParseInternal` is the `while let` loop over a shared iterator,
  proved equal to it. `Unparse` gives the canonical text of a tree; parsing
  inverts it, and the nesting and truncation rules follow from that.
- **`Execution`**: `ProgramStep` and `Advance` describe one step of the
  stepping engine on values (`World`, `Machine`). The method `Step` and the
  class `RunInstance` carry the step out on a `Storage`, a stdin `ByteStream`
  and a stdout `Sink`. Each is proved to do exactly what the functions say.
- **`Legacy`**: `src/main.rs`:
  - its own command type and parser, proved to equal the newer parser with
    every `#` erased;
  - `Exec`, the specification of the recursive `Program::run`;
  - the `Interpreter` class, whose methods run the `for` loop and the inner
    `loop` over the interpreter's own tape and pointer.

Panics are modelled as follows:

- Tape growth past the limit, a pointer moved left of cell 0, a
  non-tape command given to `Storage::command`, and end of input in the old
  engine are all panics.
- The methods of `Storage` take them as preconditions, as the source's
  callers must.
- The engines check the same conditions and report a distinct `Halt` outcome
  (`Halted` in `Legacy`). These are never recoverable errors.

## Model

| member | source | states |
|---|---|---|
| Base.Zeros | src/interpreter/storage.rs:17 | the cells `Vec::resize(_, 0)` appends: exactly `n` of them, all 0 |
| Base.ByteStream.Next | src/interpreter/program.rs:108 | `Iterator::next` yields the next unread byte and consumes it, or `None` once the input is used up and consumes nothing |
| Base.Sink.Write | src/interpreter/program.rs:153 | writing one byte appends exactly that byte to what was written |
| Storage.Grown | src/interpreter/storage.rs:11-19 | `ensure_sized` leaves the tape `max(len, size + 1)` long, with a precondition `size <= 4096` where the source panics |
| Storage.GrownKeepsCells | src/interpreter/storage.rs:16-18 | growing keeps every old cell and fills every new cell with 0 |
| Storage.Storage.EnsureSized | src/interpreter/storage.rs:11-19 | the in-place resize leaves the tape equal to `Grown` and the pointer unchanged |
| Storage.Storage.constructor | src/interpreter/storage.rs:27-32 | `Storage::new` is an empty tape with the pointer at 0 |
| Storage.Touched | src/interpreter/storage.rs:34-44 | after `get`/`get_mut` the pointer is on the tape, the pointer is unchanged and the tape never shrinks |
| Storage.Cell | src/interpreter/storage.rs:40-44 | `get` returns `tape[ptr]`, and 0 for a cell never written |
| Storage.Storage.GetMut | src/interpreter/storage.rs:34-38 | `get_mut` sizes the tape for the pointer and hands out the index of the cell under it |
| Storage.Storage.Get | src/interpreter/storage.rs:40-44 | `get` sizes the tape and returns `Cell` of the old state |
| Storage.Assigned | src/interpreter/storage.rs:46-49 | `set(v)` makes `tape[ptr] == v` and keeps the pointer |
| Storage.AssignedKeepsOthers | src/interpreter/storage.rs:46-49 | `set` changes no other old cell, and every cell added by sizing is 0 |
| Storage.AssignedTwice | src/interpreter/storage.rs:46-49 | a second `set` overrides the first |
| Storage.Storage.Set | src/interpreter/storage.rs:46-49 | the in-place `set` equals `Assigned` |
| Storage.InBounds | src/interpreter/storage.rs:12-14 | `get`/`get_mut`/`set` do not panic exactly when the pointer is at most the sanity limit 4096 |
| Storage.CanApply | src/interpreter/storage.rs:51-77 | `command` returns exactly for the four tape commands, when `+`/`-` are within the sanity limit and `<` is not at cell 0 |
| Storage.WrappingInc | src/interpreter/storage.rs:63 | `wrapping_add(1)`: one more, except that 255 goes to 0 |
| Storage.WrappingDec | src/interpreter/storage.rs:68 | `wrapping_sub(1)`: one less, except that 0 goes to 255; it undoes `WrappingInc` |
| Storage.Incremented | src/interpreter/storage.rs:61-64 | `inc_mem` sizes the tape, keeps the pointer and every other cell, and wraps the cell under the pointer up by one |
| Storage.Decremented | src/interpreter/storage.rs:66-69 | `dec_mem` sizes the tape, keeps the pointer and every other cell, and leaves a cell that `WrappingInc` takes back to the old one |
| Storage.MovedRight | src/interpreter/storage.rs:71-73 | `inc_ptr` keeps the tape and moves the pointer one cell right |
| Storage.MovedLeft | src/interpreter/storage.rs:75-77 | `dec_ptr` keeps the tape and is undone by `inc_ptr` |
| Storage.Applied | src/interpreter/storage.rs:51-77 | `command`: `Plus`/`Minus` move the cell under the pointer by ±1 modulo 256 and keep the pointer; `Right`/`Left` keep the tape and move the pointer by ±1 |
| Storage.AppliedKeepsOthers | src/interpreter/storage.rs:51-77 | no tape command changes any cell other than the one under the pointer |
| Storage.Storage.Command | src/interpreter/storage.rs:51-59 | `command` dispatches the four tape commands; any other command is a precondition violation, since the source panics |
| Storage.Storage.IncMem | src/interpreter/storage.rs:61-64 | `inc_mem` is a wrapping increment of the current cell |
| Storage.Storage.DecMem | src/interpreter/storage.rs:66-69 | `dec_mem` is a wrapping decrement of the current cell |
| Storage.Storage.IncPtr | src/interpreter/storage.rs:71-73 | `inc_ptr` adds one to the pointer and leaves the tape alone |
| Storage.Storage.DecPtr | src/interpreter/storage.rs:75-77 | `dec_ptr` subtracts one; at 0 it is a precondition violation (underflow) |
| Storage.IncrementedTimes | src/interpreter/storage.rs:61-64 | repeated `inc_mem` keeps the pointer |
| Storage.IncrementedTimesValue | src/interpreter/storage.rs:61-64 | `n >= 1` increments set the cell to `(cell + n) mod 256` |
| Storage.WrapAround | src/interpreter/storage.rs:61-64 | any positive multiple of 256 increments (256 among them) restores the cell |
| Storage.DecrementFreshCell | src/interpreter/storage.rs:66-69 | `dec_mem` on a cell never written gives 255 |
| Storage.IncrementDecrementCancel | src/interpreter/storage.rs:61-69 | `inc_mem` then `dec_mem`, or the reverse, only sizes the tape |
| Program.TokenOf | src/interpreter/program.rs:109-120 | the byte table of the parser; no byte stands for a loop by itself |
| Program.ParseLevel | src/interpreter/program.rs:105-127 | one nesting level of `parse_internal`; the unread rest is never longer than the input |
| Program.ParseClose | src/interpreter/program.rs:115 | `]` ends the level and is consumed |
| Program.ParseOpen | src/interpreter/program.rs:114 | `[` parses a nested level from the same input, wraps it in `Loop` and goes on after it |
| Program.ParseSimple | src/interpreter/program.rs:110-118 | a command character puts its command first in the level |
| Program.ParseSkip | src/interpreter/program.rs:119 | any other byte is skipped |
| Program.ParseInternal | src/interpreter/program.rs:105-127 | the imperative loop over the shared iterator returns exactly the commands `ParseLevel` gives and leaves exactly its rest unread |
| Program.Parsed | src/interpreter/program.rs:100-103 | the program `parse` builds: the top level of `ParseLevel`, whatever an unmatched `]` leaves unread |
| Program.Parse | src/interpreter/program.rs:100-103 | `Program::parse` returns the top level of `ParseLevel` |
| Program.Spelling | src/interpreter/program.rs:110-118 | each non-loop command has a character the parser maps back to it |
| Program.ParseUnparseCommand | src/interpreter/program.rs:105-127 | the text of one command, followed by anything, parses to that command in front of what the rest parses to |
| Program.ParseUnparse | src/interpreter/program.rs:105-127 | the same for a whole command sequence, nested loops included |
| Program.RoundTrip | src/interpreter/program.rs:100-127 | parsing inverts `Unparse` and consumes the whole text |
| Program.UnmatchedCloseTruncates | src/interpreter/program.rs:115 | an unmatched `]` at the top level silently discards the rest of the input |
| Program.UnmatchedOpenTakesRest | src/interpreter/program.rs:114 | an unmatched `[` takes the rest of the input as its loop body, without error |
| Program.Significant | src/interpreter/program.rs:119 | the bytes the parser looks at, all of them significant |
| Program.ParseIgnoresComments | src/interpreter/program.rs:108-121 | an input parses exactly as its significant bytes do |
| Program.CommentsDoNotMatter | src/interpreter/program.rs:108-121 | inserting or removing skipped bytes does not change the parsed tree |
| Program.Decoded | src/interpreter/program.rs:110-118 | the simple commands a text spells, none of them a loop |
| Program.FlatParse | src/interpreter/program.rs:108-121 | without brackets, `+ - > < , . #` become their commands in source order and the whole input is consumed |
| Program.CommentOnlyParsesEmpty | src/interpreter/program.rs:119 | an input of skipped bytes only parses to the empty program |
| Execution.TapeStep | src/interpreter/program.rs:159-162 | a tape command succeeds exactly when `Storage::command` would not panic; it then reports `Continue` and applies the command; otherwise it halts with the fault that applies |
| Execution.ProgramStep | src/interpreter/program.rs:140-167 | `step` reports `LoopEnd` exactly past the end of the program and then touches nothing. Its only error is `Eof`, from `Input` on an exhausted stdin, with nothing changed. `Input` consumes exactly one byte and stores it with `set`. `Output` appends exactly the cell and only sizes the tape. A tape command succeeds exactly when `command` would not panic, and then applies it. `,` and `.` panic exactly past the sanity limit; only `<` panics with an underflow. A loop yields `LoopEnter` of its body and `#` yields `Debugger`, both without touching the world |
| Execution.Step | src/interpreter/program.rs:140-167 | the imperative `step` on a storage, a stdin and a stdout reports what `ProgramStep` reports; on success it leaves the world `ProgramStep` gives, and otherwise it changes nothing |
| Execution.StorageStep | src/interpreter/program.rs:159-162 | the `storage.command(cmd)` arm succeeds exactly when `CanApply` holds, and then equals `Applied`; otherwise it halts with the storage unchanged |
| Execution.Advanced | src/interpreter/program.rs:44 | `*pc += 1` changes only the innermost frame, and only its pc |
| Execution.Advance | src/interpreter/program.rs:38-74 | `next` yields `None` exactly on an empty stack, and passes on the errors and panics of `step` without changing anything. A command other than a loop reports `Debugger` for `#` and `Continue` otherwise, and only advances the innermost pc. A loop reports `Continue`: on a 0 cell it advances past the loop, otherwise it pushes the body at pc 0 above the frame, which stays on the loop. A frame past its end is popped, with `LoopEnd` on a 0 cell and `LoopIteration` otherwise. Reading the cell panics past the sanity limit. The depth changes by at most one |
| Execution.Resumed | src/interpreter/program.rs:43-67 | the arms of `next` after a successful step yield an item and no error, panic only at the sanity limit without changing anything, and change the depth by at most one |
| Execution.RunInstance.Next | src/interpreter/program.rs:38-74 | the in-place `next` yields the item `Advance` yields and leaves the instance in the machine state `Advance` gives |
| Execution.RunInstance.Resume | src/interpreter/program.rs:43-67 | the arms of `next` after a successful step agree with `Advance` |
| Execution.Started | src/interpreter/program.rs:129-138 | `run` gives a stack of exactly one frame, `(root, 0)` |
| Execution.RunInstance.Run | src/interpreter/program.rs:129-138 | the constructed instance is `Started(root)` on the borrowed storage and streams |
| Execution.NestingPreserved | src/interpreter/program.rs:41-72 | `next` keeps every frame but the innermost sitting on a `Loop` whose body is the next frame's program, and never replaces the root program |
| Execution.AdvancedNested | src/interpreter/program.rs:44 | advancing the innermost pc keeps the stack well nested |
| Execution.PushedNested | src/interpreter/program.rs:60 | pushing the body of the loop under the innermost pc keeps the stack well nested |
| Execution.PoppedNested | src/interpreter/program.rs:48 | popping the innermost frame keeps the stack well nested |
| Execution.LoopRepeats | src/interpreter/program.rs:47-63 | when a body runs off its end, the frame is popped and the parent still sits on the `Loop`. After `LoopIteration` the next step pushes the same body again at pc 0. After `LoopEnd` the next step moves past the loop |
| Execution.EmptyProgramRun | src/interpreter/program.rs:41-55 | the empty program takes one step: it sizes the tape to one zero cell, reports `LoopEnd` for the root frame, and then yields `None` |
| Legacy.TokenOf | src/main.rs:37-47 | the older byte table; no byte stands for a loop by itself |
| Legacy.TokensAgree | src/main.rs:37-47 | both parsers classify every byte alike, except that `#` is skipped here |
| Legacy.ParseLevel | src/main.rs:33-54 | one nesting level of the older `parse_internal`; the rest is never longer than the input |
| Legacy.ParseFirst | src/main.rs:36-48 | how the first byte of the input decides the level |
| Legacy.ParseInternal | src/main.rs:33-54 | the imperative loop returns exactly what `ParseLevel` gives and leaves exactly its rest unread |
| Legacy.Parsed | src/main.rs:28-31 | the program the older `parse` builds: the top level of its `ParseLevel` |
| Legacy.Parse | src/main.rs:28-31 | the older `Program::parse` returns the top level of `ParseLevel` |
| Legacy.ParseErasesDebugger | src/main.rs:33-54 | the older parser builds the newer parser's tree with every `#` dropped, and leaves the same rest. So `[`/`]` nest and terminate exactly as in the newer parser |
| Legacy.UnmatchedCloseTruncates | src/main.rs:43 | an unmatched `]` truncates the older parse too |
| Legacy.SkippedOnly | src/main.rs:46 | bytes that are not commands, `#` included, parse to nothing |
| Legacy.Resized | src/main.rs:61-63 | before each command the tape is zero-extended, with no limit, so the pointer is on it. Old cells, the pointer and the streams are unchanged |
| Legacy.ResizedCellsZero | src/main.rs:61-63 | every cell added by the resize is 0 |
| Legacy.Basic | src/main.rs:65-103 | see below |
| Legacy.Exec | src/main.rs:56-125 | `Program::run`: the commands in order, each on the resized machine, stopping at the first panic; the tape never shrinks |
| Legacy.Execute | src/main.rs:65-122 | one arm of the `match`: a loop goes to `Looped`, any other command to `Basic`; only a loop can run out of fuel, and the tape never shrinks |
| Legacy.Looped | src/main.rs:104-121 | the inner `loop`: while the cell is not 0, run the body and resize; without fuel it starves exactly when the cell is not 0 |
| Legacy.ExecMonotone | src/main.rs:56-125 | more fuel does not change a run that finishes or panics |
| Legacy.ExecuteMonotone | src/main.rs:65-122 | the same for one command |
| Legacy.LoopedMonotone | src/main.rs:104-121 | the same for a loop |
| Legacy.LoopedUnfold | src/main.rs:105-121 | one pass of the loop on a non-zero cell runs the body and continues from the resized result |
| Legacy.LoopedAgain | src/main.rs:105-121 | a loop that finishes from a non-zero cell ran its body to completion first |
| Legacy.LoopEndsOnZero | src/main.rs:104-121 | when a `Loop` command finishes, the cell under the pointer is 0 |
| Legacy.LoopSkipped | src/main.rs:106-110 | a loop on a zero cell does nothing |
| Legacy.EmptyLoopSpins | src/main.rs:104-121 | `[]` on a non-zero cell never finishes |
| Legacy.FollowsTransitive | src/main.rs:86-103 | the "input consumed, output extended" relation is transitive |
| Legacy.ExecStreams | src/main.rs:56-125 | a finished run has consumed a prefix of stdin and only appended to stdout |
| Legacy.ExecuteStreams | src/main.rs:65-122 | the same for one command |
| Legacy.LoopedStreams | src/main.rs:104-121 | the same for a loop |
| Legacy.CommentOnlyRun | src/main.rs:56-125 | a program of comments only leaves tape, pointer, input and output untouched |
| Legacy.EchoRun | src/main.rs:86-103 | `,.` prints its one input byte as a character |
| Legacy.ClearTwo | src/main.rs:104-121 | `[-]` on a cell holding 2 clears it in two passes |
| Legacy.ExecAt | src/main.rs:57-124 | the `for` loop runs command `i` on the resized machine and goes on with the rest |
| Legacy.Interpreter.New | src/main.rs:135-143 | `Interpreter::new` holds the parsed program, an empty tape and the pointer at 0 |
| Legacy.Interpreter.Run | src/main.rs:145-151 | `Interpreter::run` starts from empty output and ends as `Exec` of the program ends. When it finishes, its tape, pointer, unread input and output are `Exec`'s |
| Legacy.Interpreter.RunCommands | src/main.rs:56-125 | the in-place `Program::run` ends as `Exec` ends; when it finishes it leaves `Exec`'s state |
| Legacy.Interpreter.Perform | src/main.rs:65-103 | each non-loop arm of the `match` equals `Basic` |
| Legacy.Interpreter.RunLoop | src/main.rs:104-121 | the inner `loop` equals `Looped` |
| Legacy.Interpreter.Iterate | src/main.rs:108-120 | one pass of the inner loop: the body, then the resize |

`Legacy.Basic` states each non-loop command of `Program::run` on a sized tape:

- Only `<` at cell 0 and `,` on empty input panic.
- `>` and `<` move the pointer by one and do nothing else.
- The other commands keep the pointer and the tape length. They write at
  most the cell under the pointer.
- `+` and `-` move that cell by one, modulo 256.
- `,` consumes exactly one input byte into the cell.
- `.` appends the cell as one character.

## Left out

- `src/input.rs`, `src/interpreter/mod.rs`, `main` and the `Display` impls of
  `src/error.rs` and of `Storage` are not part of this model. They are
  input-source selection, wiring, argument parsing and text rendering.
- The debugger stepper and its command grammar are not part of this model.
  Neither is in the files modelled.
- Output failure is not modelled. `step` maps a failed `write` on stdout to
  `Eof`; the model's `Sink` never fails. The model also does not capture that
  `write` may accept zero bytes and still report success.
- Integer widths are not modelled. Pointers and program counters are
  unbounded naturals, so the `usize` overflow of `inc_ptr` and of
  `*ptr += 1` does not arise.
- A pointer moved left of cell 0 is treated as a panic. This is what a debug
  build does; a release build wraps the pointer instead.
- Hello world is not proved. The test that the long program at
  `src/main.rs:180` prints `hello world` takes about ten thousand interpreter
  steps, too many to evaluate in a proof. Small concrete runs
  (`Legacy.EchoRun`, `Legacy.ClearTwo`) stand in for it.
- Execution.Advance: it is weaker than the source in one respect. On a panic
  the model keeps the machine unchanged. The source may have already popped a
  frame (`LoopEnd`) or consumed an input byte (`Input` beyond the sanity
  limit) before it panics. The process ends at a panic either way.
- Execution.Step: the same simplification. It reports a panic before any
  state change that the source would make before panicking.
- Legacy.Interpreter.Run: it takes fuel. A Brainfuck loop need not
  terminate, so the recursive engine is specified with fuel. Fuel is not a
  total budget: every command of a sequence gets the same fuel, and each
  pass of a loop runs with one unit less. So fuel bounds the number of passes
  of any one loop and the nesting depth below it. A run that exceeds either
  ends as `Starved`; more fuel never changes a run that finishes
  (`Legacy.ExecMonotone`). On a panic or lack of fuel, the state and the
  output are left unspecified.
- Legacy.Interpreter.RunCommands: the same fuel parameter as
  `Legacy.Interpreter.Run`.
- `peekable()` in the older parser is not modelled. The parser never peeks,
  so its input is modelled as a plain iterator.
- An empty or comment-only program sizes the stepping engine's tape to one
  cell: running off the end of the root program calls `get` before `LoopEnd`
  is reported (`Execution.EmptyProgramRun`). The older engine leaves the tape
  as it was (`Legacy.CommentOnlyRun`).
