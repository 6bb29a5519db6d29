/** The stepping interpreter of src/interpreter/program.rs: `Program::step`
    carries out the command at one program counter, and a `RunInstance` keeps
    an explicit stack of `(program, pc)` frames in place of recursion and
    yields one `StepResult` per call of `next`.

    The pure functions here describe one step on values (`World`, `Machine`);
    the method `Step` and the class `RunInstance` carry it out on a
    `Storage`, a `ByteStream` standing for stdin and a `Sink` standing for
    stdout, and are proved to agree with the functions. */
module Execution {
  import opened Base
  import opened Commands
  import opened Storage

  /** What `RunInstance::next` reports for one step. */
  datatype StepResult = Continue | Debugger | LoopIteration | LoopEnd

  /** What `Program::step` tells `next` to do with the stack. */
  datatype ProgramStepResult = Continue | Debugger | LoopEnter(body: seq<Command>) | LoopEnd

  /** Everything a step can touch besides the stack: the tape, the bytes stdin
      has not yielded yet, and everything written to stdout so far. */
  datatype World = World(mem: Memory, stdin: seq<byte>, stdout: seq<byte>)

  /** A successful `Program::step`: what it reports, and the world after it. */
  datatype Stepped = Stepped(result: ProgramStepResult, world: World)

  /** Whether `pc` indexes a command of `prog`. */
  predicate HasCommand(prog: seq<Command>, pc: nat)
  {
    pc < |prog|
  }

  /** The four commands `Storage::command` handles. `Plus` and `Minus` panic
      past the sanity limit, `Left` at cell 0. */
  function TapeStep(c: Command, w: World): (r: Outcome<Stepped>)
    requires IsStorageCommand(c)
    ensures r.Ok? <==> CanApply(w.mem, c)
    ensures r.Ok? ==> r.value == Stepped(ProgramStepResult.Continue, w.(mem := Applied(w.mem, c)))
    ensures r.Halt? ==> r.fault == if c.Left? then PointerUnderflow else TapeLimit
  {
    if CanApply(w.mem, c) then Ok(Stepped(ProgramStepResult.Continue, w.(mem := Applied(w.mem, c))))
    else if c.Left? then Halt(PointerUnderflow)
    else Halt(TapeLimit)
  }

  /** `Program::step(pc)` on the world `w`. */
  function ProgramStep(prog: seq<Command>, pc: nat, w: World): (r: Outcome<Stepped>)
    // Past the end, and only there, the program reports `LoopEnd`; it
    // touches nothing.
    ensures !HasCommand(prog, pc) ==> r == Ok(Stepped(ProgramStepResult.LoopEnd, w))
    ensures r.Ok? && r.value.result.LoopEnd? ==> !HasCommand(prog, pc)
    // The only recoverable error is `Input` on an exhausted stdin, which
    // changes nothing.
    ensures r.Err? <==> HasCommand(prog, pc) && prog[pc].Input? && w.stdin == []
    ensures r.Err? ==> r.error == Eof
    // A successful `Input` consumes exactly one byte and stores it in the
    // cell under the pointer; every other step leaves stdin alone.
    ensures r.Ok? && HasCommand(prog, pc) && prog[pc].Input? ==>
      && InBounds(r.value.world.mem)
      && w.stdin == [Cell(r.value.world.mem)] + r.value.world.stdin
    ensures r.Ok? && !(HasCommand(prog, pc) && prog[pc].Input?) ==> r.value.world.stdin == w.stdin
    // A successful `Output` writes the cell under the pointer; nothing else
    // writes.
    ensures r.Ok? && HasCommand(prog, pc) && prog[pc].Output? ==>
      InBounds(w.mem) && r.value.world.stdout == w.stdout + [Cell(w.mem)]
    ensures r.Ok? && !(HasCommand(prog, pc) && prog[pc].Output?) ==> r.value.world.stdout == w.stdout
    // The memory each successful command leaves: `Input` stores the byte it
    // read under the pointer, `Output` only sizes the tape for the pointer,
    // and a tape command changes it as `Storage::command` does.
    ensures r.Ok? && HasCommand(prog, pc) && prog[pc].Input? ==>
      w.stdin != [] && InBounds(w.mem) && r.value.world.mem == Assigned(w.mem, w.stdin[0])
    ensures r.Ok? && HasCommand(prog, pc) && prog[pc].Output? ==>
      InBounds(w.mem) && r.value.world.mem == Touched(w.mem)
    ensures HasCommand(prog, pc) && IsStorageCommand(prog[pc]) ==>
      && (r.Ok? <==> CanApply(w.mem, prog[pc]))
      && (r.Ok? ==> r.value == Stepped(ProgramStepResult.Continue, w.(mem := Applied(w.mem, prog[pc]))))
    // `,` with a byte to read and `.` panic exactly when the pointer is past
    // the sanity limit, and otherwise report `Continue`.
    ensures HasCommand(prog, pc) && (prog[pc].Output? || (prog[pc].Input? && w.stdin != [])) ==>
      (r.Halt? <==> !InBounds(w.mem)) && (r.Ok? ==> r.value.result.Continue?)
    // Only `<` panics with an underflow; every other panic is the sanity
    // limit.
    ensures r.Halt? ==> HasCommand(prog, pc) && r.fault == if prog[pc].Left? then PointerUnderflow else TapeLimit
    // A loop hands its body to `next`, and `#` asks for the debugger, both
    // without touching the world.
    ensures r.Ok? && r.value.result.LoopEnter? <==> HasCommand(prog, pc) && prog[pc].Loop?
    ensures r.Ok? && r.value.result.LoopEnter? ==> r.value == Stepped(ProgramStepResult.LoopEnter(prog[pc].body), w)
    ensures r.Ok? && r.value.result.Debugger? <==> HasCommand(prog, pc) && prog[pc].Debugger?
    ensures r.Ok? && r.value.result.Debugger? ==> r.value.world == w
  {
    if !HasCommand(prog, pc) then Ok(Stepped(ProgramStepResult.LoopEnd, w))
    else match prog[pc]
      case Input =>
        if w.stdin == [] then Err(Eof)
        else if !InBounds(w.mem) then Halt(TapeLimit)
        else Ok(Stepped(ProgramStepResult.Continue,
                        w.(mem := Assigned(w.mem, w.stdin[0]), stdin := w.stdin[1..])))
      case Output =>
        if !InBounds(w.mem) then Halt(TapeLimit)
        else Ok(Stepped(ProgramStepResult.Continue,
                        w.(mem := Touched(w.mem), stdout := w.stdout + [Cell(w.mem)])))
      case Loop(body) => Ok(Stepped(ProgramStepResult.LoopEnter(body), w))
      case Debugger => Ok(Stepped(ProgramStepResult.Debugger, w))
      case Plus => TapeStep(Plus, w)
      case Minus => TapeStep(Minus, w)
      case Right => TapeStep(Right, w)
      case Left => TapeStep(Left, w)
  }

  /** What the caller of `Program::step` sees of its outcome. */
  function Reported(o: Outcome<Stepped>): Outcome<ProgramStepResult>
  {
    match o
    case Ok(s) => Ok(s.result)
    case Err(e) => Err(e)
    case Halt(f) => Halt(f)
  }

  /** One frame of the run stack: a program and the index of its next
      command. */
  datatype Frame = Frame(prog: seq<Command>, pc: nat)

  /** The state of a `RunInstance`: its stack, whose last element is the
      innermost frame, and the world it works on. */
  datatype Machine = Machine(stack: seq<Frame>, world: World)

  /** One call of `next`: the item it yields and the machine after it. A
      panic leaves the machine as it was; the process ends there. */
  datatype Transition = Transition(item: Option<Outcome<StepResult>>, after: Machine)

  /** The stack with the innermost frame moved past its current command. */
  function Advanced(stack: seq<Frame>): (r: seq<Frame>)
    requires stack != []
    ensures |r| == |stack| && r[..|r| - 1] == stack[..|stack| - 1]
    ensures r[|r| - 1] == Frame(stack[|stack| - 1].prog, stack[|stack| - 1].pc + 1)
  {
    stack[..|stack| - 1] + [Frame(stack[|stack| - 1].prog, stack[|stack| - 1].pc + 1)]
  }

  /** `RunInstance::next` on the machine `m`. */
  function Advance(m: Machine): (t: Transition)
    // The iterator is exhausted exactly when the stack is empty.
    ensures t.item.None? <==> m.stack == []
    // An error (and a panic) leaves the machine as it was.
    ensures t.item.None? || t.item.value.Err? || t.item.value.Halt? ==> t.after == m
    // The stack grows or shrinks by at most one frame.
    ensures |m.stack| - 1 <= |t.after.stack| <= |m.stack| + 1
    // `Debugger` only moves the innermost frame past the `#`.
    ensures t.item == Some(Ok(StepResult.Debugger)) ==> t.after.stack == Advanced(m.stack)
    // `Continue` either moves the innermost frame on, or, on a loop, pushes
    // the loop's body at pc 0 and leaves the frame below on the loop.
    ensures t.item == Some(Ok(StepResult.Continue)) ==>
      || t.after.stack == Advanced(m.stack)
      || (var top := m.stack[|m.stack| - 1];
          && HasCommand(top.prog, top.pc) && top.prog[top.pc].Loop?
          && t.after.stack == m.stack + [Frame(top.prog[top.pc].body, 0)])
    // `LoopEnd` and `LoopIteration` pop the innermost frame and tell whether
    // the cell under the pointer is 0.
    ensures t.item == Some(Ok(StepResult.LoopEnd)) || t.item == Some(Ok(StepResult.LoopIteration)) ==>
      && t.after.stack == m.stack[..|m.stack| - 1]
      && InBounds(t.after.world.mem)
      && (t.item == Some(Ok(StepResult.LoopEnd)) <==> Cell(t.after.world.mem) == 0)
    // What each command makes of the stack. A recoverable error or a panic
    // of `Program::step` is passed on and changes nothing.
    ensures m.stack != [] ==>
      var top := m.stack[|m.stack| - 1];
      var s := ProgramStep(top.prog, top.pc, m.world);
      && (s.Err? ==> t == Transition(Some(Err(s.error)), m))
      && (s.Halt? ==> t == Transition(Some(Halt(s.fault)), m))
    // A command other than a loop that succeeds is reported as `Debugger`
    // for `#` and as `Continue` otherwise, and moves the innermost frame on,
    // in the world the step leaves.
    ensures m.stack != [] ==>
      var top := m.stack[|m.stack| - 1];
      var s := ProgramStep(top.prog, top.pc, m.world);
      HasCommand(top.prog, top.pc) && !top.prog[top.pc].Loop? && s.Ok? ==>
        t == Transition(Some(Ok(if top.prog[top.pc].Debugger? then StepResult.Debugger else StepResult.Continue)),
                        Machine(Advanced(m.stack), s.value.world))
    // A loop reads the cell under the pointer (panicking past the sanity
    // limit) and reports `Continue`: on 0 it moves past the loop, otherwise
    // it pushes the body at pc 0 above the frame, which stays on the loop.
    ensures m.stack != [] ==>
      var top := m.stack[|m.stack| - 1];
      HasCommand(top.prog, top.pc) && top.prog[top.pc].Loop? ==>
        if !InBounds(m.world.mem) then t == Transition(Some(Halt(TapeLimit)), m)
        else t == Transition(Some(Ok(StepResult.Continue)),
                             Machine(if Cell(m.world.mem) == 0 then Advanced(m.stack)
                                     else m.stack + [Frame(top.prog[top.pc].body, 0)],
                                     m.world.(mem := Touched(m.world.mem))))
    // A frame past its end is popped, and the cell under the pointer decides
    // between `LoopEnd` (0) and `LoopIteration`.
    ensures m.stack != [] ==>
      var top := m.stack[|m.stack| - 1];
      !HasCommand(top.prog, top.pc) ==>
        if !InBounds(m.world.mem) then t == Transition(Some(Halt(TapeLimit)), m)
        else t == Transition(Some(Ok(if Cell(m.world.mem) == 0 then StepResult.LoopEnd else StepResult.LoopIteration)),
                             Machine(m.stack[..|m.stack| - 1], m.world.(mem := Touched(m.world.mem))))
  {
    if m.stack == [] then Transition(None, m)
    else
      var top := m.stack[|m.stack| - 1];
      match ProgramStep(top.prog, top.pc, m.world)
      case Err(e) => Transition(Some(Err(e)), m)
      case Halt(f) => Transition(Some(Halt(f)), m)
      case Ok(Stepped(res, w)) => Resumed(m, res, w)
  }

  /** What `next` does with the stack after `Program::step` succeeded with
      `res` and left the world `w`. */
  function Resumed(m: Machine, res: ProgramStepResult, w: World): (t: Transition)
    requires m.stack != []
    // Once the step succeeded, `next` yields an item and no error; its only
    // panic is the sanity limit, on reading the cell, and changes nothing.
    ensures t.item.Some? && !t.item.value.Err?
    ensures t.item.value.Halt? ==> t.after == m && t.item.value.fault == TapeLimit
    // The stack grows or shrinks by at most one frame.
    ensures |m.stack| - 1 <= |t.after.stack| <= |m.stack| + 1
  {
    match res
    case Continue => Transition(Some(Ok(StepResult.Continue)), Machine(Advanced(m.stack), w))
    case Debugger => Transition(Some(Ok(StepResult.Debugger)), Machine(Advanced(m.stack), w))
    case LoopEnter(body) =>
      if !InBounds(w.mem) then Transition(Some(Halt(TapeLimit)), m)
      else if Cell(w.mem) == 0 then
        Transition(Some(Ok(StepResult.Continue)), Machine(Advanced(m.stack), w.(mem := Touched(w.mem))))
      else
        Transition(Some(Ok(StepResult.Continue)), Machine(m.stack + [Frame(body, 0)], w.(mem := Touched(w.mem))))
    case LoopEnd =>
      if !InBounds(w.mem) then Transition(Some(Halt(TapeLimit)), m)
      else
        var result := if Cell(w.mem) == 0 then StepResult.LoopEnd else StepResult.LoopIteration;
        Transition(Some(Ok(result)), Machine(m.stack[..|m.stack| - 1], w.(mem := Touched(w.mem))))
  }

  /** `Program::run(root)`: a machine whose stack holds the single frame
      `(root, 0)`. */
  function Started(root: seq<Command>, w: World): (m: Machine)
    ensures |m.stack| == 1 && m.stack[0] == Frame(root, 0) && m.world == w
  {
    Machine([Frame(root, 0)], w)
  }

  /** Every frame but the innermost sits on a `Loop` command whose body is
      the program of the frame above it. */
  predicate WellNested(stack: seq<Frame>)
  {
    forall i :: 0 <= i < |stack| - 1 ==>
      HasCommand(stack[i].prog, stack[i].pc) && stack[i].prog[stack[i].pc] == Loop(stack[i + 1].prog)
  }

  /** `next` keeps the stack well nested and never replaces the root
      program. */
  lemma NestingPreserved(m: Machine)
    requires WellNested(m.stack)
    ensures WellNested(Advance(m).after.stack)
    ensures Advance(m).after.stack != [] ==> Advance(m).after.stack[0].prog == m.stack[0].prog
  {
    var t := Advance(m);
    if m.stack != [] && t.item.Some? && t.item.value.Ok? {
      var n := |m.stack|;
      if t.after.stack == Advanced(m.stack) {
        AdvancedNested(m.stack);
      } else if |t.after.stack| == n + 1 {
        PushedNested(m.stack);
      } else {
        PoppedNested(m.stack);
      }
    }
  }

  /** Moving the innermost frame on keeps the stack well nested. */
  lemma AdvancedNested(stack: seq<Frame>)
    requires stack != [] && WellNested(stack)
    ensures WellNested(Advanced(stack)) && Advanced(stack)[0].prog == stack[0].prog
  {
    var s := Advanced(stack);
    forall i | 0 <= i < |s| - 1
      ensures HasCommand(s[i].prog, s[i].pc) && s[i].prog[s[i].pc] == Loop(s[i + 1].prog)
    {
      assert s[i] == stack[i];
      assert s[i + 1].prog == stack[i + 1].prog;
    }
  }

  /** Pushing the body of the loop the innermost frame sits on keeps the
      stack well nested. */
  lemma PushedNested(stack: seq<Frame>)
    requires stack != [] && WellNested(stack)
    requires var top := stack[|stack| - 1]; HasCommand(top.prog, top.pc) && top.prog[top.pc].Loop?
    ensures var top := stack[|stack| - 1];
      var s := stack + [Frame(top.prog[top.pc].body, 0)];
      WellNested(s) && s[0].prog == stack[0].prog
  {
    var top := stack[|stack| - 1];
    var s := stack + [Frame(top.prog[top.pc].body, 0)];
    forall i | 0 <= i < |s| - 1
      ensures HasCommand(s[i].prog, s[i].pc) && s[i].prog[s[i].pc] == Loop(s[i + 1].prog)
    {
      assert s[i] == stack[i];
    }
  }

  /** Popping the innermost frame keeps the stack well nested. */
  lemma PoppedNested(stack: seq<Frame>)
    requires stack != [] && WellNested(stack)
    ensures WellNested(stack[..|stack| - 1])
  {
    var s := stack[..|stack| - 1];
    forall i | 0 <= i < |s| - 1
      ensures HasCommand(s[i].prog, s[i].pc) && s[i].prog[s[i].pc] == Loop(s[i + 1].prog)
    {
      assert s[i] == stack[i] && s[i + 1] == stack[i + 1];
    }
  }

  /** How a loop repeats without recursion: when a loop body runs off its
      end, its frame is popped and the frame below still sits on the `Loop`
      command. If the cell is not 0 the step reports `LoopIteration` and the
      next step pushes the same body again at pc 0; if it is 0 the step
      reports `LoopEnd` and the next step moves past the loop. */
  lemma LoopRepeats(m: Machine)
    requires WellNested(m.stack) && |m.stack| >= 2
    requires !HasCommand(m.stack[|m.stack| - 1].prog, m.stack[|m.stack| - 1].pc)
    requires InBounds(m.world.mem)
    ensures var t := Advance(m);
      && t.item.Some? && t.item.value.Ok?
      && t.after.stack == m.stack[..|m.stack| - 1]
      && var u := Advance(t.after);
      && u.item == Some(Ok(StepResult.Continue))
      && (if t.item.value.value == StepResult.LoopIteration
          then u.after.stack == t.after.stack + [Frame(m.stack[|m.stack| - 1].prog, 0)]
          else t.item.value.value == StepResult.LoopEnd && u.after.stack == Advanced(t.after.stack))
  {
    var n := |m.stack|;
    var t := Advance(m);
    assert ProgramStep(m.stack[n - 1].prog, m.stack[n - 1].pc, m.world)
           == Ok(Stepped(ProgramStepResult.LoopEnd, m.world));
    assert t.after.stack == m.stack[..n - 1];
    var parent := m.stack[n - 2];
    assert t.after.stack[n - 2] == parent;
    assert HasCommand(parent.prog, parent.pc) && parent.prog[parent.pc] == Loop(m.stack[n - 1].prog);
    assert ProgramStep(parent.prog, parent.pc, t.after.world)
           == Ok(Stepped(ProgramStepResult.LoopEnter(m.stack[n - 1].prog), t.after.world));
  }

  /** An empty program still takes one step: the root frame runs off its end,
      which sizes the tape to one cell and reports `LoopEnd` because that cell
      is 0. After that the iterator is exhausted. */
  lemma EmptyProgramRun(stdin: seq<byte>, stdout: seq<byte>)
    ensures var m := Started([], World(Memory([], 0), stdin, stdout));
      && Advance(m) == Transition(Some(Ok(StepResult.LoopEnd)), Machine([], World(Memory([0], 0), stdin, stdout)))
      && Advance(Advance(m).after).item == None
  {
    var w := World(Memory([], 0), stdin, stdout);
    assert Touched(w.mem).tape == [0];
  }

  /** The world made of a storage, a stdin iterator and a stdout writer. */
  ghost function WorldOf(storage: Storage, stdin: ByteStream, stdout: Sink): World
    reads storage, stdin, stdout
    requires stdin.Valid()
  {
    World(storage.Model(), stdin.Remaining(), stdout.written)
  }

  /** `Program::step`: carries out the command of `prog` at `pc` on the
      storage and the two streams. On success the world is the one
      `ProgramStep` describes; an error or a panic changes nothing. */
  method Step(prog: seq<Command>, pc: nat, storage: Storage, stdin: ByteStream, stdout: Sink)
    returns (r: Outcome<ProgramStepResult>)
    requires stdin.Valid()
    modifies storage, stdin, stdout
    ensures stdin.Valid()
    ensures r == Reported(ProgramStep(prog, pc, old(WorldOf(storage, stdin, stdout))))
    ensures r.Ok? ==> WorldOf(storage, stdin, stdout) == ProgramStep(prog, pc, old(WorldOf(storage, stdin, stdout))).value.world
    ensures !r.Ok? ==> WorldOf(storage, stdin, stdout) == old(WorldOf(storage, stdin, stdout))
  {
    if pc >= |prog| {
      return Ok(ProgramStepResult.LoopEnd);
    }
    match prog[pc]
    case Input =>
      if stdin.pos == |stdin.data| {
        return Err(Eof);
      }
      if storage.ptr > SANITY_LIMIT {
        return Halt(TapeLimit);
      }
      var i := stdin.Next();
      storage.Set(i.value);
      r := Ok(ProgramStepResult.Continue);
    case Output =>
      if storage.ptr > SANITY_LIMIT {
        return Halt(TapeLimit);
      }
      var val := storage.Get();
      stdout.Write(val);
      r := Ok(ProgramStepResult.Continue);
    case Loop(body) =>
      r := Ok(ProgramStepResult.LoopEnter(body));
    case Debugger =>
      r := Ok(ProgramStepResult.Debugger);
    case Plus => r := StorageStep(Plus, storage);
    case Minus => r := StorageStep(Minus, storage);
    case Right => r := StorageStep(Right, storage);
    case Left => r := StorageStep(Left, storage);
  }

  /** The `cmd => storage.command(cmd)` arm of `Program::step`. */
  method StorageStep(c: Command, storage: Storage) returns (r: Outcome<ProgramStepResult>)
    requires IsStorageCommand(c)
    modifies storage
    ensures r.Ok? <==> CanApply(old(storage.Model()), c)
    ensures r.Ok? ==> r.value == ProgramStepResult.Continue && storage.Model() == Applied(old(storage.Model()), c)
    ensures !r.Ok? ==> r == Halt(if c.Left? then PointerUnderflow else TapeLimit) && storage.Model() == old(storage.Model())
  {
    if c.Left? && storage.ptr == 0 {
      return Halt(PointerUnderflow);
    }
    if (c.Plus? || c.Minus?) && storage.ptr > SANITY_LIMIT {
      return Halt(TapeLimit);
    }
    storage.Command(c);
      r := Ok(ProgramStepResult.Continue);
  }

  /** `RunInstance`: the frame stack of a running program, together with the
      storage and the two streams it borrows. */
  class RunInstance {
    var stack: seq<Frame>
    const storage: Storage
    const stdin: ByteStream
    const stdout: Sink

    ghost predicate Valid()
      reads this, stdin
    {
      stdin.Valid()
    }

    /** The machine this instance currently is. */
    ghost function Model(): Machine
      reads this, storage, stdin, stdout
      requires Valid()
    {
      Machine(stack, WorldOf(storage, stdin, stdout))
    }

    /** `Program::run`: starts `root` at pc 0 on the given storage and
        streams, which keep their contents. */
    constructor Run(root: seq<Command>, storage: Storage, stdin: ByteStream, stdout: Sink)
      requires stdin.Valid()
      ensures Valid()
      ensures this.storage == storage && this.stdin == stdin && this.stdout == stdout
      ensures Model() == Started(root, old(WorldOf(storage, stdin, stdout)))
    {
      stack := [Frame(root, 0)];
      this.storage := storage;
      this.stdin := stdin;
      this.stdout := stdout;
    }

    /** `RunInstance::next`: one step of the innermost frame, and what it
        does to the stack. */
    method Next() returns (item: Option<Outcome<StepResult>>)
      requires Valid()
      modifies this, storage, stdin, stdout
      ensures Valid()
      ensures Transition(item, Model()) == Advance(old(Model()))
    {
      if stack == [] {
        return None;
      }
      ghost var m := Model();
      var top := stack[|stack| - 1];
      ghost var stepped := ProgramStep(top.prog, top.pc, m.world);
      var r := Step(top.prog, top.pc, storage, stdin, stdout);
      match r
      case Err(e) =>
        item := Some(Err(e));
      case Halt(f) =>
        item := Some(Halt(f));
      case Ok(res) =>
        assert Advance(m) == Resumed(m, res, stepped.value.world);
        item := Resume(m, res);
    }

    /** The arms of `next` that follow a successful `Program::step`. */
    method Resume(ghost m: Machine, res: ProgramStepResult) returns (item: Option<Outcome<StepResult>>)
      requires Valid() && stack != [] && m.stack == stack
      requires (res.LoopEnter? || res.LoopEnd?) ==> m.world == WorldOf(storage, stdin, stdout)
      modifies this, storage
      ensures Valid()
      ensures Transition(item, Model()) == Resumed(m, res, old(WorldOf(storage, stdin, stdout)))
    {
      match res
      case Continue =>
        stack := Advanced(stack);
        item := Some(Ok(StepResult.Continue));
      case Debugger =>
        stack := Advanced(stack);
        item := Some(Ok(StepResult.Debugger));
      case LoopEnter(body) =>
        if storage.ptr > SANITY_LIMIT {
          return Some(Halt(TapeLimit));
        }
        var v := storage.Get();
        if v == 0 {
          stack := Advanced(stack);
        } else {
          stack := stack + [Frame(body, 0)];
        }
        item := Some(Ok(StepResult.Continue));
      case LoopEnd =>
        if storage.ptr > SANITY_LIMIT {
          return Some(Halt(TapeLimit));
        }
        stack := stack[..|stack| - 1];
        var v := storage.Get();
        item := Some(Ok(if v == 0 then StepResult.LoopEnd else StepResult.LoopIteration));
    }
  }
}
