/** The first, recursive interpreter of src/main.rs: its own command type
    (without the `#` breakpoint), its own copy of the parser, and
    `Program::run`, which walks the command tree recursively over a tape that
    grows without limit, and the `Interpreter` that owns the program, the
    tape and the pointer.

    `Exec` is the specification of `Program::run`. A Brainfuck loop need not
    terminate, so `Exec` takes fuel. Fuel is not a total budget: every
    command of a sequence gets the same fuel, and each pass of a loop runs
    its body, and the passes after it, with one unit less. So fuel `f`
    bounds both the number of passes of any one loop and the nesting depth
    of the loops run inside it; a run that exceeds either reports
    `OutOfFuel`. More fuel never changes a run that finishes
    (`ExecMonotone`). */
module Legacy {
  import opened Base
  import Program
  import Commands
  import Storage

  /** A command of the recursive interpreter. */
  datatype Command =
    | Plus
    | Minus
    | Right
    | Left
    | Input
    | Output
    | Loop(body: seq<Command>)

  /** How this parser treats one byte. */
  datatype Token = OpenToken | CloseToken | CommandToken(command: Command) | Skipped

  /** The token a byte stands for. `#` is not a command here and is skipped
      like any other byte. */
  function TokenOf(b: byte): (r: Token)
    ensures r.CommandToken? ==> !r.command.Loop?
  {
    if b == Program.OPEN then OpenToken
    else if b == Program.CLOSE then CloseToken
    else if b == Program.PLUS then CommandToken(Plus)
    else if b == Program.MINUS then CommandToken(Minus)
    else if b == Program.RIGHT then CommandToken(Right)
    else if b == Program.LEFT then CommandToken(Left)
    else if b == Program.COMMA then CommandToken(Input)
    else if b == Program.DOT then CommandToken(Output)
    else Skipped
  }

  /** The commands of one level and the input left unread. */
  datatype Level = Level(commands: seq<Command>, rest: seq<byte>)

  /** `parse_internal` of src/main.rs on the input `s`. */
  function ParseLevel(s: seq<byte>): (r: Level)
    ensures |r.rest| <= |s|
    decreases |s|
  {
    if s == [] then Level([], [])
    else match TokenOf(s[0])
      case CloseToken => Level([], s[1..])
      case OpenToken =>
        var inner := ParseLevel(s[1..]);
        var after := ParseLevel(inner.rest);
        Level([Loop(inner.commands)] + after.commands, after.rest)
      case CommandToken(c) =>
        var after := ParseLevel(s[1..]);
        Level([c] + after.commands, after.rest)
      case Skipped => ParseLevel(s[1..])
  }

  /** `Program::parse` of src/main.rs. */
  function Parsed(code: seq<byte>): seq<Command>
  {
    ParseLevel(code).commands
  }

  /** `ParseLevel` on an input that starts with a known byte. */
  lemma ParseFirst(b: byte, t: seq<byte>)
    ensures ParseLevel([b] + t) == match TokenOf(b)
      case CloseToken => Level([], t)
      case OpenToken =>
        var after := ParseLevel(ParseLevel(t).rest);
        Level([Loop(ParseLevel(t).commands)] + after.commands, after.rest)
      case CommandToken(c) => Level([c] + ParseLevel(t).commands, ParseLevel(t).rest)
      case Skipped => ParseLevel(t)
  {
    assert ([b] + t)[1..] == t;
  }

  /** `parse_internal` of src/main.rs: the same loop as the stepping
      interpreter's parser, over a peekable iterator it never peeks into. */
  method ParseInternal(input: ByteStream) returns (commands: seq<Command>)
    requires input.Valid()
    modifies input
    ensures input.Valid()
    ensures Level(commands, input.Remaining()) == ParseLevel(old(input.Remaining()))
    decreases |input.data| - input.pos
  {
    ghost var goal := ParseLevel(input.Remaining());
    commands := [];
    assert commands + ParseLevel(input.Remaining()).commands == goal.commands;
    while true
      invariant input.Valid() && old(input.pos) <= input.pos
      invariant goal.commands == commands + ParseLevel(input.Remaining()).commands
      invariant goal.rest == ParseLevel(input.Remaining()).rest
      decreases |input.data| - input.pos
    {
      ghost var before := input.Remaining();
      ghost var done := commands;
      var next := input.Next();
      if next.None? {
        assert before == [] && commands + [] == commands;
        return;
      }
      var chr := next.value;
      assert before == [chr] + input.Remaining();
      ParseFirst(chr, input.Remaining());
      match TokenOf(chr)
      case CloseToken =>
        assert commands + [] == commands;
        return;
      case OpenToken =>
        var body := ParseInternal(input);
        commands := commands + [Loop(body)];
        Associative(done, [Loop(body)], ParseLevel(input.Remaining()).commands);
      case CommandToken(c) =>
        commands := commands + [c];
        Associative(done, [c], ParseLevel(input.Remaining()).commands);
      case Skipped =>
    }
  }

  /** `Program::parse` of src/main.rs. */
  method Parse(code: seq<byte>) returns (program: seq<Command>)
    ensures program == Parsed(code)
  {
    var input := new ByteStream(code);
    program := ParseInternal(input);
  }

  /** A command tree of the stepping interpreter with every `#` removed, in
      this interpreter's command type. */
  function Erased(p: seq<Commands.Command>): seq<Command>
    decreases p, 1
  {
    if p == [] then [] else ErasedCommand(p[0]) + Erased(p[1..])
  }

  /** One command with its `#`s removed. */
  function ErasedCommand(c: Commands.Command): seq<Command>
    decreases c, 0
  {
    match c
    case Plus => [Plus]
    case Minus => [Minus]
    case Right => [Right]
    case Left => [Left]
    case Input => [Input]
    case Output => [Output]
    case Loop(body) => [Loop(Erased(body))]
    case Debugger => []
  }

  /** The two parsers agree except on `#`: this one parses any input to the
      tree the stepping interpreter's parser builds, with every `#` dropped,
      and leaves the same rest unread. So its brackets nest and terminate
      exactly as there. */
  lemma {:induction false} ParseErasesDebugger(s: seq<byte>)
    ensures ParseLevel(s)
            == Level(Erased(Program.ParseLevel(s).commands), Program.ParseLevel(s).rest)
    decreases |s|
  {
    if s != [] {
      var b, t := s[0], s[1..];
      assert s == [b] + t;
      ParseFirst(b, t);
      TokensAgree(b);
      ParseErasesDebugger(t);
      var pt := Program.ParseLevel(t);
      match Program.TokenOf(b)
      case CloseToken =>
        Program.ParseClose(t);
      case OpenToken =>
        Program.ParseOpen(t);
        ParseErasesDebugger(pt.rest);
        var after := Program.ParseLevel(pt.rest);
        ErasedCons(Commands.Loop(pt.commands), after.commands);
      case CommandToken(c) =>
        Program.ParseSimple(b, t);
        ErasedCons(c, pt.commands);
      case Skipped =>
        Program.ParseSkip(b, t);
    }
  }

  /** The two parsers classify every byte alike, except that `#` is a
      command there and skipped here. */
  lemma TokensAgree(b: byte)
    ensures Program.TokenOf(b).OpenToken? <==> TokenOf(b).OpenToken?
    ensures Program.TokenOf(b).CloseToken? <==> TokenOf(b).CloseToken?
    ensures Program.TokenOf(b).Skipped? ==> TokenOf(b).Skipped?
    ensures Program.TokenOf(b).CommandToken? ==>
      ErasedCommand(Program.TokenOf(b).command)
      == if TokenOf(b).CommandToken? then [TokenOf(b).command] else []
    ensures TokenOf(b).Skipped? ==> Program.TokenOf(b).Skipped? || Program.TokenOf(b) == Program.CommandToken(Commands.Debugger)
  {
  }

  /** `Erased` on a sequence with a known first command. */
  lemma ErasedCons(c: Commands.Command, p: seq<Commands.Command>)
    ensures Erased([c] + p) == ErasedCommand(c) + Erased(p)
  {
    assert ([c] + p)[0] == c && ([c] + p)[1..] == p;
  }

  /** An unmatched `]` truncates here as well. */
  lemma UnmatchedCloseTruncates(p: seq<Commands.Command>, rest: seq<byte>)
    ensures Parsed(Program.Unparse(p) + [Program.CLOSE] + rest) == Erased(p)
  {
    Program.UnmatchedCloseTruncates(p, rest);
    ParseErasesDebugger(Program.Unparse(p) + [Program.CLOSE] + rest);
  }

  /** An input of skipped bytes only (here `#` among them) parses to the
      empty program and is read to its end. */
  lemma {:induction false} SkippedOnly(s: seq<byte>)
    requires forall i :: 0 <= i < |s| ==> TokenOf(s[i]).Skipped?
    ensures ParseLevel(s) == Level([], [])
  {
    if s != [] {
      assert s == [s[0]] + s[1..];
      ParseFirst(s[0], s[1..]);
      SkippedOnly(s[1..]);
    }
  }

  /** The state `Program::run` works on: the tape, the pointer, the input not
      read yet and the output so far. */
  datatype Machine = Machine(tape: seq<byte>, ptr: nat, stdin: seq<byte>, stdout: string)

  /** How a run ends: with a final machine, with a panic, or for lack of
      fuel. */
  datatype Run = Done(m: Machine) | Halted(fault: Fault) | OutOfFuel

  /** Whether the cell under the pointer exists. */
  predicate Sized(m: Machine)
  {
    m.ptr < |m.tape|
  }

  /** The machine after `if *ptr >= tape.len() { tape.resize(*ptr + 1, 0) }`:
      zero-extended, with no upper limit, so that the pointer is on the tape.
      Existing cells and everything else are unchanged. */
  function Resized(m: Machine): (r: Machine)
    ensures Sized(r) && r.ptr == m.ptr && r.stdin == m.stdin && r.stdout == m.stdout
    ensures |r.tape| == if m.ptr < |m.tape| then |m.tape| else m.ptr + 1
    ensures r.tape[..|m.tape|] == m.tape
  {
    if m.ptr >= |m.tape| then m.(tape := m.tape + Zeros(m.ptr + 1 - |m.tape|)) else m
  }

  /** Every cell `Resized` adds is 0. */
  lemma ResizedCellsZero(m: Machine)
    ensures forall i :: |m.tape| <= i < |Resized(m).tape| ==> Resized(m).tape[i] == 0
  {
  }

  /** A command other than a loop, on a sized machine. */
  function Basic(c: Command, m: Machine): (r: Run)
    requires !c.Loop? && Sized(m)
    // Only `<` at cell 0 and `,` on an empty input panic.
    ensures !r.OutOfFuel?
    ensures r.Halted? <==> (c.Left? && m.ptr == 0) || (c.Input? && m.stdin == [])
    ensures r.Halted? ==> r.fault == if c.Left? then PointerUnderflow else StdinExhausted
    // `>` and `<` move the pointer by one and do nothing else.
    ensures r.Done? && (c.Right? || c.Left?) ==>
      r.m == m.(ptr := if c.Right? then m.ptr + 1 else m.ptr - 1)
    // The other commands keep the pointer and the length of the tape, and
    // write at most the cell under the pointer.
    ensures r.Done? && !c.Right? && !c.Left? ==>
      && r.m.ptr == m.ptr && |r.m.tape| == |m.tape|
      && r.m.tape[..m.ptr] == m.tape[..m.ptr] && r.m.tape[m.ptr + 1..] == m.tape[m.ptr + 1..]
    // `+` and `-` move the cell by one modulo 256.
    ensures r.Done? && (c.Plus? || c.Minus?) ==>
      r.m.tape[m.ptr] as int == (m.tape[m.ptr] as int + (if c.Plus? then 1 else -1)) % 256
    // `,` consumes exactly one input byte into the cell; nothing else reads.
    ensures r.Done? ==>
      m.stdin == if c.Input? then [r.m.tape[m.ptr]] + r.m.stdin else r.m.stdin
    // `.` appends the cell as one character; nothing else writes.
    ensures r.Done? ==>
      r.m.stdout == m.stdout + if c.Output? then [(m.tape[m.ptr] as int) as char] else []
  {
    match c
    case Plus => Done(m.(tape := m.tape[m.ptr := Storage.WrappingInc(m.tape[m.ptr])]))
    case Minus => Done(m.(tape := m.tape[m.ptr := Storage.WrappingDec(m.tape[m.ptr])]))
    case Right => Done(m.(ptr := m.ptr + 1))
    case Left => if m.ptr == 0 then Halted(PointerUnderflow) else Done(m.(ptr := m.ptr - 1))
    case Input =>
      if m.stdin == [] then Halted(StdinExhausted)
      else Done(m.(tape := m.tape[m.ptr := m.stdin[0]], stdin := m.stdin[1..]))
    case Output => Done(m.(stdout := m.stdout + [(m.tape[m.ptr] as int) as char]))
  }

  /** `Program::run`: every command in order, each on a resized machine. */
  function Exec(prog: seq<Command>, m: Machine, fuel: nat): (r: Run)
    // The tape never shrinks.
    ensures r.Done? ==> |m.tape| <= |r.m.tape|
    decreases fuel, prog
  {
    if prog == [] then Done(m)
    else
      var r := Execute(prog[0], Resized(m), fuel);
      if r.Done? then Exec(prog[1..], r.m, fuel) else r
  }

  /** One command of `Program::run`, on a sized machine. */
  function Execute(c: Command, m: Machine, fuel: nat): (r: Run)
    requires Sized(m)
    // The tape never shrinks, and only a loop can run out of fuel.
    ensures r.Done? ==> |m.tape| <= |r.m.tape|
    ensures r.OutOfFuel? ==> c.Loop?
    decreases fuel, c
  {
    match c
    case Loop(body) => Looped(body, m, fuel)
    case _ => Basic(c, m)
  }

  /** The `loop` of a `Loop` command: while the cell is not 0, run the body
      and resize. Each entry into the body costs one unit of fuel. */
  function Looped(body: seq<Command>, m: Machine, fuel: nat): (r: Run)
    requires Sized(m)
    // The tape never shrinks, and a loop entered without fuel starves.
    ensures r.Done? ==> |m.tape| <= |r.m.tape|
    ensures fuel == 0 ==> (r.OutOfFuel? <==> m.tape[m.ptr] != 0)
    decreases fuel, body
  {
    if m.tape[m.ptr] == 0 then Done(m)
    else if fuel == 0 then OutOfFuel
    else
      var r := Exec(body, m, fuel - 1);
      if r.Done? then Looped(body, Resized(r.m), fuel - 1) else r
  }

  /** `Looped` when the cell is not 0 and there is fuel: the body runs once,
      and on success the loop continues from the resized result. */
  lemma LoopedUnfold(body: seq<Command>, m: Machine, fuel: nat)
    requires Sized(m) && m.tape[m.ptr] != 0 && fuel > 0
    ensures Looped(body, m, fuel)
            == var r := Exec(body, m, fuel - 1);
               if r.Done? then Looped(body, Resized(r.m), fuel - 1) else r
  {
  }

  /** A loop that finishes and whose cell is not 0 on entry has run its body
      once to completion and continues from the resized result. */
  lemma LoopedAgain(body: seq<Command>, m: Machine, fuel: nat)
    requires Sized(m) && m.tape[m.ptr] != 0 && Looped(body, m, fuel).Done?
    ensures fuel > 0 && Exec(body, m, fuel - 1).Done?
    ensures Looped(body, m, fuel) == Looped(body, Resized(Exec(body, m, fuel - 1).m), fuel - 1)
  {
  }

  /** More fuel does not change a run that finishes or panics. */
  lemma {:induction false} ExecMonotone(prog: seq<Command>, m: Machine, fuel: nat, more: nat)
    requires !Exec(prog, m, fuel).OutOfFuel? && fuel <= more
    ensures Exec(prog, m, more) == Exec(prog, m, fuel)
    decreases fuel, prog
  {
    if prog != [] {
      ExecuteMonotone(prog[0], Resized(m), fuel, more);
      var r := Execute(prog[0], Resized(m), fuel);
      if r.Done? {
        ExecMonotone(prog[1..], r.m, fuel, more);
      }
    }
  }

  /** `ExecMonotone` for one command. */
  lemma {:induction false} ExecuteMonotone(c: Command, m: Machine, fuel: nat, more: nat)
    requires Sized(m) && !Execute(c, m, fuel).OutOfFuel? && fuel <= more
    ensures Execute(c, m, more) == Execute(c, m, fuel)
    decreases fuel, c
  {
    if c.Loop? {
      LoopedMonotone(c.body, m, fuel, more);
    }
  }

  /** `ExecMonotone` for a loop. */
  lemma {:induction false} LoopedMonotone(body: seq<Command>, m: Machine, fuel: nat, more: nat)
    requires Sized(m) && !Looped(body, m, fuel).OutOfFuel? && fuel <= more
    ensures Looped(body, m, more) == Looped(body, m, fuel)
    decreases fuel, body
  {
    if m.tape[m.ptr] != 0 {
      LoopedUnfold(body, m, fuel);
      LoopedUnfold(body, m, more);
      ExecMonotone(body, m, fuel - 1, more - 1);
      var r := Exec(body, m, fuel - 1);
      if r.Done? {
        LoopedMonotone(body, Resized(r.m), fuel - 1, more - 1);
      }
    }
  }

  /** A loop that finishes leaves the pointer on a cell holding 0. */
  lemma {:induction false} LoopEndsOnZero(body: seq<Command>, m: Machine, fuel: nat)
    requires Sized(m) && Looped(body, m, fuel).Done?
    ensures var e := Looped(body, m, fuel).m; Sized(e) && e.tape[e.ptr] == 0
    decreases fuel
  {
    if m.tape[m.ptr] != 0 {
      LoopedAgain(body, m, fuel);
      LoopEndsOnZero(body, Resized(Exec(body, m, fuel - 1).m), fuel - 1);
    }
  }

  /** A loop whose cell is 0 on entry is skipped without using fuel. */
  lemma LoopSkipped(body: seq<Command>, m: Machine, fuel: nat)
    requires Sized(m) && m.tape[m.ptr] == 0
    ensures Looped(body, m, fuel) == Done(m)
  {
  }

  /** `e` can follow `m`: the input of `e` is what is left of the input of
      `m` after reading a prefix, and the output of `e` extends the output of
      `m`. */
  predicate Follows(m: Machine, e: Machine)
  {
    && |e.stdin| <= |m.stdin| && m.stdin[|m.stdin| - |e.stdin|..] == e.stdin
    && |m.stdout| <= |e.stdout| && e.stdout[..|m.stdout|] == m.stdout
  }

  /** `Follows` is transitive. */
  lemma FollowsTransitive(a: Machine, b: Machine, c: Machine)
    requires Follows(a, b) && Follows(b, c)
    ensures Follows(a, c)
  {
    assert a.stdin[|a.stdin| - |c.stdin|..] == b.stdin[|b.stdin| - |c.stdin|..];
    assert c.stdout[..|a.stdout|] == b.stdout[..|a.stdout|];
  }

  /** A loop with an empty body on a non-zero cell never finishes: it runs
      out of whatever fuel it is given. */
  lemma {:induction false} EmptyLoopSpins(m: Machine, fuel: nat)
    requires Sized(m) && m.tape[m.ptr] != 0
    ensures Looped([], m, fuel) == OutOfFuel
    decreases fuel
  {
    if fuel > 0 {
      LoopedUnfold([], m, fuel);
      assert Exec([], m, fuel - 1) == Done(m);
      EmptyLoopSpins(Resized(m), fuel - 1);
    }
  }

  /** A program made of comments only prints nothing and leaves the tape,
      the pointer and the input as they were. */
  lemma CommentOnlyRun(code: seq<byte>, m: Machine, fuel: nat)
    requires forall i :: 0 <= i < |code| ==> TokenOf(code[i]).Skipped?
    ensures Exec(Parsed(code), m, fuel) == Done(m)
  {
    SkippedOnly(code);
  }

  /** `,.` echoes one input byte as a character. */
  lemma EchoRun(b: byte, stdout: string)
    ensures Exec(Parsed([Program.COMMA, Program.DOT]), Machine([], 0, [b], stdout), 0)
            == Done(Machine([b], 0, [], stdout + [(b as int) as char]))
  {
    assert ParseLevel([Program.DOT]) == Level([Output], []) by {
      ParseFirst(Program.DOT, []);
    }
    assert Parsed([Program.COMMA, Program.DOT]) == [Input, Output] by {
      ParseFirst(Program.COMMA, [Program.DOT]);
    }
    assert Resized(Machine([], 0, [b], stdout)) == Machine([0], 0, [b], stdout);
    assert Exec([Input, Output], Machine([], 0, [b], stdout), 0)
           == Exec([Output], Machine([b], 0, [], stdout), 0);
  }

  /** `[-]` clears the cell under the pointer: from 2 it takes two passes of
      the loop. */
  lemma ClearTwo(stdin: seq<byte>, stdout: string)
    ensures Exec([Loop([Minus])], Machine([2], 0, stdin, stdout), 2)
            == Done(Machine([0], 0, stdin, stdout))
  {
    var m2 := Machine([2], 0, stdin, stdout);
    var m1 := Machine([1], 0, stdin, stdout);
    var m0 := Machine([0], 0, stdin, stdout);
    assert Exec([Minus], m2, 1) == Done(m1);
    assert Exec([Minus], m1, 0) == Done(m0);
    LoopedUnfold([Minus], m2, 2);
    LoopedUnfold([Minus], m1, 1);
    assert Looped([Minus], m0, 0) == Done(m0);
  }

  /** The streams only move forward: a finished run has consumed a prefix of
      its input and appended to its output. */
  lemma {:induction false} ExecStreams(prog: seq<Command>, m: Machine, fuel: nat)
    requires Exec(prog, m, fuel).Done?
    ensures Follows(m, Exec(prog, m, fuel).m)
    decreases fuel, prog, 1
  {
    if prog == [] {
      assert m.stdin[|m.stdin| - |m.stdin|..] == m.stdin;
    } else {
      var r := Execute(prog[0], Resized(m), fuel);
      ExecuteStreams(prog[0], Resized(m), fuel);
      ExecStreams(prog[1..], r.m, fuel);
      FollowsTransitive(m, r.m, Exec(prog, m, fuel).m);
    }
  }

  /** `ExecStreams` for one command. */
  lemma {:induction false} ExecuteStreams(c: Command, m: Machine, fuel: nat)
    requires Sized(m) && Execute(c, m, fuel).Done?
    ensures Follows(m, Execute(c, m, fuel).m)
    decreases fuel, c, 0
  {
    match c
    case Loop(body) => LoopedStreams(body, m, fuel);
    case _ =>
      var e := Basic(c, m).m;
      assert m.stdin[|m.stdin| - |e.stdin|..] == e.stdin;
  }

  /** `ExecStreams` for a loop. */
  lemma {:induction false} LoopedStreams(body: seq<Command>, m: Machine, fuel: nat)
    requires Sized(m) && Looped(body, m, fuel).Done?
    ensures Follows(m, Looped(body, m, fuel).m)
    decreases fuel, body, 2
  {
    if m.tape[m.ptr] == 0 {
      assert m.stdin[|m.stdin| - |m.stdin|..] == m.stdin;
    } else {
      LoopedAgain(body, m, fuel);
      var r := Exec(body, m, fuel - 1);
      var n := Resized(r.m);
      assert Follows(m, n) by {
        ExecStreams(body, m, fuel - 1);
        assert n.stdin == r.m.stdin && n.stdout == r.m.stdout;
      }
      LoopedStreams(body, n, fuel - 1);
      FollowsTransitive(m, n, Looped(body, n, fuel - 1).m);
    }
  }

  /** How a run of `Program::run` ended, as its caller sees it. */
  datatype Status = Finished | Panicked(fault: Fault) | Starved

  function StatusOf(r: Run): Status
  {
    match r
    case Done(_) => Finished
    case Halted(f) => Panicked(f)
    case OutOfFuel => Starved
  }

  /** `Exec` on the commands from index `i` on, one command unfolded. */
  lemma ExecAt(prog: seq<Command>, i: nat, m: Machine, fuel: nat)
    requires i < |prog|
    ensures Exec(prog[i..], m, fuel)
            == var r := Execute(prog[i], Resized(m), fuel);
               if r.Done? then Exec(prog[i + 1..], r.m, fuel) else r
  {
    assert prog[i..][0] == prog[i] && prog[i..][1..] == prog[i + 1..];
  }

  /** `Interpreter`: the parsed program, and the tape and pointer that
      `Program::run` works on in place. */
  class Interpreter {
    const program: seq<Command>
    var tape: seq<byte>
    var ptr: nat

    /** The machine made of this interpreter's tape and pointer, the unread
        part of `stdin`, and `output`. */
    ghost function State(stdin: ByteStream, output: string): Machine
      reads this, stdin
      requires stdin.Valid()
    {
      Machine(tape, ptr, stdin.Remaining(), output)
    }

    /** `Interpreter::new`: parses `code` and starts from an empty tape with
        the pointer at cell 0. */
    constructor New(code: seq<byte>)
      ensures program == Parsed(code) && tape == [] && ptr == 0
    {
      var parsed := Parse(code);
      program := parsed;
      tape := [];
      ptr := 0;
    }

    /** `Interpreter::run`: runs the program from the current tape and
        pointer, reading `stdin`, and returns everything it printed. */
    method Run(stdin: ByteStream, fuel: nat) returns (output: string, status: Status)
      requires stdin.Valid()
      modifies this, stdin
      ensures stdin.Valid()
      ensures status == StatusOf(Exec(program, old(State(stdin, "")), fuel))
      ensures status.Finished? ==> State(stdin, output) == Exec(program, old(State(stdin, "")), fuel).m
    {
      status, output := RunCommands(program, stdin, "", fuel);
    }

    /** `Program::run` on this interpreter's tape and pointer: resizes the
        tape before each command and carries it out; `output` is what was
        printed before. */
    method RunCommands(prog: seq<Command>, stdin: ByteStream, output: string, fuel: nat)
      returns (status: Status, out: string)
      requires stdin.Valid()
      modifies this, stdin
      ensures stdin.Valid()
      ensures status == StatusOf(Exec(prog, old(State(stdin, output)), fuel))
      ensures status.Finished? ==> State(stdin, out) == Exec(prog, old(State(stdin, output)), fuel).m
      decreases fuel, prog, 1
    {
      out := output;
      ghost var goal := Exec(prog, State(stdin, out), fuel);
      var i := 0;
      while i < |prog|
        invariant 0 <= i <= |prog| && stdin.Valid()
        invariant Exec(prog[i..], State(stdin, out), fuel) == goal
        decreases |prog| - i
      {
        ghost var m := State(stdin, out);
        ExecAt(prog, i, m, fuel);
        if ptr >= |tape| {
          tape := tape + Zeros(ptr + 1 - |tape|);
        }
        assert State(stdin, out) == Resized(m);
        ghost var r := Execute(prog[i], Resized(m), fuel);
        if prog[i].Loop? {
          assert r == Looped(prog[i].body, Resized(m), fuel);
          status, out := RunLoop(prog[i].body, stdin, out, fuel);
        } else {
          assert r == Basic(prog[i], Resized(m));
          status, out := Perform(prog[i], stdin, out);
        }
        if !status.Finished? {
          return;
        }
        assert State(stdin, out) == r.m;
        i := i + 1;
      }
      status := Finished;
    }

    /** One arm of the `match` in `Program::run` other than `Loop`, on a
        sized tape. */
    method Perform(c: Command, stdin: ByteStream, output: string) returns (status: Status, out: string)
      requires stdin.Valid() && !c.Loop? && ptr < |tape|
      modifies this, stdin
      ensures stdin.Valid()
      ensures status == StatusOf(Basic(c, old(State(stdin, output))))
      ensures status.Finished? ==> State(stdin, out) == Basic(c, old(State(stdin, output))).m
    {
      out := output;
      status := Finished;
      match c
      case Plus =>
        tape := tape[ptr := Storage.WrappingInc(tape[ptr])];
      case Minus =>
        tape := tape[ptr := Storage.WrappingDec(tape[ptr])];
      case Right =>
        ptr := ptr + 1;
      case Left =>
        if ptr == 0 {
          status := Panicked(PointerUnderflow);
        } else {
          ptr := ptr - 1;
        }
      case Input =>
        var b := stdin.Next();
        if b.None? {
          status := Panicked(StdinExhausted);
        } else {
          tape := tape[ptr := b.value];
        }
      case Output =>
        out := out + [(tape[ptr] as int) as char];
    }

    /** The `loop` of a `Loop` command: while the cell under the pointer is
        not 0, runs the body and resizes the tape. */
    method RunLoop(body: seq<Command>, stdin: ByteStream, output: string, fuel: nat)
      returns (status: Status, out: string)
      requires stdin.Valid() && ptr < |tape|
      modifies this, stdin
      ensures stdin.Valid()
      ensures status == StatusOf(Looped(body, old(State(stdin, output)), fuel))
      ensures status.Finished? ==> State(stdin, out) == Looped(body, old(State(stdin, output)), fuel).m
      decreases fuel, body, 0
    {
      out := output;
      ghost var goal := Looped(body, State(stdin, out), fuel);
      var k: nat := fuel;
      while true
        invariant stdin.Valid() && ptr < |tape| && k <= fuel
        invariant Looped(body, State(stdin, out), k) == goal
        decreases k
      {
        if tape[ptr] == 0 {
          return Finished, out;
        }
        if k == 0 {
          return Starved, out;
        }
        LoopedUnfold(body, State(stdin, out), k);
        status, out := Iterate(body, stdin, out, k - 1);
        if !status.Finished? {
          return;
        }
        k := k - 1;
      }
    }

    /** One pass of the `loop`: the body, then the resize. */
    method Iterate(body: seq<Command>, stdin: ByteStream, output: string, fuel: nat)
      returns (status: Status, out: string)
      requires stdin.Valid()
      modifies this, stdin
      ensures stdin.Valid()
      ensures status == StatusOf(Exec(body, old(State(stdin, output)), fuel))
      ensures status.Finished? ==>
        State(stdin, out) == Resized(Exec(body, old(State(stdin, output)), fuel).m)
      decreases fuel, body, 2
    {
      status, out := RunCommands(body, stdin, output, fuel);
      if status.Finished? && ptr >= |tape| {
        tape := tape + Zeros(ptr + 1 - |tape|);
      }
    }
  }
}
