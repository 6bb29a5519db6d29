/** The parser of the stepping interpreter (`Program::parse` and
    `parse_internal` in src/interpreter/program.rs). One left-to-right pass
    over the source bytes: the seven command characters become commands, `[`
    parses a nested program from the same input and wraps it in a `Loop`, `]`
    ends the current level, and every other byte is skipped.

    `ParseLevel` is the specification of `parse_internal`: it returns the
    commands of one level and the input left unread. `Unparse`, the canonical
    text of a command tree, is its partner: parsing inverts it, which gives
    the nesting and truncation rules below. */
module Program {
  import opened Base
  import opened Commands

  // The significant characters, by their ASCII codes.
  const PLUS: byte := 43   // '+'
  const MINUS: byte := 45  // '-'
  const RIGHT: byte := 62  // '>'
  const LEFT: byte := 60   // '<'
  const COMMA: byte := 44  // ','
  const DOT: byte := 46    // '.'
  const HASH: byte := 35   // '#'
  const OPEN: byte := 91   // '['
  const CLOSE: byte := 93  // ']'

  /** How the parser treats one byte. */
  datatype Token = OpenToken | CloseToken | CommandToken(command: Command) | Skipped

  /** The token a byte stands for: the brackets, the seven command
      characters, and everything else, which is skipped. */
  function TokenOf(b: byte): (r: Token)
    ensures r.CommandToken? ==> !r.command.Loop?
  {
    if b == OPEN then OpenToken
    else if b == CLOSE then CloseToken
    else if b == PLUS then CommandToken(Plus)
    else if b == MINUS then CommandToken(Minus)
    else if b == RIGHT then CommandToken(Right)
    else if b == LEFT then CommandToken(Left)
    else if b == COMMA then CommandToken(Input)
    else if b == DOT then CommandToken(Output)
    else if b == HASH then CommandToken(Debugger)
    else Skipped
  }

  /** Whether the parser looks at a byte at all. */
  predicate IsSignificant(b: byte)
  {
    !TokenOf(b).Skipped?
  }

  /** What one level of parsing produces: the commands of the level and the
      input left unread. */
  datatype Level = Level(commands: seq<Command>, rest: seq<byte>)

  /** `parse_internal` on the input `s`. The unread rest is never longer than
      `s`. */
  function ParseLevel(s: seq<byte>): (r: Level)
    ensures |r.rest| <= |s|
    decreases |s|
  {
    if s == [] then Level([], [])
    else match TokenOf(s[0])
      case CloseToken => Level([], s[1..])
      case OpenToken =>
        var inner := ParseLevel(s[1..]);
        var after := ParseLevel(inner.rest);
        Level([Loop(inner.commands)] + after.commands, after.rest)
      case CommandToken(c) =>
        var after := ParseLevel(s[1..]);
        Level([c] + after.commands, after.rest)
      case Skipped => ParseLevel(s[1..])
  }

  /** `]` ends the level and is consumed. */
  lemma ParseClose(t: seq<byte>)
    ensures ParseLevel([CLOSE] + t) == Level([], t)
  {
    assert ([CLOSE] + t)[1..] == t;
  }

  /** `[` parses a body, then the level goes on after it. */
  lemma ParseOpen(t: seq<byte>)
    ensures ParseLevel([OPEN] + t)
            == var after := ParseLevel(ParseLevel(t).rest);
               Level([Loop(ParseLevel(t).commands)] + after.commands, after.rest)
  {
    assert ([OPEN] + t)[1..] == t;
  }

  /** A command character yields its command in front of the rest. */
  lemma ParseSimple(b: byte, t: seq<byte>)
    requires TokenOf(b).CommandToken?
    ensures ParseLevel([b] + t)
            == Level([TokenOf(b).command] + ParseLevel(t).commands, ParseLevel(t).rest)
  {
    assert ([b] + t)[1..] == t;
  }

  /** Any other byte is skipped. */
  lemma ParseSkip(b: byte, t: seq<byte>)
    requires !IsSignificant(b)
    ensures ParseLevel([b] + t) == ParseLevel(t)
  {
    assert ([b] + t)[1..] == t;
  }

  /** `Program::parse`: the top level of the input. Whatever follows an
      unmatched `]` is discarded. */
  function Parsed(code: seq<byte>): seq<Command>
  {
    ParseLevel(code).commands
  }

  /** `parse_internal`: reads from the shared iterator until it is exhausted
      or a `]` closes the level, recursing on every `[`. */
  method ParseInternal(input: ByteStream) returns (commands: seq<Command>)
    requires input.Valid()
    modifies input
    ensures input.Valid()
    ensures Level(commands, input.Remaining()) == ParseLevel(old(input.Remaining()))
    decreases |input.data| - input.pos
  {
    ghost var goal := ParseLevel(input.Remaining());
    commands := [];
    assert commands + ParseLevel(input.Remaining()).commands == goal.commands;
    while true
      invariant input.Valid() && old(input.pos) <= input.pos
      invariant goal.commands == commands + ParseLevel(input.Remaining()).commands
      invariant goal.rest == ParseLevel(input.Remaining()).rest
      decreases |input.data| - input.pos
    {
      ghost var before := input.Remaining();
      ghost var done := commands;
      var next := input.Next();
      if next.None? {
        assert before == [] && commands + [] == commands;
        return;
      }
      var chr := next.value;
      assert before == [chr] + input.Remaining();
      match TokenOf(chr)
      case CloseToken =>
        ParseClose(input.Remaining());
        assert commands + [] == commands;
        return;
      case OpenToken =>
        ParseOpen(input.Remaining());
        var body := ParseInternal(input);
        commands := commands + [Loop(body)];
        Associative(done, [Loop(body)], ParseLevel(input.Remaining()).commands);
      case CommandToken(c) =>
        ParseSimple(chr, input.Remaining());
        commands := commands + [c];
        Associative(done, [c], ParseLevel(input.Remaining()).commands);
      case Skipped =>
        ParseSkip(chr, input.Remaining());
    }
  }

  /** `Program::parse`: parses the whole input through one iterator. */
  method Parse(code: seq<byte>) returns (program: seq<Command>)
    ensures program == Parsed(code)
  {
    var input := new ByteStream(code);
    program := ParseInternal(input);
  }

  /** The byte a command other than a loop is written as. */
  function Spelling(c: Command): (b: byte)
    requires !c.Loop?
    ensures TokenOf(b) == CommandToken(c)
  {
    match c
    case Plus => PLUS
    case Minus => MINUS
    case Right => RIGHT
    case Left => LEFT
    case Input => COMMA
    case Output => DOT
    case Debugger => HASH
  }

  /** The canonical text of one command: its character, or for a loop its
      body between brackets. */
  function UnparseCommand(c: Command): seq<byte>
  {
    match c
    case Loop(body) => [OPEN] + Unparse(body) + [CLOSE]
    case _ => [Spelling(c)]
  }

  /** The canonical text of a command tree. */
  function Unparse(p: seq<Command>): seq<byte>
  {
    if p == [] then [] else UnparseCommand(p[0]) + Unparse(p[1..])
  }

  /** The canonical text of one command, followed by anything, parses to that
      command in front of whatever the rest parses to. */
  lemma {:induction false} ParseUnparseCommand(c: Command, tail: seq<byte>)
    ensures ParseLevel(UnparseCommand(c) + tail)
            == Level([c] + ParseLevel(tail).commands, ParseLevel(tail).rest)
    decreases c, 0
  {
    match c
    case Loop(body) =>
      var u := Unparse(body);
      var inside := u + ([CLOSE] + tail);
      assert UnparseCommand(c) + tail == [OPEN] + inside by {
        Associative([OPEN] + u, [CLOSE], tail);
        Associative([OPEN], u, [CLOSE] + tail);
      }
      assert ParseLevel(inside) == Level(body, tail) by {
        ParseUnparse(body, [CLOSE] + tail);
        ParseClose(tail);
        assert body + [] == body;
      }
      ParseOpen(inside);
    case _ =>
      ParseSimple(Spelling(c), tail);
  }

  /** Parsing a canonical text followed by anything else yields that text's
      commands, then whatever the rest of the level parses to. */
  lemma {:induction false} ParseUnparse(p: seq<Command>, t: seq<byte>)
    ensures ParseLevel(Unparse(p) + t)
            == Level(p + ParseLevel(t).commands, ParseLevel(t).rest)
    decreases p, 1
  {
    if p == [] {
      assert Unparse(p) + t == t;
    } else {
      var tail := Unparse(p[1..]) + t;
      var after := ParseLevel(t);
      assert Unparse(p) + t == UnparseCommand(p[0]) + tail by {
        assert Unparse(p) == UnparseCommand(p[0]) + Unparse(p[1..]);
        Associative(UnparseCommand(p[0]), Unparse(p[1..]), t);
      }
      ParseUnparse(p[1..], t);
      ParseUnparseCommand(p[0], tail);
      assert [p[0]] + (p[1..] + after.commands) == p + after.commands by {
        assert p == [p[0]] + p[1..];
        Associative([p[0]], p[1..], after.commands);
      }
    }
  }

  /** Parsing inverts `Unparse`, and consumes the whole text. */
  lemma RoundTrip(p: seq<Command>)
    ensures ParseLevel(Unparse(p)) == Level(p, [])
    ensures Parsed(Unparse(p)) == p
  {
    ParseUnparse(p, []);
    assert Unparse(p) + [] == Unparse(p) && p + [] == p;
  }

  /** An unmatched `]` at the top level silently discards the rest of the
      input. */
  lemma UnmatchedCloseTruncates(p: seq<Command>, rest: seq<byte>)
    ensures Parsed(Unparse(p) + [CLOSE] + rest) == p
  {
    ParseUnparse(p, [CLOSE] + rest);
    ParseClose(rest);
    assert p + [] == p;
    assert Unparse(p) + [CLOSE] + rest == Unparse(p) + ([CLOSE] + rest);
  }

  /** An unmatched `[` takes the rest of the input as its loop body. */
  lemma UnmatchedOpenTakesRest(p: seq<Command>, q: seq<Command>)
    ensures Parsed(Unparse(p) + [OPEN] + Unparse(q)) == p + [Loop(q)]
  {
    var t := [OPEN] + Unparse(q);
    assert Unparse(p) + [OPEN] + Unparse(q) == Unparse(p) + t;
    assert ParseLevel(t) == Level([Loop(q)], []) by {
      RoundTrip(q);
      ParseOpen(Unparse(q));
      assert ParseLevel([]) == Level([], []);
      assert [Loop(q)] + [] == [Loop(q)];
    }
    ParseUnparse(p, t);
  }

  /** The bytes the parser looks at, in order. */
  function Significant(s: seq<byte>): (r: seq<byte>)
    ensures forall i :: 0 <= i < |r| ==> IsSignificant(r[i])
  {
    if s == [] then []
    else if IsSignificant(s[0]) then [s[0]] + Significant(s[1..])
    else Significant(s[1..])
  }

  /** Skipped bytes change nothing: the input parses exactly as its
      significant bytes do, and leaves the significant part of the same rest
      unread. */
  lemma {:induction false} ParseIgnoresComments(s: seq<byte>)
    ensures ParseLevel(Significant(s))
            == Level(ParseLevel(s).commands, Significant(ParseLevel(s).rest))
    decreases |s|
  {
    if s != [] {
      var b, t := s[0], s[1..];
      assert s == [b] + t;
      ParseIgnoresComments(t);
      if !IsSignificant(b) {
        ParseSkip(b, t);
      } else {
        assert Significant(s) == [b] + Significant(t);
        if b == CLOSE {
          ParseClose(t);
          ParseClose(Significant(t));
        } else if b == OPEN {
          ParseOpen(t);
          ParseOpen(Significant(t));
          ParseIgnoresComments(ParseLevel(t).rest);
        } else {
          ParseSimple(b, t);
          ParseSimple(b, Significant(t));
        }
      }
    }
  }

  /** Inserting or removing bytes the parser skips does not change the parsed
      program. */
  lemma CommentsDoNotMatter(s1: seq<byte>, s2: seq<byte>)
    requires Significant(s1) == Significant(s2)
    ensures Parsed(s1) == Parsed(s2)
  {
    ParseIgnoresComments(s1);
    ParseIgnoresComments(s2);
  }

  /** The simple commands a bracket-free input spells, in source order. */
  function Decoded(s: seq<byte>): (r: seq<Command>)
    ensures forall i :: 0 <= i < |r| ==> !r[i].Loop?
  {
    if s == [] then []
    else if TokenOf(s[0]).CommandToken? then [TokenOf(s[0]).command] + Decoded(s[1..])
    else Decoded(s[1..])
  }

  /** Without brackets, parsing maps `+ - > < , . #` to their commands in
      source order and consumes the whole input. */
  lemma {:induction false} FlatParse(s: seq<byte>)
    requires forall i :: 0 <= i < |s| ==> s[i] != OPEN && s[i] != CLOSE
    ensures ParseLevel(s) == Level(Decoded(s), [])
  {
    if s != [] {
      var b, t := s[0], s[1..];
      assert s == [b] + t;
      FlatParse(t);
      if TokenOf(b).CommandToken? {
        ParseSimple(b, t);
      } else {
        ParseSkip(b, t);
      }
    }
  }

  /** An input of skipped bytes only parses to the empty program. */
  lemma CommentOnlyParsesEmpty(s: seq<byte>)
    requires Significant(s) == []
    ensures Parsed(s) == []
  {
    ParseIgnoresComments(s);
  }
}
