/** The command tree of the stepping interpreter (the `Command` enum of
    src/interpreter/program.rs). It sits in a module of its own because both
    the tape (`Storage::command`) and the program use it. */
module Commands {

  /** One command of a parsed program; a loop owns the program of its body. */
  datatype Command =
    | Plus
    | Minus
    | Right
    | Left
    | Input
    | Output
    | Loop(body: seq<Command>)
    | Debugger

  /** The commands that `Storage::command` carries out itself. */
  predicate IsStorageCommand(c: Command)
  {
    c.Plus? || c.Minus? || c.Right? || c.Left?
  }
}
