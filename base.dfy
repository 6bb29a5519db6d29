/** Values shared by the tape, the parsers and both interpreters: the byte
    type, the error taxonomy of src/error.rs, the conditions on which the
    program panics, and the two byte streams an interpreter talks to (an
    iterator it reads from and a writer it appends to). */
module Base {

  /** An unsigned 8-bit value, Rust's `u8`. */
  newtype byte = x: int | 0 <= x < 256

  datatype Option<+T> = None | Some(value: T)

  /** The recoverable errors of src/error.rs. `EmptyInputSource` exists only
      in test builds and is not part of this model. */
  datatype ProgramError = PcOutOfBounds | Eof | MemoryError

  /** The conditions on which the program panics and the process ends. */
  datatype Fault =
    | TapeLimit          // the tape would have to grow past the sanity limit
    | PointerUnderflow   // the pointer is moved left of cell 0
    | StdinExhausted     // the recursive interpreter reads past the end of its input

  /** The result of an operation that either succeeds, fails with a
      recoverable error, or panics. */
  datatype Outcome<+T> = Ok(value: T) | Err(error: ProgramError) | Halt(fault: Fault)

  /** `n` zero bytes: what `Vec::resize(_, 0)` appends. */
  function Zeros(n: nat): (r: seq<byte>)
    ensures |r| == n
    ensures forall i :: 0 <= i < n ==> r[i] == 0
  {
    seq(n, _ => 0)
  }

  /** A byte iterator, Rust's `Iterator<Item = u8>`, over a fixed sequence:
      `data` is everything it will ever yield and `pos` is how much of it has
      been consumed. The parsers read their source text through one, and the
      stepping interpreter reads the program's input through another. */
  class ByteStream {
    const data: seq<byte>
    var pos: nat

    ghost predicate Valid()
      reads this
    {
      pos <= |data|
    }

    /** The bytes the iterator has not yielded yet. */
    ghost function Remaining(): seq<byte>
      reads this
      requires Valid()
    {
      data[pos..]
    }

    constructor (data: seq<byte>)
      ensures Valid() && this.data == data && pos == 0
    {
      this.data := data;
      pos := 0;
    }

    /** `Iterator::next`: the next byte, or `None` once the data is used up. */
    method Next() returns (b: Option<byte>)
      requires Valid()
      modifies this
      ensures Valid()
      ensures old(pos) < |data| ==> b == Some(data[old(pos)]) && pos == old(pos) + 1
      ensures old(pos) == |data| ==> b == None && pos == old(pos)
      ensures old(Remaining()) == if b.Some? then [b.value] + Remaining() else Remaining()
    {
      if pos < |data| {
        b := Some(data[pos]);
        pos := pos + 1;
      } else {
        b := None;
      }
    }
  }

  /** A byte writer, Rust's `Write`, that never fails: everything written is
      appended to `written`. */
  class Sink {
    var written: seq<byte>

    constructor ()
      ensures written == []
    {
      written := [];
    }

    /** Writes one byte. */
    method Write(b: byte)
      modifies this
      ensures written == old(written) + [b]
    {
      written := written + [b];
    }
  }

  /** Concatenation is associative (stated once so that callers need not
      ask the solver to rediscover it inside a larger proof). */
  lemma Associative<T>(a: seq<T>, b: seq<T>, c: seq<T>)
    ensures (a + b) + c == a + (b + c)
  {
  }
}
