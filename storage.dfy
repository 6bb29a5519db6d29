/** The tape memory of the stepping interpreter (src/interpreter/storage.rs):
    a zero-filled byte vector that grows on demand up to a sanity limit, and a
    pointer into it. `Memory` is the value of a `Storage`; the functions on it
    specify the methods of the class `Storage`, which updates its two fields
    in place, and the lemmas state what the operations promise. */
module Storage {
  import opened Base
  import opened Commands

  /** The sanity limit. `ensure_sized` compares against the literal 4096, so
      index 4096 itself is still accepted and the tape may hold 4097 cells. */
  const SANITY_LIMIT: nat := 4096

  /** The state of a `Storage`: the tape and the pointer. */
  datatype Memory = Memory(tape: seq<byte>, ptr: nat)

  /** The tape after `ensure_sized(tape, size)`: index `size` exists, the old
      cells keep their values and every new cell is 0. A `size` above the
      sanity limit panics instead, hence the precondition. */
  function Grown(tape: seq<byte>, size: nat): (r: seq<byte>)
    requires size <= SANITY_LIMIT
    ensures |r| == if size < |tape| then |tape| else size + 1
  {
    if size >= |tape| then tape + Zeros(size + 1 - |tape|) else tape
  }

  /** Whether the cell under the pointer can be reached without panicking. */
  predicate InBounds(m: Memory)
  {
    m.ptr <= SANITY_LIMIT
  }

  /** The memory after `get` or `get_mut`: the tape is sized for the pointer,
      and nothing else changes. */
  function Touched(m: Memory): (r: Memory)
    requires InBounds(m)
    ensures r.ptr == m.ptr < |r.tape| && |m.tape| <= |r.tape|
  {
    Memory(Grown(m.tape, m.ptr), m.ptr)
  }

  /** The value `get` returns: the cell under the pointer, which reads 0 when
      it has never been written. */
  function Cell(m: Memory): (v: byte)
    requires InBounds(m)
    ensures v == if m.ptr < |m.tape| then m.tape[m.ptr] else 0
  {
    Touched(m).tape[m.ptr]
  }

  /** The memory after `set(v)`: the cell under the pointer holds `v`; the
      pointer and every other cell are as `get_mut` left them. */
  function Assigned(m: Memory, v: byte): (r: Memory)
    requires InBounds(m)
    ensures r.ptr == m.ptr && |r.tape| == |Touched(m).tape| && r.tape[m.ptr] == v
  {
    Memory(Touched(m).tape[m.ptr := v], m.ptr)
  }

  /** `u8::wrapping_add(1)`. */
  function WrappingInc(v: byte): (r: byte)
    ensures v < 255 ==> r as int == v as int + 1
    ensures v == 255 ==> r == 0
  {
    ((v as int + 1) % 256) as byte
  }

  /** `u8::wrapping_sub(1)`; Dafny's `%` is Euclidean, so 0 goes to 255. */
  function WrappingDec(v: byte): (r: byte)
    ensures v > 0 ==> r as int == v as int - 1
    ensures v == 0 ==> r == 255
    ensures WrappingInc(r) == v
  {
    ((v as int - 1) % 256) as byte
  }

  /** The memory after `inc_mem`. */
  function Incremented(m: Memory): (r: Memory)
    requires InBounds(m)
    ensures r.ptr == m.ptr && |r.tape| == |Touched(m).tape|
    ensures Cell(r) == WrappingInc(Cell(m))
    ensures forall i :: 0 <= i < |m.tape| && i != m.ptr ==> r.tape[i] == m.tape[i]
  {
    Assigned(m, WrappingInc(Cell(m)))
  }

  /** The memory after `dec_mem`. */
  function Decremented(m: Memory): (r: Memory)
    requires InBounds(m)
    ensures r.ptr == m.ptr && |r.tape| == |Touched(m).tape|
    ensures WrappingInc(Cell(r)) == Cell(m)
    ensures forall i :: 0 <= i < |m.tape| && i != m.ptr ==> r.tape[i] == m.tape[i]
  {
    Assigned(m, WrappingDec(Cell(m)))
  }

  /** The memory after `inc_ptr`. */
  function MovedRight(m: Memory): (r: Memory)
    ensures r.tape == m.tape && r.ptr == m.ptr + 1
  {
    m.(ptr := m.ptr + 1)
  }

  /** The memory after `dec_ptr`; moving left of cell 0 underflows the `usize`
      pointer and panics, hence the precondition. */
  function MovedLeft(m: Memory): (r: Memory)
    requires m.ptr > 0
    ensures r.tape == m.tape && MovedRight(r) == m
  {
    m.(ptr := m.ptr - 1)
  }

  /** Whether `command(c)` returns instead of panicking: `c` is one of the four
      tape commands, and the operation it selects does not panic either. */
  predicate CanApply(m: Memory, c: Command)
  {
    IsStorageCommand(c)
    && ((c.Plus? || c.Minus?) ==> InBounds(m))
    && (c.Left? ==> m.ptr > 0)
  }

  /** The memory after `command(c)`: `Plus` and `Minus` keep the pointer and
      move the cell under it by one modulo 256; `Right` and `Left` keep the
      tape and move the pointer by one. */
  function Applied(m: Memory, c: Command): (r: Memory)
    requires CanApply(m, c)
    ensures c.Plus? || c.Minus? ==>
      && r.ptr == m.ptr && |r.tape| == |Touched(m).tape|
      && r.tape[m.ptr] as int == (Cell(m) as int + (if c.Plus? then 1 else -1)) % 256
    ensures c.Right? || c.Left? ==>
      r.tape == m.tape && r.ptr == if c.Right? then m.ptr + 1 else m.ptr - 1
  {
    match c
    case Plus => Incremented(m)
    case Minus => Decremented(m)
    case Right => MovedRight(m)
    case Left => MovedLeft(m)
  }

  /** `ensure_sized` keeps every old cell and fills the new ones with 0. */
  lemma GrownKeepsCells(tape: seq<byte>, size: nat)
    requires size <= SANITY_LIMIT
    ensures Grown(tape, size)[..|tape|] == tape
    ensures forall i :: |tape| <= i < |Grown(tape, size)| ==> Grown(tape, size)[i] == 0
  {
  }

  /** `set` changes no cell but the one under the pointer. */
  lemma AssignedKeepsOthers(m: Memory, v: byte)
    requires InBounds(m)
    ensures forall i :: 0 <= i < |m.tape| && i != m.ptr ==> Assigned(m, v).tape[i] == m.tape[i]
    ensures forall i :: |m.tape| <= i < |Assigned(m, v).tape| && i != m.ptr ==> Assigned(m, v).tape[i] == 0
  {
    GrownKeepsCells(m.tape, m.ptr);
    assert forall i :: 0 <= i < |m.tape| ==> Touched(m).tape[i] == m.tape[i];
  }

  /** `inc_mem` and `dec_mem` change no cell but the one under the pointer;
      `inc_ptr` and `dec_ptr` change no cell at all. */
  lemma AppliedKeepsOthers(m: Memory, c: Command)
    requires CanApply(m, c)
    ensures forall i :: 0 <= i < |m.tape| && i != m.ptr ==> Applied(m, c).tape[i] == m.tape[i]
  {
    if c.Plus? || c.Minus? {
      AssignedKeepsOthers(m, Cell(m));
      AssignedKeepsOthers(m, if c.Plus? then WrappingInc(Cell(m)) else WrappingDec(Cell(m)));
    }
  }

  /** `inc_mem` applied `n` times in a row. */
  function IncrementedTimes(m: Memory, n: nat): (r: Memory)
    requires InBounds(m)
    ensures r.ptr == m.ptr
    decreases n
  {
    if n == 0 then m else Incremented(IncrementedTimes(m, n - 1))
  }

  /** Writing a cell twice leaves only the second value. */
  lemma AssignedTwice(m: Memory, a: byte, b: byte)
    requires InBounds(m)
    ensures Assigned(Assigned(m, a), b) == Assigned(m, b)
  {
    var t := Touched(m).tape;
    assert Touched(Assigned(m, a)).tape == t[m.ptr := a];
    assert t[m.ptr := a][m.ptr := b] == t[m.ptr := b];
  }

  /** Adding one, modulo 256, to a value already reduced modulo 256. */
  lemma WrappingIncMod(c: int, k: nat)
    requires 0 <= c < 256
    ensures WrappingInc(((c + k) % 256) as byte) == ((c + k + 1) % 256) as byte
  {
  }

  /** After `n >= 1` increments the cell holds its old value plus `n`, modulo
      256, and every other cell is as `get_mut` left it. */
  lemma {:induction false} IncrementedTimesValue(m: Memory, n: nat)
    requires InBounds(m) && n >= 1
    ensures IncrementedTimes(m, n) == Assigned(m, ((Cell(m) as int + n) % 256) as byte)
  {
    if n > 1 {
      IncrementedTimesValue(m, n - 1);
      var x := ((Cell(m) as int + (n - 1)) % 256) as byte;
      var prev := Assigned(m, x);
      assert Cell(prev) == x;
      WrappingIncMod(Cell(m) as int, n - 1);
      AssignedTwice(m, x, WrappingInc(x));
    }
  }

  /** Adding a multiple of 256 to a byte value changes nothing modulo 256. */
  lemma {:induction false} AddMultipleOf256(c: int, k: nat)
    requires 0 <= c < 256
    ensures (c + 256 * k) % 256 == c
  {
    if k > 0 {
      AddMultipleOf256(c, k - 1);
      assert c + 256 * k == (c + 256 * (k - 1)) + 256;
    }
  }

  /** Any positive multiple of 256 increments gives the cell its old value
      back: only the sizing of the tape remains. */
  lemma WrapAround(m: Memory, n: nat)
    requires InBounds(m) && n > 0 && n % 256 == 0
    ensures IncrementedTimes(m, n) == Touched(m)
  {
    IncrementedTimesValue(m, n);
    var t := Touched(m).tape;
    AddMultipleOf256(Cell(m) as int, n / 256);
    assert t[m.ptr := t[m.ptr]] == t;
  }

  /** A cell that was never written reads 255 after one `dec_mem`. */
  lemma DecrementFreshCell(m: Memory)
    requires InBounds(m) && |m.tape| <= m.ptr
    ensures Cell(Decremented(m)) == 255
  {
  }

  /** `inc_mem` followed by `dec_mem`, or the other way round, changes nothing
      but the sizing of the tape. */
  lemma IncrementDecrementCancel(m: Memory)
    requires InBounds(m)
    ensures Decremented(Incremented(m)) == Touched(m)
    ensures Incremented(Decremented(m)) == Touched(m)
  {
    var t := Touched(m).tape;
    var v := t[m.ptr];
    assert WrappingDec(WrappingInc(v)) == v && WrappingInc(WrappingDec(v)) == v;
    AssignedTwice(m, WrappingInc(v), v);
    AssignedTwice(m, WrappingDec(v), v);
    assert t[m.ptr := v] == t;
  }

  /** The tape and the pointer of the stepping interpreter. */
  class Storage {
    var tape: seq<byte>
    var ptr: nat

    /** The value this storage currently holds. */
    function Model(): Memory
      reads this
    {
      Memory(tape, ptr)
    }

    /** `Storage::new`: an empty tape with the pointer at cell 0. */
    constructor ()
      ensures Model() == Memory([], 0)
    {
      tape := [];
      ptr := 0;
    }

    /** `ensure_sized(&mut self.tape, size)`: zero-extends the tape so that
        index `size` exists. */
    method EnsureSized(size: nat)
      requires size <= SANITY_LIMIT
      modifies this
      ensures tape == Grown(old(tape), size) && ptr == old(ptr)
    {
      if size >= |tape| {
        tape := tape + Zeros(size + 1 - |tape|);
      }
    }

    /** `get_mut`: sizes the tape for the pointer and hands out the cell under
        it, modelled as the cell's index. */
    method GetMut() returns (i: nat)
      requires InBounds(Model())
      modifies this
      ensures Model() == Touched(old(Model()))
      ensures i == ptr && i < |tape|
    {
      EnsureSized(ptr);
      i := ptr;
    }

    /** `get`: sizes the tape for the pointer and reads the cell under it. */
    method Get() returns (v: byte)
      requires InBounds(Model())
      modifies this
      ensures Model() == Touched(old(Model()))
      ensures v == Cell(old(Model()))
    {
      EnsureSized(ptr);
      v := tape[ptr];
    }

    /** `set(v)`: writes `v` into the cell under the pointer. */
    method Set(v: byte)
      requires InBounds(Model())
      modifies this
      ensures Model() == Assigned(old(Model()), v)
    {
      var i := GetMut();
      tape := tape[i := v];
    }

    /** `command(c)`: carries out one of the four tape commands. Any other
        command panics, hence the precondition. */
    method Command(c: Command)
      requires CanApply(Model(), c)
      modifies this
      ensures Model() == Applied(old(Model()), c)
    {
      match c {
        case Plus => IncMem();
        case Minus => DecMem();
        case Right => IncPtr();
        case Left => DecPtr();
      }
    }

    /** `inc_mem`: adds one to the cell under the pointer, wrapping at 256. */
    method IncMem()
      requires InBounds(Model())
      modifies this
      ensures Model() == Incremented(old(Model()))
    {
      var i := GetMut();
      tape := tape[i := WrappingInc(tape[i])];
    }

    /** `dec_mem`: subtracts one from the cell under the pointer, wrapping at 0. */
    method DecMem()
      requires InBounds(Model())
      modifies this
      ensures Model() == Decremented(old(Model()))
    {
      var i := GetMut();
      tape := tape[i := WrappingDec(tape[i])];
    }

    /** `inc_ptr`: moves the pointer one cell right. */
    method IncPtr()
      modifies this
      ensures Model() == MovedRight(old(Model()))
    {
      ptr := ptr + 1;
    }

    /** `dec_ptr`: moves the pointer one cell left. */
    method DecPtr()
      requires ptr > 0
      modifies this
      ensures Model() == MovedLeft(old(Model()))
    {
      ptr := ptr - 1;
    }
  }
}
