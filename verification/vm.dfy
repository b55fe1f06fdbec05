/**
 * The `VM` of src/vm.rs: `VM::new` and the fetch/dispatch loop of
 * `VM::run`.  Standard input and output are byte sequences: reading takes
 * the first byte of `input` (an empty `input` is end of file) and writing
 * appends to `output`.  The loop may not terminate, so it runs on fuel.
 *
 * Rust's `+`, `-` and `+=` on `u8` and `usize` panic on overflow in a debug
 * build and wrap in a release build; `Build` selects which.  Indexing
 * `mem[point]` is bounds-checked in both builds.
 */
module Vm {
  import opened Primitives
  import opened Tokens
  import opened Tokenizer

  /** Size of the zeroed data memory, in bytes. */
  const MEMORY_SIZE: nat := 4 * 1024 * 1024

  /** `size_of::<usize>() - 1` on a 64-bit target: the shift of the `<` guard. */
  const SHIFT: nat := 7

  datatype VmError =
    | InstructionIsNull
    | Token(error: TokenizerError)
    | PointerOverFlow

  datatype Build = Debug | Release

  datatype VM = VM(instLen: usize, inst: seq<Token>, memLen: usize, mem: seq<u8>)

  /** The lengths cached in the struct are the lengths of its buffers. */
  predicate Valid(vm: VM) {
    vm.instLen == |vm.inst| && vm.memLen == |vm.mem|
  }

  /** `VM::new`: refuse an empty program, otherwise pair it with zeroed memory. */
  function New(inst: seq<Token>): (r: Outcome<VM, VmError>)
    requires |inst| < USIZE_LIMIT
    ensures r.Panic? == false
    ensures r.Err? <==> |inst| == 0
    ensures r.Err? ==> r.error == InstructionIsNull
    ensures r.Ok? ==>
      && Valid(r.value) && r.value.inst == inst && r.value.memLen == MEMORY_SIZE
      && forall a :: 0 <= a < |r.value.mem| ==> r.value.mem[a] == 0
  {
    if |inst| == 0 then Err(InstructionIsNull)
    else Ok(VM(|inst|, inst, MEMORY_SIZE, seq(MEMORY_SIZE, _ => 0)))
  }

  /** A result of Rust integer arithmetic: a value, or a debug-build overflow panic. */
  datatype Arith = Value(v: nat) | Overflow

  /** `a + x` on an unsigned type with `w` values. */
  function Add(b: Build, a: nat, x: nat, w: nat): (r: Arith)
    requires a < w && x < w
    ensures r.Value? ==> r.v < w && (r.v == a + x || r.v + w == a + x)
    ensures r.Overflow? <==> b == Debug && a + x >= w
  {
    if a + x < w then Value(a + x)
    else if b == Debug then Overflow
    else Value(a + x - w)
  }

  /** `a - x` on an unsigned type with `w` values. */
  function Sub(b: Build, a: nat, x: nat, w: nat): (r: Arith)
    requires a < w && x < w
    ensures r.Value? ==> r.v < w && (r.v == a - x || r.v == a - x + w)
    ensures r.Overflow? <==> b == Debug && x > a
  {
    if x <= a then Value(a - x)
    else if b == Debug then Overflow
    else Value(a - x + w)
  }

  /** `v >> k` on an unsigned integer. */
  function Shr(v: nat, k: nat): nat {
    if k == 0 then v else Shr(v / 2, k - 1)
  }

  /** The interpreter's registers and I/O streams around one `VM`. */
  datatype Machine = Machine(vm: VM, pc: nat, point: usize, input: seq<u8>, output: seq<u8>)

  /** `run` starts at instruction 0 with the data pointer at cell 0. */
  function Start(vm: VM, input: seq<u8>): Machine {
    Machine(vm, 0, 0, input, [])
  }

  /** What one iteration of the dispatch loop does. */
  datatype Effect =
    | Next(next: Machine)        // the loop goes on
    | Stop(error: VmError)       // `return Err(..)`
    | Crash(reason: PanicReason) // a panic

  /** Bounds check of `mem[point]`. */
  function CellIndex(m: Machine): Effect
    requires Valid(m.vm) && m.point >= m.vm.memLen
  {
    Crash(IndexOutOfBounds(m.point, m.vm.memLen))
  }

  /** `pc += 1` at the bottom of the loop, after the instruction set `pc`. */
  function NextAt(m: Machine, pc: nat): Effect {
    Next(m.(pc := pc + 1))
  }

  /** What an instruction may change: memory contents, pointer, `pc` and streams. */
  predicate Keeps(m: Machine, r: Effect) {
    r.Next? ==>
      && r.next.vm.inst == m.vm.inst && r.next.vm.instLen == m.vm.instLen
      && r.next.vm.memLen == m.vm.memLen && Valid(r.next.vm)
  }

  /** `mem[point] += x` (`+`) or `mem[point] -= x` (`-`). */
  function ChangeCell(b: Build, m: Machine, up: bool, x: u8): (r: Effect)
    requires Valid(m.vm)
    ensures Keeps(m, r) && (r.Next? ==> r.next.pc == m.pc + 1)
  {
    var vm := m.vm;
    if m.point >= vm.memLen then CellIndex(m)
    else
      var cell := vm.mem[m.point];
      match if up then Add(b, cell, x, U8_LIMIT) else Sub(b, cell, x, U8_LIMIT)
      case Overflow => Crash(ArithmeticOverflow)
      case Value(v) => NextAt(m.(vm := vm.(mem := vm.mem[m.point := v])), m.pc)
  }

  /** `>`: `point += x`, refused when the new pointer is not a cell index. */
  function MoveRight(b: Build, m: Machine, x: usize): (r: Effect)
    requires Valid(m.vm)
    ensures Keeps(m, r) && (r.Next? ==> r.next.pc == m.pc + 1)
  {
    match Add(b, m.point, x, USIZE_LIMIT)
    case Overflow => Crash(ArithmeticOverflow)
    case Value(v) =>
      if v >= m.vm.memLen then Stop(PointerOverFlow)
      else NextAt(m.(point := v), m.pc)
  }

  /** `<`: refused when `(point + x) >> 7 == 0xf`, otherwise `point -= x`. */
  function MoveLeft(b: Build, m: Machine, x: usize): (r: Effect)
    requires Valid(m.vm)
    ensures Keeps(m, r) && (r.Next? ==> r.next.pc == m.pc + 1)
  {
    match Add(b, m.point, x, USIZE_LIMIT)
    case Overflow => Crash(ArithmeticOverflow)
    case Value(v) =>
      if Shr(v, SHIFT) == 0xf then Stop(PointerOverFlow)
      else (match Sub(b, m.point, x, USIZE_LIMIT)
        case Overflow => Crash(ArithmeticOverflow)
        case Value(v') => NextAt(m.(point := v'), m.pc))
  }

  /** `.`: write `mem[point]` to the output. */
  function Write(m: Machine): (r: Effect)
    requires Valid(m.vm)
    ensures Keeps(m, r) && (r.Next? ==> r.next.pc == m.pc + 1)
  {
    if m.point >= m.vm.memLen then CellIndex(m)
    else NextAt(m.(output := m.output + [m.vm.mem[m.point]]), m.pc)
  }

  /** `,`: at end of input nothing happens; otherwise store the next byte in `mem[point]`. */
  function Read(m: Machine): (r: Effect)
    requires Valid(m.vm)
    ensures Keeps(m, r) && (r.Next? ==> r.next.pc == m.pc + 1)
  {
    if |m.input| == 0 then NextAt(m, m.pc)
    else if m.point >= m.vm.memLen then CellIndex(m)
    else NextAt(m.(vm := m.vm.(mem := m.vm.mem[m.point := m.input[0]]), input := m.input[1..]), m.pc)
  }

  /**
   * `[x` (`onZero`) or `]x`: set `pc` to `x` when the cell is (not) zero and
   * `x <= inst_len`; the loop's `pc += 1` follows either way.
   */
  function Jump(m: Machine, onZero: bool, x: u32): (r: Effect)
    requires Valid(m.vm)
    ensures Keeps(m, r) && (r.Next? ==> r.next.pc <= m.vm.instLen + 1 || r.next.pc == m.pc + 1)
  {
    if m.point >= m.vm.memLen then CellIndex(m)
    else if (m.vm.mem[m.point] == 0) == onZero && x <= m.vm.instLen then NextAt(m, x)
    else NextAt(m, m.pc)
  }

  /**
   * One iteration of the `while pc < self.inst_len` loop: execute
   * `inst[pc]`, then `pc += 1`.
   */
  function Step(b: Build, m: Machine): (r: Effect)
    requires Valid(m.vm) && m.pc < m.vm.instLen
    ensures Keeps(m, r) && (r.Next? ==> r.next.pc <= m.vm.instLen + 1)
  {
    match m.vm.inst[m.pc]
    case IncrementData(x) => ChangeCell(b, m, true, x)
    case DecrementData(x) => ChangeCell(b, m, false, x)
    case IncrementPointer(x) => MoveRight(b, m, x)
    case DecrementPointer(x) => MoveLeft(b, m, x)
    case Output => Write(m)
    case Input => Read(m)
    case LoopStart(x) => Jump(m, true, x)
    case LoopEnd(x) => Jump(m, false, x)
  }

  /** How a fuel-bounded `run` ends, with the machine at that point. */
  datatype RunResult =
    | Finished(last: Machine)                      // `Ok(())`: `pc >= inst_len`
    | Stopped(error: VmError, last: Machine)       // `Err(..)` from the instruction at `last.pc`
    | Crashed(reason: PanicReason, last: Machine)  // panic in the instruction at `last.pc`
    | OutOfFuel(last: Machine)                     // still running after `fuel` steps

  /** `VM::run` from machine `m`, for at most `fuel` loop iterations. */
  function Run(b: Build, m: Machine, fuel: nat): (r: RunResult)
    requires Valid(m.vm)
    ensures Valid(r.last.vm) && r.last.vm.inst == m.vm.inst
    ensures r.last.vm.instLen == m.vm.instLen && r.last.vm.memLen == m.vm.memLen
    ensures r.Finished? ==> r.last.pc >= r.last.vm.instLen
    ensures !r.Finished? ==> r.last.pc < r.last.vm.instLen
    decreases fuel
  {
    if m.pc >= m.vm.instLen then Finished(m)
    else if fuel == 0 then OutOfFuel(m)
    else
      match Step(b, m)
      case Next(m') => Run(b, m', fuel - 1)
      case Stop(e) => Stopped(e, m)
      case Crash(reason) => Crashed(reason, m)
  }
}
