/**
 * `VM::new_from_file` once the file has been read into `src`: tokenize,
 * optimize, and wrap the instructions in a `VM`; then `run` it.
 */
module Pipeline {
  import opened Primitives
  import opened Tokens
  import opened Brackets
  import opened Tokenizer
  import opened TokenizerErrors
  import opened Optimizer
  import opened Vm

  /**
   * A tokenizer error becomes `VmError::Token`, a source without any command
   * character is refused as an empty program, and otherwise the optimized
   * instructions are loaded into zeroed memory.
   */
  function Compile(src: seq<char>): (r: Outcome<VM, VmError>)
    requires |src| < U32_LIMIT
    ensures r.Panic? <==> Tokenize(src).Panic?
    ensures Tokenize(src).Err? <==> r.Err? && r.error.Token?
    ensures Tokenize(src).Err? ==> r.error == Token(Tokenize(src).error)
    ensures r == Err(InstructionIsNull) <==> Tokenize(src).Ok? && |Commands(src)| == 0
    ensures r.Ok? ==>
      && Tokenize(src).Ok? && Valid(r.value) && r.value.memLen == MEMORY_SIZE
      && r.value.inst == Optimize(Tokenize(src).value)
      && 0 < r.value.instLen <= |Commands(src)|
      && forall a :: 0 <= a < |r.value.mem| ==> r.value.mem[a] == 0
  {
    match Tokenize(src)
    case Panic(why) => Panic(why)
    case Err(e) => Err(Token(e))
    case Ok(tokens) =>
      TokenizeErrors(src);
      CommandsLength(src);
      OptimizeHead(tokens);
      New(Optimize(tokens))
  }

  /** What running a source file amounts to: its build error, or its run. */
  function Execute(b: Build, src: seq<char>, input: seq<u8>, fuel: nat): (r: Outcome<RunResult, VmError>)
    requires |src| < U32_LIMIT
    ensures r.Ok? <==> Compile(src).Ok?
    ensures r.Ok? ==> r.value.last.vm.inst == Compile(src).value.inst
    ensures r.Ok? && r.value.Finished? ==> r.value.last.pc >= Compile(src).value.instLen
  {
    match Compile(src)
    case Ok(vm) => Ok(Run(b, Start(vm, input), fuel))
    case Err(e) => Err(e)
    case Panic(why) => Panic(why)
  }
}
