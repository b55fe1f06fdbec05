/**
 * `VM::new_from_file` followed by `run` on the source `++[-]`: since
 * `optimize` keeps the loop targets of the unoptimized token list, the
 * loaded program leaves its loop after one pass, whereas the token list as
 * tokenized never leaves it.
 */
module PipelineExamples {
  import opened Primitives
  import opened Tokens
  import opened Tokenizer
  import opened Optimizer
  import opened Vm
  import opened Pipeline
  import opened TokenizerExamples
  import opened VmExamples

  /** `++[-]` compiles to the four folded instructions with the stale targets 5 and 3. */
  lemma ClearTwiceCompiles()
    ensures Tokenize("++[-]") == Ok(ClearTwice)
    ensures Compile("++[-]") == New(ClearTwiceFolded)
    ensures Compile("++[-]").Ok? && Compile("++[-]").value.inst == ClearTwiceFolded
  {
    ClearTwiceTokens();
    ClearTwiceFolds();
  }

  /**
   * Run from source, `++[-]` ends after four steps in either build with the
   * cell at 1; the tokens before `optimize` never end.
   */
  lemma ClearTwiceExecutes(b: Build, input: seq<u8>, fuel: nat)
    ensures Tokenize("++[-]") == Ok(ClearTwice)
    ensures Run(b, Start(New(Tokenize("++[-]").value).value, input), fuel).OutOfFuel?
    ensures fuel >= 4 ==> Execute(b, "++[-]", input, fuel).Ok? && Execute(b, "++[-]", input, fuel).value.Finished?
    ensures fuel >= 4 ==> Execute(b, "++[-]", input, fuel).value.last.vm.mem[0] == 1
  {
    ClearTwiceCompiles();
    ClearTwiceSpins(b, input, fuel);
    if fuel >= 4 {
      ClearTwiceFoldedEnds(b, input, fuel);
    }
  }
}
