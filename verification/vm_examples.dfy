/**
 * `VM::run` on small programs, in both builds where they differ: the loop
 * of `++[-]` before and after `optimize`, a pointer walk whose folded form
 * trips the `<` guard, the two ways `<` below cell 0 ends, and a run of
 * single increments that a debug build refuses to wrap.
 */
module VmExamples {
  import opened Primitives
  import opened Tokens
  import opened Vm
  import opened VmProofs
  import opened Optimizer
  import opened OptimizerProofs

  /** The tokens of `++[-]`: the loop targets are the offsets 5 and 3 of the source. */
  const ClearTwice: seq<Token> :=
    [IncrementData(1), IncrementData(1), LoopStart(5), DecrementData(1), LoopEnd(3)]

  /** The optimized tokens of `++[-]`: the same targets, now off by one instruction. */
  const ClearTwiceFolded: seq<Token> :=
    [IncrementData(2), LoopStart(5), DecrementData(1), LoopEnd(3)]

  /**
   * Unoptimized, `++[-]` never ends in either build: `]` at instruction 4
   * jumps to 3 and the `pc += 1` brings it back to 4, with the cell at 1.
   */
  lemma ClearTwiceSpins(b: Build, input: seq<u8>, fuel: nat)
    ensures New(ClearTwice).Ok?
    ensures Run(b, Start(New(ClearTwice).value, input), fuel).OutOfFuel?
    ensures fuel >= 4 ==> Run(b, Start(New(ClearTwice).value, input), fuel).last.pc == 4
    ensures fuel >= 4 ==> Run(b, Start(New(ClearTwice).value, input), fuel).last.vm.mem[0] == 1
  {
    var m0 := Start(New(ClearTwice).value, input);
    ClearTwiceReachesLoop(b, input);
    var m4 := Run(b, m0, 4).last;
    if fuel >= 4 {
      RunAppend(b, m0, 4, fuel - 4, m4);
      RunSpins(b, m4, fuel - 4);
    } else if !Run(b, m0, fuel).OutOfFuel? {
      RunMonotone(b, m0, fuel, 4);
    }
  }

  /** Four steps bring `++[-]` to its `]` with the cell at 1, where a step changes nothing. */
  lemma ClearTwiceReachesLoop(b: Build, input: seq<u8>)
    ensures New(ClearTwice).Ok?
    ensures Run(b, Start(New(ClearTwice).value, input), 4).OutOfFuel?
    ensures Run(b, Start(New(ClearTwice).value, input), 4).last.pc == 4
    ensures Run(b, Start(New(ClearTwice).value, input), 4).last.vm.mem[0] == 1
    ensures Step(b, Run(b, Start(New(ClearTwice).value, input), 4).last)
      == Next(Run(b, Start(New(ClearTwice).value, input), 4).last)
  {
    var m0 := Start(New(ClearTwice).value, input);
    assert m0.vm.mem[0] == 0;
    var m1 := Step(b, m0).next;
    assert m1.pc == 1 && m1.point == 0 && m1.vm.mem[0] == 1;
    var m2 := Step(b, m1).next;
    assert m2.pc == 2 && m2.point == 0 && m2.vm.mem[0] == 2;
    var m3 := Step(b, m2).next;
    assert m3.pc == 3 && m3.point == 0 && m3.vm.mem[0] == 2;
    var m4 := Step(b, m3).next;
    assert m4.pc == 4 && m4.point == 0 && m4.vm.mem[0] == 1;
    assert Step(b, m4) == Next(m4);
    RunUnfold(b, m0, 4);
    RunUnfold(b, m1, 3);
    RunUnfold(b, m2, 2);
    RunUnfold(b, m3, 1);
    RunEnd(b, m4, 0);
  }

  /**
   * Optimized, `++[-]` ends after four steps in either build, with the cell
   * at 1 rather than 0: `]` jumps to 3, one past the last instruction.
   */
  lemma ClearTwiceFoldedEnds(b: Build, input: seq<u8>, fuel: nat)
    requires fuel >= 4
    ensures New(ClearTwiceFolded).Ok?
    ensures Run(b, Start(New(ClearTwiceFolded).value, input), fuel).Finished?
    ensures Run(b, Start(New(ClearTwiceFolded).value, input), fuel).last.vm.mem[0] == 1
  {
    var m0 := Start(New(ClearTwiceFolded).value, input);
    assert m0.vm.mem[0] == 0;
    var m1 := Step(b, m0).next;
    assert m1.pc == 1 && m1.point == 0 && m1.vm.mem[0] == 2;
    RunUnfold(b, m0, fuel);
    ClearTwiceFoldedFrom(b, m1, fuel - 1);
  }

  /** From the `[` with the cell at 2: one pass of the body, then `]` leaves the program. */
  lemma ClearTwiceFoldedFrom(b: Build, m1: Machine, fuel: nat)
    requires Valid(m1.vm) && m1.vm.inst == ClearTwiceFolded && m1.pc == 1
    requires m1.point == 0 < m1.vm.memLen && m1.vm.mem[0] == 2
    requires fuel >= 3
    ensures Run(b, m1, fuel).Finished? && Run(b, m1, fuel).last.vm.mem[0] == 1
  {
    var m2 := Step(b, m1).next;
    assert m2.pc == 2 && m2.point == 0 && m2.vm.mem[0] == 2;
    var m3 := Step(b, m2).next;
    assert m3.pc == 3 && m3.point == 0 && m3.vm.mem[0] == 1;
    var m4 := Step(b, m3).next;
    assert m4.pc == 4 && m4.vm.mem[0] == 1;
    RunUnfold(b, m1, fuel);
    RunUnfold(b, m2, fuel - 1);
    RunUnfold(b, m3, fuel - 2);
    RunEnd(b, m4, fuel - 3);
  }

  /** `>` 1917 times, then `<` three times: the walk `1917, 1916, 1915, 1914`. */
  const WalkBack: seq<Token> :=
    [IncrementPointer(1917), DecrementPointer(1), DecrementPointer(1), DecrementPointer(1)]

  /** The same walk folded: a single `<` of 3. */
  const WalkBackFolded: seq<Token> := [IncrementPointer(1917), DecrementPointer(3)]

  /**
   * One `<` at a time, the guard sees `point + 1` in 1915..1918, below 1920,
   * and the program ends with the pointer at 1914.
   */
  lemma WalkBackEnds(b: Build, input: seq<u8>, fuel: nat)
    requires fuel >= 4
    ensures New(WalkBack).Ok?
    ensures Run(b, Start(New(WalkBack).value, input), fuel).Finished?
    ensures Run(b, Start(New(WalkBack).value, input), fuel).last.point == 1914
  {
    var m0 := Start(New(WalkBack).value, input);
    var m1 := Step(b, m0).next;
    assert m1.pc == 1 && m1.point == 1917;
    RunUnfold(b, m0, fuel);
    WalkBackFrom(b, m1, fuel - 1);
  }

  /** The three single steps back from cell 1917. */
  lemma WalkBackFrom(b: Build, m1: Machine, fuel: nat)
    requires Valid(m1.vm) && m1.vm.inst == WalkBack && m1.pc == 1 && m1.point == 1917
    requires fuel >= 3
    ensures Run(b, m1, fuel).Finished? && Run(b, m1, fuel).last.point == 1914
  {
    GuardRange(1918);
    var m2 := Step(b, m1).next;
    assert m2.pc == 2 && m2.point == 1916;
    GuardRange(1917);
    var m3 := Step(b, m2).next;
    assert m3.pc == 3 && m3.point == 1915;
    GuardRange(1916);
    var m4 := Step(b, m3).next;
    assert m4.pc == 4 && m4.point == 1914;
    RunUnfold(b, m1, fuel);
    RunUnfold(b, m2, fuel - 1);
    RunUnfold(b, m3, fuel - 2);
    RunEnd(b, m4, fuel - 3);
  }

  /**
   * Folded, the guard sees `1917 + 3 = 1920`, whose top bits are `0xf`: the
   * run returns `PointerOverFlow` at the `<`, although the pointer would
   * have stayed in memory.
   */
  lemma WalkBackFoldedStops(b: Build, input: seq<u8>, fuel: nat)
    requires fuel >= 2
    ensures New(WalkBackFolded).Ok?
    ensures Run(b, Start(New(WalkBackFolded).value, input), fuel).Stopped?
    ensures Run(b, Start(New(WalkBackFolded).value, input), fuel).error == PointerOverFlow
    ensures Run(b, Start(New(WalkBackFolded).value, input), fuel).last.pc == 1
  {
    var m0 := Start(New(WalkBackFolded).value, input);
    var m1 := Step(b, m0).next;
    assert m1.pc == 1 && m1.point == 1917;
    GuardRange(1920);
    assert Step(b, m1) == Stop(PointerOverFlow);
    RunUnfold(b, m0, fuel);
    RunUnfold(b, m1, fuel - 1);
  }

  /** `<` with the pointer at cell 0, then `.`. */
  const BelowZero: seq<Token> := [DecrementPointer(1), Output]

  /** A debug build panics on the `usize` subtraction `0 - 1`. */
  lemma BelowZeroDebug(input: seq<u8>, fuel: nat)
    requires fuel >= 1
    ensures New(BelowZero).Ok?
    ensures Run(Debug, Start(New(BelowZero).value, input), fuel) == Crashed(ArithmeticOverflow, Start(New(BelowZero).value, input))
  {
    var m0 := Start(New(BelowZero).value, input);
    GuardRange(1);
    assert Step(Debug, m0) == Crash(ArithmeticOverflow);
    RunUnfold(Debug, m0, fuel);
  }

  /**
   * A release build wraps the pointer to `2^64 - 1`, which the guard lets
   * through; the `.` then indexes memory out of bounds.
   */
  lemma BelowZeroRelease(input: seq<u8>, fuel: nat)
    requires fuel >= 2
    ensures New(BelowZero).Ok?
    ensures Run(Release, Start(New(BelowZero).value, input), fuel).Crashed?
    ensures Run(Release, Start(New(BelowZero).value, input), fuel).reason == IndexOutOfBounds(USIZE_LIMIT - 1, MEMORY_SIZE)
    ensures Run(Release, Start(New(BelowZero).value, input), fuel).last.output == []
  {
    var m0 := Start(New(BelowZero).value, input);
    GuardRange(1);
    var m1 := Step(Release, m0).next;
    assert m1.pc == 1 && m1.point == USIZE_LIMIT - 1;
    assert Step(Release, m1) == Crash(IndexOutOfBounds(USIZE_LIMIT - 1, MEMORY_SIZE));
    RunUnfold(Release, m0, fuel);
    RunUnfold(Release, m1, fuel - 1);
  }

  /**
   * From `pc` on the program is `n` single increments of the current cell,
   * which holds `c`: unless a debug build sees the cell pass 255, the run
   * ends with the cell at `(c + n) mod 256`.
   */
  lemma {:induction false} CountUp(b: Build, m: Machine, fuel: nat)
    requires Valid(m.vm) && m.point < m.vm.memLen && m.pc <= m.vm.instLen
    requires forall k :: m.pc <= k < m.vm.instLen ==> m.vm.inst[k] == IncrementData(1)
    requires fuel >= m.vm.instLen - m.pc
    requires b == Release || m.vm.mem[m.point] + m.vm.instLen - m.pc < U8_LIMIT
    ensures Run(b, m, fuel).Finished? && Run(b, m, fuel).last.point == m.point
    ensures Run(b, m, fuel).last.vm.mem[m.point] == (m.vm.mem[m.point] + m.vm.instLen - m.pc) % U8_LIMIT
    decreases fuel
  {
    if m.pc < m.vm.instLen {
      DataStep(b, m);
      RunUnfold(b, m, fuel);
      var m' := Step(b, m).next;
      var n := m.vm.instLen - m.pc;
      var c := m.vm.mem[m.point];
      var c' := m'.vm.mem[m.point];
      assert c' + (n - 1) == c + n || c' + (n - 1) + U8_LIMIT == c + n;
      WrapByte(c' + (n - 1));
      CountUp(b, m', fuel - 1);
    } else {
      RunEnd(b, m, fuel);
    }
  }

  /**
   * The same program in a debug build, when the increments take the cell
   * past 255: the run panics at the increment that would make it 256.
   */
  lemma {:induction false} CountUpOverflows(m: Machine, fuel: nat)
    requires Valid(m.vm) && m.point < m.vm.memLen && m.pc <= m.vm.instLen
    requires forall k :: m.pc <= k < m.vm.instLen ==> m.vm.inst[k] == IncrementData(1)
    requires m.vm.mem[m.point] + m.vm.instLen - m.pc >= U8_LIMIT
    requires fuel >= U8_LIMIT - m.vm.mem[m.point]
    ensures Run(Debug, m, fuel) == Crashed(ArithmeticOverflow, Run(Debug, m, fuel).last)
    ensures Run(Debug, m, fuel).last.pc == m.pc + U8_LIMIT - 1 - m.vm.mem[m.point]
    decreases fuel
  {
    DataStep(Debug, m);
    RunUnfold(Debug, m, fuel);
    if Step(Debug, m).Next? {
      CountUpOverflows(Step(Debug, m).next, fuel - 1);
    }
  }

  lemma WrapByte(x: nat)
    ensures (x + U8_LIMIT) % U8_LIMIT == x % U8_LIMIT
  {
  }

  /**
   * 259 single increments: a release build ends with the cell at 3, a
   * debug build panics at the 256th; folded into `IncrementData(3)` the
   * program ends with the cell at 3 in both builds.
   */
  lemma ManyIncrements(b: Build, t: seq<Token>, input: seq<u8>, fuel: nat)
    requires |t| == 259 && forall k :: 0 <= k < |t| ==> t[k] == IncrementData(1)
    requires fuel >= 259
    ensures New(t).Ok? && New(Optimize(t)).Ok?
    ensures b == Release ==> Run(b, Start(New(t).value, input), fuel).Finished?
    ensures b == Release ==> Run(b, Start(New(t).value, input), fuel).last.vm.mem[0] == 3
    ensures b == Debug ==> Run(b, Start(New(t).value, input), fuel).Crashed?
    ensures b == Debug ==> Run(b, Start(New(t).value, input), fuel).reason == ArithmeticOverflow
    ensures b == Debug ==> Run(b, Start(New(t).value, input), fuel).last.pc == 255
    ensures Run(b, Start(New(Optimize(t)).value, input), fuel).Finished?
    ensures Run(b, Start(New(Optimize(t)).value, input), fuel).last.vm.mem[0] == 3
  {
    OptimizeOnes(t);
    var m := Start(New(t).value, input);
    if b == Release {
      CountUp(b, m, fuel);
    } else {
      CountUpOverflows(m, fuel);
    }
    var f := Start(New(Optimize(t)).value, input);
    assert f.vm.inst[0] == IncrementData(3) && f.vm.mem[0] == 0;
    DataStep(b, f);
    RunUnfold(b, f, fuel);
    RunEnd(b, Step(b, f).next, fuel - 1);
  }
}
