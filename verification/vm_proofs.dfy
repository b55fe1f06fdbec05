/**
 * What each instruction of `VM::run` does to the machine, what a debug
 * build guarantees that a release build does not, and how fuel-bounded
 * runs compose.
 */
module VmProofs {
  import opened Primitives
  import opened Tokens
  import opened Vm

  /** The machine is ready to execute its current instruction. */
  predicate Ready(m: Machine) {
    Valid(m.vm) && m.pc < m.vm.instLen
  }

  /** Nothing but the cell at `point` differs between the two memories. */
  predicate OnlyCellChanged(mem: seq<u8>, mem': seq<u8>, point: nat) {
    |mem'| == |mem| && forall a :: 0 <= a < |mem| && a != point ==> mem'[a] == mem[a]
  }

  /**
   * `+`/`-` on a cell: with the pointer off memory both builds panic
   * indexing; with it in range, a debug build panics exactly on `u8`
   * overflow; otherwise only `mem[point]` changes, by the count modulo 256,
   * and the pointer and streams stay.
   */
  lemma DataStep(b: Build, m: Machine)
    requires Ready(m) && (m.vm.inst[m.pc].IncrementData? || m.vm.inst[m.pc].DecrementData?)
    ensures m.point >= m.vm.memLen ==> Step(b, m) == Crash(IndexOutOfBounds(m.point, m.vm.memLen))
    ensures m.point < m.vm.memLen ==>
      var t := m.vm.inst[m.pc];
      var cell := m.vm.mem[m.point];
      var sum := if t.IncrementData? then cell + t.d else cell - t.d;
      && (Step(b, m).Crash? <==> b == Debug && !(0 <= sum < U8_LIMIT))
      && (Step(b, m).Crash? ==> Step(b, m).reason == ArithmeticOverflow)
      && (!Step(b, m).Crash? ==>
            var m' := Step(b, m).next;
            && Step(b, m).Next?
            && m'.vm.mem[m.point] == sum % U8_LIMIT
            && OnlyCellChanged(m.vm.mem, m'.vm.mem, m.point)
            && m'.point == m.point && m'.input == m.input && m'.output == m.output
            && m'.pc == m.pc + 1)
  {
  }

  /**
   * `>`: a debug build panics when `point + x` overflows; otherwise the
   * step fails with `PointerOverFlow` exactly when the (wrapped) sum is not
   * a cell index, and moves the pointer there when it is.
   */
  lemma PointerUpStep(b: Build, m: Machine)
    requires Ready(m) && m.vm.inst[m.pc].IncrementPointer?
    ensures
      var x := m.vm.inst[m.pc].n;
      var v := (m.point + x) % USIZE_LIMIT;
      && (Step(b, m).Crash? <==> b == Debug && m.point + x >= USIZE_LIMIT)
      && (!Step(b, m).Crash? ==> (Step(b, m) == Stop(PointerOverFlow) <==> v >= m.vm.memLen))
      && (Step(b, m).Next? ==>
            Step(b, m).next == m.(point := v, pc := m.pc + 1) && v < m.vm.memLen)
  {
  }

  /** The `<` guard `(point + x) >> 7 == 0xf` holds exactly on 1920..2047. */
  lemma {:induction false} GuardRange(v: nat)
    ensures Shr(v, SHIFT) == 0xf <==> 1920 <= v < 2048
  {
    var a := v / 2;
    var c := a / 2;
    var d := c / 2;
    var e := d / 2;
    var f := e / 2;
    var g := f / 2;
    var h := g / 2;
    assert Shr(v, 7) == Shr(a, 6) == Shr(c, 5) == Shr(d, 4) == Shr(e, 3) == Shr(f, 2) == Shr(g, 1) == h;
    assert h == v / 128;
  }

  /**
   * `<`: a debug build panics if `point + x` overflows; otherwise the step
   * fails with `PointerOverFlow` exactly when `point + x` lies in
   * 1920..2047 -- which has nothing to do with `x > point` -- and else sets
   * the pointer to `point - x`, which panics on underflow in a debug build
   * and wraps in a release build.
   */
  lemma PointerDownStep(b: Build, m: Machine)
    requires Ready(m) && m.vm.inst[m.pc].DecrementPointer?
    ensures
      var x := m.vm.inst[m.pc].n;
      var v := (m.point + x) % USIZE_LIMIT;
      && (Step(b, m).Crash? <==> b == Debug && (m.point + x >= USIZE_LIMIT || ((1920 > v || v >= 2048) && x > m.point)))
      && (Step(b, m).Stop? <==> (b == Release || m.point + x < USIZE_LIMIT) && 1920 <= v < 2048)
      && (Step(b, m).Next? ==>
            Step(b, m).next == m.(point := (m.point - x) % USIZE_LIMIT, pc := m.pc + 1))
  {
    var x := m.vm.inst[m.pc].n;
    assert Step(b, m) == MoveLeft(b, m, x);
    MoveLeftCases(b, m, x);
  }

  lemma MoveLeftCases(b: Build, m: Machine, x: usize)
    requires Valid(m.vm)
    ensures
      var v := (m.point + x) % USIZE_LIMIT;
      && (MoveLeft(b, m, x).Crash? <==> b == Debug && (m.point + x >= USIZE_LIMIT || ((1920 > v || v >= 2048) && x > m.point)))
      && (MoveLeft(b, m, x).Stop? <==> (b == Release || m.point + x < USIZE_LIMIT) && 1920 <= v < 2048)
      && (MoveLeft(b, m, x).Next? ==>
            MoveLeft(b, m, x).next == m.(point := (m.point - x) % USIZE_LIMIT, pc := m.pc + 1))
  {
    var p := m.point;
    if b == Debug && p + x >= USIZE_LIMIT {
      assert Add(b, p, x, USIZE_LIMIT) == Overflow;
    } else {
      var v := (p + x) % USIZE_LIMIT;
      assert Add(b, p, x, USIZE_LIMIT) == Value(v);
      GuardRange(v);
      if !(1920 <= v < 2048) {
        if b == Debug && x > p {
          assert Sub(b, p, x, USIZE_LIMIT) == Overflow;
        } else {
          assert Sub(b, p, x, USIZE_LIMIT) == Value((p - x) % USIZE_LIMIT);
        }
      }
    }
  }

  /**
   * `.` appends `mem[point]` and changes nothing else; `,` with input left
   * stores its first byte in `mem[point]` and consumes it, and on end of
   * input does nothing at all (not even the bounds check).
   */
  lemma IoStep(b: Build, m: Machine)
    requires Ready(m) && (m.vm.inst[m.pc].Input? || m.vm.inst[m.pc].Output?)
    ensures m.vm.inst[m.pc].Input? && |m.input| == 0 ==> Step(b, m) == Next(m.(pc := m.pc + 1))
    ensures m.vm.inst[m.pc].Output? && m.point < m.vm.memLen ==>
      Step(b, m) == Next(m.(output := m.output + [m.vm.mem[m.point]], pc := m.pc + 1))
    ensures m.vm.inst[m.pc].Input? && |m.input| > 0 && m.point < m.vm.memLen ==>
      && Step(b, m).Next?
      && Step(b, m).next.vm.mem[m.point] == m.input[0]
      && OnlyCellChanged(m.vm.mem, Step(b, m).next.vm.mem, m.point)
      && Step(b, m).next.input == m.input[1..]
      && Step(b, m).next.output == m.output
    ensures (m.vm.inst[m.pc].Output? || |m.input| > 0) && m.point >= m.vm.memLen ==>
      Step(b, m) == Crash(IndexOutOfBounds(m.point, m.vm.memLen))
  {
  }

  /**
   * `[x` jumps when the cell is 0 and `]x` when it is not, provided
   * `x <= inst_len`; a jump sets `pc` to `x` and the loop's `pc += 1` then
   * makes it `x + 1`.  Otherwise execution falls through to `pc + 1`.
   * Reading the cell with the pointer off memory panics in both builds.
   */
  lemma JumpStep(b: Build, m: Machine)
    requires Ready(m) && (m.vm.inst[m.pc].LoopStart? || m.vm.inst[m.pc].LoopEnd?)
    ensures m.point >= m.vm.memLen ==> Step(b, m) == Crash(IndexOutOfBounds(m.point, m.vm.memLen))
    ensures m.point < m.vm.memLen ==>
      var t := m.vm.inst[m.pc];
      var cell := m.vm.mem[m.point];
      var taken := (if t.LoopStart? then cell == 0 else cell != 0) && t.target <= m.vm.instLen;
      && Step(b, m).Next?
      && Step(b, m).next == m.(pc := if taken then t.target + 1 else m.pc + 1)
  {
  }

  /** In a debug build every step that goes on keeps the pointer on a cell. */
  lemma DebugPointerInRange(m: Machine)
    requires Ready(m) && m.point < m.vm.memLen && Step(Debug, m).Next?
    ensures Step(Debug, m).next.point < m.vm.memLen
  {
    match m.vm.inst[m.pc]
    case IncrementPointer(_) => PointerUpStep(Debug, m);
    case DecrementPointer(_) => PointerDownStep(Debug, m);
    case _ =>
  }

  /**
   * A debug-build run that starts on a cell never indexes memory out of
   * bounds: its only panics are arithmetic overflows.
   */
  lemma {:induction false} DebugNoIndexPanic(m: Machine, fuel: nat)
    requires Valid(m.vm) && m.point < m.vm.memLen
    ensures Run(Debug, m, fuel).Crashed? ==> Run(Debug, m, fuel).reason == ArithmeticOverflow
    ensures Run(Debug, m, fuel).last.point < m.vm.memLen
    decreases fuel
  {
    if m.pc < m.vm.instLen && fuel > 0 {
      var s := Step(Debug, m);
      if s.Next? {
        DebugPointerInRange(m);
        DebugNoIndexPanic(s.next, fuel - 1);
      } else if s.Crash? {
        match m.vm.inst[m.pc]
        case IncrementData(_) => DataStep(Debug, m);
        case DecrementData(_) => DataStep(Debug, m);
        case Input => IoStep(Debug, m);
        case Output => IoStep(Debug, m);
        case _ =>
      }
    }
  }

  /** A release build never panics on arithmetic: it wraps. */
  lemma {:induction false} ReleaseNoOverflow(m: Machine, fuel: nat)
    requires Valid(m.vm)
    ensures Run(Release, m, fuel).Crashed? ==> Run(Release, m, fuel).reason.IndexOutOfBounds?
    decreases fuel
  {
    if m.pc < m.vm.instLen && fuel > 0 {
      var s := Step(Release, m);
      if s.Next? {
        ReleaseNoOverflow(s.next, fuel - 1);
      }
    }
  }

  /** A debug step that does not panic is exactly the release step. */
  lemma DebugStepIsRelease(m: Machine)
    requires Ready(m) && !Step(Debug, m).Crash?
    ensures Step(Release, m) == Step(Debug, m)
  {
  }

  /**
   * A debug-build run that does not panic behaves exactly like the
   * release-build run: the builds differ only where the debug build panics.
   */
  lemma {:induction false} DebugRunIsRelease(m: Machine, fuel: nat)
    requires Valid(m.vm) && !Run(Debug, m, fuel).Crashed?
    ensures Run(Release, m, fuel) == Run(Debug, m, fuel)
    decreases fuel
  {
    if m.pc < m.vm.instLen && fuel > 0 {
      DebugStepIsRelease(m);
      var s := Step(Debug, m);
      if s.Next? {
        DebugRunIsRelease(s.next, fuel - 1);
      }
    }
  }

  /** A run that has fuel left executes one step, then goes on or ends there. */
  lemma RunUnfold(b: Build, m: Machine, fuel: nat)
    requires Ready(m) && fuel > 0
    ensures Step(b, m).Next? ==> Run(b, m, fuel) == Run(b, Step(b, m).next, fuel - 1)
    ensures Step(b, m).Stop? ==> Run(b, m, fuel) == Stopped(Step(b, m).error, m)
    ensures Step(b, m).Crash? ==> Run(b, m, fuel) == Crashed(Step(b, m).reason, m)
  {
  }

  /** A run past the last instruction, or out of fuel, ends where it is. */
  lemma RunEnd(b: Build, m: Machine, fuel: nat)
    requires Valid(m.vm) && (m.pc >= m.vm.instLen || fuel == 0)
    ensures m.pc >= m.vm.instLen ==> Run(b, m, fuel) == Finished(m)
    ensures m.pc < m.vm.instLen ==> Run(b, m, fuel) == OutOfFuel(m)
  {
  }

  /** Running `f` steps and then `g` more is running `f + g` steps. */
  lemma {:induction false} RunAppend(b: Build, m: Machine, f: nat, g: nat, l: Machine)
    requires Valid(m.vm) && Run(b, m, f) == OutOfFuel(l)
    ensures Valid(l.vm) && Run(b, m, f + g) == Run(b, l, g)
    decreases f, 1
  {
    if f == 0 {
      RunEnd(b, m, f);
    } else {
      RunAppendStep(b, m, f, g, l);
    }
  }

  lemma {:induction false} RunAppendStep(b: Build, m: Machine, f: nat, g: nat, l: Machine)
    requires Valid(m.vm) && Run(b, m, f) == OutOfFuel(l) && f > 0
    ensures Valid(l.vm) && Run(b, m, f + g) == Run(b, l, g)
    decreases f, 0
  {
    var n := Step(b, m).next;
    RunGoesOn(b, m, f, g);
    RunAppend(b, n, f - 1, g, l);
  }

  /** A run that is still going after `f > 0` steps took a first step that went on. */
  lemma RunGoesOn(b: Build, m: Machine, f: nat, g: nat)
    requires Valid(m.vm) && Run(b, m, f).OutOfFuel? && f > 0
    ensures Ready(m) && Step(b, m).Next?
    ensures Run(b, Step(b, m).next, f - 1) == Run(b, m, f)
    ensures Run(b, m, f + g) == Run(b, Step(b, m).next, f - 1 + g)
  {
  }

  /** Once a run has ended, more fuel changes nothing. */
  lemma {:induction false} RunMonotone(b: Build, m: Machine, f: nat, g: nat)
    requires Valid(m.vm) && !Run(b, m, f).OutOfFuel? && f <= g
    ensures Run(b, m, g) == Run(b, m, f)
    decreases f
  {
    if m.pc < m.vm.instLen {
      RunUnfold(b, m, f);
      RunUnfold(b, m, g);
      if Step(b, m).Next? {
        var n := Step(b, m).next;
        RunMonotone(b, n, f - 1, g - 1);
      }
    } else {
      RunEnd(b, m, f);
      RunEnd(b, m, g);
    }
  }

  /** A machine that one step leaves as it is never finishes: it spins until the fuel runs out. */
  lemma {:induction false} RunSpins(b: Build, m: Machine, fuel: nat)
    requires Ready(m) && Step(b, m) == Next(m)
    ensures Run(b, m, fuel) == OutOfFuel(m)
    decreases fuel
  {
    if fuel > 0 {
      RunUnfold(b, m, fuel);
      RunSpins(b, m, fuel - 1);
    } else {
      RunEnd(b, m, fuel);
    }
  }

  /** `b` is `a` with bytes appended. */
  predicate Extends(a: seq<u8>, b: seq<u8>) {
    |a| <= |b| && b[..|a|] == a
  }

  /** `b` is what is left of `a` after bytes were taken from its front. */
  predicate Suffix(a: seq<u8>, b: seq<u8>) {
    |b| <= |a| && b == a[|a| - |b|..]
  }

  lemma StreamsStay(o: seq<u8>, i: seq<u8>)
    ensures Extends(o, o) && Suffix(i, i)
  {
    assert i[|i| - |i|..] == i;
  }

  lemma StreamsTrans(o1: seq<u8>, o2: seq<u8>, o3: seq<u8>, i1: seq<u8>, i2: seq<u8>, i3: seq<u8>)
    requires Extends(o1, o2) && Extends(o2, o3) && Suffix(i1, i2) && Suffix(i2, i3)
    ensures Extends(o1, o3) && Suffix(i1, i3)
  {
    assert o3[..|o2|][..|o1|] == o3[..|o1|];
    assert i1[|i1| - |i2|..][|i2| - |i3|..] == i1[|i1| - |i3|..];
  }

  /** Only `,` and `.` touch the streams. */
  lemma StepKeepsStreams(b: Build, m: Machine)
    requires Ready(m) && Step(b, m).Next? && !m.vm.inst[m.pc].Input? && !m.vm.inst[m.pc].Output?
    ensures Step(b, m).next.input == m.input && Step(b, m).next.output == m.output
  {
    match m.vm.inst[m.pc]
    case IncrementData(x) => assert Step(b, m) == ChangeCell(b, m, true, x);
    case DecrementData(x) => assert Step(b, m) == ChangeCell(b, m, false, x);
    case IncrementPointer(x) => assert Step(b, m) == MoveRight(b, m, x);
    case DecrementPointer(x) => assert Step(b, m) == MoveLeft(b, m, x);
    case LoopStart(x) => assert Step(b, m) == Jump(m, true, x);
    case LoopEnd(x) => assert Step(b, m) == Jump(m, false, x);
  }

  /** One step appends at most to the output and consumes at most from the input. */
  lemma StepStreams(b: Build, m: Machine)
    requires Ready(m) && Step(b, m).Next?
    ensures Extends(m.output, Step(b, m).next.output) && Suffix(m.input, Step(b, m).next.input)
  {
    var n := Step(b, m).next;
    if m.vm.inst[m.pc].Output? {
      assert Step(b, m) == Write(m);
      assert n.output[..|m.output|] == m.output;
      StreamsStay(m.output, n.input);
    } else if m.vm.inst[m.pc].Input? {
      assert Step(b, m) == Read(m);
      if |m.input| == 0 {
        StreamsStay(m.output, m.input);
      } else {
        assert n.input == m.input[1..];
        StreamsStay(m.output, m.input);
      }
    } else {
      StepKeepsStreams(b, m);
      StreamsStay(m.output, m.input);
    }
  }

  /** Output is only appended to, and input only consumed from the front. */
  lemma {:induction false} RunStreams(b: Build, m: Machine, fuel: nat)
    requires Valid(m.vm)
    ensures Extends(m.output, Run(b, m, fuel).last.output)
    ensures Suffix(m.input, Run(b, m, fuel).last.input)
    decreases fuel
  {
    var l := Run(b, m, fuel).last;
    if m.pc < m.vm.instLen && fuel > 0 {
      RunUnfold(b, m, fuel);
      if Step(b, m).Next? {
        var m' := Step(b, m).next;
        StepStreams(b, m);
        RunStreams(b, m', fuel - 1);
        assert l == Run(b, m', fuel - 1).last;
        StreamsTrans(m.output, m'.output, l.output, m.input, m'.input, l.input);
      } else {
        assert l == m;
        StreamsStay(m.output, m.input);
      }
    } else {
      RunEnd(b, m, fuel);
      StreamsStay(m.output, m.input);
    }
  }

  /**
   * `run` ends at the first error: an error or panic is what the
   * instruction at `last` does, and `Ok(())` is returned only with
   * `pc >= inst_len`.
   */
  lemma {:induction false} RunStopsAtFirstError(b: Build, m: Machine, fuel: nat)
    requires Valid(m.vm)
    ensures
      var r := Run(b, m, fuel);
      && (r.Finished? ==> r.last.pc >= r.last.vm.instLen)
      && (r.Stopped? ==> Ready(r.last) && Step(b, r.last) == Stop(r.error))
      && (r.Crashed? ==> Ready(r.last) && Step(b, r.last) == Crash(r.reason))
    decreases fuel
  {
    if m.pc < m.vm.instLen && fuel > 0 {
      RunUnfold(b, m, fuel);
      if Step(b, m).Next? {
        var n := Step(b, m).next;
        RunStopsAtFirstError(b, n, fuel - 1);
      }
    } else {
      RunEnd(b, m, fuel);
    }
  }

  /**
   * The machine at which a run stopped with an error or a panic is reached
   * without error after fewer steps than the fuel.
   */
  lemma {:induction false} RunReachesLast(b: Build, m: Machine, fuel: nat)
    requires Valid(m.vm) && (Run(b, m, fuel).Stopped? || Run(b, m, fuel).Crashed?)
    ensures exists k :: 0 <= k < fuel && Run(b, m, k) == OutOfFuel(Run(b, m, fuel).last)
    decreases fuel
  {
    var l := Run(b, m, fuel).last;
    RunUnfold(b, m, fuel);
    if Step(b, m).Next? {
      var n := Step(b, m).next;
      RunReachesLast(b, n, fuel - 1);
      var k :| 0 <= k < fuel - 1 && Run(b, n, k) == OutOfFuel(l);
      RunUnfold(b, m, k + 1);
    } else {
      RunEnd(b, m, 0);
    }
  }
}
