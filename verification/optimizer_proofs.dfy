/**
 * What `optimize` promises: its output has no two neighbouring tokens of one
 * counted variant, already-compact programs are left alone (so optimizing
 * twice is optimizing once), the uncounted tokens pass through in order and
 * unchanged, and each counted variant's total is kept modulo its width.
 */
module OptimizerProofs {
  import opened Primitives
  import opened Tokens
  import opened Optimizer

  /** No counted token is followed by another token of its variant. */
  ghost predicate Compact(s: seq<Token>) {
    forall i, j :: 0 <= i && j == i + 1 && j < |s| ==> !(IsArith(s[i]) && SameVariant(s[i], s[j]))
  }

  lemma CompactCons(m: Token, rest: seq<Token>)
    requires Compact(rest)
    requires |rest| > 0 ==> !(IsArith(m) && SameVariant(m, rest[0]))
    ensures Compact([m] + rest)
  {
    var s := [m] + rest;
    forall i, j | 0 <= i && j == i + 1 && j < |s|
      ensures !(IsArith(s[i]) && SameVariant(s[i], s[j]))
    {
      if i > 0 {
        assert s[i] == rest[i - 1] && s[j] == rest[j - 1];
      }
    }
  }

  lemma OptimizeCompact(t: seq<Token>)
    ensures Compact(Optimize(t))
    decreases |t|
  {
    if |t| > 0 {
      if IsArith(t[0]) {
        var n := RunLength(t);
        OptimizeCompact(t[n..]);
        if n < |t| {
          assert t[n..][0] == t[n];
        }
        CompactCons(Merge(t[..n]), Optimize(t[n..]));
      } else {
        OptimizeCompact(t[1..]);
        CompactCons(t[0], Optimize(t[1..]));
      }
    }
  }

  lemma CompactTail(t: seq<Token>)
    requires Compact(t) && |t| > 0
    ensures Compact(t[1..])
  {
    var rest := t[1..];
    forall i, j | 0 <= i && j == i + 1 && j < |rest|
      ensures !(IsArith(rest[i]) && SameVariant(rest[i], rest[j]))
    {
      assert rest[i] == t[i + 1] && rest[j] == t[j + 1];
    }
  }

  /** In a compact list each output token stands for one input token, unchanged. */
  lemma CompactHead(t: seq<Token>)
    requires Compact(t) && |t| > 0
    ensures Advance(t) == 1 && Head(t) == t[0]
  {
    if IsArith(t[0]) {
      if |t| > 1 {
        assert !SameVariant(t[1], t[0]);
      }
      assert RunLength(t) == 1;
      assert t[..1] == [t[0]];
      assert Sum([t[0]]) == Payload(t[0]) by {
        assert [t[0]][..0] == [];
      }
    }
  }

  lemma {:induction false} OptimizeFixpoint(t: seq<Token>)
    requires Compact(t)
    ensures Optimize(t) == t
    decreases |t|
  {
    if |t| > 0 {
      CompactTail(t);
      OptimizeFixpoint(t[1..]);
      CompactHead(t);
      assert t == [t[0]] + t[1..];
    }
  }

  lemma OptimizeIdempotent(t: seq<Token>)
    ensures Optimize(Optimize(t)) == Optimize(t)
  {
    OptimizeCompact(t);
    OptimizeFixpoint(Optimize(t));
  }

  /** A run of `n` tokens `IncrementData(1)` adds up to `n`. */
  lemma {:induction false} SumOfOnes(run: seq<Token>)
    requires forall k :: 0 <= k < |run| ==> run[k] == IncrementData(1)
    ensures AllArith(run) && Sum(run) == |run|
  {
    if |run| > 0 {
      SumOfOnes(run[..|run| - 1]);
    }
  }

  /**
   * `n > 0` single increments fold into one `IncrementData(n mod 256)`:
   * 254 + 5 increments become `IncrementData(3)`.
   */
  lemma OptimizeOnes(t: seq<Token>)
    requires |t| > 0 && forall k :: 0 <= k < |t| ==> t[k] == IncrementData(1)
    ensures Optimize(t) == [IncrementData(|t| % U8_LIMIT)]
  {
    RunLengthIs(t, |t|);
    SumOfOnes(t);
    assert t[..|t|] == t;
    assert t[|t|..] == [];
  }

  /** The uncounted tokens (I/O and loop brackets), in order. */
  function Control(t: seq<Token>): seq<Token> {
    if |t| == 0 then [] else (if IsArith(t[0]) then [] else [t[0]]) + Control(t[1..])
  }

  lemma {:induction false} ControlOfRun(t: seq<Token>, n: nat)
    requires n <= |t|
    requires forall k :: 0 <= k < n ==> IsArith(t[k])
    ensures Control(t) == Control(t[n..])
    decreases n
  {
    if n > 0 {
      assert t[1..][n - 1..] == t[n..];
      ControlOfRun(t[1..], n - 1);
    }
  }

  lemma {:induction false} OptimizeKeepsControl(t: seq<Token>)
    ensures Control(Optimize(t)) == Control(t)
    decreases |t|
  {
    if |t| > 0 {
      if IsArith(t[0]) {
        var n := RunLength(t);
        OptimizeKeepsControl(t[n..]);
        forall k | 0 <= k < n
          ensures IsArith(t[k])
        {
          SameVariantArith(t[k], t[0]);
        }
        ControlOfRun(t, n);
        var r := Optimize(t);
        assert r == [Merge(t[..n])] + Optimize(t[n..]);
        assert r[1..] == Optimize(t[n..]);
      } else {
        OptimizeKeepsControl(t[1..]);
        var r := Optimize(t);
        assert r[1..] == Optimize(t[1..]);
      }
    }
  }

  /** The counted symbols: `+`, `-`, `>` and `<`. */
  predicate IsArithSymbol(c: char) {
    c == '+' || c == '-' || c == '>' || c == '<'
  }

  /** Wrap-around width of the cell (`+`, `-`) or the pointer (`>`, `<`). */
  function SymbolWidth(c: char): nat {
    if c == '+' || c == '-' then U8_LIMIT else USIZE_LIMIT
  }

  /** What one token adds to the total of symbol `c`. */
  function Amount(t: Token, c: char): nat {
    if IsArith(t) && Symbol(t) == c then Payload(t) else 0
  }

  /** The sum of the counts of all tokens written as `c`, unbounded. */
  function Total(t: seq<Token>, c: char): nat {
    if |t| == 0 then 0 else Amount(t[0], c) + Total(t[1..], c)
  }

  lemma {:induction false} TotalAppend(a: seq<Token>, b: seq<Token>, c: char)
    ensures Total(a + b, c) == Total(a, c) + Total(b, c)
    decreases |a|
  {
    if |a| > 0 {
      assert (a + b)[1..] == a[1..] + b;
      TotalAppend(a[1..], b, c);
    } else {
      assert a + b == b;
    }
  }

  /** For a run of one variant, `Sum` (a right fold) is that symbol's total. */
  lemma {:induction false} TotalOfRun(run: seq<Token>)
    requires |run| > 0 && IsArith(run[0])
    requires forall k :: 0 <= k < |run| ==> SameVariant(run[k], run[0])
    ensures AllArith(run) && Total(run, Symbol(run[0])) == Sum(run)
    decreases |run|
  {
    forall k | 0 <= k < |run|
      ensures IsArith(run[k])
    {
      SameVariantArith(run[k], run[0]);
    }
    var last := run[|run| - 1];
    var init := run[..|run| - 1];
    assert run == init + [last];
    TotalAppend(init, [last], Symbol(run[0]));
    assert Total([last], Symbol(run[0])) == Payload(last) by {
      assert [last][1..] == [];
    }
    if |init| > 0 {
      TotalOfRun(init);
    }
  }

  /** The total of another symbol over a run is zero. */
  lemma {:induction false} TotalOfRunOther(run: seq<Token>, c: char)
    requires forall k :: 0 <= k < |run| ==> |run| > 0 && SameVariant(run[k], run[0])
    requires |run| > 0 ==> Symbol(run[0]) != c
    ensures Total(run, c) == 0
    decreases |run|
  {
    if |run| > 0 {
      assert forall k :: 0 <= k < |run| - 1 ==> run[1..][k] == run[k + 1];
      TotalOfRunOther(run[1..], c);
    }
  }

  /** Adding congruent amounts keeps congruence, whether or not `a` is reduced first. */
  lemma ModCongruent(a: int, b: int, b': int, w: int)
    requires w == U8_LIMIT || w == USIZE_LIMIT
    requires b' % w == b % w
    ensures (a % w + b') % w == (a + b) % w
    ensures (a + b') % w == (a + b) % w
  {
    ModAdd(a, b', w);
    ModAdd(b', a, w);
    ModAdd(b, a, w);
  }

  /** The totals of `Optimize(t)` and of `t`, split after the leading run. */
  lemma TotalRunParts(t: seq<Token>, c: char)
    requires |t| > 0 && IsArith(t[0])
    ensures Total(Optimize(t), c) == Amount(Merge(t[..RunLength(t)]), c) + Total(Optimize(t[RunLength(t)..]), c)
    ensures Total(t, c) == Total(t[..RunLength(t)], c) + Total(t[RunLength(t)..], c)
  {
    var n := RunLength(t);
    var m := Merge(t[..n]);
    assert Optimize(t) == [m] + Optimize(t[n..]);
    TotalAppend([m], Optimize(t[n..]), c);
    assert Total([m], c) == Amount(m, c) by {
      assert [m][1..] == [];
    }
    assert t == t[..n] + t[n..];
    TotalAppend(t[..n], t[n..], c);
  }

  /** A merged run carries its symbol's total, wrapped; other symbols see nothing. */
  lemma MergeAmount(run: seq<Token>, c: char)
    requires |run| > 0 && IsArith(run[0])
    requires forall k :: 0 <= k < |run| ==> SameVariant(run[k], run[0])
    ensures Symbol(run[0]) == c ==> Amount(Merge(run), c) == Total(run, c) % Width(run[0])
    ensures Symbol(run[0]) != c ==> Amount(Merge(run), c) == 0 && Total(run, c) == 0
  {
    if Symbol(run[0]) == c {
      TotalOfRun(run);
    } else {
      TotalOfRunOther(run, c);
    }
  }

  /** Step of `OptimizeKeepsTotal` for a suffix that starts with a counted run. */
  lemma TotalRunStep(t: seq<Token>, c: char)
    requires |t| > 0 && IsArith(t[0]) && IsArithSymbol(c)
    requires Total(Optimize(t[RunLength(t)..]), c) % SymbolWidth(c) == Total(t[RunLength(t)..], c) % SymbolWidth(c)
    ensures Total(Optimize(t), c) % SymbolWidth(c) == Total(t, c) % SymbolWidth(c)
  {
    var n := RunLength(t);
    var w := SymbolWidth(c);
    TotalRunParts(t, c);
    MergeAmount(t[..n], c);
    var a := Total(t[..n], c);
    WrappedSum(Total(Optimize(t), c), Amount(Merge(t[..n]), c), Total(Optimize(t[n..]), c),
               Total(t, c), a, Total(t[n..], c), w);
  }

  /** Two sums agree modulo `w` when their parts do; the first part may be wrapped. */
  lemma WrappedSum(x: int, head: int, b': int, y: int, a: int, b: int, w: int)
    requires w == U8_LIMIT || w == USIZE_LIMIT
    requires x == head + b' && y == a + b
    requires head == a % w || (head == 0 && a == 0)
    requires b' % w == b % w
    ensures x % w == y % w
  {
    ModCongruent(a, b, b', w);
  }

  /** Step of `OptimizeKeepsTotal` for a suffix that starts with an uncounted token. */
  lemma TotalCopyStep(t: seq<Token>, c: char)
    requires |t| > 0 && !IsArith(t[0]) && IsArithSymbol(c)
    requires Total(Optimize(t[1..]), c) % SymbolWidth(c) == Total(t[1..], c) % SymbolWidth(c)
    ensures Total(Optimize(t), c) % SymbolWidth(c) == Total(t, c) % SymbolWidth(c)
  {
    var r := Optimize(t);
    assert r[1..] == Optimize(t[1..]);
    assert Total(r, c) == Total(Optimize(t[1..]), c);
    assert Amount(t[0], c) == 0;
    WrappedSum(Total(r, c), 0, Total(Optimize(t[1..]), c), Total(t, c), 0, Total(t[1..], c), SymbolWidth(c));
  }

  lemma {:induction false} OptimizeKeepsTotal(t: seq<Token>, c: char)
    requires IsArithSymbol(c)
    ensures Total(Optimize(t), c) % SymbolWidth(c) == Total(t, c) % SymbolWidth(c)
    decreases |t|
  {
    if |t| > 0 {
      if IsArith(t[0]) {
        OptimizeKeepsTotal(t[RunLength(t)..], c);
        TotalRunStep(t, c);
      } else {
        OptimizeKeepsTotal(t[1..], c);
        TotalCopyStep(t, c);
      }
    }
  }
}
