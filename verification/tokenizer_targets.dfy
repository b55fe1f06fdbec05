/**
 * Loop targets written by `tokenizer` for sources made only of command
 * characters (so character offsets and token indices coincide): the `[` at
 * `i` whose partner `]` is at `j` becomes `LoopStart(j + 1)` and the `]`
 * becomes `LoopEnd(i + 1)` -- each target is one past the partner.
 */
module TokenizerTargets {
  import opened Primitives
  import opened Tokens
  import opened Brackets
  import opened Tokenizer
  import opened TokenizerStack
  import opened TokenizerErrors
  import opened TokenizerKinds

  /** The `[` at `i` has been patched to one past its partner, which points back one past `i`. */
  ghost predicate StartOk(p: seq<char>, ir: seq<Token>, i: int)
    requires 0 <= i < |ir|
  {
    && ir[i].LoopStart?
    && 1 <= ir[i].target
    && Matches(p, i, ir[i].target - 1)
    && ir[i].target - 1 < |ir|
    && ir[ir[i].target - 1].LoopEnd?
    && ir[ir[i].target - 1].target == i + 1
  }

  /** The `]` at `j` points one past its partner, which points back one past `j`. */
  ghost predicate EndOk(p: seq<char>, ir: seq<Token>, j: int)
    requires 0 <= j < |ir|
  {
    && ir[j].LoopEnd?
    && 1 <= ir[j].target
    && Matches(p, ir[j].target - 1, j)
    && ir[j].target - 1 < |ir|
    && ir[ir[j].target - 1].LoopStart?
    && ir[ir[j].target - 1].target == j + 1
  }

  /** Every `]` already seen points back at its partner. */
  ghost predicate EndsOk(p: seq<char>, ir: seq<Token>)
    requires |ir| == |p|
  {
    forall q :: 0 <= q < |p| && p[q] == ']' ==> EndOk(p, ir, q)
  }

  /** Every `[` that has been patched points at its partner. */
  ghost predicate StartsOk(p: seq<char>, ir: seq<Token>)
    requires |ir| == |p|
  {
    forall q :: 0 <= q < |p| && p[q] == '[' && ir[q] != LoopStart(0) ==> StartOk(p, ir, q)
  }

  /** Pending `[`s still hold the placeholder, and every placeholder is pending. */
  ghost predicate PendingOk(p: seq<char>, ir: seq<Token>, stk: seq<Pending>)
    requires |ir| == |p|
  {
    && (forall k :: 0 <= k < |stk| ==> stk[k].org < |ir| && ir[stk[k].org] == LoopStart(0))
    && (forall q :: 0 <= q < |p| && p[q] == '[' && ir[q] == LoopStart(0) ==>
          exists k :: 0 <= k < |stk| && stk[k].org == q)
  }

  /** The targets invariant: pending `[`s hold the placeholder, closed ones are patched. */
  ghost predicate TargetsOk(p: seq<char>, ir: seq<Token>, stk: seq<Pending>)
  {
    && |ir| == |p|
    && PendingOk(p, ir, stk)
    && EndsOk(p, ir)
    && StartsOk(p, ir)
  }

  lemma MatchesSnoc(p: seq<char>, c: char, i: int, j: int)
    requires Matches(p, i, j)
    ensures Matches(p + [c], i, j)
  {
    SliceSnoc(p, c, i + 1, j);
  }

  /** A character other than `]` adds no `]`, and a non-`LoopStart` token no patched `[`. */
  lemma EndsSnoc(p: seq<char>, c: char, ir: seq<Token>, e: Token)
    requires |ir| == |p| && c != ']' && EndsOk(p, ir)
    ensures EndsOk(p + [c], ir + [e])
  {
    var p' := p + [c];
    var ir' := ir + [e];
    forall q | 0 <= q < |p'| && p'[q] == ']'
      ensures EndOk(p', ir', q)
    {
      assert q < |p| && p[q] == ']' && EndOk(p, ir, q);
      var u := ir[q].target - 1;
      assert ir'[q] == ir[q] && ir'[u] == ir[u];
      MatchesSnoc(p, c, u, q);
    }
  }

  lemma StartsSnoc(p: seq<char>, c: char, ir: seq<Token>, e: Token)
    requires |ir| == |p| && StartsOk(p, ir)
    requires c == '[' ==> e == LoopStart(0)
    requires c != '[' ==> !e.LoopStart?
    ensures StartsOk(p + [c], ir + [e])
  {
    var p' := p + [c];
    var ir' := ir + [e];
    forall q | 0 <= q < |p'| && p'[q] == '[' && ir'[q] != LoopStart(0)
      ensures StartOk(p', ir', q)
    {
      assert q < |p| && p[q] == '[' && ir'[q] == ir[q] && StartOk(p, ir, q);
      var v := ir[q].target - 1;
      assert ir'[v] == ir[v];
      MatchesSnoc(p, c, q, v);
    }
  }

  lemma PendingPlain(p: seq<char>, c: char, ir: seq<Token>, e: Token, stk: seq<Pending>)
    requires |ir| == |p| && c != '[' && PendingOk(p, ir, stk)
    ensures PendingOk(p + [c], ir + [e], stk)
  {
    var p' := p + [c];
    var ir' := ir + [e];
    forall k | 0 <= k < |stk|
      ensures stk[k].org < |ir'| && ir'[stk[k].org] == LoopStart(0)
    {
      assert ir'[stk[k].org] == ir[stk[k].org];
    }
    forall q | 0 <= q < |p'| && p'[q] == '[' && ir'[q] == LoopStart(0)
      ensures exists k :: 0 <= k < |stk| && stk[k].org == q
    {
      assert q < |p| && p[q] == '[' && ir[q] == LoopStart(0);
    }
  }

  lemma PendingOpen(p: seq<char>, ir: seq<Token>, stk: seq<Pending>, e: Pending)
    requires |ir| == |p| && e.org == |p| && PendingOk(p, ir, stk)
    ensures PendingOk(p + ['['], ir + [LoopStart(0)], stk + [e])
  {
    var p' := p + ['['];
    var ir' := ir + [LoopStart(0)];
    var stk' := stk + [e];
    forall k | 0 <= k < |stk'|
      ensures stk'[k].org < |ir'| && ir'[stk'[k].org] == LoopStart(0)
    {
      if k < |stk| {
        assert stk'[k] == stk[k] && ir'[stk[k].org] == ir[stk[k].org];
      }
    }
    forall q | 0 <= q < |p'| && p'[q] == '[' && ir'[q] == LoopStart(0)
      ensures exists k :: 0 <= k < |stk'| && stk'[k].org == q
    {
      if q == |p| {
        assert stk'[|stk|].org == q;
      } else {
        assert p[q] == '[' && ir[q] == LoopStart(0);
        var k :| 0 <= k < |stk| && stk[k].org == q;
        assert stk'[k].org == q;
      }
    }
  }

  lemma TargetsPlain(p: seq<char>, c: char, ir: seq<Token>, e: seq<Token>, stk: seq<Pending>)
    requires TargetsOk(p, ir, stk) && c != '[' && c != ']' && |e| == 1 && !e[0].LoopStart?
    ensures TargetsOk(p + [c], ir + e, stk)
  {
    assert e == [e[0]];
    EndsSnoc(p, c, ir, e[0]);
    StartsSnoc(p, c, ir, e[0]);
    PendingPlain(p, c, ir, e[0], stk);
  }

  lemma TargetsOpen(p: seq<char>, ir: seq<Token>, stk: seq<Pending>, e: Pending)
    requires TargetsOk(p, ir, stk) && e.org == |p|
    ensures TargetsOk(p + ['['], ir + [LoopStart(0)], stk + [e])
  {
    EndsSnoc(p, '[', ir, LoopStart(0));
    StartsSnoc(p, '[', ir, LoopStart(0));
    PendingOpen(p, ir, stk, e);
  }

  /** The token list after the `]` at `n` closed the `[` at `t`. */
  function Closed(ir: seq<Token>, t: nat, n: nat): seq<Token>
    requires t < |ir| && n + 1 < U32_LIMIT && t < n
  {
    (ir + [LoopEnd(t + 1)])[t := LoopStart(n + 1)]
  }

  /** The `]` at the end of `p + [']']` closes the `[` at `t`. */
  lemma CloseMatches(p: seq<char>, t: nat)
    requires t < |p| && p[t] == '[' && Balanced(p[t + 1..])
    ensures Matches(p + [']'], t, |p|)
  {
    SliceSnoc(p, ']', t + 1, |p|);
    assert p[t + 1..|p|] == p[t + 1..];
  }

  lemma CloseEnds(p: seq<char>, ir: seq<Token>, t: nat)
    requires |ir| == |p| && |p| + 1 < U32_LIMIT && t < |p|
    requires ir[t] == LoopStart(0) && Matches(p + [']'], t, |p|)
    requires EndsOk(p, ir)
    ensures EndsOk(p + [']'], Closed(ir, t, |p|))
  {
    var p' := p + [']'];
    var ir' := Closed(ir, t, |p|);
    forall q | 0 <= q < |p'| && p'[q] == ']'
      ensures EndOk(p', ir', q)
    {
      if q < |p| {
        assert p[q] == ']' && EndOk(p, ir, q);
        var u := ir[q].target - 1;
        assert ir[u].target == q + 1 && u != t;
        assert ir'[q] == ir[q] && ir'[u] == ir[u];
        MatchesSnoc(p, ']', u, q);
      }
    }
  }

  lemma CloseStarts(p: seq<char>, ir: seq<Token>, t: nat)
    requires |ir| == |p| && |p| + 1 < U32_LIMIT && t < |p|
    requires ir[t] == LoopStart(0) && Matches(p + [']'], t, |p|)
    requires StartsOk(p, ir)
    ensures StartsOk(p + [']'], Closed(ir, t, |p|))
  {
    var p' := p + [']'];
    var ir' := Closed(ir, t, |p|);
    forall q | 0 <= q < |p'| && p'[q] == '[' && ir'[q] != LoopStart(0)
      ensures StartOk(p', ir', q)
    {
      if q == t {
        assert ir'[t] == LoopStart(|p| + 1) && ir'[|p|] == LoopEnd(t + 1);
      } else {
        assert q < |p| && ir'[q] == ir[q];
        assert p[q] == '[' && ir[q] != LoopStart(0);
        assert StartOk(p, ir, q);
        var v := ir[q].target - 1;
        assert ir[v].LoopEnd? && v != t;
        assert ir'[v] == ir[v];
        MatchesSnoc(p, ']', q, v);
      }
    }
  }

  lemma ClosePending(p: seq<char>, ir: seq<Token>, stk: seq<Pending>)
    requires |ir| == |p| && |p| + 1 < U32_LIMIT && |stk| > 0
    requires OrgsOk(|p|, stk) && PendingOk(p, ir, stk)
    ensures PendingOk(p + [']'], Closed(ir, stk[|stk| - 1].org, |p|), stk[..|stk| - 1])
  {
    var n := |stk|;
    var t := stk[n - 1].org;
    var p' := p + [']'];
    var ir' := Closed(ir, t, |p|);
    var stk' := stk[..n - 1];
    forall k | 0 <= k < |stk'|
      ensures stk'[k].org < |ir'| && ir'[stk'[k].org] == LoopStart(0)
    {
      assert stk'[k].org < t;
    }
    forall q | 0 <= q < |p'| && p'[q] == '[' && ir'[q] == LoopStart(0)
      ensures exists k :: 0 <= k < |stk'| && stk'[k].org == q
    {
      var k :| 0 <= k < |stk| && stk[k].org == q;
      assert k != n - 1;
      assert stk'[k].org == q;
    }
  }

  lemma EmitShape(c: char)
    requires IsCommand(c) && c != '[' && c != ']'
    ensures |Emit(c)| == 1 && !Emit(c)[0].LoopStart?
  {
  }

  ghost predicate TargetsInv(p: seq<char>, s: Scan)
  {
    s.Scanning? ==> TargetsOk(p, s.ir, s.stk)
  }

  /** What closing needs to know about the innermost pending `[`. */
  ghost predicate TopOk(p: seq<char>, stk: seq<Pending>)
  {
    && OrgsOk(|p|, stk)
    && (|stk| > 0 ==>
          var t := stk[|stk| - 1].org;
          t < |p| && p[t] == '[' && Balanced(p[t + 1..]))
  }

  /** The stack invariant gives the facts about the innermost pending `[`. */
  lemma TopFacts(p: seq<char>, s: Scan)
    requires s.Scanning? && Inv(p, s)
    ensures s.pc == |p| && TopOk(p, s.stk)
  {
  }

  lemma TargetsStepClose(p: seq<char>, s: Scan)
    requires s.Scanning? && |p| + 1 < U32_LIMIT && s.pc == |p|
    requires TopOk(p, s.stk) && TargetsOk(p, s.ir, s.stk)
    ensures TargetsInv(p + [']'], Close(s))
  {
    if |s.stk| > 0 {
      var t := s.stk[|s.stk| - 1].org;
      assert s.ir[t] == LoopStart(0);
      CloseMatches(p, t);
      CloseEnds(p, s.ir, t);
      CloseStarts(p, s.ir, t);
      ClosePending(p, s.ir, s.stk);
      CloseIs(s, t);
    }
  }

  /** Closing when the innermost `[` is a token index: the patched list, one entry popped. */
  lemma CloseIs(s: Scan, t: nat)
    requires s.Scanning? && s.pc + 1 < U32_LIMIT && |s.stk| > 0
    requires forall k :: 0 <= k < |s.stk| ==> s.stk[k].org < s.pc
    requires t == s.stk[|s.stk| - 1].org && t < |s.ir|
    ensures Close(s).Scanning?
    ensures Close(s).ir == Closed(s.ir, t, s.pc)
    ensures Close(s).stk == s.stk[..|s.stk| - 1]
  {
  }

  lemma TargetsStepPlain(p: seq<char>, c: char, s: Scan)
    requires s.Scanning? && IsCommand(c) && c != '[' && c != ']' && TargetsOk(p, s.ir, s.stk)
    ensures TargetsInv(p + [c], Plain(s, c))
  {
    EmitShape(c);
    TargetsPlain(p, c, s.ir, Emit(c), s.stk);
  }

  lemma TargetsStep(p: seq<char>, c: char, s: Scan)
    requires |p| + 1 < U32_LIMIT && IsCommand(c) && Inv(p, s) && TargetsInv(p, s)
    ensures TargetsInv(p + [c], Feed(s, c))
  {
    if s.Scanning? {
      if c == '[' {
        TargetsOpen(p, s.ir, s.stk, Pending(s.pc, s.line, s.col));
      } else if c == ']' {
        TopFacts(p, s);
        TargetsStepClose(p, s);
      } else {
        TargetsStepPlain(p, c, s);
      }
    }
  }

  lemma {:induction false} ScanTargets(p: seq<char>)
    requires |p| < U32_LIMIT && CommandOnly(p)
    ensures TargetsInv(p, ScanPrefix(p))
    decreases |p|
  {
    if |p| > 0 {
      var q := p[..|p| - 1];
      var c := p[|p| - 1];
      assert q + [c] == p;
      assert CommandOnly(q) by {
        forall k | 0 <= k < |q|
          ensures IsCommand(q[k])
        {
          assert q[k] == p[k];
        }
      }
      ScanTargets(q);
      ScanInv(q);
      TargetsStep(q, c, ScanPrefix(q));
    }
  }

  /**
   * For a balanced source of command characters only, `tokenizer` succeeds
   * with one token per character; every `[` at `i` is `LoopStart(j + 1)`
   * where the `]` at `j` is its partner, and that `]` is `LoopEnd(i + 1)`.
   */
  lemma TokenizeTargets(src: seq<char>)
    requires |src| < U32_LIMIT && CommandOnly(src) && Balanced(src)
    ensures Tokenize(src).Ok?
    ensures |Tokenize(src).value| == |src|
    ensures forall i :: 0 <= i < |src| && src[i] == '[' ==> StartOk(src, Tokenize(src).value, i)
    ensures forall j :: 0 <= j < |src| && src[j] == ']' ==> EndOk(src, Tokenize(src).value, j)
  {
    TokenizeErrorCases(src);
    TokenizeKinds(src);
    ScanTargets(src);
  }
}
