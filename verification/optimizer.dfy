/**
 * `optimize` of src/tokenizer.rs: every maximal run of one counted variant
 * becomes a single token carrying the wrapping sum of the run's counts;
 * `Input`, `Output`, `LoopStart` and `LoopEnd` are copied as they are --
 * their loop targets are NOT renumbered.
 */
module Optimizer {
  import opened Primitives
  import opened Tokens

  lemma SameVariantArith(a: Token, b: Token)
    requires SameVariant(a, b) && IsArith(b)
    ensures IsArith(a) && Width(a) == Width(b)
  {
  }

  /** Length of the leading run of tokens of `t[0]`'s variant. */
  function RunLength(t: seq<Token>): (n: nat)
    requires |t| > 0
    ensures 1 <= n <= |t|
    ensures forall k :: 0 <= k < n ==> SameVariant(t[k], t[0])
    ensures n < |t| ==> !SameVariant(t[n], t[0])
    decreases |t|
  {
    if |t| > 1 && SameVariant(t[1], t[0]) then 1 + RunLength(t[1..]) else 1
  }

  /** The leading run is the longest prefix of one variant. */
  lemma RunLengthIs(t: seq<Token>, n: nat)
    requires 1 <= n <= |t|
    requires forall k :: 0 <= k < n ==> SameVariant(t[k], t[0])
    requires n < |t| ==> !SameVariant(t[n], t[0])
    ensures RunLength(t) == n
  {
  }

  ghost predicate AllArith(run: seq<Token>) {
    forall k :: 0 <= k < |run| ==> IsArith(run[k])
  }

  /** Sum of the counts of a run, as an unbounded integer. */
  function Sum(run: seq<Token>): nat
    requires AllArith(run)
  {
    if |run| == 0 then 0 else Sum(run[..|run| - 1]) + Payload(run[|run| - 1])
  }

  /** A run of one counted variant, folded into one token with the wrapping sum. */
  function Merge(run: seq<Token>): Token
    requires |run| > 0 && IsArith(run[0])
    requires forall k :: 0 <= k < |run| ==> SameVariant(run[k], run[0])
  {
    assert AllArith(run) by {
      forall k | 0 <= k < |run|
        ensures IsArith(run[k])
      {
        SameVariantArith(run[k], run[0]);
      }
    }
    WithPayload(run[0], Sum(run) % Width(run[0]))
  }

  /** How many input tokens the next output token stands for. */
  function Advance(t: seq<Token>): (n: nat)
    requires |t| > 0
    ensures 1 <= n <= |t|
  {
    if IsArith(t[0]) then RunLength(t) else 1
  }

  /** The next output token: the merged leading run, or the leading token as it is. */
  function Head(t: seq<Token>): Token
    requires |t| > 0
  {
    if IsArith(t[0]) then Merge(t[..RunLength(t)]) else t[0]
  }

  /** The result of `optimize`, one output token per run; never longer than its input. */
  function Optimize(t: seq<Token>): (r: seq<Token>)
    ensures |r| <= |t|
    decreases |t|
  {
    if |t| == 0 then [] else [Head(t)] + Optimize(t[Advance(t)..])
  }

  /** The output is empty only for empty input, and starts with the input's first variant. */
  lemma OptimizeHead(t: seq<Token>)
    ensures |Optimize(t)| == 0 <==> |t| == 0
    ensures |t| > 0 ==> SameVariant(Optimize(t)[0], t[0])
  {
  }

  lemma ModAdd(a: int, d: int, w: int)
    requires w == U8_LIMIT || w == USIZE_LIMIT
    ensures (a % w + d) % w == (a + d) % w
  {
    if w == U8_LIMIT {
      ModAdd8(a, d);
    } else {
      ModAdd64(a, d);
    }
  }

  lemma ModAdd8(a: int, d: int)
    ensures (a % U8_LIMIT + d) % U8_LIMIT == (a + d) % U8_LIMIT
  {
  }

  lemma ModAdd64(a: int, d: int)
    ensures (a % USIZE_LIMIT + d) % USIZE_LIMIT == (a + d) % USIZE_LIMIT
  {
  }

  lemma SumSnoc(run: seq<Token>, t: Token)
    requires AllArith(run) && IsArith(t)
    ensures AllArith(run + [t]) && Sum(run + [t]) == Sum(run) + Payload(t)
  {
    assert (run + [t])[..|run|] == run;
  }

  /** What the fold knows after reading `tokens[observer..j]`. */
  ghost predicate FoldInv(tokens: seq<Token>, observer: nat, j: nat, x: nat) {
    && observer < j <= |tokens|
    && IsArith(tokens[observer])
    && (forall k :: observer <= k < j ==> SameVariant(tokens[k], tokens[observer]))
    && AllArith(tokens[observer..j])
    && x == Sum(tokens[observer..j]) % Width(tokens[observer])
  }

  lemma FoldStart(tokens: seq<Token>, observer: nat)
    requires observer < |tokens| && IsArith(tokens[observer])
    ensures FoldInv(tokens, observer, observer + 1, Payload(tokens[observer]))
  {
    assert tokens[observer..observer + 1] == [tokens[observer]];
    assert Sum([tokens[observer]]) == Payload(tokens[observer]) by {
      assert [tokens[observer]][..0] == [];
    }
  }

  lemma FoldNext(tokens: seq<Token>, observer: nat, j: nat, x: nat)
    requires FoldInv(tokens, observer, j, x)
    requires j < |tokens| && SameVariant(tokens[j], tokens[observer])
    ensures IsArith(tokens[j])
    ensures FoldInv(tokens, observer, j + 1, (x + Payload(tokens[j])) % Width(tokens[observer]))
  {
    var w := Width(tokens[observer]);
    SameVariantArith(tokens[j], tokens[observer]);
    SumSnoc(tokens[observer..j], tokens[j]);
    assert tokens[observer..j + 1] == tokens[observer..j] + [tokens[j]];
    ModAdd(Sum(tokens[observer..j]), Payload(tokens[j]), w);
  }

  lemma FoldDone(tokens: seq<Token>, observer: nat, j: nat, x: nat)
    requires FoldInv(tokens, observer, j, x)
    requires j < |tokens| ==> !SameVariant(tokens[j], tokens[observer])
    ensures j == observer + Advance(tokens[observer..])
    ensures Head(tokens[observer..]) == WithPayload(tokens[observer], x)
  {
    var t := tokens[observer..];
    assert forall k :: 0 <= k < j - observer ==> t[k] == tokens[observer + k];
    RunLengthIs(t, j - observer);
    assert tokens[observer..j] == t[..j - observer];
  }

  /**
   * The `_flod_ir!` macro: starting at `observer`, add up the counts of the
   * following tokens of the same variant with wrapping addition, stopping at
   * the first token of another variant.
   */
  method FoldRun(tokens: seq<Token>, observer: nat) returns (j: nat, x: nat)
    requires observer < |tokens| && IsArith(tokens[observer])
    ensures j == observer + Advance(tokens[observer..])
    ensures x < Width(tokens[observer])
    ensures Head(tokens[observer..]) == WithPayload(tokens[observer], x)
  {
    var w := Width(tokens[observer]);
    x := Payload(tokens[observer]);
    j := observer + 1;
    FoldStart(tokens, observer);
    while j < |tokens| && SameVariant(tokens[j], tokens[observer])
      invariant FoldInv(tokens, observer, j, x)
      decreases |tokens| - j
    {
      FoldNext(tokens, observer, j, x);
      x := (x + Payload(tokens[j])) % w;
      j := j + 1;
    }
    FoldDone(tokens, observer, j, x);
  }

  /** `Optimize` on a suffix, split after its first output token. */
  lemma Unfold(buf: seq<Token>, observer: nat, j: nat, m: Token)
    requires observer < |buf|
    requires j == observer + Advance(buf[observer..]) && m == Head(buf[observer..])
    ensures Optimize(buf[observer..]) == [m] + Optimize(buf[j..])
  {
    assert buf[observer..][j - observer..] == buf[j..];
  }

  /**
   * Writing one output token at `writer`, behind the read cursor, leaves the
   * unread part alone and moves that token from the pending result to the
   * written prefix.
   */
  lemma WriteStep(buf: seq<Token>, writer: nat, observer: nat, j: nat, m: Token, whole: seq<Token>)
    requires writer <= observer < j <= |buf|
    requires buf[..writer] + Optimize(buf[observer..]) == whole
    requires Optimize(buf[observer..]) == [m] + Optimize(buf[j..])
    ensures buf[writer := m][..writer + 1] + Optimize(buf[writer := m][j..]) == whole
  {
    var buf' := buf[writer := m];
    assert buf'[..writer + 1] == buf[..writer] + [m];
    assert buf'[j..] == buf[j..];
  }

  /**
   * `optimize` as written: a read cursor `observer` and a write cursor
   * `writer <= observer` compact the vector in place, then it is truncated
   * to `writer`.
   */
  method OptimizeInPlace(tokens: seq<Token>) returns (r: seq<Token>)
    ensures r == Optimize(tokens)
  {
    var buf := tokens;
    var observer := 0;
    var writer := 0;
    var len := |tokens|;
    while observer < len
      invariant writer <= observer <= len == |buf|
      invariant buf[..writer] + Optimize(buf[observer..]) == Optimize(tokens)
      decreases len - observer
    {
      var j, m;
      if IsArith(buf[observer]) {
        var x;
        j, x := FoldRun(buf, observer);
        m := WithPayload(buf[observer], x);
      } else {
        j, m := observer + 1, buf[observer];
        assert buf[observer..][0] == m;
      }
      Unfold(buf, observer, j, m);
      WriteStep(buf, writer, observer, j, m, Optimize(tokens));
      buf := buf[writer := m];
      writer := writer + 1;
      observer := j;
    }
    r := buf[..writer];
    assert buf[observer..] == [];
  }
}
