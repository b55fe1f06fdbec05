/**
 * Which token each character becomes.  The back-patch `ir[org]` uses a
 * character offset as a token index; it hits the right placeholder exactly
 * when no comment precedes the `[`, and then `tokenizer` emits one token
 * per command character, in order, and never panics.
 */
module TokenizerKinds {
  import opened Primitives
  import opened Tokens
  import opened Brackets
  import opened Tokenizer
  import opened TokenizerStack

  /** Token `q` is written as command character `q`, counted tokens count 1. */
  ghost predicate KindsOk(p: seq<char>, ir: seq<Token>)
  {
    && |ir| == |Commands(p)|
    && forall q :: 0 <= q < |ir| ==>
         Symbol(ir[q]) == Commands(p)[q] && (IsArith(ir[q]) ==> Payload(ir[q]) == 1)
  }

  /** Every pending `[` still holds, at its own offset, its `LoopStart(0)` placeholder. */
  ghost predicate PlaceholdersOk(ir: seq<Token>, stk: seq<Pending>)
  {
    forall k :: 0 <= k < |stk| ==> stk[k].org < |ir| && ir[stk[k].org] == LoopStart(0)
  }

  ghost predicate KindsInv(p: seq<char>, s: Scan)
  {
    && !s.Panicked?
    && (s.Scanning? ==> KindsOk(p, s.ir) && PlaceholdersOk(s.ir, s.stk))
  }

  lemma EmitFacts(c: char)
    requires c != '[' && c != ']'
    ensures !IsCommand(c) ==> Emit(c) == []
    ensures IsCommand(c) ==>
      |Emit(c)| == 1 && Symbol(Emit(c)[0]) == c && (IsArith(Emit(c)[0]) ==> Payload(Emit(c)[0]) == 1)
  {
  }

  lemma CommentFreePrefix(p: seq<char>, c: char)
    requires CommentFreeBeforeOpen(p + [c])
    ensures CommentFreeBeforeOpen(p)
  {
    forall i, j | 0 <= i < j < |p| && p[j] == '['
      ensures IsCommand(p[i])
    {
      assert (p + [c])[j] == p[j] && (p + [c])[i] == p[i];
    }
  }

  /** Everything in front of a `[` is commands. */
  lemma CommandOnlyBeforeOpen(p: seq<char>, org: nat)
    requires CommentFreeBeforeOpen(p) && org < |p| && p[org] == '['
    ensures CommandOnly(p[..org])
  {
    forall i | 0 <= i < org
      ensures IsCommand(p[..org][i])
    {
      assert p[..org][i] == p[i];
    }
  }

  /**
   * When only commands precede the `[` at offset `org`, the commands up to it
   * are the characters up to it: command number `org` is that `[`.
   */
  lemma PatchTarget(p: seq<char>, org: nat)
    requires CommentFreeBeforeOpen(p) && org < |p| && p[org] == '['
    ensures org < |Commands(p)| && Commands(p)[org] == '['
    ensures Commands(p)[..org + 1] == p[..org + 1]
  {
    var before := p[..org];
    CommandOnlyBeforeOpen(p, org);
    CommandsOfCommandOnly(before);
    assert p[..org + 1] == before + ['['];
    SnocFacts(before, '[');
    CommandsPrefix(p, org + 1);
  }

  /** One more command character, one more token of its kind. */
  lemma KindsSnoc(p: seq<char>, c: char, ir: seq<Token>, t: Token)
    requires KindsOk(p, ir) && IsCommand(c) && Symbol(t) == c && (IsArith(t) ==> Payload(t) == 1)
    ensures KindsOk(p + [c], ir + [t])
  {
    SnocFacts(p, c);
    var ir' := ir + [t];
    var cs := Commands(p + [c]);
    assert cs == Commands(p) + [c];
    forall q | 0 <= q < |ir'|
      ensures Symbol(ir'[q]) == cs[q] && (IsArith(ir'[q]) ==> Payload(ir'[q]) == 1)
    {
      if q < |ir| {
        assert ir'[q] == ir[q] && cs[q] == Commands(p)[q];
      }
    }
  }

  lemma KindsPlain(p: seq<char>, c: char, s: Scan)
    requires s.Scanning? && c != '[' && c != ']' && KindsOk(p, s.ir) && PlaceholdersOk(s.ir, s.stk)
    ensures KindsOk(p + [c], Plain(s, c).ir) && PlaceholdersOk(Plain(s, c).ir, Plain(s, c).stk)
  {
    EmitFacts(c);
    assert Plain(s, c).ir[..|s.ir|] == s.ir;
    if IsCommand(c) {
      assert Emit(c) == [Emit(c)[0]];
      KindsSnoc(p, c, s.ir, Emit(c)[0]);
    } else {
      SnocFacts(p, c);
      assert Plain(s, c).ir == s.ir;
    }
  }

  /** The new placeholder sits at the `[`'s character offset, because only commands precede it. */
  lemma KindsOpen(p: seq<char>, s: Scan)
    requires s.Scanning? && Inv(p, s) && KindsOk(p, s.ir) && PlaceholdersOk(s.ir, s.stk)
    requires CommentFreeBeforeOpen(p + ['['])
    ensures KindsOk(p + ['['], Open(s).ir) && PlaceholdersOk(Open(s).ir, Open(s).stk)
  {
    KindsSnoc(p, '[', s.ir, LoopStart(0));
    CommandOnlyBeforeOpen(p + ['['], |p|);
    assert (p + ['['])[..|p|] == p;
    CommandsOfCommandOnly(p);
    assert |s.ir| == s.pc;
  }

  /** The patch overwrites the top placeholder only; the ones below it lie further left. */
  lemma KindsClose(p: seq<char>, s: Scan)
    requires s.Scanning? && |p| + 1 < U32_LIMIT && Inv(p, s) && KindsOk(p, s.ir)
    requires PlaceholdersOk(s.ir, s.stk) && CommentFreeBeforeOpen(p)
    ensures KindsInv(p + [']'], Close(s))
  {
    if |s.stk| > 0 {
      var org := s.stk[|s.stk| - 1].org;
      PatchTarget(p, org);
      SnocFacts(p, ']');
      var ir := s.ir + [LoopEnd(org + 1)];
      assert Close(s).ir == ir[org := LoopStart(s.pc + 1)];
      var stk := Close(s).stk;
      forall k | 0 <= k < |stk|
        ensures stk[k].org < |Close(s).ir| && Close(s).ir[stk[k].org] == LoopStart(0)
      {
        assert stk[k] == s.stk[k] && s.stk[k].org < org;
      }
    }
  }

  lemma {:induction false} ScanKinds(p: seq<char>)
    requires |p| < U32_LIMIT && CommentFreeBeforeOpen(p)
    ensures KindsInv(p, ScanPrefix(p))
    decreases |p|
  {
    if |p| > 0 {
      var q := p[..|p| - 1];
      var c := p[|p| - 1];
      assert q + [c] == p;
      CommentFreePrefix(q, c);
      ScanKinds(q);
      ScanInv(q);
      var s := ScanPrefix(q);
      if s.Scanning? {
        if c == '[' {
          assert CommentFreeBeforeOpen(q + ['[']);
          KindsOpen(q, s);
        } else if c == ']' {
          KindsClose(q, s);
        } else {
          KindsPlain(q, c, s);
        }
      }
    }
  }

  /**
   * When no comment precedes a `[`, `tokenizer` does not panic and emits one
   * token per command character, in source order, each counted token with
   * count 1; comments emit nothing.
   */
  lemma TokenizeKinds(src: seq<char>)
    requires |src| < U32_LIMIT && CommentFreeBeforeOpen(src)
    ensures !Tokenize(src).Panic?
    ensures Tokenize(src).Ok? ==> KindsOk(src, Tokenize(src).value)
  {
    ScanKinds(src);
  }

  /**
   * When no comment precedes a `[`, every open `[` still holds its
   * `LoopStart(0)` placeholder in the token list at its character offset, so
   * the next `]`'s write `ir[org]` lands on the innermost one's placeholder.
   */
  lemma PatchHitsPlaceholder(p: seq<char>)
    requires |p| < U32_LIMIT && CommentFreeBeforeOpen(p)
    ensures ScanPrefix(p).Scanning? ==>
      var s := ScanPrefix(p);
      forall k :: 0 <= k < |s.stk| ==>
        && p[s.stk[k].org] == '['
        && s.stk[k].org < |s.ir|
        && s.ir[s.stk[k].org] == LoopStart(0)
  {
    ScanKinds(p);
    ScanInv(p);
  }
}
