/**
 * The invariant of the scanner's bracket stack, proved one character at a
 * time: every pending entry is an unmatched `[` of the text read so far,
 * saved with its line, and the text between consecutive pending `[`s is
 * balanced.  From it follow the error cases of `tokenizer`.
 */
module TokenizerStack {
  import opened Primitives
  import opened Tokens
  import opened Brackets
  import opened Tokenizer

  /** The counters after reading `p`. */
  ghost predicate CountersOk(p: seq<char>, s: Scan)
    requires s.Scanning?
  {
    && s.pc == |p|
    && s.line == 1 + Newlines(p)
    && s.col == 0
    && |s.ir| == |Commands(p)|
  }

  /** Pending offsets lie before `n` and increase from bottom to top. */
  ghost predicate OrgsOk(n: nat, stk: seq<Pending>)
  {
    && (forall k :: 0 <= k < |stk| ==> stk[k].org < n)
    && (forall i, j :: 0 <= i < j < |stk| ==> stk[i].org < stk[j].org)
  }

  /** Each pending entry is a `[` of `p`, saved with its line and column 0. */
  ghost predicate EntriesOk(p: seq<char>, stk: seq<Pending>)
  {
    && OrgsOk(|p|, stk)
    && (forall k :: 0 <= k < |stk| ==>
          && p[stk[k].org] == '['
          && stk[k].line == 1 + Newlines(p[..stk[k].org])
          && stk[k].col == 0)
  }

  /**
   * The pending `[`s are exactly the unmatched ones: `p` never closes more
   * than it opened, its depth is the stack height, and the text before the
   * outermost, between consecutive and after the innermost pending `[` is
   * balanced.
   */
  ghost predicate SegmentsOk(p: seq<char>, stk: seq<Pending>)
    requires OrgsOk(|p|, stk)
  {
    && NeverNegative(p)
    && Depth(p) == |stk|
    && (|stk| == 0 ==> Balanced(p))
    && (|stk| > 0 ==> Balanced(p[..stk[0].org]) && Balanced(p[stk[|stk| - 1].org + 1..]))
    && ChainOk(p, stk)
  }

  /** The text between consecutive pending `[`s is balanced. */
  ghost predicate ChainOk(p: seq<char>, stk: seq<Pending>)
    requires OrgsOk(|p|, stk)
  {
    forall i, j :: 0 <= i && j == i + 1 && j < |stk| ==> Balanced(p[stk[i].org + 1..stk[j].org])
  }

  ghost predicate Inv(p: seq<char>, s: Scan)
  {
    s.Scanning? ==> CountersOk(p, s) && EntriesOk(p, s.stk) && SegmentsOk(p, s.stk)
  }

  lemma SnocFacts(p: seq<char>, c: char)
    ensures (p + [c])[..|p|] == p
    ensures Newlines(p + [c]) == Newlines(p) + (if c == '\n' then 1 else 0)
    ensures Commands(p + [c]) == Commands(p) + (if IsCommand(c) then [c] else [])
    ensures Depth(p + [c]) == Depth(p) + Delta(c)
  {
    assert (p + [c])[..|p|] == p;
  }

  lemma SliceSnoc(p: seq<char>, c: char, a: nat, b: nat)
    requires a <= b <= |p|
    ensures (p + [c])[a..b] == p[a..b]
  {
  }

  lemma SuffixSnoc(p: seq<char>, c: char, a: nat)
    requires a <= |p|
    ensures (p + [c])[a..] == p[a..] + [c]
  {
  }

  lemma EntriesSnoc(p: seq<char>, c: char, stk: seq<Pending>)
    requires EntriesOk(p, stk)
    ensures EntriesOk(p + [c], stk)
  {
    forall k | 0 <= k < |stk|
      ensures Newlines((p + [c])[..stk[k].org]) == Newlines(p[..stk[k].org])
    {
      SliceSnoc(p, c, 0, stk[k].org);
    }
  }

  lemma EntriesPush(p: seq<char>, stk: seq<Pending>, line: int)
    requires EntriesOk(p, stk) && line == 1 + Newlines(p)
    ensures EntriesOk(p + ['['], stk + [Pending(|p|, line, 0)])
  {
    EntriesSnoc(p, '[', stk);
    assert (p + ['['])[..|p|] == p;
  }

  lemma EntriesPop(p: seq<char>, stk: seq<Pending>)
    requires EntriesOk(p, stk) && |stk| > 0
    ensures EntriesOk(p + [']'], stk[..|stk| - 1])
  {
    EntriesSnoc(p, ']', stk);
  }

  /** Appending a character leaves the text between pending `[`s alone. */
  lemma ChainSnoc(p: seq<char>, c: char, stk: seq<Pending>)
    requires OrgsOk(|p|, stk) && ChainOk(p, stk)
    ensures OrgsOk(|p| + 1, stk) && ChainOk(p + [c], stk)
  {
    var p' := p + [c];
    forall i, j | 0 <= i && j == i + 1 && j < |stk|
      ensures Balanced(p'[stk[i].org + 1..stk[j].org])
    {
      SliceSnoc(p, c, stk[i].org + 1, stk[j].org);
    }
  }

  lemma ChainPop(p: seq<char>, stk: seq<Pending>)
    requires OrgsOk(|p|, stk) && ChainOk(p, stk) && |stk| > 0
    ensures OrgsOk(|p|, stk[..|stk| - 1]) && ChainOk(p, stk[..|stk| - 1])
  {
    var stk' := stk[..|stk| - 1];
    forall i, j | 0 <= i && j == i + 1 && j < |stk'|
      ensures Balanced(p[stk'[i].org + 1..stk'[j].org])
    {
      assert stk'[i] == stk[i] && stk'[j] == stk[j];
    }
  }

  lemma ChainPush(p: seq<char>, stk: seq<Pending>, e: Pending)
    requires OrgsOk(|p|, stk) && ChainOk(p, stk) && e.org == |p|
    requires |stk| > 0 ==> Balanced(p[stk[|stk| - 1].org + 1..])
    ensures OrgsOk(|p| + 1, stk + [e]) && ChainOk(p + ['['], stk + [e])
  {
    var p' := p + ['['];
    var stk' := stk + [e];
    ChainSnoc(p, '[', stk);
    forall i, j | 0 <= i && j == i + 1 && j < |stk'|
      ensures Balanced(p'[stk'[i].org + 1..stk'[j].org])
    {
      if j < |stk| {
        assert stk'[i] == stk[i] && stk'[j] == stk[j];
      } else {
        var top := stk[|stk| - 1].org;
        assert stk'[i].org == top && stk'[j].org == |p|;
        SliceSnoc(p, '[', top + 1, |p|);
        assert p[top + 1..|p|] == p[top + 1..];
      }
    }
  }

  lemma SegmentsPlain(p: seq<char>, c: char, stk: seq<Pending>)
    requires OrgsOk(|p|, stk) && SegmentsOk(p, stk) && c != '[' && c != ']'
    ensures OrgsOk(|p| + 1, stk) && SegmentsOk(p + [c], stk)
  {
    NeverNegativeSnoc(p, c);
    ChainSnoc(p, c, stk);
    if |stk| == 0 {
      BalancedSnoc(p, c);
    } else {
      var top := stk[|stk| - 1].org;
      SuffixSnoc(p, c, top + 1);
      BalancedSnoc(p[top + 1..], c);
      SliceSnoc(p, c, 0, stk[0].org);
    }
  }

  lemma SegmentsPush(p: seq<char>, stk: seq<Pending>, e: Pending)
    requires OrgsOk(|p|, stk) && SegmentsOk(p, stk) && e.org == |p|
    ensures OrgsOk(|p| + 1, stk + [e]) && SegmentsOk(p + ['['], stk + [e])
  {
    var p' := p + ['['];
    var stk' := stk + [e];
    NeverNegativeSnoc(p, '[');
    ChainPush(p, stk, e);
    assert p'[|p| + 1..] == [];
    if |stk| == 0 {
      assert p'[..stk'[0].org] == p;
    } else {
      SliceSnoc(p, '[', 0, stk[0].org);
      assert stk'[0] == stk[0];
    }
  }

  /** `p[t]` is the `[` at `t`: split `p` around it. */
  lemma SplitAt(p: seq<char>, u: nat, t: nat)
    requires u <= t < |p| && p[t] == '['
    ensures p[u..] == p[u..t] + ['['] + p[t + 1..]
  {
    assert p[u..] == p[u..t] + [p[t]] + p[t + 1..];
  }

  /** Closing the only pending `[` at `t` balances the whole text. */
  lemma PopOuter(p: seq<char>, t: nat)
    requires t < |p| && p[t] == '[' && Balanced(p[..t]) && Balanced(p[t + 1..])
    ensures Balanced(p + [']'])
  {
    SplitAt(p, 0, t);
    assert p[0..] == p && p[0..t] == p[..t];
    BalancedWrap(p[..t], p[t + 1..]);
  }

  /** Closing the `[` at `t` balances the text after the next pending `[` at `u`. */
  lemma PopInner(p: seq<char>, u: nat, t: nat)
    requires u < t < |p| && p[t] == '[' && Balanced(p[u + 1..t]) && Balanced(p[t + 1..])
    ensures Balanced((p + [']'])[u + 1..])
  {
    SplitAt(p, u + 1, t);
    BalancedWrap(p[u + 1..t], p[t + 1..]);
    SuffixSnoc(p, ']', u + 1);
  }

  lemma SegmentsPop(p: seq<char>, stk: seq<Pending>)
    requires OrgsOk(|p|, stk) && SegmentsOk(p, stk) && |stk| > 0
    requires p[stk[|stk| - 1].org] == '['
    ensures OrgsOk(|p| + 1, stk[..|stk| - 1]) && SegmentsOk(p + [']'], stk[..|stk| - 1])
  {
    var n := |stk|;
    var t := stk[n - 1].org;
    var stk' := stk[..n - 1];
    NeverNegativeSnoc(p, ']');
    ChainPop(p, stk);
    ChainSnoc(p, ']', stk');
    if n == 1 {
      PopOuter(p, t);
    } else {
      var u := stk[n - 2].org;
      assert stk'[n - 2] == stk[n - 2] && stk'[0] == stk[0];
      assert Balanced(p[u + 1..t]);
      PopInner(p, u, t);
      SliceSnoc(p, ']', 0, stk[0].org);
    }
  }

  lemma EmitLength(c: char)
    requires c != '[' && c != ']'
    ensures |Emit(c)| == if IsCommand(c) then 1 else 0
  {
  }

  lemma FeedOpenKeeps(p: seq<char>, s: Scan)
    requires s.Scanning? && |p| + 1 < U32_LIMIT && Inv(p, s)
    ensures Inv(p + ['['], Open(s))
  {
    var e := Pending(|p|, s.line, 0);
    SnocFacts(p, '[');
    assert Open(s).stk == s.stk + [e];
    SegmentsPush(p, s.stk, e);
    EntriesPush(p, s.stk, s.line);
  }

  lemma FeedCloseKeeps(p: seq<char>, s: Scan)
    requires s.Scanning? && |p| + 1 < U32_LIMIT && Inv(p, s)
    ensures Inv(p + [']'], Close(s))
  {
    var s' := Close(s);
    if s'.Scanning? {
      SnocFacts(p, ']');
      assert s'.stk == s.stk[..|s.stk| - 1];
      assert |s'.ir| == |s.ir| + 1;
      SegmentsPop(p, s.stk);
      EntriesPop(p, s.stk);
    }
  }

  lemma FeedPlainKeeps(p: seq<char>, c: char, s: Scan)
    requires s.Scanning? && |p| + 1 < U32_LIMIT && Inv(p, s) && c != '[' && c != ']'
    ensures Inv(p + [c], Plain(s, c))
  {
    SnocFacts(p, c);
    EmitLength(c);
    SegmentsPlain(p, c, s.stk);
    EntriesSnoc(p, c, s.stk);
  }

  lemma FeedKeeps(p: seq<char>, c: char, s: Scan)
    requires |p| + 1 < U32_LIMIT && Inv(p, s)
    requires s.Scanning? ==> s.pc + 1 < U32_LIMIT
    requires s.Scanning? ==> forall k :: 0 <= k < |s.stk| ==> s.stk[k].org < s.pc
    ensures Inv(p + [c], Feed(s, c))
  {
    if s.Scanning? {
      if c == '[' {
        FeedOpenKeeps(p, s);
      } else if c == ']' {
        FeedCloseKeeps(p, s);
      } else {
        FeedPlainKeeps(p, c, s);
      }
    }
  }

  /** The scanner invariant holds after every prefix. */
  lemma {:induction false} ScanInv(p: seq<char>)
    requires |p| < U32_LIMIT
    ensures Inv(p, ScanPrefix(p))
    decreases |p|
  {
    if |p| > 0 {
      var q := p[..|p| - 1];
      var c := p[|p| - 1];
      var s := ScanPrefix(q);
      ScanInv(q);
      FeedKeeps(q, c, s);
      assert q + [c] == p;
      assert ScanPrefix(p) == Feed(s, c);
    }
  }
}

/**
 * What `tokenizer` reports, in terms of the bracket structure of the
 * source: success only for balanced sources, `UncloseLeftBracket` at the
 * first `]` without a partner, `UncloseRightBracket` at the innermost `[`
 * left open, and always column 0.
 */
module TokenizerErrors {
  import opened Primitives
  import opened Tokens
  import opened Brackets
  import opened Tokenizer
  import opened TokenizerStack

  /** The `]` at `j` is the first one without a partner. */
  ghost predicate FirstUnmatchedClose(s: seq<char>, j: int) {
    0 <= j < |s| && s[j] == ']' && Balanced(s[..j])
  }

  /** The `[` at `i` is open and everything after it is balanced: the innermost open `[`. */
  ghost predicate InnermostOpen(s: seq<char>, i: int) {
    0 <= i < |s| && s[i] == '[' && Balanced(s[i + 1..])
  }

  /** A `]` without a partner makes some prefix negative. */
  lemma UnmatchedCloseIsNegative(s: seq<char>, j: int)
    requires FirstUnmatchedClose(s, j)
    ensures !NeverNegative(s)
  {
    assert s[..j + 1][..j] == s[..j];
    if NeverNegative(s) {
      NeverNegativePrefix(s, j + 1);
    }
  }

  /** A `]` met with an empty stack is the first unmatched one. */
  lemma FailAtClose(q: seq<char>)
    requires |q| < U32_LIMIT && ScanPrefix(q).Scanning? && |ScanPrefix(q).stk| == 0
    ensures ScanPrefix(q).line == 1 + Newlines(q) && ScanPrefix(q).col == 0
    ensures FirstUnmatchedClose(q + [']'], |q|) && (q + [']'])[..|q|] == q
  {
    ScanInv(q);
    assert (q + [']'])[..|q|] == q;
  }

  /** An unmatched `]` stays the first one when text is appended. */
  lemma FailCarry(q: seq<char>, c: char, j: int)
    requires FirstUnmatchedClose(q, j)
    ensures FirstUnmatchedClose(q + [c], j) && (q + [c])[..j] == q[..j]
  {
    assert (q + [c])[..j] == q[..j];
  }

  /** The scan stops with an error only at the first unmatched `]`. */
  lemma {:induction false} ScanFailure(p: seq<char>)
    requires |p| < U32_LIMIT
    ensures ScanPrefix(p).Failed? ==>
      var e := ScanPrefix(p).error;
      && e.kind == UncloseLeftBracket
      && e.col == 0
      && exists j :: FirstUnmatchedClose(p, j) && e.line == 1 + Newlines(p[..j])
    decreases |p|
  {
    if |p| > 0 {
      var q := p[..|p| - 1];
      var c := p[|p| - 1];
      ScanFailure(q);
      var s := ScanPrefix(q);
      assert q + [c] == p;
      assert ScanPrefix(p) == Feed(s, c);
      if s.Failed? {
        assert ScanPrefix(p) == s;
        var j :| FirstUnmatchedClose(q, j) && s.error.line == 1 + Newlines(q[..j]);
        FailCarry(q, c, j);
      } else if s.Scanning? && ScanPrefix(p).Failed? {
        assert c == ']' && |s.stk| == 0;
        assert ScanPrefix(p).error == TokenizerError(s.line, s.col, UncloseLeftBracket);
        FailAtClose(q);
      }
    }
  }

  /**
   * Error cases of `tokenizer`, each with the position it reports.  The
   * reported column is always 0, and the line of an unclosed `[` is that of
   * the innermost open one.
   */
  lemma TokenizeErrors(src: seq<char>)
    requires |src| < U32_LIMIT
    ensures Tokenize(src).Ok? ==> Balanced(src) && |Tokenize(src).value| == |Commands(src)|
    ensures Tokenize(src).Err? && Tokenize(src).error.kind == UncloseLeftBracket ==>
      var e := Tokenize(src).error;
      e.col == 0 && exists j :: FirstUnmatchedClose(src, j) && e.line == 1 + Newlines(src[..j])
    ensures Tokenize(src).Err? && Tokenize(src).error.kind == UncloseRightBracket ==>
      var e := Tokenize(src).error;
      && NeverNegative(src) && Depth(src) > 0
      && e.col == 0
      && exists i :: InnermostOpen(src, i) && e.line == 1 + Newlines(src[..i])
  {
    ScanInv(src);
    ScanFailure(src);
    var s := ScanPrefix(src);
    if s.Scanning? && |s.stk| > 0 {
      var top := s.stk[|s.stk| - 1];
      assert InnermostOpen(src, top.org);
    }
  }

  /** Which error a source gets, decided by its brackets alone (a panic aside). */
  lemma TokenizeErrorCases(src: seq<char>)
    requires |src| < U32_LIMIT
    ensures !NeverNegative(src) ==>
      Tokenize(src).Panic? || (Tokenize(src).Err? && Tokenize(src).error.kind == UncloseLeftBracket)
    ensures NeverNegative(src) && Depth(src) > 0 ==>
      Tokenize(src).Panic? || (Tokenize(src).Err? && Tokenize(src).error.kind == UncloseRightBracket)
    ensures Balanced(src) ==> Tokenize(src).Panic? || Tokenize(src).Ok?
  {
    ScanInv(src);
    ScanFailure(src);
    var s := ScanPrefix(src);
    if s.Failed? {
      var j :| FirstUnmatchedClose(src, j);
      UnmatchedCloseIsNegative(src, j);
    }
  }
}
