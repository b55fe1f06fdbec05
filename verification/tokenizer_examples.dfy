/**
 * `tokenizer` and `optimize` on the inputs of the repository's own test
 * `test_compile` (src/tokenizer.rs), and on a few inputs that show what the
 * character-offset loop targets and the error positions come to.
 *
 * The proofs go one character at a time through `FeedAll` rather than
 * through `ScanPrefix`; the scanner state after each character is stated by
 * a lemma of its own, so that each proof obligation evaluates one `Feed`.
 */
module TokenizerExamples {
  import opened Primitives
  import opened Tokens
  import opened Tokenizer
  import opened Optimizer
  import opened OptimizerProofs

  /** The scan of a whole source, as the front-to-back loop. */
  lemma Scans(src: seq<char>)
    requires |src| < U32_LIMIT
    ensures ScanPrefix(src) == FeedAll(Initial, src)
  {
    ScanThenFeed([], src);
    assert [] + src == src;
  }

  /** One character of a concrete source, read by a concrete scanner. */
  lemma FeedAt(s: Scan, src: seq<char>, i: nat, c: char, s': Scan)
    requires i < |src| && src[i] == c && (s.Scanning? ==> s.pc + |src| - i < U32_LIMIT)
    requires s.Scanning? ==> forall k :: 0 <= k < |s.stk| ==> s.stk[k].org < s.pc
    requires Feed(s, c) == s'
    ensures FeedAll(s, src[i..]) == FeedAll(s', src[i + 1..])
  {
    assert src[i..][0] == src[i] && src[i..][1..] == src[i + 1..];
  }

  /** The scanner state after each character of the source of `LoopProgram`. */
  lemma LoopProgramAt0()
    ensures Feed(Initial, '+')
      == Scanning([IncrementData(1)], [], 1, 0, 1)
  {
  }

  lemma LoopProgramAt1()
    ensures Feed(Scanning([IncrementData(1)], [], 1, 0, 1), '[')
      == Scanning([IncrementData(1), LoopStart(0)], [Pending(1, 1, 0)], 1, 0, 2)
  {
  }

  lemma LoopProgramAt2()
    ensures Feed(Scanning([IncrementData(1), LoopStart(0)], [Pending(1, 1, 0)], 1, 0, 2), ',')
      == Scanning([IncrementData(1), LoopStart(0), Input], [Pending(1, 1, 0)], 1, 0, 3)
  {
  }

  lemma LoopProgramAt3()
    ensures Feed(Scanning([IncrementData(1), LoopStart(0), Input], [Pending(1, 1, 0)], 1, 0, 3), '.')
      == Scanning([IncrementData(1), LoopStart(0), Input, Output], [Pending(1, 1, 0)], 1, 0, 4)
  {
  }

  lemma LoopProgramAt4()
    ensures Feed(Scanning([IncrementData(1), LoopStart(0), Input, Output], [Pending(1, 1, 0)], 1, 0, 4), ']')
      == Scanning([IncrementData(1), LoopStart(5), Input, Output, LoopEnd(2)], [], 1, 0, 5)
  {
  }

  /** `+[,.]`: one token per command; `[` jumps past its `]`, `]` back to its `[`. */
  lemma LoopProgram()
    ensures Tokenize("+[,.]") == Ok([IncrementData(1), LoopStart(5), Input, Output, LoopEnd(2)])
  {
    var src := "+[,.]";
    LoopProgramAt0();
    LoopProgramAt1();
    LoopProgramAt2();
    LoopProgramAt3();
    LoopProgramAt4();
    Scans(src);
    FeedAt(Initial, src, 0, '+',
      Scanning([IncrementData(1)], [], 1, 0, 1));
    FeedAt(Scanning([IncrementData(1)], [], 1, 0, 1), src, 1, '[',
      Scanning([IncrementData(1), LoopStart(0)], [Pending(1, 1, 0)], 1, 0, 2));
    FeedAt(Scanning([IncrementData(1), LoopStart(0)], [Pending(1, 1, 0)], 1, 0, 2), src, 2, ',',
      Scanning([IncrementData(1), LoopStart(0), Input], [Pending(1, 1, 0)], 1, 0, 3));
    FeedAt(Scanning([IncrementData(1), LoopStart(0), Input], [Pending(1, 1, 0)], 1, 0, 3), src, 3, '.',
      Scanning([IncrementData(1), LoopStart(0), Input, Output], [Pending(1, 1, 0)], 1, 0, 4));
    FeedAt(Scanning([IncrementData(1), LoopStart(0), Input, Output], [Pending(1, 1, 0)], 1, 0, 4), src, 4, ']',
      Scanning([IncrementData(1), LoopStart(5), Input, Output, LoopEnd(2)], [], 1, 0, 5));
  }

  /** The scanner state after each character of the source of `UnopenedClose`. */
  lemma UnopenedCloseAt0()
    ensures Feed(Initial, ']')
      == Failed(TokenizerError(1, 0, UncloseLeftBracket))
  {
  }

  /** `]` with nothing open: `UncloseLeftBracket` on line 1. */
  lemma UnopenedClose()
    ensures Tokenize("]") == Err(TokenizerError(1, 0, UncloseLeftBracket))
  {
    var src := "]";
    UnopenedCloseAt0();
    Scans(src);
    FeedAt(Initial, src, 0, ']',
      Failed(TokenizerError(1, 0, UncloseLeftBracket)));
  }

  /** The scanner state after each character of the source of `UnclosedOpen`. */
  lemma UnclosedOpenAt0()
    ensures Feed(Initial, '[')
      == Scanning([LoopStart(0)], [Pending(0, 1, 0)], 1, 0, 1)
  {
  }

  /** `[` never closed: `UncloseRightBracket` on line 1. */
  lemma UnclosedOpen()
    ensures Tokenize("[") == Err(TokenizerError(1, 0, UncloseRightBracket))
  {
    var src := "[";
    UnclosedOpenAt0();
    Scans(src);
    FeedAt(Initial, src, 0, '[',
      Scanning([LoopStart(0)], [Pending(0, 1, 0)], 1, 0, 1));
  }

  /** The scanner state after each character of the source of `InnermostLine`. */
  lemma InnermostLineAt0()
    ensures Feed(Initial, '[')
      == Scanning([LoopStart(0)], [Pending(0, 1, 0)], 1, 0, 1)
  {
  }

  lemma InnermostLineAt1()
    ensures Feed(Scanning([LoopStart(0)], [Pending(0, 1, 0)], 1, 0, 1), '\n')
      == Scanning([LoopStart(0)], [Pending(0, 1, 0)], 2, 0, 2)
  {
  }

  lemma InnermostLineAt2()
    ensures Feed(Scanning([LoopStart(0)], [Pending(0, 1, 0)], 2, 0, 2), '[')
      == Scanning([LoopStart(0), LoopStart(0)], [Pending(0, 1, 0), Pending(2, 2, 0)], 2, 0, 3)
  {
  }

  /** Two `[` left open on lines 1 and 2: the error names line 2, the innermost. */
  lemma InnermostLine()
    ensures Tokenize("[\n[") == Err(TokenizerError(2, 0, UncloseRightBracket))
  {
    var src := "[\n[";
    InnermostLineAt0();
    InnermostLineAt1();
    InnermostLineAt2();
    Scans(src);
    FeedAt(Initial, src, 0, '[',
      Scanning([LoopStart(0)], [Pending(0, 1, 0)], 1, 0, 1));
    FeedAt(Scanning([LoopStart(0)], [Pending(0, 1, 0)], 1, 0, 1), src, 1, '\n',
      Scanning([LoopStart(0)], [Pending(0, 1, 0)], 2, 0, 2));
    FeedAt(Scanning([LoopStart(0)], [Pending(0, 1, 0)], 2, 0, 2), src, 2, '[',
      Scanning([LoopStart(0), LoopStart(0)], [Pending(0, 1, 0), Pending(2, 2, 0)], 2, 0, 3));
  }

  /** The scanner state after each character of the source of `CommentBeforeOpen`. */
  lemma CommentBeforeOpenAt0()
    ensures Feed(Initial, 'a')
      == Scanning([], [], 1, 0, 1)
  {
  }

  lemma CommentBeforeOpenAt1()
    ensures Feed(Scanning([], [], 1, 0, 1), '[')
      == Scanning([LoopStart(0)], [Pending(1, 1, 0)], 1, 0, 2)
  {
  }

  lemma CommentBeforeOpenAt2()
    ensures Feed(Scanning([LoopStart(0)], [Pending(1, 1, 0)], 1, 0, 2), ']')
      == Scanning([LoopStart(0), LoopStart(3)], [], 1, 0, 3)
  {
  }

  /**
   * A comment before `[`: the `[` is character 1 but token 0, so the patch
   * at index 1 overwrites the `]` token and the program has no `LoopEnd`.
   */
  lemma CommentBeforeOpen()
    ensures Tokenize("a[]") == Ok([LoopStart(0), LoopStart(3)])
  {
    var src := "a[]";
    CommentBeforeOpenAt0();
    CommentBeforeOpenAt1();
    CommentBeforeOpenAt2();
    Scans(src);
    FeedAt(Initial, src, 0, 'a',
      Scanning([], [], 1, 0, 1));
    FeedAt(Scanning([], [], 1, 0, 1), src, 1, '[',
      Scanning([LoopStart(0)], [Pending(1, 1, 0)], 1, 0, 2));
    FeedAt(Scanning([LoopStart(0)], [Pending(1, 1, 0)], 1, 0, 2), src, 2, ']',
      Scanning([LoopStart(0), LoopStart(3)], [], 1, 0, 3));
  }

  /** The scanner state after each character of the source of `PatchOutOfRange`. */
  lemma PatchOutOfRangeAt0()
    ensures Feed(Initial, 'a')
      == Scanning([], [], 1, 0, 1)
  {
  }

  lemma PatchOutOfRangeAt1()
    ensures Feed(Scanning([], [], 1, 0, 1), 'b')
      == Scanning([], [], 1, 0, 2)
  {
  }

  lemma PatchOutOfRangeAt2()
    ensures Feed(Scanning([], [], 1, 0, 2), '[')
      == Scanning([LoopStart(0)], [Pending(2, 1, 0)], 1, 0, 3)
  {
  }

  lemma PatchOutOfRangeAt3()
    ensures Feed(Scanning([LoopStart(0)], [Pending(2, 1, 0)], 1, 0, 3), ']')
      == Panicked(IndexOutOfBounds(2, 2))
  {
  }

  /** Two comments before `[`: the patch index 2 is past the two tokens, a panic. */
  lemma PatchOutOfRange()
    ensures Tokenize("ab[]") == Panic(IndexOutOfBounds(2, 2))
  {
    var src := "ab[]";
    PatchOutOfRangeAt0();
    PatchOutOfRangeAt1();
    PatchOutOfRangeAt2();
    PatchOutOfRangeAt3();
    Scans(src);
    FeedAt(Initial, src, 0, 'a',
      Scanning([], [], 1, 0, 1));
    FeedAt(Scanning([], [], 1, 0, 1), src, 1, 'b',
      Scanning([], [], 1, 0, 2));
    FeedAt(Scanning([], [], 1, 0, 2), src, 2, '[',
      Scanning([LoopStart(0)], [Pending(2, 1, 0)], 1, 0, 3));
    FeedAt(Scanning([LoopStart(0)], [Pending(2, 1, 0)], 1, 0, 3), src, 3, ']',
      Panicked(IndexOutOfBounds(2, 2)));
  }

  /** The scanner state after each character of the source of `RepeatedInc`. */
  lemma RepeatedIncAt0()
    ensures Feed(Initial, '[')
      == Scanning([LoopStart(0)], [Pending(0, 1, 0)], 1, 0, 1)
  {
  }

  lemma RepeatedIncAt1()
    ensures Feed(Scanning([LoopStart(0)], [Pending(0, 1, 0)], 1, 0, 1), '+')
      == Scanning([LoopStart(0), IncrementData(1)], [Pending(0, 1, 0)], 1, 0, 2)
  {
  }

  lemma RepeatedIncAt2()
    ensures Feed(Scanning([LoopStart(0), IncrementData(1)], [Pending(0, 1, 0)], 1, 0, 2), '+')
      == Scanning([LoopStart(0), IncrementData(1), IncrementData(1)], [Pending(0, 1, 0)], 1, 0, 3)
  {
  }

  lemma RepeatedIncAt3()
    ensures Feed(Scanning([LoopStart(0), IncrementData(1), IncrementData(1)], [Pending(0, 1, 0)], 1, 0, 3), '+')
      == Scanning([LoopStart(0), IncrementData(1), IncrementData(1), IncrementData(1)], [Pending(0, 1, 0)], 1, 0, 4)
  {
  }

  lemma RepeatedIncAt4()
    ensures Feed(Scanning([LoopStart(0), IncrementData(1), IncrementData(1), IncrementData(1)], [Pending(0, 1, 0)], 1, 0, 4), '+')
      == Scanning([LoopStart(0), IncrementData(1), IncrementData(1), IncrementData(1), IncrementData(1)], [Pending(0, 1, 0)], 1, 0, 5)
  {
  }

  lemma RepeatedIncAt5()
    ensures Feed(Scanning([LoopStart(0), IncrementData(1), IncrementData(1), IncrementData(1), IncrementData(1)], [Pending(0, 1, 0)], 1, 0, 5), '+')
      == Scanning([LoopStart(0), IncrementData(1), IncrementData(1), IncrementData(1), IncrementData(1), IncrementData(1)], [Pending(0, 1, 0)], 1, 0, 6)
  {
  }

  lemma RepeatedIncAt6()
    ensures Feed(Scanning([LoopStart(0), IncrementData(1), IncrementData(1), IncrementData(1), IncrementData(1), IncrementData(1)], [Pending(0, 1, 0)], 1, 0, 6), '+')
      == Scanning([LoopStart(0), IncrementData(1), IncrementData(1), IncrementData(1), IncrementData(1), IncrementData(1), IncrementData(1)], [Pending(0, 1, 0)], 1, 0, 7)
  {
  }

  lemma RepeatedIncAt7()
    ensures Feed(Scanning([LoopStart(0), IncrementData(1), IncrementData(1), IncrementData(1), IncrementData(1), IncrementData(1), IncrementData(1)], [Pending(0, 1, 0)], 1, 0, 7), ']')
      == Scanning([LoopStart(8), IncrementData(1), IncrementData(1), IncrementData(1), IncrementData(1), IncrementData(1), IncrementData(1), LoopEnd(1)], [], 1, 0, 8)
  {
  }

  /** `[++++++]` is tokenized one token per command. */
  lemma RepeatedIncTokens()
    ensures Tokenize("[++++++]") == Ok([LoopStart(8), IncrementData(1), IncrementData(1), IncrementData(1), IncrementData(1), IncrementData(1), IncrementData(1), LoopEnd(1)])
  {
    var src := "[++++++]";
    RepeatedIncAt0();
    RepeatedIncAt1();
    RepeatedIncAt2();
    RepeatedIncAt3();
    RepeatedIncAt4();
    RepeatedIncAt5();
    RepeatedIncAt6();
    RepeatedIncAt7();
    Scans(src);
    FeedAt(Initial, src, 0, '[',
      Scanning([LoopStart(0)], [Pending(0, 1, 0)], 1, 0, 1));
    FeedAt(Scanning([LoopStart(0)], [Pending(0, 1, 0)], 1, 0, 1), src, 1, '+',
      Scanning([LoopStart(0), IncrementData(1)], [Pending(0, 1, 0)], 1, 0, 2));
    FeedAt(Scanning([LoopStart(0), IncrementData(1)], [Pending(0, 1, 0)], 1, 0, 2), src, 2, '+',
      Scanning([LoopStart(0), IncrementData(1), IncrementData(1)], [Pending(0, 1, 0)], 1, 0, 3));
    FeedAt(Scanning([LoopStart(0), IncrementData(1), IncrementData(1)], [Pending(0, 1, 0)], 1, 0, 3), src, 3, '+',
      Scanning([LoopStart(0), IncrementData(1), IncrementData(1), IncrementData(1)], [Pending(0, 1, 0)], 1, 0, 4));
    FeedAt(Scanning([LoopStart(0), IncrementData(1), IncrementData(1), IncrementData(1)], [Pending(0, 1, 0)], 1, 0, 4), src, 4, '+',
      Scanning([LoopStart(0), IncrementData(1), IncrementData(1), IncrementData(1), IncrementData(1)], [Pending(0, 1, 0)], 1, 0, 5));
    FeedAt(Scanning([LoopStart(0), IncrementData(1), IncrementData(1), IncrementData(1), IncrementData(1)], [Pending(0, 1, 0)], 1, 0, 5), src, 5, '+',
      Scanning([LoopStart(0), IncrementData(1), IncrementData(1), IncrementData(1), IncrementData(1), IncrementData(1)], [Pending(0, 1, 0)], 1, 0, 6));
    FeedAt(Scanning([LoopStart(0), IncrementData(1), IncrementData(1), IncrementData(1), IncrementData(1), IncrementData(1)], [Pending(0, 1, 0)], 1, 0, 6), src, 6, '+',
      Scanning([LoopStart(0), IncrementData(1), IncrementData(1), IncrementData(1), IncrementData(1), IncrementData(1), IncrementData(1)], [Pending(0, 1, 0)], 1, 0, 7));
    FeedAt(Scanning([LoopStart(0), IncrementData(1), IncrementData(1), IncrementData(1), IncrementData(1), IncrementData(1), IncrementData(1)], [Pending(0, 1, 0)], 1, 0, 7), src, 7, ']',
      Scanning([LoopStart(8), IncrementData(1), IncrementData(1), IncrementData(1), IncrementData(1), IncrementData(1), IncrementData(1), LoopEnd(1)], [], 1, 0, 8));
  }

  /** The six `IncrementData(1)` tokens of `[++++++]` fold into `IncrementData(6)`. */
  lemma SixIncrementsFold()
    ensures Optimize([IncrementData(1), IncrementData(1), IncrementData(1), IncrementData(1), IncrementData(1), IncrementData(1), LoopEnd(1)]) == [IncrementData(6), LoopEnd(1)]
  {
    var u: seq<Token> := [IncrementData(1), IncrementData(1), IncrementData(1), IncrementData(1), IncrementData(1), IncrementData(1), LoopEnd(1)];
    RunLengthIs(u, 6);
    SumOfOnes(u[..6]);
    assert u[6..] == [LoopEnd(1)];
  }

  /** Optimizing the tokens of `[++++++]` keeps the loop tokens and folds the six increments. */
  lemma RepeatedIncFolds()
    ensures Optimize([LoopStart(8), IncrementData(1), IncrementData(1), IncrementData(1), IncrementData(1), IncrementData(1), IncrementData(1), LoopEnd(1)]) == [LoopStart(8), IncrementData(6), LoopEnd(1)]
  {
    var t: seq<Token> := [LoopStart(8), IncrementData(1), IncrementData(1), IncrementData(1), IncrementData(1), IncrementData(1), IncrementData(1), LoopEnd(1)];
    SixIncrementsFold();
    assert t[1..] == [IncrementData(1), IncrementData(1), IncrementData(1), IncrementData(1), IncrementData(1), IncrementData(1), LoopEnd(1)];
  }

  /**
   * The repository's `test_compile`: `[++++++]` tokenized and optimized is
   * `LoopStart(8), IncrementData(6), LoopEnd(1)` -- the loop targets are the
   * character offsets of the source, not positions in the optimized program.
   */
  lemma RepeatedInc()
    ensures Tokenize("[++++++]").Ok?
    ensures Optimize(Tokenize("[++++++]").value) == [LoopStart(8), IncrementData(6), LoopEnd(1)]
  {
    var src := "[++++++]";
    RepeatedIncTokens();
    RepeatedIncFolds();
  }

  /** The scanner state after each character of the source of `ClearTwice`. */
  lemma ClearTwiceAt0()
    ensures Feed(Initial, '+')
      == Scanning([IncrementData(1)], [], 1, 0, 1)
  {
  }

  lemma ClearTwiceAt1()
    ensures Feed(Scanning([IncrementData(1)], [], 1, 0, 1), '+')
      == Scanning([IncrementData(1), IncrementData(1)], [], 1, 0, 2)
  {
  }

  lemma ClearTwiceAt2()
    ensures Feed(Scanning([IncrementData(1), IncrementData(1)], [], 1, 0, 2), '[')
      == Scanning([IncrementData(1), IncrementData(1), LoopStart(0)], [Pending(2, 1, 0)], 1, 0, 3)
  {
  }

  lemma ClearTwiceAt3()
    ensures Feed(Scanning([IncrementData(1), IncrementData(1), LoopStart(0)], [Pending(2, 1, 0)], 1, 0, 3), '-')
      == Scanning([IncrementData(1), IncrementData(1), LoopStart(0), DecrementData(1)], [Pending(2, 1, 0)], 1, 0, 4)
  {
  }

  lemma ClearTwiceAt4()
    ensures Feed(Scanning([IncrementData(1), IncrementData(1), LoopStart(0), DecrementData(1)], [Pending(2, 1, 0)], 1, 0, 4), ']')
      == Scanning([IncrementData(1), IncrementData(1), LoopStart(5), DecrementData(1), LoopEnd(3)], [], 1, 0, 5)
  {
  }

  /** `++[-]`: the loop targets are the character offsets 5 and 3. */
  lemma ClearTwiceTokens()
    ensures Tokenize("++[-]") == Ok([IncrementData(1), IncrementData(1), LoopStart(5), DecrementData(1), LoopEnd(3)])
  {
    var src := "++[-]";
    ClearTwiceAt0();
    ClearTwiceAt1();
    ClearTwiceAt2();
    ClearTwiceAt3();
    ClearTwiceAt4();
    Scans(src);
    FeedAt(Initial, src, 0, '+',
      Scanning([IncrementData(1)], [], 1, 0, 1));
    FeedAt(Scanning([IncrementData(1)], [], 1, 0, 1), src, 1, '+',
      Scanning([IncrementData(1), IncrementData(1)], [], 1, 0, 2));
    FeedAt(Scanning([IncrementData(1), IncrementData(1)], [], 1, 0, 2), src, 2, '[',
      Scanning([IncrementData(1), IncrementData(1), LoopStart(0)], [Pending(2, 1, 0)], 1, 0, 3));
    FeedAt(Scanning([IncrementData(1), IncrementData(1), LoopStart(0)], [Pending(2, 1, 0)], 1, 0, 3), src, 3, '-',
      Scanning([IncrementData(1), IncrementData(1), LoopStart(0), DecrementData(1)], [Pending(2, 1, 0)], 1, 0, 4));
    FeedAt(Scanning([IncrementData(1), IncrementData(1), LoopStart(0), DecrementData(1)], [Pending(2, 1, 0)], 1, 0, 4), src, 4, ']',
      Scanning([IncrementData(1), IncrementData(1), LoopStart(5), DecrementData(1), LoopEnd(3)], [], 1, 0, 5));
  }

  /**
   * Folding `++` into one token shifts every later instruction down by one,
   * but the copied targets 5 and 3 stay.
   */
  lemma ClearTwiceFolds()
    ensures Optimize([IncrementData(1), IncrementData(1), LoopStart(5), DecrementData(1), LoopEnd(3)]) == [IncrementData(2), LoopStart(5), DecrementData(1), LoopEnd(3)]
  {
    var t: seq<Token> := [IncrementData(1), IncrementData(1), LoopStart(5), DecrementData(1), LoopEnd(3)];
    RunLengthIs(t, 2);
    SumOfOnes(t[..2]);
    assert Head(t) == IncrementData(2);
    var u := t[2..];
    assert u == [LoopStart(5), DecrementData(1), LoopEnd(3)];
    assert Optimize(u) == [LoopStart(5)] + Optimize(u[1..]);
    assert Optimize(u[1..]) == [DecrementData(1)] + Optimize(u[2..]);
  }
}
