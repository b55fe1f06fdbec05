/**
 * Reference definitions about source text that the tokenizer's results are
 * stated against: bracket depth and balance, matching bracket pairs, line
 * numbers and the command characters of a source.  They are written as
 * left folds, one character at a time, like the scan they describe.
 */
module Brackets {
  import opened Tokens

  function Delta(c: char): int {
    if c == '[' then 1 else if c == ']' then -1 else 0
  }

  /** Number of `[` minus number of `]`. */
  function Depth(s: seq<char>): int {
    if |s| == 0 then 0 else Depth(s[..|s| - 1]) + Delta(s[|s| - 1])
  }

  /** No prefix closes more brackets than it opens. */
  ghost predicate NeverNegative(s: seq<char>) {
    Depth(s) >= 0 && (|s| == 0 || NeverNegative(s[..|s| - 1]))
  }

  ghost predicate Balanced(s: seq<char>) {
    Depth(s) == 0 && NeverNegative(s)
  }

  /** The `[` at `i` and the `]` at `j` enclose a balanced text: they are a pair. */
  ghost predicate Matches(s: seq<char>, i: int, j: int) {
    0 <= i < j < |s| && s[i] == '[' && s[j] == ']' && Balanced(s[i + 1..j])
  }

  function Newlines(s: seq<char>): nat {
    if |s| == 0 then 0 else Newlines(s[..|s| - 1]) + (if s[|s| - 1] == '\n' then 1 else 0)
  }

  /** The command characters of `s`, in order; comments dropped. */
  function Commands(s: seq<char>): seq<char> {
    if |s| == 0 then [] else Commands(s[..|s| - 1]) + (if IsCommand(s[|s| - 1]) then [s[|s| - 1]] else [])
  }

  predicate CommandOnly(s: seq<char>) {
    forall k :: 0 <= k < |s| ==> IsCommand(s[k])
  }

  /** Every character in front of every `[` is a command character. */
  predicate CommentFreeBeforeOpen(s: seq<char>) {
    forall i, j :: 0 <= i < j < |s| && s[j] == '[' ==> IsCommand(s[i])
  }

  lemma {:induction false} DepthAppend(a: seq<char>, b: seq<char>)
    ensures Depth(a + b) == Depth(a) + Depth(b)
    decreases |b|
  {
    if |b| == 0 {
      assert a + b == a;
    } else {
      var b' := b[..|b| - 1];
      assert (a + b)[..|a + b| - 1] == a + b';
      DepthAppend(a, b');
    }
  }

  /** Appending a character keeps every earlier prefix non-negative. */
  lemma NeverNegativeSnoc(s: seq<char>, c: char)
    requires NeverNegative(s) && Depth(s) + Delta(c) >= 0
    ensures NeverNegative(s + [c]) && Depth(s + [c]) == Depth(s) + Delta(c)
  {
    assert (s + [c])[..|s|] == s;
  }

  /** Every prefix of a never-negative text is never-negative. */
  lemma {:induction false} NeverNegativePrefix(s: seq<char>, k: nat)
    requires NeverNegative(s) && k <= |s|
    ensures NeverNegative(s[..k]) && Depth(s[..k]) >= 0
    decreases |s| - k
  {
    if k < |s| {
      var s' := s[..|s| - 1];
      assert s'[..k] == s[..k];
      NeverNegativePrefix(s', k);
    } else {
      assert s[..k] == s;
    }
  }

  /** A never-negative text followed by another stays never-negative. */
  lemma {:induction false} NeverNegativeAppend(a: seq<char>, b: seq<char>)
    requires NeverNegative(a) && NeverNegative(b)
    ensures NeverNegative(a + b)
    decreases |b|
  {
    if |b| == 0 {
      assert a + b == a;
    } else {
      var b' := b[..|b| - 1];
      assert (a + b)[..|a + b| - 1] == a + b';
      NeverNegativeAppend(a, b');
      DepthAppend(a, b);
    }
  }

  /** A balanced text followed by a non-bracket is still balanced. */
  lemma BalancedSnoc(s: seq<char>, c: char)
    requires Balanced(s) && c != '[' && c != ']'
    ensures Balanced(s + [c])
  {
    NeverNegativeSnoc(s, c);
  }

  /** `a [ b ]` is balanced when `a` and `b` are. */
  lemma BalancedWrap(a: seq<char>, b: seq<char>)
    requires Balanced(a) && Balanced(b)
    ensures Balanced(a + ['['] + b + [']'])
  {
    NeverNegativeSnoc(a, '[');
    NeverNegativeAppend(a + ['['], b);
    DepthAppend(a + ['['], b);
    NeverNegativeSnoc(a + ['['] + b, ']');
  }

  lemma {:induction false} CommandsOfCommandOnly(s: seq<char>)
    requires CommandOnly(s)
    ensures Commands(s) == s
    decreases |s|
  {
    if |s| > 0 {
      CommandsOfCommandOnly(s[..|s| - 1]);
    }
  }

  lemma {:induction false} CommandsLength(s: seq<char>)
    ensures |Commands(s)| <= |s|
    decreases |s|
  {
    if |s| > 0 {
      CommandsLength(s[..|s| - 1]);
    }
  }

  /** The commands of a prefix are a prefix of the commands. */
  lemma {:induction false} CommandsPrefix(s: seq<char>, k: nat)
    requires k <= |s|
    ensures |Commands(s[..k])| <= |Commands(s)|
    ensures Commands(s)[..|Commands(s[..k])|] == Commands(s[..k])
    decreases |s| - k
  {
    if k < |s| {
      var s' := s[..|s| - 1];
      assert s'[..k] == s[..k];
      CommandsPrefix(s', k);
    } else {
      assert s[..k] == s;
    }
  }
}
