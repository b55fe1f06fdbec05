/**
 * The one-pass scanner `tokenizer` of src/tokenizer.rs.
 *
 * The scan is a left fold of `Feed` over the characters.  As in the source,
 * the counter `pc` advances on EVERY character, comments and newlines
 * included, so the loop targets it writes are character offsets plus one,
 * and the back-patch `ir[org]` addresses the token list with a character
 * offset.
 */
module Tokenizer {
  import opened Primitives
  import opened Tokens
  import opened Brackets

  datatype ErrorKind = UncloseLeftBracket | UncloseRightBracket

  datatype TokenizerError = TokenizerError(line: int, col: int, kind: ErrorKind)

  /** An open `[` waiting for its `]`: its character offset and position. */
  datatype Pending = Pending(org: nat, line: int, col: int)

  /** The scanner's locals between two characters, or how it stopped. */
  datatype Scan =
    | Scanning(ir: seq<Token>, stk: seq<Pending>, line: int, col: int, pc: nat)
    | Failed(error: TokenizerError)
    | Panicked(reason: PanicReason)

  const Initial: Scan := Scanning([], [], 1, 0, 0)

  /** The token a plain (non-bracket) character emits: none for a comment. */
  function Emit(c: char): seq<Token> {
    match c
    case '+' => [IncrementData(1)]
    case '-' => [DecrementData(1)]
    case '>' => [IncrementPointer(1)]
    case '<' => [DecrementPointer(1)]
    case ',' => [Input]
    case '.' => [Output]
    case _ => []
  }

  /** A character other than `[` and `]`; a newline starts the next line. */
  function Plain(s: Scan, c: char): Scan
    requires s.Scanning?
  {
    if c == '\n' then s.(line := s.line + 1, col := 0, pc := s.pc + 1)
    else s.(ir := s.ir + Emit(c), pc := s.pc + 1)
  }

  /** `[`: remember where it is and emit a placeholder to patch later. */
  function Open(s: Scan): Scan
    requires s.Scanning?
  {
    s.(stk := s.stk + [Pending(s.pc, s.line, s.col)], ir := s.ir + [LoopStart(0)], pc := s.pc + 1)
  }

  /**
   * `]`: pop the innermost open `[`, emit `LoopEnd(org + 1)` and overwrite
   * `ir[org]` with `LoopStart(pc + 1)`; `org` is a character offset, so the
   * write can miss the placeholder or fall outside the list.
   */
  function Close(s: Scan): Scan
    requires s.Scanning? && s.pc + 1 < U32_LIMIT
    requires forall k :: 0 <= k < |s.stk| ==> s.stk[k].org < s.pc
  {
    if |s.stk| == 0 then
      Failed(TokenizerError(s.line, s.col, UncloseLeftBracket))
    else
      var org := s.stk[|s.stk| - 1].org;
      var ir := s.ir + [LoopEnd(org + 1)];
      if org < |ir| then
        s.(ir := ir[org := LoopStart(s.pc + 1)], stk := s.stk[..|s.stk| - 1], pc := s.pc + 1)
      else
        Panicked(IndexOutOfBounds(org, |ir|))
  }

  /** One iteration of the `for chr in src.chars()` loop. */
  function Feed(s: Scan, c: char): (r: Scan)
    requires s.Scanning? ==> s.pc + 1 < U32_LIMIT
    requires s.Scanning? ==> forall k :: 0 <= k < |s.stk| ==> s.stk[k].org < s.pc
    ensures r.Scanning? ==> s.Scanning? && r.pc == s.pc + 1
    ensures r.Scanning? ==> forall k :: 0 <= k < |r.stk| ==> r.stk[k].org < r.pc
    ensures !s.Scanning? ==> r == s
  {
    if !s.Scanning? then s
    else if c == '[' then Open(s)
    else if c == ']' then Close(s)
    else Plain(s, c)
  }

  /**
   * The scanner after the characters of `p`.  While it is still scanning,
   * its counter is the number of characters read (not of tokens emitted),
   * every open `[` lies before it, there are no more tokens than characters
   * and the column, never advanced, is 0 everywhere; a failure is only ever
   * a `]` without a partner.
   */
  function ScanPrefix(p: seq<char>): (s: Scan)
    requires |p| < U32_LIMIT
    ensures s.Scanning? ==> s.pc == |p|
    ensures s.Scanning? ==> forall k :: 0 <= k < |s.stk| ==> s.stk[k].org < s.pc
    ensures s.Scanning? ==> |s.ir| <= |p| && s.col == 0
    ensures s.Scanning? ==> forall k :: 0 <= k < |s.stk| ==> s.stk[k].col == 0
    ensures s.Failed? ==> s.error.col == 0 && s.error.kind == UncloseLeftBracket
  {
    if |p| == 0 then Initial else Feed(ScanPrefix(p[..|p| - 1]), p[|p| - 1])
  }

  /** The rest of the loop: the scanner `s` reading `cs` front to back. */
  function FeedAll(s: Scan, cs: seq<char>): Scan
    requires s.Scanning? ==> s.pc + |cs| < U32_LIMIT
    requires s.Scanning? ==> forall k :: 0 <= k < |s.stk| ==> s.stk[k].org < s.pc
    decreases |cs|
  {
    if |cs| == 0 then s else FeedAll(Feed(s, cs[0]), cs[1..])
  }

  /** Reading `p` and then `q` is reading `p + q`: the scan is a left fold. */
  lemma {:induction false} ScanThenFeed(p: seq<char>, q: seq<char>)
    requires |p| + |q| < U32_LIMIT
    ensures ScanPrefix(p + q) == FeedAll(ScanPrefix(p), q)
    decreases |q|
  {
    if |q| > 0 {
      var p' := p + [q[0]];
      assert p'[..|p|] == p && p'[|p|] == q[0];
      assert ScanPrefix(p') == Feed(ScanPrefix(p), q[0]);
      ScanThenFeed(p', q[1..]);
      assert p' + q[1..] == p + q;
    } else {
      assert p + q == p;
    }
  }

  /**
   * `tokenizer(src)`: the scan, then the check for a `[` left open.  It
   * emits at most one token per character and reports every error at
   * column 0.
   */
  function Tokenize(src: seq<char>): (r: Outcome<seq<Token>, TokenizerError>)
    requires |src| < U32_LIMIT
    ensures r.Ok? ==> |r.value| <= |src|
    ensures r.Err? ==> r.error.col == 0
  {
    match ScanPrefix(src)
    case Scanning(ir, stk, _, _, _) =>
      if |stk| > 0 then
        var top := stk[|stk| - 1];
        Err(TokenizerError(top.line, top.col, UncloseRightBracket))
      else
        Ok(ir)
    case Failed(e) => Err(e)
    case Panicked(why) => Panic(why)
  }
}
