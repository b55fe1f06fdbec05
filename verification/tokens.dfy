/**
 * The instruction set shared by the tokenizer, the optimizer and the VM
 * (the `Token` enum of src/tokenizer.rs).
 */
module Tokens {
  import opened Primitives

  datatype Token =
    | IncrementData(d: u8)        // +
    | DecrementData(d: u8)        // -
    | IncrementPointer(n: usize)  // >
    | DecrementPointer(n: usize)  // <
    | Input                       // ,
    | Output                      // .
    | LoopStart(target: u32)      // [
    | LoopEnd(target: u32)        // ]

  /** The source character a token is written as. */
  function Symbol(t: Token): char {
    match t
    case IncrementData(_) => '+'
    case DecrementData(_) => '-'
    case IncrementPointer(_) => '>'
    case DecrementPointer(_) => '<'
    case Input => ','
    case Output => '.'
    case LoopStart(_) => '['
    case LoopEnd(_) => ']'
  }

  /** The eight characters that are instructions; every other character is a comment. */
  predicate IsCommand(c: char) {
    c == '+' || c == '-' || c == '>' || c == '<' || c == ',' || c == '.' || c == '[' || c == ']'
  }

  /** Two tokens are the same enum variant (payloads may differ). */
  predicate SameVariant(a: Token, b: Token) {
    Symbol(a) == Symbol(b)
  }

  /** The four counted variants that the optimizer folds. */
  predicate IsArith(t: Token) {
    t.IncrementData? || t.DecrementData? || t.IncrementPointer? || t.DecrementPointer?
  }

  function Payload(t: Token): nat
    requires IsArith(t)
  {
    if t.IncrementData? || t.DecrementData? then t.d else t.n
  }

  /** Modulus of a counted token's payload: `u8` for data, `usize` for the pointer. */
  function Width(t: Token): nat
    requires IsArith(t)
  {
    if t.IncrementData? || t.DecrementData? then U8_LIMIT else USIZE_LIMIT
  }

  /** The token of `t`'s variant carrying payload `v`. */
  function WithPayload(t: Token, v: nat): (r: Token)
    requires IsArith(t) && v < Width(t)
    ensures IsArith(r) && SameVariant(r, t) && Payload(r) == v && Width(r) == Width(t)
  {
    match t
    case IncrementData(_) => IncrementData(v)
    case DecrementData(_) => DecrementData(v)
    case IncrementPointer(_) => IncrementPointer(v)
    case DecrementPointer(_) => DecrementPointer(v)
  }
}
