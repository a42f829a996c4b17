/** The arbitrary-precision integers the texts hold, reduced to what the
    ciphertext and plaintext layers observe of them: their value as a natural
    number, their export as 32-bit words, and modular exponentiation. */
module BigNum {

  /** One export word is 32 bits wide. */
  const WordBase: nat := 0x1_0000_0000

  /** A value that fits one uint32_t. */
  type Word = x: nat | x < WordBase

  /** `x` exported as 32-bit words, least significant first, the way a
      BigNumber fills a std::vector<uint32_t>; zero exports as one zero word. */
  function ToWords(x: nat): (ws: seq<Word>)
    ensures |ws| >= 1
    decreases x
  {
    if x < WordBase then [x] else [x % WordBase] + ToWords(x / WordBase)
  }

  /** The number denoted by little-endian 32-bit words. */
  function FromWords(ws: seq<Word>): nat
  {
    if |ws| == 0 then 0 else ws[0] + WordBase * FromWords(ws[1..])
  }

  /** The first export word of `x`: the word a flat `*_Save` call writes for it. */
  function FirstWord(x: nat): (w: Word)
    ensures w == ToWords(x)[0]
  {
    x % WordBase
  }

  /** Exporting a number to words and reading them back gives the number. */
  lemma {:induction false} WordsRoundTrip(x: nat)
    ensures FromWords(ToWords(x)) == x
    decreases x
  {
    if x >= WordBase {
      WordsRoundTrip(x / WordBase);
      assert ToWords(x)[1..] == ToWords(x / WordBase);
    }
  }

  /** A number that fits one word is its own first export word. */
  lemma FirstWordOfWord(x: nat)
    requires x < WordBase
    ensures FirstWord(x) == x && ToWords(x) == [x]
  {
  }

  function Pow(b: nat, e: nat): nat
    decreases e
  {
    if e == 0 then 1 else b * Pow(b, e - 1)
  }

  /** `b` raised to `e`, reduced modulo `m`: the value every modExp call
      computes, whether in software or on the accelerator. */
  function ModExp(b: nat, e: nat, m: nat): (r: nat)
    requires m > 0
    ensures r < m
  {
    Pow(b, e) % m
  }
}
