/** Operations of class PlainText: the operators that delegate to the
    ciphertext side with the operands swapped, the three conversions, and
    rotation. */
module Plaintext {
  import opened Outcomes
  import opened BigNum
  import opened Texts
  import Ciphertext

  /** PT + CT: the ciphertext operator with the operands swapped. */
  function Add(p: PlainText, c: CipherText, enc: nat -> nat): (r: Result<CipherText>)
    requires c.pk.Some?
    ensures r == Ciphertext.AddPlain(c, p, enc)
    ensures r.Ok? <==> Compatible(|c.texts|, |p.texts|)
    ensures r.Ok? ==> r.value.pk == c.pk && |r.value.texts| == |c.texts|
  {
    Ciphertext.AddPlain(c, p, enc)
  }

  /** PT * CT: the ciphertext operator with the operands swapped. */
  function Mul(p: PlainText, c: CipherText, cfg: Ciphertext.HybridConfig, threshold: nat)
    : (r: Result<Ciphertext.Product>)
    requires Compatible(|c.texts|, |p.texts|) ==> c.pk.Some?
    ensures r == Ciphertext.Mul(c, p, cfg, threshold)
    ensures r.Ok? <==> Compatible(|c.texts|, |p.texts|)
    ensures r.Ok? ==> forall i :: 0 <= i < |c.texts| ==>
              r.value.ct.texts[i] == ModExp(c.texts[i], Operand(p.texts, i), c.pk.value.nsq)
  {
    Ciphertext.Mul(c, p, cfg, threshold)
  }

  /** Conversion to std::vector<uint32_t>: the export words of element 0. */
  function ToWordVector(p: PlainText): (r: Result<seq<Word>>)
    ensures r.Err? <==> |p.texts| == 0
    ensures r.Err? ==> r.error == EmptyText
    ensures r.Ok? ==> |r.value| >= 1 && FromWords(r.value) == p.texts[0]
  {
    if |p.texts| == 0 then Err(EmptyText)
    else
      WordsRoundTrip(p.texts[0]);
      Ok(ToWords(p.texts[0]))
  }

  /** Conversion to BigNumber: element 0. */
  function ToBigNumber(p: PlainText): (r: Result<nat>)
    ensures r.Err? <==> |p.texts| == 0
    ensures r.Err? ==> r.error == EmptyText
    ensures r.Ok? ==> r.value == p.texts[0]
  {
    if |p.texts| == 0 then Err(EmptyText) else Ok(p.texts[0])
  }

  /** Conversion to std::vector<BigNumber>: every element, unchanged. */
  function ToBigNumbers(p: PlainText): (r: Result<seq<nat>>)
    ensures r.Err? <==> |p.texts| == 0
    ensures r.Err? ==> r.error == EmptyText
    ensures r.Ok? ==> r.value == p.texts
  {
    if |p.texts| == 0 then Err(EmptyText) else Ok(p.texts)
  }

  /** The single-number conversions agree: the word vector denotes the
      BigNumber, which is the head of the BigNumber vector. */
  lemma ConversionsAgree(p: PlainText)
    requires |p.texts| > 0
    ensures FromWords(ToWordVector(p).value) == ToBigNumber(p).value == ToBigNumbers(p).value[0]
  {
  }

  /** The batch a plaintext result carries, or its failure. */
  function TextsOf(r: Result<PlainText>): Result<seq<nat>>
  {
    match r
    case Ok(pt) => Ok(pt.texts)
    case Err(e) => Err(e)
  }

  /** rotate: the batch shifted cyclically. */
  function Rotate(p: PlainText, shift: int): (r: Result<PlainText>)
    ensures RotatedBy(p.texts, shift, TextsOf(r))
  {
    match Texts.Rotate(p.texts, shift)
    case Err(e) => Err(e)
    case Ok(v) => Ok(PlainText(v))
  }

  /** Rotating a plaintext back by the opposite shift restores it. */
  lemma {:induction false} RotateInverse(p: PlainText, shift: int)
    requires Rotate(p, shift).Ok?
    ensures Rotate(Rotate(p, shift).value, -shift) == Ok(p)
  {
    Texts.RotateInverse(p.texts, shift);
  }
}
