/** Homomorphic operations on ciphertext batches (class CipherText): CT+CT,
    CT+PT, CT*PT with the hybrid ratio rule of raw_mul, element access and
    rotation. The OpenMP-parallel loops are modelled as sequential
    elementwise maps. */
module Ciphertext {
  import opened Outcomes
  import opened BigNum
  import opened Texts

  /** The label of a hardware/software split ratio. The library's ratios are
      floating-point constants; only which one is installed matters here. */
  datatype Ratio = RatioFull | RatioMultiply | RatioOther(tag: nat)

  /** The process-wide hybrid modexp setting that raw_mul reads and writes:
      whether the OPTIMAL mode is on, and the ratio currently installed. */
  datatype HybridConfig = HybridConfig(optimal: bool, ratio: Ratio)

  /** A CT*PT result together with the hybrid setting left behind. */
  datatype Product = Product(ct: CipherText, hybrid: HybridConfig)

  /** raw_add: the ciphertext of the sum of two plaintexts. */
  function RawAdd(pk: PublicKey, a: nat, b: nat): (r: nat)
    ensures r < pk.nsq
  {
    a * b % pk.nsq
  }

  /** raw_mul on one pair: the ciphertext of a plaintext times a scalar. */
  function RawMul(pk: PublicKey, a: nat, b: nat): (r: nat)
    ensures r < pk.nsq
  {
    ModExp(a, b, pk.nsq)
  }

  /** The ratio rule of the batched raw_mul: in OPTIMAL mode a batch of at
      most `threshold` elements installs the FULL ratio and a larger one the
      MULTIPLY ratio; outside OPTIMAL mode the setting is left alone. */
  function SelectRatio(cfg: HybridConfig, batch: nat, threshold: nat): (c: HybridConfig)
    ensures c.optimal == cfg.optimal
    ensures !cfg.optimal ==> c == cfg
    ensures cfg.optimal ==> (c.ratio == RatioFull <==> batch <= threshold)
    ensures cfg.optimal ==> (c.ratio == RatioMultiply <==> batch > threshold)
  {
    if cfg.optimal then
      cfg.(ratio := if batch <= threshold then RatioFull else RatioMultiply)
    else cfg
  }

  /** The batched raw_mul: select the ratio, then one modExp per pair. The
      ratio only routes work between hardware and software; the values
      computed do not depend on it. */
  function RawMulBatch(pk: PublicKey, a: seq<nat>, b: seq<nat>, cfg: HybridConfig, threshold: nat)
    : (r: (seq<nat>, HybridConfig))
    requires |a| == |b|
    ensures |r.0| == |a|
    ensures forall i :: 0 <= i < |a| ==> r.0[i] == ModExp(a[i], b[i], pk.nsq)
    ensures r.1 == SelectRatio(cfg, |a|, threshold)
  {
    (seq(|a|, i requires 0 <= i < |a| => RawMul(pk, a[i], b[i])), SelectRatio(cfg, |a|, threshold))
  }

  /** CT + CT. The size rule is checked first, then that both keys share N;
      the result is under the left operand's key, one product modulo N^2
      per left element, the right operand broadcast when it has one element. */
  function Add(a: CipherText, b: CipherText): (r: Result<CipherText>)
    requires Compatible(|a.texts|, |b.texts|) ==> a.pk.Some? && b.pk.Some?
    ensures !Compatible(|a.texts|, |b.texts|) ==> r == Err(SizeMismatch)
    ensures Compatible(|a.texts|, |b.texts|) && a.pk.value.n != b.pk.value.n ==> r == Err(KeyMismatch)
    ensures r.Ok? <==> Compatible(|a.texts|, |b.texts|) && a.pk.value.n == b.pk.value.n
    ensures r.Ok? ==> r.value.pk == a.pk && |r.value.texts| == |a.texts|
    ensures r.Ok? ==> forall i :: 0 <= i < |a.texts| ==>
              r.value.texts[i] == a.texts[i] * Operand(b.texts, i) % a.pk.value.nsq
              && r.value.texts[i] < a.pk.value.nsq
  {
    if !Compatible(|a.texts|, |b.texts|) then Err(SizeMismatch)
    else if a.pk.value.n != b.pk.value.n then Err(KeyMismatch)
    else
      var pk := a.pk.value;
      if |a.texts| == 1 then
        Ok(CipherText(a.pk, [RawAdd(pk, a.texts[0], b.texts[0])]))
      else if |b.texts| == 1 then
        Ok(CipherText(a.pk, seq(|a.texts|, i requires 0 <= i < |a.texts| => RawAdd(pk, a.texts[i], b.texts[0]))))
      else
        Ok(CipherText(a.pk, seq(|a.texts|, i requires 0 <= i < |a.texts| => RawAdd(pk, a.texts[i], b.texts[i]))))
  }

  /** CT + PT: the plaintext is first encrypted under the ciphertext's key
      (`enc` stands for that encryption, applied to each element), then added
      as a ciphertext, so a key mismatch cannot arise. */
  function AddPlain(a: CipherText, p: PlainText, enc: nat -> nat): (r: Result<CipherText>)
    requires a.pk.Some?
    ensures r.Ok? <==> Compatible(|a.texts|, |p.texts|)
    ensures r.Err? ==> r.error == SizeMismatch
    ensures r.Ok? ==> r.value.pk == a.pk && |r.value.texts| == |a.texts|
    ensures r.Ok? ==> forall i :: 0 <= i < |a.texts| ==>
              r.value.texts[i] == a.texts[i] * enc(Operand(p.texts, i)) % a.pk.value.nsq
  {
    var b := CipherText(a.pk, seq(|p.texts|, i requires 0 <= i < |p.texts| => enc(p.texts[i])));
    Add(a, b)
  }

  /** CT * PT. Only the size rule is checked; each left element is raised to
      the matching plaintext element modulo N^2. A single-element left operand
      takes the scalar raw_mul and leaves the hybrid setting alone; any other
      batch goes through the batched raw_mul and its ratio rule, a
      single-element right operand first expanded to the batch size. */
  function Mul(a: CipherText, p: PlainText, cfg: HybridConfig, threshold: nat): (r: Result<Product>)
    requires Compatible(|a.texts|, |p.texts|) ==> a.pk.Some?
    ensures r.Ok? <==> Compatible(|a.texts|, |p.texts|)
    ensures r.Err? ==> r.error == SizeMismatch
    ensures r.Ok? ==> r.value.ct.pk == a.pk && |r.value.ct.texts| == |a.texts|
    ensures r.Ok? ==> forall i :: 0 <= i < |a.texts| ==>
              r.value.ct.texts[i] == ModExp(a.texts[i], Operand(p.texts, i), a.pk.value.nsq)
              && r.value.ct.texts[i] < a.pk.value.nsq
    ensures r.Ok? && (|a.texts| == 1 || !cfg.optimal) ==> r.value.hybrid == cfg
    ensures r.Ok? && |a.texts| != 1 && cfg.optimal ==>
              r.value.hybrid.optimal
              && (r.value.hybrid.ratio == RatioFull <==> |a.texts| <= threshold)
              && (r.value.hybrid.ratio == RatioMultiply <==> |a.texts| > threshold)
  {
    if !Compatible(|a.texts|, |p.texts|) then Err(SizeMismatch)
    else
      var pk := a.pk.value;
      if |a.texts| == 1 then
        Ok(Product(CipherText(a.pk, [RawMul(pk, a.texts[0], p.texts[0])]), cfg))
      else
        var exps := if |p.texts| == 1 then seq(|a.texts|, _ => p.texts[0]) else p.texts;
        var (products, cfg') := RawMulBatch(pk, a.texts, exps, cfg, threshold);
        Ok(Product(CipherText(a.pk, products), cfg'))
  }

  /** getCipherText: the element at `idx` as a one-element ciphertext under
      the same key. */
  function GetCipherText(a: CipherText, idx: nat): (r: Result<CipherText>)
    requires idx < |a.texts| ==> a.pk.Some?
    ensures r.Ok? <==> idx < |a.texts|
    ensures r.Err? ==> r.error == IndexOutOfRange
    ensures r.Ok? ==> r.value.pk == a.pk && r.value.texts == [a.texts[idx]]
  {
    if idx >= |a.texts| then Err(IndexOutOfRange)
    else Ok(CipherText(a.pk, [a.texts[idx]]))
  }

  /** The batch a ciphertext result carries, or its failure. */
  function TextsOf(r: Result<CipherText>): Result<seq<nat>>
  {
    match r
    case Ok(ct) => Ok(ct.texts)
    case Err(e) => Err(e)
  }

  /** rotate: the batch shifted cyclically under the same key. */
  function Rotate(a: CipherText, shift: int): (r: Result<CipherText>)
    requires Texts.Rotate(a.texts, shift).Ok? ==> a.pk.Some?
    ensures RotatedBy(a.texts, shift, TextsOf(r))
    ensures r.Ok? ==> r.value.pk == a.pk
  {
    match Texts.Rotate(a.texts, shift)
    case Err(e) => Err(e)
    case Ok(v) => Ok(CipherText(a.pk, v))
  }

  /** Rotating a ciphertext back by the opposite shift restores it, key included. */
  lemma {:induction false} RotateInverse(a: CipherText, shift: int)
    requires a.pk.Some?
    requires Rotate(a, shift).Ok?
    ensures Rotate(Rotate(a, shift).value, -shift) == Ok(a)
  {
    Texts.RotateInverse(a.texts, shift);
  }

  /** Element `idx` of a rotated ciphertext is element `(idx - shift) mod n`
      of the original. */
  lemma RotateThenGet(a: CipherText, shift: int, idx: nat)
    requires a.pk.Some? && Rotate(a, shift).Ok? && idx < |a.texts|
    ensures GetCipherText(Rotate(a, shift).value, idx)
            == GetCipherText(a, (idx - shift) % |a.texts|)
  {
  }

  /** Adding a one-element ciphertext is adding that element to every
      position: broadcasting agrees with the expanded operand. */
  lemma {:induction false} AddBroadcast(a: CipherText, b: CipherText)
    requires a.pk.Some? && b.pk.Some? && |b.texts| == 1
    ensures Add(a, b) == Add(a, CipherText(b.pk, seq(|a.texts|, _ => b.texts[0])))
  {
    var b' := CipherText(b.pk, seq(|a.texts|, _ => b.texts[0]));
    var r, r' := Add(a, b), Add(a, b');
    if r.Ok? {
      assert r'.Ok?;
      assert r.value.texts == r'.value.texts;
    }
  }

  /** Adding a one-element plaintext is adding that element to every
      position: broadcasting agrees with the expanded plaintext. */
  lemma {:induction false} AddPlainBroadcast(a: CipherText, p: PlainText, enc: nat -> nat)
    requires a.pk.Some? && |p.texts| == 1
    ensures AddPlain(a, p, enc) == AddPlain(a, PlainText(seq(|a.texts|, _ => p.texts[0])), enc)
  {
    var p' := PlainText(seq(|a.texts|, _ => p.texts[0]));
    var r, r' := AddPlain(a, p, enc), AddPlain(a, p', enc);
    assert r.Ok? && r'.Ok?;
    assert r.value.texts == r'.value.texts;
  }

  /** CT+CT on equally sized batches accepts or rejects both operand orders
      alike and computes the same batch either way; each result carries its
      own left operand's key. */
  lemma {:induction false} AddCommutes(a: CipherText, b: CipherText)
    requires a.pk.Some? && b.pk.Some? && |a.texts| == |b.texts|
    ensures Add(a, b).Ok? <==> Add(b, a).Ok?
    ensures Add(a, b).Ok? ==> Add(a, b).value.texts == Add(b, a).value.texts
    ensures Add(a, b).Ok? ==> Add(a, b).value.pk == a.pk && Add(b, a).value.pk == b.pk
  {
    var r, r' := Add(a, b), Add(b, a);
    if r.Ok? {
      assert r'.Ok?;
      forall i | 0 <= i < |a.texts|
        ensures r.value.texts[i] == r'.value.texts[i]
      {
        assert a.texts[i] * b.texts[i] == b.texts[i] * a.texts[i];
      }
      assert r.value.texts == r'.value.texts;
    }
  }

  /** The hybrid setting only routes work: CT*PT computes the same
      ciphertext whatever the setting and threshold. */
  lemma MulIgnoresHybrid(a: CipherText, p: PlainText, c1: HybridConfig, t1: nat, c2: HybridConfig, t2: nat)
    requires a.pk.Some?
    requires Mul(a, p, c1, t1).Ok?
    ensures Mul(a, p, c2, t2).Ok?
    ensures Mul(a, p, c1, t1).value.ct == Mul(a, p, c2, t2).value.ct
  {
  }

  /** Multiplying by a one-element plaintext is multiplying every position by
      that scalar: broadcasting agrees with the expanded operand. */
  lemma MulBroadcast(a: CipherText, p: PlainText, cfg: HybridConfig, threshold: nat)
    requires a.pk.Some? && |p.texts| == 1
    ensures Mul(a, p, cfg, threshold).Ok?
    ensures Mul(a, PlainText(seq(|a.texts|, _ => p.texts[0])), cfg, threshold).Ok?
    ensures Mul(a, p, cfg, threshold).value.ct
            == Mul(a, PlainText(seq(|a.texts|, _ => p.texts[0])), cfg, threshold).value.ct
  {
  }
}
