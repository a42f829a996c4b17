/** The batch containers shared by ciphertexts and plaintexts: a text is a
    sequence of big naturals (BaseText in the library), a ciphertext also
    carries the public key it was produced under. This module also holds the
    operations both kinds of text implement identically: the batch-size rule
    of the binary operators and the cyclic rotation. */
module Texts {
  import opened Outcomes
  import opened Modular

  /** The two public-key values the text operations read: N and N squared. */
  datatype Key = Key(n: nat, nsq: nat)

  /** A key as produced by key generation: N positive, nsq its square. */
  type PublicKey = k: Key | k.n > 0 && k.nsq == k.n * k.n witness Key(1, 1)

  /** A batch of ciphertexts under one key; `pk` is `None` for a
      default-constructed ciphertext, whose shared key pointer is null. */
  datatype CipherText = CipherText(pk: Option<PublicKey>, texts: seq<nat>)

  datatype PlainText = PlainText(texts: seq<nat>)

  /** The operand-size rule of CT+CT and CT*PT: the right operand matches the
      left one element for element, or is a single element broadcast to all. */
  predicate Compatible(lhsSize: nat, rhsSize: nat)
    ensures Compatible(lhsSize, rhsSize) && rhsSize != 1 ==> rhsSize == lhsSize
    ensures lhsSize == 1 ==> (Compatible(lhsSize, rhsSize) <==> rhsSize == 1)
    ensures rhsSize == 1 ==> Compatible(lhsSize, rhsSize)
  {
    lhsSize == rhsSize || rhsSize == 1
  }

  /** The right-operand element paired with left element `i` under the
      broadcast rule. */
  function Operand(b: seq<nat>, i: nat): nat
    requires |b| == 1 || i < |b|
  {
    if |b| == 1 then b[0] else b[i]
  }

  /** std::rotate(first, first + k, last): the element at `k` becomes the first. */
  function StdRotate(v: seq<nat>, k: nat): (r: seq<nat>)
    requires k <= |v|
    ensures |r| == |v|
    ensures forall i :: 0 <= i < |v| - k ==> r[i] == v[i + k]
    ensures forall i :: |v| - k <= i < |v| ==> r[i] == v[i + k - |v|]
  {
    v[k..] + v[..k]
  }

  /** The cyclic shift of a text batch by `shift` places to the right.
      A batch of one element and a shift of more than the batch size are
      rejected; a shift of 0, n or -n returns the batch unchanged. */
  /** What rotating `v` by `shift` must give: a one-element batch is
      rejected first, then a shift outside [-n, n]; every other shift is
      accepted, 0, n and -n give the batch back unchanged, and element `i` of
      the result is element `(i - shift) mod n` of `v`. */
  predicate RotatedBy(v: seq<nat>, shift: int, r: Result<seq<nat>>)
  {
    && (|v| == 1 ==> r == Err(SingleRotate))
    && (|v| != 1 && (shift < -|v| || shift > |v|) ==> r == Err(ShiftOutOfRange))
    && (r.Ok? <==> |v| != 1 && -|v| <= shift <= |v|)
    && (r.Ok? && (shift == 0 || shift == |v| || shift == -|v|) ==> r.value == v)
    && (r.Ok? ==> |r.value| == |v|)
    && (r.Ok? ==> forall i :: 0 <= i < |v| ==> r.value[i] == v[(i - shift) % |v|])
  }

  function Rotate(v: seq<nat>, shift: int): (r: Result<seq<nat>>)
    ensures RotatedBy(v, shift, r)
  {
    if |v| == 1 then Err(SingleRotate)
    else if shift < -|v| || shift > |v| then Err(ShiftOutOfRange)
    else if shift == 0 || shift == |v| || shift == -|v| then
      assert forall i {:trigger v[i]} :: 0 <= i < |v| ==> v[i] == v[(i - shift) % |v|] by {
        forall i {:trigger v[i]} | 0 <= i < |v| ensures v[i] == v[(i - shift) % |v|] {
          ShiftIndexWhole(i, shift, |v|);
        }
      }
      Ok(v)
    else
      var k := if shift > 0 then |v| - shift else -shift;
      var r := StdRotate(v, k);
      assert forall i :: 0 <= i < |v| ==> r[i] == v[(i - shift) % |v|] by {
        forall i | 0 <= i < |v| ensures r[i] == v[(i - shift) % |v|] {
          ShiftIndex(i, shift, |v|);
        }
      }
      Ok(r)
  }

  /** Shifting by a whole turn, or by nothing, leaves every index in place. */
  lemma ShiftIndexWhole(i: int, shift: int, n: int)
    requires 0 <= i < n
    requires shift == 0 || shift == n || shift == -n
    ensures (i - shift) % n == i
  {
    if shift == n {
      ModBelow(i - n, n);
    } else if shift == -n {
      ModAbove(i + n, n);
    } else {
      ModWithin(i, n);
    }
  }

  /** Where the element at `i` comes from after the normalised std::rotate. */
  lemma ShiftIndex(i: int, shift: int, n: int)
    requires 0 <= i < n && -n < shift < n && shift != 0
    ensures var k := if shift > 0 then n - shift else -shift;
            (i < n - k ==> (i - shift) % n == i + k)
            && (i >= n - k ==> (i - shift) % n == i + k - n)
  {
    if shift > 0 {
      if i < shift {
        ModBelow(i - shift, n);
      } else {
        ModWithin(i - shift, n);
      }
    } else {
      if i < n + shift {
        ModWithin(i - shift, n);
      } else {
        ModAbove(i - shift, n);
      }
    }
  }

  /** Undoing a shift by `shift` with a shift by `-shift` lands every index
      back where it started. */
  lemma UnshiftIndex(i: int, shift: int, n: int)
    requires 0 <= i < n && -n <= shift <= n
    ensures ((i + shift) % n - shift) % n == i
  {
    if i + shift < 0 {
      ModBelow(i + shift, n);
      ModAbove(i + n, n);
    } else if i + shift < n {
      ModWithin(i + shift, n);
      ModWithin(i, n);
    } else {
      ModAbove(i + shift, n);
      ModBelow(i - n, n);
    }
  }

  /** Rotating back by the opposite shift restores the batch. */
  lemma {:induction false} RotateInverse(v: seq<nat>, shift: int)
    requires Rotate(v, shift).Ok?
    ensures Rotate(Rotate(v, shift).value, -shift) == Ok(v)
  {
    var w := Rotate(v, shift).value;
    var u := Rotate(w, -shift);
    assert u.Ok?;
    forall i | 0 <= i < |v|
      ensures u.value[i] == v[i]
    {
      UnshiftIndex(i, shift, |v|);
      assert u.value[i] == w[(i + shift) % |v|];
    }
    assert u.value == v;
  }
}
