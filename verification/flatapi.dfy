/** The flat, C-callable handle functions for plaintexts and ciphertexts.
    A `void*` handle is an `Option` of the object it points to (`None` is a
    null pointer); a `void**` slot is reduced to whether it is null, and a
    created object is returned instead of being stored through it. The
    caller-owned output buffer of the Save functions is returned as the
    sequence of words written into it. */
module FlatApi {
  import opened Outcomes
  import opened BigNum
  import opened Texts

  /** The HRESULT codes these functions return. */
  datatype HResult = SOk | EPointer | EInvalidArg

  /** The numeric value of each code, as defined for non-Windows builds. */
  function Code(h: HResult): (c: int)
    ensures c == 0 <==> h == SOk
  {
    match h
    case SOk => 0
    case EPointer => 0x8000_4003
    case EInvalidArg => 0x8007_0057
  }

  /** A status code together with the object a Create call allocated. */
  datatype Created<T> = Created(status: HResult, handle: Option<T>)

  /** A status code together with the size a SaveSize call wrote. */
  datatype SizeReport = SizeReport(status: HResult, size: Option<nat>)

  /** Shared by CipherText_Save and PlainText_Save: reject a non-zero
      `*out_len` before looking at the handle, reject a null handle, then
      write the first export word of each of the first `size` elements,
      counting every write into `*out_len`. */
  method SaveElements(elems: Option<seq<nat>>, size: nat, outLen: nat)
    returns (status: HResult, written: seq<Word>, finalLen: nat)
    requires elems.Some? && outLen == 0 ==> size <= |elems.value|
    ensures outLen != 0 ==> status == EInvalidArg
    ensures outLen == 0 && elems.None? ==> status == EPointer
    ensures status == SOk <==> outLen == 0 && elems.Some?
    ensures status != SOk ==> written == [] && finalLen == outLen
    ensures status == SOk ==> finalLen == size && |written| == size
    ensures status == SOk ==> forall i :: 0 <= i < size ==> written[i] == FirstWord(elems.value[i])
  {
    if outLen != 0 {
      return EInvalidArg, [], outLen;
    }
    if elems.None? {
      return EPointer, [], outLen;
    }
    var texts := elems.value;
    written, finalLen := [], outLen;
    var i := 0;
    while i < size
      invariant 0 <= i <= size
      invariant finalLen == i && |written| == i
      invariant forall j :: 0 <= j < i ==> written[j] == FirstWord(texts[j])
    {
      written := written + [ToWords(texts[i])[0]];
      finalLen := finalLen + 1;
      i := i + 1;
    }
    status := SOk;
  }

  /** PlainText_Create1: a new empty plaintext, unless the slot is null. */
  function PlainTextCreate1(slotIsNull: bool): (r: Created<PlainText>)
    ensures r.status == SOk <==> !slotIsNull
    ensures r.status != SOk ==> r.status == EPointer && r.handle.None?
    ensures r.status == SOk ==> r.handle == Some(PlainText([]))
  {
    if slotIsNull then Created(EPointer, None) else Created(SOk, Some(PlainText([])))
  }

  /** PlainText_Create2: a new plaintext holding the first `len` words of
      `input`, in order, unless the slot is null. */
  function PlainTextCreate2(slotIsNull: bool, input: seq<Word>, len: int): (r: Created<PlainText>)
    requires !slotIsNull ==> 0 <= len <= |input|
    ensures r.status == SOk <==> !slotIsNull
    ensures r.status != SOk ==> r.status == EPointer && r.handle.None?
    ensures r.status == SOk ==> r.handle.Some? && |r.handle.value.texts| == len
    ensures r.status == SOk ==> forall i :: 0 <= i < len ==> r.handle.value.texts[i] == input[i]
  {
    if slotIsNull then Created(EPointer, None)
    else Created(SOk, Some(PlainText(seq(len, i requires 0 <= i < len => input[i] as nat))))
  }

  /** PlainText_Destroy: E_POINTER for a null handle. */
  function PlainTextDestroy(h: Option<PlainText>): (r: HResult)
    ensures r == SOk <==> h.Some?
    ensures r != SOk ==> r == EPointer
  {
    if h.None? then EPointer else SOk
  }

  /** PlainText_SaveSize: the element count, once both pointers are non-null. */
  function PlainTextSaveSize(h: Option<PlainText>, resultIsNull: bool): (r: SizeReport)
    ensures r.status == SOk <==> h.Some? && !resultIsNull
    ensures r.status != SOk ==> r.status == EPointer && r.size.None?
    ensures r.status == SOk ==> r.size == Some(|h.value.texts|)
  {
    if h.None? || resultIsNull then SizeReport(EPointer, None)
    else SizeReport(SOk, Some(|h.value.texts|))
  }

  /** PlainText_Save. */
  method PlainTextSave(h: Option<PlainText>, size: nat, outLen: nat)
    returns (status: HResult, written: seq<Word>, finalLen: nat)
    requires h.Some? && outLen == 0 ==> size <= |h.value.texts|
    ensures outLen != 0 ==> status == EInvalidArg
    ensures outLen == 0 && h.None? ==> status == EPointer
    ensures status == SOk <==> outLen == 0 && h.Some?
    ensures status != SOk ==> written == [] && finalLen == outLen
    ensures status == SOk ==> finalLen == size && |written| == size
    ensures status == SOk ==> forall i :: 0 <= i < size ==> written[i] == FirstWord(h.value.texts[i])
  {
    var elems := if h.Some? then Some(h.value.texts) else None;
    status, written, finalLen := SaveElements(elems, size, outLen);
  }

  /** The call sequence of the C example: Create2 from 32-bit words, SaveSize,
      then Save with the reported size into a zeroed length writes back
      exactly the words the plaintext was created from. */
  method PlainTextSaveRoundTrip(input: seq<Word>, len: int) returns (saved: seq<Word>, savedLen: nat)
    requires 0 <= len <= |input|
    ensures saved == input[..len]
    ensures savedLen == len
  {
    var created := PlainTextCreate2(false, input, len);
    var report := PlainTextSaveSize(created.handle, false);
    var status;
    status, saved, savedLen := PlainTextSave(created.handle, report.size.value, 0);
    forall i | 0 <= i < len
      ensures saved[i] == input[i]
    {
      FirstWordOfWord(input[i]);
    }
  }

  /** CipherText_Create1: a new empty ciphertext with no key, unless the
      slot is null. */
  function CipherTextCreate1(slotIsNull: bool): (r: Created<CipherText>)
    ensures r.status == SOk <==> !slotIsNull
    ensures r.status != SOk ==> r.status == EPointer && r.handle.None?
    ensures r.status == SOk ==> r.handle == Some(CipherText(None, []))
  {
    if slotIsNull then Created(EPointer, None) else Created(SOk, Some(CipherText(None, [])))
  }

  /** CipherText_Destroy: E_POINTER for a null handle. */
  function CipherTextDestroy(h: Option<CipherText>): (r: HResult)
    ensures r == SOk <==> h.Some?
    ensures r != SOk ==> r == EPointer
  {
    if h.None? then EPointer else SOk
  }

  /** CipherText_SaveSize: the element count, once both pointers are non-null. */
  function CipherTextSaveSize(h: Option<CipherText>, resultIsNull: bool): (r: SizeReport)
    ensures r.status == SOk <==> h.Some? && !resultIsNull
    ensures r.status != SOk ==> r.status == EPointer && r.size.None?
    ensures r.status == SOk ==> r.size == Some(|h.value.texts|)
  {
    if h.None? || resultIsNull then SizeReport(EPointer, None)
    else SizeReport(SOk, Some(|h.value.texts|))
  }

  /** CipherText_Save. */
  method CipherTextSave(h: Option<CipherText>, size: nat, outLen: nat)
    returns (status: HResult, written: seq<Word>, finalLen: nat)
    requires h.Some? && outLen == 0 ==> size <= |h.value.texts|
    ensures outLen != 0 ==> status == EInvalidArg
    ensures outLen == 0 && h.None? ==> status == EPointer
    ensures status == SOk <==> outLen == 0 && h.Some?
    ensures status != SOk ==> written == [] && finalLen == outLen
    ensures status == SOk ==> finalLen == size && |written| == size
    ensures status == SOk ==> forall i :: 0 <= i < size ==> written[i] == FirstWord(h.value.texts[i])
  {
    var elems := if h.Some? then Some(h.value.texts) else None;
    status, written, finalLen := SaveElements(elems, size, outLen);
  }
}
