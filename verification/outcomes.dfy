/** Failure-carrying values shared by the text and handle layers.

    The library signals a violated precondition with ERROR_CHECK, which throws
    a runtime error carrying a message; here each distinct message is one
    constructor of `Failure` and a throwing call returns `Err`. */
module Outcomes {

  /** A value that may be absent; `None` stands for a null pointer. */
  datatype Option<+T> = None | Some(value: T)

  /** The reason an ERROR_CHECK rejected a call. */
  datatype Failure =
    | SizeMismatch      // operand batch sizes neither equal nor broadcastable
    | KeyMismatch       // the two ciphertexts carry public keys with different N
    | IndexOutOfRange   // getCipherText past the end of the batch
    | SingleRotate      // rotate on a batch of exactly one element
    | ShiftOutOfRange   // rotate by more than the batch size
    | EmptyText         // conversion of an empty plaintext

  datatype Result<+T> = Ok(value: T) | Err(error: Failure)
}
