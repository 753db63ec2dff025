/** Byte blobs, digests and the small wrapper types shared by the unpack and pack scripts. */
module Blobs {

  /** One byte of a class file or a source file. */
  newtype byte = x: int | 0 <= x < 256

  type Bytes = seq<byte>

  /** A SHA-1 hex digest as the scripts store it (`hashlib.sha1(...).hexdigest()`).
      The hash function itself is never modelled: every operation that needs it
      takes it as a parameter `sha1: Bytes -> Digest`. */
  type Digest = string

  datatype Option<+T> = None | Some(value: T)

  /** The result of an external process whose standard output the script reads. */
  datatype ToolResult = ToolResult(returnCode: int, stdout: string)

  /** No element occurs twice. */
  predicate NoDuplicates<T(==)>(s: seq<T>) {
    forall i, j :: 0 <= i < j < |s| ==> s[i] != s[j]
  }
}
