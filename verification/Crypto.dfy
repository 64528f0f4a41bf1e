/** The primitives the services call.  Every theorem of the project holds for
    every `Suite`: nothing is assumed about a hash or a signature scheme unless
    a lemma says so.  Where collision resistance would be needed, the lemma
    concludes with an explicit collision instead. */
module Crypto {
  import opened Basics

  /** A field of a signed list. */
  datatype Value =
    | Int(i: int)
    | Text(s: string)
    | Bin(b: Bytes)
    | Texts(ts: seq<string>)

  type Fields = seq<Value>

  datatype Suite = Suite(
    sha256: Bytes -> Bytes,
    // sha256 of the canonical packing of a field list
    digest: Fields -> Bytes,
    // Ed25519 verification of a signature over a canonically packed field list
    verify: (Bytes, Fields, Bytes) -> bool,
    nodeId: (Bytes, Bytes) -> string,
    humanId: Bytes -> string,
    locatorOk: string -> bool
  )

  /** Digests are thirty-two bytes long. */
  ghost predicate Sized(c: Suite) {
    && (forall b :: |c.sha256(b)| == 32)
    && (forall f :: |c.digest(f)| == 32)
  }
}
