/** Compression codecs (compression.go): a registry of abstract encode / decode pairs. */
module Codecs {
  import opened Collections
  import opened Wire

  /** `Decode` fails on bytes that are not a compressed payload. */
  datatype Codec = Codec(code: int, Encode: seq<byte> -> seq<byte>, Decode: seq<byte> -> Option<seq<byte>>)

  type Registry = map<int, Codec>

  ghost predicate Inverse(c: Codec) {
    forall b :: c.Decode(c.Encode(b)) == Some(b)
  }

  /** resolveCodec would return `c` for its own code. */
  ghost predicate Registered(codecs: Registry, c: Codec) {
    c.code in codecs && codecs[c.code] == c
  }

  /** A codec that does not compress at all. */
  function Identity(): Codec {
    Codec(1, b => b, b => Some(b))
  }

  const CODECS: Registry := map[1 := Identity()]
}
