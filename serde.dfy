/**
 * The serialisation library, seen only through its interface: an encoder and a
 * decoder that may refuse its input. serde_json's grammar is not modelled.
 */
module Serde {
  import opened Options

  /** One byte of a network payload. */
  type Byte = x: int | 0 <= x < 256

  /** `encode` stands for `serde_json::to_string`/`to_vec`, `decode` for `from_str`/`from_slice`. */
  datatype Codec<!T, !W> = Codec(encode: T -> W, decode: W -> Option<T>)

  /** The library's promise: decoding what it encoded gives back the value. */
  ghost predicate Lossless<T(!new), W>(c: Codec<T, W>) {
    forall x: T :: c.decode(c.encode(x)) == Some(x)
  }

  /** A lossless codec never encodes two values the same way. */
  lemma EncodeInjective<T(!new), W>(c: Codec<T, W>, x: T, y: T)
    requires Lossless(c)
    requires c.encode(x) == c.encode(y)
    ensures x == y
  {
    assert c.decode(c.encode(x)) == Some(x);
    assert c.decode(c.encode(y)) == Some(y);
  }
}
