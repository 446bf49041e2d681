/**
 * The values every layer of the store exchanges: byte strings for keys,
 * values and proofs, the 32-byte root digest, and the `Operation` that a
 * commit carries (`Operation::Set` / `Operation::Delete`).
 */
module Types {
  import opened Wrappers

  newtype byte = x: int | 0 <= x < 256

  type Bytes = seq<byte>
  type Key = Bytes
  type Value = Bytes

  /** A `[u8; 32]` root digest: exactly 32 bytes, whatever the layer. */
  type Digest = s: Bytes | |s| == 32 witness seq(32, _ => 0)

  /** One intended mutation, as passed to `commit`. */
  datatype Operation = Set(key: Key, value: Value) | Delete(key: Key)

  /** Looking a key up in a committed key/value map. */
  function Lookup(t: map<Key, Value>, k: Key): (r: Option<Value>)
    ensures r.Some? <==> k in t
    ensures r.Some? ==> r.value == t[k]
  {
    if k in t then Some(t[k]) else None
  }
}
