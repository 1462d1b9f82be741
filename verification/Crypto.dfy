/**
 What the file engine relies on about encryption and hashing. AES-GCM, the key
 derivation and SHA-256 themselves are not part of this model.
 */
module Crypto {
  import opened Wrappers
  import opened Copies

  type Byte = b: int | 0 <= b < 256
  type Bytes = seq<Byte>
  type Digest = nat

  type FileId = nat  // a uuid

  /** Key material is derived from a file alone, or from a file, a slice and a node. */
  datatype Key = FileKey(file: FileId) | SliceKey(file: FileId, slice: SliceId, node: NodeId)

  datatype Suite = Suite(
    encrypt: (Key, Bytes) -> Bytes,
    recover: (Key, Bytes) -> Option<Bytes>,
    hash: Bytes -> Digest)
  {
    /**
     Recovering undoes encrypting under the same key and accepts nothing else, the tag is
     16 bytes, and hashes do not collide.
     */
    ghost predicate Sound() {
      && (forall k, p {:trigger encrypt(k, p)} :: recover(k, encrypt(k, p)) == Some(p))
      && (forall k, c {:trigger recover(k, c)} :: recover(k, c).Some? ==> c == encrypt(k, recover(k, c).value))
      && (forall k, p {:trigger encrypt(k, p)} :: |encrypt(k, p)| == |p| + 16)
      && (forall x, y {:trigger hash(x), hash(y)} :: hash(x) == hash(y) ==> x == y)
    }
  }

  datatype EncryptedSlice = EncryptedSlice(slice: SliceId, node: NodeId, cipher: Bytes)
}
