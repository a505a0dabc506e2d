/**
 Keccak-256, secp256k1 signatures and the protobuf wire format, all left uninterpreted: each is an
 arbitrary constant of its type, so every result holds for all of them. The few laws a result needs
 are named predicates that the result requires.
 */
module Crypto {
  import opened Types

  const Hash: Bytes -> Digest

  const DecodeTransaction: Bytes -> Option<Transaction>
  const EncodeBody: TxBody -> Bytes
  const DecodeBody: Bytes -> Option<TxBody>
  const EncodeHeader: BlockHeader -> Bytes

  type Signature = b: Bytes | |b| == SIG_SIZE witness Zeros(SIG_SIZE)
  datatype Keys = Keys(privateKey: Bytes, pkey: Bytes)

  const SignDigest: (Bytes, Digest) -> Signature
  const VerifyDigest: (Bytes, Digest, Bytes) -> bool

  function Sign(keys: Keys, data: Bytes): Signature {
    SignDigest(keys.privateKey, Hash(data))
  }

  /** VerifyData: the last signature byte is not looked at, and no signature verifies under an empty key. */
  predicate VerifyData(data: Bytes, sig: Bytes, pkey: Bytes)
    requires |sig| == SIG_SIZE
  {
    |pkey| != 0 && VerifyDigest(pkey, Hash(data), sig[..SIG_SIZE - 1])
  }

  /** The body of a transaction as proto.Unmarshal gives it; only read where it parses. */
  function Body(tx: Transaction): TxBody {
    match DecodeBody(tx.txBody)
    case Some(body) => body
    case None => EMPTY_BODY
  }

  /** Unmarshal undoes Marshal. */
  ghost predicate BodyRoundTrips() {
    forall body :: DecodeBody(EncodeBody(body)) == Some(body)
  }

  /** Marshal gives different headers different bytes. */
  ghost predicate HeaderEncodingIsInjective() {
    forall h, h' :: EncodeHeader(h) == EncodeHeader(h') ==> h == h'
  }

  /** `keys.pkey` is the compressed public key of `keys.privateKey`. */
  ghost predicate IsKeyPair(keys: Keys) {
    && |keys.pkey| == PKEY_SIZE
    && forall d: Digest :: VerifyDigest(keys.pkey, d, SignDigest(keys.privateKey, d)[..SIG_SIZE - 1])
  }

  /**
   Two different byte strings, one hashed on each side, with one hash. The sets hold what the two
   computations really hashed: that SOME pair collides is no news, that one of these pairs does is.
   */
  ghost predicate CollisionBetween(A: set<Bytes>, B: set<Bytes>) {
    exists a, b :: a in A && b in B && a != b && Hash(a) == Hash(b)
  }
}
