/** Derivation of a key identifier from a public key: SHA-1 over an encoding that depends on
    the kind of key. Serialization, SubjectPublicKeyInfo parsing and hashing belong to other
    libraries; they are given as the functions of a `KeyServices` value. */
module KeyIdentifiers {
  import opened Primitives

  datatype KeyKind = RsaKey | EllipticCurveKey | OtherKey

  /** A public key: its kind and key material the serializer understands. */
  datatype PublicKey = PublicKey(kind: KeyKind, material: Bytes)

  datatype Encoding = Der | X962

  datatype PublicFormat = Pkcs1 | UncompressedPoint | SubjectPublicKeyInfo

  /** The collaborators: key serialization, extraction of the BIT STRING payload of a
      SubjectPublicKeyInfo, and the SHA-1 digest. */
  datatype KeyServices = KeyServices(
    publicBytes: (PublicKey, Encoding, PublicFormat) -> Bytes,
    parseSpkiForData: Bytes -> Bytes,
    sha1: Bytes -> Bytes)

  /** The bytes that are hashed: PKCS#1 DER for RSA keys, the uncompressed point for
      elliptic-curve keys, and otherwise the key bits of the SubjectPublicKeyInfo. */
  function KeyIdentifierData(key: PublicKey, svc: KeyServices): Bytes {
    match key.kind
    case RsaKey => svc.publicBytes(key, Der, Pkcs1)
    case EllipticCurveKey => svc.publicBytes(key, X962, UncompressedPoint)
    case OtherKey => svc.parseSpkiForData(svc.publicBytes(key, Der, SubjectPublicKeyInfo))
  }

  /** The digest function is SHA-1 in width: every digest is 20 bytes. */
  ghost predicate Sha1Width(svc: KeyServices) {
    forall b :: |svc.sha1(b)| == 20
  }

  /** The key identifier: the SHA-1 digest of the dispatched encoding, so 20 bytes long
      whatever the key. */
  function KeyIdentifierFromPublicKey(key: PublicKey, svc: KeyServices): (r: Bytes)
    ensures Sha1Width(svc) ==> |r| == 20
  {
    svc.sha1(KeyIdentifierData(key, svc))
  }

  /** Only keys that are neither RSA nor elliptic-curve go through the SubjectPublicKeyInfo
      parser, and for those only the parser's answer on the key's own SubjectPublicKeyInfo
      matters. */
  lemma KeyIdentifierParserUse(key: PublicKey, svc: KeyServices, parser: Bytes -> Bytes)
    ensures key.kind != OtherKey ==>
      KeyIdentifierFromPublicKey(key, svc)
        == KeyIdentifierFromPublicKey(key, svc.(parseSpkiForData := parser))
    ensures var spki := svc.publicBytes(key, Der, SubjectPublicKeyInfo);
      parser(spki) == svc.parseSpkiForData(spki) ==>
      KeyIdentifierFromPublicKey(key, svc)
        == KeyIdentifierFromPublicKey(key, svc.(parseSpkiForData := parser))
  {
  }
}
