# X.509 extension values, modelled in Dafny

This project models the extension layer of an X.509 library, `extensions.py`. That layer holds
the catalogue of certificate, CRL and OCSP extension values of section 4.2 of RFC 5280.

- Every extension class becomes one variant of `Catalogue.ExtensionValue`.
- Each validating constructor becomes a function `NewX` returning a `Result`: in module
  `Constructors`, except `DistributionPoints.NewDistributionPoint`.
  A `Result` is either the constructed value or one error.
- An error is `TypeErr` or `ValueErr`, kept apart as the library keeps `TypeError` and
  `ValueError` apart. Each error names the rule that was broken.
- `ExtensionValue.WellFormed` states each class's invariant declaratively. Each constructor is
  proved to succeed exactly when its candidate value is well formed, and then to store its
  arguments unchanged. Each rule is also proved to give its error kind, in the order the
  checks run.
- `Catalogue.ValidExtensionValue` is the subtype of well-formed values. The constructors
  return it and `Extension` stores it, since a value is validated once, when it is built.
  That it stays well formed rests on nobody changing its stored lists (see "## Left out").

Around the catalogue:

- The `Extensions` container and its two early-return lookups are methods with loop
  invariants (`ExtensionsContainer`).
- The `GeneralNames` typed filter is `TypedNames`.
- The `ReasonFlags` BIT STRING tables are `Reasons`. They follow section 4.2.1.13 of RFC 5280.
- `DistributionPoint` has its own validated subtype (`DistributionPoints`).
- The sequence protocol shared by the list-valued classes is `SequenceMethods`.
- Key-identifier derivation is `KeyIdentifiers`.

Object identifiers follow RFC 5280 (2.5.29.x), RFC 6960 (OCSP nonce and no-check), RFC 6962
(certificate transparency) and RFC 7633 (TLS feature). The identifier table itself is not
part of this model.

Foreign collaborators are parameters, so the model only ever applies them:

- The DER encoder behind `public_bytes` is a function argument `encode`.
- The serializer, the SubjectPublicKeyInfo parser and SHA-1 are the fields of one
  `KeyServices` value.

Classes whose constructors only check argument types are built with the `ExtensionValue`
constructors directly, because Dafny's types rule those errors out. These are CRLNumber,
DeltaCRLIndicator, the information-access classes, CRLDistributionPoints, FreshestCRL,
CertificatePolicies, ExtendedKeyUsage, the alternative-name classes, CRLReason,
InvalidityDate, the timestamp lists, OCSPNonce, SubjectKeyIdentifier, OCSPNoCheck,
PrecertPoison and UnrecognizedExtension.

## Model

| member | source | states |
|---|---|---|
| SequenceMethods.GetItem | extensions.py:80-81 | indexing succeeds exactly for -len <= idx < len; a negative index counts from the end; otherwise IndexError |
| SequenceMethods.DelegateToWrappedList | extensions.py:73-83 | len, iteration and indexing describe the same wrapped list; index i and i - len name one element |
| Reasons.ReasonFlags.Value | extensions.py:691-701 | the two reasons without a bit position are exactly those named unspecified and removeFromCRL |
| Reasons.ReasonValuesDistinct | extensions.py:691-701 | no two reasons share a value |
| Reasons.ReasonBitPositions | extensions.py:716-725 | the bit table covers exactly positions 1 to 8 |
| Reasons.BitMappedReasons | extensions.py:727-736 | a reason has a bit position exactly when it is neither unspecified nor removeFromCRL |
| Reasons.ReasonTablesInverse | extensions.py:716-736 | the reason-to-bit and bit-to-reason tables are inverse bijections |
| Reasons.ReasonSetRoundTrip | extensions.py:716-736 | a set of bit-mapped reasons encodes to bits and decodes back to itself |
| Reasons.BitSetRoundTrip | extensions.py:716-736 | a set of positions 1 to 8 decodes to reasons and encodes back to itself |
| TypedNames.PositionsOfType | extensions.py:1485 | the selected positions are in range and each holds a name of the requested type |
| TypedNames.PositionsIncrease | extensions.py:1485 | the selected positions are strictly increasing, so each is selected once and in list order |
| TypedNames.PositionsComplete | extensions.py:1485 | every position holding a name of the requested type is selected |
| TypedNames.GetValuesForType | extensions.py:1485-1488 | entry k of the result is the projection of the k-th name of the requested type, with as many entries as such names; OtherName entries are the names themselves; no match gives an empty list, never an error |
| TypedNames.GetValuesForTypeMembers | extensions.py:1485-1488 | every name of the requested type is projected into the result and nothing else is; the result is no longer than the list |
| TypedNames.GetValuesForTypeShapes | extensions.py:1485-1488 | every entry has the shape of the requested type: text, a Name, an identifier, an IP payload or a whole OtherName |
| TypedNames.GetValuesForTypeAppend | extensions.py:1485-1488 | filtering a concatenation is the concatenation of the filtered parts, so order is kept |
| TypedNames.GetValuesForTypeSingle | extensions.py:1485-1488 | a single name yields its payload (or itself for OtherName) under its own type and nothing under any other |
| TypedNames.EveryNameHasOneType | extensions.py:1485-1488 | the seven typed filters partition the list: their lengths sum to its length |
| KeyIdentifiers.KeyIdentifierFromPublicKey | extensions.py:70 | with a SHA-1-width digest the identifier is 20 bytes long, whatever the kind of key |
| KeyIdentifiers.KeyIdentifierParserUse | extensions.py:49-70 | the parser matters only for keys that are neither RSA nor elliptic-curve, and then only through its answer on the key's own SubjectPublicKeyInfo |
| DistributionPoints.NewDistributionPoint | extensions.py:587-637 | succeeds iff not both names are non-empty, non-empty reasons avoid unspecified and removeFromCRL, and non-empty reasons come with a name or CRL issuer; each failure is the value error of the first broken rule; success stores the arguments |
| DistributionPoints.ValidReasonsEncode | extensions.py:716-736 | every reason of a constructed distribution point has a bit in 1 to 8 and the reason set round-trips through the BIT STRING |
| Catalogue.TLSFeatureType.Value | extensions.py:1081-1092 | the decoding table maps each feature's number back to that feature |
| Catalogue.TlsFeatureTableInverse | extensions.py:1081-1092 | the decoding table knows exactly the numbers 5 and 17, and maps each to the feature with that number |
| Catalogue.ClassOid | extensions.py:98-99 | every class but UnrecognizedExtension has a class-level identifier |
| Catalogue.ClassOidInjective | extensions.py:98-99 | no two classes share an identifier |
| Catalogue.ValueOidsAgree | extensions.py:98-99 | two catalogued values have the same identifier exactly when they are of the same class |
| Catalogue.PublicBytesDispatch | extensions.py:2113-2114 | an UnrecognizedExtension's bytes are its stored bytes whatever the encoder; any other value's bytes are the encoder's |
| Catalogue.AltNamesAgree | extensions.py:1566 | SubjectAlternativeName, IssuerAlternativeName and CertificateIssuer answer get_values_for_type as their general names do |
| Constructors.NewAuthorityKeyIdentifier | extensions.py:189-195 | succeeds iff issuer and serial are both given or both absent, else the mismatch value error; success stores the arguments |
| Constructors.NewBasicConstraints | extensions.py:437-448 | a path length without ca is a value error, checked first; a negative path length is a type error; success iff the path length is absent, or ca holds and it is at least 0 |
| Constructors.NewPolicyConstraints | extensions.py:762-769 | succeeds iff at least one field is given, else a value error; negative values are accepted |
| Constructors.NewTLSFeature | extensions.py:1052-1062 | succeeds iff the feature list is non-empty, else a type error |
| Constructors.NewInhibitAnyPolicy | extensions.py:1102-1105 | succeeds iff skip_certs is at least 0, else a value error |
| Constructors.NewKeyUsage | extensions.py:1142-1156 | succeeds iff key_agreement holds or neither only-flag is set, else a value error; success stores all nine flags |
| Constructors.EncipherOnly | extensions.py:1186-1193 | defined iff key_agreement holds, and then the stored flag; otherwise a value error |
| Constructors.DecipherOnly | extensions.py:1195-1202 | defined iff key_agreement holds, and then the stored flag; otherwise a value error |
| Constructors.ShownOnlyFlags | extensions.py:1204-1213 | the representation shows the accessors' values, or false for both when they are undefined |
| Constructors.ShownOnlyFlagsAreStored | extensions.py:1204-1213 | for a constructed KeyUsage, the shown flags are the stored ones |
| Constructors.KeyUsageEqualityByProperties | extensions.py:1225-1239 | two constructed KeyUsage values are equal iff all their public properties agree, undefined matching undefined |
| Constructors.ValidateIpName | extensions.py:1314-1325 | fails with the type error iff some IPAddress name holds a bare address |
| Constructors.NewNameConstraints | extensions.py:1268-1300 | empty permitted list is a value error, then bare-address permitted names a type error, then the same two for the excluded list, then both absent a value error; success iff the invariant holds, storing both lists |
| Constructors.TrueCount | extensions.py:1968-1975 | the count of true flags is at most their number and is 0 iff none is true |
| Constructors.ScopeCount | extensions.py:1968-1980 | more than one true scope flag is the same as some two being true together |
| Constructors.IssuingDistributionPointChecks | extensions.py:1947-1999 | the invariant of an issuing distribution point is exactly the conjunction of the three checks the constructor runs |
| Constructors.NewIssuingDistributionPoint | extensions.py:1947-1999 | a non-empty reasons set with unspecified or removeFromCRL fails first, then more than one scope flag, then an empty extension; each is a value error; success iff the invariant holds, storing the arguments |
| Constructors.SkiKeyIdentifier | extensions.py:304-306 | the key identifier is the digest: rebuilding from it gives the same value |
| Constructors.SkiEquals | extensions.py:311-315 | two subject key identifiers compare equal iff they are the same value |
| Constructors.AuthorityKeyIdentifierFromIssuerPublicKey | extensions.py:221-230 | the validating constructor accepts the derived key identifier with no issuer and serial |
| Constructors.AuthorityKeyIdentifierFromIssuerSubjectKeyIdentifier | extensions.py:232-240 | the digest is copied as key identifier, issuer and serial stay absent, through the validating constructor |
| Constructors.DerivationsAgree | extensions.py:221-240 | deriving from the issuer's key equals deriving from the subject key identifier of that key |
| ExtensionsContainer.GetExtensionForOid | extensions.py:118-125 | returns the first extension with that identifier; fails with not-found carrying the identifier iff none matches, so always on an empty container |
| ExtensionsContainer.GetExtensionForClass | extensions.py:127-143 | UnrecognizedExtension is refused with a type error whatever the contents; otherwise the first extension of that class, or not-found carrying the class's identifier iff there is none |
| ExtensionsContainer.ClassAndOidLookupsAgree | extensions.py:118-143 | when identifiers match values' identifiers, looking up a class and looking up its identifier find the same position |
| ConstructionExamples.KeyUsageCases | extensions.py:1142-1202 | key_agreement off with encipher_only on fails; with key_agreement on the flags read back; without it both accessors fail |
| ConstructionExamples.DistributionPointCases | extensions.py:619-627 | a full name with key-compromise reasons succeeds; the unspecified reason fails |
| ConstructionExamples.IssuingDistributionPointCases | extensions.py:1968-1999 | no flag and nothing else is empty; one flag alone succeeds; two flags fail |
| ConstructionExamples.NameConstraintCases | extensions.py:1314-1325 | a bare address is refused, a network is accepted |
| ConstructionExamples.BasicConstraintsCases | extensions.py:437-445 | without ca a negative path length is still the value error; with ca it is the type error |

## Left out

- KeyIdentifierData, SubjectKeyIdentifierFromPublicKey, Catalogue.ValueOid,
  Catalogue.ClassOf, Catalogue.PublicBytes, Catalogue.AltNameValuesForType,
  SequenceMethods.Len, SequenceMethods.Iter: definitions only, with no contract of their own.
  Their properties are stated by lemmas:
  - KeyIdentifierData and SubjectKeyIdentifierFromPublicKey (extensions.py:49-70, 294-298) by
    KeyIdentifierParserUse and DerivationsAgree;
  - ValueOid, the `oid` class attribute and the UnrecognizedExtension `oid` property
    (extensions.py:98-99, 2090-2092), by ValueOidsAgree and ClassAndOidLookupsAgree;
  - ClassOf, the `isinstance` test of extensions.py:138, by ValueOidsAgree and by the
    contract of GetExtensionForClass;
  - PublicBytes (extensions.py:177 and its copies in every class, 2113-2114) by
    PublicBytesDispatch;
  - AltNameValuesForType, the delegation of extensions.py:1566, 1647 and 1728, by
    AltNamesAgree;
  - Len and Iter (extensions.py:74-78) by DelegateToWrappedList.
- Several properties hand out the stored list itself: `authority_cert_issuer`
  (extensions.py:278), DistributionPoint `full_name` (676), `permitted_subtrees` (1354) and
  IssuingDistributionPoint `full_name` (2051); `excluded_subtrees` and `crl_issuer` likewise. A
  caller can empty such a list in place and break the invariant the constructor checked. The
  model's values never change, so ValidExtensionValue and ValidDistributionPoint hold only on
  the assumption that nobody mutates those lists.

- The DER encoder (`encode_extension_value`) is a function parameter: the model states only
  which values reach it.
- SHA-1, key serialization and SubjectPublicKeyInfo parsing are fields of `KeyServices`.
  The model does not restrict issuer keys to exclude X25519 and X448: that restriction lives
  only in type annotations.
- `__hash__` and `__repr__` strings are not specifiable; only the KeyUsage representation's
  choice of flags is modelled. Equality is Dafny's structural equality of the datatypes.
- `constant_time.bytes_eq`: its timing behaviour is not modelled; it is sequence equality.
- `isinstance` checks on element types and on bool-ness are enforced by Dafny's types and are
  not modelled as errors. This includes the type-only constructors listed above,
  `Extension`'s identifier and criticality checks, and the frozenset check on reason sets.
- `__getitem__` with a slice is not modelled; only integer indices are.
- Iterable arguments are modelled as lists. At extensions.py:587, DistributionPoint tests
  `full_name and relative_name` before it turns `full_name` into a list. A generator is
  truthy even when it yields nothing, so a call with an empty generator as full name and a
  non-empty relative name raises ValueError. The model sees an empty list, for which
  `NewDistributionPoint` succeeds.
- `get_values_for_type` with the `GeneralName` base class is not modelled. There,
  `isinstance` at extensions.py:1485 selects every name; `GeneralNameType` has a tag only
  for each concrete variant.
- `get_extension_for_class` with the abstract base class or a user subclass is not modelled;
  the closed `ExtensionClass` enumeration stands for the concrete classes.
- `DuplicateExtension`: extensions.py declares this exception (extensions.py:86-89) but never
  raises it, so `Errors.Error` has no variant for it.
- Object identifier, name, relative distinguished name, timestamp and IP address internals
  are reduced to plain datatypes. The IP payload is only an address or a network.
- The OID registry module is not part of this model; the constants come from the RFCs above.

## Behaviour worth noting

- IssuingDistributionPoint has no rule that full_name and relative_name exclude each other
  (extensions.py:1936-1999), and neither does the model.
- DistributionPoint and IssuingDistributionPoint accept an empty reasons set. Their reason
  checks test the set's truthiness (extensions.py:619, 1947).
- The KeyUsage `encipher_only` and `decipher_only` accessors raise ValueError when
  key_agreement is false (extensions.py:1189, 1198). There is no separate error kind, so the
  model uses `ValueErr`.
- `IssuingDistributionPoint.__hash__` hashes a tuple that holds the `full_name` list
  (extensions.py:2036-2047). A list cannot be hashed, so hashing raises TypeError whenever a
  full name is given, even an empty one. Hashing is not part of this model.
- PolicyConstraints accepts negative values (extensions.py:747-766), although its type-error
  message says "non-negative".
