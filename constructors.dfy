/** The validating constructors of the extension classes, the derived constructors of the
    key identifier extensions, and the KeyUsage and SubjectKeyIdentifier accessors.

    Each `NewX` returns the value when the arguments satisfy the class invariant
    `ExtensionValue.WellFormed` and otherwise the error of the first check that fails, in the
    order the checks run. Classes whose constructors only check argument types are built with
    the `ExtensionValue` constructors directly: Dafny's types already rule those errors out. */
module Constructors {
  import opened Wrappers
  import opened Primitives
  import opened Errors
  import opened Reasons
  import opened TypedNames
  import opened KeyIdentifiers
  import opened Catalogue

  /** `AuthorityKeyIdentifier(key_identifier, authority_cert_issuer, authority_cert_serial_number)`:
      the issuer and the serial number are given together or not at all. */
  function NewAuthorityKeyIdentifier(
    keyIdentifier: Option<Bytes>,
    issuer: Option<seq<GeneralName>>,
    serial: Option<int>): (r: Result<ValidExtensionValue, Error>)
    ensures r.Success? <==> issuer.Some? == serial.Some?
    ensures r.Success? ==> r.value == AuthorityKeyIdentifier(keyIdentifier, issuer, serial)
    ensures r.Failure? ==> r.error == ValueErr(IssuerAndSerialMismatch)
  {
    if issuer.None? != serial.None? then Failure(ValueErr(IssuerAndSerialMismatch))
    else
      var v: ValidExtensionValue := AuthorityKeyIdentifier(keyIdentifier, issuer, serial);
      Success(v)
  }

  /** `BasicConstraints(ca, path_length)`: a path length needs `ca`, and is not negative. The
      first rule is checked first and is a value error; the second is a type error. */
  function NewBasicConstraints(ca: bool, pathLength: Option<int>): (r: Result<ValidExtensionValue, Error>)
    ensures r.Success? <==> BasicConstraints(ca, pathLength).WellFormed()
    ensures r.Success? ==> r.value == BasicConstraints(ca, pathLength)
    ensures pathLength.Some? && !ca ==> r == Failure(ValueErr(PathLengthWithoutCa))
    ensures pathLength.Some? && ca && pathLength.value < 0 ==> r == Failure(TypeErr(NegativePathLength))
  {
    if pathLength.Some? && !ca then Failure(ValueErr(PathLengthWithoutCa))
    else if pathLength.Some? && pathLength.value < 0 then Failure(TypeErr(NegativePathLength))
    else
      var v: ValidExtensionValue := BasicConstraints(ca, pathLength);
      Success(v)
  }

  /** `PolicyConstraints(require_explicit_policy, inhibit_policy_mapping)`: at least one is given. */
  function NewPolicyConstraints(requireExplicit: Option<int>, inhibitMapping: Option<int>): (r: Result<ValidExtensionValue, Error>)
    ensures r.Success? <==> requireExplicit.Some? || inhibitMapping.Some?
    ensures r.Success? ==> r.value == PolicyConstraints(requireExplicit, inhibitMapping)
    ensures r.Failure? ==> r.error == ValueErr(NoPolicyConstraint)
  {
    if inhibitMapping.None? && requireExplicit.None? then Failure(ValueErr(NoPolicyConstraint))
    else
      var v: ValidExtensionValue := PolicyConstraints(requireExplicit, inhibitMapping);
      Success(v)
  }

  /** `TLSFeature(features)`: an empty list is refused, with a type error. */
  function NewTLSFeature(features: seq<TLSFeatureType>): (r: Result<ValidExtensionValue, Error>)
    ensures r.Success? <==> |features| > 0
    ensures r.Success? ==> r.value == TLSFeature(features)
    ensures r.Failure? ==> r.error == TypeErr(NoTlsFeatures)
  {
    if |features| == 0 then Failure(TypeErr(NoTlsFeatures))
    else
      var v: ValidExtensionValue := TLSFeature(features);
      Success(v)
  }

  /** `InhibitAnyPolicy(skip_certs)`: a negative count is a value error. */
  function NewInhibitAnyPolicy(skipCerts: int): (r: Result<ValidExtensionValue, Error>)
    ensures r.Success? <==> skipCerts >= 0
    ensures r.Success? ==> r.value == InhibitAnyPolicy(skipCerts)
    ensures r.Failure? ==> r.error == ValueErr(NegativeSkipCerts)
  {
    if skipCerts < 0 then Failure(ValueErr(NegativeSkipCerts))
    else
      var v: ValidExtensionValue := InhibitAnyPolicy(skipCerts);
      Success(v)
  }

  /** `KeyUsage(...)`: encipher_only and decipher_only may be set only with key_agreement. */
  function NewKeyUsage(
    digitalSignature: bool, contentCommitment: bool, keyEncipherment: bool,
    dataEncipherment: bool, keyAgreement: bool, keyCertSign: bool, crlSign: bool,
    encipherOnly: bool, decipherOnly: bool): (r: Result<ValidExtensionValue, Error>)
    ensures r.Success? <==> keyAgreement || (!encipherOnly && !decipherOnly)
    ensures r.Success? ==> r.value == KeyUsage(
      digitalSignature, contentCommitment, keyEncipherment, dataEncipherment,
      keyAgreement, keyCertSign, crlSign, encipherOnly, decipherOnly)
    ensures r.Failure? ==> r.error == ValueErr(OnlyFlagWithoutKeyAgreement)
  {
    if !keyAgreement && (encipherOnly || decipherOnly) then Failure(ValueErr(OnlyFlagWithoutKeyAgreement))
    else
      var v: ValidExtensionValue := KeyUsage(digitalSignature, contentCommitment, keyEncipherment,
        dataEncipherment, keyAgreement, keyCertSign, crlSign, encipherOnly, decipherOnly);
      Success(v)
  }

  /** The `encipher_only` property: undefined, and a value error, unless key_agreement is set. */
  function EncipherOnly(ku: ValidExtensionValue): (r: Result<bool, Error>)
    requires ku.KeyUsage?
    ensures r.Success? <==> ku.keyAgreement
    ensures r.Success? ==> r.value == ku.encipherOnlyFlag
    ensures r.Failure? ==> r.error == ValueErr(EncipherOnlyUndefined)
  {
    if !ku.keyAgreement then Failure(ValueErr(EncipherOnlyUndefined)) else Success(ku.encipherOnlyFlag)
  }

  /** The `decipher_only` property, likewise. */
  function DecipherOnly(ku: ValidExtensionValue): (r: Result<bool, Error>)
    requires ku.KeyUsage?
    ensures r.Success? <==> ku.keyAgreement
    ensures r.Success? ==> r.value == ku.decipherOnlyFlag
    ensures r.Failure? ==> r.error == ValueErr(DecipherOnlyUndefined)
  {
    if !ku.keyAgreement then Failure(ValueErr(DecipherOnlyUndefined)) else Success(ku.decipherOnlyFlag)
  }

  /** The two flags the textual representation shows: the accessors' values, or false for
      both when an accessor is undefined. */
  function ShownOnlyFlags(ku: ValidExtensionValue): (r: (bool, bool))
    requires ku.KeyUsage?
    ensures ku.keyAgreement ==> r == (EncipherOnly(ku).value, DecipherOnly(ku).value)
    ensures !ku.keyAgreement ==> r == (false, false)
  {
    var e := EncipherOnly(ku);
    var d := DecipherOnly(ku);
    if e.Success? && d.Success? then (e.value, d.value) else (false, false)
  }

  /** For a constructed KeyUsage the fallback shows what is stored: without key_agreement
      both flags are necessarily false. */
  lemma ShownOnlyFlagsAreStored(ku: ValidExtensionValue)
    requires ku.KeyUsage?
    ensures ShownOnlyFlags(ku) == (ku.encipherOnlyFlag, ku.decipherOnlyFlag)
  {
  }

  /** KeyUsage equality compares the stored flags; for constructed values that is the same as
      comparing every public property, where an undefined property agrees only with another
      undefined one. */
  lemma KeyUsageEqualityByProperties(a: ValidExtensionValue, b: ValidExtensionValue)
    requires a.KeyUsage? && b.KeyUsage?
    ensures a == b <==>
      && a.digitalSignature == b.digitalSignature
      && a.contentCommitment == b.contentCommitment
      && a.keyEncipherment == b.keyEncipherment
      && a.dataEncipherment == b.dataEncipherment
      && a.keyAgreement == b.keyAgreement
      && a.keyCertSign == b.keyCertSign
      && a.crlSign == b.crlSign
      && EncipherOnly(a) == EncipherOnly(b)
      && DecipherOnly(a) == DecipherOnly(b)
  {
  }

  /** `_validate_ip_name(tree)`: a type error as soon as an IPAddress name holds a single
      address rather than a network. */
  function ValidateIpName(tree: seq<GeneralName>): (r: Result<(), Error>)
    ensures r.Success? <==> IpNamesAreNetworks(tree)
    ensures r.Failure? ==> r.error == TypeErr(IpConstraintNotNetwork)
  {
    if tree == [] then Success(())
    else if tree[0].IPAddress? && !tree[0].ip.Network? then Failure(TypeErr(IpConstraintNotNetwork))
    else
      assert forall i :: 1 <= i < |tree| ==> tree[i] == tree[1..][i - 1];
      ValidateIpName(tree[1..])
  }

  /** `NameConstraints(permitted_subtrees, excluded_subtrees)`: each given list is non-empty
      (a value error) and holds only networks as IP names (a type error), the permitted list
      checked before the excluded one; and at least one list is given. */
  function NewNameConstraints(permitted: Option<seq<GeneralName>>, excluded: Option<seq<GeneralName>>): (r: Result<ValidExtensionValue, Error>)
    ensures r.Success? <==> NameConstraints(permitted, excluded).WellFormed()
    ensures r.Success? ==> r.value == NameConstraints(permitted, excluded)
    ensures permitted == Some([]) ==> r == Failure(ValueErr(EmptyPermittedSubtrees))
    ensures permitted.Some? && permitted.value != [] && !IpNamesAreNetworks(permitted.value)
      ==> r == Failure(TypeErr(IpConstraintNotNetwork))
    ensures (permitted.None? || ValidSubtrees(permitted.value)) && excluded == Some([])
      ==> r == Failure(ValueErr(EmptyExcludedSubtrees))
    ensures (permitted.None? || ValidSubtrees(permitted.value))
      && excluded.Some? && excluded.value != [] && !IpNamesAreNetworks(excluded.value)
      ==> r == Failure(TypeErr(IpConstraintNotNetwork))
    ensures permitted.None? && excluded.None? ==> r == Failure(ValueErr(NoSubtrees))
  {
    if permitted.Some? && permitted.value == [] then Failure(ValueErr(EmptyPermittedSubtrees))
    else if permitted.Some? && ValidateIpName(permitted.value).Failure? then Failure(ValidateIpName(permitted.value).error)
    else if excluded.Some? && excluded.value == [] then Failure(ValueErr(EmptyExcludedSubtrees))
    else if excluded.Some? && ValidateIpName(excluded.value).Failure? then Failure(ValidateIpName(excluded.value).error)
    else if permitted.None? && excluded.None? then Failure(ValueErr(NoSubtrees))
    else
      var v: ValidExtensionValue := NameConstraints(permitted, excluded);
      Success(v)
  }

  /** The number of true flags, `len([x for x in flags if x])`. */
  function TrueCount(flags: seq<bool>): (n: nat)
    ensures n <= |flags|
    ensures n == 0 <==> forall i :: 0 <= i < |flags| ==> !flags[i]
  {
    if flags == [] then 0
    else
      assert forall i :: 1 <= i < |flags| ==> flags[i] == flags[1..][i - 1];
      (if flags[0] then 1 else 0) + TrueCount(flags[1..])
  }

  /** Counting the four scope flags is the pairwise exclusion of the invariant. */
  lemma ScopeCount(a: bool, b: bool, c: bool, d: bool)
    ensures TrueCount([a, b, c, d]) <= 1 <==> AtMostOneScope(a, b, c, d)
  {
    var s4, s3, s2, s1 := [a, b, c, d], [b, c, d], [c, d], [d];
    assert s4[1..] == s3 && s3[1..] == s2 && s2[1..] == s1 && s1[1..] == [];
    assert TrueCount(s1) == (if d then 1 else 0);
    assert TrueCount(s2) == (if c then 1 else 0) + TrueCount(s1);
    assert TrueCount(s3) == (if b then 1 else 0) + TrueCount(s2);
    assert TrueCount(s4) == (if a then 1 else 0) + TrueCount(s3);
  }

  /** The invariant of an issuing distribution point is the conjunction of the three checks
      its constructor runs. */
  lemma IssuingDistributionPointChecks(
    fullName: Option<seq<GeneralName>>,
    relativeName: Option<RelativeDistinguishedName>,
    userCerts: bool,
    caCerts: bool,
    reasons: Option<set<ReasonFlags>>,
    indirect: bool,
    attributeCerts: bool)
    ensures IssuingDistributionPoint(fullName, relativeName, userCerts, caCerts, reasons, indirect, attributeCerts).WellFormed()
      <==>
      && !(TruthySet(reasons) && (Unspecified in reasons.value || RemoveFromCrl in reasons.value))
      && TrueCount([userCerts, caCerts, indirect, attributeCerts]) <= 1
      && (userCerts || caCerts || indirect || attributeCerts
          || TruthyList(fullName) || TruthyRdn(relativeName) || TruthySet(reasons))
  {
    BitMappedReasons();
    ScopeCount(userCerts, caCerts, indirect, attributeCerts);
  }

  /** `IssuingDistributionPoint(...)`: a non-empty reasons set excludes unspecified and
      remove_from_crl; at most one of the four scope flags is set; and the extension is not
      empty. Every rejection is a value error, and the checks run in this order. */
  function NewIssuingDistributionPoint(
    fullName: Option<seq<GeneralName>>,
    relativeName: Option<RelativeDistinguishedName>,
    userCerts: bool,
    caCerts: bool,
    reasons: Option<set<ReasonFlags>>,
    indirect: bool,
    attributeCerts: bool): (r: Result<ValidExtensionValue, Error>)
    ensures r.Success? <==>
      IssuingDistributionPoint(fullName, relativeName, userCerts, caCerts, reasons, indirect, attributeCerts).WellFormed()
    ensures r.Success? ==>
      r.value == IssuingDistributionPoint(fullName, relativeName, userCerts, caCerts, reasons, indirect, attributeCerts)
    ensures r.Failure? ==> r.error.ValueErr?
    ensures TruthySet(reasons) && (Unspecified in reasons.value || RemoveFromCrl in reasons.value)
      ==> r == Failure(ValueErr(ForbiddenReason))
    ensures (reasons.Some? ==> Unspecified !in reasons.value && RemoveFromCrl !in reasons.value)
      && !AtMostOneScope(userCerts, caCerts, indirect, attributeCerts)
      ==> r == Failure(ValueErr(MoreThanOneScope))
    ensures !userCerts && !caCerts && !indirect && !attributeCerts
      && !TruthyList(fullName) && !TruthyRdn(relativeName) && !TruthySet(reasons)
      ==> r == Failure(ValueErr(EmptyIssuingDistributionPoint))
  {
    IssuingDistributionPointChecks(fullName, relativeName, userCerts, caCerts, reasons, indirect, attributeCerts);
    if TruthySet(reasons) && (Unspecified in reasons.value || RemoveFromCrl in reasons.value) then
      Failure(ValueErr(ForbiddenReason))
    else if TrueCount([userCerts, caCerts, indirect, attributeCerts]) > 1 then
      Failure(ValueErr(MoreThanOneScope))
    else if !(userCerts || caCerts || indirect || attributeCerts
              || TruthyList(fullName) || TruthyRdn(relativeName) || TruthySet(reasons)) then
      Failure(ValueErr(EmptyIssuingDistributionPoint))
    else
      var v: ValidExtensionValue :=
        IssuingDistributionPoint(fullName, relativeName, userCerts, caCerts, reasons, indirect, attributeCerts);
      Success(v)
  }

  /** `SubjectKeyIdentifier.from_public_key`: the digest derived from the key. */
  function SubjectKeyIdentifierFromPublicKey(key: PublicKey, svc: KeyServices): ValidExtensionValue {
    SubjectKeyIdentifier(KeyIdentifierFromPublicKey(key, svc))
  }

  /** The `key_identifier` property of a subject key identifier is its digest. */
  function SkiKeyIdentifier(ski: ValidExtensionValue): (r: Bytes)
    requires ski.SubjectKeyIdentifier?
    ensures SubjectKeyIdentifier(r) == ski
  {
    ski.digest
  }

  /** SubjectKeyIdentifier equality: a constant-time comparison of the digests, which holds
      exactly when the two values are equal. */
  function SkiEquals(a: ValidExtensionValue, b: ValidExtensionValue): (r: bool)
    requires a.SubjectKeyIdentifier? && b.SubjectKeyIdentifier?
    ensures r <==> a == b
  {
    a.digest == b.digest
  }

  /** `AuthorityKeyIdentifier.from_issuer_public_key`: goes through the validating
      constructor, with neither issuer nor serial number, which always succeeds. */
  function AuthorityKeyIdentifierFromIssuerPublicKey(key: PublicKey, svc: KeyServices): (r: ValidExtensionValue)
    ensures NewAuthorityKeyIdentifier(Some(KeyIdentifierFromPublicKey(key, svc)), None, None) == Success(r)
    ensures r.AuthorityKeyIdentifier? && r.keyIdentifier == Some(KeyIdentifierFromPublicKey(key, svc))
  {
    NewAuthorityKeyIdentifier(Some(KeyIdentifierFromPublicKey(key, svc)), None, None).value
  }

  /** `AuthorityKeyIdentifier.from_issuer_subject_key_identifier`: the issuer's digest as key
      identifier, through the validating constructor. */
  function AuthorityKeyIdentifierFromIssuerSubjectKeyIdentifier(ski: ValidExtensionValue): (r: ValidExtensionValue)
    requires ski.SubjectKeyIdentifier?
    ensures NewAuthorityKeyIdentifier(Some(ski.digest), None, None) == Success(r)
    ensures r.AuthorityKeyIdentifier? && r.keyIdentifier == Some(ski.digest)
    ensures r.authorityCertIssuer.None? && r.authorityCertSerialNumber.None?
  {
    NewAuthorityKeyIdentifier(Some(ski.digest), None, None).value
  }

  /** An authority key identifier derived from the issuer's key equals one derived from the
      issuer's subject key identifier, when that was derived from the same key; so the key
      identifiers of issuer and subject match. */
  lemma DerivationsAgree(key: PublicKey, svc: KeyServices)
    ensures AuthorityKeyIdentifierFromIssuerSubjectKeyIdentifier(SubjectKeyIdentifierFromPublicKey(key, svc))
      == AuthorityKeyIdentifierFromIssuerPublicKey(key, svc)
    ensures AuthorityKeyIdentifierFromIssuerPublicKey(key, svc).keyIdentifier
      == Some(SkiKeyIdentifier(SubjectKeyIdentifierFromPublicKey(key, svc)))
  {
  }
}
