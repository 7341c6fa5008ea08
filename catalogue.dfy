/** The catalogue of extension values: one variant per extension class, the class tags used
    for lookups, each class's object identifier, the invariant each class keeps, and the
    serialization boundary. */
module Catalogue {
  import opened Wrappers
  import opened Primitives
  import opened Reasons
  import opened TypedNames
  import opened DistributionPoints
  import opened ExtensionOids

  datatype AccessDescription = AccessDescription(accessMethod: Oid, accessLocation: GeneralName)

  datatype NoticeReference = NoticeReference(organization: Option<string>, noticeNumbers: seq<int>)

  datatype UserNotice = UserNotice(noticeReference: Option<NoticeReference>, explicitText: Option<string>)

  /** A policy qualifier is a CPS URI string or a user notice. */
  datatype PolicyQualifier = CpsUri(uri: string) | Notice(notice: UserNotice)

  datatype PolicyInformation = PolicyInformation(
    policyIdentifier: Oid,
    policyQualifiers: Option<seq<PolicyQualifier>>)

  /** TLS feature extension values (RFC 7633), numbered as TLS extension types. */
  datatype TLSFeatureType = StatusRequest | StatusRequestV2 {
    /** The TLS extension number; the decoding table maps it back to this feature. */
    function Value(): (r: int)
      ensures r in TLS_FEATURE_TYPE_TO_ENUM && TLS_FEATURE_TYPE_TO_ENUM[r] == this
    {
      match this
      case StatusRequest => 5
      case StatusRequestV2 => 17
    }
  }

  /** TLS extension number to feature, for decoding. */
  const TLS_FEATURE_TYPE_TO_ENUM: map<int, TLSFeatureType> := map[5 := StatusRequest, 17 := StatusRequestV2]

  /** The decoding table knows no number other than the features' own, so together with
      `Value` it is a bijection between the features and the numbers 5 and 17. */
  lemma TlsFeatureTableInverse()
    ensures forall n :: n in TLS_FEATURE_TYPE_TO_ENUM ==> TLS_FEATURE_TYPE_TO_ENUM[n].Value() == n
    ensures TLS_FEATURE_TYPE_TO_ENUM.Keys == {5, 17}
  {
  }

  /** An extension value: one variant per extension class of the catalogue. */
  datatype ExtensionValue =
    | CRLNumber(crlNumber: int)
    | AuthorityKeyIdentifier(
        keyIdentifier: Option<Bytes>,
        authorityCertIssuer: Option<seq<GeneralName>>,
        authorityCertSerialNumber: Option<int>)
    | SubjectKeyIdentifier(digest: Bytes)
    | AuthorityInformationAccess(descriptions: seq<AccessDescription>)
    | SubjectInformationAccess(descriptions: seq<AccessDescription>)
    | BasicConstraints(ca: bool, pathLength: Option<int>)
    | DeltaCRLIndicator(crlNumber: int)
    | CRLDistributionPoints(distributionPoints: seq<ValidDistributionPoint>)
    | FreshestCRL(distributionPoints: seq<ValidDistributionPoint>)
    | PolicyConstraints(requireExplicitPolicy: Option<int>, inhibitPolicyMapping: Option<int>)
    | CertificatePolicies(policies: seq<PolicyInformation>)
    | ExtendedKeyUsage(usages: seq<Oid>)
    | OCSPNoCheck
    | PrecertPoison
    | TLSFeature(features: seq<TLSFeatureType>)
    | InhibitAnyPolicy(skipCerts: int)
    | KeyUsage(
        digitalSignature: bool,
        contentCommitment: bool,
        keyEncipherment: bool,
        dataEncipherment: bool,
        keyAgreement: bool,
        keyCertSign: bool,
        crlSign: bool,
        encipherOnlyFlag: bool,   // stored as given; read through Constructors.EncipherOnly
        decipherOnlyFlag: bool)   // stored as given; read through Constructors.DecipherOnly
    | NameConstraints(permittedSubtrees: Option<seq<GeneralName>>, excludedSubtrees: Option<seq<GeneralName>>)
    | SubjectAlternativeName(generalNames: GeneralNames)
    | IssuerAlternativeName(generalNames: GeneralNames)
    | CertificateIssuer(generalNames: GeneralNames)
    | CRLReason(reason: ReasonFlags)
    | InvalidityDate(invalidityDate: DateTime)
    | PrecertificateSignedCertificateTimestamps(signedCertificateTimestamps: seq<SignedCertificateTimestamp>)
    | SignedCertificateTimestamps(signedCertificateTimestamps: seq<SignedCertificateTimestamp>)
    | OCSPNonce(nonce: Bytes)
    | IssuingDistributionPoint(
        fullName: Option<seq<GeneralName>>,
        relativeName: Option<RelativeDistinguishedName>,
        onlyContainsUserCerts: bool,
        onlyContainsCaCerts: bool,
        onlySomeReasons: Option<set<ReasonFlags>>,
        indirectCrl: bool,
        onlyContainsAttributeCerts: bool)
    | UnrecognizedExtension(oid: Oid, value: Bytes)
  {
    /** The invariant of each class, as the catalogue promises it for every constructed value.
        Classes whose constructors only check argument types have none. */
    predicate WellFormed() {
      match this
      case AuthorityKeyIdentifier(_, issuer, serial) =>
        issuer.Some? == serial.Some?
      case BasicConstraints(ca, pathLength) =>
        pathLength.Some? ==> ca && pathLength.value >= 0
      case PolicyConstraints(requireExplicit, inhibitMapping) =>
        requireExplicit.Some? || inhibitMapping.Some?
      case TLSFeature(features) =>
        features != []
      case InhibitAnyPolicy(skipCerts) =>
        skipCerts >= 0
      case KeyUsage(_, _, _, _, keyAgreement, _, _, encipherOnly, decipherOnly) =>
        encipherOnly || decipherOnly ==> keyAgreement
      case NameConstraints(permitted, excluded) =>
        && (permitted.Some? || excluded.Some?)
        && (permitted.Some? ==> ValidSubtrees(permitted.value))
        && (excluded.Some? ==> ValidSubtrees(excluded.value))
      case IssuingDistributionPoint(fullName, relativeName, userCerts, caCerts, reasons, indirect, attributeCerts) =>
        && AtMostOneScope(userCerts, caCerts, indirect, attributeCerts)
        && (userCerts || caCerts || indirect || attributeCerts
            || TruthyList(fullName) || TruthyRdn(relativeName) || TruthySet(reasons))
        && (reasons.Some? ==> reasons.value <= CRL_REASON_FLAGS.Keys)
      case _ => true
    }
  }

  /** The values the validating constructors can produce. */
  type ValidExtensionValue = v: ExtensionValue | v.WellFormed() witness OCSPNoCheck

  /** A subtree list of a name constraint: not empty, and every IP name in it a network. */
  predicate ValidSubtrees(tree: seq<GeneralName>) {
    tree != [] && IpNamesAreNetworks(tree)
  }

  predicate IpNamesAreNetworks(tree: seq<GeneralName>) {
    forall i :: 0 <= i < |tree| && tree[i].IPAddress? ==> tree[i].ip.Network?
  }

  /** No two of the four scope flags of an issuing distribution point hold. */
  predicate AtMostOneScope(a: bool, b: bool, c: bool, d: bool) {
    !(a && b) && !(a && c) && !(a && d) && !(b && c) && !(b && d) && !(c && d)
  }

  /** The extension classes, as a caller names them to `get_extension_for_class`. */
  datatype ExtensionClass =
    | CRLNumberClass
    | AuthorityKeyIdentifierClass
    | SubjectKeyIdentifierClass
    | AuthorityInformationAccessClass
    | SubjectInformationAccessClass
    | BasicConstraintsClass
    | DeltaCRLIndicatorClass
    | CRLDistributionPointsClass
    | FreshestCRLClass
    | PolicyConstraintsClass
    | CertificatePoliciesClass
    | ExtendedKeyUsageClass
    | OCSPNoCheckClass
    | PrecertPoisonClass
    | TLSFeatureClass
    | InhibitAnyPolicyClass
    | KeyUsageClass
    | NameConstraintsClass
    | SubjectAlternativeNameClass
    | IssuerAlternativeNameClass
    | CertificateIssuerClass
    | CRLReasonClass
    | InvalidityDateClass
    | PrecertificateSignedCertificateTimestampsClass
    | SignedCertificateTimestampsClass
    | OCSPNonceClass
    | IssuingDistributionPointClass
    | UnrecognizedExtensionClass

  /** The class a value is an instance of. */
  function ClassOf(v: ExtensionValue): ExtensionClass {
    match v
    case CRLNumber(_) => CRLNumberClass
    case AuthorityKeyIdentifier(_, _, _) => AuthorityKeyIdentifierClass
    case SubjectKeyIdentifier(_) => SubjectKeyIdentifierClass
    case AuthorityInformationAccess(_) => AuthorityInformationAccessClass
    case SubjectInformationAccess(_) => SubjectInformationAccessClass
    case BasicConstraints(_, _) => BasicConstraintsClass
    case DeltaCRLIndicator(_) => DeltaCRLIndicatorClass
    case CRLDistributionPoints(_) => CRLDistributionPointsClass
    case FreshestCRL(_) => FreshestCRLClass
    case PolicyConstraints(_, _) => PolicyConstraintsClass
    case CertificatePolicies(_) => CertificatePoliciesClass
    case ExtendedKeyUsage(_) => ExtendedKeyUsageClass
    case OCSPNoCheck => OCSPNoCheckClass
    case PrecertPoison => PrecertPoisonClass
    case TLSFeature(_) => TLSFeatureClass
    case InhibitAnyPolicy(_) => InhibitAnyPolicyClass
    case KeyUsage(_, _, _, _, _, _, _, _, _) => KeyUsageClass
    case NameConstraints(_, _) => NameConstraintsClass
    case SubjectAlternativeName(_) => SubjectAlternativeNameClass
    case IssuerAlternativeName(_) => IssuerAlternativeNameClass
    case CertificateIssuer(_) => CertificateIssuerClass
    case CRLReason(_) => CRLReasonClass
    case InvalidityDate(_) => InvalidityDateClass
    case PrecertificateSignedCertificateTimestamps(_) => PrecertificateSignedCertificateTimestampsClass
    case SignedCertificateTimestamps(_) => SignedCertificateTimestampsClass
    case OCSPNonce(_) => OCSPNonceClass
    case IssuingDistributionPoint(_, _, _, _, _, _, _) => IssuingDistributionPointClass
    case UnrecognizedExtension(_, _) => UnrecognizedExtensionClass
  }

  /** The class attribute `oid`. UnrecognizedExtension has none at class level: its
      identifier belongs to each instance. */
  function ClassOid(c: ExtensionClass): (r: Option<Oid>)
    ensures r.None? <==> c == UnrecognizedExtensionClass
  {
    match c
    case CRLNumberClass => Some(CRL_NUMBER)
    case AuthorityKeyIdentifierClass => Some(AUTHORITY_KEY_IDENTIFIER)
    case SubjectKeyIdentifierClass => Some(SUBJECT_KEY_IDENTIFIER)
    case AuthorityInformationAccessClass => Some(AUTHORITY_INFORMATION_ACCESS)
    case SubjectInformationAccessClass => Some(SUBJECT_INFORMATION_ACCESS)
    case BasicConstraintsClass => Some(BASIC_CONSTRAINTS)
    case DeltaCRLIndicatorClass => Some(DELTA_CRL_INDICATOR)
    case CRLDistributionPointsClass => Some(CRL_DISTRIBUTION_POINTS)
    case FreshestCRLClass => Some(FRESHEST_CRL)
    case PolicyConstraintsClass => Some(POLICY_CONSTRAINTS)
    case CertificatePoliciesClass => Some(CERTIFICATE_POLICIES)
    case ExtendedKeyUsageClass => Some(EXTENDED_KEY_USAGE)
    case OCSPNoCheckClass => Some(OCSP_NO_CHECK)
    case PrecertPoisonClass => Some(PRECERT_POISON)
    case TLSFeatureClass => Some(TLS_FEATURE)
    case InhibitAnyPolicyClass => Some(INHIBIT_ANY_POLICY)
    case KeyUsageClass => Some(KEY_USAGE)
    case NameConstraintsClass => Some(NAME_CONSTRAINTS)
    case SubjectAlternativeNameClass => Some(SUBJECT_ALTERNATIVE_NAME)
    case IssuerAlternativeNameClass => Some(ISSUER_ALTERNATIVE_NAME)
    case CertificateIssuerClass => Some(CERTIFICATE_ISSUER)
    case CRLReasonClass => Some(CRL_REASON)
    case InvalidityDateClass => Some(INVALIDITY_DATE)
    case PrecertificateSignedCertificateTimestampsClass => Some(PRECERT_SIGNED_CERTIFICATE_TIMESTAMPS)
    case SignedCertificateTimestampsClass => Some(SIGNED_CERTIFICATE_TIMESTAMPS)
    case OCSPNonceClass => Some(OCSP_NONCE)
    case IssuingDistributionPointClass => Some(ISSUING_DISTRIBUTION_POINT)
    case UnrecognizedExtensionClass => None
  }

  /** No two catalogued classes share an identifier. */
  lemma ClassOidInjective(c1: ExtensionClass, c2: ExtensionClass)
    requires ClassOid(c1).Some? && ClassOid(c1) == ClassOid(c2)
    ensures c1 == c2
  {
  }

  /** A value's `oid`: its class's identifier, or, for an UnrecognizedExtension, the
      identifier it was built with. */
  function ValueOid(v: ExtensionValue): Oid {
    if v.UnrecognizedExtension? then v.oid else ClassOid(ClassOf(v)).value
  }

  /** Two catalogued values have the same identifier exactly when they are of the same class. */
  lemma ValueOidsAgree(v: ExtensionValue, w: ExtensionValue)
    requires !v.UnrecognizedExtension? && !w.UnrecognizedExtension?
    ensures ValueOid(v) == ValueOid(w) <==> ClassOf(v) == ClassOf(w)
  {
    if ValueOid(v) == ValueOid(w) {
      ClassOidInjective(ClassOf(v), ClassOf(w));
    }
  }

  /** `public_bytes()`: every catalogued value hands itself to the DER codec `encode`; an
      UnrecognizedExtension returns its stored bytes and never reaches the codec. */
  function PublicBytes(v: ExtensionValue, encode: ExtensionValue -> Bytes): Bytes {
    if v.UnrecognizedExtension? then v.value else encode(v)
  }

  /** The bytes of an UnrecognizedExtension are its stored bytes, whatever the codec; those
      of any other value are the codec's. */
  lemma PublicBytesDispatch(v: ExtensionValue, encode1: ExtensionValue -> Bytes, encode2: ExtensionValue -> Bytes)
    ensures v.UnrecognizedExtension? ==>
      PublicBytes(v, encode1) == v.value && PublicBytes(v, encode1) == PublicBytes(v, encode2)
    ensures !v.UnrecognizedExtension? ==> PublicBytes(v, encode1) == encode1(v)
  {
  }

  /** `get_values_for_type` of SubjectAlternativeName, IssuerAlternativeName and
      CertificateIssuer: delegated to the wrapped general names. */
  function AltNameValuesForType(v: ExtensionValue, t: GeneralNameType): seq<NameValue>
    requires v.SubjectAlternativeName? || v.IssuerAlternativeName? || v.CertificateIssuer?
  {
    GetValuesForType(v.generalNames.names, t)
  }

  /** The three classes answer alike over the same names, and alike as the bare list. */
  lemma AltNamesAgree(names: GeneralNames, t: GeneralNameType)
    ensures AltNameValuesForType(SubjectAlternativeName(names), t) == GetValuesForType(names.names, t)
    ensures AltNameValuesForType(IssuerAlternativeName(names), t) == GetValuesForType(names.names, t)
    ensures AltNameValuesForType(CertificateIssuer(names), t) == GetValuesForType(names.names, t)
  {
  }
}
