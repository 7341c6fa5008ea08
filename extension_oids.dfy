/** The object identifiers of the catalogued extensions, as assigned by RFC 5280 (id-ce
    arcs 2.5.29), RFC 5280 and RFC 7633 (id-pe arcs 1.3.6.1.5.5.7.1), RFC 6960 (id-pkix-ocsp
    arcs 1.3.6.1.5.5.7.48.1) and RFC 6962 (1.3.6.1.4.1.11129.2.4). */
module ExtensionOids {
  import opened Primitives

  const SUBJECT_KEY_IDENTIFIER := Oid([2, 5, 29, 14])
  const KEY_USAGE := Oid([2, 5, 29, 15])
  const SUBJECT_ALTERNATIVE_NAME := Oid([2, 5, 29, 17])
  const ISSUER_ALTERNATIVE_NAME := Oid([2, 5, 29, 18])
  const BASIC_CONSTRAINTS := Oid([2, 5, 29, 19])
  const CRL_NUMBER := Oid([2, 5, 29, 20])
  const CRL_REASON := Oid([2, 5, 29, 21])
  const INVALIDITY_DATE := Oid([2, 5, 29, 24])
  const DELTA_CRL_INDICATOR := Oid([2, 5, 29, 27])
  const ISSUING_DISTRIBUTION_POINT := Oid([2, 5, 29, 28])
  const CERTIFICATE_ISSUER := Oid([2, 5, 29, 29])
  const NAME_CONSTRAINTS := Oid([2, 5, 29, 30])
  const CRL_DISTRIBUTION_POINTS := Oid([2, 5, 29, 31])
  const CERTIFICATE_POLICIES := Oid([2, 5, 29, 32])
  const AUTHORITY_KEY_IDENTIFIER := Oid([2, 5, 29, 35])
  const POLICY_CONSTRAINTS := Oid([2, 5, 29, 36])
  const EXTENDED_KEY_USAGE := Oid([2, 5, 29, 37])
  const FRESHEST_CRL := Oid([2, 5, 29, 46])
  const INHIBIT_ANY_POLICY := Oid([2, 5, 29, 54])
  const AUTHORITY_INFORMATION_ACCESS := Oid([1, 3, 6, 1, 5, 5, 7, 1, 1])
  const SUBJECT_INFORMATION_ACCESS := Oid([1, 3, 6, 1, 5, 5, 7, 1, 11])
  const TLS_FEATURE := Oid([1, 3, 6, 1, 5, 5, 7, 1, 24])
  const OCSP_NONCE := Oid([1, 3, 6, 1, 5, 5, 7, 48, 1, 2])
  const OCSP_NO_CHECK := Oid([1, 3, 6, 1, 5, 5, 7, 48, 1, 5])
  const PRECERT_SIGNED_CERTIFICATE_TIMESTAMPS := Oid([1, 3, 6, 1, 4, 1, 11129, 2, 4, 2])
  const PRECERT_POISON := Oid([1, 3, 6, 1, 4, 1, 11129, 2, 4, 3])
  const SIGNED_CERTIFICATE_TIMESTAMPS := Oid([1, 3, 6, 1, 4, 1, 11129, 2, 4, 5])
}
