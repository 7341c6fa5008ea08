/** The exceptions raised by the extension layer. Type errors and value errors are kept
    apart, as the library keeps them apart, and each carries the rule that was broken. */
module Errors {
  import opened Primitives

  /** Which construction-time or lookup rule an argument list broke. */
  datatype Rule =
    // AuthorityKeyIdentifier
    | IssuerAndSerialMismatch
    // BasicConstraints
    | PathLengthWithoutCa
    | NegativePathLength
    // DistributionPoint and IssuingDistributionPoint
    | FullNameAndRelativeName
    | ForbiddenReason
    | ReasonsWithoutLocation
    | MoreThanOneScope
    | EmptyIssuingDistributionPoint
    // PolicyConstraints
    | NoPolicyConstraint
    // TLSFeature
    | NoTlsFeatures
    // InhibitAnyPolicy
    | NegativeSkipCerts
    // KeyUsage
    | OnlyFlagWithoutKeyAgreement
    | EncipherOnlyUndefined
    | DecipherOnlyUndefined
    // NameConstraints
    | EmptyPermittedSubtrees
    | EmptyExcludedSubtrees
    | IpConstraintNotNetwork
    | NoSubtrees
    // Extensions.get_extension_for_class
    | UnrecognizedClassLookup

  datatype Error =
    | TypeErr(rule: Rule)               // TypeError
    | ValueErr(rule: Rule)              // ValueError
    | ExtensionNotFound(oid: Oid)       // ExtensionNotFound, carrying the identifier sought
    | IndexErr                          // IndexError from indexing a wrapped list
}
