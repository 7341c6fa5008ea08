/** Concrete cases of the construction rules, one lemma per situation. */
module ConstructionExamples {
  import opened Wrappers
  import opened Primitives
  import opened Errors
  import opened Reasons
  import opened TypedNames
  import opened DistributionPoints
  import opened Catalogue
  import opened Constructors

  /** key_agreement off with encipher_only on is refused; with key_agreement on, the flags
      read back as given; on a value without key_agreement both accessors fail. */
  lemma KeyUsageCases()
    ensures NewKeyUsage(false, false, false, false, false, false, false, true, false)
      == Failure(ValueErr(OnlyFlagWithoutKeyAgreement))
    ensures var r := NewKeyUsage(true, false, false, false, true, false, false, true, false);
      r.Success? && EncipherOnly(r.value) == Success(true) && DecipherOnly(r.value) == Success(false)
    ensures var r := NewKeyUsage(true, false, false, false, false, false, false, false, false);
      r.Success? && EncipherOnly(r.value).Failure? && DecipherOnly(r.value).Failure?
  {
  }

  /** A full name with a key-compromise scope is accepted; the unspecified reason is not. */
  lemma DistributionPointCases()
    ensures NewDistributionPoint(Some([DNSName("example.com")]), None, Some({KeyCompromise}), None).Success?
    ensures NewDistributionPoint(Some([DNSName("example.com")]), None, Some({Unspecified}), None)
      == Failure(ValueErr(ForbiddenReason))
  {
  }

  /** An issuing distribution point with no flag and nothing else is empty; a single flag
      alone is enough; two flags are too many. */
  lemma IssuingDistributionPointCases()
    ensures NewIssuingDistributionPoint(None, None, false, false, None, false, false)
      == Failure(ValueErr(EmptyIssuingDistributionPoint))
    ensures NewIssuingDistributionPoint(None, None, false, true, None, false, false).Success?
    ensures NewIssuingDistributionPoint(None, None, true, false, None, true, false)
      == Failure(ValueErr(MoreThanOneScope))
  {
  }

  /** A bare address is refused as an IP name constraint; a network is accepted. */
  lemma NameConstraintCases(addr: Bytes, prefix: nat)
    ensures NewNameConstraints(Some([IPAddress(Address(addr))]), None)
      == Failure(TypeErr(IpConstraintNotNetwork))
    ensures NewNameConstraints(Some([IPAddress(Network(addr, prefix))]), None).Success?
  {
  }

  /** A path length without `ca` is a value error even when it is also negative. */
  lemma BasicConstraintsCases()
    ensures NewBasicConstraints(false, Some(-1)) == Failure(ValueErr(PathLengthWithoutCa))
    ensures NewBasicConstraints(true, Some(-1)) == Failure(TypeErr(NegativePathLength))
    ensures NewBasicConstraints(true, Some(0)).Success?
  {
  }
}
