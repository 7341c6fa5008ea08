/** DistributionPoint: where revocation information for a scope of reasons is published. */
module DistributionPoints {
  import opened Wrappers
  import opened Primitives
  import opened Errors
  import opened Reasons
  import opened TypedNames

  datatype DistributionPoint = DistributionPoint(
    fullName: Option<seq<GeneralName>>,
    relativeName: Option<RelativeDistinguishedName>,
    reasons: Option<set<ReasonFlags>>,
    crlIssuer: Option<seq<GeneralName>>)
  {
    /** The invariant every constructed distribution point keeps: it is not named both ways,
        every reason it lists has a position in the ReasonFlags BIT STRING, and a distribution
        point that lists reasons also says where or by whom the CRL is issued. */
    predicate WellFormed() {
      && !(TruthyList(fullName) && TruthyRdn(relativeName))
      && (reasons.Some? ==> reasons.value <= CRL_REASON_FLAGS.Keys)
      && (TruthySet(reasons) ==> TruthyList(crlIssuer) || TruthyList(fullName) || TruthyRdn(relativeName))
    }
  }

  /** The distribution points that construction can produce. */
  type ValidDistributionPoint = dp: DistributionPoint | dp.WellFormed()
    witness DistributionPoint(None, None, None, None)

  /** `DistributionPoint(full_name, relative_name, reasons, crl_issuer)`. Every rejection is a
      value error; the checks run in the order below, and empty lists and sets count as
      absent. A distribution point that passes stores its arguments unchanged. */
  function NewDistributionPoint(
    fullName: Option<seq<GeneralName>>,
    relativeName: Option<RelativeDistinguishedName>,
    reasons: Option<set<ReasonFlags>>,
    crlIssuer: Option<seq<GeneralName>>): (r: Result<ValidDistributionPoint, Error>)
    ensures r.Success? <==> DistributionPoint(fullName, relativeName, reasons, crlIssuer).WellFormed()
    ensures r.Success? ==> r.value == DistributionPoint(fullName, relativeName, reasons, crlIssuer)
    ensures r.Failure? ==> r.error.ValueErr?
    ensures TruthyList(fullName) && TruthyRdn(relativeName) ==>
      r == Failure(ValueErr(FullNameAndRelativeName))
    ensures !(TruthyList(fullName) && TruthyRdn(relativeName)) && TruthySet(reasons)
      && (Unspecified in reasons.value || RemoveFromCrl in reasons.value)
      ==> r == Failure(ValueErr(ForbiddenReason))
    ensures TruthySet(reasons) && Unspecified !in reasons.value && RemoveFromCrl !in reasons.value
      && !TruthyList(crlIssuer) && !TruthyList(fullName) && !TruthyRdn(relativeName)
      ==> r == Failure(ValueErr(ReasonsWithoutLocation))
  {
    BitMappedReasons();
    if TruthyList(fullName) && TruthyRdn(relativeName) then
      Failure(ValueErr(FullNameAndRelativeName))
    else if TruthySet(reasons) && (Unspecified in reasons.value || RemoveFromCrl in reasons.value) then
      Failure(ValueErr(ForbiddenReason))
    else if TruthySet(reasons) && !TruthyList(crlIssuer) && !(TruthyList(fullName) || TruthyRdn(relativeName)) then
      Failure(ValueErr(ReasonsWithoutLocation))
    else
      var dp: ValidDistributionPoint := DistributionPoint(fullName, relativeName, reasons, crlIssuer);
      Success(dp)
  }

  /** Every reason of a constructed distribution point has a bit position, so its reasons
      encode to the BIT STRING and decode back to the same set. */
  lemma ValidReasonsEncode(dp: ValidDistributionPoint)
    requires dp.reasons.Some?
    ensures forall r :: r in dp.reasons.value ==> r in CRL_REASON_FLAGS && 1 <= CRL_REASON_FLAGS[r] <= 8
    ensures BitsToReasons(ReasonsToBits(dp.reasons.value)) == dp.reasons.value
  {
    ReasonTablesInverse();
    ReasonBitPositions();
    ReasonSetRoundTrip(dp.reasons.value);
  }
}
