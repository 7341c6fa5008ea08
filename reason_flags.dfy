/** The CRL reason codes and the ReasonFlags BIT STRING of RFC 5280, section 4.2.1.13:
    bit positions 1 to 8 name eight of the ten reasons; `unspecified` and `removeFromCRL`
    have no position. */
module Reasons {

  datatype ReasonFlags =
    | Unspecified
    | KeyCompromise
    | CaCompromise
    | AffiliationChanged
    | Superseded
    | CessationOfOperation
    | CertificateHold
    | PrivilegeWithdrawn
    | AaCompromise
    | RemoveFromCrl
  {
    /** The enumeration's value: the reason's name in RFC 5280. The two reasons that have no
        bit position are exactly the ones named unspecified and removeFromCRL. */
    function Value(): (r: string)
      ensures this in CRL_REASON_FLAGS <==> r != "unspecified" && r != "removeFromCRL"
    {
      match this
      case Unspecified => "unspecified"
      case KeyCompromise => "keyCompromise"
      case CaCompromise => "cACompromise"
      case AffiliationChanged => "affiliationChanged"
      case Superseded => "superseded"
      case CessationOfOperation => "cessationOfOperation"
      case CertificateHold => "certificateHold"
      case PrivilegeWithdrawn => "privilegeWithdrawn"
      case AaCompromise => "aACompromise"
      case RemoveFromCrl => "removeFromCRL"
    }
  }

  /** Bit position to reason, for decoding a distribution point's reasons. */
  const REASON_BIT_MAPPING: map<int, ReasonFlags> := map[
    1 := KeyCompromise,
    2 := CaCompromise,
    3 := AffiliationChanged,
    4 := Superseded,
    5 := CessationOfOperation,
    6 := CertificateHold,
    7 := PrivilegeWithdrawn,
    8 := AaCompromise
  ]

  /** Reason to bit position, for encoding. */
  const CRL_REASON_FLAGS: map<ReasonFlags, int> := map[
    KeyCompromise := 1,
    CaCompromise := 2,
    AffiliationChanged := 3,
    Superseded := 4,
    CessationOfOperation := 5,
    CertificateHold := 6,
    PrivilegeWithdrawn := 7,
    AaCompromise := 8
  ]

  /** Exactly the positions 1 to 8 are mapped. */
  lemma ReasonBitPositions()
    ensures forall b :: b in REASON_BIT_MAPPING <==> 1 <= b <= 8
  {
  }

  /** Exactly the reasons other than `unspecified` and `removeFromCRL` have a position. */
  lemma BitMappedReasons()
    ensures forall r :: r in CRL_REASON_FLAGS <==> r != Unspecified && r != RemoveFromCrl
  {
  }

  /** The two tables are inverse to each other: together they are a bijection between the
      positions 1 to 8 and the eight positioned reasons. */
  lemma ReasonTablesInverse()
    ensures forall b :: b in REASON_BIT_MAPPING ==>
      REASON_BIT_MAPPING[b] in CRL_REASON_FLAGS && CRL_REASON_FLAGS[REASON_BIT_MAPPING[b]] == b
    ensures forall r :: r in CRL_REASON_FLAGS ==>
      CRL_REASON_FLAGS[r] in REASON_BIT_MAPPING && REASON_BIT_MAPPING[CRL_REASON_FLAGS[r]] == r
  {
  }

  /** No two reasons share a value, so a reason is determined by its name. */
  lemma ReasonValuesDistinct(a: ReasonFlags, b: ReasonFlags)
    ensures a.Value() == b.Value() ==> a == b
  {
  }

  /** The set bits of the BIT STRING that encodes a reason set. */
  function ReasonsToBits(reasons: set<ReasonFlags>): set<int> {
    set r | r in reasons && r in CRL_REASON_FLAGS :: CRL_REASON_FLAGS[r]
  }

  /** The reason set that a BIT STRING's set bits decode to. */
  function BitsToReasons(bits: set<int>): set<ReasonFlags> {
    set b | b in bits && b in REASON_BIT_MAPPING :: REASON_BIT_MAPPING[b]
  }

  /** A reason set of positioned reasons survives encoding and decoding unchanged. */
  lemma ReasonSetRoundTrip(reasons: set<ReasonFlags>)
    requires reasons <= CRL_REASON_FLAGS.Keys
    ensures BitsToReasons(ReasonsToBits(reasons)) == reasons
  {
    ReasonTablesInverse();
    var bits := ReasonsToBits(reasons);
    forall r | r in reasons
      ensures r in BitsToReasons(bits)
    {
      assert CRL_REASON_FLAGS[r] in bits;
    }
    forall r | r in BitsToReasons(bits)
      ensures r in reasons
    {
      var b :| b in bits && b in REASON_BIT_MAPPING && REASON_BIT_MAPPING[b] == r;
      var r' :| r' in reasons && r' in CRL_REASON_FLAGS && CRL_REASON_FLAGS[r'] == b;
      assert r' == r;
    }
  }

  /** A set of positions 1 to 8 survives decoding and encoding unchanged. */
  lemma BitSetRoundTrip(bits: set<int>)
    requires bits <= REASON_BIT_MAPPING.Keys
    ensures ReasonsToBits(BitsToReasons(bits)) == bits
  {
    ReasonTablesInverse();
    var reasons := BitsToReasons(bits);
    forall b | b in bits
      ensures b in ReasonsToBits(reasons)
    {
      assert REASON_BIT_MAPPING[b] in reasons;
    }
    forall b | b in ReasonsToBits(reasons)
      ensures b in bits
    {
      var r :| r in reasons && r in CRL_REASON_FLAGS && CRL_REASON_FLAGS[r] == b;
      var b' :| b' in bits && b' in REASON_BIT_MAPPING && REASON_BIT_MAPPING[b'] == r;
      assert b' == b;
    }
  }
}
