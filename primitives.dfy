/** Value types of collaborators that the extension catalogue stores and compares but never
    looks inside: object identifiers, names, IP payloads, timestamps. */
module Primitives {
  import opened Wrappers

  type Bytes = seq<bv8>

  /** An object identifier, equal to another exactly when their dotted arcs are equal. */
  datatype Oid = Oid(arcs: seq<nat>)

  datatype NameAttribute = NameAttribute(oid: Oid, value: string)

  /** A relative distinguished name; it compares as a set of attributes and its length is
      the number of attributes. */
  datatype RelativeDistinguishedName = RelativeDistinguishedName(attributes: set<NameAttribute>)

  datatype Name = Name(rdns: seq<RelativeDistinguishedName>)

  /** The payload of an IPAddress general name, reduced to what this layer distinguishes:
      a bare address, or a network (an address with a prefix length). */
  datatype IpValue = Address(packed: Bytes) | Network(packed: Bytes, prefixLength: nat)

  /** A signed certificate timestamp, kept as its encoding. */
  datatype SignedCertificateTimestamp = SignedCertificateTimestamp(encoded: Bytes)

  /** A point in time, kept as one number. */
  datatype DateTime = DateTime(microsecondsSinceEpoch: int)

  // Python truthiness of optional arguments: `None` and an empty container are both false.

  predicate TruthyList<T>(o: Option<seq<T>>) {
    o.Some? && |o.value| > 0
  }

  predicate TruthyRdn(o: Option<RelativeDistinguishedName>) {
    o.Some? && |o.value.attributes| > 0
  }

  predicate TruthySet<T(==)>(o: Option<set<T>>) {
    o.Some? && o.value != {}
  }
}
