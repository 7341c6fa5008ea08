/** The Extension record and the Extensions container with its two lookups. */
module ExtensionsContainer {
  import opened Wrappers
  import opened Primitives
  import opened Errors
  import opened Catalogue

  /** One extension: its identifier, its criticality and a constructed value. The value is
      not checked against the identifier: the record stores whatever it is given. */
  datatype Extension = Extension(oid: Oid, critical: bool, value: ValidExtensionValue)

  /** An ordered list of extensions, in the order they were given. */
  datatype Extensions = Extensions(extensions: seq<Extension>)

  /** Index i holds the first extension whose identifier is `oid`. */
  predicate FirstWithOidAt(exts: seq<Extension>, oid: Oid, i: int) {
    0 <= i < |exts| && exts[i].oid == oid && forall j :: 0 <= j < i ==> exts[j].oid != oid
  }

  /** Index i holds the first extension whose value is an instance of class `c`. */
  predicate FirstOfClassAt(exts: seq<Extension>, c: ExtensionClass, i: int) {
    0 <= i < |exts| && ClassOf(exts[i].value) == c && forall j :: 0 <= j < i ==> ClassOf(exts[j].value) != c
  }

  /** `get_extension_for_oid`: the first extension with that identifier, or ExtensionNotFound
      carrying the identifier when there is none. */
  method GetExtensionForOid(exts: Extensions, oid: Oid) returns (r: Result<Extension, Error>)
    ensures r.Success? ==> exists i :: FirstWithOidAt(exts.extensions, oid, i) && exts.extensions[i] == r.value
    ensures r.Failure? ==> r.error == ExtensionNotFound(oid)
    ensures r.Failure? <==> forall j :: 0 <= j < |exts.extensions| ==> exts.extensions[j].oid != oid
  {
    var i := 0;
    while i < |exts.extensions|
      invariant 0 <= i <= |exts.extensions|
      invariant forall j :: 0 <= j < i ==> exts.extensions[j].oid != oid
    {
      if exts.extensions[i].oid == oid {
        assert FirstWithOidAt(exts.extensions, oid, i);
        return Success(exts.extensions[i]);
      }
      i := i + 1;
    }
    return Failure(ExtensionNotFound(oid));
  }

  /** `get_extension_for_class`: refused with a type error for UnrecognizedExtension, since
      several may be present; otherwise the first extension whose value is of that class, or
      ExtensionNotFound carrying the class's identifier. */
  method GetExtensionForClass(exts: Extensions, c: ExtensionClass) returns (r: Result<Extension, Error>)
    ensures c == UnrecognizedExtensionClass ==> r == Failure(TypeErr(UnrecognizedClassLookup))
    ensures r.Success? ==> exists i :: FirstOfClassAt(exts.extensions, c, i) && exts.extensions[i] == r.value
    ensures c != UnrecognizedExtensionClass ==>
      (r.Failure? <==> forall j :: 0 <= j < |exts.extensions| ==> ClassOf(exts.extensions[j].value) != c)
    ensures c != UnrecognizedExtensionClass && r.Failure? ==> r.error == ExtensionNotFound(ClassOid(c).value)
  {
    if c == UnrecognizedExtensionClass {
      return Failure(TypeErr(UnrecognizedClassLookup));
    }
    var i := 0;
    while i < |exts.extensions|
      invariant 0 <= i <= |exts.extensions|
      invariant forall j :: 0 <= j < i ==> ClassOf(exts.extensions[j].value) != c
    {
      if ClassOf(exts.extensions[i].value) == c {
        assert FirstOfClassAt(exts.extensions, c, i);
        return Success(exts.extensions[i]);
      }
      i := i + 1;
    }
    return Failure(ExtensionNotFound(ClassOid(c).value));
  }

  /** When every extension's identifier is its value's identifier, as for extensions parsed
      from a certificate, and no unrecognized extension carries the identifier of class `c`,
      looking up `c` and looking up its identifier find the same position. */
  lemma {:induction false} ClassAndOidLookupsAgree(exts: seq<Extension>, c: ExtensionClass, i: int)
    requires c != UnrecognizedExtensionClass
    requires forall j :: 0 <= j < |exts| ==> exts[j].oid == ValueOid(exts[j].value)
    requires forall j :: 0 <= j < |exts| && exts[j].value.UnrecognizedExtension? ==> Some(exts[j].oid) != ClassOid(c)
    ensures FirstOfClassAt(exts, c, i) <==> FirstWithOidAt(exts, ClassOid(c).value, i)
  {
    forall j | 0 <= j < |exts|
      ensures ClassOf(exts[j].value) == c <==> exts[j].oid == ClassOid(c).value
    {
      var v := exts[j].value;
      if exts[j].oid == ClassOid(c).value && !v.UnrecognizedExtension? {
        ClassOidInjective(c, ClassOf(v));
      }
    }
  }
}
