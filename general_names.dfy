/** General names and the typed projection `GeneralNames.get_values_for_type`. */
module TypedNames {
  import opened Primitives

  /** The closed set of general-name variants, each with its payload. */
  datatype GeneralName =
    | DNSName(dnsName: string)
    | RFC822Name(email: string)
    | UniformResourceIdentifier(uri: string)
    | DirectoryName(directoryName: Name)
    | RegisteredID(registeredId: Oid)
    | IPAddress(ip: IpValue)
    | OtherName(typeId: Oid, otherValue: Bytes)

  /** The variant classes a caller can ask for. */
  datatype GeneralNameType =
    | DNSNameType
    | RFC822NameType
    | UniformResourceIdentifierType
    | DirectoryNameType
    | RegisteredIDType
    | IPAddressType
    | OtherNameType

  function TypeOf(g: GeneralName): GeneralNameType {
    match g
    case DNSName(_) => DNSNameType
    case RFC822Name(_) => RFC822NameType
    case UniformResourceIdentifier(_) => UniformResourceIdentifierType
    case DirectoryName(_) => DirectoryNameType
    case RegisteredID(_) => RegisteredIDType
    case IPAddress(_) => IPAddressType
    case OtherName(_, _) => OtherNameType
  }

  /** What `get_values_for_type` can return: a payload, or an OtherName element itself. */
  datatype NameValue =
    | Text(text: string)
    | DirectoryNameOf(name: Name)
    | OidOf(oid: Oid)
    | IpOf(ip: IpValue)
    | BytesOf(bytes: Bytes)
    | Element(element: GeneralName)

  /** The `value` property of a general name. */
  function ValueOf(g: GeneralName): NameValue {
    match g
    case DNSName(s) => Text(s)
    case RFC822Name(s) => Text(s)
    case UniformResourceIdentifier(s) => Text(s)
    case DirectoryName(n) => DirectoryNameOf(n)
    case RegisteredID(o) => OidOf(o)
    case IPAddress(ip) => IpOf(ip)
    case OtherName(_, v) => BytesOf(v)
  }

  /** What one selected element contributes: its payload, except that OtherName elements,
      which carry two fields, are returned whole. */
  function Project(g: GeneralName, t: GeneralNameType): NameValue {
    if t == OtherNameType then Element(g) else ValueOf(g)
  }

  /** The shape of what asking for `t` yields. */
  predicate ValueHasType(x: NameValue, t: GeneralNameType) {
    match t
    case DNSNameType => x.Text?
    case RFC822NameType => x.Text?
    case UniformResourceIdentifierType => x.Text?
    case DirectoryNameType => x.DirectoryNameOf?
    case RegisteredIDType => x.OidOf?
    case IPAddressType => x.IpOf?
    case OtherNameType => x.Element? && x.element.OtherName?
  }

  /** An ordered list of general names. */
  datatype GeneralNames = GeneralNames(names: seq<GeneralName>)

  /** Every position moved one place on. */
  function Shift(p: seq<nat>): (q: seq<nat>)
    ensures |q| == |p| && forall k :: 0 <= k < |p| ==> q[k] == p[k] + 1
  {
    seq(|p|, k requires 0 <= k < |p| => p[k] + 1)
  }

  /** The positions of the names of variant `t`, in the order of the list. */
  function PositionsOfType(names: seq<GeneralName>, t: GeneralNameType): (idx: seq<nat>)
    ensures forall k :: 0 <= k < |idx| ==> idx[k] < |names| && TypeOf(names[idx[k]]) == t
    decreases |names|
  {
    if names == [] then []
    else
      var rest := PositionsOfType(names[1..], t);
      assert forall k :: 0 <= k < |rest| ==> names[1..][rest[k]] == names[rest[k] + 1];
      if TypeOf(names[0]) == t then [0] + Shift(rest) else Shift(rest)
  }

  /** The positions are strictly increasing. */
  lemma {:induction false} PositionsIncrease(names: seq<GeneralName>, t: GeneralNameType)
    ensures forall k, l :: 0 <= k < l < |PositionsOfType(names, t)| ==>
      PositionsOfType(names, t)[k] < PositionsOfType(names, t)[l]
    decreases |names|
  {
    if names != [] {
      PositionsIncrease(names[1..], t);
    }
  }

  /** Every position of a name of variant `t` is among the positions. */
  lemma {:induction false} PositionsComplete(names: seq<GeneralName>, t: GeneralNameType)
    ensures forall i :: 0 <= i < |names| && TypeOf(names[i]) == t ==> i in PositionsOfType(names, t)
    decreases |names|
  {
    if names != [] {
      var rest := PositionsOfType(names[1..], t);
      PositionsComplete(names[1..], t);
      forall i | 1 <= i < |names| && TypeOf(names[i]) == t
        ensures i in Shift(rest)
      {
        assert names[1..][i - 1] == names[i];
        var k :| 0 <= k < |rest| && rest[k] == i - 1;
        assert Shift(rest)[k] == i;
      }
    }
  }

  /** `get_values_for_type(t)`: the names of variant `t`, in their stored order, each
      projected as `Project` says. No match gives the empty list, not an error. */
  function GetValuesForType(names: seq<GeneralName>, t: GeneralNameType): (r: seq<NameValue>)
    ensures |r| == |PositionsOfType(names, t)|
    ensures forall k :: 0 <= k < |r| ==> r[k] == Project(names[PositionsOfType(names, t)[k]], t)
    ensures r == [] <==> forall i :: 0 <= i < |names| ==> TypeOf(names[i]) != t
    decreases |names|
  {
    if names == [] then []
    else
      var rest := GetValuesForType(names[1..], t);
      PositionsComplete(names, t);
      if TypeOf(names[0]) == t then
        ValuesStepTake(names, t, rest);
        [Project(names[0], t)] + rest
      else
        ValuesStepSkip(names, t, rest);
        rest
  }

  /** The step of GetValuesForType when the head is not selected: the tail's result already
      projects the positions of the whole list. */
  lemma ValuesStepSkip(names: seq<GeneralName>, t: GeneralNameType, rest: seq<NameValue>)
    requires names != [] && TypeOf(names[0]) != t
    requires |rest| == |PositionsOfType(names[1..], t)|
    requires forall k :: 0 <= k < |rest| ==> rest[k] == Project(names[1..][PositionsOfType(names[1..], t)[k]], t)
    ensures |rest| == |PositionsOfType(names, t)|
    ensures forall k :: 0 <= k < |rest| ==> rest[k] == Project(names[PositionsOfType(names, t)[k]], t)
  {
    var restPos := PositionsOfType(names[1..], t);
    var pos := PositionsOfType(names, t);
    assert pos == Shift(restPos);
    forall k | 0 <= k < |rest|
      ensures rest[k] == Project(names[pos[k]], t)
    {
      assert names[1..][restPos[k]] == names[pos[k]];
    }
  }

  /** The step of GetValuesForType when the head is selected: its projection comes first,
      followed by the tail's result. */
  lemma ValuesStepTake(names: seq<GeneralName>, t: GeneralNameType, rest: seq<NameValue>)
    requires names != [] && TypeOf(names[0]) == t
    requires |rest| == |PositionsOfType(names[1..], t)|
    requires forall k :: 0 <= k < |rest| ==> rest[k] == Project(names[1..][PositionsOfType(names[1..], t)[k]], t)
    ensures |[Project(names[0], t)] + rest| == |PositionsOfType(names, t)|
    ensures forall k :: 0 <= k < |rest| + 1 ==>
      ([Project(names[0], t)] + rest)[k] == Project(names[PositionsOfType(names, t)[k]], t)
  {
    var restPos := PositionsOfType(names[1..], t);
    var pos := PositionsOfType(names, t);
    var r := [Project(names[0], t)] + rest;
    assert pos == [0] + Shift(restPos);
    forall k | 0 <= k < |r|
      ensures r[k] == Project(names[pos[k]], t)
    {
      if k > 0 {
        assert r[k] == rest[k - 1];
        assert names[1..][restPos[k - 1]] == names[pos[k]];
      }
    }
  }

  /** The projection of a name of variant `t` has the shape that asking for `t` yields. */
  lemma ProjectHasType(g: GeneralName, t: GeneralNameType)
    requires TypeOf(g) == t
    ensures ValueHasType(Project(g, t), t)
  {
  }

  /** Every entry of the result has the shape of the asked-for variant: text for the three
      string variants, a Name, an identifier, an IP payload, or a whole OtherName. */
  lemma GetValuesForTypeShapes(names: seq<GeneralName>, t: GeneralNameType)
    ensures forall x :: x in GetValuesForType(names, t) ==> ValueHasType(x, t)
  {
    var r := GetValuesForType(names, t);
    var pos := PositionsOfType(names, t);
    forall x | x in r
      ensures ValueHasType(x, t)
    {
      var k :| 0 <= k < |r| && r[k] == x;
      ProjectHasType(names[pos[k]], t);
    }
  }

  /** In the terms of the list's elements: the result holds a projection of every name of
      variant `t`, and only such projections. */
  lemma GetValuesForTypeMembers(names: seq<GeneralName>, t: GeneralNameType)
    ensures |GetValuesForType(names, t)| <= |names|
    ensures forall x :: x in GetValuesForType(names, t) ==>
      exists i :: 0 <= i < |names| && TypeOf(names[i]) == t && x == Project(names[i], t)
    ensures forall i :: 0 <= i < |names| && TypeOf(names[i]) == t ==> Project(names[i], t) in GetValuesForType(names, t)
  {
    var r := GetValuesForType(names, t);
    var pos := PositionsOfType(names, t);
    PositionsIncrease(names, t);
    PositionsComplete(names, t);
    StrictlyIncreasingBounded(pos, |names|);
    forall i | 0 <= i < |names| && TypeOf(names[i]) == t
      ensures Project(names[i], t) in r
    {
      var k :| 0 <= k < |pos| && pos[k] == i;
      assert r[k] == Project(names[i], t);
    }
    forall x | x in r
      ensures exists i :: 0 <= i < |names| && TypeOf(names[i]) == t && x == Project(names[i], t)
    {
      var k :| 0 <= k < |r| && r[k] == x;
      assert TypeOf(names[pos[k]]) == t;
    }
  }

  /** A strictly increasing sequence of naturals below `n` has at most `n` elements. */
  lemma {:induction false} StrictlyIncreasingBounded(idx: seq<nat>, n: nat)
    requires forall k :: 0 <= k < |idx| ==> idx[k] < n
    requires forall k, l :: 0 <= k < l < |idx| ==> idx[k] < idx[l]
    ensures |idx| <= n
    decreases n
  {
    if idx != [] {
      var m := idx[|idx| - 1];
      var front := idx[..|idx| - 1];
      assert forall k :: 0 <= k < |front| ==> front[k] < m;
      StrictlyIncreasingBounded(front, m);
    }
  }

  /** The projection distributes over concatenation: the matches of a prefix come before
      those of the suffix, which is what keeps the stored order. */
  lemma {:induction false} GetValuesForTypeAppend(a: seq<GeneralName>, b: seq<GeneralName>, t: GeneralNameType)
    ensures GetValuesForType(a + b, t) == GetValuesForType(a, t) + GetValuesForType(b, t)
    decreases |a|
  {
    if a == [] {
      assert a + b == b;
    } else {
      assert (a + b)[1..] == a[1..] + b;
      GetValuesForTypeAppend(a[1..], b, t);
    }
  }

  /** On one name: its projection when it has the asked-for variant, nothing otherwise.
      With GetValuesForTypeAppend this determines the result on every list. */
  lemma GetValuesForTypeSingle(g: GeneralName, t: GeneralNameType)
    ensures GetValuesForType([g], t) == if TypeOf(g) == t then [Project(g, t)] else []
  {
    assert [g][1..] == [];
  }

  /** Every name is returned for exactly one variant: over the seven variants the results
      have as many elements as the list. */
  lemma {:induction false} EveryNameHasOneType(names: seq<GeneralName>)
    ensures |GetValuesForType(names, DNSNameType)|
          + |GetValuesForType(names, RFC822NameType)|
          + |GetValuesForType(names, UniformResourceIdentifierType)|
          + |GetValuesForType(names, DirectoryNameType)|
          + |GetValuesForType(names, RegisteredIDType)|
          + |GetValuesForType(names, IPAddressType)|
          + |GetValuesForType(names, OtherNameType)| == |names|
    decreases |names|
  {
    if names != [] {
      EveryNameHasOneType(names[1..]);
      LengthStep(names, DNSNameType);
      LengthStep(names, RFC822NameType);
      LengthStep(names, UniformResourceIdentifierType);
      LengthStep(names, DirectoryNameType);
      LengthStep(names, RegisteredIDType);
      LengthStep(names, IPAddressType);
      LengthStep(names, OtherNameType);
    }
  }

  lemma LengthStep(names: seq<GeneralName>, t: GeneralNameType)
    requires names != []
    ensures |GetValuesForType(names, t)|
      == (if TypeOf(names[0]) == t then 1 else 0) + |GetValuesForType(names[1..], t)|
  {
  }
}
