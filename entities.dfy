/**
 * `Euproperty`: one cloud property. Its key path, service type, partition,
 * name and mandatory flag are set once by the constructor; value, last
 * value and description are updated in place by the manager.
 */
module Entities {
  import opened Wrappers
  import opened Text
  import opened PropertyType

  class Property {
    /** `property_string`: the full dotted key path, e.g. `PARTI00.storage.maxvolumesizeingb`. */
    const keyPath: string
    const serviceType: Option<ServiceType>
    const partition: Option<string>
    const name: string
    const mandatory: bool
    var value: string
    var lastValue: string
    /** None until a DESCRIPTION line sets it: the constructor never creates the attribute. */
    var description: Option<string>

    /** `Euproperty.__init__`: the last value starts out equal to the value. */
    constructor (keyPath: string, serviceType: Option<ServiceType>, partition: Option<string>,
                 name: string, value: string)
      ensures this.keyPath == keyPath && this.serviceType == serviceType
      ensures this.partition == partition && this.name == name && !this.mandatory
      ensures this.value == value && this.lastValue == value && this.description == None
    {
      this.keyPath := keyPath;
      this.serviceType := serviceType;
      this.partition := partition;
      this.name := name;
      this.mandatory := false;
      this.value := value;
      this.lastValue := value;
      this.description := None;
    }
  }

  /** The value-level view of a property: every field, read at one moment. */
  datatype Record = Record(keyPath: string, serviceType: Option<ServiceType>, partition: Option<string>,
                           name: string, mandatory: bool,
                           value: string, lastValue: string, description: Option<string>)

  function Snap(e: Property): Record
    reads e
  {
    Record(e.keyPath, e.serviceType, e.partition, e.name, e.mandatory, e.value, e.lastValue, e.description)
  }

  function Snaps(es: seq<Property>): (rs: seq<Record>)
    reads es
    ensures |rs| == |es| && forall i :: 0 <= i < |es| ==> rs[i] == Snap(es[i])
  {
    seq(|es|, i reads es requires 0 <= i < |es| => Snap(es[i]))
  }

  function KeyPaths(es: seq<Property>): (ks: seq<string>)
    ensures |ks| == |es| && forall i :: 0 <= i < |es| ==> ks[i] == es[i].keyPath
  {
    seq(|es|, i requires 0 <= i < |es| => es[i].keyPath)
  }

  function RecordKeyPaths(rs: seq<Record>): (ks: seq<string>)
    ensures |ks| == |rs| && forall i :: 0 <= i < |rs| ==> ks[i] == rs[i].keyPath
  {
    seq(|rs|, i requires 0 <= i < |rs| => rs[i].keyPath)
  }

  /** No object occurs twice. */
  predicate Distinct<T(==)>(s: seq<T>) {
    forall i, j :: 0 <= i < j < |s| ==> s[i] != s[j]
  }

  /** `str(service_type)`: the tag, or "None" for a property without one. */
  function TypeString(st: Option<ServiceType>): (s: string)
    ensures '.' !in s
  {
    if st.Some? then NameRoundTrip(st.value); Name(st.value) else "None"
  }

  /**
   * The attribute name `create_dynamic_property_map_from_property` files a
   * property under: service type and name with dots replaced by underscores,
   * joined by an underscore.
   */
  function ObjectName(st: Option<ServiceType>, name: string): (k: string)
    ensures '.' !in k
    ensures StartsWith(k, TypeString(st) + "_")
  {
    var k := ReplaceChar(TypeString(st), '.', '_') + "_" + ReplaceChar(name, '.', '_');
    assert k[..|TypeString(st) + "_"|] == TypeString(st) + "_";
    k
  }
}
