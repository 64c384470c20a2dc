/**
 * The pure parsing done by `Euproperty_Manager`: the fields of a PROPERTY
 * line, the text of a DESCRIPTION line, and the split of a dotted key path
 * into partition, service type and name.
 */
module LineParsing {
  import opened Wrappers
  import opened Errors
  import opened Text
  import opened PropertyType

  const PropertyMarker: string := "PROPERTY"
  const DescriptionMarker: string := "DESCRIPTION"

  /** The whitespace tokens of `line` once every occurrence of `marker` is removed. */
  function Tokens(line: string, marker: string): seq<string>
    requires marker != []
  {
    Words(RemoveAll(line, marker))
  }

  /** Python's `split[1:]`: everything after the first token, empty when there is none. */
  function AfterFirst(ws: seq<string>): seq<string> {
    if ws == [] then [] else ws[1..]
  }

  /**
   * The split done by `parse_euproperty_from_string`: remove every PROPERTY,
   * strip, split on whitespace, pop the key path and join the rest with
   * single spaces. With no token left, `pop(0)` raises.
   */
  function PropertyFields(line: string): (r: Result<(string, string), Error>)
    ensures r.Ok? <==> Tokens(line, PropertyMarker) != []
    ensures r.Err? ==> r.error == EmptyPropertyLine(line)
    ensures r.Ok? ==> var (key, value) := r.value;
      IsWord(key) && Tokens(line, PropertyMarker) == [key] + Words(value)
  {
    var stripped := Strip(RemoveAll(line, PropertyMarker));
    WordsStrip(RemoveAll(line, PropertyMarker));
    var ws := Words(stripped);
    if ws == [] then Err(EmptyPropertyLine(line))
    else
      WordsJoin(ws[1..]);
      assert ws == [ws[0]] + ws[1..];
      Ok((ws[0], Join(ws[1..], " ")))
  }

  /** `parse_property_value_from_string`: the tokens after the key path, joined by single spaces. */
  function ParsePropertyValue(line: string): (r: string)
    ensures Words(r) == AfterFirst(Tokens(line, PropertyMarker))
  {
    var ws := AfterFirst(Tokens(line, PropertyMarker));
    WordsJoin(ws);
    Join(ws, " ")
  }

  /** `parse_euproperty_description`: the tokens after the key path once every DESCRIPTION is removed. */
  function ParseDescription(line: string): (r: string)
    ensures Words(r) == AfterFirst(Tokens(line, DescriptionMarker))
  {
    var ws := AfterFirst(Tokens(line, DescriptionMarker));
    WordsJoin(ws);
    Join(ws, " ")
  }

  /**
   * A PROPERTY line's key path is its first token after every PROPERTY is
   * removed, and its value is what `parse_property_value_from_string` gives.
   */
  lemma PropertyLineAgrees(line: string)
    requires PropertyFields(line).Ok?
    ensures PropertyFields(line).value.0 == Tokens(line, PropertyMarker)[0]
    ensures PropertyFields(line).value.1 == ParsePropertyValue(line)
  {
    var (key, value) := PropertyFields(line).value;
    var ws := Tokens(line, PropertyMarker);
    assert ws[1..] == Words(value);
    WordsJoin(ws[1..]);
    WordsStrip(RemoveAll(line, PropertyMarker));
  }

  /** Every PROPERTY in a line is removed, not only the leading marker: one in the middle of a token vanishes too. */
  lemma MarkerRemovedInsideValue(line: string)
    requires line == "PROPERTY a bPROPERTYc"
    ensures PropertyFields(line) == Ok(("a", "bc"))
  {
    var removed := RemoveAll(line, PropertyMarker);
    RemovedInsideValue(line);
    TokensOfExample(removed);
    WordsStrip(removed);
    var ws := Words(Strip(removed));
    assert ws == ["a", "bc"];
    assert ws[1..] == ["bc"];
  }

  lemma RemovedInsideValue(line: string)
    requires line == "PROPERTY a bPROPERTYc"
    ensures RemoveAll(line, PropertyMarker) == " a bc"
  {
    var pm, c, mid := PropertyMarker, "c", " a b";
    assert !Contains(c, pm) by {
      assert !StartsWith(c, pm);
      assert !Contains(c[1..], pm) by { assert c[1..] == []; }
    }
    RemoveAllLeading(pm, c);
    RemoveAllKeeps(mid, pm + c, pm);
    RemoveAllLeading(pm, mid + (pm + c));
    assert line == pm + (mid + (pm + c));
  }

  lemma TokensOfExample(s: string)
    requires s == " a bc"
    ensures Words(s) == ["a", "bc"]
  {
    assert Join(["a", "bc"], " ") == "a bc";
    WordsJoin(["a", "bc"]);
    WordsSkipSpace(' ', "a bc");
    assert s == [' '] + "a bc";
  }

  // ---------------------------------------------------------------------------
  // Key paths
  // ---------------------------------------------------------------------------

  /** Partition, service type and name of a key path, as the manager stores them on a property. */
  datatype KeyPath = KeyPath(partition: Option<string>, serviceType: Option<ServiceType>, name: string)

  /** The dot-separated segments left once a leading partition segment is popped. */
  function AfterPartition(key: string, partitions: set<string>): seq<string> {
    var segs := Split(key, '.');
    if segs[0] in partitions then segs[1..] else segs
  }

  function PartitionPrefix(p: Option<string>): seq<string> {
    if p.Some? then [p.value] else []
  }

  /**
   * The key-path split of `parse_euproperty_from_string`: a first segment
   * naming a known partition is popped as the partition; the next segment is
   * always consumed, as its service type when it names one and as None
   * otherwise; the remaining segments, joined with dots, are the name.
   */
  function ResolveKeyPath(key: string, partitions: set<string>): (r: KeyPath)
    ensures r.partition.Some? ==> r.partition.value in partitions
    ensures key == Join(PartitionPrefix(r.partition) + AfterPartition(key, partitions), ".")
  {
    var segs := Split(key, '.');
    var rest := AfterPartition(key, partitions);
    var partition := if segs[0] in partitions then Some(segs[0]) else None;
    JoinSplit(key, '.');
    assert segs == PartitionPrefix(partition) + rest;
    KeyPath(partition,
            if rest == [] then None else FromString(rest[0]),
            if rest == [] then "" else Join(rest[1..], "."))
  }

  /**
   * With a known service type and a non-empty name, joining the partition (if
   * any), the tag and the name with dots gives back the key path. With an
   * unknown service segment the type is None and that segment is in neither
   * the type nor the name.
   */
  lemma {:induction false} KeyPathRoundTrip(key: string, partitions: set<string>)
    ensures var r := ResolveKeyPath(key, partitions);
      r.serviceType.Some? && r.name != "" ==>
        Join(PartitionPrefix(r.partition) + [Name(r.serviceType.value), r.name], ".") == key
    ensures var r := ResolveKeyPath(key, partitions);
      var rest := AfterPartition(key, partitions);
      r.serviceType.None? && rest != [] ==>
        (forall t: ServiceType :: Name(t) != rest[0]) && r.name == Join(rest[1..], ".")
  {
    var r := ResolveKeyPath(key, partitions);
    var rest := AfterPartition(key, partitions);
    var pre := PartitionPrefix(r.partition);
    if r.serviceType.Some? && r.name != "" {
      assert rest != [];
      assert rest[1..] != [];
      JoinFlatten(pre + [rest[0]], rest[1..], ".");
      assert pre + [rest[0]] + [r.name] == pre + [Name(r.serviceType.value), r.name];
      assert pre + [rest[0]] + rest[1..] == pre + rest;
    }
  }
}
