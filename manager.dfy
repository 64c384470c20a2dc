/**
 * `Euproperty_Manager`: the ordered store of properties and the nested
 * index, the refresh from the describe command's output, the lookups, and
 * the modify/reset commands checked against their one-line responses.
 * Command output is a parameter: the lines the describe command printed,
 * and the first line the modify command printed (None when it printed none).
 */
module PropertyManager {
  import opened Wrappers
  import opened Errors
  import opened Text
  import opened LineParsing
  import opened Entities
  import opened PropertyIndex
  import opened RefreshModel
  import Queries

  /** The property `pool[x]` plays in the pass, null for None. */
  function Deref(pool: seq<Property>, x: Option<nat>): Property?
    requires x.Some? ==> x.value < |pool|
  {
    if x.Some? then pool[x.value] else null
  }

  /** A list of pool positions as the list of objects it stands for. */
  function Resolve(pool: seq<Property>, list: seq<Option<nat>>): (r: seq<Property?>)
    requires forall i :: 0 <= i < |list| && list[i].Some? ==> list[i].value < |pool|
    ensures |r| == |list| && forall i :: 0 <= i < |list| ==> r[i] == Deref(pool, list[i])
  {
    seq(|list|, i requires 0 <= i < |list| => Deref(pool, list[i]))
  }

  /** With distinct objects, positions and objects are interchangeable: resolving keeps the list free of repeats. */
  lemma ResolveDistinct(pool: seq<Property>, list: seq<Option<nat>>)
    requires forall i :: 0 <= i < |list| && list[i].Some? ==> list[i].value < |pool|
    requires Distinct(pool) && Distinct(list)
    ensures Distinct(Resolve(pool, list))
  {
    var r := Resolve(pool, list);
    forall i, j | 0 <= i < j < |r|
      ensures r[i] != r[j]
    {
      assert list[i] != list[j];
    }
  }

  /** Adding objects at the end of the pool does not change what earlier positions stand for. */
  lemma ResolveExtend(pool: seq<Property>, pool': seq<Property>, list: seq<Option<nat>>)
    requires forall i :: 0 <= i < |list| && list[i].Some? ==> list[i].value < |pool|
    requires |pool| <= |pool'| && pool'[..|pool|] == pool
    ensures Resolve(pool', list) == Resolve(pool, list)
  {
    assert forall k :: 0 <= k < |pool| ==> pool'[k] == pool[k];
  }

  /** `if not newprop in newlist: newlist.append(newprop)` on objects is AppendNew on positions. */
  lemma ResolveAppend(pool: seq<Property>, list: seq<Option<nat>>, x: Option<nat>)
    requires forall i :: 0 <= i < |list| && list[i].Some? ==> list[i].value < |pool|
    requires x.Some? ==> x.value < |pool|
    requires Distinct(pool)
    ensures var r := Resolve(pool, list);
      Resolve(pool, AppendNew(list, x)) == if Deref(pool, x) in r then r else r + [Deref(pool, x)]
  {
    var r := Resolve(pool, list);
    if Deref(pool, x) in r {
      var i :| 0 <= i < |r| && r[i] == Deref(pool, x);
      assert list[i] == x;
    }
  }

  /** The pass's objects mirror the pure pass: the store's properties first, each object showing its record. */
  ghost predicate Mirrors(store: seq<Property>, st: Pass, objs: seq<Property>)
    reads objs
  {
    WellFormed(|store|, st) && |objs| == |st.pool| && objs[..|store|] == store &&
    Distinct(objs) && forall k :: 0 <= k < |objs| ==> Snap(objs[k]) == st.pool[k]
  }

  /** The store's part of the mirror: its objects, their key paths, and no later object among them. */
  lemma MirrorsStore(store: seq<Property>, st: Pass, objs: seq<Property>)
    requires Mirrors(store, st, objs)
    ensures forall k :: 0 <= k < |store| ==> objs[k] == store[k]
    ensures forall k :: |store| <= k < |objs| ==> objs[k] !in store
    ensures RecordKeyPaths(st.pool[..|store|]) == KeyPaths(store)
  {
    assert forall k :: 0 <= k < |store| ==> objs[k] == store[k];
    forall k, m | |store| <= k < |objs| && 0 <= m < |store|
      ensures store[m] != objs[k]
    {
      assert objs[m] == store[m];
    }
  }

  /** A new object showing the pass's new record extends the mirror by one. */
  lemma MirrorsSnoc(store: seq<Property>, st: Pass, objs: seq<Property>, e: Property, st': Pass)
    requires Mirrors(store, st, objs) && e !in objs
    requires st'.pool == st.pool + [Snap(e)] && WellFormed(|store|, st')
    ensures Mirrors(store, st', objs + [e])
  {
    var objs' := objs + [e];
    assert objs'[..|store|] == store;
    assert forall k :: 0 <= k < |objs'| ==> Snap(objs'[k]) == st'.pool[k];
  }

  /** None in the list of positions is null in the list of objects. */
  lemma ResolveNull(pool: seq<Property>, list: seq<Option<nat>>)
    requires forall i :: 0 <= i < |list| && list[i].Some? ==> list[i].value < |pool|
    ensures null in Resolve(pool, list) <==> None in list
    ensures forall i :: 0 <= i < |list| ==> (Resolve(pool, list)[i] == null <==> list[i].None?)
  {
    var r := Resolve(pool, list);
    if null in r {
      var i :| 0 <= i < |r| && r[i] == null;
      assert list[i] == None;
    }
    if None in list {
      var i :| 0 <= i < |list| && list[i] == None;
      assert r[i] == null;
    }
  }

  /**
   * The list a pass leaves, on objects: free of repeats, and null (the None
   * of lines before the first PROPERTY line) only at its head.
   */
  lemma RefreshedList(n: nat, partitions: set<string>, store: seq<Record>, lines: seq<string>, objs: seq<Property>)
    requires n == |store| && Run(n, partitions, Start(store), lines).Ok?
    requires var st := Run(n, partitions, Start(store), lines).value;
      WellFormed(n, st) && |objs| == |st.pool| && Distinct(objs)
    ensures var list := Run(n, partitions, Start(store), lines).value.list;
      var r := Resolve(objs, list);
      Distinct(r) && (null in r <==> None in list) && (null in r ==> r[0] == null) &&
      forall i :: 1 <= i < |r| ==> r[i] != null
  {
    var st := Run(n, partitions, Start(store), lines).value;
    RunCoherent(n, partitions, store, lines);
    ResolveDistinct(objs, st.list);
    ResolveNull(objs, st.list);
  }

  /** What `set_property` and `reset_property_to_default` are given: a property, or a search string naming one. */
  datatype PropertyRef = Entity(entity: Property) | Search(search: string)

  /** The third whitespace token of the command's first line, when there are at least three. */
  function ThirdToken(response: Option<string>): Option<string> {
    if response.Some? && |Words(response.value)| >= 3 then Some(Words(response.value)[2]) else None
  }

  /**
   * The check `set_property` makes of the modify command's response: no line
   * or too few tokens raise `IndexError`, an empty line and a reported value
   * other than the requested one raise `EupropertiesException`.
   */
  function SetOutcome(value: string, response: Option<string>): (r: Result<string, Error>)
    ensures r.Ok? <==> response.Some? && response.value != "" && ThirdToken(response) == Some(value)
    ensures r.Ok? ==> r.value == value
    ensures response == Some("") ==> r == Err(EmptyResponse)
    ensures response != Some("") && ThirdToken(response).None? ==> r == Err(MalformedResponse)
    ensures response != Some("") && ThirdToken(response).Some? && ThirdToken(response) != Some(value) ==>
      r == Err(ValueMismatch(value, ThirdToken(response).value))
  {
    match response
    case None => Err(MalformedResponse)
    case Some(line) =>
      if line == "" then Err(EmptyResponse)
      else
        var tokens := Words(line);
        if |tokens| < 3 then Err(MalformedResponse)
        else if tokens[2] != value then Err(ValueMismatch(value, tokens[2]))
        else Ok(tokens[2])
  }

  /** What `reset_property_to_default` reads from the reset command's response: its third token, else `IndexError`. */
  function ResetOutcome(response: Option<string>): (r: Result<string, Error>)
    ensures r.Ok? <==> ThirdToken(response).Some?
    ensures r.Ok? ==> |Words(response.value)| >= 3 && r.value == Words(response.value)[2]
    ensures r.Err? ==> r.error == MalformedResponse
  {
    match response
    case None => Err(MalformedResponse)
    case Some(line) =>
      var tokens := Words(line);
      if |tokens| < 3 then Err(MalformedResponse) else Ok(tokens[2])
  }

  /** The property `set_property` acts on: a given property, or the only one whose key path contains the search string. */
  function SetTarget(store: seq<Property>, target: PropertyRef): (r: Result<Property, Error>)
    reads store
    ensures target.Entity? ==> r == Ok(target.entity)
    ensures target.Search? ==>
      (r.Ok? <==> |Queries.BySearchString([], store, target.search)| == 1) &&
      (r.Ok? ==> r.value in store && Contains(r.value.keyPath, target.search)) &&
      (r.Err? ==> r.error == CouldNotFetch(target.search))
  {
    match target
    case Entity(e) => Ok(e)
    case Search(s) =>
      var found := Queries.BySearchString([], store, s);
      if |found| == 1 then Ok(found[0]) else Err(CouldNotFetch(s))
  }

  /** The property `reset_property_to_default` acts on: a given property, or the first whose key path contains the search string. */
  function ResetTarget(store: seq<Property>, target: PropertyRef): (r: Result<Property, Error>)
    reads store
    ensures target.Entity? ==> r == Ok(target.entity)
    ensures target.Search? ==>
      (r.Ok? <==> exists i :: 0 <= i < |store| && Contains(store[i].keyPath, target.search)) &&
      (r.Ok? ==> r.value in store && Contains(r.value.keyPath, target.search)) &&
      (r.Err? ==> r.error == NoSearchMatch(target.search))
    ensures target.Search? && r.Ok? ==>
      exists i :: 0 <= i < |store| && store[i] == r.value &&
        forall j :: 0 <= j < i ==> !Contains(store[j].keyPath, target.search)
  {
    match target
    case Entity(e) => Ok(e)
    case Search(s) =>
      var found := Queries.BySearchString([], store, s);
      if found == [] then Err(NoSearchMatch(s))
      else
        Queries.FilterFirst(store, Queries.Searched(s));
        Ok(found[0])
  }

  /** The filters `get_property` passes to `get_properties`: partition and service type only. */
  function PropertyFilters(partition: string, serviceType: string): Queries.Filters {
    Queries.Filters(partition, serviceType, "", "")
  }

  class Manager {
    /** `self.properties`: the ordered store. */
    var properties: seq<Property>
    /** `self.property_map`. */
    var propertyMap: Index

    /** The store never holds the same object twice: a full refresh installs a list built without repeats. */
    ghost predicate Valid()
      reads this
    {
      Distinct(properties)
    }

    /** The fields the constructor sets before its first refresh. */
    constructor ()
      ensures Valid() && properties == [] && propertyMap == EmptyIndex
    {
      properties := [];
      propertyMap := EmptyIndex;
    }

    /**
     * `parse_euproperty_from_string`: a key path already in the store updates
     * the first property with it in place (last value := value, value := the
     * line's value) and returns it; otherwise a new property is built from the
     * resolved key path. A line with no token raises before anything changes.
     */
    method ParseEupropertyFromString(line: string, partitions: set<string>) returns (r: Result<Property, Error>)
      requires Valid()
      modifies properties
      ensures r.Err? <==> PropertyFields(line).Err?
      ensures r.Err? ==> r.error == PropertyFields(line).error && unchanged(properties)
      ensures r.Ok? ==>
        var (key, value) := PropertyFields(line).value;
        match FirstIndexOf(KeyPaths(properties), key)
        case Some(j) =>
          r.value == properties[j] &&
          Snap(r.value) == old(Snap(properties[j])).(lastValue := old(properties[j].value), value := value) &&
          forall k :: 0 <= k < |properties| && k != j ==> Snap(properties[k]) == old(Snap(properties[k]))
        case None =>
          fresh(r.value) && Snap(r.value) == NewRecord(key, value, partitions) &&
          forall k :: 0 <= k < |properties| ==> Snap(properties[k]) == old(Snap(properties[k]))
    {
      var fields := PropertyFields(line);
      if fields.Err? {
        return Err(fields.error);
      }
      var (key, value) := fields.value;
      var i := 0;
      while i < |properties|
        invariant 0 <= i <= |properties|
        invariant key !in KeyPaths(properties)[..i]
      {
        var prop := properties[i];
        if prop.keyPath == key {
          prop.lastValue := prop.value;
          prop.value := value;
          assert KeyPaths(properties)[..i + 1] == KeyPaths(properties)[..i] + [key];
          assert FirstIndexOf(KeyPaths(properties), key) == Some(i);
          assert forall k :: 0 <= k < |properties| && k != i ==> properties[k] != prop;
          return Ok(prop);
        }
        assert KeyPaths(properties)[..i + 1] == KeyPaths(properties)[..i] + [properties[i].keyPath];
        i := i + 1;
      }
      assert KeyPaths(properties)[..i] == KeyPaths(properties);
      var kp := ResolveKeyPath(key, partitions);
      var e := new Property(key, kp.serviceType, kp.partition, kp.name, value);
      return Ok(e);
    }

    /** A line that is not a PROPERTY line, read while `e` is the current property. */
    static method ContinueProperty(e: Property, line: string)
      modifies e
      ensures Snap(e) == old(Snap(e)).(
        value := old(e.value) + (if IsDescriptionOf(line, e.name) then "" else line),
        description := if IsDescriptionOf(line, e.name) then Some(ParseDescription(line)) else old(e.description))
    {
      if IsDescriptionOf(line, e.name) {
        e.description := Some(ParseDescription(line));
      } else {
        e.value := e.value + line;
      }
    }

    /** A PROPERTY line, on objects: what `Step` does to the records. */
    method ReadPropertyLine(line: string, partitions: set<string>, ghost n: nat, ghost st: Pass, ghost objs: seq<Property>)
      returns (r: Result<Property, Error>, ghost objs': seq<Property>)
      requires Valid() && n == |properties| && Mirrors(properties, st, objs) && StartsWith(line, PropertyMarker)
      modifies properties
      ensures r.Err? <==> Step(n, partitions, st, line).Err?
      ensures r.Err? ==> r.error == Step(n, partitions, st, line).error
      ensures r.Ok? ==>
        var st' := Step(n, partitions, st, line).value;
        Mirrors(properties, st', objs') && objs'[..|objs|] == objs &&
        (forall k :: |objs| <= k < |objs'| ==> fresh(objs'[k])) &&
        r.value == Deref(objs', st'.current)
    {
      objs' := objs;
      var fields := PropertyFields(line);
      if fields.Err? {
        r := ParseEupropertyFromString(line, partitions);
        return r, objs';
      }
      MirrorsStore(properties, st, objs);
      if FirstIndexOf(KeyPaths(properties), fields.value.0).Some? {
        r := ReadKnownProperty(line, partitions, n, st, objs);
      } else {
        r, objs' := ReadNewProperty(line, partitions, n, st, objs);
      }
    }

    /** A PROPERTY line whose key path is in the store: the first such property is updated in place. */
    method ReadKnownProperty(line: string, partitions: set<string>, ghost n: nat, ghost st: Pass, ghost objs: seq<Property>)
      returns (r: Result<Property, Error>)
      requires Valid() && n == |properties| && Mirrors(properties, st, objs) && StartsWith(line, PropertyMarker)
      requires PropertyFields(line).Ok? && FirstIndexOf(KeyPaths(properties), PropertyFields(line).value.0).Some?
      modifies properties
      ensures Step(n, partitions, st, line).Ok? && r.Ok?
      ensures var st' := Step(n, partitions, st, line).value;
        Mirrors(properties, st', objs) && r.value == Deref(objs, st'.current)
    {
      MirrorsStore(properties, st, objs);
      r := ParseEupropertyFromString(line, partitions);
      ghost var value := PropertyFields(line).value.1;
      ghost var j := FirstIndexOf(KeyPaths(properties), PropertyFields(line).value.0).value;
      ghost var st' := Step(n, partitions, st, line).value;
      assert st'.pool == st.pool[j := st.pool[j].(lastValue := st.pool[j].value, value := value)];
      assert forall k :: 0 <= k < |objs| ==> Snap(objs[k]) == st'.pool[k];
    }

    /** A PROPERTY line whose key path is not in the store: a new property joins the pass. */
    method ReadNewProperty(line: string, partitions: set<string>, ghost n: nat, ghost st: Pass, ghost objs: seq<Property>)
      returns (r: Result<Property, Error>, ghost objs': seq<Property>)
      requires Valid() && n == |properties| && Mirrors(properties, st, objs) && StartsWith(line, PropertyMarker)
      requires PropertyFields(line).Ok? && FirstIndexOf(KeyPaths(properties), PropertyFields(line).value.0).None?
      modifies properties
      ensures Step(n, partitions, st, line).Ok? && r.Ok?
      ensures var st' := Step(n, partitions, st, line).value;
        Mirrors(properties, st', objs') && objs'[..|objs|] == objs &&
        (forall k :: |objs| <= k < |objs'| ==> fresh(objs'[k])) &&
        r.value == Deref(objs', st'.current)
    {
      MirrorsStore(properties, st, objs);
      r := ParseEupropertyFromString(line, partitions);
      var e := r.value;
      ghost var st' := Step(n, partitions, st, line).value;
      assert Mirrors(properties, st, objs) by {
        assert forall k :: 0 <= k < |objs| ==> Snap(objs[k]) == st.pool[k];
      }
      MirrorsSnoc(properties, st, objs, e, st');
      objs' := objs + [e];
      assert objs'[..|objs|] == objs;
    }

    /** One iteration of the loop of `update_property_list`, on objects: it does what `Step` does on records. */
    method ReadLine(line: string, partitions: set<string>, ghost n: nat, ghost st: Pass, ghost objs: seq<Property>,
                    newprop: Property?) returns (r: Result<Property?, Error>, ghost objs': seq<Property>)
      requires Valid() && n == |properties| && Mirrors(properties, st, objs)
      requires newprop == Deref(objs, st.current)
      modifies objs
      ensures r.Err? <==> Step(n, partitions, st, line).Err?
      ensures r.Err? ==> r.error == Step(n, partitions, st, line).error
      ensures r.Ok? ==>
        var st' := Step(n, partitions, st, line).value;
        Mirrors(properties, st', objs') && objs'[..|objs|] == objs &&
        (forall k :: |objs| <= k < |objs'| ==> fresh(objs'[k])) &&
        r.value == Deref(objs', st'.current)
    {
      objs' := objs;
      MirrorsStore(properties, st, objs);
      if StartsWith(line, PropertyMarker) {
        var parsed;
        parsed, objs' := ReadPropertyLine(line, partitions, n, st, objs);
        if parsed.Err? {
          return Err(parsed.error), objs';
        }
        return Ok(parsed.value), objs';
      } else if newprop != null {
        ContinueProperty(newprop, line);
        return Ok(newprop), objs';
      } else {
        return Ok(null), objs';
      }
    }

    /** `if not newprop in newlist: newlist.append(newprop)`. */
    static method Remember(newlist: seq<Property?>, newprop: Property?, ghost pool: seq<Property>,
                           ghost list: seq<Option<nat>>, ghost x: Option<nat>) returns (r: seq<Property?>)
      requires forall i :: 0 <= i < |list| && list[i].Some? ==> list[i].value < |pool|
      requires x.Some? ==> x.value < |pool|
      requires Distinct(pool) && newlist == Resolve(pool, list) && newprop == Deref(pool, x)
      ensures r == Resolve(pool, AppendNew(list, x))
    {
      ResolveAppend(pool, list, x);
      r := newlist;
      if newprop !in newlist {
        r := newlist + [newprop];
      }
    }

    /** One line of the loop together with the bookkeeping of the list of properties it has seen. */
    method Advance(line: string, partitions: set<string>, ghost n: nat, ghost st: Pass, ghost objs: seq<Property>,
                   newprop: Property?, newlist: seq<Property?>)
      returns (r: Result<(Property?, seq<Property?>), Error>, ghost objs': seq<Property>)
      requires Valid() && n == |properties| && Mirrors(properties, st, objs)
      requires newprop == Deref(objs, st.current) && newlist == Resolve(objs, st.list)
      modifies objs
      ensures r.Err? <==> Step(n, partitions, st, line).Err?
      ensures r.Err? ==> r.error == Step(n, partitions, st, line).error
      ensures r.Ok? ==>
        var st' := Step(n, partitions, st, line).value;
        Mirrors(properties, st', objs') && objs'[..|objs|] == objs &&
        (forall k :: |objs| <= k < |objs'| ==> fresh(objs'[k])) &&
        r.value.0 == Deref(objs', st'.current) && r.value.1 == Resolve(objs', st'.list)
    {
      var next;
      next, objs' := ReadLine(line, partitions, n, st, objs, newprop);
      if next.Err? {
        return Err(next.error), objs';
      }
      ghost var st' := Step(n, partitions, st, line).value;
      ResolveExtend(objs, objs', st.list);
      var list := Remember(newlist, next.value, objs', st.list, st'.current);
      return Ok((next.value, list)), objs';
    }

    /**
     * The loop of `update_property_list` over the command's output: each
     * PROPERTY line selects (or creates) the current property, a DESCRIPTION
     * line naming it sets its description, any other line is appended to its
     * value, and the current property (None before the first PROPERTY line)
     * joins the list unless it is already there. It is the pure pass `Run`
     * carried out on objects: `objs` are the pass's properties, the store's
     * followed by the new ones.
     */
    method ReadLines(lines: seq<string>, partitions: set<string>) returns (r: Result<seq<Property?>, Error>, ghost objs: seq<Property>)
      requires Valid()
      modifies properties
      ensures var run := Run(|properties|, partitions, Start(old(Snaps(properties))), lines);
        (r.Err? <==> run.Err?) && (r.Err? ==> r.error == run.error) &&
        (run.Ok? ==>
          Mirrors(properties, run.value, objs) &&
          (forall k :: |properties| <= k < |objs| ==> fresh(objs[k])) &&
          r.value == Resolve(objs, run.value.list))
    {
      var n := |properties|;
      ghost var store := Snaps(properties);
      ghost var st := Start(store);
      objs := properties;
      var newlist: seq<Property?> := [];
      var newprop: Property? := null;
      var i := 0;
      while i < |lines|
        invariant 0 <= i <= |lines|
        invariant properties == old(properties)
        invariant Run(n, partitions, Start(store), lines[..i]) == Ok(st)
        invariant Mirrors(properties, st, objs)
        invariant forall k :: n <= k < |objs| ==> fresh(objs[k])
        invariant newprop == Deref(objs, st.current)
        invariant newlist == Resolve(objs, st.list)
      {
        RunPrefix(n, partitions, Start(store), lines, i);
        var next;
        ghost var objs';
        next, objs' := Advance(lines[i], partitions, n, st, objs, newprop, newlist);
        if next.Err? {
          assert Run(n, partitions, Start(store), lines[..i + 1]) == Step(n, partitions, st, lines[i]);
          RunStops(n, partitions, Start(store), lines, i);
          return Err(next.error), objs';
        }
        newprop, newlist := next.value.0, next.value.1;
        st, objs := Step(n, partitions, st, lines[i]).value, objs';
        i := i + 1;
      }
      assert lines[..i] == lines;
      return Ok(newlist), objs;
    }

    /** `create_dynamic_property_map_from_property`: file `e` in the index, first-wins. */
    method IndexProperty(e: Property)
      modifies this`propertyMap
      ensures propertyMap == Insert(old(propertyMap), e)
    {
      propertyMap := Insert(propertyMap, e);
    }

    /** `self.property_map = Property_Map()` and then every store property filed in store order. */
    method RebuildIndex()
      modifies this`propertyMap
      ensures propertyMap == Build(EmptyIndex, properties)
    {
      propertyMap := EmptyIndex;
      assert properties[0..] == properties;
      var j := 0;
      while j < |properties|
        invariant 0 <= j <= |properties|
        invariant Build(propertyMap, properties[j..]) == Build(EmptyIndex, properties)
      {
        assert properties[j..][1..] == properties[j + 1..];
        IndexProperty(properties[j]);
        j := j + 1;
      }
    }

    /** The inner loop of a filtered refresh: file `e` once for each store property with its key path. */
    method RefileOne(e: Property)
      modifies this`propertyMap
      ensures propertyMap == if e.keyPath in KeyPaths(properties) then Insert(old(propertyMap), e) else old(propertyMap)
    {
      var b := 0;
      while b < |properties|
        invariant 0 <= b <= |properties|
        invariant propertyMap == if e.keyPath in KeyPaths(properties)[..b] then Insert(old(propertyMap), e) else old(propertyMap)
      {
        assert KeyPaths(properties)[..b + 1] == KeyPaths(properties)[..b] + [properties[b].keyPath];
        if properties[b].keyPath == e.keyPath {
          if e.keyPath in KeyPaths(properties)[..b] {
            InsertTwice(old(propertyMap), e);
          }
          IndexProperty(e);
        }
        b := b + 1;
      }
      assert KeyPaths(properties)[..b] == KeyPaths(properties);
    }

    /**
     * The index update of a filtered refresh: for each listed property and
     * each store property with the same key path, file the listed one. The
     * first None met while the store is non-empty raises, with the listed
     * properties before it already filed.
     */
    method RefileRefreshed(newlist: seq<Property?>) returns (r: Result<(), Error>)
      modifies this`propertyMap
      ensures r.Err? <==> null in newlist && properties != []
      ensures r.Ok? ==> propertyMap == Reindex(old(propertyMap), newlist, KeyPaths(properties))
      ensures r.Err? ==>
        r.error == NoneEntry &&
        propertyMap == Reindex(old(propertyMap), newlist[..FirstIndexOf(newlist, null).value], KeyPaths(properties))
    {
      var a := 0;
      while a < |newlist|
        invariant 0 <= a <= |newlist|
        invariant propertyMap == Reindex(old(propertyMap), newlist[..a], KeyPaths(properties))
        invariant properties != [] ==> null !in newlist[..a]
      {
        var e := newlist[a];
        if e == null {
          if properties != [] {
            assert FirstIndexOf(newlist, null) == Some(a);
            return Err(NoneEntry);
          }
        } else {
          RefileOne(e);
        }
        assert newlist[..a + 1][..a] == newlist[..a];
        a := a + 1;
      }
      assert newlist[..a] == newlist;
      return Ok(());
    }

    /**
     * The full refresh: the list becomes the store and the index is rebuilt
     * from it. A list starting with None (output before the first PROPERTY
     * line) has its properties stored behind an empty index, and raises.
     */
    method InstallRefresh(list: seq<Property?>) returns (r: Result<seq<Property?>, Error>)
      requires Distinct(list) && forall i :: 1 <= i < |list| ==> list[i] != null
      modifies this`properties, this`propertyMap
      ensures Valid()
      ensures r.Err? <==> null in list
      ensures r.Ok? ==> r.value == list && properties == list && propertyMap == Build(EmptyIndex, properties)
      ensures r.Err? ==> r.error == NoneEntry && list[0] == null && properties == list[1..] && propertyMap == EmptyIndex
    {
      if list != [] && list[0] == null {
        assert Distinct(list[1..]) by {
          forall i, j | 0 <= i < j < |list| - 1 ensures list[1..][i] != list[1..][j] {
            assert list[i + 1] != list[j + 1];
          }
        }
        properties := list[1..];
        propertyMap := EmptyIndex;
        return Err(NoneEntry);
      }
      properties := list;
      RebuildIndex();
      return Ok(list);
    }

    /**
     * What `update_property_list` does with the list it has read: a full
     * refresh installs it; a filtered one refiles it, raising at a None
     * when the store is non-empty.
     */
    method ApplyRefresh(list: seq<Property?>, propertyName: string, ghost objs: seq<Property>)
      returns (r: Result<seq<Property?>, Error>)
      requires Valid() && Distinct(list) && forall i :: 1 <= i < |list| ==> list[i] != null
      modifies this`properties, this`propertyMap
      ensures unchanged(objs)
      ensures Valid()
      ensures r.Err? <==> null in list && (propertyName == "" || old(properties) != [])
      ensures r.Ok? ==> r.value == list
      ensures r.Err? ==> r.error == NoneEntry
      ensures propertyName == "" && r.Ok? ==> properties == list && propertyMap == Build(EmptyIndex, properties)
      ensures propertyName == "" && r.Err? ==> list[0] == null && properties == list[1..] && propertyMap == EmptyIndex
      ensures propertyName != "" ==> properties == old(properties)
      ensures propertyName != "" && r.Ok? ==> propertyMap == Reindex(old(propertyMap), list, KeyPaths(properties))
      ensures propertyName != "" && r.Err? ==> propertyMap == old(propertyMap)
    {
      if propertyName == "" {
        r := InstallRefresh(list);
        return;
      }
      var filed := RefileRefreshed(list);
      if filed.Err? {
        assert list[0] == null;
        assert FirstIndexOf(list, null) == Some(0);
        assert list[..0] == [];
        return Err(filed.error);
      }
      return Ok(list);
    }

    /**
     * `update_property_list`: read the describe command's output into a list
     * of properties, then either make that list the store and rebuild the
     * index (no property name given) or refile the listed properties whose
     * key path is already in the store, leaving the store as it was.
     *
     * When the output starts with lines before any PROPERTY line, the list
     * starts with None: a full refresh then installs the list's properties,
     * resets the index and raises; a filtered refresh raises iff the store is
     * non-empty, before touching the index.
     */
    method UpdatePropertyList(lines: seq<string>, propertyName: string, partitions: set<string>)
      returns (r: Result<seq<Property?>, Error>, ghost run: Result<Pass, Error>, ghost objs: seq<Property>)
      requires Valid()
      modifies this, properties
      ensures run == Run(|old(properties)|, partitions, Start(old(Snaps(properties))), lines)
      ensures Valid()
      ensures r.Err? <==> run.Err? || (None in run.value.list && (propertyName == "" || old(properties) != []))
      ensures run.Err? ==> r == Err(run.error) && properties == old(properties) && propertyMap == old(propertyMap)
      ensures run.Ok? ==>
        Mirrors(old(properties), run.value, objs) && (forall k :: |old(properties)| <= k < |objs| ==> fresh(objs[k]))
      ensures run.Ok? && r.Ok? ==> r.value == Resolve(objs, run.value.list) && Distinct(r.value)
      ensures run.Ok? && r.Err? ==> r.error == NoneEntry
      ensures propertyName == "" && r.Ok? ==> properties == r.value && propertyMap == Build(EmptyIndex, properties)
      ensures propertyName == "" && run.Ok? && r.Err? ==>
        |run.value.list| > 0 && properties == Resolve(objs, run.value.list[1..]) && propertyMap == EmptyIndex
      ensures propertyName != "" ==> properties == old(properties)
      ensures propertyName != "" && r.Ok? ==> propertyMap == Reindex(old(propertyMap), r.value, KeyPaths(properties))
      ensures propertyName != "" && r.Err? ==> propertyMap == old(propertyMap)
    {
      ghost var store := Snaps(properties);
      ghost var n := |properties|;
      ghost var before := properties;
      run := Run(n, partitions, Start(store), lines);
      var read;
      read, objs := ReadLines(lines, partitions);
      if read.Err? {
        return Err(read.error), run, objs;
      }
      ghost var st := run.value;
      assert properties == before && Mirrors(before, st, objs);
      RefreshedList(n, partitions, store, lines, objs);
      assert read.value != [] ==> Resolve(objs, st.list[1..]) == read.value[1..];
      r := ApplyRefresh(read.value, propertyName, objs);
    }
  
    /**
     * `get_properties`: refresh the whole store first when it is empty or an
     * update is forced, then keep, in store order, the properties that satisfy
     * every filter set. A failed refresh raises.
     */
    method GetProperties(f: Queries.Filters, forceUpdate: bool, lines: seq<string>, partitions: set<string>)
      returns (r: Result<seq<Property>, Error>, ghost run: Result<Pass, Error>, ghost objs: seq<Property>)
      requires Valid()
      modifies this, properties
      ensures Valid()
      ensures run == Run(|old(properties)|, partitions, Start(old(Snaps(properties))), lines)
      ensures r.Err? <==> (old(properties) == [] || forceUpdate) && (run.Err? || None in run.value.list)
      ensures r.Err? ==> r.error == NoneEntry || r.error.EmptyPropertyLine?
      ensures old(properties) != [] && !forceUpdate ==>
        properties == old(properties) && propertyMap == old(propertyMap) && unchanged(old(properties))
      ensures (old(properties) == [] || forceUpdate) && run.Err? ==>
        r == Err(run.error) && properties == old(properties) && propertyMap == old(propertyMap)
      ensures (old(properties) == [] || forceUpdate) && run.Ok? ==>
        Mirrors(old(properties), run.value, objs) && (forall k :: |old(properties)| <= k < |objs| ==> fresh(objs[k]))
      ensures (old(properties) == [] || forceUpdate) && r.Ok? ==>
        properties == Resolve(objs, run.value.list) && propertyMap == Build(EmptyIndex, properties)
      ensures (old(properties) == [] || forceUpdate) && run.Ok? && r.Err? ==>
        r.error == NoneEntry && |run.value.list| > 0 &&
        properties == Resolve(objs, run.value.list[1..]) && propertyMap == EmptyIndex
      ensures r.Ok? ==> r.value == Queries.GetProperties(properties, f) && Queries.Subsequence(r.value, properties)
      ensures r.Ok? ==> forall e :: e in r.value <==> e in properties && Queries.Matches(e, f)
    {
      run := Run(|properties|, partitions, Start(Snaps(properties)), lines);
      objs := properties;
      if properties == [] || forceUpdate {
        var refreshed;
        refreshed, run, objs := UpdatePropertyList(lines, "", partitions);
        if refreshed.Err? {
          return Err(refreshed.error), run, objs;
        }
      }
      r := Ok(Queries.GetProperties(properties, f));
      forall e | true
        ensures e in r.value <==> e in properties && Queries.Matches(e, f)
        ensures Queries.Subsequence(r.value, properties)
      {
        Queries.GetPropertiesMembers(properties, f, e);
      }
    }

    /**
     * `get_property`: the first property named `name` among those
     * `get_properties` keeps for the partition and service type; None when
     * none is kept, the not-found error when none of them has that name.
     * The refresh `get_properties` may run leaves the store as it does there.
     */
    method GetProperty(name: string, serviceType: string, partition: string, forceUpdate: bool,
                       lines: seq<string>, partitions: set<string>)
      returns (r: Result<Option<Property>, Error>, ghost run: Result<Pass, Error>, ghost objs: seq<Property>)
      requires Valid()
      modifies this, properties
      ensures Valid()
      ensures run == Run(|old(properties)|, partitions, Start(old(Snaps(properties))), lines)
      ensures old(properties) != [] && !forceUpdate ==>
        properties == old(properties) && propertyMap == old(propertyMap) && unchanged(old(properties))
      ensures (old(properties) == [] || forceUpdate) && run.Err? ==>
        r == Err(run.error) && properties == old(properties) && propertyMap == old(propertyMap)
      ensures (old(properties) == [] || forceUpdate) && run.Ok? ==>
        Mirrors(old(properties), run.value, objs) && (forall k :: |old(properties)| <= k < |objs| ==> fresh(objs[k]))
      ensures (old(properties) == [] || forceUpdate) && run.Ok? && None !in run.value.list ==>
        properties == Resolve(objs, run.value.list) && propertyMap == Build(EmptyIndex, properties)
      ensures (old(properties) == [] || forceUpdate) && run.Ok? && None in run.value.list ==>
        r == Err(NoneEntry) && properties == Resolve(objs, run.value.list[1..]) && propertyMap == EmptyIndex
      ensures r.Ok? && r.value.Some? ==>
        exists i :: 0 <= i < |properties| && properties[i] == r.value.value && r.value.value.name == name &&
          Queries.Matches(r.value.value, PropertyFilters(partition, serviceType)) &&
          forall j :: 0 <= j < i && Queries.Matches(properties[j], PropertyFilters(partition, serviceType)) ==>
            properties[j].name != name
      ensures r.Ok? && r.value.None? ==>
        forall e :: e in properties ==> !Queries.Matches(e, PropertyFilters(partition, serviceType))
      ensures r.Err? ==>
        (r.error == NotFoundByName(name) || ((old(properties) == [] || forceUpdate) && (run.Err? || None in run.value.list)))
      ensures r.Err? && r.error == NotFoundByName(name) ==>
        (exists e :: e in properties && Queries.Matches(e, PropertyFilters(partition, serviceType))) &&
        forall e :: e in properties && Queries.Matches(e, PropertyFilters(partition, serviceType)) ==> e.name != name
    {
      var f := PropertyFilters(partition, serviceType);
      var list;
      list, run, objs := GetProperties(f, forceUpdate, lines, partitions);
      if list.Err? {
        return Err(list.error), run, objs;
      }
      r := PickByName(f, name, list.value);
    }

    /** The lookup `get_property` makes in what `get_properties` returned: nothing when it is empty, else the first with the name. */
    method PickByName(f: Queries.Filters, name: string, list: seq<Property>) returns (r: Result<Option<Property>, Error>)
      requires list == Queries.GetProperties(properties, f)
      requires forall e :: e in list <==> e in properties && Queries.Matches(e, f)
      ensures r.Ok? && r.value.Some? ==>
        exists i :: 0 <= i < |properties| && properties[i] == r.value.value && r.value.value.name == name &&
          Queries.Matches(r.value.value, f) &&
          forall j :: 0 <= j < i && Queries.Matches(properties[j], f) ==> properties[j].name != name
      ensures r.Ok? && r.value.None? ==> forall e :: e in properties ==> !Queries.Matches(e, f)
      ensures r.Err? ==>
        r.error == NotFoundByName(name) &&
        (exists e :: e in properties && Queries.Matches(e, f)) &&
        forall e :: e in properties && Queries.Matches(e, f) ==> e.name != name
    {
      if list == [] {
        return Ok(None);
      }
      var found := Queries.ByName(list, properties, name);
      if found.Err? {
        assert list[0] in list;
        forall e | e in list ensures e.name != name {
          var i :| 0 <= i < |list| && list[i] == e;
        }
        return Err(found.error);
      }
      FirstInStore(f, name, list, found.value);
      return Ok(Some(found.value));
    }

    /** The first property of the filtered list with the name is the first one of the store. */
    lemma FirstInStore(f: Queries.Filters, name: string, list: seq<Property>, e: Property)
      requires list == Queries.GetProperties(properties, f)
      requires e.name == name
      requires exists k :: 0 <= k < |list| && list[k] == e && forall j :: 0 <= j < k ==> list[j].name != name
      ensures exists i :: 0 <= i < |properties| && properties[i] == e && forall j :: 0 <= j < i && Queries.Matches(properties[j], f) ==> properties[j].name != name
    {
      var k :| 0 <= k < |list| && list[k] == e && forall j :: 0 <= j < k ==> list[j].name != name;
      Queries.SelectAllFirst(properties, Queries.Active(f), name, k);
      var i :| 0 <= i < |properties| && properties[i] == e &&
        Queries.NoEarlierKept(properties, Queries.Active(f), name, i);
    }

    /** The objects `set_property` and `reset_property_to_default` may change: the given property, or the store's. */
    function Targets(target: PropertyRef): set<Property>
      reads this
    {
      if target.Entity? then {target.entity} else set e | e in properties
    }

    /**
     * `set_property` (the second definition, which replaces the first): find
     * the property, record its value as the last value, and when the modify
     * command reports the requested value as its third token, make that the
     * value. Every other response raises, after the last value was recorded.
     */
    method SetProperty(target: PropertyRef, value: string, response: Option<string>) returns (r: Result<string, Error>)
      modifies Targets(target)
      ensures var t := old(SetTarget(properties, target));
        t.Err? ==> r == Err(t.error) && unchanged(Targets(target))
      ensures var t := old(SetTarget(properties, target));
        t.Ok? ==>
          r == SetOutcome(value, response) &&
          t.value.lastValue == old(t.value.value) &&
          t.value.value == (if r.Ok? then value else old(t.value.value)) &&
          t.value.description == old(t.value.description) &&
          forall o :: o in Targets(target) && o != t.value ==> unchanged(o)
    {
      var t := SetTarget(properties, target);
      if t.Err? {
        return Err(t.error);
      }
      var e := t.value;
      e.lastValue := e.value;
      r := SetOutcome(value, response);
      if r.Ok? {
        e.value := r.value;
      }
    }

    /**
     * `reset_property_to_default`: find the property, record its value as the
     * last value, and return the default the reset command reports as its
     * third token. The property's own value is left as it was.
     */
    method ResetPropertyToDefault(target: PropertyRef, response: Option<string>) returns (r: Result<string, Error>)
      modifies Targets(target)
      ensures var t := old(ResetTarget(properties, target));
        t.Err? ==> r == Err(t.error) && unchanged(Targets(target))
      ensures var t := old(ResetTarget(properties, target));
        t.Ok? ==>
          r == ResetOutcome(response) &&
          t.value.lastValue == old(t.value.value) &&
          t.value.value == old(t.value.value) &&
          t.value.description == old(t.value.description) &&
          forall o :: o in Targets(target) && o != t.value ==> unchanged(o)
    {
      var t := ResetTarget(properties, target);
      if t.Err? {
        return Err(t.error);
      }
      var e := t.value;
      e.lastValue := e.value;
      r := ResetOutcome(response);
    }

    /**
     * `get_property_default_value`: refuse unless the caller acknowledged that
     * it briefly resets the property; otherwise reset it, set the original
     * value back and return the default. Whatever the responses, an
     * acknowledged call leaves the value as it was and the last value equal to it.
     */
    method GetPropertyDefaultValue(e: Property, acknowledged: bool, resetResponse: Option<string>, setResponse: Option<string>)
      returns (r: Result<string, Error>)
      modifies e
      ensures !acknowledged ==> r == Err(WarningNotAcknowledged) && unchanged(e)
      ensures acknowledged ==> e.value == old(e.value) && e.lastValue == old(e.value) && e.description == old(e.description)
      ensures r.Ok? <==> acknowledged && ResetOutcome(resetResponse).Ok? && SetOutcome(old(e.value), setResponse).Ok?
      ensures r.Ok? ==> r == ResetOutcome(resetResponse)
      ensures acknowledged && r.Err? ==>
        r == (if ResetOutcome(resetResponse).Err? then ResetOutcome(resetResponse) else Err(SetOutcome(old(e.value), setResponse).error))
    {
      if !acknowledged {
        return Err(WarningNotAcknowledged);
      }
      var original := e.value;
      r := ResetPropertyToDefault(Entity(e), resetResponse);
      if r.Err? {
        return;
      }
      var restored := SetProperty(Entity(e), original, setResponse);
      if restored.Err? {
        return Err(restored.error);
      }
    }
}
}
