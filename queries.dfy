/**
 * The manager's read-only queries over an ordered list of properties: the
 * four filters, the chain of them in `get_properties`, and the two
 * first-match lookups. Every helper that takes an optional list falls back
 * to the store when the list is empty (`list or self.properties`).
 */
module Queries {
  import opened Wrappers
  import opened Errors
  import opened Text
  import opened PropertyType
  import opened Entities

  /** One filter of `get_properties`. Search strings match as substrings of the key path. */
  datatype Criterion =
    | InPartition(partition: Option<string>)
    | OfService(serviceType: Option<string>)
    | Searched(search: string)
    | WithValue(value: string)

  /** `str(service_type)` compared with a filter: the tag's name, None for a property without one. */
  function TypeValue(st: Option<ServiceType>): Option<string> {
    if st.Some? then Some(Name(st.value)) else None
  }

  predicate Holds(e: Property, c: Criterion)
    reads e
  {
    match c
    case InPartition(p) => e.partition == p
    case OfService(s) => TypeValue(e.serviceType) == s
    case Searched(s) => Contains(e.keyPath, s)
    case WithValue(v) => e.value == v
  }

  /** `list or self.properties`. */
  function OrStore(list: seq<Property>, store: seq<Property>): seq<Property> {
    if list == [] then store else list
  }

  /** `a` is `b` with some elements left out, the rest in the same order. */
  predicate Subsequence<T(==)>(a: seq<T>, b: seq<T>)
    decreases |b|
  {
    if a == [] then true
    else if b == [] then false
    else (a[0] == b[0] && Subsequence(a[1..], b[1..])) || Subsequence(a, b[1..])
  }

  /** The elements of `es` that satisfy `c`, in order. */
  function Filter(es: seq<Property>, c: Criterion): (r: seq<Property>)
    reads es
    ensures Subsequence(r, es)
    ensures forall i :: 0 <= i < |r| ==> r[i] in es && Holds(r[i], c)
    ensures forall i :: 0 <= i < |es| && Holds(es[i], c) ==> es[i] in r
    decreases |es|
  {
    if es == [] then []
    else
      var rest := Filter(es[1..], c);
      if Holds(es[0], c) then [es[0]] + rest else rest
  }

  /** `Filter` keeps every copy of an element that satisfies `c` and no copy of one that does not. */
  lemma {:induction false} FilterCounts(es: seq<Property>, c: Criterion)
    ensures multiset(Filter(es, c)) <= multiset(es)
    ensures forall x :: x in es ==> multiset(Filter(es, c))[x] == if Holds(x, c) then multiset(es)[x] else 0
    decreases |es|
  {
    if es != [] {
      FilterCounts(es[1..], c);
      assert es == [es[0]] + es[1..];
      var rest := Filter(es[1..], c);
      assert multiset(es) == multiset{es[0]} + multiset(es[1..]);
      if Holds(es[0], c) {
        assert Filter(es, c) == [es[0]] + rest;
        assert multiset(Filter(es, c)) == multiset{es[0]} + multiset(rest);
      }
      forall x | x in es
        ensures multiset(Filter(es, c))[x] == if Holds(x, c) then multiset(es)[x] else 0
      {
        if x !in es[1..] {
          assert multiset(es[1..])[x] == 0;
        }
      }
    }
  }

  /** The first element `Filter` keeps is the first element of `es` that satisfies `c`. */
  lemma {:induction false} FilterFirst(es: seq<Property>, c: Criterion)
    requires Filter(es, c) != []
    ensures exists i ::
      0 <= i < |es| && es[i] == Filter(es, c)[0] && Holds(es[i], c) &&
      forall j :: 0 <= j < i ==> !Holds(es[j], c)
    decreases |es|
  {
    if !Holds(es[0], c) {
      FilterFirst(es[1..], c);
      var i :| 0 <= i < |es[1..]| && es[1..][i] == Filter(es[1..], c)[0] && Holds(es[1..][i], c) &&
        forall j :: 0 <= j < i ==> !Holds(es[1..][j], c);
      assert es[i + 1] == Filter(es, c)[0];
      assert forall j :: 0 <= j < i + 1 ==> !Holds(es[j], c) by {
        forall j | 0 <= j < i + 1 ensures !Holds(es[j], c) {
          if j > 0 { assert es[j] == es[1..][j - 1]; }
        }
      }
    }
  }

  /** `get_all_properties_for_partition`. */
  function ForPartition(list: seq<Property>, store: seq<Property>, partition: Option<string>): (r: seq<Property>)
    reads OrStore(list, store)
    ensures Subsequence(r, OrStore(list, store))
    ensures forall i :: 0 <= i < |r| ==> r[i].partition == partition
    ensures forall e :: e in OrStore(list, store) && e.partition == partition ==> e in r
    ensures multiset(r) <= multiset(OrStore(list, store))
    ensures forall x :: x in OrStore(list, store) ==>
      multiset(r)[x] == if x.partition == partition then multiset(OrStore(list, store))[x] else 0
  {
    FilterCounts(OrStore(list, store), InPartition(partition));
    var r := Filter(OrStore(list, store), InPartition(partition));
    assert forall i :: 0 <= i < |r| ==> Holds(r[i], InPartition(partition));
    r
  }

  /** `get_all_properties_for_service`. */
  function ForService(list: seq<Property>, store: seq<Property>, serviceType: Option<string>): (r: seq<Property>)
    reads OrStore(list, store)
    ensures Subsequence(r, OrStore(list, store))
    ensures forall i :: 0 <= i < |r| ==> TypeValue(r[i].serviceType) == serviceType
    ensures forall e :: e in OrStore(list, store) && TypeValue(e.serviceType) == serviceType ==> e in r
    ensures multiset(r) <= multiset(OrStore(list, store))
    ensures forall x :: x in OrStore(list, store) ==>
      multiset(r)[x] == if TypeValue(x.serviceType) == serviceType then multiset(OrStore(list, store))[x] else 0
  {
    FilterCounts(OrStore(list, store), OfService(serviceType));
    var r := Filter(OrStore(list, store), OfService(serviceType));
    assert forall i :: 0 <= i < |r| ==> Holds(r[i], OfService(serviceType));
    r
  }

  /** `get_all_properties_by_search_string`, the pattern read as a plain substring. */
  function BySearchString(list: seq<Property>, store: seq<Property>, search: string): (r: seq<Property>)
    reads OrStore(list, store)
    ensures Subsequence(r, OrStore(list, store))
    ensures forall i :: 0 <= i < |r| ==> Contains(r[i].keyPath, search)
    ensures forall e :: e in OrStore(list, store) && Contains(e.keyPath, search) ==> e in r
    ensures multiset(r) <= multiset(OrStore(list, store))
    ensures forall x :: x in OrStore(list, store) ==>
      multiset(r)[x] == if Contains(x.keyPath, search) then multiset(OrStore(list, store))[x] else 0
  {
    FilterCounts(OrStore(list, store), Searched(search));
    var r := Filter(OrStore(list, store), Searched(search));
    assert forall i :: 0 <= i < |r| ==> Holds(r[i], Searched(search));
    r
  }

  // ---------------------------------------------------------------------------
  // get_properties
  // ---------------------------------------------------------------------------

  /** The filters of `get_properties`; an empty string, like None, sets no filter. */
  datatype Filters = Filters(partition: string, serviceType: string, value: string, search: string)

  const NoFilters := Filters("", "", "", "")

  /** The filters `f` sets, in the order `get_properties` applies them. */
  function Active(f: Filters): seq<Criterion> {
    (if f.partition != "" then [InPartition(Some(f.partition))] else []) +
    (if f.serviceType != "" then [OfService(Some(f.serviceType))] else []) +
    (if f.search != "" then [Searched(f.search)] else []) +
    (if f.value != "" then [WithValue(f.value)] else [])
  }

  predicate HoldsAll(e: Property, cs: seq<Criterion>)
    reads e
  {
    forall i :: 0 <= i < |cs| ==> Holds(e, cs[i])
  }

  /** A property satisfies the filters when it satisfies each one that is set. */
  predicate Matches(e: Property, f: Filters)
    reads e
  {
    HoldsAll(e, Active(f))
  }

  /** The reference: one pass keeping, in order, every property that satisfies all of `cs`. */
  function SelectAll(es: seq<Property>, cs: seq<Criterion>): (r: seq<Property>)
    reads es
    ensures Subsequence(r, es)
    ensures forall i :: 0 <= i < |r| ==> r[i] in es && HoldsAll(r[i], cs)
    ensures forall i :: 0 <= i < |es| && HoldsAll(es[i], cs) ==> es[i] in r
    decreases |es|
  {
    if es == [] then []
    else
      var rest := SelectAll(es[1..], cs);
      if HoldsAll(es[0], cs) then [es[0]] + rest else rest
  }

  lemma {:induction false} FilterSelectAll(es: seq<Property>, cs: seq<Criterion>, c: Criterion)
    ensures Filter(SelectAll(es, cs), c) == SelectAll(es, cs + [c])
    decreases |es|
  {
    if es != [] {
      FilterSelectAll(es[1..], cs, c);
      var e := es[0];
      assert HoldsAll(e, cs + [c]) <==> HoldsAll(e, cs) && Holds(e, c) by {
        assert forall i :: 0 <= i < |cs| ==> (cs + [c])[i] == cs[i];
        assert (cs + [c])[|cs|] == c;
      }
    }
  }

  lemma {:induction false} SelectNone(es: seq<Property>)
    ensures SelectAll(es, []) == es
    decreases |es|
  {
    if es != [] {
      SelectNone(es[1..]);
    }
  }

  /** One link of the chain in `get_properties`: filter only when the filter is set and something is left. */
  function Narrow(x: seq<Property>, isSet: bool, c: Criterion): seq<Property>
    reads x
  {
    if isSet && x != [] then Filter(x, c) else x
  }

  /** Narrowing what the earlier filters kept adds the new filter's condition. */
  lemma NarrowSelect(store: seq<Property>, cs: seq<Criterion>, isSet: bool, c: Criterion)
    ensures Narrow(SelectAll(store, cs), isSet, c) == SelectAll(store, cs + (if isSet then [c] else []))
  {
    if isSet {
      FilterSelectAll(store, cs, c);
    } else {
      assert cs + [] == cs;
    }
  }

  /**
   * `get_properties` once the store is up to date: the filters applied one
   * after another, each only to a non-empty list, so the helpers' fallback
   * to the store never fires and each helper is `Filter` on that list.
   */
  function GetProperties(store: seq<Property>, f: Filters): (r: seq<Property>)
    reads store
    ensures r == SelectAll(store, Active(f))
  {
    var a := Narrow(store, f.partition != "", InPartition(Some(f.partition)));
    var b := Narrow(a, f.serviceType != "", OfService(Some(f.serviceType)));
    var c := Narrow(b, f.search != "", Searched(f.search));
    GetPropertiesChain(store, f);
    Narrow(c, f.value != "", WithValue(f.value))
  }

  lemma GetPropertiesChain(store: seq<Property>, f: Filters)
    ensures var a := Narrow(store, f.partition != "", InPartition(Some(f.partition)));
      var b := Narrow(a, f.serviceType != "", OfService(Some(f.serviceType)));
      var c := Narrow(b, f.search != "", Searched(f.search));
      Narrow(c, f.value != "", WithValue(f.value)) == SelectAll(store, Active(f))
  {
    var p := if f.partition != "" then [InPartition(Some(f.partition))] else [];
    var s := if f.serviceType != "" then [OfService(Some(f.serviceType))] else [];
    var q := if f.search != "" then [Searched(f.search)] else [];
    SelectNone(store);
    NarrowSelect(store, [], f.partition != "", InPartition(Some(f.partition)));
    assert [] + p == p;
    NarrowSelect(store, p, f.serviceType != "", OfService(Some(f.serviceType)));
    NarrowSelect(store, p + s, f.search != "", Searched(f.search));
    NarrowSelect(store, p + s + q, f.value != "", WithValue(f.value));
  }

  /** The filters are a conjunction: a property satisfies them exactly when it passes each filter that is set. */
  lemma MatchesMeans(e: Property, f: Filters)
    ensures Matches(e, f) <==>
      (f.partition == "" || e.partition == Some(f.partition)) &&
      (f.serviceType == "" || TypeValue(e.serviceType) == Some(f.serviceType)) &&
      (f.search == "" || Contains(e.keyPath, f.search)) &&
      (f.value == "" || e.value == f.value)
  {
    var cs := Active(f);
    var p := if f.partition != "" then [InPartition(Some(f.partition))] else [];
    var s := if f.serviceType != "" then [OfService(Some(f.serviceType))] else [];
    var q := if f.search != "" then [Searched(f.search)] else [];
    var v := if f.value != "" then [WithValue(f.value)] else [];
    assert cs == p + s + q + v;
    if f.partition != "" { assert cs[0] == InPartition(Some(f.partition)); }
    if f.serviceType != "" { assert cs[|p|] == OfService(Some(f.serviceType)); }
    if f.search != "" { assert cs[|p + s|] == Searched(f.search); }
    if f.value != "" { assert cs[|p + s + q|] == WithValue(f.value); }
  }

  /** `get_properties` keeps, in store order, exactly the properties that satisfy every filter set. */
  lemma GetPropertiesMembers(store: seq<Property>, f: Filters, e: Property)
    ensures e in GetProperties(store, f) <==> e in store && Matches(e, f)
    ensures Subsequence(GetProperties(store, f), store)
  {
    if e in store {
      var i :| 0 <= i < |store| && store[i] == e;
    }
  }

  /** No property before position `i` of `es` satisfies `cs` and is named `name`. */
  predicate NoEarlierKept(es: seq<Property>, cs: seq<Criterion>, name: string, i: nat)
    requires i <= |es|
    reads es
  {
    forall j :: 0 <= j < i && HoldsAll(es[j], cs) ==> es[j].name != name
  }

  lemma ShiftKept(es: seq<Property>, cs: seq<Criterion>, name: string, i: nat)
    requires es != [] && i < |es| - 1 && NoEarlierKept(es[1..], cs, name, i)
    requires HoldsAll(es[0], cs) ==> es[0].name != name
    ensures NoEarlierKept(es, cs, name, i + 1)
  {
    assert forall j :: 1 <= j < i + 1 ==> es[j] == es[1..][j - 1];
  }

  /**
   * The first property named `name` among those `SelectAll` keeps is, in
   * `es`, preceded by no other kept property with that name.
   */
  lemma {:induction false} SelectAllFirst(es: seq<Property>, cs: seq<Criterion>, name: string, k: nat)
    requires k < |SelectAll(es, cs)| && SelectAll(es, cs)[k].name == name
    requires forall j :: 0 <= j < k ==> SelectAll(es, cs)[j].name != name
    ensures exists i :: 0 <= i < |es| && es[i] == SelectAll(es, cs)[k] && NoEarlierKept(es, cs, name, i)
    decreases |es|
  {
    var all, rest := SelectAll(es, cs), SelectAll(es[1..], cs);
    if HoldsAll(es[0], cs) && k == 0 {
      assert es[0] == all[0] && NoEarlierKept(es, cs, name, 0);
    } else {
      var k' := if HoldsAll(es[0], cs) then k - 1 else k;
      FirstAfterHead(es, cs, name, k);
      SelectAllFirst(es[1..], cs, name, k');
      var i :| 0 <= i < |es[1..]| && es[1..][i] == rest[k'] && NoEarlierKept(es[1..], cs, name, i);
      ShiftKept(es, cs, name, i);
      assert es[i + 1] == all[k];
    }
  }

  /** Past a head that is not the answer, the first kept `name` sits one place earlier in the rest or at the same place. */
  lemma FirstAfterHead(es: seq<Property>, cs: seq<Criterion>, name: string, k: nat)
    requires k < |SelectAll(es, cs)| && SelectAll(es, cs)[k].name == name
    requires forall j :: 0 <= j < k ==> SelectAll(es, cs)[j].name != name
    requires !(HoldsAll(es[0], cs) && k == 0)
    ensures var k' := if HoldsAll(es[0], cs) then k - 1 else k;
      k' < |SelectAll(es[1..], cs)| && SelectAll(es[1..], cs)[k'] == SelectAll(es, cs)[k] &&
      (forall j :: 0 <= j < k' ==> SelectAll(es[1..], cs)[j].name != name) &&
      (HoldsAll(es[0], cs) ==> es[0].name != name)
  {
    var all, rest := SelectAll(es, cs), SelectAll(es[1..], cs);
    if HoldsAll(es[0], cs) {
      assert all == [es[0]] + rest;
      assert all[0] == es[0] && rest[k - 1] == all[k];
      forall j | 0 <= j < k - 1
        ensures rest[j].name != name
      {
        assert rest[j] == all[j + 1];
      }
    } else {
      assert all == rest;
    }
  }

  /** With no filter, `get_properties` returns the whole store. */
  lemma NoFiltersAll(store: seq<Property>)
    ensures GetProperties(store, NoFilters) == store
  {
    SelectNone(store);
  }

  // ---------------------------------------------------------------------------
  // First-match lookups
  // ---------------------------------------------------------------------------

  function Names(es: seq<Property>): (ns: seq<string>)
    ensures |ns| == |es| && forall i :: 0 <= i < |es| ==> ns[i] == es[i].name
  {
    seq(|es|, i requires 0 <= i < |es| => es[i].name)
  }

  /** `get_euproperty_by_name`: the first property with leaf name `name`, or the not-found error. */
  function ByName(list: seq<Property>, store: seq<Property>, name: string): (r: Result<Property, Error>)
    ensures r.Err? <==> forall i :: 0 <= i < |OrStore(list, store)| ==> OrStore(list, store)[i].name != name
    ensures r.Err? ==> r.error == NotFoundByName(name)
    ensures r.Ok? ==> exists i :: (0 <= i < |OrStore(list, store)| && OrStore(list, store)[i] == r.value &&
      r.value.name == name && forall j :: 0 <= j < i ==> OrStore(list, store)[j].name != name)
  {
    var es := OrStore(list, store);
    match FirstIndexOf(Names(es), name)
    case None => Err(NotFoundByName(name))
    case Some(i) =>
      assert forall j :: 0 <= j < i ==> Names(es)[..i][j] == es[j].name;
      Ok(es[i])
  }

  /** `get_property_by_string`: the first store property with exactly this key path. */
  function ByKeyPath(store: seq<Property>, keyPath: string): (r: Option<Property>)
    ensures r.None? <==> forall i :: 0 <= i < |store| ==> store[i].keyPath != keyPath
    ensures r.Some? ==> exists i :: (0 <= i < |store| && store[i] == r.value &&
      r.value.keyPath == keyPath && forall j :: 0 <= j < i ==> store[j].keyPath != keyPath)
  {
    match FirstIndexOf(KeyPaths(store), keyPath)
    case None => None
    case Some(i) =>
      assert forall j :: 0 <= j < i ==> KeyPaths(store)[..i][j] == store[j].keyPath;
      Some(store[i])
  }
}
