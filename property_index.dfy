/**
 * The dynamic `Property_Map` that `create_dynamic_property_map_from_property`
 * fills with `setattr`, as explicit maps: partition (None when the property
 * has none) to service type (None when it has none) to object name to
 * property, plus the flat `all` map from object name to property. Every
 * insertion is first-wins: an existing attribute is never overwritten.
 */
module PropertyIndex {
  import opened Wrappers
  import opened PropertyType
  import opened Entities

  datatype Index = Index(all: map<string, Property>,
                         tree: map<Option<string>, map<Option<ServiceType>, map<string, Property>>>)

  /** A fresh `Property_Map()`. */
  const EmptyIndex := Index(map[], map[])

  /** The partition level a property is filed under: `if euproperty.partition` is false for None and for "". */
  function PartitionKey(e: Property): Option<string> {
    if e.partition.Some? && e.partition.value != "" then e.partition else None
  }

  function Key(e: Property): string {
    ObjectName(e.serviceType, e.name)
  }

  /** The innermost map for partition `p` and service type `s`; empty where none was created. */
  function Bucket(ix: Index, p: Option<string>, s: Option<ServiceType>): map<string, Property> {
    if p in ix.tree && s in ix.tree[p] then ix.tree[p][s] else map[]
  }

  /**
   * `create_dynamic_property_map_from_property`: file `e` under its object
   * name in its partition/service-type bucket and in `all`, each unless the
   * name is already taken there.
   */
  function Insert(ix: Index, e: Property): (r: Index)
    ensures Key(e) in r.all && r.all[Key(e)] == (if Key(e) in ix.all then ix.all[Key(e)] else e)
    ensures forall k :: k in ix.all ==> k in r.all && r.all[k] == ix.all[k]
    ensures forall k :: k in r.all ==> k in ix.all || k == Key(e)
    ensures var b, b' := Bucket(ix, PartitionKey(e), e.serviceType), Bucket(r, PartitionKey(e), e.serviceType);
      Key(e) in b' && b'[Key(e)] == (if Key(e) in b then b[Key(e)] else e) &&
      (forall k :: k in b ==> k in b' && b'[k] == b[k]) &&
      (forall k :: k in b' ==> k in b || k == Key(e))
    ensures forall p, s :: (p, s) != (PartitionKey(e), e.serviceType) ==> Bucket(r, p, s) == Bucket(ix, p, s)
  {
    var k, p, s := Key(e), PartitionKey(e), e.serviceType;
    var pm: map<Option<ServiceType>, map<string, Property>> := if p in ix.tree then ix.tree[p] else map[];
    var sm: map<string, Property> := if s in pm then pm[s] else map[];
    Index(if k in ix.all then ix.all else ix.all[k := e],
          ix.tree[p := pm[s := if k in sm then sm else sm[k := e]]])
  }

  /** Filing the same property twice is the same as filing it once. */
  lemma InsertTwice(ix: Index, e: Property)
    ensures Insert(Insert(ix, e), e) == Insert(ix, e)
  {
    var once := Insert(ix, e);
    var k, p, s := Key(e), PartitionKey(e), e.serviceType;
    assert k in once.all;
    assert p in once.tree && s in once.tree[p] && k in once.tree[p][s];
    var pm := once.tree[p];
    assert pm[s := pm[s]] == pm;
    assert once.tree[p := pm] == once.tree;
  }

  /** `for prop in self.properties: create_dynamic_property_map_from_property(prop)`. */
  function Build(ix: Index, es: seq<Property>): Index
    decreases |es|
  {
    if es == [] then ix else Build(Insert(ix, es[0]), es[1..])
  }

  /** The first property of `es` filed under `k` in `all`. */
  function FirstWithKey(es: seq<Property>, k: string): Option<Property> {
    if es == [] then None else if Key(es[0]) == k then Some(es[0]) else FirstWithKey(es[1..], k)
  }

  /** The first property of `es` filed under `k` in the bucket for `p` and `s`. */
  function FirstInBucket(es: seq<Property>, p: Option<string>, s: Option<ServiceType>, k: string): Option<Property> {
    if es == [] then None
    else if PartitionKey(es[0]) == p && es[0].serviceType == s && Key(es[0]) == k then Some(es[0])
    else FirstInBucket(es[1..], p, s, k)
  }

  /** After building, `all[k]` is the earlier entry if there was one, else the first property with that name. */
  lemma {:induction false} BuildAll(ix: Index, es: seq<Property>, k: string)
    ensures k in Build(ix, es).all <==> k in ix.all || FirstWithKey(es, k).Some?
    ensures k in Build(ix, es).all ==>
      Build(ix, es).all[k] == if k in ix.all then ix.all[k] else FirstWithKey(es, k).value
    decreases |es|
  {
    if es != [] {
      BuildAll(Insert(ix, es[0]), es[1..], k);
    }
  }

  /** The same first-wins rule holds in every partition/service-type bucket. */
  lemma {:induction false} BuildBucket(ix: Index, es: seq<Property>, p: Option<string>, s: Option<ServiceType>, k: string)
    ensures k in Bucket(Build(ix, es), p, s) <==> k in Bucket(ix, p, s) || FirstInBucket(es, p, s, k).Some?
    ensures k in Bucket(Build(ix, es), p, s) ==>
      Bucket(Build(ix, es), p, s)[k] == if k in Bucket(ix, p, s) then Bucket(ix, p, s)[k] else FirstInBucket(es, p, s, k).value
    decreases |es|
  {
    if es != [] {
      InsertBucket(ix, es[0], p, s, k);
      BuildBucket(Insert(ix, es[0]), es[1..], p, s, k);
    }
  }

  /** One insertion, seen from a single bucket and object name. */
  lemma InsertBucket(ix: Index, e: Property, p: Option<string>, s: Option<ServiceType>, k: string)
    ensures k in Bucket(Insert(ix, e), p, s) <==>
      k in Bucket(ix, p, s) || (PartitionKey(e) == p && e.serviceType == s && Key(e) == k)
    ensures k in Bucket(Insert(ix, e), p, s) ==>
      Bucket(Insert(ix, e), p, s)[k] == if k in Bucket(ix, p, s) then Bucket(ix, p, s)[k] else e
  {
    if (p, s) != (PartitionKey(e), e.serviceType) {
      assert Bucket(Insert(ix, e), p, s) == Bucket(ix, p, s);
    }
  }

  lemma {:induction false} FirstWithKeyFound(es: seq<Property>, e: Property)
    requires e in es
    ensures FirstWithKey(es, Key(e)).Some?
    ensures FirstInBucket(es, PartitionKey(e), e.serviceType, Key(e)).Some?
  {
    if es[0] != e {
      FirstWithKeyFound(es[1..], e);
    }
  }

  /** Every property of a rebuilt index is reachable in `all` and in its own bucket under its object name. */
  lemma Reachable(es: seq<Property>, e: Property)
    requires e in es
    ensures Key(e) in Build(EmptyIndex, es).all
    ensures Key(e) in Bucket(Build(EmptyIndex, es), PartitionKey(e), e.serviceType)
  {
    FirstWithKeyFound(es, e);
    BuildAll(EmptyIndex, es, Key(e));
    BuildBucket(EmptyIndex, es, PartitionKey(e), e.serviceType, Key(e));
  }

  /**
   * The index update of a filtered refresh: each refreshed property whose key
   * path is in the store is filed again; the others and null are skipped.
   */
  function Reindex(ix: Index, refreshed: seq<Property?>, storeKeys: seq<string>): Index
    decreases |refreshed|
  {
    if refreshed == [] then ix
    else
      var before := Reindex(ix, refreshed[..|refreshed| - 1], storeKeys);
      var e := refreshed[|refreshed| - 1];
      if e != null && e.keyPath in storeKeys then Insert(before, e) else before
  }

  /** The object names a filtered refresh files: those of refreshed properties whose key path is in the store. */
  function RefiledNames(refreshed: seq<Property?>, storeKeys: seq<string>): set<string>
    decreases |refreshed|
  {
    if refreshed == [] then {}
    else
      var e := refreshed[|refreshed| - 1];
      RefiledNames(refreshed[..|refreshed| - 1], storeKeys) +
        (if e != null && e.keyPath in storeKeys then {Key(e)} else {})
  }

  /** A filtered refresh keeps every earlier entry of `all` and adds only names of refreshed properties already in the store. */
  lemma {:induction false} ReindexAll(ix: Index, refreshed: seq<Property?>, storeKeys: seq<string>)
    ensures Reindex(ix, refreshed, storeKeys).all.Keys == ix.all.Keys + RefiledNames(refreshed, storeKeys)
    ensures forall k :: k in ix.all ==> Reindex(ix, refreshed, storeKeys).all[k] == ix.all[k]
    decreases |refreshed|
  {
    if refreshed != [] {
      ReindexAll(ix, refreshed[..|refreshed| - 1], storeKeys);
    }
  }
}
