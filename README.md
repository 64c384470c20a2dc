# euproperties: a Dafny model of the Eucalyptus property cache

`eutester/euproperties.py` keeps a local cache of a Eucalyptus cloud's
configuration properties. `Euproperty_Manager` runs the describe command,
reads its output line by line into `Euproperty` objects, and keeps them in
two places: an ordered store (`properties`) and a nested attribute index
(`property_map`). It answers filtered queries over the store. It writes
values back with the modify command and checks that command's one-line
response.

This project models that core in Dafny and proves what it promises:

- `wrappers.dfy`: Option, Result and the error kinds the source raises.
- `text.dfy`: the Python string operations the parser relies on, with the
  facts the proofs need.
  - `str.replace` of every occurrence
  - `split()` on whitespace
  - `split('.')` and `'.'.join`
  - `strip`
  - first index
- `property_type.dfy`: `Euproperty_Type` and `get_type_by_string`.
- `line_parsing.dfy`: the PROPERTY- and DESCRIPTION-line parsers, and the
  key-path split into partition, service type and name.
- `entities.dfy`: `Euproperty` as a class. Key path, service type,
  partition, name and mandatory flag are constants; value, last value and
  description are the fields the manager updates in place. A `Record`
  snapshot gives the value-level view.
- `property_index.dfy`: `create_dynamic_property_map_from_property` as
  first-wins insertion into explicit nested maps. The levels are
  partition, then service type, then object name, plus the flat `all` map.
  Beside it are the index rebuild of a full refresh and the refiling of a
  filtered one.
- `refresh_model.dfy`: the line loop of `update_property_list` as a pure
  fold over a pool of records. A position in the pool stands for an
  object's identity, so "the same object" and "a new object" can be
  stated and proved.
- `queries.dfy`: the partition, service and search-string filters, the
  chain of them in `get_properties`, and the first-match lookups.
- `manager.dfy`: `Euproperty_Manager` as a class over `properties` and
  `propertyMap`. It holds the imperative parse, the refresh, the queries,
  `set_property`, `reset_property_to_default` and
  `get_property_default_value`. The refresh is proved against
  `refresh_model.dfy`: a ghost sequence of objects runs beside the pool,
  with each object's snapshot equal to its pool record.

Command output is a parameter throughout:
- the lines the describe command printed, as `seq<string>`;
- the first line the modify or reset command printed, as `Option<string>`,
  with None when it printed nothing.

The cloud's partition names are a `set<string>` parameter. Regular
expressions the source applies to data are read as plain substring
containment:
- the search string of `get_all_properties_by_search_string`;
- the property name a DESCRIPTION line must contain.

Where the code and its documentation disagree, the model follows the code:
- `get_type_by_string` never raises. `hasattr` is simply false for an
  unknown name, so the `xrange` loop always stops at its first segment,
  consuming it as the service type (None when it names no tag).
- `reset_property_to_default` records the last value but never changes the
  value. Its docstring says it returns the "new value" of a property.

## Model

| member | source | states |
|---|---|---|
| PropertyType.FromString | eutester/euproperties.py:92-99 | the tag found has the given string as its name, and None comes back exactly when no tag has that name; nothing is raised |
| PropertyType.NameRoundTrip | eutester/euproperties.py:75-89 | each of the fifteen tags is found again by its own name, so the names are distinct; none is empty or contains a dot |
| Entities.Property.constructor | eutester/euproperties.py:103-112 | the new property holds the given key path, type, partition, name and value; its last value equals its value; it is not mandatory and has no description |
| Entities.TypeString | eutester/euproperties.py:424 | `str(service_type)` contains no dot, for a tag and for None |
| Entities.ObjectName | eutester/euproperties.py:424 | the index attribute name contains no dot and starts with the type string followed by `_` |
| Text.RemoveAll | eutester/euproperties.py:362 | replacing every occurrence never lengthens the text and leaves text without the pattern as it was |
| Text.RemoveAllKeeps | eutester/euproperties.py:362 | text that cannot start the pattern passes through the replacement unchanged, ahead of the replaced rest |
| Text.Words | eutester/euproperties.py:365 | `split()` yields non-empty whitespace-free words |
| Text.WordsJoin | eutester/euproperties.py:368 | splitting the single-space join of words gives back those words |
| Text.WordsStrip | eutester/euproperties.py:362 | stripping does not change the words of a line |
| Text.Split | eutester/euproperties.py:380 | `split('.')` yields at least one part, none containing a dot |
| Text.JoinSplit | eutester/euproperties.py:380 | joining the `split('.')` parts with dots gives back the text |
| Text.FirstIndexOf | eutester/euproperties.py:371-376 | the position found holds the value and no earlier one does; there is none exactly when the value is absent |
| LineParsing.PropertyFields | eutester/euproperties.py:362-368 | a PROPERTY line parses exactly when a token is left once every PROPERTY is removed; otherwise the error names the line; the key path is a single word, and the remaining tokens are the value's words |
| LineParsing.ParsePropertyValue | eutester/euproperties.py:347-350 | the value's words are the tokens after the first, once every PROPERTY is removed |
| LineParsing.ParseDescription | eutester/euproperties.py:339-345 | the description's words are the tokens after the first, once every DESCRIPTION is removed |
| LineParsing.PropertyLineAgrees | eutester/euproperties.py:347-368 | the key path is the first token left and the value equals what `parse_property_value_from_string` gives for the same line |
| LineParsing.MarkerRemovedInsideValue | eutester/euproperties.py:362 | a PROPERTY inside a value token is removed too: `PROPERTY a bPROPERTYc` has key path `a` and value `bc` |
| LineParsing.ResolveKeyPath | eutester/euproperties.py:380-407 | a partition is taken only from the given set, and the key path is the dotted join of that partition and the segments after it |
| LineParsing.KeyPathRoundTrip | eutester/euproperties.py:380-407 | with a known tag and a non-empty name, joining partition, tag and name with dots rebuilds the key path; with an unknown segment the type is None and the name is the segments after it |
| RefreshModel.AppendNew | eutester/euproperties.py:324-325 | `if not x in s: s.append(x)` keeps the list's entries and order, adds `x`, and keeps a repeat-free list repeat-free |
| RefreshModel.Select | eutester/euproperties.py:313-314 | a PROPERTY line creates at most one property, at the end of the pool, makes the selected property current and lists it; no property's identity changes |
| RefreshModel.Continue | eutester/euproperties.py:316-320 | any other line with a current property keeps that property current, creates nothing and changes no identity |
| RefreshModel.Step | eutester/euproperties.py:311-325 | a line fails exactly when it is a PROPERTY line with no token, with that line's error; otherwise the pool grows by at most one and the list gains the current property |
| RefreshModel.Run | eutester/euproperties.py:311-325 | a pass only fails on a PROPERTY line with no token, and keeps every existing property's identity |
| RefreshModel.RunStops | eutester/euproperties.py:321-323 | the exception ends the loop: lines after the first failing one change nothing |
| RefreshModel.RunFails | eutester/euproperties.py:311-323 | a pass fails exactly when one of its lines is a PROPERTY line with no token, and its error then names the first such line |
| RefreshModel.RunCoherent | eutester/euproperties.py:324-325 | the returned list holds each object at most once and every property the pass created; None can only be its first entry; no property is current exactly when no line is a PROPERTY line |
| RefreshModel.LeadingLines | eutester/euproperties.py:316-325 | lines before the first PROPERTY line change no property and leave the list as `[None]` |
| RefreshModel.HeaderStep | eutester/euproperties.py:313-314 | a PROPERTY line selects the first store property with its key path, or a new one, which then holds the line's value and its former value as last value; nothing else changes |
| RefreshModel.ContinuationStep | eutester/euproperties.py:316-320 | a DESCRIPTION line containing the current property's name sets its description from the line; every other line is appended to its value with no separator; nothing else changes |
| RefreshModel.BlockEffect | eutester/euproperties.py:311-320 | after a PROPERTY line and the lines up to the next one, the property's value is the line's value followed by every continuation line, its description the last matching DESCRIPTION line's, and no other property changed |
| RefreshModel.RepeatedNewKey | eutester/euproperties.py:371-376 | the same new key path on two PROPERTY lines gives two distinct, equal properties, both listed, because lines are matched against the store as it was before the pass |
| RefreshModel.RepeatedStoreKey | eutester/euproperties.py:371-376 | the same stored key path on two PROPERTY lines updates that one property twice: listed once, last value the first line's value, value the second's |
| PropertyIndex.Insert | eutester/euproperties.py:411-428 | the property is filed under its object name in `all` and in its partition/service-type bucket, unless the name is taken there; no existing entry changes and no other bucket changes |
| PropertyIndex.InsertTwice | eutester/euproperties.py:425-428 | filing the same property twice is filing it once |
| PropertyIndex.BuildAll | eutester/euproperties.py:335-336 | after the rebuild, `all` holds under each name its earlier entry, else the first property with that name |
| PropertyIndex.BuildBucket | eutester/euproperties.py:335-336 | after the rebuild, each bucket likewise holds under each name the first property filed there |
| PropertyIndex.Reachable | eutester/euproperties.py:333-336 | every property of a rebuilt store is reachable in `all` and in its own bucket under its object name |
| PropertyIndex.ReindexAll | eutester/euproperties.py:326-331 | a filtered refresh keeps every entry of `all` and adds only names of refreshed properties whose key path is in the store |
| Queries.Filter | eutester/euproperties.py:440-466 | a helper's result is the subsequence of its input, in order, of exactly the properties that pass its test |
| Queries.FilterCounts | eutester/euproperties.py:440-466 | a helper keeps every copy of a passing property and no copy of a failing one, so its result is fixed even when the list repeats a property |
| Queries.FilterFirst | eutester/euproperties.py:460-466 | the first property a helper keeps is the first one in its input that passes the test |
| Queries.ForPartition | eutester/euproperties.py:440-450 | the properties of the list (the store when the list is empty) in that partition, in order, with each one's every copy and no other property |
| Queries.ForService | eutester/euproperties.py:452-458 | the properties of the list (the store when the list is empty) of that service type, in order, with each one's every copy and no other property |
| Queries.BySearchString | eutester/euproperties.py:460-466 | the properties of the list (the store when the list is empty) whose key path contains the search string, in order, with each one's every copy and no other property |
| Queries.SelectAll | eutester/euproperties.py:278-292 | the reference definition: a single pass keeping, in order, every property satisfying all the filters set |
| Queries.GetProperties | eutester/euproperties.py:278-292 | the chain of filters, each applied only when set and when something is left, equals the single-pass reference |
| Queries.GetPropertiesMembers | eutester/euproperties.py:278-292 | the result is a subsequence of the store and holds a property exactly when it is in the store and satisfies every filter set |
| Queries.MatchesMeans | eutester/euproperties.py:278-292 | satisfying the filters means each filter set is met (partition, service type, search string, value), an empty one imposing nothing |
| Queries.NoFiltersAll | eutester/euproperties.py:278-292 | with no filter set the whole store comes back |
| Queries.SelectAllFirst | eutester/euproperties.py:432-438 | the first property with a name among those the filters keep has, earlier in the store, no kept property with that name |
| Queries.ByName | eutester/euproperties.py:432-438 | the first property in the list (the store when the list is empty) with that name; the not-found error exactly when none has it |
| Queries.ByKeyPath | eutester/euproperties.py:507-513 | the first store property with exactly that key path, None exactly when there is none |
| PropertyManager.SetOutcome | eutester/euproperties.py:495-505 | the modify response is accepted exactly when it is a non-empty line whose third token is the requested value; no line or too few tokens is malformed, an empty line is its own error, another value is a mismatch naming both |
| PropertyManager.ResetOutcome | eutester/euproperties.py:540-541 | the reset response gives its third token, and is malformed exactly when there is none |
| PropertyManager.SetTarget | eutester/euproperties.py:483-491 | a given property is used as is; a search string must match the key path of exactly one store property, else the could-not-fetch error |
| PropertyManager.ResetTarget | eutester/euproperties.py:536-537 | a given property is used as is; a search string takes the store property whose key path contains it with no earlier one that does, and fails exactly when none does |
| PropertyManager.RefreshedList | eutester/euproperties.py:324-325 | the objects the refresh lists are distinct; null is among them exactly when the pass listed None, and then only first |
| PropertyManager.Manager.constructor | eutester/euproperties.py:178-179 | an empty store and an empty index |
| PropertyManager.Manager.ParseEupropertyFromString | eutester/euproperties.py:354-409 | a key path in the store updates the first property with it in place and returns that object, touching no other; otherwise a fresh property is built from the resolved key path; a line with no token fails before anything changes |
| PropertyManager.Manager.ContinueProperty | eutester/euproperties.py:316-320 | on the current object, a DESCRIPTION line containing its name sets its description, any other line is appended to its value; no other field changes |
| PropertyManager.Manager.ReadLines | eutester/euproperties.py:311-325 | the loop fails exactly when the pass fails, with its error; otherwise every object's fields are the pass's records, new objects are fresh, and the list returned is the pass's list as objects |
| PropertyManager.Manager.IndexProperty | eutester/euproperties.py:411-428 | the index becomes the first-wins insertion of the property |
| PropertyManager.Manager.RebuildIndex | eutester/euproperties.py:334-336 | the index becomes every store property filed in store order into an empty one |
| PropertyManager.Manager.RefileOne | eutester/euproperties.py:328-331 | a listed property is filed once when some store property has its key path, and not at all otherwise |
| PropertyManager.Manager.RefileRefreshed | eutester/euproperties.py:326-331 | each listed property with a key path in the store is refiled; it fails at the first None exactly when the store is non-empty, with the properties before it filed |
| PropertyManager.Manager.InstallRefresh | eutester/euproperties.py:332-336 | the list becomes the store and the index is rebuilt from it; a list headed by None stores its properties behind an empty index and fails |
| PropertyManager.Manager.ApplyRefresh | eutester/euproperties.py:326-336 | a full refresh installs the list; a filtered one keeps the store and refiles; it fails exactly when the list holds None and the refresh is full or the store is non-empty |
| PropertyManager.Manager.UpdatePropertyList | eutester/euproperties.py:302-337 | the whole refresh against the pure pass over the old store: the list returned is the pass's list as distinct objects; a full refresh makes it the store with a rebuilt index; a filtered one leaves the store as it was; the error cases as above |
| PropertyManager.Manager.GetProperties | eutester/euproperties.py:265-292 | refresh first exactly when the store is empty or an update is forced: that refresh's outcome as in `UpdatePropertyList` (its error, or the refreshed list as the store with a rebuilt index, or the None case); otherwise store and index are untouched; the result holds exactly the store properties that satisfy every filter set, in store order |
| PropertyManager.Manager.GetProperty | eutester/euproperties.py:294-300 | the store after the refresh as in `GetProperties`; a property found has the name, satisfies the partition and service-type filters, and no store property before it does both; None means no store property satisfies the filters; the not-found error means some do but none has the name; any other error comes from the refresh (a failed pass or a None entry), so a match in the store is always returned |
| PropertyManager.Manager.PickByName | eutester/euproperties.py:297-299 | on the filtered list: nothing when it is empty, else the first store property among the kept ones with the name, else the not-found error |
| PropertyManager.Manager.SetProperty | eutester/euproperties.py:475-505 | the target's last value becomes its prior value in every case it is found; its value becomes the requested one exactly when the response confirms it, else stays; nothing else changes |
| PropertyManager.Manager.ResetPropertyToDefault | eutester/euproperties.py:528-543 | the target's last value becomes its value, its value never changes, and the reported default is returned |
| PropertyManager.Manager.GetPropertyDefaultValue | eutester/euproperties.py:545-558 | refused unless acknowledged; otherwise reset then restore: the value ends as it began and the last value equals it whatever the responses, and the default comes back exactly when both responses are accepted |

## Left out

- Running commands: the describe and modify commands, `work_machine.sys`, the command strings with service URL and keys, and `get_clc`. Their output is a parameter.
- The manager constructor's first `update_property_list` call and its reads of the tester object: the constructor builds the empty store and index, and the caller runs the first refresh with `UpdatePropertyList`.
- Partition discovery through `service_manager.get_all_partitions()`: the partition names are a parameter.
- Display and logging: `print_self`, `show_all_properties` and its `show_all_*_properties` wrappers, and `debug`.
- The getters and setters at lines 563-811 are text inside a string literal, not code.
- The first `set_property` definition (lines 468-473) is replaced by the second and can never run.
- `Euproperty.update` is a wrapper: `UpdatePropertyList` with the property's key path as the property name (a filtered refresh), followed by taking the first entry of the list, which raises `IndexError` when the list is empty. Its final `self = newprop` only rebinds a local name.
- The `oldprop = newprop` rebinding in the filtered refresh only rebinds the loop variable, so it changes nothing.
- `Euproperty.get` and `Euproperty.set` are one-line forwards: `GetPropertyDefaultValue` reads the value directly and calls `SetProperty`.
- `set_property_value_by_string` and `get_property_value_by_string` are thin wrappers over `Queries.ByKeyPath`.
- Regular expressions: a search string and the name a DESCRIPTION line must contain are matched as plain substrings, and `^PROPERTY` / `^DESCRIPTION` as prefixes.
- `hasattr` on names such as `get_type_by_string` or `__doc__`: only the fifteen declared tags are service types.
- The index's attribute namespaces are separate maps in the model. In the source, an object name could collide with a partition name, with a service-type name or with `all`, which the model does not capture.
- PropertyManager.Manager.InstallRefresh: when the list starts with None, the source assigns the list, None included, to the store and then raises `AttributeError` while indexing None. The model stores the list without its None, leaves the index empty and returns the NoneEntry error, so no store ever holds null.
- PropertyManager.Manager.UpdatePropertyList: an exception part-way through the loop leaves in-place updates already made by earlier lines. The model states the error and that store and index are unchanged, not the field values of those objects.
- Entities.Property.constructor: it takes no `mandatory` or `description` argument. The only construction in the source uses their defaults, so the new property is never mandatory, and the `description` argument is never stored anyway.
- PropertyManager.SetOutcome: `str(value)` is left out; the requested value is already a string.
