/**
 * A value-level model of the line loop in `update_property_list`.
 *
 * Property objects are represented by their position in a pool of records:
 * the first `n` records are the properties of the store when the refresh
 * starts, the rest are the properties the pass creates, in creation order.
 * `current` plays `newprop` and `list` plays `newlist`; None stands for
 * Python's None in both.
 */
module RefreshModel {
  import opened Wrappers
  import opened Errors
  import opened Text
  import opened LineParsing
  import opened Entities

  datatype Pass = Pass(pool: seq<Record>, current: Option<nat>, list: seq<Option<nat>>)

  /** `newlist = []; newprop = None`, over the store's records. */
  function Start(store: seq<Record>): Pass {
    Pass(store, None, [])
  }

  /** Positions refer into the pool, and the store part is still there. */
  predicate WellFormed(n: nat, st: Pass) {
    n <= |st.pool| &&
    (st.current.Some? ==> st.current.value < |st.pool|) &&
    (forall i :: 0 <= i < |st.list| && st.list[i].Some? ==> st.list[i].value < |st.pool|)
  }

  /** What the constructor builds for a key path not in the store: `lastvalue` equals `value`, no description. */
  function NewRecord(key: string, value: string, partitions: set<string>): Record {
    var kp := ResolveKeyPath(key, partitions);
    Record(key, kp.serviceType, kp.partition, kp.name, false, value, value, None)
  }

  /** `if not x in s: s.append(x)`. */
  function AppendNew(s: seq<Option<nat>>, x: Option<nat>): (r: seq<Option<nat>>)
    ensures x in r && forall y :: y in r <==> y in s || y == x
    ensures Distinct(s) ==> Distinct(r)
    ensures forall i :: 0 <= i < |s| ==> i < |r| && r[i] == s[i]
  {
    if x in s then s else s + [x]
  }

  /** A line is the current property's description when it starts with DESCRIPTION and contains the property's name. */
  predicate IsDescriptionOf(line: string, name: string) {
    StartsWith(line, DescriptionMarker) && Contains(line, name)
  }

  /** The fields that identify a property; a refresh never changes them. */
  predicate SameIdentity(a: Record, b: Record) {
    a.keyPath == b.keyPath && a.serviceType == b.serviceType && a.partition == b.partition &&
    a.name == b.name && a.mandatory == b.mandatory
  }

  /**
   * A PROPERTY line with key path `key` and value `value`: the first store
   * property with that key path takes the value (its old value becomes its
   * last value); without one a new property is created at the end of the
   * pool. Either way it becomes the current property and joins the list.
   */
  function Select(n: nat, partitions: set<string>, st: Pass, key: string, value: string): (r: Pass)
    requires WellFormed(n, st)
    ensures WellFormed(n, r) && r.current.Some?
    ensures |st.pool| <= |r.pool| <= |st.pool| + 1
    ensures |r.pool| == |st.pool| + 1 ==> r.current == Some(|st.pool|)
    ensures r.list == AppendNew(st.list, r.current)
    ensures forall i :: 0 <= i < |st.pool| ==> SameIdentity(r.pool[i], st.pool[i])
  {
    match FirstIndexOf(RecordKeyPaths(st.pool[..n]), key)
    case Some(j) =>
      var was := st.pool[j];
      Pass(st.pool[j := was.(lastValue := was.value, value := value)], Some(j), AppendNew(st.list, Some(j)))
    case None =>
      var c := |st.pool|;
      Pass(st.pool + [NewRecord(key, value, partitions)], Some(c), AppendNew(st.list, Some(c)))
  }

  /**
   * Any other line while there is a current property: a DESCRIPTION line
   * naming it sets its description, any other line is appended to its value.
   */
  function Continue(st: Pass, line: string): (r: Pass)
    requires WellFormed(0, st) && st.current.Some?
    ensures r.current == st.current && |r.pool| == |st.pool| && r.list == AppendNew(st.list, st.current)
    ensures forall i :: 0 <= i < |st.pool| ==> SameIdentity(r.pool[i], st.pool[i])
  {
    var c := st.current.value;
    var rec := st.pool[c];
    var rec' := if IsDescriptionOf(line, rec.name) then rec.(description := Some(ParseDescription(line)))
                else rec.(value := rec.value + line);
    st.(pool := st.pool[c := rec'], list := AppendNew(st.list, st.current))
  }

  /** One iteration of the loop over the command's output. */
  function Step(n: nat, partitions: set<string>, st: Pass, line: string): (r: Result<Pass, Error>)
    requires WellFormed(n, st)
    ensures r.Ok? ==> WellFormed(n, r.value)
    ensures r.Ok? ==> |st.pool| <= |r.value.pool| <= |st.pool| + 1
    ensures r.Ok? ==> r.value.list == AppendNew(st.list, r.value.current)
    ensures r.Ok? ==> forall i :: 0 <= i < |st.pool| ==> SameIdentity(r.value.pool[i], st.pool[i])
    ensures r.Err? <==> StartsWith(line, PropertyMarker) && PropertyFields(line).Err?
    ensures r.Err? ==> r.error == EmptyPropertyLine(line)
  {
    if StartsWith(line, PropertyMarker) then
      match PropertyFields(line)
      case Err(e) => Err(e)
      case Ok((key, value)) => Ok(Select(n, partitions, st, key, value))
    else if st.current.Some? then
      Ok(Continue(st, line))
    else
      Ok(st.(list := AppendNew(st.list, None)))
  }

  /** The loop over `lines`, stopping at the first line whose parse raises. */
  function Run(n: nat, partitions: set<string>, init: Pass, lines: seq<string>): (r: Result<Pass, Error>)
    requires WellFormed(n, init)
    ensures r.Ok? ==> WellFormed(n, r.value) && |init.pool| <= |r.value.pool|
    ensures r.Ok? ==> forall i :: 0 <= i < |init.pool| ==> SameIdentity(r.value.pool[i], init.pool[i])
    ensures r.Err? ==> r.error.EmptyPropertyLine?
    decreases |lines|
  {
    if lines == [] then Ok(init)
    else
      match Run(n, partitions, init, lines[..|lines| - 1])
      case Err(e) => Err(e)
      case Ok(st) => Step(n, partitions, st, lines[|lines| - 1])
  }

  /** One more line: the pass over the first `i + 1` lines is one step after the pass over the first `i`. */
  lemma RunPrefix(n: nat, partitions: set<string>, init: Pass, lines: seq<string>, i: nat)
    requires WellFormed(n, init) && i < |lines|
    requires Run(n, partitions, init, lines[..i]).Ok?
    ensures Run(n, partitions, init, lines[..i + 1]) == Step(n, partitions, Run(n, partitions, init, lines[..i]).value, lines[i])
  {
    assert lines[..i + 1][..i] == lines[..i];
  }

  /** Running over `a + b` is running over `a`, then over `b` from where that left off. */
  lemma {:induction false} RunConcat(n: nat, partitions: set<string>, init: Pass, a: seq<string>, b: seq<string>)
    requires WellFormed(n, init)
    ensures Run(n, partitions, init, a + b) ==
      match Run(n, partitions, init, a)
      case Err(e) => Err(e)
      case Ok(st) => Run(n, partitions, st, b)
    decreases |b|
  {
    if b == [] {
      assert a + b == a;
    } else {
      var b' := b[..|b| - 1];
      assert (a + b)[..|a + b| - 1] == a + b';
      assert (a + b)[|a + b| - 1] == b[|b| - 1];
      RunConcat(n, partitions, init, a, b');
    }
  }

  /** A line the loop raises on: a PROPERTY line with no token once every PROPERTY is removed. */
  predicate BadLine(line: string) {
    StartsWith(line, PropertyMarker) && PropertyFields(line).Err?
  }

  /** A pass fails exactly when one of its lines is a bad line, and its error names the first one. */
  lemma {:induction false} RunFails(n: nat, partitions: set<string>, init: Pass, lines: seq<string>)
    requires WellFormed(n, init)
    ensures Run(n, partitions, init, lines).Err? <==> exists i :: 0 <= i < |lines| && BadLine(lines[i])
    ensures Run(n, partitions, init, lines).Err? ==>
      exists i :: 0 <= i < |lines| && BadLine(lines[i]) && (forall j :: 0 <= j < i ==> !BadLine(lines[j])) &&
        Run(n, partitions, init, lines).error == EmptyPropertyLine(lines[i])
    decreases |lines|
  {
    if lines != [] {
      var front, last := lines[..|lines| - 1], lines[|lines| - 1];
      var rf := Run(n, partitions, init, front);
      RunFails(n, partitions, init, front);
      if rf.Err? {
        var i :| 0 <= i < |front| && BadLine(front[i]) && (forall j :: 0 <= j < i ==> !BadLine(front[j])) &&
          rf.error == EmptyPropertyLine(front[i]);
        assert Run(n, partitions, init, lines) == rf;
        assert forall j :: 0 <= j <= i ==> lines[j] == front[j];
      } else {
        assert Run(n, partitions, init, lines) == Step(n, partitions, rf.value, last);
        assert forall i :: 0 <= i < |front| ==> !BadLine(lines[i]) by {
          assert forall i :: 0 <= i < |front| ==> lines[i] == front[i];
        }
        if BadLine(last) {
          assert BadLine(lines[|lines| - 1]);
        }
      }
    }
  }

  /** A pass stops at its first malformed PROPERTY line: what follows does not change the outcome. */
  lemma RunStops(n: nat, partitions: set<string>, init: Pass, lines: seq<string>, i: nat)
    requires WellFormed(n, init) && i < |lines|
    requires Run(n, partitions, init, lines[..i + 1]).Err?
    ensures Run(n, partitions, init, lines) == Run(n, partitions, init, lines[..i + 1])
  {
    RunConcat(n, partitions, init, lines[..i + 1], lines[i + 1..]);
    assert lines[..i + 1] + lines[i + 1..] == lines;
  }

  // ---------------------------------------------------------------------------
  // What a pass keeps true
  // ---------------------------------------------------------------------------

  /**
   * The list holds each position at most once, every created property is in
   * it, and None can only be its first entry, put there while no PROPERTY
   * line had been seen.
   */
  predicate Coherent(n: nat, st: Pass) {
    Distinct(st.list) &&
    (forall i :: n <= i < |st.pool| ==> Some(i) in st.list) &&
    (st.current.None? ==> |st.pool| == n && forall i :: 0 <= i < |st.list| ==> st.list[i].None?) &&
    (None in st.list ==> st.list[0] == None)
  }

  /** A step that lists a property, and creates at most that one, keeps the pass coherent. */
  lemma CoherentAppend(n: nat, st: Pass, r: Pass)
    requires Coherent(n, st) && r.current.Some? && r.list == AppendNew(st.list, r.current)
    requires |st.pool| <= |r.pool| <= |st.pool| + 1
    requires |r.pool| == |st.pool| + 1 ==> r.current == Some(|st.pool|)
    ensures Coherent(n, r)
  {
    forall i | n <= i < |r.pool|
      ensures Some(i) in r.list
    {
      if i < |st.pool| {
        assert Some(i) in st.list;
      }
    }
    if None in r.list {
      assert None in st.list;
    }
  }

  lemma StepCoherent(n: nat, partitions: set<string>, st: Pass, line: string)
    requires WellFormed(n, st) && Coherent(n, st)
    requires Step(n, partitions, st, line).Ok?
    ensures Coherent(n, Step(n, partitions, st, line).value)
    ensures Step(n, partitions, st, line).value.current.None? <==>
      st.current.None? && !StartsWith(line, PropertyMarker)
  {
    var r := Step(n, partitions, st, line).value;
    if StartsWith(line, PropertyMarker) {
      CoherentAppend(n, st, r);
    } else if st.current.Some? {
      CoherentAppend(n, st, r);
    }
  }

  /** A pass keeps the list free of repeats, lists every property it creates, and puts None only at the head. */
  lemma {:induction false} RunCoherent(n: nat, partitions: set<string>, store: seq<Record>, lines: seq<string>)
    requires n == |store|
    requires Run(n, partitions, Start(store), lines).Ok?
    ensures Coherent(n, Run(n, partitions, Start(store), lines).value)
    ensures Run(n, partitions, Start(store), lines).value.current.None? <==>
      forall i :: 0 <= i < |lines| ==> !StartsWith(lines[i], PropertyMarker)
    decreases |lines|
  {
    if lines != [] {
      var front := lines[..|lines| - 1];
      RunCoherent(n, partitions, store, front);
      StepCoherent(n, partitions, Run(n, partitions, Start(store), front).value, lines[|lines| - 1]);
      assert forall i :: 0 <= i < |front| ==> front[i] == lines[i];
    }
  }

  /** Lines before the first PROPERTY line change no property; they only put one None into the list. */
  lemma {:induction false} LeadingLines(n: nat, partitions: set<string>, store: seq<Record>, lines: seq<string>)
    requires n == |store|
    requires forall i :: 0 <= i < |lines| ==> !StartsWith(lines[i], PropertyMarker)
    ensures Run(n, partitions, Start(store), lines) == Ok(Pass(store, None, if lines == [] then [] else [None]))
    decreases |lines|
  {
    if lines != [] {
      var front := lines[..|lines| - 1];
      assert forall i :: 0 <= i < |front| ==> front[i] == lines[i];
      LeadingLines(n, partitions, store, front);
      var st := Pass(store, None, if front == [] then [] else [None]);
      assert !StartsWith(lines[|lines| - 1], PropertyMarker);
      assert AppendNew(st.list, None) == [None];
      assert Step(n, partitions, st, lines[|lines| - 1]) == Ok(Pass(store, None, [None]));
    }
  }

  // ---------------------------------------------------------------------------
  // One property line and the lines that follow it
  // ---------------------------------------------------------------------------

  /** The lines of `tail` that are not the description of `name`, concatenated with no separator. */
  function Continuations(tail: seq<string>, name: string): string
    decreases |tail|
  {
    if tail == [] then ""
    else
      var last := tail[|tail| - 1];
      Continuations(tail[..|tail| - 1], name) + (if IsDescriptionOf(last, name) then "" else last)
  }

  /** The description set by the last description line of `name` in `tail`, or `d` when there is none. */
  function LastDescription(tail: seq<string>, name: string, d: Option<string>): Option<string>
    decreases |tail|
  {
    if tail == [] then d
    else
      var last := tail[|tail| - 1];
      if IsDescriptionOf(last, name) then Some(ParseDescription(last))
      else LastDescription(tail[..|tail| - 1], name, d)
  }

  /** The property a PROPERTY line selects: the first store property with its key path, else a new one at the end of the pool. */
  function Target(n: nat, st: Pass, key: string): nat
    requires n <= |st.pool|
  {
    match FirstIndexOf(RecordKeyPaths(st.pool[..n]), key)
    case Some(j) => j
    case None => |st.pool|
  }

  /** The selected property as it was before the PROPERTY line: a store property, or the one the constructor builds. */
  function Selected(n: nat, partitions: set<string>, st: Pass, key: string, value: string): Record
    requires n <= |st.pool|
  {
    var c := Target(n, st, key);
    if c < |st.pool| then st.pool[c] else NewRecord(key, value, partitions)
  }

  /** A property after its PROPERTY line (value `value`) and the lines `tail` that follow it. */
  function AfterBlock(was: Record, value: string, tail: seq<string>): Record {
    was.(value := value + Continuations(tail, was.name),
         lastValue := was.value,
         description := LastDescription(tail, was.name, was.description))
  }

  /** Right after its PROPERTY line, a property holds the line's value and its former value as last value. */
  lemma AfterNothing(was: Record, value: string)
    ensures AfterBlock(was, value, []) == was.(value := value, lastValue := was.value)
  {
    assert value + "" == value;
  }

  lemma HeaderStep(n: nat, partitions: set<string>, st: Pass, header: string)
    requires WellFormed(n, st)
    requires StartsWith(header, PropertyMarker) && PropertyFields(header).Ok?
    ensures var (key, value) := PropertyFields(header).value;
      var c := Target(n, st, key);
      var r := Step(n, partitions, st, header);
      r.Ok? && r.value.current == Some(c) && Some(c) in r.value.list &&
      |r.value.pool| == (if c < |st.pool| then |st.pool| else |st.pool| + 1) &&
      r.value.pool[c] == AfterBlock(Selected(n, partitions, st, key, value), value, []) &&
      forall i :: 0 <= i < |st.pool| && i != c ==> r.value.pool[i] == st.pool[i]
  {
    var (key, value) := PropertyFields(header).value;
    assert Step(n, partitions, st, header) == Ok(Select(n, partitions, st, key, value));
    match FirstIndexOf(RecordKeyPaths(st.pool[..n]), key)
    case Some(j) =>
      assert Target(n, st, key) == j && Selected(n, partitions, st, key, value) == st.pool[j];
      SelectHit(n, partitions, st, key, value, j);
      AfterNothing(st.pool[j], value);
    case None =>
      assert Target(n, st, key) == |st.pool|;
      SelectNew(n, partitions, st, key, value);
      AfterNothing(NewRecord(key, value, partitions), value);
  }

  lemma ContinuationStep(n: nat, partitions: set<string>, st: Pass, line: string)
    requires WellFormed(n, st) && st.current.Some?
    requires !StartsWith(line, PropertyMarker)
    ensures var c := st.current.value;
      var r := Step(n, partitions, st, line);
      r.Ok? && r.value.current == st.current && |r.value.pool| == |st.pool| &&
      (forall x :: x in st.list ==> x in r.value.list) &&
      r.value.pool[c] == st.pool[c].(
        value := st.pool[c].value + (if IsDescriptionOf(line, st.pool[c].name) then "" else line),
        description := if IsDescriptionOf(line, st.pool[c].name) then Some(ParseDescription(line))
                       else st.pool[c].description) &&
      forall i :: 0 <= i < |st.pool| && i != c ==> r.value.pool[i] == st.pool[i]
  {
  }

  /** One more line after a block extends the value or replaces the description. */
  lemma AfterBlockSnoc(was: Record, value: string, front: seq<string>, last: string)
    ensures var b := AfterBlock(was, value, front);
      AfterBlock(was, value, front + [last]) == b.(
        value := b.value + (if IsDescriptionOf(last, b.name) then "" else last),
        description := if IsDescriptionOf(last, b.name) then Some(ParseDescription(last)) else b.description)
  {
    assert (front + [last])[..|front + [last]| - 1] == front;
  }

  /** Where a block leaves the pass: see `BlockEffect`. */
  predicate BlockDone(n: nat, partitions: set<string>, st: Pass, key: string, value: string, tail: seq<string>, r: Pass)
    requires n <= |st.pool|
  {
    var c := Target(n, st, key);
    r.current == Some(c) && Some(c) in r.list &&
    |r.pool| == (if c < |st.pool| then |st.pool| else |st.pool| + 1) &&
    r.pool[c] == AfterBlock(Selected(n, partitions, st, key, value), value, tail) &&
    forall i :: 0 <= i < |st.pool| && i != c ==> r.pool[i] == st.pool[i]
  }

  /** A line that is not a PROPERTY line, after a block, extends the block. */
  lemma BlockDoneSnoc(n: nat, partitions: set<string>, st: Pass, key: string, value: string,
                      tail: seq<string>, mid: Pass)
    requires n <= |st.pool| && WellFormed(n, mid) && tail != [] && !StartsWith(tail[|tail| - 1], PropertyMarker)
    requires BlockDone(n, partitions, st, key, value, tail[..|tail| - 1], mid)
    ensures Step(n, partitions, mid, tail[|tail| - 1]).Ok?
    ensures BlockDone(n, partitions, st, key, value, tail, Step(n, partitions, mid, tail[|tail| - 1]).value)
  {
    var front, last := tail[..|tail| - 1], tail[|tail| - 1];
    ContinuationStep(n, partitions, mid, last);
    AfterBlockSnoc(Selected(n, partitions, st, key, value), value, front, last);
    assert front + [last] == tail;
  }

  /**
   * A PROPERTY line followed by lines that are not: the selected property
   * ends with the line's value followed by every continuation line in order,
   * its last value is its value before the PROPERTY line (the line's own
   * value for a new property), and its description is set by the last
   * matching DESCRIPTION line. No other property changes.
   */
  lemma {:induction false} BlockEffect(n: nat, partitions: set<string>, st: Pass, header: string, tail: seq<string>)
    requires WellFormed(n, st)
    requires StartsWith(header, PropertyMarker) && PropertyFields(header).Ok?
    requires forall i :: 0 <= i < |tail| ==> !StartsWith(tail[i], PropertyMarker)
    ensures Run(n, partitions, st, [header] + tail).Ok?
    ensures BlockDone(n, partitions, st, PropertyFields(header).value.0, PropertyFields(header).value.1,
                      tail, Run(n, partitions, st, [header] + tail).value)
    decreases |tail|
  {
    var key, value := PropertyFields(header).value.0, PropertyFields(header).value.1;
    if tail == [] {
      assert [header] + tail == [header];
      assert [header][..0] == [];
      HeaderStep(n, partitions, st, header);
    } else {
      var front := tail[..|tail| - 1];
      var last := tail[|tail| - 1];
      assert forall i :: 0 <= i < |front| ==> front[i] == tail[i];
      BlockEffect(n, partitions, st, header, front);
      var mid := Run(n, partitions, st, [header] + front).value;
      assert Run(n, partitions, st, [header] + tail) == Step(n, partitions, mid, last) by {
        assert ([header] + tail)[..|[header] + tail| - 1] == [header] + front;
        assert ([header] + tail)[|[header] + tail| - 1] == last;
      }
      BlockDoneSnoc(n, partitions, st, key, value, tail, mid);
    }
  }

  // ---------------------------------------------------------------------------
  // Matching only against the old store
  // ---------------------------------------------------------------------------

  /** A pass over two lines is two steps. */
  lemma RunTwo(n: nat, partitions: set<string>, init: Pass, a: string, b: string)
    requires WellFormed(n, init)
    ensures Run(n, partitions, init, [a, b]) ==
      match Step(n, partitions, init, a)
      case Err(e) => Err(e)
      case Ok(st) => Step(n, partitions, st, b)
  {
    assert Run(n, partitions, init, [a]) == Step(n, partitions, init, a) by {
      assert [a][..0] == [];
    }
    assert [a, b][..1] == [a] && [a, b][1] == b;
  }

  /** A PROPERTY line whose key path is not in the store creates a property at the end of the pool. */
  lemma SelectNew(n: nat, partitions: set<string>, st: Pass, key: string, value: string)
    requires WellFormed(n, st) && key !in RecordKeyPaths(st.pool[..n])
    ensures Select(n, partitions, st, key, value) ==
      Pass(st.pool + [NewRecord(key, value, partitions)], Some(|st.pool|), AppendNew(st.list, Some(|st.pool|)))
  {
  }

  /** A PROPERTY line whose key path is first found at `j` in the store updates that property. */
  lemma SelectHit(n: nat, partitions: set<string>, st: Pass, key: string, value: string, j: nat)
    requires WellFormed(n, st) && FirstIndexOf(RecordKeyPaths(st.pool[..n]), key) == Some(j)
    ensures Select(n, partitions, st, key, value) ==
      Pass(st.pool[j := st.pool[j].(lastValue := st.pool[j].value, value := value)], Some(j), AppendNew(st.list, Some(j)))
  {
  }

  /** The first PROPERTY line with a key path not in the store creates the first new property. */
  lemma FirstNew(partitions: set<string>, store: seq<Record>, line: string)
    requires StartsWith(line, PropertyMarker) && PropertyFields(line).Ok?
    requires PropertyFields(line).value.0 !in RecordKeyPaths(store)
    ensures var (key, value) := PropertyFields(line).value;
      Step(|store|, partitions, Start(store), line) ==
        Ok(Pass(store + [NewRecord(key, value, partitions)], Some(|store|), [Some(|store|)]))
  {
    var n := |store|;
    var key, value := PropertyFields(line).value.0, PropertyFields(line).value.1;
    assert Start(store).pool[..n] == store;
    SelectNew(n, partitions, Start(store), key, value);
    assert AppendNew([], Some(n)) == [Some(n)];
  }

  /** The same line again creates a second new property, since the pass only searches the old store. */
  lemma SecondNew(partitions: set<string>, store: seq<Record>, line: string)
    requires StartsWith(line, PropertyMarker) && PropertyFields(line).Ok?
    requires PropertyFields(line).value.0 !in RecordKeyPaths(store)
    ensures var (key, value) := PropertyFields(line).value;
      var rec := NewRecord(key, value, partitions);
      var n := |store|;
      Step(n, partitions, Pass(store + [rec], Some(n), [Some(n)]), line) ==
        Ok(Pass(store + [rec] + [rec], Some(n + 1), [Some(n), Some(n + 1)]))
  {
    var n := |store|;
    var key, value := PropertyFields(line).value.0, PropertyFields(line).value.1;
    var rec := NewRecord(key, value, partitions);
    var st1 := Pass(store + [rec], Some(n), [Some(n)]);
    assert st1.pool[..n] == store;
    SelectNew(n, partitions, st1, key, value);
    assert Some(n + 1) !in [Some(n)];
    assert AppendNew([Some(n)], Some(n + 1)) == [Some(n)] + [Some(n + 1)] == [Some(n), Some(n + 1)];
    assert st1.pool + [rec] == store + [rec] + [rec];
  }

  /**
   * A key path not in the store that occurs on two PROPERTY lines of one
   * pass gives two separate properties, both listed, because lookups only
   * search the store as it was before the pass.
   */
  lemma RepeatedNewKey(partitions: set<string>, store: seq<Record>, line: string)
    requires StartsWith(line, PropertyMarker) && PropertyFields(line).Ok?
    requires PropertyFields(line).value.0 !in RecordKeyPaths(store)
    ensures var r := Run(|store|, partitions, Start(store), [line, line]);
      r.Ok? && |r.value.pool| == |store| + 2 &&
      r.value.list == [Some(|store|), Some(|store| + 1)] &&
      r.value.pool[|store|] == r.value.pool[|store| + 1]
  {
    RunTwo(|store|, partitions, Start(store), line, line);
    FirstNew(partitions, store, line);
    SecondNew(partitions, store, line);
  }

  /** A PROPERTY line whose key path is first found at `j` in the pool updates that property and lists it. */
  lemma StepHit(partitions: set<string>, pool: seq<Record>, current: Option<nat>, list: seq<Option<nat>>, line: string, j: nat)
    requires StartsWith(line, PropertyMarker) && PropertyFields(line).Ok?
    requires FirstIndexOf(RecordKeyPaths(pool), PropertyFields(line).value.0) == Some(j)
    requires list == [] || list == [Some(j)]
    requires WellFormed(|pool|, Pass(pool, current, list))
    ensures Step(|pool|, partitions, Pass(pool, current, list), line) ==
      Ok(Pass(pool[j := pool[j].(lastValue := pool[j].value, value := PropertyFields(line).value.1)], Some(j), [Some(j)]))
  {
    var st := Pass(pool, current, list);
    assert st.pool[..|pool|] == pool;
    SelectHit(|pool|, partitions, st, PropertyFields(line).value.0, PropertyFields(line).value.1, j);
    assert AppendNew(list, Some(j)) == [Some(j)];
  }

  /** The same key path on two PROPERTY lines updates the one store property twice: its last value is the first line's value. */
  lemma RepeatedStoreKey(partitions: set<string>, store: seq<Record>, line1: string, line2: string, j: nat)
    requires StartsWith(line1, PropertyMarker) && PropertyFields(line1).Ok?
    requires StartsWith(line2, PropertyMarker) && PropertyFields(line2).Ok?
    requires PropertyFields(line1).value.0 == PropertyFields(line2).value.0
    requires FirstIndexOf(RecordKeyPaths(store), PropertyFields(line1).value.0) == Some(j)
    ensures var r := Run(|store|, partitions, Start(store), [line1, line2]);
      r.Ok? && |r.value.pool| == |store| && r.value.list == [Some(j)] &&
      r.value.pool[j].lastValue == PropertyFields(line1).value.1 &&
      r.value.pool[j].value == PropertyFields(line2).value.1
  {
    var v1 := PropertyFields(line1).value.1;
    RunTwo(|store|, partitions, Start(store), line1, line2);
    StepHit(partitions, store, None, [], line1, j);
    var pool1 := store[j := store[j].(lastValue := store[j].value, value := v1)];
    assert RecordKeyPaths(pool1) == RecordKeyPaths(store);
    StepHit(partitions, pool1, Some(j), [Some(j)], line2, j);
    var pool2 := pool1[j := pool1[j].(lastValue := pool1[j].value, value := PropertyFields(line2).value.1)];
    assert Run(|store|, partitions, Start(store), [line1, line2]) == Ok(Pass(pool2, Some(j), [Some(j)]));
  }
}
