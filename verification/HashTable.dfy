/**
 The open-addressing hash table of heap-table.c: statuses with tombstones, an odd probe
 step, and growth only when no slot is left.
 */
module HashTable {
  import opened Options
  import opened ProbeSequence

  type Value = int

  datatype Status = Unused | Deleted | Active
  datatype Entry = Entry(status: Status, key: Key, value: Value)

  const EMPTY: Entry := Entry(Unused, 0, 0)

  // ---------------------------------------------------------------- what a table means

  /** A search for `key` ends at this entry. */
  predicate Stops(e: Entry, key: Key, skipDeleted: bool) {
    e.status.Unused? || (e.status.Active? && e.key == key) || (e.status.Deleted? && !skipDeleted)
  }

  predicate FirstStop(s: seq<Entry>, key: Key, skipDeleted: bool, k: nat)
    requires |s| > 0
  {
    k < |s| && Stops(s[Probe(|s|, key, k)], key, skipDeleted) &&
    forall i | 0 <= i < k :: !Stops(s[Probe(|s|, key, i)], key, skipDeleted)
  }

  predicate NeverStops(s: seq<Entry>, key: Key, skipDeleted: bool) {
    forall j | 0 <= j < |s| :: !Stops(s[j], key, skipDeleted)
  }

  /** A search that steps over used slots reaches slot `j` from its key. */
  ghost predicate Reachable(s: seq<Entry>, j: nat)
    requires j < |s|
  {
    exists k :: 0 <= k < |s| && ReachedIn(s, j, k)
  }

  ghost predicate ReachedIn(s: seq<Entry>, j: nat, k: nat)
    requires j < |s|
  {
    Probe(|s|, s[j].key, k) == j &&
    forall i | 0 <= i < k :: !s[Probe(|s|, s[j].key, i)].status.Unused?
  }

  ghost predicate Holds(s: seq<Entry>, j: int, key: Key) {
    0 <= j < |s| && s[j].status.Active? && s[j].key == key
  }

  /** The active entries are the graph of `m`, one entry per key. */
  ghost predicate Matches(s: seq<Entry>, m: map<Key, Value>) {
    (forall j | 0 <= j < |s| && s[j].status.Active? :: s[j].key in m && m[s[j].key] == s[j].value) &&
    (forall key <- m :: exists j :: Holds(s, j, key)) &&
    (forall i, j | 0 <= i < j < |s| && s[i].status.Active? && s[j].status.Active? :: s[i].key != s[j].key)
  }

  ghost predicate Represents(s: seq<Entry>, m: map<Key, Value>) {
    PowerOfTwo(|s|) && Matches(s, m) && forall j | 0 <= j < |s| && s[j].status.Active? :: Reachable(s, j)
  }

  lemma {:induction false} FirstStopDecides(s: seq<Entry>, m: map<Key, Value>, key: Key, k: nat)
    requires Represents(s, m) && FirstStop(s, key, true, k)
    ensures var e := s[Probe(|s|, key, k)];
            (key in m <==> e.status.Active?) && (e.status.Active? ==> e.key == key && m[key] == e.value)
  {
    if key in m {
      var j :| Holds(s, j, key);
      assert Reachable(s, j);
      var i :| 0 <= i < |s| && ReachedIn(s, j, i);
      assert i >= k;
    }
  }

  lemma NoStopMeansAbsent(s: seq<Entry>, m: map<Key, Value>, key: Key, skipDeleted: bool)
    requires Represents(s, m) && NeverStops(s, key, skipDeleted)
    ensures key !in m
    ensures forall j | 0 <= j < |s| :: !s[j].status.Unused? && (!skipDeleted ==> s[j].status.Active?)
  {
    forall j ensures !Holds(s, j, key) {
      assert 0 <= j < |s| ==> !Stops(s[j], key, skipDeleted);
    }
  }

  /** A free slot met on the way may take a new key. */
  lemma FillSlot(s: seq<Entry>, m: map<Key, Value>, key: Key, value: Value, k: nat)
    requires Represents(s, m) && key !in m && k < |s| && !s[Probe(|s|, key, k)].status.Active?
    requires forall i | 0 <= i < k :: !s[Probe(|s|, key, i)].status.Unused?
    ensures Represents(s[Probe(|s|, key, k) := Entry(Active, key, value)], m[key := value])
  {
    var r := Probe(|s|, key, k);
    var t := s[r := Entry(Active, key, value)];
    forall j | 0 <= j < |t| && t[j].status.Active? ensures Reachable(t, j) {
      if j == r {
        assert ReachedIn(t, j, k);
      } else {
        var i :| 0 <= i < |s| && ReachedIn(s, j, i);
        assert ReachedIn(t, j, i);
      }
    }
    var n := m[key := value];
    forall x <- n ensures exists j :: Holds(t, j, x) {
      if x == key { assert Holds(t, r, x); }
      else { var j :| Holds(s, j, x); assert Holds(t, j, x); }
    }
  }

  lemma RetireSlot(s: seq<Entry>, m: map<Key, Value>, r: nat)
    requires Represents(s, m) && r < |s| && s[r].status.Active?
    ensures Represents(s[r := s[r].(status := Deleted)], m - {s[r].key}) && |m - {s[r].key}| == |m| - 1
  {
    var key := s[r].key;
    var t := s[r := s[r].(status := Deleted)];
    forall j | 0 <= j < |t| && t[j].status.Active? ensures Reachable(t, j) {
      var i :| 0 <= i < |s| && ReachedIn(s, j, i);
      assert ReachedIn(t, j, i);
    }
    forall x <- m - {key} ensures exists j :: Holds(t, j, x) {
      var j :| Holds(s, j, x);
      assert Holds(t, j, x);
    }
    assert (m - {key}).Keys == m.Keys - {key};
  }

  lemma ReviseSlot(s: seq<Entry>, m: map<Key, Value>, r: nat, value: Value)
    requires Represents(s, m) && r < |s| && s[r].status.Active?
    ensures Represents(s[r := s[r].(value := value)], m[s[r].key := value])
  {
    var t := s[r := s[r].(value := value)];
    forall j | 0 <= j < |t| && t[j].status.Active? ensures Reachable(t, j) {
      var i :| 0 <= i < |s| && ReachedIn(s, j, i);
      assert ReachedIn(t, j, i);
    }
    var n := m[s[r].key := value];
    forall x <- n ensures exists j :: Holds(t, j, x) {
      if x == s[r].key { assert Holds(t, r, x); }
      else { var j :| Holds(s, j, x); assert Holds(t, j, x); }
    }
  }

  function ActiveCount(s: seq<Entry>): (n: nat)
    ensures n <= |s|
  {
    if s == [] then 0
    else ActiveCount(s[..|s| - 1]) + (if s[|s| - 1].status.Active? then 1 else 0)
  }

  lemma RestMatches(s: seq<Entry>, m: map<Key, Value>)
    requires s != [] && Matches(s, m)
    ensures var last := s[|s| - 1];
            Matches(s[..|s| - 1], if last.status.Active? then m - {last.key} else m)
  {
    var init, last := s[..|s| - 1], s[|s| - 1];
    var rest := if last.status.Active? then m - {last.key} else m;
    forall key <- rest ensures exists j :: Holds(init, j, key) {
      var j :| Holds(s, j, key);
      assert Holds(init, j, key);
    }
  }

  /** There are as many active entries as keys. */
  lemma {:induction false} ActiveCountIsSize(s: seq<Entry>, m: map<Key, Value>)
    requires Matches(s, m)
    ensures ActiveCount(s) == |m|
  {
    if s == [] {
      assert forall j, key :: !Holds(s, j, key);
      assert m.Keys == {};
    } else {
      var init, last := s[..|s| - 1], s[|s| - 1];
      var rest := if last.status.Active? then m - {last.key} else m;
      RestMatches(s, m);
      ActiveCountIsSize(init, rest);
      if last.status.Active? { assert m.Keys == rest.Keys + {last.key}; }
    }
  }

  lemma {:induction false} FullCount(s: seq<Entry>)
    ensures ActiveCount(s) == |s| <==> forall j | 0 <= j < |s| :: s[j].status.Active?
  {
    if s != [] {
      var init := s[..|s| - 1];
      FullCount(init);
      if forall j | 0 <= j < |init| :: init[j].status.Active? {
        assert forall j | 0 <= j < |init| :: s[j] == init[j];
      } else {
        var j :| 0 <= j < |init| && !init[j].status.Active?;
        assert !s[j].status.Active?;
      }
    }
  }

  /** A table is full of active entries exactly when it has as many keys as slots. */
  lemma FullTable(s: seq<Entry>, m: map<Key, Value>)
    requires Matches(s, m)
    ensures |m| <= |s|
    ensures |m| == |s| <==> forall j | 0 <= j < |s| :: s[j].status.Active?
  {
    ActiveCountIsSize(s, m);
    FullCount(s);
  }

  lemma FreshTable(n: nat)
    requires PowerOfTwo(n)
    ensures Represents(seq(n, _ => EMPTY), map[])
  {}

  lemma Doubled(n: nat)
    requires PowerOfTwo(n)
    ensures PowerOfTwo(2 * n)
  {
    assert (2 * n) / 2 == n;
  }

  // ---------------------------------------------------------------- the finite map it stands for

  datatype Call =
    | DefineCall(key: Key, value: Value, memory: bool)
    | RedefineCall(key: Key, value: Value)
    | RemoveCall(key: Key)
    | LookupCall(key: Key)

  datatype Answer = Answer(ok: bool, value: Option<Value>)

  /** A finite map with room for `length` keys, doubled when a new key finds it full. */
  datatype Dictionary = Dictionary(mappings: map<Key, Value>, length: nat)

  function Respond(d: Dictionary, c: Call): (Dictionary, Answer) {
    var m := d.mappings;
    match c
    case DefineCall(key, value, memory) =>
      if key in m then (d, Answer(false, None))
      else if |m| < d.length then (Dictionary(m[key := value], d.length), Answer(true, None))
      else if memory then (Dictionary(m[key := value], 2 * d.length), Answer(true, None))
      else (d, Answer(false, None))
    case RedefineCall(key, value) =>
      if key in m then (Dictionary(m[key := value], d.length), Answer(true, None)) else (d, Answer(false, None))
    case RemoveCall(key) => (Dictionary(m - {key}, d.length), Answer(key in m, None))
    case LookupCall(key) =>
      (d, if key in m then Answer(true, Some(m[key])) else Answer(false, None))
  }

  function Responses(d: Dictionary, calls: seq<Call>): (Dictionary, seq<Answer>) {
    if calls == [] then (d, [])
    else
      var before := Responses(d, calls[..|calls| - 1]);
      var last := Respond(before.0, calls[|calls| - 1]);
      (last.0, before.1 + [last.1])
  }

  // ---------------------------------------------------------------- the table

  class Table {
    var length: nat
    var count: nat
    var entries: array<Entry>
    ghost var contents: map<Key, Value>

    ghost predicate Valid() reads this, entries {
      entries.Length == length && Represents(entries[..], contents) && count == |contents|
    }

    constructor (n: nat)
      requires PowerOfTwo(n)
      ensures Valid() && fresh(entries) && contents == map[] && length == n
    {
      length, count := n, 0;
      entries := new Entry[n](_ => EMPTY);
      contents := map[];
      new;
      FreshTable(n);
      assert entries[..] == seq(n, _ => EMPTY);
    }

    /** table_find: the first slot at which the search stops, after a full scan if need be. */
    method Find(key: Key, skipDeleted: bool) returns (r: Option<nat>, ghost k: nat)
      requires entries.Length == length && PowerOfTwo(length)
      ensures r.Some? ==> FirstStop(entries[..], key, skipDeleted, k) && r.value == Probe(length, key, k) < length
      ensures r.None? ==> NeverStops(entries[..], key, skipDeleted)
    {
      var hash := key % length;
      var i := hash;
      ProbeStart(length, key);
      k := 0;
      while true
        invariant 0 <= k < length && i == Probe(length, key, k) < length
        invariant forall j | 0 <= j < k :: !Stops(entries[Probe(length, key, j)], key, skipDeleted)
        decreases length - k
      {
        match entries[i].status {
          case Active => if entries[i].key == key { return Some(i), k; }
          case Deleted => if !skipDeleted { return Some(i), k; }
          case Unused => return Some(i), k;
        }
        ProbeStep(length, key, k);
        i := (i + Stride(hash)) % length;
        k := k + 1;
        if i == hash { break; }
        ProbesReturn(length, key, k);
      }
      r := None;
      FullScan(length, key, k);
      forall j | 0 <= j < length ensures !Stops(entries[j], key, skipDeleted) {
        var n := ProbesCover(length, key, j);
      }
    }

    /** The rehashing step: the entry goes to the slot where a search for its key ends. */
    method Reinsert(e: Entry, ghost moved: map<Key, Value>)
      requires entries.Length == length && Represents(entries[..], moved) && |moved| < length && e.key !in moved
      requires forall j | 0 <= j < length :: !entries[j].status.Deleted?
      modifies entries
      ensures Represents(entries[..], moved[e.key := e.value])
      ensures forall j | 0 <= j < length :: !entries[j].status.Deleted?
    {
      ghost var t := entries[..];
      var entry, k := Find(e.key, false);
      FullTable(t, moved);
      if entry.None? { NoStopMeansAbsent(t, moved, e.key, false); }
      NotYetDefined(t, moved, e.key, k);
      assert entries[entry.value].status.Unused?; // by NotYetDefined
      FillSlot(t, moved, e.key, e.value, k);
      entries[entry.value] := Entry(Active, e.key, e.value);
      assert entries[..] == t[entry.value := Entry(Active, e.key, e.value)];
    }

    /** table_grow: rehash into twice the space.  It is only called on a table in which every
        entry is active. */
    method Grow()
      requires Valid() && forall j | 0 <= j < length :: entries[j].status.Active?
      modifies this
      ensures Valid() && fresh(entries) && length == 2 * old(length) && contents == old(contents)
    {
      var oldArray, oldLength := entries, length;
      Doubled(oldLength);
      FreshTable(2 * oldLength);
      length := oldLength * 2;
      entries := new Entry[length](_ => EMPTY);
      assert entries[..] == seq(2 * oldLength, _ => EMPTY);
      Rehash(oldArray);
    }

    /** The loop of table_grow: every entry of the full old array goes into the new one. */
    method Rehash(oldArray: array<Entry>)
      requires oldArray != entries && entries.Length == length == 2 * oldArray.Length && oldArray.Length > 0
      requires Represents(entries[..], map[]) && forall j | 0 <= j < length :: !entries[j].status.Deleted?
      requires Matches(oldArray[..], contents) && forall j | 0 <= j < oldArray.Length :: oldArray[j].status.Active?
      modifies entries
      ensures Represents(entries[..], contents)
    {
      ghost var s := oldArray[..];
      ghost var moved: map<Key, Value> := map[];
      for i := 0 to oldArray.Length
        invariant oldArray[..] == s && Represents(entries[..], moved) && MovedUpTo(s, contents, moved, i)
        invariant forall j | 0 <= j < length :: !entries[j].status.Deleted?
      {
        MovedOne(s, contents, moved, i);
        Reinsert(oldArray[i], moved);
        moved := moved[s[i].key := s[i].value];
      }
      AllMoved(s, contents, moved);
    }

    /** table_lookup */
    method Lookup(key: Key) returns (ok: bool, value: Option<Value>)
      requires Valid()
      ensures ok <==> key in contents
      ensures value == if key in contents then Some(contents[key]) else None
    {
      var entry, k := Find(key, true);
      if entry.None? {
        NoStopMeansAbsent(entries[..], contents, key, true);
        return false, None;
      }
      FirstStopDecides(entries[..], contents, key, k);
      if entries[entry.value].status != Active { return false, None; }
      return true, Some(entries[entry.value].value);
    }

    /** table_define; `memory` says whether an allocation, if one is needed, succeeds. */
    method Define(key: Key, value: Value, memory: bool) returns (ok: bool)
      requires Valid()
      modifies this, entries
      ensures Valid() && (entries == old(entries) || fresh(entries))
      ensures ok <==> key !in old(contents) && (old(count) < old(length) || memory)
      ensures contents == if ok then old(contents)[key := value] else old(contents)
      ensures length == if ok && old(count) == old(length) then 2 * old(length) else old(length)
    {
      FullTable(entries[..], contents);
      var entry, k := Find(key, true);
      if entry.Some? {
        FirstStopDecides(entries[..], contents, key, k);
        if entries[entry.value].status == Active { return false; }
        ghost var j := Probe(length, key, k);
        assert !entries[j].status.Active?;
      } else {
        NoStopMeansAbsent(entries[..], contents, key, true);
        entry, k := Find(key, false);
        if entry.None? {
          // no slot but active ones, so every slot can move
          NoStopMeansAbsent(entries[..], contents, key, false);
          if !memory { return false; }
          Grow();
          FullTable(entries[..], contents);
          entry, k := Find(key, false);
          if entry.None? { NoStopMeansAbsent(entries[..], contents, key, false); }
        }
      }
      assert entry.Some? && entries[entry.value].status != Active;
      Install(entry.value, k, key, value);
      return true;
    }

    method Install(slot: nat, ghost k: nat, key: Key, value: Value)
      requires Valid() && key !in contents && k < length && slot == Probe(length, key, k)
      requires !entries[slot].status.Active?
      requires forall i | 0 <= i < k :: !entries[Probe(length, key, i)].status.Unused?
      modifies this, entries
      ensures Valid() && contents == old(contents)[key := value] && entries == old(entries) && length == old(length)
    {
      ghost var s := entries[..];
      FillSlot(s, contents, key, value, k);
      entries[slot] := Entry(Active, key, value);
      assert entries[..] == s[slot := Entry(Active, key, value)];
      contents := contents[key := value];
      count := count + 1;
    }

    /** table_redefine */
    method Redefine(key: Key, value: Value) returns (ok: bool)
      requires Valid()
      modifies this, entries
      ensures Valid() && entries == old(entries) && length == old(length)
      ensures ok <==> key in old(contents)
      ensures contents == if ok then old(contents)[key := value] else old(contents)
    {
      var entry, k := Find(key, true);
      if entry.None? {
        NoStopMeansAbsent(entries[..], contents, key, true);
        return false;
      }
      FirstStopDecides(entries[..], contents, key, k);
      if entries[entry.value].status != Active { return false; }
      ReviseSlot(entries[..], contents, entry.value, value);
      assert entries[entry.value].key == key;
      ghost var s := entries[..];
      entries[entry.value] := entries[entry.value].(value := value);
      assert entries[..] == s[entry.value := s[entry.value].(value := value)];
      contents := contents[key := value];
      assert contents.Keys == old(contents).Keys;
      return true;
    }

    /** table_remove */
    method Remove(key: Key) returns (ok: bool)
      requires Valid()
      modifies this, entries
      ensures Valid() && entries == old(entries) && length == old(length)
      ensures ok <==> key in old(contents)
      ensures contents == old(contents) - {key}
    {
      var entry, k := Find(key, true);
      if entry.None? {
        NoStopMeansAbsent(entries[..], contents, key, true);
        assert contents == contents - {key};
        return false;
      }
      FirstStopDecides(entries[..], contents, key, k);
      if entries[entry.value].status != Active {
        assert contents == contents - {key};
        return false;
      }
      RetireSlot(entries[..], contents, entry.value);
      ghost var s := entries[..];
      entries[entry.value] := entries[entry.value].(status := Deleted);
      assert entries[..] == s[entry.value := s[entry.value].(status := Deleted)];
      contents := contents - {key};
      count := count - 1;
      return true;
    }

    /** table_map: what the function passed in is applied to, in order. */
    method Map() returns (visited: seq<(Key, Value)>)
      requires Valid()
      ensures |visited| == count == |contents|
      ensures forall key, value :: (key, value) in visited <==> key in contents && contents[key] == value
    {
      visited := [];
      for i := 0 to length
        invariant visited == Mappings(entries[..i])
      {
        assert entries[..i + 1][..i] == entries[..i];
        if entries[i].status == Active {
          visited := visited + [(entries[i].key, entries[i].value)];
        }
      }
      assert entries[..length] == entries[..];
      MappingsAreContents(entries[..], contents);
    }

    ghost function Meaning(): Dictionary reads this { Dictionary(contents, length) }

    method ServeDefine(key: Key, value: Value, memory: bool) returns (a: Answer)
      requires Valid()
      modifies this, entries
      ensures Valid() && (entries == old(entries) || fresh(entries))
      ensures (Meaning(), a) == Respond(old(Meaning()), DefineCall(key, value, memory))
    {
      FullTable(entries[..], contents);
      var ok := Define(key, value, memory);
      a := Answer(ok, None);
    }

    method Serve(c: Call) returns (a: Answer)
      requires Valid()
      modifies this, entries
      ensures Valid() && (entries == old(entries) || fresh(entries))
      ensures (Meaning(), a) == Respond(old(Meaning()), c)
    {
      match c
      case DefineCall(key, value, memory) => a := ServeDefine(key, value, memory);
      case RedefineCall(key, value) => var ok := Redefine(key, value); a := Answer(ok, None);
      case RemoveCall(key) => var ok := Remove(key); a := Answer(ok, None);
      case LookupCall(key) => var ok, value := Lookup(key); a := Answer(ok, value);
    }

    /** Over any sequence of calls the table cannot be told from the map. */
    method Replay(calls: seq<Call>) returns (answers: seq<Answer>)
      requires Valid()
      modifies this, entries
      ensures Valid() && (Meaning(), answers) == Responses(old(Meaning()), calls)
    {
      answers := [];
      for i := 0 to |calls|
        invariant Valid() && (entries == old(entries) || fresh(entries))
        invariant (Meaning(), answers) == Responses(old(Meaning()), calls[..i])
      {
        assert calls[..i + 1][..i] == calls[..i];
        var a := Serve(calls[i]);
        answers := answers + [a];
      }
      assert calls[..|calls|] == calls;
    }
  }

  lemma ProbesReturn(length: nat, key: Key, k: nat)
    requires PowerOfTwo(length) && k <= length && Probe(length, key, k) != key % length
    ensures k < length
  {
    ProbeStart(length, key);
    var first := ProbesCover(length, key, 0);
  }

  lemma NotYetDefined(s: seq<Entry>, m: map<Key, Value>, key: Key, k: nat)
    requires Represents(s, m) && key !in m && FirstStop(s, key, false, k)
    requires forall j | 0 <= j < |s| :: !s[j].status.Deleted?
    ensures s[Probe(|s|, key, k)].status.Unused?
  {
    var e := s[Probe(|s|, key, k)];
    assert e.status.Active? ==> e.key in m;
  }

  /** The first `i` entries of a full table have been rehashed. */
  ghost predicate MovedUpTo(s: seq<Entry>, m: map<Key, Value>, moved: map<Key, Value>, i: nat) {
    |moved| == i <= |s| && (forall j | 0 <= j < |s| :: s[j].key in moved <==> j < i) &&
    forall key <- moved :: key in m && m[key] == moved[key]
  }

  lemma MovedOne(s: seq<Entry>, m: map<Key, Value>, moved: map<Key, Value>, i: nat)
    requires Matches(s, m) && MovedUpTo(s, m, moved, i) && i < |s| && forall j | 0 <= j < |s| :: s[j].status.Active?
    ensures s[i].key !in moved && MovedUpTo(s, m, moved[s[i].key := s[i].value], i + 1)
  {}

  lemma AllMoved(s: seq<Entry>, m: map<Key, Value>, moved: map<Key, Value>)
    requires Matches(s, m) && MovedUpTo(s, m, moved, |s|)
    ensures moved == m
  {
    forall key <- m ensures key in moved { var j :| Holds(s, j, key); }
  }

  // ---------------------------------------------------------------- visiting every mapping

  /** The mappings of the active entries, in slot order. */
  function Mappings(s: seq<Entry>): seq<(Key, Value)> {
    if s == [] then []
    else
      var e := s[|s| - 1];
      Mappings(s[..|s| - 1]) + (if e.status.Active? then [(e.key, e.value)] else [])
  }

  lemma {:induction false} MappingsMembers(s: seq<Entry>, p: (Key, Value))
    ensures |Mappings(s)| == ActiveCount(s)
    ensures p in Mappings(s) <==> exists j :: Holds(s, j, p.0) && s[j].value == p.1
  {
    if s != [] {
      var init := s[..|s| - 1];
      MappingsMembers(init, p);
      assert forall j | 0 <= j < |init| :: init[j] == s[j];
      if j :| Holds(s, j, p.0) && s[j].value == p.1 && j < |init| { assert Holds(init, j, p.0); }
      if j :| Holds(init, j, p.0) && init[j].value == p.1 { assert Holds(s, j, p.0); }
      if s[|s| - 1].status.Active? && (s[|s| - 1].key, s[|s| - 1].value) == p { assert Holds(s, |s| - 1, p.0); }
    }
  }

  /** Every mapping is visited, and each of them once. */
  lemma MappingsAreContents(s: seq<Entry>, m: map<Key, Value>)
    requires Matches(s, m)
    ensures |Mappings(s)| == |m|
    ensures forall key, value :: (key, value) in Mappings(s) <==> key in m && m[key] == value
  {
    MappingsMembers(s, (0, 0));
    ActiveCountIsSize(s, m);
    forall key, value ensures (key, value) in Mappings(s) <==> key in m && m[key] == value {
      MappingsMembers(s, (key, value));
    }
  }

  /** The search is back at its start only after `length` steps. */
  lemma FullScan(length: nat, key: Key, k: nat)
    requires PowerOfTwo(length) && 0 < k <= length && Probe(length, key, k) == key % length
    ensures k == length
  {
    ProbeStart(length, key);
    if k < length { ProbesDiffer(length, key, 0, k); }
  }
}
