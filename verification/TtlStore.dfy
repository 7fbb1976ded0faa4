/**
 The in-memory store with time-to-live (agentcook-core/src/agentcook_core/memory.py): per agent
 one dictionary of entries under flattened keys, purged lazily by reads and listings and eagerly
 by `expire`.
 */
module TtlStore {
  import opened Wrappers
  import opened Seqs
  import opened OrderedDict

  datatype Layer = Identity | Soul | Memory | Diary

  function LayerText(layer: Layer): string {
    match layer
    case Identity => "identity"
    case Soul => "soul"
    case Memory => "memory"
    case Diary => "diary"
  }

  datatype Entry = Entry(layer: Layer, key: string, content: string, timestamp: real, ttl: int)

  /** A ttl of zero or less never expires. */
  predicate Expired(e: Entry, now: real) {
    e.ttl > 0 && now - e.timestamp > e.ttl as real
  }

  function LayerPrefix(agent: string, layer: Layer): string {
    agent + ":" + LayerText(layer) + ":"
  }

  function Compound(agent: string, layer: Layer, key: string): string {
    LayerPrefix(agent, layer) + key
  }

  /** The flattened key starts with a layer's prefix exactly if it was built for that layer,
      whatever colons the agent id and the key contain. */
  lemma {:induction false} PrefixSelectsLayer(agent: string, layer: Layer, layer': Layer, key: string)
    ensures LayerPrefix(agent, layer) <= Compound(agent, layer', key) <==> layer == layer'
  {
    var p, c := LayerPrefix(agent, layer), Compound(agent, layer', key);
    assert p[|agent| + 1] == LayerText(layer)[0];
    assert c[|agent| + 1] == LayerText(layer')[0];
    if p <= c {
      assert p[|agent| + 1] == c[|agent| + 1];
    }
  }

  /** The flattened keys as they are stored. */
  lemma {:induction false} FlattenedKeys(agent: string, key: string)
    ensures Compound(agent, Identity, key) == agent + ":identity:" + key
    ensures Compound(agent, Soul, key) == agent + ":soul:" + key
    ensures Compound(agent, Memory, key) == agent + ":memory:" + key
    ensures Compound(agent, Diary, key) == agent + ":diary:" + key
  {
    assert ":" + "identity" + ":" == ":identity:" && ":" + "soul" + ":" == ":soul:";
    assert ":" + "memory" + ":" == ":memory:" && ":" + "diary" + ":" == ":diary:";
  }

  /** So within one agent no two entries share a flattened key unless layer and key agree. */
  lemma {:induction false} CompoundInjective(agent: string, layer: Layer, key: string, layer': Layer, key': string)
    requires Compound(agent, layer, key) == Compound(agent, layer', key')
    ensures layer == layer' && key == key'
  {
    assert LayerPrefix(agent, layer) <= Compound(agent, layer, key);
    PrefixSelectsLayer(agent, layer, layer', key');
    assert key == Compound(agent, layer, key)[|LayerPrefix(agent, layer)|..];
    assert key' == Compound(agent, layer', key')[|LayerPrefix(agent, layer)|..];
  }

  // ---- what the methods compute -------------------------------------------------------------

  type Entries = Dict<string, Entry>

  type Data = map<string, Entries>

  function EntriesOf(data: Data, agent: string): Entries {
    if agent in data then data[agent] else []
  }

  /** Whether a listing reports an entry: `prefix` is None for no prefix or an empty one. */
  function Reported(agent: string, layer: Layer, prefix: Option<string>, now: real): ((string, Entry)) -> bool {
    (item: (string, Entry)) =>
      && LayerPrefix(agent, layer) <= item.0
      && !Expired(item.1, now)
      && (prefix.Some? ==> prefix.value <= item.1.key)
  }

  function EntryOf(): ((string, Entry)) -> Entry {
    (item: (string, Entry)) => item.1
  }

  /** The listing's pass over the items: expired entries of the layer are dropped as they are
      met, and the pass ends with the `room`-th report. */
  function Sweep(items: Entries, agent: string, layer: Layer, prefix: Option<string>, now: real, room: nat): (Entries,
      seq<Entry>)
  {
    if items == [] then ([], []) else
    var (key, entry) := items[0];
    if LayerPrefix(agent, layer) <= key && Expired(entry, now) then
      Sweep(items[1..], agent, layer, prefix, now, room)
    else if !Reported(agent, layer, prefix, now)(items[0]) then
      var (kept, found) := Sweep(items[1..], agent, layer, prefix, now, room);
      ([items[0]] + kept, found)
    else if room <= 1 then
      (items, [entry])
    else
      var (kept, found) := Sweep(items[1..], agent, layer, prefix, now, room - 1);
      ([items[0]] + kept, [entry] + found)
  }

  function Live(now: real): ((string, Entry)) -> bool {
    (item: (string, Entry)) => !Expired(item.1, now)
  }

  /** A limit of zero or less still reports one entry: the test comes after the append. */
  function Room(limit: int): nat {
    if limit >= 1 then limit else 1
  }

  datatype Op =
    | Write(agent: string, entry: Entry)
    | Read(agent: string, layer: Layer, key: string)
    | ListEntries(agent: string, layer: Layer, prefix: Option<string>, limit: int)
    | Delete(agent: string, layer: Layer, key: string)
    | Expire(agent: string)

  /** The data after one operation at time `now`; dictionaries are only replaced where they
      exist. */
  function DataAfter(data: Data, op: Op, now: real): Data {
    var entries := EntriesOf(data, op.agent);
    match op
    case Write(agent, entry) =>
      data[agent := OrderedDict.Write(entries, Compound(agent, entry.layer, entry.key), entry)]
    case _ =>
      if op.agent !in data then data else
      data[op.agent :=
        match op
        case Read(agent, layer, key) =>
          var found := Lookup(entries, Compound(agent, layer, key));
          if found.Some? && Expired(found.value, now) then Remove(entries, Compound(agent, layer, key)) else entries
        case ListEntries(agent, layer, prefix, limit) => Sweep(entries, agent, layer, prefix, now, Room(limit)).0
        case Delete(agent, layer, key) => Remove(entries, Compound(agent, layer, key))
        case _ => Filter(entries, Live(now))]
  }

  function ReadResult(data: Data, agent: string, layer: Layer, key: string, now: real): Option<Entry> {
    var found := Lookup(EntriesOf(data, agent), Compound(agent, layer, key));
    if found.Some? && Expired(found.value, now) then None else found
  }

  function Listed(data: Data, agent: string, layer: Layer, prefix: Option<string>, limit: int, now: real): seq<Entry> {
    Sweep(EntriesOf(data, agent), agent, layer, prefix, now, Room(limit)).1
  }

  // ---- the store -------------------------------------------------------------------------------

  class InMemoryStore {
    var data: Data

    ghost predicate Valid()
      reads this
    {
      WellFormed(data)
    }

    constructor ()
      ensures Valid() && data == map[]
    {
      data := map[];
    }

    method WriteEntry(agent: string, entry: Entry, ghost now: real)
      requires Valid()
      modifies this
      ensures Valid() && data == DataAfter(old(data), Write(agent, entry), now)
    {
      var key := Compound(agent, entry.layer, entry.key);
      if agent !in data {
        data := data[agent := []];
      }
      data := data[agent := OrderedDict.Write(data[agent], key, entry)];
      assert data == DataAfter(old(data), Write(agent, entry), now);
      WriteKeepsWellFormed(old(data), agent, entry, now);
    }

    /** Looking an entry up removes it when it turns out to have expired. */
    method ReadEntry(agent: string, layer: Layer, key: string, now: real) returns (r: Option<Entry>)
      requires Valid()
      modifies this
      ensures Valid() && data == DataAfter(old(data), Read(agent, layer, key), now)
      ensures r == ReadResult(old(data), agent, layer, key, now)
    {
      PurgeKeepsWellFormed(data, Read(agent, layer, key), now);
      if agent !in data {
        return None;
      }
      var compound := Compound(agent, layer, key);
      r := Lookup(data[agent], compound);
      if r.Some? && Expired(r.value, now) {
        data := data[agent := Remove(data[agent], compound)];
        r := None;
      } else {
        assert data == data[agent := data[agent]];
      }
    }

    method List(agent: string, layer: Layer, prefix: Option<string>, limit: int, now: real)
      returns (results: seq<Entry>)
      requires Valid()
      modifies this
      ensures Valid() && data == DataAfter(old(data), ListEntries(agent, layer, prefix, limit), now)
      ensures results == Listed(old(data), agent, layer, prefix, limit, now)
    {
      PurgeKeepsWellFormed(data, ListEntries(agent, layer, prefix, limit), now);
      results := [];
      if agent !in data {
        return;
      }
      var kept;
      kept, results := SweepEntries(data[agent], agent, layer, prefix, limit, now);
      data := data[agent := kept];
    }

    /** The loop of `list_entries` over a snapshot of the items; `kept` are those it has passed
        and not deleted. */
    static method SweepEntries(items: Entries, agent: string, layer: Layer, prefix: Option<string>, limit: int,
            now: real) returns (entries: Entries, results: seq<Entry>)
      ensures (entries, results) == Sweep(items, agent, layer, prefix, now, Room(limit))
    {
      var kept: Entries := [];
      results := [];
      ghost var swept := Sweep(items, agent, layer, prefix, now, Room(limit));
      ghost var ahead, room := swept, Room(limit);
      assert Ahead(swept, kept, results, ahead) by {
        assert [] + swept.0 == swept.0 && [] + swept.1 == swept.1;
      }
      for i := 0 to |items|
        invariant room == Room(limit) - |results| >= 1
        invariant ahead == Sweep(items[i..], agent, layer, prefix, now, room)
        invariant Ahead(swept, kept, results, ahead)
      {
        var (key, entry) := items[i];
        ghost var next := items[i + 1..];
        assert items[i..] == [items[i]] + next;
        SweepOfFirst(items[i], next, agent, layer, prefix, now, room);
        if !(LayerPrefix(agent, layer) <= key) {
          ahead := Sweep(next, agent, layer, prefix, now, room);
          AheadMoves(swept, kept, results, [items[i]], [], ahead);
          kept := kept + [items[i]];
          assert results + [] == results;
        } else if Expired(entry, now) {
          ahead := Sweep(next, agent, layer, prefix, now, room);
        } else if prefix.Some? && !(prefix.value <= entry.key) {
          ahead := Sweep(next, agent, layer, prefix, now, room);
          AheadMoves(swept, kept, results, [items[i]], [], ahead);
          kept := kept + [items[i]];
          assert results + [] == results;
        } else {
          if |results| + 1 >= limit {
            return kept + items[i..], results + [entry];
          }
          room := room - 1;
          ahead := Sweep(next, agent, layer, prefix, now, room);
          AheadMoves(swept, kept, results, [items[i]], [entry], ahead);
          results := results + [entry];
          kept := kept + [items[i]];
        }
      }
      assert kept + [] == kept && results + [] == results;
      return kept, results;
    }

    /** The whole sweep is what has been done so far, followed by what lies ahead. */
    static ghost predicate Ahead(swept: (Entries, seq<Entry>), kept: Entries, results: seq<Entry>,
            ahead: (Entries, seq<Entry>))
    {
      swept == (kept + ahead.0, results + ahead.1)
    }

    static lemma {:induction false} AheadMoves(swept: (Entries, seq<Entry>), kept: Entries, results: seq<Entry>,
            x: Entries, e: seq<Entry>, ahead: (Entries, seq<Entry>))
      requires Ahead(swept, kept, results, (x + ahead.0, e + ahead.1))
      ensures Ahead(swept, kept + x, results + e, ahead)
    {
      assert kept + (x + ahead.0) == kept + x + ahead.0;
      assert results + (e + ahead.1) == results + e + ahead.1;
    }

    static lemma {:induction false} SweepOfFirst(x: (string, Entry), next: Entries, agent: string, layer: Layer,
            prefix: Option<string>, now: real, room: nat)
      ensures
        var mine := LayerPrefix(agent, layer) <= x.0;
        var further := Sweep(next, agent, layer, prefix, now, room);
        Sweep([x] + next, agent, layer, prefix, now, room) ==
          if mine && Expired(x.1, now) then further
          else if !mine || (prefix.Some? && !(prefix.value <= x.1.key)) then ([x] + further.0, [] + further.1)
          else if room <= 1 then ([x] + next, [x.1])
          else var fewer := Sweep(next, agent, layer, prefix, now, room - 1); ([x] + fewer.0, [x.1] + fewer.1)
    {
      assert ([x] + next)[1..] == next;
      assert [] + Sweep(next, agent, layer, prefix, now, room).1 == Sweep(next, agent, layer, prefix, now, room).1;
    }

    /** Tells whether an entry was stored, expired or not. */
    method DeleteEntry(agent: string, layer: Layer, key: string, ghost now: real) returns (deleted: bool)
      requires Valid()
      modifies this
      ensures Valid() && data == DataAfter(old(data), Delete(agent, layer, key), now)
      ensures deleted == Stored(old(data), Place(agent, layer, key)).Some?
    {
      DeleteKeepsWellFormed(data, agent, layer, key, now);
      if agent !in data {
        return false;
      }
      deleted := Lookup(data[agent], Compound(agent, layer, key)).Some?;
      data := data[agent := Remove(data[agent], Compound(agent, layer, key))];
    }

    /** Tells how many entries were purged. */
    method ExpireAll(agent: string, now: real) returns (expired: nat)
      requires Valid()
      modifies this
      ensures Valid() && data == DataAfter(old(data), Expire(agent), now)
      ensures expired == |EntriesOf(old(data), agent)| - |EntriesOf(data, agent)|
    {
      PurgeKeepsWellFormed(data, Expire(agent), now);
      if agent !in data {
        return 0;
      }
      expired := |data[agent]| - |Filter(data[agent], Live(now))|;
      data := data[agent := Filter(data[agent], Live(now))];
    }
  }

  // ---- what operations keep ----------------------------------------------------------------------

  /** Keys are unique, and each entry stands under its own flattened key. */
  ghost predicate WellFormedEntries(agent: string, entries: Entries) {
    && Unique(entries)
    && forall i :: 0 <= i < |entries| ==> entries[i].0 == Compound(agent, entries[i].1.layer, entries[i].1.key)
  }

  ghost predicate WellFormed(data: Data) {
    forall agent :: agent in data ==> WellFormedEntries(agent, data[agent])
  }

  /** Some expired items are gone, nothing else. */
  ghost predicate PurgedTo(items: Entries, left: Entries, now: real) {
    && Unique(left)
    && (forall i :: 0 <= i < |left| ==> left[i] in items)
    && (forall i :: 0 <= i < |items| ==> items[i] in left || Expired(items[i].1, now))
  }

  lemma {:induction false} PrependPurged(head: (string, Entry), items: Entries, left: Entries, now: real)
    requires Unique([head] + items) && PurgedTo(items, left, now)
    ensures PurgedTo([head] + items, [head] + left, now)
  {
    var all, all' := [head] + items, [head] + left;
    forall i | 0 <= i < |left|
      ensures left[i].0 != head.0
    {
      var j :| 0 <= j < |items| && items[j] == left[i];
      assert all[j + 1] == items[j] && all[0].0 != all[j + 1].0;
    }
    assert all'[0] == head && forall i :: 1 <= i < |all'| ==> all'[i] == left[i - 1];
    assert forall i :: 1 <= i < |all| ==> all[i] == items[i - 1];
  }

  lemma {:induction false} SweepPurges(items: Entries, agent: string, layer: Layer, prefix: Option<string>, now: real,
          room: nat)
    requires Unique(items)
    ensures PurgedTo(items, Sweep(items, agent, layer, prefix, now, room).0, now)
  {
    if items != [] {
      var (key, entry) := items[0];
      assert items == [items[0]] + items[1..];
      if LayerPrefix(agent, layer) <= key && Expired(entry, now) {
        SweepPurges(items[1..], agent, layer, prefix, now, room);
        var left := Sweep(items[1..], agent, layer, prefix, now, room).0;
        forall i | 0 <= i < |items|
          ensures items[i] in left || Expired(items[i].1, now)
        {
          assert i > 0 ==> items[i] == items[1..][i - 1];
        }
        assert forall i :: 0 <= i < |left| ==> left[i] in items[1..];
      } else if !Reported(agent, layer, prefix, now)(items[0]) {
        SweepPurges(items[1..], agent, layer, prefix, now, room);
        PrependPurged(items[0], items[1..], Sweep(items[1..], agent, layer, prefix, now, room).0, now);
      } else if room > 1 {
        SweepPurges(items[1..], agent, layer, prefix, now, room - 1);
        PrependPurged(items[0], items[1..], Sweep(items[1..], agent, layer, prefix, now, room - 1).0, now);
      }
    }
  }

  lemma {:induction false} FilterPurges(items: Entries, now: real)
    requires Unique(items)
    ensures PurgedTo(items, Filter(items, Live(now)), now)
  {
    if items != [] {
      FilterPurges(items[1..], now);
      assert items == [items[0]] + items[1..];
      if Live(now)(items[0]) {
        PrependPurged(items[0], items[1..], Filter(items[1..], Live(now)), now);
      } else {
        var left := Filter(items[1..], Live(now));
        assert left == Filter(items, Live(now));
        forall i | 0 <= i < |items|
          ensures items[i] in left || Expired(items[i].1, now)
        {
          assert i > 0 ==> items[i] == items[1..][i - 1];
        }
        assert forall i :: 0 <= i < |left| ==> left[i] in items[1..];
      }
    }
  }

  lemma {:induction false} RemovePurges(items: Entries, k: string, now: real)
    requires Unique(items)
    requires Lookup(items, k).Some? ==> Expired(Lookup(items, k).value, now)
    ensures PurgedTo(items, Remove(items, k), now)
  {
    if items != [] {
      assert items == [items[0]] + items[1..];
      if items[0].0 == k {
        assert forall i :: 1 <= i < |items| ==> items[i] == items[1..][i - 1];
      } else {
        RemovePurges(items[1..], k, now);
        PrependPurged(items[0], items[1..], Remove(items[1..], k), now);
      }
    }
  }

  /** Reads, listings and `expire` take away nothing but expired entries of their agent. */
  lemma {:induction false} OperationPurges(data: Data, op: Op, now: real)
    requires WellFormed(data) && op.agent in data && (op.Read? || op.ListEntries? || op.Expire?)
    ensures PurgedTo(data[op.agent], EntriesOf(DataAfter(data, op, now), op.agent), now)
  {
    var items := data[op.agent];
    assert WellFormedEntries(op.agent, items);
    match op {
      case Read(agent, layer, key) =>
        var found := Lookup(items, Compound(agent, layer, key));
        if found.Some? && Expired(found.value, now) {
          RemovePurges(items, Compound(agent, layer, key), now);
        }
      case ListEntries(agent, layer, prefix, limit) => SweepPurges(items, agent, layer, prefix, now, Room(limit));
      case Expire(_) => FilterPurges(items, now);
    }
  }

  lemma {:induction false} PurgeKeepsWellFormed(data: Data, op: Op, now: real)
    requires WellFormed(data) && (op.Read? || op.ListEntries? || op.Expire?)
    ensures WellFormed(DataAfter(data, op, now))
  {
    if op.agent in data {
      OperationPurges(data, op, now);
      var left := EntriesOf(DataAfter(data, op, now), op.agent);
      assert WellFormedEntries(op.agent, data[op.agent]);
      assert WellFormedEntries(op.agent, left);
    }
  }

  lemma {:induction false} WriteKeepsWellFormed(data: Data, agent: string, entry: Entry, now: real)
    requires WellFormed(data)
    ensures WellFormed(DataAfter(data, Write(agent, entry), now))
  {
    var key := Compound(agent, entry.layer, entry.key);
    WriteKeepsUnique(EntriesOf(data, agent), key, entry);
    assert WellFormedEntries(agent, OrderedDict.Write(EntriesOf(data, agent), key, entry));
  }

  lemma {:induction false} DeleteKeepsWellFormed(data: Data, agent: string, layer: Layer, key: string, now: real)
    requires WellFormed(data)
    ensures WellFormed(DataAfter(data, Delete(agent, layer, key), now))
  {
    if agent in data {
      RemoveKeepsUnique(data[agent], Compound(agent, layer, key));
      assert WellFormedEntries(agent, Remove(data[agent], Compound(agent, layer, key)));
    }
  }

  // ---- refinement of a plain map ------------------------------------------------------------------

  datatype Place = Place(agent: string, layer: Layer, key: string)

  /** The plain map: writes and deletes, nothing else. */
  type Plain = map<Place, Entry>

  function PlainAfter(plain: Plain, op: Op): Plain {
    match op
    case Write(agent, entry) => plain[Place(agent, entry.layer, entry.key) := entry]
    case Delete(agent, layer, key) => plain - {Place(agent, layer, key)}
    case _ => plain
  }

  function PlainRead(plain: Plain, place: Place, now: real): Option<Entry> {
    if place in plain && !Expired(plain[place], now) then Some(plain[place]) else None
  }

  function Stored(data: Data, place: Place): Option<Entry> {
    Lookup(EntriesOf(data, place.agent), Compound(place.agent, place.layer, place.key))
  }

  /** What is stored was written and not deleted; what is missing has expired. */
  ghost predicate RepresentsAt(data: Data, plain: Plain, now: real, place: Place) {
    && (Stored(data, place).Some? ==> place in plain && Stored(data, place).value == plain[place])
    && (Stored(data, place).None? && place in plain ==> Expired(plain[place], now))
  }

  ghost predicate Represents(data: Data, plain: Plain, now: real) {
    WellFormed(data) && forall place :: RepresentsAt(data, plain, now, place)
  }

  lemma {:induction false} LookupAfterPurge(items: Entries, left: Entries, now: real, k: string)
    requires Unique(items) && PurgedTo(items, left, now)
    ensures Lookup(left, k).Some? ==> Lookup(items, k) == Lookup(left, k)
    ensures Lookup(left, k).None? && Lookup(items, k).Some? ==> Expired(Lookup(items, k).value, now)
  {
    LookupFinds(left, k);
    LookupFinds(items, k);
    if Lookup(left, k).Some? {
      var i :| 0 <= i < |left| && left[i] == (k, Lookup(left, k).value);
      assert left[i] in items;
      var j :| 0 <= j < |items| && items[j] == left[i];
      LookupOfMember(items, j);
    } else if Lookup(items, k).Some? {
      var j :| 0 <= j < |items| && items[j] == (k, Lookup(items, k).value);
      assert items[j] !in left;
    }
  }

  /** Any operation, at any later time, keeps the refinement. */
  lemma {:induction false} StepRefinesPlain(data: Data, plain: Plain, before: real, op: Op, now: real)
    requires Represents(data, plain, before) && before <= now
    ensures Represents(DataAfter(data, op, now), PlainAfter(plain, op), now)
  {
    var data' := DataAfter(data, op, now);
    match op {
      case Write(agent, entry) => WriteKeepsWellFormed(data, agent, entry, now);
      case Delete(agent, layer, key) => DeleteKeepsWellFormed(data, agent, layer, key, now);
      case _ => PurgeKeepsWellFormed(data, op, now);
    }
    forall place
      ensures RepresentsAt(data', PlainAfter(plain, op), now, place)
    {
      assert RepresentsAt(data, plain, before, place);
      StepRefinesPlainAt(data, plain, before, op, now, place);
    }
  }

  lemma {:induction false} StepRefinesPlainAt(data: Data, plain: Plain, before: real, op: Op, now: real, place: Place)
    requires WellFormed(data) && RepresentsAt(data, plain, before, place) && before <= now
    ensures RepresentsAt(DataAfter(data, op, now), PlainAfter(plain, op), now, place)
  {
    var items := EntriesOf(data, op.agent);
    var k := Compound(place.agent, place.layer, place.key);
    if op.agent == place.agent {
      match op {
        case Write(agent, entry) =>
          if Compound(agent, entry.layer, entry.key) == k {
            CompoundInjective(agent, entry.layer, entry.key, place.layer, place.key);
          }
          LookupAfterWrite(items, Compound(agent, entry.layer, entry.key), entry, k);
        case Delete(agent, layer, key) =>
          if agent in data {
            assert WellFormedEntries(agent, data[agent]);
            LookupAfterRemove(items, Compound(agent, layer, key), k);
          }
          if Compound(agent, layer, key) == k {
            CompoundInjective(agent, layer, key, place.layer, place.key);
          }
        case _ =>
          if op.agent in data {
            assert WellFormedEntries(op.agent, data[op.agent]);
            OperationPurges(data, op, now);
            LookupAfterPurge(items, EntriesOf(DataAfter(data, op, now), op.agent), now, k);
          }
      }
    }
  }

  /** A run: operations with the times at which they happen. */
  datatype Timed = Timed(op: Op, now: real)

  ghost predicate MonotoneClock(run: seq<Timed>, until: real) {
    && (forall i, j :: 0 <= i < j < |run| ==> run[i].now <= run[j].now)
    && (forall i :: 0 <= i < |run| ==> run[i].now <= until)
  }

  function RunData(run: seq<Timed>): Data {
    if run == [] then map[]
    else DataAfter(RunData(run[..|run| - 1]), run[|run| - 1].op, run[|run| - 1].now)
  }

  function RunPlain(run: seq<Timed>): Plain {
    if run == [] then map[] else PlainAfter(RunPlain(run[..|run| - 1]), run[|run| - 1].op)
  }

  lemma {:induction false} RunRefinesPlain(run: seq<Timed>, until: real)
    requires MonotoneClock(run, until)
    ensures Represents(RunData(run), RunPlain(run), until)
  {
    if run != [] {
      var last := run[|run| - 1];
      RunRefinesPlain(run[..|run| - 1], last.now);
      StepRefinesPlain(RunData(run[..|run| - 1]), RunPlain(run[..|run| - 1]), last.now, last.op, last.now);
      Later(RunData(run), RunPlain(run), last.now, until);
    }
  }

  lemma {:induction false} Later(data: Data, plain: Plain, now: real, later: real)
    requires Represents(data, plain, now) && now <= later
    ensures Represents(data, plain, later)
  {
    forall place
      ensures RepresentsAt(data, plain, later, place)
    {
      assert RepresentsAt(data, plain, now, place);
    }
  }

  /** After any run of operations under a monotone clock, a read returns the latest write to its
      place that has been neither deleted nor outlived. */
  lemma {:induction false} ReadIsPlain(run: seq<Timed>, place: Place, now: real)
    requires MonotoneClock(run, now)
    ensures ReadResult(RunData(run), place.agent, place.layer, place.key, now) == PlainRead(RunPlain(run), place, now)
  {
    RunRefinesPlain(run, now);
    assert RepresentsAt(RunData(run), RunPlain(run), now, place);
  }

  // ---- what a read returns, in terms of the run --------------------------------------------------

  /** The i-th operation wrote the place, and nothing after it wrote or deleted it. */
  ghost predicate IsLatestWrite(run: seq<Timed>, place: Place, i: nat) {
    && i < |run|
    && Writes(run[i].op, place)
    && forall j :: i < j < |run| ==> !Writes(run[j].op, place) && !Deletes(run[j].op, place)
  }

  predicate Writes(op: Op, place: Place) {
    op.Write? && op.agent == place.agent && op.entry.layer == place.layer && op.entry.key == place.key
  }

  predicate Deletes(op: Op, place: Place) {
    op.Delete? && op.agent == place.agent && op.layer == place.layer && op.key == place.key
  }

  /** `e` is what the latest undeleted write put there. */
  ghost predicate Holds(run: seq<Timed>, place: Place, e: Entry) {
    exists i :: 0 <= i < |run| && IsLatestWrite(run, place, i) && run[i].op.entry == e
  }

  lemma {:induction false} HoldsAfter(run: seq<Timed>, t: Timed, place: Place, e: Entry)
    ensures Holds(run + [t], place, e)
       <==> if Writes(t.op, place) then e == t.op.entry else !Deletes(t.op, place) && Holds(run, place, e)
  {
    var all := run + [t];
    assert all[|run|] == t;
    if Writes(t.op, place) {
      assert IsLatestWrite(all, place, |run|);
      forall i | 0 <= i < |run|
        ensures !IsLatestWrite(all, place, i)
      {
        assert Writes(all[|run|].op, place);
      }
    } else {
      assert !IsLatestWrite(all, place, |run|);
      forall i | 0 <= i < |run|
        ensures IsLatestWrite(all, place, i) <==> !Deletes(t.op, place) && IsLatestWrite(run, place, i)
      {
        LatestWriteAfter(run, t, place, i);
      }
      if Holds(run, place, e) && !Deletes(t.op, place) {
        var i :| 0 <= i < |run| && IsLatestWrite(run, place, i) && run[i].op.entry == e;
        assert IsLatestWrite(all, place, i) && all[i].op.entry == e;
      }
      if Holds(all, place, e) {
        var i :| 0 <= i < |all| && IsLatestWrite(all, place, i) && all[i].op.entry == e;
        assert IsLatestWrite(run, place, i) && run[i].op.entry == e;
      }
    }
  }

  lemma {:induction false} LatestWriteAfter(run: seq<Timed>, t: Timed, place: Place, i: nat)
    requires i < |run| && !Writes(t.op, place)
    ensures IsLatestWrite(run + [t], place, i) <==> !Deletes(t.op, place) && IsLatestWrite(run, place, i)
  {
    var all := run + [t];
    assert all[|run|] == t && all[i] == run[i];
    if IsLatestWrite(all, place, i) {
      forall j | i < j < |run|
        ensures !Writes(run[j].op, place) && !Deletes(run[j].op, place)
      {
        assert all[j] == run[j];
      }
    }
  }

  lemma {:induction false} PlainHolds(run: seq<Timed>, place: Place, e: Entry)
    ensures place in RunPlain(run) && RunPlain(run)[place] == e <==> Holds(run, place, e)
  {
    if run != [] {
      var front, last := run[..|run| - 1], run[|run| - 1];
      assert run == front + [last];
      PlainHolds(front, place, e);
      HoldsAfter(front, last, place, e);
    }
  }

  /** The exact boundary: an entry is read at `now` exactly if it is the latest undeleted write to
      its place and it never expires or no more than its time to live has passed. */
  lemma {:induction false} ReadReturnsIff(run: seq<Timed>, place: Place, now: real, e: Entry)
    requires MonotoneClock(run, now)
    ensures ReadResult(RunData(run), place.agent, place.layer, place.key, now) == Some(e)
       <==> Holds(run, place, e) && (e.ttl <= 0 || now <= e.timestamp + e.ttl as real)
  {
    ReadIsPlain(run, place, now);
    PlainHolds(run, place, e);
  }

  /** And `expire` leaves exactly those entries of its agent, while another agent's stay. */
  lemma {:induction false} ExpireLeavesIff(run: seq<Timed>, place: Place, now: real, e: Entry)
    requires MonotoneClock(run, now)
    ensures Stored(DataAfter(RunData(run), Expire(place.agent), now), place) == Some(e)
       <==> Holds(run, place, e) && (e.ttl <= 0 || now <= e.timestamp + e.ttl as real)
    ensures forall other :: other != place.agent ==>
              EntriesOf(DataAfter(RunData(run), Expire(other), now), place.agent)
                == EntriesOf(RunData(run), place.agent)
  {
    var data, k := RunData(run), Compound(place.agent, place.layer, place.key);
    ReadReturnsIff(run, place, now, e);
    RunRefinesPlain(run, now);
    if place.agent in data {
      assert WellFormedEntries(place.agent, data[place.agent]);
      LookupAmongLive(data[place.agent], k, now);
    }
  }

  /** A read takes an expired entry out, and nothing else: what is stored afterwards is what it
      returned. */
  lemma {:induction false} ReadLeaves(data: Data, place: Place, now: real, other: Place)
    requires WellFormed(data)
    ensures
      var data' := DataAfter(data, Read(place.agent, place.layer, place.key), now);
      && Stored(data', place) == ReadResult(data, place.agent, place.layer, place.key, now)
      && (other != place ==> Stored(data', other) == Stored(data, other))
  {
    var k, k' := Compound(place.agent, place.layer, place.key), Compound(other.agent, other.layer, other.key);
    if place.agent in data {
      assert WellFormedEntries(place.agent, data[place.agent]);
      LookupAfterRemove(data[place.agent], k, k);
      LookupAfterRemove(data[place.agent], k, k');
      if other.agent == place.agent && k == k' {
        CompoundInjective(place.agent, place.layer, place.key, other.layer, other.key);
      }
    }
  }

  /** A listing that is not cut short takes every expired entry of its layer out, and nothing else. */
  lemma {:induction false} ListingLeaves(data: Data, agent: string, layer: Layer, prefix: Option<string>, limit: int,
          now: real, place: Place)
    requires WellFormed(data) && |Listed(data, agent, layer, prefix, limit, now)| < if limit >= 1 then limit else 1
    ensures
      var data' := DataAfter(data, ListEntries(agent, layer, prefix, limit), now);
      Stored(data', place)
        == if place.agent == agent && place.layer == layer then ReadResult(data, agent, layer, place.key, now)
           else Stored(data, place)
  {
    if agent in data && place.agent == agent {
      var items, k := data[agent], Compound(agent, place.layer, place.key);
      assert WellFormedEntries(agent, items);
      SweepLeaves(items, agent, layer, prefix, now, Room(limit), k);
      PrefixSelectsLayer(agent, layer, place.layer, place.key);
    }
  }

  lemma {:induction false} SweepLeaves(items: Entries, agent: string, layer: Layer, prefix: Option<string>, now: real,
          room: nat, k: string)
    requires Unique(items) && |Sweep(items, agent, layer, prefix, now, room).1| < room
    ensures Lookup(Sweep(items, agent, layer, prefix, now, room).0, k)
         == if LayerPrefix(agent, layer) <= k && Lookup(items, k).Some? && Expired(Lookup(items, k).value, now)
            then None else Lookup(items, k)
  {
    if items != [] {
      var (key, entry) := items[0];
      assert forall i :: 0 <= i < |items[1..]| ==> items[1..][i] == items[i + 1];
      if LayerPrefix(agent, layer) <= key && Expired(entry, now) {
        SweepLeaves(items[1..], agent, layer, prefix, now, room, k);
        if key == k {
          LookupFinds(items[1..], k);
          assert forall i :: 0 <= i < |items[1..]| ==> items[1..][i].0 != k;
        }
      } else if !Reported(agent, layer, prefix, now)(items[0]) {
        SweepLeaves(items[1..], agent, layer, prefix, now, room, k);
      } else {
        SweepLeaves(items[1..], agent, layer, prefix, now, room - 1, k);
      }
    }
  }

  lemma {:induction false} LookupAmongLive(items: Entries, k: string, now: real)
    requires Unique(items)
    ensures Lookup(Filter(items, Live(now)), k)
         == if Lookup(items, k).Some? && Expired(Lookup(items, k).value, now) then None else Lookup(items, k)
  {
    if items != [] {
      assert forall i :: 0 <= i < |items[1..]| ==> items[1..][i] == items[i + 1];
      LookupAmongLive(items[1..], k, now);
      var rest := Filter(items[1..], Live(now));
      assert Filter(items, Live(now)) == if Live(now)(items[0]) then [items[0]] + rest else rest;
      if items[0].0 == k {
        LookupFinds(items[1..], k);
        assert forall i :: 0 <= i < |items[1..]| ==> items[1..][i].0 != k;
      }
    }
  }

  function Changes(): Timed -> bool {
    (t: Timed) => t.op.Write? || t.op.Delete?
  }

  lemma {:induction false} PlainSnoc(run: seq<Timed>, t: Timed)
    ensures RunPlain(run + [t]) == PlainAfter(RunPlain(run), t.op)
  {
    assert (run + [t])[..|run|] == run;
  }

  lemma {:induction false} PlainIgnoresPurges(run: seq<Timed>)
    ensures RunPlain(run) == RunPlain(Filter(run, Changes()))
  {
    if run != [] {
      var front, last := run[..|run| - 1], run[|run| - 1];
      PlainIgnoresPurges(front);
      assert run == front + [last];
      PlainSnoc(front, last);
      FilterConcat(front, [last], Changes());
      if Changes()(last) {
        assert Filter([last], Changes()) == [last];
        PlainSnoc(Filter(front, Changes()), last);
      } else {
        assert Filter(front, Changes()) + [] == Filter(front, Changes());
      }
    }
  }

  /** Purging is invisible: two runs with the same writes and deletes answer every later read
      alike, wherever reads, listings and `expire` calls stand in them. */
  lemma {:induction false} PurgingIsInvisible(run: seq<Timed>, run': seq<Timed>, place: Place, now: real)
    requires MonotoneClock(run, now) && MonotoneClock(run', now)
    requires Filter(run, Changes()) == Filter(run', Changes())
    ensures ReadResult(RunData(run), place.agent, place.layer, place.key, now)
         == ReadResult(RunData(run'), place.agent, place.layer, place.key, now)
  {
    ReadIsPlain(run, place, now);
    ReadIsPlain(run', place, now);
    PlainIgnoresPurges(run);
    PlainIgnoresPurges(run');
  }

  // ---- listing ---------------------------------------------------------------------------------------

  function FirstReports(items: Entries, p: ((string, Entry)) -> bool, room: nat): seq<Entry> {
    Take(Map(Filter(items, p), EntryOf()), room)
  }

  lemma {:induction false} FirstReportsStep(items: Entries, p: ((string, Entry)) -> bool, room: nat)
    requires room >= 1 && items != []
    ensures FirstReports(items, p, room)
         == if p(items[0]) then [items[0].1] + FirstReports(items[1..], p, room - 1)
             else FirstReports(items[1..], p, room)
  {
    var rest := Map(Filter(items[1..], p), EntryOf());
    if p(items[0]) {
      assert Map([items[0]] + Filter(items[1..], p), EntryOf()) == [items[0].1] + rest;
      assert Take([items[0].1] + rest, room) == [items[0].1] + Take(rest, room - 1);
    } else {
      assert [] + Filter(items[1..], p) == Filter(items[1..], p);
    }
  }

  /** A listing reports the first `room` qualifying entries, in dictionary order. */
  lemma {:induction false} SweepReports(items: Entries, agent: string, layer: Layer, prefix: Option<string>, now: real,
          room: nat)
    requires room >= 1
    ensures Sweep(items, agent, layer, prefix, now, room).1
         == FirstReports(items, Reported(agent, layer, prefix, now), room)
  {
    var p := Reported(agent, layer, prefix, now);
    if items != [] {
      FirstReportsStep(items, p, room);
      if !p(items[0]) {
        SweepReports(items[1..], agent, layer, prefix, now, room);
      } else if room > 1 {
        SweepReports(items[1..], agent, layer, prefix, now, room - 1);
      }
    }
  }

  /** Whether the plain map holds a live entry of that layer whose key starts with the prefix. */
  ghost predicate Listable(plain: Plain, agent: string, layer: Layer, prefix: Option<string>, now: real, e: Entry) {
    && e.layer == layer
    && PlainRead(plain, Place(agent, layer, e.key), now) == Some(e)
    && (prefix.Some? ==> prefix.value <= e.key)
  }

  lemma {:induction false} ListableIsReported(data: Data, plain: Plain, agent: string, layer: Layer,
          prefix: Option<string>, now: real, e: Entry)
    requires Represents(data, plain, now) && Listable(plain, agent, layer, prefix, now, e)
    ensures
      var item := (Compound(agent, layer, e.key), e);
      item in EntriesOf(data, agent) && Reported(agent, layer, prefix, now)(item)
  {
    assert RepresentsAt(data, plain, now, Place(agent, layer, e.key));
    LookupFinds(EntriesOf(data, agent), Compound(agent, layer, e.key));
    PrefixSelectsLayer(agent, layer, layer, e.key);
  }

  lemma {:induction false} ReportedIsListable(data: Data, plain: Plain, agent: string, layer: Layer,
          prefix: Option<string>, now: real, item: (string, Entry))
    requires Represents(data, plain, now)
    requires item in EntriesOf(data, agent) && Reported(agent, layer, prefix, now)(item)
    ensures Listable(plain, agent, layer, prefix, now, item.1)
  {
    var items, e := EntriesOf(data, agent), item.1;
    assert WellFormedEntries(agent, items);
    var i :| 0 <= i < |items| && items[i] == item;
    PrefixSelectsLayer(agent, layer, e.layer, e.key);
    LookupOfMember(items, i);
    assert RepresentsAt(data, plain, now, Place(agent, layer, e.key));
  }

  /** What a listing may report: an entry of the layer that the prefix matches, that is the latest
      undeleted write to its place, and whose time to live, if it has one, has not passed. */
  ghost predicate MayBeListed(run: seq<Timed>, agent: string, layer: Layer, prefix: Option<string>, now: real, e: Entry)
  {
    && e.layer == layer
    && (prefix.Some? ==> prefix.value <= e.key)
    && Holds(run, Place(agent, layer, e.key), e)
    && (e.ttl <= 0 || now <= e.timestamp + e.ttl as real)
  }

  lemma {:induction false} ListableIff(run: seq<Timed>, agent: string, layer: Layer, prefix: Option<string>, now: real,
          e: Entry)
    ensures Listable(RunPlain(run), agent, layer, prefix, now, e) <==> MayBeListed(run, agent, layer, prefix, now, e)
  {
    PlainHolds(run, Place(agent, layer, e.key), e);
  }

  /** After any run under a monotone clock a listing reports only such entries, at most `limit` of
      them and at most one for a limit below one, and all of them unless it stops there: lazily
      purged or not, the same set. */
  lemma {:induction false} ListingIsPlain(run: seq<Timed>, agent: string, layer: Layer, prefix: Option<string>,
          limit: int, now: real)
    requires MonotoneClock(run, now)
    ensures
      var results := Listed(RunData(run), agent, layer, prefix, limit, now);
      var most := if limit >= 1 then limit else 1;
      && |results| <= most
      && (forall e :: e in results ==> MayBeListed(run, agent, layer, prefix, now, e))
      && (|results| < most ==> forall e :: MayBeListed(run, agent, layer, prefix, now, e) ==> e in results)
  {
    var data, plain := RunData(run), RunPlain(run);
    RunRefinesPlain(run, now);
    var items, p := EntriesOf(data, agent), Reported(agent, layer, prefix, now);
    SweepReports(items, agent, layer, prefix, now, Room(limit));
    FilterMembers(items, p);
    var chosen := Filter(items, p);
    assert FirstReports(items, p, Room(limit)) == Take(Map(chosen, EntryOf()), Room(limit));
    var results := Listed(data, agent, layer, prefix, limit, now);
    forall e
      ensures Listable(plain, agent, layer, prefix, now, e) <==> MayBeListed(run, agent, layer, prefix, now, e)
    {
      ListableIff(run, agent, layer, prefix, now, e);
    }
    forall e | e in results
      ensures Listable(plain, agent, layer, prefix, now, e)
    {
      var i :| 0 <= i < |results| && results[i] == e;
      assert chosen[i] in chosen;
      ReportedIsListable(data, plain, agent, layer, prefix, now, chosen[i]);
    }
    if |results| < Room(limit) {
      forall e | Listable(plain, agent, layer, prefix, now, e)
        ensures e in results
      {
        ListableIsReported(data, plain, agent, layer, prefix, now, e);
        var item := (Compound(agent, layer, e.key), e);
        assert item in chosen;
        var i :| 0 <= i < |chosen| && chosen[i] == item;
        assert results[i] == e;
      }
    }
  }
}
