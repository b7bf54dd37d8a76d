/** The bounded screener cache, against an unbounded map of the last successful stores. */
module ScreenerCache {
  import opened Options
  import opened ScreenerMerge

  /** Cached rows with when they were fetched, on the steady and on the wall clock (nanoseconds), and the
      approximate size of their storage. */
  datatype Entry = Entry(items: seq<Row>, fetchedAt: int, wallFetchedAt: int, bytes: nat)

  const MAX_ENTRIES: nat := 3
  const MAX_BYTES: nat := 2 * 1024 * 1024

  // ---------------------------------------------------------------- sizes

  ghost function TotalBytes(entries: map<string, Entry>): nat
    decreases |entries|
  {
    if entries == map[] then 0
    else
      var key :| key in entries;
      entries[key].bytes + TotalBytes(entries - {key})
  }

  /** The total does not depend on the order in which entries are counted. */
  lemma {:induction false} TotalWithout(entries: map<string, Entry>, key: string)
    requires key in entries
    ensures TotalBytes(entries) == entries[key].bytes + TotalBytes(entries - {key})
    decreases |entries|
  {
    var first :| first in entries && TotalBytes(entries) == entries[first].bytes + TotalBytes(entries - {first});
    if first != key {
      TotalWithout(entries - {first}, key);
      TotalWithout(entries - {key}, first);
      assert entries - {first} - {key} == entries - {key} - {first};
    }
  }

  lemma TotalWith(entries: map<string, Entry>, key: string, entry: Entry)
    requires key !in entries
    ensures TotalBytes(entries[key := entry]) == entry.bytes + TotalBytes(entries)
  {
    TotalWithout(entries[key := entry], key);
    assert entries[key := entry] - {key} == entries;
  }

  /** Fewer entries take no more room. */
  lemma {:induction false} TotalGrows(fewer: map<string, Entry>, more: map<string, Entry>)
    requires fewer.Keys <= more.Keys && forall key :: key in fewer ==> fewer[key] == more[key]
    ensures TotalBytes(fewer) <= TotalBytes(more) && |fewer| <= |more|
    decreases |fewer|
  {
    if fewer != map[] {
      var key :| key in fewer;
      TotalWithout(fewer, key);
      TotalWithout(more, key);
      TotalGrows(fewer - {key}, more - {key});
      SizeWithout(fewer, key);
      SizeWithout(more, key);
    }
  }

  lemma SizeWithout(entries: map<string, Entry>, key: string)
    requires key in entries
    ensures |entries - {key}| == |entries| - 1
  {
    assert entries == (entries - {key})[key := entries[key]];
  }

  // ---------------------------------------------------------------- eviction

  /** The entries leave room for one more of this size. */
  ghost predicate Fits(entries: map<string, Entry>, bytes: nat) {
    |entries| < MAX_ENTRIES && TotalBytes(entries) + bytes <= MAX_BYTES
  }

  /** The entries after some have been evicted. */
  function Without(entries: map<string, Entry>, evicted: set<string>): map<string, Entry> {
    entries - evicted
  }

  /** No evicted entry is newer than one that stays. */
  predicate OldestFirst(entries: map<string, Entry>, evicted: set<string>)
    requires evicted <= entries.Keys
  {
    forall gone, kept :: gone in evicted && kept in entries && kept !in evicted ==>
      entries[gone].fetchedAt <= entries[kept].fetchedAt
  }

  /** Entries evicted oldest first, none of them without need: no evicted one is newer than one that stays,
      and with the last of them there would be no room. */
  ghost predicate Evicting(entries: map<string, Entry>, bytes: nat, evicted: set<string>) {
    && evicted <= entries.Keys && OldestFirst(entries, evicted)
    && (evicted != {} ==> exists last :: LastEvicted(entries, bytes, evicted, last))
  }

  /** Evicted oldest first, as many as needed and no more. */
  ghost predicate Evicts(entries: map<string, Entry>, bytes: nat, evicted: set<string>) {
    Evicting(entries, bytes, evicted) && Fits(Without(entries, evicted), bytes)
  }

  ghost predicate LastEvicted(entries: map<string, Entry>, bytes: nat, evicted: set<string>, last: string) {
    && last in evicted && evicted <= entries.Keys
    && (forall gone :: gone in evicted ==> entries[gone].fetchedAt <= entries[last].fetchedAt)
    && !Fits(Without(entries, evicted - {last}), bytes)
  }

  /** What InsertCacheEntryLocked may leave, as the oldest of entries equally old may be any of them. */
  ghost predicate Inserted(entries: map<string, Entry>, key: string, entry: Entry, after: map<string, Entry>) {
    exists evicted :: Evicts(entries - {key}, entry.bytes, evicted)
                      && after == Without(entries - {key}, evicted)[key := entry]
  }

  /** With distinct fetch times the evicted entries are determined. */
  lemma EvictionIsDetermined(entries: map<string, Entry>, bytes: nat, a: set<string>, b: set<string>)
    requires Evicts(entries, bytes, a) && Evicts(entries, bytes, b)
    requires DistinctTimes(entries)
    ensures a == b
  {
    EvictsNoMore(entries, bytes, a, b);
    EvictsNoMore(entries, bytes, b, a);
  }

  predicate DistinctTimes(entries: map<string, Entry>) {
    forall x, y :: x in entries && y in entries && x != y ==> entries[x].fetchedAt != entries[y].fetchedAt
  }

  lemma EvictsNoMore(entries: map<string, Entry>, bytes: nat, a: set<string>, b: set<string>)
    requires Evicts(entries, bytes, a) && Evicts(entries, bytes, b) && DistinctTimes(entries)
    ensures a <= b
  {
    hide Fits;
    if extra :| extra in a && extra !in b {
      var last :| LastEvicted(entries, bytes, a, last);
      LastIsKept(entries, bytes, a, b, last, extra);
      OthersAreOlder(entries, bytes, a, b, last);
      FewerFit(Without(entries, a - {last}), Without(entries, b), bytes);
      assert false;
    }
  }

  lemma LastIsKept(entries: map<string, Entry>, bytes: nat, a: set<string>, b: set<string>, last: string, extra: string)
    requires Evicts(entries, bytes, b) && DistinctTimes(entries)
    requires LastEvicted(entries, bytes, a, last) && extra in a && extra !in b
    ensures last !in b
  {
    hide Fits;
    assert entries[extra].fetchedAt <= entries[last].fetchedAt;
  }

  lemma OthersAreOlder(entries: map<string, Entry>, bytes: nat, a: set<string>, b: set<string>, last: string)
    requires Evicts(entries, bytes, a) && Evicts(entries, bytes, b) && DistinctTimes(entries)
    requires last in a && last !in b
    ensures b <= a - {last}
  {
    hide Fits;
    forall gone | gone in b
      ensures gone in a
    {
      assert entries[gone].fetchedAt <= entries[last].fetchedAt;
    }
  }

  lemma FewerFit(fewer: map<string, Entry>, more: map<string, Entry>, bytes: nat)
    requires Fits(more, bytes) && fewer.Keys <= more.Keys && forall key :: key in fewer ==> fewer[key] == more[key]
    ensures Fits(fewer, bytes)
  {
    TotalGrows(fewer, more);
  }

  ghost predicate Bounded(entries: map<string, Entry>) {
    |entries| <= MAX_ENTRIES && TotalBytes(entries) <= MAX_BYTES
  }

  /** The cache holds some of the last stores, and only those. */
  predicate Refines(entries: map<string, Entry>, stored: map<string, Entry>) {
    forall key :: key in entries ==> key in stored && entries[key] == stored[key]
  }

  /** An insertion keeps the bounds, whatever there was before, and the refinement. */
  lemma InsertionKeepsBounds(entries: map<string, Entry>, key: string, entry: Entry, after: map<string, Entry>,
      stored: map<string, Entry>)
    requires Inserted(entries, key, entry, after) && Refines(entries, stored)
    ensures Bounded(after) && Refines(after, stored[key := entry]) && key in after && after[key] == entry
  {
    hide Fits, Bounded, Refines;
    var evicted :| Evicts(entries - {key}, entry.bytes, evicted)
                   && after == Without(entries - {key}, evicted)[key := entry];
    RoomForOne(Without(entries - {key}, evicted), key, entry);
    hide Evicts;
    StillRefines(entries, key, entry, evicted, stored);
  }

  lemma StillRefines(entries: map<string, Entry>, key: string, entry: Entry, evicted: set<string>,
      stored: map<string, Entry>)
    requires Refines(entries, stored)
    ensures Refines(Without(entries - {key}, evicted)[key := entry], stored[key := entry])
  {
  }

  lemma RoomForOne(kept: map<string, Entry>, key: string, entry: Entry)
    requires key !in kept && Fits(kept, entry.bytes)
    ensures Bounded(kept[key := entry])
  {
    TotalWith(kept, key, entry);
    SizeWithout(kept[key := entry], key);
    assert kept[key := entry] - {key} == kept;
  }

  // ---------------------------------------------------------------- operations

  /** What changes the cache: a store of fetched rows, an update of the trends of cached ones, a clear. */
  datatype Op =
    | Store(key: string, items: seq<Row>, bytes: nat, wallFetchedAt: int, wallNow: int, steadyNow: int)
    | UpdateTrends(key: string, items: seq<Row>, bytes: nat)
    | Clear

  predicate Succeeds(entries: map<string, Entry>, op: Op) {
    match op
    case Store(_, items, bytes, wallFetchedAt, wallNow, _) =>
      items != [] && bytes <= MAX_BYTES && wallFetchedAt != 0 && wallFetchedAt <= wallNow
    case UpdateTrends(key, items, bytes) => items != [] && bytes <= MAX_BYTES && key in entries
    case Clear => true
  }

  /** The entry a successful store or update puts in. */
  function EntryOf(entries: map<string, Entry>, op: Op): Entry
    requires !op.Clear? && Succeeds(entries, op)
  {
    match op
    case Store(_, items, bytes, wallFetchedAt, wallNow, steadyNow) =>
      Entry(items, steadyNow - (wallNow - wallFetchedAt), wallFetchedAt, bytes)
    case UpdateTrends(key, items, bytes) => entries[key].(items := items, bytes := bytes)
  }

  ghost predicate Next(entries: map<string, Entry>, op: Op, after: map<string, Entry>) {
    if op.Clear? then after == map[]
    else if Succeeds(entries, op) then Inserted(entries, op.key, EntryOf(entries, op), after)
    else after == entries
  }

  function Load(entries: map<string, Entry>, key: string, now: int, maximumAge: int): Option<seq<Row>> {
    if key !in entries || entries[key].items == [] || now - entries[key].fetchedAt >= maximumAge then None
    else Some(entries[key].items)
  }

  lemma NoneEvicted(entries: map<string, Entry>, bytes: nat)
    ensures Evicting(entries, bytes, {}) && Without(entries, {}) == entries
  {
  }

  /** Evicting the oldest of what is kept, there being no room. */
  lemma EvictOne(entries: map<string, Entry>, bytes: nat, evicted: set<string>, kept: map<string, Entry>,
        oldest: string)
    requires Evicting(entries, bytes, evicted) && kept == Without(entries, evicted) && oldest in kept
    requires forall key :: key in kept ==> kept[oldest].fetchedAt <= kept[key].fetchedAt
    requires |kept| >= MAX_ENTRIES || TotalBytes(kept) + bytes > MAX_BYTES
    ensures Evicting(entries, bytes, evicted + {oldest}) && kept - {oldest} == Without(entries, evicted + {oldest})
  {
    assert !Fits(kept, bytes);
    hide Fits, LastEvicted;
    NextIsOldest(entries, evicted, kept, oldest);
    LastIsOldest(entries, bytes, evicted, kept, oldest);
  }

  lemma NextIsOldest(entries: map<string, Entry>, evicted: set<string>, kept: map<string, Entry>, oldest: string)
    requires evicted <= entries.Keys && OldestFirst(entries, evicted)
    requires kept == Without(entries, evicted) && oldest in kept
    requires forall key :: key in kept ==> kept[oldest].fetchedAt <= kept[key].fetchedAt
    ensures OldestFirst(entries, evicted + {oldest})
    ensures forall gone :: gone in evicted ==> entries[gone].fetchedAt <= entries[oldest].fetchedAt
    ensures kept - {oldest} == Without(entries, evicted + {oldest})
  {
    forall key | key in entries && key !in evicted
      ensures entries[oldest].fetchedAt <= entries[key].fetchedAt
    {
      assert key in kept;
    }
  }

  lemma LastIsOldest(entries: map<string, Entry>, bytes: nat, evicted: set<string>, kept: map<string, Entry>,
        oldest: string)
    requires evicted <= entries.Keys && kept == Without(entries, evicted) && oldest in kept && !Fits(kept, bytes)
    requires forall gone :: gone in evicted ==> entries[gone].fetchedAt <= entries[oldest].fetchedAt
    ensures LastEvicted(entries, bytes, evicted + {oldest}, oldest)
  {
    hide Fits;
    assert evicted + {oldest} - {oldest} == evicted;
  }

  lemma EvictionEnds(entries: map<string, Entry>, key: string, entry: Entry, evicted: set<string>)
    requires entry.bytes <= MAX_BYTES && Evicting(entries - {key}, entry.bytes, evicted)
    requires var kept := Without(entries - {key}, evicted);
             kept == map[] || (|kept| < MAX_ENTRIES && TotalBytes(kept) <= MAX_BYTES - entry.bytes)
    ensures Inserted(entries, key, entry, Without(entries - {key}, evicted)[key := entry])
  {
    hide Evicts;
    assert Evicts(entries - {key}, entry.bytes, evicted) by { RoomAtLast(entries - {key}, entry.bytes, evicted); }
  }

  lemma RoomAtLast(entries: map<string, Entry>, bytes: nat, evicted: set<string>)
    requires bytes <= MAX_BYTES && Evicting(entries, bytes, evicted)
    requires var kept := Without(entries, evicted);
             kept == map[] || (|kept| < MAX_ENTRIES && TotalBytes(kept) <= MAX_BYTES - bytes)
    ensures Evicts(entries, bytes, evicted)
  {
  }

  class ScreenerCache {
    var entries: map<string, Entry>

    constructor ()
      ensures entries == map[]
    {
      entries := map[];
    }

    method LoadForRefresh(key: string, now: int, maximumAge: int) returns (items: Option<seq<Row>>)
      ensures items == Load(entries, key, now, maximumAge)
    {
      if key !in entries || entries[key].items == [] || now - entries[key].fetchedAt >= maximumAge {
        return None;
      }
      return Some(entries[key].items);
    }

    method CachedBytes() returns (bytes: nat)
      ensures bytes == TotalBytes(entries)
    {
      bytes := 0;
      var unseen := entries;
      while unseen != map[]
        invariant bytes + TotalBytes(unseen) == TotalBytes(entries)
        decreases |unseen|
      {
        var key :| key in unseen;
        TotalWithout(unseen, key);
        SizeWithout(unseen, key);
        bytes := bytes + unseen[key].bytes;
        unseen := unseen - {key};
      }
    }

    /** The search for the entry fetched first. */
    method Oldest() returns (oldest: string)
      requires entries != map[]
      ensures oldest in entries && forall key :: key in entries ==> entries[oldest].fetchedAt <= entries[key].fetchedAt
    {
      oldest :| oldest in entries;
      var unseen := entries.Keys - {oldest};
      while unseen != {}
        invariant oldest in entries && unseen <= entries.Keys
        invariant forall key :: key in entries && key !in unseen ==> entries[oldest].fetchedAt <= entries[key].fetchedAt
        decreases |unseen|
      {
        var key :| key in unseen;
        unseen := unseen - {key};
        if entries[key].fetchedAt < entries[oldest].fetchedAt {
          oldest := key;
        }
      }
    }

    /** InsertCacheEntryLocked: evict the oldest until there is room. */
    method Insert(key: string, entry: Entry)
      requires entry.bytes <= MAX_BYTES
      modifies this
      ensures Inserted(old(entries), key, entry, entries)
    {
      hide Evicting, Without, Fits, Inserted, Evicts;
      entries := entries - {key};
      ghost var base := entries;
      ghost var evicted: set<string> := {};
      NoneEvicted(base, entry.bytes);
      var cachedBytes := CachedBytes();
      while entries != map[] && (|entries| >= MAX_ENTRIES || cachedBytes > MAX_BYTES - entry.bytes)
        invariant Evicting(base, entry.bytes, evicted) && entries == Without(base, evicted)
        invariant cachedBytes == TotalBytes(entries)
        decreases |entries|
      {
        var oldest := Oldest();
        TotalWithout(entries, oldest);
        SizeWithout(entries, oldest);
        EvictOne(base, entry.bytes, evicted, entries, oldest);
        cachedBytes := cachedBytes - entries[oldest].bytes;
        evicted := evicted + {oldest};
        entries := entries - {oldest};
      }
      EvictionEnds(old(entries), key, entry, evicted);
      entries := entries[key := entry];
    }

    method Store(key: string, items: seq<Row>, bytes: nat, wallFetchedAt: int, wallNow: int, steadyNow: int)
      returns (stored: bool)
      modifies this
      ensures var op := Op.Store(key, items, bytes, wallFetchedAt, wallNow, steadyNow);
              Next(old(entries), op, entries) && (stored <==> Succeeds(old(entries), op))
    {
      if items == [] || bytes > MAX_BYTES {
        return false;
      }
      if wallFetchedAt == 0 || wallFetchedAt > wallNow {
        return false;
      }
      var steadyAge := wallNow - wallFetchedAt;
      Insert(key, Entry(items, steadyNow - steadyAge, wallFetchedAt, bytes));
      return true;
    }

    method UpdateTrends(key: string, items: seq<Row>, bytes: nat) returns (wallFetchedAt: Option<int>)
      modifies this
      ensures var op := Op.UpdateTrends(key, items, bytes);
              Next(old(entries), op, entries)
              && wallFetchedAt == if Succeeds(old(entries), op) then Some(old(entries)[key].wallFetchedAt) else None
    {
      if items == [] || bytes > MAX_BYTES || key !in entries {
        return None;
      }
      var cached := entries[key];
      Insert(key, Entry(items, cached.fetchedAt, cached.wallFetchedAt, bytes));
      return Some(cached.wallFetchedAt);
    }

    method Clear()
      modifies this
      ensures Next(old(entries), Op.Clear, entries)
    {
      entries := map[];
    }
  }

  // ---------------------------------------------------------------- runs

  ghost predicate IsRun(run: seq<map<string, Entry>>, ops: seq<Op>) {
    && |run| == |ops| + 1 && run[0] == map[]
    && forall i :: 0 <= i < |ops| ==> Next(run[i], ops[i], run[i + 1])
  }

  /** Step i put an entry in for this key. */
  predicate Puts(run: seq<map<string, Entry>>, ops: seq<Op>, i: nat, key: string)
    requires i < |ops| && i < |run|
  {
    !ops[i].Clear? && ops[i].key == key && Succeeds(run[i], ops[i])
  }

  /** The rows of the last successful store or update for a key in the first i steps. */
  function LastRows(run: seq<map<string, Entry>>, ops: seq<Op>, i: nat, key: string): Option<seq<Row>>
    requires i <= |ops| && |run| == |ops| + 1
  {
    if i == 0 then None
    else if Puts(run, ops, i - 1, key) then Some(ops[i - 1].items)
    else LastRows(run, ops, i - 1, key)
  }

  /** When the rows of the last successful store for a key had been fetched; updates do not count. */
  function LastFetched(run: seq<map<string, Entry>>, ops: seq<Op>, i: nat, key: string): Option<int>
    requires i <= |ops| && |run| == |ops| + 1
  {
    if i == 0 then None
    else if Puts(run, ops, i - 1, key) && ops[i - 1].Store? then Some(EntryOf(run[i - 1], ops[i - 1]).fetchedAt)
    else LastFetched(run, ops, i - 1, key)
  }

  lemma AfterInsert(entries: map<string, Entry>, key: string, entry: Entry, after: map<string, Entry>)
    requires Inserted(entries, key, entry, after)
    ensures key in after && after[key] == entry && Bounded(after)
    ensures forall k :: k in after && k != key ==> k in entries && after[k] == entries[k]
  {
    InsertionKeepsBounds(entries, key, entry, after, entries);
  }

  lemma {:induction false} CacheFollowsStores(run: seq<map<string, Entry>>, ops: seq<Op>, i: nat)
    requires IsRun(run, ops) && i <= |ops|
    ensures Bounded(run[i])
    ensures forall key :: key in run[i] ==>
              LastRows(run, ops, i, key) == Some(run[i][key].items)
              && LastFetched(run, ops, i, key) == Some(run[i][key].fetchedAt)
  {
    hide Inserted, Bounded;
    if i == 0 {
      assert Bounded(run[0]) by { EmptyIsBounded(); }
    } else {
      CacheFollowsStores(run, ops, i - 1);
      var op := ops[i - 1];
      assert Next(run[i - 1], op, run[i]);
      if op.Clear? {
        EmptyIsBounded();
      } else if Succeeds(run[i - 1], op) {
        AfterInsert(run[i - 1], op.key, EntryOf(run[i - 1], op), run[i]);
      }
    }
  }

  lemma EmptyIsBounded()
    ensures Bounded(map[])
  {
  }

  /** A hit returns exactly the rows of the last successful store or update for that key, and only while the
      data of the last store are younger than the age asked for: updates never make them look fresher. */
  lemma HitIsLastStore(run: seq<map<string, Entry>>, ops: seq<Op>, i: nat, key: string, now: int, maximumAge: int)
    requires IsRun(run, ops) && i <= |ops| && Load(run[i], key, now, maximumAge).Some?
    ensures Load(run[i], key, now, maximumAge) == LastRows(run, ops, i, key)
    ensures var fetched := LastFetched(run, ops, i, key); fetched.Some? && now - fetched.value < maximumAge
  {
    hide LastRows, LastFetched, IsRun;
    CacheFollowsStores(run, ops, i);
  }

  /** The last successful store for a key in the first i steps. */
  function LastStore(run: seq<map<string, Entry>>, ops: seq<Op>, i: nat, key: string): (k: Option<nat>)
    requires i <= |ops| && |run| == |ops| + 1
    ensures k.Some? ==> k.value < i && ops[k.value].Store? && ops[k.value].key == key
  {
    if i == 0 then None
    else if Puts(run, ops, i - 1, key) && ops[i - 1].Store? then Some(i - 1)
    else LastStore(run, ops, i - 1, key)
  }

  /** The wall clock and the steady clock advance together: the stores read both at the same distance. */
  predicate ClocksAgree(ops: seq<Op>, distance: int) {
    forall k :: 0 <= k < |ops| && ops[k].Store? ==> ops[k].wallNow == ops[k].steadyNow + distance
  }

  /** What a cached entry owes to the store its rows came in with. */
  predicate Dated(run: seq<map<string, Entry>>, ops: seq<Op>, i: nat, key: string, distance: int)
    requires i <= |ops| && |run| == |ops| + 1 && key in run[i]
  {
    var k := LastStore(run, ops, i, key);
    && k.Some? && run[i][key].items != []
    && run[i][key].wallFetchedAt == ops[k.value].wallFetchedAt == run[i][key].fetchedAt + distance
    && 0 != ops[k.value].wallFetchedAt <= ops[k.value].wallNow
  }

  lemma {:induction false} EntriesAreDated(run: seq<map<string, Entry>>, ops: seq<Op>, i: nat, distance: int)
    requires IsRun(run, ops) && i <= |ops| && ClocksAgree(ops, distance)
    ensures forall key :: key in run[i] ==> Dated(run, ops, i, key, distance)
  {
    hide Inserted;
    if i > 0 {
      EntriesAreDated(run, ops, i - 1, distance);
      var op := ops[i - 1];
      assert Next(run[i - 1], op, run[i]);
      if !op.Clear? && Succeeds(run[i - 1], op) {
        AfterInsert(run[i - 1], op.key, EntryOf(run[i - 1], op), run[i]);
      }
      forall key | key in run[i]
        ensures Dated(run, ops, i, key, distance)
      {
        if key in run[i - 1] {
          assert Dated(run, ops, i - 1, key, distance);
        }
      }
    }
  }

  /** A cached screener is shown exactly while its data, dated by the wall time given to its last successful
      store, are younger than the age asked for. Trend updates in between do not matter. */
  lemma HitIsFresh(run: seq<map<string, Entry>>, ops: seq<Op>, i: nat, key: string, now: int, maximumAge: int,
        distance: int)
    requires IsRun(run, ops) && i <= |ops| && ClocksAgree(ops, distance)
    ensures Load(run[i], key, now, maximumAge).Some? ==> key in run[i]
    ensures key in run[i] ==>
              var k := LastStore(run, ops, i, key);
              k.Some? && (Load(run[i], key, now, maximumAge).Some?
                          <==> now + distance - ops[k.value].wallFetchedAt < maximumAge)
  {
    hide LastStore;
    EntriesAreDated(run, ops, i, distance);
    assert key in run[i] ==> Dated(run, ops, i, key, distance);
  }

  /** Rows come in exactly if there are some, of at most 2 MiB, with a wall time set and not in the future. */
  lemma StoreTakes(entries: map<string, Entry>, op: Op, after: map<string, Entry>)
    requires op.Store? && Next(entries, op, after)
    ensures if op.items != [] && op.bytes <= 2097152 && op.wallFetchedAt != 0 && op.wallFetchedAt <= op.wallNow
            then op.key in after && after[op.key].items == op.items
            else after == entries
  {
    if Succeeds(entries, op) {
      AfterInsert(entries, op.key, EntryOf(entries, op), after);
    }
  }

  /** An update of trends replaces the rows of a cached key and nothing else about them. */
  lemma UpdateTakes(entries: map<string, Entry>, op: Op, after: map<string, Entry>)
    requires op.UpdateTrends? && Next(entries, op, after)
    ensures if op.items != [] && op.bytes <= 2097152 && op.key in entries
            then op.key in after && after[op.key].items == op.items
                 && after[op.key].wallFetchedAt == entries[op.key].wallFetchedAt
            else after == entries
  {
    if Succeeds(entries, op) {
      AfterInsert(entries, op.key, EntryOf(entries, op), after);
    }
  }

  /** Making room: of two other screeners, one evicted and one kept, the evicted one's data are no younger, by the
      wall times given to their last stores. */
  lemma OldestDataGoFirst(run: seq<map<string, Entry>>, ops: seq<Op>, i: nat, gone: string, kept: string,
        distance: int)
    requires IsRun(run, ops) && i < |ops| && ClocksAgree(ops, distance) && !ops[i].Clear?
    requires gone in run[i] && gone !in run[i + 1] && kept in run[i] && kept in run[i + 1] && kept != ops[i].key
    ensures var g, k := LastStore(run, ops, i, gone), LastStore(run, ops, i, kept);
            g.Some? && k.Some? && ops[g.value].wallFetchedAt <= ops[k.value].wallFetchedAt
  {
    hide LastStore, Fits;
    assert Next(run[i], ops[i], run[i + 1]);
    EntriesAreDated(run, ops, i, distance);
    assert Dated(run, ops, i, gone, distance) && Dated(run, ops, i, kept, distance);
    hide IsRun, Dated;
    GoneIsOlder(run[i], ops[i].key, EntryOf(run[i], ops[i]), run[i + 1], gone, kept);
  }

  lemma GoneIsOlder(entries: map<string, Entry>, key: string, entry: Entry, after: map<string, Entry>, gone: string,
        kept: string)
    requires Inserted(entries, key, entry, after) && gone in entries && gone !in after
    requires kept in entries && kept in after && kept != key
    ensures entries[gone].fetchedAt <= entries[kept].fetchedAt
  {
    hide Fits;
    var base := entries - {key};
    var evicted :| Evicts(base, entry.bytes, evicted) && after == Without(base, evicted)[key := entry];
    assert gone in evicted && kept !in evicted;
    assert entries[gone].fetchedAt == base[gone].fetchedAt && entries[kept].fetchedAt == base[kept].fetchedAt;
  }

  /** With room for everything nothing is evicted. */
  lemma EvictedForWant(entries: map<string, Entry>, op: Op, after: map<string, Entry>, gone: string)
    requires !op.Clear? && Next(entries, op, after) && gone in entries && gone !in after
    ensures |entries - {op.key}| >= 3 || TotalBytes(entries - {op.key}) + op.bytes > 2097152
  {
    hide Fits;
    var base, bytes := entries - {op.key}, op.bytes;
    var entry := EntryOf(entries, op);
    var evicted :| Evicts(base, bytes, evicted) && after == Without(base, evicted)[op.key := entry];
    assert gone in evicted;
    var last :| LastEvicted(base, bytes, evicted, last);
    if Fits(base, bytes) {
      FewerFit(Without(base, evicted - {last}), base, bytes);
      assert false;
    }
    NoRoom(base, bytes);
  }

  lemma NoRoom(entries: map<string, Entry>, bytes: nat)
    requires !Fits(entries, bytes)
    ensures |entries| >= MAX_ENTRIES || TotalBytes(entries) + bytes > MAX_BYTES
  {
  }

  /** At most three entries and two megabytes are ever held. */
  lemma CacheIsBounded(run: seq<map<string, Entry>>, ops: seq<Op>, i: nat)
    requires IsRun(run, ops) && i <= |ops|
    ensures |run[i]| <= 3 && TotalBytes(run[i]) <= 2097152
  {
    CacheFollowsStores(run, ops, i);
  }
}
