/** `MockKnowledgeStore`: an in-memory knowledge store. Entries live in a
    dictionary keyed by id and are visited in insertion order; search is a
    case-insensitive substring match on the content, and no facts are ever
    extracted. `create_knowledge_store` lives here too because its only
    successful outcome builds this store. */
module MockStore {
  import opened Wrappers
  import opened PyStrings
  import opened KnowledgeStore

  const NotInitialized := "Knowledge store not initialized"

  /** The store: the ids of `_entries` in insertion order, the dictionary
      itself, and `_initialized` */
  datatype Store = Store(order: seq<string>, entries: map<string, Entry>, initialized: bool)

  /** A store right after `__init__`, and after `close` */
  const EmptyStore: Store := Store([], map[], false)

  predicate NoDuplicates(ids: seq<string>) {
    forall i, j :: 0 <= i < j < |ids| ==> ids[i] != ids[j]
  }

  /** The insertion order lists each key of the dictionary once, and every
      entry is stored under its own id */
  ghost predicate WellFormed(s: Store) {
    && NoDuplicates(s.order)
    && (forall k :: k in s.order <==> k in s.entries)
    && (forall k :: k in s.entries ==> s.entries[k].id == k)
  }

  /** The dictionary's values, visited in the given key order */
  function ValuesOf(order: seq<string>, entries: map<string, Entry>): seq<Entry>
    decreases |order|
  {
    if order == [] then []
    else (if order[0] in entries then [entries[order[0]]] else []) + ValuesOf(order[1..], entries)
  }

  /** `_entries.values()` */
  function Values(s: Store): seq<Entry> {
    ValuesOf(s.order, s.entries)
  }

  /** When every key of `order` is in the dictionary, the values are the
      entries under those keys, position by position */
  lemma {:induction false} ValuesIndexed(order: seq<string>, entries: map<string, Entry>)
    requires forall k :: k in order ==> k in entries
    ensures |ValuesOf(order, entries)| == |order|
    ensures forall i :: 0 <= i < |order| ==> ValuesOf(order, entries)[i] == entries[order[i]]
    decreases |order|
  {
    if order != [] {
      ValuesIndexed(order[1..], entries);
    }
  }

  // ---------------------------------------------------------------------
  // Filters
  // ---------------------------------------------------------------------

  /** `query.lower() in entry.content.lower()` */
  predicate Matches(e: Entry, query: string) {
    Contains(Lower(e.content), Lower(query))
  }

  /** Every entry of `vals` that matches `query`, in order */
  function Matching(vals: seq<Entry>, query: string): seq<Entry>
    decreases |vals|
  {
    if vals == [] then []
    else (if Matches(vals[0], query) then [vals[0]] else []) + Matching(vals[1..], query)
  }

  /** `start_date <= entry.timestamp <= end_date`, a missing bound being no bound */
  predicate InRange(e: Entry, start: Option<Timestamp>, end: Option<Timestamp>) {
    (start.None? || start.value <= e.timestamp) && (end.None? || e.timestamp <= end.value)
  }

  /** Every entry of `vals` within the range, in order */
  function Within(vals: seq<Entry>, start: Option<Timestamp>, end: Option<Timestamp>): seq<Entry>
    decreases |vals|
  {
    if vals == [] then []
    else (if InRange(vals[0], start, end) then [vals[0]] else []) + Within(vals[1..], start, end)
  }

  lemma {:induction false} MatchingAppend(xs: seq<Entry>, ys: seq<Entry>, query: string)
    ensures Matching(xs + ys, query) == Matching(xs, query) + Matching(ys, query)
    decreases |xs|
  {
    if xs != [] {
      assert (xs + ys)[1..] == xs[1..] + ys;
      MatchingAppend(xs[1..], ys, query);
      var head := if Matches(xs[0], query) then [xs[0]] else [];
      assert Matching(xs + ys, query) == head + (Matching(xs[1..], query) + Matching(ys, query));
    } else {
      assert xs + ys == ys;
    }
  }

  lemma {:induction false} WithinAppend(xs: seq<Entry>, ys: seq<Entry>, start: Option<Timestamp>, end: Option<Timestamp>)
    ensures Within(xs + ys, start, end) == Within(xs, start, end) + Within(ys, start, end)
    decreases |xs|
  {
    if xs != [] {
      assert (xs + ys)[1..] == xs[1..] + ys;
      WithinAppend(xs[1..], ys, start, end);
      var head := if InRange(xs[0], start, end) then [xs[0]] else [];
      assert Within(xs + ys, start, end) == head + (Within(xs[1..], start, end) + Within(ys, start, end));
    } else {
      assert xs + ys == ys;
    }
  }

  /** `Matching` keeps exactly the matching entries, in their order */
  lemma {:induction false} MatchingSound(vals: seq<Entry>, query: string)
    ensures forall e :: e in Matching(vals, query) <==> e in vals && Matches(e, query)
    ensures |Matching(vals, query)| <= |vals|
    decreases |vals|
  {
    if vals != [] {
      MatchingSound(vals[1..], query);
      assert vals == [vals[0]] + vals[1..];
    }
  }

  /** `Within` keeps exactly the entries within the range, in their order */
  lemma {:induction false} WithinSound(vals: seq<Entry>, start: Option<Timestamp>, end: Option<Timestamp>)
    ensures forall e :: e in Within(vals, start, end) <==> e in vals && InRange(e, start, end)
    ensures |Within(vals, start, end)| <= |vals|
    decreases |vals|
  {
    if vals != [] {
      WithinSound(vals[1..], start, end);
      assert vals == [vals[0]] + vals[1..];
    }
  }

  /** One more entry visited by the collecting loop of `search` */
  lemma MatchingStep(vals: seq<Entry>, i: nat, query: string)
    requires i < |vals|
    ensures Matching(vals[..i + 1], query) == Matching(vals[..i], query) + (if Matches(vals[i], query) then [vals[i]] else [])
  {
    assert vals[..i + 1] == vals[..i] + [vals[i]];
    MatchingAppend(vals[..i], [vals[i]], query);
  }

  /** One more entry visited by the collecting loop of `get_entries_by_date` */
  lemma WithinStep(vals: seq<Entry>, i: nat, start: Option<Timestamp>, end: Option<Timestamp>)
    requires i < |vals|
    ensures Within(vals[..i + 1], start, end) == Within(vals[..i], start, end) + (if InRange(vals[i], start, end) then [vals[i]] else [])
  {
    assert vals[..i + 1] == vals[..i] + [vals[i]];
    WithinAppend(vals[..i], [vals[i]], start, end);
  }

  /** Stopping after a prefix that already holds `n` matches keeps the first `n` matches */
  lemma MatchingCut(vals: seq<Entry>, i: nat, n: nat, query: string)
    requires i <= |vals| && |Matching(vals[..i], query)| == n
    ensures Take(Matching(vals, query), n) == Matching(vals[..i], query)
  {
    assert vals == vals[..i] + vals[i..];
    MatchingAppend(vals[..i], vals[i..], query);
  }

  /** Stopping after a prefix that already holds `n` entries in range keeps the first `n` of them */
  lemma WithinCut(vals: seq<Entry>, i: nat, n: nat, start: Option<Timestamp>, end: Option<Timestamp>)
    requires i <= |vals| && |Within(vals[..i], start, end)| == n
    ensures Take(Within(vals, start, end), n) == Within(vals[..i], start, end)
  {
    assert vals == vals[..i] + vals[i..];
    WithinAppend(vals[..i], vals[i..], start, end);
  }

  /** How many entries the collecting loops keep: they stop once the list
      holds `limit` entries, checked after each append, so a limit below 1
      still lets the first entry through */
  function Cap(limit: int): nat {
    if limit < 1 then 1 else limit
  }

  /** The first `n` elements of `xs`, or all of them */
  function Take<T>(xs: seq<T>, n: nat): seq<T> {
    if |xs| <= n then xs else xs[..n]
  }

  // ---------------------------------------------------------------------
  // Sorting by timestamp, newest first
  // ---------------------------------------------------------------------

  /** `e` placed before the first entry of `sorted` that is not newer */
  function Insert(e: Entry, sorted: seq<Entry>): seq<Entry>
    decreases |sorted|
  {
    if sorted == [] || e.timestamp >= sorted[0].timestamp then [e] + sorted
    else [sorted[0]] + Insert(e, sorted[1..])
  }

  /** `sort(key=timestamp, reverse=True)`: a stable sort, newest first */
  function NewestFirst(xs: seq<Entry>): seq<Entry>
    decreases |xs|
  {
    if xs == [] then [] else Insert(xs[0], NewestFirst(xs[1..]))
  }

  predicate Descending(xs: seq<Entry>) {
    forall i, j :: 0 <= i < j < |xs| ==> xs[i].timestamp >= xs[j].timestamp
  }

  /** An entry no older than the head of a descending list can go before it */
  lemma PrependDescending(x: Entry, xs: seq<Entry>)
    requires Descending(xs)
    requires xs != [] ==> x.timestamp >= xs[0].timestamp
    ensures Descending([x] + xs)
  {
    var r := [x] + xs;
    forall i, j | 0 <= i < j < |r| ensures r[i].timestamp >= r[j].timestamp {
      if i == 0 {
        assert r[j] == xs[j - 1];
        if j - 1 > 0 {
          assert xs[0].timestamp >= xs[j - 1].timestamp;
        }
      } else {
        assert r[i] == xs[i - 1] && r[j] == xs[j - 1];
      }
    }
  }

  lemma DescendingTail(xs: seq<Entry>)
    requires Descending(xs) && xs != []
    ensures Descending(xs[1..])
  {
    var rest := xs[1..];
    forall i, j | 0 <= i < j < |rest| ensures rest[i].timestamp >= rest[j].timestamp {
      assert rest[i] == xs[i + 1] && rest[j] == xs[j + 1];
    }
  }

  /** Inserting adds exactly the one entry */
  lemma {:induction false} InsertPermutes(e: Entry, sorted: seq<Entry>)
    ensures multiset(Insert(e, sorted)) == multiset{e} + multiset(sorted)
    decreases |sorted|
  {
    if sorted != [] && e.timestamp < sorted[0].timestamp {
      InsertPermutes(e, sorted[1..]);
      assert sorted == [sorted[0]] + sorted[1..];
    }
  }

  /** Inserting into a list that is newest first keeps it newest first */
  lemma {:induction false} InsertSound(e: Entry, sorted: seq<Entry>)
    requires Descending(sorted)
    ensures Descending(Insert(e, sorted))
    ensures Insert(e, sorted)[0] == e || (sorted != [] && Insert(e, sorted)[0] == sorted[0])
    decreases |sorted|
  {
    if sorted == [] || e.timestamp >= sorted[0].timestamp {
      PrependDescending(e, sorted);
    } else {
      var rest := sorted[1..];
      DescendingTail(sorted);
      InsertSound(e, rest);
      var ins := Insert(e, rest);
      assert ins[0].timestamp <= sorted[0].timestamp by {
        if ins[0] != e {
          assert ins[0] == sorted[1];
        }
      }
      PrependDescending(sorted[0], ins);
    }
  }

  /** The sort yields the same entries, newest first */
  lemma {:induction false} NewestFirstSound(xs: seq<Entry>)
    ensures Descending(NewestFirst(xs))
    ensures multiset(NewestFirst(xs)) == multiset(xs)
    decreases |xs|
  {
    if xs != [] {
      NewestFirstSound(xs[1..]);
      InsertSound(xs[0], NewestFirst(xs[1..]));
      InsertPermutes(xs[0], NewestFirst(xs[1..]));
      assert xs == [xs[0]] + xs[1..];
    }
  }

  // ---------------------------------------------------------------------
  // The operations on values
  // ---------------------------------------------------------------------

  /** `initialize` */
  function InitializeSpec(s: Store): Store {
    s.(initialized := true)
  }

  /** `add_entry`: `newId` is the freshly drawn `uuid4` and `now` the clock
      reading used when no timestamp is given. Storing under a key already
      present replaces that entry and keeps its place in the order. */
  function AddSpec(s: Store, content: string, timestamp: Option<Timestamp>, metadata: Option<Metadata>,
                   newId: string, now: Timestamp): (Store, Result<Entry, StoreError>)
  {
    if !s.initialized then (s, Err(RuntimeError(NotInitialized)))
    else
      var e := NewEntry(newId, content, timestamp.GetOr(now), Some(metadata.GetOr(map[])), []);
      var order := if newId in s.entries then s.order else s.order + [newId];
      (s.(order := order, entries := s.entries[newId := e]), Ok(e))
  }

  /** `search` */
  function SearchSpec(s: Store, query: string, limit: int, includeEntries: bool): Result<SearchResult, StoreError> {
    if !s.initialized then Err(RuntimeError(NotInitialized))
    else
      var matching := Take(Matching(Values(s), query), Cap(limit));
      Ok(NewSearchResult([], if includeEntries then matching else [], query, |matching|))
  }

  /** `get_entry` */
  function GetSpec(s: Store, entryId: string): Result<Option<Entry>, StoreError> {
    if !s.initialized then Err(RuntimeError(NotInitialized))
    else if entryId in s.entries then Ok(Some(s.entries[entryId]))
    else Ok(None)
  }

  /** `get_entries_by_date` */
  function ByDateSpec(s: Store, start: Option<Timestamp>, end: Option<Timestamp>, limit: int): Result<seq<Entry>, StoreError> {
    if !s.initialized then Err(RuntimeError(NotInitialized))
    else Ok(NewestFirst(Take(Within(Values(s), start, end), Cap(limit))))
  }

  /** `close` */
  function CloseSpec(s: Store): Store {
    EmptyStore
  }

  /** `update_entry_metadata`: the given keys are merged into the entry's
      metadata, overriding the ones it had; the store need not be initialised */
  function UpdateSpec(s: Store, entryId: string, metadata: Metadata): (Store, bool) {
    if entryId in s.entries then
      var e := s.entries[entryId];
      (s.(entries := s.entries[entryId := e.(metadata := e.metadata + metadata)]), true)
    else (s, false)
  }

  /** `ids` without `id` */
  function Without(ids: seq<string>, id: string): seq<string>
    decreases |ids|
  {
    if ids == [] then []
    else (if ids[0] == id then [] else [ids[0]]) + Without(ids[1..], id)
  }

  /** `delete_entry`; the store need not be initialised */
  function DeleteSpec(s: Store, entryId: string): (Store, bool) {
    if entryId in s.entries then (s.(order := Without(s.order, entryId), entries := s.entries - {entryId}), true)
    else (s, false)
  }

  // ---------------------------------------------------------------------
  // Properties
  // ---------------------------------------------------------------------

  /** Every operation but `update_entry_metadata` and `delete_entry` raises
      on a store that is not initialised */
  lemma UninitializedRaises(s: Store, content: string, timestamp: Option<Timestamp>, metadata: Option<Metadata>,
                            newId: string, now: Timestamp, query: string, limit: int, includeEntries: bool,
                            start: Option<Timestamp>, end: Option<Timestamp>)
    requires !s.initialized
    ensures AddSpec(s, content, timestamp, metadata, newId, now) == (s, Err(RuntimeError(NotInitialized)))
    ensures SearchSpec(s, query, limit, includeEntries) == Err(RuntimeError(NotInitialized))
    ensures GetSpec(s, newId) == Err(RuntimeError(NotInitialized))
    ensures ByDateSpec(s, start, end, limit) == Err(RuntimeError(NotInitialized))
  {
  }

  lemma {:induction false} ValuesAppend(order: seq<string>, entries: map<string, Entry>, id: string, e: Entry)
    requires id !in order
    ensures ValuesOf(order + [id], entries[id := e]) == ValuesOf(order, entries) + [e]
    decreases |order|
  {
    var m := entries[id := e];
    var o := order + [id];
    if order == [] {
      assert o == [id] && o[1..] == [];
      assert ValuesOf(o, m) == [e] + ValuesOf([], m);
    } else {
      var k := order[0];
      assert o[0] == k && o[1..] == order[1..] + [id];
      assert k != id && (k in m <==> k in entries);
      ValuesAppend(order[1..], entries, id, e);
      var head := if k in entries then [entries[k]] else [];
      assert head == if k in m then [m[k]] else [];
      assert ValuesOf(o, m) == head + (ValuesOf(order[1..], entries) + [e]);
      assert ValuesOf(order, entries) == head + ValuesOf(order[1..], entries);
    }
  }

  /** A new entry gets the requested content, the given timestamp or else
      the current time, the given metadata or else an empty dictionary, and
      no facts; `get_entry` then finds it under its id, and with a fresh id
      it comes last in the store's order */
  lemma AddSound(s: Store, content: string, timestamp: Option<Timestamp>, metadata: Option<Metadata>,
                 newId: string, now: Timestamp)
    requires s.initialized && WellFormed(s)
    ensures var (s', r) := AddSpec(s, content, timestamp, metadata, newId, now);
            && r.Ok?
            && r.value == Entry(newId, content, timestamp.GetOr(now), metadata.GetOr(map[]), [])
            && GetSpec(s', newId) == Ok(Some(r.value))
            && WellFormed(s')
            && (newId !in s.entries ==> Values(s') == Values(s) + [r.value])
  {
    var (s', r) := AddSpec(s, content, timestamp, metadata, newId, now);
    if newId !in s.entries {
      ValuesAppend(s.order, s.entries, newId, r.value);
      assert WellFormed(s') by {
        forall i, j | 0 <= i < j < |s'.order| ensures s'.order[i] != s'.order[j] {
          if j == |s.order| {
            assert s'.order[i] == s.order[i];
            assert s.order[i] in s.order;
          } else {
            assert s'.order[i] == s.order[i] && s'.order[j] == s.order[j];
          }
        }
      }
    }
  }

  /** A search answers with the matching entries in store order, cut off
      after the cap; the total counts what was kept whether or not the
      entries are included, and the mock never returns facts */
  lemma SearchSound(s: Store, query: string, limit: int, includeEntries: bool)
    requires s.initialized
    ensures var r := SearchSpec(s, query, limit, includeEntries);
            var all := Matching(Values(s), query);
            && r.Ok?
            && r.value.facts == [] && r.value.query == query
            && r.value.totalResults == (if |all| <= Cap(limit) then |all| else Cap(limit))
            && (includeEntries ==> r.value.entries == all[..r.value.totalResults])
            && (!includeEntries ==> r.value.entries == [])
            && (forall e :: e in r.value.entries ==> e in Values(s) && Matches(e, query))
  {
    var all := Matching(Values(s), query);
    MatchingSound(Values(s), query);
    assert all[..|all|] == all;
    var kept := Take(all, Cap(limit));
    forall e | e in kept ensures e in all {
      var k :| 0 <= k < |kept| && kept[k] == e;
      assert all[k] == e;
    }
  }

  /** Entries by date are the entries within the range, in store order, cut
      off after the cap, then ordered newest first */
  lemma ByDateSound(s: Store, start: Option<Timestamp>, end: Option<Timestamp>, limit: int)
    requires s.initialized
    ensures var r := ByDateSpec(s, start, end, limit);
            var all := Within(Values(s), start, end);
            && r.Ok?
            && Descending(r.value)
            && multiset(r.value) == multiset(Take(all, Cap(limit)))
            && |r.value| == (if |all| <= Cap(limit) then |all| else Cap(limit))
            && (forall e :: e in r.value ==> e in Values(s) && InRange(e, start, end))
  {
    var all := Within(Values(s), start, end);
    var kept := Take(all, Cap(limit));
    WithinSound(Values(s), start, end);
    NewestFirstSound(kept);
    assert |multiset(NewestFirst(kept))| == |multiset(kept)|;
    forall e | e in NewestFirst(kept) ensures e in Values(s) && InRange(e, start, end) {
      assert e in multiset(NewestFirst(kept));
      var k :| 0 <= k < |kept| && kept[k] == e;
      assert all[k] == e;
    }
  }

  /** Merging metadata changes only the named entry, and only in its
      metadata: the merged keys take the new values and the other keys keep
      theirs. An unknown id changes nothing. */
  lemma UpdateSound(s: Store, entryId: string, metadata: Metadata)
    requires WellFormed(s)
    ensures var (s', updated) := UpdateSpec(s, entryId, metadata);
            && (updated <==> entryId in s.entries)
            && (!updated ==> s' == s)
            && s'.order == s.order && s'.initialized == s.initialized && s'.entries.Keys == s.entries.Keys
            && WellFormed(s')
            && (updated ==>
                  var (before, after) := (s.entries[entryId], s'.entries[entryId]);
                  && after == before.(metadata := after.metadata)
                  && (forall k :: k in metadata ==> k in after.metadata && after.metadata[k] == metadata[k])
                  && (forall k :: k in before.metadata && k !in metadata ==> k in after.metadata && after.metadata[k] == before.metadata[k])
                  && after.metadata.Keys == before.metadata.Keys + metadata.Keys)
            && (forall k :: k in s.entries && k != entryId ==> s'.entries[k] == s.entries[k])
  {
  }

  lemma {:induction false} WithoutSound(ids: seq<string>, id: string)
    ensures forall k :: k in Without(ids, id) <==> k in ids && k != id
    ensures NoDuplicates(ids) ==> NoDuplicates(Without(ids, id))
    decreases |ids|
  {
    if ids != [] {
      WithoutSound(ids[1..], id);
      assert ids == [ids[0]] + ids[1..];
      if NoDuplicates(ids) {
        var rest := Without(ids[1..], id);
        assert NoDuplicates(ids[1..]) by {
          forall i, j | 0 <= i < j < |ids[1..]| ensures ids[1..][i] != ids[1..][j] {
            assert ids[1..][i] == ids[i + 1] && ids[1..][j] == ids[j + 1];
          }
        }
        assert ids[0] !in ids[1..] by {
          forall k | 0 <= k < |ids[1..]| ensures ids[1..][k] != ids[0] {
            assert ids[1..][k] == ids[k + 1];
          }
        }
        var r := (if ids[0] == id then [] else [ids[0]]) + rest;
        forall i, j | 0 <= i < j < |r| ensures r[i] != r[j] {
          if ids[0] != id && i == 0 {
            assert r[j] == rest[j - 1];
            assert r[j] in rest;
          } else if ids[0] != id {
            assert r[i] == rest[i - 1] && r[j] == rest[j - 1];
          }
        }
      }
    }
  }

  /** The store's entries in order, without the one stored under `id` */
  function Dropped(vals: seq<Entry>, id: string): seq<Entry>
    decreases |vals|
  {
    if vals == [] then []
    else (if vals[0].id == id then [] else [vals[0]]) + Dropped(vals[1..], id)
  }

  lemma {:induction false} ValuesWithout(order: seq<string>, entries: map<string, Entry>, id: string)
    requires forall k :: k in entries ==> entries[k].id == k
    ensures ValuesOf(Without(order, id), entries - {id}) == Dropped(ValuesOf(order, entries), id)
    decreases |order|
  {
    if order != [] {
      ValuesWithout(order[1..], entries, id);
      var head := if order[0] in entries then [entries[order[0]]] else [];
      var tail := ValuesOf(order[1..], entries);
      assert ValuesOf(order, entries) == head + tail;
      DroppedAppend(head, tail, id);
      if order[0] == id {
        assert Without(order, id) == Without(order[1..], id);
      } else {
        assert Without(order, id) == [order[0]] + Without(order[1..], id);
        assert ValuesOf(Without(order, id), entries - {id})
            == (if order[0] in entries then [entries[order[0]]] else []) + ValuesOf(Without(order[1..], id), entries - {id});
      }
    }
  }

  lemma {:induction false} DroppedAppend(xs: seq<Entry>, ys: seq<Entry>, id: string)
    ensures Dropped(xs + ys, id) == Dropped(xs, id) + Dropped(ys, id)
    decreases |xs|
  {
    if xs != [] {
      assert (xs + ys)[1..] == xs[1..] + ys;
      DroppedAppend(xs[1..], ys, id);
      var head := if xs[0].id == id then [] else [xs[0]];
      assert Dropped(xs + ys, id) == head + (Dropped(xs[1..], id) + Dropped(ys, id));
    } else {
      assert xs + ys == ys;
    }
  }

  /** Deleting a stored entry removes it and keeps the others in their
      order, after which `get_entry` finds nothing under that id; an unknown
      id changes nothing */
  lemma DeleteSound(s: Store, entryId: string)
    requires WellFormed(s)
    ensures var (s', deleted) := DeleteSpec(s, entryId);
            && (deleted <==> entryId in s.entries)
            && (!deleted ==> s' == s)
            && WellFormed(s')
            && entryId !in s'.entries
            && (s.initialized ==> GetSpec(s', entryId) == Ok(None))
            && Values(s') == Dropped(Values(s), entryId)
            && (forall k :: k in s'.entries <==> k in s.entries && k != entryId)
  {
    var (s', deleted) := DeleteSpec(s, entryId);
    if deleted {
      WithoutSound(s.order, entryId);
      ValuesWithout(s.order, s.entries, entryId);
    } else {
      ValuesIndexed(s.order, s.entries);
      assert forall e :: e in Values(s) ==> e.id != entryId by {
        forall e | e in Values(s) ensures e.id != entryId {
          var k :| 0 <= k < |Values(s)| && Values(s)[k] == e;
          assert s.order[k] in s.order;
        }
      }
      DroppedAbsent(Values(s), entryId);
    }
  }

  lemma {:induction false} DroppedAbsent(vals: seq<Entry>, id: string)
    requires forall e :: e in vals ==> e.id != id
    ensures Dropped(vals, id) == vals
    decreases |vals|
  {
    if vals != [] {
      assert vals[0] in vals;
      assert forall e :: e in vals[1..] ==> e in vals;
      DroppedAbsent(vals[1..], id);
      assert vals == [vals[0]] + vals[1..];
    }
  }

  /** `initialize` only sets the flag, so the store stays well formed */
  lemma InitializePreservesWellFormed(s: Store)
    requires WellFormed(s)
    ensures WellFormed(InitializeSpec(s)) && Values(InitializeSpec(s)) == Values(s)
  {
  }

  /** `close` empties the store and marks it uninitialised, so every
      operation that checks initialisation raises until `initialize` */
  lemma CloseSound(s: Store, query: string, limit: int, includeEntries: bool)
    ensures Values(CloseSpec(s)) == [] && !CloseSpec(s).initialized && WellFormed(CloseSpec(s))
    ensures SearchSpec(CloseSpec(s), query, limit, includeEntries) == Err(RuntimeError(NotInitialized))
    ensures Values(InitializeSpec(CloseSpec(s))) == [] && InitializeSpec(CloseSpec(s)).initialized
  {
  }

  // ---------------------------------------------------------------------
  // The store object
  // ---------------------------------------------------------------------

  class MockKnowledgeStore {
    /** The keys of `_entries` in insertion order */
    var order: seq<string>
    /** `_entries` */
    var entries: map<string, Entry>
    /** `_initialized` */
    var initialized: bool

    function State(): Store
      reads this
    {
      Store(order, entries, initialized)
    }

    /** The object invariant: the key order and the dictionary agree */
    ghost predicate Valid()
      reads this
    {
      WellFormed(State())
    }

    /** `__init__` */
    constructor ()
      ensures State() == EmptyStore && Valid()
    {
      order := [];
      entries := map[];
      initialized := false;
    }

    /** `initialize` */
    method Initialize()
      requires Valid()
      modifies this
      ensures State() == InitializeSpec(old(State())) && Valid()
    {
      InitializePreservesWellFormed(State());
      initialized := true;
    }

    /** `add_entry`, with `newId` the drawn `uuid4` and `now` the current time */
    method AddEntry(content: string, timestamp: Option<Timestamp>, metadata: Option<Metadata>,
                    newId: string, now: Timestamp) returns (r: Result<Entry, StoreError>)
      requires Valid()
      modifies this
      ensures (State(), r) == AddSpec(old(State()), content, timestamp, metadata, newId, now) && Valid()
    {
      if !initialized {
        return Err(RuntimeError(NotInitialized));
      }
      AddSound(State(), content, timestamp, metadata, newId, now);
      var entry := NewEntry(newId, content, timestamp.GetOr(now), Some(metadata.GetOr(map[])), []);
      if newId !in entries {
        order := order + [newId];
      }
      entries := entries[newId := entry];
      return Ok(entry);
    }

    /** `search` */
    method Search(query: string, limit: int := 10, includeEntries: bool := false)
      returns (r: Result<SearchResult, StoreError>)
      ensures r == SearchSpec(State(), query, limit, includeEntries)
    {
      if !initialized {
        return Err(RuntimeError(NotInitialized));
      }
      var queryLower := Lower(query);
      var vals := Values(State());
      var matching: seq<Entry> := [];
      var i := 0;
      while i < |vals|
        invariant 0 <= i <= |vals|
        invariant matching == Matching(vals[..i], query) && |matching| < Cap(limit)
      {
        MatchingStep(vals, i, query);
        if Contains(Lower(vals[i].content), queryLower) {
          matching := matching + [vals[i]];
          if |matching| >= limit {
            MatchingCut(vals, i + 1, Cap(limit), query);
            break;
          }
        }
        i := i + 1;
      }
      assert i == |vals| ==> vals[..i] == vals;
      return Ok(NewSearchResult([], if includeEntries then matching else [], query, |matching|));
    }

    /** `get_entry` */
    method GetEntry(entryId: string) returns (r: Result<Option<Entry>, StoreError>)
      ensures r == GetSpec(State(), entryId)
    {
      if !initialized {
        return Err(RuntimeError(NotInitialized));
      }
      if entryId in entries {
        return Ok(Some(entries[entryId]));
      }
      return Ok(None);
    }

    /** `get_entries_by_date` */
    method GetEntriesByDate(start: Option<Timestamp>, end: Option<Timestamp>, limit: int := 10)
      returns (r: Result<seq<Entry>, StoreError>)
      ensures r == ByDateSpec(State(), start, end, limit)
    {
      if !initialized {
        return Err(RuntimeError(NotInitialized));
      }
      var vals := Values(State());
      var filtered: seq<Entry> := [];
      var i := 0;
      while i < |vals|
        invariant 0 <= i <= |vals|
        invariant filtered == Within(vals[..i], start, end) && |filtered| < Cap(limit)
      {
        var entry := vals[i];
        WithinStep(vals, i, start, end);
        i := i + 1;
        if start.Some? && entry.timestamp < start.value {
          continue;
        }
        if end.Some? && entry.timestamp > end.value {
          continue;
        }
        filtered := filtered + [entry];
        if |filtered| >= limit {
          WithinCut(vals, i, Cap(limit), start, end);
          break;
        }
      }
      assert i == |vals| ==> vals[..i] == vals;
      filtered := NewestFirst(filtered);
      return Ok(filtered);
    }

    /** `close` */
    method Close()
      modifies this
      ensures State() == CloseSpec(old(State())) && Valid()
    {
      order := [];
      entries := map[];
      initialized := false;
    }

    /** `update_entry_metadata` */
    method UpdateEntryMetadata(entryId: string, metadata: Metadata) returns (updated: bool)
      requires Valid()
      modifies this
      ensures (State(), updated) == UpdateSpec(old(State()), entryId, metadata) && Valid()
    {
      UpdateSound(State(), entryId, metadata);
      if entryId in entries {
        var e := entries[entryId];
        entries := entries[entryId := e.(metadata := e.metadata + metadata)];
        return true;
      }
      return false;
    }

    /** `delete_entry` */
    method DeleteEntry(entryId: string) returns (deleted: bool)
      requires Valid()
      modifies this
      ensures (State(), deleted) == DeleteSpec(old(State()), entryId) && Valid()
    {
      DeleteSound(State(), entryId);
      if entryId in entries {
        order := Without(order, entryId);
        entries := entries - {entryId};
        return true;
      }
      return false;
    }
  }

  /** `create_knowledge_store`: `backend` is the argument and `env` the
      `KNOWLEDGE_BACKEND` environment variable */
  method CreateKnowledgeStore(backend: Option<string>, env: Option<string>)
    returns (r: Result<MockKnowledgeStore, StoreError>)
    ensures r.Ok? <==> CreateOutcome(backend, env) == Ok(Mock)
    ensures r.Err? ==> CreateOutcome(backend, env) == Err(r.error)
    ensures r.Ok? ==> fresh(r.value) && r.value.State() == EmptyStore && r.value.Valid()
  {
    match CreateOutcome(backend, env)
    case Err(e) =>
      return Err(e);
    case Ok(_) =>
      var store := new MockKnowledgeStore();
      return Ok(store);
  }
}
