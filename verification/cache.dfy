/**
 * The table cache of `get_all_events`: an HDF store of room tables, kept by
 * room key, that a pass either reuses (fetching only the rooms it lacks) or
 * refreshes (fetching every room and writing them all back).
 */
module Cache {
  import opened Events
  import Fetcher

  /**
   * The table `get_all_events` builds for a room,
   * `events_to_dataframe(get_all_messages_for_room(api, id, stop_time))`,
   * as a function of the room id. The pass specifications below take any
   * such function; `GetAllEvents` is stated for this one.
   */
  function RoomTables(api: Fetcher.Api, stopTime: Option<int>): RoomId -> Frame
  {
    id => ToFrame(Fetcher.Fetch(api, id, stopTime).messages)
  }

  /** Fetch one room's history and make its table. */
  method FetchTable(api: Fetcher.Api, roomId: RoomId, stopTime: Option<int>) returns (frame: Frame)
    ensures frame == RoomTables(api, stopTime)(roomId)
  {
    var messages, _ := Fetcher.GetAllMessagesForRoom(api, roomId, stopTime);
    frame := EventsToDataFrame(messages);
  }

  /** The node path under which the store keeps the table put under `key`. */
  function PathOf(key: string): string
  {
    "/" + key
  }

  /**
   * An HDF store file, as its tables by the key they were put under. The
   * store itself lists them by node path (`Paths`); dropping the path's
   * leading `/` gives the key back (`PathsStripToKeys`).
   */
  class Store {
    var tables: map<string, Frame>

    /** `store.keys()`: the node paths of the tables. */
    function Paths(): set<string>
      reads this
    {
      set k | k in tables :: PathOf(k)
    }

    /** `store[key] = frame` (also `store.put(key, frame)`): the table under `key` is replaced or added. */
    method Put(key: string, frame: Frame)
      modifies this
      ensures tables == old(tables)[key := frame]
    {
      tables := tables[key := frame];
    }

    /** `for channel, df in frames.items(): store.put(channel, df)`: every table written, other keys untouched. */
    method PutAll(frames: map<string, Frame>)
      modifies this
      ensures tables == old(tables) + frames
    {
      var toWrite := frames.Keys;
      assert frames - toWrite == map[];
      while toWrite != {}
        invariant toWrite <= frames.Keys
        invariant tables == old(tables) + (frames - toWrite)
        decreases toWrite
      {
        var channel :| channel in toWrite;
        Put(channel, frames[channel]);
        WriteOneMore(old(tables), frames, toWrite, channel);
        toWrite := toWrite - {channel};
      }
      assert frames - {} == frames;
    }
  }

  /** Writing one more table of `frames` over `base`. */
  lemma WriteOneMore(base: map<string, Frame>, frames: map<string, Frame>, toWrite: set<string>, channel: string)
    requires channel in toWrite && channel in frames
    ensures base + (frames - (toWrite - {channel})) == (base + (frames - toWrite))[channel := frames[channel]]
  {
  }

  /**
   * `{key[1:]: store.get(key) for key in store.keys()}` is the store's own
   * table map: every node path, stripped of its first character, is the key
   * of a table, and every key is reached that way.
   */
  lemma PathsStripToKeys(store: Store)
    ensures forall p :: p in store.Paths() ==> |p| > 0 && p[1..] in store.tables && PathOf(p[1..]) == p
    ensures forall k :: k in store.tables ==> PathOf(k) in store.Paths() && PathOf(k)[1..] == k
  {
    forall p | p in store.Paths()
      ensures |p| > 0 && p[1..] in store.tables && PathOf(p[1..]) == p
    {
      var k :| k in store.tables && p == PathOf(k);
      assert p[1..] == k;
    }
  }

  /** The tables fetched for the requested keys in `keys`. */
  function FetchedFor(fetch: RoomId -> Frame, rooms: map<string, RoomId>, keys: set<string>): (m: map<string, Frame>)
    ensures m.Keys == keys * rooms.Keys
  {
    map k | k in keys && k in rooms :: fetch(rooms[k])
  }

  /** The requested keys a reuse pass must fetch: those its cache lacks. */
  function MissingKeys(rooms: map<string, RoomId>, cached: map<string, Frame>): set<string>
  {
    rooms.Keys - cached.Keys
  }

  /** What a reuse pass returns: the cached table for each requested key it has, a fetched one for each it lacks. */
  function Merged(fetch: RoomId -> Frame, rooms: map<string, RoomId>, cached: map<string, Frame>): map<string, Frame>
  {
    map k | k in rooms :: if k in cached then cached[k] else fetch(rooms[k])
  }

  /** What a pass that does not reuse the cache returns: a fetched table for every requested room. */
  function FetchedAll(fetch: RoomId -> Frame, rooms: map<string, RoomId>): map<string, Frame>
  {
    FetchedFor(fetch, rooms, rooms.Keys)
  }

  /**
   * A reuse pass returns exactly the requested keys; a key already cached
   * keeps its cached table, and only a missing key gets a fetched one. The
   * result is the cache after the missing tables were added, with the stale
   * keys (cached but no longer requested) dropped.
   */
  lemma MergedIsRestrictedCache(fetch: RoomId -> Frame, rooms: map<string, RoomId>, cached: map<string, Frame>)
    ensures var r := Merged(fetch, rooms, cached);
      && r.Keys == rooms.Keys
      && (forall k :: k in rooms && k in cached ==> r[k] == cached[k])
      && (forall k :: k in MissingKeys(rooms, cached) ==> r[k] == fetch(rooms[k]))
      && r == (cached + FetchedFor(fetch, rooms, MissingKeys(rooms, cached))) - (cached.Keys - rooms.Keys)
  {
    var full := cached + FetchedFor(fetch, rooms, MissingKeys(rooms, cached));
    assert (full - (cached.Keys - rooms.Keys)).Keys == rooms.Keys;
  }

  /**
   * Reusing is idempotent: once a reuse pass has written its missing tables
   * into the cache, a second pass over the same rooms has nothing to fetch
   * and returns the same tables.
   */
  lemma ReuseIsIdempotent(fetch: RoomId -> Frame, rooms: map<string, RoomId>, cached: map<string, Frame>)
    ensures var after := cached + FetchedFor(fetch, rooms, MissingKeys(rooms, cached));
      && MissingKeys(rooms, after) == {}
      && Merged(fetch, rooms, after) == Merged(fetch, rooms, cached)
  {
  }

  /**
   * After a refresh pass has written every requested room into the store, a
   * reuse pass over the same rooms fetches nothing and returns what the
   * refresh returned.
   */
  lemma ReuseAfterRefresh(fetch: RoomId -> Frame, rooms: map<string, RoomId>, stored: map<string, Frame>)
    ensures var after := stored + FetchedAll(fetch, rooms);
      && MissingKeys(rooms, after) == {}
      && Merged(fetch, rooms, after) == FetchedAll(fetch, rooms)
  {
  }

  /** Reusing an empty cache fetches every room and returns what a refresh would. */
  lemma ReuseEmptyIsFetchAll(fetch: RoomId -> Frame, rooms: map<string, RoomId>)
    ensures MissingKeys(rooms, map[]) == rooms.Keys
    ensures Merged(fetch, rooms, map[]) == FetchedAll(fetch, rooms)
  {
  }

  /** Adding one more key to those fetched adds exactly its table. */
  lemma FetchedForStep(fetch: RoomId -> Frame, rooms: map<string, RoomId>, keys: set<string>, key: string)
    requires key in rooms
    ensures FetchedFor(fetch, rooms, keys + {key}) == FetchedFor(fetch, rooms, keys)[key := fetch(rooms[key])]
  {
  }

  /** Updating the right operand of a union updates the union. */
  lemma UnionUpdate(a: map<string, Frame>, b: map<string, Frame>, key: string, frame: Frame)
    ensures a + b[key := frame] == (a + b)[key := frame]
  {
  }

  /** No key occurs twice in `keys`. */
  predicate Distinct(keys: seq<string>)
  {
    forall i, j :: 0 <= i < j < |keys| ==> keys[i] != keys[j]
  }

  /** A list of distinct keys that holds exactly the keys of `m` has one entry per key. */
  lemma {:induction false} DistinctCount(s: seq<string>, m: set<string>)
    requires Distinct(s)
    requires forall k :: k in s <==> k in m
    ensures |s| == |m|
  {
    if s == [] {
      assert m == {};
    } else {
      var last := s[|s| - 1];
      var init := s[..|s| - 1];
      forall k
        ensures k in init <==> k in m - {last}
      {
        if k in init {
          var i :| 0 <= i < |init| && init[i] == k;
          assert s[i] == k && s[|s| - 1] == last;
        }
        if k in m - {last} {
          var i :| 0 <= i < |s| && s[i] == k;
          assert i < |s| - 1 && init[i] == k;
        }
      }
      DistinctCount(init, m - {last});
    }
  }

  /**
   * `get_all_events`. `cache` says whether a cache file was named (it is
   * `store`); `fetched` lists the room keys whose history was fetched, in
   * the order they were fetched. `None` is the failure of opening a store
   * when a refresh is asked for without a cache file.
   */
  method GetAllEvents(api: Fetcher.Api, rooms: map<string, RoomId>, store: Store, cache: bool, refreshCache: bool, stopTime: Option<int>)
    returns (result: Option<map<string, Frame>>, fetched: seq<string>)
    modifies store
    ensures Distinct(fetched)
    ensures cache && !refreshCache ==>
      var fetch := RoomTables(api, stopTime);
      && result == Some(Merged(fetch, rooms, old(store.tables)))
      && (forall k :: k in fetched <==> k in MissingKeys(rooms, old(store.tables)))
      && store.tables == old(store.tables) + FetchedFor(fetch, rooms, MissingKeys(rooms, old(store.tables)))
    ensures !cache || refreshCache ==>
      var fetch := RoomTables(api, stopTime);
      && (forall k :: k in fetched <==> k in rooms)
      && result == (if refreshCache && !cache then None else Some(FetchedAll(fetch, rooms)))
      && store.tables == (if refreshCache && cache then old(store.tables) + FetchedAll(fetch, rooms) else old(store.tables))
  {
    if cache && !refreshCache {
      var merged;
      merged, fetched := ReuseCache(api, rooms, store, stopTime);
      result := Some(merged);
    } else {
      result, fetched := FetchEvery(api, rooms, store, cache, refreshCache, stopTime);
    }
  }

  /**
   * The reuse branch of `get_all_events` (a cache file named, no refresh):
   * each missing key is fetched once and written to the store at once; the
   * result is `Merged`; the store gains the missing tables and loses nothing
   * (stale keys are dropped from the result only).
   */
  method ReuseCache(api: Fetcher.Api, rooms: map<string, RoomId>, store: Store, stopTime: Option<int>)
    returns (result: map<string, Frame>, fetched: seq<string>)
    modifies store
    ensures Distinct(fetched)
    ensures result == Merged(RoomTables(api, stopTime), rooms, old(store.tables))
    ensures forall k :: k in fetched <==> k in MissingKeys(rooms, old(store.tables))
    ensures store.tables == old(store.tables) + FetchedFor(RoomTables(api, stopTime), rooms, MissingKeys(rooms, old(store.tables)))
  {
    PathsStripToKeys(store);
    var cached := store.tables;
    var missingKeys := rooms.Keys - cached.Keys;
    cached, fetched := FetchMissing(api, rooms, cached, store, missingKeys, stopTime);
    cached := DropKeys(cached, cached.Keys - rooms.Keys);
    MergedIsRestrictedCache(RoomTables(api, stopTime), rooms, old(store.tables));
    result := cached;
  }

  /**
   * `for key in missing_keys: cache[key] = ...; store[key] = cache[key]`:
   * each key fetched once, its table added to the in-memory cache and
   * written to the store straight away.
   */
  method FetchMissing(api: Fetcher.Api, rooms: map<string, RoomId>, cached: map<string, Frame>, store: Store, keys: set<string>, stopTime: Option<int>)
    returns (updated: map<string, Frame>, fetched: seq<string>)
    requires keys <= rooms.Keys
    requires store.tables == cached
    modifies store
    ensures updated == cached + FetchedFor(RoomTables(api, stopTime), rooms, keys)
    ensures store.tables == updated
    ensures Distinct(fetched)
    ensures forall k :: k in fetched <==> k in keys
  {
    ghost var fetch := RoomTables(api, stopTime);
    fetched := [];
    updated := cached;
    var pending := keys;
    while pending != {}
      invariant pending <= keys
      invariant updated == cached + FetchedFor(fetch, rooms, keys - pending)
      invariant store.tables == updated
      invariant forall k :: k in fetched <==> k in keys - pending
      invariant Distinct(fetched)
      decreases pending
    {
      var key :| key in pending;
      var frame := FetchTable(api, rooms[key], stopTime);
      FetchedForStep(fetch, rooms, keys - pending, key);
      UnionUpdate(cached, FetchedFor(fetch, rooms, keys - pending), key, frame);
      updated := updated[key := frame];
      store.Put(key, frame);
      MoveOne(keys, pending, key);
      pending := pending - {key};
      fetched := fetched + [key];
    }
    assert keys - pending == keys;
  }

  /**
   * The other branch of `get_all_events`: every requested room is fetched
   * once; with `refreshCache` every result table is written to the store,
   * other store entries staying as they were. Asking for a refresh without
   * a cache file fails (`None`) after the fetches, leaving the store alone.
   */
  method FetchEvery(api: Fetcher.Api, rooms: map<string, RoomId>, store: Store, cache: bool, refreshCache: bool, stopTime: Option<int>)
    returns (result: Option<map<string, Frame>>, fetched: seq<string>)
    modifies store
    ensures Distinct(fetched)
    ensures forall k :: k in fetched <==> k in rooms
    ensures result == (if refreshCache && !cache then None else Some(FetchedAll(RoomTables(api, stopTime), rooms)))
    ensures store.tables == (if refreshCache && cache then old(store.tables) + FetchedAll(RoomTables(api, stopTime), rooms) else old(store.tables))
  {
    var messages;
    messages, fetched := FetchKeys(api, rooms, rooms.Keys, stopTime);
    if refreshCache {
      if !cache {
        return None, fetched;
      }
      store.PutAll(messages);
    }
    result := Some(messages);
  }

  /** Fetch the table of every requested room in `keys`, each once: `{key: ... for key in keys}`. */
  method FetchKeys(api: Fetcher.Api, rooms: map<string, RoomId>, keys: set<string>, stopTime: Option<int>)
    returns (tables: map<string, Frame>, fetched: seq<string>)
    requires keys <= rooms.Keys
    ensures tables == FetchedFor(RoomTables(api, stopTime), rooms, keys)
    ensures Distinct(fetched)
    ensures forall k :: k in fetched <==> k in keys
  {
    ghost var fetch := RoomTables(api, stopTime);
    fetched := [];
    tables := map[];
    var pending := keys;
    while pending != {}
      invariant pending <= keys
      invariant tables == FetchedFor(fetch, rooms, keys - pending)
      invariant forall k :: k in fetched <==> k in keys - pending
      invariant Distinct(fetched)
      decreases pending
    {
      var key :| key in pending;
      var frame := FetchTable(api, rooms[key], stopTime);
      FetchedForStep(fetch, rooms, keys - pending, key);
      tables := tables[key := frame];
      MoveOne(keys, pending, key);
      pending := pending - {key};
      fetched := fetched + [key];
    }
    assert keys - pending == keys;
  }

  /** Taking `key` out of the pending keys adds it, and only it, to the done ones. */
  lemma MoveOne(keys: set<string>, pending: set<string>, key: string)
    requires pending <= keys && key in pending
    ensures keys - (pending - {key}) == (keys - pending) + {key}
  {
  }

  /** `for key in keys: m.pop(key)`: the map without those keys. */
  method DropKeys(m: map<string, Frame>, keys: set<string>) returns (r: map<string, Frame>)
    requires keys <= m.Keys
    ensures r == m - keys
    ensures r.Keys == m.Keys - keys
  {
    r := m;
    var stale := keys;
    while stale != {}
      invariant stale <= keys
      invariant r == m - (keys - stale)
      decreases stale
    {
      var key :| key in stale;
      r := r - {key};
      stale := stale - {key};
    }
  }

  /**
   * Two reuse passes in a row over the same rooms and the same remote
   * answers: the second fetches nothing and returns the same tables, and
   * every requested room is then in the store.
   */
  method ReusePassTwice(api: Fetcher.Api, rooms: map<string, RoomId>, store: Store, stopTime: Option<int>)
    returns (first: Option<map<string, Frame>>, second: Option<map<string, Frame>>, refetched: seq<string>)
    modifies store
    ensures first.Some? && first == second
    ensures refetched == []
    ensures rooms.Keys <= store.tables.Keys
  {
    ghost var before := store.tables;
    var fetched;
    first, fetched := GetAllEvents(api, rooms, store, true, false, stopTime);
    ghost var middle := store.tables;
    ReuseIsIdempotent(RoomTables(api, stopTime), rooms, before);
    second, refetched := GetAllEvents(api, rooms, store, true, false, stopTime);
    DistinctCount(refetched, MissingKeys(rooms, middle));
  }
}
