/**
 * Room keys for the rooms of a community (`get_rooms_in_community`,
 * `get_room_aliases_in_community`). The listing the server sends is a
 * parameter; each room with a canonical alias gets the key derived from the
 * alias's localpart.
 */
module Community {
  import opened Events
  import opened Text

  /** One entry of the community's room listing; the canonical alias may be absent. */
  datatype RoomInfo = RoomInfo(roomId: RoomId, canonicalAlias: Option<string>)

  /** `if not ca: continue`: rooms without a canonical alias, or with an empty one, are skipped. */
  predicate Listed(room: RoomInfo)
  {
    room.canonicalAlias.Some? && room.canonicalAlias.value != ""
  }

  /**
   * `ca.split(":")[0][1:].replace("-", "_")`: the alias's localpart without
   * its sigil, dashes turned into underscores. A key never holds `:` or `-`.
   */
  function AliasKey(alias: string): (key: string)
    ensures ':' !in key && '-' !in key
  {
    var localpart := BeforeFirst(alias, ':');
    assert forall c :: c in DropFirst(localpart) ==> c in localpart;
    ReplaceChar(DropFirst(localpart), '-', '_')
  }

  /** The key of a listed room. */
  function KeyOf(room: RoomInfo): string
    requires Listed(room)
  {
    AliasKey(room.canonicalAlias.value)
  }

  /** What the index holds for a listed room: its id, or (`aliases`) its canonical alias. */
  function ValueOf(room: RoomInfo, aliases: bool): string
    requires Listed(room)
  {
    if aliases then room.canonicalAlias.value else room.roomId
  }

  /** The index built over `rooms`, in order; a later room overwrites an earlier one with the same key. */
  function Index(rooms: seq<RoomInfo>, aliases: bool): map<string, string>
  {
    if rooms == [] then map[]
    else
      var last := rooms[|rooms| - 1];
      var before := Index(rooms[..|rooms| - 1], aliases);
      if Listed(last) then before[KeyOf(last) := ValueOf(last, aliases)] else before
  }

  /** `rooms[i]` is listed and no later listed room has its key. */
  predicate LastWithKey(rooms: seq<RoomInfo>, i: int)
  {
    && 0 <= i < |rooms|
    && Listed(rooms[i])
    && forall j :: i < j < |rooms| && Listed(rooms[j]) ==> KeyOf(rooms[j]) != KeyOf(rooms[i])
  }

  /** A key is in the index exactly when some listed room has it; so no key holds `:` or `-`. */
  lemma {:induction false} IndexKeys(rooms: seq<RoomInfo>, aliases: bool)
    ensures forall k :: k in Index(rooms, aliases) <==>
      exists i :: 0 <= i < |rooms| && Listed(rooms[i]) && KeyOf(rooms[i]) == k
    ensures forall k :: k in Index(rooms, aliases) ==> ':' !in k && '-' !in k
  {
    if rooms != [] {
      var init := rooms[..|rooms| - 1];
      IndexKeys(init, aliases);
      forall k | k in Index(rooms, aliases)
        ensures exists i :: 0 <= i < |rooms| && Listed(rooms[i]) && KeyOf(rooms[i]) == k
      {
        if k !in Index(init, aliases) {
          assert Listed(rooms[|rooms| - 1]) && KeyOf(rooms[|rooms| - 1]) == k;
        } else {
          var i :| 0 <= i < |init| && Listed(init[i]) && KeyOf(init[i]) == k;
          assert rooms[i] == init[i];
        }
      }
      forall k | exists i :: 0 <= i < |rooms| && Listed(rooms[i]) && KeyOf(rooms[i]) == k
        ensures k in Index(rooms, aliases)
      {
        var i :| 0 <= i < |rooms| && Listed(rooms[i]) && KeyOf(rooms[i]) == k;
        if i < |init| {
          assert init[i] == rooms[i];
        }
      }
    }
  }

  /** Last wins: a listed room that no later listed room shares its key with gives that key its value. */
  lemma {:induction false} IndexLastWins(rooms: seq<RoomInfo>, aliases: bool)
    ensures forall i :: LastWithKey(rooms, i) ==>
      KeyOf(rooms[i]) in Index(rooms, aliases) && Index(rooms, aliases)[KeyOf(rooms[i])] == ValueOf(rooms[i], aliases)
  {
    if rooms != [] {
      var init := rooms[..|rooms| - 1];
      IndexLastWins(init, aliases);
      forall i | LastWithKey(rooms, i)
        ensures KeyOf(rooms[i]) in Index(rooms, aliases) && Index(rooms, aliases)[KeyOf(rooms[i])] == ValueOf(rooms[i], aliases)
      {
        if i < |init| {
          assert init[i] == rooms[i];
          forall j | i < j < |init| && Listed(init[j])
            ensures KeyOf(init[j]) != KeyOf(init[i])
          {
            assert init[j] == rooms[j];
          }
          assert LastWithKey(init, i);
        }
      }
    }
  }

  /** A later room with the same key replaces an earlier one: appending a listed room makes it win its key. */
  lemma LaterRoomWins(rooms: seq<RoomInfo>, room: RoomInfo, aliases: bool)
    requires Listed(room)
    ensures Index(rooms + [room], aliases)[KeyOf(room)] == ValueOf(room, aliases)
    ensures forall k :: k != KeyOf(room) ==>
      (k in Index(rooms + [room], aliases) <==> k in Index(rooms, aliases))
  {
    assert (rooms + [room])[..|rooms|] == rooms;
  }

  /** Appending a room with no usable canonical alias leaves the index as it was. */
  lemma UnlistedRoomSkipped(rooms: seq<RoomInfo>, room: RoomInfo, aliases: bool)
    requires !Listed(room)
    ensures Index(rooms + [room], aliases) == Index(rooms, aliases)
  {
    assert (rooms + [room])[..|rooms|] == rooms;
  }

  /** `get_rooms_in_community`: the key of each listed room to its room id. */
  method GetRoomsInCommunity(rooms: seq<RoomInfo>) returns (ids: map<string, RoomId>)
    ensures ids == Index(rooms, false)
  {
    ids := map[];
    for i := 0 to |rooms|
      invariant ids == Index(rooms[..i], false)
    {
      var room := rooms[i];
      assert rooms[..i + 1][..i] == rooms[..i];
      var ca := room.canonicalAlias;
      if ca.None? || ca.value == "" {
        continue;
      }
      var name := DropFirst(BeforeFirst(ca.value, ':'));
      name := ReplaceChar(name, '-', '_');
      ids := ids[name := room.roomId];
    }
    assert rooms[..|rooms|] == rooms;
  }

  /** `get_room_aliases_in_community`: the key of each listed room to its canonical alias. */
  method GetRoomAliasesInCommunity(rooms: seq<RoomInfo>) returns (ids: map<string, string>)
    ensures ids == Index(rooms, true)
  {
    ids := map[];
    for i := 0 to |rooms|
      invariant ids == Index(rooms[..i], true)
    {
      var room := rooms[i];
      assert rooms[..i + 1][..i] == rooms[..i];
      var ca := room.canonicalAlias;
      if ca.None? || ca.value == "" {
        continue;
      }
      var name := DropFirst(BeforeFirst(ca.value, ':'));
      name := ReplaceChar(name, '-', '_');
      ids := ids[name := ca.value];
    }
    assert rooms[..|rooms|] == rooms;
  }
}
