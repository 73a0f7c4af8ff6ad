/**
 * Message tables (`filter_events_by_messages`) and the per-row rules that
 * `load_messages` applies to them: the room filter, the `usender` column and
 * the `body_len` column.
 */
module Messages {
  import opened Events
  import opened Text

  /** The event type of a chat message. */
  const MessageType: string := "m.room.message"

  /** The GitHub bridge bot whose messages can be left out. */
  const GithubBot: string := "@_neb_github_=40_cadair=3amatrix.org:matrix.org"

  /** The rows of `f` that `keep` accepts, in their order (a boolean-mask selection). */
  function Where(f: Frame, keep: Row -> bool): (out: Frame)
    ensures |out| <= |f|
    ensures forall r :: r in out <==> r in f && keep(r)
  {
    if f == [] then []
    else (if keep(f[0]) then [f[0]] else []) + Where(f[1..], keep)
  }

  /** Selecting with `p` and then with `q` is selecting once with both. */
  lemma {:induction false} WhereWhere(f: Frame, p: Row -> bool, q: Row -> bool, both: Row -> bool)
    requires forall r :: both(r) == (p(r) && q(r))
    ensures Where(Where(f, p), q) == Where(f, both)
  {
    if f != [] {
      WhereWhere(f[1..], p, q, both);
      var rest := Where(f[1..], p);
      if p(f[0]) {
        assert ([f[0]] + rest)[1..] == rest;
      } else {
        assert [] + rest == rest;
      }
    }
  }

  /** A selection that every row passes keeps the whole table. */
  lemma {:induction false} WhereAll(f: Frame, keep: Row -> bool)
    requires forall r :: r in f ==> keep(r)
    ensures Where(f, keep) == f
  {
    if f != [] {
      assert forall r :: r in f[1..] ==> r in f;
      WhereAll(f[1..], keep);
    }
  }

  predicate IsMessage(r: Row)
  {
    r.eventType == MessageType
  }

  predicate NotFromGithub(r: Row)
  {
    r.sender != GithubBot
  }

  /** Whether a row survives `filter_events_by_messages`. */
  predicate Kept(r: Row, ignoreGithub: bool)
  {
    IsMessage(r) && (!ignoreGithub || NotFromGithub(r))
  }

  /**
   * `filter_events_by_messages`: every room's table cut down to its message
   * rows, and then, with `ignoreGithub`, to the rows the GitHub bot did not send.
   */
  function FilterEventsByMessages(events: map<RoomId, Frame>, ignoreGithub: bool): (messages: map<RoomId, Frame>)
    ensures messages.Keys == events.Keys
  {
    var kept := map k | k in events :: Where(events[k], IsMessage);
    if ignoreGithub then map k | k in kept :: Where(kept[k], NotFromGithub) else kept
  }

  /** The two passes amount to one: each room keeps exactly its rows that pass `Kept`, in order. */
  lemma FilterOnePass(events: map<RoomId, Frame>, ignoreGithub: bool)
    ensures forall k :: k in events ==>
      FilterEventsByMessages(events, ignoreGithub)[k] == Where(events[k], r => Kept(r, ignoreGithub))
  {
    forall k | k in events
      ensures FilterEventsByMessages(events, ignoreGithub)[k] == Where(events[k], r => Kept(r, ignoreGithub))
    {
      if ignoreGithub {
        WhereWhere(events[k], IsMessage, NotFromGithub, r => Kept(r, ignoreGithub));
      } else {
        WhereWhere(events[k], IsMessage, r => true, r => Kept(r, ignoreGithub));
        WhereAll(Where(events[k], IsMessage), r => true);
      }
    }
  }

  /** Filtering a second time changes nothing. */
  lemma FilterIdempotent(events: map<RoomId, Frame>, ignoreGithub: bool)
    ensures FilterEventsByMessages(FilterEventsByMessages(events, ignoreGithub), ignoreGithub)
      == FilterEventsByMessages(events, ignoreGithub)
  {
    var once := FilterEventsByMessages(events, ignoreGithub);
    FilterOnePass(events, ignoreGithub);
    FilterOnePass(once, ignoreGithub);
    forall k | k in once
      ensures Where(once[k], r => Kept(r, ignoreGithub)) == once[k]
    {
      WhereAll(once[k], r => Kept(r, ignoreGithub));
    }
  }

  /**
   * The room filter of `load_messages`: rooms with an empty table and rooms
   * named in `ignoreRooms` are dropped (a missing list ignores nothing).
   */
  function KeepRooms(events: map<RoomId, Frame>, ignoreRooms: Option<seq<RoomId>>): (kept: map<RoomId, Frame>)
    ensures kept.Keys <= events.Keys
    ensures forall k :: k in kept ==> kept[k] == events[k] && kept[k] != []
    ensures forall k :: k in events && events[k] != [] ==>
      (k in kept <==> ignoreRooms.None? || k !in ignoreRooms.value)
  {
    var ignored := if ignoreRooms.None? then [] else ignoreRooms.value;
    map k | k in events && events[k] != [] && k !in ignored :: events[k]
  }

  /**
   * The `usender` column: a sender bridged from Slack (any id containing
   * `slack`) is shortened to the last `_`-separated part of its localpart;
   * every other sender is kept as it is.
   */
  function USender(a: string): (u: string)
    ensures !Contains(a, "slack") ==> u == a
    ensures Contains(a, "slack") ==> '_' !in u && ':' !in u
  {
    if Contains(a, "slack") then
      var localpart := DropFirst(BeforeFirst(a, ':'));
      assert forall c :: c in localpart ==> c in BeforeFirst(a, ':');
      var u := AfterLast(localpart, '_');
      assert forall c :: c in u ==> c in localpart;
      u
    else a
  }

  /** A Slack-bridged id `@<prefix>_<name>:<server>` is shown as `<name>`. */
  lemma SlackSenderName(prefix: string, name: string, server: string)
    requires ':' !in prefix && ':' !in name && '_' !in name
    requires Contains("@" + prefix + "_" + name + ":" + server, "slack")
    ensures USender("@" + prefix + "_" + name + ":" + server) == name
  {
    var local := "@" + prefix + "_" + name;
    assert "@" + prefix + "_" + name + ":" + server == local + [':'] + server;
    assert ':' !in local;
    BeforeFirstOf(local, ':', server);
    assert DropFirst(local) == prefix + ['_'] + name;
    AfterLastOf(prefix, '_', name);
  }

  /** The `body_len` column: the body's length, or 0 when the row has no body. */
  function BodyLen(body: Option<string>): (n: nat)
    ensures body.None? ==> n == 0
    ensures body.Some? ==> n == |body.value|
  {
    match body
    case None => 0
    case Some(b) => if b == "" then 0 else |b|
  }

  /** For the row of an event: the length of its payload's `body`, 0 when there is none. */
  lemma BodyLenOfEvent(e: Event)
    ensures BodyLen(RowOf(e).body) == if "body" in e.content then |e.content["body"]| else 0
  {
  }

  /** A message row with the two columns `load_messages` adds. */
  datatype Message = Message(row: Row, usender: string, bodyLen: nat)

  /** The two added columns, row by row. */
  function Annotate(f: Frame): (ms: seq<Message>)
    ensures |ms| == |f|
    ensures forall i :: 0 <= i < |f| ==> ms[i] == Message(f[i], USender(f[i].sender), BodyLen(f[i].body))
  {
    if f == [] then [] else [Message(f[0], USender(f[0].sender), BodyLen(f[0].body))] + Annotate(f[1..])
  }

  /** The two added columns on every room's message table. */
  function AnnotateAll(messages: map<RoomId, Frame>): map<RoomId, seq<Message>>
  {
    map k | k in messages :: Annotate(messages[k])
  }

  /** What `load_messages` returns: per group, the kept room tables and the annotated message tables. */
  datatype Loaded = Loaded(events: map<string, map<RoomId, Frame>>, messages: map<string, map<RoomId, seq<Message>>>)

  /**
   * `load_messages` as written, from the tables each group's fetch produced:
   * the message filter is called without the caller's `ignore_github`, so
   * that flag has no effect.
   */
  function LoadMessagesAsWritten(
    fetched: map<string, map<RoomId, Frame>>, ignoreGithub: bool, ignoreRooms: Option<seq<RoomId>>): (l: Loaded)
    ensures l.events.Keys == l.messages.Keys == fetched.Keys
  {
    var events := map g | g in fetched :: KeepRooms(fetched[g], ignoreRooms);
    Loaded(events, map g | g in events :: AnnotateAll(FilterEventsByMessages(events[g], false)))
  }

  /** The flag is ignored: asking to leave out the GitHub bot gives the same result as not asking. */
  lemma IgnoreGithubHasNoEffect(fetched: map<string, map<RoomId, Frame>>, ignoreRooms: Option<seq<RoomId>>)
    ensures LoadMessagesAsWritten(fetched, true, ignoreRooms) == LoadMessagesAsWritten(fetched, false, ignoreRooms)
  {
  }

  /** As written, `load_messages` is the corrected one with the flag always off, whatever the caller passes. */
  lemma AsWrittenIsUnflagged(fetched: map<string, map<RoomId, Frame>>, ignoreGithub: bool, ignoreRooms: Option<seq<RoomId>>)
    ensures LoadMessagesAsWritten(fetched, ignoreGithub, ignoreRooms) == LoadMessages(fetched, false, ignoreRooms)
  {
  }

  /** A message of the GitHub bot, which `ignoreGithub` is meant to drop. */
  const BotMessage: Row := Row(0, GithubBot, "$1", MessageType, map[], None)

  /** With `ignoreGithub` set, a room holding one GitHub bot message still lists that message. */
  lemma GithubBotKeptAsWritten()
    ensures var l := LoadMessagesAsWritten(map["group" := map["room" := [BotMessage]]], true, None);
      "group" in l.messages && "room" in l.messages["group"]
      && |l.messages["group"]["room"]| == 1 && l.messages["group"]["room"][0].row == BotMessage
  {
    var tables := map["room" := [BotMessage]];
    assert KeepRooms(tables, None) == tables;
    FilterOnePass(tables, false);
    assert Where([BotMessage], r => Kept(r, false)) == [BotMessage];
  }

  /** `load_messages` with the flag passed on to the message filter, as its signature promises. */
  function LoadMessages(
    fetched: map<string, map<RoomId, Frame>>, ignoreGithub: bool, ignoreRooms: Option<seq<RoomId>>): (l: Loaded)
    ensures l.events.Keys == l.messages.Keys == fetched.Keys
  {
    var events := map g | g in fetched :: KeepRooms(fetched[g], ignoreRooms);
    Loaded(events, map g | g in events :: AnnotateAll(FilterEventsByMessages(events[g], ignoreGithub)))
  }

  /**
   * Every listed message comes from a kept room, is a chat message, is not
   * the GitHub bot's when `ignoreGithub`, and carries its two columns; every
   * such row of a kept room is listed.
   */
  lemma LoadMessagesSpec(
    fetched: map<string, map<RoomId, Frame>>, ignoreGithub: bool, ignoreRooms: Option<seq<RoomId>>,
    g: string, k: RoomId)
    requires g in fetched && k in LoadMessages(fetched, ignoreGithub, ignoreRooms).events[g]
    ensures var l := LoadMessages(fetched, ignoreGithub, ignoreRooms);
      && k in l.messages[g]
      && l.events[g][k] == fetched[g][k] != []
      && l.messages[g][k] == Annotate(Where(fetched[g][k], r => Kept(r, ignoreGithub)))
  {
    var events := KeepRooms(fetched[g], ignoreRooms);
    FilterOnePass(events, ignoreGithub);
  }

  /** With `ignoreGithub`, no listed message was sent by the GitHub bot. */
  lemma NoGithubMessages(
    fetched: map<string, map<RoomId, Frame>>, ignoreRooms: Option<seq<RoomId>>, g: string, k: RoomId, i: int)
    requires g in fetched && k in LoadMessages(fetched, true, ignoreRooms).events[g]
    requires 0 <= i < |LoadMessages(fetched, true, ignoreRooms).messages[g][k]|
    ensures LoadMessages(fetched, true, ignoreRooms).messages[g][k][i].row.sender != GithubBot
  {
    LoadMessagesSpec(fetched, true, ignoreRooms, g, k);
    var rows := Where(fetched[g][k], r => Kept(r, true));
    assert rows[i] in rows;
  }
}
