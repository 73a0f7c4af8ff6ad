/**
 * Room events as the history API hands them over, and the table
 * (`events_to_dataframe`) that every later step of the analysis works on.
 */
module Events {

  datatype Option<+T> = None | Some(value: T)

  type RoomId = string

  /**
   * One event of a room's history. `content` holds the string-valued fields
   * of the event's payload; `originServerTs` is milliseconds since the epoch.
   */
  datatype Event = Event(
    originServerTs: int,
    sender: string,
    eventId: string,
    eventType: string,
    content: map<string, string>)

  /** One row of a room's table: the extracted fields plus the message body, if the payload has one. */
  datatype Row = Row(
    originServerTs: int,
    sender: string,
    eventId: string,
    eventType: string,
    content: map<string, string>,
    body: Option<string>)

  /** A room's table: one row per event, in the order the events were given. */
  type Frame = seq<Row>

  /** The `body` column: the payload's `body` field, or nothing when it has none. */
  function BodyOf(content: map<string, string>): Option<string>
  {
    if "body" in content then Some(content["body"]) else None
  }

  /** The row one event contributes to its table. */
  function RowOf(e: Event): Row
  {
    Row(e.originServerTs, e.sender, e.eventId, e.eventType, e.content, BodyOf(e.content))
  }

  /** The event a row was made from: the row keeps every field it extracted. */
  function EventOf(r: Row): Event
  {
    Event(r.originServerTs, r.sender, r.eventId, r.eventType, r.content)
  }

  /** The table built from a list of events, as a value. */
  function ToFrame(events: seq<Event>): (f: Frame)
    ensures |f| == |events|
    ensures forall i :: 0 <= i < |events| ==> f[i] == RowOf(events[i])
  {
    if events == [] then [] else ToFrame(events[..|events| - 1]) + [RowOf(events[|events| - 1])]
  }

  /** The events a table was built from, read back off its rows. */
  function EventsOf(f: Frame): (events: seq<Event>)
    ensures |events| == |f|
  {
    if f == [] then [] else EventsOf(f[..|f| - 1]) + [EventOf(f[|f| - 1])]
  }

  /** Building a row loses nothing of the event, and the body is the payload's own. */
  lemma RowRoundTrip(e: Event)
    ensures EventOf(RowOf(e)) == e
    ensures RowOf(e).body.Some? <==> "body" in e.content
  {
  }

  /** Row `i` of the table has a body exactly when event `i`'s payload has one, and then it is that text. */
  lemma FrameBodies(events: seq<Event>)
    ensures forall i :: 0 <= i < |events| ==>
      && (ToFrame(events)[i].body.Some? <==> "body" in events[i].content)
      && (ToFrame(events)[i].body.Some? ==> ToFrame(events)[i].body.value == events[i].content["body"])
  {
  }

  /** Building the table keeps every event and their order: reading the events back gives the input. */
  lemma {:induction false} FrameRoundTrip(events: seq<Event>)
    ensures EventsOf(ToFrame(events)) == events
  {
    if events != [] {
      var init := events[..|events| - 1];
      FrameRoundTrip(init);
      assert ToFrame(events)[..|events| - 1] == ToFrame(init);
      assert events == init + [events[|events| - 1]];
    }
  }

  /**
   * `events_to_dataframe`: one row per event, in order; `body` is the
   * payload's `body` when present and empty otherwise.
   */
  method EventsToDataFrame(events: seq<Event>) returns (frame: Frame)
    ensures frame == ToFrame(events)
  {
    frame := [];
    for i := 0 to |events|
      invariant frame == ToFrame(events[..i])
    {
      var event := events[i];
      var body: Option<string>;
      if "body" in event.content {
        body := Some(event.content["body"]);
      } else {
        body := None;
      }
      frame := frame + [Row(event.originServerTs, event.sender, event.eventId, event.eventType, event.content, body)];
      assert events[..i + 1][..i] == events[..i];
    }
    assert events[..|events|] == events;
  }
}
