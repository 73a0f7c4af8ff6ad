/**
 * Back-pagination through a room's history (`get_all_messages_for_room`).
 *
 * The remote `/messages` endpoint is an oracle: a total function from the
 * request made to the response it gets, which is either a request error or
 * a page of events with the token that continues backwards from it. The
 * fetch returns the events gathered and, so that the paging can be stated,
 * the list of requests it made.
 */
module Fetcher {
  import opened Events

  type Token = string

  /** Number of paging requests that may follow the initial one. */
  const MaxPages: nat := 100

  /** Events asked for per paging request. */
  const PageLimit: nat := 5000

  /** 2019-01-01T00:00:00 as milliseconds since the epoch (UTC). */
  const Cutoff: int := 1546300800000

  /** A backwards `/messages` request; `limit` is absent on the initial one. */
  datatype Request = Request(roomId: RoomId, from: Token, limit: Option<nat>)

  datatype Response =
    | RequestError
    | Page(chunk: seq<Event>, end: Token)

  type Api = Request -> Response

  /** What a fetch did: the requests in the order they were made, and the events it returns. */
  datatype Trace = Trace(requests: seq<Request>, messages: seq<Event>)

  function InitialRequest(roomId: RoomId): Request
  {
    Request(roomId, "", None)
  }

  function PageRequest(roomId: RoomId, token: Token): Request
  {
    Request(roomId, token, Some(PageLimit))
  }

  /** Python truthiness of the `stop_time` argument (`None` and `0` are false). */
  predicate Truthy(stopTime: Option<int>)
  {
    stopTime.Some? && stopTime.value != 0
  }

  /** How many events of `chunk` are strictly older than `cutoff`. */
  function CountBefore(chunk: seq<Event>, cutoff: int): (n: nat)
    ensures n <= |chunk|
  {
    if chunk == [] then 0
    else CountBefore(chunk[..|chunk| - 1], cutoff) + (if chunk[|chunk| - 1].originServerTs < cutoff then 1 else 0)
  }

  /**
   * The early-stop test: more than `len / 1.1` of the page's timestamps lie
   * before `cutoff`, as the exact integer comparison `11 * count > 10 * len`.
   */
  predicate MostlyBefore(chunk: seq<Event>, cutoff: int)
  {
    11 * CountBefore(chunk, cutoff) > 10 * |chunk|
  }

  /** An empty page never ends the fetch through the early-stop test; a page wholly before the cutoff always does. */
  lemma {:induction false} MostlyBeforeBounds(chunk: seq<Event>, cutoff: int)
    ensures chunk == [] ==> !MostlyBefore(chunk, cutoff)
    ensures (forall i :: 0 <= i < |chunk| ==> chunk[i].originServerTs < cutoff) ==> CountBefore(chunk, cutoff) == |chunk|
    ensures (forall i :: 0 <= i < |chunk| ==> chunk[i].originServerTs >= cutoff) ==> CountBefore(chunk, cutoff) == 0
    ensures chunk != [] && (forall i :: 0 <= i < |chunk| ==> chunk[i].originServerTs < cutoff) ==> MostlyBefore(chunk, cutoff)
    ensures (forall i :: 0 <= i < |chunk| ==> chunk[i].originServerTs >= cutoff) ==> !MostlyBefore(chunk, cutoff)
  {
    if chunk != [] {
      MostlyBeforeBounds(chunk[..|chunk| - 1], cutoff);
    }
  }

  /** A paging request whose answer lets the loop go on: a non-empty page that does not trip the early stop. */
  predicate Continues(api: Api, req: Request, stop: bool)
  {
    api(req).Page? && api(req).chunk != [] && !(stop && MostlyBefore(api(req).chunk, Cutoff))
  }

  /** The paging loop from `token` on, with `budget` iterations left. */
  function Paginate(api: Api, roomId: RoomId, token: Token, budget: nat, stop: bool): Trace
    decreases budget
  {
    if budget == 0 then Trace([], [])
    else
      var req := PageRequest(roomId, token);
      match api(req)
      case RequestError => Trace([req], [])
      case Page(chunk, end) =>
        if stop && MostlyBefore(chunk, Cutoff) then Trace([req], chunk)
        else if chunk == [] then Trace([req], [])
        else
          var rest := Paginate(api, roomId, end, budget - 1, stop);
          Trace([req] + rest.requests, chunk + rest.messages)
  }

  /** One iteration of the paging loop, case by case. */
  lemma PaginateStep(api: Api, roomId: RoomId, token: Token, budget: nat, stop: bool)
    requires budget > 0
    ensures var t := Paginate(api, roomId, token, budget, stop);
      var req := PageRequest(roomId, token);
      && (api(req).RequestError? ==> t == Trace([req], []))
      && (api(req).Page? && stop && MostlyBefore(api(req).chunk, Cutoff) ==> t == Trace([req], api(req).chunk))
      && (api(req).Page? && api(req).chunk == [] ==> t == Trace([req], []))
      && (Continues(api, req, stop) ==>
            var rest := Paginate(api, roomId, api(req).end, budget - 1, stop);
            t == Trace([req] + rest.requests, api(req).chunk + rest.messages))
  {
  }

  /** The whole fetch: the initial token request, then the paging loop. */
  function Fetch(api: Api, roomId: RoomId, stopTime: Option<int>): Trace
  {
    var first := InitialRequest(roomId);
    match api(first)
    case RequestError => Trace([first], [])
    case Page(_, end) =>
      var pages := Paginate(api, roomId, end, MaxPages, Truthy(stopTime));
      Trace([first] + pages.requests, pages.messages)
  }

  /** The events of the answers to `requests`, concatenated in order; a failed request contributes none. */
  function Chunks(api: Api, requests: seq<Request>): seq<Event>
  {
    if requests == [] then []
    else
      (match api(requests[0]) case RequestError => [] case Page(chunk, _) => chunk)
      + Chunks(api, requests[1..])
  }

  /**
   * The paging loop makes between one and `budget` requests (none when the
   * budget is zero), all paging requests for `roomId`, the first from `token`.
   */
  lemma {:induction false} PaginateRequests(api: Api, roomId: RoomId, token: Token, budget: nat, stop: bool)
    ensures var t := Paginate(api, roomId, token, budget, stop);
      && (budget == 0 <==> t.requests == [])
      && |t.requests| <= budget
      && (t.requests != [] ==> t.requests[0] == PageRequest(roomId, token))
      && (forall k :: 0 <= k < |t.requests| ==> t.requests[k] == PageRequest(roomId, t.requests[k].from))
    decreases budget
  {
    if budget > 0 {
      var req := PageRequest(roomId, token);
      if Continues(api, req, stop) {
        var rest := Paginate(api, roomId, api(req).end, budget - 1, stop);
        PaginateRequests(api, roomId, api(req).end, budget - 1, stop);
        var t := Paginate(api, roomId, token, budget, stop);
        assert t.requests == [req] + rest.requests;
      }
    }
  }

  /**
   * Each paging request after the first is made from the `end` token of the
   * page before it, and only after a page that let the loop go on.
   */
  lemma {:induction false} PaginateChain(api: Api, roomId: RoomId, token: Token, budget: nat, stop: bool)
    ensures var t := Paginate(api, roomId, token, budget, stop);
      forall k :: 0 <= k < |t.requests| - 1 ==>
        Continues(api, t.requests[k], stop) && t.requests[k + 1].from == api(t.requests[k]).end
    decreases budget
  {
    if budget > 0 {
      var req := PageRequest(roomId, token);
      if Continues(api, req, stop) {
        var rest := Paginate(api, roomId, api(req).end, budget - 1, stop);
        PaginateChain(api, roomId, api(req).end, budget - 1, stop);
        PaginateRequests(api, roomId, api(req).end, budget - 1, stop);
        var t := Paginate(api, roomId, token, budget, stop);
        assert t.requests == [req] + rest.requests;
        forall k | 0 <= k < |t.requests| - 1
          ensures Continues(api, t.requests[k], stop) && t.requests[k + 1].from == api(t.requests[k]).end
        {
          if k > 0 {
            assert t.requests[k] == rest.requests[k - 1];
          }
          assert t.requests[k + 1] == rest.requests[k];
        }
      }
    }
  }

  /**
   * When the paging loop stops before its budget is spent, the last request
   * got an error, an empty page or an early stop.
   */
  lemma {:induction false} PaginateStops(api: Api, roomId: RoomId, token: Token, budget: nat, stop: bool)
    ensures var t := Paginate(api, roomId, token, budget, stop);
      0 < |t.requests| < budget ==> !Continues(api, t.requests[|t.requests| - 1], stop)
    decreases budget
  {
    if budget > 0 {
      var req := PageRequest(roomId, token);
      if Continues(api, req, stop) {
        var rest := Paginate(api, roomId, api(req).end, budget - 1, stop);
        PaginateStops(api, roomId, api(req).end, budget - 1, stop);
        PaginateRequests(api, roomId, api(req).end, budget - 1, stop);
        var t := Paginate(api, roomId, token, budget, stop);
        assert t.requests == [req] + rest.requests;
        if |t.requests| < budget {
          assert t.requests[|t.requests| - 1] == rest.requests[|rest.requests| - 1];
        }
      }
    }
  }

  /** The events the paging loop returns are its pages' chunks, concatenated in the order they arrived. */
  lemma {:induction false} PaginateChunks(api: Api, roomId: RoomId, token: Token, budget: nat, stop: bool)
    ensures var t := Paginate(api, roomId, token, budget, stop);
      t.messages == Chunks(api, t.requests)
    decreases budget
  {
    if budget > 0 {
      var req := PageRequest(roomId, token);
      var t := Paginate(api, roomId, token, budget, stop);
      if Continues(api, req, stop) {
        var rest := Paginate(api, roomId, api(req).end, budget - 1, stop);
        PaginateChunks(api, roomId, api(req).end, budget - 1, stop);
        assert t.requests == [req] + rest.requests;
        assert t.requests[1..] == rest.requests;
      } else {
        assert t.requests == [req];
        assert Chunks(api, t.requests) == (match api(req) case RequestError => [] case Page(chunk, _) => chunk) + Chunks(api, []);
      }
    }
  }

  /**
   * The requests of a whole fetch: the initial request first, then at most
   * `MaxPages` paging requests for the same room, the first of them from the
   * initial answer's `end` token. If the initial request fails, nothing else
   * is asked and nothing is returned.
   */
  lemma FetchRequests(api: Api, roomId: RoomId, stopTime: Option<int>)
    ensures var t := Fetch(api, roomId, stopTime);
      && 1 <= |t.requests| <= 1 + MaxPages
      && t.requests[0] == InitialRequest(roomId)
      && (api(InitialRequest(roomId)).RequestError? <==> t == Trace([InitialRequest(roomId)], []))
      && (|t.requests| > 1 ==> t.requests[1] == PageRequest(roomId, api(InitialRequest(roomId)).end))
      && (forall k :: 1 <= k < |t.requests| ==> t.requests[k] == PageRequest(roomId, t.requests[k].from))
  {
    var first := InitialRequest(roomId);
    if api(first).Page? {
      var pages := Paginate(api, roomId, api(first).end, MaxPages, Truthy(stopTime));
      PaginateRequests(api, roomId, api(first).end, MaxPages, Truthy(stopTime));
      var t := Fetch(api, roomId, stopTime);
      assert t.requests == [first] + pages.requests;
      forall k | 1 <= k < |t.requests|
        ensures t.requests[k] == PageRequest(roomId, t.requests[k].from)
      {
        assert t.requests[k] == pages.requests[k - 1];
      }
    }
  }

  /**
   * Each paging request of a fetch after the first is made from the previous
   * page's `end` token, and only after a page that let the loop go on; the
   * fetch stops right after the first failed request, empty page or early
   * stop, unless the page budget runs out first.
   */
  lemma FetchChain(api: Api, roomId: RoomId, stopTime: Option<int>)
    ensures var t := Fetch(api, roomId, stopTime);
      && (forall k :: 1 <= k < |t.requests| - 1 ==>
            Continues(api, t.requests[k], Truthy(stopTime)) && t.requests[k + 1].from == api(t.requests[k]).end)
      && (1 < |t.requests| < 1 + MaxPages ==> !Continues(api, t.requests[|t.requests| - 1], Truthy(stopTime)))
  {
    var first := InitialRequest(roomId);
    if api(first).Page? {
      var pages := Paginate(api, roomId, api(first).end, MaxPages, Truthy(stopTime));
      PaginateChain(api, roomId, api(first).end, MaxPages, Truthy(stopTime));
      PaginateStops(api, roomId, api(first).end, MaxPages, Truthy(stopTime));
      var t := Fetch(api, roomId, stopTime);
      assert t.requests == [first] + pages.requests;
      forall k | 1 <= k < |t.requests| - 1
        ensures Continues(api, t.requests[k], Truthy(stopTime)) && t.requests[k + 1].from == api(t.requests[k]).end
      {
        assert t.requests[k] == pages.requests[k - 1];
        assert t.requests[k + 1] == pages.requests[k];
      }
    }
  }

  /**
   * The events a fetch returns are the chunks of the paging answers,
   * concatenated in order; the initial answer's chunk is never among them.
   */
  lemma FetchChunks(api: Api, roomId: RoomId, stopTime: Option<int>)
    ensures var t := Fetch(api, roomId, stopTime);
      t.messages == Chunks(api, t.requests[1..])
  {
    var first := InitialRequest(roomId);
    if api(first).Page? {
      var pages := Paginate(api, roomId, api(first).end, MaxPages, Truthy(stopTime));
      PaginateChunks(api, roomId, api(first).end, MaxPages, Truthy(stopTime));
      var t := Fetch(api, roomId, stopTime);
      assert t.requests[1..] == pages.requests;
    }
  }

  /** Only whether `stop_time` is truthy matters: its value is replaced by the fixed cutoff. */
  lemma StopTimeValueIgnored(api: Api, roomId: RoomId, s1: Option<int>, s2: Option<int>)
    requires Truthy(s1) == Truthy(s2)
    ensures Fetch(api, roomId, s1) == Fetch(api, roomId, s2)
  {
  }

  /** A room whose history ends at once (the first page is empty) gives no events and exactly two requests. */
  lemma EmptyHistory(api: Api, roomId: RoomId, stopTime: Option<int>)
    requires api(InitialRequest(roomId)).Page?
    requires api(PageRequest(roomId, api(InitialRequest(roomId)).end)).Page?
    requires api(PageRequest(roomId, api(InitialRequest(roomId)).end)).chunk == []
    ensures Fetch(api, roomId, stopTime).messages == []
    ensures |Fetch(api, roomId, stopTime).requests| == 2
  {
  }

  /**
   * `get_all_messages_for_room`. Returns the events gathered and the
   * requests made; both are exactly what `Fetch` says.
   */
  method GetAllMessagesForRoom(api: Api, roomId: RoomId, stopTime: Option<int>)
    returns (messages: seq<Event>, requests: seq<Request>)
    ensures Trace(requests, messages) == Fetch(api, roomId, stopTime)
  {
    var token: Token := "";
    var first := Request(roomId, token, None);
    var initial := api(first);
    if initial.RequestError? {
      return [], [first];
    }
    token := initial.end;
    var pages;
    messages, pages := PageBackwards(api, roomId, token, stopTime);
    requests := [first] + pages;
  }

  /**
   * The `for i in range(100)` loop of `get_all_messages_for_room`, from the
   * initial answer's `end` token on: it gathers exactly what `Paginate` says.
   */
  method PageBackwards(api: Api, roomId: RoomId, start: Token, stopTime: Option<int>)
    returns (messages: seq<Event>, requests: seq<Request>)
    ensures Trace(requests, messages) == Paginate(api, roomId, start, MaxPages, Truthy(stopTime))
  {
    var token := start;
    var stop := stopTime;
    messages, requests := [], [];
    ghost var goal := Paginate(api, roomId, token, MaxPages, Truthy(stopTime));
    ghost var rest := goal;
    for i := 0 to MaxPages
      invariant Truthy(stop) == Truthy(stopTime)
      invariant rest == Paginate(api, roomId, token, MaxPages - i, Truthy(stopTime))
      invariant goal == Trace(requests + rest.requests, messages + rest.messages)
    {
      ghost var before := Trace(requests, messages);
      var req, chunk, next;
      req, chunk, next, stop := NextPage(api, roomId, token, stop, MaxPages - i);
      requests := requests + [req];
      messages := messages + chunk;
      if next.None? {
        break;
      }
      token := next.value;
      ghost var after := Paginate(api, roomId, token, MaxPages - (i + 1), Truthy(stopTime));
      Absorb(goal, before, req, chunk, after);
      rest := after;
    }
  }

  /**
   * One pass of the paging loop's body: the request for the page after
   * `token`, the chunk it adds, and the token to continue from, or `None`
   * when the loop ends here (an error, an empty chunk, or a page mostly
   * older than the cutoff when a stop time is set).
   */
  method NextPage(api: Api, roomId: RoomId, token: Token, stopTime: Option<int>, ghost budget: nat)
    returns (req: Request, chunk: seq<Event>, next: Option<Token>, stop: Option<int>)
    requires budget > 0
    ensures Truthy(stop) == Truthy(stopTime)
    ensures req == PageRequest(roomId, token)
    ensures next.None? ==> Paginate(api, roomId, token, budget, Truthy(stopTime)) == Trace([req], chunk)
    ensures next.Some? ==>
      var rest := Paginate(api, roomId, next.value, budget - 1, Truthy(stopTime));
      Paginate(api, roomId, token, budget, Truthy(stopTime)) == Trace([req] + rest.requests, chunk + rest.messages)
  {
    PaginateStep(api, roomId, token, budget, Truthy(stopTime));
    stop := stopTime;
    req := Request(roomId, token, Some(PageLimit));
    var m1 := api(req);
    if m1.RequestError? {
      return req, [], None, stop;
    }
    if Truthy(stop) {
      stop := Some(Cutoff);
      var stopping := CountBefore(m1.chunk, stop.value);
      if 11 * stopping > 10 * |m1.chunk| {
        return req, m1.chunk, None, stop;
      }
    }
    if m1.chunk == [] {
      return req, [], None, stop;
    }
    return req, m1.chunk, Some(m1.end), stop;
  }

  /**
   * Moving one page from the part still to come to the part gathered: the
   * whole stays the gathered part followed by what comes after.
   */
  lemma Absorb(goal: Trace, before: Trace, req: Request, chunk: seq<Event>, next: Trace)
    requires goal == Trace(before.requests + ([req] + next.requests), before.messages + (chunk + next.messages))
    ensures goal == Trace((before.requests + [req]) + next.requests, (before.messages + chunk) + next.messages)
  {
  }
}
