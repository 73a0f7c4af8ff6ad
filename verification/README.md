# matrixstats core, modelled in Dafny

`matrixstats.py` gathers the history of groups of Matrix rooms and turns it into
tables for analysis. This project models the sequential logic under its pandas,
HDF5 and HTTP glue and proves what that logic promises:

- **Back-pagination** (`get_all_messages_for_room`, module `Fetcher`, `fetcher.dfy`):
  - one initial token request, then up to 100 paging requests of 5000 events, each from the previous page's `end` token;
  - the fetch stops on an error, an empty page, or (with a truthy `stop_time`) a page mostly older than 2019-01-01.
  - The remote `/messages` endpoint is a parameter: a total function from a request to its response, an error or a `(chunk, end)` page.
  - The method returns the events and also the list of requests it made, so the paging itself can be stated.
- **Event tables** (`events_to_dataframe`, module `Events`, `events.dfy`): one row per event, with the `body` column taken from the payload.
- **Table cache** (`get_all_events`, module `Cache`, `cache.dfy`):
  - the HDF store is a class whose field maps each key to its table;
  - a reuse pass fetches only the missing rooms and writes them to the store;
  - a refresh pass fetches every room and, given a cache file, writes them all.
- **Community rooms** (`get_rooms_in_community`, `get_room_aliases_in_community`, module `Community`, `community.dfy`): the room key derived from a canonical alias. The room listing the server sends is a parameter.
- **Display names** (`get_display_names`, module `DisplayNames`, `display.dfy`):
  - sender rewriting, the template, the lookup fallback and the `*` marker;
  - the display-name lookup is a parameter that either yields a name or fails.
- **Dictionary helpers** (`flatten_dicts`, `get_len_key`, module `Collections`, `collections.dfy`): a last-wins merge, and a stable sort by value length.
- **Message tables** (`filter_events_by_messages` and the row rules of `load_messages`, module `Messages`, `messages.dfy`): the message filter, the room filter, the `usender` column and the `body_len` column.
- **String helpers** (module `Text`, `text.dfy`): `split(c)[0]`, `split(c)[-1]`, `s[1:]`, one-character `replace`, and `in`.

A Python dict whose order matters (the result of `get_len_key`, the values of
the dict passed to `flatten_dicts`) is modelled as the sequence of its items in
insertion order. A pandas table is a sequence of rows (`Events.Frame`).

## Model

| member | source | states |
|---|---|---|
| `Fetcher.GetAllMessagesForRoom` | matrixstats.py:19-52 | The events returned and the requests made are exactly `Fetch`: the initial request, and on its success the paging loop from its `end` token. |
| `Fetcher.PageBackwards` | matrixstats.py:35-51 | The bounded paging loop gathers exactly what `Paginate` gives for 100 iterations from the start token. |
| `Fetcher.NextPage` | matrixstats.py:36-51 | One iteration: the paging request from `token`. It either ends the loop, and then `Paginate` is that request with its chunk (none on an error or an empty page, the page itself on an early stop), or it continues from the page's `end` token with the page's chunk prepended. The truthiness of `stop_time` is kept. |
| `Fetcher.CountBefore` | matrixstats.py:44-45 | The number of timestamps strictly below the cutoff is at most the page length. |
| `Fetcher.MostlyBeforeBounds` | matrixstats.py:42-48 | An empty page never triggers the early stop. A non-empty page wholly before the cutoff always does. A page with nothing before the cutoff never does. |
| `Fetcher.PaginateStep` | matrixstats.py:36-51 | One loop iteration, case by case: an error or an empty page ends with that request and no events. An early stop ends with the page. A page that continues prepends its request and chunk to the rest of the loop from its `end` token. |
| `Fetcher.PaginateRequests` | matrixstats.py:35-37 | The loop makes between 1 and `budget` requests, none only when the budget is 0. The first is from the given token. All are `limit=5000` paging requests for the room. |
| `Fetcher.PaginateChain` | matrixstats.py:36-51 | Each request after the first is made only after a page that let the loop go on, and is made from that page's `end` token. |
| `Fetcher.PaginateStops` | matrixstats.py:38-51 | If the loop ends before its budget, its last request got an error, an empty page or an early stop. |
| `Fetcher.PaginateChunks` | matrixstats.py:45-49 | The returned events are the chunks of the answers, concatenated in request order; a failed request adds nothing. |
| `Fetcher.FetchRequests` | matrixstats.py:27-37 | A fetch makes 1 to 101 requests, the initial one first. The initial request fails exactly when the result is that one request and no events. The first paging request uses the initial answer's `end` token. |
| `Fetcher.FetchChain` | matrixstats.py:35-51 | Paging requests are chained by `end` tokens. The fetch stops right after the first error, empty page or early stop, unless the 100 pages run out first. |
| `Fetcher.FetchChunks` | matrixstats.py:30-49 | The events are the paging chunks in order; the initial answer's chunk is never included. |
| `Fetcher.StopTimeValueIgnored` | matrixstats.py:42-43 | Two `stop_time` values with the same truthiness give the same fetch: the value is replaced by the fixed cutoff. |
| `Fetcher.EmptyHistory` | matrixstats.py:35-51 | If the first page is empty, the fetch returns no events after exactly two requests. |
| `Events.FrameBodies` | matrixstats.py:65-68 | Row `i` of the table has a `body` exactly when event `i`'s payload has one, and then it is that text. |
| `Events.ToFrame` | matrixstats.py:64-71 | The table has one row per event, and row `i` is built from event `i`. |
| `Events.RowRoundTrip` | matrixstats.py:65-68 | A row keeps every field of its event, and has a body exactly when the payload does. |
| `Events.FrameRoundTrip` | matrixstats.py:64-71 | The table keeps every extracted field: the events can be read back from it unchanged. |
| `Events.EventsToDataFrame` | matrixstats.py:55-73 | The loop builds one row per event, in order (`ToFrame`). |
| `Cache.FetchTable` | matrixstats.py:90 | A fetched room table is `events_to_dataframe` of that room's fetch (`RoomTables`). |
| `Cache.Store.Put` | matrixstats.py:91 | Writing a table replaces or adds that key and changes nothing else. |
| `Cache.Store.PutAll` | matrixstats.py:102-104 | Writing every result table overwrites those keys and leaves other store keys untouched. |
| `Cache.PathsStripToKeys` | matrixstats.py:86 | Stripping the leading `/` from each store path gives exactly the keys of the stored tables. |
| `Cache.FetchedFor` | matrixstats.py:88-90 | The tables fetched for a key set are keyed by exactly the requested keys among them. |
| `Cache.GetAllEvents` | matrixstats.py:76-105 | Reuse branch: the result is `Merged`, the fetched keys are exactly the missing ones, each fetched once, and the store gains just those tables. Other branch: every room is fetched once, and the result is all fetched tables (none when a refresh has no cache file). With a refresh and a cache file, the store is overwritten key by key. A refresh without one leaves the store unchanged. |
| `Cache.ReuseCache` | matrixstats.py:84-95 | The returned tables are `Merged`. Each missing key is fetched once. The store gains the missing tables and is never pruned. |
| `Cache.FetchMissing` | matrixstats.py:87-91 | Each missing key is fetched once. The in-memory cache gains exactly the fetched tables, and the store ends equal to it. |
| `Cache.DropKeys` | matrixstats.py:92-93 | Popping the stale keys leaves the cache without exactly those keys. |
| `Cache.FetchEvery` | matrixstats.py:96-105 | Every requested room is fetched exactly once. The result has exactly the requested keys (none when a refresh has no cache file). With a refresh and a cache file, each table is put into the store, overwriting same-key entries and leaving others. A refresh without one leaves the store unchanged. |
| `Cache.FetchKeys` | matrixstats.py:97-100 | The loop over `rooms.items()` yields a fetched table for each requested key. Each key is fetched once. |
| `Cache.MergedIsRestrictedCache` | matrixstats.py:84-95 | A reuse result has exactly the requested keys. Cached tables are returned unchanged. Only missing keys get fetched tables. It equals the updated cache minus the stale keys. |
| `Cache.ReuseIsIdempotent` | matrixstats.py:84-95 | After a reuse pass, a second pass has nothing missing and returns the same tables. |
| `Cache.ReuseAfterRefresh` | matrixstats.py:84-105 | After a refresh wrote every room, a reuse pass fetches nothing and returns what the refresh returned. |
| `Cache.ReuseEmptyIsFetchAll` | matrixstats.py:84-100 | Reusing an empty store fetches every room and returns what a fetch-all returns. |
| `Cache.DistinctCount` | matrixstats.py:88-91 | A list of distinct fetched keys holding exactly a key set has one entry per key. |
| `Cache.ReusePassTwice` | matrixstats.py:84-95 | Two reuse passes in a row: the second fetches nothing and returns the same result, and every requested key is then in the store. |
| `Community.AliasKey` | matrixstats.py:119-120 | A room key never contains `:` or `-`. |
| `Community.IndexKeys` | matrixstats.py:115-121 | A key is in the result exactly when some listed room (one with a non-empty canonical alias) has it. No key contains `:` or `-`. |
| `Community.IndexLastWins` | matrixstats.py:115-121 | A listed room that no later listed room shares its key with gives that key its value. |
| `Community.LaterRoomWins` | matrixstats.py:121 | Appending a listed room sets its key to its value and leaves which other keys are present unchanged. |
| `Community.UnlistedRoomSkipped` | matrixstats.py:116-118 | A room with a missing or empty canonical alias changes nothing. |
| `Community.GetRoomsInCommunity` | matrixstats.py:108-122 | The loop builds `Index(rooms, false)`, mapping keys to room ids. |
| `Community.GetRoomAliasesInCommunity` | matrixstats.py:125-135 | The loop builds `Index(rooms, true)`, mapping keys to canonical aliases. |
| `DisplayNames.Format` | matrixstats.py:180 | A template with a `{s}` field yields a string containing `s`. |
| `DisplayNames.Canonical` | matrixstats.py:177-178 | Only `@Cadair:matrix.org` changes, into `@cadair:cadair.com`. The rewrite never changes whether the id contains `:`. |
| `DisplayNames.LookupFallback` | matrixstats.py:182-187 | A sender's name is the lookup result for its id, or the id itself when the lookup fails. Either way it is followed by `*` exactly when the template was not applied. |
| `DisplayNames.TemplatedExactly` | matrixstats.py:179 | The template is applied exactly when one is given and the sender as passed has no `:`. |
| `DisplayNames.FullIdMarked` | matrixstats.py:176-187 | A sender with `:` is looked up after the rewrite, and its name gets `*`. |
| `DisplayNames.NoTemplateMarked` | matrixstats.py:176-187 | Without a template, every name is the lookup of the rewritten id followed by `*`. |
| `DisplayNames.BareNameTemplated` | matrixstats.py:179-187 | A sender without `:` is looked up through the template and gets no `*`, whatever the lookup gives. |
| `DisplayNames.MatrixOrgRewritten` | matrixstats.py:177-185 | `@Cadair:matrix.org` is looked up as `@cadair:cadair.com`. On a failed lookup it is shown as `@cadair:cadair.com*`. |
| `DisplayNames.GetDisplayNames` | matrixstats.py:173-189 | One name per sender, in input order, each being `DisplayName` of that sender. |
| `Collections.FlattenKeys` | matrixstats.py:162-170 | A key is in the merge exactly when some dictionary has it. |
| `Collections.FlattenLastWins` | matrixstats.py:166-169 | A key takes the value of the last dictionary that has it. |
| `Collections.FlattenDisjoint` | matrixstats.py:162-165 | Without key conflicts, every dictionary's entries survive unchanged. |
| `Collections.FlattenDicts` | matrixstats.py:162-170 | The nested loops build `Flatten(dicts)`, whatever order each dictionary's items come in. |
| `Collections.AssignAll` | matrixstats.py:168-169 | Assigning every item of a dictionary into `out` gives `out + adict`. |
| `Collections.Lengths` | matrixstats.py:224-225 | Each key is paired with the length of its value, in dictionary order. |
| `Collections.GetLenKey` | matrixstats.py:221-226 | One entry per key, a permutation of the (key, length) pairs. Lengths are non-increasing with `reverse` and non-decreasing without. |
| `Collections.GetLenKeyStable` | matrixstats.py:223 | Keys with equal lengths keep their dictionary order, also with `reverse`. |
| `Collections.SortSorts` | matrixstats.py:223 | The stable insertion sort orders by rank. |
| `Collections.SortedPairwise` | matrixstats.py:223 | Ordered neighbours give an ordering of every pair. |
| `Collections.Insert` | matrixstats.py:223 | Inserting adds exactly one entry, and the new first entry is either the inserted one or the old first. |
| `Collections.InsertPermutes` | matrixstats.py:223 | Inserting adds exactly the new entry to the multiset. |
| `Collections.InsertSorted` | matrixstats.py:223 | Inserting into a sorted list keeps it sorted. |
| `Collections.SortPermutes` | matrixstats.py:223 | The sort is a permutation of its input. |
| `Collections.SortStable` | matrixstats.py:223 | For every rank, the entries of that rank keep their input order. |
| `Collections.InsertOfRank` | matrixstats.py:223 | Inserting into a sorted list puts the new entry after all entries of its own rank. |
| `Messages.Where` | matrixstats.py:156 | A boolean-mask selection keeps exactly the rows that pass, and never grows the table. |
| `Messages.WhereWhere` | matrixstats.py:156-158 | Selecting twice is selecting once with both tests. |
| `Messages.WhereAll` | matrixstats.py:156-158 | A mask every row passes leaves the table unchanged. |
| `Messages.FilterEventsByMessages` | matrixstats.py:150-159 | The result has the same room keys as its input. |
| `Messages.FilterOnePass` | matrixstats.py:156-158 | Each room keeps exactly its `m.room.message` rows, minus the GitHub bot's rows when asked, in order. |
| `Messages.FilterIdempotent` | matrixstats.py:150-159 | Filtering a second time changes nothing. |
| `Messages.KeepRooms` | matrixstats.py:200-203 | Empty tables are dropped. A non-empty table is kept unchanged exactly when its room is not ignored; a missing list ignores nothing. |
| `Messages.USender` | matrixstats.py:210 | An id without `slack` is kept. An id with it becomes a name without `_` or `:`. |
| `Messages.SlackSenderName` | matrixstats.py:210 | `@<prefix>_<name>:<server>` containing `slack` becomes `<name>`. |
| `Messages.BodyLen` | matrixstats.py:215 | A missing body counts 0; otherwise the count is the body's length. |
| `Messages.BodyLenOfEvent` | matrixstats.py:65-68 | An event's `body_len` is the length of its payload's `body`, or 0 when there is none. |
| `Messages.Annotate` | matrixstats.py:208-216 | One annotated message per row, in order, with that row's `usender` and `body_len`. |
| `Messages.LoadMessagesAsWritten` | matrixstats.py:192-218 | `load_messages` as written: per group, the kept tables and their annotated message tables, over the same groups. |
| `Messages.IgnoreGithubHasNoEffect` | matrixstats.py:192-206 | As written, `ignore_github=True` gives the same result as `False`. |
| `Messages.AsWrittenIsUnflagged` | matrixstats.py:192-216 | As written, `load_messages` equals the corrected one with `ignore_github` off, whatever the caller passes. So `LoadMessagesSpec` describes the code as written with the flag off. |
| `Messages.GithubBotKeptAsWritten` | matrixstats.py:206 | As written, a GitHub bot message survives `ignore_github=True`. |
| `Messages.LoadMessages` | matrixstats.py:192-218 | The corrected `load_messages` covers the same groups in events and messages. |
| `Messages.LoadMessagesSpec` | matrixstats.py:200-216 | Every kept room has a message table: the annotated rows that pass `Kept`. Its events table is the fetched, non-empty one. |
| `Messages.NoGithubMessages` | matrixstats.py:193-206 | Corrected: with `ignore_github`, no listed message is from the GitHub bot. |
| `Text.BeforeFirst` | matrixstats.py:119 | `split(c)[0]`: a prefix with no `c`, followed in the input by `c` when shorter. |
| `Text.AfterLast` | matrixstats.py:210 | `split(c)[-1]`: a suffix with no `c`, preceded in the input by `c` when shorter. |
| `Text.ReplaceChar` | matrixstats.py:120 | Each `a` becomes `b`, everything else is unchanged, and no `a` is left. |
| `Text.DropFirst` | matrixstats.py:119 | `s[1:]` is one shorter than a non-empty `s`, which is its first character followed by the result. An empty `s` gives the empty string. |
| `Text.BeforeFirstOf` | matrixstats.py:119 | `split(c)[0]` of `x + c + y`, with no `c` in `x`, is `x`. |
| `Text.AfterLastOf` | matrixstats.py:210 | `split(c)[-1]` of `x + c + y`, with no `c` in `y`, is `y`. |

## Left out

- Network, HTTP and the Matrix client:
  - `api.get_room_messages`, `api._send` and `api.get_display_name` are parameters, not calls.
  - `MatrixRequestError` is the `RequestError` response.
  - A display-name lookup raising anything is a failed lookup.
  - The room listing from `/groups/{id}/rooms` is given as a list of rooms.
- Determinism of the server: the endpoint and the display-name lookup are modelled as pure functions, so the same request always gets the same answer. A server whose answers change over time is outside the model. `Fetcher.StopTimeValueIgnored` and `Cache.ReusePassTwice` depend on this.
- `print` calls, `print_sorted_len` and `print_sorted_value`: output only.
- HDF5 file I/O:
  - the store is an in-memory `Store` object, with no open or close;
  - the cache file name only matters through its truthiness (`cache`);
  - `pd.HDFStore(None)` raising on a refresh without a file is the result `None`.
- Timestamps and timezones:
  - timestamps stay integer milliseconds; the `datetime` conversion of the index at line 72 and `set_index` are left out;
  - the cutoff is taken as 2019-01-01 00:00 UTC (1546300800000 ms), whereas the source reads it in the local timezone.
- `Fetcher.MostlyBefore`: the float test `len(stopping) > len(times)/1.1` is the integer test `11*count > 10*len`. The two can disagree only at the boundary `11*count == 10*len`, where float rounding decides.
- `calculate_active_senders`: pandas groupby with means and medians (floating point), remote lookups, and its `top_n` override.
- Iteration order of the cache loops and the merge:
  - Python sets (`missing_keys`, the stale keys) iterate in an unspecified order.
  - Dicts (`adict.items()` in `flatten_dicts`, `rooms.items()` in `get_all_events`) iterate in insertion order.
  - The model over-approximates both by an arbitrary choice of the next key, in `FetchMissing`, `DropKeys`, `FetchKeys` and `AssignAll`.
  - No proved property depends on the order.
  - The fetch lists are stated as sets of distinct keys.
- Event payloads: `content` holds string values only, so nested JSON is out.
- A DataFrame built from no events has no `type` or `sender` column, so pandas raises when `filter_events_by_messages` masks it. `Messages.FilterEventsByMessages` returns the empty table instead. `load_messages` drops empty tables before filtering, so it is not affected.
- `DisplayNames.Format`: `str.format` is modelled for templates whose only field is `{s}`. Other fields, format specs and brace escapes are out.
- `Messages.LoadMessages` and `Messages.LoadMessagesAsWritten`:
  - they start from the tables each group's `get_all_events` produced (that call is modelled in `Cache`);
  - the `.loc` column assignments are modelled as a new `Message` record per row.
- The loops of `get_all_messages_for_room` and `get_all_events` are split into helper methods:
  - `PageBackwards` and `NextPage` for the paging loop;
  - `FetchMissing`, `DropKeys`, `FetchKeys` and `Store.PutAll` for the cache loops.
- Disagreement between the documentation and the code of `get_all_events`: the code is followed. The stale keys of a reuse pass are dropped from the returned dict only. The store is never pruned.

## Findings

| source | as written | input that shows it | evidently intended | confidence | as-written member | corrected member |
|---|---|---|---|---|---|---|
| matrixstats.py:193-206 | `load_messages` takes `ignore_github` but calls `filter_events_by_messages(gevents)` without it, so the flag has no effect | a group with one room whose only row is an `m.room.message` from `@_neb_github_=40_cadair=3amatrix.org:matrix.org`, with `ignore_github=True`: the row is still listed | the flag is passed on, and the GitHub bot's messages are dropped when it is set | high (not executed) | `Messages.GithubBotKeptAsWritten` | `Messages.NoGithubMessages` |
