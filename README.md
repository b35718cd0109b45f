# jellychord playlist core, in Dafny

jellychord is a Discord music bot that plays tracks from a Jellyfin server.
This project models the part of `main.py` that has real logic of its own:

- the per-guild play queue (`queues`) and the commands that edit it: enqueue
  at `now`/`next`/`last` (a track or an album's tracks), `remove`, `promote`,
  `demote`, `playnow`, `clear`, `stop` and `shuffle`;
- the completion step `playNextTrack`, which moves the head of the queue into
  `playing` and drops the key of a queue it empties;
- the timing record of the playing track (`starttime`, `playtime-offset`,
  `paused`), the `pause`/`resume` commands, and the clock `nowplaying` shows;
- the paging arithmetic of the playlist view (`queue` and the `listView`
  callbacks, buttons and page picker);
- the formatting helpers `formatTimeSecs` and `getTrackString`, the 100-character
  option-label cap, the `searchHelper` type mapping and the `LIMIT` clamp.

Modules, leaves first: `Wrappers` (Option, Result), `Tracks` (catalog items
and queue entries), `Format`, `Queue` (the sequence operations and the
Fisher–Yates shuffle), `Timing`, `Paging` (with the `ListView` class),
`Search` (which takes `Min` from `Paging`) and `Player` (the `Registry` class
that holds `queues` and `playing`).

The registry's invariant, `Registry.Valid()`, is that a guild has a key in
`queues` only while its list is non-empty. Every command keeps it. The one
exception is an album with no tracks queued for a guild that has no queue:
the code then creates the key with an empty list. A later `playNextTrack` on
that guild pops from an empty list and raises; `PlayNext` models this as `Raised`.

The model follows the code as written, including these behaviours:

- the page count is `len // 20 + 1`, not the ceiling of `len / 20`. A queue
  whose length is a multiple of 20 gets a trailing empty page;
- a stale page index is not clamped. It shows an empty slice;
- a new view leaves the next button enabled even when there is only one page;
- pause, resume and stop answer "not connected" from the voice connection
  alone. Pause and resume on a guild without a `playing` record raise in the
  code; the model reports `NothingPlaying` and changes nothing;
- a `now` insertion or `playnow` only stops the current track. The completion
  step then starts the new head.

## Model

| member | source | states |
|---|---|---|
| Tracks.MakeEntry | main.py:40-45 | the entry keeps Artists, Name and Id; Length is the tick count floored to whole seconds (length·10⁷ ≤ ticks < (length+1)·10⁷) |
| Tracks.AlbumEntries | main.py:60-66 | an album expands to one entry per track, in the catalog's order |
| Format.NatToString | main.py:150 | decimal rendering: at least one digit, no leading zero, and it reads back as the number |
| Format.Pad2 | main.py:150-152 | `:02d`: at least two digits, exactly two below 100, reads back as the number |
| Format.SplitSecs | main.py:145-147 | h·3600 + m·60 + s = secs with m, s < 60 |
| Format.FormatTimeSecs | main.py:144-152 | the text has an hours field exactly when secs ≥ 3600 or hours are forced, and is `MM:SS` otherwise; it holds only digits and colons |
| Format.FormatTimeRoundTrip | main.py:144-152 | every clock text reads back as the seconds it was made from, under a reader that accepts only minute and second fields below 60 and an hours field without a leading zero |
| Format.ClockTextUnique | main.py:144-152 | the clock text is canonical: any text that reads back as secs, with an hours field exactly when secs ≥ 3600 or hours are forced, is the text `formatTimeSecs` prints |
| Format.JoinComma | main.py:136 | joining one name gives that name; joining none gives the empty string |
| Format.JoinCommaRoundTrip | main.py:133-136 | comma-joined artist names split back into the same names when no name holds a comma |
| Format.TrackString | main.py:124-142 | the label starts with the type tag and ends with the name; within the artist limit it is tag + comma-joined artists + " - " + name; past the limit it is tag + "Various Artists - " + name, whoever the artists are; with no artists it is tag + name (or tag + "Various Artists" + name under a negative limit) |
| Format.TrackStringReadBack | main.py:124-142 | within the artist limit an untagged label determines the artists and the name: reading it back at the first " - " and splitting at commas recovers both, when no artist name holds a comma or " - " or ends in " -" (hyphens inside a name are fine) |
| Format.HyphenatedArtistExample | main.py:124-142 | ["Jay-Z"] with name "Song" gives "Jay-Z - Song", which reads back as the same artist and name |
| Format.TruncateLabel | main.py:167 | at most 100 characters; a label of 100 or fewer is kept; a longer one keeps its first 97 characters followed by "..." |
| Search.ClampLimit | main.py:14 | the limit lies in 1..25, equals the configured value inside that range and the nearest bound outside it |
| Search.SearchTypes | main.py:28-34 | Audio is asked for unless the filter is Album; MusicAlbum unless it is Soundtrack; both, in that order, with no filter |
| Search.OptionLabel | main.py:166-167 | an option label is the track label at artist limit 1 when that has at most 100 characters, and otherwise its first 97 characters followed by "..."; with the type shown it starts with the tag's initial, `A` for an album and `T` for a track |
| Search.PickerLabels | main.py:165-168 | one label per result up to 25, each at most 100 characters, and never with the type tag (as written) |
| Search.PickerHidesKind | main.py:166 | as written, an album and a track with the same artists and name get the same label |
| Search.PickerLabelsFor | main.py:165-168 | corrected picker labels: the type tag is shown when the search had no type filter |
| Search.PickerShowsKind | main.py:166 | with the corrected labels, an unfiltered search never shows an album and a track under one label |
| Queue.Place | main.py:71-74 | `last` puts the block after the old queue, `next`/`now` put it before; both parts keep their order; the multiset is the sum |
| Queue.PlaceLastTwice | main.py:49-50 | two tracks queued `last` come out in arrival order |
| Queue.PlaceNextTwice | main.py:51-52 | two single tracks queued `next`/`now` come out in reverse arrival order |
| Queue.RemoveAt | main.py:404 | removing index i leaves one entry fewer; entries before i stay put and entries after it move up by one |
| Queue.RemoveAtMultiset | main.py:404 | removal takes out exactly one copy of the removed entry |
| Queue.MoveToFront | main.py:418-419 | the chosen entry comes first and the rest are the queue without it, in order; same multiset |
| Queue.MoveToBack | main.py:431-432 | the chosen entry comes last and the rest are the queue without it, in order; same multiset |
| Queue.MoveToFrontAt | main.py:418-419 | after a promotion, entries ahead of the promoted one shift back by one and those behind it stay |
| Queue.MoveToBackAt | main.py:431-432 | after a demotion, entries behind the demoted one shift forward by one and those ahead of it stay |
| Queue.PromoteHead | main.py:418-419 | promoting the head changes nothing |
| Queue.DemoteTail | main.py:431-432 | demoting the tail changes nothing |
| Queue.DemoteAfterPromote | main.py:418-432 | promoting an entry and then demoting the head gives the same queue as demoting the entry directly |
| Queue.PromoteExample | main.py:418-419 | promote(3) on [A,B,C,D] gives [C,A,B,D] |
| Queue.DemoteExample | main.py:431-432 | demote(2) on [A,B,C,D] gives [A,C,D,B] |
| Queue.Shuffle | main.py:393 | the Fisher–Yates shuffle returns a permutation: same length, same multiset |
| Timing.Elapsed | main.py:317-319 | a paused record shows exactly the banked offset; a running one shows the offset plus the time since its start |
| Timing.Begin | main.py:108-118 | a started track is unpaused with no banked time: elapsed at a later time t is t − start |
| Timing.Pause | main.py:350-356 | pause freezes the clock at the elapsed time of the pause; a paused record is left unchanged |
| Timing.Resume | main.py:365-368 | resume restarts the clock, counting on from the elapsed time at the resume; a running record is left unchanged |
| Timing.PauseResume | main.py:346-373 | after pause then resume, elapsed = play time before the pause + time since the resume |
| Timing.TimelineExample | main.py:315-319 | start at 0, pause at 10 ⇒ elapsed 10 while paused; resume at 15 ⇒ elapsed 15 at 20 |
| Timing.ShownSeconds | main.py:321 | the shown seconds are the elapsed time modulo one day (`timedelta.seconds`) |
| Timing.NowPlayingClock | main.py:321 | the `elapsed/length` text reads back, split at its "/", as the shown seconds and the track length |
| Timing.NowPlayingClockReads | main.py:315-321 | both halves of the `nowplaying` clock read back as the shown seconds and the length; the elapsed half has hours whenever the track is at least an hour long |
| Paging.PageCount | main.py:186 | pages ≥ 1 and (pages − 1)·20 ≤ len < pages·20 |
| Paging.PageSlice | main.py:188 | item i of page p is queue item p·20 + i; the page holds min(20, len − p·20) items, none past the end |
| Paging.PageSliceCovers | main.py:186-188 | every queue entry k is item k mod 20 of page k div 20, and that page exists |
| Paging.LastPageEmpty | main.py:186-188 | the last page is empty exactly when the length is a multiple of 20 |
| Paging.StalePageEmpty | main.py:216-221 | a page index at or past the page count is not clamped and shows nothing |
| Paging.PageListing | main.py:186-192 | page p shows the slice of page p, numbered from p·20 + 1 so that each number is the entry's 1-based queue index, and `Page: p+1/pages` |
| Paging.PagingExample | main.py:186-189 | 45 entries make 3 pages; the second shows entries 21–40 |
| Paging.QueueListing | main.py:329-330 | as written, the `queue` command shows the first 20 entries and numbers them from 0 |
| Paging.QueueListingOffByOne | main.py:329 | as written, `1.` is printed beside the second entry while index 1 names the first |
| Paging.QueueListingFixed | main.py:329 | corrected first page: the first page's slice, numbered from 1, the index the index commands take |
| Paging.QueueListingFixedIsFirstPage | main.py:329 | the corrected first page is the page the view shows when page 0 is refreshed |
| Paging.OptionLabels | main.py:194-195 | the page picker offers pages 1..min(pages, 25) |
| Paging.ListView.constructor | main.py:241-251 | a new view is on page 0 with previous disabled and next enabled |
| Paging.ListView.UpdateItems | main.py:253-256 | previous is disabled exactly on page 0, next exactly on page pages − 1, and the options are rebuilt |
| Paging.ListView.Select | main.py:185-192 | picking option v shows page v − 1; without a queue nothing changes |
| Paging.ListView.Prev | main.py:202-209 | previous moves back one page; the page never goes below 0 |
| Paging.ListView.Next | main.py:216-223 | next moves on one page, with no clamp |
| Paging.ListView.Refresh | main.py:231-237 | refresh recomputes the same page from the current queue |
| Player.Commit | main.py:110-111 | a list written back under a guild's key drops the key when the list is empty; other guilds are untouched |
| Player.Registry.constructor | main.py:20-21 | both maps start empty |
| Player.Registry.EnqueueTrack | main.py:39-57 | the guild's queue becomes Place(old queue, [entry], position); start the player without a voice client, stop the current track for `now` |
| Player.Registry.EnqueueAlbum | main.py:59-79 | the album's entries are placed as one block; the invariant holds when the album has tracks or the guild already had a queue |
| Player.Registry.PlayNext | main.py:102-122 | the old head plays with a fresh clock and exactly the old tail stays queued (key dropped when empty); without a queue the current track is dropped; under the invariant a guild with a key always starts a track |
| Player.Registry.Remove | main.py:395-407 | no queue or index > length: an error and no change; otherwise returns entry index − 1, removes it, drops the key when the queue empties |
| Player.Registry.Promote | main.py:409-420 | same errors; otherwise entry index − 1 moves to the head |
| Player.Registry.Demote | main.py:422-433 | same errors; otherwise entry index − 1 moves to the tail |
| Player.Registry.PlayNow | main.py:435-447 | promotes like Promote and then stops the current track |
| Player.Registry.Clear | main.py:449-456 | drops the guild's key and reports whether there was one |
| Player.Registry.Stop | main.py:375-384 | with a voice client, drops the guild's queue; without one, no change |
| Player.Registry.Shuffle | main.py:386-393 | the guild's queue is permuted and every other queue is untouched; no queue: no change |
| Player.Registry.Pause | main.py:346-359 | only a running track is paused, by Timing.Pause; otherwise nothing changes |
| Player.Registry.Resume | main.py:361-373 | only a paused track is resumed, by Timing.Resume; otherwise nothing changes |
| Player.Registry.NowPlaying | main.py:313-323 | a clock is shown exactly when the guild has a playing record, and it is that record's `elapsed/length` clock |
| Player.Registry.QueueCommand | main.py:325-332 | a listing exists exactly when the guild has a queue, and it is the first page numbered from 0, as written |
| Player.Registry.QueueCommandFixed | main.py:325-332 | corrected command: a listing exactly when the guild has a queue, numbered from 1 and equal to page 0 of the view |

## Findings

| source | as written | input that shows it | evidently intended | confidence | as-written member | corrected member |
|---|---|---|---|---|---|---|
| main.py:329 | the `queue` command numbers entries `0.`, `1.`, … | queue [A, B]: `1.` is printed beside B, but `remove 1` deletes A | numbered from 1, like the page callbacks (main.py:189) and the 1-based index commands | high, not executed | Paging.QueueListingOffByOne | Paging.QueueListingFixed |
| main.py:166 | `type=not bool(type)` reads Python's builtin `type`, which is always truthy, so the Album:/Track: tag is never shown | an unfiltered search returning an album and a track, both "Universal Migrator" by Ayreon: two identical option labels | show the tag when the search had no type filter | medium, not executed | Search.PickerHidesKind | Search.PickerLabelsFor |

`Player.Registry.QueueCommand` and `Paging.QueueListing` keep the numbering as
written; `Player.Registry.QueueCommandFixed` is the command with the corrected numbering.

## Left out

- Voice and audio: connecting, stream URLs, FFmpeg decoding and the voice client's play, stop, pause, resume and disconnect. Whether the guild has a voice client is a parameter; the follow-up action is returned as a value.
- `startPlayer`, `playTrack`, and the `start` and `skip` commands. They only decide whether to connect, resume the voice client or stop it.
- `playHelperGeneric`. It only chooses the album or the track path from the item's `Type`.
- The Jellyfin client. Search results and album tracks are parameters of the model.
- Concurrency. The completion callback runs on another thread; the model runs `PlayNext` as one sequential step. The race between a stop and its completion is not modelled.
- Randomness. The shuffle's random draws come from a parameter function. Only the permutation property is claimed.
- Wall-clock time. Timestamps are whole seconds, so microseconds are not modelled.
- Run-time ticks. They are taken as non-negative, so lengths and clock inputs are natural numbers. The code would also format negative values.
- Command replies and message text. The search command's flow, the picker's selection callback and timeout, the view's `on_timeout`, the debug `playbyid` command, configuration loading and `bot.run` are left out.
- Player.Registry.PlayNow: the code calls `stop` on the voice client even when there is none. That raises after the promotion. The model returns the stop request and does not model the exception.
- Paging.ListView: page indices are natural numbers. The previous button is disabled on page 0, so a negative page is never reached.
