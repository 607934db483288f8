# IPTV player for Android TV: parser, navigation and tables in Dafny

This project models the core of an Android TV IPTV player and proves what
that core promises:

- **The M3U playlist parser.** `M3UParser.parsePlaylist` reads the fetched
  document line by line. It keeps the attributes of the last `#EXTINF:` line,
  the media-segment tag of section 4.3.2.1 of RFC 8216, together with the IPTV
  attributes `tvg-id`, `tvg-name`, `tvg-logo` and `group-title`. When a
  stream-URL line arrives, it emits one channel with the next dense position.
  `parseExtInf` extracts the attributes (`m3u_parser.dfy`), using Kotlin's
  string operations and the first match of a `key="([^"]+)"` regular
  expression (`text.dfy`).
- **The player's channel navigation** (`player.dfy`). Up and down step through
  the channel list and wrap around at both ends. Digit keys fill a buffer of at
  most four digits. Enter, centre or a 2-second timer then jump to the 1-based
  channel with that number. Menu flips the favourite flag of the playing
  channel, and Back finishes the activity.
- **The three Room tables and their DAOs** (`channels.dfy`, `epg.dfy`,
  `playlists.dfy`), built on shared table semantics (`tables.dfy`):
  - `WHERE` as a filter;
  - `ORDER BY` as a sorted permutation;
  - `@Insert(onConflict = REPLACE)` into an AUTOINCREMENT table;
  - `@Update` and `@Delete` by primary key.

  Each table is a sequence of rows in insertion order (the rowid order while
  keys come from AUTOINCREMENT) plus the next fresh key. The
  queries are functions of the rows. The mutations are methods of a DAO object
  that owns the rows, and each is proved against a function of the old rows.

How the imperative code is modelled:

- The parser loop is a method with loop invariants. It is proved equal to a
  recursive specification (`ChannelsOf`, `Pending`), and the parser's
  promises are proved as lemmas about that specification.
- `PlayerActivity` is a class with the activity's fields. Each handler is
  proved against a function on a snapshot of the fields (`Nav`), and the
  promises of the player are proved about those functions.

Behaviour worth noting:

- The code has no reconciliation step on re-import. New channel rows are
  inserted with fresh ids each time (`MainActivity.kt:194-199`), so a
  re-import duplicates channels and does not carry favourites over
  (`Channels.FreshInsertsAppend`).
- A URL line with no preceding `#EXTINF:` is dropped. No default
  "Unknown Channel" entry is made (`M3UParser.OrphanUrlDropped`).
- Deleting a playlist does not delete its channels, because the code defines
  no cascade.

## Model

| member | source | states |
|---|---|---|
| M3UParser.ParseExtInfSpec | app/src/main/java/com/iptvplayer/utils/M3UParser.kt:59-80 | each attribute is the capture of the leftmost `key="…"` with a non-empty value, or absent when there is none; the title is the trimmed text after the last comma (the whole line without a comma), absent exactly when that text is blank; a present title is that text with only blank text removed on either side, free of commas and with no whitespace at either end |
| M3UParser.ParseExtInf | app/src/main/java/com/iptvplayer/utils/M3UParser.kt:73-77 | a title that is present is never empty |
| M3UParser.NextPending | app/src/main/java/com/iptvplayer/utils/M3UParser.kt:29-48 | one line keeps pending attributes free of empty titles |
| M3UParser.Pending | app/src/main/java/com/iptvplayer/utils/M3UParser.kt:24-48 | the attributes pending after a prefix of the document never carry an empty title |
| M3UParser.ChannelsOf | app/src/main/java/com/iptvplayer/utils/M3UParser.kt:33-46 | every emitted channel has position equal to its index (0, 1, 2, … with no gap), id 0, the given playlist id, is not a favourite, and has a non-empty name and URL |
| M3UParser.ParsePlaylist | app/src/main/java/com/iptvplayer/utils/M3UParser.kt:22-51 | the line loop returns exactly the channels of the recursive specification, with dense positions and the given playlist id |
| M3UParser.PendingIsLastExtInf | app/src/main/java/com/iptvplayer/utils/M3UParser.kt:30-31 | the pending attributes are those of the last `#EXTINF:` line when only ignored lines follow it |
| M3UParser.PendingHasSource | app/src/main/java/com/iptvplayer/utils/M3UParser.kt:29-48 | pending attributes always come from an `#EXTINF:` line followed only by ignored lines |
| M3UParser.PendingLastLine | app/src/main/java/com/iptvplayer/utils/M3UParser.kt:29-48 | an ignored line keeps the pending attributes, an `#EXTINF:` line replaces them, a URL line clears them |
| M3UParser.UrlLineClearsPending | app/src/main/java/com/iptvplayer/utils/M3UParser.kt:47 | after any URL line nothing is pending, whether or not a channel was emitted |
| M3UParser.OrphanUrlDropped | app/src/main/java/com/iptvplayer/utils/M3UParser.kt:34 | a URL line with nothing pending emits nothing |
| M3UParser.UrlLineEmits | app/src/main/java/com/iptvplayer/utils/M3UParser.kt:33-46 | a URL line with pending attributes appends exactly one channel, at the next position, named from those attributes, with the trimmed URL |
| M3UParser.SecondUrlDropped | app/src/main/java/com/iptvplayer/utils/M3UParser.kt:33-47 | of two URL lines in a row only the first can produce a channel |
| M3UParser.ReadOneLine | app/src/main/java/com/iptvplayer/utils/M3UParser.kt:27-51 | reading one more line is one step of the loop |
| M3UParser.SameStateSameOutput | app/src/main/java/com/iptvplayer/utils/M3UParser.kt:27-51 | two documents that leave the same channels and pending attributes produce the same channels for any continuation |
| M3UParser.OtherLineIgnored | app/src/main/java/com/iptvplayer/utils/M3UParser.kt:29-49 | a blank line or a `#` line other than `#EXTINF:` can be inserted anywhere without changing the result |
| M3UParser.LastExtInfWins | app/src/main/java/com/iptvplayer/utils/M3UParser.kt:30-31 | of two consecutive `#EXTINF:` lines the first has no effect |
| M3UParser.ChannelCountBounds | app/src/main/java/com/iptvplayer/utils/M3UParser.kt:29-49 | there are at most as many channels as URL lines, and channels plus a pending entry are at most the `#EXTINF:` lines |
| Text.TrimSpec | app/src/main/java/com/iptvplayer/utils/M3UParser.kt:74 | `trim()` yields the part between a whitespace prefix and suffix, neither starting nor ending with whitespace, empty exactly for a blank string |
| Text.TrimSurrounded | app/src/main/java/com/iptvplayer/utils/M3UParser.kt:74 | the input is the `trim()` result with blank text on either side |
| Text.LastIndexOf | app/src/main/java/com/iptvplayer/utils/M3UParser.kt:74 | the index of the last occurrence, or -1 exactly when there is none |
| Text.SubstringAfterLast | app/src/main/java/com/iptvplayer/utils/M3UParser.kt:74 | the text after the last comma (which contains no comma), or the whole string when there is no comma |
| Text.MatchAtExact | app/src/main/java/com/iptvplayer/utils/M3UParser.kt:63-66 | the regular expression matches at an index with a capture exactly when `key="`, a non-empty quote-free value and a closing quote start there |
| Text.FirstMatchFromSpec | app/src/main/java/com/iptvplayer/utils/M3UParser.kt:68-71 | the search from an index finds the leftmost match at or after it, or reports that none exists |
| Text.FindQuotedValueSpec | app/src/main/java/com/iptvplayer/utils/M3UParser.kt:68-71 | `find(line)?.groupValues[1]` is the capture of the leftmost match, null exactly when nothing matches, so an empty `key=""` is skipped |
| Text.FirstMatchUnique | app/src/main/java/com/iptvplayer/utils/M3UParser.kt:68-71 | the leftmost-match description determines the result |
| Text.Contains | app/src/main/java/com/iptvplayer/PlayerActivity.kt:272 | `contains` holds exactly when the text occurs at some index |
| Text.TextLeTotal | app/src/main/java/com/iptvplayer/database/PlaylistDao.kt:9 | any two names are ordered by the BINARY collation |
| Text.TextLeTransitive | app/src/main/java/com/iptvplayer/database/PlaylistDao.kt:9 | the BINARY collation order is transitive |
| Tables.Where | app/src/main/java/com/iptvplayer/database/ChannelDao.kt:12 | a `WHERE` keeps every matching row exactly as often as it occurs and drops every other row |
| Tables.WhereKeepsDistinct | app/src/main/java/com/iptvplayer/models/Channel.kt:8-9 | a filtered table still has distinct primary keys |
| Tables.FirstWhere | app/src/main/java/com/iptvplayer/database/EpgDao.kt:12-13 | a single-row query returns a matching row (the first in insertion order), null exactly when no row matches |
| Tables.Lookup | app/src/main/java/com/iptvplayer/database/ChannelDao.kt:24-25 | `WHERE id = :k` returns a row with that key, null exactly when there is none, and with distinct keys the only one |
| Tables.Replace | app/src/main/java/com/iptvplayer/database/ChannelDao.kt:33-34 | `@Update` replaces the row with the entity's key and no other; with no such row nothing changes |
| Tables.Upsert | app/src/main/java/com/iptvplayer/database/ChannelDao.kt:27-28 | `INSERT OR REPLACE` keeps keys distinct, replaces the row with the same key or appends, and keeps every other row |
| Tables.ReplaceContents | app/src/main/java/com/iptvplayer/database/ChannelDao.kt:27-28 | replacing an existing key keeps keys distinct and the rows are the new one plus the others |
| Tables.WhereOfWhere | app/src/main/java/com/iptvplayer/database/EpgDao.kt:21-22 | filtering after a weaker filter is the same as filtering the original rows |
| Tables.FirstWhereOfWhere | app/src/main/java/com/iptvplayer/database/EpgDao.kt:21-22 | a single-row query after a weaker filter finds the same row |
| Tables.NextKeyAfter | app/src/main/java/com/iptvplayer/models/Channel.kt:8-9 | the next fresh key is above every stored key and never decreases |
| Tables.UpsertKeepsKeyed | app/src/main/java/com/iptvplayer/models/Channel.kt:8-9 | an insert keeps keys distinct, non-zero and below the next fresh key |
| Tables.FreshKeyAppends | app/src/main/java/com/iptvplayer/models/Channel.kt:8-9 | a row with a fresh key is appended and replaces nothing |
| Tables.ReplaceKeepsKeyed | app/src/main/java/com/iptvplayer/database/ChannelDao.kt:33-34 | an update keeps the key invariant |
| Tables.WhereKeepsKeyed | app/src/main/java/com/iptvplayer/database/ChannelDao.kt:39-40 | a delete keeps the key invariant |
| Tables.InsertRow | app/src/main/java/com/iptvplayer/database/ChannelDao.kt:27-28 | the inserted row carries the assigned key and replaces the row with that key; other rows stay; id 0 appends |
| Tables.InsertRows | app/src/main/java/com/iptvplayer/database/ChannelDao.kt:30-31 | a list insert keeps the key invariant |
| Tables.FreshRowsAppend | app/src/main/java/com/iptvplayer/database/ChannelDao.kt:30-31 | rows with id 0 are appended with consecutive fresh keys and every existing row stays |
| Tables.InsertSorted | app/src/main/java/com/iptvplayer/database/ChannelDao.kt:9 | inserting into a sorted list keeps it sorted and adds exactly that row |
| Tables.SortBy | app/src/main/java/com/iptvplayer/database/ChannelDao.kt:9 | `ORDER BY` returns a sorted permutation of its input |
| Channels.AllChannels | app/src/main/java/com/iptvplayer/database/ChannelDao.kt:9-10 | every row exactly once, non-decreasing by position |
| Channels.ByPosition | app/src/main/java/com/iptvplayer/database/ChannelDao.kt:12-19 | exactly the matching rows, by position |
| Channels.ChannelsByPlaylist | app/src/main/java/com/iptvplayer/database/ChannelDao.kt:12-13 | exactly the rows of the playlist, by position |
| Channels.FavoriteChannels | app/src/main/java/com/iptvplayer/database/ChannelDao.kt:15-16 | exactly the favourite rows, by position |
| Channels.ChannelsByGroup | app/src/main/java/com/iptvplayer/database/ChannelDao.kt:18-19 | exactly the rows of the group (never a row with no group), by position |
| Channels.AllGroups | app/src/main/java/com/iptvplayer/database/ChannelDao.kt:21-22 | a title is listed exactly when some row has it as its group, and none is listed twice |
| Channels.ChannelById | app/src/main/java/com/iptvplayer/database/ChannelDao.kt:24-25 | the row with that id, null exactly when there is none |
| Channels.SetFavorite | app/src/main/java/com/iptvplayer/database/ChannelDao.kt:42-43 | only the favourite flag of the rows with that id changes |
| Channels.FavoriteRoundTrip | app/src/main/java/com/iptvplayer/database/ChannelDao.kt:42-43 | setting the flag back to its old value restores the table |
| Channels.SetFavoriteIdempotent | app/src/main/java/com/iptvplayer/database/ChannelDao.kt:42-43 | setting the same flag twice is setting it once |
| Channels.SetFavoriteKeepsKeyed | app/src/main/java/com/iptvplayer/database/ChannelDao.kt:42-43 | the favourite update keeps the key invariant |
| Channels.InsertOne | app/src/main/java/com/iptvplayer/database/ChannelDao.kt:27-28 | the channel with its assigned id replaces the row with that id and every other row stays |
| Channels.InsertAll | app/src/main/java/com/iptvplayer/database/ChannelDao.kt:30-31 | a list insert is the inserts of its channels one after another |
| Channels.FreshInsertsAppend | app/src/main/java/com/iptvplayer/database/ChannelDao.kt:30-31 | channels with id 0 are appended with consecutive fresh ids and stored rows, favourite flags included, stay, so a re-import duplicates |
| Channels.ChannelDao.InsertChannel | app/src/main/java/com/iptvplayer/database/ChannelDao.kt:27-28 | returns the assigned row id, and the row with that id is the channel |
| Channels.ChannelDao.InsertChannels | app/src/main/java/com/iptvplayer/database/ChannelDao.kt:30-31 | the loop of single inserts yields the list insert |
| Channels.ChannelDao.UpdateChannel | app/src/main/java/com/iptvplayer/database/ChannelDao.kt:33-34 | the table becomes the `@Update` of the old table |
| Channels.ChannelDao.DeleteChannel | app/src/main/java/com/iptvplayer/database/ChannelDao.kt:36-37 | removes the rows with the channel's id and only those |
| Channels.ChannelDao.DeleteChannelsByPlaylist | app/src/main/java/com/iptvplayer/database/ChannelDao.kt:39-40 | removes exactly the rows of the playlist |
| Channels.ChannelDao.UpdateFavorite | app/src/main/java/com/iptvplayer/database/ChannelDao.kt:42-43 | the table becomes the favourite update of the old table |
| Epg.ProgramsForChannel | app/src/main/java/com/iptvplayer/database/EpgDao.kt:9-10 | exactly the programmes of the channel ending after the time, non-decreasing by start time |
| Epg.CurrentProgram | app/src/main/java/com/iptvplayer/database/EpgDao.kt:12-13 | a programme of the channel on air at the time, null exactly when there is none |
| Epg.Pruned | app/src/main/java/com/iptvplayer/database/EpgDao.kt:21-22 | exactly the programmes ending before the time are removed; one ending at the time stays |
| Epg.PruneKeepsLaterQueries | app/src/main/java/com/iptvplayer/database/EpgDao.kt:9-22 | pruning at a time changes neither query at any time from one millisecond before it onwards |
| Epg.InsertOne | app/src/main/java/com/iptvplayer/database/EpgDao.kt:15-16 | the programme with its assigned id replaces the row with that id and every other row stays |
| Epg.InsertAll | app/src/main/java/com/iptvplayer/database/EpgDao.kt:18-19 | a list insert is the inserts of its programmes one after another |
| Epg.EpgDao.InsertProgram | app/src/main/java/com/iptvplayer/database/EpgDao.kt:15-16 | the table becomes the single insert of the old table |
| Epg.EpgDao.InsertPrograms | app/src/main/java/com/iptvplayer/database/EpgDao.kt:18-19 | the loop of single inserts yields the list insert |
| Epg.EpgDao.DeleteOldPrograms | app/src/main/java/com/iptvplayer/database/EpgDao.kt:21-22 | keeps exactly the programmes ending at or after the time |
| Epg.EpgDao.DeleteAllPrograms | app/src/main/java/com/iptvplayer/database/EpgDao.kt:24-25 | the table is empty and the key counter is kept |
| Playlists.NameOrder | app/src/main/java/com/iptvplayer/database/PlaylistDao.kt:9 | ordering by name is a total preorder |
| Playlists.AllPlaylists | app/src/main/java/com/iptvplayer/database/PlaylistDao.kt:9-10 | every row exactly once, ordered by name |
| Playlists.PlaylistById | app/src/main/java/com/iptvplayer/database/PlaylistDao.kt:12-13 | the row with that id, null exactly when there is none |
| Playlists.InsertOne | app/src/main/java/com/iptvplayer/database/PlaylistDao.kt:15-16 | the playlist with its assigned id replaces the row with that id and every other row stays |
| Playlists.PlaylistDao.InsertPlaylist | app/src/main/java/com/iptvplayer/database/PlaylistDao.kt:15-16 | returns the assigned id, and the row with that id is the playlist |
| Playlists.PlaylistDao.UpdatePlaylist | app/src/main/java/com/iptvplayer/database/PlaylistDao.kt:18-19 | the table becomes the `@Update` of the old table |
| Playlists.PlaylistDao.DeletePlaylist | app/src/main/java/com/iptvplayer/database/PlaylistDao.kt:21-22 | removes the row with that id and only it; only the playlist table may change |
| Player.DigitOf | app/src/main/java/com/iptvplayer/PlayerActivity.kt:176-187 | key codes 0-9 type the digits `0`-`9` |
| Player.DecimalValue | app/src/main/java/com/iptvplayer/PlayerActivity.kt:225 | `toIntOrNull` of k digits is below 10^k |
| Player.DecimalValueZero | app/src/main/java/com/iptvplayer/PlayerActivity.kt:225-229 | the number is 0 exactly when every digit is `0` |
| Player.FourDigitsBound | app/src/main/java/com/iptvplayer/PlayerActivity.kt:194 | four digits are at most 9999, so the conversion never fails |
| Player.IndexOfFirst | app/src/main/java/com/iptvplayer/PlayerActivity.kt:65 | the first index with that id, or -1 exactly when none has it |
| Player.StepIndex | app/src/main/java/com/iptvplayer/PlayerActivity.kt:241 | one step stays in range; up wraps from the first channel to the last, down from the last to the first |
| Player.WrapCases | app/src/main/java/com/iptvplayer/PlayerActivity.kt:241 | the remainder formula is the neighbour with wrap-around |
| Player.DownPresses | app/src/main/java/com/iptvplayer/PlayerActivity.kt:141-143 | repeated down presses stay in range |
| Player.DownPressesCycle | app/src/main/java/com/iptvplayer/PlayerActivity.kt:141-143 | after k down presses the index is (index + k) mod size, so size presses return to the start |
| Player.UpUndoesDown | app/src/main/java/com/iptvplayer/PlayerActivity.kt:137-143 | up undoes down and down undoes up |
| Player.PlaySource | app/src/main/java/com/iptvplayer/PlayerActivity.kt:264-291 | HLS exactly when the URL contains ".m3u8", always for that URL |
| Player.SetupSource | app/src/main/java/com/iptvplayer/PlayerActivity.kt:103-113 | the launch channel gets a source exactly when its URL contains ".m3u8", and then the one `playChannel` would choose |
| Player.LaunchDropsProgressive | app/src/main/java/com/iptvplayer/PlayerActivity.kt:108-112 | a non-HLS launch URL gets no source, although `playChannel` would play it |
| Player.LaunchDropsProgressiveExample | app/src/main/java/com/iptvplayer/PlayerActivity.kt:108-112 | for the URL "a.ts" the launch source is absent and the switch source is progressive |
| Player.Inv | app/src/main/java/com/iptvplayer/PlayerActivity.kt:35-41 | the navigation invariant every handler keeps: the index is a position of the list (0 while it is empty), the buffer holds at most four digits, and the timer is posted only with digits typed |
| Player.Launch | app/src/main/java/com/iptvplayer/PlayerActivity.kt:52-57 | the intent extras with defaults -1 and "", an empty list, index 0, no digits, no timer, the launch source |
| Player.Loaded | app/src/main/java/com/iptvplayer/PlayerActivity.kt:60-68 | the new list; the index of the first channel with the playing id, or 0 when none has it; nothing else changes |
| Player.SwitchTo | app/src/main/java/com/iptvplayer/PlayerActivity.kt:246-262 | index, id, URL and name come from the target channel, which is played; list, digits and timer stay |
| Player.StepRelative | app/src/main/java/com/iptvplayer/PlayerActivity.kt:238-244 | nothing on an empty list, otherwise the whole state is the switch to the neighbouring channel with wrap-around: its id, URL and name, played, with list, digits, timer and finish flag kept |
| Player.NumberInput | app/src/main/java/com/iptvplayer/PlayerActivity.kt:175-204 | a digit is appended and the timer posted while fewer than four are held; a fifth digit is dropped and cancels the timer; a non-digit key does nothing |
| Player.Jump | app/src/main/java/com/iptvplayer/PlayerActivity.kt:222-236 | nothing with no digits; otherwise the digits are cleared, and the switch happens exactly when 1 <= number <= size, to index number - 1, as the whole switch state with list and finish flag kept; otherwise only the digits are cleared |
| Player.ZerosNeverSwitch | app/src/main/java/com/iptvplayer/PlayerActivity.kt:229 | "0" … "0000" only clear the buffer |
| Player.TimerFired | app/src/main/java/com/iptvplayer/PlayerActivity.kt:199-202 | the posted callback confirms the typed number; with nothing posted nothing happens |
| Player.TypedNumberPlays | app/src/main/java/com/iptvplayer/PlayerActivity.kt:194-202 | typing digit d and letting the timer fire plays channel d |
| Player.KeyDown | app/src/main/java/com/iptvplayer/PlayerActivity.kt:135-173 | which keys are consumed, that a passed-on key changes nothing, and what each handled key does; Enter or centre confirm only with digits typed |
| Player.FavoriteToggled | app/src/main/java/com/iptvplayer/PlayerActivity.kt:293-304 | with no playing channel or no such row the table is unchanged; otherwise the row's flag becomes the negation of the stored flag |
| Player.ToggleTwiceRestores | app/src/main/java/com/iptvplayer/PlayerActivity.kt:293-304 | toggling twice restores the table |
| Player.PlayerActivity.constructor | app/src/main/java/com/iptvplayer/PlayerActivity.kt:44-58 | the fields after `onCreate` are the launch state |
| Player.PlayerActivity.LoadChannelList | app/src/main/java/com/iptvplayer/PlayerActivity.kt:60-68 | the fields become the loaded state |
| Player.PlayerActivity.PlayChannel | app/src/main/java/com/iptvplayer/PlayerActivity.kt:264-291 | only the playing source changes, to the one chosen for the URL |
| Player.PlayerActivity.SwitchToChannel | app/src/main/java/com/iptvplayer/PlayerActivity.kt:246-262 | the fields become the switched state |
| Player.PlayerActivity.ChangeChannelRelative | app/src/main/java/com/iptvplayer/PlayerActivity.kt:238-244 | the fields become the stepped state |
| Player.PlayerActivity.CancelNumberInputTimer | app/src/main/java/com/iptvplayer/PlayerActivity.kt:215-220 | only the timer is cancelled |
| Player.PlayerActivity.HandleNumberInput | app/src/main/java/com/iptvplayer/PlayerActivity.kt:175-204 | the fields become the state after the digit key |
| Player.PlayerActivity.JumpToChannelNumber | app/src/main/java/com/iptvplayer/PlayerActivity.kt:222-236 | the fields become the state after the jump |
| Player.PlayerActivity.TimerExpired | app/src/main/java/com/iptvplayer/PlayerActivity.kt:199-202 | the fields become the state after the callback |
| Player.PlayerActivity.ToggleFavorite | app/src/main/java/com/iptvplayer/PlayerActivity.kt:293-304 | the channel table becomes the toggled table; the key counter stays |
| Player.PlayerActivity.OnKeyDown | app/src/main/java/com/iptvplayer/PlayerActivity.kt:135-173 | fields and result are those of the key handler, only Menu changes the channel rows, and the key counter never changes |

## Left out

- The HTTP fetch (`M3UParser.kt:12-20`), its null-body early return and the catch-all that returns the channels read so far (`M3UParser.kt:52-56`): the parser takes the document as a sequence of lines.
- `BufferedReader.readLine` line splitting: library behaviour. Lines are given.
- Coroutines, dispatchers, LiveData observation and the database singleton (`AppDatabase.kt`). Every DAO call is a synchronous step. LiveData redelivery of the channel list is the `LoadChannelList` event, and it does not follow a favourite toggle by itself.
- The `Handler.postDelayed` number-entry timer: it is a `timerPending` flag plus the `TimerExpired` event, with no clock.
- ExoPlayer: the player is reduced to the source it is given (`nowPlaying`). Buffering, errors, immersive UI flags, Toasts, the channel-number overlay and the lifecycle callbacks `onStart`, `onStop` and `onDestroy` are left out.
- The database handle of `PlayerActivity` is a parameter of `ToggleFavorite` and `OnKeyDown` rather than a field.
- `MainActivity`, `EpgActivity` and `SettingsActivity` are UI glue and are not part of this model.
- Integer widths: ids and times are Kotlin `Long` and positions `Int`. Here they are unbounded integers. Position overflow (past 2^31 channels) and AUTOINCREMENT exhaustion at 2^63 - 1 are not modelled.
- SQL order among rows with equal sort keys, and the order of `getAllGroups`, are unspecified. The queries promise only sorted-and-permutation and set-with-no-duplicates; the concrete order chosen here is the insertion sort's and first appearance.
- `Channels.AllGroups`: states membership and absence of duplicates only, not the order of the result, which SQL leaves open.
- `Epg.CurrentProgram`: when programmes of one channel overlap, SQL may return any of them. The model returns the first in insertion order and the contract promises only "some programme on air".
- SQLite compares TEXT with the BINARY collation on UTF-8 bytes. Here it is code-point order, which agrees with it on valid Unicode text.
- Kotlin's `isWhitespace` (Java's `isWhitespace` or `isSpaceChar`) is written out as an explicit list of characters and ranges; no other Unicode property table is modelled.
- `Player.DecimalValue` has no null result: the buffer holds one to four decimal digits whenever it is converted, so `toIntOrNull` never returns null there and the null test in the jump condition is never the deciding one.
- Room's insert binds an `id` of 0 as NULL (autoGenerate), so the table picks the next key. AUTOINCREMENT's counter is the next fresh key, `nextId`. An explicit negative id is stored as given.

## Findings

| source | as written | input that shows it | evidently intended | confidence | as-written member | corrected member |
|---|---|---|---|---|---|---|
| app/src/main/java/com/iptvplayer/PlayerActivity.kt:108-112 | for a launch URL without ".m3u8", `setupPlayer` builds a media item, never hands it to the player, prepares an empty player and returns | launching with the URL "a.ts" (any progressive stream) | play it as a plain media item, as `playChannel` does for the same URL (lines 285-290) | high; not executed | Player.LaunchDropsProgressiveExample | Player.PlaySource |
