# Playlist-Player, modelled in Dafny

Playlist-Player is a desktop audio player for existing playlist files
(.m3u, .m3u8, .fplite). This project models its core and proves properties
of that model. The core covered here:

- **The playback session controller** `VLCGaplessPlayer` (module `Player`).
  It holds the playlist, the current index, the set of finished tracks, the
  audio output mode and the VLC objects it drives. It resumes each playlist
  from its history and saves that history on every timer tick.
- **The per-playlist history store** (module `History`). One JSON record sits
  beside each playlist file. The disk is a map from file path to what reading
  that file yields.
- **The playlist reader** (module `Scanner`). It turns each line of a playlist
  file into an absolute Windows track path and picks playlist files out of a
  folder walk.
- **The GUI-free logic of the main window** (modules `Window`, `Timeline`,
  `PlaylistDialog`):
  - the de-duplicating list of known playlists, and its rename and delete;
  - the seek slider: press, drag, release and wheel;
  - the clamping and the "MM:SS / MM:SS" label of the 100 ms tick;
  - the Up/Down move of the Create Playlist dialog.

Supporting modules:

- `Engine`: the VLC instance and media player as the controller sees them.
  This is the media, the playing flag, and time and length in milliseconds.
- `PyText`: Python's `str.strip`/`lstrip`/`lower`/`startswith`, and list
  indexing with negative indices.
- `StrOrder`: Python's string order, and `sorted()` over a set of strings.
- `Wrappers`: `Option` and `Result`.

Conventions:

- Positions and lengths are whole milliseconds. The source uses float
  seconds, obtained by dividing VLC's milliseconds by 1000.
- An exception that escapes an operation in the source is an error value in
  the model. History: `ReadFailed`, `NotAnObject`. Player: `ReadFailed`, `AttributeError`, `IndexError`.
- Operations that update objects in place are methods on classes:
  - `GaplessPlayer`;
  - `HistoryStore`;
  - `MainWindow`, holding the playlists and the rows of their list widget;
  - `CreatePlaylistDialog`, holding its file list;
  - `TimelineSlider`.
- The loops of the source are loops here:
  - the length poll of `_set_media`;
  - the line loop of `_read_playlist`;
  - the walk loop of `scan_playlists`;
  - `_add_playlists`;
  - `sorted()` of the finished set;
  - the take and insert loops of `_move_sel`.

  Each loop is proved against a function that states what it computes.
- What the user answers in the rename and delete dialogs is a parameter, and
  so is the widget's current row.

Where this model departs from the project's own description, it follows the
code:

- No history write is debounced or atomic. `history.save` overwrites the file
  directly, and `tick` saves on every call, whatever the header of `main.py`
  says (main.py:11).
- `set_output` ignores an unknown mode silently. The test at
  tests/test_player_output.py:24-26 expects a `ValueError`. The code returns
  without raising, and the model follows the code: see
  `Player.GaplessPlayer.SetOutput`.

## Model

| member | source | states |
|---|---|---|
| History.HistPathInjective | history.py:14-15 | Two playlists with the same history file are the same playlist. |
| History.SavedDoc | history.py:35-37 | The record save writes has exactly the keys track_index, position and finished, and reads back the index and position given. |
| History.HistoryStore.Load | history.py:18-28 | Load returns what LoadSpec says for the store's files: the decoded object, the default record for a missing or undecodable file, ReadFailed for a read error, and NotAnObject for a file holding JSON that is not an object. |
| History.HistoryStore.Save | history.py:31-39 | Only the playlist's history file changes; it now holds the three-key record with finished sorted (SaveSpec). |
| History.LoadMissing | history.py:18-28 | Without a history file, load yields track 0, position 0 and no finished tracks. |
| History.LoadGarbage | history.py:20-24 | A file that fails to decode loads exactly as if it were missing. |
| History.LoadFailsIff | history.py:20-24 | Load fails if and only if the history file exists and either reading it raises or it holds JSON that is not an object; it fails with ReadFailed exactly in the first case. |
| History.SaveDropsOtherKeys | history.py:35-39 | After a save, loading gives a record with exactly the three keys, whatever the file held before. |
| History.SavedFinishedSorted | history.py:37 | The stored finished list is strictly sorted (so duplicate-free), holds exactly the finished set and has one entry per element. |
| History.SaveContentsCanonical | history.py:37-38 | Any strictly sorted list of the finished set is the one written: the file does not depend on the set's iteration order. |
| History.SaveLoadRoundTrip | history.py:18-39 | Save then load returns the saved index, position and finished set. |
| History.SaveLeavesOthers | history.py:31-39 | Saving one playlist's history does not change what any other playlist loads. |
| History.WholeSecondsPosition | player.py:104-106 | A record whose position is the JSON integer 42 resumes 42 s (42 000 ms) in; its missing keys give track 0 and nothing finished. |
| History.SaveOverwrites | history.py:38-39 | A second save of the same playlist completely replaces the first. |
| StrOrder.LeqTotal | history.py:37 | Any two strings are ordered one way or the other. |
| StrOrder.LeqAntisymmetric | history.py:37 | Strings ordered both ways are equal. |
| StrOrder.LeqTransitive | history.py:37 | The string order is transitive. |
| StrOrder.Insert | history.py:37 | Inserting into a strictly sorted list keeps it strictly sorted and adds exactly the new element. |
| StrOrder.SortedUnique | history.py:37 | Two strictly sorted lists with the same elements are equal. |
| StrOrder.SortedSeqLength | history.py:37 | sorted() of a set has exactly one entry per element. |
| StrOrder.SortSet | history.py:37 | The loop that sorts the finished set returns the unique sorted list, whatever order it visits the set in. |
| PyText.LStripSpec | scanner.py:46 | lstrip removes exactly the leading whitespace run. |
| PyText.RStripSpec | scanner.py:46 | rstrip removes exactly the trailing whitespace run. |
| PyText.StripSpec | main.py:405-406 | strip leaves no whitespace at either end, and is empty exactly for all-whitespace text. |
| PyText.LStripCharSpec | scanner.py:46 | lstrip("\ufeff") removes exactly the leading run of byte-order marks. |
| PyText.StripNoSpace | main.py:405-406 | strip leaves text alone whose ends are not whitespace. |
| Player.ModeOptions | player.py:26-31 | Distinct output modes build instances with distinct options. directsound passes "--aout=directsound"; wasapi_exclusive passes both "--aout=wasapi" and "--wasapi-exclusivemode". |
| Player.ResumeIndex | player.py:105 | The resumed index is the saved one when that is at most max(0, len-1), and max(0, len-1) otherwise: clamped from above only. |
| Player.ResumeOpensIff | player.py:105-109 | The resumed track can be indexed if and only if the list is non-empty and the saved index is not below -len. |
| Player.ResumeWithinList | player.py:105 | With a non-empty list and a non-negative saved index, the resumed index is a position in the list. |
| Player.GaplessPlayer.constructor | player.py:35-46 | A new controller has mode "default", one instance built with the base options, an empty playlist, idx 0, nothing finished, no media player and no playlist path. |
| Player.GaplessPlayer.MakeInstance | player.py:49-52 | A fresh instance is built with ["--no-video", "--quiet"] plus the current mode's options. |
| Player.GaplessPlayer.SetOutput | player.py:54-72 | The current mode or an unknown one changes nothing and builds no instance. A new valid mode: exactly one new instance with that mode's options; the old player is stopped; the same tracks are reloaded from history; idx is set to the old idx clamped to the list; the opened track is the history's and the old position is sought. |
| Player.GaplessPlayer.Restore | player.py:69-72 | The playlist is reloaded as LoadPlaylist does. When that opens a track, idx becomes the old index clamped to the list while the history's track plays, sought to the old position; after a failed load or an IndexError the media player is the one it was. |
| Player.GaplessPlayer.SetMedia | player.py:81-97 | The previous player is stopped before a fresh one opens the path and plays, so at most one plays. With a non-zero resume point the length is polled 1 to 10 times, stopping at the first positive answer, and the time is set; with 0 there is no poll and no seek. |
| Player.NonObjectHistoryRaises | player.py:104-105 | A history file holding JSON that is not an object makes load_playlist raise AttributeError. |
| Player.GaplessPlayer.LoadPlaylist | player.py:100-110 | The path and tracks are adopted. A read error, or the AttributeError of `hist.get` on a history that is not an object, escapes before idx and finished change. Otherwise idx is the clamped saved index and finished the saved set. The saved position is resumed on playlist[idx] and the callback fires once, unless idx cannot index the list (IndexError). |
| Player.GaplessPlayer.Play | player.py:113 | With a player it plays, media and time unchanged; without one nothing changes. |
| Player.GaplessPlayer.Pause | player.py:114 | With a player its playing state toggles; without one nothing changes. |
| Player.GaplessPlayer.Stop | player.py:115-118 | The player is stopped and dropped; with none nothing happens, so stop is idempotent. |
| Player.GaplessPlayer.NextTrack | player.py:121-126 | The current track is marked finished. The next track is opened, with the callback, only when idx+1 < len; on the last track idx and the player are unchanged and no callback fires. |
| Player.GaplessPlayer.PrevTrack | player.py:128-132 | Only when idx > 0 is idx decremented and that track reopened, with the callback; finished is never touched. |
| Player.GaplessPlayer.Length | player.py:135-136 | The media length in ms, or 0 without a player. |
| Player.GaplessPlayer.Position | player.py:138-139 | The playback time in ms, or 0 without a player. |
| Player.GaplessPlayer.Seek | player.py:141-143 | With a player its time becomes the given ms, all else unchanged; without one nothing changes. |
| Player.GaplessPlayer.MarkFinished | player.py:146-148 | With a playlist path and a non-empty playlist, the track at idx joins finished (IndexError when idx is out of range); otherwise nothing changes. |
| Player.GaplessPlayer.Tick | player.py:150-159 | With a player and a playlist path, the store holds what save(idx, position, finished) writes; otherwise the store is unchanged. |
| Scanner.StripFrom | scanner.py:30-35 | The search from prefix k returns a suffix of the line: the line itself when no prefix from k on matches, otherwise the line minus the first matching prefix. |
| Scanner.StripPrefix | scanner.py:30-35 | The first URI prefix that starts the lower-cased line is removed from the original-case line; with no match the line is unchanged. |
| Scanner.StripPrefixLongestFirst | scanner.py:19 | Because the longest prefix is tried first, "FILE:///C:/a" becomes "C:/a" and "file://server/a" becomes "server/a". |
| Scanner.Unquote | scanner.py:51 | Percent-decoding never lengthens the text and leaves text without '%' unchanged. |
| Scanner.UnquoteQuote | scanner.py:51 | Decoding undoes percent-encoding: any octet string, every character written as %XY, decodes back to itself. The source agrees for ASCII text; see the Scanner.Unquote line under Left out for other octets. |
| Scanner.UnquoteSpace | scanner.py:51 | "a%20b" decodes to "a b"; a '%' not followed by two hex digits stays. |
| Scanner.ToBackslashes | scanner.py:52 | Every '/' becomes '\' and nothing else changes, so no '/' remains. |
| Scanner.Name | scanner.py:88-91 | The file name is a final part of the path and contains no separator. |
| Scanner.NameAfterSep | scanner.py:88-91 | The file name is the whole path or exactly what follows the last separator. |
| Scanner.Suffix | scanner.py:88 | The suffix is empty or starts with '.'. |
| Scanner.SuffixSpec | scanner.py:88 | The suffix is empty exactly when the name is empty, ends in '.', or has no '.' after its first character; otherwise it is the end of the name from its last '.', at least two characters and shorter than the name. |
| Scanner.StemSuffixSplitName | scanner.py:88-91 | Stem followed by suffix is the file name, and the suffix holds a single '.'. |
| Scanner.Drive | scanner.py:54-55 | The drive of a path is a prefix of it, and is non-empty exactly when the path has a drive. |
| Scanner.JoinPath | scanner.py:55-56 | base_dir / rel keeps base_dir's drive; it starts with base_dir unless rel is rooted, is base_dir itself for an empty rel, ends with rel, and holds no character outside base_dir, rel and '\'. A relative rel under a base_dir not ending in '\' is separated from it by exactly one '\'. |
| Scanner.JoinUnderBase | scanner.py:55-56 | A plain name joined under a base_dir below its drive's root is its child: its parent is base_dir and its name is the name. |
| Scanner.JoinUnderRoot | scanner.py:55-56 | A plain name joined under a drive's root folder (D:\ or \\server\share\) gets no second separator; its parent is that root and its name is the name. |
| Scanner.ParentAtDriveRoot | scanner.py:68 | A playlist at a drive's root, D:\x.m3u, has D:\ as its folder, not the bare drive D:. |
| Scanner.Decoded | scanner.py:50-52 | The decoded path contains no '/'. |
| Scanner.ParseLineSpec | scanner.py:46-58 | A line yields no track exactly when, after the BOM and whitespace are stripped, it is blank or starts with '#'. A decoded path with a drive is the track itself. Any other track keeps base_dir's drive: it is that drive followed by the path when the path is rooted, and lies under base_dir otherwise. Such a track ends with the decoded path, and a relative path is separated from a base_dir not ending in '\' by exactly one '\'. No track contains '/' when base_dir has none. |
| Scanner.RootedLineDecodes | scanner.py:46-52 | The line "/Music/a.mp3" is kept whole and decodes to the rooted path "\Music\a.mp3". |
| Scanner.RootedLineJoins | scanner.py:54-56 | "\Music\a.mp3" has no drive, and in a playlist under D:\pl it becomes "D:\Music\a.mp3". |
| Scanner.SplitJoin | scanner.py:70 | splitlines undoes "\n".join for non-empty lines without line breaks. |
| Scanner.ReadPlaylist | scanner.py:61-74 | The tracks are ParseAll of the text's lines: _parse_line of each line that names a track, in file order. |
| Scanner.ParsePlainTrack | scanner.py:46-58 | A drive path with no '%', line break, leading '#' or surrounding whitespace parses to itself with '/' turned into '\', whatever the base directory; one without '/' parses to itself. |
| Scanner.ParseAllPlain | scanner.py:68-74 | A list of such paths parses line by line to the same paths with '/' turned into '\'. |
| Scanner.CreatedPlaylistReadsBack | main.py:438 | Tracks written newline-joined by _create_playlist are read back by _read_playlist in order, with '/' turned into '\'; tracks written with '\' come back as the same list. |
| Scanner.SlashTrackReadsBack | main.py:438 | A track written as C:/Music/a.mp3 reads back as C:\Music\a.mp3. |
| Scanner.ScanAllFiltered | scanner.py:87-92 | Every playlist found has a lower-cased suffix in PLAYLIST_EXTS and is named by its file's stem. |
| Scanner.ScanAllSelects | scanner.py:87-92 | Every file entry with a playlist suffix yields its playlist, and every playlist found comes from such an entry. |
| Scanner.ScanOne | scanner.py:88-92 | One walk entry yields its playlist exactly when it is a file with a playlist suffix. |
| Scanner.ScanPlaylists | scanner.py:78-93 | A missing root gives []. Otherwise the result is one playlist per selected entry of the walk, in walk order. |
| Timeline.Clamp | main.py:117-118 | max(lo, min(hi, v)) lies in [lo, hi], is v when v is inside, and the nearer bound otherwise. |
| Timeline.Trunc | main.py:94 | int() of a float truncates toward zero. |
| Timeline.ValueAt | main.py:92-94 | _val fails (division by zero) exactly when the slider has no width. |
| Timeline.ValueAtInRange | main.py:92-94 | _val always lies within [minimum, maximum]. |
| Timeline.ValueAtEnds | main.py:92-94 | Left of the groove is the minimum; at or past its right end is the maximum. |
| Timeline.ValueAtMonotone | main.py:92-94 | A pixel further right never gives a smaller value. |
| Timeline.WheelDeltaAsWritten | main.py:115-116 | The wheel delta as written: step times the floor of angle/120, non-negative for upward turns and negative for downward ones. |
| Timeline.WheelDeltaAsWrittenAsymmetric | main.py:116 | A quarter notch down jumps back 5 s while a quarter notch up does nothing. |
| Timeline.WheelNotches | main.py:116 | The count of whole notches, rounded toward zero in both directions. |
| Timeline.WheelDeltaSymmetric | main.py:115-116 | The corrected delta: turning the other way moves by the same amount the other way. |
| Timeline.WheelDeltaAgrees | main.py:115-116 | For upward turns and for whole notches the corrected delta equals the code as written. |
| Timeline.WheelPartialNotchIsNoop | main.py:116 | Less than one notch either way does not move the slider. |
| Timeline.WheelTarget | main.py:115-118 | The value a wheel event lands on, with the floored delta as written: it lies within [minimum, maximum], is old + delta*TICKS whenever that fits, and never moves against the direction of the turn. |
| Timeline.WheelTargetAsymmetric | main.py:115-118 | On a 0..1000 slider at 500, a quarter notch down lands on 450 while a quarter notch up stays at 500. |
| Timeline.TimelineSlider.constructor | main.py:88-90 | A new slider has Qt's default range 0..99 and value 0, and is not held down. |
| Timeline.TimelineSlider.JumpTo | main.py:99-100 | The value becomes _val of the pointer's x and that position is requested (value/TICKS seconds, in ms); a zero-width slider fails and keeps its value. |
| Timeline.TimelineSlider.Press | main.py:96-101 | A left press holds the slider down and jumps to the value under the pointer; any other button changes nothing and requests nothing. |
| Timeline.TimelineSlider.Drag | main.py:103-107 | While the slider is held down the value follows the pointer and that position is requested; otherwise nothing changes. |
| Timeline.TimelineSlider.Release | main.py:109-112 | Afterwards the slider is not held down. |
| Timeline.TimelineSlider.Wheel | main.py:114-120 | The value becomes WheelTarget of the old value (the floored delta as written, clamped) and that position is requested. |
| Timeline.TimelineSlider.ShowTick | main.py:536-544 | Unless the slider is held down, its maximum and value become the clamped length and position in ticks; while it is held down they stay. The label text is the clamped one either way. |
| Timeline.TickClamp | main.py:536-544 | Length in [1 s, 24 h] and position in [0, length], each unchanged when already inside. The slider maximum is at most 86 400 × TICKS and not below its value. The label shows whole seconds. |
| Timeline.DecimalReadsBack | main.py:553-554 | str(n) is a non-empty run of digits that reads back as n. |
| Timeline.Pad2ReadsBack | main.py:553-554 | ":02" padding keeps the value, gives at least two digits, and exactly two below 100. |
| Timeline.ClockSecondsField | main.py:551-555 | The seconds field is two digits after a ':' and is n % 60, so 00–59. |
| Timeline.ClockRoundTrip | main.py:551-555 | Reading "MM:SS" back gives the seconds shown. |
| Timeline.TwentyFourHours | main.py:551-555 | Minutes past 99 keep every digit: 24 hours shows as "1440:00". |
| PlaylistDialog.Insert | main.py:174 | insertItem adds exactly one item. |
| PlaylistDialog.InsertPlaces | main.py:174 | insertItem puts the item at the row clamped into the list, and taking it out again gives back the list. |
| PlaylistDialog.TakeShifting | main.py:172 | The takes as written: one outcome per selected row. |
| PlaylistDialog.TakeShiftingSplit | main.py:172 | Taking a run of rows is taking its first part, then taking the rest from what the first part left. |
| PlaylistDialog.TakeShiftingFinds | main.py:172 | Take j finds the item at its row of the list as the earlier takes left it, or nothing when that list is too short. |
| PlaylistDialog.MoveAsWritten | main.py:165-174 | As written: nothing moves when nothing is selected or a shifted row leaves the list. |
| PlaylistDialog.MoveAsWrittenMisplaces | main.py:165-174 | As written, with `setItemSelected` leaving the list alone, moving rows 1 and 2 of [a,b,c,d,e] up gives [b,d,a,c,e], while the intended move gives [b,c,a,d,e]. |
| PlaylistDialog.MoveAsWrittenMissesItem | main.py:165-174 | As written, moving rows 1 and 2 of [a,b,c] up finds row 2 gone at the second take, so c never moves: [b,a,c] instead of the intended [b,c,a]. |
| PlaylistDialog.TakeShiftingKeeps | main.py:172 | The takes remove from the list exactly the items they find. |
| PlaylistDialog.InsertTakenAdds | main.py:173-174 | The inserts add exactly the items found. |
| PlaylistDialog.MoveAsWrittenKeepsItems | main.py:165-174 | Even as written, with `setItemSelected` leaving the list alone, a move loses and duplicates nothing: the list afterwards is a permutation of the list before. |
| PlaylistDialog.Moved | main.py:165-174 | The corrected move: nothing changes when nothing is selected or a shifted row leaves the list. |
| PlaylistDialog.MovedSpec | main.py:165-174 | A move keeps the length and puts each selected item at its row plus delta. The unselected items keep their relative order. |
| PlaylistDialog.MoveSingleRowAgrees | main.py:165-174 | With one selected row the code as written and the corrected move agree. |
| PlaylistDialog.CreatePlaylistDialog.constructor | main.py:130 | The dialog's file list starts empty. |
| PlaylistDialog.MoveRaising | main.py:165-174 | As written on a Qt 6 binding, where `setItemSelected` raises: nothing moves when nothing is selected or a shifted row leaves the list. |
| PlaylistDialog.MoveRaisingLosesItems | main.py:171-174 | On such a binding only the first found item goes back; the list afterwards plus the items found after the first make up the list before. |
| PlaylistDialog.MoveRaisingDropsD | main.py:165-174 | On such a binding, moving rows 1 and 2 of [a,b,c,d,e] up leaves [b,a,c,e]: d is lost. |
| PlaylistDialog.CreatePlaylistDialog.MoveSel | main.py:165-174 | The list becomes MoveAsWritten of the old list: unchanged when nothing is selected or a shifted row leaves the list, otherwise taken from as it shrinks and refilled with what was found. |
| PlaylistDialog.CreatePlaylistDialog.TakeRows | main.py:172 | The take loop leaves the list and the taken items that TakeShifting gives: each row is read from the list as it stands. |
| PlaylistDialog.CreatePlaylistDialog.InsertRows | main.py:173-174 | The insert loop leaves InsertTaken of the list: each found item at its row, nothing for a missing one. |
| Window.AddAllExtends | main.py:382-389 | Adding only appends: the playlists held before keep their places. |
| Window.AddAllPaths | main.py:382-389 | The paths afterwards, compared as Windows compares them (ignoring case), are exactly the paths held before plus the paths offered. |
| Window.AddAllFromInput | main.py:382-389 | Every appended playlist was offered and its path, in any case, was not held before. |
| Window.AddAllDistinct | main.py:382-389 | No path occurs twice afterwards, in any mix of cases, if none did before, including among playlists appended in the same call. |
| Window.AddAllConcat | main.py:382-389 | Offering two lists in turn is offering them joined, in input order. |
| Window.AddAllGrowsIff | main.py:382-389 | The list grows if and only if some offered playlist has a path that, ignoring case, is not held before. |
| Window.CaseVariantNotAdded | main.py:385 | Offering C:\A.M3U while c:\a.m3u is held adds nothing: the two are the same Windows path. |
| Window.MainWindow.constructor | main.py:248 | The window starts with no playlists and no rows. |
| Window.MainWindow.AddPlaylists | main.py:382-389 | The loop, comparing paths as Windows paths, leaves AddAll of the old list with one row per playlist, and returns True if and only if the list grew. |
| Window.MainWindow.SelPl | main.py:396-398 | A playlist is returned exactly for a row in [0, len), and it is the one at that row. |
| Window.MainWindow.RenamePlaylist | main.py:400-408 | With a playlist selected, the dialog accepted and a non-blank name, that playlist and its row take the stripped name; otherwise nothing changes. |
| Window.MainWindow.DeletePlaylist | main.py:410-421 | With a playlist selected and Yes answered, the same row leaves both the widget and the list, keeping them aligned; otherwise nothing changes. |
| Window.RenamedNameIsClean | main.py:405-406 | A stored name has no whitespace at either end and stripping it again changes nothing. |
| Window.BlankNameRefused | main.py:405 | A name of only whitespace strips to empty and is refused. |

## Left out

- The VLC library itself (player.py:22, 75-79, 85-89) is not part of this model. `Engine` stands in for the little of it the controller uses.
- End-of-media events arrive on VLC's own thread and call `next_track`. The model has no concurrency: end of track is a plain call of `NextTrack`.
- The `time.sleep` between length polls (player.py:96) is left out. The answers of the polls are a parameter, `reports`.
- The on_track_change callback is counted, not run: `trackChanges`.
- Float seconds: length, position and seek work on whole milliseconds, so the float rounding of `int(seconds * 1000)` is not modelled.
- JSON encoding and decoding, and the file system, are not modelled. The disk is a map from path to a decoded JSON object, JSON that is not an object, text that does not decode, or a file whose read raises. History.HistoryStore.Load reports the non-object case as the error NotAnObject. The source's load returns that value as it is, and the AttributeError is raised by the `hist.get` call at player.py:105, which is after player.py:101-102 have set the path and tracks. Player.GaplessPlayer.LoadPlaylist ends in the same state with AttributeError. A write cannot fail.
- History.FinishedOf: a record whose values have the wrong JSON type is read as if the key were missing. The source would raise or misbehave on such a record.
- History.PositionOf: a JSON integer position counts whole seconds and a JSON float is held in whole milliseconds. A position stored as a string reads as 0, while the source's `float()` also accepts a numeric string such as "42".
- History.SaveLeavesOthers: two playlists are told apart by the exact text of their paths. On Windows two texts that differ only in letter case name one playlist and one history file, so saving under one changes what the other loads; the file system's case rules are not part of this model.
- History.TrackIndexOf: a track_index that is not a JSON integer reads as 0. The source would keep a float there and fail when indexing the playlist with it.
- Scanner.ReadPlaylist: the utf-8-sig then latin-1 decoding of the file is not modelled. The text is given already decoded.
- Scanner.ScanPlaylists: the `rglob`/`glob` walk and `is_file` are not modelled. The walk is given as a list of entries in walk order.
- Scanner.HasDrive: only the two drive forms of `PureWindowsPath` are modelled, "X:" and a UNC share.
- Scanner.JoinPath: joining handles a drive, a rooted path, an empty path and a base_dir ending in '\'. It does not otherwise normalise the path: repeated separators and '.' parts are kept. A bare drive such as "D:" as base_dir is joined with a separator, where the source's drive-relative join gives "D:a"; the folder of a walked playlist is never a bare drive, since Scanner.Parent keeps the root separator after the drive.
- Scanner.Parent: the path is not normalised first. A trailing '\' or repeated separators would change the parent; the walk yields file paths without either.
- Scanner.Unquote: percent-decoding works one octet at a time: %XY becomes the character with code XY. The source decodes the octets as UTF-8 with errors='replace'. So a multi-byte sequence such as %C3%A9 is one character (é) there and two here, and an octet of 0x80 or more that is not part of valid UTF-8, such as a lone %E9, becomes U+FFFD there. The two agree on escapes below 0x80.
- PyText.Lower: only ASCII letters are lower-cased. The URI prefixes it is compared with are ASCII.
- Window.AddAll: two playlist paths are the same when their texts agree after ASCII lower-casing, as `WindowsPath` compares them. Unicode case folding beyond ASCII is not modelled. On a system whose `Path` is case-sensitive the source compares the texts exactly.
- Timeline.TimeLabel: the label takes whole, non-negative seconds. The tick clamps guarantee this; `int()` of a float position is not modelled.
- Timeline.ValueAt: a zero-width slider divides by zero in the source; here it gives None. The value is computed in exact arithmetic, not in binary floating point. Where the float product falls just below a whole number, the source truncates to one less than the model: a slider from 0 to 100 that is 100 pixels wide gives 29 at x 29 here and 28 in the source, since 0.29 * 100 is 28.999999999999996 in floating point. The range, end and monotonicity lemmas carry over to the float computation: the clamp keeps the ratio in [0, 1], and correctly rounded division and multiplication by a non-negative number are monotone.
- PlaylistDialog.CreatePlaylistDialog.MoveSel: the selection is given as the ascending list of selected rows.
  - Restoring the selection with `setItemSelected` after each insert (main.py:174) is taken to leave the list unchanged. main.py imports PySide6, and Qt 6's `QListWidget` has no such method, so on that binding the call raises after the first insert and the remaining taken items are lost. PlaylistDialog.MoveRaising models that outcome; MoveSel models the list logic the code spells out.
- PlaylistDialog.MoveAsWrittenMisplaces: the [b,d,a,c,e] outcome assumes `setItemSelected` leaves the list alone. On a Qt 6 binding that call raises after the first insert, the result is [b,a,c,e] and d is lost; PlaylistDialog.MoveRaisingDropsD states that outcome.
- PlaylistDialog.MoveAsWrittenKeepsItems: the permutation holds only where `setItemSelected` exists. On a Qt 6 binding the items found after the first are lost, as PlaylistDialog.MoveRaisingLosesItems states.
- PlaylistDialog.InsertTaken: a take that found no item (None) inserts nothing, as `QListWidget.insertItem` ignores a null item.
- Timeline.TimelineSlider.Press, Timeline.TimelineSlider.Drag, Timeline.TimelineSlider.Release: the inherited `QSlider` handlers each event also calls (main.py:101, 107, 112) are not modelled.
- Timeline.TimelineSlider.ShowTick: only the slider and label part of `_tick` is modelled; the source runs it only while a player exists (main.py:538). The history save is `Player.GaplessPlayer.Tick`; the progress bars are not modelled.
- `_add_files`, `_remove_sel` and `tracks` of the dialog are not part of this model.
- Window.MainWindow.RenamePlaylist, Window.MainWindow.DeletePlaylist: the saving of the window state (`_save_state`, storage.py) is not part of this model. Neither is the refresh of the track panes.
- All other Qt widget, layout, style, drag-and-drop and dialog code, the pixel geometry of the progress bars, cover art and metadata (mutagen, PIL), the virtual-environment bootstrap and make_icon.py are not part of this model.
- The test at tests/test_player_output.py:24-26 expects `set_output('bogus')` to raise `ValueError`. The code returns silently (player.py:56-57), and `Player.GaplessPlayer.SetOutput` follows the code.

## Findings

| source | as written | input that shows it | evidently intended | confidence | as-written member | corrected member |
|---|---|---|---|---|---|---|
| main.py:171-174 | `_move_sel` restores the selection with `QListWidget.setItemSelected`, which Qt 6 no longer has. | Items [a,b,c,d,e], rows 1 and 2 selected, Up: the first insert is followed by a call that raises, so the result is [b,a,c,e] and d is lost. | The selected items end one row up: [b,c,a,d,e]. | not executed | PlaylistDialog.MoveRaisingDropsD | PlaylistDialog.MovedSpec |
| main.py:165-174 | `_move_sel` takes the selected items one at a time, in ascending row order. Each take shifts the rows after it, so later takes read the wrong row or find none. | Items [a,b,c,d,e], rows 1 and 2 selected, Up, with `setItemSelected` leaving the list alone: the result is [b,d,a,c,e]: d moves instead of c. With [a,b,c] the second take finds no row 2 and c never moves: [b,a,c]. | Each selected item ends one row up, at its row plus delta; the others keep their order: [b,c,a,d,e]. | not executed | PlaylistDialog.MoveAsWrittenMisplaces | PlaylistDialog.MovedSpec |
| main.py:114-119 | `wheelEvent` counts notches with Python's floor division `//`. | A quarter notch down (angle -30) seeks back 5 s; a quarter notch up (angle +30) does nothing. | Whole notches counted the same way in both directions, so partial notches do nothing. | not executed | Timeline.WheelDeltaAsWrittenAsymmetric | Timeline.WheelDeltaSymmetric |
