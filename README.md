# Simple multimedia player: playlist, cursor and position label

This project models the logic of the desktop media player's `MediaPlayer`
window. The model has three modules:

- `Player` (`media_player.dfy`) holds the class `MediaPlayer`. Its state is
  the playlist (`mediaList`, one `MediaRef` per chosen file), the rows of the
  playlist view (`names`, one display name per entry), the cursor
  `currentIndex` and the text of the position label. The playback engine is
  outside the model. Every playback command the window sends it (`SetSource`, `Play`,
  `Pause`, `Stop`, `SetPosition`) is appended to the ghost log `engineLog`,
  so "load, then play" ordering can be stated. The object invariant `Valid()`
  says three things: the view has one row per entry, row i shows the base
  name of entry i's file, and the cursor is on an entry whenever the
  playlist is non-empty. Every method keeps it.
- `TimeLabel` (`time_label.dfy`) is the `"MM:SS / MM:SS"` label. The position
  and the duration in milliseconds are truncated to whole seconds. Each is
  then split into minutes and seconds, and each field is rendered with
  `{:02d}`: zero-padded to two digits, and longer from 100 on. A reader
  `ParseLabel` is the label's partner: `LabelRoundTrip` proves that
  `ParseLabel` reads back exactly the whole seconds the label was rendered
  from.
- `Paths` (`paths.dfy`) gives the display name of a file. It is modelled as
  Python's `posixpath.basename` (what `os.path.basename` is on POSIX
  systems): the part after the last `/`, empty when the path ends in `/`.

The file dialog's result is the parameter `files` of `OpenFiles`. A
double-clicked row is the parameter `row` of `SelectRow`. The engine's
position and duration are the parameters of `UpdatePosition`.

The code has no playback state machine, no advance to the next entry at
end of media, and no guard against late events from a load that was
replaced. The transport buttons forward straight to the engine
(media_player.py:39-45), the media-status handler only logs, and the error
handler logs and shows a warning box (127-132); neither changes the
playlist, the cursor or the label. The cursor starts at 0, and a cancelled open leaves it where it
was (31-32, 102).

## Model

| member | source | states |
|---|---|---|
| `Player.MediaPlayer.constructor` | media_player.py:31-59 | The playlist (line 31) and the view (line 59) start empty, the cursor starts at 0, no engine command has been issued, and the label starts as "00:00 / 00:00" (line 56), which is what the formatter gives for position 0 and duration 0. |
| `Player.MediaPlayer.OpenFiles` | media_player.py:96-114 | An empty selection leaves the playlist, the view, the cursor and the engine log unchanged. A non-empty one makes the playlist exactly the chosen files, in order, so no old entry survives. Row i then shows the base name of file i and the cursor is 0. The engine log gains exactly `SetSource(first file)` followed by `Play`. The invariant is kept. |
| `Player.MediaPlayer.SelectRow` | media_player.py:116-119 | For a row the view shows, the cursor becomes that row. The engine log gains `SetSource` of that row's entry followed by `Play`. The playlist, the view and the label are unchanged, and the invariant is kept. |
| `Player.MediaPlayer.UpdatePosition` | media_player.py:121-125 | The label becomes `Label(position, duration)`. The playlist, the view, the cursor and the engine log are unchanged. |
| `Player.MediaPlayer.PlayClicked` | media_player.py:38-39 | The engine log gains `Play`. Nothing else changes. |
| `Player.MediaPlayer.PauseClicked` | media_player.py:41-42 | The engine log gains `Pause`. Nothing else changes. |
| `Player.MediaPlayer.StopClicked` | media_player.py:44-45 | The engine log gains `Stop`. Nothing else changes. |
| `Player.MediaPlayer.SliderMoved` | media_player.py:54 | Moving the position slider appends `SetPosition(pos)` to the engine log. Nothing else changes. |
| `Player.OpenThenSelect` | media_player.py:96-119 | From the contracts alone: opening `dir/a.mp3` and `dir/b.mp3` and then double-clicking row 1 gives the playlist of both files and the rows "a.mp3" and "b.mp3". The cursor is 1, and the log is load a, play, load b, play. |
| `TimeLabel.Label` | media_player.py:122-125 | The label text: the position clock, " / ", then the duration clock, each clock `{:02d}` of ms//1000//60, ':', `{:02d}` of ms//1000%60. It is at least 13 characters, exactly 13 iff both readings are under 100 minutes. |
| `TimeLabel.Pad2` | media_player.py:125 | The `{:02d}` rendering of a field: at least two characters, all digits. |
| `TimeLabel.Decimal` | media_player.py:125 | Python's `str` of a nat: at least one character, all digits, no leading '0' unless it is "0". |
| `TimeLabel.FieldsReconstruct` | media_player.py:122-125 | With s the whole seconds (ms // 1000), the seconds field is below 60, and minutes*60 + seconds == s. No other split with a seconds part below 60 exists. |
| `TimeLabel.ValueOfDecimal` | media_player.py:125 | The decimal rendering of n reads back as n. |
| `TimeLabel.DecimalLength` | media_player.py:125 | The decimal rendering has one digit exactly when n < 10, and two exactly when 10 <= n < 100. |
| `TimeLabel.Pad2Shape` | media_player.py:125 | `{:02d}` gives only digits and denotes n. It is at least two characters, exactly two iff n < 100, and starts with '0' when n < 10. From 10 on it is the plain decimal. |
| `TimeLabel.ClockShape` | media_player.py:125 | A clock is the padded minutes, ':', then exactly two second digits. It has no space. It is exactly five characters iff the reading is below 100 minutes. |
| `TimeLabel.ClockRoundTrip` | media_player.py:122-125 | Reading a rendered clock gives back ms // 1000. |
| `TimeLabel.LabelRoundTrip` | media_player.py:122-125 | Reading a rendered label gives back (position // 1000, duration // 1000): position first, then " / ", then duration. |
| `TimeLabel.LabelDeterminesSeconds` | media_player.py:122-125 | Two labels are equal iff the positions agree in whole seconds and the durations agree in whole seconds. |
| `TimeLabel.LabelExamples` | media_player.py:125 | The label for (0, 0) is "00:00 / 00:00", the initial text set at line 56. The clock for 65000 ms is "01:05", and the label for (30000, 125000) is "00:30 / 02:05". At 100 minutes the field grows to three digits ("100:00"). |
| `TimeLabel.LabelStartsWithPosition` | media_player.py:125 | For any duration, a position of 65 whole seconds gives a label that begins "01:05". |
| `Paths.BaseName` | media_player.py:108 | The display name `os.path.basename(file)`: the part of the path after its last '/', never longer than the path. |
| `Paths.RFind` | media_player.py:108 | Python's `str.rfind`: the index of the last occurrence of the character, or -1 when there is none. |
| `Paths.BaseNameIsRFindSlice` | media_player.py:108 | `BaseName(p)` equals the library's own definition `p[p.rfind('/') + 1:]`. |
| `Paths.BaseNameIsLastComponent` | media_player.py:108 | The display name is a suffix of the path with no '/'. It is the whole path or is preceded by '/', so it is the last path component. |
| `Paths.DirPrefix` | media_player.py:108 | What precedes the display name, separator kept, is empty or ends with '/'. |
| `Paths.SplitPath` | media_player.py:108 | A path is that prefix followed by its display name. |
| `Paths.BaseNameCases` | media_player.py:108 | A path without '/' is its own display name. A path ending in '/' has an empty one. |
| `Paths.BaseNameOfJoin` | media_player.py:108 | Whatever the directory, `dir + "/" + name` has display name `name` when `name` has no '/'. |

## Left out

- Window, widget and layout construction (media_player.py:17-28, 34-88): user interface plumbing with no logic.
- The file dialog (media_player.py:97-100): external input. Its result is the parameter of `OpenFiles`.
- Decoding, rendering and audio output (media_player.py:25-28): the engine is a ghost log of playback commands. Connecting the audio and video outputs (lines 27-28) is set-up, not logged. `QUrl.fromLocalFile` (line 106) is the constructor `LocalFile`, which keeps the path.
- The volume slider (media_player.py:47-50): its value is turned into a floating-point fraction `v / 100.0`, which is not modelled. The slider's range is the integers 0 to 100.
- The position slider's range and value (media_player.py:53, 91, 124): these are one-line forwards to the widget. The slider value is the raw position in milliseconds, and any clamping the widget applies is library behaviour.
- The 500 ms refresh timer (media_player.py:63-66): event-loop timing. `UpdatePosition` stands for every refresh, whether the timer or the engine triggered it.
- Logging, the error message box and the media-status handler (media_player.py:13, 101, 109, 112, 127-132): diagnostics only. They change none of the modelled state.
- `UpdatePosition`: positions and durations are `nat`. The engine reports no negative milliseconds, so Python's floor division and Dafny's division agree on every modelled input.
- `Paths.BaseName`: models `posixpath.basename` only; `ntpath`'s `\` separator and drive letters are not modelled.
- `SelectRow`: requires a row the view shows. Qt reports only such rows on a double click, so Python's negative indexing is never reached.
