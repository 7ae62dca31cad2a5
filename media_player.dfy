/** The player window's own state: the playlist (media references and
    the names shown for them), the cursor into it, and the position
    label. The playback engine is outside the model; what the player asks
    of it is kept as a log of commands. */
module Player {
  import TimeLabel
  import Paths

  /** A reference to a local media file, as the engine is given it. */
  datatype MediaRef = LocalFile(path: string)

  /** What the player asks of the playback engine. */
  datatype Command =
    | SetSource(source: MediaRef)
    | Play
    | Pause
    | Stop
    | SetPosition(ms: int)

  /** The label shown before the engine reports any position. */
  const InitialLabel: string := "00:00 / 00:00"

  class MediaPlayer {
    /** Playlist entries, in the order the files were chosen. */
    var mediaList: seq<MediaRef>
    /** Rows of the playlist view, one display name per entry. */
    var names: seq<string>
    /** The playlist cursor; 0 until a selection is opened. */
    var currentIndex: int
    /** Text of the position label. */
    var positionLabel: string
    /** Every command issued to the playback engine, oldest first. */
    ghost var engineLog: seq<Command>

    /** The playlist view shows one row per entry, named after the entry's
        file, and the cursor is on an entry whenever there is one. */
    ghost predicate Valid()
      reads this
    {
      |names| == |mediaList| &&
      (forall i :: 0 <= i < |mediaList| ==> names[i] == Paths.BaseName(mediaList[i].path)) &&
      (mediaList == [] || 0 <= currentIndex < |mediaList|)
    }

    constructor ()
      ensures Valid()
      ensures mediaList == [] && names == [] && currentIndex == 0
      ensures positionLabel == InitialLabel && positionLabel == TimeLabel.Label(0, 0)
      ensures engineLog == []
    {
      mediaList := [];
      names := [];
      currentIndex := 0;
      positionLabel := InitialLabel;
      engineLog := [];
      TimeLabel.LabelExamples();
    }

    /** Opening a selection of files. An empty selection (the dialog was
        cancelled) changes nothing; otherwise the playlist becomes exactly
        the selection, in its order, the cursor moves to the first entry,
        and the engine is told to load that entry and then to play. */
    method OpenFiles(files: seq<string>)
      requires Valid()
      modifies this
      ensures Valid()
      ensures positionLabel == old(positionLabel)
      ensures files == [] ==>
        mediaList == old(mediaList) && names == old(names) &&
        currentIndex == old(currentIndex) && engineLog == old(engineLog)
      ensures files != [] ==>
        |mediaList| == |files| &&
        (forall i :: 0 <= i < |files| ==> mediaList[i] == LocalFile(files[i])) &&
        (forall i :: 0 <= i < |files| ==> names[i] == Paths.BaseName(files[i])) &&
        currentIndex == 0 &&
        engineLog == old(engineLog) + [SetSource(LocalFile(files[0])), Play]
    {
      if files != [] {
        mediaList := [];
        names := [];
        for k := 0 to |files|
          invariant |mediaList| == k && |names| == k
          invariant forall i :: 0 <= i < k ==> mediaList[i] == LocalFile(files[i])
          invariant forall i :: 0 <= i < k ==> names[i] == Paths.BaseName(files[i])
          invariant currentIndex == old(currentIndex) && positionLabel == old(positionLabel)
          invariant engineLog == old(engineLog)
        {
          mediaList := mediaList + [LocalFile(files[k])];
          names := names + [Paths.BaseName(files[k])];
        }
        currentIndex := 0;
        if mediaList != [] {
          engineLog := engineLog + [SetSource(mediaList[0])];
          engineLog := engineLog + [Play];
        }
      }
    }

    /** Double-clicking a row of the playlist view: the cursor moves to
        that row, and the engine is told to load its entry and then to
        play. The view only reports rows it shows. */
    method SelectRow(row: int)
      requires Valid()
      requires 0 <= row < |names|
      modifies this
      ensures Valid()
      ensures currentIndex == row
      ensures mediaList == old(mediaList) && names == old(names) && positionLabel == old(positionLabel)
      ensures engineLog == old(engineLog) + [SetSource(mediaList[row]), Play]
    {
      currentIndex := row;
      engineLog := engineLog + [SetSource(mediaList[currentIndex])];
      engineLog := engineLog + [Play];
    }

    /** A refresh of the position display, from the engine's current
        position and duration in milliseconds. */
    method UpdatePosition(positionMs: nat, durationMs: nat)
      requires Valid()
      modifies this
      ensures Valid()
      ensures positionLabel == TimeLabel.Label(positionMs, durationMs)
      ensures mediaList == old(mediaList) && names == old(names)
      ensures currentIndex == old(currentIndex) && engineLog == old(engineLog)
    {
      positionLabel := TimeLabel.Label(positionMs, durationMs);
    }

    /** The Play, Pause and Stop buttons and the position slider forward
        straight to the engine and touch nothing else. */
    method PlayClicked()
      requires Valid()
      modifies this
      ensures Valid()
      ensures engineLog == old(engineLog) + [Play]
      ensures mediaList == old(mediaList) && names == old(names)
      ensures currentIndex == old(currentIndex) && positionLabel == old(positionLabel)
    {
      engineLog := engineLog + [Play];
    }

    method PauseClicked()
      requires Valid()
      modifies this
      ensures Valid()
      ensures engineLog == old(engineLog) + [Pause]
      ensures mediaList == old(mediaList) && names == old(names)
      ensures currentIndex == old(currentIndex) && positionLabel == old(positionLabel)
    {
      engineLog := engineLog + [Pause];
    }

    method StopClicked()
      requires Valid()
      modifies this
      ensures Valid()
      ensures engineLog == old(engineLog) + [Stop]
      ensures mediaList == old(mediaList) && names == old(names)
      ensures currentIndex == old(currentIndex) && positionLabel == old(positionLabel)
    {
      engineLog := engineLog + [Stop];
    }

    method SliderMoved(positionMs: int)
      requires Valid()
      modifies this
      ensures Valid()
      ensures engineLog == old(engineLog) + [SetPosition(positionMs)]
      ensures mediaList == old(mediaList) && names == old(names)
      ensures currentIndex == old(currentIndex) && positionLabel == old(positionLabel)
    {
      engineLog := engineLog + [SetPosition(positionMs)];
    }
  }

  /** A client of the class: open two files, then pick the second row. Only
      the contracts above are used. */
  method OpenThenSelect(dir: string) returns (p: MediaPlayer)
    ensures p.mediaList == [LocalFile(dir + "/a.mp3"), LocalFile(dir + "/b.mp3")]
    ensures p.names == ["a.mp3", "b.mp3"]
    ensures p.currentIndex == 1
    ensures p.engineLog == [SetSource(LocalFile(dir + "/a.mp3")), Play,
                            SetSource(LocalFile(dir + "/b.mp3")), Play]
  {
    p := new MediaPlayer();
    var a, b := dir + "/a.mp3", dir + "/b.mp3";
    p.OpenFiles([a, b]);
    Paths.BaseNameOfJoin(dir, "a.mp3");
    Paths.BaseNameOfJoin(dir, "b.mp3");
    assert a == dir + [Paths.Separator] + "a.mp3";
    assert b == dir + [Paths.Separator] + "b.mp3";
    p.SelectRow(1);
  }
}
