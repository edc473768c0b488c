/**
 * Per-playlist playback history: one JSON document stored beside each
 * playlist file. The disk is a map from file path to what reading that file
 * yields; JSON text is abstracted to the decoded document.
 */
module History {
  import opened Wrappers
  import StrOrder

  /** What is appended to a playlist's file name to name its history file. */
  const HistorySuffix: string := ".history.json"

  /** A decoded JSON value, as far as the history record uses them. Positions are milliseconds. */
  datatype Value = Int(i: int) | Millis(ms: int) | StrList(items: seq<string>) | Other

  /** A decoded JSON object. */
  type Doc = map<string, Value>

  /**
   * What reading one existing file yields: a decoded JSON object, JSON that
   * decodes to something else (a list, a number, a string, null), text that
   * json.loads rejects, or a read that raises (an OS error, or bytes that are
   * not UTF-8).
   */
  datatype FileState = Parsed(doc: Doc) | NotObject | Garbage | Unreadable

  /**
   * How a load fails its caller: the read raises, or the file holds JSON that
   * is not an object. load returns such a value as it is, and the first
   * `.get` the caller makes on it raises AttributeError.
   */
  datatype LoadError = ReadFailed | NotAnObject

  /** The history file of a playlist: its full file name with ".history.json" appended. */
  function HistPath(plPath: string): (h: string)
    ensures |h| == |plPath| + |HistorySuffix|
    ensures h[..|plPath|] == plPath && h[|plPath|..] == HistorySuffix
  {
    plPath + HistorySuffix
  }

  /** Distinct playlists never share a history file. */
  lemma HistPathInjective(p: string, q: string)
    requires HistPath(p) == HistPath(q)
    ensures p == q
  {
    assert |p| == |q|;
    assert p == HistPath(p)[..|p|];
  }

  /** The record load returns when there is no usable history. */
  const DefaultDoc: Doc := map["track_index" := Int(0), "position" := Millis(0), "finished" := StrList([])]

  /** The record save writes. */
  function SavedDoc(trackIndex: int, positionMs: int, finished: seq<string>): (d: Doc)
    ensures d.Keys == {"track_index", "position", "finished"}
    ensures TrackIndexOf(d) == trackIndex && PositionOf(d) == positionMs
    ensures d["finished"] == StrList(finished)
  {
    map["track_index" := Int(trackIndex), "position" := Millis(positionMs), "finished" := StrList(finished)]
  }

  /** hist.get("track_index", 0). */
  function TrackIndexOf(d: Doc): int {
    if "track_index" in d && d["track_index"].Int? then d["track_index"].i else 0
  }

  /**
   * float(hist.get("position", 0)), in milliseconds: a JSON integer counts
   * whole seconds, a JSON float is held as milliseconds.
   */
  function PositionOf(d: Doc): int {
    if "position" !in d then 0
    else match d["position"]
      case Int(seconds) => seconds * 1000
      case Millis(ms) => ms
      case _ => 0
  }

  /** A hand-written record with "position": 42 resumes 42 seconds in. */
  lemma WholeSecondsPosition(d: Doc)
    requires d == map["position" := Int(42)]
    ensures PositionOf(d) == 42_000
    ensures TrackIndexOf(d) == 0 && FinishedOf(d) == {}
  {
  }

  /** set(hist.get("finished", [])). */
  function FinishedOf(d: Doc): set<string> {
    if "finished" in d && d["finished"].StrList? then StrOrder.Elems(d["finished"].items) else {}
  }

  /** history.load over a disk: decode errors and a missing file give the default record, read errors escape. */
  function LoadSpec(files: map<string, FileState>, plPath: string): Result<Doc, LoadError> {
    var h := HistPath(plPath);
    if h !in files then Success(DefaultDoc)
    else match files[h]
      case Parsed(d) => Success(d)
      case NotObject => Failure(NotAnObject)
      case Garbage => Success(DefaultDoc)
      case Unreadable => Failure(ReadFailed)
  }

  /** history.save over a disk: the history file is overwritten with the three-key record, finished sorted. */
  ghost function SaveSpec(files: map<string, FileState>, plPath: string, trackIndex: int, positionMs: int,
                          finished: set<string>): map<string, FileState>
  {
    files[HistPath(plPath) := Parsed(SavedDoc(trackIndex, positionMs, StrOrder.SortedSeq(finished)))]
  }

  /** The disk holding every playlist's history file. */
  class HistoryStore {
    var files: map<string, FileState>

    constructor (files: map<string, FileState>)
      ensures this.files == files
    {
      this.files := files;
    }

    /** history.load(pl_path). */
    method Load(plPath: string) returns (r: Result<Doc, LoadError>)
      ensures r == LoadSpec(files, plPath)
    {
      var h := HistPath(plPath);
      if h in files {
        match files[h]
        case Parsed(d) => return Success(d);
        case NotObject => return Failure(NotAnObject);
        case Garbage =>
        case Unreadable => return Failure(ReadFailed);
      }
      r := Success(DefaultDoc);
    }

    /** history.save(pl_path, track_index, position, finished). */
    method Save(plPath: string, trackIndex: int, positionMs: int, finished: set<string>)
      modifies this
      ensures files == SaveSpec(old(files), plPath, trackIndex, positionMs, finished)
    {
      var sorted := StrOrder.SortSet(finished);
      files := files[HistPath(plPath) := Parsed(SavedDoc(trackIndex, positionMs, sorted))];
    }
  }

  /** Without a history file, load returns track 0, position 0 and nothing finished. */
  lemma LoadMissing(files: map<string, FileState>, plPath: string)
    requires HistPath(plPath) !in files
    ensures LoadSpec(files, plPath) == Success(DefaultDoc)
    ensures TrackIndexOf(DefaultDoc) == 0 && PositionOf(DefaultDoc) == 0 && FinishedOf(DefaultDoc) == {}
  {
  }

  /** A history file that does not decode is treated exactly like a missing one. */
  lemma LoadGarbage(files: map<string, FileState>, plPath: string)
    requires HistPath(plPath) in files && files[HistPath(plPath)] == Garbage
    ensures LoadSpec(files, plPath) == LoadSpec(files - {HistPath(plPath)}, plPath)
  {
  }

  /** Load fails only when reading the file fails or the file holds JSON that is not an object. */
  lemma LoadFailsIff(files: map<string, FileState>, plPath: string)
    ensures LoadSpec(files, plPath).Failure? <==>
      HistPath(plPath) in files && files[HistPath(plPath)] in {Unreadable, NotObject}
    ensures LoadSpec(files, plPath) == Failure(ReadFailed) <==>
      HistPath(plPath) in files && files[HistPath(plPath)] == Unreadable
  {
  }

  /** The saved file holds exactly the three keys, whatever the file held before. */
  lemma SaveDropsOtherKeys(files: map<string, FileState>, plPath: string, i: int, p: int, f: set<string>)
    ensures LoadSpec(SaveSpec(files, plPath, i, p, f), plPath).Success?
    ensures LoadSpec(SaveSpec(files, plPath, i, p, f), plPath).value.Keys == {"track_index", "position", "finished"}
  {
  }

  /** The finished list on disk is sorted and free of duplicates, and holds exactly the finished set. */
  lemma SavedFinishedSorted(files: map<string, FileState>, plPath: string, i: int, p: int, f: set<string>)
    ensures var d := LoadSpec(SaveSpec(files, plPath, i, p, f), plPath).value;
      d["finished"].StrList? && StrOrder.StrictlySorted(d["finished"].items)
      && StrOrder.Elems(d["finished"].items) == f && |d["finished"].items| == |f|
  {
    StrOrder.SortedSeqLength(f);
  }

  /** Any strictly sorted list of the finished set is exactly what save writes: contents do not depend on set order. */
  lemma SaveContentsCanonical(files: map<string, FileState>, plPath: string, i: int, p: int, f: set<string>,
                              order: seq<string>)
    requires StrOrder.StrictlySorted(order) && StrOrder.Elems(order) == f
    ensures SaveSpec(files, plPath, i, p, f)[HistPath(plPath)] == Parsed(SavedDoc(i, p, order))
  {
    StrOrder.SortedUnique(order, StrOrder.SortedSeq(f));
  }

  /** Save then load returns the saved index, position and finished set. */
  lemma SaveLoadRoundTrip(files: map<string, FileState>, plPath: string, i: int, p: int, f: set<string>)
    ensures LoadSpec(SaveSpec(files, plPath, i, p, f), plPath).Success?
    ensures var d := LoadSpec(SaveSpec(files, plPath, i, p, f), plPath).value;
      TrackIndexOf(d) == i && PositionOf(d) == p && FinishedOf(d) == f
  {
  }

  /** Saving one playlist's history leaves what every other playlist loads unchanged. */
  lemma SaveLeavesOthers(files: map<string, FileState>, plPath: string, i: int, p: int, f: set<string>,
                         other: string)
    requires other != plPath
    ensures LoadSpec(SaveSpec(files, plPath, i, p, f), other) == LoadSpec(files, other)
  {
    if HistPath(other) == HistPath(plPath) {
      HistPathInjective(other, plPath);
    }
  }

  /** A second save of the same playlist completely replaces the first. */
  lemma SaveOverwrites(files: map<string, FileState>, plPath: string, i: int, p: int, f: set<string>,
                       i': int, p': int, f': set<string>)
    ensures SaveSpec(SaveSpec(files, plPath, i, p, f), plPath, i', p', f') == SaveSpec(files, plPath, i', p', f')
  {
  }
}
