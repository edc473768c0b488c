/**
 * The playback-session controller VLCGaplessPlayer: a playlist, the index of
 * the current track, the set of finished tracks, the output mode and the VLC
 * objects it drives, with the history store it resumes from and saves to.
 */
module Player {
  import opened Wrappers
  import opened PyText
  import opened Engine
  import History

  /** Options every VLC instance is built with. */
  const BaseOptions: seq<string> := ["--no-video", "--quiet"]

  /** AOUT_OPTS: the extra instance options of each audio output mode. */
  const AoutOpts: map<string, seq<string>> := map[
    "default" := [],
    "directsound" := ["--aout=directsound"],
    "wasapi_shared" := ["--aout=wasapi"],
    "wasapi_exclusive" := ["--aout=wasapi", "--wasapi-exclusivemode"]
  ]

  /** Each output mode builds its instance with options of its own, and those options name its back-end. */
  lemma ModeOptions(m1: string, m2: string)
    requires m1 in AoutOpts && m2 in AoutOpts && BaseOptions + AoutOpts[m1] == BaseOptions + AoutOpts[m2]
    ensures m1 == m2
    ensures "--aout=directsound" in BaseOptions + AoutOpts["directsound"]
    ensures "--aout=wasapi" in BaseOptions + AoutOpts["wasapi_exclusive"]
    ensures "--wasapi-exclusivemode" in BaseOptions + AoutOpts["wasapi_exclusive"]
  {
    assert AoutOpts[m1] == (BaseOptions + AoutOpts[m1])[|BaseOptions|..];
    assert AoutOpts[m2] == (BaseOptions + AoutOpts[m2])[|BaseOptions|..];
    assert (BaseOptions + AoutOpts["wasapi_exclusive"])[3] == "--wasapi-exclusivemode";
    assert (BaseOptions + AoutOpts["wasapi_exclusive"])[2] == "--aout=wasapi";
    assert (BaseOptions + AoutOpts["directsound"])[2] == "--aout=directsound";
  }

  /** How many times _set_media asks for the media length before seeking. */
  const MaxLengthPolls: nat := 10

  /** The exceptions that escape the controller's operations. */
  datatype PlayerError = ReadFailed | AttributeError | IndexError

  /** The exception a failed history load surfaces as: the read error itself, or AttributeError from `hist.get`. */
  function Raised(e: History.LoadError): (r: PlayerError)
    ensures r != IndexError
    ensures r == ReadFailed <==> e == History.ReadFailed
  {
    match e
    case ReadFailed => ReadFailed
    case NotAnObject => AttributeError
  }

  /** A history file holding JSON that is not an object makes loading the playlist raise AttributeError. */
  lemma NonObjectHistoryRaises(files: map<string, History.FileState>, pl: string)
    requires History.HistPath(pl) in files && files[History.HistPath(pl)] == History.NotObject
    ensures History.LoadSpec(files, pl).Failure?
    ensures Raised(History.LoadSpec(files, pl).error) == AttributeError
  {
  }

  /** max(0, n - 1) */
  function LastIndex(n: int): int {
    if n - 1 > 0 then n - 1 else 0
  }

  /** min(saved, max(0, len(tracks) - 1)): the index load_playlist resumes at. */
  function ResumeIndex(saved: int, n: nat): (i: int)
    ensures i <= LastIndex(n)
    ensures saved <= LastIndex(n) ==> i == saved
    ensures saved > LastIndex(n) ==> i == LastIndex(n)
  {
    if saved < LastIndex(n) then saved else LastIndex(n)
  }

  /** The resumed track can be opened exactly when the list is non-empty and the saved index is not below -len. */
  lemma ResumeOpensIff(saved: int, n: nat)
    ensures InRange(n, ResumeIndex(saved, n)) <==> n > 0 && saved + n >= 0
  {
  }

  /** With a non-negative saved index the resumed index is a real position in the list. */
  lemma ResumeWithinList(saved: int, n: nat)
    requires n > 0 && saved >= 0
    ensures 0 <= ResumeIndex(saved, n) < n
  {
  }

  /** The answer of the k-th get_length call while a resumed track is being opened (0 once the answers run out). */
  function Report(reports: seq<int>, k: nat): int {
    if k < |reports| then reports[k] else 0
  }

  /** _mark_finished raises when it is due to mark a track and idx is not a valid index. */
  predicate MarkFails(plPath: Option<string>, playlist: seq<string>, idx: int) {
    plPath.Some? && playlist != [] && !InRange(|playlist|, idx)
  }

  /** What _mark_finished adds to the finished set. */
  function Marked(plPath: Option<string>, playlist: seq<string>, idx: int): set<string>
    requires !MarkFails(plPath, playlist, idx)
  {
    if plPath.Some? && playlist != [] then {At(playlist, idx)} else {}
  }

  class GaplessPlayer {
    var aoutMode: string
    var instance: Instance
    var playlist: seq<string>
    var idx: int
    var finished: set<string>
    var player: MediaPlayer?
    var plPath: Option<string>
    /** The disk the history module reads and writes. */
    const store: History.HistoryStore
    /** How many times on_track_change has been called. */
    ghost var trackChanges: nat
    /** How many VLC instances have been built. */
    ghost var instancesBuilt: nat
    /** Every media player this controller has created. */
    ghost var made: set<MediaPlayer>

    /** At most one media player plays: every one created before the current one is stopped. */
    ghost predicate Valid()
      reads this, made
    {
      && aoutMode in AoutOpts
      && (player != null ==> player in made)
      && (forall p | p in made && p != player :: !p.playing)
      && (plPath.None? ==> playlist == [] && idx == 0)
    }

    /** The current media player plays `path` from `ms`, on the current instance. */
    ghost predicate Opened(path: string, ms: int)
      reads this, player
    {
      player != null && player.instance == instance && player.media == Some(path) && player.playing && player.timeMs == ms
    }

    /** __init__: default output, one instance built, nothing loaded. */
    constructor (store: History.HistoryStore)
      ensures Valid() && fresh(instance)
      ensures aoutMode == "default" && instance.options == BaseOptions
      ensures playlist == [] && idx == 0 && finished == {} && player == null && plPath == None
      ensures this.store == store && instancesBuilt == 1 && trackChanges == 0 && made == {}
    {
      aoutMode := "default";
      instance := new Instance(BaseOptions + AoutOpts["default"]);
      instancesBuilt := 1;
      playlist, idx, finished := [], 0, {};
      player, plPath := null, None;
      this.store := store;
      trackChanges, made := 0, {};
    }

    /** _make_instance: a new instance with the options of the current mode. */
    method MakeInstance()
      requires aoutMode in AoutOpts
      modifies this`instance, this`instancesBuilt
      ensures fresh(instance) && instance.options == BaseOptions + AoutOpts[aoutMode]
      ensures instancesBuilt == old(instancesBuilt) + 1
    {
      instance := new Instance(BaseOptions + AoutOpts[aoutMode]);
      instancesBuilt := instancesBuilt + 1;
    }

    /**
     * _set_media: stops the previous player, opens `path` on a fresh player
     * and starts it; with a non-zero resume point it polls the length at
     * most ten times, stopping at the first positive answer, then seeks.
     * `checks` is the number of length polls made.
     */
    method SetMedia(path: string, resumeMs: int, reports: seq<int>) returns (checks: nat)
      requires Valid()
      modifies this`player, this`made, player
      ensures Valid() && fresh(player) && Opened(path, resumeMs)
      ensures old(player) != null ==> !old(player).playing
      ensures made == old(made) + {player}
      ensures resumeMs == 0 ==> checks == 0
      ensures resumeMs != 0 ==> 1 <= checks <= MaxLengthPolls
      ensures forall j :: 0 <= j < checks - 1 ==> Report(reports, j) <= 0
      ensures resumeMs != 0 && checks < MaxLengthPolls ==> Report(reports, checks - 1) > 0
    {
      if player != null {
        player.Stop();
      }
      var p := new MediaPlayer(instance);
      p.SetMedia(path);
      p.Play();
      player, made := p, made + {p};
      checks := 0;
      if resumeMs != 0 {
        var k := 0;
        while k < MaxLengthPolls
          invariant 0 <= k <= MaxLengthPolls && checks == k
          invariant forall j :: 0 <= j < k ==> Report(reports, j) <= 0
        {
          checks := checks + 1;
          if Report(reports, k) > 0 {
            break;
          }
          k := k + 1;
        }
        p.SetTime(resumeMs);
      }
    }
      /** load_playlist: adopts the saved index (clamped from above only), position and finished set, then opens that track. */
    method LoadPlaylist(pl: string, tracks: seq<string>, reports: seq<int>) returns (err: Option<PlayerError>)
      requires Valid()
      modifies this, player
      ensures Valid()
      ensures plPath == Some(pl) && playlist == tracks
      ensures aoutMode == old(aoutMode) && instance == old(instance) && instancesBuilt == old(instancesBuilt)
      ensures History.LoadSpec(store.files, pl).Failure? ==>
        && err == Some(Raised(History.LoadSpec(store.files, pl).error)) && idx == old(idx) && finished == old(finished)
        && player == old(player) && made == old(made) && trackChanges == old(trackChanges)
        && (player != null ==> unchanged(player))
      ensures History.LoadSpec(store.files, pl).Success? ==>
        var doc := History.LoadSpec(store.files, pl).value;
        && idx == ResumeIndex(History.TrackIndexOf(doc), |tracks|)
        && finished == History.FinishedOf(doc)
        && (err == None <==> InRange(|tracks|, idx))
        && (err != None ==>
              err == Some(IndexError) && player == old(player) && made == old(made)
              && trackChanges == old(trackChanges) && (player != null ==> unchanged(player)))
        && (err == None ==>
              && InRange(|tracks|, idx) && fresh(player) && Opened(At(tracks, idx), History.PositionOf(doc))
              && made == old(made) + {player} && trackChanges == old(trackChanges) + 1
              && (old(player) != null ==> !old(player).playing))
    {
      plPath := Some(pl);
      playlist := tracks;
      var hist := store.Load(pl);
      if hist.Failure? {
        return Some(Raised(hist.error));
      }
      idx := ResumeIndex(History.TrackIndexOf(hist.value), |tracks|);
      var position := History.PositionOf(hist.value);
      finished := History.FinishedOf(hist.value);
      if !InRange(|playlist|, idx) {
        return Some(IndexError);
      }
      var _ := SetMedia(At(playlist, idx), position, reports);
      trackChanges := trackChanges + 1;
      err := None;
    }

    /** play: forwarded to the media player, if there is one. */
    method Play()
      requires Valid()
      modifies player
      ensures Valid()
      ensures player != null ==> player.playing && player.media == old(player.media) && player.timeMs == old(player.timeMs)
    {
      if player != null {
        player.Play();
      }
    }

    /** pause: forwarded to the media player, if there is one (it toggles). */
    method Pause()
      requires Valid()
      modifies player
      ensures Valid()
      ensures player != null ==> player.playing == !old(player.playing) && player.media == old(player.media)
                                 && player.timeMs == old(player.timeMs)
    {
      if player != null {
        player.Pause();
        assert forall p | p in made && p != player :: !p.playing;
      }
    }

    /** stop: stops and drops the media player; nothing happens without one. */
    method Stop()
      requires Valid()
      modifies this`player, player
      ensures Valid() && player == null
      ensures old(player) != null ==> !old(player).playing && old(player).media == old(player.media)
    {
      if player != null {
        player.Stop();
        player := null;
      }
    }

    /** seek: sets the time of the media player, if there is one. */
    method Seek(ms: int)
      requires Valid()
      modifies player
      ensures Valid()
      ensures player != null ==> player.timeMs == ms && player.media == old(player.media) && player.playing == old(player.playing)
    {
      if player != null {
        player.SetTime(ms);
      }
    }

    /** length: the media length in milliseconds, 0 without a player. */
    method Length() returns (ms: int)
      ensures player == null ==> ms == 0
      ensures player != null ==> ms == player.lengthMs
    {
      ms := if player != null then player.lengthMs else 0;
    }

    /** position: the playback time in milliseconds, 0 without a player. */
    method Position() returns (ms: int)
      ensures player == null ==> ms == 0
      ensures player != null ==> ms == player.timeMs
    {
      ms := if player != null then player.timeMs else 0;
    }

    /** _mark_finished: adds the current track once a playlist has been loaded. */
    method MarkFinished() returns (err: Option<PlayerError>)
      modifies this`finished
      ensures MarkFails(plPath, playlist, idx) ==> err == Some(IndexError) && finished == old(finished)
      ensures !MarkFails(plPath, playlist, idx) ==> err == None && finished == old(finished) + Marked(plPath, playlist, idx)
    {
      if plPath.Some? && playlist != [] {
        if !InRange(|playlist|, idx) {
          return Some(IndexError);
        }
        finished := finished + {At(playlist, idx)};
      }
      err := None;
    }

    /**
     * next_track: marks the current track finished, then moves to and opens
     * the next track when there is one; on the last track nothing else happens.
     */
    method NextTrack() returns (err: Option<PlayerError>)
      requires Valid()
      modifies this`idx, this`finished, this`player, this`made, this`trackChanges, player
      ensures Valid()
      ensures MarkFails(old(plPath), playlist, old(idx)) ==>
        err == Some(IndexError) && idx == old(idx) && finished == old(finished)
        && player == old(player) && (player != null ==> unchanged(player)) && trackChanges == old(trackChanges)
      ensures !MarkFails(old(plPath), playlist, old(idx)) ==>
        finished == old(finished) + Marked(plPath, playlist, old(idx))
      ensures !MarkFails(old(plPath), playlist, old(idx)) && old(idx) + 1 >= |playlist| ==>
        err == None && idx == old(idx) && player == old(player) && (player != null ==> unchanged(player))
        && made == old(made) && trackChanges == old(trackChanges)
      ensures !MarkFails(old(plPath), playlist, old(idx)) && old(idx) + 1 < |playlist| ==>
        && idx == old(idx) + 1
        && (err == None <==> InRange(|playlist|, idx))
        && (err == None ==>
              InRange(|playlist|, idx) && fresh(player) && Opened(At(playlist, idx), 0)
              && made == old(made) + {player} && trackChanges == old(trackChanges) + 1
              && (old(player) != null ==> !old(player).playing))
        && (err != None ==>
              err == Some(IndexError) && player == old(player) && (player != null ==> unchanged(player))
              && trackChanges == old(trackChanges))
    {
      err := MarkFinished();
      if err.Some? {
        return;
      }
      if idx + 1 < |playlist| {
        idx := idx + 1;
        if !InRange(|playlist|, idx) {
          return Some(IndexError);
        }
        var _ := SetMedia(At(playlist, idx), 0, []);
        trackChanges := trackChanges + 1;
      }
    }

    /** prev_track: moves to and opens the previous track when idx > 0; never touches finished. */
    method PrevTrack() returns (err: Option<PlayerError>)
      requires Valid()
      modifies this`idx, this`player, this`made, this`trackChanges, player
      ensures Valid()
      ensures old(idx) <= 0 ==>
        err == None && idx == old(idx) && player == old(player) && (player != null ==> unchanged(player))
        && trackChanges == old(trackChanges)
      ensures old(idx) > 0 ==>
        && idx == old(idx) - 1
        && (err == None <==> idx < |playlist|)
        && (err == None ==>
              InRange(|playlist|, idx) && fresh(player) && Opened(playlist[idx], 0)
              && made == old(made) + {player} && trackChanges == old(trackChanges) + 1
              && (old(player) != null ==> !old(player).playing))
        && (err != None ==>
              err == Some(IndexError) && player == old(player) && (player != null ==> unchanged(player))
              && trackChanges == old(trackChanges))
    {
      err := None;
      if idx > 0 {
        idx := idx - 1;
        if !InRange(|playlist|, idx) {
          return Some(IndexError);
        }
        var _ := SetMedia(At(playlist, idx), 0, []);
        trackChanges := trackChanges + 1;
      }
    }

    /** tick: saves (idx, position, finished) when there is a player and a loaded playlist. */
    method Tick()
      requires Valid()
      modifies store
      ensures player != null && plPath.Some? ==>
        store.files == History.SaveSpec(old(store.files), plPath.value, idx, player.timeMs, finished)
      ensures player == null || plPath.None? ==> store.files == old(store.files)
    {
      if player == null || plPath.None? {
        return;
      }
      var pos := Position();
      store.Save(plPath.value, idx, pos, finished);
    }
      /**
     * set_output: an unknown mode or the current one changes nothing. Otherwise
     * the mode is switched, the player stopped, a new instance built and, when
     * a playlist was loaded, the playlist is loaded again from its history, idx
     * is set back to the old idx clamped to the list, and the old position is
     * sought.
     */
    method SetOutput(mode: string, reports: seq<int>) returns (err: Option<PlayerError>)
      requires Valid()
      modifies this, player
      ensures Valid()
      ensures mode == old(aoutMode) || mode !in AoutOpts ==>
        && err == None && aoutMode == old(aoutMode) && instance == old(instance)
        && instancesBuilt == old(instancesBuilt) && playlist == old(playlist) && idx == old(idx)
        && finished == old(finished) && plPath == old(plPath) && player == old(player)
        && (player != null ==> unchanged(player)) && made == old(made) && trackChanges == old(trackChanges)
      ensures mode != old(aoutMode) && mode in AoutOpts ==>
        && aoutMode == mode && instancesBuilt == old(instancesBuilt) + 1
        && fresh(instance) && instance.options == BaseOptions + AoutOpts[mode]
        && playlist == old(playlist) && plPath == old(plPath)
        && (old(player) != null ==> !old(player).playing)
      ensures mode != old(aoutMode) && mode in AoutOpts && old(plPath).None? ==>
        err == None && player == null && idx == old(idx) && finished == old(finished)
        && trackChanges == old(trackChanges)
      ensures mode != old(aoutMode) && mode in AoutOpts && old(plPath).Some? ==>
        var hist := History.LoadSpec(store.files, old(plPath).value);
        && (hist.Failure? ==>
              err == Some(Raised(hist.error)) && player == null && idx == old(idx) && finished == old(finished)
              && trackChanges == old(trackChanges))
        && (hist.Success? ==>
              var resume := ResumeIndex(History.TrackIndexOf(hist.value), |playlist|);
              && finished == History.FinishedOf(hist.value)
              && (err == None <==> InRange(|playlist|, resume))
              && (err != None ==>
                    err == Some(IndexError) && player == null && idx == resume && trackChanges == old(trackChanges))
              && (err == None ==>
                    && idx == ResumeIndex(old(idx), |playlist|)
                    && InRange(|playlist|, resume) && fresh(player)
                    && Opened(At(playlist, resume), if old(player) != null then old(player.timeMs) else 0)
                    && trackChanges == old(trackChanges) + 1))
    {
      err := None;
      if mode == aoutMode || mode !in AoutOpts {
        return;
      }
      aoutMode := mode;
      var curPl, curTracks := plPath, playlist;
      var curIdx := idx;
      var curPos := Position();
      Stop();
      MakeInstance();
      if curPl.Some? {
        err := Restore(curPl.value, curTracks, curIdx, curPos, reports);
      }
    }

    /**
     * The restore step of set_output: reload the playlist from its history, put
     * idx back to the old index clamped to the list, and seek to the old position.
     */
    method Restore(pl: string, tracks: seq<string>, oldIdx: int, posMs: int, reports: seq<int>)
      returns (err: Option<PlayerError>)
      requires Valid()
      modifies this, player
      ensures Valid()
      ensures plPath == Some(pl) && playlist == tracks
      ensures aoutMode == old(aoutMode) && instance == old(instance) && instancesBuilt == old(instancesBuilt)
      ensures History.LoadSpec(store.files, pl).Failure? ==>
        err == Some(Raised(History.LoadSpec(store.files, pl).error)) && player == old(player) && idx == old(idx) && finished == old(finished)
        && trackChanges == old(trackChanges)
      ensures History.LoadSpec(store.files, pl).Success? ==>
        var doc := History.LoadSpec(store.files, pl).value;
        var resume := ResumeIndex(History.TrackIndexOf(doc), |tracks|);
        && finished == History.FinishedOf(doc)
        && (err == None <==> InRange(|tracks|, resume))
        && (err != None ==>
              err == Some(IndexError) && player == old(player) && idx == resume && trackChanges == old(trackChanges))
        && (err == None ==>
              && idx == ResumeIndex(oldIdx, |tracks|) && fresh(player)
              && Opened(At(tracks, resume), posMs) && trackChanges == old(trackChanges) + 1)
    {
      err := LoadPlaylist(pl, tracks, reports);
      if err.Some? {
        return;
      }
      idx := ResumeIndex(oldIdx, |playlist|);
      Seek(posMs);
    }
  }
}
