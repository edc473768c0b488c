/**
 * The VLC engine as the player sees it: an instance built from command-line
 * options, and media players created from it. Only the state the player
 * reads or changes is kept: the media, whether it plays, the time and the
 * length in milliseconds.
 */
module Engine {
  import opened Wrappers

  /** A vlc.Instance; its options are fixed when it is built. */
  class Instance {
    const options: seq<string>

    constructor (options: seq<string>)
      ensures this.options == options
    {
      this.options := options;
    }
  }

  /** A vlc.MediaPlayer. */
  class MediaPlayer {
    const instance: Instance
    var media: Option<string>
    var playing: bool
    var timeMs: int
    var lengthMs: int

    /** instance.media_player_new() */
    constructor (instance: Instance)
      ensures this.instance == instance
      ensures media == None && !playing && timeMs == 0 && lengthMs == 0
    {
      this.instance := instance;
      media, playing, timeMs, lengthMs := None, false, 0, 0;
    }

    /** set_media(instance.media_new(path)) */
    method SetMedia(path: string)
      modifies this
      ensures media == Some(path) && playing == old(playing) && timeMs == old(timeMs) && lengthMs == old(lengthMs)
    {
      media := Some(path);
    }

    method Play()
      modifies this
      ensures playing && media == old(media) && timeMs == old(timeMs) && lengthMs == old(lengthMs)
    {
      playing := true;
    }

    /** libvlc's pause toggles between paused and playing. */
    method Pause()
      modifies this
      ensures playing == !old(playing) && media == old(media) && timeMs == old(timeMs) && lengthMs == old(lengthMs)
    {
      playing := !playing;
    }

    method Stop()
      modifies this
      ensures !playing && media == old(media) && timeMs == old(timeMs) && lengthMs == old(lengthMs)
    {
      playing := false;
    }

    /** set_time(ms) */
    method SetTime(ms: int)
      modifies this
      ensures timeMs == ms && media == old(media) && playing == old(playing) && lengthMs == old(lengthMs)
    {
      timeMs := ms;
    }
  }
}
