/**
 * The shared voice-message player: which message is playing, which is
 * paused and which has focus, and the finish notifications it sends.
 *
 * The system audio player is reduced to the url it holds and whether it is
 * running; whether a url can be opened is a parameter.
 */
module AudioPlayer {
  import opened Opt

  /** `AVAudioPlayer?`: none yet, or one holding a url, running or not. */
  datatype Player = NoPlayer | Loaded(url: string, running: bool)

  /** `audioPlayer?.play()` */
  function Resume(p: Player): (q: Player)
    ensures p.NoPlayer? ==> q.NoPlayer?
    ensures p.Loaded? ==> q == Loaded(p.url, true)
  {
    match p
    case NoPlayer => NoPlayer
    case Loaded(u, _) => Loaded(u, true)
  }

  /** `audioPlayer?.pause()` and `audioPlayer?.stop()`: the player keeps its url and halts. */
  function Halt(p: Player): (q: Player)
    ensures p.NoPlayer? ==> q.NoPlayer?
    ensures p.Loaded? ==> q == Loaded(p.url, false)
  {
    match p
    case NoPlayer => NoPlayer
    case Loaded(u, _) => Loaded(u, false)
  }

  /** The notifications `noticeFinishStatus` sends: the playing id, if there is one and a handler is set. */
  function FinishNotice(playing: Option<string>, hasHandler: bool): (n: seq<string>)
    ensures |n| <= 1
    ensures |n| == 1 <==> playing.Some? && hasHandler
    ensures |n| == 1 ==> n[0] == playing.value
  {
    if playing.Some? && hasHandler then [playing.value] else []
  }

  class AudioPlayController {
    var playingMessageID: Option<string>
    var messageID: Option<string>
    var pauseMessageID: Option<string>
    var player: Player
    /** Whether `didFinishPlaying` is set. */
    var hasFinishHandler: bool
    /** The ids `didFinishPlaying` has been called with, in order. */
    var finished: seq<string>

    constructor ()
      ensures playingMessageID == None && messageID == None && pauseMessageID == None
      ensures player == NoPlayer && !hasFinishHandler && finished == []
    {
      playingMessageID := None;
      messageID := None;
      pauseMessageID := None;
      player := NoPlayer;
      hasFinishHandler := false;
      finished := [];
    }

    method SetFinishHandler(present: bool)
      modifies this`hasFinishHandler
      ensures hasFinishHandler == present
    {
      hasFinishHandler := present;
    }

    predicate IsFocus(id: string)
      reads this
    {
      messageID == Some(id)
    }

    method Focus(id: string)
      modifies this`messageID
      ensures messageID == Some(id)
      ensures IsFocus(id) && forall other :: other != id ==> !IsFocus(other)
    {
      messageID := Some(id);
    }

    predicate IsPlaying(id: string)
      reads this
    {
      playingMessageID == Some(id)
    }

    predicate IsPausing(id: string)
      reads this
    {
      pauseMessageID == Some(id)
    }

    /**
     * `play`: the paused message resumes with every id as it was; another
     * message clears the pause, becomes the playing one and is loaded, if
     * its url can be opened.
     */
    method Play(url: string, id: string, opens: bool)
      modifies this`pauseMessageID, this`playingMessageID, this`player
      ensures old(pauseMessageID) == Some(id) ==>
        pauseMessageID == old(pauseMessageID) && playingMessageID == old(playingMessageID) &&
        player == Resume(old(player))
      ensures old(pauseMessageID) != Some(id) ==>
        pauseMessageID == None && playingMessageID == Some(id) &&
        player == (if opens then Loaded(url, true) else old(player))
      ensures old(pauseMessageID) != Some(id) ==> IsPlaying(id) && !IsPausing(id)
    {
      if pauseMessageID == Some(id) {
        player := Resume(player);
      } else {
        pauseMessageID := None;
        playingMessageID := Some(id);
        PlaySound(url, opens);
      }
    }

    /** `playSound`: a player for the url replaces the old one only when it can be created. */
    method PlaySound(url: string, opens: bool)
      modifies this`player
      ensures player == (if opens then Loaded(url, true) else old(player))
    {
      if opens {
        player := Loaded(url, true);
      }
    }

    /** `pause`: records the paused id and halts the player; the playing id stays. */
    method Pause(id: string)
      modifies this`pauseMessageID, this`player
      ensures pauseMessageID == Some(id) && player == Halt(old(player))
      ensures IsPausing(id)
    {
      pauseMessageID := Some(id);
      player := Halt(player);
    }

    /** `stop`: notifies the playing id, if any, and halts the player; no id changes. */
    method Stop()
      modifies this`finished, this`player
      ensures finished == old(finished) + FinishNotice(playingMessageID, hasFinishHandler)
      ensures player == Halt(old(player))
    {
      NoticeFinishStatus();
      player := Halt(player);
    }

    method NoticeFinishStatus()
      modifies this`finished
      ensures finished == old(finished) + FinishNotice(playingMessageID, hasFinishHandler)
    {
      if playingMessageID.Some? && hasFinishHandler {
        finished := finished + [playingMessageID.value];
      }
    }

    /** `reset`: stops, then forgets all three ids. */
    method Reset()
      modifies this`finished, this`player, this`playingMessageID, this`messageID, this`pauseMessageID
      ensures finished == old(finished) + FinishNotice(old(playingMessageID), hasFinishHandler)
      ensures player == Halt(old(player))
      ensures playingMessageID == None && messageID == None && pauseMessageID == None
      ensures forall id :: !IsPlaying(id) && !IsPausing(id) && !IsFocus(id)
    {
      Stop();
      playingMessageID := None;
      messageID := None;
      pauseMessageID := None;
    }

    /**
     * `audioPlayerDidFinishPlaying`: notifies, then resets, which notifies
     * again, so a handler hears the finished id twice; nothing is left
     * playing, paused or focused.
     */
    method AudioPlayerDidFinishPlaying()
      modifies this`finished, this`player, this`playingMessageID, this`messageID, this`pauseMessageID
      ensures var n := FinishNotice(old(playingMessageID), hasFinishHandler);
        finished == old(finished) + n + n
      ensures old(playingMessageID).Some? && hasFinishHandler ==>
        finished == old(finished) + [old(playingMessageID).value, old(playingMessageID).value]
      ensures playingMessageID == None && messageID == None && pauseMessageID == None
      ensures player == Halt(old(player))
    {
      NoticeFinishStatus();
      Reset();
    }
  }
}
