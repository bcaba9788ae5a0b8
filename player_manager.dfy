/**
 * The playback resource manager of src/services/PlayerManager.ts: one
 * `PlayerManager` object holding at most one sound and the id of its track,
 * a re-entrancy flag for `playTrack`, and two single-slot listeners.
 *
 * Each awaited call is one atomic step whose outcome is a parameter; a set
 * `isPlayingTrack` on entry stands for a `playTrack` call still in flight.
 */
module Manager {
  import opened Wrappers
  import opened Audio
  import opened MusicService

  /** What `getCurrentTrackPosition` returns, in the device's milliseconds. */
  datatype PositionInfo = PositionInfo(positionMillis: int, durationMillis: int, isPlaying: bool)

  const NoPosition: PositionInfo := PositionInfo(0, 0, false)

  class PlayerManager {
    var currentSound: Option<Sound>
    var currentTrackId: Option<string>
    var playbackCallback: Option<Listener>
    var onTrackFinishCallback: Option<Listener>
    var isInitialized: bool
    var isPlayingTrack: bool
    /** The requests made of the audio subsystem and the listener invocations, oldest first. */
    var effects: seq<Effect>

    /** A sound is held exactly when a track id is. */
    ghost predicate Valid()
      reads this
    {
      currentSound.None? <==> currentTrackId.None?
    }

    constructor()
      ensures Valid()
      ensures currentSound == None && currentTrackId == None
      ensures playbackCallback == None && onTrackFinishCallback == None
      ensures !isInitialized && !isPlayingTrack && effects == []
    {
      currentSound := None;
      currentTrackId := None;
      playbackCallback := None;
      onTrackFinishCallback := None;
      isInitialized := false;
      isPlayingTrack := false;
      effects := [];
    }

    /** `initialize`: sets the audio mode once; reports whether the manager is initialized. */
    method Initialize(modeOk: bool) returns (ok: bool)
      modifies this`isInitialized, this`effects
      ensures ok == (old(isInitialized) || modeOk)
      ensures isInitialized == ok
      ensures effects == old(effects) + if old(isInitialized) then [] else [SetAudioMode]
    {
      if !isInitialized {
        effects := effects + [SetAudioMode];
        if modeOk {
          isInitialized := true;
          return true;
        }
        return false;
      }
      return true;
    }

    /**
     * `playTrack`. `reply` is what `getStatusAsync` gives when the track is
     * already the current one, `stopOk` whether stopping the previous sound
     * succeeds (so that it is then unloaded), `created` the sound
     * `createAsync` yields, or None when it throws.
     */
    method PlayTrack(track: Track, reply: StatusReply, stopOk: bool, created: Option<Sound>)
      requires Valid()
      modifies this`currentSound, this`currentTrackId, this`isPlayingTrack, this`effects
      ensures Valid()
      // A call in flight: nothing happens at all.
      ensures old(isPlayingTrack) ==>
        && isPlayingTrack
        && currentSound == old(currentSound) && currentTrackId == old(currentTrackId)
        && effects == old(effects)
      // Otherwise the flag is released on every path.
      ensures !old(isPlayingTrack) ==> !isPlayingTrack
      // The current track: its status is asked for first.
      ensures !old(isPlayingTrack) && old(currentTrackId) == Some(track.id) ==>
        var s := old(currentSound).value;
        match reply
        case StatusFails =>
          && currentSound == old(currentSound) && currentTrackId == old(currentTrackId)
          && effects == old(effects) + [GetStatus(s)]
        case StatusIs(Loaded(playing, _, _, _)) =>
          // resume only: no new sound, and play only when paused
          && currentSound == old(currentSound) && currentTrackId == old(currentTrackId)
          && effects == old(effects) + [GetStatus(s)] + if playing then [] else [Play(s)]
        case StatusIs(NotLoaded(_)) =>
          // falls through to creation without stopping or unloading the held sound
          && effects == old(effects) + [GetStatus(s), CreateSound(track.url, true)]
          && (created.Some? ==> currentSound == created && currentTrackId == Some(track.id))
          && (created.None? ==> currentSound == old(currentSound) && currentTrackId == old(currentTrackId))
      // Another track: the held sound is stopped and unloaded before the new one is created,
      // and the references are dropped even when that fails.
      ensures !old(isPlayingTrack) && old(currentTrackId) != Some(track.id) ==>
        && effects == old(effects)
                      + (if old(currentSound).Some? then StopThenUnload(old(currentSound).value, stopOk) else [])
                      + [CreateSound(track.url, true)]
        && currentSound == created
        && currentTrackId == if created.Some? then Some(track.id) else None
    {
      if isPlayingTrack {
        return;
      }
      isPlayingTrack := true;

      if currentTrackId == Some(track.id) && currentSound.Some? {
        var s := currentSound.value;
        effects := effects + [GetStatus(s)];
        if reply.StatusFails? {
          isPlayingTrack := false;
          return;
        }
        if reply.status.Loaded? {
          if !reply.status.isPlaying {
            effects := effects + [Play(s)];
          }
          isPlayingTrack := false;
          return;
        }
      }

      if currentSound.Some? && currentTrackId != Some(track.id) {
        effects := effects + StopThenUnload(currentSound.value, stopOk);
        currentSound := None;
        currentTrackId := None;
      }

      effects := effects + [CreateSound(track.url, true)];
      if created.Some? {
        currentSound := created;
        currentTrackId := Some(track.id);
      }
      isPlayingTrack := false;
    }

    /** `pauseTrack`: pauses the held sound, if any; a failure is swallowed. */
    method PauseTrack()
      modifies this`effects
      ensures effects == old(effects) + if currentSound.Some? then [Pause(currentSound.value)] else []
    {
      if currentSound.Some? {
        effects := effects + [Pause(currentSound.value)];
      }
    }

    /** `resumeTrack`: plays the held sound, if any; a failure is swallowed. */
    method ResumeTrack()
      modifies this`effects
      ensures effects == old(effects) + if currentSound.Some? then [Play(currentSound.value)] else []
    {
      if currentSound.Some? {
        effects := effects + [Play(currentSound.value)];
      }
    }

    /** `stopTrack`: whatever the stop and unload calls do, ends with nothing held and the flag released. */
    method StopTrack(stopOk: bool)
      requires Valid()
      modifies this`currentSound, this`currentTrackId, this`isPlayingTrack, this`effects
      ensures Valid()
      ensures currentSound == None && currentTrackId == None && !isPlayingTrack
      ensures effects == old(effects)
        + if old(currentSound).Some? then StopThenUnload(old(currentSound).value, stopOk) else []
    {
      if currentSound.Some? {
        effects := effects + StopThenUnload(currentSound.value, stopOk);
        currentSound := None;
        currentTrackId := None;
      }
      isPlayingTrack := false;
    }

    /**
     * `getCurrentTrackPosition`: the held sound's position, duration (0 when
     * unknown) and playing flag; zeros when nothing is held or it is not loaded.
     * When the status request throws, the sound is unloaded and dropped.
     */
    method GetCurrentTrackPosition(reply: StatusReply) returns (info: PositionInfo)
      requires Valid()
      modifies this`currentSound, this`currentTrackId, this`effects
      ensures Valid()
      ensures old(currentSound).None? ==>
        info == NoPosition && effects == old(effects) && currentTrackId == old(currentTrackId)
      ensures old(currentSound).Some? ==>
        var s := old(currentSound).value;
        match reply
        case StatusFails =>
          && info == NoPosition && currentSound == None && currentTrackId == None
          && effects == old(effects) + [GetStatus(s), Unload(s)]
        case StatusIs(Loaded(playing, pos, dur, _)) =>
          && info == PositionInfo(pos, dur.GetOr(0), playing)
          && currentSound == old(currentSound) && currentTrackId == old(currentTrackId)
          && effects == old(effects) + [GetStatus(s)]
        case StatusIs(NotLoaded(_)) =>
          && info == NoPosition
          && currentSound == old(currentSound) && currentTrackId == old(currentTrackId)
          && effects == old(effects) + [GetStatus(s)]
    {
      info := NoPosition;
      if currentSound.Some? {
        var s := currentSound.value;
        effects := effects + [GetStatus(s)];
        match reply {
          case StatusFails =>
            effects := effects + [Unload(s)];
            currentSound := None;
            currentTrackId := None;
          case StatusIs(status) =>
            if status.Loaded? {
              info := PositionInfo(status.positionMillis, status.durationMillis.GetOr(0), status.isPlaying);
            }
        }
      }
    }

    /** `seekToPosition`: passes `positionSec * 1000` to the held sound as it is, without clamping. */
    method SeekToPosition(positionSec: int)
      modifies this`effects
      ensures effects == old(effects)
        + if currentSound.Some? then [SetPosition(currentSound.value, positionSec * 1000)] else []
    {
      if currentSound.Some? {
        effects := effects + [SetPosition(currentSound.value, positionSec * 1000)];
      }
    }

    /** `setOnTrackFinishCallback`: replaces the single finish slot. */
    method SetOnTrackFinishCallback(callback: Listener)
      modifies this`onTrackFinishCallback
      ensures onTrackFinishCallback == Some(callback)
    {
      onTrackFinishCallback := Some(callback);
    }

    /** `setPlaybackCallback`: replaces the single status slot. */
    method SetPlaybackCallback(callback: Listener)
      modifies this`playbackCallback
      ensures playbackCallback == Some(callback)
    {
      playbackCallback := Some(callback);
    }

    /**
     * `onPlaybackStatusUpdate`: the status goes to the status listener first.
     * A loaded status that just finished drops the sound and its id and then
     * calls the finish listener, which therefore runs against the cleared
     * state; a not-loaded status with an error drops them too.
     */
    method OnPlaybackStatusUpdate(status: PlaybackStatus)
      requires Valid()
      modifies this`currentSound, this`currentTrackId, this`effects
      ensures Valid()
      ensures status.Loaded? && status.didJustFinish ==>
        && currentSound == None && currentTrackId == None
        && effects == old(effects) + NotifyIfSet(playbackCallback, status)
                      + if onTrackFinishCallback.Some? then [NotifyFinished(onTrackFinishCallback.value, None, None)] else []
      ensures status.HasError() ==>
        && currentSound == None && currentTrackId == None
        && effects == old(effects) + NotifyIfSet(playbackCallback, status)
      ensures !(status.Loaded? && status.didJustFinish) && !status.HasError() ==>
        && currentSound == old(currentSound) && currentTrackId == old(currentTrackId)
        && effects == old(effects) + NotifyIfSet(playbackCallback, status)
    {
      if playbackCallback.Some? {
        effects := effects + [NotifyStatus(playbackCallback.value, status)];
      }
      if status.Loaded? {
        if status.didJustFinish {
          currentSound := None;
          currentTrackId := None;
          if onTrackFinishCallback.Some? {
            effects := effects + [NotifyFinished(onTrackFinishCallback.value, currentSound, currentTrackId)];
          }
        }
      } else if status.error.Some? && status.error.value != "" {
        currentSound := None;
        currentTrackId := None;
      }
    }

    /**
     * `cleanup`: stops and unloads the held sound (failures swallowed) and
     * resets every slot and the flag. From a state with no sound it makes no
     * request, so a second call changes nothing.
     */
    method Cleanup(stopOk: bool)
      modifies this`currentSound, this`currentTrackId, this`playbackCallback,
               this`onTrackFinishCallback, this`isPlayingTrack, this`effects
      ensures Valid()
      ensures currentSound == None && currentTrackId == None
      ensures playbackCallback == None && onTrackFinishCallback == None && !isPlayingTrack
      ensures effects == old(effects)
        + if old(currentSound).Some? then StopThenUnload(old(currentSound).value, stopOk) else []
    {
      if currentSound.Some? {
        effects := effects + StopThenUnload(currentSound.value, stopOk);
        currentSound := None;
      }
      currentTrackId := None;
      playbackCallback := None;
      onTrackFinishCallback := None;
      isPlayingTrack := false;
    }

    /** `getCurrentTrackId`: present exactly when a sound is held. */
    method GetCurrentTrackId() returns (id: Option<string>)
      requires Valid()
      ensures id == currentTrackId
      ensures id.Some? <==> currentSound.Some?
    {
      id := currentTrackId;
    }

    /** `isPlaying`: true only when a sound is held and its status says loaded and playing. */
    method IsPlaying(reply: StatusReply) returns (playing: bool)
      modifies this`effects
      ensures playing <==>
        currentSound.Some? && reply.StatusIs? && reply.status.Loaded? && reply.status.isPlaying
      ensures effects == old(effects) + if currentSound.Some? then [GetStatus(currentSound.value)] else []
    {
      if currentSound.None? {
        return false;
      }
      effects := effects + [GetStatus(currentSound.value)];
      playing := reply.StatusIs? && reply.status.Loaded? && reply.status.isPlaying;
    }
  }

  /**
   * Loading `t1` and then a different `t2`: the first sound is stopped and
   * unloaded before the second is created, and afterwards only the second is
   * held, bound to `t2`.
   */
  method SwitchTracks(t1: Track, t2: Track, s1: Sound, s2: Sound) returns (log: seq<Effect>, held: Option<Sound>, heldId: Option<string>)
    requires t1.id != t2.id
    ensures log == [CreateSound(t1.url, true), Stop(s1), Unload(s1), CreateSound(t2.url, true)]
    ensures held == Some(s2) && heldId == Some(t2.id)
  {
    var m := new PlayerManager();
    m.PlayTrack(t1, StatusFails, true, Some(s1));
    m.PlayTrack(t2, StatusFails, true, Some(s2));
    log, held, heldId := m.effects, m.currentSound, m.currentTrackId;
  }

  /**
   * The same track asked for again while its sound reports not loaded: a second
   * sound is created and the first is dropped without being stopped or unloaded.
   */
  method ReloadSameTrack(t: Track, s1: Sound, s2: Sound) returns (log: seq<Effect>, held: Option<Sound>)
    ensures log == [CreateSound(t.url, true), GetStatus(s1), CreateSound(t.url, true)]
    ensures Unload(s1) !in log
    ensures held == Some(s2)
  {
    var m := new PlayerManager();
    m.PlayTrack(t, StatusFails, true, Some(s1));
    m.PlayTrack(t, StatusIs(NotLoaded(None)), true, Some(s2));
    log, held := m.effects, m.currentSound;
  }

  /**
   * `cleanup` called twice after a track was loaded: the second call makes no
   * request and leaves the same state as the first.
   */
  method CleanupTwice(t: Track, s: Sound, stopOk: bool, stopOkAgain: bool)
    returns (first: seq<Effect>, second: seq<Effect>, sameState: bool)
    ensures first == [CreateSound(t.url, true)] + StopThenUnload(s, stopOk)
    ensures second == first
    ensures sameState
  {
    var m := new PlayerManager();
    m.PlayTrack(t, StatusFails, true, Some(s));
    m.Cleanup(stopOk);
    first := m.effects;
    var held, id, status, finish, flag := m.currentSound, m.currentTrackId, m.playbackCallback,
                                          m.onTrackFinishCallback, m.isPlayingTrack;
    m.Cleanup(stopOkAgain);
    second := m.effects;
    sameState := held == m.currentSound && id == m.currentTrackId && status == m.playbackCallback
                 && finish == m.onTrackFinishCallback && flag == m.isPlayingTrack;
  }
}
