/**
 * The playback façade of src/services/PlayerService.ts that the UI uses: the
 * module variables `currentSound` and `playbackCallback`, and the functions
 * that reassign them. Unlike the manager it has no re-entrancy flag, no track
 * id, no same-track shortcut and no finish listener.
 */
module Service {
  import opened Wrappers
  import opened Audio
  import opened MusicService

  /** What `getCurrentTrackPosition` returns, in the device's milliseconds. */
  datatype Position = Position(positionMillis: int, durationMillis: int, isPlaying: bool)

  const Stopped: Position := Position(0, 0, false)

  /** The module state of PlayerService.ts. */
  class AudioPlayer {
    var currentSound: Option<Sound>
    var playbackCallback: Option<Listener>
    /** The requests made of the audio subsystem and the listener invocations, oldest first. */
    var effects: seq<Effect>

    constructor()
      ensures currentSound == None && playbackCallback == None && effects == []
    {
      currentSound := None;
      playbackCallback := None;
      effects := [];
    }

    /** `setupPlayer`: sets the audio mode and reports whether that worked. */
    method SetupPlayer(modeOk: bool) returns (ok: bool)
      modifies this`effects
      ensures ok == modeOk
      ensures effects == old(effects) + [SetAudioMode]
    {
      effects := effects + [SetAudioMode];
      ok := modeOk;
    }

    /**
     * `playTrack`: unloads and forgets the held sound, then creates the new one
     * and plays it. If the unload throws, the old sound stays held and nothing
     * is created; if creation throws, nothing is held.
     */
    method PlayTrack(track: Track, unloadOk: bool, created: Option<Sound>)
      modifies this`currentSound, this`effects
      ensures old(currentSound).Some? && !unloadOk ==>
        currentSound == old(currentSound) && effects == old(effects) + [Unload(old(currentSound).value)]
      ensures old(currentSound).None? || unloadOk ==>
        && currentSound == created
        && effects == old(effects)
                      + (if old(currentSound).Some? then [Unload(old(currentSound).value)] else [])
                      + [CreateSound(track.url, true)]
                      + if created.Some? then [Play(created.value)] else []
    {
      if currentSound.Some? {
        effects := effects + [Unload(currentSound.value)];
        if !unloadOk {
          return;
        }
        currentSound := None;
      }
      effects := effects + [CreateSound(track.url, true)];
      if created.Some? {
        currentSound := created;
        effects := effects + [Play(created.value)];
      }
    }

    /** `pauseTrack`: a no-op without a sound. */
    method PauseTrack()
      modifies this`effects
      ensures effects == old(effects) + if currentSound.Some? then [Pause(currentSound.value)] else []
    {
      if currentSound.Some? {
        effects := effects + [Pause(currentSound.value)];
      }
    }

    /** `resumeTrack`: a no-op without a sound. */
    method ResumeTrack()
      modifies this`effects
      ensures effects == old(effects) + if currentSound.Some? then [Play(currentSound.value)] else []
    {
      if currentSound.Some? {
        effects := effects + [Play(currentSound.value)];
      }
    }

    /** `stopTrack`: the sound is forgotten only when both stop and unload succeed. */
    method StopTrack(stopOk: bool, unloadOk: bool)
      modifies this`currentSound, this`effects
      ensures currentSound == if old(currentSound).Some? && stopOk && unloadOk then None else old(currentSound)
      ensures effects == old(effects)
        + if old(currentSound).Some? then StopThenUnload(old(currentSound).value, stopOk) else []
    {
      if currentSound.Some? {
        effects := effects + StopThenUnload(currentSound.value, stopOk);
        if stopOk && unloadOk {
          currentSound := None;
        }
      }
    }

    /** `getCurrentTrackPosition`: like the manager's, but a failing status request changes nothing. */
    method GetCurrentTrackPosition(reply: StatusReply) returns (pos: Position)
      modifies this`effects
      ensures effects == old(effects) + if currentSound.Some? then [GetStatus(currentSound.value)] else []
      ensures pos == if currentSound.Some? && reply.StatusIs? && reply.status.Loaded?
                     then Position(reply.status.positionMillis, reply.status.durationMillis.GetOr(0), reply.status.isPlaying)
                     else Stopped
    {
      pos := Stopped;
      if currentSound.Some? {
        effects := effects + [GetStatus(currentSound.value)];
        if reply.StatusIs? && reply.status.Loaded? {
          var st := reply.status;
          pos := Position(st.positionMillis, st.durationMillis.GetOr(0), st.isPlaying);
        }
      }
    }

    /** `seekToPosition`: `positionSec * 1000` to the held sound, unclamped; a no-op without a sound. */
    method SeekToPosition(positionSec: int)
      modifies this`effects
      ensures effects == old(effects)
        + if currentSound.Some? then [SetPosition(currentSound.value, positionSec * 1000)] else []
    {
      if currentSound.Some? {
        effects := effects + [SetPosition(currentSound.value, positionSec * 1000)];
      }
    }

    /** `onPlaybackStatusUpdate`: every status goes to whoever holds the slot now; nothing else changes. */
    method OnPlaybackStatusUpdate(status: PlaybackStatus)
      modifies this`effects
      ensures effects == old(effects) + NotifyIfSet(playbackCallback, status)
    {
      if playbackCallback.Some? {
        effects := effects + [NotifyStatus(playbackCallback.value, status)];
      }
    }

    /** `setPlaybackCallback`: replaces the single slot. */
    method SetPlaybackCallback(callback: Listener)
      modifies this`playbackCallback
      ensures playbackCallback == Some(callback)
    {
      playbackCallback := Some(callback);
    }

    /**
     * `cleanupPlayer`. It has no try/catch: when unloading the held sound
     * throws, the returned promise rejects (`ok` is false) before the slot is
     * cleared, so the sound and the listener both stay.
     */
    method CleanupPlayer(unloadOk: bool) returns (ok: bool)
      modifies this`currentSound, this`playbackCallback, this`effects
      ensures ok == (old(currentSound).None? || unloadOk)
      ensures ok ==> currentSound == None && playbackCallback == None
      ensures !ok ==> currentSound == old(currentSound) && playbackCallback == old(playbackCallback)
      ensures effects == old(effects) + if old(currentSound).Some? then [Unload(old(currentSound).value)] else []
    {
      if currentSound.Some? {
        effects := effects + [Unload(currentSound.value)];
        if !unloadOk {
          return false;
        }
        currentSound := None;
      }
      playbackCallback := None;
      ok := true;
    }
  }

  /**
   * Two status updates with a listener replaced in between: each goes to the
   * listener that holds the slot when it arrives, and to no other.
   */
  method ListenerReplaced(a: Listener, b: Listener, first: PlaybackStatus, second: PlaybackStatus)
    returns (log: seq<Effect>)
    ensures log == [NotifyStatus(a, first), NotifyStatus(b, second)]
  {
    var p := new AudioPlayer();
    p.SetPlaybackCallback(a);
    p.OnPlaybackStatusUpdate(first);
    p.SetPlaybackCallback(b);
    p.OnPlaybackStatusUpdate(second);
    log := p.effects;
  }
}
