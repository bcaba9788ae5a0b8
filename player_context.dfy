/**
 * The player context of src/contexts/PlayerContext.tsx: the status listener
 * that turns device reports into store actions, and the operations the
 * screens call, each an ordered sequence of store dispatches around one
 * awaited façade call.
 */
module Context {
  import opened Wrappers
  import opened Audio
  import opened MusicService
  import opened Slice
  import opened Service

  /** The fields of an expo-audio `AudioStatus` the listener reads (times in whole units). */
  datatype AudioStatus = AudioStatus(isLoaded: bool, currentTime: int, duration: Option<int>, playing: bool)

  /** The listener the provider registers, and the empty one it leaves behind on unmount. */
  const StoreListener: Listener := Listener(1)
  const NoOpListener: Listener := Listener(0)

  /** The actions `playbackCallback` dispatches for one status, in dispatch order. */
  function StatusActions(status: AudioStatus): (r: seq<Action>)
    ensures |r| == 2
    ensures status.isLoaded <==> r[0].UpdateProgress?
    ensures r[0].UpdateProgress? != r[1].UpdateProgress?
    ensures forall a :: a in r ==> a.SetPlaying? || a.UpdateProgress?
    ensures forall a :: a in r && a.SetPlaying? ==> a.playing == (status.isLoaded && status.playing)
    ensures forall a :: a in r && a.UpdateProgress? ==>
      && a.position == (if status.isLoaded then status.currentTime else 0)
      && a.duration == (if status.isLoaded then status.duration.GetOr(0) else 0)
  {
    if status.isLoaded then
      [UpdateProgress(status.currentTime, status.duration.GetOr(0)), SetPlaying(status.playing)]
    else
      [SetPlaying(false), UpdateProgress(0, 0)]
  }

  /** `PlayerProvider`: the store and the façade it drives. */
  class PlayerProvider {
    const store: PlayerState
    const player: AudioPlayer

    constructor(store: PlayerState, player: AudioPlayer)
      ensures this.store == store && this.player == player
    {
      this.store := store;
      this.player := player;
    }

    /** The mount effect: the store listener takes the façade's status slot. */
    method Mount()
      modifies player`playbackCallback
      ensures player.playbackCallback == Some(StoreListener)
    {
      player.SetPlaybackCallback(StoreListener);
    }

    /** The unmount clean-up: the slot is given a listener that does nothing. */
    method Unmount()
      modifies player`playbackCallback
      ensures player.playbackCallback == Some(NoOpListener)
    {
      player.SetPlaybackCallback(NoOpListener);
    }

    /**
     * `playbackCallback`: afterwards the store's playing flag is the status's
     * loaded-and-playing; the reported time (0 when not loaded) and positive
     * duration are shown subject to the seek arbitration.
     */
    method PlaybackCallback(status: AudioStatus, now: int)
      modifies store
      ensures store.Snapshot() == old(store.Snapshot()).(
        isPlaying := status.isLoaded && status.playing,
        position := if DeviceHasAuthority(store.isSeeking, store.lastSeekTime, now)
                    then (if status.isLoaded then status.currentTime else 0)
                    else old(store.position),
        duration := if status.isLoaded && status.duration.GetOr(0) > 0
                       && DeviceHasAuthority(store.isSeeking, store.lastSeekTime, now)
                    then status.duration.value else old(store.duration))
    {
      var actions := StatusActions(status);
      store.Dispatch(actions[0], now);
      store.Dispatch(actions[1], now);
    }

    /** `playNewTrack`: the store shows the track first, then the façade loads it. */
    method PlayNewTrack(track: Track, unloadOk: bool, created: Option<Sound>)
      modifies store, player`currentSound, player`effects
      ensures store.Snapshot() == old(store.Snapshot()).(currentTrack := Some(track))
      ensures old(player.currentSound).Some? && !unloadOk ==>
        player.currentSound == old(player.currentSound)
        && player.effects == old(player.effects) + [Unload(old(player.currentSound).value)]
      ensures old(player.currentSound).None? || unloadOk ==>
        && player.currentSound == created
        && player.effects == old(player.effects)
             + (if old(player.currentSound).Some? then [Unload(old(player.currentSound).value)] else [])
             + [CreateSound(track.url, true)]
             + if created.Some? then [Play(created.value)] else []
    {
      store.Dispatch(SetTrack(Some(track)), 0);
      player.PlayTrack(track, unloadOk, created);
    }

    /** `togglePlayback`: pause when the store says playing, resume otherwise, never both. */
    method TogglePlayback()
      modifies player`effects
      ensures player.effects == old(player.effects)
        + if player.currentSound.None? then []
          else if store.isPlaying then [Pause(player.currentSound.value)]
          else [Play(player.currentSound.value)]
    {
      if store.isPlaying {
        player.PauseTrack();
      } else {
        player.ResumeTrack();
      }
    }

    /** `startSeeking`. */
    method StartSeeking()
      modifies store
      ensures store.Snapshot() == old(store.Snapshot()).(isSeeking := true)
    {
      store.Dispatch(Slice.StartSeeking, 0);
    }

    /**
     * `stopSeeking`: shows the chosen position, seeks the façade, then finishes
     * the seek. Afterwards the position is the chosen one, no seek is in
     * progress, the grace window starts at `finishedAt`, and the duration is
     * what it was (the progress update carries the store's own duration).
     */
    method StopSeeking(newPosition: int, updatedAt: int, finishedAt: int)
      modifies store, player`effects
      ensures store.Snapshot() == old(store.Snapshot()).(
        position := newPosition, isSeeking := false, lastSeekTime := finishedAt)
      ensures player.effects == old(player.effects)
        + if player.currentSound.Some? then [SetPosition(player.currentSound.value, newPosition * 1000)] else []
    {
      store.Dispatch(UpdateProgress(newPosition, store.duration), updatedAt);
      player.SeekToPosition(newPosition);
      store.Dispatch(FinishSeeking(newPosition), finishedAt);
    }
  }
}
