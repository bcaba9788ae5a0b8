/**
 * The audio subsystem (expo-av) as the playback code sees it: opaque sound
 * handles, the status a sound reports, and the requests made of it. Whether an
 * awaited request succeeds is decided outside the core, so each operation
 * that makes one takes its outcome as a parameter; the requests issued, and
 * the listener invocations, are appended to an effect log so that their order
 * can be stated.
 */
module Audio {
  import opened Wrappers

  /** An `Audio.Sound` object. */
  datatype Sound = Sound(handle: nat)

  /** A registered callback, known only by its identity. */
  datatype Listener = Listener(id: nat)

  /** An `AVPlaybackStatus`: either loaded, with its playback fields, or not loaded, with an optional error. */
  datatype PlaybackStatus =
    | Loaded(isPlaying: bool, positionMillis: int, durationMillis: Option<int>, didJustFinish: bool)
    | NotLoaded(error: Option<string>)
  {
    /** `status.error` is truthy: present and not the empty string. */
    predicate HasError() {
      NotLoaded? && error.Some? && error.value != ""
    }
  }

  /** The outcome of `getStatusAsync`: it throws, or it yields a status. */
  datatype StatusReply = StatusFails | StatusIs(status: PlaybackStatus)

  /** One thing the playback code did towards the audio subsystem or a listener. */
  datatype Effect =
    | SetAudioMode
    | CreateSound(uri: string, shouldPlay: bool)
    | GetStatus(sound: Sound)
    | Play(sound: Sound)
    | Pause(sound: Sound)
    | Stop(sound: Sound)
    | Unload(sound: Sound)
    | SetPosition(sound: Sound, millis: int)
    | NotifyStatus(listener: Listener, status: PlaybackStatus)
    /** A finish-listener call, with the sound and track id held at the moment it is made. */
    | NotifyFinished(listener: Listener, soundSeen: Option<Sound>, idSeen: Option<string>)

  /** `stopAsync` then, if that did not throw, `unloadAsync`. */
  function StopThenUnload(s: Sound, stopOk: bool): (r: seq<Effect>)
    ensures |r| >= 1 && r[0] == Stop(s)
    ensures Unload(s) in r <==> stopOk
  {
    if stopOk then [Stop(s), Unload(s)] else [Stop(s)]
  }

  /** Invoking an optional listener with a status: nothing when none is registered. */
  function NotifyIfSet(listener: Option<Listener>, status: PlaybackStatus): (r: seq<Effect>)
    ensures listener.None? <==> r == []
    ensures |r| <= 1
    ensures forall e :: e in r ==> e.NotifyStatus? && Some(e.listener) == listener && e.status == status
  {
    match listener
    case Some(l) => [NotifyStatus(l, status)]
    case None => []
  }
}
