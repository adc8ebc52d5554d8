/**
 * The browser media facts both pages react to, as values: a stream reduced to its first
 * audio and first video track, the `{video, audio}` constraints handed to getUserMedia,
 * the reply getUserMedia gives, and the two steps that flip a track.
 */
module Media {
  import opened Base

  /** A media stream: for its first audio and its first video track, None when there is no
      such track and Some(enabled) otherwise. */
  datatype Stream = Stream(audio: Option<bool>, video: Option<bool>)

  /** The blank stream createEmptyStream builds: one canvas video track and one silent audio
      track, both enabled. */
  const EmptyStream := Stream(Some(true), Some(true))

  datatype Constraints = Constraints(video: bool, audio: bool)

  /** The retry request after a failed video request. */
  const AudioOnly := Constraints(false, true)

  /** A DOMException (or other thrown error) seen by handleMediaError. */
  datatype MediaError = MediaError(name: string, message: string)

  /** What one getUserMedia request resolved to. */
  datatype Reply = Granted(stream: Stream) | Refused(error: MediaError)

  /** The getUserMedia requests made, in order, and the stream (or error) getMediaStream ends with. */
  datatype Acquired = Acquired(requests: seq<Constraints>, result: Result<Stream, MediaError>)

  function Outcome(r: Reply): (o: Result<Stream, MediaError>)
    ensures r.Granted? <==> o.Ok?
    ensures r.Granted? ==> o.value == r.stream
    ensures r.Refused? ==> o.error == r.error
  {
    match r
    case Granted(s) => Ok(s)
    case Refused(e) => Err(e)
  }

  /** The constraints built from the call type and the device kinds enumerateDevices reported. */
  function Select(callType: string, hasVideo: bool, hasAudio: bool): (c: Constraints)
    ensures c.video <==> callType == "video" && hasVideo
    ensures c.audio <==> hasAudio
  {
    if callType == "video" then Constraints(hasVideo, hasAudio)
    else Constraints(false, hasAudio)
  }

  const FallbackPrefix := "Media error: "

  /** The default branch of handleMediaError: the error's message, or its name when the message is empty. */
  function Fallback(e: MediaError): (m: string)
    ensures StartsWith(m, FallbackPrefix)
    ensures m[|FallbackPrefix|..] == (if e.message != "" then e.message else e.name)
  {
    FallbackPrefix + (if e.message != "" then e.message else e.name)
  }

  /** A message that differs from the fallback prefix at a position both have is no fallback message. */
  lemma DiffersFromFallback(m: string, k: nat)
    requires k < |FallbackPrefix| && k < |m| && m[k] != FallbackPrefix[k]
    ensures !StartsWith(m, FallbackPrefix)
  {
    if |FallbackPrefix| <= |m| {
      assert m[..|FallbackPrefix|][k] == m[k];
    }
  }

  /** toggleMicrophone on (localStream, isMuted): when there is a stream with an audio track,
      the track's enabled flag flips and isMuted becomes its negation; otherwise nothing changes. */
  function MicToggled(s: Option<Stream>, muted: bool): (r: (Option<Stream>, bool))
    ensures s.Some? && s.value.audio.Some? ==>
      r.0 == Some(s.value.(audio := Some(!s.value.audio.value))) && r.1 == s.value.audio.value
    ensures !(s.Some? && s.value.audio.Some?) ==> r == (s, muted)
  {
    if s.Some? && s.value.audio.Some?
    then var on := !s.value.audio.value; (Some(s.value.(audio := Some(on))), !on)
    else (s, muted)
  }

  /** toggleVideo on (localStream, isVideoOff), the same step on the first video track. */
  function CameraToggled(s: Option<Stream>, off: bool): (r: (Option<Stream>, bool))
    ensures s.Some? && s.value.video.Some? ==>
      r.0 == Some(s.value.(video := Some(!s.value.video.value))) && r.1 == s.value.video.value
    ensures !(s.Some? && s.value.video.Some?) ==> r == (s, off)
  {
    if s.Some? && s.value.video.Some?
    then var on := !s.value.video.value; (Some(s.value.(video := Some(on))), !on)
    else (s, off)
  }

  /** After a toggle the flag mirrors the track, so a second toggle restores both the stream and the flag. */
  lemma MicToggledTwice(s: Option<Stream>, muted: bool)
    ensures var (s1, m1) := MicToggled(s, muted);
      (s1.Some? && s1.value.audio.Some? ==> m1 == !s1.value.audio.value)
      && (s.Some? && s.value.audio.Some? ==> s1.value.audio.value == !s.value.audio.value)
      && MicToggled(s1, m1) == (s, if s.Some? && s.value.audio.Some? then !s.value.audio.value else muted)
  {
  }

  lemma CameraToggledTwice(s: Option<Stream>, off: bool)
    ensures var (s1, o1) := CameraToggled(s, off);
      (s1.Some? && s1.value.video.Some? ==> o1 == !s1.value.video.value)
      && (s.Some? && s.value.video.Some? ==> s1.value.video.value == !s.value.video.value)
      && CameraToggled(s1, o1) == (s, if s.Some? && s.value.video.Some? then !s.value.video.value else off)
  {
  }
}
