/**
 * The customer page: the screen state machine, call-type selection, the defaults startCall
 * takes from the form, getMediaStream's constraint decision with the video-to-audio
 * downgrade, the no-answer timeout, and the resets after a call.
 * PeerJS callbacks (data-connection 'open', call 'stream', 'close', 'error', peer 'error')
 * and the 60-second timeout are modelled as calls of the class's methods.
 */
module Customer {
  import opened Base
  import opened Media
  import opened Text

  const DefaultName := "Customer"
  const DefaultConsultantId := "consultant"

  /** Which of the four screens and the remote video element are displayed. */
  datatype Screens = Screens(precall: bool, connecting: bool, waiting: bool, ended: bool, remoteVideo: bool)

  /** showScreen(screen): hide everything, then show the requested screen; 'active' (and any
      unknown name) shows none of the four. */
  function ShowScreen(screen: string): (v: Screens)
    ensures !v.remoteVideo
    ensures v.precall <==> screen == "precall"
    ensures v.connecting <==> screen == "connecting"
    ensures v.waiting <==> screen == "waiting"
    ensures v.ended <==> screen == "ended"
  {
    Screens(screen == "precall", screen == "connecting", screen == "waiting", screen == "ended", false)
  }

  function VisibleCount(v: Screens): nat {
    (if v.precall then 1 else 0) + (if v.connecting then 1 else 0)
    + (if v.waiting then 1 else 0) + (if v.ended then 1 else 0)
  }

  /** Exactly one screen is visible after showing one of the four, none after 'active'. */
  lemma ShowScreenExactlyOne(screen: string)
    ensures VisibleCount(ShowScreen(screen)) == (if screen in ["precall", "connecting", "waiting", "ended"] then 1 else 0)
  {
  }

  lemma DefaultsAreTrimmed()
    ensures DefaultName != [] && !IsSpace(DefaultName[0]) && !IsSpace(DefaultName[|DefaultName| - 1])
    ensures DefaultConsultantId != [] && !IsSpace(DefaultConsultantId[0])
    ensures !IsSpace(DefaultConsultantId[|DefaultConsultantId| - 1])
  {
    assert DefaultName == ['C', 'u', 's', 't', 'o', 'm', 'e', 'r'];
    assert DefaultConsultantId == ['c', 'o', 'n', 's', 'u', 'l', 't', 'a', 'n', 't'];
  }

  /** The customer name startCall uses: trimmed input, or the default when nothing is left. */
  function CallerName(input: string): (r: string)
    ensures r != [] && !IsSpace(r[0]) && !IsSpace(r[|r| - 1])
    ensures AllSpace(input) ==> r == DefaultName
    ensures !AllSpace(input) ==> r == Trim(input)
  {
    DefaultsAreTrimmed();
    TrimOr(input, DefaultName)
  }

  /** The consultant id startCall dials: trimmed input, or the default when the input is
      absent or blank. */
  function ConsultantId(input: Option<string>): (r: string)
    ensures r != [] && !IsSpace(r[0]) && !IsSpace(r[|r| - 1])
    ensures input.None? || AllSpace(input.value) ==> r == DefaultConsultantId
    ensures input.Some? && !AllSpace(input.value) ==> r == Trim(input.value)
  {
    DefaultsAreTrimmed();
    TrimOr(if input.Some? then input.value else "", DefaultConsultantId)
  }

  /** A request for both kinds, used when enumerateDevices reports neither. */
  const AnyDevice := Constraints(true, true)

  /** getMediaStream(): the getUserMedia requests made and the result, given the device kinds
      reported and the replies to the first and (if made) second request. With no device
      listed it still asks for both kinds and falls back to the blank stream. */
  function Acquire(callType: string, hasVideo: bool, hasAudio: bool, first: Reply, second: Reply): (a: Acquired)
    ensures 1 <= |a.requests| <= 2
    ensures !hasVideo && !hasAudio ==>
      a.requests == [AnyDevice] && a.result == (if first.Granted? then Ok(first.stream) else Ok(EmptyStream))
    ensures hasVideo || hasAudio ==> a.requests[0] == Select(callType, hasVideo, hasAudio)
    ensures hasVideo || hasAudio ==> forall i :: 0 <= i < |a.requests| ==>
      (a.requests[i].video ==> callType == "video" && hasVideo) && (a.requests[i].audio ==> hasAudio)
    ensures |a.requests| == 2 <==> Downgrades(callType, hasVideo, hasAudio, first)
    ensures |a.requests| == 2 ==> a.requests[1] == AudioOnly && a.result == Outcome(second)
    ensures (hasVideo || hasAudio) && |a.requests| == 1 ==> a.result == Outcome(first)
  {
    if !hasVideo && !hasAudio then
      match first
      case Granted(s) => Acquired([AnyDevice], Ok(s))
      case Refused(_) => Acquired([AnyDevice], Ok(EmptyStream))
    else
      var c := Select(callType, hasVideo, hasAudio);
      match first
      case Granted(s) => Acquired([c], Ok(s))
      case Refused(e) =>
        if c.video && hasAudio then Acquired([c, AudioOnly], Outcome(second))
        else Acquired([c], Err(e))
  }

  /** Whether getMediaStream switches callType to 'audio': a refused request that asked for
      video with a microphone present. Only a video call with both kinds of device can be
      downgraded. */
  function Downgrades(callType: string, hasVideo: bool, hasAudio: bool, first: Reply): (r: bool)
    ensures r <==> callType == "video" && hasVideo && hasAudio && first.Refused?
  {
    (hasVideo || hasAudio) && first.Refused? && Select(callType, hasVideo, hasAudio).video && hasAudio
  }

  predicate IsKnownError(name: string) {
    name == "NotFoundError" || name == "NotAllowedError" || name == "NotReadableError"
    || name == "OverconstrainedError" || name == "SecurityError"
  }

  const NotFoundMessage := "No camera or microphone found. " + "Please connect a device and try again."
  const NotAllowedMessage := "Camera/microphone access denied. " + "Please allow access in your browser settings."
  const NotReadableMessage := "Camera/microphone is being used " + "by another application."
  const OverconstrainedMessage := "Camera/microphone settings not supported."
  const SecurityMessage := "Media access is not allowed " + "on this page (HTTPS required)."

  /** handleMediaError's notification text; the customer page knows one more error name. */
  function ErrorMessage(e: MediaError): (m: string)
    ensures e.name == "NotFoundError" ==> m == NotFoundMessage
    ensures e.name == "NotAllowedError" ==> m == NotAllowedMessage
    ensures e.name == "NotReadableError" ==> m == NotReadableMessage
    ensures e.name == "OverconstrainedError" ==> m == OverconstrainedMessage
    ensures e.name == "SecurityError" ==> m == SecurityMessage
    ensures !IsKnownError(e.name) ==> m == Fallback(e)
    ensures StartsWith(m, FallbackPrefix) <==> !IsKnownError(e.name)
  {
    if e.name == "NotFoundError" then DiffersFromFallback(NotFoundMessage, 0); NotFoundMessage
    else if e.name == "NotAllowedError" then DiffersFromFallback(NotAllowedMessage, 0); NotAllowedMessage
    else if e.name == "NotReadableError" then DiffersFromFallback(NotReadableMessage, 0); NotReadableMessage
    else if e.name == "OverconstrainedError" then
      DiffersFromFallback(OverconstrainedMessage, 0); OverconstrainedMessage
    else if e.name == "SecurityError" then
      // "Media access" and "Media error" first differ at their seventh character.
      DiffersFromFallback(SecurityMessage, 6); SecurityMessage
    else Fallback(e)
  }

  /** The five known errors get five different messages, whatever the error's own message says. */
  lemma KnownMessages(e: MediaError, f: MediaError)
    requires IsKnownError(e.name) && IsKnownError(f.name)
    ensures ErrorMessage(e) == ErrorMessage(f) <==> e.name == f.name
  {
    if e.name != f.name {
      var m, n := ErrorMessage(e), ErrorMessage(f);
      assert |m| != |n|;
    }
  }

  /** The data connection and the caller name its 'open' handler sends. */
  datatype DataLink = DataLink(peer: string, callerName: string)

  /** The 'caller-info' message sent when the data connection opens. */
  datatype CallerInfoMessage = CallerInfoMessage(name: string, callType: string)

  /** The parts of the page the handlers set. */
  datatype Page = Page(
    screens: Screens,
    localVideo: bool, callInfo: bool, preCallControls: bool, callControls: bool,
    endedMessage: string,
    videoTypeSelected: bool, audioTypeSelected: bool,
    micActive: bool, cameraActive: bool,
    nameInput: string, consultantIdInput: Option<string>)

  /** The page resetToPreCall leaves: the pre-call screen, both control bars hidden, the
      consultant-id field (when the page has one) cleared, the toggle buttons inactive. */
  function PreCall(p: Page): (q: Page)
    ensures q.screens == ShowScreen("precall") && !q.preCallControls && !q.callControls
    ensures !q.micActive && !q.cameraActive
    ensures q.consultantIdInput.Some? <==> p.consultantIdInput.Some?
    ensures q.consultantIdInput.Some? ==> q.consultantIdInput.value == ""
    ensures q.nameInput == p.nameInput && q.endedMessage == p.endedMessage
    ensures q.localVideo == p.localVideo && q.callInfo == p.callInfo
    ensures q.videoTypeSelected == p.videoTypeSelected && q.audioTypeSelected == p.audioTypeSelected
  {
    p.(screens := ShowScreen("precall"), preCallControls := false, callControls := false,
       consultantIdInput := if p.consultantIdInput.Some? then Some("") else None,
       micActive := false, cameraActive := false)
  }

  /** The page handleCallEnded(reason) leaves: the ended screen alone, the video elements, the
      call information and both control bars hidden, the reason shown; nothing else changes. */
  function Ended(p: Page, reason: string): (q: Page)
    ensures q.screens == ShowScreen("ended") && q.endedMessage == reason
    ensures !q.localVideo && !q.callInfo && !q.preCallControls && !q.callControls
    ensures q.nameInput == p.nameInput && q.consultantIdInput == p.consultantIdInput
    ensures q.micActive == p.micActive && q.cameraActive == p.cameraActive
    ensures q.videoTypeSelected == p.videoTypeSelected && q.audioTypeSelected == p.audioTypeSelected
  {
    p.(screens := ShowScreen("ended"), localVideo := false, callInfo := false,
       callControls := false, preCallControls := false, endedMessage := reason)
  }

  lemma PreCallIgnoresScreens(p: Page, v: Screens)
    ensures PreCall(p.(screens := v)) == PreCall(p)
  {
  }

  class CustomerInterface {
    var currentCall: Option<string>
    var dataConnection: Option<DataLink>
    var localStream: Option<Stream>
    var remoteStream: bool
    var timerRunning: bool
    var timeoutArmed: bool
    var callDuration: nat
    var callType: string
    var isMuted: bool
    var isVideoOff: bool
    var page: Page

    /** No call, connection, stream, timer or timeout is left, and the counters are reset. */
    ghost predicate Idle()
      reads this
    {
      && currentCall == None && dataConnection == None && localStream == None && !remoteStream
      && !timerRunning && !timeoutArmed && callDuration == 0 && !isMuted && !isVideoOff
    }

    constructor (initial: Page)
      ensures currentCall == None && dataConnection == None && localStream == None && !remoteStream
      ensures !timerRunning && !timeoutArmed && callDuration == 0 && callType == "video"
      ensures !isMuted && !isVideoOff && page == initial
    {
      currentCall, dataConnection, localStream, remoteStream := None, None, None, false;
      timerRunning, timeoutArmed, callDuration := false, false, 0;
      callType, isMuted, isVideoOff := "video", false, false;
      page := initial;
    }

    /** Set callType and mark exactly one of the two type buttons selected. */
    method SelectCallType(t: string)
      modifies this`callType, this`page
      ensures callType == t
      ensures page == old(page).(videoTypeSelected := t == "video", audioTypeSelected := t != "video")
      ensures page.videoTypeSelected != page.audioTypeSelected
    {
      callType := t;
      if t == "video" {
        page := page.(videoTypeSelected := true, audioTypeSelected := false);
      } else {
        page := page.(audioTypeSelected := true, videoTypeSelected := false);
      }
    }

    /** getMediaStream(): decides the requests from callType and the devices, and switches
        callType to 'audio' when it falls back to an audio-only request. */
    method GetMediaStream(hasVideo: bool, hasAudio: bool, first: Reply, second: Reply) returns (a: Acquired)
      modifies this`callType
      ensures a == Acquire(old(callType), hasVideo, hasAudio, first, second)
      ensures callType == if Downgrades(old(callType), hasVideo, hasAudio, first) then "audio" else old(callType)
    {
      var c := Select(callType, hasVideo, hasAudio);
      if !hasVideo && !hasAudio {
        match first
        case Granted(s) => a := Acquired([AnyDevice], Ok(s));
        case Refused(_) => a := Acquired([AnyDevice], Ok(EmptyStream));
      } else {
        match first
        case Granted(s) =>
          a := Acquired([c], Ok(s));
        case Refused(e) =>
          if c.video && hasAudio {
            callType := "audio";
            a := Acquired([c, AudioOnly], Outcome(second));
          } else {
            a := Acquired([c], Err(e));
          }
      }
    }

    /** resetToPreCall: the pre-call screen, controls hidden, the consultant-id field cleared,
        the toggle buttons back to inactive. Call fields are left as they are. */
    method ResetToPreCall()
      modifies this`page
      ensures page == PreCall(old(page))
    {
      page := page.(screens := ShowScreen("precall"), preCallControls := false, callControls := false);
      if page.consultantIdInput.Some? {
        page := page.(consultantIdInput := Some(""));
      }
      page := page.(micActive := false, cameraActive := false);
    }

    /** handleMediaError: returns the notification text and goes back to the pre-call screen. */
    method HandleMediaError(e: MediaError) returns (message: string)
      modifies this`page
      ensures message == ErrorMessage(e)
      ensures page == PreCall(old(page))
    {
      message := ErrorMessage(e);
      ResetToPreCall();
    }

    /** startCall, up to the data connection: the defaults from the form, the connecting
        screen, then either a stream and a connection to the consultant, or the error message
        and the pre-call screen. */
    method StartCall(hasVideo: bool, hasAudio: bool, first: Reply, second: Reply) returns (error: Option<string>)
      modifies this`page, this`callType, this`localStream, this`dataConnection
      ensures var a := Acquire(old(callType), hasVideo, hasAudio, first, second);
        && callType == (if Downgrades(old(callType), hasVideo, hasAudio, first) then "audio" else old(callType))
        && (a.result.Ok? ==>
              && error == None && localStream == Some(a.result.value)
              && dataConnection == Some(DataLink(ConsultantId(old(page).consultantIdInput), CallerName(old(page).nameInput)))
              && page == old(page).(screens := ShowScreen("connecting")))
        && (a.result.Err? ==>
              && error == Some(ErrorMessage(a.result.error))
              && localStream == old(localStream) && dataConnection == old(dataConnection)
              && page == PreCall(old(page)))
    {
      var name := CallerName(page.nameInput);
      var consultant := ConsultantId(page.consultantIdInput);
      error := Connect(consultant, name, hasVideo, hasAudio, first, second);
    }

    /** The rest of startCall once the names are known: the connecting screen, then the try
        block (the stream and the data connection to `consultant`) or its catch (the media
        error and the pre-call screen). */
    method Connect(consultant: string, name: string, hasVideo: bool, hasAudio: bool, first: Reply, second: Reply)
      returns (error: Option<string>)
      modifies this`page, this`callType, this`localStream, this`dataConnection
      ensures var a := Acquire(old(callType), hasVideo, hasAudio, first, second);
        && callType == (if Downgrades(old(callType), hasVideo, hasAudio, first) then "audio" else old(callType))
        && (a.result.Ok? ==>
              && error == None && localStream == Some(a.result.value)
              && dataConnection == Some(DataLink(consultant, name))
              && page == old(page).(screens := ShowScreen("connecting")))
        && (a.result.Err? ==>
              && error == Some(ErrorMessage(a.result.error))
              && localStream == old(localStream) && dataConnection == old(dataConnection)
              && page == PreCall(old(page)))
    {
      ghost var before := page;
      var connecting := ShowScreen("connecting");
      page := page.(screens := connecting);
      var a := GetMediaStream(hasVideo, hasAudio, first, second);
      if a.result.Ok? {
        localStream := Some(a.result.value);
        dataConnection := Some(DataLink(consultant, name));
        error := None;
      } else {
        var message := HandleMediaError(a.result.error);
        error := Some(message);
        PreCallIgnoresScreens(before, connecting);
      }
    }

    /** The data connection's 'open' event: send the caller info, then makeCall: the waiting
        screen, the call to the consultant, the local preview for a video call, and the
        no-answer timeout. */
    method OnDataConnectionOpen() returns (sent: CallerInfoMessage)
      requires dataConnection.Some?
      modifies this`page, this`currentCall, this`timeoutArmed
      ensures sent == CallerInfoMessage(dataConnection.value.callerName, callType)
      ensures currentCall == Some(dataConnection.value.peer) && timeoutArmed
      ensures page == old(page).(screens := ShowScreen("waiting"), preCallControls := true,
        localVideo := if callType == "video" then true else old(page).localVideo)
    {
      sent := CallerInfoMessage(dataConnection.value.callerName, callType);
      page := page.(screens := ShowScreen("waiting"), preCallControls := true);
      currentCall := Some(dataConnection.value.peer);
      if callType == "video" {
        page := page.(localVideo := true);
      }
      timeoutArmed := true;
    }

    /** The call's 'stream' event: the active screen with the remote video, and the timer from zero. */
    method OnRemoteStream()
      modifies this`remoteStream, this`page, this`callDuration, this`timerRunning
      ensures remoteStream && callDuration == 0 && timerRunning
      ensures page == old(page).(screens := ShowScreen("active").(remoteVideo := true),
        preCallControls := false, callControls := true, callInfo := true)
    {
      remoteStream := true;
      page := page.(screens := ShowScreen("active"), preCallControls := false, callControls := true);
      page := page.(screens := page.screens.(remoteVideo := true), callInfo := true);
      callDuration := 0;
      timerRunning := true;
    }

    /** One tick of the running one-second interval. */
    method Tick()
      requires timerRunning
      modifies this`callDuration
      ensures callDuration == old(callDuration) + 1
    {
      callDuration := callDuration + 1;
    }

    /** handleCallEnded(reason): clear the timeout and the timer, drop the stream and the
        connections, hide the call's elements, and show the ended screen with the reason. */
    method HandleCallEnded(reason: string)
      modifies this`timeoutArmed, this`timerRunning, this`localStream, this`dataConnection, this`page,
        this`currentCall, this`remoteStream, this`callDuration, this`isMuted, this`isVideoOff
      ensures Idle() && page == Ended(old(page), reason)
    {
      timeoutArmed := false;
      timerRunning := false;
      localStream := None;
      dataConnection := None;
      page := page.(screens := page.screens.(remoteVideo := false), localVideo := false, callInfo := false,
        callControls := false, preCallControls := false);
      page := page.(endedMessage := reason);
      page := page.(screens := ShowScreen("ended"));
      currentCall := None;
      remoteStream := false;
      callDuration := 0;
      isMuted := false;
      isVideoOff := false;
    }

    /** The 60-second timeout firing: it ends the call only when no remote stream has arrived. */
    method OnNoAnswerTimeout()
      requires timeoutArmed
      modifies this`timeoutArmed, this`timerRunning, this`localStream, this`dataConnection, this`page,
        this`currentCall, this`remoteStream, this`callDuration, this`isMuted, this`isVideoOff
      ensures !timeoutArmed
      ensures old(remoteStream) ==>
        && timerRunning == old(timerRunning) && localStream == old(localStream) && dataConnection == old(dataConnection)
        && page == old(page) && currentCall == old(currentCall) && remoteStream && callDuration == old(callDuration)
        && isMuted == old(isMuted) && isVideoOff == old(isVideoOff)
      ensures !old(remoteStream) ==> Idle() && page == Ended(old(page), "No answer from consultant")
    {
      timeoutArmed := false;
      if !remoteStream {
        HandleCallEnded("No answer from consultant");
      }
    }

    /** The cancel button. */
    method CancelCall()
      modifies this`timeoutArmed, this`timerRunning, this`localStream, this`dataConnection, this`page,
        this`currentCall, this`remoteStream, this`callDuration, this`isMuted, this`isVideoOff
      ensures Idle() && page == Ended(old(page), "Call cancelled")
    {
      HandleCallEnded("Call cancelled");
    }

    /** The end-call button. */
    method EndCall()
      modifies this`timeoutArmed, this`timerRunning, this`localStream, this`dataConnection, this`page,
        this`currentCall, this`remoteStream, this`callDuration, this`isMuted, this`isVideoOff
      ensures Idle() && page == Ended(old(page), "Call ended")
    {
      HandleCallEnded("Call ended");
    }

    /** The peer's 'error' event: an unavailable consultant sends the page back to the start. */
    method OnPeerError(errorType: string)
      modifies this`page
      ensures errorType == "peer-unavailable" ==>
        page == PreCall(old(page))
      ensures errorType != "peer-unavailable" ==> page == old(page)
    {
      if errorType == "peer-unavailable" {
        ResetToPreCall();
      }
    }

    method ToggleMicrophone()
      modifies this`localStream, this`isMuted, this`page
      ensures (localStream, isMuted) == MicToggled(old(localStream), old(isMuted))
      ensures page == if old(localStream).Some? && old(localStream).value.audio.Some?
        then old(page).(micActive := isMuted) else old(page)
    {
      if localStream.Some? && localStream.value.audio.Some? {
        var enabled := !localStream.value.audio.value;
        localStream := Some(localStream.value.(audio := Some(enabled)));
        isMuted := !enabled;
        page := page.(micActive := isMuted);
      }
    }

    method ToggleVideo()
      modifies this`localStream, this`isVideoOff, this`page
      ensures (localStream, isVideoOff) == CameraToggled(old(localStream), old(isVideoOff))
      ensures page == if old(localStream).Some? && old(localStream).value.video.Some?
        then old(page).(cameraActive := isVideoOff) else old(page)
    {
      if localStream.Some? && localStream.value.video.Some? {
        var enabled := !localStream.value.video.value;
        localStream := Some(localStream.value.(video := Some(enabled)));
        isVideoOff := !enabled;
        page := page.(cameraActive := isVideoOff);
      }
    }
  }
}
