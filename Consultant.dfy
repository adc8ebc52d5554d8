/**
 * The consultant dashboard: the queue of incoming calls, the bounded call history, the call
 * whose incoming-call modal is shown, the call in progress and its timer and mute flags.
 * PeerJS callbacks ('call', 'stream', 'close', data 'caller-info') are modelled as calls of
 * the class's methods; getMediaStream's outcome is a parameter of AcceptCall.
 */
module Consultant {
  import opened Base
  import opened Media

  /** An entry of the incoming-call queue. `id` stands for the identity of the JavaScript
      callInfo object (the queue is filtered by identity), `peer` for its call handle. */
  datatype CallInfo = CallInfo(id: nat, peer: string, name: string, callType: string, timestamp: int)

  datatype Status = Completed | Rejected

  datatype HistoryItem = HistoryItem(name: string, callType: string, timestamp: int, duration: nat, status: Status)

  /** The 'caller-info' message a customer sends; either field may be missing. */
  datatype CallerInfo = CallerInfo(name: Option<string>, callType: Option<string>)

  const HistoryLimit: nat := 10
  const DefaultName := "Customer"
  const DefaultType := "video"

  /** The modal's call-type line. */
  function IncomingText(callType: string): string { "Incoming " + callType + " call..." }

  predicate DistinctIds(q: seq<CallInfo>) {
    forall i, j :: 0 <= i < j < |q| ==> q[i].id != q[j].id
  }

  predicate HasId(q: seq<CallInfo>, id: nat) {
    exists i :: 0 <= i < |q| && q[i].id == id
  }

  /** `queue.filter(c => c !== info)` for the object with identity `id`. */
  function Without(q: seq<CallInfo>, id: nat): (r: seq<CallInfo>)
    ensures |r| <= |q|
    ensures forall i :: 0 <= i < |r| ==> r[i].id != id && r[i] in q
  {
    if q == [] then []
    else (if q[0].id == id then [] else [q[0]]) + Without(q[1..], id)
  }

  lemma {:induction false} WithoutAbsent(q: seq<CallInfo>, id: nat)
    requires !HasId(q, id)
    ensures Without(q, id) == q
  {
    if q != [] {
      WithoutAbsent(q[1..], id);
    }
  }

  /** On a queue of distinct objects, filtering out entry k removes exactly that entry and keeps the order of the rest. */
  lemma {:induction false} WithoutAt(q: seq<CallInfo>, k: nat)
    requires DistinctIds(q) && k < |q|
    ensures Without(q, q[k].id) == q[..k] + q[k + 1..]
  {
    var id := q[k].id;
    if k == 0 {
      HeadAbsentFromTail(q);
      WithoutAbsent(q[1..], id);
      assert q[..k] + q[k + 1..] == q[1..];
    } else {
      var t := q[1..];
      DistinctTail(q);
      assert t[k - 1] == q[k];
      WithoutAt(t, k - 1);
      WithoutKeepsHead(q, k);
    }
  }

  lemma HeadAbsentFromTail(q: seq<CallInfo>)
    requires DistinctIds(q) && q != []
    ensures !HasId(q[1..], q[0].id)
  {
    var t := q[1..];
    forall i | 0 <= i < |t| ensures t[i].id != q[0].id {
      assert t[i] == q[i + 1];
    }
  }

  lemma DistinctTail(q: seq<CallInfo>)
    requires DistinctIds(q) && q != []
    ensures DistinctIds(q[1..])
  {
    var t := q[1..];
    forall i, j | 0 <= i < j < |t| ensures t[i].id != t[j].id {
      assert t[i] == q[i + 1] && t[j] == q[j + 1];
    }
  }

  lemma WithoutKeepsHead(q: seq<CallInfo>, k: nat)
    requires DistinctIds(q) && 0 < k < |q|
    requires Without(q[1..], q[k].id) == q[1..][..k - 1] + q[1..][k..]
    ensures Without(q, q[k].id) == q[..k] + q[k + 1..]
  {
    WithoutCons(q, q[k].id);
    SlicesAroundCons(q, k);
  }

  lemma WithoutCons(q: seq<CallInfo>, id: nat)
    requires q != [] && q[0].id != id
    ensures Without(q, id) == [q[0]] + Without(q[1..], id)
  {
  }

  lemma SlicesAroundCons<T>(q: seq<T>, k: nat)
    requires 0 < k < |q|
    ensures q[..k] + q[k + 1..] == [q[0]] + (q[1..][..k - 1] + q[1..][k..])
  {
    assert q[..k] == [q[0]] + q[1..][..k - 1];
    assert q[k + 1..] == q[1..][k..];
  }

  /** `queue.find(c => c.call.peer === peer)`, as an index. */
  function FirstWithPeer(q: seq<CallInfo>, peer: string): (r: Option<nat>)
    ensures r.None? ==> forall j :: 0 <= j < |q| ==> q[j].peer != peer
    ensures r.Some? ==>
      r.value < |q| && q[r.value].peer == peer && forall j :: 0 <= j < r.value ==> q[j].peer != peer
  {
    if q == [] then None
    else if q[0].peer == peer then Some(0)
    else match FirstWithPeer(q[1..], peer)
      case None => None
      case Some(k) => Some(k + 1)
  }

  /** The history item addToHistory builds from a queued call: `duration || 0` is 0 for a queued call. */
  function ItemOf(c: CallInfo, status: Status): HistoryItem {
    HistoryItem(c.name, c.callType, c.timestamp, 0, status)
  }

  function Min(a: nat, b: nat): nat { if a < b then a else b }

  /** The history after recording `item`: newest first, at most HistoryLimit items. */
  function Recent(h: seq<HistoryItem>, item: HistoryItem): (r: seq<HistoryItem>)
    ensures |r| == Min(|h| + 1, HistoryLimit) && r[0] == item
    ensures r[1..] == h[..|r| - 1]
    ensures |h| < HistoryLimit ==> r == [item] + h
    ensures |h| >= HistoryLimit ==> r == [item] + h[..HistoryLimit - 1]
  {
    ([item] + h)[..Min(|h| + 1, HistoryLimit)]
  }

  predicate IsKnownError(name: string) {
    name == "NotFoundError" || name == "NotAllowedError" || name == "NotReadableError"
    || name == "OverconstrainedError"
  }

  const NotFoundMessage := "No camera or microphone found. " + "Please connect a device."
  const NotAllowedMessage := "Camera/microphone access denied. " + "Please allow access in browser settings."
  const NotReadableMessage := "Camera/microphone is being used " + "by another application."
  const OverconstrainedMessage := "Camera/microphone settings not supported."

  /** handleMediaError's notification text: a fixed sentence per known error name, the
      fallback built from the error otherwise. */
  function ErrorMessage(e: MediaError): (m: string)
    ensures e.name == "NotFoundError" ==> m == NotFoundMessage
    ensures e.name == "NotAllowedError" ==> m == NotAllowedMessage
    ensures e.name == "NotReadableError" ==> m == NotReadableMessage
    ensures e.name == "OverconstrainedError" ==> m == OverconstrainedMessage
    ensures !IsKnownError(e.name) ==> m == Fallback(e)
    ensures StartsWith(m, FallbackPrefix) <==> !IsKnownError(e.name)
  {
    if e.name == "NotFoundError" then DiffersFromFallback(NotFoundMessage, 0); NotFoundMessage
    else if e.name == "NotAllowedError" then DiffersFromFallback(NotAllowedMessage, 0); NotAllowedMessage
    else if e.name == "NotReadableError" then DiffersFromFallback(NotReadableMessage, 0); NotReadableMessage
    else if e.name == "OverconstrainedError" then
      DiffersFromFallback(OverconstrainedMessage, 0); OverconstrainedMessage
    else Fallback(e)
  }

  /** The four known errors get four different messages, whatever the error's own message says. */
  lemma KnownMessages(e: MediaError, f: MediaError)
    requires IsKnownError(e.name) && IsKnownError(f.name)
    ensures ErrorMessage(e) == ErrorMessage(f) <==> e.name == f.name
  {
    if e.name != f.name {
      var m, n := ErrorMessage(e), ErrorMessage(f);
      assert |m| != |n| || m[11] != n[11];
    }
  }

  /** getMediaStream(callType): the getUserMedia requests it makes, given the device kinds
      enumerateDevices reported and the replies to the first and (if made) second request. */
  function Acquire(callType: string, hasVideo: bool, hasAudio: bool, first: Reply, second: Reply): (a: Acquired)
    ensures !hasVideo && !hasAudio ==> a == Acquired([], Ok(EmptyStream))
    ensures hasVideo || hasAudio ==> 1 <= |a.requests| <= 2 && a.requests[0] == Select(callType, hasVideo, hasAudio)
    ensures forall i :: 0 <= i < |a.requests| ==>
      (a.requests[i].video ==> callType == "video" && hasVideo) && (a.requests[i].audio ==> hasAudio)
    ensures |a.requests| == 2 <==> callType == "video" && hasVideo && hasAudio && first.Refused?
    ensures |a.requests| == 2 ==> a.requests[1] == AudioOnly && a.result == Outcome(second)
    ensures |a.requests| == 1 ==> a.result == Outcome(first)
  {
    if !hasVideo && !hasAudio then Acquired([], Ok(EmptyStream))
    else
      var c := Select(callType, hasVideo, hasAudio);
      match first
      case Granted(s) => Acquired([c], Ok(s))
      case Refused(e) =>
        if c.video && hasAudio then Acquired([c, AudioOnly], Outcome(second))
        else Acquired([c], Err(e))
  }

  class ConsultantDashboard {
    var incomingCalls: seq<CallInfo>
    var callHistory: seq<HistoryItem>
    var pendingCall: Option<CallInfo>
    var currentCall: Option<string>
    var localStream: Option<Stream>
    var callDuration: nat
    var timerRunning: bool
    var isMuted: bool
    var isVideoOff: bool
    /** Text of the page's caller-name label, read back when a call ends. */
    var callerNameText: string
    /** Texts of the incoming-call modal. */
    var modalCallerText: string
    var modalTypeText: string
    /** The identity the next callInfo object gets. */
    var nextId: nat
    /** The callInfo the last answered call's handlers hold on to. */
    var answered: Option<CallInfo>

    /** Queue entries are distinct objects, and the object shown in the modal is the same
        value as its queue entry while it is queued (the two are one object in the page). */
    ghost predicate Valid()
      reads this`callHistory, this`incomingCalls, this`pendingCall, this`nextId
    {
      && |callHistory| <= HistoryLimit
      && DistinctIds(incomingCalls)
      && (forall i :: 0 <= i < |incomingCalls| ==> incomingCalls[i].id < nextId)
      && (pendingCall.Some? ==> pendingCall.value.id < nextId)
      && (forall i :: 0 <= i < |incomingCalls| && pendingCall.Some? && incomingCalls[i].id == pendingCall.value.id
            ==> incomingCalls[i] == pendingCall.value)
    }

    constructor (pageCallerName: string)
      ensures Valid()
      ensures incomingCalls == [] && callHistory == [] && pendingCall == None && currentCall == None
      ensures localStream == None && callDuration == 0 && !timerRunning && !isMuted && !isVideoOff
      ensures callerNameText == pageCallerName && answered == None
    {
      incomingCalls, callHistory, pendingCall, currentCall := [], [], None, None;
      localStream, callDuration, timerRunning := None, 0, false;
      isMuted, isVideoOff := false, false;
      callerNameText, modalCallerText, modalTypeText := pageCallerName, "", "";
      nextId, answered := 0, None;
    }

    method ShowIncomingCallModal(info: CallInfo)
      modifies this`pendingCall, this`modalCallerText, this`modalTypeText
      ensures pendingCall == Some(info)
      ensures modalCallerText == info.name && modalTypeText == IncomingText(info.callType)
    {
      pendingCall := Some(info);
      modalCallerText := info.name;
      modalTypeText := IncomingText(info.callType);
    }

    method HideIncomingCallModal()
      modifies this`pendingCall
      ensures pendingCall == None
    {
      pendingCall := None;
    }

    /** callHistory.unshift(item), then pop() when over the limit. */
    method AddToHistory(item: HistoryItem)
      requires |callHistory| <= HistoryLimit
      modifies this`callHistory
      ensures callHistory == Recent(old(callHistory), item)
    {
      callHistory := [item] + callHistory;
      if |callHistory| > HistoryLimit {
        callHistory := callHistory[..|callHistory| - 1];
      }
    }

    /** The peer 'call' event: queue the call with default name and type; show the modal only
        when no call is in progress and this is the only queued call. */
    method HandleIncomingCall(peer: string, now: int)
      requires Valid()
      modifies this`incomingCalls, this`nextId, this`pendingCall, this`modalCallerText, this`modalTypeText
      ensures Valid()
      ensures nextId == old(nextId) + 1
      ensures var info := CallInfo(old(nextId), peer, DefaultName, DefaultType, now);
        && incomingCalls == old(incomingCalls) + [info]
        && if currentCall.None? && |old(incomingCalls)| == 0
           then pendingCall == Some(info) && modalCallerText == DefaultName && modalTypeText == IncomingText(DefaultType)
           else pendingCall == old(pendingCall) && modalCallerText == old(modalCallerText) && modalTypeText == old(modalTypeText)
    {
      var info := CallInfo(nextId, peer, DefaultName, DefaultType, now);
      nextId := nextId + 1;
      incomingCalls := incomingCalls + [info];
      if currentCall.None? && |incomingCalls| == 1 {
        ShowIncomingCallModal(info);
      }
    }

    /** The data-connection 'caller-info' message from `peer`: update the first queued call of
        that peer (and the modal's object, when it is that call), and the modal texts when the
        modal shows a call of that peer. */
    method UpdateCallerInfo(peer: string, info: CallerInfo)
      requires Valid()
      modifies this`incomingCalls, this`pendingCall, this`modalCallerText, this`modalTypeText
      ensures Valid()
      ensures var name, t := OrDefault(info.name, DefaultName), OrDefault(info.callType, DefaultType);
        match FirstWithPeer(old(incomingCalls), peer)
        case None => incomingCalls == old(incomingCalls) && pendingCall == old(pendingCall)
        case Some(k) =>
          && incomingCalls == old(incomingCalls)[k := old(incomingCalls)[k].(name := name, callType := t)]
          && pendingCall == if old(pendingCall).Some? && old(pendingCall).value.id == old(incomingCalls)[k].id
                            then Some(old(pendingCall).value.(name := name, callType := t))
                            else old(pendingCall)
      ensures if old(pendingCall).Some? && old(pendingCall).value.peer == peer
              then modalCallerText == OrDefault(info.name, DefaultName) && modalTypeText == IncomingText(OrDefault(info.callType, DefaultType))
              else modalCallerText == old(modalCallerText) && modalTypeText == old(modalTypeText)
    {
      var name, t := OrDefault(info.name, DefaultName), OrDefault(info.callType, DefaultType);
      var found := FirstWithPeer(incomingCalls, peer);
      if found.Some? {
        var k := found.value;
        var updated := incomingCalls[k].(name := name, callType := t);
        if pendingCall.Some? && pendingCall.value.id == updated.id {
          pendingCall := Some(updated);
        }
        incomingCalls := incomingCalls[k := updated];
      }
      if pendingCall.Some? && pendingCall.value.peer == peer {
        modalCallerText := name;
        modalTypeText := IncomingText(t);
      }
    }

    /** The modal's reject button. */
    method RejectCall()
      requires Valid()
      modifies this`incomingCalls, this`callHistory, this`pendingCall, this`modalCallerText, this`modalTypeText
      ensures Valid()
      ensures old(pendingCall).None? ==>
        && incomingCalls == old(incomingCalls) && callHistory == old(callHistory) && pendingCall == None
        && modalCallerText == old(modalCallerText) && modalTypeText == old(modalTypeText)
      ensures old(pendingCall).Some? ==>
        && incomingCalls == Without(old(incomingCalls), old(pendingCall).value.id)
        && callHistory == Recent(old(callHistory), ItemOf(old(pendingCall).value, Rejected))
        && (incomingCalls == [] ==>
              pendingCall == None && modalCallerText == old(modalCallerText) && modalTypeText == old(modalTypeText))
        && (incomingCalls != [] ==>
              pendingCall == Some(incomingCalls[0])
              && modalCallerText == incomingCalls[0].name && modalTypeText == IncomingText(incomingCalls[0].callType))
    {
      if pendingCall.Some? {
        var p := pendingCall.value;
        AddToHistory(ItemOf(p, Rejected));
        incomingCalls := Without(incomingCalls, p.id);
        HideIncomingCallModal();
        if |incomingCalls| > 0 {
          ShowIncomingCallModal(incomingCalls[0]);
        }
      }
      assert Valid() by { WithoutKeepsDistinct(old(incomingCalls), if old(pendingCall).Some? then old(pendingCall).value.id else 0); }
    }

    /** The modal's accept button, given what getMediaStream(callType) resolved to. The modal is
        hidden (pendingCall cleared) before the media request, so on a media error the
        rejectCall that follows finds no pending call: the call stays queued and nothing is
        recorded. The result is handleMediaError's message on that path. */
    method AcceptCall(media: Result<Stream, MediaError>) returns (error: Option<string>)
      requires Valid()
      modifies this`pendingCall, this`localStream, this`currentCall, this`incomingCalls, this`callHistory,
        this`modalCallerText, this`modalTypeText, this`answered
      ensures Valid()
      ensures callHistory == old(callHistory) && pendingCall == None
      ensures modalCallerText == old(modalCallerText) && modalTypeText == old(modalTypeText)
      ensures old(pendingCall).None? ==>
        && error == None && incomingCalls == old(incomingCalls) && currentCall == old(currentCall)
        && localStream == old(localStream) && answered == old(answered)
      ensures old(pendingCall).Some? && media.Ok? ==>
        && error == None && localStream == Some(media.value) && currentCall == Some(old(pendingCall).value.peer)
        && incomingCalls == Without(old(incomingCalls), old(pendingCall).value.id)
        && answered == old(pendingCall)
      ensures old(pendingCall).Some? && media.Err? ==>
        && error == Some(ErrorMessage(media.error))
        && incomingCalls == old(incomingCalls) && currentCall == old(currentCall)
        && localStream == old(localStream) && answered == old(answered)
    {
      error := None;
      if pendingCall.None? {
        return;
      }
      var info := pendingCall.value;
      HideIncomingCallModal();
      match media
      case Ok(s) =>
        localStream := Some(s);
        currentCall := Some(info.peer);
        answered := Some(info);
        WithoutKeepsDistinct(incomingCalls, info.id);
        incomingCalls := Without(incomingCalls, info.id);
      case Err(e) =>
        error := Some(ErrorMessage(e));
        RejectCall();
    }

    /** A queue item's accept button: shows the modal for entry `index` unless a call is in progress. */
    method AcceptQueueCall(index: int)
      requires Valid()
      modifies this`pendingCall, this`modalCallerText, this`modalTypeText
      ensures Valid()
      ensures currentCall.None? && 0 <= index < |incomingCalls| ==>
        pendingCall == Some(incomingCalls[index])
        && modalCallerText == incomingCalls[index].name && modalTypeText == IncomingText(incomingCalls[index].callType)
      ensures currentCall.Some? || !(0 <= index < |incomingCalls|) ==>
        pendingCall == old(pendingCall) && modalCallerText == old(modalCallerText) && modalTypeText == old(modalTypeText)
    {
      if currentCall.Some? {
        return;
      }
      if 0 <= index < |incomingCalls| {
        ShowIncomingCallModal(incomingCalls[index]);
      }
    }

    /** A queue item's reject button: records entry `index` as rejected and splices it out. */
    method RejectQueueCall(index: int)
      requires Valid()
      modifies this`incomingCalls, this`callHistory
      ensures Valid()
      ensures !(0 <= index < |old(incomingCalls)|) ==>
        incomingCalls == old(incomingCalls) && callHistory == old(callHistory)
      ensures 0 <= index < |old(incomingCalls)| ==>
        && incomingCalls == old(incomingCalls)[..index] + old(incomingCalls)[index + 1..]
        && callHistory == Recent(old(callHistory), ItemOf(old(incomingCalls)[index], Rejected))
    {
      if 0 <= index < |incomingCalls| {
        var info := incomingCalls[index];
        AddToHistory(ItemOf(info, Rejected));
        WithoutAt(incomingCalls, index);
        WithoutKeepsDistinct(incomingCalls, info.id);
        incomingCalls := incomingCalls[..index] + incomingCalls[index + 1..];
      }
    }

    /** Stop the timer, record a completed call if one was in progress, reset the call state,
        and show the modal for the head of the queue if there is one. */
    method HandleCallEnded(now: int)
      requires Valid()
      modifies this`timerRunning, this`callHistory, this`localStream, this`currentCall, this`callDuration,
        this`isMuted, this`isVideoOff, this`pendingCall, this`modalCallerText, this`modalTypeText
      ensures Valid()
      ensures callHistory == if old(currentCall).Some?
        then Recent(old(callHistory), HistoryItem(callerNameText, "video", now, old(callDuration), Completed))
        else old(callHistory)
      ensures !timerRunning && localStream == None && currentCall == None
      ensures callDuration == 0 && !isMuted && !isVideoOff
      ensures incomingCalls != [] ==>
        pendingCall == Some(incomingCalls[0])
        && modalCallerText == incomingCalls[0].name && modalTypeText == IncomingText(incomingCalls[0].callType)
      ensures incomingCalls == [] ==>
        pendingCall == old(pendingCall) && modalCallerText == old(modalCallerText) && modalTypeText == old(modalTypeText)
    {
      timerRunning := false;
      if currentCall.Some? {
        AddToHistory(HistoryItem(callerNameText, "video", now, callDuration, Completed));
      }
      localStream := None;
      currentCall := None;
      callDuration := 0;
      isMuted := false;
      isVideoOff := false;
      if |incomingCalls| > 0 {
        ShowIncomingCallModal(incomingCalls[0]);
      }
    }

    /** The end-call button: only acts while a call is in progress. */
    method EndCall(now: int)
      requires Valid()
      modifies this`timerRunning, this`callHistory, this`localStream, this`currentCall, this`callDuration,
        this`isMuted, this`isVideoOff, this`pendingCall, this`modalCallerText, this`modalTypeText
      ensures Valid()
      ensures old(currentCall).None? ==>
        && callHistory == old(callHistory) && pendingCall == old(pendingCall) && timerRunning == old(timerRunning)
        && currentCall == old(currentCall)
        && localStream == old(localStream) && callDuration == old(callDuration)
        && isMuted == old(isMuted) && isVideoOff == old(isVideoOff)
        && modalCallerText == old(modalCallerText) && modalTypeText == old(modalTypeText)
      ensures old(currentCall).Some? ==>
        && callHistory == Recent(old(callHistory), HistoryItem(callerNameText, "video", now, old(callDuration), Completed))
        && !timerRunning && localStream == None && currentCall == None && callDuration == 0 && !isMuted && !isVideoOff
        && (incomingCalls != [] ==>
              pendingCall == Some(incomingCalls[0])
              && modalCallerText == incomingCalls[0].name && modalTypeText == IncomingText(incomingCalls[0].callType))
        && (incomingCalls == [] ==>
              pendingCall == old(pendingCall) && modalCallerText == old(modalCallerText) && modalTypeText == old(modalTypeText))
    {
      if currentCall.Some? {
        HandleCallEnded(now);
      }
    }

    /** The answered call's 'stream' event: label the call with the caller name of the callInfo
        that was accepted and start the timer from zero. Before any call was answered no handler
        is registered and nothing happens. */
    method OnRemoteStream()
      modifies this`callerNameText, this`callDuration, this`timerRunning
      ensures answered.Some? ==> callerNameText == answered.value.name && callDuration == 0 && timerRunning
      ensures answered.None? ==>
        callerNameText == old(callerNameText) && callDuration == old(callDuration) && timerRunning == old(timerRunning)
    {
      if answered.Some? {
        callerNameText := answered.value.name;
        callDuration := 0;
        timerRunning := true;
      }
    }

    /** One tick of the running one-second interval. */
    method Tick()
      requires timerRunning
      modifies this`callDuration
      ensures callDuration == old(callDuration) + 1
    {
      callDuration := callDuration + 1;
    }

    method ToggleMicrophone()
      modifies this`localStream, this`isMuted
      ensures (localStream, isMuted) == MicToggled(old(localStream), old(isMuted))
    {
      if localStream.Some? && localStream.value.audio.Some? {
        var enabled := !localStream.value.audio.value;
        localStream := Some(localStream.value.(audio := Some(enabled)));
        isMuted := !enabled;
      }
    }

    method ToggleVideo()
      modifies this`localStream, this`isVideoOff
      ensures (localStream, isVideoOff) == CameraToggled(old(localStream), old(isVideoOff))
    {
      if localStream.Some? && localStream.value.video.Some? {
        var enabled := !localStream.value.video.value;
        localStream := Some(localStream.value.(video := Some(enabled)));
        isVideoOff := !enabled;
      }
    }
  }

  /** Filtering keeps the queue a queue of distinct objects. */
  lemma {:induction false} WithoutKeepsDistinct(q: seq<CallInfo>, id: nat)
    requires DistinctIds(q)
    ensures DistinctIds(Without(q, id))
    ensures forall i :: 0 <= i < |Without(q, id)| ==> HasId(q, Without(q, id)[i].id)
  {
    if q != [] {
      WithoutKeepsDistinct(q[1..], id);
      var t := Without(q[1..], id);
      forall i | 0 <= i < |t| ensures t[i].id != q[0].id && HasId(q, t[i].id) {
        var j :| 0 <= j < |q[1..]| && q[1..][j].id == t[i].id;
        assert q[j + 1].id == t[i].id;
      }
    }
  }
}
