# Video consultation: call-handling state and static file server

This project models the two page classes of a browser video-consultation app and the request
handler of its local static file server, and proves properties of the model.

- `Consultant` models `ConsultantDashboard`, the consultant's page. It covers:
  - the ordered queue of incoming calls;
  - the history of at most ten calls, newest first;
  - the call whose incoming-call modal is shown (`pendingCall`) and the call in progress;
  - the call timer, and the microphone and camera toggles.
- `Customer` models `CustomerInterface`, the customer's page. It covers:
  - the screen shown (`precall`, `connecting`, `waiting`, `active`, `ended`);
  - the call-type choice, and the defaults for the customer name and the consultant id;
  - the media request with its video-to-audio downgrade;
  - the no-answer timeout, the end-of-call reset, and the reset of the form.
- `Media` holds what both pages share: the constraint choice; first-track stream flags and the
  toggles over them; the fallback error text.
- `Text` holds the clock formatting (`mm:ss` and the history's `m:ss` / `-`), decimal
  rendering, `padStart(2, '0')` and ECMAScript `trim`.
- `Uri` is `decodeURIComponent` with its UTF-8 checks, beside a reference encoder.
- `Paths` is the POSIX behaviour of `path.join`, `path.normalize` and `path.extname`.
- `Server` is the handler as a total function from the request target to a status,
  Content-Type and body.

Browser and PeerJS events are method calls on the two classes. Their outcomes are parameters:
- the devices found and each `getUserMedia` reply;
- the data-connection and call events;
- a timer tick;
- the firing of the 60-second timeout.

JavaScript object identity of a queued call becomes an `id` drawn from a counter. The queue is
filtered by identity, and `updateCallerInfo` writes through the object that `pendingCall`
aliases. `ConsultantDashboard.Valid` keeps the pending call equal to its queue entry.
The stream handler that `acceptCall` registers closes over the accepted callInfo; the field
`answered` holds that object, and the 'stream' event reads the caller name from it.

The server's working directory is the segment list of an absolute path. The file system is a
predicate `isFile` that says whether a path names a regular file.

## Model

| member | source | states |
|---|---|---|
| Consultant.ConsultantDashboard.constructor | js/consultant.js:5-16 | an empty queue and history, no pending or current call, no stream, the timer stopped at zero, both flags off, and no answered call |
| Consultant.ConsultantDashboard.ShowIncomingCallModal | js/consultant.js:172-178 | the shown call becomes the pending call, and the modal shows its name and `Incoming <type> call...` |
| Consultant.ConsultantDashboard.HideIncomingCallModal | js/consultant.js:180-183 | the pending call is cleared |
| Consultant.ConsultantDashboard.HandleIncomingCall | js/consultant.js:152-170 | exactly one entry is appended, with name 'Customer' and type 'video', and earlier entries are unchanged; the modal shows it exactly when no call is current and the queue was empty |
| Consultant.ConsultantDashboard.UpdateCallerInfo | js/consultant.js:136-150 | only the first queue entry of that peer gets the given name and type ('Customer'/'video' when missing), and the pending call too when it is that entry; the modal texts change exactly when the pending call is from that peer |
| Consultant.FirstWithPeer | js/consultant.js:138 | the index found is that of the first entry with the peer; None means no entry has it |
| Consultant.ConsultantDashboard.AddToHistory | js/consultant.js:579-594 | the new history is `Recent(old, item)`: the item first, then the old history cut to ten entries in all |
| Consultant.Recent | js/consultant.js:588-591 | the length is min(old+1, 10); the new item is at index 0; the rest is the old history's prefix; the oldest item is dropped exactly when ten were held |
| Consultant.ConsultantDashboard.RejectCall | js/consultant.js:355-374 | with no pending call nothing changes; otherwise the call leaves the queue (the rest keep their order), is recorded as rejected, and the modal moves to the head of the queue, or is cleared with its texts unchanged |
| Consultant.ConsultantDashboard.AcceptCall | js/consultant.js:208-263 | the modal is cleared; on media success the call becomes current, leaves the queue, and is the call whose stream handler is registered; on a media error the message is handleMediaError's, and the call stays queued with the history unchanged (rejectCall finds no pending call) |
| Consultant.ConsultantDashboard.AcceptQueueCall | js/consultant.js:557-567 | while a call is current, or for an index out of range, nothing changes; otherwise the modal shows entry `index` |
| Consultant.ConsultantDashboard.RejectQueueCall | js/consultant.js:569-577 | an index out of range changes nothing; otherwise exactly entry `index` is removed and recorded as rejected |
| Consultant.WithoutAt | js/consultant.js:574 | filtering out the identity of entry k of a queue with distinct identities removes exactly entry k, as the splice does |
| Consultant.WithoutAbsent | js/consultant.js:253 | filtering out an identity the queue does not hold leaves the queue unchanged |
| Consultant.Without | js/consultant.js:363 | the filtered queue is no longer, and every entry it keeps comes from the old queue and has another identity |
| Consultant.WithoutKeepsDistinct | js/consultant.js:363 | filtering keeps identities distinct and draws them only from the old queue |
| Consultant.ConsultantDashboard.HandleCallEnded | js/consultant.js:460-499 | a completed item with the elapsed duration is recorded only if a call was current; the stream, current call, duration and flags are reset; a non-empty queue puts its head in the modal |
| Consultant.ConsultantDashboard.EndCall | js/consultant.js:453-458 | without a current call nothing changes; with one, the whole of handleCallEnded's new state: the completed item recorded, the call state reset, and the head of the queue in the modal when the queue is not empty |
| Consultant.ConsultantDashboard.OnRemoteStream | js/consultant.js:226-239 | the label shows the name of the call that was accepted, and the timer starts from zero; before any call was answered nothing happens |
| Consultant.ConsultantDashboard.Tick | js/consultant.js:504-507 | one tick adds one second to the duration |
| Consultant.ConsultantDashboard.ToggleMicrophone | js/consultant.js:376-388 | the new stream and flag are `MicToggled` of the old ones |
| Consultant.ConsultantDashboard.ToggleVideo | js/consultant.js:390-402 | the new stream and flag are `CameraToggled` of the old ones |
| Consultant.Acquire | js/consultant.js:265-301 | without devices no request is made and the empty stream results; otherwise the first request follows the devices and call type, and a second, audio-only one is made exactly for a refused video call that has both kinds of device |
| Consultant.ErrorMessage | js/consultant.js:332-353 | each of the four known names gets its own fixed sentence; any other name gets the fallback 'Media error: …', and only those start with that prefix |
| Consultant.KnownMessages | js/consultant.js:336-347 | two known errors get the same message exactly when they have the same name, whatever their own messages |
| Media.Select | js/consultant.js:276-288 | video is requested exactly for a video call with a camera; audio exactly when a microphone exists |
| Media.Fallback | js/consultant.js:348-349 | the text is 'Media error: ' followed by the message, or by the name when the message is empty |
| Media.DiffersFromFallback | js/consultant.js:348-349 | a text that differs from 'Media error: ' at some position within both is not a fallback text |
| Media.Outcome | js/consultant.js:291-299 | a granted reply yields its stream and a refused one its error |
| Media.MicToggled | js/customer.js:350-362 | only the enabled flag of the first audio track flips, and isMuted becomes the negation of the new flag; without a stream or audio track nothing changes |
| Media.CameraToggled | js/customer.js:364-376 | only the enabled flag of the first video track flips, and isVideoOff becomes the negation of the new flag; without a stream or video track nothing changes |
| Media.MicToggledTwice | js/customer.js:350-362 | the flag mirrors the track after a toggle, and a second toggle restores the stream and leaves isMuted = not enabled |
| Media.CameraToggledTwice | js/customer.js:364-376 | the flag mirrors the track after a toggle, and a second toggle restores the stream and leaves isVideoOff = not enabled |
| Text.Decimal | js/consultant.js:519-521 | the rendering has digits only and no leading zero; it is one digit exactly below ten and two digits from 10 to 99 |
| Text.ValueOfDecimal | js/consultant.js:519-521 | reading the rendering of n back gives n |
| Text.Pad2 | js/consultant.js:521 | a string shorter than two is left-padded with '0' to length two; a longer one is unchanged |
| Text.Pad2Decimal | js/consultant.js:521 | the padded rendering is all digits and reads back as the number; below 100 it is two characters |
| Text.IndexOf | serve-local.js:24 | the index is that of the first occurrence; None means the character does not occur |
| Text.FormatTimer | js/consultant.js:517-522 | digits, ':', two-digit seconds, the minutes at least two digits with a leading zero only when padded to two; parsing the text gives the duration back |
| Text.FormatTimerWidth | js/customer.js:493-498 | below 100 minutes the text is five characters: two digits, ':', two digits |
| Text.FormatDuration | js/consultant.js:607-609 | '-' exactly for zero; otherwise unpadded minutes (no leading zero beyond a lone '0'), ':', two-digit seconds, and parsing the text gives the duration back |
| Text.TrimStart | js/customer.js:152 | the result is a suffix; what was dropped is all whitespace; the result does not start with whitespace |
| Text.TrimEnd | js/customer.js:152 | the result is a prefix; what was dropped is all whitespace; the result does not end with whitespace |
| Text.Trim | js/customer.js:152-154 | the result has no whitespace at either end |
| Text.TrimSlice | js/customer.js:152-154 | the trimmed string is a contiguous slice with only whitespace removed at both ends |
| Text.TrimEmpty | js/customer.js:152-154 | trimming gives the empty string exactly for an all-whitespace input |
| Text.TrimIdempotent | js/customer.js:152-154 | trimming twice is trimming once |
| Text.TrimOr | js/customer.js:152-154 | the trimmed text, or the default exactly when the text is all whitespace; never empty, never edged by whitespace |
| Customer.CustomerInterface.constructor | js/customer.js:5-17 | no call, connection or stream, the timer and timeout off at zero, callType 'video', both flags off |
| Customer.ShowScreen | js/customer.js:449-475 | the requested one of precall, connecting, waiting, ended is visible and the others are not; the remote video is hidden |
| Customer.ShowScreenExactlyOne | js/customer.js:449-475 | exactly one screen is visible for the four, none for 'active' |
| Customer.CallerName | js/customer.js:152 | the trimmed name, or 'Customer' exactly when the input is all whitespace; never empty, never edged by whitespace |
| Customer.ConsultantId | js/customer.js:154 | the trimmed id, or 'consultant' when the input is absent or all whitespace |
| Customer.CustomerInterface.SelectCallType | js/customer.js:139-149 | callType is the given type and exactly one of the two buttons is selected |
| Customer.Acquire | js/customer.js:189-232 | without devices a single audio-and-video request is made, falling back to the empty stream; otherwise an audio call never requests video, each kind is requested only if present, and the audio-only retry happens exactly on `Downgrades` |
| Customer.Downgrades | js/customer.js:222-229 | a downgrade happens exactly for a video call with both kinds of device whose first request was refused |
| Customer.CustomerInterface.GetMediaStream | js/customer.js:189-232 | the requests and result are `Acquire`'s, and callType becomes 'audio' exactly on a downgrade |
| Customer.ErrorMessage | js/customer.js:263-288 | each of the five known names, SecurityError included, gets its own fixed sentence; any other name gets the fallback, and only those start with 'Media error: ' |
| Customer.KnownMessages | js/customer.js:267-281 | two known errors get the same message exactly when they have the same name, whatever their own messages |
| Customer.CustomerInterface.HandleMediaError | js/customer.js:263-288 | the notification is `ErrorMessage` and the page is the reset pre-call page |
| Customer.CustomerInterface.ResetToPreCall | js/customer.js:429-447 | the page becomes `PreCall` of the old page: the pre-call screen, control bars hidden, toggle buttons inactive, the consultant-id field cleared |
| Customer.PreCall | js/customer.js:429-447 | the pre-call screen, both control bars hidden, the toggles inactive, the consultant-id field emptied when present; name, ended text, call info, local video and the call-type buttons unchanged |
| Customer.Ended | js/customer.js:407-418 | the ended screen alone, the local video, call information and both control bars hidden, the reason shown; the form, the toggles and the call-type buttons unchanged |
| Customer.CustomerInterface.StartCall | js/customer.js:151-187 | the connecting screen, then on media success the stream and a data connection to the defaulted consultant id carrying the defaulted name; on failure handleMediaError's message and reset page |
| Customer.CustomerInterface.Connect | js/customer.js:157-186 | the connecting screen, then the try block (stream kept, data connection to the given id and name) or its catch (handleMediaError's message and the pre-call page), with callType downgraded exactly as getMediaStream does |
| Customer.CustomerInterface.OnDataConnectionOpen | js/customer.js:167-177 | the caller-info message carries the name and the current callType; then makeCall: the waiting screen, the call placed, the timeout armed, the local video shown for video calls |
| Customer.CustomerInterface.OnRemoteStream | js/customer.js:304-323 | the active screen with the remote video, the call controls shown, and the timer from zero |
| Customer.CustomerInterface.Tick | js/customer.js:480-483 | one tick adds one second to the duration |
| Customer.CustomerInterface.HandleCallEnded | js/customer.js:385-427 | `Idle`: timeout, timer, stream, data connection, call and remote stream cleared, the duration and flags reset; the page is `Ended` with the reason |
| Customer.CustomerInterface.OnNoAnswerTimeout | js/customer.js:336-340 | if no remote stream arrived, the whole of handleCallEnded's state (`Idle`, and `Ended` with 'No answer from consultant'); otherwise nothing but the timeout changes |
| Customer.CustomerInterface.CancelCall | js/customer.js:343-348 | the whole of handleCallEnded's state: `Idle`, and the page `Ended` with 'Call cancelled' |
| Customer.CustomerInterface.EndCall | js/customer.js:378-383 | the whole of handleCallEnded's state: `Idle`, and the page `Ended` with 'Call ended' |
| Customer.CustomerInterface.OnPeerError | js/customer.js:87-97 | 'peer-unavailable' resets the page to the pre-call state; any other error leaves the page unchanged |
| Customer.CustomerInterface.ToggleMicrophone | js/customer.js:350-362 | stream and flag are `MicToggled` of the old ones, and the button shows the track state |
| Customer.CustomerInterface.ToggleVideo | js/customer.js:364-376 | stream and flag are `CameraToggled` of the old ones, and the button shows the track state |
| Base.OrDefault | js/consultant.js:139-140 | a present, non-empty value is kept; an absent or empty one gives the default |
| Server.ListenPort | serve-local.js:5 | the PORT variable when set and non-empty, otherwise 3000 |
| Server.QueryFree | serve-local.js:24 | the result is a prefix of the target without '?', and is followed by '?' when shorter |
| Server.Route | serve-local.js:25 | '/index.html' is what is looked up exactly for '/' and '/index.html'; only '/' is rewritten |
| Server.Resolved | serve-local.js:24-26 | a file path exactly when the target's path part decodes, and then an absolute one |
| Server.MimeFor | serve-local.js:39-40 | a table entry or 'application/octet-stream', the latter whenever the path has no extension |
| Server.HandleIgnoresQuery | serve-local.js:24 | a target with a query is answered as the same path without it |
| Server.RootServesIndex | serve-local.js:25 | '/' is answered exactly as '/index.html' |
| Server.Handle | serve-local.js:22-50 | undecodable targets give 500; 403 exactly when the joined path does not start with the root's text; a 200 serves an existing file under that prefix with `MimeFor` of its path |
| Server.Respond | serve-local.js:28-45 | 403 exactly when refused; 200 exactly for a permitted, NUL-free path naming a file, with its MIME type |
| Server.ForbiddenWithoutLookup | serve-local.js:28-31 | a refused request is 'Forbidden' whatever the file system holds |
| Server.InsideRootServed | serve-local.js:33-41 | under the root, a NUL gives 500, a missing file or non-file 404, an existing file 200 with its MIME type |
| Server.BadEncodingIsServerError | serve-local.js:46-49 | malformed percent-encoding gives 500 'Server error' |
| Server.MimeOfFile | serve-local.js:39-40 | a file `dir/stem.ext` that is not a dotfile, stem dots included (`app.min.js`, `.eslintrc.json`), gets the table entry for its lower-cased last extension '.ext', or 'application/octet-stream' |
| Server.MimeOfExtensionless | serve-local.js:39-40 | a file name without a dot gets 'application/octet-stream' |
| Server.MimeOfDotFile | serve-local.js:39-40 | a dotfile without another dot, such as `.env`, gets 'application/octet-stream' |
| Server.SiblingPrefixServed | serve-local.js:28 | a sibling directory whose name extends the root's is served (200) though it is not within the root |
| Server.HandleContained | serve-local.js:28-45 | the handler with the root-or-below check: a 200 is always within the root, and 403 is exactly a path outside it |
| Server.SiblingPrefixRefused | serve-local.js:28 | the corrected handler refuses the sibling directory |
| Server.ContainedRefinesHandle | serve-local.js:28 | whatever the corrected handler does not refuse, it answers as the written one |
| Server.NoParentNeverForbidden | serve-local.js:26-31 | a path without '..' segments is refused by neither check, and both answer alike |
| Uri.Decode | serve-local.js:24 | a decoded string is never longer than its encoding |
| Uri.DecodeEncode | serve-local.js:24 | decodeURIComponent of the UTF-8 percent-encoding of any string gives the string back |
| Uri.DecodePlain | serve-local.js:24 | a string without '%' decodes to itself |
| Uri.BadEscapeFails | serve-local.js:24 | a '%' not followed by two hex digits makes decoding fail |
| Uri.Continuations | serve-local.js:24 | the continuation bytes read are all in 0x80-0xBF, as many as required |
| Uri.Utf8Decodes | serve-local.js:24 | the reference UTF-8 bytes of every character are a valid shortest-form sequence (lead byte, its length, continuation bytes) whose scalar value is the character |
| Paths.Split | serve-local.js:26 | at least one piece, each a `Segment` (no '/') |
| Paths.SplitAppend | serve-local.js:26 | splitting `x/y` is splitting x then y |
| Paths.Resolve | serve-local.js:26 | what normalisation keeps are names only: no empty, '.' or '..' segment remains |
| Paths.ResolveAppend | serve-local.js:26 | normalising a concatenation of segments is normalising in two steps |
| Paths.ResolveWithoutParent | serve-local.js:26 | without '..' segments every kept name stays and the other names are appended |
| Paths.JoinStaysWithin | serve-local.js:26 | joining a path without '..' segments onto a directory stays within it |
| Paths.NormalizeOnto | serve-local.js:26 | an absolute path normalises to '/' and its resolved segments joined by '/', with a trailing '/' kept |
| Paths.Normalize | serve-local.js:26 | the result is absolute and keeps a trailing '/' |
| Paths.NormalizeKeepsSegments | serve-local.js:26 | normalised and unnormalised paths resolve to the same segments: normalising never changes which file is named |
| Paths.Join | serve-local.js:26 | the joined path is absolute |
| Paths.JoinResolves | serve-local.js:26 | the joined path resolves to the request's segments resolved onto the root's |
| Paths.LastIndexOf | serve-local.js:39 | the last occurrence, or None when the character does not occur |
| Paths.LastIndexOfUnique | serve-local.js:39 | an occurrence with none after it is the one found |
| Paths.Extname | serve-local.js:39 | empty exactly when the base name has no '.', has its only '.' first, or is '..'; otherwise the proper suffix of the base name from its last '.' |
| Paths.ExtnameOfFile | serve-local.js:39 | the extension of `dir/stem.ext` is '.ext' for any stem but '.' and the empty one, dots included: `app.min.js`, `.foo.js`, `notes.` |
| Paths.ExtnameOfDotFile | serve-local.js:39 | a dotfile without another dot has no extension |
| Paths.BaseNameOfJoin | serve-local.js:39 | the base name of `dir/name` is `name` |
| Paths.Lower | serve-local.js:39 | ASCII capitals become lower case and nothing else changes |

## Left out

- PeerJS is not modelled: signalling, `connect`, `call`, `answer`, reconnecting. Its events are method calls on the classes.
- Rendering is not modelled for `updateStatus`, `showNotification`, the queue and history HTML, the icon classes, clipboard copy, the ringtone and screen sharing (`shareScreen`). They only change the display or call browser APIs.
- Browser media are parameters: `enumerateDevices` becomes two booleans and each `getUserMedia` reply is a parameter. `createEmptyStream` becomes a stream with one enabled audio and one enabled video track.
- Real time is not modelled:
  - Only one interval and one timeout are tracked. A second `startCallTimer` while the interval runs would leak the old one in the source; the model has no such leak.
  - `await`s are atomic: no event can arrive between a media request and its continuation.
  - `Date` and `toLocaleTimeString` become an integer timestamp.
- Consultant.ConsultantDashboard.HandleCallEnded: the completed item's name is the text the page showed, and its type is always 'video', as written.
- Consultant.Acquire: an audio call with a camera but no microphone requests `{video:false, audio:false}`. Browsers always reject that request, but the model takes the reply from its parameter. Customer.Acquire does the same.
- The consultant's `remoteStream` field and the video elements are not modelled; nothing in the core reads them.
- Server: HTTP and the file stream are not modelled. The case where the stream fails after the 200 header is not modelled; there the source ends the response early.
- Server: `SIGINT` handling, logging and the listen callback are not modelled.
- peerjs-server.js is not part of this model. It mounts an external signalling server and has no logic of its own.
- Paths: only POSIX semantics (separator '/') are modelled; Windows path rules are not.
- Paths.Lower: `toLowerCase` is modelled on ASCII letters only. Every extension in the MIME table is ASCII.
- Uri: strings are sequences of Unicode scalar values, so lone surrogates are not modelled. A 4-byte UTF-8 sequence decodes to one character here rather than to a surrogate pair.
- Server.Handle and ListenPort: the root is a normalised absolute path, as `process.cwd()` returns. PORT is the raw text of the variable.

## Findings

| source | as written | input that shows it | evidently intended | confidence | as-written member | corrected member |
|---|---|---|---|---|---|---|
| serve-local.js:28 | `filePath.startsWith(ROOT)` compares text, so a sibling directory whose name extends the root's passes | root `/srv/a`, request `/../ab`: it joins to `/srv/ab`, which starts with `/srv/a` and is served | serve only the root itself or paths below `ROOT + '/'` | not executed | Server.SiblingPrefixServed | Server.HandleContained |
