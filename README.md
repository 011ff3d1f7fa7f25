# Sign-language recognition loop and vision client

This project models the core of a browser app. The app grabs webcam frames and sends each one to a
remote vision model, which names the sign-language gesture in it. The app adds the answer to a
timestamped transcript and speaks it aloud. The model covers two parts:

- **The recognition loop** (`App.tsx`): starting and stopping recognition and the camera, and one
  `processFrameLoop` cycle. A cycle sends a frame, then does one of three things, as the loop is meant
  to work:
  - On a result, it adds a transcript row when the text is non-empty and differs from the newest row.
    It speaks that new row unless muted or no voices are loaded. Then it schedules the next frame at
    the frame-rate interval.
  - On a rate limit, it retries after a backoff that doubles up to 30 s.
  - On any other error, it stops the session.

  The code's timer cycles fall short of this: they compare with a stale transcript, keep a stale
  backoff and a stale mute flag (see "## Findings").
  - `RecognitionLoop` gives each handler's effect as a pure function of a `LoopState` value.
  - Class `RecognitionLoop.App` holds the component's state variables and refs as fields, and its
    methods make the handlers' writes in program order. Each method is proved to leave exactly the
    state the matching pure function gives.
  - Two React rules are modelled. A handler reads `status`, `transcript` and `backoffDelay` as they
    were in the render that created it (the `Seen` snapshot). Setter calls apply in order, and the
    last one wins.
  - The awaited recognizer call is not interleaved with other handlers: one cycle runs to completion.
  - `LoopProperties` replays whole event sequences (camera start/stop, Start, Stop, a timer firing)
    and proves what the loop promises across them.
- **The vision client** (`services/geminiService.ts`), in `GeminiService`:
  - the language table and prompt;
  - the clean-up of the reply (JavaScript `trim`, then removing `"` and `*`);
  - the sorting of thrown errors into configuration, rate-limit and generic errors;
  - the lazily created client, whose missing-key error is remembered and rethrown forever after.
  Class `ServiceState` holds the module variables `ai` and `initError`.
- **The transcript export** (`Transcript`): the text that Download saves. When no row's time or text
  holds a newline, it splits back into one line per row. Only the edges of a reply are trimmed, so
  a reply can keep an inner newline.

Three behaviours of the code are easy to miss:

- A camera failure sets status `err` / "Camera Error"; the camera stays off.
- A rate limit sets status `err` / "Rate Limited", while the loop keeps running.
- A success resets the backoff to 2000 ms only when the status the cycle saw is `err`.
  - The reset always happens in the intended loop, where every cycle sees the current status: a rate
    limit sets `err`, so the next success sees it (`RecoveryResetsBackoff`).
  - It does not happen in the code's timer cycles. They see the status of the render that started
    recognition, so the backoff stays raised and carries into the next session
    (`StaleSessionKeepsRaisedBackoff`, under "## Findings").
  - It does not happen across a camera restart either, even in the intended loop. Stop Camera and
    Start Camera leave the status idle, so the backoff reached before the restart carries into the
    next session (`CameraRestartKeepsBackoff`).

## Model

| member | source | states |
|---|---|---|
| GeminiService.LanguageName | services/geminiService.ts:38-44 | "hi" and "mr" map to Hindi and Marathi, in both directions; every other code, including unknown ones, maps to English |
| GeminiService.Prompt | services/geminiService.ts:46-50 | the prompt is the fixed head, then the target language's name, then the fixed tail |
| GeminiService.PromptDeterminesLanguage | services/geminiService.ts:38-51 | two codes give the same prompt exactly when they name the same language |
| GeminiService.Trim | services/geminiService.ts:86 | computes `trim()`; its meaning is stated by TrimCutsOnlySpace and TrimLeavesNoEdgeSpace, and it never lengthens the text |
| GeminiService.TrimStartCutsSpace | services/geminiService.ts:86 | trimming the front removes only JavaScript whitespace, and what remains does not start with whitespace |
| GeminiService.TrimEndCutsSpace | services/geminiService.ts:86 | trimming the back removes only JavaScript whitespace, and what remains does not end with whitespace |
| GeminiService.TrimLeavesNoEdgeSpace | services/geminiService.ts:86 | `trim()` leaves no whitespace at either end |
| GeminiService.TrimCutsOnlySpace | services/geminiService.ts:86 | `trim()` returns a contiguous slice of its input, with only whitespace cut from both sides |
| GeminiService.StripMarks | services/geminiService.ts:86 | computes `replace(/["*]/g, '')`; StripMarksRemovesMarks, StripMarksKeepsOthers and StripMarksConcat state what it keeps and drops |
| GeminiService.StripMarksRemovesMarks | services/geminiService.ts:86 | `replace(/["*]/g, '')` leaves no quote or asterisk, and leaves a string without them unchanged |
| GeminiService.StripMarksKeepsOthers | services/geminiService.ts:86 | every other character keeps its number of occurrences |
| GeminiService.StripMarksConcat | services/geminiService.ts:86 | stripping works piece by piece: strip(a + b) = strip(a) + strip(b) |
| GeminiService.Clean | services/geminiService.ts:86-87 | the returned text: a trim, then the marks stripped; never longer than the reply; see CleanRemovesMarks and CleanIsNotIdempotent |
| GeminiService.CleanRemovesMarks | services/geminiService.ts:86 | the cleaned reply has no marks, and for a reply without marks the clean-up is only a trim |
| GeminiService.CleanIsNotIdempotent | services/geminiService.ts:86 | the clean-up trims before it strips, so a quoted reply with inner space gets a different result when cleaned twice |
| GeminiService.Contains | services/geminiService.ts:96 | computes `includes`; ContainsIsSubstring proves it equal to "occurs at some position" |
| GeminiService.ContainsIsSubstring | services/geminiService.ts:96 | `includes` is true exactly when the text occurs at some position |
| GeminiService.Classify | services/geminiService.ts:89-101 | the stored init error is rethrown unchanged; an SDK error whose message contains "429" or "RESOURCE_EXHAUSTED" becomes RateLimitError with the quota message, and any other becomes the generic error, in both directions |
| GeminiService.Acquire | services/geminiService.ts:17-33 | one getAiInstance call: a stored error first, then a stored client, then a falsy key stores the configuration error, else a new client; its lemmas are below |
| GeminiService.StoredErrorIsSticky | services/geminiService.ts:17-20 | once initError is set, every later call throws it, whatever key the environment holds then |
| GeminiService.MissingKeyIsSticky | services/geminiService.ts:25-29 | a missing or empty key on the first call makes that call and every later one throw the configuration error |
| GeminiService.ClientIsReused | services/geminiService.ts:21-23 | once a client exists, every call returns that same client and builds no new one |
| GeminiService.AtMostOneClient | services/geminiService.ts:17-33 | from the initial state at most one client is ever built, and one is built exactly when the first call sees a configured key |
| GeminiService.StoredErrorNeverBuilds | services/geminiService.ts:17-20 | with initError stored, no call builds a client |
| GeminiService.ServiceState.constructor | services/geminiService.ts:4-5 | the module starts with no client and no stored error |
| GeminiService.ServiceState.GetAiInstance | services/geminiService.ts:17-33 | the call follows the lazy-init transition; a stored error or an existing client is returned without changing any state; a client is built only on the path that builds one |
| GeminiService.Answer | services/geminiService.ts:62-103 | a client lookup failure is returned as is; the reply text comes back cleaned, without marks and no longer than the reply; an SDK error is a RateLimitError exactly when the message signals quota, else the generic error |
| GeminiService.ServiceState.RecognizeSignLanguage | services/geminiService.ts:62-87 | the request (model, JPEG image, the prompt for the language) is sent only when the client lookup succeeds, and the result is the one Answer gives |
| Transcript.LastText | App.tsx:264 | the most recent row's text, or none for an empty transcript |
| Transcript.Join | App.tsx:312 | `join('\n')`; JoinAppend and SplitJoin give its meaning: splitting at newlines undoes it |
| Transcript.Export | App.tsx:312 | the Download text: one `[time] text` line per row, joined by newlines; see ExportAppend and ExportRoundTrip |
| Transcript.ExportExample | App.tsx:312 | two rows export as "[t1] Hello", a newline, then "[t2] Thanks" |
| Transcript.ExportAppend | App.tsx:312 | adding a row adds one more line to the export |
| Transcript.ExportRoundTrip | App.tsx:312 | if no time or text contains a newline, splitting the export at newlines gives back one rendered line per row, in order |
| RecognitionLoop.FrameInterval | App.tsx:273 | the delay between frames is 10000 divided by the frames per ten seconds (2000, 1000 or 500 ms); a missing select counts as 0.5 fps |
| RecognitionLoop.BeforeDash | App.tsx:258 | `split('-')[0]` is the longest prefix without a dash, and it ends at the end of the tag or at a dash |
| RecognitionLoop.LanguageCode | App.tsx:257-258 | the language code is the voice tag before its first dash; without a voice, or when that part is empty, it is "en"; it is never empty and has no dash |
| RecognitionLoop.RespondSetsStatus | App.tsx:261-286 | every outcome branch sets the status itself, so the 'Recognizing...' set before the call never survives the cycle |
| RecognitionLoop.Halt | App.tsx:178-189 | handleStopRecognition as bound in a render: the state it leaves; StopSettles states it |
| RecognitionLoop.SuccessStep | App.tsx:264-297 | the success branch: the state it leaves; SuccessfulCycle states it |
| RecognitionLoop.RateLimitStep | App.tsx:277-281 | the rate-limit branch; RateLimitedCycle and RateLimitRun state it |
| RecognitionLoop.ErrorStep | App.tsx:282-286 | the other-error branch; OtherErrorHalts states it |
| RecognitionLoop.CycleStep | App.tsx:241-299 | one cycle; CycleKeepsInv, CycleOnlyAppends and InactiveEntriesDoNothing state it |
| RecognitionLoop.StartStep | App.tsx:301-308 | handleStartRecognition; InactiveEntriesDoNothing and ApplyKeepsInv state it |
| RecognitionLoop.FireStep | App.tsx:274-280 | a pending timer firing; SuccessfulCycle, RateLimitedCycle and UnreadyFrameStallsLoop state it |
| RecognitionLoop.StopStep | App.tsx:178-189 | the Stop button; StopSettles and StopSilencesLoop state it |
| RecognitionLoop.StopCameraStep | App.tsx:216-224 | handleStopCamera; ApplyKeepsInv and CameraRestartKeepsBackoff state it |
| RecognitionLoop.CameraStep | App.tsx:191-214 | handleStartCamera once the stream request settles; ApplyKeepsInv states it |
| RecognitionLoop.CycleKeepsInv | App.tsx:241-299 | a cycle keeps the invariant: backoff in [2000, 30000], at most one pending timer and it is the one in the timeout ref, no timer while stopped, recognition only with the camera on |
| RecognitionLoop.App.constructor | App.tsx:90-119 | the mounted component: camera off, not recognizing, status idle / "Idle", backoff 2000, empty transcript, no timer |
| RecognitionLoop.App.UpdateStatus | App.tsx:173-176 | sets status and status text and nothing else |
| RecognitionLoop.App.Schedule | App.tsx:274 | arms one new timer with a fresh id and stores that id in the timeout ref |
| RecognitionLoop.App.UpdateFps | App.tsx:291-297 | counts the frame; once more than a second has passed, publishes the count as fps and restarts counting |
| RecognitionLoop.App.Speak | App.tsx:226-239 | an utterance is queued exactly when not muted, the text is non-empty and voices are loaded |
| RecognitionLoop.App.StopWith | App.tsx:178-189 | recognition off, the pending timer cleared, status "Stopped" unless the status the render saw was 'err', fps 0 |
| RecognitionLoop.App.OnSuccess | App.tsx:264-274 | a row and an utterance only for a non-empty text that differs from the newest row seen; backoff reset after 'err'; 'Streaming...'; next frame at the frame interval |
| RecognitionLoop.App.OnRateLimit | App.tsx:277-281 | 'Rate Limited' status and toast; retry after the backoff seen; the backoff then doubles, capped at 30000 |
| RecognitionLoop.App.OnError | App.tsx:282-286 | 'API Error' status, the error's message as a toast, then the stop handler bound in the cycle's render |
| RecognitionLoop.App.Cycle | App.tsx:241-299 | the cycle keeps the invariant and leaves exactly the state CycleStep gives; a request in the voice's language is made exactly when recognition is on and the frame is ready |
| RecognitionLoop.App.Recognize | App.tsx:257-288 | one request in the voice's language; the outcome branch then decides the state |
| RecognitionLoop.App.OnOutcome | App.tsx:260-288 | success, RateLimitError and any other error go to their own branches |
| RecognitionLoop.App.StartRecognition | App.tsx:301-308 | nothing happens without the camera or while running; otherwise 'Starting...' and the first cycle, which sees the status from before Start; the invariant is kept |
| RecognitionLoop.App.TimerElapsed | App.tsx:274-279 | the fired timer is consumed and the next cycle reads the component's current state; the invariant is kept |
| RecognitionLoop.App.StopRecognition | App.tsx:178-189 | the Stop button's handler gives StopStep's state, with the stop handler reading the current status, and keeps the invariant |
| RecognitionLoop.App.StopCamera | App.tsx:216-224 | stops recognition first if it is running, then camera off and idle / "Idle" |
| RecognitionLoop.App.StartCamera | App.tsx:191-214 | a granted stream turns the camera on with 'Camera ready' and a toast; a refusal sets 'err' / 'Camera Error' and leaves the camera off |
| RecognitionLoop.App.Download | App.tsx:311-312 | the downloaded text is the transcript export |
| LoopProperties.ApplyKeepsInv | App.tsx:178-308 | every handler and timer event keeps the loop invariant |
| LoopProperties.RunKeepsInv | App.tsx:178-308 | any sequence of events keeps the invariant |
| LoopProperties.MountedRunKeepsInv | App.tsx:101-108 | from mount, after any events, the backoff stays within [2000, 30000] and at most one timer is pending |
| LoopProperties.ApplyAddsAtMostOneRow | App.tsx:264-266 | one event adds at most one transcript row, and only by appending |
| LoopProperties.CycleOnlyAppends | App.tsx:264-267 | a cycle only appends to the transcript, the utterances and the requests |
| LoopProperties.ApplyOnlyAppends | App.tsx:264-267 | no event removes or rewrites a transcript row, an utterance or a request |
| LoopProperties.RunOnlyAppends | App.tsx:264-267 | over any event sequence the transcript, the utterances and the requests only grow at the end |
| LoopProperties.RateLimitedCycle | App.tsx:277-281 | a rate-limited cycle keeps running: 'Rate Limited', a retry timer at the current backoff, and the backoff doubled up to the cap |
| LoopProperties.RateLimitChain | App.tsx:277-281 | after k rate limits in a row the pending retry and the backoff follow the doubling recurrence, and one timer was used per retry |
| LoopProperties.BackoffClosedForm | App.tsx:281 | the doubling recurrence is min(b * 2^k, 30000) |
| LoopProperties.RateLimitRun | App.tsx:277-281 | the k-th consecutive retry waits min(b * 2^(k-1), 30000) ms, and the backoff is then min(b * 2^k, 30000) |
| LoopProperties.RateLimitDelaysFromFloor | App.tsx:277-281 | from the 2000 ms floor, retries wait 2000, 4000, 8000, 16000, 30000, 30000 ms |
| LoopProperties.RecoveryResetsBackoff | App.tsx:271-274 | the first success after any number of rate limits resets the backoff to 2000 and returns to 'Streaming...' at the frame interval |
| LoopProperties.SuccessfulCycle | App.tsx:264-274 | a successful cycle keeps running, with one timer at the frame interval and 'Streaming...' |
| LoopProperties.SuccessRun | App.tsx:264-268 | over a run of results, each cycle reading its own clock, mute flag and voices, the transcript gains the kept results in order. Each row is stamped with the time its own cycle read. Each kept result is spoken when its own cycle had speech on |
| LoopProperties.AddedRowsTexts | App.tsx:264-266 | the rows a run adds carry exactly the accepted texts: non-empty and unlike the previous kept one, so adjacent repeats are dropped and non-adjacent ones kept, whatever the clocks read |
| LoopProperties.SaidBySpeech | App.tsx:226-227 | with speech on in every cycle, exactly the accepted texts are spoken; with it off in every cycle, none |
| LoopProperties.AcceptedExamples | App.tsx:264 | A, B, A keeps all three; A, A, "" keeps one A |
| LoopProperties.StopSettles | App.tsx:178-189 | Stop leaves no pending timer, recognition off, fps 0 and status 'Stopped', except that a status of 'err' stays; the transcript, requests and backoff are untouched |
| LoopProperties.OtherErrorHalts | App.tsx:282-286 | a non-rate-limit error ends the session with no timer and shows the error's message; 'API Error' stays only when the cycle's render saw 'err', otherwise the stop handler overwrites it with 'Stopped' |
| LoopProperties.InactiveEntriesDoNothing | App.tsx:242-244 | Start without the camera or while running changes nothing; a cycle while stopped or without a ready frame changes nothing |
| LoopProperties.UnreadyFrameStallsLoop | App.tsx:242-244 | a timer cycle without a ready frame re-arms nothing, yet recognition stays on, so Start is ignored and no further cycle runs |
| LoopProperties.HaltedLoopIsQuiet | App.tsx:178-189 | once stopped, and until Start, no request is made, no row is added and nothing is spoken |
| LoopProperties.StopSilencesLoop | App.tsx:178-189 | after Stop, no recognizer call fires and no row is added until Start |
| LoopProperties.ErrorSilencesLoop | App.tsx:282-286 | after a fatal error no leftover timer makes a call until Start; the camera stays on and recognition is off, so the next Start makes a call |
| LoopProperties.CameraRestartKeepsBackoff | App.tsx:216-224 | after a rate limit, restarting the camera and recognition leaves the backoff at 4000, so the next retry waits 4000 ms |
| LoopProperties.StaleSessionRepeatsText | App.tsx:264-274 | as written, a repeated result "A" is added twice in a session; the intended loop adds it once |
| LoopProperties.StaleSessionKeepsFlatBackoff | App.tsx:277-281 | as written, the third consecutive retry still waits 2000 ms; the intended loop waits 8000 ms |
| LoopProperties.StaleSessionKeepsRaisedBackoff | App.tsx:271 | as written, a success after a rate limit sees the starting status, so the backoff stays at 4000 and the next session's first retry waits 4000 ms; the intended loop resets it to 2000 |
| LoopProperties.StaleSessionIgnoresMute | App.tsx:267 | as written, muting after Start does not silence the next result; the intended loop stays silent |

## Left out

- Camera, canvas and JPEG capture: `getUserMedia`, `play()`, `drawImage` and `toDataURL` are not modelled. The outcome of the camera request is a boolean. The frame is an opaque string, and its readiness (video element, `readyState >= 2`, 2D context) is the `frameReady` flag.
- `handleStartCamera` returns early when the resolution select is not mounted. The model assumes the select is always rendered.
- The resolution label, the particles, the year, the theme, the help dialog, CSS and JSX are presentation only.
- Speech output is modelled as a list of utterances. Voice selection by index, `parseFloat` of rate and pitch, and `speechSynthesis.cancel()` are not modelled.
- The voice used for the language code is an input (`voiceLang`), because the voice list comes from the browser.
- The toast auto-dismiss after three seconds is a timer with no effect on the loop. Only the latest message is kept.
- `console.error` and `alert` are not modelled, because they change no state.
- The SDK call and its generation settings (temperature, topK, thinking budget) are outside the model. Its result is the `Reply` input. A reply whose `text` is undefined, and so throws at `trim()`, is not modelled.
- `languageMap` lookups of inherited object keys (such as "constructor") are not modelled. Every code other than hi and mr maps to English.
- `process.env.API_KEY` is a parameter read on each call.
- The await inside a cycle is atomic. A Stop or Start pressed while a request is in flight is not interleaved with the cycle.
- MountedRunKeepsInv: the single pending timer relies on the atomic cycle. In the code, Stop during the await finds the fired timer already spent, and a following Start begins a second cycle. Each cycle then re-arms its own timer, so two loops run.
- StopSilencesLoop: relies on the atomic cycle. In the code, a Stop during the await still lets the pending result add a row, speak, set 'Streaming...' and re-arm the timer.
- HaltedLoopIsQuiet: relies on the atomic cycle too, for the same reason as StopSilencesLoop.
- The stale callback's voice list is modelled only through `speak`'s voices check. The language code of a later cycle reads the current voice, not the starting render's voice list.
- Stale closures are modelled only for the timer-driven cycle, in the findings. Handlers fired by the user read the current render.
- Rate-limit runs (RateLimitRun and its companions) use one environment for every cycle, because a rate-limited cycle reads only the frame readiness and the voice.
- `isRecognizing` is not a separate field, because it always mirrors `isRecognizingRef`.
- `performance.now()` is a whole number of milliseconds.
- The unmount clean-up effect and transcript auto-scrolling are not modelled, because they are outside the recognition loop.
- The Blob, the object URL and the file name of the download are not modelled. Only the exported text is.

## Findings

| source | as written | input that shows it | evidently intended | confidence | as-written member | corrected member |
|---|---|---|---|---|---|---|
| App.tsx:264-274 | the success branch re-arms `setTimeout(processFrameLoop, …)` with the callback memoized in the render that started recognition, so every later cycle compares the result with the transcript of that render | Start with the camera ready, the recognizer returns "A", the timer fires, and it returns "A" again | a repeated result is dropped, so the transcript holds one "A" | medium, not executed | LoopProperties.StaleSessionRepeatsText | LoopProperties.SuccessRun |
| App.tsx:277-281 | the rate-limit branch re-arms the same stale callback, so every retry reads the `backoffDelay` and status of the starting render | Start with the camera ready, then three rate-limited calls in a row | the retries wait 2000, 4000 and 8000 ms | medium, not executed | LoopProperties.StaleSessionKeepsFlatBackoff | LoopProperties.RateLimitRun |
| App.tsx:271 | after a rate limit, the stale callback's success sees the starting status, not `err`, so it never resets the raised backoff. The backoff carries into the next session | Start with the camera ready, rate limit, then success "A", Stop, then Start with a rate limit | the success resets the backoff to 2000, so the next session's first retry waits 2000 ms, not 4000 | medium, not executed | LoopProperties.StaleSessionKeepsRaisedBackoff | LoopProperties.RecoveryResetsBackoff |
| App.tsx:267 | the re-armed callback calls the `speak` of the starting render, which checks that render's `isMuted` | Start unmuted with result "A", press mute, then the timer cycle returns "B" | "B" is not spoken once muted | medium, not executed | LoopProperties.StaleSessionIgnoresMute | LoopProperties.SuccessRun |
