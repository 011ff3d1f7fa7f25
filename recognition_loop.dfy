/**
 * The recognition loop of App.tsx: starting and stopping recognition, stopping
 * the camera, and what one processFrameLoop cycle does with the outcome of the
 * recognizer call.
 *
 * The pure functions below (CycleStep, StartStep, StopStep, ...) give the state
 * each handler leaves behind; class App holds the component's state and refs as
 * fields and its methods perform the handlers' writes in program order.
 *
 * React semantics: a handler reads `status`, `transcript` and `backoffDelay` as
 * they were when it was invoked (a Seen snapshot); setters do not change those
 * values, writes apply in program order and the last one wins. One cycle runs
 * to completion before any other handler (the awaited call is not interleaved).
 */
module RecognitionLoop {
  import opened Wrappers
  import opened Transcript
  import GeminiService

  /** What recognizeSignLanguage did: returned text, or threw one of its errors. */
  type Outcome = Result<string, GeminiService.ServiceError>

  datatype Status = Idle | Live | Err | Starting

  /** The three options of the frame-rate select: 0.5, 1 and 2 frames per second. */
  datatype FrameRate = HalfFps | OneFps | TwoFps

  /** Frames per ten seconds, so that the rates are whole numbers. */
  function FramesPerTenSeconds(r: FrameRate): nat {
    match r
    case HalfFps => 5
    case OneFps => 10
    case TwoFps => 20
  }

  /** `1000 / parseFloat(frameRateRef.current?.value || '0.5')`: a missing select counts as 0.5 fps. */
  function FrameInterval(rate: Option<FrameRate>): (ms: nat)
    ensures rate.Some? ==> ms * FramesPerTenSeconds(rate.value) == 10000
    ensures rate.None? ==> ms * FramesPerTenSeconds(HalfFps) == 10000
  {
    match rate
    case None => 2000
    case Some(HalfFps) => 2000
    case Some(OneFps) => 1000
    case Some(TwoFps) => 500
  }

  const BackoffFloor: int := 2000
  const BackoffCeiling: int := 30000

  /** `Math.min(x, 30000)`. */
  function Cap(x: int): int {
    if x < BackoffCeiling then x else BackoffCeiling
  }

  /** The text before the first '-' of a language tag: `lang.split('-')[0]`. */
  function BeforeDash(tag: string): (p: string)
    ensures |p| <= |tag| && p == tag[..|p|]
    ensures '-' !in p
    ensures |p| == |tag| || tag[|p|] == '-'
  {
    if tag == [] || tag[0] == '-' then [] else [tag[0]] + BeforeDash(tag[1..])
  }

  /** `selectedVoice?.lang.split('-')[0] || 'en'`. */
  function LanguageCode(voiceLang: Option<string>): (code: string)
    ensures code != [] && '-' !in code
    ensures voiceLang.None? ==> code == "en"
    ensures voiceLang.Some? && BeforeDash(voiceLang.value) != [] ==> code == BeforeDash(voiceLang.value)
    ensures voiceLang.Some? && BeforeDash(voiceLang.value) == [] ==> code == "en"
  {
    if voiceLang.None? || BeforeDash(voiceLang.value) == [] then "en" else BeforeDash(voiceLang.value)
  }

  /** A toast message; it disappears after three seconds, which is not modelled. */
  datatype Notice = NoNotice | CameraStarted | RetryingIn(delayMs: int) | ErrorNotice(message: string)

  /** A timer the browser holds: its id (what setTimeout returned) and its delay. */
  datatype Timer = Timer(id: nat, delayMs: int)

  /** What one cycle reads from outside the loop's own state. */
  datatype Env = Env(
    frameReady: bool,            // video and canvas mounted, readyState >= 2, a 2D context
    voiceLang: Option<string>,   // lang of the voice the voice select points at, if loaded
    rate: Option<FrameRate>,     // the frame-rate select, if mounted
    muted: bool,
    voicesLoaded: bool,          // voices.length > 0 and the voice, rate and pitch inputs mounted
    time: string,                // new Date().toLocaleTimeString()
    now: int)                    // performance.now(), whole milliseconds

  /** The guard of `speak`: nothing is said when muted, for an empty text, or without voices. */
  predicate Audible(env: Env, text: string) {
    !env.muted && text != "" && env.voicesLoaded
  }

  /** The component state and refs the loop touches. */
  datatype LoopState = LoopState(
    cameraOn: bool,
    recognizing: bool,          // isRecognizingRef.current (isRecognizing mirrors it)
    status: Status,
    statusText: string,
    backoff: int,               // backoffDelay
    transcript: seq<Line>,
    timeoutSlot: Option<nat>,   // recognitionTimeoutRef.current
    armed: set<Timer>,          // timers the browser will still fire
    nextTimerId: nat,           // the id the loop's next setTimeout returns; ids count only the loop's
                                // own timers (the toast's timers are not modelled), so they exist only here
    fps: nat,
    frameCount: nat,            // frameCountRef.current
    lastFpsTick: int,           // lastFpsTickRef.current
    spoken: seq<string>,        // utterances handed to speech synthesis, in order
    requests: seq<string>,      // language codes of the recognizer calls made, in order
    toast: Notice)

  /** What a handler reads from its render: status, transcript and backoffDelay. */
  datatype Seen = Seen(status: Status, transcript: seq<Line>, backoff: int)

  function Entry(s: LoopState): Seen {
    Seen(s.status, s.transcript, s.backoff)
  }

  /** The state after the component mounts; `mountTime` is the first performance.now(). */
  function Initial(mountTime: int): LoopState {
    LoopState(false, false, Idle, "Idle", BackoffFloor, [], None, {}, 1, 0, 0, mountTime, [], [], NoNotice)
  }

  /**
   * The invariant the handlers keep: the backoff stays within its floor and
   * ceiling, at most one timer is pending and it is the one in the timeout slot,
   * nothing is pending while recognition is off, and recognition runs only with
   * the camera on. Timer ids are positive, so a stored id is always truthy.
   */
  ghost predicate Inv(s: LoopState) {
    && BackoffFloor <= s.backoff <= BackoffCeiling
    && |s.armed| <= 1
    && (forall t :: t in s.armed ==> s.timeoutSlot == Some(t.id) && 0 < t.id < s.nextTimerId)
    && (s.timeoutSlot.Some? ==> 0 < s.timeoutSlot.value)
    && (!s.recognizing ==> s.armed == {})
    && (s.recognizing ==> s.cameraOn)
    && 0 < s.nextTimerId
  }

  /** clearTimeout on the slot's id, when the slot is truthy. */
  function Cancel(armed: set<Timer>, slot: Option<nat>): set<Timer> {
    if slot.Some? && slot.value != 0 then set t | t in armed && t.id != slot.value else armed
  }

  /** A transcript row is added for a non-empty result that differs from the newest row's text, `last`. */
  predicate Accepts(last: Option<string>, text: string) {
    text != "" && last != Some(text)
  }

  /** handleStopRecognition, with the status its render saw. */
  function Halt(s: LoopState, seenStatus: Status): LoopState {
    var truthy := s.timeoutSlot.Some? && s.timeoutSlot.value != 0;
    s.(recognizing := false,
       armed := Cancel(s.armed, s.timeoutSlot),
       timeoutSlot := if truthy then None else s.timeoutSlot,
       status := if seenStatus != Err then Idle else s.status,
       statusText := if seenStatus != Err then "Stopped" else s.statusText,
       fps := 0)
  }

  /** The row a result adds (and the utterance it starts), or nothing for an empty or repeated result. */
  function Record(s: LoopState, seen: Seen, text: string, env: Env): LoopState {
    if Accepts(LastText(seen.transcript), text) then
      s.(transcript := s.transcript + [Line(env.time, text)],
         spoken := if Audible(env, text) then s.spoken + [text] else s.spoken)
    else s
  }

  /** `recognitionTimeoutRef.current = window.setTimeout(processFrameLoop, delay)`. */
  function Arm(s: LoopState, delay: int): LoopState {
    s.(armed := s.armed + {Timer(s.nextTimerId, delay)},
       timeoutSlot := Some(s.nextTimerId),
       nextTimerId := s.nextTimerId + 1)
  }

  /** The frames-per-second counter, sampled when more than a second has passed since the last sample. */
  function CountFrame(s: LoopState, now: int): LoopState {
    var count := s.frameCount + 1;
    if now - s.lastFpsTick > 1000 then s.(fps := count, frameCount := 0, lastFpsTick := now)
    else s.(frameCount := count)
  }

  /** The success branch: maybe a new row, the backoff reset, the next cycle at the frame interval. */
  function SuccessStep(s: LoopState, seen: Seen, text: string, env: Env): LoopState {
    var r := Record(s, seen, text, env);
    var b := if seen.status == Err then BackoffFloor else s.backoff;
    CountFrame(Arm(r.(backoff := b, status := Live, statusText := "Streaming..."), FrameInterval(env.rate)), env.now)
  }

  /** The RateLimitError branch: retry after the backoff seen, then double it up to the ceiling. */
  function RateLimitStep(s: LoopState, seen: Seen): LoopState {
    Arm(s.(status := Err, statusText := "Rate Limited", toast := RetryingIn(seen.backoff)), seen.backoff)
      .(backoff := Cap(s.backoff * 2))
  }

  /** Any other error: 'API Error', a toast, then handleStopRecognition as the cycle's render bound it. */
  function ErrorStep(s: LoopState, seen: Seen, message: string): LoopState {
    Halt(s.(status := Err, statusText := "API Error", toast := ErrorNotice(message)), seen.status)
  }

  /** One processFrameLoop cycle that reads `seen` and meets `outcome` from the recognizer. */
  function CycleStep(s: LoopState, seen: Seen, outcome: Outcome, env: Env): LoopState {
    if !s.recognizing || !env.frameReady then s
    else Respond(s.(requests := s.requests + [LanguageCode(env.voiceLang)]), seen, outcome, env)
  }

  /** The branch of processFrameLoop that the recognizer's outcome selects. */
  function Respond(s: LoopState, seen: Seen, outcome: Outcome, env: Env): LoopState {
    match outcome
    case Success(text) => SuccessStep(s, seen, text, env)
    case Failure(e) =>
      if e.RateLimitError? then RateLimitStep(s, seen) else ErrorStep(s, seen, e.message)
  }

  /** Every branch sets the status itself, so the 'Recognizing...' set before the call is overwritten. */
  lemma RespondSetsStatus(s: LoopState, st: Status, text: string, seen: Seen, outcome: Outcome, env: Env)
    ensures Respond(s.(status := st, statusText := text), seen, outcome, env) == Respond(s, seen, outcome, env)
  {
  }

  /** handleStartRecognition: a no-op without the camera or while running; else the first cycle. */
  function StartStep(s: LoopState, outcome: Outcome, env: Env): LoopState {
    if !s.cameraOn || s.recognizing then s
    else CycleStep(s.(recognizing := true, status := Live, statusText := "Starting..."), Entry(s), outcome, env)
  }

  /** The pending timer fires and runs the next cycle (nothing happens when no timer is pending). */
  function FireStep(s: LoopState, outcome: Outcome, env: Env): LoopState {
    if s.armed == {} then s else CycleStep(s.(armed := {}), Entry(s), outcome, env)
  }

  /** handleStopRecognition from the Stop button. */
  function StopStep(s: LoopState): LoopState {
    Halt(s, s.status)
  }

  /** handleStopCamera. */
  function StopCameraStep(s: LoopState): LoopState {
    var s1 := if s.recognizing then StopStep(s) else s;
    s1.(cameraOn := false, status := Idle, statusText := "Idle")
  }

  /** The state effects of handleStartCamera; `granted` says whether the stream was obtained. */
  function CameraStep(s: LoopState, granted: bool): LoopState {
    if granted then s.(cameraOn := true, status := Idle, statusText := "Camera ready", toast := CameraStarted)
    else s.(status := Err, statusText := "Camera Error")
  }

  lemma CancelSlotTimer(s: LoopState)
    requires Inv(s)
    ensures Cancel(s.armed, s.timeoutSlot) == {}
  {
    if s.armed != {} {
      var t :| t in s.armed;
      assert s.timeoutSlot == Some(t.id) && t.id != 0;
    }
  }

  lemma SingleArmed(armed: set<Timer>, t: Timer)
    requires |armed| <= 1 && t in armed
    ensures armed == {t}
  {
    assert |armed - {t}| == |armed| - 1;
    assert armed == (armed - {t}) + {t};
  }

  /** A cycle entered with no timer pending keeps the invariant. */
  lemma CycleKeepsInv(s: LoopState, seen: Seen, outcome: Outcome, env: Env)
    requires Inv(s) && s.armed == {}
    ensures Inv(CycleStep(s, seen, outcome, env))
  {
    if s.recognizing && env.frameReady && outcome.Failure? && !outcome.error.RateLimitError? {
      var s1 := s.(requests := s.requests + [LanguageCode(env.voiceLang)]);
      CancelSlotTimer(s1.(status := Err, statusText := "API Error", toast := ErrorNotice(outcome.error.message)));
    }
  }

  /** The component: its state variables and refs, updated step by step by the handlers. */
  class App {
    var cameraOn: bool
    var recognizing: bool
    var status: Status
    var statusText: string
    var backoff: int
    var transcript: seq<Line>
    var timeoutSlot: Option<nat>
    var armed: set<Timer>
    var nextTimerId: nat
    var fps: nat
    var frameCount: nat
    var lastFpsTick: int
    var spoken: seq<string>
    var requests: seq<string>
    var toast: Notice

    function State(): LoopState
      reads this
    {
      LoopState(cameraOn, recognizing, status, statusText, backoff, transcript, timeoutSlot, armed,
                nextTimerId, fps, frameCount, lastFpsTick, spoken, requests, toast)
    }

    ghost predicate Valid()
      reads this
    {
      Inv(State())
    }

    constructor (mountTime: int)
      ensures Valid() && State() == Initial(mountTime)
    {
      cameraOn, recognizing := false, false;
      status, statusText := Idle, "Idle";
      backoff := BackoffFloor;
      transcript := [];
      timeoutSlot, armed, nextTimerId := None, {}, 1;
      fps, frameCount, lastFpsTick := 0, 0, mountTime;
      spoken, requests := [], [];
      toast := NoNotice;
    }

    /** updateStatus(state, text). */
    method UpdateStatus(st: Status, text: string)
      modifies this
      ensures State() == old(State()).(status := st, statusText := text)
    {
      status, statusText := st, text;
    }

    /** window.setTimeout(processFrameLoop, delay), stored in recognitionTimeoutRef. */
    method Schedule(delay: int)
      modifies this
      ensures State() == Arm(old(State()), delay)
    {
      var t := Timer(nextTimerId, delay);
      nextTimerId := nextTimerId + 1;
      armed := armed + {t};
      timeoutSlot := Some(t.id);
    }

    /** The FPS counter update after a successful cycle. */
    method UpdateFps(now: int)
      modifies this
      ensures State() == CountFrame(old(State()), now)
    {
      frameCount := frameCount + 1;
      if now - lastFpsTick > 1000 {
        fps := frameCount;
        frameCount := 0;
        lastFpsTick := now;
      }
    }

    /** speak(text): the guard, then cancel-and-speak. */
    method Speak(text: string, env: Env)
      modifies this
      ensures State() == old(State()).(spoken := if Audible(env, text) then old(spoken) + [text] else old(spoken))
    {
      if env.muted || text == "" || !env.voicesLoaded {
        return;
      }
      spoken := spoken + [text];
    }

    /** handleStopRecognition as it is bound in a render that saw `seenStatus`. */
    method StopWith(seenStatus: Status)
      modifies this
      ensures State() == Halt(old(State()), seenStatus)
    {
      recognizing := false;
      if timeoutSlot.Some? && timeoutSlot.value != 0 {
        armed := Cancel(armed, timeoutSlot);
        timeoutSlot := None;
      }
      if seenStatus != Err {
        UpdateStatus(Idle, "Stopped");
      }
      fps := 0;
    }

    /** The success branch of processFrameLoop. */
    method OnSuccess(seen: Seen, text: string, env: Env)
      modifies this
      ensures State() == SuccessStep(old(State()), seen, text, env)
    {
      if Accepts(LastText(seen.transcript), text) {
        transcript := transcript + [Line(env.time, text)];
        Speak(text, env);
      }
      if seen.status == Err {
        backoff := BackoffFloor;
      }
      UpdateStatus(Live, "Streaming...");
      Schedule(FrameInterval(env.rate));
      UpdateFps(env.now);
    }

    /** The catch branch for a RateLimitError. */
    method OnRateLimit(seen: Seen)
      modifies this
      ensures State() == RateLimitStep(old(State()), seen)
    {
      UpdateStatus(Err, "Rate Limited");
      toast := RetryingIn(seen.backoff);
      Schedule(seen.backoff);
      backoff := Cap(backoff * 2);
    }

    /** The catch branch for every other error. */
    method OnError(seen: Seen, message: string)
      modifies this
      ensures State() == ErrorStep(old(State()), seen, message)
    {
      UpdateStatus(Err, "API Error");
      toast := ErrorNotice(message);
      StopWith(seen.status);
    }

    /** processFrameLoop, run by a render that saw `seen`. */
    method Cycle(seen: Seen, outcome: Outcome, env: Env) returns (request: Option<string>)
      requires Valid() && armed == {}
      modifies this
      ensures Valid()
      ensures State() == CycleStep(old(State()), seen, outcome, env)
      ensures request == if old(recognizing) && env.frameReady then Some(LanguageCode(env.voiceLang)) else None
    {
      CycleKeepsInv(State(), seen, outcome, env);
      if !recognizing || !env.frameReady {
        return None;
      }
      request := Recognize(seen, outcome, env);
    }

    /** The body of processFrameLoop past its guard: the recognizer call and its outcome. */
    method Recognize(seen: Seen, outcome: Outcome, env: Env) returns (request: Option<string>)
      modifies this
      ensures State() == Respond(old(State()).(requests := old(requests) + [LanguageCode(env.voiceLang)]), seen, outcome, env)
      ensures request == Some(LanguageCode(env.voiceLang))
    {
      var lang := LanguageCode(env.voiceLang);
      request := Some(lang);
      requests := requests + [lang];
      RespondSetsStatus(State(), Live, "Recognizing...", seen, outcome, env);
      UpdateStatus(Live, "Recognizing...");
      OnOutcome(seen, outcome, env);
    }

    /** The try/catch around the recognizer call, given its outcome. */
    method OnOutcome(seen: Seen, outcome: Outcome, env: Env)
      modifies this
      ensures State() == Respond(old(State()), seen, outcome, env)
    {
      match outcome {
        case Success(text) =>
          OnSuccess(seen, text, env);
        case Failure(e) =>
          if e.RateLimitError? {
            OnRateLimit(seen);
          } else {
            OnError(seen, e.message);
          }
      }
    }

    /** handleStartRecognition. */
    method StartRecognition(outcome: Outcome, env: Env) returns (request: Option<string>)
      requires Valid()
      modifies this
      ensures Valid()
      ensures State() == StartStep(old(State()), outcome, env)
    {
      if !cameraOn || recognizing {
        return None;
      }
      var seen := Entry(State());
      recognizing := true;
      UpdateStatus(Live, "Starting...");
      request := Cycle(seen, outcome, env);
    }

    /** The pending timer `t` fires and runs processFrameLoop. */
    method TimerElapsed(t: Timer, outcome: Outcome, env: Env) returns (request: Option<string>)
      requires Valid() && t in armed
      modifies this
      ensures Valid()
      ensures State() == FireStep(old(State()), outcome, env)
    {
      SingleArmed(armed, t);
      var seen := Entry(State());
      armed := armed - {t};
      request := Cycle(seen, outcome, env);
    }

    /** handleStopRecognition from the Stop button. */
    method StopRecognition()
      requires Valid()
      modifies this
      ensures Valid()
      ensures State() == StopStep(old(State()))
    {
      CancelSlotTimer(State());
      StopWith(status);
    }

    /** handleStopCamera (the media tracks are not modelled). */
    method StopCamera()
      requires Valid()
      modifies this
      ensures Valid()
      ensures State() == StopCameraStep(old(State()))
    {
      if recognizing {
        StopRecognition();
      }
      cameraOn := false;
      UpdateStatus(Idle, "Idle");
    }

    /** handleStartCamera once getUserMedia has settled; `granted` is its outcome. */
    method StartCamera(granted: bool)
      requires Valid()
      modifies this
      ensures Valid()
      ensures State() == CameraStep(old(State()), granted)
    {
      UpdateStatus(Starting, "Initializing Camera...");
      if granted {
        cameraOn := true;
        UpdateStatus(Idle, "Camera ready");
        toast := CameraStarted;
      } else {
        UpdateStatus(Err, "Camera Error");
      }
    }

    /** The text content of handleDownload. */
    method Download() returns (content: string)
      ensures content == Export(transcript)
    {
      content := Export(transcript);
    }
  }
}
