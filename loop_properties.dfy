/**
 * What the recognition loop of App.tsx promises over many handler calls:
 * its invariant, the append-only transcript, the backoff schedule under
 * repeated rate limits, suppression of immediately repeated results, and
 * silence after Stop or a fatal error. The last section compares the intended
 * loop with the loop as written, whose timer re-runs a stale callback.
 */
module LoopProperties {
  import opened Wrappers
  import opened Transcript
  import opened RecognitionLoop
  import GeminiService

  /** The outcome of a call that threw RateLimitError. */
  const RateLimited: Outcome := Failure(GeminiService.RateLimitError(GeminiService.QuotaMessage))

  /** Everything that can happen to the component, one handler or timer at a time. */
  datatype Event =
    | CameraStart(granted: bool)
    | CameraStop
    | StartPressed(outcome: Outcome, env: Env)
    | StopPressed
    | TimerFired(outcome: Outcome, env: Env)

  function Apply(s: LoopState, e: Event): LoopState {
    match e
    case CameraStart(granted) => CameraStep(s, granted)
    case CameraStop => StopCameraStep(s)
    case StartPressed(o, env) => StartStep(s, o, env)
    case StopPressed => StopStep(s)
    case TimerFired(o, env) => FireStep(s, o, env)
  }

  function Run(s: LoopState, es: seq<Event>): LoopState
    decreases |es|
  {
    if es == [] then s else Run(Apply(s, es[0]), es[1..])
  }

  // ---------------------------------------------------------------------------
  // The invariant
  // ---------------------------------------------------------------------------

  lemma ApplyKeepsInv(s: LoopState, e: Event)
    requires Inv(s)
    ensures Inv(Apply(s, e))
  {
    match e
    case CameraStart(_) =>
    case CameraStop =>
      if s.recognizing { CancelSlotTimer(s); }
    case StartPressed(o, env) =>
      if s.cameraOn && !s.recognizing {
        CycleKeepsInv(s.(recognizing := true, status := Live, statusText := "Starting..."), Entry(s), o, env);
      }
    case StopPressed =>
      CancelSlotTimer(s);
    case TimerFired(o, env) =>
      if s.armed != {} {
        CycleKeepsInv(s.(armed := {}), Entry(s), o, env);
      }
  }

  /**
   * From mount, whatever happens: the backoff stays in [2000, 30000], at most
   * one timer is pending, and none is pending while recognition is off.
   */
  lemma {:induction false} RunKeepsInv(s: LoopState, es: seq<Event>)
    requires Inv(s)
    ensures Inv(Run(s, es))
    decreases |es|
  {
    if es != [] {
      ApplyKeepsInv(s, es[0]);
      RunKeepsInv(Apply(s, es[0]), es[1..]);
    }
  }

  lemma MountedRunKeepsInv(mountTime: int, es: seq<Event>)
    ensures Inv(Run(Initial(mountTime), es))
    ensures BackoffFloor <= Run(Initial(mountTime), es).backoff <= BackoffCeiling
    ensures |Run(Initial(mountTime), es).armed| <= 1
  {
    RunKeepsInv(Initial(mountTime), es);
  }

  // ---------------------------------------------------------------------------
  // The transcript is only appended to
  // ---------------------------------------------------------------------------

  /** One handler adds at most one row, at the end: a non-empty text unlike the newest row. */
  lemma ApplyAddsAtMostOneRow(s: LoopState, e: Event)
    ensures var t := Apply(s, e).transcript;
            || t == s.transcript
            || (&& |t| == |s.transcript| + 1
                && t[..|s.transcript|] == s.transcript
                && t[|s.transcript|].text != ""
                && LastText(s.transcript) != Some(t[|s.transcript|].text))
  {
    var n := |s.transcript|;
    match e
    case StartPressed(o, env) =>
      var t := Apply(s, e).transcript;
      if t != s.transcript {
        assert t == s.transcript + [Line(env.time, o.value)];
        assert t[..n] == s.transcript;
      }
    case TimerFired(o, env) =>
      var t := Apply(s, e).transcript;
      if t != s.transcript {
        assert t == s.transcript + [Line(env.time, o.value)];
        assert t[..n] == s.transcript;
      }
    case _ =>
  }

  lemma CycleOnlyAppends(s: LoopState, seen: Seen, o: Outcome, env: Env)
    ensures s.transcript <= CycleStep(s, seen, o, env).transcript
    ensures s.spoken <= CycleStep(s, seen, o, env).spoken
    ensures s.requests <= CycleStep(s, seen, o, env).requests
  {
  }

  lemma ApplyOnlyAppends(s: LoopState, e: Event)
    ensures s.transcript <= Apply(s, e).transcript
    ensures s.spoken <= Apply(s, e).spoken
    ensures s.requests <= Apply(s, e).requests
  {
    match e
    case StartPressed(o, env) =>
      CycleOnlyAppends(s.(recognizing := true, status := Live, statusText := "Starting..."), Entry(s), o, env);
    case TimerFired(o, env) =>
      CycleOnlyAppends(s.(armed := {}), Entry(s), o, env);
    case _ =>
  }

  /** Rows, utterances and recognizer calls only ever accumulate. */
  lemma {:induction false} RunOnlyAppends(s: LoopState, es: seq<Event>)
    ensures s.transcript <= Run(s, es).transcript
    ensures s.spoken <= Run(s, es).spoken
    ensures s.requests <= Run(s, es).requests
    decreases |es|
  {
    if es != [] {
      var s1 := Apply(s, es[0]);
      ApplyOnlyAppends(s, es[0]);
      RunOnlyAppends(s1, es[1..]);
      var r := Run(s1, es[1..]);
      assert Run(s, es) == r;
    }
  }

  // ---------------------------------------------------------------------------
  // Consecutive timer cycles
  // ---------------------------------------------------------------------------

  /** The pending timer fires once per outcome, in order; cycle i reads `envs[i]`. */
  function Fires(s: LoopState, os: seq<Outcome>, envs: seq<Env>): LoopState
    decreases |os|
  {
    if os == [] || envs == [] then s else Fires(FireStep(s, os[0], envs[0]), os[1..], envs[1..])
  }

  /** The pending timer fires k times in a row and meets the same outcome each time. */
  function FireRepeatedly(s: LoopState, o: Outcome, k: nat, env: Env): LoopState
    decreases k
  {
    if k == 0 then s else FireRepeatedly(FireStep(s, o, env), o, k - 1, env)
  }

  function Pow2(n: nat): (p: nat)
    ensures p >= 1
  {
    if n == 0 then 1 else 2 * Pow2(n - 1)
  }

  lemma CapOfDouble(b: int, n: nat)
    requires b >= 0
    ensures Cap(Cap(2 * b) * Pow2(n)) == Cap(b * Pow2(n + 1))
  {
    var p := Pow2(n);
    assert Pow2(n + 1) == 2 * p;
    assert b * (2 * p) == (2 * b) * p;
    if 2 * b >= BackoffCeiling {
      assert BackoffCeiling * p >= BackoffCeiling;
      assert (2 * b) * p >= 2 * b;
    }
  }

  /** One rate-limited cycle: retry after the backoff, double it up to the ceiling, keep running. */
  lemma RateLimitedCycle(s: LoopState, env: Env)
    requires Inv(s) && s.recognizing && s.armed != {} && env.frameReady
    ensures var r := FireStep(s, RateLimited, env);
            && Inv(r) && r.recognizing
            && r.status == Err && r.statusText == "Rate Limited"
            && r.armed == {Timer(s.nextTimerId, s.backoff)}
            && r.timeoutSlot == Some(s.nextTimerId)
            && r.backoff == Cap(s.backoff * 2)
            && r.transcript == s.transcript
            && r.nextTimerId == s.nextTimerId + 1
  {
    CycleKeepsInv(s.(armed := {}), Entry(s), RateLimited, env);
  }

  /** The delay of the k-th consecutive retry, starting from backoff b. */
  function RetryDelay(b: int, k: nat): int
    requires k >= 1
    decreases k
  {
    if k == 1 then b else RetryDelay(Cap(2 * b), k - 1)
  }

  /** The backoff after k consecutive rate limits, starting from b. */
  function BackoffAfter(b: int, k: nat): int
    decreases k
  {
    if k == 0 then b else BackoffAfter(Cap(2 * b), k - 1)
  }

  lemma {:induction false} RateLimitChain(s: LoopState, k: nat, env: Env)
    requires Inv(s) && s.recognizing && s.armed != {} && env.frameReady && k >= 1
    ensures var r := FireRepeatedly(s, RateLimited, k, env);
            && Inv(r) && r.recognizing && r.armed != {}
            && r.status == Err && r.statusText == "Rate Limited"
            && r.armed == {Timer(s.nextTimerId + k - 1, RetryDelay(s.backoff, k))}
            && r.backoff == BackoffAfter(s.backoff, k)
            && r.transcript == s.transcript
            && r.nextTimerId == s.nextTimerId + k
    decreases k
  {
    var s1 := FireStep(s, RateLimited, env);
    RateLimitedCycle(s, env);
    if k > 1 {
      RateLimitChain(s1, k - 1, env);
    }
  }

  /** Doubling with a ceiling, k times, is multiplying by 2^k with the ceiling applied once. */
  lemma {:induction false} BackoffClosedForm(b: int, k: nat)
    requires b >= 0
    ensures BackoffAfter(b, k) == if k == 0 then b else Cap(b * Pow2(k))
    ensures k >= 1 ==> RetryDelay(b, k) == if k == 1 then b else Cap(b * Pow2(k - 1))
    decreases k
  {
    if k >= 2 {
      BackoffClosedForm(Cap(2 * b), k - 1);
      CapOfDouble(b, k - 1);
      CapOfDouble(b, k - 2);
    } else if k == 1 {
      assert Pow2(1) == 2;
    }
  }

  /**
   * After k consecutive rate limits the k-th retry waits min(b * 2^(k-1), 30000)
   * and the backoff has become min(b * 2^k, 30000), b being the backoff before.
   */
  lemma RateLimitRun(s: LoopState, k: nat, env: Env)
    requires Inv(s) && s.recognizing && s.armed != {} && env.frameReady && k >= 1
    ensures var r := FireRepeatedly(s, RateLimited, k, env);
            && Inv(r) && r.recognizing && r.armed != {}
            && r.status == Err && r.statusText == "Rate Limited"
            && r.armed == {Timer(s.nextTimerId + k - 1, Cap(s.backoff * Pow2(k - 1)))}
            && r.backoff == Cap(s.backoff * Pow2(k))
            && r.transcript == s.transcript
            && r.nextTimerId == s.nextTimerId + k
  {
    RateLimitChain(s, k, env);
    BackoffClosedForm(s.backoff, k);
    assert s.backoff == Cap(s.backoff * Pow2(0));
  }

  /** From the floor, the retries wait 2000, 4000, 8000, 16000, 30000 and 30000 ms. */
  lemma RateLimitDelaysFromFloor(s: LoopState, env: Env)
    requires Inv(s) && s.recognizing && s.armed != {} && env.frameReady && s.backoff == BackoffFloor
    ensures forall k :: 1 <= k <= 6 ==>
              FireRepeatedly(s, RateLimited, k, env).armed
                == {Timer(s.nextTimerId + k - 1, [2000, 4000, 8000, 16000, 30000, 30000][k - 1])}
  {
    forall k | 1 <= k <= 6
      ensures FireRepeatedly(s, RateLimited, k, env).armed
                == {Timer(s.nextTimerId + k - 1, [2000, 4000, 8000, 16000, 30000, 30000][k - 1])}
    {
      RateLimitRun(s, k, env);
      FloorDelays(k);
    }
  }

  lemma FloorDelays(k: nat)
    requires 1 <= k <= 6
    ensures Cap(BackoffFloor * Pow2(k - 1)) == [2000, 4000, 8000, 16000, 30000, 30000][k - 1]
  {
    assert Pow2(1) == 2 && Pow2(2) == 4 && Pow2(3) == 8 && Pow2(4) == 16 && Pow2(5) == 32;
  }

  /** One success after any run of rate limits resets the backoff and returns to the frame interval. */
  lemma RecoveryResetsBackoff(s: LoopState, k: nat, text: string, env: Env)
    requires Inv(s) && s.recognizing && s.armed != {} && env.frameReady && k >= 1
    ensures var r := FireStep(FireRepeatedly(s, RateLimited, k, env), Success(text), env);
            && r.backoff == BackoffFloor
            && r.status == Live && r.statusText == "Streaming..."
            && r.armed == {Timer(s.nextTimerId + k, FrameInterval(env.rate))}
  {
    var r := FireRepeatedly(s, RateLimited, k, env);
    RateLimitRun(s, k, env);
    assert Inv(r) && r.recognizing && r.armed != {} && r.status == Err && r.nextTimerId == s.nextTimerId + k;
    SuccessfulCycle(r, text, env);
  }

  /** A success schedules the next cycle at the frame interval; the backoff resets only after 'err'. */
  lemma SuccessfulCycle(s: LoopState, text: string, env: Env)
    requires Inv(s) && s.recognizing && s.armed != {} && env.frameReady
    ensures var r := FireStep(s, Success(text), env);
            && Inv(r) && r.recognizing
            && r.status == Live && r.statusText == "Streaming..."
            && r.armed == {Timer(s.nextTimerId, FrameInterval(env.rate))}
            && r.backoff == (if s.status == Err then BackoffFloor else s.backoff)
            && r.transcript == (if text != "" && LastText(s.transcript) != Some(text)
                                then s.transcript + [Line(env.time, text)] else s.transcript)
            && r.spoken == (if text != "" && LastText(s.transcript) != Some(text) && Audible(env, text)
                            then s.spoken + [text] else s.spoken)
  {
    CycleKeepsInv(s.(armed := {}), Entry(s), Success(text), env);
  }

  // ---------------------------------------------------------------------------
  // Repeated results
  // ---------------------------------------------------------------------------

  /** What one success keeps: the text, unless it is empty or repeats the newest row. */
  function Kept(last: Option<string>, text: string): seq<string> {
    if Accepts(last, text) then [text] else []
  }

  /** The newest row's text after one success. */
  function NextLast(last: Option<string>, text: string): Option<string> {
    if Kept(last, text) == [] then last else Some(text)
  }

  /** The results kept from a run of successes: non-empty and unlike the previous kept one. */
  function Accepted(last: Option<string>, texts: seq<string>): seq<string>
    decreases |texts|
  {
    if texts == [] then [] else Kept(last, texts[0]) + Accepted(NextLast(last, texts[0]), texts[1..])
  }

  function Lines(time: string, texts: seq<string>): (ls: seq<Line>)
    ensures |ls| == |texts| && forall i :: 0 <= i < |texts| ==> ls[i] == Line(time, texts[i])
  {
    seq(|texts|, i requires 0 <= i < |texts| => Line(time, texts[i]))
  }

  function Successes(texts: seq<string>): (os: seq<Outcome>)
    ensures |os| == |texts| && forall i :: 0 <= i < |texts| ==> os[i] == Success(texts[i])
  {
    seq(|texts|, i requires 0 <= i < |texts| => Success(texts[i]))
  }

  predicate SpeechOn(env: Env) {
    !env.muted && env.voicesLoaded
  }

  /** The rows a run of successes adds: each kept text, stamped by the cycle that kept it. */
  function AddedRows(last: Option<string>, texts: seq<string>, envs: seq<Env>): seq<Line>
    requires |envs| == |texts|
    decreases |texts|
  {
    if texts == [] then []
    else Lines(envs[0].time, Kept(last, texts[0])) + AddedRows(NextLast(last, texts[0]), texts[1..], envs[1..])
  }

  /** The utterances a run of successes starts: each kept text whose cycle had speech on. */
  function Said(last: Option<string>, texts: seq<string>, envs: seq<Env>): seq<string>
    requires |envs| == |texts|
    decreases |texts|
  {
    if texts == [] then []
    else (if SpeechOn(envs[0]) then Kept(last, texts[0]) else []) + Said(NextLast(last, texts[0]), texts[1..], envs[1..])
  }

  function Texts(ls: seq<Line>): (ts: seq<string>)
    ensures |ts| == |ls| && forall i :: 0 <= i < |ls| ==> ts[i] == ls[i].text
  {
    seq(|ls|, i requires 0 <= i < |ls| => ls[i].text)
  }

  lemma TextsAppend(a: seq<Line>, b: seq<Line>)
    ensures Texts(a + b) == Texts(a) + Texts(b)
  {
  }

  /** The rows a run adds carry exactly the accepted texts, in order, whatever the clocks read. */
  lemma {:induction false} AddedRowsTexts(last: Option<string>, texts: seq<string>, envs: seq<Env>)
    requires |envs| == |texts|
    ensures Texts(AddedRows(last, texts, envs)) == Accepted(last, texts)
    decreases |texts|
  {
    if texts != [] {
      var head := Lines(envs[0].time, Kept(last, texts[0]));
      AddedRowsTexts(NextLast(last, texts[0]), texts[1..], envs[1..]);
      TextsAppend(head, AddedRows(NextLast(last, texts[0]), texts[1..], envs[1..]));
      assert Texts(head) == Kept(last, texts[0]);
    }
  }

  /** With speech on in every cycle, exactly the accepted texts are spoken; with it off in every cycle, none. */
  lemma {:induction false} SaidBySpeech(last: Option<string>, texts: seq<string>, envs: seq<Env>)
    requires |envs| == |texts|
    ensures (forall i :: 0 <= i < |envs| ==> SpeechOn(envs[i])) ==> Said(last, texts, envs) == Accepted(last, texts)
    ensures (forall i :: 0 <= i < |envs| ==> !SpeechOn(envs[i])) ==> Said(last, texts, envs) == []
    decreases |texts|
  {
    if texts != [] {
      SaidBySpeech(NextLast(last, texts[0]), texts[1..], envs[1..]);
      if forall i :: 0 <= i < |envs| ==> SpeechOn(envs[i]) {
        assert SpeechOn(envs[0]);
        assert forall i :: 0 <= i < |envs[1..]| ==> SpeechOn(envs[1..][i]);
      }
      if forall i :: 0 <= i < |envs| ==> !SpeechOn(envs[i]) {
        assert !SpeechOn(envs[0]);
        assert forall i :: 0 <= i < |envs[1..]| ==> !SpeechOn(envs[1..][i]);
      }
    }
  }

  lemma AppendTwice<T>(a: seq<T>, x: seq<T>, y: seq<T>, b: seq<T>, c: seq<T>)
    requires b == a + x && c == b + y
    ensures c == a + (x + y)
  {
  }

  lemma LinesAppend(time: string, a: seq<string>, b: seq<string>)
    ensures Lines(time, a + b) == Lines(time, a) + Lines(time, b)
  {
  }

  /** One success, in the terms of Kept and NextLast. */
  lemma SuccessKeeps(s: LoopState, text: string, env: Env)
    requires Inv(s) && s.recognizing && s.armed != {} && env.frameReady
    ensures var r := FireStep(s, Success(text), env);
            var kept := Kept(LastText(s.transcript), text);
            && Inv(r) && r.recognizing && r.armed != {}
            && r.transcript == s.transcript + Lines(env.time, kept)
            && r.spoken == s.spoken + (if SpeechOn(env) then kept else [])
            && LastText(r.transcript) == NextLast(LastText(s.transcript), text)
  {
    SuccessfulCycle(s, text, env);
    var kept := Kept(LastText(s.transcript), text);
    if kept == [] {
      assert Lines(env.time, kept) == [];
    } else {
      assert Lines(env.time, kept) == [Line(env.time, text)];
    }
  }

  /**
   * A run of successes adds exactly the accepted results, in order, each
   * stamped with the time its own cycle read, and speaks those whose cycle had
   * speech on; empty and immediately repeated results add nothing.
   */
  lemma {:induction false} SuccessRun(s: LoopState, texts: seq<string>, envs: seq<Env>)
    requires Inv(s) && s.recognizing && s.armed != {}
    requires |envs| == |texts| && forall i :: 0 <= i < |envs| ==> envs[i].frameReady
    ensures var r := Fires(s, Successes(texts), envs);
            && Inv(r) && r.recognizing && r.armed != {}
            && r.transcript == s.transcript + AddedRows(LastText(s.transcript), texts, envs)
            && r.spoken == s.spoken + Said(LastText(s.transcript), texts, envs)
    decreases |texts|
  {
    if texts == [] {
      assert s.transcript + [] == s.transcript && s.spoken + [] == s.spoken;
    } else {
      var last := LastText(s.transcript);
      var env := envs[0];
      assert env.frameReady;
      var s1 := FireStep(s, Success(texts[0]), env);
      SuccessKeeps(s, texts[0], env);
      assert Successes(texts)[1..] == Successes(texts[1..]);
      assert forall i :: 0 <= i < |envs[1..]| ==> envs[1..][i].frameReady;
      SuccessRun(s1, texts[1..], envs[1..]);
      var r := Fires(s1, Successes(texts[1..]), envs[1..]);
      assert Fires(s, Successes(texts), envs) == r;
      var kept := Kept(last, texts[0]);
      var next := NextLast(last, texts[0]);
      AppendTwice(s.transcript, Lines(env.time, kept), AddedRows(next, texts[1..], envs[1..]), s1.transcript, r.transcript);
      var said := if SpeechOn(env) then kept else [];
      AppendTwice(s.spoken, said, Said(next, texts[1..], envs[1..]), s1.spoken, r.spoken);
    }
  }

  /** A, B, A keeps all three; A, A and an empty result keep one. */
  lemma AcceptedExamples()
    ensures Accepted(None, ["A", "B", "A"]) == ["A", "B", "A"]
    ensures Accepted(None, ["A", "A", ""]) == ["A"]
  {
    assert ["A", "B", "A"][1..] == ["B", "A"];
    assert ["B", "A"][1..] == ["A"];
    assert ["A", "A", ""][1..] == ["A", ""];
    assert ["A", ""][1..] == [""];
  }

  // ---------------------------------------------------------------------------
  // Stopping
  // ---------------------------------------------------------------------------

  /** Stop clears recognition and the timer, zeroes fps, keeps 'err', and leaves the transcript. */
  lemma StopSettles(s: LoopState)
    requires Inv(s)
    ensures var r := StopStep(s);
            && !r.recognizing && r.armed == {} && r.timeoutSlot == None && r.fps == 0
            && (if s.status == Err then r.status == Err && r.statusText == s.statusText
                else r.status == Idle && r.statusText == "Stopped")
            && r.transcript == s.transcript && r.requests == s.requests && r.backoff == s.backoff
  {
    CancelSlotTimer(s);
  }

  /** A non-rate-limit error ends the session: no timer, not recognizing; 'API Error' stays only after 'err'. */
  lemma OtherErrorHalts(s: LoopState, e: GeminiService.ServiceError, env: Env)
    requires Inv(s) && s.recognizing && s.armed != {} && env.frameReady && !e.RateLimitError?
    ensures var r := FireStep(s, Failure(e), env);
            && !r.recognizing && r.armed == {} && r.timeoutSlot == None
            && (if s.status == Err then r.status == Err && r.statusText == "API Error"
                else r.status == Idle && r.statusText == "Stopped")
            && r.transcript == s.transcript && r.toast == ErrorNotice(e.message)
  {
    var t :| t in s.armed;
    assert s.timeoutSlot == Some(t.id);
  }

  /** Start does nothing without the camera or while running; a cycle does nothing when off or not ready. */
  lemma InactiveEntriesDoNothing(s: LoopState, seen: Seen, o: Outcome, env: Env)
    ensures !s.cameraOn || s.recognizing ==> StartStep(s, o, env) == s
    ensures !s.recognizing || !env.frameReady ==> CycleStep(s, seen, o, env) == s
  {
  }

  /**
   * A timer cycle that finds the video not ready returns without re-arming: the
   * loop stops, yet recognition still counts as running, so Start is ignored and
   * only Stop (or stopping the camera) revives it.
   */
  lemma UnreadyFrameStallsLoop(s: LoopState, o: Outcome, env: Env, o2: Outcome, env2: Env)
    requires Inv(s) && s.recognizing && s.armed != {} && !env.frameReady
    ensures var r := FireStep(s, o, env);
            && r.recognizing && r.armed == {} && r.requests == s.requests
            && FireStep(r, o2, env2) == r && StartStep(r, o2, env2) == r
  {
  }

  ghost predicate NoStart(es: seq<Event>) {
    forall i :: 0 <= i < |es| ==> !es[i].StartPressed?
  }

  /** Until Start is pressed again, a stopped loop makes no call, adds no row and says nothing. */
  lemma {:induction false} HaltedLoopIsQuiet(s: LoopState, es: seq<Event>)
    requires Inv(s) && !s.recognizing && NoStart(es)
    ensures var r := Run(s, es);
            && !r.recognizing && r.armed == {}
            && r.requests == s.requests && r.transcript == s.transcript && r.spoken == s.spoken
    decreases |es|
  {
    if es != [] {
      ApplyKeepsInv(s, es[0]);
      assert NoStart(es[1..]);
      HaltedLoopIsQuiet(Apply(s, es[0]), es[1..]);
    }
  }

  /** Stop during a pending delay: no recognizer call follows until Start. */
  lemma StopSilencesLoop(s: LoopState, es: seq<Event>)
    requires Inv(s) && NoStart(es)
    ensures Run(StopStep(s), es).requests == s.requests
    ensures Run(StopStep(s), es).transcript == s.transcript
  {
    StopSettles(s);
    ApplyKeepsInv(s, StopPressed);
    HaltedLoopIsQuiet(StopStep(s), es);
  }

  /** After a fatal error no stale timer fires a call, and Start begins a fresh session. */
  lemma ErrorSilencesLoop(s: LoopState, e: GeminiService.ServiceError, env: Env, es: seq<Event>, o: Outcome, env2: Env)
    requires Inv(s) && s.recognizing && s.armed != {} && env.frameReady && !e.RateLimitError? && NoStart(es)
    ensures var r := FireStep(s, Failure(e), env);
            Run(r, es).requests == r.requests && Run(r, es).armed == {}
    ensures var r := FireStep(s, Failure(e), env);
            && r.cameraOn && !r.recognizing
            && (env2.frameReady ==> StartStep(r, o, env2).requests == r.requests + [LanguageCode(env2.voiceLang)])
  {
    OtherErrorHalts(s, e, env);
    ApplyKeepsInv(s, TimerFired(Failure(e), env));
    HaltedLoopIsQuiet(FireStep(s, Failure(e), env), es);
  }

  /**
   * The backoff survives a camera restart: Stop Camera and Start Camera leave
   * the status idle, so the first success of the new session does not reset
   * the backoff, and its first rate limit waits 4000 ms rather than 2000.
   */
  lemma CameraRestartKeepsBackoff(mountTime: int, env: Env)
    requires env.frameReady
    ensures var s1 := StartStep(CameraReady(mountTime), RateLimited, env);
            var s2 := StartStep(CameraStep(StopCameraStep(s1), true), Success("A"), env);
            && s1.backoff == 4000 && s2.backoff == 4000 && s2.status == Live
            && FireStep(s2, RateLimited, env).armed == {Timer(3, 4000)}
  {
    var s1 := StartStep(CameraReady(mountTime), RateLimited, env);
    assert s1.backoff == 4000 && s1.armed == {Timer(1, 2000)} && s1.timeoutSlot == Some(1);
    var s0 := StopCameraStep(s1);
    assert s0.armed == {} by {
      assert Cancel(s1.armed, s1.timeoutSlot) == {};
    }
    var s2 := StartStep(CameraStep(s0, true), Success("A"), env);
    assert s2.backoff == 4000 && s2.armed == {Timer(2, FrameInterval(env.rate))};
  }

  // ---------------------------------------------------------------------------
  // The loop as written: the timer re-runs the callback of the starting render
  // ---------------------------------------------------------------------------

  /** The intended session: Start, then one timer cycle per further outcome, each reading current state. */
  function Session(s: LoopState, os: seq<Outcome>, envs: seq<Env>): LoopState
    requires os != [] && |envs| == |os|
  {
    Fires(StartStep(s, os[0], envs[0]), os[1..], envs[1..])
  }

  /**
   * What the callback of the starting render `start` reads in a later cycle:
   * the refs and the clock as they are now, but its own `speak`, bound to the
   * mute flag and the voice list of that render.
   */
  function Bound(env: Env, start: Env): Env {
    env.(muted := start.muted, voicesLoaded := start.voicesLoaded)
  }

  /** Timer cycles that all run the callback of the render in which recognition started. */
  function StaleFires(s: LoopState, seen: Seen, start: Env, os: seq<Outcome>, envs: seq<Env>): LoopState
    decreases |os|
  {
    if os == [] || envs == [] || s.armed == {} then s
    else StaleFires(CycleStep(s.(armed := {}), seen, os[0], Bound(envs[0], start)), seen, start, os[1..], envs[1..])
  }

  /**
   * The session as written: setTimeout re-arms the memoized processFrameLoop of
   * the render that started recognition, so every cycle sees that render's
   * status, transcript, backoffDelay and speak.
   */
  function StaleSession(s: LoopState, os: seq<Outcome>, envs: seq<Env>): LoopState
    requires os != [] && |envs| == |os|
  {
    StaleFires(StartStep(s, os[0], envs[0]), Entry(s), envs[0], os[1..], envs[1..])
  }

  /** The camera is on and nothing has happened yet. */
  function CameraReady(mountTime: int): LoopState {
    CameraStep(Initial(mountTime), true)
  }

  /** As written, a repeated result is added twice; intended, once. */
  lemma StaleSessionRepeatsText(mountTime: int, env: Env)
    requires env.frameReady
    ensures StaleSession(CameraReady(mountTime), [Success("A"), Success("A")], [env, env]).transcript
              == [Line(env.time, "A"), Line(env.time, "A")]
    ensures Session(CameraReady(mountTime), [Success("A"), Success("A")], [env, env]).transcript
              == [Line(env.time, "A")]
  {
    var s := CameraReady(mountTime);
    var os: seq<Outcome> := [Success("A"), Success("A")];
    var envs := [env, env];
    var s1 := StartStep(s, os[0], env);
    assert s1.transcript == [Line(env.time, "A")];
    assert s1.armed != {};
    assert os[1..] == [Success("A")] && envs[1..] == [env];
    assert Bound(env, env) == env;
    var stale := CycleStep(s1.(armed := {}), Entry(s), Success("A"), env);
    assert stale.transcript == [Line(env.time, "A")] + [Line(env.time, "A")];
    assert StaleFires(stale, Entry(s), env, [], []) == stale;
    var intended := FireStep(s1, Success("A"), env);
    assert intended.transcript == [Line(env.time, "A")];
    assert Fires(intended, [], []) == intended;
  }

  /** As written, the third rate-limited retry still waits 2000 ms; intended, 8000 ms. */
  lemma StaleSessionKeepsFlatBackoff(mountTime: int, env: Env)
    requires env.frameReady
    ensures StaleSession(CameraReady(mountTime), [RateLimited, RateLimited, RateLimited], [env, env, env]).armed
              == {Timer(3, 2000)}
    ensures Session(CameraReady(mountTime), [RateLimited, RateLimited, RateLimited], [env, env, env]).armed
              == {Timer(3, 8000)}
  {
    var s := CameraReady(mountTime);
    var os := [RateLimited, RateLimited, RateLimited];
    var envs := [env, env, env];
    assert Bound(env, env) == env;
    var s1 := StartStep(s, RateLimited, env);
    assert s1.armed == {Timer(1, 2000)} && s1.backoff == 4000;
    assert os[1..] == [RateLimited, RateLimited] && envs[1..] == [env, env];
    assert os[1..][1..] == [RateLimited] && envs[1..][1..] == [env];
    var a2 := CycleStep(s1.(armed := {}), Entry(s), RateLimited, env);
    assert a2.armed == {Timer(2, 2000)};
    var a3 := CycleStep(a2.(armed := {}), Entry(s), RateLimited, env);
    assert a3.armed == {Timer(3, 2000)};
    assert StaleFires(a3, Entry(s), env, [], []) == a3;
    assert StaleFires(a2, Entry(s), env, [RateLimited], [env]) == a3;
    assert StaleFires(s1, Entry(s), env, os[1..], envs[1..]) == a3;
    var b2 := FireStep(s1, RateLimited, env);
    assert b2.armed == {Timer(2, 4000)} && b2.backoff == 8000;
    var b3 := FireStep(b2, RateLimited, env);
    assert b3.armed == {Timer(3, 8000)};
    assert Fires(b3, [], []) == b3;
    assert Fires(b2, [RateLimited], [env]) == b3;
    assert Fires(s1, os[1..], envs[1..]) == b3;
  }

  /**
   * As written, a success after a rate limit sees the starting render's status,
   * not 'err', so the backoff stays raised and the next session's first retry
   * waits 4000 ms; intended, the success resets it to 2000.
   */
  lemma StaleSessionKeepsRaisedBackoff(mountTime: int, env: Env)
    requires env.frameReady
    ensures var stale := StaleSession(CameraReady(mountTime), [RateLimited, Success("A")], [env, env]);
            && stale.backoff == 4000
            && StartStep(StopStep(stale), RateLimited, env).armed == {Timer(3, 4000)}
    ensures Session(CameraReady(mountTime), [RateLimited, Success("A")], [env, env]).backoff == 2000
  {
    var s := CameraReady(mountTime);
    var os := [RateLimited, Success("A")];
    var envs := [env, env];
    assert Bound(env, env) == env;
    var s1 := StartStep(s, RateLimited, env);
    assert s1.armed == {Timer(1, 2000)} && s1.backoff == 4000 && s1.status == Err;
    assert os[1..] == [Success("A")] && envs[1..] == [env];
    var stale := CycleStep(s1.(armed := {}), Entry(s), Success("A"), env);
    assert stale.backoff == 4000 && stale.armed == {Timer(2, FrameInterval(env.rate))};
    assert StaleFires(stale, Entry(s), env, [], []) == stale;
    assert StaleFires(s1, Entry(s), env, os[1..], envs[1..]) == stale;
    assert StaleSession(s, os, envs) == stale;
    var stopped := StopStep(stale);
    assert stopped.armed == {} by {
      assert Cancel(stale.armed, stale.timeoutSlot) == {};
    }
    assert stopped.backoff == 4000 && stopped.nextTimerId == 3 && stopped.cameraOn;
    var intended := FireStep(s1, Success("A"), env);
    assert intended.backoff == 2000;
    assert Fires(intended, [], []) == intended;
    assert Fires(s1, os[1..], envs[1..]) == intended;
  }

  /** As written, muting after Start does not silence the next result; intended, it does. */
  lemma StaleSessionIgnoresMute(mountTime: int, env: Env)
    requires env.frameReady && SpeechOn(env)
    ensures var quiet := env.(muted := true);
            StaleSession(CameraReady(mountTime), [Success("A"), Success("B")], [env, quiet]).spoken == ["A", "B"]
    ensures var quiet := env.(muted := true);
            Session(CameraReady(mountTime), [Success("A"), Success("B")], [env, quiet]).spoken == ["A"]
  {
    var s := CameraReady(mountTime);
    var quiet := env.(muted := true);
    var os: seq<Outcome> := [Success("A"), Success("B")];
    var envs := [env, quiet];
    var s1 := StartStep(s, os[0], env);
    assert s1.spoken == ["A"] && s1.armed != {};
    assert os[1..] == [Success("B")] && envs[1..] == [quiet];
    assert Bound(quiet, env) == env;
    var stale := CycleStep(s1.(armed := {}), Entry(s), Success("B"), env);
    assert stale.spoken == ["A"] + ["B"];
    assert StaleFires(stale, Entry(s), env, [], []) == stale;
    assert StaleFires(s1, Entry(s), env, os[1..], envs[1..]) == stale;
    assert StaleSession(s, os, envs) == stale;
    var intended := FireStep(s1, Success("B"), quiet);
    assert intended.spoken == ["A"];
    assert Fires(intended, [], []) == intended;
    assert Fires(s1, os[1..], envs[1..]) == intended;
    assert Session(s, os, envs) == intended;
  }
}
