/**
 * The vision client of services/geminiService.ts: the target-language prompt,
 * the clean-up of the model's reply, the classification of thrown errors and
 * the lazily created client whose configuration error is sticky.
 *
 * The remote model call is not modelled: its reply (text, or a thrown error
 * message) is an input.
 */
module GeminiService {
  import opened Wrappers

  /** The three kinds of error recognizeSignLanguage lets escape. */
  datatype ServiceError =
    | ConfigurationError(message: string)  // the stored initError (a plain Error)
    | RateLimitError(message: string)      // class RateLimitError
    | UnexpectedError(message: string)     // the generic Error thrown for everything else

  const MissingKeyMessage: string :=
    "API Key is not configured. Please set the API_KEY environment variable."
  const QuotaMessage: string :=
    "You have exceeded your API quota. The app will pause and retry."
  const GenericMessage: string := "An unexpected API error occurred."

  const ModelName: string := "gemini-2.5-flash"
  const ImageMimeType: string := "image/jpeg"

  // ---------------------------------------------------------------------------
  // The prompt
  // ---------------------------------------------------------------------------

  /** The language-code table with its English fallback. */
  function LanguageName(code: string): (name: string)
    ensures name == "Hindi" <==> code == "hi"
    ensures name == "Marathi" <==> code == "mr"
    ensures name == "English" <==> code != "hi" && code != "mr"
  {
    if code == "en" then "English"
    else if code == "hi" then "Hindi"
    else if code == "mr" then "Marathi"
    else "English"
  }

  const PromptHead: string :=
    "You are an expert in American Sign Language (ASL). Identify the gesture in the image.\n"
    + "Respond with ONLY the name of the gesture in "
  const PromptTail: string :=
    ".\nThe response should be 1-3 words.\n"
    + "For example, if the gesture is \"Hello\" and the target language is Hindi, "
    + "you must only respond with \"नमस्ते\".\n"
    + "If there is no clear ASL gesture, return an empty string. Do not add any explanation."

  /** The instruction sent with every frame: a fixed template around the language name. */
  function Prompt(code: string): (p: string)
    ensures |p| == |PromptHead| + |LanguageName(code)| + |PromptTail|
    ensures p[..|PromptHead|] == PromptHead
    ensures p[|PromptHead|..|PromptHead| + |LanguageName(code)|] == LanguageName(code)
    ensures p[|PromptHead| + |LanguageName(code)|..] == PromptTail
  {
    PromptHead + LanguageName(code) + PromptTail
  }

  /** Two codes give the same prompt exactly when they name the same language. */
  lemma PromptDeterminesLanguage(a: string, b: string)
    ensures Prompt(a) == Prompt(b) <==> LanguageName(a) == LanguageName(b)
  {
    var k := |PromptHead|;
    if LanguageName(a) != LanguageName(b) && |Prompt(a)| == |Prompt(b)| {
      // The three names start with three different letters.
      assert Prompt(a)[k] == LanguageName(a)[0];
      assert Prompt(b)[k] == LanguageName(b)[0];
    }
  }

  // ---------------------------------------------------------------------------
  // Cleaning the reply: String.prototype.trim, then replace(/["*]/g, '')
  // ---------------------------------------------------------------------------

  /** The characters String.prototype.trim removes: ECMAScript white space and line terminators. */
  predicate IsSpace(c: char) {
    || c == '\t' || c == '\n' || c == '\U{000B}' || c == '\U{000C}' || c == '\r'
    || c == ' ' || c == '\U{00A0}' || c == '\U{1680}'
    || ('\U{2000}' <= c <= '\U{200A}')
    || c == '\U{2028}' || c == '\U{2029}' || c == '\U{202F}' || c == '\U{205F}'
    || c == '\U{3000}' || c == '\U{FEFF}'
  }

  ghost predicate AllSpace(s: string) {
    forall i :: 0 <= i < |s| ==> IsSpace(s[i])
  }

  /** The two characters the reply clean-up deletes. */
  predicate IsMark(c: char) {
    c == '"' || c == '*'
  }

  ghost predicate NoMarks(s: string) {
    forall i :: 0 <= i < |s| ==> !IsMark(s[i])
  }

  /** Drops leading white space (see TrimStartCutsSpace). */
  function TrimStart(s: string): (r: string)
    ensures |r| <= |s| && r == s[|s| - |r|..]
  {
    if s != [] && IsSpace(s[0]) then TrimStart(s[1..]) else s
  }

  /** Drops trailing white space (see TrimEndCutsSpace). */
  function TrimEnd(s: string): (r: string)
    ensures |r| <= |s| && r == s[..|r|]
  {
    if s != [] && IsSpace(s[|s| - 1]) then TrimEnd(s[..|s| - 1]) else s
  }

  /** String.prototype.trim (see TrimCutsSpace). */
  function Trim(s: string): (r: string)
    ensures |r| <= |s|
  {
    TrimEnd(TrimStart(s))
  }

  /** TrimStart leaves the longest suffix that does not start with white space. */
  lemma {:induction false} TrimStartCutsSpace(s: string)
    ensures AllSpace(s[..|s| - |TrimStart(s)|])
    ensures TrimStart(s) == [] || !IsSpace(TrimStart(s)[0])
    decreases |s|
  {
    if s != [] && IsSpace(s[0]) {
      var r := TrimStart(s[1..]);
      TrimStartCutsSpace(s[1..]);
      SpaceBefore(s, |s| - 1 - |r|);
    }
  }

  /** TrimEnd leaves the longest prefix that does not end with white space. */
  lemma {:induction false} TrimEndCutsSpace(s: string)
    ensures AllSpace(s[|TrimEnd(s)|..])
    ensures TrimEnd(s) == [] || !IsSpace(TrimEnd(s)[|TrimEnd(s)| - 1])
    decreases |s|
  {
    if s != [] && IsSpace(s[|s| - 1]) {
      var r := TrimEnd(s[..|s| - 1]);
      TrimEndCutsSpace(s[..|s| - 1]);
      SpaceAfter(s, |r|);
    }
  }

  lemma SpaceBefore(s: string, n: int)
    requires s != [] && IsSpace(s[0]) && 0 <= n <= |s| - 1 && AllSpace(s[1..][..n])
    ensures AllSpace(s[..n + 1])
  {
    assert s[..n + 1] == [s[0]] + s[1..][..n];
  }

  lemma SpaceAfter(s: string, n: int)
    requires s != [] && IsSpace(s[|s| - 1]) && 0 <= n <= |s| - 1 && AllSpace(s[..|s| - 1][n..])
    ensures AllSpace(s[n..])
  {
    assert s[n..] == s[..|s| - 1][n..] + [s[|s| - 1]];
  }

  /** `r` is `s` with the white-space-only prefix `s[..i]` and a white-space-only suffix cut away. */
  ghost predicate TrimmedAt(s: string, r: string, i: int) {
    && 0 <= i <= |s| - |r|
    && r == s[i..i + |r|]
    && AllSpace(s[..i])
    && AllSpace(s[i + |r|..])
  }

  /** Trim leaves no white space at either edge. */
  lemma TrimLeavesNoEdgeSpace(s: string)
    ensures Trim(s) == [] || (!IsSpace(Trim(s)[0]) && !IsSpace(Trim(s)[|Trim(s)| - 1]))
  {
    var t := TrimStart(s);
    var r := TrimEnd(t);
    TrimStartCutsSpace(s);
    TrimEndCutsSpace(t);
    if r != [] {
      assert r[0] == t[0];
    }
  }

  /** Trim cuts a white-space-only prefix and a white-space-only suffix, and nothing else. */
  lemma TrimCutsOnlySpace(s: string)
    ensures TrimmedAt(s, Trim(s), |s| - |TrimStart(s)|)
  {
    TrimStartCutsSpace(s);
    TrimEndCutsSpace(TrimStart(s));
    CutsCompose(s, TrimStart(s), Trim(s));
  }

  /** A space-only cut at the front followed by one at the back is a TrimmedAt cut. */
  lemma CutsCompose(s: string, t: string, r: string)
    requires |t| <= |s| && t == s[|s| - |t|..] && AllSpace(s[..|s| - |t|])
    requires |r| <= |t| && r == t[..|r|] && AllSpace(t[|r|..])
    ensures TrimmedAt(s, r, |s| - |t|)
  {
    var i := |s| - |t|;
    assert r == s[i..i + |r|];
    assert t[|r|..] == s[i + |r|..];
  }

  /** Deletes every '"' and '*', keeping every other character in order. */
  function StripMarks(s: string): (r: string)
    ensures |r| <= |s|
  {
    if s == [] then [] else (if IsMark(s[0]) then [] else [s[0]]) + StripMarks(s[1..])
  }

  /** No '"' or '*' is left, and a text without them comes back unchanged. */
  lemma {:induction false} StripMarksRemovesMarks(s: string)
    ensures NoMarks(StripMarks(s))
    ensures NoMarks(s) ==> StripMarks(s) == s
  {
    if s != [] {
      StripMarksRemovesMarks(s[1..]);
      assert s == [s[0]] + s[1..];
    }
  }

  /** Every character other than '"' and '*' survives, as often as it occurs. */
  lemma {:induction false} StripMarksKeepsOthers(s: string, c: char)
    requires !IsMark(c)
    ensures multiset(StripMarks(s))[c] == multiset(s)[c]
  {
    if s != [] {
      StripMarksKeepsOthers(s[1..], c);
      assert s == [s[0]] + s[1..];
      assert multiset(s) == multiset{s[0]} + multiset(s[1..]);
    }
  }

  /** Deleting marks commutes with concatenation, so the order of the kept characters is the input's. */
  lemma {:induction false} StripMarksConcat(a: string, b: string)
    ensures StripMarks(a + b) == StripMarks(a) + StripMarks(b)
  {
    if a == [] {
      assert a + b == b;
    } else {
      assert (a + b)[1..] == a[1..] + b;
      StripMarksConcat(a[1..], b);
    }
  }

  /** The text recognizeSignLanguage returns for a reply: trimmed, then stripped of '"' and '*'. */
  function Clean(raw: string): (text: string)
    ensures |text| <= |raw|
  {
    StripMarks(Trim(raw))
  }

  /** A cleaned reply holds no mark, and a reply without marks is only trimmed. */
  lemma CleanRemovesMarks(raw: string)
    ensures NoMarks(Clean(raw))
    ensures NoMarks(raw) ==> Clean(raw) == Trim(raw)
  {
    var t := Trim(raw);
    TrimCutsOnlySpace(raw);
    assert NoMarks(raw) ==> NoMarks(t);
    StripMarksRemovesMarks(t);
  }

  /** A quoted reply loses its quotes but keeps the space that was inside them. */
  lemma CleanQuotedReply()
    ensures Clean("\" a\"") == " a"
  {
    var q := "\" a\"";
    assert q == "\"" + " a" + "\"";
    assert !IsSpace(q[0]) && !IsSpace(q[3]);
    assert TrimStart(q) == q;
    assert TrimEnd(q) == q;
    assert Trim(q) == q;
    StripMarksConcat("\"" + " a", "\"");
    StripMarksConcat("\"", " a");
    assert StripMarks(q) == " a";
  }

  /** Cleaning twice is not cleaning once: stripping a mark can expose white space at an edge. */
  lemma CleanIsNotIdempotent()
    ensures Clean("\" a\"") == " a"
    ensures Clean(Clean("\" a\"")) == "a"
  {
    CleanQuotedReply();
    CleanSpacedReply();
  }

  lemma CleanSpacedReply()
    ensures Clean(" a") == "a"
  {
    TrimSpacedReply();
    StripPlainReply();
  }

  lemma TrimSpacedReply()
    ensures Trim(" a") == "a"
  {
    TrimStartSpacedReply();
    TrimEndPlainReply();
  }

  lemma TrimStartSpacedReply()
    ensures TrimStart(" a") == "a"
  {
    assert " a"[1..] == "a";
    assert !IsSpace('a');
    assert TrimStart("a") == "a";
  }

  lemma TrimEndPlainReply()
    ensures TrimEnd("a") == "a"
  {
    assert !IsSpace('a');
  }

  lemma StripPlainReply()
    ensures StripMarks("a") == "a"
  {
    assert "a"[1..] == [];
  }

  // ---------------------------------------------------------------------------
  // Classifying what the catch block receives
  // ---------------------------------------------------------------------------

  /** String.prototype.includes, as a specification. */
  ghost predicate HasSubstring(s: string, sub: string) {
    exists i :: OccursAt(s, sub, i)
  }

  ghost predicate OccursAt(s: string, sub: string, i: int) {
    0 <= i <= |s| - |sub| && s[i..i + |sub|] == sub
  }

  /** String.prototype.includes, as a left-to-right search. */
  function Contains(s: string, sub: string): bool
    decreases |s|
  {
    if |s| < |sub| then false
    else if s[..|sub|] == sub then true
    else Contains(s[1..], sub)
  }

  /** A match found by the search is an occurrence. */
  lemma {:induction false} ContainsIsSound(s: string, sub: string)
    requires Contains(s, sub)
    ensures HasSubstring(s, sub)
    decreases |s|
  {
    if s[..|sub|] == sub {
      assert OccursAt(s, sub, 0);
    } else {
      ContainsIsSound(s[1..], sub);
      var i :| OccursAt(s[1..], sub, i);
      assert s[1..][i..i + |sub|] == s[i + 1..i + 1 + |sub|];
      assert OccursAt(s, sub, i + 1);
    }
  }

  /** Every occurrence is found by the search. */
  lemma {:induction false} ContainsIsComplete(s: string, sub: string, i: int)
    requires OccursAt(s, sub, i)
    ensures Contains(s, sub)
    decreases i
  {
    if i > 0 && s[..|sub|] != sub {
      assert s[1..][i - 1..i - 1 + |sub|] == s[i..i + |sub|];
      ContainsIsComplete(s[1..], sub, i - 1);
    }
  }

  lemma ContainsIsSubstring(s: string, sub: string)
    ensures Contains(s, sub) <==> HasSubstring(s, sub)
  {
    if Contains(s, sub) {
      ContainsIsSound(s, sub);
    }
    if HasSubstring(s, sub) {
      var i :| OccursAt(s, sub, i);
      ContainsIsComplete(s, sub, i);
    }
  }

  /** The quota signal the catch block looks for in an error message. */
  ghost predicate SignalsQuota(message: string) {
    HasSubstring(message, "429") || HasSubstring(message, "RESOURCE_EXHAUSTED")
  }

  /** What reaches the catch block: the stored initError itself, or an error from the SDK call. */
  datatype Thrown =
    | StoredInitError(err: ServiceError)
    | SdkError(message: string)   // (error as Error).message || ''

  /** The catch block: rethrow the init error, turn quota errors into RateLimitError, hide the rest. */
  function Classify(t: Thrown): (e: ServiceError)
    ensures t.StoredInitError? ==> e == t.err
    ensures t.SdkError? ==> (e == RateLimitError(QuotaMessage) <==> SignalsQuota(t.message))
    ensures t.SdkError? ==> (e == UnexpectedError(GenericMessage) <==> !SignalsQuota(t.message))
  {
    match t
    case StoredInitError(err) => err
    case SdkError(m) =>
      ContainsIsSubstring(m, "429");
      ContainsIsSubstring(m, "RESOURCE_EXHAUSTED");
      if Contains(m, "429") || Contains(m, "RESOURCE_EXHAUSTED") then RateLimitError(QuotaMessage)
      else UnexpectedError(GenericMessage)
  }

  // ---------------------------------------------------------------------------
  // The lazily created client (module variables `ai` and `initError`)
  // ---------------------------------------------------------------------------

  /** The SDK client, an opaque token built from the key. */
  datatype Client = Client(apiKey: string)

  /** `process.env.API_KEY` is truthy: present and not the empty string. */
  predicate KeyConfigured(apiKey: Option<string>) {
    apiKey.Some? && apiKey.value != ""
  }

  datatype InitState = InitState(ai: Option<Client>, initError: Option<ServiceError>)

  const Unset := InitState(None, None)
  const MissingKey := ConfigurationError(MissingKeyMessage)

  /** One getAiInstance call: the new module state, its result, and whether a client was constructed. */
  datatype Acquired = Acquired(state: InitState, result: Result<Client, ServiceError>, built: bool)

  function Acquire(st: InitState, apiKey: Option<string>): Acquired {
    if st.initError.Some? then Acquired(st, Failure(st.initError.value), false)
    else if st.ai.Some? then Acquired(st, Success(st.ai.value), false)
    else if !KeyConfigured(apiKey) then Acquired(InitState(None, Some(MissingKey)), Failure(MissingKey), false)
    else Acquired(InitState(Some(Client(apiKey.value)), None), Success(Client(apiKey.value)), true)
  }

  /** The results of successive getAiInstance calls, one per key read from the environment. */
  function AcquireAll(st: InitState, keys: seq<Option<string>>): (rs: seq<Result<Client, ServiceError>>)
    ensures |rs| == |keys|
    decreases |keys|
  {
    if keys == [] then []
    else var a := Acquire(st, keys[0]); [a.result] + AcquireAll(a.state, keys[1..])
  }

  /** How many clients successive calls construct. */
  function BuiltCount(st: InitState, keys: seq<Option<string>>): nat
    decreases |keys|
  {
    if keys == [] then 0
    else var a := Acquire(st, keys[0]); (if a.built then 1 else 0) + BuiltCount(a.state, keys[1..])
  }

  /** Once initError is stored, every call rethrows it, whatever the environment now holds. */
  lemma {:induction false} StoredErrorIsSticky(e: ServiceError, keys: seq<Option<string>>, i: nat)
    requires i < |keys|
    ensures AcquireAll(InitState(None, Some(e)), keys)[i] == Failure(e)
    decreases |keys|
  {
    if i > 0 {
      StoredErrorIsSticky(e, keys[1..], i - 1);
    }
  }

  /** A missing key on the first call makes that call and every later one throw the same error. */
  lemma {:induction false} MissingKeyIsSticky(keys: seq<Option<string>>, i: nat)
    requires i < |keys| && !KeyConfigured(keys[0])
    ensures AcquireAll(Unset, keys)[i] == Failure(MissingKey)
  {
    var stored := InitState(None, Some(MissingKey));
    assert Acquire(Unset, keys[0]) == Acquired(stored, Failure(MissingKey), false);
    assert AcquireAll(Unset, keys) == [Failure(MissingKey)] + AcquireAll(stored, keys[1..]);
    if i > 0 {
      StoredErrorIsSticky(MissingKey, keys[1..], i - 1);
    }
  }

  /** Once a client exists, every call returns that same client. */
  lemma {:induction false} ClientIsReused(c: Client, keys: seq<Option<string>>, i: nat)
    requires i < |keys|
    ensures AcquireAll(InitState(Some(c), None), keys)[i] == Success(c)
    ensures BuiltCount(InitState(Some(c), None), keys) == 0
    decreases |keys|
  {
    if i > 0 {
      ClientIsReused(c, keys[1..], i - 1);
    } else if |keys| > 1 {
      ClientIsReused(c, keys[1..], 0);
    }
  }

  /** From the initial state, at most one client is ever constructed, and only from a configured key. */
  lemma {:induction false} AtMostOneClient(keys: seq<Option<string>>)
    ensures BuiltCount(Unset, keys) <= 1
    ensures BuiltCount(Unset, keys) == 1 <==> keys != [] && KeyConfigured(keys[0])
  {
    if keys != [] {
      var a := Acquire(Unset, keys[0]);
      if a.built {
        if |keys| > 1 { ClientIsReused(a.state.ai.value, keys[1..], 0); }
      } else {
        StoredErrorNeverBuilds(MissingKey, keys[1..]);
      }
    }
  }

  lemma {:induction false} StoredErrorNeverBuilds(e: ServiceError, keys: seq<Option<string>>)
    ensures BuiltCount(InitState(None, Some(e)), keys) == 0
    decreases |keys|
  {
    if keys != [] {
      StoredErrorNeverBuilds(e, keys[1..]);
    }
  }

  // ---------------------------------------------------------------------------
  // recognizeSignLanguage
  // ---------------------------------------------------------------------------

  /** What the SDK call does: reply with text, or throw an error with a message. */
  datatype Reply = Replied(text: string) | Threw(message: string)

  /** The request handed to the SDK: model, one image part, one prompt part. */
  datatype Request = Request(model: string, mimeType: string, image: string, prompt: string)

  /** The value recognizeSignLanguage returns or throws, given the client lookup and the SDK's reply. */
  function Answer(init: Result<Client, ServiceError>, reply: Reply): (r: Result<string, ServiceError>)
    ensures init.Failure? ==> r == Failure(init.error)
    ensures r.Success? ==> init.Success? && reply.Replied? && NoMarks(r.value) && |r.value| <= |reply.text|
    ensures init.Success? && reply.Replied? ==> r == Success(Clean(reply.text))
    ensures init.Success? && reply.Threw? ==>
              r == Failure(if SignalsQuota(reply.message) then RateLimitError(QuotaMessage) else UnexpectedError(GenericMessage))
  {
    match init
    case Failure(e) => Failure(Classify(StoredInitError(e)))
    case Success(_) =>
      match reply
      case Replied(text) => CleanRemovesMarks(text); Success(Clean(text))
      case Threw(m) => Failure(Classify(SdkError(m)))
  }

  /** The module-level state of services/geminiService.ts. */
  class ServiceState {
    var ai: Option<Client>
    var initError: Option<ServiceError>
    ghost var clientsBuilt: nat   // how many times `new GoogleGenAI` has run

    ghost predicate Valid()
      reads this
    {
      && clientsBuilt <= 1
      && (ai.Some? <==> clientsBuilt == 1)
      && !(ai.Some? && initError.Some?)
      && (initError.Some? ==> initError.value == MissingKey)
    }

    function Snapshot(): InitState
      reads this
    {
      InitState(ai, initError)
    }

    constructor ()
      ensures Valid() && Snapshot() == Unset && clientsBuilt == 0
    {
      ai, initError := None, None;
      clientsBuilt := 0;
    }

    /** getAiInstance: `apiKey` is process.env.API_KEY as read by this call. */
    method GetAiInstance(apiKey: Option<string>) returns (r: Result<Client, ServiceError>)
      requires Valid()
      modifies this
      ensures Valid()
      ensures Snapshot() == Acquire(old(Snapshot()), apiKey).state
      ensures r == Acquire(old(Snapshot()), apiKey).result
      ensures clientsBuilt == old(clientsBuilt) + (if Acquire(old(Snapshot()), apiKey).built then 1 else 0)
      ensures old(initError).Some? ==> r == Failure(old(initError).value) && unchanged(this)
      ensures old(ai).Some? ==> r == Success(old(ai).value) && unchanged(this)
    {
      if initError.Some? {
        return Failure(initError.value);
      }
      if ai.Some? {
        return Success(ai.value);
      }
      if !KeyConfigured(apiKey) {
        initError := Some(ConfigurationError(MissingKeyMessage));
        return Failure(initError.value);
      }
      ai := Some(Client(apiKey.value));
      clientsBuilt := clientsBuilt + 1;
      return Success(ai.value);
    }

    /**
     * recognizeSignLanguage(imageBase64, language): `apiKey` is the environment
     * as read by getAiInstance, `reply` what the SDK call does with `request`
     * (None when getAiInstance throws and no request is sent).
     */
    method RecognizeSignLanguage(image: string, language: string, apiKey: Option<string>, reply: Reply)
      returns (r: Result<string, ServiceError>, request: Option<Request>)
      requires Valid()
      modifies this
      ensures Valid()
      ensures Snapshot() == Acquire(old(Snapshot()), apiKey).state
      ensures request == (if Acquire(old(Snapshot()), apiKey).result.Success?
                          then Some(Request(ModelName, ImageMimeType, image, Prompt(language))) else None)
      ensures r == Answer(Acquire(old(Snapshot()), apiKey).result, reply)
    {
      var client := GetAiInstance(apiKey);
      if client.Failure? {
        // error === initError: rethrown unchanged
        return Failure(Classify(StoredInitError(client.error))), None;
      }
      request := Some(Request(ModelName, ImageMimeType, image, Prompt(language)));
      r := Answer(client, reply);
    }
  }
}
