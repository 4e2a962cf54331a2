/**
 * The three outside collaborators of the pin analysis, reduced to the
 * replies the recorder screen distinguishes, and the two clients built on
 * them: `callWhisper` (speech to text) and `callO3MiniWithFallback`
 * (grammar correction with one fallback model).
 */
module Correction {
  import opened Wrappers
  import opened Text

  /**
   * Outcome of the ffmpeg trim of one clip: success, an unsuccessful return
   * code, or a rejected `FFmpegKit.execute` or `getReturnCode` with its message.
   */
  datatype TrimReply = TrimOk | TrimFailed(returnCode: string) | TrimRejected(message: string)

  /** Reply of the `/whisper` route: a non-2xx status with its body, a rejected fetch, or a JSON body. */
  datatype WhisperReply =
    | WhisperNotOk(body: string)
    | WhisperRejected(message: string)
    | WhisperOk(text: Option<string>)

  /** The part of a chat completion the screen reads: `choices[0].message.content`. */
  datatype Choice =
    | NoMessage                        // `choices`, its first entry or its `message` is missing
    | Message(content: Option<string>) // a message, with or without a `content` string

  /** Reply of the `/chat` route. */
  datatype ChatReply =
    | ChatNotOk(body: string)
    | ChatRejected(message: string)
    | ChatOk(choice: Choice)

  /** One outgoing request, as the pipeline issues it. */
  datatype Call =
    | TrimCall(input: string, output: string, start: int, duration: int)
    | WhisperCall(clip: string)
    | ChatCall(model: string, prompt: string)

  /**
   * The outside world for one analysis run: a reply for every request.
   * Each is a function of the request, so a repeated request gets the same reply.
   */
  datatype Env = Env(
    trim: (string, string, int, int) -> TrimReply,
    whisper: string -> WhisperReply,
    chat: (string, string) -> ChatReply)

  /** A result together with the requests issued to obtain it, in order. */
  datatype Traced<T> = Traced(result: Result<T, string>, calls: seq<Call>)

  const PrimaryModel := "o3-mini-2025-01-31"
  const FallbackModel := "gpt-4"
  const ModelNotFound := "model_not_found"
  const NoCorrection := "No correction"
  const NoSuggestion := "(No Suggestion)"
  const SilencePlaceholder := "- - -"

  /**
   * Message of the TypeError raised by `.trim()` on a message without
   * content. Its wording depends on the JavaScript engine; what matters is
   * that it does not mention a missing model.
   */
  const MissingContentError := "Cannot read property 'trim' of undefined"

  /** The fixed prompt sent with a transcript. */
  function Prompt(stt: string): string
  {
    "Output a grammatically correct version of \n" + stt + "\n or output \"No correction\";"
  }

  /** `data.choices?.[0]?.message?.content.trim() || '(No Suggestion)'`. */
  function Suggestion(choice: Choice): (r: Result<string, string>)
    ensures r.Ok? ==> r.value != []
    ensures r.Err? <==> choice == Message(None)
    ensures r.Err? ==> r.error == MissingContentError
    ensures choice == NoMessage ==> r == Ok(NoSuggestion)
    ensures choice.Message? && choice.content.Some? && Trim(choice.content.value) != [] ==>
      r == Ok(Trim(choice.content.value))
    ensures choice.Message? && choice.content.Some? && Trim(choice.content.value) == [] ==>
      r == Ok(NoSuggestion)
  {
    match choice
    case NoMessage => Ok(NoSuggestion)
    case Message(None) => Err(MissingContentError)
    case Message(Some(c)) => var t := Trim(c); if t == [] then Ok(NoSuggestion) else Ok(t)
  }

  /** Result of the first chat request, as seen inside the `try` block. */
  function PrimaryAttempt(reply: ChatReply): Result<string, string>
  {
    match reply
    case ChatNotOk(body) => Err(body)
    case ChatRejected(msg) => Err(msg)
    case ChatOk(choice) => Suggestion(choice)
  }

  /** Result of the fallback request, which is outside any `try`. */
  function FallbackAttempt(reply: ChatReply): Result<string, string>
  {
    match reply
    case ChatNotOk(body) => Err("Fallback Error: " + body)
    case ChatRejected(msg) => Err(msg)
    case ChatOk(choice) => Suggestion(choice)
  }

  /**
   * `callO3MiniWithFallback(stt)`: no request for a transcript holding the
   * silence marker `$`; otherwise the primary model, and the fallback model
   * only when the primary error mentions a missing model.
   */
  function Correct(env: Env, stt: string): (t: Traced<string>)
    ensures '$' in stt ==> t == Traced(Ok(NoCorrection), [])
    ensures '$' !in stt ==> 1 <= |t.calls| <= 2 && t.calls[0] == ChatCall(PrimaryModel, Prompt(stt))
    ensures |t.calls| == 2 <==>
      '$' !in stt && PrimaryAttempt(env.chat(PrimaryModel, Prompt(stt))).Err? &&
      ContainsIgnoreCase(PrimaryAttempt(env.chat(PrimaryModel, Prompt(stt))).error, ModelNotFound)
    ensures |t.calls| == 2 ==> t.calls[1] == ChatCall(FallbackModel, Prompt(stt))
    ensures |t.calls| == 2 ==> t.result == FallbackAttempt(env.chat(FallbackModel, Prompt(stt)))
    ensures |t.calls| == 1 ==> t.result == PrimaryAttempt(env.chat(PrimaryModel, Prompt(stt)))
    ensures t.result.Ok? ==> t.result.value != []
    ensures forall c :: c in t.calls ==> c.ChatCall?
  {
    if '$' in stt then Traced(Ok(NoCorrection), [])
    else
      var prompt := Prompt(stt);
      var first := PrimaryAttempt(env.chat(PrimaryModel, prompt));
      if first.Ok? then Traced(first, [ChatCall(PrimaryModel, prompt)])
      else if ContainsIgnoreCase(first.error, ModelNotFound) then
        Traced(FallbackAttempt(env.chat(FallbackModel, prompt)),
               [ChatCall(PrimaryModel, prompt), ChatCall(FallbackModel, prompt)])
      else Traced(first, [ChatCall(PrimaryModel, prompt)])
  }

  /** An error from the primary model that does not name a missing model is passed on unchanged. */
  lemma OtherErrorsRethrown(env: Env, stt: string)
    requires '$' !in stt
    requires var first := PrimaryAttempt(env.chat(PrimaryModel, Prompt(stt)));
      first.Err? && !ContainsIgnoreCase(first.error, ModelNotFound)
    ensures Correct(env, stt) ==
      Traced(PrimaryAttempt(env.chat(PrimaryModel, Prompt(stt))), [ChatCall(PrimaryModel, Prompt(stt))])
  {
  }

  /** A failed fallback request reports `Fallback Error: <body>` and no third request is made. */
  lemma FallbackFailureReported(env: Env, stt: string, body: string)
    requires '$' !in stt
    requires env.chat(PrimaryModel, Prompt(stt)).ChatNotOk?
    requires ContainsIgnoreCase(env.chat(PrimaryModel, Prompt(stt)).body, ModelNotFound)
    requires env.chat(FallbackModel, Prompt(stt)) == ChatNotOk(body)
    ensures Correct(env, stt).result == Err("Fallback Error: " + body)
    ensures |Correct(env, stt).calls| == 2
  {
  }

  /**
   * Any primary error in which `model_not_found` occurs, at any position and
   * in any mix of ASCII letter cases, leads to exactly one fallback request,
   * whose outcome is the result.
   */
  lemma AnyCasingTriggersFallback(env: Env, stt: string, k: int)
    requires '$' !in stt
    requires PrimaryAttempt(env.chat(PrimaryModel, Prompt(stt))).Err?
    requires InfixAt(ModelNotFound, LowerAll(PrimaryAttempt(env.chat(PrimaryModel, Prompt(stt))).error), k)
    ensures Correct(env, stt) ==
      Traced(FallbackAttempt(env.chat(FallbackModel, Prompt(stt))),
             [ChatCall(PrimaryModel, Prompt(stt)), ChatCall(FallbackModel, Prompt(stt))])
  {
    var e := PrimaryAttempt(env.chat(PrimaryModel, Prompt(stt))).error;
    assert LowerAll(ModelNotFound) == ModelNotFound;
    MatchAtLowered(e, ModelNotFound, k);
  }

  /** A body saying `Model_Not_Found` (any letter case) triggers the fallback. */
  lemma MixedCaseTriggersFallback(env: Env, stt: string)
    requires '$' !in stt
    requires env.chat(PrimaryModel, Prompt(stt)) == ChatNotOk("{\"code\":\"Model_Not_Found\"}")
    ensures |Correct(env, stt).calls| == 2
  {
    MixedCaseMatches();
  }

  /** The case-insensitive test finds `model_not_found` in a body spelling it `Model_Not_Found`. */
  lemma MixedCaseMatches()
    ensures ContainsIgnoreCase("{\"code\":\"Model_Not_Found\"}", ModelNotFound)
  {
    assert MatchAt("{\"code\":\"Model_Not_Found\"}", ModelNotFound, 9);
  }

  /** A completion without content raises a TypeError, which never leads to the fallback. */
  lemma MissingContentIsNotFallback(env: Env, stt: string)
    requires '$' !in stt
    requires env.chat(PrimaryModel, Prompt(stt)) == ChatOk(Message(None))
    ensures Correct(env, stt) == Traced(Err(MissingContentError), [ChatCall(PrimaryModel, Prompt(stt))])
  {
    NoUnderscoreNoMatch(MissingContentError);
  }

  /** `model_not_found` cannot occur, in any letter case, in a text without an underscore. */
  lemma NoUnderscoreNoMatch(s: string)
    requires '_' !in s
    ensures !ContainsIgnoreCase(s, ModelNotFound)
  {
    forall i ensures !MatchAt(s, ModelNotFound, i) {
      if 0 <= i && i + |ModelNotFound| <= |s| {
        assert AsciiLower(s[i + 5]) != AsciiLower(ModelNotFound[5]);
      }
    }
  }

  /**
   * `callWhisper(clip, 'en')`: a non-ok status becomes `Whisper Error: <body>`,
   * a missing or empty `text` becomes the `- - -` placeholder.
   */
  function Transcribe(env: Env, clip: string): (t: Traced<string>)
    ensures t.calls == [WhisperCall(clip)]
    ensures t.result.Ok? ==> t.result.value != []
    ensures env.whisper(clip).WhisperNotOk? ==> t.result == Err("Whisper Error: " + env.whisper(clip).body)
    ensures env.whisper(clip).WhisperRejected? ==> t.result == Err(env.whisper(clip).message)
    ensures env.whisper(clip).WhisperOk? <==> t.result.Ok?
    ensures env.whisper(clip) == WhisperOk(None) || env.whisper(clip) == WhisperOk(Some([])) ==>
      t.result == Ok(SilencePlaceholder)
    ensures env.whisper(clip).WhisperOk? && env.whisper(clip).text.Some? && env.whisper(clip).text.value != [] ==>
      t.result == Ok(env.whisper(clip).text.value)
  {
    var r := match env.whisper(clip)
      case WhisperNotOk(body) => Err("Whisper Error: " + body)
      case WhisperRejected(msg) => Err(msg)
      case WhisperOk(text) =>
        if text.None? || text.value == [] then Ok(SilencePlaceholder) else Ok(text.value);
    Traced(r, [WhisperCall(clip)])
  }

  /** The placeholder for a missing transcript has no `$`, so it still goes to the chat model. */
  lemma MissingTranscriptStillCorrected(env: Env, clip: string)
    requires env.whisper(clip) == WhisperOk(None)
    ensures Transcribe(env, clip).result == Ok(SilencePlaceholder)
    ensures |Correct(env, SilencePlaceholder).calls| >= 1
  {
    assert '$' !in SilencePlaceholder;
  }

  /**
   * `trimAudio`: a failing return code becomes `ffmpeg trim failed: <code>`;
   * a rejected ffmpeg call passes its own error on.
   */
  function TrimAudio(env: Env, input: string, output: string, start: int, duration: int): (t: Traced<()>)
    ensures t.calls == [TrimCall(input, output, start, duration)]
    ensures t.result.Ok? <==> env.trim(input, output, start, duration) == TrimOk
    ensures env.trim(input, output, start, duration).TrimFailed? ==>
      t.result == Err("ffmpeg trim failed: " + env.trim(input, output, start, duration).returnCode)
    ensures env.trim(input, output, start, duration).TrimRejected? ==>
      t.result == Err(env.trim(input, output, start, duration).message)
  {
    var r := match env.trim(input, output, start, duration)
      case TrimOk => Ok(())
      case TrimFailed(code) => Err("ffmpeg trim failed: " + code)
      case TrimRejected(msg) => Err(msg);
    Traced(r, [TrimCall(input, output, start, duration)])
  }
}
