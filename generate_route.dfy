/**
 * The `POST /api/generate` route handler: it validates the JSON request, checks
 * that the Gemini API key is configured, assembles the generation call (text part,
 * optional inline image part, generation parameters with their defaults), turns
 * what the SDK returns into an `output` string and maps every failure to a JSON
 * error with an HTTP status.
 *
 * The Gemini SDK is not modelled: `Post` receives it as a function from the call
 * the route makes to the outcome of that call.
 */
module GenerateRoute {
  import opened Wrappers

  /** A JSON number. The route passes numbers through and does no arithmetic on them. */
  type Number = real

  /**
   * The parsed request body. A field is `None` when it is absent; for `prompt`,
   * `image` and `mimeType` also when it holds a JSON value that is not a string.
   */
  datatype GenerateRequest = GenerateRequest(
    prompt: Option<string>,
    image: Option<string>,
    mimeType: Option<string>,
    model: Option<string>,
    temperature: Option<Number>,
    maxOutputTokens: Option<Number>,
    topP: Option<Number>,
    topK: Option<Number>)

  /** A value thrown in JavaScript: an `Error` with its message, or anything else. */
  datatype Thrown = ErrorValue(message: string) | OtherValue

  /** What `await req.json()` and the destructuring of its result give. */
  datatype RequestBody = Unreadable(thrown: Thrown) | Parsed(request: GenerateRequest)

  datatype Part = Text(text: string) | InlineData(data: string, mimeType: string)
  datatype Content = Content(role: string, parts: seq<Part>)
  datatype GenerationConfig = GenerationConfig(
    temperature: Number, maxOutputTokens: Number, topP: Number, topK: Number)

  /** Everything the route hands to the SDK: the key, the model name and the `generateContent` argument. */
  datatype SdkCall = SdkCall(apiKey: string, model: string, contents: seq<Content>, config: GenerationConfig)

  /** The `text` member of the SDK's response object: missing, returning a string, or throwing. */
  datatype TextAccessor = NoAccessor | Returns(text: string) | Throws
  /** A response object; `serialized` is what `JSON.stringify` makes of it. */
  datatype SdkResponse = SdkResponse(text: TextAccessor, serialized: string)
  /** The SDK either throws somewhere along the call, or resolves with a result whose `response` may be missing. */
  datatype SdkOutcome = Rejected(thrown: Thrown) | Resolved(response: Option<SdkResponse>)

  datatype Body = Output(output: string) | Error(error: string)
  datatype HttpResponse = HttpResponse(status: int, body: Body)

  const DefaultModel := "gemini-2.5-flash"
  const DefaultTemperature: Number := 0.2
  const DefaultMaxOutputTokens: Number := 1024.0
  const DefaultTopP: Number := 0.8
  const DefaultTopK: Number := 40.0
  const DefaultMimeType := "image/png"

  const PromptRequired := "Prompt wajib diisi"
  const KeyMissing := "GEMINI_API_KEY belum diset di .env.local"
  const GenericServerError := "Terjadi kesalahan pada server"

  const DataImage := "data:image/"
  const Base64Marker := ";base64,"

  /** `!prompt || typeof prompt !== "string"` is false: a non-empty string. */
  function PromptValid(prompt: Option<string>): (b: bool)
    ensures b <==> prompt.Some? && |prompt.value| >= 1
  {
    prompt.Some? && prompt.value != ""
  }

  /** A truthy `process.env.GEMINI_API_KEY`: set and non-empty. */
  function KeyPresent(apiKey: Option<string>): (b: bool)
    ensures b <==> apiKey.Some? && |apiKey.value| >= 1
  {
    apiKey.Some? && apiKey.value != ""
  }

  /** A character of the regular-expression class `\w`: an ASCII letter, digit or underscore. */
  predicate IsWordChar(c: char) {
    'a' <= c <= 'z' || 'A' <= c <= 'Z' || '0' <= c <= '9' || c == '_'
  }

  /** A string `\w+` matches entirely. */
  predicate IsWord(w: string) {
    |w| >= 1 && forall i :: 0 <= i < |w| ==> IsWordChar(w[i])
  }

  /** How many leading characters of `s` are word characters (the greedy `\w*`). */
  function WordRun(s: string): (n: nat)
    ensures n <= |s|
    ensures forall i :: 0 <= i < n ==> IsWordChar(s[i])
    ensures n < |s| ==> !IsWordChar(s[n])
  {
    if s != [] && IsWordChar(s[0]) then 1 + WordRun(s[1..]) else 0
  }

  /** The length of the match of `^data:image\/\w+;base64,` in `s`, or 0 when it does not match. */
  function DataUriPrefixLength(s: string): (k: nat)
    ensures k != 0 ==> |DataImage| + 1 + |Base64Marker| <= k <= |s|
    ensures k != 0 ==> s[..|DataImage|] == DataImage && IsWord(s[|DataImage|..k - |Base64Marker|])
                       && s[k - |Base64Marker|..k] == Base64Marker
  {
    if |s| >= |DataImage| && s[..|DataImage|] == DataImage then
      var n := WordRun(s[|DataImage|..]);
      var end := |DataImage| + n + |Base64Marker|;
      if n >= 1 && end <= |s| && s[|DataImage| + n..end] == Base64Marker then end else 0
    else 0
  }

  /**
   * `image.replace(/^data:image\/\w+;base64,/, "")`: either nothing is removed, or
   * what is removed is `data:image/`, a word and `;base64,`.
   */
  function StripDataUriPrefix(s: string): (r: string)
    ensures r == s || exists w :: IsWord(w) && s == DataImage + w + Base64Marker + r
  {
    var k := DataUriPrefixLength(s);
    if k == 0 then s
    else
      var n := k - |DataImage| - |Base64Marker|;
      var w := s[|DataImage|..|DataImage| + n];
      assert IsWord(w);
      assert s == DataImage + w + Base64Marker + s[k..];
      s[k..]
  }

  /** The greedy word run stops at the first character that is not a word character. */
  lemma {:induction false} WordRunOfWord(w: string, rest: string)
    requires forall i :: 0 <= i < |w| ==> IsWordChar(w[i])
    requires rest != [] && !IsWordChar(rest[0])
    ensures WordRun(w + rest) == |w|
  {
    if w == [] {
      assert w + rest == rest;
    } else {
      assert (w + rest)[1..] == w[1..] + rest;
      WordRunOfWord(w[1..], rest);
    }
  }

  /** Every data-URI header is stripped, exactly, and what follows it is sent untouched. */
  lemma StripDataUriPrefixRoundTrip(w: string, payload: string)
    requires IsWord(w)
    ensures StripDataUriPrefix(DataImage + w + Base64Marker + payload) == payload
  {
    var s := DataImage + w + Base64Marker + payload;
    assert s[..|DataImage|] == DataImage;
    assert s[|DataImage|..] == w + (Base64Marker + payload);
    WordRunOfWord(w, Base64Marker + payload);
    assert s[|DataImage| + |w|..|DataImage| + |w| + |Base64Marker|] == Base64Marker;
    assert s[|DataImage| + |w| + |Base64Marker|..] == payload;
  }

  /** A string that does not start with `data:image/` is sent as it is. */
  lemma StripKeepsUnprefixed(s: string)
    requires !(DataImage <= s)
    ensures StripDataUriPrefix(s) == s
  {
  }

  /** `mimeType || "image/png"`. */
  function MimeTypeOrDefault(mimeType: Option<string>): (m: string)
    ensures m != ""
    ensures mimeType.Some? && mimeType.value != "" ==> m == mimeType.value
    ensures mimeType.None? || mimeType.value == "" ==> m == DefaultMimeType
  {
    if mimeType.Some? && mimeType.value != "" then mimeType.value else DefaultMimeType
  }

  /**
   * The `inputs` array: the prompt as a text part, then one inline-data part exactly
   * when `image` is a non-empty string, carrying the image without its data-URI header.
   */
  function BuildParts(prompt: string, image: Option<string>, mimeType: Option<string>): (parts: seq<Part>)
    ensures 1 <= |parts| <= 2
    ensures parts[0] == Text(prompt)
    ensures |parts| == 2 <==> image.Some? && image.value != ""
    ensures |parts| == 2 ==> parts[1] == InlineData(StripDataUriPrefix(image.value), MimeTypeOrDefault(mimeType))
  {
    var inputs := [Text(prompt)];
    if image.Some? && image.value != "" then
      inputs + [InlineData(StripDataUriPrefix(image.value), MimeTypeOrDefault(mimeType))]
    else inputs
  }

  /**
   * The call the route makes for a valid request: the key, the model (defaulted), a single
   * user turn holding the parts, and the generation parameters, each defaulted when absent.
   */
  function BuildCall(request: GenerateRequest, apiKey: string): (call: SdkCall)
    requires PromptValid(request.prompt)
    ensures call.apiKey == apiKey
    ensures call.contents == [Content("user", BuildParts(request.prompt.value, request.image, request.mimeType))]
    ensures call.model == if request.model.Some? then request.model.value else DefaultModel
    ensures call.config.temperature == if request.temperature.Some? then request.temperature.value else DefaultTemperature
    ensures call.config.maxOutputTokens == if request.maxOutputTokens.Some? then request.maxOutputTokens.value else DefaultMaxOutputTokens
    ensures call.config.topP == if request.topP.Some? then request.topP.value else DefaultTopP
    ensures call.config.topK == if request.topK.Some? then request.topK.value else DefaultTopK
  {
    SdkCall(
      apiKey,
      request.model.GetOr(DefaultModel),
      [Content("user", BuildParts(request.prompt.value, request.image, request.mimeType))],
      GenerationConfig(
        request.temperature.GetOr(DefaultTemperature),
        request.maxOutputTokens.GetOr(DefaultMaxOutputTokens),
        request.topP.GetOr(DefaultTopP),
        request.topK.GetOr(DefaultTopK)))
  }

  /**
   * The `output` string: "" without a response object; otherwise what the text accessor
   * returns, or the serialised response when the accessor is missing or throws.
   */
  function ExtractOutput(response: Option<SdkResponse>): (output: string)
    ensures response.None? ==> output == ""
    ensures response.Some? && response.value.text.Returns? ==> output == response.value.text.text
    ensures response.Some? && !response.value.text.Returns? ==> output == response.value.serialized
  {
    var output := "";
    if response.None? then output
    else
      match response.value.text
      case Returns(text) => text
      case NoAccessor => response.value.serialized
      case Throws => response.value.serialized
  }

  /** The `catch` block's message: an `Error`'s own message, a fixed text for anything else. */
  function ErrorMessage(thrown: Thrown): (message: string)
    ensures thrown.ErrorValue? ==> message == thrown.message
    ensures thrown.OtherValue? ==> message == GenericServerError
  {
    match thrown
    case ErrorValue(m) => m
    case OtherValue => GenericServerError
  }

  /**
   * The whole handler, from the request body, the `GEMINI_API_KEY` environment variable
   * and the SDK's behaviour to the JSON response and its status.
   */
  function Post(body: RequestBody, apiKey: Option<string>, sdk: SdkCall -> SdkOutcome): (r: HttpResponse)
    ensures r.status == 200 || r.status == 400 || r.status == 500
    ensures r.status == 200 <==> r.body.Output?
    ensures r.status == 400 <==> body.Parsed? && !PromptValid(body.request.prompt)
    ensures body.Unreadable? ==> r == HttpResponse(500, Error(ErrorMessage(body.thrown)))
    ensures body.Parsed? && !PromptValid(body.request.prompt) ==> r.body == Error(PromptRequired)
    ensures body.Parsed? && PromptValid(body.request.prompt) && !KeyPresent(apiKey) ==>
              r == HttpResponse(500, Error(KeyMissing))
    ensures body.Parsed? && PromptValid(body.request.prompt) && KeyPresent(apiKey) ==>
              match sdk(BuildCall(body.request, apiKey.value))
              case Rejected(thrown) => r == HttpResponse(500, Error(ErrorMessage(thrown)))
              case Resolved(response) => r == HttpResponse(200, Output(ExtractOutput(response)))
  {
    match body
    case Unreadable(thrown) => HttpResponse(500, Error(ErrorMessage(thrown)))
    case Parsed(request) =>
      if !PromptValid(request.prompt) then HttpResponse(400, Error(PromptRequired))
      else if !KeyPresent(apiKey) then HttpResponse(500, Error(KeyMissing))
      else
        match sdk(BuildCall(request, apiKey.value))
        case Rejected(thrown) => HttpResponse(500, Error(ErrorMessage(thrown)))
        case Resolved(response) => HttpResponse(200, Output(ExtractOutput(response)))
  }

  /** The prompt is checked before the key: an invalid prompt gets 400 whatever the environment and the SDK. */
  lemma InvalidPromptIgnoresKeyAndSdk(
    request: GenerateRequest, key1: Option<string>, key2: Option<string>,
    sdk1: SdkCall -> SdkOutcome, sdk2: SdkCall -> SdkOutcome)
    requires !PromptValid(request.prompt)
    ensures Post(Parsed(request), key1, sdk1) == Post(Parsed(request), key2, sdk2)
              == HttpResponse(400, Error(PromptRequired))
  {
  }

  /** A request whose parameters are all absent is sent with the documented defaults. */
  lemma DefaultsApplied(prompt: string, image: Option<string>, mimeType: Option<string>, apiKey: string)
    requires prompt != ""
    ensures var call := BuildCall(GenerateRequest(Some(prompt), image, mimeType, None, None, None, None, None), apiKey);
            call.model == "gemini-2.5-flash"
            && call.config == GenerationConfig(0.2, 1024.0, 0.8, 40.0)
  {
  }
}
