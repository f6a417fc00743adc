/** Assembly of the "start conversation" payload by the invite handler
    (convoai/convoai_handler_invite.go), up to the point where it is sent. */
module InviteHandler {
  import opened Wrappers
  import opened ConvoAITypes
  import opened GoStrings
  import opened ConvoAIUtils

  // ---------------------------------------------------------------------------------------------
  // Fixed tuning of the agent

  const SystemRole := "system"
  const SystemPrompt := "You are a helpful assistant. Pretend that the text input is audio, and you are responding to it. Speak fast, clearly, and concisely."
  const GreetingMessage := "Hello! How can I assist you today?"
  const FailureMessage := "Please wait a moment."
  const IdleTimeout := 30
  const AsrLanguage := "en-US"
  const AsrTask := "conversation"
  const MaxHistory := 10
  const MaxTokens := 1024
  /** Temperature, top-p and the VAD threshold are float64 constants in the source. */
  const Temperature := 0.7
  const TopP := 0.95
  const DefaultVAD := VAD(480, 15000, 0.5, 160, 300)
  const DefaultFeatures := Features(false, false)

  /** Why the payload could not be built; `Message` is the error text of the source. */
  datatype InviteError = TokenGenerationFailed(cause: string) | TTSConfigFailed(reason: TTSError) {
    function Message(): string {
      match this
      case TokenGenerationFailed(cause) => "failed to generate token: " + cause
      case TTSConfigFailed(reason) => "failed to get TTS config: " + reason.Message()
    }
  }

  // ---------------------------------------------------------------------------------------------
  // Pieces of the payload

  /** The token the agent joins with: an RTC publisher token for the requested channel and the
      wildcard UID "0". */
  function TokenRequestFor(req: InviteAgentRequest): (t: TokenRequest)
    ensures t.channel == req.channelName
    ensures t.tokenType == "rtc" && t.uid == "0" && t.rtcRole == "publisher"
  {
    TokenRequest("rtc", req.channelName, "0", "publisher")
  }

  /** The users the agent listens to: exactly the requester, whatever its UID, "0" included. */
  function GetRemoteRtcUIDs(requesterId: string): (r: seq<string>)
    ensures |r| == 1 && r[0] == requesterId
  {
    [requesterId]
  }

  /** The requested modalities, or the default when none was requested. */
  function EffectiveModalities(requested: seq<string>, fallback: seq<string>): (r: seq<string>)
    ensures requested != [] ==> r == requested
    ensures requested == [] ==> r == fallback
    ensures fallback != [] ==> r != []
  {
    if |requested| == 0 then fallback else requested
  }

  const DefaultInputModalities := ["text"]
  const DefaultOutputModalities := ["text", "audio"]

  // ---------------------------------------------------------------------------------------------
  // randomString

  const Letters := "abcdefghijklmnopqrstuvwxyz"

  /** The letters `randomString` produces from the random bytes `rng(0), rng(1), ...`: the
      letter at position `i` is chosen by byte `i` modulo the alphabet size. */
  function RandomLetters(n: nat, rng: nat -> byte): (s: string)
    ensures |s| == n
  {
    seq(n, i requires 0 <= i => Letters[rng(i) as int % |Letters|])
  }

  /** Every letter is a lower-case ASCII letter. */
  lemma RandomLettersAreLowercase(n: nat, rng: nat -> byte)
    ensures forall i | 0 <= i < n :: 'a' <= RandomLetters(n, rng)[i] <= 'z'
  {
    forall i | 0 <= i < n ensures 'a' <= RandomLetters(n, rng)[i] <= 'z' {
      LetterIsLowercase(rng(i) as int % |Letters|);
    }
  }

  lemma LetterIsLowercase(j: int)
    requires 0 <= j < |Letters|
    ensures 'a' <= Letters[j] <= 'z'
    ensures Letters[j] as int == 'a' as int + j
  {
  }

  /** Fills a fresh buffer with random bytes (`rand.Read`, whose error the source ignores), then
      rewrites every byte in place as the letter it selects, and returns the buffer as a string. */
  method RandomString(n: nat, rng: nat -> byte) returns (s: string)
    ensures s == RandomLetters(n, rng)
  {
    var b := new byte[n](i => rng(i));
    for i := 0 to n
      invariant forall k | 0 <= k < i :: b[k] as int == Letters[rng(k) as int % |Letters|] as int
      invariant forall k | i <= k < n :: b[k] == rng(k)
    {
      var j := b[i] as int % |Letters|;
      LetterIsLowercase(j);
      b[i] := Letters[j] as int as byte;
    }
    s := seq(n, k requires 0 <= k < n reads b => b[k] as int as char);
  }

  /** The session name: the clock in nanoseconds and a random suffix. */
  function SessionName(nanos: int, suffix: string): (name: string)
    ensures |name| == 7 + |FormatInt(nanos)| + |suffix| && name[..6] == "agent-"
  {
    "agent-" + FormatInt(nanos) + "-" + suffix
  }

  /** The clock reading can be recovered from the name: the text between "agent-" and the next
      '-' after the sign is the decimal timestamp. */
  lemma SessionNameTimestamp(nanos: int, suffix: string)
    ensures var name := SessionName(nanos, suffix);
      var digits := FormatInt(nanos);
      && name == "agent-" + digits + "-" + suffix
      && ParseInt(name[6..6 + |digits|]) == nanos
      && name[6 + |digits|] == '-'
      && name[7 + |digits|..] == suffix
  {
    var digits := FormatInt(nanos);
    var name := SessionName(nanos, suffix);
    assert name[6..6 + |digits|] == digits;
    FormatIntRoundTrip(nanos);
  }

  // ---------------------------------------------------------------------------------------------
  // HandleInviteAgent, before the HTTP call

  /** The payload built from the configuration, the request, the issued token, the resolved
      vendor settings and the session name. */
  function StartRequest(config: ConvoAIConfig, req: InviteAgentRequest, token: string, tts: TTSConfig,
                        name: string): (r: AgoraStartRequest)
    ensures r.properties.remoteRtcUids == [req.requesterId]
    ensures r.properties.enableStringUid <==> exists i | 0 <= i < |req.requesterId| :: !IsDigit(req.requesterId[i])
    ensures r.properties.llm.inputModalities != [] && r.properties.llm.outputModalities != []
  {
    AgoraStartRequest(
      name,
      Properties(
        req.channelName,
        token,
        config.agentUid,
        GetRemoteRtcUIDs(req.requesterId),
        IsStringUID(req.requesterId),
        IdleTimeout,
        ASR(AsrLanguage, AsrTask),
        LLM(
          config.llmUrl,
          config.llmToken,
          [SystemMessage(SystemRole, SystemPrompt)],
          GreetingMessage,
          FailureMessage,
          MaxHistory,
          LLMParams(config.llmModel, MaxTokens, Temperature, TopP),
          EffectiveModalities(req.inputModalities, DefaultInputModalities),
          EffectiveModalities(req.outputModalities, DefaultOutputModalities)),
        tts,
        DefaultVAD,
        DefaultFeatures))
  }

  /** Asks for the token first and stops when it is refused, then resolves the vendor settings and
      stops when they do not resolve, then assembles the payload. `genToken` stands for the token
      service, `parseFloat` for `strconv.ParseFloat`. */
  function BuildStartRequest(config: ConvoAIConfig, req: InviteAgentRequest,
                             genToken: TokenRequest -> Result<string, string>,
                             parseFloat: string -> Result<real, string>,
                             name: string): (r: Result<AgoraStartRequest, InviteError>)
    ensures genToken(TokenRequestFor(req)).Failure? ==>
      r == Failure(TokenGenerationFailed(genToken(TokenRequestFor(req)).error))
    ensures genToken(TokenRequestFor(req)).Success? && GetTTSConfig(config, parseFloat).Failure? ==>
      r == Failure(TTSConfigFailed(GetTTSConfig(config, parseFloat).error))
    ensures r.Success? <==> genToken(TokenRequestFor(req)).Success? && GetTTSConfig(config, parseFloat).Success?
  {
    match genToken(TokenRequestFor(req))
    case Failure(e) => Failure(TokenGenerationFailed(e))
    case Success(token) =>
      match GetTTSConfig(config, parseFloat)
      case Failure(e) => Failure(TTSConfigFailed(e))
      case Success(tts) => Success(StartRequest(config, req, token, tts, name))
  }

  /** The handler's payload step: token, vendor settings, then the session name from the clock
      and six random letters. */
  method HandleInviteAgent(config: ConvoAIConfig, req: InviteAgentRequest,
                           genToken: TokenRequest -> Result<string, string>,
                           parseFloat: string -> Result<real, string>,
                           nanos: int, rng: nat -> byte)
    returns (r: Result<AgoraStartRequest, InviteError>)
    ensures r == BuildStartRequest(config, req, genToken, parseFloat, SessionName(nanos, RandomLetters(6, rng)))
  {
    var tokenResult := genToken(TokenRequestFor(req));
    if tokenResult.Failure? {
      return Failure(TokenGenerationFailed(tokenResult.error));
    }
    var ttsResult := GetTTSConfig(config, parseFloat);
    if ttsResult.Failure? {
      return Failure(TTSConfigFailed(ttsResult.error));
    }
    var suffix := RandomString(6, rng);
    var name := SessionName(nanos, suffix);
    r := Success(StartRequest(config, req, tokenResult.value, ttsResult.value, name));
  }

  // ---------------------------------------------------------------------------------------------
  // Properties of the payload

  /** The outcome depends on the token service only through its answer to `TokenRequestFor(req)`:
      two issuers that agree on that request give the same outcome. */
  lemma OnlyTheAgentTokenIsRequested(config: ConvoAIConfig, req: InviteAgentRequest,
                                     g1: TokenRequest -> Result<string, string>,
                                     g2: TokenRequest -> Result<string, string>,
                                     parseFloat: string -> Result<real, string>, name: string)
    requires g1(TokenRequestFor(req)) == g2(TokenRequestFor(req))
    ensures BuildStartRequest(config, req, g1, parseFloat, name) == BuildStartRequest(config, req, g2, parseFloat, name)
  {
  }

  /** A refused token hides every vendor-settings problem: the vendor block is not consulted. */
  lemma TokenFailureShadowsTTS(c1: ConvoAIConfig, c2: ConvoAIConfig, req: InviteAgentRequest,
                               genToken: TokenRequest -> Result<string, string>,
                               parseFloat: string -> Result<real, string>, name: string)
    requires genToken(TokenRequestFor(req)).Failure?
    ensures BuildStartRequest(c1, req, genToken, parseFloat, name) == BuildStartRequest(c2, req, genToken, parseFloat, name)
  {
  }

  /** What a built payload carries: the request's channel, the issued token, the configured agent
      UID, LLM endpoint, key and model, the requester as the only remote user with its
      string-UID flag, the resolved vendor settings, and the session name. */
  lemma PayloadCopiesInputs(config: ConvoAIConfig, req: InviteAgentRequest,
                            genToken: TokenRequest -> Result<string, string>,
                            parseFloat: string -> Result<real, string>, name: string)
    requires BuildStartRequest(config, req, genToken, parseFloat, name).Success?
    ensures var p := BuildStartRequest(config, req, genToken, parseFloat, name).value;
      && p.name == name
      && p.properties.channel == req.channelName
      && p.properties.token == genToken(TokenRequestFor(req)).value
      && p.properties.agentRtcUid == config.agentUid
      && p.properties.remoteRtcUids == [req.requesterId]
      && (p.properties.enableStringUid <==> exists i | 0 <= i < |req.requesterId| :: !IsDigit(req.requesterId[i]))
      && p.properties.llm.url == config.llmUrl
      && p.properties.llm.apiKey == config.llmToken
      && p.properties.llm.params.model == config.llmModel
      && p.properties.tts == GetTTSConfig(config, parseFloat).value
  {
  }

  /** The modalities sent are the requested ones, or `["text"]` in and `["text", "audio"]` out
      when the request names none; they are never empty. */
  lemma PayloadModalities(config: ConvoAIConfig, req: InviteAgentRequest,
                          genToken: TokenRequest -> Result<string, string>,
                          parseFloat: string -> Result<real, string>, name: string)
    requires BuildStartRequest(config, req, genToken, parseFloat, name).Success?
    ensures var llm := BuildStartRequest(config, req, genToken, parseFloat, name).value.properties.llm;
      && llm.inputModalities == (if req.inputModalities == [] then ["text"] else req.inputModalities)
      && llm.outputModalities == (if req.outputModalities == [] then ["text", "audio"] else req.outputModalities)
      && llm.inputModalities != [] && llm.outputModalities != []
  {
  }

  /** The tuning does not depend on the request or the configuration: two built payloads agree on
      everything but the copied and modality fields. */
  lemma PayloadConstants(c1: ConvoAIConfig, r1: InviteAgentRequest, c2: ConvoAIConfig, r2: InviteAgentRequest,
                         genToken: TokenRequest -> Result<string, string>,
                         parseFloat: string -> Result<real, string>, n1: string, n2: string)
    requires BuildStartRequest(c1, r1, genToken, parseFloat, n1).Success?
    requires BuildStartRequest(c2, r2, genToken, parseFloat, n2).Success?
    ensures var p := BuildStartRequest(c1, r1, genToken, parseFloat, n1).value.properties;
      var q := BuildStartRequest(c2, r2, genToken, parseFloat, n2).value.properties;
      && p.idleTimeout == q.idleTimeout == 30
      && p.asr == q.asr && p.asr.language == "en-US" && p.asr.task == "conversation"
      && p.vad == q.vad
      && p.vad.silenceDurationMs == 480 && p.vad.speechDurationMs == 15000
      && p.vad.interruptDurationMs == 160 && p.vad.prefixPaddingMs == 300
      && !p.advancedFeatures.enableAIVAD && !p.advancedFeatures.enableBHVS
      && p.llm.maxHistory == q.llm.maxHistory == 10
      && p.llm.params.maxTokens == q.llm.params.maxTokens == 1024
      && p.llm.systemMessages == q.llm.systemMessages
      && |p.llm.systemMessages| == 1 && p.llm.systemMessages[0].role == "system"
      && p.llm.greetingMessage == q.llm.greetingMessage == "Hello! How can I assist you today?"
      && p.llm.failureMessage == q.llm.failureMessage == "Please wait a moment."
      && p.llm.systemMessages[0].content == "You are a helpful assistant. Pretend that the text input is audio, and you are responding to it. Speak fast, clearly, and concisely."
  {
  }

  /** The invite handler's own check runs first: a request it accepts names a channel of 3 to 64
      bytes, which is the channel the token is requested for and the payload carries. */
  lemma ValidatedChannel(config: ConvoAIConfig, req: InviteAgentRequest,
                         genToken: TokenRequest -> Result<string, string>,
                         parseFloat: string -> Result<real, string>, name: string)
    requires ValidateInviteRequest(req) == Pass
    ensures 3 <= Utf8Len(TokenRequestFor(req).channel) <= 64
    ensures BuildStartRequest(config, req, genToken, parseFloat, name).Success? ==>
      3 <= Utf8Len(BuildStartRequest(config, req, genToken, parseFloat, name).value.properties.channel) <= 64
  {
  }
}
