/** The records of the agent-invitation service (convoai/convoai-types.go) and the token request
    of the token service it calls. */
module ConvoAITypes {
  import opened Wrappers

  /** One byte of a Go `[]byte`. */
  newtype byte = x: int | 0 <= x < 256

  /** Body of an "invite agent" request. A nil Go slice and an empty one are both `[]`. */
  datatype InviteAgentRequest = InviteAgentRequest(
    requesterId: string,
    channelName: string,
    rtcCodec: Option<int>,
    inputModalities: seq<string>,
    outputModalities: seq<string>)

  /** Body of a "remove agent" request. */
  datatype RemoveAgentRequest = RemoveAgentRequest(agentId: string)

  /** The text-to-speech vendors the service knows; `Tag` is the Go `TTSVendor` string constant. */
  datatype TTSVendor = Microsoft | ElevenLabs {
    function Tag(): string {
      match this
      case Microsoft => "microsoft"
      case ElevenLabs => "elevenlabs"
    }
  }

  /** The vendor parameter bundle. The source keeps it in an `interface{}` map keyed by
      "key"/"region"/"voice_name"/"rate"/"volume" or "api_key"/"model_id"/"voice_id";
      here it is a closed union with one variant per vendor. */
  datatype TTSParams =
    | MicrosoftParams(key: string, region: string, voiceName: string, rate: real, volume: real)
    | ElevenLabsParams(apiKey: string, modelId: string, voiceId: string)

  datatype TTSConfig = TTSConfig(vendor: TTSVendor, params: TTSParams)

  datatype ASR = ASR(language: string, task: string)

  datatype SystemMessage = SystemMessage(role: string, content: string)

  /** Temperature and top-p are float64 in the source; here they are exact decimal reals. */
  datatype LLMParams = LLMParams(model: string, maxTokens: int, temperature: real, topP: real)

  datatype LLM = LLM(
    url: string,
    apiKey: string,
    systemMessages: seq<SystemMessage>,
    greetingMessage: string,
    failureMessage: string,
    maxHistory: int,
    params: LLMParams,
    inputModalities: seq<string>,
    outputModalities: seq<string>)

  datatype VAD = VAD(
    silenceDurationMs: int,
    speechDurationMs: int,
    threshold: real,
    interruptDurationMs: int,
    prefixPaddingMs: int)

  datatype Features = Features(enableAIVAD: bool, enableBHVS: bool)

  datatype Properties = Properties(
    channel: string,
    token: string,
    agentRtcUid: string,
    remoteRtcUids: seq<string>,
    enableStringUid: bool,
    idleTimeout: int,
    asr: ASR,
    llm: LLM,
    tts: TTSConfig,
    vad: VAD,
    advancedFeatures: Features)

  /** The "start conversation" payload sent to the agent platform. */
  datatype AgoraStartRequest = AgoraStartRequest(name: string, properties: Properties)

  datatype MicrosoftTTSConfig = MicrosoftTTSConfig(
    key: string, region: string, voiceName: string, rate: string, volume: string)

  /** The source declares the first field as `APIKey` while every reader of it writes `.Key`;
      the model has the one field, named `key`. */
  datatype ElevenLabsTTSConfig = ElevenLabsTTSConfig(key: string, voiceId: string, modelId: string)

  /** Process-wide configuration; a nil vendor block is `None`. */
  datatype ConvoAIConfig = ConvoAIConfig(
    appId: string,
    appCertificate: string,
    customerId: string,
    customerSecret: string,
    baseUrl: string,
    agentUid: string,
    llmModel: string,
    llmUrl: string,
    llmToken: string,
    ttsVendor: string,
    microsoftTts: Option<MicrosoftTTSConfig>,
    elevenLabsTts: Option<ElevenLabsTTSConfig>,
    inputModalities: string,
    outputModalities: string)

  /** The fields of the token service's request that the invite handler sets. */
  datatype TokenRequest = TokenRequest(tokenType: string, channel: string, uid: string, rtcRole: string)
}
