/** Request checks and text-to-speech vendor resolution of the agent service
    (convoai/convoai-utils.go). */
module ConvoAIUtils {
  import opened Wrappers
  import opened ConvoAITypes
  import opened GoStrings
  import Base64

  // ---------------------------------------------------------------------------------------------
  // getBasicAuth

  /** The `Authorization` header value of the Basic scheme (section 2 of RFC 7617): `Basic `
      followed by the base64 of the UTF-8 bytes of `customerId:customerSecret`. Decoding the
      credentials part gives exactly those bytes back. */
  function GetBasicAuth(config: ConvoAIConfig): (r: string)
    ensures |r| >= 6 && r[..6] == "Basic "
    ensures Base64.Decode(r[6..]) == Some(Utf8Encode(config.customerId + ":" + config.customerSecret))
  {
    var credentials := Utf8Encode(config.customerId + ":" + config.customerSecret);
    Base64.EncodeDecode(credentials);
    var r := "Basic " + Base64.Encode(credentials);
    assert r[6..] == Base64.Encode(credentials);
    r
  }

  /** The contract of `GetBasicAuth` fixes the header: since the decoder accepts only canonical
      encodings, any value with the `Basic ` prefix whose credentials decode to those bytes is the
      one `GetBasicAuth` returns. */
  lemma BasicAuthDetermined(config: ConvoAIConfig, r: string)
    requires |r| >= 6 && r[..6] == "Basic "
    requires Base64.Decode(r[6..]) == Some(Utf8Encode(config.customerId + ":" + config.customerSecret))
    ensures r == GetBasicAuth(config)
  {
    var credentials := Utf8Encode(config.customerId + ":" + config.customerSecret);
    Base64.DecodeCanonical(r[6..], credentials);
    assert r == r[..6] + r[6..];
  }

  // ---------------------------------------------------------------------------------------------
  // isStringUID

  /** True when the identity has a rune outside `0`-`9` (it must travel as a string UID), false
      when it is purely numeric; the scan stops at the first non-digit. */
  function IsStringUID(s: string): (r: bool)
    ensures r <==> exists i | 0 <= i < |s| :: !IsDigit(s[i])
  {
    if s == [] then false
    else if s[0] < '0' || s[0] > '9' then true
    else
      var r := IsStringUID(s[1..]);
      assert forall i | 1 <= i < |s| :: s[i] == s[1..][i - 1];
      r
  }

  /** `""`, `"0"` and `"12345"` are numeric UIDs; `"user123"` and `"123abc"` are string UIDs. */
  lemma IsStringUIDExamples()
    ensures !IsStringUID("") && !IsStringUID("0") && !IsStringUID("12345")
    ensures IsStringUID("user123") && IsStringUID("123abc")
  {
    assert !IsDigit("user123"[0]);
    assert !IsDigit("123abc"[3]);
  }

  // ---------------------------------------------------------------------------------------------
  // getTTSConfig

  /** Why the vendor could not be resolved; `Message` is the error text of the source. */
  datatype TTSError =
    | MissingMicrosoftConfig
    | InvalidRate(cause: string)
    | InvalidVolume(cause: string)
    | MissingElevenLabsConfig
    | UnsupportedVendor(tag: string)
  {
    function Message(): string {
      match this
      case MissingMicrosoftConfig => "missing Microsoft TTS configuration"
      case InvalidRate(cause) => "invalid rate value: " + cause
      case InvalidVolume(cause) => "invalid volume value: " + cause
      case MissingElevenLabsConfig => "missing ElevenLabs TTS configuration"
      case UnsupportedVendor(tag) => "unsupported TTS vendor: " + tag
    }
  }

  /** The Microsoft block is present and none of its five fields is empty. */
  predicate MicrosoftComplete(m: Option<MicrosoftTTSConfig>) {
    m.Some? && m.value.key != "" && m.value.region != "" && m.value.voiceName != ""
    && m.value.rate != "" && m.value.volume != ""
  }

  /** The ElevenLabs block is present and none of its three fields is empty. */
  predicate ElevenLabsComplete(e: Option<ElevenLabsTTSConfig>) {
    e.Some? && e.value.key != "" && e.value.modelId != "" && e.value.voiceId != ""
  }

  /** Resolves the configured vendor into its tagged parameter bundle. `parseFloat` stands for
      `strconv.ParseFloat(_, 64)`, its error being the text of the Go error. */
  function GetTTSConfig(config: ConvoAIConfig, parseFloat: string -> Result<real, string>)
    : (r: Result<TTSConfig, TTSError>)
    ensures r.Success? ==> r.value.vendor.Tag() == config.ttsVendor
    ensures r.Success? ==> (r.value.params.MicrosoftParams? <==> r.value.vendor == Microsoft)
    ensures config.ttsVendor != Microsoft.Tag() && config.ttsVendor != ElevenLabs.Tag() ==>
      r == Failure(UnsupportedVendor(config.ttsVendor))
  {
    if config.ttsVendor == Microsoft.Tag() then
      if !MicrosoftComplete(config.microsoftTts) then Failure(MissingMicrosoftConfig)
      else
        var m := config.microsoftTts.value;
        match parseFloat(m.rate)
        case Failure(e) => Failure(InvalidRate(e))
        case Success(rate) =>
          match parseFloat(m.volume)
          case Failure(e) => Failure(InvalidVolume(e))
          case Success(volume) =>
            Success(TTSConfig(Microsoft, MicrosoftParams(m.key, m.region, m.voiceName, rate, volume)))
    else if config.ttsVendor == ElevenLabs.Tag() then
      if !ElevenLabsComplete(config.elevenLabsTts) then Failure(MissingElevenLabsConfig)
      else
        var e := config.elevenLabsTts.value;
        Success(TTSConfig(ElevenLabs, ElevenLabsParams(e.key, e.modelId, e.voiceId)))
    else
      Failure(UnsupportedVendor(config.ttsVendor))
  }

  /** An absent or incomplete Microsoft block fails before any number is parsed, whatever the
      parser would say. */
  lemma MicrosoftMissingFailsFirst(config: ConvoAIConfig, parseFloat: string -> Result<real, string>)
    requires config.ttsVendor == "microsoft" && !MicrosoftComplete(config.microsoftTts)
    ensures GetTTSConfig(config, parseFloat) == Failure(MissingMicrosoftConfig)
  {
  }

  /** A rate that does not parse is reported as such, and the volume is not parsed: any other
      non-empty volume gives the same result. */
  lemma MicrosoftInvalidRate(config: ConvoAIConfig, parseFloat: string -> Result<real, string>, otherVolume: string)
    requires config.ttsVendor == "microsoft" && MicrosoftComplete(config.microsoftTts)
    requires parseFloat(config.microsoftTts.value.rate).Failure?
    requires otherVolume != ""
    ensures GetTTSConfig(config, parseFloat) ==
      Failure(InvalidRate(parseFloat(config.microsoftTts.value.rate).error))
    ensures GetTTSConfig(config.(microsoftTts := Some(config.microsoftTts.value.(volume := otherVolume))), parseFloat)
      == GetTTSConfig(config, parseFloat)
  {
  }

  /** A rate that parses and a volume that does not. */
  lemma MicrosoftInvalidVolume(config: ConvoAIConfig, parseFloat: string -> Result<real, string>)
    requires config.ttsVendor == "microsoft" && MicrosoftComplete(config.microsoftTts)
    requires parseFloat(config.microsoftTts.value.rate).Success?
    requires parseFloat(config.microsoftTts.value.volume).Failure?
    ensures GetTTSConfig(config, parseFloat) ==
      Failure(InvalidVolume(parseFloat(config.microsoftTts.value.volume).error))
  {
  }

  /** Microsoft success: key, region and voice name are copied, rate and volume are the parsed
      numbers; and success happens exactly when the block is complete and both numbers parse. */
  lemma MicrosoftResolved(config: ConvoAIConfig, parseFloat: string -> Result<real, string>)
    requires config.ttsVendor == "microsoft"
    ensures GetTTSConfig(config, parseFloat).Success? <==>
      MicrosoftComplete(config.microsoftTts)
      && parseFloat(config.microsoftTts.value.rate).Success?
      && parseFloat(config.microsoftTts.value.volume).Success?
    ensures GetTTSConfig(config, parseFloat).Success? ==>
      var m := config.microsoftTts.value;
      GetTTSConfig(config, parseFloat).value == TTSConfig(Microsoft, MicrosoftParams(
        m.key, m.region, m.voiceName, parseFloat(m.rate).value, parseFloat(m.volume).value))
  {
  }

  /** ElevenLabs: fails on an absent or incomplete block, otherwise passes the three fields
      through. */
  lemma ElevenLabsResolved(config: ConvoAIConfig, parseFloat: string -> Result<real, string>)
    requires config.ttsVendor == "elevenlabs"
    ensures !ElevenLabsComplete(config.elevenLabsTts) ==>
      GetTTSConfig(config, parseFloat) == Failure(MissingElevenLabsConfig)
    ensures ElevenLabsComplete(config.elevenLabsTts) ==>
      var e := config.elevenLabsTts.value;
      GetTTSConfig(config, parseFloat) == Success(TTSConfig(ElevenLabs, ElevenLabsParams(e.key, e.modelId, e.voiceId)))
  {
  }

  /** The result depends only on the vendor tag, that vendor's own block, and, for Microsoft,
      what the parser says of its rate and volume. */
  lemma TTSConfigDependsOnOwnBlock(c1: ConvoAIConfig, c2: ConvoAIConfig,
                                   p1: string -> Result<real, string>, p2: string -> Result<real, string>)
    requires c1.ttsVendor == c2.ttsVendor
    requires c1.ttsVendor == "microsoft" ==> c1.microsoftTts == c2.microsoftTts
    requires c1.ttsVendor == "microsoft" && c1.microsoftTts.Some? ==>
      && p1(c1.microsoftTts.value.rate) == p2(c1.microsoftTts.value.rate)
      && p1(c1.microsoftTts.value.volume) == p2(c1.microsoftTts.value.volume)
    requires c1.ttsVendor == "elevenlabs" ==> c1.elevenLabsTts == c2.elevenLabsTts
    ensures GetTTSConfig(c1, p1) == GetTTSConfig(c2, p2)
  {
  }

  // ---------------------------------------------------------------------------------------------
  // validateInviteRequest, validateRemoveRequest

  /** Why a request was rejected; `Message` is the error text of the source. */
  datatype RequestError = RequesterIdRequired | ChannelNameRequired | ChannelNameLength | AgentIdRequired {
    function Message(): string {
      match this
      case RequesterIdRequired => "requester_id is required"
      case ChannelNameRequired => "channel_name is required"
      case ChannelNameLength => "channel_name length must be between 3 and 64 characters"
      case AgentIdRequired => "agent_id is required"
    }
  }

  /** Accepts exactly the requests with a requester and a channel name of 3 to 64 bytes; the
      errors are reported in the order requester, channel presence, channel length. */
  function ValidateInviteRequest(req: InviteAgentRequest): (r: Outcome<RequestError>)
    ensures r == Pass <==> req.requesterId != "" && 3 <= Utf8Len(req.channelName) <= 64
    ensures req.requesterId == "" ==> r == Fail(RequesterIdRequired)
    ensures req.requesterId != "" && req.channelName == "" ==> r == Fail(ChannelNameRequired)
    ensures req.requesterId != "" && req.channelName != "" && !(3 <= Utf8Len(req.channelName) <= 64)
      ==> r == Fail(ChannelNameLength)
  {
    if req.requesterId == "" then Fail(RequesterIdRequired)
    else if req.channelName == "" then Fail(ChannelNameRequired)
    else if Utf8Len(req.channelName) < 3 || Utf8Len(req.channelName) > 64 then Fail(ChannelNameLength)
    else Pass
  }

  /** For an ASCII channel name the byte length is the character count: a requester with an
      ASCII channel name of 3 to 64 characters is accepted. */
  lemma AsciiChannelAccepted(req: InviteAgentRequest)
    requires req.requesterId != ""
    requires forall i | 0 <= i < |req.channelName| :: req.channelName[i] as int < 0x80
    requires 3 <= |req.channelName| <= 64
    ensures ValidateInviteRequest(req) == Pass
  {
    AsciiUtf8(req.channelName);
  }

  /** Accepts exactly the requests that name an agent. */
  function ValidateRemoveRequest(req: RemoveAgentRequest): (r: Outcome<RequestError>)
    ensures r == Pass <==> req.agentId != ""
    ensures r != Pass ==> r == Fail(AgentIdRequired)
  {
    if req.agentId == "" then Fail(AgentIdRequired) else Pass
  }
}
