/** Startup validation of the configuration (validation/validation.go). */
module Validation {
  import opened Wrappers
  import opened ConvoAITypes
  import opened GoStrings
  import opened ConvoAIUtils

  // ---------------------------------------------------------------------------------------------
  // validateModalities

  /** A member of the whitelist of modalities. */
  predicate IsValidModality(m: string) { m == "text" || m == "audio" }

  /** Scans the pieces in order and stops at the first one that, trimmed, is not whitelisted. */
  function AllModalitiesValid(pieces: seq<string>): (r: bool)
    ensures r <==> forall i | 0 <= i < |pieces| :: IsValidModality(TrimSpace(pieces[i]))
  {
    if pieces == [] then true
    else if !IsValidModality(TrimSpace(pieces[0])) then false
    else
      var r := AllModalitiesValid(pieces[1..]);
      assert forall i | 1 <= i < |pieces| :: pieces[i] == pieces[1..][i - 1];
      r
  }

  /** True for the empty string (the defaults apply); otherwise true exactly when every
      comma-separated piece, with white space trimmed, is `text` or `audio`. */
  function ValidateModalities(modalities: string): (r: bool)
    ensures r <==> (modalities == "" || forall i | 0 <= i < |Split(modalities, ',')| ::
                      IsValidModality(TrimSpace(Split(modalities, ',')[i])))
  {
    if modalities == "" then true
    else
      var pieces := Split(modalities, ',');
      assert forall i | 0 <= i < |pieces| :: pieces[i] == Split(modalities, ',')[i];
      AllModalitiesValid(pieces)
  }

  /** Any list ending in a comma is rejected: its last piece is empty, and the trimmed empty
      piece is not whitelisted. */
  lemma TrailingCommaRejected(s: string)
    ensures !ValidateModalities(s + ",")
  {
    SplitTrailing(s, ',');
    assert s + "," == s + [','];
    var pieces := Split(s + ",", ',');
    assert pieces[|pieces| - 1] == "";
    assert TrimSpace("") == "";
  }

  /** A single whitelisted modality, possibly padded with white space, is accepted. */
  lemma SingleModalityAccepted(ws1: string, m: string, ws2: string)
    requires IsValidModality(m)
    requires forall i | 0 <= i < |ws1| :: IsSpace(ws1[i])
    requires forall i | 0 <= i < |ws2| :: IsSpace(ws2[i])
    ensures ValidateModalities(ws1 + m + ws2)
  {
    var s := ws1 + m + ws2;
    assert s[|ws1|] == m[0];
    assert ',' !in s by {
      forall i | 0 <= i < |s| ensures s[i] != ',' {
        if i < |ws1| { assert s[i] == ws1[i]; }
        else if i < |ws1| + |m| { assert s[i] == m[i - |ws1|]; }
        else { assert s[i] == ws2[i - |ws1| - |m|]; }
      }
    }
    SplitNoSeparator(s, ',');
    TrimPadding(ws1, m, ws2);
  }

  /** Joining two non-empty lists with a comma: the longer list is accepted exactly when both
      parts are. (An empty part is accepted on its own but gives an empty piece here.) */
  lemma ConsModality(a: string, b: string)
    requires a != "" && b != ""
    ensures ValidateModalities(a + "," + b) <==> ValidateModalities(a) && ValidateModalities(b)
  {
    SplitConcat(a, ',', b);
    assert a + "," + b == a + [','] + b;
    var pa, pb := Split(a, ','), Split(b, ',');
    var pieces := Split(a + "," + b, ',');
    assert pieces == pa + pb;
    assert forall i | 0 <= i < |pa| :: pieces[i] == pa[i];
    assert forall i | 0 <= i < |pb| :: pieces[|pa| + i] == pb[i];
  }

  /** An empty part on either side of a comma rejects the list, though `""` alone is accepted. */
  lemma EmptyPartRejected(s: string)
    ensures !ValidateModalities("," + s) && !ValidateModalities(s + ",")
  {
    SplitConcat("", ',', s);
    assert "" + [','] + s == "," + s;
    assert Split("," + s, ',')[0] == "";
    assert TrimSpace("") == "";
    TrailingCommaRejected(s);
  }

  /** A leading piece outside the whitelist rejects the list, whatever follows it. */
  lemma UnknownModalityRejected(a: string, b: string)
    requires ',' !in a && !IsValidModality(TrimSpace(a))
    ensures a != "" ==> !ValidateModalities(a)
    ensures !ValidateModalities(a + "," + b)
  {
    SplitNoSeparator(a, ',');
    SplitFirst(a, ',', b);
    assert a + "," + b == a + [','] + b;
    assert Split(a + "," + b, ',')[0] == a;
  }

  /** `"text"` is accepted. */
  lemma TextAccepted()
    ensures ValidateModalities("text")
  {
    var text := "text";
    SingleModalityAccepted([], text, []);
    assert [] + text + [] == text;
  }

  /** `"invalid"` is rejected. */
  lemma InvalidRejected()
    ensures !ValidateModalities("invalid")
  {
    var invalid := "invalid";
    TrimPadding([], invalid, []);
    assert [] + invalid + [] == invalid;
    UnknownModalityRejected(invalid, []);
  }

  /** `"text,audio"` is accepted. */
  lemma TextAudioAccepted()
    ensures ValidateModalities("text" + "," + "audio")
  {
    var text, audio := "text", "audio";
    SingleModalityAccepted([], text, []);
    assert [] + text + [] == text;
    SingleModalityAccepted([], audio, []);
    assert [] + audio + [] == audio;
    ConsModality(text, audio);
  }

  /** `"text, audio"` is accepted: the blank after the comma is trimmed. */
  lemma TextSpaceAudioAccepted()
    ensures ValidateModalities("text" + "," + " audio")
  {
    var text, audio, blank := "text", "audio", " ";
    SingleModalityAccepted([], text, []);
    assert [] + text + [] == text;
    SingleModalityAccepted(blank, audio, []);
    assert blank + audio + [] == " audio";
    ConsModality(text, " audio");
  }

  /** `"text,invalid"` is rejected. */
  lemma TextInvalidRejected()
    ensures !ValidateModalities("text" + "," + "invalid")
  {
    var text, invalid := "text", "invalid";
    TrimPadding([], invalid, []);
    assert [] + invalid + [] == invalid;
    UnknownModalityRejected(invalid, []);
    ConsModality(text, invalid);
  }

  /** `"text,"` is rejected. */
  lemma TextCommaRejected()
    ensures !ValidateModalities("text" + ",")
  {
    TrailingCommaRejected("text");
  }

  // ---------------------------------------------------------------------------------------------
  // validateTTSConfig

  /** Why the configuration was refused; `Message` is the error text of the source. */
  datatype ConfigError =
    | AgoraCredentialsNotSet
    | ConvoAICredentialsNotSet
    | LLMConfigNotSet
    | TTSVendorNotSet
    | MicrosoftConfigMissing
    | MicrosoftConfigIncomplete
    | ElevenLabsConfigMissing
    | ElevenLabsConfigIncomplete
    | UnsupportedTTSVendor(tag: string)
    | InvalidInputModalities
    | InvalidOutputModalities
  {
    function Message(): string {
      match this
      case AgoraCredentialsNotSet => "config error: Agora credentials (APP_ID, APP_CERTIFICATE) are not set"
      case ConvoAICredentialsNotSet =>
        "config error: Agora Conversation AI credentials (CUSTOMER_ID, CUSTOMER_SECRET, BASE_URL) are not set"
      case LLMConfigNotSet => "config error: LLM configuration (LLM_URL, LLM_TOKEN) is not set"
      case TTSVendorNotSet => "config error: TTS_VENDOR is not set"
      case MicrosoftConfigMissing => "config error: Microsoft TTS configuration is missing"
      case MicrosoftConfigIncomplete => "config error: Microsoft TTS configuration is incomplete"
      case ElevenLabsConfigMissing => "config error: ElevenLabs TTS configuration is missing"
      case ElevenLabsConfigIncomplete => "config error: ElevenLabs TTS configuration is incomplete"
      case UnsupportedTTSVendor(tag) => "config error: Unsupported TTS vendor: " + tag
      case InvalidInputModalities => "config error: Invalid INPUT_MODALITIES format"
      case InvalidOutputModalities => "config error: Invalid OUTPUT_MODALITIES format"
    }
  }

  /** The fields the startup check requires of a Microsoft block: rate and volume are not among
      them. */
  predicate MicrosoftUsable(m: MicrosoftTTSConfig) {
    m.key != "" && m.region != "" && m.voiceName != ""
  }

  /** The startup check of the vendor block: passes exactly for a known vendor whose block is
      present with the fields it requires; an unknown tag is named in the error. */
  function ValidateTTSConfig(config: ConvoAIConfig): (r: Outcome<ConfigError>)
    ensures r == Pass <==>
      || (config.ttsVendor == "microsoft" && config.microsoftTts.Some? && MicrosoftUsable(config.microsoftTts.value))
      || (config.ttsVendor == "elevenlabs" && ElevenLabsComplete(config.elevenLabsTts))
    ensures config.ttsVendor != "microsoft" && config.ttsVendor != "elevenlabs" ==>
      r == Fail(UnsupportedTTSVendor(config.ttsVendor))
  {
    if config.ttsVendor == "microsoft" then
      if config.microsoftTts.None? then Fail(MicrosoftConfigMissing)
      else
        var m := config.microsoftTts.value;
        if m.key == "" || m.region == "" || m.voiceName == "" then Fail(MicrosoftConfigIncomplete)
        else Pass
    else if config.ttsVendor == "elevenlabs" then
      if config.elevenLabsTts.None? then Fail(ElevenLabsConfigMissing)
      else
        var e := config.elevenLabsTts.value;
        if e.key == "" || e.voiceId == "" || e.modelId == "" then Fail(ElevenLabsConfigIncomplete)
        else Pass
    else Fail(UnsupportedTTSVendor(config.ttsVendor))
  }

  /** "Missing" is reported for an absent block, "incomplete" for a present block with an empty
      required field. */
  lemma ValidateTTSConfigMessages(config: ConvoAIConfig)
    ensures config.ttsVendor == "microsoft" && config.microsoftTts.None? ==>
      ValidateTTSConfig(config) == Fail(MicrosoftConfigMissing)
    ensures config.ttsVendor == "microsoft" && config.microsoftTts.Some? && !MicrosoftUsable(config.microsoftTts.value) ==>
      ValidateTTSConfig(config) == Fail(MicrosoftConfigIncomplete)
    ensures config.ttsVendor == "elevenlabs" && config.elevenLabsTts.None? ==>
      ValidateTTSConfig(config) == Fail(ElevenLabsConfigMissing)
    ensures config.ttsVendor == "elevenlabs" && config.elevenLabsTts.Some? && !ElevenLabsComplete(config.elevenLabsTts) ==>
      ValidateTTSConfig(config) == Fail(ElevenLabsConfigIncomplete)
  {
  }

  /** Whatever resolves at request time also passes the startup check. */
  lemma ResolvableIsValid(config: ConvoAIConfig, parseFloat: string -> Result<real, string>)
    requires GetTTSConfig(config, parseFloat).Success?
    ensures ValidateTTSConfig(config) == Pass
  {
  }

  /** The converse fails: the startup check does not look at rate and volume, so a Microsoft
      configuration with an empty rate passes it and still fails to resolve. */
  lemma ValidDoesNotImplyResolvable(parseFloat: string -> Result<real, string>)
    ensures var config := ConvoAIConfig("app", "cert", "cid", "secret", "https://base", "1000", "model",
      "https://llm", "token", "microsoft", Some(MicrosoftTTSConfig("k", "eastus", "v", "", "1.0")), None, "", "");
      ValidateTTSConfig(config) == Pass
      && GetTTSConfig(config, parseFloat) == Failure(MissingMicrosoftConfig)
  {
  }

  // ---------------------------------------------------------------------------------------------
  // ValidateEnvironment

  /** The first failing check of a list, in order, or `Pass` when none fails. */
  function FirstFailure(checks: seq<Outcome<ConfigError>>): (r: Outcome<ConfigError>)
    ensures r == Pass <==> forall i | 0 <= i < |checks| :: checks[i] == Pass
    ensures r != Pass ==> exists i | 0 <= i < |checks| ::
      checks[i] == r && forall j | 0 <= j < i :: checks[j] == Pass
  {
    if checks == [] then Pass
    else if checks[0] != Pass then checks[0]
    else
      var r := FirstFailure(checks[1..]);
      assert forall i | 1 <= i < |checks| :: checks[i] == checks[1..][i - 1];
      if r != Pass then
        ghost var k :| 0 <= k < |checks[1..]| && checks[1..][k] == r
          && forall j | 0 <= j < k :: checks[1..][j] == Pass;
        assert checks[k + 1] == r;
        r
      else r
  }

  /** The checks of the startup validation, each with its own message, in the order they run. */
  function EnvironmentChecks(config: ConvoAIConfig): seq<Outcome<ConfigError>> {
    [ if config.appId == "" || config.appCertificate == "" then
        Fail(AgoraCredentialsNotSet) else Pass,
      if config.customerId == "" || config.customerSecret == "" || config.baseUrl == "" then
        Fail(ConvoAICredentialsNotSet)
      else Pass,
      if config.llmUrl == "" || config.llmToken == "" then
        Fail(LLMConfigNotSet) else Pass,
      if config.ttsVendor == "" then Fail(TTSVendorNotSet) else Pass,
      ValidateTTSConfig(config),
      if config.inputModalities != "" && !ValidateModalities(config.inputModalities) then
        Fail(InvalidInputModalities) else Pass,
      if config.outputModalities != "" && !ValidateModalities(config.outputModalities) then
        Fail(InvalidOutputModalities) else Pass ]
  }

  /** Runs the presence checks with early return; passes exactly when every required setting is
      present, the TTS block is valid and both modality lists are valid. */
  function ValidateEnvironment(config: ConvoAIConfig): (r: Outcome<ConfigError>)
    ensures r == Pass <==>
      && config.appId != "" && config.appCertificate != ""
      && config.customerId != "" && config.customerSecret != "" && config.baseUrl != ""
      && config.llmUrl != "" && config.llmToken != ""
      && config.ttsVendor != ""
      && ValidateTTSConfig(config) == Pass
      && ValidateModalities(config.inputModalities)
      && ValidateModalities(config.outputModalities)
  {
    if config.appId == "" || config.appCertificate == "" then
      Fail(AgoraCredentialsNotSet)
    else if config.customerId == "" || config.customerSecret == "" || config.baseUrl == "" then
      Fail(ConvoAICredentialsNotSet)
    else if config.llmUrl == "" || config.llmToken == "" then
      Fail(LLMConfigNotSet)
    else if config.ttsVendor == "" then
      Fail(TTSVendorNotSet)
    else if ValidateTTSConfig(config) != Pass then
      ValidateTTSConfig(config)
    else if config.inputModalities != "" && !ValidateModalities(config.inputModalities) then
      Fail(InvalidInputModalities)
    else if config.outputModalities != "" && !ValidateModalities(config.outputModalities) then
      Fail(InvalidOutputModalities)
    else
      Pass
  }

  /** The error reported is that of the first failing check, in the order: Agora credentials,
      conversational-AI credentials, LLM settings, vendor presence, vendor block, input
      modalities, output modalities. */
  lemma ValidateEnvironmentReportsFirstFailure(config: ConvoAIConfig)
    ensures ValidateEnvironment(config) == FirstFailure(EnvironmentChecks(config))
  {
    var c := EnvironmentChecks(config);
    var d := c[1..];
    var e := d[1..];
    var f := e[1..];
    var g := f[1..];
    var h := g[1..];
    var k := h[1..];
    assert |k| == 1 && k[1..] == [];
    assert FirstFailure(k) == k[0];
    assert FirstFailure(h) == if h[0] != Pass then h[0] else FirstFailure(k);
    assert FirstFailure(g) == if g[0] != Pass then g[0] else FirstFailure(h);
    assert FirstFailure(f) == if f[0] != Pass then f[0] else FirstFailure(g);
    assert FirstFailure(e) == if e[0] != Pass then e[0] else FirstFailure(f);
    assert FirstFailure(d) == if d[0] != Pass then d[0] else FirstFailure(e);
  }

  /** The LLM model name and the agent UID are never inspected: changing them changes nothing. */
  lemma ValidateEnvironmentIgnoresModelAndAgent(config: ConvoAIConfig, llmModel: string, agentUid: string)
    ensures ValidateEnvironment(config.(llmModel := llmModel, agentUid := agentUid)) == ValidateEnvironment(config)
  {
  }
}
