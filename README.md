# Agent-invitation core of convo-ai-go-server, in Dafny

The Go server invites a conversational AI agent into an Agora RTC channel. This project models the
part of it that turns configuration and a request into a "start conversation" payload, and proves
properties of that part. It covers:

- **Request and vendor logic**, `convoai/convoai-utils.go`, modelled in `Utils.dfy`:
  - the Basic `Authorization` header value, which is section 2 of RFC 7617 over the standard
    base64 alphabet of section 4 of RFC 4648 (`Base64.dfy`);
  - the numeric/string UID classification;
  - the resolution of the text-to-speech (TTS) vendor block into a tagged parameter bundle;
  - the two request validators.
- **The startup check of the environment**, `validation/validation.go`, modelled in
  `Validation.dfy`: the ordered presence checks, the per-vendor TTS check, and the
  comma-separated modality lists.
- **The payload built by the invite handler** (`convoai/convoai_handler_invite.go`, up to the
  HTTP call), modelled in `InviteHandler.dfy`: the token request, the early failures, default
  modalities, the remote-UID list, the fixed tuning constants, and the random session-name
  suffix.

How the model is set up:

- The records of `convoai/convoai-types.go` are datatypes in `Types.dfy`. `Wrappers.dfy` holds
  `Option`, `Result` and `Outcome` (an `error`-only return).
- `GoStrings.dfy` models the Go library behaviour the core relies on: UTF-8 byte length and
  encoding (`len`, `[]byte(s)`), `%d`, `strings.Split` with a one-character separator, and
  `strings.TrimSpace` with `unicode.IsSpace`.
- Each error is a constructor of a small error datatype. Its `Message()` gives the exact
  text the Go code returns.
- A Go string is a Dafny `string`, a sequence of code points. This is what `for range` yields
  on valid UTF-8.
- The outside world enters as parameters:
  - the token service is `genToken: TokenRequest -> Result<string, string>`;
  - `strconv.ParseFloat` is `parseFloat: string -> Result<real, string>`;
  - `time.Now().UnixNano()` is `nanos: int`;
  - the bytes `crypto/rand` would write are `rng: nat -> byte`.

`randomString` stays imperative. It allocates a byte array, fills it from `rng`, and rewrites
each byte in place in a loop. The loop is proved against the function `RandomLetters`.

The source declares the ElevenLabs block's key field as `APIKey` (`convoai/convoai-types.go:149`).
Every reader of that field writes `.Key` (`convoai/convoai-utils.go:65`, `validation/validation.go:62`);
the model follows the code and has one field, `key`.

## Model

| member | source | states |
|---|---|---|
| ConvoAIUtils.GetBasicAuth | convoai/convoai-utils.go:10-13 | the header starts with `Basic ` and the rest base64-decodes to the UTF-8 bytes of `CustomerID + ":" + CustomerSecret` |
| ConvoAIUtils.BasicAuthDetermined | convoai/convoai-utils.go:10-13 | the contract of `GetBasicAuth` fixes its value: any string with the `Basic ` prefix whose rest decodes to the credential bytes is the header `GetBasicAuth` returns |
| Base64.EncodeDecode | convoai/convoai-utils.go:12 | decoding the standard base64 encoding of any byte string gives that byte string back |
| Base64.DecodeCanonical | convoai/convoai-utils.go:12 | the decoder accepts only canonical encodings (pad bits zero, section 3.5 of RFC 4648): whatever it decodes is the encoding of the bytes it returns |
| Base64.EncodeAlphabet | convoai/convoai-utils.go:12 | every character of the encoding is in the standard alphabet or is `=`, and `=` occurs only in the last two positions |
| Base64.Encode | convoai/convoai-utils.go:12 | the encoding of n bytes has 4 * ceil(n/3) characters (padding included) |
| GoStrings.Utf8RoundTrip | convoai/convoai-utils.go:11-12 | the UTF-8 bytes of a string decode back to its code points |
| GoStrings.Utf8Len | convoai/convoai-utils.go:95 | Go's `len` of a string is its UTF-8 byte count: at least one and at most four bytes per character |
| GoStrings.Utf8Encode | convoai/convoai-utils.go:11-12 | `[]byte(s)` has exactly `len(s)` bytes; `Utf8RoundTrip` shows it decodes back to `s` |
| GoStrings.AsciiUtf8 | convoai/convoai-utils.go:95 | on ASCII text the byte length is the character count and each byte is the character code |
| ConvoAIUtils.AsciiChannelAccepted | convoai/convoai-utils.go:85-100 | a non-empty requester with an ASCII channel name of 3..64 characters is accepted |
| ConvoAIUtils.IsStringUID | convoai/convoai-utils.go:16-26 | true exactly when some character lies outside `'0'..'9'`, so the empty UID is numeric |
| ConvoAIUtils.IsStringUIDExamples | convoai/convoai_service_test.go:245-285 | `""`, `"0"` and `"12345"` are numeric; `"user123"` and `"123abc"` are string UIDs |
| ConvoAIUtils.GetTTSConfig | convoai/convoai-utils.go:29-82 | a resolved config carries the vendor named by the tag, with Microsoft parameters exactly for Microsoft; any other tag, empty included, fails with `unsupported TTS vendor: <tag>` |
| ConvoAIUtils.MicrosoftMissingFailsFirst | convoai/convoai-utils.go:31-39 | with tag `microsoft`, an absent block or an empty key, region, voice name, rate or volume fails with `missing Microsoft TTS configuration`, whatever the parser would say |
| ConvoAIUtils.MicrosoftInvalidRate | convoai/convoai-utils.go:41-46 | a rate that does not parse fails with `invalid rate value: <parser error>`, and the volume is never looked at |
| ConvoAIUtils.MicrosoftInvalidVolume | convoai/convoai-utils.go:47-50 | a valid rate with a volume that does not parse fails with `invalid volume value: <parser error>` |
| ConvoAIUtils.MicrosoftResolved | convoai/convoai-utils.go:52-61 | Microsoft resolves exactly when the block is complete and both numbers parse; key, region and voice name are copied, rate and volume are the parsed numbers |
| ConvoAIUtils.ElevenLabsResolved | convoai/convoai-utils.go:63-77 | ElevenLabs resolves exactly when the block is present with key, model and voice; they are passed through unchanged |
| ConvoAIUtils.TTSConfigDependsOnOwnBlock | convoai/convoai-utils.go:30-81 | the result depends only on the tag and on that vendor's own block |
| ConvoAIUtils.ValidateInviteRequest | convoai/convoai-utils.go:85-100 | accepts exactly a non-empty requester with a channel name of 3..64 bytes; errors in the order requester, channel presence, channel length |
| ConvoAIUtils.ValidateRemoveRequest | convoai/convoai-utils.go:103-108 | fails, with `agent_id is required`, exactly when the agent ID is empty |
| Validation.AllModalitiesValid | validation/validation.go:86-90 | the early-return scan is true exactly when every piece, trimmed, is whitelisted |
| Validation.ValidateModalities | validation/validation.go:74-92 | true for `""`; otherwise true exactly when every comma-separated piece, after `TrimSpace`, is `text` or `audio` |
| GoStrings.SplitJoin | validation/validation.go:86 | joining the pieces of a split with the separator gives the string back |
| GoStrings.SplitNoSeparator | validation/validation.go:86 | a string without the separator splits into itself alone |
| GoStrings.SplitTrailing | validation/validation.go:86 | a separator at the end of a string adds one empty last piece |
| GoStrings.SplitFirst | validation/validation.go:86 | `a + sep + b`, with no separator in `a`, splits into `a` followed by the pieces of `b` |
| GoStrings.Split | validation/validation.go:86 | `strings.Split` gives at least one piece and no piece contains the separator; `SplitJoin` shows joining them gives the string back |
| GoStrings.TrimSpaceIsTrimmedInfix | validation/validation.go:87 | `TrimSpace` keeps the infix between a white-space prefix and a white-space suffix, and the result neither starts nor ends with white space |
| GoStrings.TrimSpaceIdempotent | validation/validation.go:87 | trimming twice is trimming once |
| GoStrings.TrimPadding | validation/validation.go:87 | white-space padding around a string with no white space at its ends is exactly what is removed |
| GoStrings.TrimSpace | validation/validation.go:87 | the result is no longer than the input and neither starts nor ends with white space |
| Validation.TrailingCommaRejected | validation/validation.go:86-89 | every list ending in a comma, such as `"text,audio,"`, is rejected, because the empty last piece is not whitelisted |
| Validation.SingleModalityAccepted | validation/validation.go:81-91 | one whitelisted modality, padded with any white space, is accepted |
| Validation.ConsModality | validation/validation.go:86-90 | for non-empty `a` and `b`, `a + "," + b` is accepted exactly when both are |
| Validation.EmptyPartRejected | validation/validation.go:86-89 | a list starting or ending with a comma is rejected, for any rest (the empty piece is not whitelisted), although `""` alone is accepted |
| GoStrings.SplitConcat | validation/validation.go:86 | splitting `a + sep + b` gives the pieces of `a` followed by the pieces of `b` |
| Validation.UnknownModalityRejected | validation/validation.go:86-89 | a leading piece outside the whitelist rejects the list, whatever follows it |
| Validation.TextAccepted | validation/validation_test.go:272-275 | `"text"` is accepted |
| Validation.InvalidRejected | validation/validation_test.go:287-290 | `"invalid"` is rejected |
| Validation.TextAudioAccepted | validation/validation_test.go:277-280 | `"text,audio"` is accepted |
| Validation.TextSpaceAudioAccepted | validation/validation_test.go:282-285 | `"text, audio"` is accepted |
| Validation.TextInvalidRejected | validation/validation_test.go:292-295 | `"text,invalid"` is rejected |
| Validation.TextCommaRejected | validation/validation.go:86-89 | `"text,"` is rejected |
| Validation.ValidateTTSConfig | validation/validation.go:47-71 | passes exactly for `microsoft` with a block that has key, region and voice name, or for `elevenlabs` with a block that has key, voice and model; other tags fail with `config error: Unsupported TTS vendor: <tag>` |
| Validation.ValidateTTSConfigMessages | validation/validation.go:49-66 | an absent block is reported as "missing", a block with an empty required field as "incomplete", for each vendor |
| Validation.ResolvableIsValid | validation/validation.go:47-71 | every configuration the TTS resolver accepts passes the startup TTS check |
| Validation.ValidDoesNotImplyResolvable | validation/validation.go:53-57 | the converse is false: a Microsoft block with an empty rate passes the startup check but does not resolve |
| Validation.FirstFailure | validation/validation.go:11-44 | the result is `Pass` exactly when all checks pass, otherwise it is the first failing check |
| Validation.ValidateEnvironment | validation/validation.go:11-44 | passes exactly when the Agora, Conversational AI and LLM settings and the vendor are present, the vendor block is valid, and both modality lists are valid |
| Validation.ValidateEnvironmentReportsFirstFailure | validation/validation.go:11-44 | the error reported is that of the first failing check, in the order app credentials, customer credentials, LLM, vendor tag, vendor block, input modalities, output modalities |
| Validation.ValidateEnvironmentIgnoresModelAndAgent | validation/validation.go:11-44 | the LLM model and the agent UID are never inspected |
| InviteHandler.TokenRequestFor | convoai/convoai_handler_invite.go:19-24 | the token is always requested as type `rtc`, for the request's channel, with UID `"0"` and role `publisher` |
| InviteHandler.GetRemoteRtcUIDs | convoai/convoai_handler_invite.go:156-161 | exactly `[id]` for every requester ID, `"0"` included |
| InviteHandler.EffectiveModalities | convoai/convoai_handler_invite.go:44-52 | the requested list if non-empty, the fallback otherwise |
| InviteHandler.RandomLetters | convoai/convoai_handler_invite.go:164-172 | `n` random bytes give `n` letters |
| InviteHandler.RandomLettersAreLowercase | convoai/convoai_handler_invite.go:164-172 | every letter is in `a..z` |
| InviteHandler.RandomString | convoai/convoai_handler_invite.go:164-172 | the in-place buffer rewrite returns exactly the letters `letters[b[i] mod 26]` of the random bytes |
| InviteHandler.SessionName | convoai/convoai_handler_invite.go:56 | the session name starts with `agent-`, and its length is that of the timestamp and suffix plus 7 |
| InviteHandler.SessionNameTimestamp | convoai/convoai_handler_invite.go:56 | the name is `agent-<decimal nanos>-<suffix>`, and the timestamp parses back from it |
| GoStrings.FormatIntRoundTrip | convoai/convoai_handler_invite.go:56 | `%d` of an integer parses back to that integer |
| GoStrings.FormatInt | convoai/convoai_handler_invite.go:56 | `%d` gives at least one character: only digits for a non-negative integer, a leading `-` for a negative one |
| InviteHandler.BuildStartRequest | convoai/convoai_handler_invite.go:17-97 | a refused token gives `failed to generate token: <cause>` before the TTS block is consulted, a TTS failure gives `failed to get TTS config: <cause>`, and a payload is built exactly when both succeed |
| InviteHandler.StartRequest | convoai/convoai_handler_invite.go:55-97 | the payload lists the requester as the only remote user, sets the string-UID flag exactly when the requester's UID has a non-digit, and never sends an empty modality list |
| InviteHandler.HandleInviteAgent | convoai/convoai_handler_invite.go:17-97 | the handler's result is the payload for session name `agent-<nanos>-<six random letters>`, or its first error |
| InviteHandler.OnlyTheAgentTokenIsRequested | convoai/convoai_handler_invite.go:19-29 | the outcome depends on the token service only through its answer to the agent's token request |
| InviteHandler.TokenFailureShadowsTTS | convoai/convoai_handler_invite.go:26-35 | when the token is refused, the vendor configuration makes no difference |
| InviteHandler.PayloadCopiesInputs | convoai/convoai_handler_invite.go:57-84 | the payload carries the channel, the issued token, the agent UID, `[requester]`, the string-UID flag, the LLM URL, key and model, and the resolved TTS settings unchanged |
| InviteHandler.PayloadModalities | convoai/convoai_handler_invite.go:44-52 | the payload modalities are the requested ones, or `["text"]` in and `["text", "audio"]` out, and are never empty |
| InviteHandler.PayloadConstants | convoai/convoai_handler_invite.go:37-95 | idle timeout 30, ASR `en-US`/`conversation`, VAD 480/15000/160/300 ms, both features off, history 10, 1024 tokens, one `system` message with the fixed prompt, greeting `Hello! How can I assist you today?` and failure text `Please wait a moment.`, the same for every payload |
| InviteHandler.ValidatedChannel | convoai/convoai-service.go:44-51 | a request that passes the invite check names a channel of 3..64 bytes, and the token request and payload carry it |

## Left out

- The HTTP exchange is not modelled: JSON marshalling, the request to the agent platform, status handling and the response decode (`convoai/convoai_handler_invite.go:99-152`). The same goes for all of `convoai/convoai_handler_remove.go`. This is network I/O.
- The gin route handlers (`convoai/convoai-service.go`) are framework dispatch and are not modelled. Only the fact that the invite check runs before the handler is used, in `ValidatedChannel`.
- `cmd/main.go` is not modelled: environment loading, server start and graceful shutdown are I/O and concurrency.
- The CORS helpers of `http_headers` are not part of this model.
- Token signing is not modelled. The token service is a function parameter.
- Floating point is not modelled:
  - `strconv.ParseFloat` is a parameter; its acceptance rules are not modelled.
  - float64 values (parsed rate and volume, temperature 0.7, top-p 0.95, VAD threshold 0.5) are exact `real`s, with no rounding.
- `crypto/rand` and `time.Now` become parameters. The error of `rand.Read`, which the source ignores, is not modelled.
- The debug print of the payload (`fmt.Printf`) is output only and is not modelled.
- Strings that are not valid UTF-8 are not modelled: a Dafny string is a sequence of code points. In Go, `for range` would yield U+FFFD for such bytes, which `isStringUID` treats as a non-digit.
- GetBasicAuth: the concrete test vector (`convoai/convoai_service_test.go:328-338`) is not proved as a literal string. Evaluating the encoding on those 37 literal bytes, and equality on the 58-character result, are beyond the verifier's resource bound. The contract still fixes the value. `BasicAuthDetermined` shows that only one header meets it: the standard padded encoding of `id:secret`, which is what the test expects.
- Base64.Encode: its own contract states only the output length; the alphabet and the round trip are separate lemmas (`EncodeAlphabet`, `EncodeDecode`).
- The `rtc_codec` field of the invite request is carried in the datatype. The core never reads it.
