/**
 * `handleParse`: the transcript-to-entry pipeline behind `POST /v1/parse`.
 * The speech-to-text call, the completion call, JSON decoding and
 * re-encoding, the schema validator, the tz database and the clock are
 * collaborators given as functions; a deadline expiry inside a call is just
 * that call's failure value.
 */
module ParsePipeline {
  import opened Wrappers
  import opened GoStrings
  import opened JsonValue
  import opened CivilDates
  import opened DateResolver
  import Decimal
  import Config

  newtype byte = b: int | 0 <= b < 256
  type Bytes = seq<byte>

  /** An uploaded `audio` part: the declared size and, when reading it succeeded, its bytes. */
  datatype Audio = Audio(filename: string, size: nat, content: Option<Bytes>)

  /** The multipart form fields the handler reads. A missing field reads as "". */
  datatype ParseForm = ParseForm(audio: Option<Audio>, hintText: string, tz: string)

  /** The speech-to-text service's answer: the `text` field it returned, untrimmed, or a failure. */
  datatype Transcription = Transcribed(text: string) | TranscriptionFailed
  datatype Extraction = Extracted(raw: Bytes) | ExtractionFailed

  /** `json.Unmarshal` into a `map[string]any`: an object, the literal `null` (a nil map), or an error. */
  datatype Decoded = DecodedObject(fields: map<string, Json>) | DecodedNull | DecodeFailed

  /** One schema violation as the validator reports it. */
  datatype Violation = Violation(field: string, description: string)

  /** The validator either fails internally or lists the violations; no violation means valid. */
  datatype Validation = EngineError | Checked(errors: seq<Violation>)

  datatype Services = Services(
    transcribe: (string, Bytes) -> Transcription,
    extract: (string, string) -> Extraction,
    decode: Bytes -> Decoded,
    marshal: map<string, Json> -> Option<Bytes>,
    validate: Bytes -> Validation,
    loadable: string -> bool,
    clock: Zone -> ValidDate)

  /** Which external calls a request made: speech-to-text, completion, schema validation. */
  datatype Calls = Calls(transcribe: bool, extract: bool, validate: bool)

  const NoCalls := Calls(false, false, false)

  datatype Body =
    | NoBody
    | Error(error: string)
    | ErrorWithTranscript(error: string, transcript: string)
    | SchemaInvalid(details: seq<string>, transcript: string)
    | JsonBytes(data: Bytes)

  datatype Response = Response(status: int, body: Body)

  /** The validator's text for one violation: "field: description". */
  function Describe(v: Violation): string {
    v.field + ": " + v.description
  }

  /** Go's int64 multiplication result: the exact value wrapped into the int64 range. */
  function WrapInt64(x: int): (r: int)
    ensures Decimal.Int64Min <= r <= Decimal.Int64Max
    ensures Decimal.Int64Min <= x <= Decimal.Int64Max ==> r == x
    ensures (r - x) % 0x1_0000_0000_0000_0000 == 0
  {
    (x - Decimal.Int64Min) % 0x1_0000_0000_0000_0000 + Decimal.Int64Min
  }

  /** `MaxUploadMB*1024*1024`, evaluated in int64. */
  function UploadCeiling(cfg: Config.Config): int {
    WrapInt64(cfg.maxUploadMB * 1024 * 1024)
  }

  /** The zone the request names, or the configured default when the field is empty. */
  function EffectiveTz(cfg: Config.Config, form: ParseForm): string {
    if form.tz == "" then cfg.tzDefault else form.tz
  }

  predicate Oversized(cfg: Config.Config, form: ParseForm) {
    form.audio.Some? && form.audio.value.size > UploadCeiling(cfg)
  }

  predicate Unreadable(cfg: Config.Config, form: ParseForm) {
    form.audio.Some? && !Oversized(cfg, form) && form.audio.value.content.None?
  }

  /** Whether the audio reaches the speech-to-text call. */
  predicate Transcribes(cfg: Config.Config, form: ParseForm) {
    form.audio.Some? && !Oversized(cfg, form) && form.audio.value.content.Some?
  }

  /**
   * The text heard from the audio, trimmed as the client's `Transcribe`
   * returns it; "" when there is none or the call failed (the failure is
   * only logged).
   */
  function AudioText(cfg: Config.Config, form: ParseForm, svc: Services): string {
    if Transcribes(cfg, form) then
      match svc.transcribe(form.audio.value.filename, form.audio.value.content.value)
      case Transcribed(t) => TrimSpace(t)
      case TranscriptionFailed => ""
    else ""
  }

  /** The transcript handed to extraction: the heard text, or the hint when nothing was heard. */
  function Transcript(cfg: Config.Config, form: ParseForm, svc: Services): string {
    var heard := AudioText(cfg, form, svc);
    if heard == "" then form.hintText else heard
  }

  /** Whether the pipeline reaches the extraction call. */
  predicate Extracts(cfg: Config.Config, form: ParseForm, svc: Services) {
    !Oversized(cfg, form) && !Unreadable(cfg, form) && TrimSpace(Transcript(cfg, form, svc)) != ""
  }

  /** The bytes given to the validator: the completion verbatim, or the re-encoded entry when the date was rewritten. */
  function Payload(raw: Bytes, fields: map<string, Json>, today: string,
                   marshal: map<string, Json> -> Option<Bytes>): Option<Bytes>
  {
    if ResetsDate(fields) then marshal(ResolvedEntry(fields, today)) else Some(raw)
  }

  /** The `details` list of a 422 `schema_invalid` answer: one entry per violation, in order. */
  function Details(errors: seq<Violation>): (details: seq<string>)
    ensures |details| == |errors|
    ensures forall k :: 0 <= k < |errors| ==> details[k] == Describe(errors[k])
  {
    if errors == [] then [] else Details(errors[..|errors| - 1]) + [Describe(errors[|errors| - 1])]
  }

  /** Builds the `details` list violation by violation. */
  method CollectDetails(errors: seq<Violation>) returns (details: seq<string>)
    ensures details == Details(errors)
  {
    details := [];
    var i := 0;
    while i < |errors|
      invariant 0 <= i <= |errors|
      invariant details == Details(errors[..i])
    {
      assert errors[..i + 1][..i] == errors[..i];
      details := details + [Describe(errors[i])];
      i := i + 1;
    }
    assert errors[..i] == errors;
  }

  /** The answer the validation stage gives for the payload it checked. */
  function ValidationAnswer(validation: Validation, payload: Bytes, transcript: string): Response {
    match validation
    case EngineError => Response(500, Error("validation_failed"))
    case Checked(errors) =>
      if errors == [] then Response(200, JsonBytes(payload))
      else Response(422, SchemaInvalid(Details(errors), transcript))
  }

  /** The validation stage: 500 on an engine failure, 422 with the details on violations, else 200 with the bytes. */
  method ValidateStage(payload: Bytes, transcript: string, validate: Bytes -> Validation) returns (resp: Response)
    ensures resp == ValidationAnswer(validate(payload), payload, transcript)
  {
    var res := validate(payload);
    if res.EngineError? {
      return Response(500, Error("validation_failed"));
    }
    if res.errors != [] {
      var details := CollectDetails(res.errors);
      return Response(422, SchemaInvalid(details, transcript));
    }
    return Response(200, JsonBytes(payload));
  }

  /** A 200 from validation carries the payload, and only when the validator found nothing. */
  lemma ValidationSuccess(validation: Validation, payload: Bytes, transcript: string)
    ensures ValidationAnswer(validation, payload, transcript).status == 200 <==> validation == Checked([])
    ensures ValidationAnswer(validation, payload, transcript).status == 200 ==>
      ValidationAnswer(validation, payload, transcript).body == JsonBytes(payload)
  {
  }

  /** The answer of the stages after a completion, and whether the validator was called. */
  datatype Stage = Stage(resp: Response, validated: bool)

  /**
   * The stages after a successful completion: decode, resolve the date
   * against `today`, re-encode only when the date was rewritten, validate.
   */
  function AfterCompletion(raw: Bytes, transcript: string, today: string, svc: Services): Stage {
    match svc.decode(raw)
    case DecodeFailed => Stage(Response(500, Error("invalid_parse_response")), false)
    // a JSON null is a nil map: the date write panics and the recovery handler answers 500
    case DecodedNull => Stage(Response(500, NoBody), false)
    case DecodedObject(fields) =>
      match Payload(raw, fields, today, svc.marshal)
      case None => Stage(Response(500, Error("serialization_failed")), false)
      case Some(bytes) => Stage(ValidationAnswer(svc.validate(bytes), bytes, transcript), true)
  }

  /** A 200 after the completion carries exactly the bytes the validator accepted. */
  lemma SuccessCarriesValidatedBytes(raw: Bytes, transcript: string, today: string, svc: Services)
    requires AfterCompletion(raw, transcript, today, svc).resp.status == 200
    ensures var st := AfterCompletion(raw, transcript, today, svc);
      st.validated && st.resp.body.JsonBytes? && svc.validate(st.resp.body.data) == Checked([])
  {
    match svc.decode(raw)
    case DecodedObject(fields) =>
      var payload := Payload(raw, fields, today, svc.marshal);
      ValidationSuccess(svc.validate(payload.value), payload.value, transcript);
  }

  /** When the date was left alone, a 200 carries the completion's bytes unchanged. */
  lemma UntouchedDateKeepsCompletionBytes(raw: Bytes, transcript: string, today: string, svc: Services)
    requires svc.decode(raw).DecodedObject? && !ResetsDate(svc.decode(raw).fields)
    requires AfterCompletion(raw, transcript, today, svc).resp.status == 200
    ensures AfterCompletion(raw, transcript, today, svc).resp.body == JsonBytes(raw)
  {
    var fields := svc.decode(raw).fields;
    assert Payload(raw, fields, today, svc.marshal) == Some(raw);
    ValidationSuccess(svc.validate(raw), raw, transcript);
  }

  /** When the date was rewritten, a 200 carries the re-encoding of the resolved entry. */
  lemma RewrittenDateIsReencoded(raw: Bytes, transcript: string, today: string, svc: Services)
    requires svc.decode(raw).DecodedObject? && ResetsDate(svc.decode(raw).fields)
    requires AfterCompletion(raw, transcript, today, svc).resp.status == 200
    ensures var fields := svc.decode(raw).fields;
      svc.marshal(ResolvedEntry(fields, today)).Some?
      && AfterCompletion(raw, transcript, today, svc).resp.body == JsonBytes(svc.marshal(ResolvedEntry(fields, today)).value)
  {
    var fields := svc.decode(raw).fields;
    var payload := Payload(raw, fields, today, svc.marshal);
    assert payload == svc.marshal(ResolvedEntry(fields, today));
    ValidationSuccess(svc.validate(payload.value), payload.value, transcript);
  }

  /** The stages after a completion answer 200, 422 or 500, never an upload error. */
  lemma AnswerStatus(raw: Bytes, transcript: string, today: string, svc: Services)
    ensures var status := AfterCompletion(raw, transcript, today, svc).resp.status;
      status == 200 || status == 422 || status == 500
  {
  }

  /** The decode / date / validate stages. */
  method ResolveAndValidate(raw: Bytes, transcript: string, tz: string, cfg: Config.Config, svc: Services)
    returns (resp: Response, validated: bool)
    ensures Stage(resp, validated) == AfterCompletion(raw, transcript, Today(tz, cfg.tzDefault, svc.loadable, svc.clock), svc)
  {
    var parsed := raw;
    var parsedObj: JsonMap? := null;
    match svc.decode(parsed) {
      case DecodeFailed =>
        return Response(500, Error("invalid_parse_response")), false;
      case DecodedNull =>
        parsedObj := null;
      case DecodedObject(fields) =>
        parsedObj := new JsonMap(fields);
    }

    var changed, panicked := EnsureDate(parsedObj, transcript, tz, cfg.tzDefault, svc.loadable, svc.clock);
    if panicked {
      // recovered by the router's panic handler
      return Response(500, NoBody), false;
    }
    ghost var fields := svc.decode(raw).fields;
    ghost var today := Today(tz, cfg.tzDefault, svc.loadable, svc.clock);
    ResolvedEntryCases(fields, today);
    if changed {
      var remarshalled := svc.marshal(parsedObj.entries);
      assert Payload(raw, fields, today, svc.marshal) == remarshalled;
      if remarshalled.None? {
        return Response(500, Error("serialization_failed")), false;
      }
      parsed := remarshalled.value;
    } else {
      assert Payload(raw, fields, today, svc.marshal) == Some(raw);
    }

    validated := true;
    resp := ValidateStage(parsed, transcript, svc.validate);
  }

  /** The response of `handleParse` and the external calls it made, in order. */
  datatype Outcome = Outcome(resp: Response, calls: Calls)

  /** `handleParse` as a function of the configuration, the form and the collaborators. */
  function ParseOutcome(cfg: Config.Config, form: ParseForm, svc: Services): Outcome {
    if Oversized(cfg, form) then Outcome(Response(413, Error("file too large")), NoCalls)
    else if Unreadable(cfg, form) then Outcome(Response(400, Error("failed to read file")), NoCalls)
    else TranscriptOutcome(cfg, EffectiveTz(cfg, form), svc, Transcript(cfg, form, svc), Transcribes(cfg, form))
  }

  /**
   * The handler once the transcript is known: a blank one is rejected,
   * otherwise it goes to extraction and then to the resolver and validation.
   */
  function TranscriptOutcome(cfg: Config.Config, tz: string, svc: Services, transcript: string, transcribed: bool): Outcome {
    if TrimSpace(transcript) == "" then
      Outcome(Response(400, Error("no audio or hint_text provided")), Calls(transcribed, false, false))
    else
      match svc.extract(transcript, tz)
      case ExtractionFailed =>
        Outcome(Response(422, ErrorWithTranscript("could_not_parse", transcript)), Calls(transcribed, true, false))
      case Extracted(raw) =>
        var st := AfterCompletion(raw, transcript, Today(tz, cfg.tzDefault, svc.loadable, svc.clock), svc);
        Outcome(st.resp, Calls(transcribed, true, st.validated))
  }

  /**
   * The upload checks and the speech-to-text stage: an early answer for an
   * oversized or unreadable upload, otherwise the transcript.
   */
  method GatherTranscript(cfg: Config.Config, form: ParseForm, svc: Services)
    returns (early: Option<Response>, transcript: string, calls: Calls)
    ensures Oversized(cfg, form) ==> early == Some(Response(413, Error("file too large")))
    ensures Unreadable(cfg, form) ==> early == Some(Response(400, Error("failed to read file")))
    ensures !Oversized(cfg, form) && !Unreadable(cfg, form) ==> early.None? && transcript == Transcript(cfg, form, svc)
    ensures calls == Calls(early.None? && Transcribes(cfg, form), false, false)
  {
    calls := NoCalls;
    transcript := "";
    if form.audio.Some? {
      var audio := form.audio.value;
      if audio.size > UploadCeiling(cfg) {
        return Some(Response(413, Error("file too large"))), transcript, calls;
      }
      if audio.content.None? {
        return Some(Response(400, Error("failed to read file"))), transcript, calls;
      }
      calls := calls.(transcribe := true);
      var heard := svc.transcribe(audio.filename, audio.content.value);
      if heard.Transcribed? {
        transcript := TrimSpace(heard.text);
      }
    }
    if transcript == "" {
      transcript := form.hintText;
    }
    early := None;
  }

  method HandleParse(cfg: Config.Config, form: ParseForm, svc: Services) returns (resp: Response, calls: Calls)
    ensures Outcome(resp, calls) == ParseOutcome(cfg, form, svc)
  {
    var tz := form.tz;
    if tz == "" {
      tz := cfg.tzDefault;
    }
    assert tz == EffectiveTz(cfg, form);

    var early, transcript;
    early, transcript, calls := GatherTranscript(cfg, form, svc);
    if early.Some? {
      return early.value, calls;
    }
    resp, calls := ParseTranscript(cfg, tz, svc, transcript, calls.transcribe);
  }

  /** The stages after speech-to-text: the blank check, extraction, the resolver and validation. */
  method ParseTranscript(cfg: Config.Config, tz: string, svc: Services, transcript: string, transcribed: bool)
    returns (resp: Response, calls: Calls)
    ensures Outcome(resp, calls) == TranscriptOutcome(cfg, tz, svc, transcript, transcribed)
  {
    calls := Calls(transcribed, false, false);
    if TrimSpace(transcript) == "" {
      return Response(400, Error("no audio or hint_text provided")), calls;
    }

    calls := calls.(extract := true);
    var extraction := svc.extract(transcript, tz);
    if extraction.ExtractionFailed? {
      return Response(422, ErrorWithTranscript("could_not_parse", transcript)), calls;
    }

    var validated;
    resp, validated := ResolveAndValidate(extraction.raw, transcript, tz, cfg, svc);
    if validated {
      calls := calls.(validate := true);
    }
  }

  /**
   * The upload ceiling is checked before any call: a size over
   * MaxUploadMB*1024*1024 is the only way to a 413 and makes no call, and a
   * size exactly at the ceiling is accepted.
   */
  lemma UploadCeilingGate(cfg: Config.Config, form: ParseForm, svc: Services)
    ensures ParseOutcome(cfg, form, svc).resp.status == 413 <==> Oversized(cfg, form)
    ensures Oversized(cfg, form) ==> ParseOutcome(cfg, form, svc) == Outcome(Response(413, Error("file too large")), NoCalls)
    ensures form.audio.Some? && form.audio.value.size == UploadCeiling(cfg) ==> !Oversized(cfg, form)
  {
    if !Oversized(cfg, form) && !Unreadable(cfg, form) && TrimSpace(Transcript(cfg, form, svc)) != "" {
      var tz := EffectiveTz(cfg, form);
      var transcript := Transcript(cfg, form, svc);
      match svc.extract(transcript, tz)
      case ExtractionFailed =>
      case Extracted(raw) =>
        AnswerStatus(raw, transcript, Today(tz, cfg.tzDefault, svc.loadable, svc.clock), svc);
    }
  }

  /** Speech-to-text is called exactly when an audio part within the ceiling was read. */
  lemma TranscribeCalledIff(cfg: Config.Config, form: ParseForm, svc: Services)
    ensures ParseOutcome(cfg, form, svc).calls.transcribe <==> Transcribes(cfg, form)
  {
    if !Oversized(cfg, form) && !Unreadable(cfg, form) && TrimSpace(Transcript(cfg, form, svc)) != "" {
      var transcript := Transcript(cfg, form, svc);
      match svc.extract(transcript, EffectiveTz(cfg, form))
      case ExtractionFailed =>
      case Extracted(raw) =>
    }
  }

  /** A failed transcription is only logged: the hint text takes its place. */
  lemma FailedTranscriptionUsesHint(cfg: Config.Config, form: ParseForm, svc: Services)
    requires Transcribes(cfg, form)
    requires svc.transcribe(form.audio.value.filename, form.audio.value.content.value).TranscriptionFailed?
    ensures Transcript(cfg, form, svc) == form.hintText
  {
    assert AudioText(cfg, form, svc) == "";
  }

  /** The heard text is already trimmed: it is either "" or starts and ends with a non-space. */
  lemma HeardTextIsTrimmed(cfg: Config.Config, form: ParseForm, svc: Services)
    ensures TrimSpace(AudioText(cfg, form, svc)) == AudioText(cfg, form, svc)
  {
    if Transcribes(cfg, form) {
      match svc.transcribe(form.audio.value.filename, form.audio.value.content.value)
      case Transcribed(t) => TrimSpaceIdempotent(t);
      case TranscriptionFailed =>
    }
  }

  /** Audio heard as nothing but white space falls back to the hint, exactly like a failed transcription. */
  lemma BlankAudioUsesHint(cfg: Config.Config, form: ParseForm, svc: Services)
    requires Transcribes(cfg, form)
    requires svc.transcribe(form.audio.value.filename, form.audio.value.content.value).Transcribed?
    requires IsBlank(svc.transcribe(form.audio.value.filename, form.audio.value.content.value).text)
    ensures Transcript(cfg, form, svc) == form.hintText
  {
    TrimSpaceEmptyIffBlank(svc.transcribe(form.audio.value.filename, form.audio.value.content.value).text);
  }

  /**
   * Because the heard text is trimmed, the transcript is blank only when
   * nothing was heard and the hint is blank too: heard text never hides the hint.
   */
  lemma BlankTranscriptNeedsBlankHint(cfg: Config.Config, form: ParseForm, svc: Services)
    ensures TrimSpace(Transcript(cfg, form, svc)) == "" <==>
      AudioText(cfg, form, svc) == "" && TrimSpace(form.hintText) == ""
  {
    HeardTextIsTrimmed(cfg, form, svc);
  }


  /** No usable text: a 400 before the completion call. */
  lemma NoTextRejected(cfg: Config.Config, form: ParseForm, svc: Services)
    requires !Oversized(cfg, form) && !Unreadable(cfg, form)
    requires IsBlank(Transcript(cfg, form, svc))
    ensures ParseOutcome(cfg, form, svc).resp == Response(400, Error("no audio or hint_text provided"))
    ensures !ParseOutcome(cfg, form, svc).calls.extract
  {
    TrimSpaceEmptyIffBlank(Transcript(cfg, form, svc));
  }

  /** The completion is called exactly when the upload passed and the transcript is not blank. */
  lemma ExtractCalledIff(cfg: Config.Config, form: ParseForm, svc: Services)
    ensures ParseOutcome(cfg, form, svc).calls.extract <==> Extracts(cfg, form, svc)
  {
    if Extracts(cfg, form, svc) {
      var transcript := Transcript(cfg, form, svc);
      match svc.extract(transcript, EffectiveTz(cfg, form))
      case ExtractionFailed =>
      case Extracted(raw) =>
    }
  }

  /** The validator is only reached after the completion. */
  lemma ValidateNeedsExtract(cfg: Config.Config, form: ParseForm, svc: Services)
    ensures ParseOutcome(cfg, form, svc).calls.validate ==> ParseOutcome(cfg, form, svc).calls.extract
  {
    if Extracts(cfg, form, svc) {
      var transcript := Transcript(cfg, form, svc);
      match svc.extract(transcript, EffectiveTz(cfg, form))
      case ExtractionFailed =>
      case Extracted(raw) =>
    }
  }

  /** A failed completion (an error or an expired deadline) is a 422 that echoes the transcript verbatim. */
  lemma FailedExtractionEchoesTranscript(cfg: Config.Config, form: ParseForm, svc: Services)
    requires Extracts(cfg, form, svc)
    requires svc.extract(Transcript(cfg, form, svc), EffectiveTz(cfg, form)).ExtractionFailed?
    ensures ParseOutcome(cfg, form, svc).resp ==
      Response(422, ErrorWithTranscript("could_not_parse", Transcript(cfg, form, svc)))
    ensures !ParseOutcome(cfg, form, svc).calls.validate
  {
  }

  /** After a completion, the answer is the one the later stages give. */
  lemma CompletionAnswers(cfg: Config.Config, form: ParseForm, svc: Services)
    requires Extracts(cfg, form, svc)
    requires svc.extract(Transcript(cfg, form, svc), EffectiveTz(cfg, form)).Extracted?
    ensures var tz := EffectiveTz(cfg, form);
      var st := AfterCompletion(svc.extract(Transcript(cfg, form, svc), tz).raw, Transcript(cfg, form, svc),
                                Today(tz, cfg.tzDefault, svc.loadable, svc.clock), svc);
      ParseOutcome(cfg, form, svc) == Outcome(st.resp, Calls(Transcribes(cfg, form), true, st.validated))
  {
  }

  /** Schema violations: a 422 with one detail per violation of the checked payload, plus the transcript. */
  lemma SchemaViolationsReported(cfg: Config.Config, form: ParseForm, svc: Services, payload: Bytes)
    requires Extracts(cfg, form, svc)
    requires svc.extract(Transcript(cfg, form, svc), EffectiveTz(cfg, form)).Extracted?
    requires var raw := svc.extract(Transcript(cfg, form, svc), EffectiveTz(cfg, form)).raw;
      svc.decode(raw).DecodedObject?
      && Payload(raw, svc.decode(raw).fields, Today(EffectiveTz(cfg, form), cfg.tzDefault, svc.loadable, svc.clock),
                 svc.marshal) == Some(payload)
    requires svc.validate(payload).Checked? && svc.validate(payload).errors != []
    ensures var resp := ParseOutcome(cfg, form, svc).resp;
      && resp.status == 422 && resp.body.SchemaInvalid?
      && resp.body.transcript == Transcript(cfg, form, svc)
      && |resp.body.details| == |svc.validate(payload).errors|
      && forall k :: 0 <= k < |resp.body.details| ==> resp.body.details[k] == Describe(svc.validate(payload).errors[k])
  {
    CompletionAnswers(cfg, form, svc);
    var tz := EffectiveTz(cfg, form);
    var transcript := Transcript(cfg, form, svc);
    var raw := svc.extract(transcript, tz).raw;
    var today := Today(tz, cfg.tzDefault, svc.loadable, svc.clock);
    assert AfterCompletion(raw, transcript, today, svc).resp == ValidationAnswer(svc.validate(payload), payload, transcript);
  }

  /** A JSON `null` completion ends in the recovered panic: 500 with no body, validator not called. */
  lemma NullCompletionPanics(cfg: Config.Config, form: ParseForm, svc: Services)
    requires Extracts(cfg, form, svc)
    requires svc.extract(Transcript(cfg, form, svc), EffectiveTz(cfg, form)).Extracted?
    requires svc.decode(svc.extract(Transcript(cfg, form, svc), EffectiveTz(cfg, form)).raw) == DecodedNull
    ensures ParseOutcome(cfg, form, svc) == Outcome(Response(500, NoBody), Calls(Transcribes(cfg, form), true, false))
  {
  }

  /** A 200 carries exactly the bytes the validator accepted. */
  lemma ParseSuccessIsValidated(cfg: Config.Config, form: ParseForm, svc: Services)
    requires ParseOutcome(cfg, form, svc).resp.status == 200
    ensures var o := ParseOutcome(cfg, form, svc);
      o.calls.validate && o.resp.body.JsonBytes? && svc.validate(o.resp.body.data) == Checked([])
  {
    UploadCeilingGate(cfg, form, svc);
    var transcript := Transcript(cfg, form, svc);
    var tz := EffectiveTz(cfg, form);
    match svc.extract(transcript, tz)
    case ExtractionFailed =>
    case Extracted(raw) =>
      SuccessCarriesValidatedBytes(raw, transcript, Today(tz, cfg.tzDefault, svc.loadable, svc.clock), svc);
  }

  /** When the date was left alone, a 200 is the completion's output byte for byte. */
  lemma ParseSuccessKeepsCompletion(cfg: Config.Config, form: ParseForm, svc: Services)
    requires ParseOutcome(cfg, form, svc).resp.status == 200
    requires svc.extract(Transcript(cfg, form, svc), EffectiveTz(cfg, form)).Extracted?
    requires var raw := svc.extract(Transcript(cfg, form, svc), EffectiveTz(cfg, form)).raw;
      svc.decode(raw).DecodedObject? && !ResetsDate(svc.decode(raw).fields)
    ensures ParseOutcome(cfg, form, svc).resp.body ==
      JsonBytes(svc.extract(Transcript(cfg, form, svc), EffectiveTz(cfg, form)).raw)
  {
    UploadCeilingGate(cfg, form, svc);
    ExtractCalledIff(cfg, form, svc);
    CompletionAnswers(cfg, form, svc);
    var transcript := Transcript(cfg, form, svc);
    var tz := EffectiveTz(cfg, form);
    var raw := svc.extract(transcript, tz).raw;
    UntouchedDateKeepsCompletionBytes(raw, transcript, Today(tz, cfg.tzDefault, svc.loadable, svc.clock), svc);
  }
}
