# EZ-Money back end: parse pipeline, date resolver, auth and profile rules

A Dafny model of the core of the EZ-Money Go back end. The model covers:

- **The transcript-to-entry pipeline** (`handleParse`). It checks the upload ceiling, transcribes with a hint-text fallback, extracts, decodes, resolves the date, re-encodes and validates against the schema. It is a method over abstract outcomes of the speech-to-text call, the completion call, the JSON decoder and the schema validator.
- **The date resolver** (`ensureDate`, `needsDateConfirmation`, `loadLocationOrIndia`). It includes a validator for Go's `time.Parse("2006-01-02", …)`.
- **The partial update of an entry** (`updateEntry`).
- **The claim-token guard on profile updates** (`updateProfile`).
- **The authentication handlers.** These are guest sessions, OTP send and verify, registration with guest upgrade, login and identify, together with the session-token and claim-token formats.
- **The bearer-token middleware.**
- **The `StringArray` column codec.** This includes a model of `encoding/json` for `[]string`: the encoder, the syntax check of the whole text, and how the decoder writes an array over the receiver's elements, with `null` and mistyped elements leaving an element as it was.
- **The `users` table with its unique indexes.**
- **The configuration loader**, and the global bearer check that the loader switches on.

Modules follow the source layout:

| module | source |
|---|---|
| `Config`, `Server` | `config.go`; the bearer gate of `NewServer` |
| `ParsePipeline` | `handleParse` |
| `DateResolver` and `CivilDates` | the date helpers |
| `EntryModel` and `JsonStrings` | `entry.go` |
| `EntryUpdate` | `updateEntry` |
| `Users` | `user.go` plus the table the handlers write |
| `Auth` | `auth.go` |
| `Middleware` | `middleware.go` |
| `Profile` | `updateProfile` |
| `GoStrings`, `Decimal`, `JsonValue`, `Wrappers` | the Go library functions the handlers call |

The model takes the form the source has:

- **Classes and methods.** State that the source changes in place is modelled with them: the user table (`Users.UserTable`, with `Create` and `Save`), the decoded JSON object that `ensureDate` writes into (`DateResolver.JsonMap`), and the `StringArray` receiver of `Scan`. Handlers that run step by step (`handleParse`, `updateEntry`, `updateProfile`, `authGuest`, `authRegister`, `authLogin`) are methods. Each one is proved equal to a pure outcome function, and the properties are lemmas about that function.
- **Functions.** Pure branch logic (the middleware, the claim tokens, the configuration, the bypass predicate) is modelled with functions.

Collaborators are parameters:

- the clock is a function from zone to calendar day;
- time-zone loading is a predicate on zone names;
- the random hex strings of `generateUUID` are a sequence of draws;
- bcrypt is a hash outcome plus a comparison function;
- the database save of an entry is a function that may return an error;
- the OpenAI calls, the JSON decoder and encoder and the schema validator are fields of `ParsePipeline.Services`.

## Verifying

All the `.dfy` files form one program and are verified together, from this directory:

```
dafny verify --resource-limit 2000000 --verification-time-limit 0 --warn-contradictory-assumptions *.dfy
```

The proofs are kept small enough to fit Dafny's default per-batch time limit as well, so the flags are optional.

## Model

| member | source | states |
|---|---|---|
| Config.Getenv | internal/config/config.go:24-27 | the variable when it is non-empty, otherwise the default |
| Config.Atoi | internal/config/config.go:29-34 | the parsed value when the variable is set and `strconv.Atoi` accepts it, otherwise the default; never fails |
| Config.Load | internal/config/config.go:43-57 | every setting with a non-empty default is non-empty; the global bearer and the OpenAI key are exactly what the environment holds |
| Config.EmptyCountsAsUnset | internal/config/config.go:24-34 | an empty variable gives the same result as an unset one, for both lookups |
| Config.LoadDefaults | internal/config/config.go:43-57 | with an empty environment: port "8080", no bearer, zone "Asia/Kolkata", timeout 30, MaxUploadMB 15 |
| Config.UnparsableMaxUpload | internal/config/config.go:56 | a MAX_UPLOAD_MB that `atoi` rejects yields 15 |
| Config.DecimalMaxUpload | internal/config/config.go:56 | a MAX_UPLOAD_MB holding a decimal integer yields that integer |
| Decimal.Atoi | internal/config/config.go:31 | `strconv.Atoi`: a value exactly when the text is an optional sign and at least one digit whose magnitude fits int64 (up to 2^63 after a '-'); the value is the digits' value, negated after a '-' |
| Decimal.AtoiLeadingZero | internal/config/config.go:31 | leading zeros are accepted: a zero before the rendering of n reads as n, and "-0" before it as -n |
| Decimal.AtoiShow | internal/config/config.go:31 | `Atoi` reads back the decimal rendering of every n up to the int64 maximum, also after a '+', and after a '-' as -n |
| Decimal.ParseUint32 | internal/http/handlers.go:275 | `strconv.ParseUint(s, 10, 32)`: digits only and a value below 2^32, else no value |
| Decimal.ParseUint32Show | internal/http/handlers.go:275 | every 32-bit value's rendering parses back to the value |
| Server.BearerGate | internal/http/handlers.go:37-52 | without AUTH_BEARER every request passes; "/health" and the four prefixed route families bypass; otherwise the header must be "Bearer " + the configured token |
| Server.BypassIsPrefixTest | internal/http/handlers.go:39-43 | `BypassesBearer` is a prefix test for the four route families, so any continuation of them is exempt, while "/health" is exempt only exactly |
| Server.DefaultConfigHasNoGate | internal/config/config.go:47 | with the default configuration the global check is not installed and every request passes it |
| Server.UploadNeedsGlobalBearer | internal/http/handlers.go:37-52 | "/v1/upload" is not exempt: once installed, the gate refuses it without the configured token |
| CivilDates.ParseDate | internal/http/handlers.go:453 | the layout "2006-01-02" accepts four year digits, a month 01-12 and a day that exists in that month and year, and nothing after it |
| CivilDates.ParseFormat | internal/http/handlers.go:453-458 | parsing a formatted day gives the day back |
| CivilDates.FormatParse | internal/http/handlers.go:453-458 | every accepted string is the formatting of the day it denotes |
| CivilDates.FormattedIsValid | internal/http/handlers.go:458 | the date written by the resolver is always accepted by the validator |
| CivilDates.LeapDay | internal/http/handlers.go:453 | February 29th is accepted exactly in leap years |
| DateResolver.CandidateZone | internal/http/handlers.go:483-488 | the requested zone if non-blank, else the fallback if non-blank, else "Asia/Kolkata" |
| DateResolver.LoadLocationOrIndia | internal/http/handlers.go:482-498 | total; the candidate when it loads, else "Asia/Kolkata" when that loads, else the fixed +05:30 "IST" zone; a named zone always loads |
| DateResolver.UnloadableRequestSkipsDefault | internal/http/handlers.go:483-495 | a non-blank requested zone that does not load never yields the configured default, even a loadable one |
| DateResolver.TodayIsValid | internal/http/handlers.go:446-458 | today's date text is always a valid date |
| DateResolver.ResolvedEntry | internal/http/handlers.go:445-469 | when the resolver rewrites, only `date` changes and it becomes today; otherwise the map is untouched; every other key keeps its value |
| DateResolver.ResolvedEntryCases | internal/http/handlers.go:456-468 | the resolved map is either the old one with `date` set to today, or the old one |
| DateResolver.ValidDateIsTrimmed | internal/http/handlers.go:452-453 | a date the validator accepts has no surrounding space |
| DateResolver.ResolvedRecheck | internal/http/handlers.go:456-468 | after one pass, a second pass rewrites again only when `needs_confirmation.date` is true |
| DateResolver.WrittenDateStands | internal/http/handlers.go:456-467 | once today's date is written, only the confirmation flag can force another rewrite |
| DateResolver.ResolvedEntryIdempotent | internal/http/handlers.go:445-469 | for a fixed today, resolving twice is resolving once |
| DateResolver.UntrimmedDateKept | internal/http/handlers.go:451-464 | a valid date with surrounding spaces passes the check and is stored untrimmed |
| DateResolver.StringFlagIsNotConfirmation | internal/http/handlers.go:471-480 | `needs_confirmation.date` counts only as the JSON boolean true, not the string "true" |
| DateResolver.ConfirmationOverridesDate | internal/http/handlers.go:456-458 | when `NeedsDateConfirmation` holds, `ResetsDate` holds and the date becomes today, however valid it was |
| DateResolver.ConfirmationIgnoresDate | internal/http/handlers.go:471-480 | `NeedsDateConfirmation` reads only its own key: changing `date` never changes it |
| DateResolver.ResetDecision | internal/http/handlers.go:451-462 | the date is overwritten exactly when the confirmation flag is set, the trimmed date text is empty, or it does not parse as a date |
| DateResolver.DateKeptIff | internal/http/handlers.go:451-462 | without the flag, `ResetsDate` fails exactly when `date` is a string whose trimmed text is a valid date; a missing or non-string date is replaced |
| DateResolver.EnsureDate | internal/http/handlers.go:445-469 | returns whether it rewrote the date; on a non-nil map the new contents are `ResolvedEntry` of the old; a nil map panics on the write; the transcript is unused |
| ParsePipeline.WrapInt64 | internal/http/handlers.go:105 | the int64 product of the ceiling computation: the exact value wrapped into int64, unchanged when in range |
| ParsePipeline.Details | internal/http/handlers.go:155-158 | one detail per violation, in order, each the violation's text |
| ParsePipeline.CollectDetails | internal/http/handlers.go:155-158 | the loop builds exactly `Details` of the violations |
| ParsePipeline.ValidateStage | internal/http/handlers.go:149-163 | 500 `validation_failed` on an engine error, 422 `schema_invalid` with details and transcript on violations, else 200 with the payload |
| ParsePipeline.ValidationSuccess | internal/http/handlers.go:149-163 | validation answers 200 exactly when there are no violations, and then with the checked bytes |
| ParsePipeline.ResolveAndValidate | internal/http/handlers.go:135-163 | the decode, date, re-encode and validate stages equal `AfterCompletion` for today's date in the resolved zone |
| ParsePipeline.SuccessCarriesValidatedBytes | internal/http/handlers.go:141-163 | a 200 after the completion carries exactly the bytes the validator accepted |
| ParsePipeline.UntouchedDateKeepsCompletionBytes | internal/http/handlers.go:141-163 | when the date is left alone, a 200 carries the completion's bytes unchanged |
| ParsePipeline.RewrittenDateIsReencoded | internal/http/handlers.go:141-163 | when the date is rewritten, a 200 carries the re-encoding of the resolved map |
| ParsePipeline.AnswerStatus | internal/http/handlers.go:135-163 | after a completion the answer is 200, 422 or 500 |
| ParsePipeline.GatherTranscript | internal/http/handlers.go:101-123 | 413 when the upload is over the ceiling, 400 when it cannot be read, else the transcript with the hint fallback; records whether transcription was called |
| ParsePipeline.HandleParse | internal/http/handlers.go:91-164 | the response and the collaborator calls equal `ParseOutcome` |
| ParsePipeline.ParseTranscript | internal/http/handlers.go:124-163 | once the transcript is known, the response and the calls equal `TranscriptOutcome`: a blank transcript is rejected before extraction, a failed extraction is a 422 carrying the transcript, and validation is called only after a successful extraction |
| ParsePipeline.UploadCeilingGate | internal/http/handlers.go:105-108 | 413 exactly when the size exceeds MaxUploadMB*1024*1024, with no call made; a size equal to the ceiling is accepted |
| ParsePipeline.TranscribeCalledIff | internal/http/handlers.go:102-119 | speech-to-text is called exactly when an audio part within the ceiling was read |
| ParsePipeline.FailedTranscriptionUsesHint | internal/http/handlers.go:114-123 | a failed transcription is only logged; the hint text becomes the transcript |
| ParsePipeline.HeardTextIsTrimmed | internal/ai/openai.go:57-63 | the text taken from speech-to-text is already trimmed, as the client's `Transcribe` returns it |
| ParsePipeline.BlankAudioUsesHint | internal/http/handlers.go:114-123 | audio heard as nothing but white space falls back to the hint, like a failed transcription |
| ParsePipeline.BlankTranscriptNeedsBlankHint | internal/http/handlers.go:114-127 | the transcript is blank exactly when nothing was heard and the hint is blank, so heard text never hides the hint |
| ParsePipeline.NoTextRejected | internal/http/handlers.go:124-127 | a blank transcript is answered 400 and the completion is never called |
| ParsePipeline.ExtractCalledIff | internal/http/handlers.go:105-129 | the completion is called exactly when the upload passed and the transcript is not blank |
| ParsePipeline.ValidateNeedsExtract | internal/http/handlers.go:129-149 | the validator is only reached after the completion |
| ParsePipeline.FailedExtractionEchoesTranscript | internal/http/handlers.go:129-133 | a failed or timed-out completion is 422 `could_not_parse` with the transcript verbatim, and no validation |
| ParsePipeline.CompletionAnswers | internal/http/handlers.go:129-163 | after a successful completion the answer is the later stages' answer for the effective zone |
| ParsePipeline.SchemaViolationsReported | internal/http/handlers.go:154-160 | violations give 422 `schema_invalid` with one detail per violation of the checked payload and the transcript |
| ParsePipeline.NullCompletionPanics | internal/http/handlers.go:135-147 | a JSON `null` completion decodes to a nil map; the date write panics and the recovered answer is a bare 500 |
| ParsePipeline.ParseSuccessIsValidated | internal/http/handlers.go:141-163 | every 200 is the bytes the validator accepted, after a completion |
| ParsePipeline.ParseSuccessKeepsCompletion | internal/http/handlers.go:141-163 | when the date was left alone, a 200 is the completion's output byte for byte |
| EntryModel.Value | internal/models/entry.go:38-43 | no elements give "[]" (never "null"); the text is a JSON array that decodes back to the elements |
| EntryModel.StringArrayCell.Scan | internal/models/entry.go:45-64 | the receiver and the error are `ScanResult` of the old receiver and the value: nil for `nil` or empty data, an error and no change for another type, otherwise `json.Unmarshal` into the old receiver |
| EntryModel.ScanValueRoundTrip | internal/models/entry.go:38-64 | scanning what `Value` wrote gives the same elements and no error, whatever the receiver held; nil comes back empty |
| EntryModel.ScanBytesAsText | internal/models/entry.go:51-55 | bytes and a string with the same text scan alike |
| EntryModel.ScanNothingIsNil | internal/models/entry.go:46-62 | `Scan(nil)` and empty data give the nil array and no error |
| EntryModel.ScanOtherTypeRejected | internal/models/entry.go:56-58 | any other type is an error and leaves the receiver unchanged |
| EntryModel.ScanErrorKeepsReceiver | internal/models/entry.go:45-64 | a syntax error or an unsupported type leaves the receiver unchanged; a type error changes it only when the text is an array |
| EntryModel.ScanArrayOverwrites | internal/models/entry.go:63 | an array sets the receiver's length to its own; strings overwrite elements, `null` and mistyped elements keep the old element or "" past the old end; the error is reported exactly when some element is mistyped |
| EntryModel.ScanNullKeepsElement | internal/models/entry.go:63 | `[s]` scanning `[null]` stays `[s]`, with no error |
| EntryModel.ScanTypeErrorWritesArray | internal/models/entry.go:63 | an empty receiver scanning `[1]` becomes `[""]` and a type error is returned |
| JsonStrings.ReuseOfStrings | internal/models/entry.go:63 | decoding an all-string array gives exactly its strings, whatever the receiver held |
| JsonStrings.NullArrayReads | internal/models/entry.go:63 | `[null]` is valid JSON and decodes to one null element |
| JsonStrings.NumberArrayReads | internal/models/entry.go:63 | `[1]` is valid JSON and decodes to one mistyped element |
| JsonStrings.MarshalRoundTrip | internal/models/entry.go:38-64 | `json.Unmarshal` of `json.Marshal` of a `[]string` is an array of exactly those strings, in order |
| JsonStrings.Marshal | internal/models/entry.go:42 | the text is bracketed, and is "[]" exactly for no elements |
| JsonStrings.UnmarshalKinds | internal/models/entry.go:63 | `Unmarshal` decides by the first character after space: an array opens with '[', `null` is the literal alone, and any other complete value is of the wrong type |
| JsonStrings.EscapeReads | internal/models/entry.go:38-64 | the escaped body of a string, then the closing quote, decodes to the string |
| JsonStrings.EncodeRestReads | internal/models/entry.go:38-64 | the comma-separated tail of an encoding, then the bracket, decodes to those elements |
| JsonStrings.ArrayBodyReads | internal/models/entry.go:38-64 | a non-empty encoding after its opening bracket decodes to the elements |
| EntryUpdate.FindOwned | internal/http/handlers.go:281-285 | the found entry has the id and belongs to the caller; none means no such row |
| EntryUpdate.MergeEntry | internal/http/handlers.go:293-326 | the merged entry keeps the id and the owner; an empty body changes nothing |
| EntryUpdate.UpdateEntry | internal/http/handlers.go:273-334 | the answer equals `UpdateEntryAnswer` |
| EntryUpdate.MergeKeepsFixedFields | internal/http/handlers.go:293-326 | id, owner, currency, card network, purpose, tags and source text never change |
| EntryUpdate.MergeIgnoresOtherKeys | internal/http/handlers.go:293-326 | keys outside the eleven change nothing, and neither does a value of the wrong JSON type under one of them: anything but a number under `amount`, anything but a string elsewhere |
| EntryUpdate.TextAmountIgnored | internal/http/handlers.go:297-299 | an amount sent as a JSON string, such as `"250"`, fails the float64 assertion and leaves the entry unchanged |
| EntryUpdate.MergeIdempotent | internal/http/handlers.go:300-302 | the stored type has no upper-case ASCII letter; merging the same body twice is merging once |
| EntryUpdate.UpdateSucceedsIff | internal/http/handlers.go:273-334 | 200 exactly when the id parses, the caller owns that entry, the body binds and the save succeeds; the reply is the merged entry with the same id and owner |
| EntryUpdate.UpdateRejections | internal/http/handlers.go:275-285 | a bad id is 400 before any lookup; another user's entry is 404 |
| Users.ViewWith | internal/models/user.go:13-20 | the JSON form keeps id, uuid and username, and `has_pin` is what the handler set |
| Users.AuthView | internal/http/auth.go:301 | in the auth answers `has_pin` is true exactly when a pin hash is stored |
| Users.ViewHidesPinHash | internal/models/user.go:13 | the pin hash never reaches the JSON form |
| Users.Insert | internal/models/user.go:7-21 | a create succeeds with the next id appended, or fails and changes nothing |
| Users.Update | internal/models/user.go:7-21 | a save replaces the row with that id, or fails and changes nothing |
| Users.InsertKeepsValid | internal/models/user.go:8-16 | a create keeps ids ordered and every unique index (uuid, email, phone, device id, username) |
| Users.UpdateKeepsValid | internal/models/user.go:8-16 | a save of an existing row keeps every unique index and changes no other row |
| Users.First | internal/models/user.go:8 | the row found matches the query and is in the table; none found means no row matches |
| Users.FirstIsEarliest | internal/models/user.go:8 | the row `First` finds is the earliest match: no row before it matches the query |
| Users.FirstHasLowestId | internal/models/user.go:8 | in a valid table (rows in primary-key order), the row found has the lowest id of all matching rows, so for an email-or-phone query matching two rows it is the older one |
| Users.UuidFindsRow | internal/models/user.go:9 | in a valid table the uuid lookup finds the one row holding the uuid |
| Users.ContactFindsRow | internal/models/user.go:10-11 | in a valid table an email or phone lookup finds the one row holding it |
| Users.UserTable.Create | internal/models/user.go:7-21 | the table and the result are `Insert` of the old table |
| Users.UserTable.Save | internal/models/user.go:7-21 | the table and the result are `Update` of the old table |
| Auth.GenerateToken | internal/http/auth.go:24-34 | "mock_token_" + uuid + "_" + the 32-hex random part |
| Auth.ClaimToken | internal/http/auth.go:137-143 | the token is "claim_", a six-character tag and the identifier; the tag is "email:" exactly when the identifier holds '@' |
| Auth.ParseClaim | internal/http/auth.go:160-183 | a claim is read exactly when the token has the prefix and a ':' after it; the identifier is the token's tail; every refusal is one of the two error texts |
| Auth.ClaimRoundTrip | internal/http/auth.go:137-183 | the register parse of an issued claim token recovers the identifier, even one with ':', as an email exactly when it holds '@' |
| Auth.TaggedClaimParses | internal/http/auth.go:160-183 | "claim_", a tag without ':', ':' and any identifier parse as that identifier; only the tag "email" makes it an email |
| Auth.ClaimRejections | internal/http/auth.go:161-183 | no "claim_" prefix or no ':' after it is refused with its own error; any tag but "email" means phone |
| Auth.DeviceOf | internal/http/auth.go:208-211 | no device pointer exactly when the device id is empty |
| Auth.OtpVerifyAnswer | internal/http/auth.go:119-144 | the status is 200, 400 or 401; 200 exactly when a claim token is issued, and that token is the claim token of the identifier sent |
| Auth.OtpVerifyIff | internal/http/auth.go:119-144 | 200 exactly for "123456" and "1234" with both fields present, then with the claim token; otherwise 401, or 400 for a missing field |
| Auth.SentOtpVerifies | internal/http/auth.go:113-133 | the code `authOtpSend` hands out is accepted |
| Auth.Guest | internal/http/auth.go:37-86 | the answer and the table equal `GuestOutcome`, and the table stays valid |
| Auth.GuestSessionReused | internal/http/auth.go:47-57 | a device with a guest account gets that account back, table untouched |
| Auth.NewGuestIsAnonymous | internal/http/auth.go:60-85 | a new guest has no contact, no pin, and the guest flag; its uuid is a fresh draw and its token carries that uuid |
| Auth.RegisteredDeviceBlocksGuest | internal/http/auth.go:47-79 | a device held by a registered account gets 500 `failed_create_guest`: the insert clashes |
| Auth.Register | internal/http/auth.go:147-262 | the answer and the table equal `RegisterOutcome`, and the table stays valid |
| Auth.RegisterKeepsValid | internal/http/auth.go:147-262 | registration keeps every unique index |
| Auth.EnrollKeepsValid | internal/http/auth.go:204-255 | upgrading or creating keeps every unique index |
| Auth.RegisterFailureKeepsStore | internal/http/auth.go:147-262 | every answer but 201 leaves the table unchanged |
| Auth.RegisterEnrols | internal/http/auth.go:154-202 | with a pin hash in hand, a 201 means the request bound, the claim token parsed and no user holds the claimed contact, and the outcome is the enrolment of that claim |
| Auth.ContactTakenConflicts | internal/http/auth.go:192-202 | an already registered contact gives 409 before any guest lookup |
| Auth.GuestUpgradeKeepsIdentity | internal/http/auth.go:213-237 | the upgrade keeps id and uuid, clears the guest flag, sets only the claimed contact, replaces the device only when one is sent, stores the hash |
| Auth.EnrollStoresClaim | internal/http/auth.go:204-262 | a 201 answers with a registered (not guest) user holding the claimed identifier in the column its tag names and a pin, and that user is a stored row with the pin hash; a created user has only the claimed contact, the first uuid draw and the next id, and is appended to the table |
| Auth.RegisterStoresClaim | internal/http/auth.go:147-262 | a successful registration answers with a registered (not guest) user holding the claimed identifier in its column and a pin, stored as a row with the pin hash; a created user has no other contact |
| Auth.RegisterWithIssuedClaim | internal/http/auth.go:137-262 | registering with a verify-issued token answers with a registered user holding the verified identifier in the column its '@' selects, stored as a row with the pin hash |
| Auth.RegisteredContactFindsUser | internal/http/auth.go:192-262 | in a valid table, after a 201 the claimed contact's lookup finds exactly the stored row, with the pin hash, that the answer shows |
| Auth.UpgradedContactFindsUser | internal/http/auth.go:213-237 | after a guest upgrade, the claimed contact's lookup finds the upgraded row |
| Auth.CreatedContactFindsUser | internal/http/auth.go:240-255 | after a create, the claimed contact's lookup finds the new row |
| Auth.Login | internal/http/auth.go:265-306 | the answer and the table equal `LoginOutcome`, and the table stays valid |
| Auth.LoginFailuresIndistinguishable | internal/http/auth.go:278-286 | an unknown identifier and a wrong pin get the same 401 `invalid_credentials`, and the table is unchanged |
| Auth.LoginWritesOnlyNewDevice | internal/http/auth.go:288-305 | the table changes only when a non-empty device id differs from the stored one, then only that row's device id; the answer shows the sent device id even if the save failed |
| Auth.IdentifyAgreesWithLogin | internal/http/auth.go:89-110 | an identifier reported unknown cannot log in; a known one logs in with the right pin |
| Auth.IdentifyAnswer | internal/http/auth.go:89-110 | 400 exactly for a missing identifier; otherwise 200, with `exists` true exactly when some row holds it as email or phone, and `is_guest` that row's flag |
| Middleware.TokenUuid | internal/http/middleware.go:29-40 | a uuid is read only from a "mock_token_" token with at least four '_'-parts, and it is part 2 |
| Middleware.Authenticate | internal/http/middleware.go:12-54 | a success is a user of the table with `userID` its id, behind a header starting "Bearer "; an empty header is `authorization_header_missing`; every refusal is one of the five error texts |
| Middleware.AuthenticatedUserOwnsToken | internal/http/middleware.go:12-54 | success names a stored user whose uuid is the token's uuid part, sets `userID` to its id, and needs the header "Bearer " + token |
| Middleware.RejectionReasons | internal/http/middleware.go:15-46 | every refusal is one of the five 401 error texts |
| Middleware.TokenParts | internal/http/middleware.go:34-40 | a generated token splits on '_' into "mock", "token", the uuid and the random part |
| Middleware.TokenUuidRoundTrip | internal/http/middleware.go:34-40 | the uuid read from a generated token is the user's uuid when it has no '_' |
| Middleware.UnderscoreUuidMisread | internal/http/middleware.go:34-40 | for a uuid made of a head, '_' and a rest (neither holding '_'), the middleware looks up the head alone |
| Middleware.SessionTokenAuthenticates | internal/http/middleware.go:12-54 | "Bearer " + a token generated for a stored hex uuid lets that user in |
| Middleware.ExtraSpaceRejected | internal/http/middleware.go:20-24 | two spaces after "Bearer" give `authorization_header_invalid` |
| Profile.UpdateProfile | internal/http/handlers.go:352-422 | the answer and the table equal `ProfileOutcome`, and the table stays valid |
| Profile.ContactChangeNeedsClaim | internal/http/handlers.go:390-411 | a saved change of email or phone had a claim token with the matching prefix, and stores the sent value |
| Profile.IssuedClaimPassesGuard | internal/http/handlers.go:393-406 | the claim token `authOtpVerify` issues for an email or a phone passes the matching guard |
| Profile.LongerClaimPassesGuard | internal/http/handlers.go:393 | the prefix test also accepts a token verified for the email followed by more text |
| Profile.EmailAndPhoneNeverTogether | internal/http/handlers.go:391-411 | a request that changes both email and phone can never succeed |
| Profile.SavedPassedGuards | internal/http/handlers.go:390-411 | a 200 found the user, and each contact it changes passed that contact's claim-prefix guard |
| Profile.ProfileSaveScope | internal/http/handlers.go:372-421 | a 200 stores the username untrimmed, answers `has_pin` false, and replaces only that user's row, changing only email, phone and username |
| Profile.ProfileKeepsValid | internal/http/handlers.go:352-422 | every answer but 200 leaves the table unchanged; the table stays valid |
| GoStrings.TrimSpaceEmptyIffBlank | internal/http/handlers.go:124-127 | trimming leaves nothing exactly when the string is all spaces |
| GoStrings.TrimSpaceSlice | internal/http/handlers.go:452 | `TrimSpace` keeps the slice of the string that starts where the leading spaces end, with only spaces before and after it |
| GoStrings.TrimmedIsFixed | internal/http/handlers.go:452 | a string that neither starts nor ends with a space is its own trim |
| GoStrings.TrimSpacePadded | internal/http/handlers.go:452 | trimming removes exactly the spaces put around a string with non-space ends |
| GoStrings.TrimSpaceEnds | internal/http/handlers.go:452 | the result of `TrimSpace` neither starts nor ends with a space |
| GoStrings.Split | internal/http/middleware.go:20-34 | `strings.Split`: at least one part, no part holds the separator, and joining the parts gives the string back |
| GoStrings.ToLower | internal/http/handlers.go:301 | lower-casing keeps the length and maps each character on its own, leaving no upper-case ASCII letter |
| GoStrings.TrimSpaceIdempotent | internal/http/handlers.go:452 | trimming twice is trimming once |
| GoStrings.SplitJoin | internal/http/middleware.go:20-34 | `strings.Split` of a join of separator-free parts gives the parts back |
| GoStrings.SplitFirst | internal/http/auth.go:167 | `SplitN(s, ":", 2)` cuts at the first ':' when there is one |
| GoStrings.ToLowerIdempotent | internal/http/handlers.go:301 | lower-casing leaves no upper-case ASCII letter and is idempotent |

## Left out

- The OpenAI client (apart from the trim `Transcribe` applies to the text it returns, which `ParsePipeline.AudioText` applies too), bcrypt, `crypto/rand`, gojsonschema and its schema file, the clock and tzdata are not modelled. They are parameters: abstract outcomes, a hash outcome plus a comparison, sequences of 32-hex draws, a validation function returning violations, a function from zone to day, and a loadability predicate.
- A context deadline is not a separate outcome. It is an error of the call it interrupts.
- HTTP plumbing is not modelled: gin routing, `cors`, `logging`, `handleUpload`, static files and the recovery middleware. Only the bare 500 that a recovered panic produces in `handleParse` is modelled.
- `listEntries`, `saveEntry`, `getEntry`, `deleteEntry` and the insights handlers are SQL query builders and float aggregation, and are not part of this model.
- Database read errors other than "not found" are not modelled. Every failed lookup is "no row", so `authIdentify`'s 500 `db_error` is left out. Writes are modelled as the unique indexes allowing or refusing them.
- A failed insert does not consume a Postgres sequence value in the model.
- Timestamps (`CreatedAt`, `UpdatedAt`) are left out. The `created_at` and `updated_at` columns are not modelled.
- Concurrency is left out. Each handler is one atomic step on the table.
- Strings are sequences of characters. The byte level of UTF-8 is not modelled, so `[]byte` and `string` values carry the same characters.
- EntryModel.StringArrayCell.Scan: a receiver has no spare capacity beyond its length. Go's decoder can uncover old elements stored past the length of a slice with spare capacity, where the model writes "".
- The decoder's errors are two kinds without text: `InvalidJson` for a `json.SyntaxError` and `WrongJsonType` for a `json.UnmarshalTypeError`. Offsets and messages are not modelled.
- GoStrings.ToLower: only the ASCII letters `A`-`Z` are lower-cased. Go's `strings.ToLower` maps every rune through `unicode.ToLower`, so a non-ASCII capital such as `É` or `Σ` is left as it is here. Both map one character to one character, so the length is the same in both.
- EntryUpdate.MergeEntry: a string `type` is lower-cased with the ASCII-only `GoStrings.ToLower`, so a non-ASCII capital in it is kept where Go would lower it.
- EntryUpdate.UpdateEntry: it stores `MergeEntry`'s entry, so it has the same ASCII-only lower-casing of `type`.
- The escaping in the encoder follows Go 1.22 and later: `\b` and `\f` are two-character escapes.
- Entry amounts are `real`. Float64 rounding is not modelled.
- The binder's error texts are abstracted: every binding failure is one `BindErrorReply` (or the `BindFailed` message in `EntryUpdate`).
- `atof` and the rate-limit settings are not modelled, because they are floating point.
- `fmt.Print` debug output is not modelled.
- `generateUUID` is modelled as a 32-character lower-case hex draw. Usernames take its first eight characters.
