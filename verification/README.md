# BiliNote core rules in Dafny

BiliNote turns a video or audio file into notes. It transcribes the file,
optionally attributes speakers, asks a language model for a note, and
shows the transcript and the note in a web front end. This project models
the small, pure rules that sit between those steps and proves their
properties:

- **Speaker diarization** (`diarization.dfy`, module `Diarization`):
  - the result container and its first-match interval lookup;
  - the fixed Whisper stub and the 30-second mock diarizer;
  - the case-insensitive method dispatcher;
  - the merge of transcript segments with speakers by midpoint.
- **Prompt assembly** (`prompt.dfy`, module `PromptAssembly`):
  - the `timedelta`-slice time format;
  - the transcript block;
  - segment normalisation;
  - the vision-model test;
  - the single user message with text and image parts.
- **Transcript export** (`transcript_export.dfy`, module `TranscriptExport`):
  - `formatTime`;
  - the three download renderings;
  - the download file name;
  - the footer duration.
- **Screenshot paths** (`screenshots.dfy`, module `Screenshots`):
  - the base URL;
  - relative-to-absolute conversion;
  - the Markdown image-link rewrite, modelled as a left-to-right scan that behaves like the global regular expression.
- **Provider records** (`providers.dfy`, module `Providers`):
  - API-key masking;
  - the plain and masking serializers;
  - the field and API-key rules of `update_provider`, plus the "no field set" guard of the update endpoint;
  - the defaults of `add_provider`.
- **Model service** (`models.dfy`, module `ModelService`):
  - the record projection;
  - the duplicate-insert guard;
  - connection-test error classification;
  - the early returns of the two model-listing functions.
- **Note form** (`note_form.dfy`, module `NoteForm`):
  - the schema bounds and the URL/platform refinement;
  - "is generating";
  - audio-extension detection and the upload platform;
  - the submit payload and the retry-or-generate choice;
  - the checkbox toggle;
  - the button label.

Two helper modules hold shared definitions. `common.dfy` has `Option`, Python truthiness of optional strings, and Python's `int()` on floats. `strings.dfy` has lower-casing, substring search, `strip`, `join`, and number and padding formatting.

Each external dependency is a parameter of the function that uses it:

| dependency | how it enters the model |
|---|---|
| database | the row a lookup returns, or a flag saying a write raised |
| environment variables | an optional string |
| audio length | an optional duration |
| URL parser | a function from text to an optional protocol |
| prompt template | a function from the transcript block to text |
| model-listing call | an optional list |
| connection test | an outcome value |
| current time | its ISO text |

Seconds are `real`. Python's `int()` truncates toward zero. JavaScript's `Math.floor` is `.Floor`, and JavaScript's `%` is the truncated remainder.

## Model

| member | source | states |
|---|---|---|
| Common.Trunc | backend/app/services/speaker_diarization.py:139 | `int(x)` truncates toward zero: the floor for non-negative input, and within one above the input for negative input |
| Diarization.DiarizationResult.AddSegment | backend/app/services/speaker_diarization.py:21-27 | adding a segment appends exactly that segment at the end; the earlier segments and their order are unchanged |
| Diarization.SpeakerAtIsFirstMatch | backend/app/services/speaker_diarization.py:29-34 | the lookup returns the speaker of the covering segment of least index (bounds inclusive), so on a shared boundary the earlier segment wins |
| Diarization.SpeakerAtNone | backend/app/services/speaker_diarization.py:29-34 | the lookup returns None exactly when no segment covers the time |
| Diarization.WhisperDiarize | backend/app/services/speaker_diarization.py:58-72 | the stub always yields three segments |
| Diarization.WhisperSpeakers | backend/app/services/speaker_diarization.py:67-69 | the stub's speakers: SPEAKER_00 on [0,30], SPEAKER_01 on (30,60], SPEAKER_00 on (60,90], and nobody outside [0,90] |
| Diarization.MockDiarize | backend/app/services/speaker_diarization.py:133-143 | with a duration d (300 when it cannot be read), the mock emits ceil(int(d)/30) segments; the k-th starts at 30k, ends at min(30k+30, d) and alternates speaker0/speaker1 starting with speaker0 |
| Diarization.MockTiles | backend/app/services/speaker_diarization.py:139-141 | consecutive mock segments touch: every turn but the last ends where the next starts |
| Diarization.ServiceFor | backend/app/services/speaker_diarization.py:160-179 | the lower-cased method (argument, else the environment, else "whisper") selects Whisper iff "whisper", the mock iff "mock", PyAnnote iff "pyannote" and it is available, and nothing otherwise |
| Diarization.ServiceForProperties | backend/app/services/speaker_diarization.py:160-164 | the choice ignores letter case, an explicit method overrides any environment value, and with neither the dispatcher picks Whisper |
| Diarization.Merge | backend/app/services/speaker_diarization.py:194-216 | one output per input in order; start, end and text are copied with defaults 0, 0 and ""; a speaker is present iff the lookup at the midpoint gives a non-empty name, and then it is that name |
| PromptAssembly.TimedeltaString | backend/app/gpt/universal_gpt.py:20 | Python's timedelta rendering is at least "H:MM:SS" long |
| PromptAssembly.FormatTimeUnderTenHours | backend/app/gpt/universal_gpt.py:19-20 | below ten hours the rendering is exactly the five characters "MM:SS" of the truncated seconds |
| PromptAssembly.FormatTimeDropsHours | backend/app/gpt/universal_gpt.py:19-20 | below ten hours whole hours are lost: n and n mod 3600 render the same (61 s and 3661 s look alike) |
| PromptAssembly.Lines | backend/app/gpt/universal_gpt.py:22-26 | one line per segment, in order |
| PromptAssembly.BuildSegmentTextShape | backend/app/gpt/universal_gpt.py:22-26 | the block is empty without segments, one line for one segment, and two runs of segments are joined by exactly one newline |
| PromptAssembly.LineShape | backend/app/gpt/universal_gpt.py:24 | each line starts with the time and " - ", and its text has no leading or trailing whitespace |
| PromptAssembly.EnsureSegmentsType | backend/app/gpt/universal_gpt.py:28-29 | normalisation keeps length and order, builds a segment from each dictionary and passes segments through |
| PromptAssembly.EnsureSegmentsTypeIdempotent | backend/app/gpt/universal_gpt.py:28-29 | normalising already-normalised segments changes nothing |
| PromptAssembly.MatchesAny | backend/app/gpt/universal_gpt.py:98-102 | the pattern loop answers true iff some pattern occurs in the name |
| PromptAssembly.ModelSupportsVision | backend/app/gpt/universal_gpt.py:74-102 | false for a missing or empty model; otherwise true iff the lower-cased name contains one of the twelve patterns |
| PromptAssembly.VisionExamples | backend/app/gpt/universal_gpt.py:79-100 | "GPT-4o-mini" and "qwen-VL-max" are vision models, and "" and None are not |
| PromptAssembly.CreateMessages | backend/app/gpt/universal_gpt.py:31-72 | one "user" message whose first part is the prompt text; for a vision model one "auto" image part per URL follows, in order; otherwise there are no image parts at all |
| TranscriptExport.FormatTimeNonNegative | BillNote_frontend/src/pages/HomePage/components/transcriptViewer.tsx:44-48 | for non-negative seconds the rendering is whole minutes, ":" and the seconds left-padded to two digits; the seconds part is always 00..59 |
| TranscriptExport.FormatTimeReadsBack | BillNote_frontend/src/pages/HomePage/components/transcriptViewer.tsx:44-48 | for non-negative seconds the text is digits, ":" and two digits; the digits before the colon read back as the whole minutes and the two after it as the remaining seconds |
| TranscriptExport.Pieces | BillNote_frontend/src/pages/HomePage/components/transcriptViewer.tsx:60-73 | one rendered piece per segment, in order |
| TranscriptExport.GenerateContentShape | BillNote_frontend/src/pages/HomePage/components/transcriptViewer.tsx:55-75 | no segments give ""; one segment gives its piece; two runs of segments are separated by exactly one blank line |
| TranscriptExport.PieceFormats | BillNote_frontend/src/pages/HomePage/components/transcriptViewer.tsx:60-73 | "text" is the bare text; "markdown" is a "## time" heading, a blank line and the text; "timestamp" and every other format give "time - text" |
| TranscriptExport.ContentIgnoresSpeakers | BillNote_frontend/src/pages/HomePage/components/transcriptViewer.tsx:61-73 | speaker labels never reach the download: relabelling every segment leaves the content unchanged |
| TranscriptExport.DownloadExtension | BillNote_frontend/src/pages/HomePage/components/transcriptViewer.tsx:87 | the extension is "md" iff the format is "markdown", otherwise "txt" |
| TranscriptExport.HandleDownload | BillNote_frontend/src/pages/HomePage/components/transcriptViewer.tsx:77-98 | a download happens iff the segment list is present (an empty list still downloads); the file holds the generated content, and its name starts with "transcript_" and ends with "." and the extension |
| TranscriptExport.FooterIsLastEnd | BillNote_frontend/src/pages/HomePage/components/transcriptViewer.tsx:242-247 | the footer appears only for a non-empty list and shows the last segment's end as minutes:SS |
| Screenshots.BaseUrl | BillNote_frontend/src/utils/screenshotUtils.ts:9-11 | the configured base when it is set and non-empty, else http://localhost:8483/static/screenshots |
| Screenshots.ConvertCases | BillNote_frontend/src/utils/screenshotUtils.ts:18-27 | paths starting with "http" are returned unchanged; "/static/screenshots/X" becomes base/X; any other path is appended whole after base and "/" |
| Screenshots.ConvertIdempotent | BillNote_frontend/src/utils/screenshotUtils.ts:18-27 | with an http base, converting twice is the same as converting once |
| Screenshots.MatchLinkSound | BillNote_frontend/src/utils/screenshotUtils.ts:36 | a match at the start of the text is exactly "![alt](/static/screenshots/X)" with no "]" in alt and a non-empty X without ")" |
| Screenshots.MatchLinkText | BillNote_frontend/src/utils/screenshotUtils.ts:36 | every such link is matched in full whatever follows it (the converse of MatchLink) |
| Screenshots.NoMatchWithoutBang | BillNote_frontend/src/utils/screenshotUtils.ts:36 | no match starts anywhere but at "!" |
| Screenshots.MatchShowsPrefix | BillNote_frontend/src/utils/screenshotUtils.ts:36 | a match implies the text contains "/static/screenshots/" |
| Screenshots.ProcessLink | BillNote_frontend/src/utils/screenshotUtils.ts:34-42 | "![alt](/static/screenshots/X)" followed by anything becomes "![alt](base/X)" followed by the rewrite of the rest |
| Screenshots.ProcessPlainPrefix | BillNote_frontend/src/utils/screenshotUtils.ts:35-41 | text without "!" is copied unchanged ahead of the rewritten rest |
| Screenshots.ProcessWithoutOpening | BillNote_frontend/src/utils/screenshotUtils.ts:35-41 | text in which "![" never occurs is returned unchanged |
| Screenshots.ProcessWithoutPrefix | BillNote_frontend/src/utils/screenshotUtils.ts:35-41 | text that never contains "/static/screenshots/" is returned unchanged, including image links to other targets |
| Providers.MaskKey | backend/app/services/provider.py:69-73 | the mask keeps the length; for a key of eight or more characters it keeps the first and last four and stars the rest; shorter keys are all stars |
| Providers.MaskKeyCases | backend/app/services/provider.py:71-73 | "" masks to "", a 1-7 character key to that many stars, and a longer key to its first four, len-8 stars and its last four |
| Providers.MaskKeyIdempotent | backend/app/services/provider.py:69-73 | masking a masked key changes nothing |
| Providers.Serialize | backend/app/services/provider.py:22-43 | no row gives None; a row gives its fields with the stored key in clear |
| Providers.SerializeSafe | backend/app/services/provider.py:44-68 | no row gives None; a row gives its fields with the key masked |
| Providers.SafeDiffersOnlyInKey | backend/app/services/provider.py:22-68 | the two serializers agree on every field except the key, which the safe one masks |
| Providers.AllProvidersSafeAsWritten | backend/app/services/provider.py:101-105 | the provider listing serializes every row with the plain serializer, one entry per row |
| Providers.AllProvidersSafeLeaksKeys | backend/app/services/provider.py:101-105 | a concrete row whose 12-character key comes back from the listing unmasked |
| Providers.AllProvidersSafe | backend/app/services/provider.py:101-105 | the listing with masked keys: one entry per row, equal to the row except that the key is masked |
| Providers.AllProvidersSafeHidesMiddles | backend/app/services/provider.py:101-105 | no character of a listed key outside its first and last four is shown |
| Providers.AddProviderDefaults | backend/app/services/provider.py:74-81 | the stored logo is always "custom", so the logo argument makes no difference; the id is lower-case and as long as the generated id; name, key, URL, type and enabled flag are stored as given |
| Providers.Filtered | backend/app/services/provider.py:142 | the filtered update keeps exactly the keys other than "id" whose value is not None, with their values |
| Providers.UpdateProvider | backend/app/services/provider.py:134-182 | a successful update returns the given id and writes no "id" and no None field; every other non-None field except the key is written as given; a failed write returns None |
| Providers.UpdateApiKeyRule | backend/app/services/provider.py:146-169 | a text key is dropped from the update iff a non-empty key is stored and the new one strips to ""; otherwise it is written unstripped |
| Providers.UpdateNeverBlanksKey | backend/app/services/provider.py:160-163 | with a key stored, no successful update writes a blank key |
| Providers.UpdateWithoutKey | backend/app/services/provider.py:140-177 | without a key in the request, the update writes exactly the filtered fields |
| Providers.UpdateEndpoint | backend/app/routers/provider.py:72-104 | the endpoint reports an error iff all six optional fields are None |
| Providers.UpdateEndpointOutcomes | backend/app/routers/provider.py:96-101 | the endpoint reports success even when the service failed, then with a None id; otherwise it reports the request's id |
| ModelService.FormatModel | backend/app/services/model.py:82-88 | a formatted record has exactly the keys id, provider_id, model_name and created_at, each read with get (None when missing) |
| ModelService.FormatModels | backend/app/services/model.py:76-89 | formatting keeps length and order and formats each record as above |
| ModelService.FormatModelsIdempotent | backend/app/services/model.py:76-89 | formatting formatted records changes nothing; a record with exactly the four keys is its own formatting |
| ModelService.FormatModelDropsExtras | backend/app/services/model.py:83-88 | extra keys do not affect the result, and a missing created_at becomes None |
| ModelService.AddNewModel | backend/app/services/model.py:213-234 | the answer is True iff the provider exists, the (provider, name) pair is new and the insert succeeds; then exactly that pair is added, otherwise the table is unchanged |
| ModelService.AddNewModelTwice | backend/app/services/model.py:222-231 | adding the same model again answers False and changes nothing; a successful add grows the table by one |
| ModelService.Classify | backend/app/services/model.py:189-201 | on the lower-cased text, "401", "unauthorized" or "api key" gives INVALID_API_KEY first; otherwise "404" or "not found" gives WRONG_PARAMETER; otherwise CONNECTION_TEST_FAILED with the text appended to its message |
| ModelService.ConnectTest | backend/app/services/model.py:148-201 | a missing provider raises NOT_FOUND and an empty key INVALID_API_KEY; otherwise a passing test raises nothing and any other outcome raises the classification of its text |
| ModelService.ConnectTestChecksFirst | backend/app/services/model.py:150-156 | the two preliminary checks do not depend on what the connection test would do |
| ModelService.ConnectTestClassification | backend/app/services/model.py:177-201 | a false result is classified like an exception with the same text, and authentication words win over "not found" |
| ModelService.ClassifyAuthExample | backend/app/services/model.py:191-194 | "401 Not Found" is an invalid API key |
| ModelService.ClassifyMissingExample | backend/app/services/model.py:195-197 | "Error: Not Found" is a wrong parameter, whatever the case |
| ModelService.GetModelList | backend/app/services/model.py:26-54 | the list is [] iff the provider is missing or listing raises; otherwise it is the listing |
| ModelService.GetAllModelsById | backend/app/services/model.py:97-147 | a missing provider gives []; a found one gives {"models": the listing}, with [] for a failed listing |
| ModelService.ModelsByIdAgreesWithList | backend/app/services/model.py:100-143 | for a found provider the dictionary carries exactly what the model list carries |
| NoteForm.RefineIssues | BillNote_frontend/src/pages/HomePage/components/NoteForm.tsx:63-85 | at most one issue, on video_url; for local platforms iff the URL is empty; otherwise iff it is empty, unparseable or not http:/https: |
| NoteForm.RefineMessages | BillNote_frontend/src/pages/HomePage/components/NoteForm.tsx:64-84 | the local message names audio or video by platform; a remote link distinguishes a missing link from a malformed one |
| NoteForm.FieldIssuesEmpty | BillNote_frontend/src/pages/HomePage/components/NoteForm.tsx:46-60 | the per-field checks report nothing iff platform, model and style are non-empty, the interval is in 1..30 and both grid components are in 1..10 |
| NoteForm.ValidationIssuesIff | BillNote_frontend/src/pages/HomePage/components/NoteForm.tsx:44-85 | the form has no issue iff platform, model and style are non-empty, the interval is in 1..30, both grid components are in 1..10 and the refinement passes; a bad interval or grid component is reported on its path |
| NoteForm.FormButton | BillNote_frontend/src/pages/HomePage/components/NoteForm.tsx:297-309 | the label is "generating" iff generating, "regenerate" iff editing and not generating, the default otherwise; the button is disabled iff generating |
| NoteForm.ButtonStates | BillNote_frontend/src/pages/HomePage/components/NoteForm.tsx:204 | not generating without a task or with status SUCCESS, FAILED or undefined; generating for any other status |
| NoteForm.LastPart | BillNote_frontend/src/pages/HomePage/components/NoteForm.tsx:209 | the last part has no dot, ends the name, and is the whole name or preceded by a dot |
| NoteForm.LastPartAfterDot | BillNote_frontend/src/pages/HomePage/components/NoteForm.tsx:209 | the last part of stem + "." + ext, for a dot-free ext, is ext |
| NoteForm.LastPartNoDot | BillNote_frontend/src/pages/HomePage/components/NoteForm.tsx:209 | a name without a dot is its own last part |
| NoteForm.UploadPlatform | BillNote_frontend/src/pages/HomePage/components/NoteForm.tsx:226 | an upload is "local-audio" iff it is an audio file, else "local" |
| NoteForm.AudioUpperCase | BillNote_frontend/src/pages/HomePage/components/NoteForm.tsx:207-211 | "talk.MP3" is audio: the extension is compared lower-cased |
| NoteForm.AudioLastDotOnly | BillNote_frontend/src/pages/HomePage/components/NoteForm.tsx:207-211 | "talk.mp3.zip" is not audio: only the part after the last dot counts |
| NoteForm.AudioWithoutDot | BillNote_frontend/src/pages/HomePage/components/NoteForm.tsx:207-211 | a name without a dot is audio iff its lower-cased whole is a listed extension |
| NoteForm.AudioBareName | BillNote_frontend/src/pages/HomePage/components/NoteForm.tsx:207-211 | a name without a dot is compared whole, so "flac" counts as audio |
| NoteForm.UploadPassesRefine | BillNote_frontend/src/pages/HomePage/components/NoteForm.tsx:226-228 | after an upload with a non-empty path the refinement raises no issue |
| NoteForm.Remove | BillNote_frontend/src/pages/HomePage/components/NoteForm.tsx:122 | filtering keeps exactly the elements other than the value and never lengthens the list |
| NoteForm.Toggle | BillNote_frontend/src/pages/HomePage/components/NoteForm.tsx:121-122 | checking appends the value; unchecking removes every copy and keeps every other value |
| NoteForm.RemoveAbsent | BillNote_frontend/src/pages/HomePage/components/NoteForm.tsx:122 | removing an absent value leaves the list as it is |
| NoteForm.RemoveAppend | BillNote_frontend/src/pages/HomePage/components/NoteForm.tsx:122 | removal distributes over concatenation |
| NoteForm.ToggleOnOff | BillNote_frontend/src/pages/HomePage/components/NoteForm.tsx:121-122 | checking then unchecking equals unchecking, and unchecking twice equals unchecking once |
| NoteForm.SubmitPayload | BillNote_frontend/src/pages/HomePage/components/NoteForm.tsx:259-265 | a "local-audio" platform is sent as "local", so the payload never says "local-audio"; other platforms are kept; the payload carries the current task id or "" |
| NoteForm.FindModel | BillNote_frontend/src/pages/HomePage/components/NoteForm.tsx:263 | the lookup returns the first entry with the chosen model name, and None only when no entry has it |
| NoteForm.FindModelFirst | BillNote_frontend/src/pages/HomePage/components/NoteForm.tsx:263 | when several entries carry the name, the earliest is found, so its provider is the one the payload names |
| NoteForm.OnSubmit | BillNote_frontend/src/pages/HomePage/components/NoteForm.tsx:256-287 | with an unknown model nothing is called; with a current task only the retry is called; otherwise the note is generated and a pending task is added iff the reply yields a truthy key, with the unmapped platform |
| NoteForm.SubmitBranches | BillNote_frontend/src/pages/HomePage/components/NoteForm.tsx:267-283 | a retry never generates; every fresh local-audio submission whose reply yields a key makes exactly two calls, and the second registers the pending task under that key as "local-audio" while its payload says "local" |

## Left out

- The task store, the polling hook, the model store and the upload service are not part of this model. Only their calls (retry, add pending task) are recorded.
- Network, database, file-system, logging and toast calls are left out. So are the UI rendering and class names. Their results enter as parameters.
- PyAnnote diarization itself (`PyAnnoteSpeakerDiarization.diarize`) runs a foreign pipeline and is left out. Its availability is a parameter of the dispatcher.
- Lower-casing and `strip()` are modelled on characters: lower-casing maps ASCII letters only, and `strip()` uses Python's whitespace set. Unicode case mapping and UTF-16 code units are not modelled.
- Floating point is modelled as exact `real` arithmetic. IEEE rounding, NaN and infinity are not modelled, including NaN from the form's number coercion.
- MockDiarize: `import librosa` sits outside the `try`, so without the library the source raises ImportError. The model only covers a read that succeeds or fails inside the `try`, where a failure gives the 300-second default.
- Merge: a segment field that is present but None counts as absent in the model, which uses the defaults 0, 0 and "". In the source, `get` returns None, and the midpoint sum raises TypeError.
- EnsureSegmentsType: every dictionary is taken to build a segment. A malformed dictionary makes `TranscriptSegment(**seg)` raise in the source, and that failure is not modelled.
- PromptAssembly.TimedeltaString: only its length is stated in general. The exact text is proved below ten hours, and `timedelta`'s overflow beyond 999999999 days is not modelled.
- Providers: a stored API key is a string, never NULL. A NULL key would make `mask_key` and the update's logging raise.
- Providers.Serialize: `jsonable_encoder` on the creation time is left out. The encoded text is part of the row.
- ModelService.ConnectTest: the default messages of `ProviderErrorEnum` are not part of this model. An error carries its code, and a message only where the code supplies one explicitly.
- ModelService.GetAllModelsById: the listing is a list of already-dumped records. The three ways of dumping a model object are not modelled.
- NoteForm: the schema library's behaviour after a type error is not modelled. Such an error aborts parsing before the refinement runs. Values here are already of the right type, and bound failures do not abort. Issue messages for bounds are the library defaults, recorded as None.
- NoteForm.OnSubmit: when the reply object has no truthy `task_id`, the object itself becomes the pending-task key (`KeyObject`). Its contents are not modelled.
- `delete_provider`, `delete_model_by_id`, `get_enabled_models_by_provider` and `get_provider_by_name` are single database calls with no rule of their own.

## Findings

| source | as written | input that shows it | evidently intended | confidence | as-written member | corrected member |
|---|---|---|---|---|---|---|
| backend/app/services/provider.py:101-105 | `get_all_providers_safe` serializes rows with `serialize_provider`, so the provider list (served by `/get_all_providers`) returns every stored API key in clear | a provider whose key is "sk-123456789" is listed with key "sk-123456789" | mask each key as `serialize_provider_safe` and `get_provider_by_id_safe` do | medium, not executed | Providers.AllProvidersSafeAsWritten | Providers.AllProvidersSafe |
