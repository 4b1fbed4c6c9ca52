# TranscribeAlpha, modelled in Dafny

TranscribeAlpha turns an audio or video recording into a courtroom-style
transcript. It is a thin layer over a speech model (Gemini), an object store
(Cloudflare R2) and a Word-document library. There are two front ends:

- **The legacy Streamlit app** (`_legacy_streamlit/TranscribeAlpha/app.py`) handles a run in one pass:
  - converts video, and m4a audio, to mp3;
  - uploads the file to Gemini;
  - polls until the file is `ACTIVE`, with a capped ×1.5 back-off;
  - asks for a transcript as a JSON list of `{speaker, text}` records and repairs the answer record by record;
  - fills a `.docx` template;
  - in a `finally` block, deletes the uploaded file.
- **The FastAPI back end** (`api/main.py`) splits the work across endpoints:
  - `/transcribe` reads the audio from R2 by key, or takes it from the form and stores it in R2;
  - it then checks the MIME type, writes a temporary file and uploads it;
  - it polls at most 12 times at a fixed 5-second interval;
  - it converts the answer all-or-nothing and unlinks the temporary file once it is written;
  - `/generate_docx` builds the document;
  - `/cleanup` and `/cleanup_r2` delete the remote copies on request.

The model is written in the programs' own terms. Every remote service is an
oracle passed in as a parameter:

- the Gemini upload reply;
- a script of status answers, one per status check (an answer can be an exception, or a reply whose state is missing);
- the generation reply, as already-decoded JSON;
- whether R2 is configured and whether its call succeeds;
- whether a conversion succeeds;
- whether writing the API's temporary file succeeds;
- the clock reading used for a new object key.

The calls that reach the outside world are recorded as ghost traces: the delays slept, the
`files.delete` calls, and the event sequence of a `/transcribe` request.

| file | module | what it holds |
|---|---|---|
| `wrappers.dfy` | `Wrappers` | `Option` |
| `text.dfy` | `Text` | the Python string operations the code uses: `upper`/`lower`, `strip`, `in`, `replace`, `join`, `str(n)`, `split(c)[-1]`, `split(c)[0]` |
| `media_type.dfy` | `MediaType` | the extension-to-MIME table shared by both front ends, and extension extraction |
| `records.dfy` | `Records` | decoded JSON, the legacy per-record repair loop, the API's strict conversion |
| `prompts.dfy` | `Prompts` | both prompts, and speaker-hint normalisation |
| `polling.dfy` | `Polling` | both readiness loops |
| `docx.dfy` | `Docx` | the document tree, placeholder substitution, body layout |
| `legacy_app.dfy` | `LegacyApp` | `generate_transcript` and the run behind "Generate Transcript", with its `try/finally` |
| `api.dfy` | `Api` | `/transcribe`, `/generate_docx`, the cleanup endpoints |

Behaviours of the code that one might not expect, all modelled as written:

- **Non-list answers.** A bare JSON string is not fatal to the legacy repair loop. Iterating over it yields one-character strings, and the loop drops them all, giving `[]`. A JSON object yields `[]` too, unless one of its keys contains `speaker`.
- **TypeError aborts the batch.** An element of the answer that is a string or list containing `speaker`, or that is a number, boolean or null, makes the legacy loop raise `TypeError`. That ends the whole batch with `None`; it is not a per-record drop.
- **Upper-casing.** The API does not upper-case speaker names before putting them in its prompt. Only the legacy app's input form does.
- **Whitespace-only hints.** A speaker hint made only of whitespace becomes the empty identifier. Only an empty entry gets the `SPEAKER i` default.
- **Status reply without a state.** In the legacy loop, reading `.state.name` of such a reply raises outside the inner `try`. The outer `except Exception` returns without the loop's delete, and the `finally` block has no handle, so that uploaded file is never deleted. The remote file is still deleted at most once per run.
- **Failed temporary-file write in the API.** The write of the temporary file comes before the `try` whose `finally` unlinks it. If the write raises, the file stays on disk.
- **Unsupported extension in the API.** In the direct-upload path the file is already stored in R2 when the API refuses it for its extension.

## Model

| member | source | states |
|---|---|---|
| Text.StripSpec | _legacy_streamlit/TranscribeAlpha/app.py:370 | `strip()` returns a contiguous slice of its input; everything cut off on either side is whitespace; the result neither starts nor ends with whitespace |
| Text.StripEmptyIffBlank | _legacy_streamlit/TranscribeAlpha/app.py:370 | `strip()` is empty exactly when every character of the input is whitespace |
| Text.ReplaceAbsent | _legacy_streamlit/TranscribeAlpha/app.py:267-269 | `str.replace` of a placeholder that does not occur returns the run unchanged |
| Text.JoinContainsEach | _legacy_streamlit/TranscribeAlpha/app.py:169 | `", ".join(names)` contains every name |
| Text.ParseNatToString | _legacy_streamlit/TranscribeAlpha/app.py:370 | `str(n)` consists of decimal digits only and reads back as `n` |
| Text.NatToStringInjective | _legacy_streamlit/TranscribeAlpha/app.py:370 | different numbers print differently |
| Text.AfterLast | api/main.py:175 | `s.split(c)[-1]` holds no `c`, is a suffix of `s`, and is preceded by a `c` whenever it is shorter than `s` |
| Text.AfterLastConcat | api/main.py:70 | when the tail of a string holds a `c`, whatever is put in front does not change the text after the last `c` |
| Text.BeforeFirst | api/main.py:238 | `s.split(c)[0]` holds no `c`, is a prefix of `s`, and is followed by a `c` whenever it is shorter than `s` |
| MediaType.MimeType | _legacy_streamlit/TranscribeAlpha/app.py:70-81 | an answer exactly when the lower-cased extension is one of mp3, wav, aiff, aac, ogg, flac; the answer is `audio/` followed by the lower-cased extension (the API's `mime` has the same table) |
| MediaType.MimeTypeIgnoresCase | api/main.py:57-65 | an extension and its lower-case form get the same answer |
| MediaType.M4aHasNoMimeType | _legacy_streamlit/TranscribeAlpha/app.py:72-80 | `m4a`, in any case, has no entry |
| MediaType.Extension | api/main.py:175-178 | the extension holds no dot; a name without a dot is its own extension; otherwise the name is some stem, a dot, then the extension |
| Records.RepairRecord | _legacy_streamlit/TranscribeAlpha/app.py:215-228 | an element is kept exactly when it is an object whose `speaker` is a string and whose `text` is a string or absent, and it becomes that speaker with that text or with `""`; it aborts the batch exactly when it is null, a boolean, a number, or a string or list containing `speaker` |
| Records.RepairTurns | _legacy_streamlit/TranscribeAlpha/app.py:214-232 | the loop returns `None` when some element raises `TypeError`, otherwise the turns of all kept elements in input order |
| Records.KeptLength | _legacy_streamlit/TranscribeAlpha/app.py:214-232 | the loop never returns more turns than it was given records |
| Records.KeptIndices | _legacy_streamlit/TranscribeAlpha/app.py:214-232 | the positions the kept turns come from are one per turn, valid and strictly increasing |
| Records.KeptIndicesPoint | _legacy_streamlit/TranscribeAlpha/app.py:214-232 | the k-th kept turn is what the record at the k-th kept position repairs to |
| Records.KeptIndicesComplete | _legacy_streamlit/TranscribeAlpha/app.py:214-232 | every record that the loop would keep is among the kept positions |
| Records.KeptIsOrderedSelection | _legacy_streamlit/TranscribeAlpha/app.py:214-232 | the result is exactly the subsequence, in original order, of the records the loop keeps |
| Records.ObjectsNeverAbort | _legacy_streamlit/TranscribeAlpha/app.py:215-228 | when every element is an object, no single record aborts the batch: the loop returns the kept turns |
| Records.KeptAllValid | _legacy_streamlit/TranscribeAlpha/app.py:223-224 | when every element is a complete, valid turn, the loop keeps them all, one for one |
| Records.KeptAllDropped | _legacy_streamlit/TranscribeAlpha/app.py:217-219 | when every element is dropped, the result is empty |
| Records.BareStringRepairsToEmpty | _legacy_streamlit/TranscribeAlpha/app.py:212-215 | a bare JSON string decodes to an empty transcript, not a failure |
| Records.StrictIsPerRecord | api/main.py:225 | the API's conversion succeeds exactly when every element is an object that has `text` and that the legacy loop would keep; it then yields one turn per element, in order, each the one the legacy loop would make |
| Records.StrictAgreesWithRepair | api/main.py:225 | whenever the API's conversion succeeds, the legacy repair gives the same turns |
| Records.MissingTextRepairedNotStrict | api/main.py:225 | a record without `text` is kept with empty text by the legacy loop and rejects the whole answer in the API; a record without `speaker` is dropped by the legacy loop and rejects the whole answer in the API |
| Records.RepairExample | _legacy_streamlit/TranscribeAlpha/app.py:215-228 | a worked run: a complete record is kept, one without `speaker` is dropped, one without `text` is kept with empty text |
| Prompts.LegacyPromptNamesSpeakers | _legacy_streamlit/TranscribeAlpha/app.py:168-184 | for a non-empty name list the prompt says `There are N speakers.` with N its length (the count reads back from the prompt), and it contains the names joined by `, ` in their order, hence every name |
| Prompts.LegacyPromptGeneric | _legacy_streamlit/TranscribeAlpha/app.py:171-184 | for no list or an empty list the prompt is the same, and it contains the "Determine the number of speakers" sentence and the generic-identifier clause |
| Prompts.LegacyPromptsDiffer | _legacy_streamlit/TranscribeAlpha/app.py:168-184 | a prompt built with names differs from the generic one |
| Prompts.ApiPromptNamesSpeakers | api/main.py:197-205 | the API prompt contains the given names joined by `, ` in their order, hence every name; no list and an empty list give the same prompt; a non-empty list changes it; it always ends with the JSON instruction |
| Prompts.NormaliseHints | _legacy_streamlit/TranscribeAlpha/app.py:366-370 | one identifier per entry, the i-th being the normalised i-th entry |
| Prompts.NormalisedHintShape | _legacy_streamlit/TranscribeAlpha/app.py:370 | an identifier is upper case and has no surrounding whitespace; it is empty exactly when a non-empty entry was all whitespace |
| Prompts.NormalisedHintIdempotent | _legacy_streamlit/TranscribeAlpha/app.py:370 | normalising a non-empty identifier again leaves it as it is |
| Prompts.DefaultHintsDistinct | _legacy_streamlit/TranscribeAlpha/app.py:370 | the defaults for different positions (`SPEAKER 1`, `SPEAKER 2`, …) differ |
| Prompts.BlankHintBecomesEmpty | _legacy_streamlit/TranscribeAlpha/app.py:370 | for example, the entry `"   "` becomes the empty identifier, not the default (the general fact is `Prompts.NormalisedHintShape`) |
| Polling.LegacyChecks | _legacy_streamlit/TranscribeAlpha/app.py:93-111 | the loop makes between 1 and 15 status checks |
| Polling.LegacyFinalState | _legacy_streamlit/TranscribeAlpha/app.py:97-112 | the state after the loop is still `PROCESSING` exactly when no check returned another state |
| Polling.UploadToGemini | _legacy_streamlit/TranscribeAlpha/app.py:83-135 | a failed upload makes no checks, sleeps and deletes; otherwise the loop makes `LegacyChecks` checks, each after a sleep of the back-off value for its position; a handle is returned exactly when the file became `ACTIVE`; the file is deleted exactly once when the upload succeeded and it did not, except when a reply without a state aborted the loop, which deletes nothing |
| Polling.BackoffValues | _legacy_streamlit/TranscribeAlpha/app.py:94-111 | the sleeps are 8, 12, 18, 27, 40.5, then 45 from the sixth on |
| Polling.BackoffMonotone | _legacy_streamlit/TranscribeAlpha/app.py:94-111 | every sleep is between 8 and 45, and none is shorter than the one before |
| Polling.TotalSleepAfterCap | _legacy_streamlit/TranscribeAlpha/app.py:98-111 | after the first five sleeps (105.5 s) each further check adds 45 s |
| Polling.LegacyGiveUpSleep | _legacy_streamlit/TranscribeAlpha/app.py:93-111 | giving up after 15 checks has slept 555.5 s |
| Polling.AllRaisedTimesOut | _legacy_streamlit/TranscribeAlpha/app.py:99-122 | when every check raises, all 15 are made, the state stays `PROCESSING` and the file is not active |
| Polling.FailedStateStops | _legacy_streamlit/TranscribeAlpha/app.py:97-122 | a `FAILED` answer after only undecided ones ends the loop at that check, and the file is not active |
| Polling.StatelessReplyAborts | _legacy_streamlit/TranscribeAlpha/app.py:97-135 | a reply without a state, after only undecided answers, ends the loop at that check through an exception: `file_state` stays `PROCESSING` and the file is not active |
| Polling.RaisedActsAsProcessing | _legacy_streamlit/TranscribeAlpha/app.py:99-105 | a check that raises affects the loop exactly as one answering `PROCESSING` |
| Polling.AwaitActive | api/main.py:191-194 | the loop stops at the first `ACTIVE` answer or after 12 checks; it sleeps 5 s after each check that did not stop it; `raised` is set exactly when the stopping check raised or returned a reply without a state |
| Polling.ApiIgnoresTimeout | api/main.py:191-196 | a file that stays `PROCESSING` through 12 checks ends the loop without a stop, and the handler goes on regardless |
| Docx.ReplaceInRuns | _legacy_streamlit/TranscribeAlpha/app.py:263-269 | rewriting runs in place, with either front end's guard, gives the paragraph whose runs each had the placeholder replaced, or the paragraph unchanged when its text does not hold the placeholder |
| Docx.ReplaceInBody | _legacy_streamlit/TranscribeAlpha/app.py:257-274 | the recursive walk rewrites every paragraph and, through tables, rows and cells, every nested body |
| Docx.ReplaceInTable | api/main.py:95-99 | every cell of every row is rewritten by the recursive walk |
| Docx.ReplaceAbsentBody | api/main.py:88-99 | a placeholder that occurs in no run of a body or its nested tables leaves it unchanged |
| Docx.ReplaceAbsentTable | api/main.py:95-99 | a placeholder that occurs in no cell of a table leaves it unchanged |
| Docx.SplitPlaceholderUntouched | _legacy_streamlit/TranscribeAlpha/app.py:263-269 | for example, a placeholder split across two given runs is seen in the paragraph's text but replaced in neither run (per-run replacement in general is `Docx.ReplaceInRuns` and `Docx.ReplaceAbsentBody`) |
| Docx.ApplyUnusedTitles | _legacy_streamlit/TranscribeAlpha/app.py:285-287 | titles whose placeholders the template does not hold leave it unchanged |
| Docx.FirstMarked | api/main.py:109 | finds the first paragraph from a position whose text holds `{{TRANSCRIPT_BODY}}`, or says none does |
| Docx.CreateDocx | _legacy_streamlit/TranscribeAlpha/app.py:276-341 | no document exactly when there is no template; otherwise the filled template with the first body-marker paragraph removed and one paragraph per turn appended |
| Docx.FillTitles | api/main.py:106-107 | each title key K replaces `{{K}}` with the value's rendering, in order |
| Docx.DropMarker | api/main.py:109-111 | removes the first paragraph holding the body marker, or nothing when none does |
| Docx.AppendTurns | api/main.py:112-117 | appends one paragraph per turn, in turn order, after the existing ones |
| Docx.LayoutShape | _legacy_streamlit/TranscribeAlpha/app.py:290-336 | tables are kept; the paragraphs are the template's, minus the first marked one if any, followed by exactly one paragraph per turn, in order |
| Docx.SecondMarkerStays | _legacy_streamlit/TranscribeAlpha/app.py:292-299 | for example, of two marked paragraphs after a heading only the first is removed and the second stays (the general fact is `Docx.LayoutShape`) |
| Docx.TurnParagraphShape | api/main.py:116-117 | a turn's paragraph is two runs: the speaker upper-cased character by character followed by `:   `, then the text |
| LegacyApp.ListedIsMembership | _legacy_streamlit/TranscribeAlpha/app.py:19-20 | scanning a type list finds exactly its members |
| LegacyApp.GenerateTranscript | _legacy_streamlit/TranscribeAlpha/app.py:137-255 | sends the legacy prompt; returns turns only for a reply with text, and then exactly what the repair of the decoded reply gives |
| LegacyApp.AcceptedFilesHaveMime | _legacy_streamlit/TranscribeAlpha/app.py:431-456 | a file gets a MIME type exactly when it is accepted and, if it needs converting, the conversion succeeds; video and m4a go up as `audio/mp3`, other audio as `audio/` plus its extension |
| LegacyApp.MimeOfPlainAudio | _legacy_streamlit/TranscribeAlpha/app.py:438-441 | every accepted audio extension but m4a has a table entry |
| LegacyApp.PrepareAudio | _legacy_streamlit/TranscribeAlpha/app.py:431-458 | supported exactly for the listed video and audio types; ready to upload exactly when accepted and converted where needed, and then with the MIME type above |
| LegacyApp.Transcribe | _legacy_streamlit/TranscribeAlpha/app.py:477-505 | the `finally` block is handed a file exactly when the upload succeeded and the file became active; the loop's own delete happens exactly when it did not and no reply without a state aborted the loop; a transcript results exactly when there is also a reply the repair accepts, and it carries those turns, the laid-out document and the download name |
| LegacyApp.Handle | _legacy_streamlit/TranscribeAlpha/app.py:427-518 | an unsupported type is refused; the "no MIME type" branch is never reached; the remote file is deleted exactly once when it was uploaded, unless a status reply without a state aborted the upload function (then never), and never otherwise, so at most once; a transcript results exactly when the upload, the polling and the repair all succeed |
| LegacyApp.Run | _legacy_streamlit/TranscribeAlpha/app.py:398-518 | the same, for the extension taken from the file name and lower-cased |
| LegacyApp.DownloadStem | _legacy_streamlit/TranscribeAlpha/app.py:499 | the download stem keeps everything before the last dot: `a.b.mp3` gives `a.b` |
| LegacyApp.SplitExtRoot | _legacy_streamlit/TranscribeAlpha/app.py:499 | `os.path.splitext(name)[0]` is a prefix of the name |
| LegacyApp.SplitExtRootNoDot | _legacy_streamlit/TranscribeAlpha/app.py:499 | a name without a dot is its own stem |
| LegacyApp.SplitExtRootLastDot | _legacy_streamlit/TranscribeAlpha/app.py:499 | a name loses its last dot and what follows it, unless only dots come before that dot, in which case it is its own stem |
| Api.Fetch | api/main.py:166-179 | refuses, in the handler's order: 503 with no client; 400 with neither file nor key; R2 missing gives 500 on the key path or 503 on the upload path; 500 when the R2 call fails; no R2 call before the first two checks pass; otherwise the key and the name the extension is read from |
| Api.Admit | api/main.py:166-183 | the same, then 400 for an extension without a MIME type, after the R2 call; refused statuses are 400, 500 or 503 |
| Api.Process | api/main.py:189-231 | a transcript exactly when the upload succeeds, no status check raises or returns a reply without a state, the request data parses, a reply arrives and every element converts; a failed upload's trace is the upload alone; otherwise it is the upload, then polling with as many checks as the status script's first stop (or 12), then generation with the API prompt exactly when no check raised and the request data parsed; no unlink and no Gemini delete happen here; every failure is a 500 |
| Api.WithTempFile | api/main.py:185-233 | for an admitted request: a failing write is a 500 that never unlinks the file; otherwise the trace is the write, then `Api.Process`'s upload, polling and generation steps, then the unlink as the very last event; the unlink happens exactly when the write succeeded; every error is a 500 |
| Api.Transcribe | api/main.py:159-233 | refused requests give their status with no event but, at most, the R2 call, so before the temporary file exists; an admitted one writes the file after the R2 call; when the write raises, the request is a 500 and the file is never unlinked; otherwise it uploads next, its polling and generation steps are those of `Api.Process`, and it unlinks the file as its very last step on every later path; Gemini's file is never deleted; the transcript carries the converted turns, the Gemini file name and the object key; every error is a 400, 500 or 503, and every error after the request is admitted is a 500 |
| Api.AssembledTrace | api/main.py:185-233 | the request's events are the R2 call, the file write, the processing events, then the unlink, and nothing before the last is an unlink or a Gemini delete |
| Api.KeyKeepsExtension | api/main.py:70 | for a file name with a dot, the stored key `<time>_<name>` has the same extension as the file name |
| Api.Lookup | api/main.py:238 | a title is found exactly when some entry has that key, and the value found is the one stored with the first entry for that key |
| Api.DownloadBase | api/main.py:238 | no base exactly when `FILE_NAME` is null; `transcript` when it is absent; otherwise the name up to its first dot, holding no dot |
| Api.GenerateDocx | api/main.py:235-243 | 500 without a template or with a null `FILE_NAME`; otherwise the laid-out document and the download name `<base>_transcript.docx` |
| Api.DownloadNamesDiffer | api/main.py:238 | for `a.b.mp3` the legacy app offers `a.b`, the API `a` |
| Api.DeleteGem | api/main.py:81-86 | a Gemini delete is attempted exactly when there is a client |
| Api.DeleteR2 | api/main.py:74-79 | an R2 delete is attempted exactly when R2 is configured |
| Api.Cleanup | api/main.py:245-254 | attempts the Gemini delete, then the R2 delete only when a key is given, and answers `Cleanup attempted` |
| Api.CleanupR2 | api/main.py:256-259 | attempts the R2 delete and answers `Cleanup attempted` |

## Left out

- The Streamlit user interface is not modelled: widgets, session state, progress messages and the transcript preview text area. The speaker entries and title fields arrive as parameters.
- The legacy `title_data` dictionary built from the form (`_legacy_streamlit/TranscribeAlpha/app.py:407-416`) is a parameter. Its `FILE_DURATION` entry needs the audio-duration computation, which uses floating-point division and `round`.
- FastAPI routing, CORS, dependency injection and the streaming response are not modelled. So is the `/generate_r2_presigned` endpoint, which only signs a URL.
- The ffmpeg video conversion and the pydub m4a conversion are foreign calls. One boolean, `converts`, says whether they succeed.
- The Gemini and R2 SDK calls and the safety-settings lists are oracles or left out. No byte of the audio or of the temporary file is modelled.
- Sleeping is recorded as a ghost list of delays. No time passes.
- `json.loads` and pydantic are taken as given. The model starts from decoded JSON. A turn is valid when `speaker` and `text` are strings; pydantic's coercions are not modelled.
- `ReqData.parse_raw` is an oracle: either the parsed speaker list or a parse failure.
- Docx.Layout: the document is a value tree holding paragraphs, then tables. The interleaving of paragraphs and tables, and so the exact position where appended paragraphs land, is not captured. Neither are formatting, fonts, merged cells or the aliasing of python-docx objects updated in place.
- Api.Lookup, Docx.ApplyTitles: titles are a sequence of pairs, so a key could repeat. In the source they come from a dict (`title_data`), whose keys are unique. The model looks up the first pair with a key and applies the pairs in order.
- TitleValue: a title value is JSON null or a string. Other JSON values would be rendered with `str()`, which is not modelled.
- Text.Upper and Text.Lower map ASCII letters only. Python's full Unicode case mapping is not modelled.
- LegacyApp.SplitExtRoot models `os.path.splitext` for names without directory separators. An upload's name carries none.
- Api.DeleteGem, Api.DeleteR2: the exception they swallow is not modelled; the trace records the attempt.
