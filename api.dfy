/**
 * The FastAPI back end: `/transcribe`, `/generate_docx` and the two cleanup
 * endpoints.
 *
 * Remote calls are oracles. What the handlers do to the outside world is
 * recorded as a trace of events, in order, so that the ordering promises
 * (checks before remote work, the temporary file removed last) can be
 * stated. An exception the handler does not catch is an HTTP 500.
 */
module Api {
  import opened Wrappers
  import opened Text
  import opened MediaType
  import opened Records
  import opened Prompts
  import opened Polling
  import opened Docx
  import LegacyApp

  /** Calls with an effect outside the handler. */
  datatype Event =
    | R2Get(key: string)
    | R2Put(key: string)
    | R2Delete(key: string)
    | WriteTemp
    | GemUpload
    | Polled(checks: nat)
    | Generate(prompt: string)
    | GemDelete(name: string)
    | Unlink

  /** A file sent with the form: its name. The bytes are not modelled. */
  datatype AudioFile = AudioFile(filename: string)

  datatype Response =
    | Transcript(turns: seq<Turn>, geminiFileName: string, r2ObjectKey: string)
    | HttpError(status: nat)

  /** `r2_object_key` is given and truthy. */
  predicate KeyGiven(r2Key: Option<string>) {
    r2Key.Some? && r2Key.value != ""
  }

  /** `upload_r2`'s key: the upload second, an underscore, the file name. */
  function StoredKey(now: nat, filename: string): string {
    NatToString(now) + "_" + filename
  }

  /** The name the extension is read from: the object key if given, else the uploaded file's name. */
  function SourceName(audio: Option<AudioFile>, r2Key: Option<string>): string
    requires audio.Some? || KeyGiven(r2Key)
  {
    if KeyGiven(r2Key) then r2Key.value else audio.value.filename
  }

  /** The object key returned with the transcript. */
  function ResultKey(audio: Option<AudioFile>, r2Key: Option<string>, now: nat): string
    requires audio.Some? || KeyGiven(r2Key)
  {
    if KeyGiven(r2Key) then r2Key.value else StoredKey(now, audio.value.filename)
  }

  /** The status loop ended on a request that raised or whose reply had no state. */
  predicate PollRaises(script: seq<Status>) {
    ApiExit(script).Some? && !Answer(script, ApiExit(script).value).Reported?
  }

  /** How many status requests the API loop makes: up to its stop, or all twelve. */
  function ApiChecks(script: seq<Status>): nat {
    if ApiExit(script).Some? then ApiExit(script).value + 1 else ApiMaxChecks
  }

  /**
   * The `try` block of `transcribe`: upload the temporary file, wait up to
   * twelve requests, parse the form data, ask for the transcript and
   * convert it strictly. `request` is the parsed `speaker_names` (`None`
   * when `ReqData.parse_raw` fails); `reply` the decoded answer (`None`
   * when `generate_content` raises).
   */
  method Process(
    upload: UploadReply, script: seq<Status>, request: Option<Option<seq<string>>>,
    reply: Option<Decoded>, key: string)
    returns (resp: Response, ghost trace: seq<Event>)
    ensures resp.Transcript? <==>
              upload.Uploaded? && !PollRaises(script) && request.Some? && reply.Some?
              && StrictTurns(reply.value).Some?
    ensures resp.Transcript? ==>
              && resp == Transcript(StrictTurns(reply.value).value, upload.name, key)
              && |trace| == 3 && trace[2] == Generate(ApiPrompt(request.value))
    ensures resp.HttpError? ==> resp.status == 500
    ensures 1 <= |trace| <= 3 && trace[0] == GemUpload
    ensures !upload.Uploaded? <==> trace == [GemUpload]
    ensures upload.Uploaded? ==> |trace| >= 2 && trace[1] == Polled(ApiChecks(script))
    ensures |trace| >= 2 ==> 1 <= trace[1].checks <= ApiMaxChecks
    ensures |trace| == 3 <==> upload.Uploaded? && !PollRaises(script) && request.Some?
    ensures |trace| == 3 ==> trace[2] == Generate(ApiPrompt(request.value))
    ensures forall i :: 0 <= i < |trace| ==> trace[i] != Unlink && !trace[i].GemDelete?
  {
    trace := [GemUpload];
    if !upload.Uploaded? {
      return HttpError(500), trace;
    }
    var raised;
    ghost var checks, delays;
    raised, checks, delays := AwaitActive(script);
    trace := trace + [Polled(checks)];
    if raised || request.None? {
      return HttpError(500), trace;
    }
    var prompt := ApiPrompt(request.value);
    trace := trace + [Generate(prompt)];
    if reply.None? {
      return HttpError(500), trace;
    }
    var turns := StrictTurns(reply.value);
    if turns.None? {
      return HttpError(500), trace;
    }
    resp := Transcript(turns.value, upload.name, key);
  }

  /**
   * Why `transcribe` refuses a request before reading the audio's MIME type,
   * checked in the handler's order: no client (503), no file and no key
   * (400), R2 missing (the key path fails on `None.get_object`, the upload
   * path raises 503), the R2 call failing (500). `None` when the bytes are in hand.
   */
  function FetchRefusal(hasClient: bool, audio: Option<AudioFile>, r2Key: Option<string>, r2Configured: bool, r2Ok: bool)
    : Option<nat>
  {
    if !hasClient then Some(503)
    else if audio.None? && !KeyGiven(r2Key) then Some(400)
    else if !r2Configured then Some(if KeyGiven(r2Key) then 500 else 503)
    else if !r2Ok then Some(500)
    else None
  }

  /**
   * Why `transcribe` refuses a request before any Gemini work: a
   * `FetchRefusal`, or else an extension without a MIME type (400).
   * `None` when the request gets through.
   */
  function Refusal(hasClient: bool, audio: Option<AudioFile>, r2Key: Option<string>, r2Configured: bool, r2Ok: bool)
    : Option<nat>
  {
    var fetched := FetchRefusal(hasClient, audio, r2Key, r2Configured, r2Ok);
    if fetched.Some? then fetched
    else if MimeType(Extension(SourceName(audio, r2Key))).None? then Some(400)
    else None
  }

  /** The R2 call a request makes for its audio: a download by key, or the upload of the sent file. */
  function R2Call(audio: Option<AudioFile>, r2Key: Option<string>, now: nat): Event
    requires audio.Some? || KeyGiven(r2Key)
  {
    if KeyGiven(r2Key) then R2Get(r2Key.value) else R2Put(StoredKey(now, audio.value.filename))
  }

  /**
   * Lines 166-179 of `transcribe`: the request checks and reading the bytes
   * (from R2 by key, or from the form and then into R2). `name` is the
   * string the extension is split from: the key, or the sent file's name.
   */
  method Fetch(hasClient: bool, audio: Option<AudioFile>, r2Key: Option<string>, r2Configured: bool, r2Ok: bool, now: nat)
    returns (refused: Option<nat>, key: string, name: string, ghost trace: seq<Event>)
    ensures refused == FetchRefusal(hasClient, audio, r2Key, r2Configured, r2Ok)
    ensures trace == [] || ((audio.Some? || KeyGiven(r2Key)) && trace == [R2Call(audio, r2Key, now)])
    ensures trace == [] <==> !hasClient || (audio.None? && !KeyGiven(r2Key)) || !r2Configured
    ensures refused.None? ==>
              && (audio.Some? || KeyGiven(r2Key))
              && key == ResultKey(audio, r2Key, now)
              && name == SourceName(audio, r2Key)
  {
    trace, key, name := [], "", "";
    if !hasClient {
      return Some(503), key, name, trace;
    }
    if !(audio.Some? || KeyGiven(r2Key)) {
      return Some(400), key, name, trace;
    }
    if KeyGiven(r2Key) {
      key := r2Key.value;
      if !r2Configured {
        return Some(500), key, name, trace;
      }
      trace := [R2Get(key)];
      if !r2Ok {
        return Some(500), key, name, trace;
      }
      name := key;
    } else {
      name := audio.value.filename;
      if !r2Configured {
        return Some(503), key, name, trace;
      }
      key := StoredKey(now, audio.value.filename);
      trace := [R2Put(key)];
      if !r2Ok {
        return Some(500), key, name, trace;
      }
    }
    refused := None;
  }

  /** Lines 166-183 of `transcribe`: `Fetch`, then the MIME check on the name's extension. */
  method Admit(hasClient: bool, audio: Option<AudioFile>, r2Key: Option<string>, r2Configured: bool, r2Ok: bool, now: nat)
    returns (refused: Option<nat>, key: string, ghost trace: seq<Event>)
    ensures refused == Refusal(hasClient, audio, r2Key, r2Configured, r2Ok)
    ensures refused.Some? ==> refused.value in {400, 500, 503}
    ensures trace == [] || ((audio.Some? || KeyGiven(r2Key)) && trace == [R2Call(audio, r2Key, now)])
    ensures trace == [] <==> !hasClient || (audio.None? && !KeyGiven(r2Key)) || !r2Configured
    ensures refused.None? ==>
              && (audio.Some? || KeyGiven(r2Key))
              && trace == [R2Call(audio, r2Key, now)]
              && key == ResultKey(audio, r2Key, now)
  {
    var name;
    refused, key, name, trace := Fetch(hasClient, audio, r2Key, r2Configured, r2Ok, now);
    if refused.Some? {
      return;
    }
    var ext := Extension(name);
    var mt := MimeType(ext);
    if mt.None? {
      return Some(400), key, trace;
    }
  }

  /**
   * The trace of an admitted request whose temporary file was written: the
   * R2 call `fetched`, the write, the upload, then the status checks (as
   * many as the script's first stop, or twelve) when the upload succeeded,
   * generation with the API prompt when no check raised and the request data
   * parsed, and the unlink last.
   */
  ghost predicate AdmittedTrace(
    trace: seq<Event>, fetched: Event, upload: UploadReply, script: seq<Status>, request: Option<Option<seq<string>>>)
  {
    && 4 <= |trace| <= 6
    && trace[0] == fetched && trace[1] == WriteTemp && trace[2] == GemUpload
    && trace[|trace| - 1] == Unlink
    && (!upload.Uploaded? <==> |trace| == 4)
    && (upload.Uploaded? ==> trace[3] == Polled(ApiChecks(script)))
    && (|trace| == 6 <==> upload.Uploaded? && !PollRaises(script) && request.Some?)
    && (|trace| == 6 ==> trace[4] == Generate(ApiPrompt(request.value)))
  }

  /**
   * Lines 185-233 of `transcribe`, once the request is admitted with the
   * object key `key` and `fetched` is the R2 call already made: write the
   * temporary file, run `Process` in the `try`, unlink the file in
   * `finally`. `writes` says whether the write succeeds; it comes before
   * the `try`, so a failing write leaves the file behind.
   */
  method WithTempFile(
    ghost fetched: Event, key: string, writes: bool,
    upload: UploadReply, script: seq<Status>, request: Option<Option<seq<string>>>, reply: Option<Decoded>)
    returns (resp: Response, ghost trace: seq<Event>)
    requires fetched != Unlink && !fetched.GemDelete?
    ensures !writes ==> resp == HttpError(500) && trace == [fetched, WriteTemp]
    ensures writes ==> AdmittedTrace(trace, fetched, upload, script, request)
    ensures Unlink in trace <==> writes
    ensures resp.Transcript? <==>
              writes && upload.Uploaded? && !PollRaises(script) && request.Some? && reply.Some?
              && StrictTurns(reply.value).Some?
    ensures resp.Transcript? ==>
              resp == Transcript(StrictTurns(reply.value).value, upload.name, key)
              && |trace| == 6 && trace[4] == Generate(ApiPrompt(request.value))
    ensures forall i :: 0 <= i < |trace| - 1 ==> trace[i] != Unlink && !trace[i].GemDelete?
    ensures resp.HttpError? ==> resp.status == 500
  {
    trace := [fetched, WriteTemp];
    if !writes {
      return HttpError(500), trace;
    }
    ghost var steps;
    resp, steps := Process(upload, script, request, reply, key);
    AssembledTrace([fetched], steps);
    trace := trace + steps;
    // finally
    trace := trace + [Unlink];
  }

  /**
   * `transcribe`. `hasClient` is the Gemini client dependency; `r2Configured`
   * whether the R2 client exists and `r2Ok` whether its get or put succeeds;
   * `now` is the clock read for a new object key. A refused request never
   * writes the temporary file or reaches Gemini. `writes` says whether
   * writing the temporary file succeeds: the write comes before the `try`,
   * so when it raises the file is left behind and never unlinked. Once the
   * file is written it is unlinked last, whatever happens in between; the
   * Gemini file is never deleted here.
   */
  method Transcribe(
    hasClient: bool, audio: Option<AudioFile>, r2Key: Option<string>,
    r2Configured: bool, r2Ok: bool, now: nat, writes: bool,
    upload: UploadReply, script: seq<Status>, request: Option<Option<seq<string>>>, reply: Option<Decoded>)
    returns (resp: Response, ghost refused: Option<nat>, ghost trace: seq<Event>)
    ensures refused == Refusal(hasClient, audio, r2Key, r2Configured, r2Ok)
    ensures refused.Some? ==>
              && resp == HttpError(refused.value)
              && (trace == [] || ((audio.Some? || KeyGiven(r2Key)) && trace == [R2Call(audio, r2Key, now)]))
    ensures refused.None? && !writes ==>
              resp == HttpError(500) && trace == [R2Call(audio, r2Key, now), WriteTemp]
    ensures refused.None? && writes ==> AdmittedTrace(trace, R2Call(audio, r2Key, now), upload, script, request)
    ensures Unlink in trace <==> refused.None? && writes
    ensures resp.Transcript? <==>
              refused.None? && writes && upload.Uploaded? && !PollRaises(script) && request.Some? && reply.Some?
              && StrictTurns(reply.value).Some?
    ensures resp.Transcript? ==>
              resp == Transcript(StrictTurns(reply.value).value, upload.name, ResultKey(audio, r2Key, now))
              && |trace| == 6 && trace[4] == Generate(ApiPrompt(request.value))
    ensures !hasClient || (audio.None? && !KeyGiven(r2Key)) ==> trace == []
    ensures forall i :: 0 <= i < |trace| - 1 ==> trace[i] != Unlink && !trace[i].GemDelete?
    ensures resp.HttpError? ==> resp.status in {400, 500, 503}
    ensures refused.None? && resp.HttpError? ==> resp.status == 500
  {
    var stop, key;
    stop, key, trace := Admit(hasClient, audio, r2Key, r2Configured, r2Ok, now);
    refused := stop;
    if stop.Some? {
      return HttpError(stop.value), refused, trace;
    }
    resp, trace := WithTempFile(trace[0], key, writes, upload, script, request, reply);
    assert resp.HttpError? ==> resp.status == 500;
  }

  /**
   * The handler's trace: the R2 call, the temporary file, the steps of
   * `Process`, and the unlink of `finally`, which is the only unlink and
   * comes after every Gemini call.
   */
  lemma AssembledTrace(pre: seq<Event>, steps: seq<Event>)
    requires |pre| == 1 && pre[0] != Unlink && !pre[0].GemDelete?
    requires forall i :: 0 <= i < |steps| ==> steps[i] != Unlink && !steps[i].GemDelete?
    ensures var t := pre + [WriteTemp] + steps + [Unlink];
            && |t| == |steps| + 3 && t[0] == pre[0] && t[1] == WriteTemp && t[|t| - 1] == Unlink
            && (forall i :: 0 <= i < |steps| ==> t[i + 2] == steps[i])
            && (forall i :: 0 <= i < |t| - 1 ==> t[i] != Unlink && !t[i].GemDelete?)
  {
    var t := pre + [WriteTemp] + steps + [Unlink];
    forall i | 0 <= i < |t| - 1
      ensures t[i] != Unlink && !t[i].GemDelete?
    {
      if i >= 2 {
        assert t[i] == steps[i - 2];
      }
    }
  }


  /**
   * The object key of an upload keeps the file's extension when the file
   * name has one, so a later request by key accepts the same file.
   */
  lemma KeyKeepsExtension(now: nat, filename: string)
    requires '.' in filename
    ensures Extension(StoredKey(now, filename)) == Extension(filename)
  {
    assert StoredKey(now, filename) == (NatToString(now) + "_") + filename;
    AfterLastConcat(NatToString(now) + "_", filename, '.');
  }

  // ---------------------------------------------------------------------
  // /generate_docx
  // ---------------------------------------------------------------------

  /** `dict.get(key)`: the value stored under `key`, if any. */
  function Lookup(titles: seq<(string, TitleValue)>, key: string): (r: Option<TitleValue>)
    ensures r.Some? <==> exists i :: 0 <= i < |titles| && titles[i].0 == key
    ensures r.Some? ==>
              exists i :: 0 <= i < |titles| && titles[i] == (key, r.value)
                          && forall j :: 0 <= j < i ==> titles[j].0 != key
  {
    if titles == [] then None
    else if titles[0].0 == key then Some(titles[0].1)
    else Lookup(titles[1..], key)
  }

  /**
   * `title_data.get("FILE_NAME", "transcript").split(".")[0]`: the text
   * before the first dot, `transcript` when there is no such title, nothing
   * when the title is null (a null has no `split`).
   */
  function DownloadBase(fileName: Option<TitleValue>): (base: Option<string>)
    ensures base.None? <==> fileName == Some(Null)
    ensures fileName.None? ==> base == Some("transcript")
    ensures base.Some? ==> '.' !in base.value
    ensures fileName.Some? && fileName.value.Str? ==>
              var name := fileName.value.s;
              |base.value| <= |name| && base.value == name[..|base.value|]
              && (|base.value| < |name| ==> name[|base.value|] == '.')
  {
    match fileName
    case None => Some("transcript")
    case Some(Null) => None
    case Some(Str(name)) => Some(BeforeFirst(name, '.'))
  }

  datatype DocxResponse = Download(doc: Body, fileName: string) | DocxError(status: nat)

  /**
   * `generate_docx`: build the document (500 without a template), then name
   * the download after `FILE_NAME` up to its first dot, `transcript` when
   * there is no such title; a null `FILE_NAME` has no `split` and fails.
   */
  method GenerateDocx(template: Option<Body>, titles: seq<(string, TitleValue)>, turns: seq<Turn>)
    returns (resp: DocxResponse)
    ensures template.None? ==> resp == DocxError(500)
    ensures resp.DocxError? ==> resp.status == 500
    ensures resp.Download? <==> template.Some? && Lookup(titles, "FILE_NAME") != Some(Null)
    ensures resp.Download? ==> resp.doc == Layout(ApplyTitles(template.value, titles), turns)
    ensures resp.Download? ==> resp.fileName == DownloadBase(Lookup(titles, "FILE_NAME")).value + "_transcript.docx"
  {
    var doc := CreateDocx(template, titles, turns, ParagraphOnly);
    if doc.None? {
      return DocxError(500);
    }
    var base := DownloadBase(Lookup(titles, "FILE_NAME"));
    if base.None? {
      return DocxError(500);
    }
    resp := Download(doc.value, base.value + "_transcript.docx");
  }

  /**
   * The legacy app names its download after the uploaded file up to its last
   * dot; the API cuts `FILE_NAME` at its first dot.
   */
  lemma DownloadNamesDiffer()
    ensures LegacyApp.SplitExtRoot("a.b.mp3") == "a.b"
    ensures DownloadBase(Some(Str("a.b.mp3"))) == Some("a")
  {
    LegacyApp.DownloadStem();
    var name := "a.b.mp3";
    var base := BeforeFirst(name, '.');
    assert name[0] == 'a' && name[1] == '.';
    assert |base| == 1;
    assert base == name[..1] == "a";
  }

  // ---------------------------------------------------------------------
  // Cleanup
  // ---------------------------------------------------------------------

  const CleanupMessage: string := "Cleanup attempted"

  /** `delete_gem`: one delete call when a client exists; its failure is swallowed. */
  method DeleteGem(name: string, hasClient: bool) returns (ghost trace: seq<Event>)
    ensures trace == (if hasClient then [GemDelete(name)] else [])
  {
    trace := [];
    if hasClient {
      trace := [GemDelete(name)];
    }
  }

  /** `delete_r2`: one delete call when R2 is configured; its failure is swallowed. */
  method DeleteR2(key: string, r2Configured: bool) returns (ghost trace: seq<Event>)
    ensures trace == (if r2Configured then [R2Delete(key)] else [])
  {
    trace := [];
    if r2Configured {
      trace := [R2Delete(key)];
    }
  }

  /**
   * `/cleanup/{gemini_file_name}`: delete the Gemini file, then the stored
   * object only when a key was given. Nothing raises, so the answer is
   * always the same message.
   */
  method Cleanup(geminiFileName: string, r2Key: Option<string>, hasClient: bool, r2Configured: bool)
    returns (message: string, ghost trace: seq<Event>)
    ensures message == CleanupMessage
    ensures trace == (if hasClient then [GemDelete(geminiFileName)] else [])
                     + (if KeyGiven(r2Key) && r2Configured then [R2Delete(r2Key.value)] else [])
  {
    trace := DeleteGem(geminiFileName, hasClient);
    if KeyGiven(r2Key) {
      ghost var more := DeleteR2(r2Key.value, r2Configured);
      trace := trace + more;
    }
    message := CleanupMessage;
  }

  /** `/cleanup_r2/{r2_object_key}`. */
  method CleanupR2(r2Key: string, r2Configured: bool) returns (message: string, ghost trace: seq<Event>)
    ensures message == CleanupMessage
    ensures trace == (if r2Configured then [R2Delete(r2Key)] else [])
  {
    trace := DeleteR2(r2Key, r2Configured);
    message := CleanupMessage;
  }
}
