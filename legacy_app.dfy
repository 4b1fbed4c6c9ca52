/**
 * The legacy Streamlit app's transcription run: prepare the uploaded file,
 * upload and wait for it, ask for the transcript, build the document, and
 * in every case delete the remote copy once at the end.
 *
 * Conversions (ffmpeg for video, pydub for m4a) are a single oracle
 * `converts`; the remote services are the oracles of `Polling` and a
 * generation reply.
 */
module LegacyApp {
  import opened Wrappers
  import opened Text
  import opened MediaType
  import opened Records
  import opened Prompts
  import opened Polling
  import opened Docx

  const VideoTypes: seq<string> := ["mp4", "mov", "avi", "mkv"]
  const AudioTypes: seq<string> := ["mp3", "wav", "m4a", "flac", "ogg", "aac", "aiff"]

  /** `ext in types` for a Python list: a scan from the front. */
  predicate Listed(ext: string, types: seq<string>)
    decreases |types|
  {
    types != [] && (types[0] == ext || Listed(ext, types[1..]))
  }

  /** The scan finds exactly the members of the list. */
  lemma {:induction false} ListedIsMembership(ext: string, types: seq<string>)
    ensures Listed(ext, types) <==> ext in types
    decreases |types|
  {
    if types != [] {
      ListedIsMembership(ext, types[1..]);
      assert types == [types[0]] + types[1..];
    }
  }

  /** What `generate_content` gives back: a decoded reply text, or an exception. */
  datatype GenReply =
    | Responded(decoded: Decoded)
    | GenPermissionDenied
    | GenResourceExhausted
    | GenFailed
    | NoText

  /**
   * `generate_transcript`: build the prompt, send it, and repair the reply.
   * Every exception, a reply without text, undecodable JSON and a
   * `TypeError` in the loop give `None`.
   */
  method GenerateTranscript(speakers: Option<seq<string>>, reply: GenReply)
    returns (prompt: string, turns: Option<seq<Turn>>)
    ensures prompt == LegacyPrompt(speakers)
    ensures turns.Some? ==> reply.Responded? && RepairDecoded(reply.decoded) == turns
    ensures reply.Responded? ==> turns == RepairDecoded(reply.decoded)
  {
    prompt := LegacyPrompt(speakers);
    if !reply.Responded? {
      return prompt, None;
    }
    match reply.decoded {
      case Parsed(JArray(items)) =>
        turns := RepairTurns(items);
      case _ =>
        turns := RepairDecoded(reply.decoded);
    }
  }

  /** How one run ends, as the user sees it. */
  datatype Outcome =
    | Unsupported
    | NotConverted
    | NoMimeType
    | NotUploaded
    | NoTranscript
    | Transcribed(turns: seq<Turn>, doc: Option<Body>, downloadName: string)

  /** `os.path.splitext(name)[0]` for a name without directories: the name up to its last dot, unless only dots precede it. */
  function SplitExtRoot(name: string): (root: string)
    ensures |root| <= |name| && root == name[..|root|]
  {
    var cut := LastCut(name, '.');
    if cut == 0 then name
    else
      var dot := cut - 1;
      if exists i :: 0 <= i < dot && name[i] != '.' then name[..dot] else name
  }

  /**
   * The MIME type the file is uploaded with, or `None` when it is not
   * uploaded: video is converted to mp3, m4a too, other audio is sent as is.
   */
  function UploadMime(ext: string, converts: bool): Option<string> {
    if Listed(ext, VideoTypes) then
      if converts then MimeType("mp3") else None
    else if Listed(ext, AudioTypes) then
      if ext == "m4a" then (if converts then MimeType("mp3") else None) else MimeType(ext)
    else None
  }

  /** The extension is one the upload widget offers. */
  predicate Supported(ext: string) {
    Listed(ext, VideoTypes) || Listed(ext, AudioTypes)
  }

  /** The file is accepted and, where it needs one, its conversion succeeded. */
  predicate WillUpload(ext: string, converts: bool) {
    (Listed(ext, VideoTypes) || Listed(ext, AudioTypes)) && (converts || (!Listed(ext, VideoTypes) && ext != "m4a"))
  }

  /** Every accepted file either gets a MIME type or is not uploaded at all. */
  lemma AcceptedFilesHaveMime(ext: string, converts: bool)
    ensures UploadMime(ext, converts).Some? <==> WillUpload(ext, converts)
    ensures UploadMime(ext, converts).Some? ==>
              UploadMime(ext, converts).value == "audio/" + (if Listed(ext, VideoTypes) || ext == "m4a" then "mp3" else ext)
  {
    MimeOfPlainAudio("mp3");
    if !Listed(ext, VideoTypes) && Listed(ext, AudioTypes) && ext != "m4a" {
      MimeOfPlainAudio(ext);
    }
  }

  /** An audio extension other than m4a is already lower case and has an entry in the MIME table. */
  lemma MimeOfPlainAudio(ext: string)
    requires Listed(ext, AudioTypes) && ext != "m4a"
    ensures MimeType(ext) == Some("audio/" + ext)
  {
    ListedIsMembership(ext, AudioTypes);
    assert IsLowerCase(ext);
    LowerKeepsLowerCase(ext);
  }

  /**
   * The file-type branch of the run: video is converted, audio is taken as
   * it is (m4a converted to mp3), anything else is refused. `ready` says a
   * file is there to upload, `mime` is its MIME type.
   */
  method PrepareAudio(ext: string, converts: bool) returns (supported: bool, ready: bool, mime: Option<string>)
    ensures supported <==> Supported(ext)
    ensures ready <==> WillUpload(ext, converts)
    ensures ready ==> mime.Some? && mime == UploadMime(ext, converts)
  {
    supported, ready, mime := true, false, None;
    if Listed(ext, VideoTypes) {
      ready := converts;
      if ready {
        mime := MimeType("mp3");
      }
    } else if Listed(ext, AudioTypes) {
      ready := true;
      mime := MimeType(ext);
      if ext == "m4a" {
        ready := converts;
        if converts {
          mime := MimeType("mp3");
        }
      }
    } else {
      supported := false;
    }
    AcceptedFilesHaveMime(ext, converts);
  }

  /**
   * What a transcribed run hands the user: the repaired turns, the filled
   * template with the turns laid out (when a template was found) and the
   * download name built from the uploaded file's name.
   */
  predicate Delivered(outcome: Outcome, fileName: string, titles: seq<(string, TitleValue)>, reply: GenReply, template: Option<Body>)
    requires outcome.Transcribed?
  {
    && reply.Responded?
    && RepairDecoded(reply.decoded) == Some(outcome.turns)
    && outcome.downloadName == SplitExtRoot(fileName) + "_transcript.docx"
    && (outcome.doc.Some? <==> template.Some?)
    && (outcome.doc.Some? ==> outcome.doc.value == Layout(ApplyTitles(template.value, titles), outcome.turns))
  }

  /**
   * Upload, wait, transcribe and build the document for a prepared file.
   * `deletes` lists the `files.delete` calls made inside `upload_to_gemini`;
   * `toDelete` is what the `finally` block will delete.
   */
  method Transcribe(
    fileName: string, speakers: Option<seq<string>>, titles: seq<(string, TitleValue)>,
    upload: UploadReply, script: seq<Status>, reply: GenReply, template: Option<Body>)
    returns (outcome: Outcome, toDelete: Option<string>, ghost deletes: seq<string>)
    ensures toDelete.Some? <==> upload.Uploaded? && BecomesActive(script)
    ensures toDelete.Some? ==> toDelete.value == upload.name
    ensures deletes == (if upload.Uploaded? && !BecomesActive(script) && !LegacyAborted(script) then [upload.name] else [])
    ensures outcome.Transcribed? <==> toDelete.Some? && reply.Responded? && RepairDecoded(reply.decoded).Some?
    ensures outcome.Transcribed? || outcome == NotUploaded || outcome == NoTranscript
    ensures outcome.Transcribed? ==> Delivered(outcome, fileName, titles, reply, template)
  {
    ghost var checks, delays;
    toDelete, checks, delays, deletes := UploadToGemini(upload, script);
    if toDelete.None? {
      return NotUploaded, toDelete, deletes;
    }
    var prompt, turns := GenerateTranscript(speakers, reply);
    if turns.None? {
      return NoTranscript, toDelete, deletes;
    }
    var doc := CreateDocx(template, titles, turns.value, EachRun);
    outcome := Transcribed(turns.value, doc, SplitExtRoot(fileName) + "_transcript.docx");
  }

  /**
   * The work behind "Generate Transcript" once the lower-cased extension
   * `ext` is known, lines 432-518: prepare the file, hand it over, and in
   * `finally` delete the handle `upload_to_gemini` returned. `deletes` lists
   * every `files.delete` call of the run.
   */
  method Handle(
    ext: string, fileName: string, speakers: Option<seq<string>>, titles: seq<(string, TitleValue)>,
    converts: bool, upload: UploadReply, script: seq<Status>, reply: GenReply, template: Option<Body>)
    returns (outcome: Outcome, ghost deletes: seq<string>)
    ensures var uploaded := WillUpload(ext, converts) && upload.Uploaded?;
            && (!Supported(ext) <==> outcome == Unsupported)
            && outcome != NoMimeType
            && deletes == (if uploaded && !LegacyAborted(script) then [upload.name] else [])
            && (outcome.Transcribed? <==>
                  uploaded && BecomesActive(script) && reply.Responded? && RepairDecoded(reply.decoded).Some?)
    ensures outcome.Transcribed? ==> Delivered(outcome, fileName, titles, reply, template)
  {
    var toDelete: Option<string> := None;
    deletes := [];
    var supported, ready, mime := PrepareAudio(ext, converts);
    if !supported {
      outcome := Unsupported;
    } else if ready && mime.Some? {
      ghost var uploadDeletes;
      outcome, toDelete, uploadDeletes := Transcribe(fileName, speakers, titles, upload, script, reply, template);
      deletes := deletes + uploadDeletes;
      assert toDelete.Some? ==> deletes == [];
      assert toDelete.None? ==> deletes == (if upload.Uploaded? && !LegacyAborted(script) then [upload.name] else []);
    } else if ready {
      outcome := NoMimeType;
    } else {
      outcome := NotConverted;
    }

    // finally
    if toDelete.Some? {
      deletes := deletes + [toDelete.value];
    }
  }

  /** A whole run for the uploaded file `fileName`: its extension decides how it is handled. */
  method Run(
    fileName: string, speakers: Option<seq<string>>, titles: seq<(string, TitleValue)>,
    converts: bool, upload: UploadReply, script: seq<Status>, reply: GenReply, template: Option<Body>)
    returns (outcome: Outcome, ghost deletes: seq<string>)
    ensures var ext := Lower(Extension(fileName));
            var uploaded := WillUpload(ext, converts) && upload.Uploaded?;
            && (!Supported(ext) <==> outcome == Unsupported)
            && outcome != NoMimeType
            && deletes == (if uploaded && !LegacyAborted(script) then [upload.name] else [])
            && (outcome.Transcribed? <==>
                  uploaded && BecomesActive(script) && reply.Responded? && RepairDecoded(reply.decoded).Some?)
    ensures outcome.Transcribed? ==> Delivered(outcome, fileName, titles, reply, template)
  {
    var ext := Lower(Extension(fileName));
    outcome, deletes := Handle(ext, fileName, speakers, titles, converts, upload, script, reply, template);
  }

  /** A dotted name keeps everything up to its last dot as the download name's stem. */
  lemma DownloadStem()
    ensures SplitExtRoot("a.b.mp3") == "a.b"
  {
    var n := "a.b.mp3";
    assert n[3] == '.' && n[4] != '.' && n[5] != '.' && n[6] != '.';
    assert LastCut(n, '.') == 4;
    assert n[0] != '.';
  }

  /** A name without a dot is its own download stem. */
  lemma SplitExtRootNoDot(name: string)
    requires '.' !in name
    ensures SplitExtRoot(name) == name
  {
  }

  /**
   * A name whose last dot is at `d` loses the dot and what follows it,
   * unless only dots come before it (`.mp3`, `..mp3`), as `os.path.splitext` does.
   */
  lemma SplitExtRootLastDot(name: string, d: nat)
    requires d < |name| && name[d] == '.'
    requires forall i :: d < i < |name| ==> name[i] != '.'
    ensures SplitExtRoot(name) == (if exists i :: 0 <= i < d && name[i] != '.' then name[..d] else name)
  {
    assert LastCut(name, '.') == d + 1;
  }
}
