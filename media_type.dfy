/**
 * The fixed extension-to-MIME table used before a recording is handed to
 * the transcription service, and the way both front ends take the extension
 * off a file name or object key.
 *
 * The legacy app's `get_audio_mime_type` and the API's `mime` hold the same
 * six entries and both look up the lower-cased extension, so one function
 * models both.
 */
module MediaType {
  import opened Wrappers
  import opened Text

  /** The extensions with an entry in the table. */
  const AudioExtensions: set<string> := {"mp3", "wav", "aiff", "aac", "ogg", "flac"}

  /** `get_audio_mime_type(ext)` / `mime(ext)`: look up `ext.lower()` in the table. */
  function MimeType(ext: string): (r: Option<string>)
    ensures r.Some? <==> Lower(ext) in AudioExtensions
    ensures r.Some? ==> r.value == "audio/" + Lower(ext)
  {
    var table := map[
      "mp3" := "audio/mp3",
      "wav" := "audio/wav",
      "aiff" := "audio/aiff",
      "aac" := "audio/aac",
      "ogg" := "audio/ogg",
      "flac" := "audio/flac"];
    var e := Lower(ext);
    if e in table then Some(table[e]) else None
  }

  /** The lookup ignores case: an extension and its lower-case form get the same answer. */
  lemma MimeTypeIgnoresCase(ext: string)
    ensures MimeType(ext) == MimeType(Lower(ext))
  {
    LowerIdempotent(ext);
  }

  /** `m4a` is accepted by the legacy upload widget but has no entry in the table. */
  lemma M4aHasNoMimeType()
    ensures MimeType("m4a") == None && MimeType("M4A") == None
  {
    assert Lower("m4a") == "m4a";
    assert Lower("M4A") == "m4a";
  }

  /**
   * The extension of a file name or object key: `name.split('.')[-1]`, the
   * text after the last dot, or the whole name when it has no dot.
   */
  function Extension(name: string): (ext: string)
    ensures '.' !in ext
    ensures '.' !in name ==> ext == name
    ensures '.' in name ==> exists stem :: name == stem + "." + ext
  {
    var ext := AfterLast(name, '.');
    if '.' in name then
      var stem := name[..|name| - |ext| - 1];
      assert name == stem + "." + ext;
      ext
    else
      ext
  }
}
