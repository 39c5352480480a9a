/** File-name rules of the server: the upload-name sanitiser
    (server/routes.ts:31) and the extension test that picks the boot device
    (server/routes.ts:64-65, 228-229). */
module FileNames {

  import opened Wrappers
  import opened Strings

  /** The character class `[a-zA-Z0-9._-]` that an upload name may keep. */
  predicate SafeChar(c: char)
  {
    ('a' <= c <= 'z') || ('A' <= c <= 'Z') || ('0' <= c <= '9') || c == '.' || c == '_' || c == '-'
  }

  /** `originalname.replace(/[^a-zA-Z0-9._-]/g, '_')`: every character outside
      the class becomes an underscore, position by position. */
  function Sanitize(name: string): (safe: string)
    ensures |safe| == |name|
    ensures forall i :: 0 <= i < |name| ==> SafeChar(safe[i])
    ensures forall i :: 0 <= i < |name| && SafeChar(name[i]) ==> safe[i] == name[i]
    ensures forall i :: 0 <= i < |name| && !SafeChar(name[i]) ==> safe[i] == '_'
  {
    seq(|name|, i requires 0 <= i < |name| => if SafeChar(name[i]) then name[i] else '_')
  }

  /** Sanitising an already sanitised name changes nothing. */
  lemma SanitizeIdempotent(name: string)
    ensures Sanitize(Sanitize(name)) == Sanitize(name)
  {
  }

  /** A name made only of safe characters is stored under its own name. */
  lemma SanitizeKeepsSafeNames(name: string)
    requires forall i :: 0 <= i < |name| ==> SafeChar(name[i])
    ensures Sanitize(name) == name
  {
  }

  /** `originalFilename?.split('.').pop()?.toLowerCase() || ''`: the lowercased
      text after the last dot; the empty string when there is no file name. */
  function Extension(originalFilename: Option<string>): (ext: string)
    ensures originalFilename.None? ==> ext == ""
    ensures originalFilename.Some? ==> ext == AsciiLower(LastSegment(originalFilename.value, '.'))
    ensures '.' !in ext
  {
    match originalFilename
    case None => ""
    case Some(name) =>
      LastSegmentIsSuffix(name, '.');
      AsciiLower(LastSegment(name, '.'))
  }

  /** The image is attached as a CD-ROM exactly when its extension is `iso`;
      every other extension (`bin`, `img`, anything else, none) is a raw disk. */
  predicate IsOptical(originalFilename: Option<string>)
  {
    Extension(originalFilename) == "iso"
  }

  /** The lowercased last dot-segment of `stem + "." + ext`, where the
      lowercase of `ext` is spelled out. */
  lemma ExtensionOf(stem: string, ext: string, lower: string)
    requires '.' !in ext
    requires |lower| == |ext| && forall i :: 0 <= i < |ext| ==> LowerChar(ext[i]) == lower[i]
    ensures Extension(Some(stem + "." + ext)) == lower
  {
    assert stem + "." + ext == stem + ['.'] + ext;
    LastSegmentAfterSeparator(stem, ext, '.');
  }

  /** The extension test ignores case and looks only at the final dot-segment. */
  lemma OpticalExamples()
    ensures IsOptical(Some("FLEX.ISO"))
    ensures IsOptical(Some("a.zip.iso"))
    ensures IsOptical(Some("iso"))
  {
    ExtensionOf("FLEX", "ISO", "iso");
    assert "FLEX.ISO" == "FLEX" + "." + "ISO";
    ExtensionOf("a.zip", "iso", "iso");
    assert "a.zip.iso" == "a.zip" + "." + "iso";
    LastSegmentWithoutSeparator("iso", '.');
    assert AsciiLower("iso") == "iso";
  }

  /** An `iso` segment before the last dot, a `bin` image and a missing file
      name all mean a raw disk. */
  lemma DiskExamples()
    ensures !IsOptical(Some("a.iso.zip"))
    ensures !IsOptical(Some("chromeos_flex.bin"))
    ensures !IsOptical(None)
  {
    ExtensionOf("a.iso", "zip", "zip");
    assert "a.iso.zip" == "a.iso" + "." + "zip";
    ExtensionOf("chromeos_flex", "bin", "bin");
    assert "chromeos_flex.bin" == "chromeos_flex" + "." + "bin";
  }
}
