/** The client's disk-image uploader (client/src/components/file-uploader.tsx):
    the extension accept-list of `handleFile`, the `currentFilename`
    derivation, and the state of each Mount button. */
module FileUploader {

  import opened Wrappers
  import opened Strings
  import FileNames

  const ValidExtensions: seq<string> := [".bin", ".iso", ".img"]

  /** `'.' + file.name.split('.').pop()?.toLowerCase()`. */
  function ClientExtension(name: string): string
  {
    "." + AsciiLower(LastSegment(name, '.'))
  }

  /** `validExtensions.includes(extension)`. */
  predicate IsAcceptedFile(name: string)
  {
    ClientExtension(name) in ValidExtensions
  }

  /** The accept-list is the server's extension rule applied to a file name:
      the lowercased last dot-segment is `bin`, `iso` or `img`. */
  lemma AcceptedIffExtension(name: string)
    ensures IsAcceptedFile(name) <==> FileNames.Extension(Some(name)) in ["bin", "iso", "img"]
  {
    var ext := FileNames.Extension(Some(name));
    assert ClientExtension(name) == "." + ext;
    if ext == "bin" {
      assert ClientExtension(name) == ".bin";
    } else if ext == "iso" {
      assert ClientExtension(name) == ".iso";
    } else if ext == "img" {
      assert ClientExtension(name) == ".img";
    }
    if IsAcceptedFile(name) {
      assert ("." + ext)[1..] == ext;
    }
  }

  /** An accepted file boots from CD-ROM on the server exactly when it is an
      `.iso`; a `.bin` or `.img` boots from the raw disk. */
  lemma AcceptedFileBootDevice(name: string)
    requires IsAcceptedFile(name)
    ensures FileNames.IsOptical(Some(name)) <==> ClientExtension(name) == ".iso"
    ensures !FileNames.IsOptical(Some(name)) ==> ClientExtension(name) in [".bin", ".img"]
  {
    AcceptedIffExtension(name);
    var ext := FileNames.Extension(Some(name));
    assert ClientExtension(name) == "." + ext;
    assert ("." + ext)[1..] == ext;
  }

  /** Case does not matter: "FLEX.BIN" and "disk.Img" are accepted. */
  lemma CaseIsIgnored()
    ensures IsAcceptedFile("FLEX.BIN")
    ensures IsAcceptedFile("disk.Img")
  {
    assert "FLEX.BIN" == "FLEX" + "." + "BIN";
    FileNames.ExtensionOf("FLEX", "BIN", "bin");
    AcceptedIffExtension("FLEX.BIN");
    assert "disk.Img" == "disk" + "." + "Img";
    FileNames.ExtensionOf("disk", "Img", "img");
    AcceptedIffExtension("disk.Img");
  }

  /** Only the final dot-segment counts: "a.iso.zip" is rejected and
      "a.zip.iso" accepted; a name with no dot is judged on the whole name, so
      "iso" is accepted. */
  lemma OnlyLastSegmentCounts()
    ensures !IsAcceptedFile("a.iso.zip")
    ensures IsAcceptedFile("a.zip.iso")
    ensures IsAcceptedFile("iso")
  {
    assert "a.iso.zip" == "a.iso" + "." + "zip";
    FileNames.ExtensionOf("a.iso", "zip", "zip");
    AcceptedIffExtension("a.iso.zip");
    assert "a.zip.iso" == "a.zip" + "." + "iso";
    FileNames.ExtensionOf("a.zip", "iso", "iso");
    AcceptedIffExtension("a.zip.iso");
    LastSegmentWithoutSeparator("iso", '.');
    assert AsciiLower("iso") == "iso";
    AcceptedIffExtension("iso");
  }

  /** What `handleFile` does with a picked file: a rejected file shows the
      "Invalid file type" toast and returns before `upload` is called. */
  datatype FileAction = ShowError(title: string, description: string) | Upload(file: string)

  function HandleFile(name: string): (a: FileAction)
    ensures a.Upload? <==> IsAcceptedFile(name)
    ensures a.Upload? ==> a.file == name
    ensures a.ShowError? ==> a.title == "Invalid file type"
  {
    if !IsAcceptedFile(name) then
      ShowError("Invalid file type", "Please upload a .bin, .iso, or .img file.")
    else
      Upload(name)
  }

  /** `currentImage ? currentImage.split('/').pop() : null`: the text after
      the last slash of the mounted image path; nothing without a path (an
      empty path is falsy too). */
  function CurrentFilename(currentImage: Option<string>): (r: Option<string>)
    ensures r.None? <==> currentImage.None? || currentImage.value == ""
    ensures r.Some? ==> '/' !in r.value && EndsWith(currentImage.value, r.value)
    ensures r.Some? && |r.value| < |currentImage.value| ==>
              currentImage.value[|currentImage.value| - |r.value| - 1] == '/'
  {
    if currentImage.None? || currentImage.value == "" then None
    else
      LastSegmentIsSuffix(currentImage.value, '/');
      Some(LastSegment(currentImage.value, '/'))
  }

  /** An image uploaded under its sanitised name into a directory is shown by
      that sanitised name: the sanitiser never produces a slash. */
  lemma UploadedImageFilename(uploadDir: string, originalName: string)
    ensures CurrentFilename(Some(uploadDir + "/" + FileNames.Sanitize(originalName)))
            == Some(FileNames.Sanitize(originalName))
  {
    var safe := FileNames.Sanitize(originalName);
    assert '/' !in safe by {
      forall i | 0 <= i < |safe| ensures safe[i] != '/' {
        assert FileNames.SafeChar(safe[i]);
      }
    }
    assert uploadDir + "/" + safe == uploadDir + ['/'] + safe;
    LastSegmentAfterSeparator(uploadDir, safe, '/');
  }

  /** The state of one image's Mount button. */
  datatype MountButton = MountButton(disabled: bool, caption: string)

  /** `disabled={mountingName === f || currentFilename === f}` and the caption
      `currentFilename === f ? "Mounted" : mountingName === f ? "Mounting..." : "Mount"`.
      The caption gives the state away: "Mount" exactly when the button can be
      pressed; "Mounted" exactly for the current image. */
  function MountButtonFor(filename: string, mountingName: Option<string>, currentFilename: Option<string>)
    : (b: MountButton)
    ensures b.disabled <==> mountingName == Some(filename) || currentFilename == Some(filename)
    ensures b.caption == "Mounted" <==> currentFilename == Some(filename)
    ensures b.caption == "Mount" <==> !b.disabled
    ensures b.caption in ["Mounted", "Mounting...", "Mount"]
  {
    var disabled := mountingName == Some(filename) || currentFilename == Some(filename);
    var caption := if currentFilename == Some(filename) then "Mounted"
                 else if mountingName == Some(filename) then "Mounting..."
                 else "Mount";
    MountButton(disabled, caption)
  }
}
