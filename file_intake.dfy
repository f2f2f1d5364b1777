/** The page's checks on a candidate file: the size limit, the image test,
    the HEIC/HEIF test that decides whether a preview can be made, and the
    type label shown next to an accepted file. */
module FileIntake {
  import opened Wrappers
  import opened Strings

  /** A browser File: its name, its declared MIME type (possibly empty) and
      its size in bytes. The payload itself plays no part in the logic. */
  datatype File = File(name: string, mimeType: string, size: nat)

  const MaxFileSize: nat := 10 * 1024 * 1024
  const ImageExtensions: seq<string> :=
    [".jpg", ".jpeg", ".png", ".gif", ".webp", ".bmp", ".tiff", ".heic", ".heif"]
  const HeicExtensions: seq<string> := [".heic", ".heif"]

  const SizeError: string := "File size must be less than 10MB"
  const TypeError: string := "Please select a valid image file"
  const ReadError: string := "Failed to read image file"
  const HeicNote: string := "Preview not available for HEIC files"

  /** The page's image test: a declared type under "image/", or a name that,
      lower-cased, ends with one of the image extensions. A declared image
      type is enough whatever the name; a file is refused only when its name
      ends with none of the extensions in any capitalisation. */
  predicate LooksLikeImage(f: File): (image: bool)
    ensures StartsWith(f.mimeType, "image/") ==> image
    ensures !image ==> forall k :: 0 <= k < |ImageExtensions| ==> !EndsWith(Lower(f.name), ImageExtensions[k])
  {
    StartsWith(f.mimeType, "image/") || EndsWithAny(Lower(f.name), ImageExtensions)
  }

  /** The HEIC/HEIF test: the declared type compared exactly, the name
      compared after lower-casing. Every file it recognises also passes the
      image test, so intake accepts an HEIC/HEIF file within the size limit
      (without a preview). */
  predicate IsHeicFile(f: File): (heic: bool)
    ensures f.mimeType == "image/heic" || f.mimeType == "image/heif" ==> heic
    ensures heic ==> LooksLikeImage(f)
  {
    if f.mimeType == "image/heic" || f.mimeType == "image/heif" then
      assert f.mimeType[..6] == "image/";
      true
    else if EndsWithAny(Lower(f.name), HeicExtensions) then
      assert HeicExtensions[0] == ImageExtensions[7] && HeicExtensions[1] == ImageExtensions[8];
      EndsWithAnySubset(Lower(f.name), HeicExtensions, ImageExtensions);
      true
    else
      false
  }

  /** How a candidate fares, first failing check first. */
  datatype Verdict = NoFile | TooLarge | NotAnImage | AcceptedHeic | AcceptedPreviewable
  {
    predicate Accepted() { this == AcceptedHeic || this == AcceptedPreviewable }
  }

  function Judge(file: Option<File>): (v: Verdict)
    ensures v == NoFile <==> file.None?
    ensures v == TooLarge <==> file.Some? && file.value.size > MaxFileSize
    ensures v == NotAnImage <==>
              file.Some? && file.value.size <= MaxFileSize && !LooksLikeImage(file.value)
    ensures v.Accepted() <==>
              file.Some? && file.value.size <= MaxFileSize && LooksLikeImage(file.value)
    ensures v == AcceptedHeic <==> v.Accepted() && IsHeicFile(file.value)
  {
    match file
    case None => NoFile
    case Some(f) =>
      if f.size > MaxFileSize then TooLarge
      else if !LooksLikeImage(f) then NotAnImage
      else if IsHeicFile(f) then AcceptedHeic
      else AcceptedPreviewable
  }

  /** The inline error a verdict shows. */
  function ErrorOf(v: Verdict): (e: Option<string>)
    ensures e.Some? <==> v == TooLarge || v == NotAnImage
  {
    match v
    case TooLarge => Some(SizeError)
    case NotAnImage => Some(TypeError)
    case _ => None
  }

  /** A file of exactly 10 MiB is within the limit: the comparison is strict. */
  lemma ExactLimitAccepted(f: File)
    requires f.size == 10 * 1024 * 1024 && LooksLikeImage(f)
    ensures Judge(Some(f)).Accepted()
  {
  }

  /** The HEIC test ignores the case of the name but not of the type. */
  lemma HeicTestCaseSensitivity()
    ensures IsHeicFile(File("PHOTO.HEIC", "", 0))
    ensures !IsHeicFile(File("img", "IMAGE/HEIC", 0))
    ensures IsHeicFile(File("img", "image/heic", 0))
  {
    var lowered := Lower("PHOTO.HEIC");
    assert lowered == "photo.heic";
    assert EndsWith(lowered, HeicExtensions[0]);
    var plain := Lower("img");
    assert forall k :: 0 <= k < |HeicExtensions| ==> !EndsWith(plain, HeicExtensions[k]);
  }

  /** The label next to an accepted, previewable file: the text between the
      first and second '/' of the type, upper-cased, or "Unknown" when that
      text is missing or empty. */
  function TypeLabel(mimeType: string): (text: string)
    ensures text != ""
  {
    var parts := Split(mimeType, '/');
    if |parts| >= 2 && parts[1] != "" then Upper(parts[1]) else "Unknown"
  }

  /** For a type "<top>/<sub>" whose subtype has no further '/', the label is
      the upper-cased subtype. */
  lemma TypeLabelOfSubtype(top: string, sub: string)
    requires '/' !in top && '/' !in sub && sub != ""
    ensures TypeLabel(top + "/" + sub) == Upper(sub)
  {
    SplitAtFirst(top, sub, '/');
    SplitWithoutSep(sub, '/');
  }

  /** A type with no '/' at all is labelled "Unknown". */
  lemma TypeLabelWithoutSlash(mimeType: string)
    requires '/' !in mimeType
    ensures TypeLabel(mimeType) == "Unknown"
  {
    SplitWithoutSep(mimeType, '/');
  }

  /** What the page shows about a selected file's type. */
  datatype TypeInfo = TypeInfo(typeLabel: string, canPreview: bool, note: Option<string>)

  function GetFileTypeInfo(file: Option<File>): (info: Option<TypeInfo>)
    ensures info.None? <==> file.None?
    ensures info.Some? ==> (info.value.canPreview <==> !IsHeicFile(file.value))
    ensures info.Some? && !info.value.canPreview ==>
              info.value.typeLabel == "HEIC/HEIF" && info.value.note == Some(HeicNote)
    ensures info.Some? && info.value.canPreview ==>
              info.value.typeLabel == TypeLabel(file.value.mimeType) && info.value.note.None?
  {
    match file
    case None => None
    case Some(f) =>
      if IsHeicFile(f) then Some(TypeInfo("HEIC/HEIF", false, Some(HeicNote)))
      else Some(TypeInfo(TypeLabel(f.mimeType), true, None))
  }

  /** The type-info panel and the intake decision agree: an accepted file can
      be previewed exactly when intake starts reading it. */
  lemma PreviewPolicyAgrees(f: File)
    requires Judge(Some(f)).Accepted()
    ensures GetFileTypeInfo(Some(f)).value.canPreview <==> Judge(Some(f)) == AcceptedPreviewable
  {
  }
}
