/** The server's handling of an upload (`main.py`): the checks each task
    endpoint makes before touching the file, the HEIC routing of the saved
    upload, the mapping of failures to HTTP errors, the clean-up of the
    request's scratch directory, and the health report. The file system is
    reduced to the set of files in the scratch directory; the names
    `tempfile` chooses, whether copying the upload fails and whether the
    HEIC conversion succeeds are inputs. */
module Server {
  import opened Wrappers
  import opened Strings
  import opened Api

  /** An uploaded file as the framework presents it. */
  datatype Upload = Upload(filename: Option<string>, contentType: Option<string>)

  datatype Endpoint = ClassifyEndpoint | SearchEndpoint

  const ClassifyExtensions: seq<string> :=
    [".jpg", ".jpeg", ".png", ".webp", ".gif", ".bmp", ".tiff", ".heic", ".heif", ".avif"]
  const SearchExtensions: seq<string> :=
    [".jpg", ".jpeg", ".png", ".webp", ".gif", ".bmp", ".tiff", ".heic", ".heif"]
  const HeicSuffixes: seq<string> := [".heic", ".heif"]
  const NoFilenameDetail: string := "No filename provided"

  function Extensions(e: Endpoint): seq<string>
  {
    match e
    case ClassifyEndpoint => ClassifyExtensions
    case SearchEndpoint => SearchExtensions
  }

  function ModelMissingDetail(e: Endpoint): string
  {
    match e
    case ClassifyEndpoint => "Task1 model not loaded. Check server logs."
    case SearchEndpoint => "Task2 model not loaded. Check server logs."
  }

  function NotImageDetail(e: Endpoint): string
  {
    "File must be an image. Supported formats: " + Join(Extensions(e), ", ")
  }

  function FailurePrefix(e: Endpoint): string
  {
    match e
    case ClassifyEndpoint => "Classification failed: "
    case SearchEndpoint => "Search failed: "
  }

  /** A file name that is present and non-empty. */
  predicate HasFilename(u: Upload)
  {
    u.filename.Some? && u.filename.value != ""
  }

  /** The endpoints' image test: a content type under "image/", or a file
      name that, lower-cased, ends with one of the listed extensions. A
      declared image type is enough whatever the name; an upload is refused
      only when its name ends with none of the extensions in any
      capitalisation. */
  predicate IsValidImage(u: Upload, extensions: seq<string>): (valid: bool)
    ensures u.contentType.Some? && StartsWith(u.contentType.value, "image/") ==> valid
    ensures !valid && u.filename.Some? ==>
              forall k :: 0 <= k < |extensions| ==> !EndsWith(Lower(u.filename.value), extensions[k])
  {
    (u.contentType.Some? && StartsWith(u.contentType.value, "image/"))
    || (u.filename.Some? && EndsWithAny(Lower(u.filename.value), extensions))
  }

  /** HEIC/HEIF: the content type compared exactly, the name lower-cased.
      Every upload it recognises passes both endpoints' image tests. */
  predicate IsHeic(u: Upload): (heic: bool)
    ensures u.contentType == Some("image/heic") || u.contentType == Some("image/heif") ==> heic
    ensures heic ==> IsValidImage(u, SearchExtensions) && IsValidImage(u, ClassifyExtensions)
  {
    if u.contentType == Some("image/heic") || u.contentType == Some("image/heif") then
      assert u.contentType.value[..6] == "image/";
      true
    else if u.filename.Some? && EndsWithAny(Lower(u.filename.value), HeicSuffixes) then
      assert HeicSuffixes[0] == SearchExtensions[7] && HeicSuffixes[1] == SearchExtensions[8];
      assert HeicSuffixes[0] == ClassifyExtensions[7] && HeicSuffixes[1] == ClassifyExtensions[8];
      EndsWithAnySubset(Lower(u.filename.value), HeicSuffixes, SearchExtensions);
      EndsWithAnySubset(Lower(u.filename.value), HeicSuffixes, ClassifyExtensions);
      true
    else
      false
  }

  /** AVIF, computed the same way; nothing depends on it. */
  predicate IsAvif(u: Upload)
  {
    u.contentType == Some("image/avif")
    || (u.filename.Some? && EndsWith(Lower(u.filename.value), ".avif"))
  }

  datatype HttpError = HttpError(status: int, detail: string)

  /** The checks before any work, in order: model loaded (500), a file name
      (400), an image (400, listing the extensions). */
  function Gate(e: Endpoint, modelLoaded: bool, u: Upload): (err: Option<HttpError>)
    ensures err.None? <==> modelLoaded && HasFilename(u) && IsValidImage(u, Extensions(e))
    ensures !modelLoaded ==> err == Some(HttpError(500, ModelMissingDetail(e)))
    ensures modelLoaded && !HasFilename(u) ==> err == Some(HttpError(400, NoFilenameDetail))
    ensures modelLoaded && HasFilename(u) && !IsValidImage(u, Extensions(e)) ==>
              err == Some(HttpError(400, NotImageDetail(e)))
    ensures err.Some? && err.value.status == 500 <==> !modelLoaded
  {
    if !modelLoaded then Some(HttpError(500, ModelMissingDetail(e)))
    else if !HasFilename(u) then Some(HttpError(400, NoFilenameDetail))
    else if !IsValidImage(u, Extensions(e)) then Some(HttpError(400, NotImageDetail(e)))
    else None
  }

  /** Whatever the search endpoint lets through, the classification endpoint
      lets through too: its extension list only adds ".avif". */
  lemma SearchImagesAreClassifyImages(u: Upload)
    requires IsValidImage(u, SearchExtensions)
    ensures IsValidImage(u, ClassifyExtensions)
  {
    if !(u.contentType.Some? && StartsWith(u.contentType.value, "image/")) {
      assert forall k :: 0 <= k < |SearchExtensions| ==> SearchExtensions[k] == ClassifyExtensions[k];
      EndsWithAnySubset(Lower(u.filename.value), SearchExtensions, ClassifyExtensions);
    }
  }

  /** An ".avif" upload sent with a non-image content type passes the
      classification endpoint's checks and is refused by the search
      endpoint's. */
  lemma AvifOnlyClassified()
    ensures var u := Upload(Some("x.avif"), Some("application/octet-stream"));
            && Gate(ClassifyEndpoint, true, u).None?
            && Gate(SearchEndpoint, true, u) == Some(HttpError(400, NotImageDetail(SearchEndpoint)))
  {
    var u := Upload(Some("x.avif"), Some("application/octet-stream"));
    var name := Lower("x.avif");
    assert name == "x.avif";
    assert !StartsWith("application/octet-stream", "image/") by {
      assert "application/octet-stream"[0] != "image/"[0];
    }
    assert EndsWith(name, ClassifyExtensions[9]);
    forall k | 0 <= k < |SearchExtensions| ensures !EndsWith(name, SearchExtensions[k]) {
      var ext := SearchExtensions[k];
      if |ext| == 4 {
        assert name[|name| - 4] == 'a' && ext[0] == '.';
      } else {
        assert |ext| == 5 && name[|name| - 4] == 'a' && ext[1] != 'a';
      }
    }
  }

  /** The health report. */
  datatype Health = Health(status: string, task1Status: string, task2Status: string, heicSupport: bool)

  function ModelStatus(loaded: bool): string
  {
    if loaded then "loaded" else "failed"
  }

  function HealthCheck(task1Loaded: bool, task2Loaded: bool): (h: Health)
    ensures h.status == "ok" && h.heicSupport
    ensures h.task1Status == "loaded" <==> task1Loaded
    ensures h.task2Status == "loaded" <==> task2Loaded
    ensures h.task1Status == "loaded" || h.task1Status == "failed"
    ensures h.task2Status == "loaded" || h.task2Status == "failed"
  {
    Health("ok", ModelStatus(task1Loaded), ModelStatus(task2Loaded), true)
  }

  /** The health report says "failed" for a task exactly when its endpoint
      answers every upload with the model-not-loaded error. */
  lemma HealthAgreesWithGate(task1Loaded: bool, task2Loaded: bool, u: Upload)
    ensures HealthCheck(task1Loaded, task2Loaded).task1Status == "failed" <==>
              Gate(ClassifyEndpoint, task1Loaded, u) == Some(HttpError(500, ModelMissingDetail(ClassifyEndpoint)))
    ensures HealthCheck(task1Loaded, task2Loaded).task2Status == "failed" <==>
              Gate(SearchEndpoint, task2Loaded, u) == Some(HttpError(500, ModelMissingDetail(SearchEndpoint)))
  {
  }

  /** A request's scratch directory (`tempfile.mkdtemp()`): the files in it
      and whether the directory itself still exists. */
  class TempDir {
    var files: set<string>
    var present: bool

    constructor ()
      ensures files == {} && present
    {
      files, present := {}, true;
    }

    /** `os.rmdir`: only an empty directory is removed; the error for a
        non-empty one is swallowed by the caller. */
    method RemoveIfEmpty()
      modifies this
      ensures files == old(files)
      ensures present == (old(present) && old(files) != {})
    {
      if files == {} {
        present := false;
      }
    }
  }

  /** What the file system does for one upload: the names `tempfile` hands
      out for the saved upload and for the converted JPEG, the error (if
      any) raised while copying the upload, and whether the HEIC conversion
      succeeds. */
  datatype Storage = Storage(tempPath: string, convertedPath: string,
                             copyError: Option<string>, conversionSucceeds: bool)

  /** `process_image_file` as written: on a failed HEIC conversion it falls
      back to the saved upload but leaves the (empty) converted file behind. */
  method ProcessImageFileAsWritten(u: Upload, dir: TempDir, st: Storage) returns (r: Result<string, string>)
    requires HasFilename(u)
    requires st.tempPath != st.convertedPath
    requires st.tempPath !in dir.files && st.convertedPath !in dir.files
    modifies dir
    ensures dir.present == old(dir.present)
    ensures st.copyError.Some? ==> r == Failure(st.copyError.value) && dir.files == old(dir.files)
    ensures st.copyError.None? && !IsHeic(u) ==>
              r == Success(st.tempPath) && dir.files == old(dir.files) + {st.tempPath}
    ensures st.copyError.None? && IsHeic(u) && st.conversionSucceeds ==>
              r == Success(st.convertedPath) && dir.files == old(dir.files) + {st.convertedPath}
    ensures st.copyError.None? && IsHeic(u) && !st.conversionSucceeds ==>
              r == Success(st.tempPath)
              && dir.files == old(dir.files) + {st.tempPath, st.convertedPath}
  {
    dir.files := dir.files + {st.tempPath};
    if st.copyError.Some? {
      dir.files := dir.files - {st.tempPath};
      return Failure(st.copyError.value);
    }
    if IsHeic(u) {
      dir.files := dir.files + {st.convertedPath};
      if st.conversionSucceeds {
        dir.files := dir.files - {st.tempPath};
        return Success(st.convertedPath);
      }
      return Success(st.tempPath);
    }
    return Success(st.tempPath);
  }

  /** `process_image_file` with the converted file removed when conversion
      fails: whatever happens, the file it returns is the only one it adds. */
  method ProcessImageFile(u: Upload, dir: TempDir, st: Storage) returns (r: Result<string, string>)
    requires HasFilename(u)
    requires st.tempPath != st.convertedPath
    requires st.tempPath !in dir.files && st.convertedPath !in dir.files
    modifies dir
    ensures dir.present == old(dir.present)
    ensures st.copyError.Some? ==> r == Failure(st.copyError.value)
    ensures st.copyError.None? && !IsHeic(u) ==> r == Success(st.tempPath)
    ensures st.copyError.None? && IsHeic(u) ==>
              r == Success(if st.conversionSucceeds then st.convertedPath else st.tempPath)
    ensures r.Failure? ==> dir.files == old(dir.files)
    ensures r.Success? ==> dir.files == old(dir.files) + {r.value}
  {
    dir.files := dir.files + {st.tempPath};
    if st.copyError.Some? {
      dir.files := dir.files - {st.tempPath};
      return Failure(st.copyError.value);
    }
    if IsHeic(u) {
      dir.files := dir.files + {st.convertedPath};
      if st.conversionSucceeds {
        dir.files := dir.files - {st.tempPath};
        return Success(st.convertedPath);
      }
      dir.files := dir.files - {st.convertedPath};
      return Success(st.tempPath);
    }
    return Success(st.tempPath);
  }

  /** One request to a task endpoint with `process_image_file` as written:
      the responses are the same, but the scratch directory survives exactly
      when a HEIC upload was saved and its conversion failed. */
  method HandleUploadAsWritten<T>(e: Endpoint, modelLoaded: bool, u: Upload, st: Storage,
                                  inference: Result<T, ModelError>)
    returns (response: Result<T, HttpError>, dirLeft: bool)
    requires st.tempPath != st.convertedPath
    ensures Gate(e, modelLoaded, u).Some? ==> response == Failure(Gate(e, modelLoaded, u).value)
    ensures Gate(e, modelLoaded, u).None? && st.copyError.Some? ==>
              response == Failure(HttpError(500, FailurePrefix(e) + st.copyError.value))
    ensures Gate(e, modelLoaded, u).None? && st.copyError.None? && inference.Failure? ==>
              response == Failure(HttpError(500, FailurePrefix(e) + inference.error.message))
    ensures Gate(e, modelLoaded, u).None? && st.copyError.None? && inference.Success? ==>
              response == Success(inference.value)
    ensures dirLeft <==>
              Gate(e, modelLoaded, u).None? && st.copyError.None? && IsHeic(u) && !st.conversionSucceeds
  {
    var gate := Gate(e, modelLoaded, u);
    if gate.Some? {
      return Failure(gate.value), false;
    }
    var dir := new TempDir();
    var processed := ProcessImageFileAsWritten(u, dir, st);
    match processed {
      case Failure(message) =>
        response := Failure(HttpError(500, FailurePrefix(e) + message));
      case Success(path) =>
        match inference {
          case Success(data) =>
            response := Success(data);
          case Failure(err) =>
            response := Failure(HttpError(500, FailurePrefix(e) + err.message));
        }
    }
    if processed.Success? && processed.value in dir.files {
      dir.files := dir.files - {processed.value};
    }
    dir.RemoveIfEmpty();
    dirLeft := dir.present;
  }

  /** One request to a task endpoint. The checks answer first; then the upload
      is saved (and converted) in a fresh scratch directory, the model runs
      on the result (`inference` is what it returns or raises), any failure
      there becomes a 500 with the endpoint's prefix, and the scratch
      directory is emptied and removed whatever happened. */
  method HandleUpload<T>(e: Endpoint, modelLoaded: bool, u: Upload, st: Storage,
                         inference: Result<T, ModelError>)
    returns (response: Result<T, HttpError>, dirLeft: bool)
    requires st.tempPath != st.convertedPath
    ensures Gate(e, modelLoaded, u).Some? ==> response == Failure(Gate(e, modelLoaded, u).value)
    ensures Gate(e, modelLoaded, u).None? && st.copyError.Some? ==>
              response == Failure(HttpError(500, FailurePrefix(e) + st.copyError.value))
    ensures Gate(e, modelLoaded, u).None? && st.copyError.None? && inference.Failure? ==>
              response == Failure(HttpError(500, FailurePrefix(e) + inference.error.message))
    ensures Gate(e, modelLoaded, u).None? && st.copyError.None? && inference.Success? ==>
              response == Success(inference.value)
    ensures !dirLeft
  {
    var gate := Gate(e, modelLoaded, u);
    if gate.Some? {
      return Failure(gate.value), false;
    }
    var dir := new TempDir();
    var processed := ProcessImageFile(u, dir, st);
    match processed {
      case Failure(message) =>
        response := Failure(HttpError(500, FailurePrefix(e) + message));
      case Success(path) =>
        match inference {
          case Success(data) =>
            response := Success(data);
          case Failure(err) =>
            response := Failure(HttpError(500, FailurePrefix(e) + err.message));
        }
    }
    if processed.Success? && processed.value in dir.files {
      dir.files := dir.files - {processed.value};
    }
    dir.RemoveIfEmpty();
    dirLeft := dir.present;
  }
}
