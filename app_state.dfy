/** The page's session state — the seven state cells of the `App` component —
    and the handlers that change it: file intake and the file reader's
    outcome, the drag-and-drop handlers, and the start and settlement of the
    two tasks. */
module AppState {
  import opened Wrappers
  import opened Api
  import opened FileIntake
  import opened ResultRenderer

  datatype TaskKind = ClassifyTask | SearchTask

  const NoImageAlert: string := "Please select an image first"
  const ImageField: string := "image"

  function EndpointPath(kind: TaskKind): string
  {
    match kind
    case ClassifyTask => "/api/task1/classify"
    case SearchTask => "/api/task2/search"
  }

  function FailurePrefix(kind: TaskKind): string
  {
    match kind
    case ClassifyTask => "Classification failed: "
    case SearchTask => "Search failed: "
  }

  /** The multipart POST a task sends: the selected file under one field. */
  datatype Request = Request(path: string, field: string, file: File)

  /** How a POST settles: a 2xx response carrying the body's `data`, or an
      error carrying the server's `detail` (when there was a response that had
      one) and the transport error's own message. */
  datatype PostOutcome<T> = Responded(body: T) | Rejected(detail: Option<string>, message: string)

  /** The text of a failure alert: the server's detail when it is present
      and non-empty, the transport message otherwise. */
  function ErrorText(detail: Option<string>, message: string): (text: string)
    ensures detail.Some? && detail.value != "" ==> text == detail.value
    ensures detail.None? || detail.value == "" ==> text == message
  {
    if detail.Some? && detail.value != "" then detail.value else message
  }

  class Session {
    var image: Option<File>
    var imagePreview: Option<string>
    var result: Option<TaskResult>
    var loading: bool
    var activeTask: Option<TaskKind>
    var fileError: Option<string>
    var isDragOver: bool

    /** A task is in flight exactly when one is named, a selected file always
        passed intake, and the inline error is one of intake's messages. */
    ghost predicate Valid()
      reads this
    {
      && (loading <==> activeTask.Some?)
      && (image.Some? ==> Judge(image).Accepted())
      && (fileError.Some? ==> fileError.value in {SizeError, TypeError, ReadError})
    }

    /** Both action buttons are disabled while a request runs, when no file
        is selected, or while an inline error shows. In a valid state an
        enabled button therefore means an accepted file, nothing running and
        no error on screen. */
    predicate ActionsDisabled(): (disabled: bool)
      reads this
      ensures Valid() && !disabled ==> Judge(image).Accepted() && activeTask.None? && fileError.None?
    {
      loading || image.None? || fileError.Some?
    }

    constructor ()
      ensures Valid()
      ensures image.None? && imagePreview.None? && result.None?
      ensures !loading && activeTask.None? && fileError.None? && !isDragOver
    {
      image, imagePreview, result := None, None, None;
      loading, activeTask := false, None;
      fileError, isDragOver := None, false;
    }

    /** The effect of intake on the file-related cells: the error is reset to
        the verdict's message; no file clears the selection and the preview;
        a rejected file leaves the earlier selection and preview in place; an
        accepted file becomes the selection, with no preview for HEIC/HEIF and
        the old preview kept until a started read settles otherwise. */
    twostate predicate IntakeApplied(file: Option<File>, readStarted: bool)
      reads this
    {
      var v := Judge(file);
      && fileError == ErrorOf(v)
      && image == (if v == NoFile then None else if v.Accepted() then file else old(image))
      && imagePreview == (if v == NoFile || v == AcceptedHeic then None else old(imagePreview))
      && (readStarted <==> v == AcceptedPreviewable)
    }

    method ValidateAndProcessFile(file: Option<File>) returns (readStarted: bool)
      requires Valid()
      modifies this
      ensures Valid()
      ensures IntakeApplied(file, readStarted)
      ensures ActionsDisabled() <==> loading || !Judge(file).Accepted()
      ensures result == old(result) && loading == old(loading) && activeTask == old(activeTask)
      ensures isDragOver == old(isDragOver)
    {
      fileError := None;
      readStarted := false;
      if file.None? {
        image := None;
        imagePreview := None;
        return;
      }
      var f := file.value;
      if f.size > MaxFileSize {
        fileError := Some(SizeError);
        return;
      }
      if !LooksLikeImage(f) {
        fileError := Some(TypeError);
        return;
      }
      image := file;
      if IsHeicFile(f) {
        imagePreview := None;
      } else {
        // the file is handed to a reader; its outcome arrives later as
        // ReadLoaded or ReadFailed
        readStarted := true;
      }
    }

    /** The reader produced a data URL: it becomes the preview. */
    method ReadLoaded(dataUrl: string)
      requires Valid()
      modifies this
      ensures Valid()
      ensures imagePreview == Some(dataUrl)
      ensures image == old(image) && fileError == old(fileError) && result == old(result)
      ensures loading == old(loading) && activeTask == old(activeTask) && isDragOver == old(isDragOver)
    {
      imagePreview := Some(dataUrl);
    }

    /** The reader failed: an inline error and no preview, but the selected
        file stays selected. */
    method ReadFailed()
      requires Valid()
      modifies this
      ensures Valid()
      ensures fileError == Some(ReadError) && imagePreview.None? && ActionsDisabled()
      ensures image == old(image) && result == old(result)
      ensures loading == old(loading) && activeTask == old(activeTask) && isDragOver == old(isDragOver)
    {
      fileError := Some(ReadError);
      imagePreview := None;
    }

    /** The file input's change event: the first chosen file, or no file at
        all when the choice was cancelled (which clears the selection). */
    method ImageChange(files: seq<File>) returns (readStarted: bool)
      requires Valid()
      modifies this
      ensures Valid()
      ensures IntakeApplied(if |files| > 0 then Some(files[0]) else None, readStarted)
      ensures |files| == 0 ==> image.None? && imagePreview.None? && fileError.None?
      ensures result == old(result) && loading == old(loading) && activeTask == old(activeTask)
      ensures isDragOver == old(isDragOver)
    {
      readStarted := ValidateAndProcessFile(if |files| > 0 then Some(files[0]) else None);
    }

    method DragEnter()
      requires Valid()
      modifies this
      ensures Valid()
      ensures isDragOver
      ensures image == old(image) && imagePreview == old(imagePreview) && fileError == old(fileError)
      ensures result == old(result) && loading == old(loading) && activeTask == old(activeTask)
    {
      isDragOver := true;
    }

    method DragOver()
      requires Valid()
      modifies this
      ensures Valid()
      ensures isDragOver
      ensures image == old(image) && imagePreview == old(imagePreview) && fileError == old(fileError)
      ensures result == old(result) && loading == old(loading) && activeTask == old(activeTask)
    {
      isDragOver := true;
    }

    /** Leaving ends the drag-over look only when the pointer went somewhere
        outside the drop zone (moving onto a child of the zone also fires a
        leave). */
    method DragLeave(pointerStillInside: bool)
      requires Valid()
      modifies this
      ensures Valid()
      ensures isDragOver == (old(isDragOver) && pointerStillInside)
      ensures image == old(image) && imagePreview == old(imagePreview) && fileError == old(fileError)
      ensures result == old(result) && loading == old(loading) && activeTask == old(activeTask)
    {
      if !pointerStillInside {
        isDragOver := false;
      }
    }

    /** A drop always ends the drag-over look; when files were dropped, only
        the first goes through intake and the file input is cleared so that
        dropping the same file again is noticed. */
    method Drop(files: seq<File>) returns (readStarted: bool, inputCleared: bool)
      requires Valid()
      modifies this
      ensures Valid()
      ensures !isDragOver
      ensures inputCleared <==> |files| > 0
      ensures |files| > 0 ==> IntakeApplied(Some(files[0]), readStarted)
      ensures |files| == 0 ==>
                !readStarted && image == old(image) && imagePreview == old(imagePreview)
                && fileError == old(fileError)
      ensures result == old(result) && loading == old(loading) && activeTask == old(activeTask)
    {
      isDragOver := false;
      readStarted, inputCleared := false, false;
      if |files| > 0 {
        readStarted := ValidateAndProcessFile(Some(files[0]));
        inputCleared := true;
      }
    }

    /** A task button was pressed. Without a selected file: only an alert,
        no request and no change. Otherwise the chosen kind is marked running and
        the file is posted to the chosen endpoint. Nothing here refuses a
        second start while a task runs: only the disabled buttons do. */
    method Start(kind: TaskKind) returns (alert: Option<string>, request: Option<Request>)
      requires Valid()
      modifies this
      ensures Valid()
      ensures old(image).None? ==>
                alert == Some(NoImageAlert) && request.None?
                && loading == old(loading) && activeTask == old(activeTask)
      ensures old(image).Some? ==>
                alert.None? && request == Some(Request(EndpointPath(kind), ImageField, old(image).value))
                && loading && activeTask == Some(kind) && ActionsDisabled()
      ensures !old(ActionsDisabled()) ==> request.Some?
      ensures image == old(image) && imagePreview == old(imagePreview) && fileError == old(fileError)
      ensures result == old(result) && isDragOver == old(isDragOver)
    {
      if image.None? {
        return Some(NoImageAlert), None;
      }
      alert, request := None, Some(Request(EndpointPath(kind), ImageField, image.value));
      loading := true;
      activeTask := Some(kind);
    }

    /** The classification POST settled: a response replaces the result, an
        error alerts and keeps the old result; either way nothing runs any more. */
    method SettleClassify(outcome: PostOutcome<ClassificationData>) returns (alert: Option<string>)
      requires Valid()
      modifies this
      ensures Valid()
      ensures !loading && activeTask.None?
      ensures outcome.Responded? ==> result == Some(Classification(outcome.body)) && alert.None?
      ensures outcome.Rejected? ==>
                result == old(result)
                && alert == Some(FailurePrefix(ClassifyTask) + ErrorText(outcome.detail, outcome.message))
      ensures image == old(image) && imagePreview == old(imagePreview) && fileError == old(fileError)
      ensures isDragOver == old(isDragOver)
    {
      alert := None;
      match outcome {
        case Responded(body) =>
          result := Some(Classification(body));
        case Rejected(detail, message) =>
          alert := Some(FailurePrefix(ClassifyTask) + ErrorText(detail, message));
      }
      loading := false;
      activeTask := None;
    }

    /** The search POST settled, as SettleClassify but tagged as a search. */
    method SettleSearch(outcome: PostOutcome<SearchData>) returns (alert: Option<string>)
      requires Valid()
      modifies this
      ensures Valid()
      ensures !loading && activeTask.None?
      ensures outcome.Responded? ==> result == Some(Search(outcome.body)) && alert.None?
      ensures outcome.Rejected? ==>
                result == old(result)
                && alert == Some(FailurePrefix(SearchTask) + ErrorText(outcome.detail, outcome.message))
      ensures image == old(image) && imagePreview == old(imagePreview) && fileError == old(fileError)
      ensures isDragOver == old(isDragOver)
    {
      alert := None;
      match outcome {
        case Responded(body) =>
          result := Some(Search(body));
        case Rejected(detail, message) =>
          alert := Some(FailurePrefix(SearchTask) + ErrorText(detail, message));
      }
      loading := false;
      activeTask := None;
    }
  }
}
