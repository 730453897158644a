/**
 * The upload form: choosing a file (by the file input or by drag and
 * drop), choosing the language, and submitting the pair to the backend.
 *
 * The form's state is a value, `FormState`, with one pure transition per
 * handler; the class `UploadForm` holds the component's state fields and
 * its handler methods update them as those transitions say. The HTTP post
 * is the caller-supplied `PostOutcome`.
 */
module FileUpload {
  import opened Wrappers

  /** A chosen file; its contents are never inspected here. */
  datatype File = File(name: string, size: nat)

  /** The payload of an accepted upload. */
  datatype ApiResponse = ApiResponse(submissionId: string, language: string, fileName: string, message: string)

  /**
   * What the post produced: a response that did not throw, an axios error
   * (with the message field of the server's reply, if there was one), or a
   * thrown value of any other kind.
   */
  datatype PostOutcome =
    | Response(status: int, data: ApiResponse)
    | AxiosError(serverMessage: Option<string>)
    | OtherError

  datatype FormState = FormState(
    selectedFile: Option<File>,
    selectedLanguage: string,
    dragActive: bool,
    isLoading: bool,
    uploadResult: Option<ApiResponse>,
    error: Option<string>)

  const InitialLanguage: string := "python"
  const InitialForm: FormState := FormState(None, InitialLanguage, false, false, None, None)

  /** The values of the language options; all but "python" are rendered disabled. */
  const LanguageOptions: seq<string> := ["python", "javascript", "csharp", "java", "cpp"]

  const AcceptedStatus: int := 202

  const NoFileMessage: string := "Lütfen bir dosya seçin!"
  const UploadFailedMessage: string := "Dosya yükleme sırasında bir hata oluştu."
  const UnexpectedErrorMessage: string := "Beklenmeyen bir hata oluştu."

  // ---------------------------------------------------------------------
  // The form transitions

  /** A file input change or a drop that carries `files`: the first one, if any, is chosen. */
  function FileChosen(s: FormState, files: seq<File>): FormState
  {
    if files == [] then s else s.(selectedFile := Some(files[0]), error := None, uploadResult := None)
  }

  function Dragged(s: FormState, eventType: string): FormState
  {
    if eventType == "dragenter" || eventType == "dragover" then s.(dragActive := true)
    else if eventType == "dragleave" then s.(dragActive := false)
    else s
  }

  /** A drop always ends the drag, then chooses the first dropped file, if any. */
  function Dropped(s: FormState, files: seq<File>): FormState
  {
    FileChosen(s.(dragActive := false), files)
  }

  function FileRemoved(s: FormState): FormState
  {
    s.(selectedFile := None, error := None, uploadResult := None)
  }

  function LanguageChanged(s: FormState, value: string): FormState
  {
    s.(selectedLanguage := value)
  }

  /** The only check before posting: a file is chosen and the language is not empty. */
  predicate PassesValidation(s: FormState)
  {
    s.selectedFile.Some? && s.selectedLanguage != ""
  }

  /** The submit button is enabled when a file is chosen and no upload is in flight. */
  predicate SubmitEnabled(s: FormState)
  {
    s.selectedFile.Some? && !s.isLoading
  }

  /** The message of a failed post: the server's, when it sent a non-empty one. */
  function PostErrorMessage(outcome: PostOutcome): (m: string)
    requires !outcome.Response?
    ensures outcome.OtherError? ==> m == UnexpectedErrorMessage
    ensures outcome.AxiosError? && outcome.serverMessage.Some? && outcome.serverMessage.value != "" ==>
      m == outcome.serverMessage.value
    ensures outcome.AxiosError? && (outcome.serverMessage.None? || outcome.serverMessage.value == "") ==>
      m == UploadFailedMessage
  {
    match outcome
    case AxiosError(msg) => if msg.Some? && msg.value != "" then msg.value else UploadFailedMessage
    case OtherError => UnexpectedErrorMessage
  }

  /** The state while the post is in flight. */
  function UploadStarted(s: FormState): FormState
  {
    s.(isLoading := true, error := None, uploadResult := None)
  }

  /** The state once the post has settled, `finally` included. */
  function UploadSettled(s: FormState, outcome: PostOutcome): FormState
  {
    var t := match outcome
      case Response(status, data) =>
        if status == AcceptedStatus then s.(uploadResult := Some(data), selectedFile := None) else s
      case _ => s.(error := Some(PostErrorMessage(outcome)));
    t.(isLoading := false)
  }

  /** handleSubmit: a failed validation only sets the error; otherwise the post runs. */
  function Submitted(s: FormState, outcome: PostOutcome): FormState
  {
    if !PassesValidation(s) then s.(error := Some(NoFileMessage))
    else UploadSettled(UploadStarted(s), outcome)
  }

  // ---------------------------------------------------------------------
  // Properties of the transitions

  /** A file change or drop with a file chooses it and clears both messages; without one only the drag ends. */
  lemma ChoosingFiles(s: FormState, files: seq<File>)
    ensures files != [] ==>
      FileChosen(s, files) == s.(selectedFile := Some(files[0]), error := None, uploadResult := None)
    ensures files == [] ==> FileChosen(s, files) == s && Dropped(s, files) == s.(dragActive := false)
    ensures !Dropped(s, files).dragActive && Dropped(s, files).(dragActive := s.dragActive) == FileChosen(s, files)
  {
  }

  /** Submitting what fails validation changes only the error, and nothing is posted. */
  lemma SubmitRejected(s: FormState, outcome: PostOutcome)
    requires !PassesValidation(s)
    ensures Submitted(s, outcome) == s.(error := Some(NoFileMessage))
    ensures Submitted(s, outcome).isLoading == s.isLoading
  {
  }

  /**
   * A submit that passes validation: the in-flight state is loading with
   * both messages cleared; the settled state is never loading; a 202 stores
   * the payload and clears the file; any other response keeps the file and
   * leaves both messages empty; a thrown post stores its message only.
   */
  lemma SubmitSettles(s: FormState, outcome: PostOutcome)
    requires PassesValidation(s)
    ensures var mid := UploadStarted(s);
      mid.isLoading && mid.error == None && mid.uploadResult == None
      && mid.selectedFile == s.selectedFile
    ensures var r := Submitted(s, outcome);
      && !r.isLoading
      && r.selectedLanguage == s.selectedLanguage && r.dragActive == s.dragActive
      && (outcome.Response? && outcome.status == AcceptedStatus ==>
            r.uploadResult == Some(outcome.data) && r.selectedFile == None && r.error == None)
      && (outcome.Response? && outcome.status != AcceptedStatus ==>
            r.uploadResult == None && r.selectedFile == s.selectedFile && r.error == None)
      && (!outcome.Response? ==>
            r.error == Some(PostErrorMessage(outcome)) && r.uploadResult == None && r.selectedFile == s.selectedFile)
  {
  }

  lemma DragEvents(s: FormState, eventType: string)
    ensures eventType == "dragenter" || eventType == "dragover" ==> Dragged(s, eventType).dragActive
    ensures eventType == "dragleave" ==> !Dragged(s, eventType).dragActive
    ensures Dragged(s, eventType).(dragActive := s.dragActive) == s
    ensures eventType != "dragenter" && eventType != "dragover" && eventType != "dragleave" ==>
      Dragged(s, eventType) == s
  {
  }

  // ---------------------------------------------------------------------
  // Reachable states

  datatype FormAction =
    | ChangeFile(files: seq<File>)
    | Drag(eventType: string)
    | Drop(dropped: seq<File>)
    | Remove
    | SelectLanguage(value: string)
    | Submit(outcome: PostOutcome)

  function Apply(s: FormState, a: FormAction): FormState
  {
    match a
    case ChangeFile(files) => FileChosen(s, files)
    case Drag(t) => Dragged(s, t)
    case Drop(files) => Dropped(s, files)
    case Remove => FileRemoved(s)
    case SelectLanguage(v) => LanguageChanged(s, v)
    case Submit(o) => Submitted(s, o)
  }

  function Run(s: FormState, actions: seq<FormAction>): FormState
    decreases |actions|
  {
    if actions == [] then s else Run(Apply(s, actions[0]), actions[1..])
  }

  /** The language select only ever yields one of its option values. */
  predicate LanguagesFromOptions(actions: seq<FormAction>)
  {
    forall k :: 0 <= k < |actions| && actions[k].SelectLanguage? ==> actions[k].value in LanguageOptions
  }

  /**
   * Between handler calls: no upload is in flight, the language is one of
   * the options, and a success message is never shown beside a chosen file.
   */
  ghost predicate FormValid(s: FormState)
  {
    && !s.isLoading
    && s.selectedLanguage in LanguageOptions
    && (s.uploadResult.Some? ==> s.selectedFile.None?)
  }

  lemma {:induction false} RunKeepsFormValid(s: FormState, actions: seq<FormAction>)
    requires FormValid(s)
    requires LanguagesFromOptions(actions)
    ensures FormValid(Run(s, actions))
    decreases |actions|
  {
    if actions != [] {
      assert LanguagesFromOptions(actions[1..]) by {
        forall k | 0 <= k < |actions[1..]| && actions[1..][k].SelectLanguage?
          ensures actions[1..][k].value in LanguageOptions
        {
          assert actions[1..][k] == actions[k + 1];
        }
      }
      RunKeepsFormValid(Apply(s, actions[0]), actions[1..]);
    }
  }

  /**
   * In every state the form can reach, the submit button is enabled exactly
   * when a submit would pass validation, so the "please select a file"
   * error cannot be reached through the button.
   */
  lemma ReachableSubmitEnabledIffValid(actions: seq<FormAction>)
    requires LanguagesFromOptions(actions)
    ensures var s := Run(InitialForm, actions);
      FormValid(s) && (SubmitEnabled(s) <==> PassesValidation(s))
  {
    RunKeepsFormValid(InitialForm, actions);
  }

  lemma InitialFormFacts()
    ensures FormValid(InitialForm) && InitialForm.selectedLanguage == "python" && !SubmitEnabled(InitialForm)
  {
  }

  // ---------------------------------------------------------------------
  // The component

  class UploadForm {
    var selectedFile: Option<File>
    var selectedLanguage: string
    var dragActive: bool
    var isLoading: bool
    var uploadResult: Option<ApiResponse>
    var error: Option<string>

    function State(): FormState
      reads this
    {
      FormState(selectedFile, selectedLanguage, dragActive, isLoading, uploadResult, error)
    }

    constructor ()
      ensures State() == InitialForm
    {
      selectedFile := None;
      selectedLanguage := InitialLanguage;
      dragActive := false;
      isLoading := false;
      uploadResult := None;
      error := None;
    }

    function SubmitButtonEnabled(): (enabled: bool)
      reads this
      ensures enabled <==> selectedFile.Some? && !isLoading
      ensures FormValid(State()) ==> (enabled <==> PassesValidation(State()))
    {
      SubmitEnabled(State())
    }

    /** handleFileChange, with the input's list of files. */
    method HandleFileChange(files: seq<File>)
      modifies this
      ensures State() == FileChosen(old(State()), files)
    {
      if files != [] {
        selectedFile := Some(files[0]);
        error := None;
        uploadResult := None;
      }
    }

    /** handleDrag, with the event's type. */
    method HandleDrag(eventType: string)
      modifies this`dragActive
      ensures State() == Dragged(old(State()), eventType)
    {
      if eventType == "dragenter" || eventType == "dragover" {
        dragActive := true;
      } else if eventType == "dragleave" {
        dragActive := false;
      }
    }

    /** handleDrop, with the dropped files. */
    method HandleDrop(files: seq<File>)
      modifies this
      ensures State() == Dropped(old(State()), files)
    {
      dragActive := false;
      if files != [] {
        selectedFile := Some(files[0]);
        error := None;
        uploadResult := None;
      }
    }

    /** removeFile. */
    method RemoveFile()
      modifies this`selectedFile, this`error, this`uploadResult
      ensures State() == FileRemoved(old(State()))
    {
      selectedFile := None;
      error := None;
      uploadResult := None;
    }

    /** The language select's change handler. */
    method HandleLanguageChange(value: string)
      modifies this`selectedLanguage
      ensures State() == LanguageChanged(old(State()), value)
    {
      selectedLanguage := value;
    }

    /**
     * handleSubmit, with `outcome` as what the post produced. `posted` says
     * whether the post was made; `inFlight` is the state while it ran.
     */
    method HandleSubmit(outcome: PostOutcome) returns (posted: bool, ghost inFlight: Option<FormState>)
      modifies this
      ensures posted <==> PassesValidation(old(State()))
      ensures posted ==> inFlight == Some(UploadStarted(old(State())))
      ensures State() == Submitted(old(State()), outcome)
      ensures !posted ==> isLoading == old(isLoading)
      ensures posted ==> !isLoading
    {
      if selectedFile.None? || selectedLanguage == "" {
        error := Some(NoFileMessage);
        return false, None;
      }
      isLoading := true;
      error := None;
      uploadResult := None;
      inFlight := Some(State());
      posted := true;
      match outcome {
        case Response(status, data) =>
          if status == AcceptedStatus {
            uploadResult := Some(data);
            selectedFile := None;
          }
        case AxiosError(_) =>
          error := Some(PostErrorMessage(outcome));
        case OtherError =>
          error := Some(PostErrorMessage(outcome));
      }
      isLoading := false;
    }
  }
}
