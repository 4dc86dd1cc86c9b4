/** The report form (src/components/InformeForm.tsx): a summary, up to five
    images and any number of videos, checked on submit and cleared after a
    successful upload. Each handler is a function from the form's state to
    the next one. */
module InformeForm {
  import opened Common

  /** A chosen file; its contents never matter to the form. */
  datatype Upload = Upload(name: string)

  datatype FormState = FormState(
    resumen: string, imagenes: seq<Upload>, videos: seq<Upload>,
    error: string, success: bool)

  const InitialState := FormState("", [], [], "", false)

  const MaxImages: nat := 5
  const TooManyImagesMessage := "Máximo 5 imágenes permitidas"
  const ResumenRequiredMessage := "El resumen es obligatorio"
  const ImageRequiredMessage := "Debe subir al menos una imagen"
  const UploadFailedMessage := "Error subiendo el informe"

  /** handleImagenChange: a batch that would take the list past five is
      refused whole; otherwise it is appended in order and the error
      cleared. */
  function AddImages(st: FormState, files: seq<Upload>): (r: FormState)
    ensures |st.imagenes| + |files| > MaxImages ==> r == st.(error := TooManyImagesMessage)
    ensures |st.imagenes| + |files| <= MaxImages ==> r.imagenes == st.imagenes + files && r.error == ""
    ensures r.videos == st.videos && r.resumen == st.resumen
  {
    if |st.imagenes| + |files| > MaxImages then st.(error := TooManyImagesMessage)
    else st.(imagenes := st.imagenes + files, error := "")
  }

  /** handleVideoChange: every batch is appended, with no limit. */
  function AddVideos(st: FormState, files: seq<Upload>): (r: FormState)
    ensures r.videos == st.videos + files && |r.videos| == |st.videos| + |files|
    ensures r.imagenes == st.imagenes && r.resumen == st.resumen && r.error == ""
  {
    st.(videos := st.videos + files, error := "")
  }

  /** `filter((_, i) => i !== index)`: the element at `index` goes, the rest
      stay in order; an index outside the list changes nothing. */
  function RemoveAt(s: seq<Upload>, index: int): (r: seq<Upload>)
    ensures 0 <= index < |s| ==> |r| == |s| - 1
    ensures 0 <= index < |s| ==> forall k :: 0 <= k < |r| ==> r[k] == (if k < index then s[k] else s[k + 1])
    ensures !(0 <= index < |s|) ==> r == s
  {
    RemoveIndex(s, index)
  }

  function RemoveImagen(st: FormState, index: int): (r: FormState)
    ensures r == st.(imagenes := RemoveAt(st.imagenes, index))
    ensures |r.imagenes| <= |st.imagenes|
  {
    st.(imagenes := RemoveAt(st.imagenes, index))
  }

  function RemoveVideo(st: FormState, index: int): (r: FormState)
    ensures r == st.(videos := RemoveAt(st.videos, index))
    ensures |r.videos| <= |st.videos|
  {
    st.(videos := RemoveAt(st.videos, index))
  }

  function SetResumen(st: FormState, text: string): (r: FormState)
    ensures r == st.(resumen := text)
  {
    st.(resumen := text)
  }

  /** What submit does before the network: refuse with a message, or post
      the summary with every image and video. */
  datatype SubmitStep = Blocked(message: string) | Post(resumen: string, imagenes: seq<Upload>, videos: seq<Upload>)

  /** The summary is checked first (blank after trimming is refused), then
      the presence of an image. */
  function SubmitCheck(st: FormState): (r: SubmitStep)
    ensures AllWhitespace(st.resumen) ==> r == Blocked(ResumenRequiredMessage)
    ensures !AllWhitespace(st.resumen) && st.imagenes == [] ==> r == Blocked(ImageRequiredMessage)
    ensures r.Post? <==> !AllWhitespace(st.resumen) && |st.imagenes| > 0
    ensures r.Post? ==> r == Post(st.resumen, st.imagenes, st.videos)
  {
    TrimEmptyIffBlank(st.resumen);
    if Trim(st.resumen) == "" then Blocked(ResumenRequiredMessage)
    else if |st.imagenes| == 0 then Blocked(ImageRequiredMessage)
    else Post(st.resumen, st.imagenes, st.videos)
  }

  /** The state after the server's answer (None when the request failed):
      success clears the summary and both lists; otherwise the lists are
      kept and the message shown. */
  function AfterAnswer(st: FormState, answer: Option<Response<bool>>): (r: FormState)
    ensures answer.Some? && answer.value.success ==> r == FormState("", [], [], st.error, true)
    ensures answer.Some? && !answer.value.success ==>
              r == st.(error := answer.value.message.GetOr(""))
    ensures answer.None? ==> r == st.(error := UploadFailedMessage)
  {
    match answer
    case None => st.(error := UploadFailedMessage)
    case Some(a) =>
      if a.success then st.(success := true, resumen := "", imagenes := [], videos := [])
      else st.(error := a.message.GetOr(""))
  }

  /** handleSubmit as a whole: the error is cleared first; a blocked submit
      sets its message and sends nothing. */
  function HandleSubmit(st: FormState, answer: Option<Response<bool>>): (r: FormState)
    ensures SubmitCheck(st).Blocked? ==> r == st.(error := SubmitCheck(st).message)
    ensures SubmitCheck(st).Post? ==> r == AfterAnswer(st.(error := ""), answer)
  {
    match SubmitCheck(st)
    case Blocked(m) => st.(error := m)
    case Post(_, _, _) => AfterAnswer(st.(error := ""), answer)
  }

  /** The invariant: never more than five images. */
  predicate Valid(st: FormState) {
    |st.imagenes| <= MaxImages
  }

  lemma InitialValid()
    ensures Valid(InitialState)
  {
  }

  /** Every handler keeps the image list within five, however long the
      video list grows. */
  lemma HandlersKeepValid(st: FormState, files: seq<Upload>, index: int, text: string, answer: Option<Response<bool>>)
    requires Valid(st)
    ensures Valid(AddImages(st, files)) && Valid(AddVideos(st, files))
    ensures Valid(RemoveImagen(st, index)) && Valid(RemoveVideo(st, index))
    ensures Valid(SetResumen(st, text)) && Valid(HandleSubmit(st, answer))
  {
  }

  /** A successful submit leaves nothing to resend: the next submit is
      refused for want of a summary. */
  lemma SuccessClears(st: FormState, answer: Response<bool>)
    requires SubmitCheck(st).Post? && answer.success
    ensures var r := HandleSubmit(st, Some(answer));
            r.resumen == "" && r.imagenes == [] && r.videos == [] && r.success
            && SubmitCheck(r) == Blocked(ResumenRequiredMessage)
  {
  }
}
