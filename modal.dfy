/**
 * The detail view of ModalEmergente.tsx: its one piece of state,
 * `measurementStatus`, driven by the "Medir con YOLO" button and reset by an
 * effect, and the choice of what text panel the view shows.
 */
module Modal {
  import opened Wrappers
  import opened Slots
  import opened Actions
  import opened Dispatch

  const MeasuringMsg: string := "Procesando medición con YOLO..."
  const MeasuredMsg: string := "Medición con YOLO completada (imagen actualizada)."
  const NoMeasurementMsg: string := "No se obtuvo resultado de YOLO."
  const NoImageMsg: string := "Error: No hay imagen para medir."

  function MeasureErrorMsg(error: string): string
  {
    "Error al medir con YOLO: " + error
  }

  /** The call `onProcessImage(accion, file, fromModal)` that the button makes. */
  datatype ProcessRequest = ProcessRequest(accion: string, file: ImageFile, fromModal: bool)

  /** How the awaited `onProcessImage` promise settled: a value (`string | null`) or a thrown error. */
  datatype CallOutcome = Returned(result: Option<string>) | Threw(error: string)

  /** The status shown once the measurement call has settled. */
  function MeasureStatus(outcome: CallOutcome): (status: string)
    ensures status != ""
    ensures outcome.Threw? ==> status == MeasureErrorMsg(outcome.error)
    ensures outcome.Returned? && Truthy(outcome.result) && IsBlobUrl(outcome.result.value) ==> status == MeasuredMsg
    ensures outcome.Returned? && Truthy(outcome.result) && !IsBlobUrl(outcome.result.value) ==> status == outcome.result.value
    ensures outcome.Returned? && !Truthy(outcome.result) ==> status == NoMeasurementMsg
  {
    match outcome
    case Threw(e) => MeasureErrorMsg(e)
    case Returned(r) =>
      if Truthy(r) && IsBlobUrl(r.value) then MeasuredMsg
      else if Truthy(r) then r.value
      else NoMeasurementMsg
  }

  /** The text panel below the image. */
  datatype TextPanel = StatusPanel(status: string) | DetailsPanel(details: string) | NoDetails

  /** What the open view shows: an image URL (or the "no image" note when None) and a text panel. */
  datatype View = View(image: Option<string>, text: TextPanel)

  /**
   * The rendered view: nothing while closed; when open, a truthy
   * measurement status takes priority over the result text, and with neither
   * the "no details" note is shown.
   */
  function Render(isOpen: bool, imageUrl: Option<string>, resultText: Option<string>, measurementStatus: Option<string>): (v: Option<View>)
    ensures v.None? <==> !isOpen
    ensures isOpen && Truthy(measurementStatus) ==> v.value.text == StatusPanel(measurementStatus.value)
    ensures isOpen && !Truthy(measurementStatus) && Truthy(resultText) ==> v.value.text == DetailsPanel(resultText.value)
    ensures isOpen && !Truthy(measurementStatus) && !Truthy(resultText) ==> v.value.text == NoDetails
    ensures isOpen ==> (v.value.image.Some? <==> Truthy(imageUrl)) && (v.value.image.Some? ==> v.value.image == imageUrl)
  {
    if !isOpen then None
    else
      var image := if Truthy(imageUrl) then imageUrl else None;
      if Truthy(measurementStatus) then Some(View(image, StatusPanel(measurementStatus.value)))
      else if Truthy(resultText) then Some(View(image, DetailsPanel(resultText.value)))
      else Some(View(image, NoDetails))
  }

  class ModalEmergente {
    var measurementStatus: Option<string>
    /** The dependencies `[isOpen, imageUrl]` the reset effect last ran with; None before the first render. */
    var effectDeps: Option<(bool, Option<string>)>

    constructor ()
      ensures measurementStatus == None && effectDeps == None
    {
      measurementStatus := None;
      effectDeps := None;
    }

    /**
     * The reset effect: it runs after the first render and whenever `isOpen`
     * or `imageUrl` changed, and while open it clears the status.
     */
    method ResetEffect(isOpen: bool, imageUrl: Option<string>)
      modifies this
      ensures effectDeps == Some((isOpen, imageUrl))
      ensures isOpen && old(effectDeps) != Some((isOpen, imageUrl)) ==> measurementStatus == None
      ensures !isOpen || old(effectDeps) == Some((isOpen, imageUrl)) ==> measurementStatus == old(measurementStatus)
    {
      if effectDeps != Some((isOpen, imageUrl)) {
        effectDeps := Some((isOpen, imageUrl));
        if isOpen {
          measurementStatus := None;
        }
      }
    }

    /**
     * `handleMedirYoloClick` up to its `await`: with no image the status
     * reports it and nothing is called; otherwise the status says the
     * measurement is running and `medir_yolo` is requested from the modal.
     */
    method HandleMedirYoloClick(modalImageFile: Option<ImageFile>) returns (request: Option<ProcessRequest>)
      modifies this
      ensures modalImageFile.None? ==> request.None? && measurementStatus == Some(NoImageMsg)
      ensures modalImageFile.Some? ==>
                request == Some(ProcessRequest(MeasureYolo, modalImageFile.value, true))
                && measurementStatus == Some(MeasuringMsg)
      ensures effectDeps == old(effectDeps)
    {
      if modalImageFile.Some? {
        measurementStatus := Some(MeasuringMsg);
        request := Some(ProcessRequest(MeasureYolo, modalImageFile.value, true));
      } else {
        request := None;
        measurementStatus := Some(NoImageMsg);
      }
    }

    /** The rest of `handleMedirYoloClick`, once the call has settled. */
    method CompleteMedirYolo(outcome: CallOutcome)
      modifies this
      ensures measurementStatus == Some(MeasureStatus(outcome))
      ensures effectDeps == old(effectDeps)
    {
      measurementStatus := Some(MeasureStatus(outcome));
    }
  }

  /** Once a measurement has settled, the open view shows its status, whatever the result text. */
  lemma StatusShownAfterMeasurement(imageUrl: Option<string>, resultText: Option<string>, outcome: CallOutcome)
    ensures Render(true, imageUrl, resultText, Some(MeasureStatus(outcome))).value.text == StatusPanel(MeasureStatus(outcome))
  {
  }

  /**
   * The status a measurement from the modal ends with, given the backend's
   * reply to `medir_yolo` as `procesarImagen` handles it: a new image is
   * reported as done, and every failure is shown with its own message.
   */
  lemma MeasureStatusOfReply(source: ImageFile, reply: Reply, urlKey: string)
    ensures var status := MeasureStatus(Returned(Some(ResultString(Deliver(MeasureYolo, source, reply, urlKey)))));
      status == match reply
        case NoResponse => NoResponseMsg
        case Response(_, ReadFailed(e)) => LoadErrorMsg(MeasureYolo, e)
        case Response(_, Read(size, _, _, _)) => if size == 0 then EmptyResultMsg else MeasuredMsg
  {
    ResultBlobIff(MeasureYolo, source, reply, urlKey);
  }
}
