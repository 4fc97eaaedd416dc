/**
 * Runs of the `App` handlers one after another, as a user would trigger
 * them, showing what the handlers' contracts add up to.
 */
module Scenarios {
  import opened Wrappers
  import opened Slots
  import opened Actions
  import opened Pixels
  import opened Dispatch
  import opened AppState
  import opened Modal

  /**
   * Upload, then switch to black and white: the toggle waits on the upload
   * itself, whose canvas buffer `data` is converted; the grey image of the
   * upload is current, the upload is saved as the colour image and the grid
   * is still empty.
   */
  method UploadThenGrey(f: ImageFile, data: array<Byte>, encoded: nat) returns (app: App)
    modifies data
    ensures fresh(app) && app.Valid() && app.isBlancoNegro && app.lastColorImageFile == Some(f)
    ensures app.currentImageFile == Some(ImageFile(f.name, f.width, f.height, encoded))
    ensures data[..] == Greyscale(old(data[..]))
    ensures forall i :: 0 <= i < GridSize ==> ContentOf(app.processedSlots[i]) == Empty
  {
    app := new App();
    app.HandleFile(f);
    var step := app.ProcesarImagen(GrayscaleAction, None, false);
    assert step == AwaitGrayscale(f);
    app.CompleteGrayscale(step.source, Drawn(Some(encoded)), data);
  }

  /**
   * Upload, switch to black and white, switch back: the uploaded image is
   * current again, the flag is clear, no colour image is kept and the grid is
   * empty.
   */
  method ColourRoundTrip(f: ImageFile, data: array<Byte>, encoded: nat) returns (app: App)
    modifies data
    ensures app.currentImageFile == Some(f) && !app.isBlancoNegro && app.lastColorImageFile == None
    ensures app.Valid() && forall i :: 0 <= i < GridSize ==> ContentOf(app.processedSlots[i]) == Empty
  {
    app := UploadThenGrey(f, data, encoded);
    var step := app.ProcesarImagen(GrayscaleAction, None, false);
  }

  /**
   * Upload, switch to black and white, rotate, switch back: because rotation
   * leaves the saved colour image alone, the image restored is the unrotated
   * upload, with its original width and height.
   */
  method RevertAfterRotation(f: ImageFile, data: array<Byte>, grey: nat, rotated: nat) returns (app: App)
    modifies data
    ensures app.currentImageFile == Some(f) && !app.isBlancoNegro
  {
    app := UploadThenGrey(f, data, grey);
    var step := app.ProcesarImagen(RotateAction, None, false);
    assert step.AwaitRotation?;
    app.CompleteRotation(step.source, Drawn(Some(rotated)));
    assert app.isBlancoNegro && app.currentImageFile.value.width == f.height;
    step := app.ProcesarImagen(GrayscaleAction, None, false);
  }

  /**
   * Press "rotar" and let the canvas finish: the current image turns a
   * quarter, so its width and height swap, and neither the black-and-white
   * flag nor the saved colour image changes.
   */
  method RotateOnce(app: App, encoded: nat)
    requires app.Valid() && app.currentImageFile.Some?
    modifies app
    ensures app.Valid() && app.currentImageFile.Some?
    ensures app.currentImageFile.value.width == old(app.currentImageFile.value.height)
    ensures app.currentImageFile.value.height == old(app.currentImageFile.value.width)
    ensures app.currentImageFile.value.name == old(app.currentImageFile.value.name)
    ensures app.isBlancoNegro == old(app.isBlancoNegro) && app.lastColorImageFile == old(app.lastColorImageFile)
  {
    var step := app.ProcesarImagen(RotateAction, None, false);
    assert step.AwaitRotation?;
    app.CompleteRotation(step.source, Drawn(Some(encoded)));
  }

  /**
   * Four presses of "rotar": the current image has its original width and
   * height again, and the black-and-white flag and the saved colour image
   * never changed.
   */
  method RotateFourTimes(app: App, encoded: seq<nat>)
    requires app.Valid() && app.currentImageFile.Some? && |encoded| == 4
    modifies app
    ensures app.Valid() && app.currentImageFile.Some?
    ensures app.currentImageFile.value.width == old(app.currentImageFile.value.width)
    ensures app.currentImageFile.value.height == old(app.currentImageFile.value.height)
    ensures app.currentImageFile.value.name == old(app.currentImageFile.value.name)
    ensures app.isBlancoNegro == old(app.isBlancoNegro) && app.lastColorImageFile == old(app.lastColorImageFile)
  {
    RotateOnce(app, encoded[0]);
    RotateOnce(app, encoded[1]);
    RotateOnce(app, encoded[2]);
    RotateOnce(app, encoded[3]);
  }

  /**
   * Upload, then run all advanced actions: six requests are in flight, one
   * per slot, and every slot says "Procesando...".
   */
  method UploadThenRunAll(f: ImageFile) returns (app: App, calls: seq<Call>)
    ensures |calls| == GridSize
    ensures forall k :: 0 <= k < GridSize ==> calls[k].target == Some(SlotId(k)) && calls[k].source == f
    ensures app.Valid() && forall i :: 0 <= i < GridSize ==> ContentOf(app.processedSlots[i]) == Text(PendingMsg)
  {
    app := new App();
    app.HandleFile(f);
    calls := app.ProcesarTodoAvanzado();
  }

  /**
   * Let the requests `calls` finish one after another: the t-th to finish is
   * `calls[order[t]]`, with reply `replies[t]`. The grid ends as the pure model
   * of those completions gives it; the current image, the black-and-white flag
   * and the saved colour image do not change.
   */
  method FinishRequests(app: App, calls: seq<Call>, order: seq<nat>, replies: seq<Reply>, keys: seq<string>)
      returns (ghost done: seq<Completion>)
    requires app.Valid()
    requires |order| == |replies| == |keys|
    requires forall t :: 0 <= t < |order| ==> order[t] < |calls|
    modifies app
    ensures app.Valid() && app.ImageState() == old(app.ImageState())
    ensures |done| == |order|
    ensures forall t :: 0 <= t < |order| ==> done[t] == Completion(calls[order[t]], replies[t], keys[t])
    ensures app.processedSlots == ApplyAll(old(app.processedSlots), done)
  {
    done := [];
    var j := 0;
    while j < |order|
      invariant 0 <= j <= |order| && |done| == j
      invariant app.Valid() && app.ImageState() == old(app.ImageState())
      invariant forall t :: 0 <= t < j ==> done[t] == Completion(calls[order[t]], replies[t], keys[t])
      invariant app.processedSlots == ApplyAll(old(app.processedSlots), done)
    {
      var c := Completion(calls[order[j]], replies[j], keys[j]);
      var _ := app.CompleteBackend(c.call, c.reply, c.urlKey);
      ApplyAllSnoc(old(app.processedSlots), done, c);
      done := done + [c];
      j := j + 1;
    }
  }

  /** When every request of the fan-out is in the finishing order, every advanced action finishes. */
  lemma EveryActionFinishes(calls: seq<Call>, order: seq<nat>, replies: seq<Reply>, keys: seq<string>, done: seq<Completion>)
    requires |calls| == GridSize && forall k :: 0 <= k < GridSize ==> calls[k].accion == AllAdvancedActions[k]
    requires |order| == |replies| == |keys| == |done|
    requires forall t :: 0 <= t < |order| ==> order[t] < GridSize
    requires forall k :: 0 <= k < GridSize ==> k in order
    requires forall t :: 0 <= t < |order| ==> done[t] == Completion(calls[order[t]], replies[t], keys[t])
    ensures forall a :: a in AllAdvancedActions ==> exists t :: 0 <= t < |done| && done[t].call.accion == a
  {
    forall a | a in AllAdvancedActions
      ensures exists t :: 0 <= t < |done| && done[t].call.accion == a
    {
      var m :| 0 <= m < GridSize && AllAdvancedActions[m] == a;
      assert m in order;
      var t :| 0 <= t < |order| && order[t] == m;
      assert done[t].call.accion == a;
    }
  }

  /**
   * Upload, switch to black and white (the grid stays empty), run all advanced
   * actions, and let the six requests finish in any order with any replies:
   * every slot ends holding an image or a final message.
   */
  method GreyThenRunAll(f: ImageFile, data: array<Byte>, encoded: nat, order: seq<nat>, replies: seq<Reply>, keys: seq<string>)
      returns (app: App, calls: seq<Call>)
    requires |order| == |replies| == |keys|
    requires forall t :: 0 <= t < |order| ==> order[t] < GridSize
    requires forall k :: 0 <= k < GridSize ==> k in order
    modifies data
    ensures app.Valid() && app.isBlancoNegro && |calls| == GridSize
    ensures forall i :: 0 <= i < GridSize ==> Settled(app.processedSlots[i])
  {
    app := UploadThenGrey(f, data, encoded);
    calls := app.ProcesarTodoAvanzado();
    ghost var start := app.processedSlots;
    ghost var done := FinishRequests(app, calls, order, replies, keys);
    EveryActionFinishes(calls, order, replies, keys, done);
    FanOutCompletes(start, done);
  }

  /**
   * "Medir con YOLO" in the detail view opened on a slot, with the reply and
   * the new status rendered together: the measurement settles on the status
   * of the backend's reply, but the reply has changed the view's image URL
   * (to the new image, or to none), so the reset effect that follows clears
   * that status again.
   */
  method MeasurementStatusCleared(file: ImageFile, slotUrl: string, slotId: string, reply: Reply, urlKey: string)
      returns (app: App, view: ModalEmergente, settled: string)
    requires BlobScheme + urlKey != slotUrl
    ensures settled == MeasureStatus(Returned(Some(ResultString(Deliver(MeasureYolo, file, reply, urlKey)))))
    ensures settled != "" && view.measurementStatus == None
  {
    app := new App();
    app.HandleResultClick(Some(slotUrl), None, Some(file), slotId);
    view := new ModalEmergente();
    view.ResetEffect(app.isModalOpen, app.modalImageUrl);
    var request := view.HandleMedirYoloClick(app.modalImageFile);
    var step := app.ProcesarImagen(request.value.accion, Some(request.value.file), request.value.fromModal);
    assert step.AwaitBackend?;
    var result := app.CompleteBackend(step.call, reply, urlKey);
    view.CompleteMedirYolo(Returned(Some(result)));
    settled := view.measurementStatus.value;
    view.ResetEffect(app.isModalOpen, app.modalImageUrl);
  }
}
