/**
 * The state of the `App` component of App.tsx and its handlers. Each
 * `useState` variable is a field; each handler is a method. A handler that
 * awaits the browser or the backend is split in two: the synchronous part
 * (`ProcesarImagen`, `ProcesarTodoAvanzado`) returns what it is waiting for,
 * and a `Complete...` method applies the continuation once the outcome is known.
 */
module AppState {
  import opened Wrappers
  import opened Slots
  import opened Actions
  import opened Pixels
  import opened Dispatch

  const RevertErrorMsg: string := "Error: No se pudo revertir a color."

  /** What a canvas operation ended in: the image failed to load, no 2D context, or `toBlob` ran (null or encoded data). */
  datatype CanvasResult = LoadFailed | NoContext | Drawn(encoded: Option<nat>)

  /**
   * What `procesarImagen` is waiting for when its synchronous part returns.
   * `Finished(r)`: nothing more happens and the promise resolves to r. The two
   * local transforms resolve to null at once while their canvas work goes on.
   */
  datatype Step =
    | Finished(result: Option<string>)
    | AwaitGrayscale(source: ImageFile)
    | AwaitRotation(source: ImageFile)
    | AwaitBackend(call: Call)

  /** `sourceFile || currentImageFile`. */
  function FileToProcess(sourceFile: Option<ImageFile>, current: Option<ImageFile>): (f: Option<ImageFile>)
    ensures f.None? <==> sourceFile.None? && current.None?
    ensures sourceFile.Some? ==> f == sourceFile
    ensures sourceFile.None? ==> f == current
  {
    if sourceFile.Some? then sourceFile else current
  }

  /** The k-th advanced action is a backend action whose request targets slot k. */
  lemma AdvancedActionStarts(k: nat, file: ImageFile, modalSourceSlotId: Option<string>)
    requires k < GridSize
    ensures var accion := AllAdvancedActions[k];
      && accion != GrayscaleAction && accion != RotateAction
      && TargetSlot(accion, false, modalSourceSlotId) == Some(SlotId(k))
      && Truthy(Some(SlotId(k)))
      && FanOutCall(Call(accion, file, Some(SlotId(k)), false))
  {
    AdvancedActionsFillGrid();
  }

  /** What slot i shows while the fan-out has started its first k requests. */
  function FanOutProgress(i: nat, k: nat): Content
  {
    if i < k then Text(PendingMsg) else Text(StartingMsg)
  }

  /**
   * The fan-out after starting its first k requests: the grid keeps its
   * layout, the requests in flight are the first k advanced actions sent to
   * their own slots, and the first k slots are pending while the rest are
   * still "starting".
   */
  ghost predicate FanOutState(slots: seq<Slot>, calls: seq<Call>, file: ImageFile, k: nat)
  {
    && k <= GridSize && Layout(slots) && AllWellFormed(slots) && |calls| == k
    && (forall j :: 0 <= j < k ==> calls[j] == Call(AllAdvancedActions[j], file, Some(SlotId(j)), false))
    && (forall i :: 0 <= i < GridSize ==> ContentOf(slots[i]) == FanOutProgress(i, k))
  }

  /** Starting the k-th advanced request marks slot k pending and leaves the other slots alone. */
  lemma MarkPending(before: seq<Slot>, k: nat)
    requires Layout(before) && AllWellFormed(before) && k < GridSize
    requires forall i :: 0 <= i < GridSize ==> ContentOf(before[i]) == FanOutProgress(i, k)
    ensures var after := WriteWhere(before, SlotId(k), Text(PendingMsg));
      && Layout(after) && AllWellFormed(after)
      && forall i :: 0 <= i < GridSize ==> ContentOf(after[i]) == FanOutProgress(i, k + 1)
  {
    var after := WriteWhere(before, SlotId(k), Text(PendingMsg));
    WritesKeepGrid(before, SlotId(k), {}, Text(PendingMsg));
    forall i | 0 <= i < GridSize
      ensures ContentOf(after[i]) == FanOutProgress(i, k + 1)
    {
      SlotIdInjective(i, k);
    }
  }

  /** One more `procesarImagen` start of the fan-out: its request targets slot k, which becomes pending. */
  lemma FanOutStep(slots: seq<Slot>, calls: seq<Call>, file: ImageFile, k: nat, modalSourceSlotId: Option<string>)
    requires k < GridSize && FanOutState(slots, calls, file, k)
    ensures var accion := AllAdvancedActions[k];
      var call := Call(accion, file, TargetSlot(accion, false, modalSourceSlotId), false);
      && Truthy(call.target)
      && FanOutState(WriteWhere(slots, call.target.value, Text(PendingMsg)), calls + [call], file, k + 1)
  {
    AdvancedActionStarts(k, file, modalSourceSlotId);
    MarkPending(slots, k);
  }

  /** Marking every mapped slot "Iniciando proceso..." puts the fan-out at its start. */
  lemma FanOutBegins(slots: seq<Slot>, file: ImageFile)
    requires Layout(slots) && AllWellFormed(slots)
    ensures FanOutState(WriteIn(slots, MappedSlotIds(), Text(StartingMsg)), [], file, 0)
  {
    WritesKeepGrid(slots, "", MappedSlotIds(), Text(StartingMsg));
    MappedSlotIdsAreGrid();
    assert forall i :: 0 <= i < GridSize ==> slots[i].id in MappedSlotIds();
  }

  /** Once all six requests are started, every slot is pending and every request is a fan-out request. */
  lemma FanOutEnds(slots: seq<Slot>, calls: seq<Call>, file: ImageFile)
    requires FanOutState(slots, calls, file, GridSize)
    ensures |calls| == GridSize
    ensures forall k :: 0 <= k < GridSize ==> calls[k] == Call(AllAdvancedActions[k], file, Some(SlotId(k)), false)
    ensures forall i :: 0 <= i < GridSize ==> ContentOf(slots[i]) == Text(PendingMsg)
    ensures forall k :: 0 <= k < |calls| ==> FanOutCall(calls[k])
  {
    forall k | 0 <= k < |calls|
      ensures FanOutCall(calls[k])
    {
      AdvancedActionStarts(k, file, None);
    }
  }

  class App {
    var currentImageFile: Option<ImageFile>
    var isBlancoNegro: bool
    var lastColorImageFile: Option<ImageFile>
    var processedSlots: seq<Slot>
    var isModalOpen: bool
    var modalImageUrl: Option<string>
    var modalResultText: Option<string>
    var modalImageFile: Option<ImageFile>
    var modalSourceSlotId: Option<string>

    /** The grid always has its six slots, slot1 .. slot6 in order, each holding an image, a text or nothing. */
    ghost predicate Valid()
      reads this
    {
      Layout(processedSlots) && AllWellFormed(processedSlots)
    }

    /** The image being worked on: the current file, the black-and-white flag and the saved colour file. */
    ghost function ImageState(): (Option<ImageFile>, bool, Option<ImageFile>)
      reads this
    {
      (currentImageFile, isBlancoNegro, lastColorImageFile)
    }

    /** What the detail view shows and which slot it came from. */
    ghost function ModalView(): (bool, Option<string>, Option<string>, Option<ImageFile>, Option<string>)
      reads this
    {
      (isModalOpen, modalImageUrl, modalResultText, modalImageFile, modalSourceSlotId)
    }

    /** The initial values of the `useState` calls. */
    constructor ()
      ensures Valid()
      ensures currentImageFile == None && lastColorImageFile == None && !isBlancoNegro
      ensures processedSlots == InitialSlots()
      ensures !isModalOpen && modalImageUrl == None && modalResultText == None
      ensures modalImageFile == None && modalSourceSlotId == None
    {
      currentImageFile := None;
      isBlancoNegro := false;
      lastColorImageFile := None;
      processedSlots := InitialSlots();
      isModalOpen := false;
      modalImageUrl := None;
      modalResultText := None;
      modalImageFile := None;
      modalSourceSlotId := None;
    }

    /** `handleFile`: a new upload replaces everything, whatever the state before. */
    method HandleFile(f: ImageFile)
      modifies this
      ensures Valid()
      ensures currentImageFile == Some(f) && lastColorImageFile == Some(f) && !isBlancoNegro
      ensures processedSlots == InitialSlots()
      ensures !isModalOpen && modalImageUrl == None && modalResultText == None
      ensures modalImageFile == None && modalSourceSlotId == None
    {
      modalImageUrl := None;
      modalImageFile := None;
      modalResultText := None;
      modalSourceSlotId := None;
      currentImageFile := Some(f);
      lastColorImageFile := Some(f);
      isBlancoNegro := false;
      processedSlots := InitialSlots();
      isModalOpen := false;
    }

    /** `handleResultClick`: open the detail view on a slot's content and remember the slot. */
    method HandleResultClick(imageUrl: Option<string>, resultText: Option<string>, file: Option<ImageFile>, slotId: string)
      modifies this
      ensures isModalOpen && modalImageUrl == imageUrl && modalResultText == resultText
      ensures modalImageFile == file && modalSourceSlotId == Some(slotId)
      ensures currentImageFile == old(currentImageFile) && lastColorImageFile == old(lastColorImageFile)
      ensures isBlancoNegro == old(isBlancoNegro) && processedSlots == old(processedSlots)
    {
      modalImageUrl := imageUrl;
      modalResultText := resultText;
      modalImageFile := file;
      modalSourceSlotId := Some(slotId);
      isModalOpen := true;
    }

    /** `handleCloseModal`: close the detail view and forget what it showed. */
    method HandleCloseModal()
      modifies this
      ensures !isModalOpen && modalImageUrl == None && modalResultText == None
      ensures modalImageFile == None && modalSourceSlotId == None
      ensures currentImageFile == old(currentImageFile) && lastColorImageFile == old(lastColorImageFile)
      ensures isBlancoNegro == old(isBlancoNegro) && processedSlots == old(processedSlots)
    {
      isModalOpen := false;
      modalImageUrl := None;
      modalResultText := None;
      modalImageFile := None;
      modalSourceSlotId := None;
    }

    /**
     * The synchronous part of `procesarImagen(accion, sourceFile, fromModal)`:
     * the grayscale toggle (revert at once, or snapshot and start the canvas
     * work), the rotation start, or the target choice and optimistic
     * "Procesando..." of a backend action.
     */
    method ProcesarImagen(accion: string, sourceFile: Option<ImageFile>, fromModal: bool) returns (step: Step)
      requires Valid()
      modifies this
      ensures Valid()
      ensures isModalOpen == old(isModalOpen) && modalImageUrl == old(modalImageUrl)
      ensures modalResultText == old(modalResultText) && modalImageFile == old(modalImageFile)
      ensures modalSourceSlotId == old(modalSourceSlotId)
      // No file at all: nothing happens.
      ensures FileToProcess(sourceFile, old(currentImageFile)).None? ==>
                step == Finished(None) && processedSlots == old(processedSlots)
                && currentImageFile == old(currentImageFile) && isBlancoNegro == old(isBlancoNegro)
                && lastColorImageFile == old(lastColorImageFile)
      // Grayscale toggle from black and white with a colour image saved: revert to it and clear the grid.
      ensures FileToProcess(sourceFile, old(currentImageFile)).Some? && accion == GrayscaleAction
              && old(isBlancoNegro) && old(lastColorImageFile).Some? ==>
                step == Finished(None) && currentImageFile == old(lastColorImageFile) && !isBlancoNegro
                && lastColorImageFile == None && processedSlots == WriteAll(old(processedSlots), Empty)
      // ... without a saved colour image: every slot reports the failure and the flag stays set.
      ensures FileToProcess(sourceFile, old(currentImageFile)).Some? && accion == GrayscaleAction
              && old(isBlancoNegro) && old(lastColorImageFile).None? ==>
                step == Finished(None) && currentImageFile == old(currentImageFile) && isBlancoNegro
                && lastColorImageFile == None
                && processedSlots == WriteAll(old(processedSlots), Text(RevertErrorMsg))
      // Grayscale toggle from colour: snapshot the current image and wait for the canvas.
      ensures FileToProcess(sourceFile, old(currentImageFile)).Some? && accion == GrayscaleAction && !old(isBlancoNegro) ==>
                step == AwaitGrayscale(FileToProcess(sourceFile, old(currentImageFile)).value)
                && currentImageFile == old(currentImageFile) && !isBlancoNegro
                && lastColorImageFile == (if old(currentImageFile).Some? then old(currentImageFile) else old(lastColorImageFile))
                && processedSlots == old(processedSlots)
      // Rotation: nothing changes until the canvas is done.
      ensures FileToProcess(sourceFile, old(currentImageFile)).Some? && accion == RotateAction ==>
                step == AwaitRotation(FileToProcess(sourceFile, old(currentImageFile)).value)
                && currentImageFile == old(currentImageFile) && isBlancoNegro == old(isBlancoNegro)
                && lastColorImageFile == old(lastColorImageFile) && processedSlots == old(processedSlots)
      // Backend action: fix the target; only a call not from the modal marks its slot pending.
      ensures FileToProcess(sourceFile, old(currentImageFile)).Some? && accion != GrayscaleAction && accion != RotateAction ==>
                var target := TargetSlot(accion, fromModal, old(modalSourceSlotId));
                && step == AwaitBackend(Call(accion, FileToProcess(sourceFile, old(currentImageFile)).value, target, fromModal))
                && currentImageFile == old(currentImageFile) && isBlancoNegro == old(isBlancoNegro)
                && lastColorImageFile == old(lastColorImageFile)
                && processedSlots == (if !fromModal && Truthy(target) then WriteWhere(old(processedSlots), target.value, Text(PendingMsg))
                                      else old(processedSlots))
    {
      var fileToProcess := FileToProcess(sourceFile, currentImageFile);
      if fileToProcess.None? {
        return Finished(None);
      }
      if accion == GrayscaleAction {
        if isBlancoNegro {
          if lastColorImageFile.Some? {
            currentImageFile := lastColorImageFile;
            isBlancoNegro := false;
            lastColorImageFile := None;
            WritesKeepGrid(processedSlots, "", {}, Empty);
            processedSlots := WriteAll(processedSlots, Empty);
          } else {
            WritesKeepGrid(processedSlots, "", {}, Text(RevertErrorMsg));
            processedSlots := WriteAll(processedSlots, Text(RevertErrorMsg));
          }
          step := Finished(None);
        } else {
          if currentImageFile.Some? {
            lastColorImageFile := currentImageFile;
          }
          step := AwaitGrayscale(fileToProcess.value);
        }
      } else if accion == RotateAction {
        step := AwaitRotation(fileToProcess.value);
      } else {
        var call := StartBackend(accion, fileToProcess.value, fromModal);
        step := AwaitBackend(call);
      }
    }

    /**
     * The backend branch of `procesarImagen` up to its request: the target is
     * fixed (the modal's source slot, or the action's mapped slot) and, for a
     * call not from the modal, that slot shows "Procesando...".
     */
    method StartBackend(accion: string, file: ImageFile, fromModal: bool) returns (call: Call)
      requires Valid()
      modifies this
      ensures Valid()
      ensures call == Call(accion, file, TargetSlot(accion, fromModal, old(modalSourceSlotId)), fromModal)
      ensures processedSlots == (if !fromModal && Truthy(call.target) then WriteWhere(old(processedSlots), call.target.value, Text(PendingMsg))
                                 else old(processedSlots))
      ensures ImageState() == old(ImageState()) && ModalView() == old(ModalView())
    {
      var target := TargetSlot(accion, fromModal, modalSourceSlotId);
      if !fromModal && Truthy(target) {
        WritesKeepGrid(processedSlots, target.value, {}, Text(PendingMsg));
        processedSlots := WriteWhere(processedSlots, target.value, Text(PendingMsg));
      }
      call := Call(accion, file, target, fromModal);
    }

    /**
     * The continuation of the grayscale conversion of `source`: once the
     * canvas has a 2D context its buffer `data` is converted in place; if
     * `toBlob` then yields data, the grey image becomes current, the flag is
     * set and the grid is cleared. Any failure is only logged.
     */
    method CompleteGrayscale(source: ImageFile, canvas: CanvasResult, data: array<Byte>)
      requires Valid()
      modifies this, data
      ensures Valid()
      ensures canvas.Drawn? ==> data[..] == Greyscale(old(data[..]))
      ensures !canvas.Drawn? ==> data[..] == old(data[..])
      ensures canvas.Drawn? && canvas.encoded.Some? ==>
                && currentImageFile == Some(ImageFile(source.name, source.width, source.height, canvas.encoded.value))
                && isBlancoNegro
                && processedSlots == WriteAll(old(processedSlots), Empty)
      ensures !(canvas.Drawn? && canvas.encoded.Some?) ==>
                currentImageFile == old(currentImageFile) && isBlancoNegro == old(isBlancoNegro)
                && processedSlots == old(processedSlots)
      ensures lastColorImageFile == old(lastColorImageFile)
      ensures isModalOpen == old(isModalOpen) && modalImageUrl == old(modalImageUrl)
      ensures modalResultText == old(modalResultText) && modalImageFile == old(modalImageFile)
      ensures modalSourceSlotId == old(modalSourceSlotId)
    {
      if canvas.Drawn? {
        ToGrayscale(data);
        if canvas.encoded.Some? {
          currentImageFile := Some(ImageFile(source.name, source.width, source.height, canvas.encoded.value));
          isBlancoNegro := true;
          WritesKeepGrid(processedSlots, "", {}, Empty);
          processedSlots := WriteAll(processedSlots, Empty);
        }
      }
    }

    /**
     * The continuation of the rotation of `source`: on success the rotated
     * image, with width and height swapped, becomes current and the grid is
     * cleared. The black-and-white flag and the saved colour image are never
     * touched.
     */
    method CompleteRotation(source: ImageFile, canvas: CanvasResult)
      requires Valid()
      modifies this
      ensures Valid()
      ensures isBlancoNegro == old(isBlancoNegro) && lastColorImageFile == old(lastColorImageFile)
      ensures canvas.Drawn? && canvas.encoded.Some? ==>
                && currentImageFile.Some?
                && currentImageFile.value.width == source.height && currentImageFile.value.height == source.width
                && currentImageFile.value.name == source.name
                && currentImageFile.value.data == canvas.encoded.value
                && processedSlots == WriteAll(old(processedSlots), Empty)
      ensures !(canvas.Drawn? && canvas.encoded.Some?) ==>
                currentImageFile == old(currentImageFile) && processedSlots == old(processedSlots)
      ensures isModalOpen == old(isModalOpen) && modalImageUrl == old(modalImageUrl)
      ensures modalResultText == old(modalResultText) && modalImageFile == old(modalImageFile)
      ensures modalSourceSlotId == old(modalSourceSlotId)
    {
      if canvas.Drawn? && canvas.encoded.Some? {
        // `canvas.width = img.height; canvas.height = img.width;`
        currentImageFile := Some(ImageFile(source.name, source.height, source.width, canvas.encoded.value));
        WritesKeepGrid(processedSlots, "", {}, Empty);
        processedSlots := WriteAll(processedSlots, Empty);
      }
    }

    /**
     * The continuation of a backend request once `reply` is known: the target
     * slot (or, from the modal, the modal) receives the message or the image,
     * and the string the promise resolves to is returned. A measurement from
     * the modal never touches the grid.
     */
    method CompleteBackend(call: Call, reply: Reply, urlKey: string) returns (result: string)
      requires Valid()
      modifies this
      ensures Valid()
      ensures var d := Deliver(call.accion, call.source, reply, urlKey);
        && result == ResultString(d)
        && processedSlots == SlotsAfter(old(processedSlots), call, d)
        && (call.fromModal ==> modalImageUrl == (if d.Picture? then Some(d.url) else None)
                               && modalResultText == (if d.Message? then Some(d.text) else None))
      ensures call.fromModal && IsMeasureAction(call.accion) ==> processedSlots == old(processedSlots)
      ensures !call.fromModal ==> modalImageUrl == old(modalImageUrl) && modalResultText == old(modalResultText)
      ensures currentImageFile == old(currentImageFile) && lastColorImageFile == old(lastColorImageFile)
      ensures isBlancoNegro == old(isBlancoNegro) && isModalOpen == old(isModalOpen)
      ensures modalImageFile == old(modalImageFile) && modalSourceSlotId == old(modalSourceSlotId)
    {
      var d := Deliver(call.accion, call.source, reply, urlKey);
      if call.fromModal {
        match d
        case Message(t) =>
          modalImageUrl := None;
          modalResultText := Some(t);
        case Picture(_, u) =>
          modalImageUrl := Some(u);
          modalResultText := None;
      }
      if call.target.Some? {
        WritesKeepGrid(processedSlots, call.target.value, {}, ContentFor(d));
      }
      processedSlots := SlotsAfter(processedSlots, call, d);
      result := ResultString(d);
    }

    /**
     * The synchronous part of `procesarTodoAvanzado`: with no current image
     * nothing happens; otherwise every mapped slot is marked "Iniciando
     * proceso...", and then each advanced action's `procesarImagen` start
     * marks its own slot "Procesando...". The six requests in flight are returned.
     */
    method ProcesarTodoAvanzado() returns (calls: seq<Call>)
      requires Valid()
      modifies this
      ensures Valid()
      ensures old(currentImageFile).None? ==> calls == [] && processedSlots == old(processedSlots)
      ensures old(currentImageFile).Some? ==>
                && |calls| == GridSize
                && (forall k :: 0 <= k < GridSize ==>
                      calls[k] == Call(AllAdvancedActions[k], old(currentImageFile).value, Some(SlotId(k)), false))
                && (forall i :: 0 <= i < GridSize ==> ContentOf(processedSlots[i]) == Text(PendingMsg))
      ensures forall k :: 0 <= k < |calls| ==> FanOutCall(calls[k])
      ensures currentImageFile == old(currentImageFile) && lastColorImageFile == old(lastColorImageFile)
      ensures isBlancoNegro == old(isBlancoNegro) && isModalOpen == old(isModalOpen)
      ensures modalImageUrl == old(modalImageUrl) && modalResultText == old(modalResultText)
      ensures modalImageFile == old(modalImageFile) && modalSourceSlotId == old(modalSourceSlotId)
    {
      if currentImageFile.None? {
        return [];
      }
      var fileToProcess := currentImageFile.value;
      FanOutBegins(processedSlots, fileToProcess);
      processedSlots := WriteIn(processedSlots, MappedSlotIds(), Text(StartingMsg));
      calls := FireAdvancedActions(fileToProcess);
      FanOutEnds(processedSlots, calls, fileToProcess);
    }

    /**
     * `allAdvancedActions.map(accion => procesarImagen(accion, fileToProcess))`,
     * up to the first `await` of each call. No advanced action is the grayscale
     * toggle or the rotation, so each `procesarImagen` goes straight to its
     * backend branch.
     */
    method FireAdvancedActions(fileToProcess: ImageFile) returns (calls: seq<Call>)
      requires Valid() && FanOutState(processedSlots, [], fileToProcess, 0)
      modifies this
      ensures Valid() && FanOutState(processedSlots, calls, fileToProcess, GridSize)
      ensures ImageState() == old(ImageState()) && ModalView() == old(ModalView())
    {
      calls := [];
      var k := 0;
      while k < |AllAdvancedActions|
        invariant k <= GridSize
        invariant Valid() && FanOutState(processedSlots, calls, fileToProcess, k)
        invariant ImageState() == old(ImageState()) && ModalView() == old(ModalView())
      {
        FanOutStep(processedSlots, calls, fileToProcess, k, modalSourceSlotId);
        var call := StartBackend(AllAdvancedActions[k], fileToProcess, false);
        calls := calls + [call];
        k := k + 1;
      }
    }
  }
}
