# Image dispatch and measurement state, in Dafny

This project models the front end of an image-processing web app: the `App`
component of `src/App.tsx` and the detail view `src/Vista/ModalEmergente.tsx`.

The `App` component keeps these pieces of state:

- a current image;
- a black-and-white flag and the colour image saved before the switch to black and white;
- a grid of six result slots, `slot1` .. `slot6`, each showing an image, a text or nothing;
- the detail view's fields: open flag, image URL, result text, file and the slot it was opened from.

Its handlers are modelled as the methods of the class `AppState.App`:

- `HandleFile`: upload a new image.
- `HandleResultClick` and `HandleCloseModal`: open and close the detail view.
- `ProcesarImagen`, the synchronous part of `procesarImagen`:
  - the black-and-white toggle, whose continuation is `CompleteGrayscale`;
  - the rotation, whose continuation is `CompleteRotation`;
  - the start of a backend request (`StartBackend`), whose continuation is `CompleteBackend`.
- `ProcesarTodoAvanzado`: start the six segmentation requests, one per slot.

A handler that awaits the browser or the backend is split in two. The first
method runs up to the first `await` and returns what it waits for (a `Step`
or a `Call`). The `Complete...` method then takes the outcome as a value:

- a `CanvasResult` for the canvas work;
- a `Reply` for the backend: no response, or a response read as JSON or as a blob.

The grid updates are all `prevSlots.map(...)` in the source. They are pure
functions over a sequence of slots (module `Slots`). The static tables are
constants with lemmas about them (module `Actions`):

- the action-to-slot map;
- the list of advanced actions;
- the JSON allow-list.

What a finished backend request delivers, and how it changes the grid, is a
set of pure functions (module `Dispatch`). That module also proves that the
fan-out's six requests leave every slot settled, whatever order they finish in.

The grayscale loop works in place on the canvas buffer, an `array` of bytes
(module `Pixels`). It is proved against a pixel-by-pixel specification.

The grey value is the exact value the browser stores. A canvas `ImageData`
buffer is a `Uint8ClampedArray`, which rounds the float average
`(r + g + b) / 3` to the nearest integer. That is `(r + g + b + 1) / 3` in
integer division, because a third never ends in one half.

The detail view is modelled by the class `Modal.ModalEmergente`. Its one
piece of state is the measurement status. The class has the reset effect and
the "Medir con YOLO" handler, and the pure function `Render` chooses what the
view shows.

The module `Scenarios` chains handlers as a user would trigger them:

- upload, then black and white, then colour again;
- upload, then black and white, then rotate, then colour again;
- upload, then run all advanced actions;
- upload, black and white, run all advanced actions, then let the six requests finish in any order with any replies.

Three behaviours of the code worth knowing:

- After an upload the saved colour image is the uploaded file itself (`src/App.tsx:112`). `AppState.App.HandleFile` states this.
- The fan-out first writes "Iniciando proceso..." to the six mapped slots (`src/App.tsx:500-511`). In the same synchronous run, each `procesarImagen` start then overwrites its own slot with "Procesando...". `AppState.App.ProcesarTodoAvanzado` ends with every slot showing "Procesando...".
- From the detail view, an image action other than the two measurements does write the origin slot (`src/App.tsx:412-425`). The view itself only ever calls `medir_yolo`, which leaves the slot alone.

## Model

| member | source | states |
|---|---|---|
| Slots.SlotId | src/App.tsx:32-37 | the i-th slot's id is "slot" followed by the digit i + 1 |
| Slots.SlotIdInjective | src/App.tsx:32-37 | two slots have the same id exactly when they are the same slot |
| Slots.Fill | src/App.tsx:302 | a slot write keeps the id, leaves the slot well formed (file and URL together, never with a text) and makes it show exactly the content written |
| Slots.FillContentOf | src/App.tsx:187 | writing back what a slot shows leaves it unchanged exactly when it is well formed |
| Slots.InitialSlots | src/App.tsx:32-37 | the initial grid has six well-formed slots with ids slot1 .. slot6 in order, all empty |
| Slots.MapSlots | src/App.tsx:294-306 | `map` keeps the length and applies the function to each slot at its own index |
| Slots.WriteWhere | src/App.tsx:318-324 | a targeted write keeps every id, makes the slot with the target id show the content, and leaves every other slot unchanged |
| Slots.WriteIn | src/App.tsx:500-511 | a write to a set of ids changes exactly the slots whose id is in the set |
| Slots.WriteAll | src/App.tsx:187 | clearing the grid keeps every id and makes every slot show the content written |
| Slots.WritesKeepGrid | src/App.tsx:294-306 | each of the three write shapes keeps the six ids in order and every slot well formed |
| Slots.WriteAllIsWriteInGrid | src/App.tsx:227 | on the grid, clearing every slot is the same as writing every one of its six ids |
| Actions.MappedSlotIds | src/App.tsx:502 | every value of the action-to-slot map is among the mapped slot ids |
| Actions.TargetSlot | src/App.tsx:289 | the target is the modal's origin slot from the modal; otherwise it exists exactly when the action is in the map, and it is that action's own mapped slot |
| Actions.AdvancedActionsFillGrid | src/App.tsx:48-68 | six advanced actions; the i-th is mapped to the i-th slot; the advanced actions are exactly the map's keys |
| Actions.MappedSlotIdsAreGrid | src/App.tsx:502 | the map's values are exactly the six grid ids |
| Actions.ActionToSlotIdInjective | src/App.tsx:48-58 | no two actions share a slot |
| Actions.ClassificationOfActions | src/App.tsx:329-331 | mapped actions and the two measurements answer with images, not JSON; measurements and the local transforms have no slot |
| Pixels.GreyValue | src/App.tsx:217-218 | the stored grey value is the byte nearest to the channel average: three times it is within one of r + g + b |
| Pixels.GreyscaleAt | src/App.tsx:216-219 | the converted byte at 4k + c is byte c of pixel k converted from that pixel's own bytes |
| Pixels.GreyscalePixel | src/App.tsx:216-219 | in every complete pixel the three colour channels become the grey value of the original channels, and alpha is kept |
| Pixels.GreyscaleShortTail | src/App.tsx:216-218 | a trailing group of one or two bytes is stored as 0 |
| Pixels.GreyValueOfGrey | src/App.tsx:217 | a grey pixel has its own value as grey value |
| Pixels.GreyscaleIdempotent | src/App.tsx:216-219 | converting an already converted buffer changes nothing |
| Pixels.ConvertPixel | src/App.tsx:217-218 | one round of the loop converts the pixel at i and keeps every other byte |
| Pixels.ToGrayscale | src/App.tsx:216-219 | the loop leaves the buffer equal to the converted original buffer |
| Dispatch.DeliversPictureIff | src/App.tsx:312-444 | a request yields a new image exactly when it is an image action whose response held a non-empty blob; the image is the returned blob, under the source name, at the blob URL |
| Dispatch.DeliverMessages | src/App.tsx:312-461 | no response gives "Error: Sin respuesta del servidor."; a JSON action gives the formatted JSON or the parse-error message; an image action whose blob cannot be read gives the load-error message, and an empty blob gives "Resultado vacío o inválido." |
| Dispatch.ResultBlobIff | src/App.tsx:326-460 | for an image action the returned string is a blob URL exactly when an image came back, and then it is the URL the image is shown at; it is never empty |
| Dispatch.SlotsAfter | src/App.tsx:314-459 | after a request, only the target slot can change; it shows what was delivered when the call did not come from the modal, and from the modal it shows a picture delivered for an action other than the two measurements; a modal measurement or a modal message leaves the grid alone |
| Dispatch.ApplyAllSnoc | src/App.tsx:514-520 | finishing one more request after a batch applies it to the grid that batch left |
| Dispatch.FanOutRequestSettles | src/App.tsx:431-443 | a finished fan-out request settles its own slot and leaves the others unchanged |
| Dispatch.ApplyAllSettles | src/App.tsx:514-520 | whatever order fan-out requests finish in, every targeted slot ends settled and a settled slot stays settled |
| Dispatch.FanOutCompletes | src/App.tsx:514-520 | once all six advanced actions have finished, in any order, all six slots hold an image or a final message |
| AppState.FileToProcess | src/App.tsx:160 | the file is the given one if any, and otherwise exactly the current image; there is none only when both are missing |
| AppState.AdvancedActionStarts | src/App.tsx:515-516 | each advanced action is a backend action whose request targets its own slot |
| AppState.MarkPending | src/App.tsx:294-306 | marking slot k pending moves the fan-out from k to k + 1 started requests |
| AppState.FanOutStep | src/App.tsx:515-516 | starting the k-th advanced request targets slot k and extends the fan-out state by that request |
| AppState.FanOutBegins | src/App.tsx:500-511 | marking the mapped slots "Iniciando proceso..." puts all six slots at the fan-out's start |
| AppState.FanOutEnds | src/App.tsx:514-517 | after the six starts every slot is pending and the requests are the six advanced actions on their own slots |
| AppState.App.constructor | src/App.tsx:20-45 | the initial state: no image, colour mode, the empty grid, the detail view closed and empty |
| AppState.App.HandleFile | src/App.tsx:88-125 | an upload makes the file current and saved as colour, clears the flag, resets the grid and closes and empties the detail view |
| AppState.App.HandleResultClick | src/App.tsx:129-143 | opening the detail view shows the clicked slot's URL, text and file and records the slot; the rest is unchanged |
| AppState.App.HandleCloseModal | src/App.tsx:146-154 | closing the detail view clears all its fields; the rest is unchanged |
| AppState.App.ProcesarImagen | src/App.tsx:159-307 | with no file nothing changes; the toggle reverts to the saved colour image or, without one, reports the error in every slot; going grey snapshots the current image; rotation waits; a backend start marks only its non-modal target pending |
| AppState.App.StartBackend | src/App.tsx:286-307 | a backend start fixes the target and, when not from the modal and the target exists, marks that slot "Procesando..." |
| AppState.App.CompleteGrayscale | src/App.tsx:202-236 | with a canvas the buffer is converted; an encoded result becomes current with the flag set and the grid cleared; any failure changes nothing |
| AppState.App.CompleteRotation | src/App.tsx:252-282 | a rotated result becomes current under the source name, its width the source height and its height the source width, and the grid is cleared; the flag and the saved colour image are never touched |
| AppState.App.CompleteBackend | src/App.tsx:309-461 | the grid becomes SlotsAfter of the delivery, the detail view shows it when the call came from there, and the returned string is the delivered message or URL; a modal measurement leaves the grid unchanged |
| AppState.App.ProcesarTodoAvanzado | src/App.tsx:493-523 | with no image nothing happens; otherwise six requests start, one per advanced action on its own slot, and every slot shows "Procesando..." |
| AppState.App.FireAdvancedActions | src/App.tsx:514-517 | the six `procesarImagen` starts take the fan-out from its start to all six requests in flight |
| Modal.MeasureStatus | src/Vista/ModalEmergente.tsx:51-62 | the status is never empty; an error gives the error message, a `blob:` result gives the "completed (image updated)" note, any other truthy result is shown as is, and a missing or empty result gives the no-result note |
| Modal.Render | src/Vista/ModalEmergente.tsx:86-114 | nothing is shown exactly when closed; a truthy status wins over the result text, and with neither the no-details note is shown; the image is shown exactly when its URL is truthy |
| Modal.ModalEmergente.constructor | src/Vista/ModalEmergente.tsx:23 | the status starts null and the effect has not run |
| Modal.ModalEmergente.ResetEffect | src/Vista/ModalEmergente.tsx:26-32 | the effect clears the status exactly when the view is open and its dependencies changed |
| Modal.ModalEmergente.HandleMedirYoloClick | src/Vista/ModalEmergente.tsx:38-67 | without a file the status reports it and nothing is called; otherwise the status says the measurement runs and `medir_yolo` is requested from the modal |
| Modal.ModalEmergente.CompleteMedirYolo | src/Vista/ModalEmergente.tsx:46-62 | the status becomes the classification of how the call settled |
| Modal.StatusShownAfterMeasurement | src/Vista/ModalEmergente.tsx:100-104 | an open view holding a settled measurement status shows that status, whatever the result text |
| Modal.MeasureStatusOfReply | src/Vista/ModalEmergente.tsx:46-57 | for each backend reply to `medir_yolo`, the status is the no-response, load-error or empty-result message, or "completed" for a new image |
| Scenarios.UploadThenGrey | src/App.tsx:175-236 | upload then black and white: the toggle waits on the upload, whose buffer is converted; the grey image of the upload is current, the upload is saved as colour and the grid is still empty |
| Scenarios.ColourRoundTrip | src/App.tsx:175-200 | upload, grey, colour again: the uploaded image is current, the flag is clear, nothing is saved and the grid is empty |
| Scenarios.RevertAfterRotation | src/App.tsx:247-250 | upload, grey, rotate, colour again: the unrotated upload is current and the flag is clear |
| Scenarios.RotateOnce | src/App.tsx:247-282 | pressing "rotar" and letting the canvas finish swaps the current image's width and height, keeps its name, and changes neither the flag nor the saved colour image |
| Scenarios.RotateFourTimes | src/App.tsx:247-282 | four rotations through the handlers give back the current image's width and height, and the flag and the saved colour image never change |
| Scenarios.UploadThenRunAll | src/App.tsx:493-517 | upload then run all: six requests on the upload, one per slot, and every slot pending |
| Scenarios.FinishRequests | src/App.tsx:514-520 | applying the completions one by one through the handler gives the grid the pure model of those completions gives, and leaves the current image, the flag and the saved colour image alone |
| Scenarios.EveryActionFinishes | src/App.tsx:514-520 | when every request is in the finishing order, every advanced action finishes |
| Scenarios.GreyThenRunAll | src/App.tsx:493-520 | upload, black and white, run all, then the six replies in any order: every slot holds an image or a final message |
| Scenarios.MeasurementStatusCleared | src/Vista/ModalEmergente.tsx:26-62 | a measurement from the detail view settles on the status of the backend's reply, and the reset effect that follows, seeing the changed image URL, clears it |

## Left out

- Blob URL creation and revocation, the `lastColorImageUrl` state and `currentImageUrl` are not modelled. These cover the unmount cleanup (`src/App.tsx:73-85`) and every `revokeObjectURL`. A URL is an opaque string; the one a backend image gets is `"blob:"` followed by a caller-chosen key.
- Image decoding, canvas drawing and the rotation transform (`src/App.tsx:203-212`, `253-265`) are browser and floating-point work. Their outcome is a `CanvasResult` parameter and the encoded image is an opaque token. The grey image keeps the source's width and height, and the rotated one swaps them.
- File MIME types are not modelled, nor the fact that a `File` is an object rather than a value.
- `src/Modelo/Conexion.ts` is not part of this model. Its result is the `Reply` parameter.
- The JSON text produced by `JSON.stringify` is an opaque string carried by `Parsed`.
- The outer `catch` of the backend branch (`src/App.tsx:463-479`) is not modelled. Nothing inside its `try` can throw: the transport reports failure as null, and both body reads have their own `catch`.
- Action names that exist on every JavaScript object, such as `constructor`, give a truthy non-string when looked up in the map. No slot id equals such a value, so no slot changes, and the model treats the lookup as "no target".
- `Promise.all` interleaving (`src/App.tsx:514-520`): the six completions are applied one after the other in any order (`Dispatch.ApplyAll`). Other handlers running between two completions are not modelled.
- Each `procesarImagen` closure reads state from the render that created it. The model reads the current fields, which agree during the synchronous fan-out start.
- AppState.App.FireAdvancedActions calls the backend start (`StartBackend`) directly, not `ProcesarImagen`. `AppState.AdvancedActionStarts` proves that no advanced action is the grayscale toggle or the rotation, so `ProcesarImagen` would take that same branch.
- The `key` on the detail view (`src/App.tsx:587`) is not modelled. The model has one long-lived `Modal.ModalEmergente` instead. In the program, every reply to the view's `medir_yolo` changes `modalImageUrl`: to the new blob URL (`src/App.tsx:408`), or to null on a failure (`src/App.tsx:315`, `378`, `449`). Before the call the URL was the slot's own, so the key changes and the view is remounted with a null status. Also, while `modalImageUrl` is null, the key `'modal-closed-' + Date.now()` changes on every render of `App`. So every status that `CompleteMedirYolo` sets is discarded by the remount. Even without the remount, the reset effect clears it once the changed URL is rendered (`Scenarios.MeasurementStatusCleared`).
- Modal.StatusShownAfterMeasurement: holds only for the model's single long-lived instance. It states what `Render` shows for a settled status, not that the program keeps that status.
- The adapters `handleProcesarButton` and `rotarImagen` (`src/App.tsx:485-491`) are not modelled separately. They are `ProcesarImagen(accion, sourceFile, false)` and `ProcesarImagen("rotar", None, false)`.
- Console logging and warnings are not modelled.
- The rendering components (`src/Vista/Botones.tsx`, `ImagenPrevia.tsx`, `ResultadoImagen.tsx`, `DropZone.tsx`) and `vite.config.ts` are not modelled.
