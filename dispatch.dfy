/**
 * The backend branch of `procesarImagen` in App.tsx, as pure functions: what
 * a finished request delivers, what it returns to its caller, and how it
 * changes the grid and the detail view. The request itself is abstracted into
 * a `Reply`.
 */
module Dispatch {
  import opened Wrappers
  import opened Slots
  import opened Actions

  const PendingMsg: string := "Procesando..."
  const StartingMsg: string := "Iniciando proceso..."
  const NoResponseMsg: string := "Error: Sin respuesta del servidor."
  const EmptyResultMsg: string := "Resultado vacío o inválido."
  const BlobScheme: string := "blob:"

  function JsonErrorMsg(accion: string, error: string): string
  {
    "Error al parsear JSON para " + accion + ": " + error
  }

  function LoadErrorMsg(accion: string, error: string): string
  {
    "Error al cargar imagen para " + accion + ": " + error
  }

  /** `response.json()` followed by `JSON.stringify(data, null, 2)`, or the error it threw. */
  datatype JsonRead = Parsed(text: string) | ParseFailed(error: string)

  /** `response.blob()`: a blob of some size holding an image, or the error it threw. */
  datatype BlobRead = Read(size: nat, width: nat, height: nat, data: nat) | ReadFailed(error: string)

  /**
   * What `enviarImagenAlBackend` resolved to: null (network error or non-2xx
   * status) or a response, which the caller reads either as JSON or as a blob.
   */
  datatype Reply = NoResponse | Response(json: JsonRead, blob: BlobRead)

  /** A backend request in flight: the action, the file sent, the target slot fixed when it started, and its origin. */
  datatype Call = Call(accion: string, source: ImageFile, target: Option<string>, fromModal: bool)

  /** What a finished request hands to the view: a message, or a new file with its blob URL. */
  datatype Delivery = Message(text: string) | Picture(file: ImageFile, url: string)

  predicate IsBlobUrl(s: string)
  {
    BlobScheme <= s
  }

  /** The outcome of a finished request for `accion` on `source`; `urlKey` names the blob URL the browser creates. */
  function Deliver(accion: string, source: ImageFile, reply: Reply, urlKey: string): Delivery
  {
    match reply
    case NoResponse => Message(NoResponseMsg)
    case Response(json, blob) =>
      if IsJsonAction(accion) then
        match json
        case Parsed(text) => Message(text)
        case ParseFailed(e) => Message(JsonErrorMsg(accion, e))
      else
        match blob
        case ReadFailed(e) => Message(LoadErrorMsg(accion, e))
        case Read(size, w, h, d) =>
          if size == 0 then Message(EmptyResultMsg)
          else Picture(ImageFile(source.name, w, h, d), BlobScheme + urlKey)
  }

  /**
   * Every way a request can fail gives its own message: no response, a JSON
   * body that does not parse, a blob that cannot be read, an empty blob.
   */
  lemma DeliverMessages(accion: string, source: ImageFile, reply: Reply, urlKey: string)
    ensures reply.NoResponse? ==> Deliver(accion, source, reply, urlKey) == Message(NoResponseMsg)
    ensures reply.Response? && IsJsonAction(accion) ==>
              Deliver(accion, source, reply, urlKey) ==
                (match reply.json
                 case Parsed(text) => Message(text)
                 case ParseFailed(e) => Message(JsonErrorMsg(accion, e)))
    ensures reply.Response? && !IsJsonAction(accion) && reply.blob.ReadFailed? ==>
              Deliver(accion, source, reply, urlKey) == Message(LoadErrorMsg(accion, reply.blob.error))
    ensures reply.Response? && !IsJsonAction(accion) && reply.blob.Read? && reply.blob.size == 0 ==>
              Deliver(accion, source, reply, urlKey) == Message(EmptyResultMsg)
  {
  }

  /** The string `procesarImagen` resolves to once the request has finished. */
  function ResultString(d: Delivery): string
  {
    match d
    case Message(t) => t
    case Picture(_, u) => u
  }

  function ContentFor(d: Delivery): Content
  {
    match d
    case Message(t) => Text(t)
    case Picture(f, u) => Image(f, u)
  }

  /** A request yields a new image exactly when it is an image action whose response held a non-empty blob. */
  lemma DeliversPictureIff(accion: string, source: ImageFile, reply: Reply, urlKey: string)
    ensures var d := Deliver(accion, source, reply, urlKey);
      d.Picture? <==> !IsJsonAction(accion) && reply.Response? && reply.blob.Read? && reply.blob.size > 0
    ensures var d := Deliver(accion, source, reply, urlKey);
      d.Picture? ==> d.file == ImageFile(source.name, reply.blob.width, reply.blob.height, reply.blob.data)
                     && d.url == BlobScheme + urlKey
  {
  }

  /**
   * For an image action the caller can tell an image from a message by the
   * returned string alone: it is a blob URL exactly when an image came back,
   * and it is never empty.
   */
  lemma ResultBlobIff(accion: string, source: ImageFile, reply: Reply, urlKey: string)
    requires !IsJsonAction(accion)
    ensures var d := Deliver(accion, source, reply, urlKey);
      && (IsBlobUrl(ResultString(d)) <==> d.Picture?) && ResultString(d) != ""
      && (d.Picture? ==> ResultString(d) == d.url)
  {
    var d := Deliver(accion, source, reply, urlKey);
    if d.Message? {
      assert ResultString(d)[0] in {'E', 'R'};
    }
  }

  /**
   * The grid after a request finishes. From the modal only a non-measurement
   * image is written to the modal's source slot; otherwise the mapped slot
   * receives whatever was delivered.
   */
  function SlotsAfter(slots: seq<Slot>, call: Call, d: Delivery): (r: seq<Slot>)
    ensures call.fromModal && (IsMeasureAction(call.accion) || d.Message?) ==> r == slots
    ensures !Truthy(call.target) ==> r == slots
    ensures |r| == |slots|
    ensures forall i :: 0 <= i < |slots| ==> r[i].id == slots[i].id
    ensures forall i :: 0 <= i < |slots| && Some(slots[i].id) != call.target ==> r[i] == slots[i]
    ensures !call.fromModal && Truthy(call.target) ==>
              forall i :: 0 <= i < |slots| && Some(slots[i].id) == call.target ==> ContentOf(r[i]) == ContentFor(d)
    ensures call.fromModal && d.Picture? && !IsMeasureAction(call.accion) && Truthy(call.target) ==>
              forall i :: 0 <= i < |slots| && Some(slots[i].id) == call.target ==> ContentOf(r[i]) == ContentFor(d)
  {
    if call.fromModal then
      if d.Picture? && Truthy(call.target) && !IsMeasureAction(call.accion) then
        WriteWhere(slots, call.target.value, ContentFor(d))
      else slots
    else if Truthy(call.target) then WriteWhere(slots, call.target.value, ContentFor(d))
    else slots
  }

  /** A slot no longer waiting on a request: it holds an image or a text that is not a progress note. */
  predicate Settled(slot: Slot)
  {
    WellFormed(slot) && (slot.url.Some? || (slot.resultText.Some? && slot.resultText.value !in {PendingMsg, StartingMsg}))
  }

  /** A request that `procesarTodoAvanzado` fires: an advanced action, sent to its mapped slot, not from the modal. */
  predicate FanOutCall(call: Call)
  {
    call.accion in AllAdvancedActions && !call.fromModal
    && call.accion in ActionToSlotId && call.target == Some(ActionToSlotId[call.accion])
  }

  /** A finished request: the request, the reply it got, and the blob URL key. */
  datatype Completion = Completion(call: Call, reply: Reply, urlKey: string)

  function Apply(slots: seq<Slot>, c: Completion): seq<Slot>
  {
    SlotsAfter(slots, c.call, Deliver(c.call.accion, c.call.source, c.reply, c.urlKey))
  }

  /** The grid after the given requests finish, one after the other, in the order listed. */
  function ApplyAll(slots: seq<Slot>, done: seq<Completion>): seq<Slot>
    decreases |done|
  {
    if done == [] then slots else ApplyAll(Apply(slots, done[0]), done[1..])
  }

  /** Finishing one more request after a batch applies it to the grid the batch left. */
  lemma {:induction false} ApplyAllSnoc(slots: seq<Slot>, done: seq<Completion>, c: Completion)
    ensures ApplyAll(slots, done + [c]) == Apply(ApplyAll(slots, done), c)
    decreases |done|
  {
    if done != [] {
      assert (done + [c])[1..] == done[1..] + [c];
      ApplyAllSnoc(Apply(slots, done[0]), done[1..], c);
    }
  }

  /** One finished fan-out request settles its own slot and leaves every other slot as it was. */
  lemma FanOutRequestSettles(slots: seq<Slot>, c: Completion)
    requires FanOutCall(c.call)
    ensures var r := Apply(slots, c);
      && |r| == |slots|
      && (forall i :: 0 <= i < |slots| ==> r[i].id == slots[i].id)
      && (forall i :: 0 <= i < |slots| && Some(slots[i].id) == c.call.target ==> Settled(r[i]))
      && (forall i :: 0 <= i < |slots| && Some(slots[i].id) != c.call.target ==> r[i] == slots[i])
  {
    ClassificationOfActions();
    var d := Deliver(c.call.accion, c.call.source, c.reply, c.urlKey);
    assert Truthy(c.call.target) by {
      AdvancedActionsFillGrid();
    }
    if d.Message? {
      assert d.text[0] in {'E', 'R'};
      assert PendingMsg[0] == 'P' && StartingMsg[0] == 'I';
    }
  }

  /**
   * Whatever order the fan-out's requests finish in, every slot that one of
   * them targets ends up settled, and a settled slot stays settled.
   */
  lemma {:induction false} ApplyAllSettles(slots: seq<Slot>, done: seq<Completion>)
    requires forall k :: 0 <= k < |done| ==> FanOutCall(done[k].call)
    ensures var r := ApplyAll(slots, done);
      && |r| == |slots|
      && (forall i :: 0 <= i < |slots| ==> r[i].id == slots[i].id)
      && (forall i :: 0 <= i < |slots| && Settled(slots[i]) ==> Settled(r[i]))
      && (forall i, k :: 0 <= i < |slots| && 0 <= k < |done| && done[k].call.target == Some(slots[i].id) ==> Settled(r[i]))
    decreases |done|
  {
    if done != [] {
      var next := Apply(slots, done[0]);
      FanOutRequestSettles(slots, done[0]);
      ApplyAllSettles(next, done[1..]);
      var r := ApplyAll(slots, done);
      assert r == ApplyAll(next, done[1..]);
      forall i, k | 0 <= i < |slots| && 0 <= k < |done| && done[k].call.target == Some(slots[i].id)
        ensures Settled(r[i])
      {
        if k > 0 {
          assert done[1..][k - 1] == done[k];
        } else {
          assert Settled(next[i]);
        }
      }
    }
  }

  /**
   * After the fan-out's six requests have all finished, in any order, each of
   * the six slots holds an image or a final message.
   */
  lemma FanOutCompletes(slots: seq<Slot>, done: seq<Completion>)
    requires Layout(slots)
    requires forall k :: 0 <= k < |done| ==> FanOutCall(done[k].call)
    requires forall a :: a in AllAdvancedActions ==> exists k :: 0 <= k < |done| && done[k].call.accion == a
    ensures Layout(ApplyAll(slots, done))
    ensures forall i :: 0 <= i < GridSize ==> Settled(ApplyAll(slots, done)[i])
  {
    ApplyAllSettles(slots, done);
    AdvancedActionsFillGrid();
    forall i | 0 <= i < GridSize
      ensures Settled(ApplyAll(slots, done)[i])
    {
      var a := AllAdvancedActions[i];
      var k :| 0 <= k < |done| && done[k].call.accion == a;
      assert done[k].call.target == Some(slots[i].id);
    }
  }
}
