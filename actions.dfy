/**
 * The static action vocabulary of App.tsx: which backend action fills which
 * slot, which actions the "run all advanced" button fires, and which actions
 * answer with JSON rather than with an image.
 */
module Actions {
  import opened Wrappers
  import opened Slots

  /** `actionToSlotIdMap`: the six segmentation variants, each bound to one slot. */
  const ActionToSlotId: map<string, string> := map[
    "remover" := "slot1",
    "remover_carvekit" := "slot2",
    "remover_blurfusion" := "slot3",
    "remover_briaai" := "slot4",
    "remover_u2net" := "slot5",
    "remover_basnet" := "slot6"
  ]

  /** `allAdvancedActions`: the actions fired by `procesarTodoAvanzado`, in order. */
  const AllAdvancedActions: seq<string> := [
    "remover", "remover_carvekit", "remover_blurfusion", "remover_briaai", "remover_u2net", "remover_basnet"
  ]

  /** `jsonResponseActions`: the only actions whose response is read as JSON. */
  const JsonResponseActions: seq<string> := ["medida_rapida", "medir_manualmente"]

  /** The two local transforms, which never reach the backend. */
  const GrayscaleAction: string := "blanco_negro"
  const RotateAction: string := "rotar"

  /** The measurement action the detail view fires. */
  const MeasureYolo: string := "medir_yolo"

  predicate IsJsonAction(accion: string)
  {
    accion in JsonResponseActions
  }

  /** `medir_yolo` and `medir_plano`: image-returning measurements that never overwrite a slot from the modal. */
  predicate IsMeasureAction(accion: string)
  {
    accion == "medir_yolo" || accion == "medir_plano"
  }

  /** `Object.values(actionToSlotIdMap)`. */
  function MappedSlotIds(): (ids: set<string>)
    ensures forall a :: a in ActionToSlotId ==> ActionToSlotId[a] in ids
  {
    ActionToSlotId.Values
  }

  /**
   * `fromModal ? modalSourceSlotId : actionToSlotIdMap[accion]`; an action
   * missing from the map has no target.
   */
  function TargetSlot(accion: string, fromModal: bool, modalSourceSlotId: Option<string>): (t: Option<string>)
    ensures fromModal ==> t == modalSourceSlotId
    ensures !fromModal ==> (t.Some? <==> accion in ActionToSlotId)
    ensures !fromModal && accion in ActionToSlotId ==> t == Some(ActionToSlotId[accion])
    ensures !fromModal && t.Some? ==> t.value in MappedSlotIds()
  {
    if fromModal then modalSourceSlotId
    else if accion in ActionToSlotId then Some(ActionToSlotId[accion])
    else None
  }

  /** The i-th advanced action fills the i-th slot of the grid, and the six actions are exactly the map's keys. */
  lemma AdvancedActionsFillGrid()
    ensures |AllAdvancedActions| == GridSize
    ensures forall i :: 0 <= i < GridSize ==>
              AllAdvancedActions[i] in ActionToSlotId && ActionToSlotId[AllAdvancedActions[i]] == SlotId(i)
    ensures forall a :: a in ActionToSlotId <==> a in AllAdvancedActions
  {
    forall i | 0 <= i < GridSize
      ensures ActionToSlotId[AllAdvancedActions[i]] == SlotId(i)
    {
      assert SlotId(i) == ["slot1", "slot2", "slot3", "slot4", "slot5", "slot6"][i];
    }
  }

  /** The map's values are exactly the ids of the grid, so the fan-out marks all six slots. */
  lemma MappedSlotIdsAreGrid()
    ensures MappedSlotIds() == set i | 0 <= i < GridSize :: SlotId(i)
  {
    AdvancedActionsFillGrid();
    var grid := set i | 0 <= i < GridSize :: SlotId(i);
    forall id | id in MappedSlotIds()
      ensures id in grid
    {
      var a :| a in ActionToSlotId && ActionToSlotId[a] == id;
      var i :| 0 <= i < GridSize && AllAdvancedActions[i] == a;
      assert id == SlotId(i);
    }
    forall id | id in grid
      ensures id in MappedSlotIds()
    {
      var i :| 0 <= i < GridSize && id == SlotId(i);
      assert ActionToSlotId[AllAdvancedActions[i]] == id;
    }
  }

  /** No two actions share a slot. */
  lemma ActionToSlotIdInjective(a: string, b: string)
    requires a in ActionToSlotId && b in ActionToSlotId
    ensures ActionToSlotId[a] == ActionToSlotId[b] <==> a == b
  {
    AdvancedActionsFillGrid();
    var i :| 0 <= i < GridSize && AllAdvancedActions[i] == a;
    var j :| 0 <= j < GridSize && AllAdvancedActions[j] == b;
    SlotIdInjective(i, j);
  }

  /**
   * The measurements and the local transforms are bound to no slot, and every
   * action with a slot, like both measurements, returns an image, not JSON.
   */
  lemma ClassificationOfActions()
    ensures forall a :: a in ActionToSlotId ==> !IsJsonAction(a) && !IsMeasureAction(a)
    ensures forall a :: IsMeasureAction(a) ==> a !in ActionToSlotId && !IsJsonAction(a)
    ensures GrayscaleAction !in ActionToSlotId && RotateAction !in ActionToSlotId
    ensures !IsJsonAction(GrayscaleAction) && !IsJsonAction(RotateAction)
  {
  }
}
