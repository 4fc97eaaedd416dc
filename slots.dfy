/**
 * The result grid of App.tsx: six `ProcessedSlot` records, each holding either
 * a processed image (its file and its blob URL), a text result, or nothing.
 * Every update of the grid in the source is a `prevSlots.map(...)`; this module
 * models that map, the write of one slot, and the three shapes of grid update
 * built on them (one target id, a set of ids, every slot).
 */
module Slots {
  import opened Wrappers

  /** An image file, kept opaque: its name, its pixel dimensions and a token for its bytes. */
  datatype ImageFile = ImageFile(name: string, width: nat, height: nat, data: nat)

  /** `ProcessedSlot`: an id such as "slot1", a file, a blob URL and a text result. */
  datatype Slot = Slot(id: string, file: Option<ImageFile>, url: Option<string>, resultText: Option<string>)

  /** What a write puts into a slot. */
  datatype Content = Empty | Image(file: ImageFile, url: string) | Text(text: string)

  const GridSize: nat := 6

  /** The id `slot${i + 1}` given to the i-th slot of the grid. */
  function SlotId(i: nat): (id: string)
    requires i < GridSize
    ensures |id| == 5 && id[..4] == "slot" && id[4] == ['1', '2', '3', '4', '5', '6'][i]
  {
    "slot" + [(('1' as int) + i) as char]
  }

  lemma SlotIdInjective(i: nat, j: nat)
    requires i < GridSize && j < GridSize
    ensures SlotId(i) == SlotId(j) <==> i == j
  {
    if SlotId(i) == SlotId(j) {
      assert SlotId(i)[4] == SlotId(j)[4];
    }
  }

  /** The grid has six slots whose ids are slot1 .. slot6, in order. */
  ghost predicate Layout(slots: seq<Slot>)
  {
    |slots| == GridSize && forall i :: 0 <= i < |slots| ==> slots[i].id == SlotId(i)
  }

  /** A slot's file and URL are set together, and never together with a text result. */
  predicate WellFormed(slot: Slot)
  {
    (slot.file.Some? <==> slot.url.Some?) && !(slot.url.Some? && slot.resultText.Some?)
  }

  ghost predicate AllWellFormed(slots: seq<Slot>)
  {
    forall i :: 0 <= i < |slots| ==> WellFormed(slots[i])
  }

  /** The content a slot shows: its image if it has one, else its text, else nothing. */
  function ContentOf(slot: Slot): Content
  {
    if slot.file.Some? && slot.url.Some? then Image(slot.file.value, slot.url.value)
    else if slot.resultText.Some? then Text(slot.resultText.value)
    else Empty
  }

  /** `{ ...slot, file, url, resultText }` for the content written: the other two fields become null. */
  function Fill(slot: Slot, c: Content): (r: Slot)
    ensures r.id == slot.id && WellFormed(r) && ContentOf(r) == c
  {
    match c
    case Empty => Slot(slot.id, None, None, None)
    case Image(f, u) => Slot(slot.id, Some(f), Some(u), None)
    case Text(t) => Slot(slot.id, None, None, Some(t))
  }

  /** Writing back what a slot shows leaves it as it was exactly when the slot is well formed. */
  lemma FillContentOf(slot: Slot)
    ensures Fill(slot, ContentOf(slot)) == slot <==> WellFormed(slot)
  {
  }

  /** `Array.from({ length: 6 }, (_, i) => ({ id: `slot${i + 1}`, file: null, url: null, resultText: null }))` */
  function InitialSlots(): (r: seq<Slot>)
    ensures Layout(r) && AllWellFormed(r)
    ensures forall i :: 0 <= i < |r| ==> ContentOf(r[i]) == Empty
  {
    seq(GridSize, i requires 0 <= i < GridSize => Slot(SlotId(i), None, None, None))
  }

  /** `slots.map(f)`. */
  function MapSlots(slots: seq<Slot>, f: Slot -> Slot): (r: seq<Slot>)
    ensures |r| == |slots|
    ensures forall i :: 0 <= i < |slots| ==> r[i] == f(slots[i])
  {
    if slots == [] then [] else [f(slots[0])] + MapSlots(slots[1..], f)
  }

  /**
   * `prevSlots.map(slot => slot.id === target ? { ...slot, <c> } : slot)`:
   * only the slot with the target id changes, and it then shows c.
   */
  function WriteWhere(slots: seq<Slot>, target: string, c: Content): (r: seq<Slot>)
    ensures |r| == |slots|
    ensures forall i :: 0 <= i < |slots| ==> r[i].id == slots[i].id
    ensures forall i :: 0 <= i < |slots| && slots[i].id == target ==> WellFormed(r[i]) && ContentOf(r[i]) == c
    ensures forall i :: 0 <= i < |slots| && slots[i].id != target ==> r[i] == slots[i]
  {
    MapSlots(slots, (s: Slot) => if s.id == target then Fill(s, c) else s)
  }

  /** `prevSlots.map(slot => ids.includes(slot.id) ? { ...slot, <c> } : slot)`. */
  function WriteIn(slots: seq<Slot>, ids: set<string>, c: Content): (r: seq<Slot>)
    ensures |r| == |slots|
    ensures forall i :: 0 <= i < |slots| ==> r[i].id == slots[i].id
    ensures forall i :: 0 <= i < |slots| && slots[i].id in ids ==> WellFormed(r[i]) && ContentOf(r[i]) == c
    ensures forall i :: 0 <= i < |slots| && slots[i].id !in ids ==> r[i] == slots[i]
  {
    MapSlots(slots, (s: Slot) => if s.id in ids then Fill(s, c) else s)
  }

  /** `prevSlots.map(slot => ({ ...slot, <c> }))`: every slot shows c. */
  function WriteAll(slots: seq<Slot>, c: Content): (r: seq<Slot>)
    ensures |r| == |slots|
    ensures forall i :: 0 <= i < |slots| ==> r[i].id == slots[i].id && WellFormed(r[i]) && ContentOf(r[i]) == c
  {
    MapSlots(slots, (s: Slot) => Fill(s, c))
  }

  /** Every write keeps the grid's six ids in order and keeps every slot well formed. */
  lemma WritesKeepGrid(slots: seq<Slot>, target: string, ids: set<string>, c: Content)
    requires Layout(slots) && AllWellFormed(slots)
    ensures Layout(WriteWhere(slots, target, c)) && AllWellFormed(WriteWhere(slots, target, c))
    ensures Layout(WriteIn(slots, ids, c)) && AllWellFormed(WriteIn(slots, ids, c))
    ensures Layout(WriteAll(slots, c)) && AllWellFormed(WriteAll(slots, c))
  {
  }

  /** On the grid, WriteAll is the same as writing every id of the grid. */
  lemma WriteAllIsWriteInGrid(slots: seq<Slot>, c: Content)
    requires Layout(slots)
    ensures WriteAll(slots, c) == WriteIn(slots, set i | 0 <= i < GridSize :: SlotId(i), c)
  {
    var ids := set i | 0 <= i < GridSize :: SlotId(i);
    forall i | 0 <= i < |slots|
      ensures slots[i].id in ids
    {
      assert slots[i].id == SlotId(i);
    }
  }
}
