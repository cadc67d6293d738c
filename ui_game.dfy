/**
 * The inventory bar of `src/ui_game.rs`: the player's object stacks are
 * bound one per tick to the first empty inventory slot, a pressed slot
 * selects its object, and the player may build only while no button is
 * being interacted with. The types come from `src/player.rs`.
 */
module UiGame {
  import opened Wrappers

  /** The objects a stack can hold; `None` marks an empty slot. */
  datatype Object = None | Action | Worker

  /** An ECS entity id. */
  type Entity = nat

  /** `ObjectStack`: a stack of the player's inventory, or the content of an inventory slot. */
  datatype ObjectStack = ObjectStack(item: Object, total: int, isAssigned: bool, relatedEntity: Entity)

  /** The `Interaction` state bevy keeps on every button. */
  datatype Interaction = Pressed | Hovered | None

  /**
   * One inventory-slot entity: its id, its `UiInventorySlot` content, its
   * `Interaction` and whether that interaction changed since the last tick.
   */
  datatype SlotEntity = SlotEntity(entity: Entity, slot: ObjectStack, interaction: Interaction, changed: bool)

  // ---------------------------------------------------------------------------
  // Counting

  /** The number of elements of `s` satisfying `p`. */
  function Count<T>(s: seq<T>, p: T -> bool): (n: nat)
    ensures n <= |s|
    ensures n == 0 <==> forall i :: 0 <= i < |s| ==> !p(s[i])
  {
    if s == [] then 0 else (if p(s[0]) then 1 else 0) + Count(s[1..], p)
  }

  /** Replacing one element changes the count by what the old and the new element contribute. */
  lemma {:induction false} CountUpdate<T>(s: seq<T>, p: T -> bool, i: nat, x: T)
    requires i < |s|
    ensures Count(s[i := x], p) + (if p(s[i]) then 1 else 0) == Count(s, p) + (if p(x) then 1 else 0)
  {
    if i > 0 {
      assert s[i := x][1..] == s[1..][i - 1 := x];
      CountUpdate(s[1..], p, i - 1, x);
    } else {
      assert s[i := x][1..] == s[1..];
    }
  }

  predicate Unassigned(s: ObjectStack) { !s.isAssigned }

  predicate EmptySlot(e: SlotEntity) { e.slot.item == Object.None }

  // ---------------------------------------------------------------------------
  // The two searches of `ui_load_items`

  /** `stacks.iter_mut().find(|i| !i.isAssigned)`: the index of the first unassigned stack. */
  function FirstUnassigned(stacks: seq<ObjectStack>): (r: Option<nat>)
    ensures r.None? <==> forall j :: 0 <= j < |stacks| ==> stacks[j].isAssigned
    ensures r.Some? ==> r.value < |stacks| && !stacks[r.value].isAssigned
                        && forall j :: 0 <= j < r.value ==> stacks[j].isAssigned
  {
    if stacks == [] then Option.None
    else if !stacks[0].isAssigned then Some(0)
    else match FirstUnassigned(stacks[1..]) {
      case None => Option.None
      case Some(i) => Some(i + 1)
    }
  }

  /** `slots.iter_mut().find(|s| s.slot.item == Object::None)`: the index of the first empty slot. */
  function FirstEmptySlot(slots: seq<SlotEntity>): (r: Option<nat>)
    ensures r.None? <==> forall k :: 0 <= k < |slots| ==> slots[k].slot.item != Object.None
    ensures r.Some? ==> r.value < |slots| && slots[r.value].slot.item == Object.None
                        && forall k :: 0 <= k < r.value ==> slots[k].slot.item != Object.None
  {
    if slots == [] then Option.None
    else if slots[0].slot.item == Object.None then Some(0)
    else match FirstEmptySlot(slots[1..]) {
      case None => Option.None
      case Some(k) => Some(k + 1)
    }
  }

  // ---------------------------------------------------------------------------
  // `ui_load_items` as a function of the stacks and the slots

  /** The bind itself: the slot takes the stack's item and total, both are flagged, and the stack remembers the slot's entity. */
  function Bind(stacks: seq<ObjectStack>, i: nat, slots: seq<SlotEntity>, k: nat): (seq<ObjectStack>, seq<SlotEntity>)
    requires i < |stacks| && k < |slots|
  {
    var stack := stacks[i];
    var e := slots[k];
    (stacks[i := stack.(isAssigned := true, relatedEntity := e.entity)],
     slots[k := e.(slot := e.slot.(isAssigned := true, item := stack.item, total := stack.total))])
  }

  /** One run of `ui_load_items`: bind the first unassigned stack to the first empty slot, if both exist. */
  function LoadItems(stacks: seq<ObjectStack>, slots: seq<SlotEntity>): (seq<ObjectStack>, seq<SlotEntity>)
  {
    match FirstUnassigned(stacks) {
      case None => (stacks, slots)
      case Some(i) =>
        match FirstEmptySlot(slots) {
          case None => (stacks, slots)
          case Some(k) => Bind(stacks, i, slots, k)
        }
    }
  }

  /** When every stack is already assigned, nothing changes. */
  lemma LoadAllAssigned(stacks: seq<ObjectStack>, slots: seq<SlotEntity>)
    requires forall j :: 0 <= j < |stacks| ==> stacks[j].isAssigned
    ensures LoadItems(stacks, slots) == (stacks, slots)
  {
  }

  /** When no slot is empty, nothing changes: the first unassigned stack stays unassigned for a later tick. */
  lemma LoadNoEmptySlot(stacks: seq<ObjectStack>, slots: seq<SlotEntity>)
    requires forall k :: 0 <= k < |slots| ==> slots[k].slot.item != Object.None
    ensures LoadItems(stacks, slots) == (stacks, slots)
    ensures FirstUnassigned(LoadItems(stacks, slots).0) == FirstUnassigned(stacks)
  {
  }

  /**
   * A bind touches only the first unassigned stack and the first empty
   * slot. The slot then holds the stack's item and total, both are flagged
   * as assigned, and the stack records the slot's entity. The slot's
   * entity, interaction and change flag stay as they were.
   */
  lemma LoadBinds(stacks: seq<ObjectStack>, slots: seq<SlotEntity>, i: nat, k: nat)
    requires FirstUnassigned(stacks) == Some(i) && FirstEmptySlot(slots) == Some(k)
    ensures var (stacks', slots') := LoadItems(stacks, slots);
            |stacks'| == |stacks| && |slots'| == |slots|
            && (forall j :: 0 <= j < |stacks| && j != i ==> stacks'[j] == stacks[j])
            && (forall j :: 0 <= j < |slots| && j != k ==> slots'[j] == slots[j])
            && slots'[k].slot.item == stacks[i].item && slots'[k].slot.total == stacks[i].total
            && slots'[k].slot.isAssigned && stacks'[i].isAssigned
            && stacks'[i].relatedEntity == slots[k].entity
            && stacks'[i].item == stacks[i].item && stacks'[i].total == stacks[i].total
            && slots'[k] == slots[k].(slot := slots'[k].slot) && slots'[k].slot.relatedEntity == slots[k].slot.relatedEntity
  {
  }

  /**
   * At most one stack is bound per run: the number of unassigned stacks
   * drops by exactly one when both searches succeed and stays put
   * otherwise, and the lengths never change.
   */
  lemma LoadBindsAtMostOne(stacks: seq<ObjectStack>, slots: seq<SlotEntity>)
    ensures var (stacks', slots') := LoadItems(stacks, slots);
            var bound := FirstUnassigned(stacks).Some? && FirstEmptySlot(slots).Some?;
            |stacks'| == |stacks| && |slots'| == |slots|
            && Count(stacks', Unassigned) + (if bound then 1 else 0) == Count(stacks, Unassigned)
  {
    match FirstUnassigned(stacks) {
      case None =>
      case Some(i) =>
        match FirstEmptySlot(slots) {
          case None =>
          case Some(k) =>
            var (stacks', _) := Bind(stacks, i, slots, k);
            CountUpdate(stacks, Unassigned, i, stacks'[i]);
        }
    }
  }

  /**
   * A bound slot stops being empty only when the stack's item is not
   * `Object::None`; a stack holding `Object::None` leaves its slot empty,
   * and the next run binds the next stack to that same slot.
   */
  lemma LoadFillsSlot(stacks: seq<ObjectStack>, slots: seq<SlotEntity>, i: nat, k: nat)
    requires FirstUnassigned(stacks) == Some(i) && FirstEmptySlot(slots) == Some(k)
    ensures var slots' := LoadItems(stacks, slots).1;
            Count(slots', EmptySlot) + (if stacks[i].item != Object.None then 1 else 0) == Count(slots, EmptySlot)
    ensures stacks[i].item == Object.None ==> FirstEmptySlot(LoadItems(stacks, slots).1) == Some(k)
  {
    var slots' := LoadItems(stacks, slots).1;
    CountUpdate(slots, EmptySlot, k, slots'[k]);
  }

  // ---------------------------------------------------------------------------
  // `can_player_interact` and `ui_slot_selection` as functions

  /** `interactions.iter().any(|i| *i != Interaction::None)`. */
  function AnyInteracting(interactions: seq<Interaction>): (r: bool)
    ensures r <==> exists j :: 0 <= j < |interactions| && interactions[j] != Interaction.None
  {
    if interactions == [] then false
    else interactions[0] != Interaction.None || AnyInteracting(interactions[1..])
  }

  /** A slot that selects: its interaction changed this tick and is now `Pressed`. */
  predicate Selects(e: SlotEntity)
  {
    e.changed && e.interaction == Pressed
  }

  /** The index of the last selecting slot, if any. */
  function LastSelecting(slots: seq<SlotEntity>): (r: Option<nat>)
    ensures r.None? <==> forall k :: 0 <= k < |slots| ==> !Selects(slots[k])
    ensures r.Some? ==> r.value < |slots| && Selects(slots[r.value])
                        && forall j :: r.value < j < |slots| ==> !Selects(slots[j])
  {
    if slots == [] then Option.None
    else if Selects(slots[|slots| - 1]) then Some(|slots| - 1)
    else LastSelecting(slots[..|slots| - 1])
  }

  /**
   * The selection after visiting `slots` in order, starting from `sel`:
   * the `(item, entity)` of the last selecting slot, or `sel` when no slot
   * selects.
   */
  function Selection(slots: seq<SlotEntity>, sel: (Object, Entity)): (Object, Entity)
  {
    match LastSelecting(slots) {
      case None => sel
      case Some(k) => (slots[k].slot.item, slots[k].entity)
    }
  }

  // ---------------------------------------------------------------------------
  // The UI resources and systems

  /**
   * The state the three systems read and write: the `PlayerInventory`
   * stacks, the inventory-slot entities, `CanPlayerBuild` and
   * `ObjectSelected`.
   */
  class GameUi {
    var stacks: seq<ObjectStack>
    var slots: seq<SlotEntity>
    var canBuild: bool
    var selectedObject: Object
    var selectedEntity: Entity

    /** The resources as the player plugin inserts them: building disabled, `Worker` selected on entity 0. */
    constructor (stacks: seq<ObjectStack>, slots: seq<SlotEntity>)
      ensures this.stacks == stacks && this.slots == slots
      ensures !canBuild && selectedObject == Worker && selectedEntity == 0
    {
      this.stacks, this.slots := stacks, slots;
      canBuild := false;
      selectedObject, selectedEntity := Worker, 0;
    }

    /** `can_player_interact`: building is enabled exactly when no button is pressed or hovered. */
    method CanPlayerInteract(interactions: seq<Interaction>)
      modifies this`canBuild
      ensures canBuild <==> forall j :: 0 <= j < |interactions| ==> interactions[j] == Interaction.None
    {
      canBuild := !AnyInteracting(interactions);
    }

    /**
     * `ui_slot_selection`: each slot whose interaction changed to `Pressed`
     * overwrites the selection with its item and entity, so the last one in
     * iteration order wins; nothing else changes.
     */
    method UiSlotSelection()
      modifies this`selectedObject, this`selectedEntity
      ensures (selectedObject, selectedEntity) == Selection(slots, (old(selectedObject), old(selectedEntity)))
    {
      var i := 0;
      while i < |slots|
        invariant 0 <= i <= |slots|
        invariant (selectedObject, selectedEntity) == Selection(slots[..i], (old(selectedObject), old(selectedEntity)))
      {
        var e := slots[i];
        if e.changed && e.interaction == Pressed {
          selectedObject, selectedEntity := e.slot.item, e.entity;
        }
        assert slots[..i + 1][..i] == slots[..i];
        i := i + 1;
      }
      assert slots[..i] == slots;
    }

    /**
     * `ui_load_items`: returns early when every stack is assigned;
     * otherwise binds the first unassigned stack to the first empty slot,
     * if there is one, updating both in place.
     */
    method UiLoadItems()
      modifies this`stacks, this`slots
      ensures (stacks, slots) == LoadItems(old(stacks), old(slots))
    {
      var i := FirstUnassigned(stacks);
      if i.None? {
        return;
      }
      var k := FirstEmptySlot(slots);
      if k.Some? {
        var stack := stacks[i.value];
        var e := slots[k.value];
        slots := slots[k.value := e.(slot := e.slot.(isAssigned := true, item := stack.item, total := stack.total))];
        stacks := stacks[i.value := stack.(isAssigned := true, relatedEntity := e.entity)];
      }
    }
  }
}
