/** The session store shared by every screen: current stage, inventory, dialogue log,
    transition flag and the reward-modal flags, with the operations that update them. */
module GameContext {
  import opened Wrappers
  import opened Items

  datatype Sender = Npc | User

  /** One chat turn (the clock string of the source is not modelled). */
  datatype Message = Message(sender: Sender, text: string)

  function NpcLine(text: string): Message { Message(Npc, text) }
  function UserLine(text: string): Message { Message(User, text) }

  /** A snapshot of the store's fields. */
  datatype GameState = GameState(
    currentStage: int,
    inventory: seq<Item>,
    isTransitioning: bool,
    dialogueHistory: seq<Message>,
    showItemModal: bool,
    newItem: Option<Item>)

  /** The store when the provider mounts. */
  function Initial(): (s: GameState)
    ensures s.currentStage == 1 && s.inventory == [] && s.dialogueHistory == []
    ensures !s.isTransitioning && !s.showItemModal && s.newItem == None
  {
    GameState(1, [], false, [], false, None)
  }

  /** `inventory.some(item => item.id === id)`. */
  function InventoryHas(inventory: seq<Item>, id: string): (r: bool)
    ensures r <==> exists i :: 0 <= i < |inventory| && inventory[i].id == id
  {
    if inventory == [] then false
    else inventory[0].id == id || InventoryHas(inventory[1..], id)
  }

  /** `addDialogue(m)`: `m` goes to the end of the log; earlier entries and every other field
      stay as they were. */
  function WithDialogue(s: GameState, m: Message): (r: GameState)
    ensures |r.dialogueHistory| == |s.dialogueHistory| + 1
    ensures r.dialogueHistory[..|s.dialogueHistory|] == s.dialogueHistory
    ensures r.dialogueHistory[|s.dialogueHistory|] == m
    ensures r.(dialogueHistory := s.dialogueHistory) == s
  {
    s.(dialogueHistory := s.dialogueHistory + [m])
  }

  /** `clearDialogue()`: only the log changes, and it becomes empty. */
  function DialogueCleared(s: GameState): (r: GameState)
    ensures r.dialogueHistory == []
    ensures r.(dialogueHistory := s.dialogueHistory) == s
  {
    s.(dialogueHistory := [])
  }

  /** `addItemToInventory(item)`: appended without any duplicate check, announced in the
      modal; afterwards the item is owned. */
  function WithItem(s: GameState, item: Item): (r: GameState)
    ensures r.inventory == s.inventory + [item]
    ensures InventoryHas(r.inventory, item.id)
    ensures r.newItem == Some(item) && r.showItemModal
    ensures r.currentStage == s.currentStage && r.isTransitioning == s.isTransitioning
    ensures r.dialogueHistory == s.dialogueHistory
  {
    var inventory := s.inventory + [item];
    assert inventory[|s.inventory|].id == item.id;
    s.(inventory := inventory, newItem := Some(item), showItemModal := true)
  }

  /** `closeItemModal()`: hides the modal and forgets the announced item; the inventory and
      everything else stay. */
  function ModalClosed(s: GameState): (r: GameState)
    ensures !r.showItemModal && r.newItem == None
    ensures r.(showItemModal := s.showItemModal, newItem := s.newItem) == s
  {
    s.(showItemModal := false, newItem := None)
  }

  /** `goToNextStage()`: only raises the transition flag. */
  function TransitionStarted(s: GameState): (r: GameState)
    ensures r.isTransitioning
    ensures r.(isTransitioning := s.isTransitioning) == s
  {
    s.(isTransitioning := true)
  }

  /** `completeTransition()`: lowers the flag, moves to the following stage and empties the
      log; inventory and modal flags stay. */
  function TransitionCompleted(s: GameState): (r: GameState)
    ensures !r.isTransitioning && r.currentStage == s.currentStage + 1 && r.dialogueHistory == []
    ensures r.inventory == s.inventory
    ensures r.showItemModal == s.showItemModal && r.newItem == s.newItem
  {
    s.(isTransitioning := false, currentStage := s.currentStage + 1, dialogueHistory := [])
  }

  /** Adding the same item twice keeps two copies: the store does not deduplicate. */
  lemma NoDeduplication(s: GameState, item: Item)
    ensures |WithItem(WithItem(s, item), item).inventory| == |s.inventory| + 2
  {
  }

  /** No store operation takes an item away: once owned, an id stays owned whatever the
      store does next, so a check such as `hasItem('magnifier')` never turns false again. */
  lemma OwnershipKept(s: GameState, id: string, m: Message, item: Item)
    requires InventoryHas(s.inventory, id)
    ensures InventoryHas(WithDialogue(s, m).inventory, id)
    ensures InventoryHas(DialogueCleared(s).inventory, id)
    ensures InventoryHas(WithItem(s, item).inventory, id)
    ensures InventoryHas(ModalClosed(s).inventory, id)
    ensures InventoryHas(TransitionStarted(s).inventory, id)
    ensures InventoryHas(TransitionCompleted(s).inventory, id)
  {
    var i :| 0 <= i < |s.inventory| && s.inventory[i].id == id;
    assert WithItem(s, item).inventory[i] == s.inventory[i];
  }

  /** The provider's state. Each method is specified by the transition function above. */
  class Session {
    var currentStage: int
    var inventory: seq<Item>
    var isTransitioning: bool
    var dialogueHistory: seq<Message>
    var showItemModal: bool
    var newItem: Option<Item>

    function State(): GameState
      reads this
    {
      GameState(currentStage, inventory, isTransitioning, dialogueHistory, showItemModal, newItem)
    }

    constructor ()
      ensures State() == Initial()
    {
      currentStage, inventory, isTransitioning := 1, [], false;
      dialogueHistory, showItemModal, newItem := [], false, None;
    }

    method AddDialogue(m: Message)
      modifies this
      ensures State() == WithDialogue(old(State()), m)
    {
      dialogueHistory := dialogueHistory + [m];
    }

    method ClearDialogue()
      modifies this
      ensures State() == DialogueCleared(old(State()))
    {
      dialogueHistory := [];
    }

    method AddItemToInventory(item: Item)
      modifies this
      ensures State() == WithItem(old(State()), item)
    {
      inventory := inventory + [item];
      newItem := Some(item);
      showItemModal := true;
    }

    method CloseItemModal()
      modifies this
      ensures State() == ModalClosed(old(State()))
    {
      showItemModal := false;
      newItem := None;
    }

    method GoToNextStage()
      modifies this
      ensures State() == TransitionStarted(old(State()))
    {
      isTransitioning := true;
    }

    method CompleteTransition()
      modifies this
      ensures State() == TransitionCompleted(old(State()))
    {
      isTransitioning := false;
      currentStage := currentStage + 1;
      ClearDialogue();
    }

    /** `hasItem(id)`: some inventory entry carries `id`. */
    function HasItem(id: string): (r: bool)
      reads this
      ensures r <==> exists i :: 0 <= i < |inventory| && inventory[i].id == id
    {
      InventoryHas(inventory, id)
    }
  }
}
