/** The API service's in-memory simulation: one random stock event applied to
    the inventory and appended to the transaction history, and the reads the
    service exposes. */
module AppApi {
  import opened Wrappers
  import opened Inventory

  /** The action drawn for a frame: "ADD", "REMOVE" or "NONE". */
  datatype Command = Add | Remove | NoCommand {
    function Name(): string {
      match this
      case Add => "ADD"
      case Remove => "REMOVE"
      case NoCommand => "NONE"
    }
  }

  /** A transaction as the API service records it: the id stays an integer
      and the quantity carries the sign of the change. */
  datatype Transaction = Transaction(
    itemId: int,
    itemName: string,
    timestamp: string,
    action: string,
    quantityChange: int)

  /** The service's global state: the inventory mapping and the history. */
  datatype ApiState = ApiState(db: Inventory, history: seq<Transaction>)

  /** Looking up a key the inventory does not hold (a `KeyError`). */
  datatype StepError = UnknownItem(id: int)

  /** The configured items, each starting with alert "OK". */
  const InitialInventory: Inventory := [
    Entry(1, Item("Laptop Box", 2, 5, Ok)),
    Entry(2, Item("Accessory Kit", 5, 10, Ok)),
    Entry(3, Item("Monitor Stand", 1, 3, Ok))
  ]

  /** The ids a frame's target is drawn from: every configured key, twice. */
  const SimulatedDetectedIds: seq<int> := Ids(InitialInventory) + Ids(InitialInventory)

  const InitialState: ApiState := ApiState(InitialInventory, [])

  /** How many transactions the history read returns. */
  const HistoryWindow: nat := 10

  /** The change a fired command makes to an item at `stock`: +1 for ADD, -1
      for REMOVE, and none for a REMOVE at or below zero stock. */
  function ChangeFor(command: Command, stock: int): (c: int)
    requires command != NoCommand
    ensures c == 0 <==> command.Remove? && stock <= 0
    ensures c != 0 ==> (c == 1 <==> command.Add?) && (c == -1 <==> command.Remove?)
    ensures stock >= 0 ==> stock + c >= 0
  {
    var change := if command.Add? then 1 else -1;
    if command.Remove? && stock <= 0 then 0 else change
  }

  /** The action text exactly as the source builds it: the command's name
      followed by "ED". */
  function ActionTextAsWritten(command: Command): (t: string)
    requires command != NoCommand
    ensures t == ADDED <==> command.Add?
    ensures t != REMOVED
  {
    command.Name() + "ED"
  }

  /** Appending "ED" gives "ADDED" for an ADD but "REMOVEED" for a REMOVE, so
      the text recorded for a removal is not the "REMOVED" the rest of the
      system uses. */
  lemma RemovalTextAsWritten()
    ensures ActionTextAsWritten(Add) == ADDED
    ensures ActionTextAsWritten(Remove) == "REMOVEED"
    ensures ActionTextAsWritten(Remove) != REMOVED
  {
  }

  /** The action text the record is meant to carry: "ADDED" for an ADD,
      "REMOVED" for a REMOVE; it agrees with the text as written on ADD. */
  function ActionText(command: Command): (t: string)
    requires command != NoCommand
    ensures t == ADDED <==> command == Add
    ensures t == REMOVED <==> command == Remove
    ensures command == Add ==> t == ActionTextAsWritten(command)
  {
    assert |ADDED| != |REMOVED|;
    if command.Add? then ADDED else REMOVED
  }

  /** `process_vision_frame` with its draws as parameters: the target id, the
      command, and whether the 30% chance fired. */
  function ProcessVisionFrame(s: ApiState, target: int, command: Command, fire: bool, timestamp: string)
    : (r: Result<ApiState, StepError>)
    ensures r.Failure? <==> command != NoCommand && fire && target !in Ids(s.db)
    ensures r.Failure? ==> r.error == UnknownItem(target)
    ensures r.Success? ==> SameCatalog(s.db, r.value.db)
    ensures r.Success? ==> forall i :: 0 <= i < |s.db| && s.db[i].id != target ==> r.value.db[i] == s.db[i]
    ensures r.Success? ==> forall i :: 0 <= i < |s.db| ==>
              -1 <= r.value.db[i].item.currentStock - s.db[i].item.currentStock <= 1
    ensures r.Success? ==> forall i :: 0 <= i < |s.db| && r.value.db[i].item.currentStock < s.db[i].item.currentStock ==>
              r.value.db[i].item.currentStock >= 0
    ensures r.Success? ==> r.value == s || (r.value.db != s.db && |r.value.history| == |s.history| + 1
                                            && r.value.history[..|s.history|] == s.history)
    ensures command == NoCommand || !fire ==> r == Success(s)
    ensures r.Success? && command != NoCommand && fire ==>
              var k := IndexOf(s.db, target).value;
              r.value.db[k].item.currentStock
              == s.db[k].item.currentStock + ChangeFor(command, s.db[k].item.currentStock)
  {
    if command == NoCommand || !fire then Success(s)
    else
      match IndexOf(s.db, target)
      case None => Failure(UnknownItem(target))
      case Some(k) =>
        var entry := s.db[k];
        var change := ChangeFor(command, entry.item.currentStock);
        if change == 0 then Success(s)
        else Success(ApplyChange(s, k, change, ActionText(command), timestamp))
  }

  /** The item at position `k` moved by a non-zero `change`, with its alert
      recomputed, and the matching transaction appended to the history. */
  function ApplyChange(s: ApiState, k: nat, change: int, action: string, timestamp: string): (r: ApiState)
    requires k < |s.db|
    requires change != 0
    ensures SameCatalog(s.db, r.db)
    ensures forall i :: 0 <= i < |s.db| && i != k ==> r.db[i] == s.db[i]
    ensures r.db[k].item.currentStock == s.db[k].item.currentStock + change
    ensures r.db[k].item.alert == AlertFor(r.db[k].item.currentStock, s.db[k].item.minStock)
    ensures r.history == s.history + [Transaction(s.db[k].id, s.db[k].item.name, timestamp, action, change)]
  {
    var entry := s.db[k];
    var updated := WithStock(entry, entry.item.currentStock + change);
    ApiState(s.db[k := updated], s.history + [Transaction(entry.id, entry.item.name, timestamp, action, change)])
  }

  /** A step changes the target's stock exactly when a command fired on a
      known item and it is an ADD or a REMOVE on positive stock; the new
      transaction then names that item, carries the signed change, and its
      action text matches the sign: +1 and "ADDED" for an ADD, -1 and
      "REMOVED" for a REMOVE. */
  lemma StepTransaction(s: ApiState, target: int, command: Command, fire: bool, timestamp: string)
    requires ProcessVisionFrame(s, target, command, fire, timestamp).Success?
    ensures var r := ProcessVisionFrame(s, target, command, fire, timestamp).value;
            var applied := command != NoCommand && fire && target in Ids(s.db)
                           && (command == Add || s.db[IndexOf(s.db, target).value].item.currentStock > 0);
            && (|r.history| == |s.history| + 1 <==> applied)
            && (!applied ==> r == s)
            && (applied ==>
                  var k := IndexOf(s.db, target).value;
                  var t := r.history[|s.history|];
                  && t.itemId == target
                  && t.itemName == s.db[k].item.name
                  && t.timestamp == timestamp
                  && (t.action == ADDED <==> t.quantityChange == 1)
                  && (t.action == REMOVED <==> t.quantityChange == -1)
                  && (t.quantityChange == 1 || t.quantityChange == -1)
                  && (command == Add ==> t.quantityChange == 1)
                  && (command == Remove ==> t.quantityChange == -1)
                  && r.db[k].item.currentStock == s.db[k].item.currentStock + t.quantityChange
                  && r.db[k].item.alert == AlertFor(r.db[k].item.currentStock, s.db[k].item.minStock))
  {
  }

  /** A step keeps the keys distinct, never creates negative stock, and keeps
      every alert consistent with its stock. */
  lemma StepInvariants(s: ApiState, target: int, command: Command, fire: bool, timestamp: string)
    requires ProcessVisionFrame(s, target, command, fire, timestamp).Success?
    ensures var r := ProcessVisionFrame(s, target, command, fire, timestamp).value;
            && (UniqueIds(s.db) ==> UniqueIds(r.db))
            && (NonNegativeStock(s.db) ==> NonNegativeStock(r.db))
            && (AlertsConsistent(s.db) ==> AlertsConsistent(r.db))
  {
  }

  /** `transaction_history[-10:]`: the most recent entries, oldest first. */
  function GetTransactionHistory(s: ApiState): (r: seq<Transaction>)
    ensures |r| == if |s.history| < HistoryWindow then |s.history| else HistoryWindow
    ensures s.history == s.history[..|s.history| - |r|] + r
  {
    if |s.history| <= HistoryWindow then s.history else s.history[|s.history| - HistoryWindow..]
  }

  /** After one more append, the read is the previous read plus the new entry,
      with the oldest one dropped once the window is full. */
  lemma HistoryWindowSlides(s: ApiState, t: Transaction)
    ensures var before := GetTransactionHistory(s);
            var after := GetTransactionHistory(s.(history := s.history + [t]));
            after == if |before| < HistoryWindow then before + [t] else before[1..] + [t]
  {
    var h := s.history;
    var h' := h + [t];
    var before := GetTransactionHistory(s);
    var after := GetTransactionHistory(s.(history := h'));
    if |h| >= HistoryWindow {
      assert before == h[|h| - HistoryWindow..];
      assert after == h'[|h'| - HistoryWindow..];
      assert after == before[1..] + [t];
    }
  }

  /** `get_inventory_status`: run one frame, then list every record in key
      order. */
  function GetInventoryStatus(s: ApiState, target: int, command: Command, fire: bool, timestamp: string)
    : (r: Result<(ApiState, seq<Entry>), StepError>)
    ensures r.Success? <==> ProcessVisionFrame(s, target, command, fire, timestamp).Success?
    ensures r.Success? ==> r.value.0 == ProcessVisionFrame(s, target, command, fire, timestamp).value
    ensures r.Success? ==> r.value.1 == r.value.0.db && SameCatalog(s.db, r.value.1)
  {
    match ProcessVisionFrame(s, target, command, fire, timestamp)
    case Failure(e) => Failure(e)
    case Success(next) => Success((next, next.db))
  }

  /** The draws of one frame. */
  datatype Draw = Draw(target: int, command: Command, fire: bool, timestamp: string)

  /** A sequence of frames, stopping at the first error. */
  function Run(s: ApiState, draws: seq<Draw>): Result<ApiState, StepError>
    decreases |draws|
  {
    if |draws| == 0 then Success(s)
    else
      var d := draws[0];
      match ProcessVisionFrame(s, d.target, d.command, d.fire, d.timestamp)
      case Failure(e) => Failure(e)
      case Success(next) => Run(next, draws[1..])
  }

  /** The states a run keeps: the configured catalogue, non-negative stock,
      consistent alerts. */
  predicate Healthy(s: ApiState) {
    && SameCatalog(InitialInventory, s.db)
    && NonNegativeStock(s.db)
    && AlertsConsistent(s.db)
  }

  /** One frame from a healthy state with a target from the detected-id list
      succeeds and stays healthy. */
  lemma StepHealthy(s: ApiState, d: Draw)
    requires Healthy(s)
    requires d.target in SimulatedDetectedIds
    ensures ProcessVisionFrame(s, d.target, d.command, d.fire, d.timestamp).Success?
    ensures Healthy(ProcessVisionFrame(s, d.target, d.command, d.fire, d.timestamp).value)
  {
    assert d.target in Ids(s.db);
    StepInvariants(s, d.target, d.command, d.fire, d.timestamp);
  }

  /** Starting from a healthy state (the configured inventory is one), and with
      every target drawn from the detected-id list, no frame ever fails to find
      its item, the catalogue never changes, stock never goes negative, alerts
      always match their stock, and the history only grows, by at most one
      entry per frame. */
  lemma {:induction false} RunFromHealthy(s: ApiState, draws: seq<Draw>)
    requires Healthy(s)
    requires forall i :: 0 <= i < |draws| ==> draws[i].target in SimulatedDetectedIds
    ensures Run(s, draws).Success?
    ensures Healthy(Run(s, draws).value)
    ensures |s.history| <= |Run(s, draws).value.history| <= |s.history| + |draws|
    ensures Run(s, draws).value.history[..|s.history|] == s.history
    decreases |draws|
  {
    if |draws| > 0 {
      var d := draws[0];
      StepHealthy(s, d);
      var next := ProcessVisionFrame(s, d.target, d.command, d.fire, d.timestamp).value;
      RunFromHealthy(next, draws[1..]);
      var final := Run(next, draws[1..]).value;
      assert final.history[..|s.history|] == final.history[..|next.history|][..|s.history|];
    }
  }

  lemma InitialStateHealthy()
    ensures Healthy(InitialState)
  {
  }
}
