/** The vision processor's frame step: the simulated tracker output for one
    frame and the reconciliation of an inventory snapshot against it. */
module VisionProcessor {
  import opened Wrappers
  import opened Inventory
  import Decimal

  /** A transaction as the vision processor records it: the item id is its
      decimal text and the quantity is the magnitude of the change. */
  datatype FrameTransaction = FrameTransaction(
    itemId: string,
    itemName: string,
    timestamp: string,
    action: string,
    quantityChange: int)

  /** The new snapshot and the (at most one) transaction of a frame. */
  datatype FrameResult = FrameResult(state: Inventory, transaction: Option<FrameTransaction>)

  // ---------------------------------------------------------------------------
  // Reconciliation
  // ---------------------------------------------------------------------------

  /** `tracked_ids.count(id)`: how often `id` was observed. */
  function Count(tracked: seq<int>, id: int): (n: nat)
    ensures n == multiset(tracked)[id]
  {
    if |tracked| == 0 then 0
    else
      assert tracked == [tracked[0]] + tracked[1..];
      (if tracked[0] == id then 1 else 0) + Count(tracked[1..], id)
  }

  /** The observed count of an item differs from its stored stock. */
  predicate Changed(e: Entry, tracked: seq<int>) {
    Count(tracked, e.id) != e.item.currentStock
  }

  /** One item after the frame: reset to its observed count with a fresh alert
      when the count differs, the very same record otherwise. */
  function ReconcileEntry(e: Entry, tracked: seq<int>): Entry {
    if Changed(e, tracked) then WithStock(e, Count(tracked, e.id)) else e
  }

  /** The transaction recorded for a changed item. */
  function TransactionFor(e: Entry, tracked: seq<int>, timestamp: string): FrameTransaction {
    var change := Count(tracked, e.id) - e.item.currentStock;
    FrameTransaction(
      Decimal.IntText(e.id),
      e.item.name,
      timestamp,
      if change > 0 then ADDED else REMOVED,
      if change < 0 then -change else change)
  }

  /** Position of the first item, in iteration order, whose count changed. */
  function FirstChanged(state: Inventory, tracked: seq<int>): (r: Option<nat>)
    ensures r.None? <==> forall i :: 0 <= i < |state| ==> !Changed(state[i], tracked)
    ensures r.Some? ==> r.value < |state| && Changed(state[r.value], tracked)
    ensures r.Some? ==> forall j :: 0 <= j < r.value ==> !Changed(state[j], tracked)
  {
    if |state| == 0 then None
    else if Changed(state[0], tracked) then Some(0)
    else
      match FirstChanged(state[1..], tracked)
      case None => None
      case Some(k) => Some(k + 1)
  }

  /** `process_frame_update`: every known item's stock becomes the number of
      times its id was observed, and only the first changed item is logged. */
  function ProcessFrameUpdate(state: Inventory, tracked: seq<int>, timestamp: string): (r: FrameResult)
    ensures SameCatalog(state, r.state)
  {
    var newState := seq(|state|, i requires 0 <= i < |state| => ReconcileEntry(state[i], tracked));
    var transaction :=
      match FirstChanged(state, tracked)
      case None => None
      case Some(k) => Some(TransactionFor(state[k], tracked, timestamp));
    FrameResult(newState, transaction)
  }

  /** What a reconciliation means: keys, names and minimums are kept; every
      stock becomes the id's observed multiplicity; items whose count did not
      change keep their whole record, stale alert included; changed items get
      the alert for their new stock; and a transaction exists exactly when
      something changed, describing the first changed item's change. */
  lemma FrameUpdateMeaning(state: Inventory, tracked: seq<int>, timestamp: string)
    ensures var r := ProcessFrameUpdate(state, tracked, timestamp);
            && SameCatalog(state, r.state)
            && (forall i :: 0 <= i < |state| ==> r.state[i].item.currentStock == multiset(tracked)[state[i].id])
            && (forall i :: 0 <= i < |state| && multiset(tracked)[state[i].id] == state[i].item.currentStock ==>
                  r.state[i] == state[i])
            && (forall i :: 0 <= i < |state| && multiset(tracked)[state[i].id] != state[i].item.currentStock ==>
                  r.state[i].item.alert == AlertFor(r.state[i].item.currentStock, state[i].item.minStock))
            && (r.transaction.None? <==>
                  forall i :: 0 <= i < |state| ==> multiset(tracked)[state[i].id] == state[i].item.currentStock)
    ensures var t := ProcessFrameUpdate(state, tracked, timestamp).transaction;
            t.Some? ==>
              exists k :: 0 <= k < |state| && FirstChangeAt(state, tracked, k)
                && t.value.itemId == Decimal.IntText(state[k].id)
                && t.value.itemName == state[k].item.name
                && t.value.timestamp == timestamp
                && (t.value.action == ADDED <==> multiset(tracked)[state[k].id] > state[k].item.currentStock)
                && (t.value.action == REMOVED <==> multiset(tracked)[state[k].id] < state[k].item.currentStock)
                && t.value.quantityChange > 0
                && (t.value.quantityChange == multiset(tracked)[state[k].id] - state[k].item.currentStock
                    || t.value.quantityChange == state[k].item.currentStock - multiset(tracked)[state[k].id])
  {
  }

  /** Item `k` is the first one, in iteration order, whose count changed. */
  predicate FirstChangeAt(state: Inventory, tracked: seq<int>, k: nat)
    requires k < |state|
  {
    && multiset(tracked)[state[k].id] != state[k].item.currentStock
    && forall j :: 0 <= j < k ==> multiset(tracked)[state[j].id] == state[j].item.currentStock
  }

  /** Reconciling a snapshot again against the same observation changes
      nothing and records nothing. */
  lemma ReconcileIdempotent(state: Inventory, tracked: seq<int>, t1: string, t2: string)
    ensures var once := ProcessFrameUpdate(state, tracked, t1).state;
            ProcessFrameUpdate(once, tracked, t2) == FrameResult(once, None)
  {
    var once := ProcessFrameUpdate(state, tracked, t1).state;
    var twice := ProcessFrameUpdate(once, tracked, t2);
    assert twice.state == once;
  }

  /** Reconciliation keeps the keys distinct, always yields non-negative stock,
      and keeps the alerts consistent when they were consistent before. */
  lemma ReconcileInvariants(state: Inventory, tracked: seq<int>, timestamp: string)
    ensures var r := ProcessFrameUpdate(state, tracked, timestamp).state;
            && (UniqueIds(state) ==> UniqueIds(r))
            && NonNegativeStock(r)
            && (AlertsConsistent(state) ==> AlertsConsistent(r))
  {
  }

  // ---------------------------------------------------------------------------
  // Simulated tracker output
  // ---------------------------------------------------------------------------

  datatype SimAction = SimAdd | SimRemove

  /** The random draws of one simulated frame: either no change event, or an
      event with its action and the draw `pick` that chooses the target key. */
  datatype SimEvent = NoEvent | ChangeEvent(action: SimAction, pick: nat)

  /** Choosing a target among no keys fails (`random.choice` on an empty list). */
  datatype SimError = EmptyChoice

  /** `[id] * n`: `n` copies of `id`, none when `n` is not positive. */
  function Repeat(id: int, n: int): (r: seq<int>)
    ensures multiset(r)[id] == if n > 0 then n else 0
    ensures forall x :: x != id ==> multiset(r)[x] == 0
    decreases n
  {
    if n <= 0 then [] else Repeat(id, n - 1) + [id]
  }

  /** One copy of each id per unit of its current stock, in insertion order. */
  function PresentIds(state: Inventory): (r: seq<int>)
    ensures forall x :: x in r ==> x in Ids(state)
  {
    if |state| == 0 then []
    else
      var rest := PresentIds(state[1..]);
      assert forall x :: x in rest ==> x in Ids(state) by {
        forall x | x in rest ensures x in Ids(state) {
          var j :| 0 <= j < |state[1..]| && Ids(state[1..])[j] == x;
          assert Ids(state)[j + 1] == x;
        }
      }
      var head := Repeat(state[0].id, state[0].item.currentStock);
      assert forall x :: x in head ==> x in Ids(state) by {
        forall x | x in head ensures x in Ids(state) {
          assert x in multiset(head);
          assert Ids(state)[0] == x;
        }
      }
      head + rest
  }

  /** `list.remove(x)`: drop the first occurrence of `x`. */
  function RemoveFirst(s: seq<int>, x: int): (r: seq<int>)
    requires x in s
    ensures multiset(r) == multiset(s) - multiset{x}
  {
    assert s == [s[0]] + s[1..];
    if s[0] == x then s[1..] else [s[0]] + RemoveFirst(s[1..], x)
  }

  /** The target key a change event picks. */
  function Target(state: Inventory, pick: nat): int
    requires |state| > 0
  {
    state[pick % |state|].id
  }

  /** `generate_simulated_tracked_objects` with its random draws as `event`. */
  function GenerateSimulatedTrackedObjects(state: Inventory, event: SimEvent): (r: Result<seq<int>, SimError>)
    ensures r.Failure? <==> event.ChangeEvent? && |state| == 0
  {
    var present := PresentIds(state);
    match event
    case NoEvent => Success(present)
    case ChangeEvent(action, pick) =>
      if |state| == 0 then Failure(EmptyChoice)
      else
        var target := Target(state, pick);
        if action == SimAdd then Success(present + [target])
        else if target in present then Success(RemoveFirst(present, target))
        else Success(present)
  }

  /** Stock an item contributes to the simulated frame: its stock, or none
      when the stock is not positive or the key is unknown. */
  function ExpectedCount(state: Inventory, x: int): nat {
    match IndexOf(state, x)
    case None => 0
    case Some(k) => if state[k].item.currentStock > 0 then state[k].item.currentStock else 0
  }

  lemma {:induction false} PresentIdsCount(state: Inventory, x: int)
    requires UniqueIds(state)
    ensures multiset(PresentIds(state))[x] == ExpectedCount(state, x)
  {
    if |state| > 0 {
      var rest := state[1..];
      assert UniqueIds(rest);
      PresentIdsCount(rest, x);
      if state[0].id == x {
        assert x !in Ids(rest) by {
          forall i | 0 <= i < |rest| ensures rest[i].id != x {
            assert rest[i] == state[i + 1];
          }
        }
      } else {
        match IndexOf(rest, x)
        case None =>
        case Some(k) =>
          assert IndexOf(state, x) == Some(k + 1);
      }
    }
  }

  /** With no change event each known id is observed exactly as often as its
      (non-negative) stock; an ADD raises the target's count by one, a REMOVE
      lowers it by one only when the target is present; unknown ids are never
      observed. */
  lemma SimulatedFrameCounts(state: Inventory, event: SimEvent, x: int)
    requires UniqueIds(state)
    requires GenerateSimulatedTrackedObjects(state, event).Success?
    ensures var n := multiset(GenerateSimulatedTrackedObjects(state, event).value)[x];
            && (event.NoEvent? ==> n == ExpectedCount(state, x))
            && (event.ChangeEvent? && x != Target(state, event.pick) ==> n == ExpectedCount(state, x))
            && (event.ChangeEvent? && x == Target(state, event.pick) && event.action == SimAdd ==>
                  n == ExpectedCount(state, x) + 1)
            && (event.ChangeEvent? && x == Target(state, event.pick) && event.action == SimRemove ==>
                  n == if ExpectedCount(state, x) > 0 then ExpectedCount(state, x) - 1 else 0)
  {
    var present := PresentIds(state);
    var tracked := GenerateSimulatedTrackedObjects(state, event).value;
    PresentIdsCount(state, x);
    match event
    case NoEvent =>
      assert tracked == present;
    case ChangeEvent(action, pick) =>
      var target := Target(state, pick);
      PresentIdsCount(state, target);
      if action == SimAdd {
        assert tracked == present + [target];
      } else if target in present {
        assert tracked == RemoveFirst(present, target);
      } else {
        assert tracked == present;
      }
  }

  /** The entry a ±1 change leaves behind: stock moved by `delta`, alert redone. */
  function Stepped(e: Entry, delta: int): Entry {
    WithStock(e, e.item.currentStock + delta)
  }

  /** When no item's count changed, reconciliation returns the snapshot as is. */
  lemma NothingChanged(state: Inventory, tracked: seq<int>, timestamp: string)
    requires forall i :: 0 <= i < |state| ==> !Changed(state[i], tracked)
    ensures ProcessFrameUpdate(state, tracked, timestamp) == FrameResult(state, None)
  {
    assert ProcessFrameUpdate(state, tracked, timestamp).state == state;
  }

  /** When exactly item `k` changed, only it is rewritten and it is the one logged. */
  lemma OnlyOneChanged(state: Inventory, tracked: seq<int>, timestamp: string, k: nat)
    requires k < |state|
    requires Changed(state[k], tracked)
    requires forall i :: 0 <= i < |state| && i != k ==> !Changed(state[i], tracked)
    ensures ProcessFrameUpdate(state, tracked, timestamp)
            == FrameResult(state[k := WithStock(state[k], Count(tracked, state[k].id))],
                           Some(TransactionFor(state[k], tracked, timestamp)))
  {
    assert FirstChanged(state, tracked) == Some(k);
    assert ProcessFrameUpdate(state, tracked, timestamp).state
           == state[k := WithStock(state[k], Count(tracked, state[k].id))];
  }

  /** In a simulated frame, every item other than the event's target is
      observed exactly as often as its stock. */
  lemma OthersUnchanged(state: Inventory, event: SimEvent)
    requires UniqueIds(state)
    requires NonNegativeStock(state)
    requires GenerateSimulatedTrackedObjects(state, event).Success?
    ensures var tracked := GenerateSimulatedTrackedObjects(state, event).value;
            forall i :: 0 <= i < |state| && (event.NoEvent? || i != event.pick % |state|) ==>
              !Changed(state[i], tracked)
  {
    var tracked := GenerateSimulatedTrackedObjects(state, event).value;
    forall i | 0 <= i < |state| && (event.NoEvent? || i != event.pick % |state|)
      ensures !Changed(state[i], tracked)
    {
      IndexOfUnique(state, i);
      SimulatedFrameCounts(state, event, state[i].id);
    }
  }

  /** In a simulated frame with a change event on the item at position `k`,
      an ADD observes the target once more than its stock, a REMOVE once less
      when its stock is positive, and a REMOVE on an empty item exactly its
      stock. */
  lemma SimulatedTargetCount(state: Inventory, event: SimEvent, k: nat)
    requires UniqueIds(state)
    requires NonNegativeStock(state)
    requires event.ChangeEvent? && |state| > 0 && k == event.pick % |state|
    ensures var n := Count(GenerateSimulatedTrackedObjects(state, event).value, state[k].id);
            var stock := state[k].item.currentStock;
            n == if event.action == SimAdd then stock + 1 else if stock > 0 then stock - 1 else stock
  {
    IndexOfUnique(state, k);
    SimulatedFrameCounts(state, event, state[k].id);
  }

  /** A simulated frame without a change event reconciles to the same
      snapshot, with no transaction. */
  lemma SimulatedQuietCycle(state: Inventory, timestamp: string)
    requires UniqueIds(state)
    requires NonNegativeStock(state)
    ensures var tracked := GenerateSimulatedTrackedObjects(state, NoEvent).value;
            ProcessFrameUpdate(state, tracked, timestamp) == FrameResult(state, None)
  {
    var tracked := GenerateSimulatedTrackedObjects(state, NoEvent).value;
    OthersUnchanged(state, NoEvent);
    NothingChanged(state, tracked, timestamp);
  }

  /** A simulated frame with a change event on a stocked target, or with an
      ADD, reconciles to the snapshot with only the target moved by one, and
      records exactly that move with quantity 1. */
  lemma SimulatedMoveCycle(state: Inventory, event: SimEvent, timestamp: string)
    requires UniqueIds(state)
    requires NonNegativeStock(state)
    requires event.ChangeEvent? && |state| > 0
    requires event.action == SimAdd || state[event.pick % |state|].item.currentStock > 0
    ensures var tracked := GenerateSimulatedTrackedObjects(state, event).value;
            var k := event.pick % |state|;
            var e := state[k];
            var delta := if event.action == SimAdd then 1 else -1;
            ProcessFrameUpdate(state, tracked, timestamp)
            == FrameResult(state[k := Stepped(e, delta)],
                           Some(FrameTransaction(Decimal.IntText(e.id), e.item.name, timestamp,
                                                 if delta > 0 then ADDED else REMOVED, 1)))
  {
    var tracked := GenerateSimulatedTrackedObjects(state, event).value;
    var k := event.pick % |state|;
    OthersUnchanged(state, event);
    SimulatedTargetCount(state, event, k);
    OnlyOneChanged(state, tracked, timestamp, k);
  }

  /** A simulated REMOVE aimed at an item with no stock reconciles to the same
      snapshot, with no transaction. */
  lemma SimulatedEmptyRemoveCycle(state: Inventory, pick: nat, timestamp: string)
    requires UniqueIds(state)
    requires NonNegativeStock(state)
    requires |state| > 0 && state[pick % |state|].item.currentStock == 0
    ensures var tracked := GenerateSimulatedTrackedObjects(state, ChangeEvent(SimRemove, pick)).value;
            ProcessFrameUpdate(state, tracked, timestamp) == FrameResult(state, None)
  {
    var event := ChangeEvent(SimRemove, pick);
    var tracked := GenerateSimulatedTrackedObjects(state, event).value;
    OthersUnchanged(state, event);
    SimulatedTargetCount(state, event, pick % |state|);
    NothingChanged(state, tracked, timestamp);
  }

  // ---------------------------------------------------------------------------
  // The configured snapshot
  // ---------------------------------------------------------------------------

  /** The snapshot the processor starts from when no state was saved: the
      configured items, each with alert "OK". */
  const DefaultState: Inventory := [
    Entry(1, Item("Laptop Box", 2, 5, Ok)),
    Entry(2, Item("Accessory Kit", 5, 10, Ok)),
    Entry(3, Item("Monitor Stand", 1, 3, Ok))
  ]

  /** A frame that sees three laptop boxes, one kit and no monitor stand:
      all three items are reset (the kit going LOW and the stand CRITICAL),
      but only the first change, the laptop boxes' fall by two, is recorded. */
  lemma OnlyFirstChangeRecorded(timestamp: string)
    ensures var r := ProcessFrameUpdate(DefaultState, [2, 1, 1, 1], timestamp);
            && r.state == [
                 Entry(1, Item("Laptop Box", 2, 3, Ok)),
                 Entry(2, Item("Accessory Kit", 5, 1, Low)),
                 Entry(3, Item("Monitor Stand", 1, 0, Critical))
               ]
            && r.transaction == Some(FrameTransaction("1", "Laptop Box", timestamp, REMOVED, 2))
  {
    var tracked := [2, 1, 1, 1];
    assert Count(tracked, 1) == 3;
    assert Count(tracked, 2) == 1;
    assert Count(tracked, 3) == 0;
    assert FirstChanged(DefaultState, tracked) == Some(0);
    assert Decimal.IntText(1) == "1";
  }
}
