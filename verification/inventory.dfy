/** Inventory records shared by the vision processor and the API service: an
    item's catalogue data, its stock and alert tier, and the alert rule both
    files apply after a stock change. */
module Inventory {
  import opened Wrappers

  /** Alert tier of an item: "OK", "LOW" or "CRITICAL". */
  datatype AlertStatus = Ok | Low | Critical

  /** How serious a tier is: OK < LOW < CRITICAL. */
  function Severity(a: AlertStatus): nat {
    match a
    case Ok => 0
    case Low => 1
    case Critical => 2
  }

  /** The alert rule in the order the source applies it: start from OK, lower
      to LOW when the stock is at or under the minimum, then to CRITICAL when
      the stock is exactly zero (whatever the minimum is). */
  function AlertFor(stock: int, minStock: int): (a: AlertStatus)
    ensures a == Critical <==> stock == 0
    ensures a == Low <==> stock != 0 && stock <= minStock
    ensures a == Ok <==> stock != 0 && minStock < stock
  {
    var initial := Ok;
    var checked := if stock <= minStock then Low else initial;
    if stock == 0 then Critical else checked
  }

  /** For non-negative stock the tier only gets worse as the stock falls. */
  lemma AlertMonotone(lower: int, higher: int, minStock: int)
    requires 0 <= lower <= higher
    ensures Severity(AlertFor(higher, minStock)) <= Severity(AlertFor(lower, minStock))
  {
  }

  /** One item's record: display name, minimum stock, current stock, alert. */
  datatype Item = Item(name: string, minStock: int, currentStock: int, alert: AlertStatus)

  /** A key of the inventory mapping together with its record. */
  datatype Entry = Entry(id: int, item: Item)

  /** The inventory mapping, in the insertion order its keys iterate in. */
  type Inventory = seq<Entry>

  const ADDED: string := "ADDED"
  const REMOVED: string := "REMOVED"

  function Ids(inv: Inventory): (ids: seq<int>)
    ensures |ids| == |inv|
    ensures forall i :: 0 <= i < |inv| ==> ids[i] == inv[i].id
  {
    seq(|inv|, i requires 0 <= i < |inv| => inv[i].id)
  }

  /** Keys of a mapping are distinct. */
  predicate UniqueIds(inv: Inventory) {
    forall i, j :: 0 <= i < j < |inv| ==> inv[i].id != inv[j].id
  }

  predicate NonNegativeStock(inv: Inventory) {
    forall i :: 0 <= i < |inv| ==> inv[i].item.currentStock >= 0
  }

  /** Every stored alert is the one the rule gives for the stored stock. */
  predicate AlertsConsistent(inv: Inventory) {
    forall i :: 0 <= i < |inv| ==> inv[i].item.alert == AlertFor(inv[i].item.currentStock, inv[i].item.minStock)
  }

  /** Same keys in the same order, and every name and minimum unchanged. */
  predicate SameCatalog(before: Inventory, after: Inventory) {
    && |before| == |after|
    && forall i :: 0 <= i < |before| ==>
         && after[i].id == before[i].id
         && after[i].item.name == before[i].item.name
         && after[i].item.minStock == before[i].item.minStock
  }

  /** Position of key `id`, the lookup `inventory[id]`. */
  function IndexOf(inv: Inventory, id: int): (r: Option<nat>)
    ensures r.None? <==> id !in Ids(inv)
    ensures r.Some? ==> r.value < |inv| && inv[r.value].id == id
    ensures r.Some? ==> forall j :: 0 <= j < r.value ==> inv[j].id != id
  {
    if |inv| == 0 then None
    else if inv[0].id == id then Some(0)
    else
      match IndexOf(inv[1..], id)
      case None => None
      case Some(k) => Some(k + 1)
  }

  /** With distinct keys, looking up the key stored at a position finds that
      position. */
  lemma IndexOfUnique(inv: Inventory, i: nat)
    requires UniqueIds(inv)
    requires i < |inv|
    ensures IndexOf(inv, inv[i].id) == Some(i)
  {
    assert inv[i].id in Ids(inv);
  }

  /** The record after its stock is set to `stock` and its alert is recomputed. */
  function WithStock(e: Entry, stock: int): Entry {
    Entry(e.id, e.item.(currentStock := stock, alert := AlertFor(stock, e.item.minStock)))
  }
}
