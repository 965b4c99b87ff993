# Smart inventory frame reconciliation — a Dafny model

This project models the two pieces of logic in a small inventory-tracking
demonstration, where a simulated object tracker reports which item ids are on a
shelf.

- **The vision processor's frame step.** `process_frame_update` takes an
  inventory snapshot and the multiset of item ids observed in one frame. It
  sets every known item's stock to the number of times its id was observed. For
  each item whose count changed, it recomputes the alert tier (CRITICAL / LOW /
  OK). It records at most one transaction: for the first changed item in insertion
  order, with the magnitude of the change. `generate_simulated_tracked_objects`
  builds the frame. It lists each id as often as its stock, then may add one
  copy of a target id or remove one.
- **The API service's in-memory step.** `process_vision_frame` picks a target,
  a command (ADD / REMOVE / NONE) and whether the change fires. It moves the
  target's stock by one, refuses to go below zero, recomputes the alert, and
  appends a transaction with the signed change. The history read returns the
  last ten transactions. The status read runs one step and then lists every
  record.

Modules:

- `Wrappers`: `Option` and `Result`.
- `Inventory`: item records, the alert rule, and lookups. Both source files use
  these.
- `Decimal`: Python's `str()` on integers. The vision processor uses it to
  render a transaction's item id.
- `VisionProcessor`: reconciliation and the simulated frame.
- `AppApi`: the service's step, its reads, and runs of many steps.

The inventory is a sequence of (id, record) entries in the mapping's insertion
order. `UniqueIds` states that keys are distinct, as they are in a dictionary.
Random draws are parameters:

- a vision `SimEvent`: no event, or an action plus a `pick` that selects the
  target key (`keys[pick % |keys|]`);
- for the service: the target id, the command, and `fire` (whether
  `random.random() < 0.3` came out true).

Timestamps are opaque string parameters.

The model follows the code as written, including these behaviours:

- Only the first changed item of a frame gets a transaction. Later changes are
  applied to the snapshot but not logged.
- The service records `quantity_change` with its sign (-1 for a removal). The
  vision processor records the absolute value.
- The service's history is never truncated. `[-10:]` is a projection made when
  the history is read.
- Reading the status runs one simulated frame first.
- Items whose count did not change keep their stored alert, even when it is
  stale.

The one exception is the service's action text for a removal. The code builds
"REMOVEED"; the step records "REMOVED" (see "## Findings" and "## Left out").

## Model

| member | source | states |
|---|---|---|
| Inventory.AlertFor | vision_processor.py:109-116 | the tier is CRITICAL exactly at zero stock, LOW exactly when the stock is non-zero and at most the minimum, and OK exactly when it is non-zero and above the minimum |
| Inventory.AlertMonotone | app_api.py:73-79 | for non-negative stock, a smaller stock never gets a less severe tier |
| Inventory.IndexOf | app_api.py:58 | a key lookup finds a position exactly when the key is present; the position holds that key, and no earlier position does |
| Inventory.IndexOfUnique | app_api.py:58 | when keys are distinct, looking up the key stored at a position finds exactly that position, so the record read is the one stored under the key |
| Decimal.NatText | vision_processor.py:122 | a natural number renders as a non-empty string of digits with no leading zero, one character long exactly below ten |
| Decimal.IntText | vision_processor.py:122 | an id renders as a non-empty string that starts with '-' exactly when the id is negative |
| Decimal.NatRoundTrip | vision_processor.py:122 | parsing the rendering of a natural number gives the number back |
| Decimal.IntRoundTrip | vision_processor.py:122 | `int(str(i)) == i` for every integer id |
| Decimal.IntTextInjective | vision_processor.py:122 | two ids render to the same transaction id text exactly when they are equal |
| VisionProcessor.Count | vision_processor.py:96-97 | the count taken for an id is its multiplicity in the observed multiset |
| VisionProcessor.FirstChanged | vision_processor.py:118-119 | there is no first changed item exactly when no item's count differs from its stock; otherwise the returned item changed and every earlier one did not |
| VisionProcessor.ProcessFrameUpdate | vision_processor.py:89-131 | the frame step keeps the snapshot's keys, in order, with their names and minimums; the rest of its meaning (new stocks, alerts, the single transaction) is proved by `VisionProcessor.FrameUpdateMeaning` |
| VisionProcessor.FrameUpdateMeaning | vision_processor.py:89-131 | keys, names and minimums are kept; every stock becomes the id's observed multiplicity; unchanged items keep their whole record; changed items get the alert for their new stock; there is no transaction exactly when nothing changed; otherwise the transaction names the first changed item, says ADDED exactly for a rise and REMOVED exactly for a fall, and has a positive quantity equal to the size of the change |
| VisionProcessor.ReconcileIdempotent | vision_processor.py:97-103 | reconciling the result again with the same observation returns it unchanged, with no transaction |
| VisionProcessor.ReconcileInvariants | vision_processor.py:99-116 | reconciliation keeps keys distinct, always yields non-negative stock, and keeps every alert consistent with its stock when the input's alerts were |
| VisionProcessor.NothingChanged | vision_processor.py:94-103 | when every count equals its stock, the snapshot comes back unchanged and no transaction is recorded |
| VisionProcessor.OnlyOneChanged | vision_processor.py:99-127 | when exactly one item's count differs, only that record is rewritten and it is the one logged |
| VisionProcessor.OnlyFirstChangeRecorded | vision_processor.py:118-127 | on the configured default snapshot, a frame that changes all three items resets all three (to OK, LOW and CRITICAL) but records only the first, the laptop boxes' removal of two |
| VisionProcessor.Repeat | vision_processor.py:65 | `[id] * n` holds `n` copies of `id` when `n` is positive, none when it is not, and no other id |
| VisionProcessor.PresentIds | vision_processor.py:61-65 | the ids listed before any event are all known keys; how many times each appears is proved by `VisionProcessor.PresentIdsCount` |
| VisionProcessor.RemoveFirst | vision_processor.py:83 | removing a present id removes exactly one copy of it from the multiset |
| VisionProcessor.GenerateSimulatedTrackedObjects | vision_processor.py:55-87 | generating a frame fails exactly when a change event has no key to choose from |
| VisionProcessor.PresentIdsCount | vision_processor.py:61-65 | before any event, each known id appears as often as its stock (none when the stock is not positive), and unknown ids never appear |
| VisionProcessor.SimulatedFrameCounts | vision_processor.py:67-84 | with no event every id keeps that count; an ADD raises the target's count by one; a REMOVE lowers it by one only when the target is present; other ids are unaffected |
| VisionProcessor.OthersUnchanged | vision_processor.py:62-84 | for a snapshot with distinct keys and non-negative stock (every snapshot the loop reaches, by `VisionProcessor.ReconcileInvariants`), in a simulated frame, every item except the event's target is observed exactly as often as its stock |
| VisionProcessor.SimulatedTargetCount | vision_processor.py:70-84 | for a snapshot with distinct keys and non-negative stock (every snapshot the loop reaches, by `VisionProcessor.ReconcileInvariants`), in a frame with a change event, the target is observed once more than its stock after an ADD, once less after a REMOVE on positive stock, and exactly its stock after a REMOVE on an empty item |
| VisionProcessor.SimulatedQuietCycle | vision_processor.py:145-152 | for a snapshot with distinct keys and non-negative stock (every snapshot the loop reaches, by `VisionProcessor.ReconcileInvariants`), a simulated frame without a change event, reconciled against the snapshot it came from, changes nothing and records nothing |
| VisionProcessor.SimulatedMoveCycle | vision_processor.py:145-152 | for a snapshot with distinct keys and non-negative stock (every snapshot the loop reaches, by `VisionProcessor.ReconcileInvariants`), after an ADD, or a REMOVE on a stocked target, reconciliation changes only the target, by exactly one and never below zero, with its alert recomputed, and records that move with quantity 1 and the matching action |
| VisionProcessor.SimulatedEmptyRemoveCycle | vision_processor.py:145-152 | for a snapshot with distinct keys and non-negative stock (every snapshot the loop reaches, by `VisionProcessor.ReconcileInvariants`), a REMOVE aimed at an item with no stock leaves the frame as it was, so reconciliation changes nothing and records nothing |
| AppApi.ChangeFor | app_api.py:60-66 | the change is zero exactly for a REMOVE at or below zero stock; otherwise it is +1 for ADD and -1 for REMOVE; it never takes non-negative stock below zero |
| AppApi.ActionTextAsWritten | app_api.py:86 | the text the source builds is "ADDED" exactly for an ADD, and it is never "REMOVED"; `AppApi.RemovalTextAsWritten` shows it is "REMOVEED" for a REMOVE |
| AppApi.RemovalTextAsWritten | app_api.py:86 | the source's `action + "ED"` gives "ADDED" for an ADD but "REMOVEED", not "REMOVED", for a REMOVE |
| AppApi.ActionText | app_api.py:86 | the corrected action text is "ADDED" exactly for an ADD and "REMOVED" exactly for a REMOVE, and it agrees with the source's text for ADD |
| AppApi.ProcessVisionFrame | app_api.py:41-90 | the step fails exactly when a fired command names an unknown key; otherwise keys, names and minimums are kept; items other than the target are untouched; every stock moves by at most one; no stock that falls goes below zero; and either nothing changes at all, or the inventory changes and the history grows by exactly one entry, keeping its earlier entries; an unfired step or a NONE command leaves the state as it was; a fired step on a known key moves the target's stock by `ChangeFor`, +1 for ADD and -1 for REMOVE on positive stock |
| AppApi.ApplyChange | app_api.py:68-88 | a non-zero change keeps keys, names and minimums; it leaves every other record as it was; it moves the target's stock by exactly the change and gives it the alert for the new stock; it appends exactly one transaction naming the target, with the change and action text, after the earlier history |
| AppApi.StepTransaction | app_api.py:57-88 | the history grows exactly when a fired ADD, or a fired REMOVE on positive stock, hits a known key; otherwise the state is unchanged; the new entry names the target, carries +1 and "ADDED" for an ADD and -1 and the corrected "REMOVED" for a REMOVE, and the target's new stock and alert follow that change |
| AppApi.StepInvariants | app_api.py:63-79 | a step keeps keys distinct, keeps stock non-negative, and keeps every alert consistent with its stock |
| AppApi.GetTransactionHistory | app_api.py:106-109 | the read returns the last min(10, length) entries of the history, in append order, and the history is its prefix followed by them |
| AppApi.HistoryWindowSlides | app_api.py:109 | after one more append, the read is the previous read plus the new entry, with the oldest dropped once ten are shown |
| AppApi.GetInventoryStatus | app_api.py:99-104 | the status read succeeds exactly when its step does, returns the state that step produces, and lists that state's records, with the same keys, names and minimums as before |
| AppApi.StepHealthy | app_api.py:52-58 | a target drawn from the detected-id list is always a known key, so a step from a healthy state succeeds and stays healthy |
| AppApi.RunFromHealthy | app_api.py:50-88 | any run of frames from a healthy state never fails, keeps the configured catalogue, non-negative stock and consistent alerts, and only extends the history, by at most one entry per frame |
| AppApi.InitialStateHealthy | app_api.py:9-37 | the configured starting inventory, with every alert "OK", is healthy |

## Left out

- Loading and saving the JSON state file, and the fallback to the default configuration (vision_processor.py:27-48). These are file I/O and parsing. After a JSON round-trip the keys become strings; the model keeps integer keys.
- The processor's main loop: sleeping, keyboard interrupts, and retrying after any exception (vision_processor.py:135-169). Only the composition of one generated frame with one reconciliation is modelled, by the three `VisionProcessor.Simulated…Cycle` lemmas.
- Random draws. They are parameters. `random.random() < 0.3` becomes a flag or the presence of a change event. `random.choice` becomes a target id or a `pick` index.
- `time.strftime` timestamps. They are opaque string parameters.
- Logging with `print`. It has no effect on state.
- The FastAPI and pydantic wiring and the root health route (app_api.py:94-114). The two reads are modelled as functions.
- Python's object identity. The input snapshot is never mutated because every value here is immutable; that stands in for the per-record `copy()`.
- Changing the catalogue at run time. The source never does it.
- AppApi.ProcessVisionFrame: records the corrected action text "REMOVED" for a removal, where the source records "REMOVEED" (see "## Findings"). The text as written is modelled by `AppApi.ActionTextAsWritten`.
- AppApi.StepTransaction: the appended entry for a removal carries the corrected "REMOVED" it gets from `AppApi.ProcessVisionFrame`, where the source records "REMOVEED" (see "## Findings").

## Findings

| source | as written | input that shows it | evidently intended | confidence | as-written member | corrected member |
|---|---|---|---|---|---|---|
| app_api.py:86 | the action text is `action + "ED"`, which is "REMOVEED" for a removal | any fired REMOVE on an item with positive stock | "REMOVED", the value the record's field comment lists (app_api.py:29) and the vision processor writes (vision_processor.py:120) | high; not executed | AppApi.ActionTextAsWritten, shown by AppApi.RemovalTextAsWritten | AppApi.ActionText, used by AppApi.ProcessVisionFrame |
