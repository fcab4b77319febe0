# BLE test server view model, in Dafny

This project models the aggregation layer of the Android BLE library's test
server: the `ServerViewModel` that starts advertising, accepts connections,
and folds every event into one published `ServerViewState`. That state holds
`testItems`, an ordered list of `TestCase(testName, isPassed)` outcomes, and
`state`, the server phase. Beside it sits `client`, the list of connections
that have reached `Ready`.

The model has three modules:

- `TestRecords` holds the test-result store. `Upsert` specifies what
  `updateTestList` leaves behind. `Find` and `IndexOf` are the two linear
  scans the code performs. The lemmas state the promises of the
  `updateTestList` doc comment: append when the name is absent, update in
  place, no-op on an equal verdict, and nothing is removed. They also prove
  two consequences: idempotence, and distinct names staying distinct.
  Further lemmas state that the list behaves as an ordered map (`Lookup`).
  `UpsertAll` folds a stream of outcomes. Its lemmas say the latest verdict
  per name wins and, starting from a list with distinct names, each name
  appears once.
- `Connections` holds the connection-state handler as a function on
  `(client, phase)`. Kotlin's `-=` becomes `RemoveFirst`. `FoldEvents` folds
  any interleaving of state reports. The lemmas cover joins, leaves,
  Ready/Disconnected symmetry, N ≥ 1 joins without disconnections giving
  `WaitingForClient(N)`, and the
  fact that only connections that reported `Ready` are ever listed.
- `ViewModel` holds the class `ServerViewModel` with the fields `viewState`
  and `client`. It has one method per event: advertising result, server
  ready, device disconnected, test outcome, connection state, and teardown.
  Each method's postcondition ties the new state to the functions above.
  Teardown returns the calls it makes, in order.

Each event is one atomic step. The coroutine and flow plumbing of the
original only carries events to these steps.

Two behaviours of the connection-state handler are easy to miss:

- A `Disconnected` report republishes the count whenever the phase read
  before the change is `WaitingForClient`. It does so even for a connection
  that never reached `Ready`; in that case the list is unchanged and the same
  count is republished.
- The ready connections are a list, not a set. `Ready` appends without
  checking for duplicates, and `Disconnected` removes only the first
  occurrence.

## Model

| member | source | states |
|---|---|---|
| `TestRecords.FirstIndexOfName` | test/src/main/java/no/nordicsemi/andorid/ble/test/server/viewmodel/ServerViewModel.kt:146 | None exactly when no entry has the name; otherwise the position holds the name and no earlier entry does |
| `TestRecords.Find` | test/src/main/java/no/nordicsemi/andorid/ble/test/server/viewmodel/ServerViewModel.kt:146 | the linear scan returns nothing exactly when the name is absent, and otherwise returns the first entry carrying the name |
| `TestRecords.IndexOf` | test/src/main/java/no/nordicsemi/andorid/ble/test/server/viewmodel/ServerViewModel.kt:148 | -1 exactly when the element is absent; otherwise the first position holding an equal entry |
| `TestRecords.Upsert` | test/src/main/java/no/nordicsemi/andorid/ble/test/server/viewmodel/ServerViewModel.kt:144-164 | the list grows by at most one, keeps every existing name at its position, and contains the given outcome |
| `TestRecords.UpsertAppendsWhenAbsent` | test/src/main/java/no/nordicsemi/andorid/ble/test/server/viewmodel/ServerViewModel.kt:155-161 | if no entry carries the name, the result is the old list with the outcome appended |
| `TestRecords.UpsertUpdatesInPlace` | test/src/main/java/no/nordicsemi/andorid/ble/test/server/viewmodel/ServerViewModel.kt:146-153 | if the first entry with the name has a different verdict, only that position changes, to the new outcome; the length is kept |
| `TestRecords.UpsertNoOpOnEqual` | test/src/main/java/no/nordicsemi/andorid/ble/test/server/viewmodel/ServerViewModel.kt:149-153 | if the name already reads the same verdict, the list is unchanged |
| `TestRecords.UpsertIdempotent` | test/src/main/java/no/nordicsemi/andorid/ble/test/server/viewmodel/ServerViewModel.kt:144-163 | upserting the same outcome twice equals upserting it once |
| `TestRecords.UpsertLookup` | test/src/main/java/no/nordicsemi/andorid/ble/test/server/viewmodel/ServerViewModel.kt:144-163 | after the upsert the name reads the new verdict and every other name reads as before (ordered-map update) |
| `TestRecords.UpsertKeepsUnique` | test/src/main/java/no/nordicsemi/andorid/ble/test/server/viewmodel/ServerViewModel.kt:144-162 | a list with distinct names still has distinct names afterwards |
| `TestRecords.UpsertAll` | test/src/main/java/no/nordicsemi/andorid/ble/test/server/viewmodel/ServerViewModel.kt:76-78 | folding outcomes in arrival order never shrinks the list and adds at most one entry per outcome |
| `TestRecords.UpsertAllLatestWins` | test/src/main/java/no/nordicsemi/andorid/ble/test/server/viewmodel/ServerViewModel.kt:76-78 | after any stream of outcomes each name reads the last verdict reported for it; unreported names keep their verdict |
| `TestRecords.UpsertAllUniqueAndComplete` | test/src/main/java/no/nordicsemi/andorid/ble/test/server/viewmodel/ServerViewModel.kt:76-78 | from distinct names, the folded list keeps names distinct and holds every reported name, so each appears exactly once |
| `Connections.RemoveFirst` | test/src/main/java/no/nordicsemi/andorid/ble/test/server/viewmodel/ServerViewModel.kt:92 | `-=` leaves the list unchanged when the connection is absent and otherwise shortens it by one |
| `Connections.RemoveFirstAt` | test/src/main/java/no/nordicsemi/andorid/ble/test/server/viewmodel/ServerViewModel.kt:92 | `-=` cuts out exactly the first occurrence and keeps the order of the rest |
| `Connections.RemoveFirstCounts` | test/src/main/java/no/nordicsemi/andorid/ble/test/server/viewmodel/ServerViewModel.kt:92 | `-=` removes one copy of the connection and nothing else (multiset difference) |
| `Connections.OnConnectionState` | test/src/main/java/no/nordicsemi/andorid/ble/test/server/viewmodel/ServerViewModel.kt:82-103 | the reference function for one run of the `onEach` handler: the list moves by at most one entry and the phase either stays or becomes `WaitingForClient` of the new list size; ReadyJoins, DisconnectedLeaves, DisconnectedOfAbsent and OtherStatesIgnored state its behaviour per state |
| `Connections.FoldEvents` | test/src/main/java/no/nordicsemi/andorid/ble/test/server/viewmodel/ServerViewModel.kt:81-104 | the handler folded over any interleaving of reports: the list grows by at most one entry per report, and the final phase is the starting one or `WaitingForClient` of the final list size |
| `Connections.ReadyJoins` | test/src/main/java/no/nordicsemi/andorid/ble/test/server/viewmodel/ServerViewModel.kt:85-89 | `Ready` appends the connection and sets the phase to `WaitingForClient` of the new size, whatever the phase was |
| `Connections.DisconnectedLeaves` | test/src/main/java/no/nordicsemi/andorid/ble/test/server/viewmodel/ServerViewModel.kt:91-101 | `Disconnected` removes the first occurrence; the count is republished only if the phase was `WaitingForClient`, otherwise the phase is kept |
| `Connections.DisconnectedOfAbsent` | test/src/main/java/no/nordicsemi/andorid/ble/test/server/viewmodel/ServerViewModel.kt:91-101 | disconnecting an unlisted connection leaves the list unchanged and republishes the same count only while waiting |
| `Connections.OtherStatesIgnored` | test/src/main/java/no/nordicsemi/andorid/ble/test/server/viewmodel/ServerViewModel.kt:102 | any state other than `Ready` and `Disconnected` changes nothing |
| `Connections.ReadyThenDisconnected` | test/src/main/java/no/nordicsemi/andorid/ble/test/server/viewmodel/ServerViewModel.kt:84-101 | `Ready` then `Disconnected` of one connection restores the size and publishes `WaitingForClient` of it; the list itself is restored if the connection was not listed before |
| `Connections.StepKeepsCountMatching` | test/src/main/java/no/nordicsemi/andorid/ble/test/server/viewmodel/ServerViewModel.kt:82-103 | if a published `WaitingForClient` count equals the list size, it still does after one report |
| `Connections.JoinsAccumulate` | test/src/main/java/no/nordicsemi/andorid/ble/test/server/viewmodel/ServerViewModel.kt:81-104 | without disconnections, any interleaving of reports appends the `Ready` connections in order and publishes their total count |
| `Connections.NJoinsFromEmpty` | test/src/main/java/no/nordicsemi/andorid/ble/test/server/viewmodel/ServerViewModel.kt:85-89 | from an empty list, N ≥ 1 `Ready` reports, interleaved with any reports other than `Disconnected`, give `WaitingForClient(N)` |
| `Connections.OnlyReadyConnectionsListed` | test/src/main/java/no/nordicsemi/andorid/ble/test/server/viewmodel/ServerViewModel.kt:84-101 | a listed connection was listed at the start or reported `Ready`, so a session that never gets ready never counts |
| `Connections.FoldKeepsCountMatching` | test/src/main/java/no/nordicsemi/andorid/ble/test/server/viewmodel/ServerViewModel.kt:81-104 | the published count matches the list after any sequence of reports if it did at the start |
| `ViewModel.ServerViewModel.constructor` | test/src/main/java/no/nordicsemi/andorid/ble/test/server/viewmodel/ServerViewModel.kt:34-38 | the view state starts at the given default and no connection is ready |
| `ViewModel.ServerViewModel.UpdateTestList` | test/src/main/java/no/nordicsemi/andorid/ble/test/server/viewmodel/ServerViewModel.kt:144-164 | the find, indexOf and index-assignment steps publish exactly `Upsert` of the old list and return it; the phase and the connections are untouched; distinct names stay distinct |
| `ViewModel.ServerViewModel.OnAdvertisingResult` | test/src/main/java/no/nordicsemi/andorid/ble/test/server/viewmodel/ServerViewModel.kt:44-53 | success upserts (START_ADVERTISING, true); failure upserts (START_ADVERTISING, false) and then reports "Could not start server." with the cause |
| `ViewModel.ServerViewModel.OnServerReady` | test/src/main/java/no/nordicsemi/andorid/ble/test/server/viewmodel/ServerViewModel.kt:56-59 | the copy over the earlier state value nets one upsert of (SERVER_READY, true) and nothing else |
| `ViewModel.ServerViewModel.OnDeviceDisconnectedFromServer` | test/src/main/java/no/nordicsemi/andorid/ble/test/server/viewmodel/ServerViewModel.kt:108-111 | upserts (DEVICE_DISCONNECTION, true); the connection list is not touched |
| `ViewModel.ServerViewModel.OnTestOutcome` | test/src/main/java/no/nordicsemi/andorid/ble/test/server/viewmodel/ServerViewModel.kt:76-78 | each outcome of a connection's test flow is upserted into the list |
| `ViewModel.ServerViewModel.OnConnectionStateChanged` | test/src/main/java/no/nordicsemi/andorid/ble/test/server/viewmodel/ServerViewModel.kt:81-104 | the new connections and phase are those of `OnConnectionState` on the old ones, with the phase read before the change; the test list is untouched |
| `ViewModel.ServerViewModel.OnCleared` | test/src/main/java/no/nordicsemi/andorid/ble/test/server/viewmodel/ServerViewModel.kt:124-130 | teardown makes `|client| + 2` calls: stop advertising first, then a release for each ready connection in list order, then close the server |

## Left out

- Advertising and GATT server I/O are outside the model: `startAdvertising`, `stopAdvertising`, `open`, `close` and `setServerObserver`. The advertising result is an input of `OnAdvertisingResult`. Teardown's calls are returned as a trace.
- `onDeviceConnectedToServer` creating a `ServerConnection`, `useServer`, and the launched test sequence are not modelled. That sequence is connect, write, merged write, notification, indication and reliable write. Its code lives in `ServerConnection`, which is not part of this model. The outcomes and state reports it emits arrive as `OnTestOutcome` and `OnConnectionStateChanged` calls.
- Coroutines, `viewModelScope`, `MutableStateFlow` and `launchIn` are not modelled, and neither is the interleaving of events. Each event is one atomic step.
- The exception that `startServer` rethrows is returned as a `StartFailed` value rather than raised.
- Logging, dependency injection, the application context and `super.onCleared()` are framework concerns and are not modelled.
- The strings of the `TestItem` entries are not part of this model; the three names are placeholders.
- The default `ServerViewState()` is not part of this model; the initial view state is a constructor parameter.
- Connection objects and devices are modelled by numeric identities; the list operations compare connections by identity. The reason carried by `Disconnected` is a number.
- The teardown method reports the calls it makes; it does not model what `release()` does inside a connection.
