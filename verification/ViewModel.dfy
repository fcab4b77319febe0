/** The view model of the BLE test server: it owns the published view state
    (test results and server phase) and the list of ready connections, and
    folds every server, advertising and connection event into them, one
    event at a time. */
module ViewModel {
  import opened TestRecords
  import opened Connections

  /** The fixed test names the view model itself reports. */
  datatype TestItem = StartAdvertising | ServerReady | DeviceDisconnection {
    function Item(): (name: string) {
      match this
      case StartAdvertising => "START_ADVERTISING"
      case ServerReady => "SERVER_READY"
      case DeviceDisconnection => "DEVICE_DISCONNECTION"
    }
  }

  /** What the user interface observes. */
  datatype ServerViewState = ServerViewState(testItems: seq<TestCase>, state: Phase)

  /** Identity of a peer device as the server reports it. */
  type Device = nat

  /** Outcome of starting the server: the wrapped error carries the cause. */
  datatype StartResult = Started | StartFailed(message: string, cause: string)

  /** A call the view model makes into the advertising and server managers
      or into a connection. */
  datatype Action = StopAdvertising | Release(conn: Connection) | CloseServer

  class ServerViewModel {
    var viewState: ServerViewState
    var client: seq<Connection>

    /** The view state starts from its (unspecified) default value and no
        connection is ready yet. */
    constructor (initial: ServerViewState)
      ensures viewState == initial && client == []
    {
      viewState := initial;
      client := [];
    }

    /** `updateTestList`: upsert `testCase` into the published list and
        return the list now published. Only the test list changes. */
    method UpdateTestList(testCase: TestCase) returns (items: seq<TestCase>)
      modifies this`viewState
      ensures viewState == old(viewState).(testItems := Upsert(old(viewState.testItems), testCase))
      ensures items == viewState.testItems
      ensures UniqueNames(old(viewState.testItems)) ==> UniqueNames(viewState.testItems)
    {
      if UniqueNames(viewState.testItems) {
        UpsertKeepsUnique(viewState.testItems, testCase);
      }
      var updated := viewState.testItems;
      var found := Find(viewState.testItems, testCase.testName);
      match found {
        case Some(it) =>
          var index := IndexOf(viewState.testItems, it);
          ghost var first := FirstIndexOfName(viewState.testItems, testCase.testName).value;
          // `indexOf(it)` lands on the entry `find` returned: no earlier
          // entry equals it, since no earlier entry carries its name. The
          // verifier does not need the steps below; they spell that argument
          // out for the reader.
          assert viewState.testItems[first] == it;
          assert !(first < index);
          assert viewState.testItems[index].testName == testCase.testName;
          assert index == first;
          if it.isPassed != testCase.isPassed {
            updated := updated[index := TestCase(it.testName, testCase.isPassed)];
          }
          viewState := viewState.(testItems := updated);
        case None =>
          viewState := viewState.(testItems := viewState.testItems + [TestCase(testCase.testName, testCase.isPassed)]);
      }
      items := viewState.testItems;
    }

    /** The advertising start launched at construction has completed:
        `advertisingError` is None on success and the cause on failure.
        Either way the outcome is recorded under START_ADVERTISING; a failure
        is then raised as "Could not start server." with the cause attached. */
    method OnAdvertisingResult(advertisingError: Option<string>) returns (result: StartResult)
      modifies this`viewState
      ensures viewState == old(viewState).(testItems :=
                Upsert(old(viewState.testItems), TestCase(StartAdvertising.Item(), advertisingError.None?)))
      ensures result == match advertisingError
                        case None => Started
                        case Some(cause) => StartFailed("Could not start server.", cause)
    {
      match advertisingError {
        case None =>
          var _ := UpdateTestList(TestCase(StartAdvertising.Item(), true));
          result := Started;
        case Some(cause) =>
          var _ := UpdateTestList(TestCase(StartAdvertising.Item(), false));
          result := StartFailed("Could not start server.", cause);
      }
    }

    /** `onServerReady`: the receiver of `copy` is read before the upsert
        runs, and only its test list is replaced, so the net effect is one
        upsert of (SERVER_READY, true). */
    method OnServerReady()
      modifies this`viewState
      ensures viewState == old(viewState).(testItems :=
                Upsert(old(viewState.testItems), TestCase(ServerReady.Item(), true)))
    {
      var receiver := viewState;
      var items := UpdateTestList(TestCase(ServerReady.Item(), true));
      viewState := receiver.(testItems := items);
    }

    /** `onDeviceDisconnectedFromServer`: an observability record only; the
        list of ready connections is not touched. */
    method OnDeviceDisconnectedFromServer(device: Device)
      modifies this`viewState
      ensures viewState == old(viewState).(testItems :=
                Upsert(old(viewState.testItems), TestCase(DeviceDisconnection.Item(), true)))
    {
      var _ := UpdateTestList(TestCase(DeviceDisconnection.Item(), true));
    }

    /** A test outcome emitted by a connection's `testingFeature` flow. */
    method OnTestOutcome(outcome: TestCase)
      modifies this`viewState
      ensures viewState == old(viewState).(testItems := Upsert(old(viewState.testItems), outcome))
    {
      var _ := UpdateTestList(TestCase(outcome.testName, outcome.isPassed));
    }

    /** The state handler of connection `conn`: `Ready` appends it and
        publishes the new count; `Disconnected` removes its first occurrence
        and republishes the count only if the phase read before the change
        was `WaitingForClient`; other states do nothing. The test list is
        never touched. */
    method OnConnectionStateChanged(conn: Connection, connectionState: ConnectionState)
      modifies this
      ensures var after := OnConnectionState(Registry(old(client), old(viewState.state)), conn, connectionState);
        client == after.client && viewState == old(viewState).(state := after.phase)
    {
      var currentState := viewState.state;
      match connectionState {
        case Ready =>
          client := client + [conn];
          viewState := viewState.(state := WaitingForClient(|client|));
        case Disconnected(_) =>
          client := RemoveFirst(client, conn);
          if currentState.WaitingForClient? {
            viewState := viewState.(state := WaitingForClient(|client|));
          }
        case _ =>
      }
    }

    /** `onCleared`: stop advertising, release every ready connection in list
        order, then close the server. Returns the calls in the order made. */
    method OnCleared() returns (actions: seq<Action>)
      ensures |actions| == |client| + 2
      ensures actions[0] == StopAdvertising
      ensures forall k :: 0 <= k < |client| ==> actions[k + 1] == Release(client[k])
      ensures actions[|actions| - 1] == CloseServer
    {
      actions := [StopAdvertising];
      var i := 0;
      while i < |client|
        invariant 0 <= i <= |client|
        invariant |actions| == i + 1 && actions[0] == StopAdvertising
        invariant forall k :: 0 <= k < i ==> actions[k + 1] == Release(client[k])
      {
        actions := actions + [Release(client[i])];
        i := i + 1;
      }
      actions := actions + [CloseServer];
    }
  }
}
