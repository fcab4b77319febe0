/** The connection-state side of the test server: the list of ready
    connections (`client`) and the "waiting for client" phase derived from
    its size, as the state handler of each server connection folds them. */
module Connections {

  /** Identity of one server connection object; the list operations compare
      connections by this identity. */
  type Connection = nat

  /** The states a connection reports through its state flow. */
  datatype ConnectionState = Connecting | Initializing | Ready | Disconnecting | Disconnected(reason: nat)

  /** The server phase in the view state. Only `WaitingForClient` is named by
      the view model; `Other` stands for whatever phase it starts in. */
  datatype Phase = WaitingForClient(count: nat) | Other

  /** Kotlin's `list - element`: the list without the first occurrence of
      `x`, unchanged when `x` is absent. */
  function RemoveFirst(s: seq<Connection>, x: Connection): (r: seq<Connection>)
    ensures x !in s ==> r == s
    ensures x in s ==> |r| == |s| - 1
  {
    if s == [] then []
    else if s[0] == x then s[1..]
    else [s[0]] + RemoveFirst(s[1..], x)
  }

  /** RemoveFirst takes away one copy of `x` and nothing else. */
  lemma {:induction false} RemoveFirstCounts(s: seq<Connection>, x: Connection)
    ensures multiset(RemoveFirst(s, x)) == multiset(s) - multiset{x}
  {
    if s != [] {
      assert s == [s[0]] + s[1..];
      if s[0] != x {
        RemoveFirstCounts(s[1..], x);
      }
    }
  }

  /** RemoveFirst cuts out exactly the first occurrence and keeps the order
      of everything else. */
  lemma {:induction false} RemoveFirstAt(s: seq<Connection>, x: Connection, i: nat)
    requires i < |s| && s[i] == x && x !in s[..i]
    ensures RemoveFirst(s, x) == s[..i] + s[i + 1..]
  {
    if i == 0 {
      assert s[..0] + s[1..] == s[1..];
    } else {
      assert s[0] in s[..i];
      var tail := s[1..];
      assert tail[..i - 1] == s[1..i];
      RemoveFirstAt(tail, x, i - 1);
      assert tail[i..] == s[i + 1..];
      assert RemoveFirst(s, x) == [s[0]] + (s[1..i] + s[i + 1..]);
      assert [s[0]] + s[1..i] == s[..i];
    }
  }

  /** The part of the view state the connection handler reads and writes. */
  datatype Registry = Registry(client: seq<Connection>, phase: Phase)

  /** One run of the state handler of connection `conn`. The list moves by
      at most one entry, and the phase either stays or becomes the count
      derived from the new list. */
  function OnConnectionState(r: Registry, conn: Connection, state: ConnectionState): (next: Registry)
    ensures |r.client| - 1 <= |next.client| <= |r.client| + 1
    ensures next.phase == r.phase || next.phase == WaitingForClient(|next.client|)
  {
    match state
    case Ready =>
      var client := r.client + [conn];
      Registry(client, WaitingForClient(|client|))
    case Disconnected(_) =>
      var client := RemoveFirst(r.client, conn);
      Registry(client, if r.phase.WaitingForClient? then WaitingForClient(|client|) else r.phase)
    case _ => r
  }

  /** `Ready` appends the connection and publishes the new count, whatever
      the phase was before. */
  lemma ReadyJoins(r: Registry, conn: Connection)
    ensures OnConnectionState(r, conn, Ready).client == r.client + [conn]
    ensures OnConnectionState(r, conn, Ready).phase == WaitingForClient(|r.client| + 1)
  {
  }

  /** `Disconnected` drops the first occurrence of the connection, and
      republishes the count only while the server is waiting for clients. */
  lemma DisconnectedLeaves(r: Registry, conn: Connection, reason: nat, i: nat)
    requires i < |r.client| && r.client[i] == conn && conn !in r.client[..i]
    ensures OnConnectionState(r, conn, Disconnected(reason)).client == r.client[..i] + r.client[i + 1..]
    ensures OnConnectionState(r, conn, Disconnected(reason)).phase
         == if r.phase.WaitingForClient? then WaitingForClient(|r.client| - 1) else r.phase
  {
    RemoveFirstAt(r.client, conn, i);
  }

  /** A connection that never joined leaves the list alone when it
      disconnects; the phase is still republished with the same count. */
  lemma DisconnectedOfAbsent(r: Registry, conn: Connection, reason: nat)
    requires conn !in r.client
    ensures OnConnectionState(r, conn, Disconnected(reason)).client == r.client
    ensures OnConnectionState(r, conn, Disconnected(reason)).phase
         == if r.phase.WaitingForClient? then WaitingForClient(|r.client|) else r.phase
  {
  }

  /** States other than `Ready` and `Disconnected` change nothing. */
  lemma OtherStatesIgnored(r: Registry, conn: Connection, state: ConnectionState)
    requires !state.Ready? && !state.Disconnected?
    ensures OnConnectionState(r, conn, state) == r
  {
  }

  /** A connection that becomes ready and then disconnects brings the count
      back to where it was; if it was not listed before, the list itself is
      restored. */
  lemma ReadyThenDisconnected(r: Registry, conn: Connection, reason: nat)
    ensures var after := OnConnectionState(OnConnectionState(r, conn, Ready), conn, Disconnected(reason));
      |after.client| == |r.client| && after.phase == WaitingForClient(|r.client|)
      && (conn !in r.client ==> after.client == r.client)
  {
    var joined := r.client + [conn];
    if conn !in r.client {
      assert joined[..|r.client|] == r.client;
      RemoveFirstAt(joined, conn, |r.client|);
      assert joined[|r.client| + 1..] == [];
    }
  }

  /** The published count agrees with the list whenever the server is waiting. */
  predicate CountMatches(r: Registry) {
    r.phase.WaitingForClient? ==> r.phase.count == |r.client|
  }

  lemma StepKeepsCountMatching(r: Registry, conn: Connection, state: ConnectionState)
    requires CountMatches(r)
    ensures CountMatches(OnConnectionState(r, conn, state))
  {
  }

  /** One state report of one connection. */
  datatype Event = Event(conn: Connection, state: ConnectionState)

  /** The registry after the handler has folded the reports in order,
      whichever connections they come from. */
  function FoldEvents(r: Registry, events: seq<Event>): (final: Registry)
    ensures |final.client| <= |r.client| + |events|
    ensures final.phase == r.phase || final.phase == WaitingForClient(|final.client|)
  {
    if events == [] then r
    else
      var last := events[|events| - 1];
      OnConnectionState(FoldEvents(r, events[..|events| - 1]), last.conn, last.state)
  }

  /** The connections of the `Ready` reports, in order. */
  function ReadyConnections(events: seq<Event>): (cs: seq<Connection>)
    ensures |cs| <= |events|
  {
    if events == [] then []
    else
      var last := events[|events| - 1];
      ReadyConnections(events[..|events| - 1]) + if last.state.Ready? then [last.conn] else []
  }

  /** Without disconnections, every `Ready` report joins the list in arrival
      order, whatever else is interleaved, and the published count is the
      number of joins. */
  lemma {:induction false} JoinsAccumulate(r: Registry, events: seq<Event>)
    requires forall k :: 0 <= k < |events| ==> !events[k].state.Disconnected?
    ensures FoldEvents(r, events).client == r.client + ReadyConnections(events)
    ensures ReadyConnections(events) != [] ==>
              FoldEvents(r, events).phase == WaitingForClient(|r.client| + |ReadyConnections(events)|)
    ensures ReadyConnections(events) == [] ==> FoldEvents(r, events).phase == r.phase
  {
    if events != [] {
      var prefix := events[..|events| - 1];
      JoinsAccumulate(r, prefix);
    }
  }

  /** N connections reaching `Ready` from an empty list, in any interleaving
      with non-disconnect reports, leave `WaitingForClient(N)`. */
  lemma NJoinsFromEmpty(phase: Phase, events: seq<Event>)
    requires forall k :: 0 <= k < |events| ==> !events[k].state.Disconnected?
    requires ReadyConnections(events) != []
    ensures FoldEvents(Registry([], phase), events).phase == WaitingForClient(|ReadyConnections(events)|)
  {
    JoinsAccumulate(Registry([], phase), events);
  }

  /** Only connections that were listed already or reported `Ready` are ever
      listed: a session that never reaches `Ready` never counts. */
  lemma {:induction false} OnlyReadyConnectionsListed(r: Registry, events: seq<Event>, c: Connection)
    requires c in FoldEvents(r, events).client
    ensures c in r.client || c in ReadyConnections(events)
  {
    if events != [] {
      var prefix := events[..|events| - 1];
      var last := events[|events| - 1];
      var before := FoldEvents(r, prefix);
      if !(last.state.Ready? && last.conn == c) {
        if last.state.Disconnected? {
          RemoveFirstCounts(before.client, last.conn);
        }
        assert multiset(FoldEvents(r, events).client)[c] <= multiset(before.client)[c];
        assert c in before.client;
        OnlyReadyConnectionsListed(r, prefix, c);
      }
    }
  }

  /** The count published after any sequence of reports matches the list, if
      it did at the start. */
  lemma {:induction false} FoldKeepsCountMatching(r: Registry, events: seq<Event>)
    requires CountMatches(r)
    ensures CountMatches(FoldEvents(r, events))
  {
    if events != [] {
      var last := events[|events| - 1];
      FoldKeepsCountMatching(r, events[..|events| - 1]);
      StepKeepsCountMatching(FoldEvents(r, events[..|events| - 1]), last.conn, last.state);
    }
  }
}
