/** The connection lifecycle of examples/state/main.cpp: which histories let a query execute. */
module Connections {
  import opened Sequences

  datatype State = Disconnected | Connecting | Authenticating | Ready

  /** The six calls a connection accepts. */
  datatype Event =
    | Connect
    | Authenticate(token: string)
    | SendQuery(sql: string)
    | SocketConnected
    | BytesReceived(bytes: string)
    | SocketClosed(reason: string)

  const AUTH_OK := "AUTH_OK"
  const AUTH_FAIL := "AUTH_FAIL"

  function Next(state: State, event: Event): State {
    match state
    case Disconnected => if event.Connect? then Connecting else Disconnected
    case Connecting =>
      if event.SocketConnected? then Authenticating
      else if event.SocketClosed? then Disconnected
      else Connecting
    case Authenticating =>
      if event == BytesReceived(AUTH_OK) then Ready
      else if event == BytesReceived(AUTH_FAIL) || event.SocketClosed? then Disconnected
      else Authenticating
    case Ready => if event.SocketClosed? then Disconnected else Ready
  }

  /** The state a new connection is in after a history of calls. */
  function After(history: seq<Event>): State {
    if history == [] then Disconnected else Next(After(history[..|history| - 1]), history[|history| - 1])
  }

  /** The queries executed during a history, in order. */
  function Executed(history: seq<Event>): seq<string> {
    if history == [] then []
    else
      var m := |history| - 1;
      Executed(history[..m])
      + if history[m].SendQuery? && After(history[..m]).Ready? then [history[m].sql] else []
  }

  /** The events that end a stay in each of the states a connection passes through. */
  predicate Ends(state: State, event: Event) {
    match state
    case Disconnected => true
    case Connecting => event.SocketConnected? || event.SocketClosed?
    case Authenticating =>
      event == BytesReceived("AUTH_OK") || event == BytesReceived("AUTH_FAIL") || event.SocketClosed?
    case Ready => event.SocketClosed?
  }

  predicate NoEnd(state: State, events: seq<Event>) {
    forall i | 0 <= i < |events| :: !Ends(state, events[i])
  }

  lemma {:induction false} Stays(history: seq<Event>, more: seq<Event>, state: State)
    requires After(history) == state && NoEnd(state, more)
    ensures After(history + more) == state
  {
    if more == [] {
      assert history + more == history;
    } else {
      var m := |more| - 1;
      assert forall i | 0 <= i < m :: more[..m][i] == more[i];
      Stays(history, more[..m], state);
      assert (history + more)[..|history| + m] == history + more[..m];
      assert !Ends(state, more[m]);
    }
  }

  lemma OneMore(history: seq<Event>, event: Event)
    ensures After(history + [event]) == Next(After(history), event)
  {
    assert (history + [event])[..|history|] == history;
  }

  // ---------- Histories that reach a state, read backwards ----------

  lemma {:induction false} ReachesConnecting(history: seq<Event>) returns (pre: seq<Event>, waiting: seq<Event>)
    requires After(history) == Connecting
    ensures history == pre + ([Connect] + waiting)
    ensures After(pre) == Disconnected && NoEnd(Connecting, waiting)
  {
    var m := |history| - 1;
    assert history == history[..m] + [history[m]];
    if After(history[..m]) == Connecting {
      pre, waiting := ReachesConnecting(history[..m]);
      waiting := waiting + [history[m]];
    } else {
      pre, waiting := history[..m], [];
    }
  }

  lemma {:induction false} ReachesAuthenticating(history: seq<Event>) returns (pre: seq<Event>, waiting: seq<Event>)
    requires After(history) == Authenticating
    ensures history == pre + ([SocketConnected] + waiting)
    ensures After(pre) == Connecting && NoEnd(Authenticating, waiting)
  {
    var m := |history| - 1;
    assert history == history[..m] + [history[m]];
    if After(history[..m]) == Authenticating {
      pre, waiting := ReachesAuthenticating(history[..m]);
      waiting := waiting + [history[m]];
    } else {
      pre, waiting := history[..m], [];
    }
  }

  lemma {:induction false} ReachesReady(history: seq<Event>) returns (pre: seq<Event>, since: seq<Event>)
    requires After(history) == Ready
    ensures history == pre + ([BytesReceived("AUTH_OK")] + since)
    ensures After(pre) == Authenticating && NoEnd(Ready, since)
  {
    var m := |history| - 1;
    assert history == history[..m] + [history[m]];
    if After(history[..m]) == Ready {
      pre, since := ReachesReady(history[..m]);
      since := since + [history[m]];
    } else {
      pre, since := history[..m], [];
    }
  }

  /** The shape of a history that leaves a connection ready for queries. */
  ghost predicate ReadyShape(history: seq<Event>, pre: seq<Event>, connecting: seq<Event>,
                             authenticating: seq<Event>, ready: seq<Event>)
  {
    && history == (((pre + ([Connect] + connecting)) + ([SocketConnected] + authenticating))
                   + ([BytesReceived("AUTH_OK")] + ready))
    && After(pre) == Disconnected
    && NoEnd(Connecting, connecting)
    && NoEnd(Authenticating, authenticating)
    && NoEnd(Ready, ready)
  }

  /** One phase: the event that enters a state, then only events that do not end the stay. */
  lemma Phase(history: seq<Event>, event: Event, more: seq<Event>, state: State)
    requires Next(After(history), event) == state && NoEnd(state, more)
    ensures After(history + ([event] + more)) == state
  {
    OneMore(history, event);
    Stays(history + [event], more, state);
    Regroup(history, [event], more);
  }

  /** Main result: a connection is ready exactly after a history of this shape: some history that left it
      disconnected; connect; no socket-connected or close until socket-connected; no authentication answer
      or close until AUTH_OK; and no close since. */
  lemma ReadyIff(history: seq<Event>)
    ensures After(history) == Ready <==>
            exists pre, connecting, authenticating, ready :: ReadyShape(history, pre, connecting, authenticating, ready)
  {
    if After(history) == Ready {
      var h2, ready := ReachesReady(history);
      var h1, authenticating := ReachesAuthenticating(h2);
      var pre, connecting := ReachesConnecting(h1);
      assert ReadyShape(history, pre, connecting, authenticating, ready);
    }
    if pre, connecting, authenticating, ready :| ReadyShape(history, pre, connecting, authenticating, ready) {
      var h1 := pre + ([Connect] + connecting);
      var h2 := h1 + ([SocketConnected] + authenticating);
      Phase(pre, Connect, connecting, Connecting);
      Phase(h1, SocketConnected, authenticating, Authenticating);
      Phase(h2, BytesReceived("AUTH_OK"), ready, Ready);
    }
  }

  /** A query executes exactly when the history before it has that shape; it never changes the state. */
  lemma QueryExecutesIff(history: seq<Event>, sql: string)
    ensures After(history + [SendQuery(sql)]) == After(history)
    ensures Executed(history + [SendQuery(sql)])
            == Executed(history)
               + if exists pre, connecting, authenticating, ready ::
                    ReadyShape(history, pre, connecting, authenticating, ready) then [sql] else []
  {
    ReadyIff(history);
    OneMore(history, SendQuery(sql));
    assert (history + [SendQuery(sql)])[..|history|] == history;
  }

  /** `authenticate` is not among the conditions: a connection gets ready, and runs a query, without it. */
  lemma ReadyWithoutAuthenticate()
    ensures var history := [Connect, SocketConnected, BytesReceived("AUTH_OK")];
            After(history) == Ready && Executed(history + [SendQuery("q")]) == ["q"]
  {
    var history := [Connect, SocketConnected, BytesReceived("AUTH_OK")];
    assert history[..2] == [Connect, SocketConnected] && history[..2][..1] == [Connect];
    assert After([Connect]) == Connecting && After(history[..2]) == Authenticating;
    assert Executed([Connect]) == Executed(history[..2]) == Executed(history) == [];
    assert (history + [SendQuery("q")])[..3] == history;
  }

  // ---------- The class ----------

  /** `Connection` with its state object; `history` and `executed` record the calls and the queries run. */
  class Connection {
    var state: State
    var executed: seq<string>
    ghost var history: seq<Event>

    ghost predicate Valid()
      reads this
    {
      state == After(history) && executed == Executed(history)
    }

    constructor ()
      ensures Valid() && history == []
      ensures state == Disconnected && executed == []
    {
      state, executed, history := Disconnected, [], [];
    }

    method TransitionTo(next: State)
      modifies this`state
      ensures state == next
    {
      state := next;
    }

    ghost method Record(event: Event)
      modifies this`history
      ensures history == old(history) + [event]
      ensures After(history) == Next(After(old(history)), event)
      ensures !event.SendQuery? ==> Executed(history) == Executed(old(history))
    {
      OneMore(history, event);
      assert (history + [event])[..|history|] == history;
      history := history + [event];
    }

    method ConnectCall()
      requires Valid()
      modifies this
      ensures Valid() && history == old(history) + [Connect]
      ensures state == if old(state) == Disconnected then Connecting else old(state)
      ensures executed == old(executed)
    {
      if state.Disconnected? {
        TransitionTo(Connecting);
      }
      Record(Connect);
    }

    method AuthenticateCall(token: string)
      requires Valid()
      modifies this`history
      ensures Valid() && history == old(history) + [Authenticate(token)]
      ensures state == old(state) && executed == old(executed)
    {
      Record(Authenticate(token));
    }

    method SendQueryCall(sql: string)
      requires Valid()
      modifies this
      ensures Valid() && history == old(history) + [SendQuery(sql)] && state == old(state)
      ensures executed == old(executed) + if old(state).Ready? then [sql] else []
    {
      if state.Ready? {
        executed := executed + [sql];
      }
      assert (history + [SendQuery(sql)])[..|history|] == history;
      Record(SendQuery(sql));
    }

    method OnSocketConnected()
      requires Valid()
      modifies this
      ensures Valid() && history == old(history) + [SocketConnected]
      ensures state == if old(state) == Connecting then Authenticating else old(state)
      ensures executed == old(executed)
    {
      if state.Connecting? {
        TransitionTo(Authenticating);
      }
      Record(SocketConnected);
    }

    method OnBytesReceived(bytes: string)
      requires Valid()
      modifies this
      ensures Valid() && history == old(history) + [BytesReceived(bytes)]
      ensures state == if old(state) == Authenticating && bytes == "AUTH_OK" then Ready
                       else if old(state) == Authenticating && bytes == "AUTH_FAIL" then Disconnected
                       else old(state)
      ensures executed == old(executed)
    {
      if state.Authenticating? {
        if bytes == AUTH_OK {
          TransitionTo(Ready);
        } else if bytes == AUTH_FAIL {
          TransitionTo(Disconnected);
        }
      }
      Record(BytesReceived(bytes));
    }

    method OnSocketClosed(reason: string)
      requires Valid()
      modifies this
      ensures Valid() && history == old(history) + [SocketClosed(reason)]
      ensures state == Disconnected && executed == old(executed)
    {
      if !state.Disconnected? {
        TransitionTo(Disconnected);
      }
      Record(SocketClosed(reason));
    }
  }
}
