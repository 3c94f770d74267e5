/** The two ends as objects: the server's tables and the client's filters, updated in place by
    their handlers. Each handler is a step of the protocol and keeps the tables' invariant; what
    that means to a caller is stated beside it. */
module ConnectorServer {
  import opened Wrappers
  import opened Sessions
  import opened SessionTheorems
  import Theorems = SessionTheorems

  class ConnectorServer {
    var connections: map<Id, Backend>
    var securityContexts: set<Id>
    var listeners: map<Backend, seq<Id>>
    var outstanding: map<Request, Outstanding>
    var nextId: Id
    var nextBackend: Backend
    ghost var history: History

    ghost function Snapshot(): Server
      reads this
    {
      Server(connections, securityContexts, listeners, outstanding, nextId, nextBackend, history)
    }

    /** The tables hold exactly what is issued and not disconnected, and every connection object has
        one listener for each login completed on it. */
    ghost predicate Valid()
      reads this
    {
      ServerOk(Snapshot()) && outstanding.Keys <= history.requested
    }

    /** An ID that was issued and not disconnected since. */
    ghost predicate IsLive(id: Id)
      reads this
    {
      Theorems.IsLive(Snapshot(), id)
    }

    constructor ()
      ensures Snapshot() == Initial().server && Valid()
    {
      connections, securityContexts, listeners, outstanding := map[], {}, map[], map[];
      nextId, nextBackend := 0, 0;
      history := NO_HISTORY;
    }

    /** Nothing is issued before the backend has connected. */
    method ConnectionManagerConnect(r: Request) returns (sent: seq<Message>)
      requires Valid() && r !in history.requested
      modifies this
      ensures Valid() && ServerStep(old(Snapshot()), Connect(r)) == Some((Snapshot(), sent))
      ensures sent == [] && r in outstanding && history.called == old(history.called)
      ensures forall id :: IsLive(id) <==> old(IsLive(id))
    {
      ghost var before := Snapshot();
      history := history.(requested := history.requested + {r});
      outstanding := outstanding[r := Connecting];
      sent := [];
      ServerPreserved(before, Connect(r), Snapshot(), sent);
    }

    /** A live ID dies before its backend is called, once; any other gets one failure, and nothing is
        called. */
    method ConnectionDisconnect(r: Request, connectionID: Id) returns (sent: seq<Message>)
      requires Valid() && r !in history.requested
      modifies this
      ensures Valid() && ServerStep(old(Snapshot()), Disconnect(r, connectionID)) == Some((Snapshot(), sent))
      ensures forall id :: IsLive(id) <==> id != connectionID && old(IsLive(id))
      ensures old(IsLive(connectionID)) ==>
                sent == [] && r in outstanding && history.called == old(history.called) + [connectionID]
      ensures !old(IsLive(connectionID)) ==>
                sent == [Ack(r, Failed)] && r !in outstanding && history.called == old(history.called)
    {
      ghost var before := Snapshot();
      history := history.(requested := history.requested + {r});
      if connectionID !in connections {
        sent := [Ack(r, Failed)];
      } else {
        connections := connections - {connectionID};
        history := history.(retired := history.retired + {connectionID}, called := history.called + [connectionID]);
        outstanding := outstanding[r := Disconnecting];
        sent := [];
      }
      ServerPreserved(before, Disconnect(r, connectionID), Snapshot(), sent);
    }

    /** A login on a live ID reaches the connection object that was issued under this very ID; on any
        other it gets one failure, and nothing is called. */
    method ConnectionLogin(r: Request, connectionID: Id) returns (sent: seq<Message>)
      requires Valid() && r !in history.requested
      modifies this
      ensures Valid() && ServerStep(old(Snapshot()), Login(r, connectionID)) == Some((Snapshot(), sent))
      ensures forall id :: IsLive(id) <==> old(IsLive(id))
      ensures IsLive(connectionID) ==>
                && sent == [] && history.called == old(history.called) + [connectionID]
                && r in outstanding && outstanding[r].LoggingIn? && outstanding[r].id == connectionID
                && outstanding[r].backend in history.owner && history.owner[outstanding[r].backend] == connectionID
      ensures !IsLive(connectionID) ==>
                sent == [Ack(r, Failed)] && r !in outstanding && history.called == old(history.called)
    {
      ghost var before := Snapshot();
      history := history.(requested := history.requested + {r});
      if connectionID !in connections {
        sent := [Ack(r, Failed)];
      } else {
        history := history.(called := history.called + [connectionID]);
        outstanding := outstanding[r := LoggingIn(connectionID, connections[connectionID])];
        sent := [];
      }
      ServerPreserved(before, Login(r, connectionID), Snapshot(), sent);
    }

    /** Install, start, deploy, undeploy, ping, query, invoke, create identity, list, create
        transaction ID: the backend is called exactly for a live ID and a known security context;
        everything else gets one failure. */
    method ConnectionCall(r: Request, connectionID: Id, securityContextID: Id) returns (sent: seq<Message>)
      requires Valid() && r !in history.requested
      modifies this
      ensures Valid() && ServerStep(old(Snapshot()), Call(r, connectionID, securityContextID)) == Some((Snapshot(), sent))
      ensures forall id :: IsLive(id) <==> old(IsLive(id))
      ensures IsLive(connectionID) && securityContextID in securityContexts ==>
                sent == [] && r in outstanding && history.called == old(history.called) + [connectionID]
      ensures !(IsLive(connectionID) && securityContextID in securityContexts) ==>
                sent == [Ack(r, Failed)] && r !in outstanding && history.called == old(history.called)
    {
      ghost var before := Snapshot();
      history := history.(requested := history.requested + {r});
      if connectionID !in connections {
        sent := [Ack(r, Failed)];
      } else if securityContextID !in securityContexts {
        sent := [Ack(r, Failed)];
      } else {
        history := history.(called := history.called + [connectionID]);
        outstanding := outstanding[r := Calling];
        sent := [];
      }
      ServerPreserved(before, Call(r, connectionID, securityContextID), Snapshot(), sent);
    }

    /** The then-branch of a handler: the one answer of its request. A connect makes an ID live that
        never was before; a login makes the new security context it answers with known, and its
        connection object emit once more, under its own ID; nothing else changes what is live, what
        is known or who listens. */
    method OnResolve(r: Request) returns (sent: seq<Message>)
      requires Valid() && r in outstanding
      modifies this
      ensures Valid() && ServerStep(old(Snapshot()), Resolve(r)) == Some((Snapshot(), sent))
      ensures |sent| == 1 && sent[0].Ack? && sent[0].request == r && sent[0].reply != Failed
      ensures outstanding == old(outstanding) - {r} && history.called == old(history.called)
      ensures sent[0].reply.Connected? <==> old(outstanding[r].Connecting?)
      ensures sent[0].reply.Connected? ==> sent[0].reply.id !in old(history.issued)
      ensures forall id :: IsLive(id) <==> old(IsLive(id)) || sent[0].reply == Connected(id)
      ensures old(outstanding[r].LoggingIn?) ==>
                && sent[0].reply.LoggedIn? && sent[0].reply.context !in old(securityContexts)
                && securityContexts == old(securityContexts) + {sent[0].reply.context}
      ensures !old(outstanding[r].LoggingIn?) ==> securityContexts == old(securityContexts)
      ensures forall b <- old(listeners) ::
                b in listeners && b in old(history.owner) &&
                listeners[b] == old(listeners[b]) +
                  if old(outstanding[r].LoggingIn?) && b == old(outstanding[r].backend) then [old(history.owner[b])] else []
    {
      ghost var before := Snapshot();
      sent := Complete(r);
      ServerPreserved(before, Resolve(r), Snapshot(), sent);
      ResolveAnswers(before, r, Snapshot(), sent);
      ResolveContexts(before, r, Snapshot(), sent);
      ResolveListens(before, r, Snapshot(), sent);
    }

    /** The statements of the then-branches. */
    method Complete(r: Request) returns (sent: seq<Message>)
      requires r in outstanding
      modifies this
      ensures ServerStep(old(Snapshot()), Resolve(r)) == Some((Snapshot(), sent))
    {
      var o := outstanding[r];
      outstanding := outstanding - {r};
      match o {
        case Connecting =>
          var connectionID, connection := nextId, nextBackend;
          nextId, nextBackend := nextId + 1, nextBackend + 1;
          connections := connections[connectionID := connection];
          listeners := listeners[connection := []];
          history := history.(issued := history.issued + {connectionID}, owner := history.owner[connection := connectionID]);
          sent := [Ack(r, Connected(connectionID))];
        case LoggingIn(connectionID, connection) =>
          var securityContextID := nextId;
          nextId := nextId + 1;
          securityContexts := securityContexts + {securityContextID};
          sent := [Ack(r, LoggedIn(securityContextID))];
          listeners := listeners[connection := Get(listeners, connection) + [connectionID]];
          history := history.(logins := history.logins[connectionID := Count(history.logins, connectionID) + 1]);
        case Disconnecting =>
          sent := [Ack(r, Succeeded)];
        case Calling =>
          sent := [Ack(r, Succeeded)];
      }
    }

    /** The catch-branch of a handler: one failure, and no table changes, so that an ID whose disconnect
        failed stays dead. */
    method OnReject(r: Request) returns (sent: seq<Message>)
      requires Valid() && r in outstanding
      modifies this
      ensures Valid() && ServerStep(old(Snapshot()), Reject(r)) == Some((Snapshot(), sent))
      ensures sent == [Ack(r, Failed)] && outstanding == old(outstanding) - {r}
      ensures connections == old(connections) && securityContexts == old(securityContexts) && listeners == old(listeners)
      ensures forall id :: IsLive(id) <==> old(IsLive(id))
    {
      ghost var before := Snapshot();
      outstanding := outstanding - {r};
      sent := [Ack(r, Failed)];
      ServerPreserved(before, Reject(r), Snapshot(), sent);
    }

    /** A connection object raises 'events': each of its listeners emits on the socket, once for every
        login completed on it, and all under the ID it was issued under. */
    method OnEvent(connection: Backend, event: Event) returns (sent: seq<Message>)
      requires Valid() && connection in listeners && connection in history.owner
      modifies this
      ensures Valid() && ServerStep(old(Snapshot()), Raise(connection, event)) == Some((Snapshot(), sent))
      ensures |sent| == old(Count(history.logins, history.owner[connection]))
      ensures forall m <- sent :: m == Raised(old(history.owner[connection]), event)
    {
      ghost var before := Snapshot();
      sent := [];
      for i := 0 to |listeners[connection]|
        invariant Snapshot() == old(Snapshot())
        invariant sent == Messages(listeners[connection][..i], event)
      {
        assert listeners[connection][..i + 1] == listeners[connection][..i] + [listeners[connection][i]];
        sent := sent + [Raised(listeners[connection][i], event)];
      }
      assert listeners[connection][..|listeners[connection]|] == listeners[connection];
      history := Emit(Snapshot(), connection, event).0.history;
      ServerPreserved(before, Raise(connection, event), Snapshot(), sent);
    }
  }

  class ProxyConnectionManager {
    var answers: seq<Request>
    var filters: seq<Id>
    var delivered: map<Id, seq<Event>>

    ghost function Snapshot(): Client
      reads this
    {
      Client(answers, filters, delivered)
    }

    constructor ()
      ensures Snapshot() == Initial().client
    {
      answers, filters, delivered := [], [], map[];
    }

    method OnMessage(m: Message)
      modifies this
      ensures Snapshot() == ClientStep(old(Snapshot()), m)
    {
      match m {
        case Ack(r, reply) =>
          answers := answers + [r];
          if reply.Connected? {
            filters := filters + [reply.id];
          }
        case Raised(id, event) =>
          for i := 0 to |filters|
            invariant answers == old(answers) && filters == old(filters)
            invariant Dispatch(delivered, filters[i..], id, event) == Dispatch(old(delivered), filters, id, event)
          {
            assert filters[i..][0] == filters[i] && filters[i..][1..] == filters[i + 1..];
            if filters[i] == id {
              delivered := delivered[id := Get(delivered, id) + [event]];
            }
          }
      }
    }
  }
}
