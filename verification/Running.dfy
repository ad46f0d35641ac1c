/** A running server: the objects together with the run of the state machine they have gone through. */
module Running {
  import opened Names
  import opened Modes
  import opened Strings
  import opened Objects
  import opened Invariants
  import opened Replica
  import opened Runs
  import Guarantees
  import Dispatch
  import S = ServerState

  type Event = S.Event<Client, Channel?>

  lemma EventExtends<C, H>(run: seq<S.World<C, H>>, events: seq<S.Event<C, H>>, event: S.Event<C, H>)
    requires S.IsRun(run, events) && S.Possible(run[|events|], event)
    ensures S.IsRun(run + [S.Step(run[|events|], event)], events + [event])
  {
    hide S.Possible, S.Step;
  }

  class RunningServer {
    const server: Server
    ghost var worlds: seq<World>
    ghost var events: seq<Event>

    /** The objects are at the end of the run. */
    ghost predicate Valid()
      reads this, server, server.clients, server.allClients, server.allChannels
    {
      server.Owned() && S.IsRun(worlds, events) && worlds[|events|] == server.Abs()
    }

    constructor ()
      ensures Valid() && fresh(server) && events == []
    {
      server := new Server();
      new;
      worlds, events := [server.Abs()], [];
    }

    lemma ValidIsInv()
      requires Valid()
      ensures Inv(server.Abs())
    {
      hide Inv, S.IsRun, Server.Abs;
      assert |worlds| == |events| + 1 by { Length(worlds, events); }
      RunKeeps(worlds, events, |events|);
    }

    /** A connection is accepted. */
    method Accept(secure: bool, hostname: Name, noPassword: bool) returns (client: Client)
      requires Valid()
      modifies this`worlds, this`events, server`connections, server`allClients
      ensures Valid() && fresh(client) && server.allClients == old(server.allClients) + {client}
      ensures events == old(events) + [S.Connect(client, secure, hostname, noPassword)]
    {
      hide Inv, S.IsRun, Server.Abs, S.Closed, S.ChoicesFit, S.Process;
      ValidIsInv();
      server.ServerAt();
      Length(worlds, events);
      client := Dispatch.Accept(server, secure, hostname, noPassword);
      EventExtends(worlds, events, S.Connect(client, secure, hostname, noPassword));
      worlds := worlds + [server.Abs()];
      events := events + [S.Connect(client, secure, hostname, noPassword)];
    }

    /** A client's request is carried out. */
    method Process(client: Client, request: Dispatch.Request)
      requires Valid() && client in server.allClients && !client.hasQuit
      requires request.Single? ==> Dispatch.Proper(request.command)
      modifies this`worlds, this`events, server`names, server`connections, server`whoWas, server`allChannels,
               server.clients, server.allClients, server.allChannels
      ensures Valid()
      ensures exists commands: seq<Command> ::
                events == old(events) + Dispatch.Issued(client, commands) && client in old(server.Abs()).clients
                && Dispatch.Carries(request, old(server.Abs()), client, commands)
    {
      hide Inv, S.IsRun, Server.Abs, S.Possible, S.Step, Dispatch.Leads, Dispatch.Carries, Dispatch.Proper;
      ValidIsInv();
      server.ServerAt();
      var commands, steps := Dispatch.Process(server, client, request);
      Dispatch.LeadsExtends(worlds, events, steps, client, commands);
      Length(worlds, events);
      worlds := worlds + steps[1..];
      events := events + Dispatch.Issued(client, commands);
    }

    /** The shutdown notice goes out. */
    method Shutdown()
      requires Valid()
      modifies this`worlds, this`events, server.allClients
      ensures Valid() && events == old(events) + [S.Shutdown]
    {
      hide Inv, S.IsRun, Server.Abs, S.Closed, S.ChoicesFit, S.Process, S.Broadcast;
      ValidIsInv();
      Dispatch.Shutdown(server);
      EventExtends(worlds, events, S.Shutdown);
      Length(worlds, events);
      worlds := worlds + [server.Abs()];
      events := events + [S.Shutdown];
    }

    /** What a client was sent tells it the channels it is on, and the nicks of all their members. */
    lemma ClientKnowsItsChannels(client: Client)
      requires Valid() && client in server.allClients && client.registered && !client.hasQuit
      ensures var view := Replay(client.log);
              && view.self == client.nick
              && view.members.Keys == (set h | h in server.allChannels && client in h.members :: h.name)
              && (forall h :: h in server.allChannels && client in h.members ==>
                    view.members[h.name] == set m | m in h.members :: m.nick)
    {
      hide Inv, S.IsRun, Replay, Server.Abs, Guarantees.ChannelsOf, NicksOn, S.Closed;
      Length(worlds, events);
      server.ServerAt();
      server.ClientAt(client);
      ValidIsInv();
      Dispatch.InvReachable(server);
      Guarantees.ReplicaAgreement(worlds, events, |events|, client);
      ChannelsOfIs(server, client);
      forall h | h in server.allChannels && client in h.members
        ensures NicksOn(server.Abs(), h) == set m | m in h.members :: m.nick
        ensures h in server.Abs().channels && server.Abs().channels[h] == h.Rec()
      {
        server.ChannelAt(h);
        NicksOnIs(server, h);
      }
    }
  }

  lemma ChannelsOfIs(server: Server, client: Client)
    ensures Guarantees.ChannelsOf(server.Abs(), client) == set h | h in server.allChannels && client in h.members :: h.name
  {
    hide Server.Abs;
    server.ServerAt();
    server.AllAt();
  }

  lemma NicksOnIs(server: Server, channel: Channel)
    requires server.Valid() && channel in server.allChannels
    ensures channel in server.Abs().channels
    ensures NicksOn(server.Abs(), channel) == set m | m in channel.members :: m.nick
  {
    hide Server.Abs, S.Closed;
    server.MembersKnown();
    server.ServerAt();
    server.AllAt();
    assert forall m :: m in channel.members ==> m in channel.members.Keys;
  }

  lemma Length<C, H>(worlds: seq<S.World<C, H>>, events: seq<S.Event<C, H>>)
    requires S.IsRun(worlds, events)
    ensures |worlds| == |events| + 1
  {
    hide S.Possible, S.Step;
  }
}
