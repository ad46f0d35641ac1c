/** Commands as clients send them, each carried out as a sequence of steps of the state machine. */
module Dispatch {
  import opened Names
  import opened Modes
  import opened Strings
  import opened Objects
  import opened Invariants
  import opened Runs
  import opened Stays
  import Handlers
  import S = ServerState

  // -------------------------------------------------------------- sequences of steps

  /** The commands, issued by `c` one after the other, are possible and lead through these worlds. */
  ghost predicate Leads<C, H>(worlds: seq<S.World<C, H>>, c: C, commands: seq<S.Command<C, H>>) {
    && |worlds| == |commands| + 1
    && (forall i :: 0 <= i < |commands| ==>
          && S.Possible(worlds[i], S.Issue(c, commands[i]))
          && worlds[i + 1] == S.Step(worlds[i], S.Issue(c, commands[i])))
  }

  lemma LeadsNext<C, H>(worlds: seq<S.World<C, H>>, c: C, commands: seq<S.Command<C, H>>, command: S.Command<C, H>)
    requires Leads(worlds, c, commands)
    requires S.Possible(worlds[|commands|], S.Issue(c, command))
    ensures Leads(worlds + [S.Step(worlds[|commands|], S.Issue(c, command))], c, commands + [command])
  {
    hide S.Possible, S.Step;
  }

  function Issued<C, H>(c: C, commands: seq<S.Command<C, H>>): (events: seq<S.Event<C, H>>)
    ensures |events| == |commands|
  {
    seq(|commands|, i requires 0 <= i < |commands| => S.Issue(c, commands[i]))
  }

  /** A run can be continued by any such sequence of steps, so what holds of all runs holds of the objects. */
  lemma LeadsExtends<C, H>(run: seq<S.World<C, H>>, events: seq<S.Event<C, H>>,
                           worlds: seq<S.World<C, H>>, c: C, commands: seq<S.Command<C, H>>)
    requires S.IsRun(run, events) && Leads(worlds, c, commands) && worlds[0] == run[|events|]
    ensures S.IsRun(run + worlds[1..], events + Issued(c, commands))
  {
    hide S.Possible, S.Step;
    var all, issued := run + worlds[1..], events + Issued(c, commands);
    forall i | 0 <= i < |issued|
      ensures S.Possible(all[i], issued[i]) && all[i + 1] == S.Step(all[i], issued[i])
    {
      if |events| <= i {
        assert all[i] == worlds[i - |events|] && all[i + 1] == worlds[i - |events| + 1];
        assert issued[i] == S.Issue(c, commands[i - |events|]);
      }
    }
  }

  // --------------------------------------------------------------------- requests

  /** A command line. JOIN, PART, KICK and NAMES can name several channels. */
  datatype Request =
    | Single(command: Command)
    | Join(channels: map<Name, string>)
    | JoinZero
    | Part(names: seq<Name>)
    | Kick(kicks: map<Name, Name>)
    | Names(names: seq<Name>)

  function NameOf(command: Command): Name {
    match command
    case Join(name, _, _, _) => name
    case PartFrom(name) => name
    case KickFrom(name, _) => name
    case NamesOf(name, _) => name
    case _ => ""
  }

  function ObjectOf(command: Command): Channel? {
    match command
    case PartObject(channel) => channel
    case _ => null
  }

  function NamesIn(commands: seq<Command>): (names: seq<Name>)
    ensures |names| == |commands|
  {
    seq(|commands|, i requires 0 <= i < |commands| => NameOf(commands[i]))
  }

  function ObjectsIn(commands: seq<Command>): (channels: seq<Channel?>)
    ensures |channels| == |commands|
  {
    seq(|commands|, i requires 0 <= i < |commands| => ObjectOf(commands[i]))
  }

  /** The steps are those the request asks for: one for each channel it names, in some order or in the given one. */
  ghost predicate Carries(request: Request, w: World, c: Client, commands: seq<Command>)
    requires c in w.clients
  {
    if !w.clients[c].registered then
      commands == [if request.Single? then request.command else S.Unrecognised]
    else
      match request
      case Single(command) => commands == [command]
      case Join(channels) =>
        && S.Enumerates(NamesIn(commands), channels.Keys)
        && (forall x :: x in commands ==> x.Join? && x.channel in channels && x.key == channels[x.channel])
      case JoinZero =>
        && S.Enumerates(ObjectsIn(commands), w.clients[c].channels)
        && (forall x :: x in commands ==> x.PartObject?)
      case Part(names) =>
        && NamesIn(commands) == names
        && (forall x :: x in commands ==> x.PartFrom?)
      case Kick(kicks) =>
        && S.Enumerates(NamesIn(commands), kicks.Keys)
        && (forall x :: x in commands ==> x.KickFrom? && x.channel in kicks && x.nick == kicks[x.channel])
      case Names(names) =>
        && NamesIn(commands) == names
        && (forall x :: x in commands ==> x.NamesOf?)
  }

  // ---------------------------------------------------------------- between two steps

  /** The state between two commands. */
  ghost predicate Steady(server: Server, client: Client)
    reads server, server.clients, server.allClients, server.allChannels
  {
    && server.Owned()
    && client in server.allClients && client.server == server
    && Inv(server.Abs())
  }

  lemma SteadyIsReady(server: Server, client: Client)
    requires Steady(server, client)
    ensures Handlers.Ready(server, client) && Handlers.Reachable(server)
    ensures forall c :: c in server.clients.nicks.Values ==> c.hasQuit == c.closed
  {
    hide ReplicasOk, MembersOk, NamesOkBut, NicksOk;
    InvReachable(server);
    InvClosed(server.Abs(), {});
    server.ClientAt(client);
    assert LocalOk(server.Abs().clients[client]);
  }

  /** The client is still there and sends commands. */
  ghost predicate Active(w: World, c: Client) {
    c in w.clients && w.clients[c].registered && !w.clients[c].hasQuit
  }

  /** The commands have led from `start` to here, where the client is still active. */
  ghost predicate Along(worlds: seq<World>, start: World, server: Server, client: Client, commands: seq<Command>)
    reads server, server.clients, server.allClients, server.allChannels
  {
    && Steady(server, client)
    && |worlds| == |commands| + 1 && Leads(worlds, client, commands)
    && worlds[0] == start && worlds[|commands|] == server.Abs()
    && Active(server.Abs(), client)
  }

  /** One more step has been taken. */
  lemma StepTaken(worlds: seq<World>, c: Client, commands: seq<Command>, command: Command)
    requires |worlds| == |commands| + 1 && Leads(worlds, c, commands) && ActsOnMembers(command)
    requires Inv(worlds[|commands|]) && Active(worlds[|commands|], c)
    requires S.Closed(worlds[|commands|]) && S.ChoicesFit(worlds[|commands|], c, command)
    ensures var mid := worlds[|commands|];
            var w := S.AfterRegistration(mid, c, command);
            && Inv(w) && Active(w, c) && Leads(worlds + [w], c, commands + [command])
            && mid.clients[c].channels <= w.clients[c].channels
  {
    hide Inv, Leads, S.AfterRegistration, S.ChoicesFit, S.Closed;
    var mid := worlds[|commands|];
    StepKeeps(mid, S.Issue(c, command));
    MemberCommandStay(mid, c, command);
    LeadsNext(worlds, c, commands, command);
  }

  // The steps of the loops below.

  lemma JoinIs(w: World, c: Client, name: Name, key: string, made: Channel?, order: seq<Client>)
    requires S.Closed(w) && c in w.clients && S.JoinOrderFits(w, c, name, key, made, order)
    ensures var command := S.Join(name, key, made, order);
            S.ChoicesFit(w, c, command) && S.AfterRegistration(w, c, command) == S.JoinName(w, c, name, key, made, order)
  {
  }

  lemma PartIs(w: World, c: Client, name: Name)
    requires S.Closed(w) && c in w.clients
    ensures S.ChoicesFit(w, c, S.PartFrom(name))
    ensures S.AfterRegistration(w, c, S.PartFrom(name)) == S.PartName(w, c, name)
  {
  }

  lemma PartObjectIs(w: World, c: Client, h: Channel)
    requires S.Closed(w) && c in w.clients && h in w.clients[c].channels && h in w.channels
    ensures S.ChoicesFit(w, c, S.PartObject(h))
    ensures S.AfterRegistration(w, c, S.PartObject(h)) == S.Part(w, h, c)
  {
  }

  lemma KickIs(w: World, c: Client, name: Name, nick: Name)
    requires S.Closed(w) && c in w.clients
    ensures S.ChoicesFit(w, c, S.KickFrom(name, nick))
    ensures S.AfterRegistration(w, c, S.KickFrom(name, nick)) == S.KickName(w, c, name, nick)
  {
  }

  lemma NamesIs(w: World, c: Client, name: Name, order: seq<Client>)
    requires S.Closed(w) && c in w.clients && S.NamesOrderFits(w, name, order)
    ensures S.ChoicesFit(w, c, S.NamesOf(name, order))
    ensures S.AfterRegistration(w, c, S.NamesOf(name, order)) == S.NamesName(w, c, name, order)
  {
  }

  lemma NamesNext(commands: seq<Command>, command: Command)
    ensures NamesIn(commands + [command]) == NamesIn(commands) + [NameOf(command)]
    ensures ObjectsIn(commands + [command]) == ObjectsIn(commands) + [ObjectOf(command)]
  {
  }

  // ------------------------------------------------------------------------ loops

  /** JOIN: the channels are visited in whichever order the map yields them. */
  method JoinAll(server: Server, client: Client, channels: map<Name, string>)
    returns (ghost commands: seq<Command>, ghost worlds: seq<World>)
    requires Steady(server, client) && client.registered && !client.hasQuit
    modifies server`names, server`allChannels, server.allClients, server.allChannels
    ensures Carries(Request.Join(channels), old(server.Abs()), client, commands)
    ensures Along(worlds, old(server.Abs()), server, client, commands)
  {
    hide Server.Abs, Inv, Leads, NamesIn, ObjectsIn, S.JoinName, S.JoinOrderFits, S.Enumerates, S.Closed, S.AfterRegistration, S.ChoicesFit;
    ghost var start := server.Abs();
    Begin(server, client);
    commands, worlds := [], [start];
    var todo := channels.Keys;
    while todo != {}
      invariant todo <= channels.Keys
      invariant S.Enumerates(NamesIn(commands), channels.Keys - todo)
      invariant forall x :: x in commands ==> x.Join? && x.channel in channels && x.key == channels[x.channel]
      invariant Along(worlds, start, server, client, commands)
      invariant server.allClients == old(server.allClients) && fresh(server.allChannels - old(server.allChannels))
    {
      var name :| name in todo;
      SteadyIsReady(server, client);
      ghost var mid := server.Abs();
      var made, order := Handlers.JoinOne(server, client, name, channels[name]);
      ghost var command: Command := S.Join(name, channels[name], made, order);
      JoinIs(mid, client, name, channels[name], made, order);
      StepTaken(worlds, client, commands, command);
      NamesNext(commands, command);
      EnumeratesMore(NamesIn(commands), channels.Keys - todo, name);
      assert channels.Keys - todo + {name} == channels.Keys - (todo - {name});
      commands, worlds := commands + [command], worlds + [server.Abs()];
      todo := todo - {name};
    }
    assert channels.Keys - todo == channels.Keys;
  }

  lemma Begin(server: Server, client: Client)
    requires Steady(server, client) && client.registered && !client.hasQuit
    ensures Along([server.Abs()], server.Abs(), server, client, [])
    ensures forall s: set<Name> :: S.Enumerates(NamesIn([]), s - s)
  {
    hide Inv;
  }

  /** JOIN 0: leave every channel the client has ever joined; those it has left answer that it is not on them. */
  method PartAll(server: Server, client: Client) returns (ghost commands: seq<Command>, ghost worlds: seq<World>)
    requires Steady(server, client) && client.registered && !client.hasQuit
    modifies server`names, server.allClients, server.allChannels
    ensures Carries(JoinZero, old(server.Abs()), client, commands)
    ensures Along(worlds, old(server.Abs()), server, client, commands)
  {
    hide Server.Abs, Inv, Leads, NamesIn, ObjectsIn, S.Part, S.Enumerates, S.Closed, S.AfterRegistration, S.ChoicesFit;
    ghost var start := server.Abs();
    server.ClientAt(client);
    Begin(server, client);
    BeginObjects(client.channels);
    commands, worlds := [], [start];
    var channels := client.channels;
    var todo := channels;
    while todo != {}
      invariant Along(worlds, start, server, client, commands)
      invariant todo <= channels && channels <= server.Abs().clients[client].channels
      invariant S.Enumerates(ObjectsIn(commands), channels - todo)
      invariant forall x :: x in commands ==> x.PartObject?
    {
      var channel :| channel in todo;
      SteadyIsReady(server, client);
      ghost var mid := server.Abs();
      server.ClientAt(client);
      PartOneObject(server, client, channel);
      ghost var command: Command := S.PartObject(channel);
      PartObjectIs(mid, client, channel);
      StepTaken(worlds, client, commands, command);
      NamesNext(commands, command);
      EnumeratesMore(ObjectsIn(commands), channels - todo, channel);
      assert channels - todo + {channel} == channels - (todo - {channel});
      commands, worlds := commands + [command], worlds + [server.Abs()];
      todo := todo - {channel};
    }
    assert channels - todo == channels;
  }

  method PartOneObject(server: Server, client: Client, channel: Channel)
    requires Handlers.Ready(server, client) && channel in client.channels
    modifies server`names, server.allClients, server.allChannels
    ensures server.Abs().clients.Keys == old(server.Abs()).clients.Keys && channel in old(server.Abs()).channels
    ensures server.Abs() == S.Part(old(server.Abs()), channel, client)
  {
    hide Server.Abs, S.Part, S.Closed;
    server.ServerAt();
    server.MembersKnown();
    channel.Part(client);
    server.ServerAt();
  }

  lemma BeginObjects(channels: set<Channel>)
    ensures S.Enumerates(ObjectsIn([]), channels - channels)
  {
  }

  /** PART, in the given order. */
  method PartEach(server: Server, client: Client, names: seq<Name>)
    returns (ghost commands: seq<Command>, ghost worlds: seq<World>)
    requires Steady(server, client) && client.registered && !client.hasQuit
    modifies server`names, server.allClients, server.allChannels
    ensures Carries(Request.Part(names), old(server.Abs()), client, commands)
    ensures Along(worlds, old(server.Abs()), server, client, commands)
  {
    hide Server.Abs, Inv, Leads, NamesIn, ObjectsIn, S.PartName, S.Closed, S.AfterRegistration, S.ChoicesFit;
    ghost var start := server.Abs();
    server.ClientAt(client);
    Begin(server, client);
    commands, worlds := [], [start];
    for i := 0 to |names|
      invariant NamesIn(commands) == names[..i]
      invariant forall x :: x in commands ==> x.PartFrom?
      invariant Along(worlds, start, server, client, commands)
    {
      SteadyIsReady(server, client);
      ghost var mid := server.Abs();
      Handlers.PartOne(server, client, names[i]);
      ghost var command: Command := S.PartFrom(names[i]);
      PartIs(mid, client, names[i]);
      StepTaken(worlds, client, commands, command);
      NamesNext(commands, command);
      assert names[..i + 1] == names[..i] + [names[i]];
      commands, worlds := commands + [command], worlds + [server.Abs()];
    }
  }

  /** KICK: one nickname for each channel. */
  method KickEach(server: Server, client: Client, kicks: map<Name, Name>)
    returns (ghost commands: seq<Command>, ghost worlds: seq<World>)
    requires Steady(server, client) && client.registered && !client.hasQuit
    modifies server`names, server.allClients, server.allChannels
    ensures Carries(Request.Kick(kicks), old(server.Abs()), client, commands)
    ensures Along(worlds, old(server.Abs()), server, client, commands)
  {
    hide Server.Abs, Inv, Leads, NamesIn, ObjectsIn, S.KickName, S.Enumerates, S.Closed, S.AfterRegistration, S.ChoicesFit;
    ghost var start := server.Abs();
    server.ClientAt(client);
    Begin(server, client);
    commands, worlds := [], [start];
    var todo := kicks.Keys;
    while todo != {}
      invariant todo <= kicks.Keys
      invariant S.Enumerates(NamesIn(commands), kicks.Keys - todo)
      invariant forall x :: x in commands ==> x.KickFrom? && x.channel in kicks && x.nick == kicks[x.channel]
      invariant Along(worlds, start, server, client, commands)
    {
      var name :| name in todo;
      SteadyIsReady(server, client);
      ghost var mid := server.Abs();
      Handlers.KickOne(server, client, name, kicks[name]);
      ghost var command: Command := S.KickFrom(name, kicks[name]);
      KickIs(mid, client, name, kicks[name]);
      StepTaken(worlds, client, commands, command);
      NamesNext(commands, command);
      EnumeratesMore(NamesIn(commands), kicks.Keys - todo, name);
      assert kicks.Keys - todo + {name} == kicks.Keys - (todo - {name});
      commands, worlds := commands + [command], worlds + [server.Abs()];
      todo := todo - {name};
    }
    assert kicks.Keys - todo == kicks.Keys;
  }

  /** NAMES, in the given order. */
  method NamesEach(server: Server, client: Client, names: seq<Name>)
    returns (ghost commands: seq<Command>, ghost worlds: seq<World>)
    requires Steady(server, client) && client.registered && !client.hasQuit
    modifies server.allClients
    ensures Carries(Request.Names(names), old(server.Abs()), client, commands)
    ensures Along(worlds, old(server.Abs()), server, client, commands)
  {
    hide Server.Abs, Inv, Leads, NamesIn, ObjectsIn, S.NamesName, S.NamesOrderFits, S.Closed, S.AfterRegistration, S.ChoicesFit;
    ghost var start := server.Abs();
    server.ClientAt(client);
    Begin(server, client);
    commands, worlds := [], [start];
    for i := 0 to |names|
      invariant NamesIn(commands) == names[..i]
      invariant forall x :: x in commands ==> x.NamesOf?
      invariant Along(worlds, start, server, client, commands)
    {
      SteadyIsReady(server, client);
      ghost var mid := server.Abs();
      var order := Handlers.NamesOne(server, client, names[i]);
      ghost var command: Command := S.NamesOf(names[i], order);
      NamesIs(mid, client, names[i], order);
      StepTaken(worlds, client, commands, command);
      NamesNext(commands, command);
      assert names[..i + 1] == names[..i] + [names[i]];
      commands, worlds := commands + [command], worlds + [server.Abs()];
    }
  }

  // ------------------------------------------------------------------- one command

  /** Before registration only six commands are known; any other one ends the connection. */
  method BeforeRegistration(server: Server, client: Client, command: Command)
    requires Steady(server, client)
    modifies server`names, server`connections, server`whoWas, server.clients, server.allClients, server.allChannels
    ensures server.Abs() == S.BeforeRegistration(old(server.Abs()), client, command)
  {
    hide Server.Abs, Inv, S.RegisterNick, S.RegisterUser, S.Negotiate, S.AuthenticateWith, S.Quit, S.Closed;
    SteadyIsReady(server, client);
    server.ClientAt(client);
    match command {
      case Pass(accepted) => Handlers.PassBeforeRegistration(server, client, accepted);
      case Nick(nick) => Handlers.NickBeforeRegistration(server, client, nick);
      case User(username, flags) => Handlers.UserBeforeRegistration(server, client, username, flags);
      case Cap(sub, capabilities) => Handlers.CapBeforeRegistration(server, client, sub, capabilities);
      case Authenticate(arg) => Handlers.AuthenticateBeforeRegistration(server, client, arg);
      case _ => client.Quit();
    }
  }

  /** A single command. The new nick of an ONICK is not empty. */
  predicate Proper(command: Command) {
    !ActsOnMembers(command) && (command.OperNick? ==> command.nick != "")
  }

  lemma ProperFits(server: Server, client: Client, command: Command)
    requires client in server.allClients && S.Closed(server.Abs()) && Proper(command)
    ensures S.ChoicesFit(server.Abs(), client, command)
  {
  }

  method AfterRegistration(server: Server, client: Client, command: Command)
    requires Steady(server, client) && client.registered && Proper(command)
    modifies server`names, server`connections, server`whoWas, server.clients, server.allClients, server.allChannels
    ensures S.Closed(old(server.Abs())) && S.ChoicesFit(old(server.Abs()), client, command)
    ensures server.Abs() == S.AfterRegistration(old(server.Abs()), client, command)
  {
    hide Server.Abs, Inv, S.NickRequest, S.Quit, S.ChangeUserModes, S.ModesName, S.TopicName, S.InviteName, S.TellName, S.BecomeOperator,
      S.OperNickRequest, S.KillNick, S.LUsers, S.Say, S.Closed, S.Broadcast;
    SteadyIsReady(server, client);
    ProperFits(server, client, command);
    server.ClientAt(client);
    match command {
      case Pass(_) => client.Reply(S.Numeric(462));
      case Nick(nick) => Handlers.Nick(server, client, nick);
      case User(_, _) => client.Reply(S.Numeric(462));
      case Cap(_, _) => client.Reply(S.Numeric(421));
      case Authenticate(_) => client.Reply(S.Numeric(421));
      case QuitCommand => client.Quit();
      case UserModes(nick, changes) => Handlers.UserModes(server, client, nick, changes);
      case SetModes(name, changes) => Handlers.SetModes(server, client, name, changes);
      case Topic(name, topic) => Handlers.SetTopic(server, client, name, topic);
      case InviteTo(nick, name) => Handlers.Invite(server, client, nick, name);
      case Oper(accepted) => Handlers.Oper(server, client, accepted);
      case OperNick(target, nick) => Handlers.OperNick(server, client, target, nick);
      case Away(text) => Handlers.Away(server, client, text);
      case Wallops => Handlers.Wallops(server, client);
      case Tell(notice, target) => Handlers.Tell(server, client, notice, target);
      case Kill(nick) => Handlers.Kill(server, client, nick);
      case ListUsers =>
        server.MembersKnown();
        server.LUsers(client);
      case Unrecognised => client.Reply(S.Numeric(421));
    }
  }

  // -------------------------------------------------------------- the server's events

  lemma OneStep(w: World, c: Client, command: Command)
    requires Inv(w) && S.Closed(w) && c in w.clients && !w.clients[c].hasQuit && S.ChoicesFit(w, c, command)
    ensures Inv(S.Process(w, c, command))
    ensures Leads([w, S.Process(w, c, command)], c, [command])
  {
    hide Inv, S.Process, S.ChoicesFit, S.Closed;
    StepKeeps(w, S.Issue(c, command));
  }

  /** One command, once it is known whether the client has registered. */
  method ProcessOne(server: Server, client: Client, command: Command) returns (ghost worlds: seq<World>)
    requires Steady(server, client) && !client.hasQuit && Proper(command)
    modifies server`names, server`connections, server`whoWas, server.clients, server.allClients, server.allChannels
    ensures server.Owned() && Inv(server.Abs())
    ensures worlds == [old(server.Abs()), server.Abs()] && Leads(worlds, client, [command])
  {
    hide Server.Abs, Inv, Leads, S.BeforeRegistration, S.AfterRegistration, S.ChoicesFit, S.Closed;
    ghost var start := server.Abs();
    SteadyIsReady(server, client);
    server.ClientAt(client);
    ProperFits(server, client, command);
    OneStep(start, client, command);
    if client.registered {
      AfterRegistration(server, client, command);
    } else {
      BeforeRegistration(server, client, command);
    }
    worlds := [start, server.Abs()];
  }

  /** What a client sends is carried out as steps of the machine that its request asks for, and the invariant is kept. */
  method Process(server: Server, client: Client, request: Request)
    returns (ghost commands: seq<Command>, ghost worlds: seq<World>)
    requires Steady(server, client) && !client.hasQuit
    requires request.Single? ==> Proper(request.command)
    modifies server`names, server`connections, server`whoWas, server`allChannels, server.clients, server.allClients,
             server.allChannels
    ensures server.Owned() && Inv(server.Abs())
    ensures Carries(request, old(server.Abs()), client, commands)
    ensures |worlds| == |commands| + 1 && Leads(worlds, client, commands)
    ensures worlds[0] == old(server.Abs()) && worlds[|commands|] == server.Abs()
  {
    hide Server.Abs, Inv, Leads, S.Enumerates, S.ChoicesFit, S.Closed;
    server.ClientAt(client);
    if !client.registered || request.Single? {
      var command := if request.Single? then request.command else S.Unrecognised;
      commands := [command];
      worlds := ProcessOne(server, client, command);
      return;
    }
    match request {
      case Join(channels) => commands, worlds := JoinAll(server, client, channels);
      case JoinZero => commands, worlds := PartAll(server, client);
      case Part(names) => commands, worlds := PartEach(server, client, names);
      case Kick(kicks) => commands, worlds := KickEach(server, client, kicks);
      case Names(names) => commands, worlds := NamesEach(server, client, names);
    }
  }

  /** A connection is accepted. */
  method Accept(server: Server, secure: bool, hostname: Name, noPassword: bool) returns (client: Client)
    requires server.Owned() && Inv(server.Abs())
    modifies server`connections, server`allClients
    ensures fresh(client) && Steady(server, client) && server.allClients == old(server.allClients) + {client}
    ensures server.Abs() == S.Step(old(server.Abs()), S.Connect(client, secure, hostname, noPassword))
  {
    hide Server.Abs, Inv, S.Closed;
    InvReachable(server);
    server.ServerAt();
    client := server.Connect(secure, hostname, noPassword);
    StepKeeps(old(server.Abs()), S.Connect(client, secure, hostname, noPassword));
  }

  /** Everybody is told before the server stops. */
  method Shutdown(server: Server)
    requires server.Owned() && Inv(server.Abs())
    modifies server.allClients
    ensures server.Owned() && Inv(server.Abs())
    ensures server.Abs() == S.Step(old(server.Abs()), S.Shutdown)
  {
    hide Server.Abs, Inv, S.Closed, S.Broadcast;
    InvReachable(server);
    server.SendDirectly(false, S.Message("NOTICE"));
    StepKeeps(old(server.Abs()), S.Shutdown);
  }

  lemma InvReachable(server: Server)
    requires server.Owned() && Inv(server.Abs())
    ensures server.Valid() && Handlers.Reachable(server) && server.clients.nicks.Values <= server.allClients
  {
    hide ReplicasOk, MembersOk, NamesOkBut;
    InvClosed(server.Abs(), {});
    server.MembersKnown();
    server.AllAt();
    server.ServerAt();
    forall k | k in server.clients.nicks
      ensures !server.clients.nicks[k].hasQuit && !server.clients.nicks[k].closed
      ensures LOWER(server.clients.nicks[k].nick) == k
    {
      assert LocalOk(server.Abs().clients[server.clients.nicks[k]]);
    }
  }
}
