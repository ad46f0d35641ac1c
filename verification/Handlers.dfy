/** What the server does for each command, as programs over the objects. */
module Handlers {
  import opened Names
  import opened Modes
  import opened Strings
  import opened Objects
  import opened Composition
  import opened Runs
  import Sasl
  import S = ServerState

  /** The client is the server's, and its reply channel is closed exactly if it has quit. */
  ghost predicate Ready(server: Server, client: Client)
    reads server, server.clients, server.allClients, server.allChannels, client
  {
    && server.Valid()
    && client in server.allClients && client.server == server
    && client.hasQuit == client.closed
  }

  // ----------------------------------------------------------- before registration

  /** An unauthorized client is told so and disconnected. */
  method TurnAway(server: Server, client: Client)
    requires Ready(server, client)
    modifies server`names, server`connections, server`whoWas, server.clients, server.allClients, server.allChannels
    ensures server.Abs() == S.TurnAway(old(server.Abs()), client)
  {
    hide Server.Abs, S.Quit, S.Closed;
    server.ServerAt();
    server.ClientAt(client);
    client.Reply(S.Numeric(464));
    StaysClosed(old(server.Abs()), server.Abs());
    client.Quit();
  }

  method PassBeforeRegistration(server: Server, client: Client, accepted: bool)
    requires Ready(server, client)
    modifies server`names, server`connections, server`whoWas, server.clients, server.allClients, server.allChannels
    ensures server.Abs() == S.BeforeRegistration(old(server.Abs()), client, S.Pass(accepted))
  {
    hide Server.Abs, S.TurnAway;
    server.ClientAt(client);
    if !accepted {
      TurnAway(server, client);
      return;
    }
    client.SetAuthorized();
  }

  method NickBeforeRegistration(server: Server, client: Client, nickname: Name)
    requires Ready(server, client)
    modifies server`names, server`connections, server`whoWas, server.clients, server.allClients, server.allChannels
    ensures server.Abs() == S.RegisterNick(old(server.Abs()), client, nickname)
  {
    hide Server.Abs, S.TurnAway, S.TryRegister, S.IndexAdd, S.Say, IsNickname;
    server.ClientAt(client);
    server.ServerAt();
    server.MembersKnown();
    if !client.authorized {
      TurnAway(server, client);
      return;
    }
    if nickname == "" {
      client.Reply(S.Numeric(431));
      return;
    }
    var other := server.clients.Get(nickname);
    if other != null {
      client.Reply(S.Numeric(433));
      return;
    }
    if !IsNickname(nickname) {
      client.Reply(S.Numeric(432));
      return;
    }
    IndexAddValues(server.clients.nicks, client, nickname);
    client.SetNickname(nickname);
    server.ServerAt();
    server.TryRegister(client);
  }

  lemma IndexAddValues(nicks: map<Name, Client>, client: Client, nick: Name)
    ensures S.IndexAdd(nicks, client, nick).Values <= nicks.Values + {client}
  {
  }

  lemma IndexRemoveValues(nicks: map<Name, Client>, client: Client, nick: Name)
    ensures S.IndexRemove(nicks, client, nick).Values <= nicks.Values
  {
  }

  method UserBeforeRegistration(server: Server, client: Client, username: Name, flags: Option<nat>)
    requires Ready(server, client)
    modifies server`names, server`connections, server`whoWas, server.clients, server.allClients, server.allChannels
    ensures server.Abs() == S.RegisterUser(old(server.Abs()), client, username, flags)
  {
    hide Server.Abs, S.TurnAway, S.TryRegister, S.IndexAdd, S.IndexRemove, S.Say, S.UserFlags;
    server.ClientAt(client);
    server.ServerAt();
    server.MembersKnown();
    if !client.authorized {
      TurnAway(server, client);
      return;
    }
    var modes := if flags.Some? then S.UserFlags(flags.value) else {};
    if modes != {} {
      client.SetModes(client.modes + modes);
      client.Reply(S.Numeric(221));
    }
    server.ClientAt(client);
    SetUserInfo(server, client, username);
  }

  method SetUserInfo(server: Server, client: Client, username: Name)
    requires client in server.allClients && client.server == server && server.clients.nicks.Values <= server.allClients
    modifies server.clients, client
    ensures var w := old(server.Abs());
            server.Abs() == S.TryRegister(
              S.SetClient(w, client, old(client.Rec()).(username := username)).(
                nicks := S.IndexAdd(S.IndexRemove(w.nicks, client, old(client.nick)), client, old(client.nick))), client)
  {
    hide Server.Abs, S.TryRegister, S.IndexAdd, S.IndexRemove;
    server.ServerAt();
    server.Unindex(client);
    client.SetUsername(username);
    IndexRemoveValues(old(server.clients.nicks), client, client.nick);
    IndexAddValues(server.clients.nicks, client, client.nick);
    server.Index(client);
    server.TryRegister(client);
  }

  method CapBeforeRegistration(server: Server, client: Client, sub: string, capabilities: set<string>)
    requires Ready(server, client)
    modifies client
    ensures server.Abs() == S.Negotiate(old(server.Abs()), client, sub, capabilities)
  {
    hide Server.Abs, S.TryRegister, S.Say;
    server.ClientAt(client);
    server.MembersKnown();
    if sub == "LS" {
      client.SetCap(S.CapNegotiating, client.capabilities);
      client.Reply(S.Message("CAP LS"));
    } else if sub == "LIST" {
      client.Reply(S.Message("CAP LIST"));
    } else if sub == "REQ" {
      RequestCapabilities(server, client, capabilities);
    } else if sub == "CLEAR" {
      client.SetCap(client.capState, {});
      client.Reply(S.Message("CAP ACK"));
    } else if sub == "END" {
      client.SetCap(S.CapNegotiated, client.capabilities);
      server.TryRegister(client);
    } else {
      client.Reply(S.Numeric(410));
    }
  }

  /** All requested capabilities are enabled, or, if one is not supported, none. */
  method RequestCapabilities(server: Server, client: Client, capabilities: set<string>)
    requires client in server.allClients && client.server == server
    modifies client
    ensures server.Abs() == S.Negotiate(old(server.Abs()), client, "REQ", capabilities)
  {
    hide Server.Abs, S.Say, S.TryRegister;
    server.ClientAt(client);
    var todo := capabilities;
    while todo != {}
      invariant todo <= capabilities && capabilities - todo <= S.SUPPORTED_CAPABILITIES
    {
      var capability :| capability in todo;
      if capability !in S.SUPPORTED_CAPABILITIES {
        client.Reply(S.Message("CAP NAK"));
        return;
      }
      todo := todo - {capability};
    }
    var enabled := client.capabilities;
    todo := capabilities;
    while todo != {}
      invariant todo <= capabilities && enabled == client.capabilities + (capabilities - todo)
    {
      var capability :| capability in todo;
      enabled := enabled + {capability};
      todo := todo - {capability};
    }
    assert enabled == client.capabilities + capabilities;
    client.SetCap(client.capState, enabled);
    client.Reply(S.Message("CAP ACK"));
  }

  method AuthenticateBeforeRegistration(server: Server, client: Client, arg: string)
    requires Ready(server, client)
    modifies server`names, server`connections, server`whoWas, server.clients, server.allClients, server.allChannels
    ensures server.Abs() == S.AuthenticateWith(old(server.Abs()), client, arg)
  {
    hide Server.Abs, S.TurnAway, S.Say, Sasl.Receive;
    server.ClientAt(client);
    if !client.authorized {
      TurnAway(server, client);
      return;
    }
    var (sasl, outcome) := Sasl.Receive(client.sasl, arg);
    client.SetSasl(sasl);
    if S.LogsIn(outcome) {
      SetClientTwice(old(server.Abs()), client, client.Rec(), client.Rec().(modes := client.modes + {REGISTERED}));
      client.SetModes(client.modes + {REGISTERED});
    }
    ReplyAll(server, client, S.SaslReplies(outcome));
  }

  method ReplyAll(server: Server, client: Client, replies: seq<S.Reply>)
    requires client in server.allClients && client.server == server
    modifies client`log
    ensures server.Abs() == S.Say(old(server.Abs()), client, replies)
  {
    hide Server.Abs, S.Say;
    server.ClientAt(client);
    ghost var w := server.Abs();
    SayNothing(w, client);
    for i := 0 to |replies|
      invariant server.Abs() == S.Say(w, client, replies[..i])
    {
      client.Reply(replies[i]);
      SayTwice(w, client, replies[..i], [replies[i]]);
      assert replies[..i + 1] == replies[..i] + [replies[i]];
    }
    assert replies[..|replies|] == replies;
  }

  // ------------------------------------------------------------ after registration

  method Nick(server: Server, client: Client, nickname: Name)
    requires Ready(server, client)
    modifies server`whoWas, server.clients, server.allClients
    ensures server.Abs() == S.NickRequest(old(server.Abs()), client, nickname)
  {
    hide Server.Abs, S.ChangeNick, S.Say, S.Closed, IsNickname;
    server.ClientAt(client);
    server.ServerAt();
    if nickname == "" {
      client.Reply(S.Numeric(431));
      return;
    }
    if !IsNickname(nickname) {
      client.Reply(S.Numeric(432));
      return;
    }
    if nickname == client.nick {
      return;
    }
    var target := server.clients.Get(nickname);
    if target != null && target != client {
      client.Reply(S.Numeric(433));
      return;
    }
    client.ChangeNickname(nickname);
  }

  method OperNick(server: Server, client: Client, targetNick: Name, nick: Name)
    requires Ready(server, client) && nick != ""
    modifies server`whoWas, server.clients, server.allClients
    ensures server.Abs() == S.OperNickRequest(old(server.Abs()), client, targetNick, nick)
  {
    hide Server.Abs, S.ChangeNick, S.Say, S.Closed, IsNickname;
    server.ClientAt(client);
    server.ServerAt();
    server.MembersKnown();
    if OPERATOR !in client.modes {
      client.Reply(S.Numeric(481));
      return;
    }
    if !IsNickname(nick) {
      client.Reply(S.Numeric(432));
      return;
    }
    if nick == client.nick {
      return;
    }
    var target := server.clients.Get(targetNick);
    if target == null {
      client.Reply(S.Numeric(401));
      return;
    }
    var other := server.clients.Get(nick);
    if other != null {
      client.Reply(S.Numeric(433));
      return;
    }
    target.ChangeNickname(nick);
  }

  /** JOIN for one channel. */
  method JoinOne(server: Server, client: Client, name: Name, key: string)
    returns (ghost made: Channel?, ghost order: seq<Client>)
    requires Ready(server, client)
    modifies server`names, server`allChannels, server.allClients, server.allChannels
    ensures server.Owned() && fresh(server.allChannels - old(server.allChannels))
    ensures S.JoinOrderFits(old(server.Abs()), client, name, key, made, order)
    ensures server.Abs() == S.JoinName(old(server.Abs()), client, name, key, made, order)
  {
    hide Server.Abs, S.JoinChannel, S.Say, S.Enumerates, S.WithChannel, S.Admitted, IsChannel;
    made, order := null, [];
    server.ClientAt(client);
    server.ServerAt();
    server.MembersKnown();
    if !IsChannel(name) {
      client.Reply(S.Numeric(403));
      return;
    }
    if LOWER(name) in server.names {
      order := JoinExisting(server, client, name, key);
    } else {
      made, order := JoinNew(server, client, name, key);
    }
  }

  method JoinExisting(server: Server, client: Client, name: Name, key: string) returns (ghost order: seq<Client>)
    requires Ready(server, client) && LOWER(name) in server.names
    modifies server.allClients, server.allChannels
    ensures S.JoinOrderFits(old(server.Abs()), client, name, key, null, order)
    ensures IsChannel(name) ==> server.Abs() == S.JoinName(old(server.Abs()), client, name, key, null, order)
  {
    hide Server.Abs, S.JoinChannel, S.Enumerates, S.Admitted, IsChannel;
    server.ClientAt(client);
    server.ServerAt();
    server.MembersKnown();
    var channel := server.names[LOWER(name)];
    assert channel in server.names.Values;
    server.ChannelAt(channel);
    order := channel.Join(client, key);
  }

  /** The channel is made only to be joined, and it is: see `Guarantees.FirstJoinSucceeds`. */
  method JoinNew(server: Server, client: Client, name: Name, key: string)
    returns (ghost made: Channel?, ghost order: seq<Client>)
    requires Ready(server, client) && LOWER(name) !in server.names
    modifies server`names, server`allChannels, server.allClients, server.allChannels
    ensures server.Owned() && fresh(server.allChannels - old(server.allChannels))
    ensures S.JoinOrderFits(old(server.Abs()), client, name, key, made, order)
    ensures IsChannel(name) ==> server.Abs() == S.JoinName(old(server.Abs()), client, name, key, made, order)
  {
    hide Server.Abs, S.JoinChannel, S.Enumerates, S.Refusal, IsChannel;
    server.ClientAt(client);
    server.ServerAt();
    var channel := server.NewChannel(name);
    made := channel;
    server.ChannelAt(channel);
    NewChannelAdmits(client.Rec(), name, client, key);
    assert channel.members == map[] && channel.members.Keys + {client} == {client};
    order := channel.Join(client, key);
  }

  /** PART for one channel. */
  method PartOne(server: Server, client: Client, name: Name)
    requires Ready(server, client)
    modifies server`names, server.allClients, server.allChannels
    ensures server.Abs() == S.PartName(old(server.Abs()), client, name)
  {
    hide Server.Abs, S.Part, S.Say, S.Closed;
    server.ServerAt();
    server.MembersKnown();
    if LOWER(name) !in server.names {
      client.Reply(S.Numeric(403));
      return;
    }
    var channel := server.names[LOWER(name)];
    assert channel in server.names.Values;
    channel.Part(client);
  }

  /** KICK for one channel. */
  method KickOne(server: Server, client: Client, name: Name, nick: Name)
    requires Ready(server, client)
    modifies server`names, server.allClients, server.allChannels
    ensures server.Abs() == S.KickName(old(server.Abs()), client, name, nick)
  {
    hide Server.Abs, S.Kick, S.Say, S.Closed;
    server.ServerAt();
    server.MembersKnown();
    if LOWER(name) !in server.names {
      client.Reply(S.Numeric(403));
      return;
    }
    var channel := server.names[LOWER(name)];
    assert channel in server.names.Values;
    var target := server.clients.Get(nick);
    if target == null {
      client.Reply(S.Numeric(401));
      return;
    }
    assert target in server.clients.nicks.Values;
    channel.Kick(client, target);
  }

  /** MODE for a channel. */
  method SetModes(server: Server, client: Client, name: Name, changes: seq<ChannelModeChange>)
    requires Ready(server, client)
    modifies server.allClients, server.allChannels
    ensures server.Abs() == S.ModesName(old(server.Abs()), client, name, changes)
  {
    hide Server.Abs, S.ChangeModes, S.Say, S.Closed;
    server.ServerAt();
    server.MembersKnown();
    if LOWER(name) !in server.names {
      client.Reply(S.Numeric(403));
      return;
    }
    var channel := server.names[LOWER(name)];
    assert channel in server.names.Values;
    channel.Mode(client, changes);
  }

  method SetTopic(server: Server, client: Client, name: Name, topic: string)
    requires Ready(server, client)
    modifies server.allClients, server.allChannels
    ensures server.Abs() == S.TopicName(old(server.Abs()), client, name, topic)
  {
    hide Server.Abs, S.SetTopic, S.Say, S.Closed;
    server.ServerAt();
    server.MembersKnown();
    if LOWER(name) !in server.names {
      client.Reply(S.Numeric(403));
      return;
    }
    var channel := server.names[LOWER(name)];
    assert channel in server.names.Values;
    channel.SetTopic(client, topic);
  }

  method Invite(server: Server, client: Client, nick: Name, name: Name)
    requires Ready(server, client)
    modifies server.allClients, server.allChannels
    ensures server.Abs() == S.InviteName(old(server.Abs()), client, nick, name)
  {
    hide Server.Abs, S.Invite, S.Say, S.Closed;
    server.ServerAt();
    server.MembersKnown();
    var target := server.clients.Get(nick);
    if target == null {
      client.Reply(S.Numeric(401));
      return;
    }
    assert target in server.clients.nicks.Values;
    if LOWER(name) !in server.names {
      client.Reply(S.Numeric(341));
      target.Reply(S.Message("INVITE"));
      return;
    }
    var channel := server.names[LOWER(name)];
    assert channel in server.names.Values;
    channel.Invite(target, client);
  }

  /** NAMES for one channel. */
  method NamesOne(server: Server, client: Client, name: Name) returns (ghost order: seq<Client>)
    requires Ready(server, client)
    modifies server.allClients
    ensures S.NamesOrderFits(old(server.Abs()), name, order)
    ensures server.Abs() == S.NamesName(old(server.Abs()), client, name, order)
  {
    hide Server.Abs, S.NamesReplies, S.Say, S.Closed, S.Enumerates;
    server.ServerAt();
    server.MembersKnown();
    order := [];
    if LOWER(name) in server.names {
      var channel := server.names[LOWER(name)];
      assert channel in server.names.Values;
      server.ChannelAt(channel);
      order := channel.Names(client);
    } else if server.names != map[] {
      client.Reply(S.Numeric(403));
    }
  }

  // ------------------------------------------------------------------- user modes

  lemma ApplyUserNext(modes: set<UserMode>, changes: seq<ModeChange>, i: nat)
    requires i < |changes|
    ensures var before := S.ApplyUserModes(modes, changes[..i]);
            S.ApplyUserModes(modes, changes[..i + 1])
            == (S.ApplyUserMode(before.0, changes[i]), before.1 || S.ChangesUserMode(before.0, changes[i]))
  {
    hide S.ApplyUserMode, S.ChangesUserMode;
    assert changes[..i + 1][..i] == changes[..i];
  }

  /** Change the target's modes one by one; the answer is whether any change had an effect. */
  method ApplyUserChanges(target: Client, changes: seq<ModeChange>) returns (any: bool)
    modifies target`modes
    ensures (target.modes, any) == S.ApplyUserModes(old(target.modes), changes)
  {
    hide S.ApplyUserModes;
    ghost var start := target.modes;
    any := false;
    NoUserChanges(start);
    for i := 0 to |changes|
      invariant (target.modes, any) == S.ApplyUserModes(start, changes[..i])
    {
      ApplyUserNext(start, changes, i);
      var change := changes[i];
      if change.mode in S.USER_CHANGEABLE {
        if change.op == ADD {
          if change.mode in target.modes {
            continue;
          }
          target.modes := target.modes + {change.mode};
          any := true;
        } else if change.op == REMOVE {
          if change.mode !in target.modes {
            continue;
          }
          target.modes := target.modes - {change.mode};
          any := true;
        }
      } else if change.mode == OPERATOR && change.op == REMOVE {
        if change.mode !in target.modes {
          continue;
        }
        target.modes := target.modes - {change.mode};
        any := true;
      }
    }
    assert changes[..|changes|] == changes;
  }

  lemma NoUserChanges(modes: set<UserMode>)
    ensures S.ApplyUserModes(modes, []) == (modes, false)
  {
  }

  /** MODE for a user. */
  method UserModes(server: Server, client: Client, nick: Name, changes: seq<ModeChange>)
    requires Ready(server, client)
    modifies server.allClients
    ensures server.Abs() == S.ChangeUserModes(old(server.Abs()), client, nick, changes)
  {
    hide Server.Abs, S.Say, S.Closed, S.ApplyUserModes;
    server.ServerAt();
    server.AllAt();
    server.MembersKnown();
    var target := server.clients.Get(nick);
    if target == null {
      client.Reply(S.Numeric(401));
      return;
    }
    assert target in server.clients.nicks.Values;
    if client != target && OPERATOR !in client.modes {
      client.Reply(S.Numeric(502));
      return;
    }
    ghost var w := server.Abs();
    var any := ApplyUserChanges(target, changes);
    server.ClientAdded(w, target);
    if any {
      client.Reply(S.Message("MODE"));
    } else if client == target {
      client.Reply(S.Numeric(221));
    }
  }

  // ------------------------------------------------------------------ other commands

  method Oper(server: Server, client: Client, accepted: bool)
    requires Ready(server, client)
    modifies client
    ensures server.Abs() == S.BecomeOperator(old(server.Abs()), client, accepted)
  {
    hide Server.Abs, S.Say;
    server.ClientAt(client);
    if !accepted {
      client.Reply(S.Numeric(464));
      return;
    }
    client.SetModes(client.modes + {OPERATOR, WALL_OPS});
    ReplyAll(server, client, [S.Numeric(381), S.Message("MODE")]);
  }

  method Away(server: Server, client: Client, text: string)
    requires Ready(server, client)
    modifies client
    ensures server.Abs() == S.AfterRegistration(old(server.Abs()), client, S.Away(text))
  {
    hide Server.Abs;
    server.ClientAt(client);
    if |text| > 0 {
      client.SetModes(client.modes + {AWAY});
    } else {
      client.SetModes(client.modes - {AWAY});
    }
  }

  method Kill(server: Server, client: Client, nick: Name)
    requires Ready(server, client)
    requires forall c :: c in server.clients.nicks.Values ==> c.hasQuit == c.closed
    modifies server`names, server`connections, server`whoWas, server.clients, server.allClients, server.allChannels
    ensures server.Abs() == S.KillNick(old(server.Abs()), client, nick)
  {
    hide Server.Abs, S.Quit, S.Say, S.Closed;
    server.ClientAt(client);
    server.ServerAt();
    server.MembersKnown();
    if OPERATOR !in client.modes {
      client.Reply(S.Numeric(481));
      return;
    }
    var target := server.clients.Get(nick);
    if target == null {
      client.Reply(S.Numeric(401));
      return;
    }
    assert target in server.clients.nicks.Values;
    target.Quit();
  }

  /** Everybody in the index is open, and indexed once. */
  ghost predicate Reachable(server: Server)
    reads server, server.clients, server.clients.nicks.Values
  {
    && (forall c :: c in server.clients.nicks.Values ==> !c.closed && !c.hasQuit)
    && (forall k, l :: k in server.clients.nicks && l in server.clients.nicks && k != l ==>
          server.clients.nicks[k] != server.clients.nicks[l])
  }

  method Wallops(server: Server, client: Client)
    requires Ready(server, client) && Reachable(server)
    modifies server.allClients
    ensures server.Abs() == S.AfterRegistration(old(server.Abs()), client, S.Wallops)
  {
    hide Server.Abs, S.Say, S.Broadcast;
    server.ClientAt(client);
    server.MembersKnown();
    if OPERATOR !in client.modes {
      client.Reply(S.Numeric(481));
      return;
    }
    server.SendDirectly(true, S.Message("NOTICE"));
  }

  /** PRIVMSG and NOTICE. */
  method Tell(server: Server, client: Client, notice: bool, targetName: Name)
    requires Ready(server, client) && Reachable(server)
    modifies server.allClients
    ensures server.Abs() == S.TellName(old(server.Abs()), client, notice, targetName)
  {
    hide Server.Abs, S.Broadcast, S.Say, S.Closed, S.Indexed, S.CanSpeakOn, IsChannel;
    server.ServerAt();
    server.ClientAt(client);
    server.MembersKnown();
    var reply := S.Message(if notice then "NOTICE" else "PRIVMSG");
    if notice && targetName == "*" && OPERATOR in client.modes {
      server.SendDirectly(false, reply);
      return;
    }
    if IsChannel(targetName) {
      if LOWER(targetName) !in server.names {
        client.Reply(S.Numeric(403));
        return;
      }
      var channel := server.names[LOWER(targetName)];
      assert channel in server.names.Values;
      server.ChannelAt(channel);
      channel.Tell(client, reply);
      return;
    }
    var target := server.clients.Get(targetName);
    if target == null {
      client.Reply(S.Numeric(401));
      return;
    }
    assert target in server.clients.nicks.Values;
    server.ClientAt(target);
    if !client.CanSpeak(target) {
      client.Reply(S.Numeric(492));
      return;
    }
    SendTo(server, {target}, reply);
    if !notice && AWAY in target.modes {
      client.Reply(S.Numeric(301));
    }
  }
}
