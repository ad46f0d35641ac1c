/**
 * The server, its channels and its clients as objects that change in place.
 *
 * Each method is proved to change the state as the function of module `ServerState` says.
 */
module Objects {
  import opened Names
  import opened Modes
  import opened Strings
  import Masks
  import Multiline
  import QuietSteps
  import Sasl
  import S = ServerState
  import opened Composition

  /** No channel is ever null; a JOIN that makes no channel says so by `null`. */
  type World = S.World<Client, Channel?>

  type Command = S.Command<Client, Channel?>

  // ---------------------------------------------------------------- the nick index

  datatype LookupError = NickMissing | NicknameInUse | NicknameMismatch

  class ClientLookupSet {
    var nicks: map<Name, Client>

    constructor ()
      ensures nicks == map[]
    {
      nicks := map[];
    }

    method Get(nick: Name) returns (client: Client?)
      ensures client == if LOWER(nick) in nicks then nicks[LOWER(nick)] else null
    {
      if LOWER(nick) in nicks {
        return nicks[LOWER(nick)];
      }
      return null;
    }

    /** Callers ignore the error, and need not look at it: see `Guarantees.ReindexingSucceeds`. */
    method Add(client: Client) returns (error: Option<LookupError>)
      modifies this
      ensures nicks == S.IndexAdd(old(nicks), client, client.nick)
      ensures error == None <==> S.AddSucceeds(old(nicks), client.nick)
    {
      if client.nick == "" {
        return Some(NickMissing);
      }
      var other := Get(client.nick);
      if other != null {
        return Some(NicknameInUse);
      }
      nicks := nicks[LOWER(client.nick) := client];
      return None;
    }

    method Remove(client: Client) returns (error: Option<LookupError>)
      modifies this
      ensures nicks == S.IndexRemove(old(nicks), client, client.nick)
      ensures error == None <==> S.RemoveSucceeds(old(nicks), client, client.nick)
    {
      if client.nick == "" {
        return Some(NickMissing);
      }
      var other := Get(client.nick);
      if other != client {
        return Some(NicknameMismatch);
      }
      nicks := nicks - {LOWER(client.nick)};
      return None;
    }
  }

  // ------------------------------------------------------------------------ clients

  class Client {
    const server: Server
    const secure: bool
    const hostname: Name
    var nick: Name
    var username: Name
    var authorized: bool
    var registered: bool
    var hasQuit: bool
    var closed: bool
    var capState: S.CapState
    var capabilities: set<string>
    var modes: set<UserMode>
    var sasl: Sasl.State
    var channels: set<Channel>
    /** Everything ever sent to the client. */
    ghost var log: seq<S.Reply>

    ghost function Rec(): S.ClientRec<Channel?>
      reads this
    {
      S.ClientRec(nick, username, hostname, secure, authorized, registered, hasQuit, closed, capState, capabilities,
                  modes, sasl, channels, log)
    }

    /** The server knows the client. */
    ghost predicate Known()
      reads server
    {
      this in server.allClients
    }

    constructor (server: Server, secure: bool, hostname: Name, noPassword: bool)
      ensures this.server == server && Rec() == S.NewClient(secure, hostname, noPassword)
    {
      this.server, this.secure, this.hostname := server, secure, hostname;
      nick, username := "", "";
      authorized := noPassword;
      registered, hasQuit, closed := false, false, false;
      capState, capabilities := S.CapNone, {};
      modes := if secure then {SECURE_CONN} else {};
      sasl := Sasl.INITIAL;
      channels := {};
      log := [];
    }

    /** A client that has quit is sent nothing. */
    method Receive(reply: S.Reply)
      modifies this`log
      ensures Rec() == S.Receive(old(Rec()), [reply])
    {
      if !hasQuit {
        log := log + [reply];
      }
    }

    /** The same, seen from the server. */
    method Reply(reply: S.Reply)
      requires Known()
      modifies this`log
      ensures server.Abs() == S.Say(old(server.Abs()), this, [reply])
    {
      Receive(reply);
      assert server.Abs().clients == old(server.Abs()).clients[this := Rec()];
      assert server.Abs().channels == old(server.Abs()).channels;
    }

    /** Sending past the check that `Reply` makes, which only a client that is not closed can take. */
    method Send(reply: S.Reply)
      requires !closed && !hasQuit
      modifies this`log
      ensures Rec() == S.Receive(old(Rec()), [reply])
    {
      log := log + [reply];
    }

    /** `Client.UserHost` without cloaking. */
    function UserHost(): (userHost: Name)
      reads this
      ensures userHost == S.UserHost(Rec())
    {
      nick + "!" + (if username == "" then "*" else username) + "@" + hostname
    }

    predicate CanSpeak(target: Client)
      reads this, target
      ensures CanSpeak(target) == S.CanSpeakTo(Rec(), target.Rec())
    {
      var requiresSecure := SECURE_ONLY in modes || SECURE_ONLY in target.modes;
      var isSecure := SECURE_CONN in modes && SECURE_CONN in target.modes;
      !requiresSecure || (requiresSecure && (OPERATOR in modes || isSecure))
    }

    method SetModes(modes: set<UserMode>)
      requires Known()
      modifies this`modes
      ensures this.modes == modes
      ensures server.Abs() == S.SetClient(old(server.Abs()), this, old(Rec()).(modes := modes))
    {
      this.modes := modes;
      assert server.Abs().clients == old(server.Abs()).clients[this := Rec()];
      assert server.Abs().channels == old(server.Abs()).channels;
    }

    method SetNick(nick: Name)
      requires Known()
      modifies this`nick
      ensures this.nick == nick
      ensures server.Abs() == S.SetClient(old(server.Abs()), this, old(Rec()).(nick := nick))
    {
      this.nick := nick;
      assert server.Abs().clients == old(server.Abs()).clients[this := Rec()];
      assert server.Abs().channels == old(server.Abs()).channels;
    }

    /** The client and everybody on a channel it has ever joined. */
    method Friends() returns (friends: set<Client>)
      requires Known() && channels <= server.allChannels
      ensures friends == S.Friends(server.Abs(), this)
    {
      friends := {this};
      var todo := channels;
      while todo != {}
        invariant todo <= channels
        invariant friends == {this} + set h, m | h in channels - todo && m in h.members :: m
      {
        var channel :| channel in todo;
        friends := friends + channel.members.Keys;
        todo := todo - {channel};
      }
      ghost var w := server.Abs();
      assert w.clients[this].channels == channels && forall h :: h in channels ==> w.channels[h].members == h.members;
    }

    method SetAuthorized()
      requires Known()
      modifies this`authorized
      ensures server.Abs() == S.SetClient(old(server.Abs()), this, old(Rec()).(authorized := true))
    {
      authorized := true;
      assert server.Abs().clients == old(server.Abs()).clients[this := Rec()];
      assert server.Abs().channels == old(server.Abs()).channels;
    }

    method SetUsername(username: Name)
      requires Known()
      modifies this`username
      ensures this.username == username
      ensures server.Abs() == S.SetClient(old(server.Abs()), this, old(Rec()).(username := username))
    {
      this.username := username;
      assert server.Abs().clients == old(server.Abs()).clients[this := Rec()];
      assert server.Abs().channels == old(server.Abs()).channels;
    }

    method SetCap(capState: S.CapState, capabilities: set<string>)
      requires Known()
      modifies this`capState, this`capabilities
      ensures this.capState == capState && this.capabilities == capabilities
      ensures server.Abs()
           == S.SetClient(old(server.Abs()), this, old(Rec()).(capState := capState, capabilities := capabilities))
    {
      this.capState, this.capabilities := capState, capabilities;
      assert server.Abs().clients == old(server.Abs()).clients[this := Rec()];
      assert server.Abs().channels == old(server.Abs()).channels;
    }

    method SetSasl(sasl: Sasl.State)
      requires Known()
      modifies this`sasl
      ensures this.sasl == sasl
      ensures server.Abs() == S.SetClient(old(server.Abs()), this, old(Rec()).(sasl := sasl))
    {
      this.sasl := sasl;
      assert server.Abs().clients == old(server.Abs()).clients[this := Rec()];
      assert server.Abs().channels == old(server.Abs()).channels;
    }

    method Register()
      requires Known()
      modifies this`registered, this`modes
      ensures server.Abs() == if old(registered) then old(server.Abs())
                              else S.SetClient(old(server.Abs()), this,
                                     old(Rec()).(registered := true, modes := old(modes) + {HOST_MASK}))
    {
      if registered {
        return;
      }
      registered := true;
      modes := modes + {HOST_MASK};
      assert server.Abs().clients == old(server.Abs()).clients[this := Rec()];
      assert server.Abs().channels == old(server.Abs()).channels;
    }

    method AddChannel(channel: Channel)
      requires Known()
      modifies this`channels
      ensures server.Abs() == S.SetClient(old(server.Abs()), this, old(Rec()).(channels := old(channels) + {channel}))
    {
      channels := channels + {channel};
      assert server.Abs().clients == old(server.Abs()).clients[this := Rec()];
      assert server.Abs().channels == old(server.Abs()).channels;
    }

    method SetHasQuit()
      requires Known()
      modifies this`hasQuit
      ensures server.Abs() == S.SetClient(old(server.Abs()), this, old(Rec()).(hasQuit := true))
    {
      hasQuit := true;
      assert server.Abs().clients == old(server.Abs()).clients[this := Rec()];
      assert server.Abs().channels == old(server.Abs()).channels;
    }

    /** Close the channel of replies. */
    method Close()
      requires Known() && !closed
      modifies this`closed
      ensures server.Abs() == S.SetClient(old(server.Abs()), this, old(Rec()).(closed := true))
    {
      closed := true;
      assert server.Abs().clients == old(server.Abs()).clients[this := Rec()];
      assert server.Abs().channels == old(server.Abs()).channels;
    }

    method LeaveChannels()
      requires Known() && server.Valid()
      modifies server`names, server.allChannels`members
      ensures server.Abs() == S.LeaveChannels(old(server.Abs()), this, channels)
    {
      hide Server.Abs, S.LeaveChannels, S.ChannelQuit, S.Closed;
      server.MembersKnown();
      server.ServerAt();
      ghost var w := server.Abs();
      LeaveNone(w, this);
      var todo := channels;
      assert channels - todo == {};
      while todo != {}
        invariant todo <= channels
        invariant server.Abs() == S.LeaveChannels(w, this, channels - todo)
        invariant forall h :: h in server.allChannels ==> h.members.Keys <= old(h.members).Keys
      {
        var channel :| channel in todo;
        ghost var left := channels - todo;
        LeaveOneMore(w, this, left, channel);
        channel.Quit(this);
        todo := todo - {channel};
        assert channels - todo == left + {channel};
      }
      assert channels - todo == channels;
    }

    method Destroy()
      requires Known() && server.Valid() && !closed
      modifies this`closed, server`names, server`connections, server.clients, server.allChannels`members
      ensures server.Abs() == Destroyed(old(server.Abs()), this)
    {
      hide Server.Abs, S.LeaveChannels, S.IndexRemove, S.Closed;
      server.ClientAt(this);
      server.ServerAt();
      LeaveChannels();
      server.Disconnect();
      server.Unindex(this);
      Close();
    }

    method Quit()
      requires Known() && server.Valid() && hasQuit == closed
      modifies this`hasQuit, this`closed, server`names, server`connections, server`whoWas, server.clients,
               server.allChannels`members, server.allClients`log
      ensures server.Abs() == S.Quit(old(server.Abs()), this)
    {
      hide Server.Abs, S.LeaveChannels, S.Friends, S.Broadcast, S.Closed, Destroyed;
      server.ClientAt(this);
      if hasQuit {
        return;
      }
      server.ServerAt();
      QuitInSteps(server.Abs(), this);
      SetHasQuit();
      server.Record(this);
      server.ClientAt(this);
      StaysClosed(old(server.Abs()), server.Abs());
      server.MembersKnown();
      var friends := Friends();
      SameFriends(old(server.Abs()), server.Abs(), this);
      FriendsKnown(server, this, friends);
      friends := friends - {this};
      Destroy();
      if friends != {} {
        SendTo(server, friends, S.HasQuit(nick));
      } else {
        BroadcastToNobody(server.Abs(), S.HasQuit(nick));
      }
    }

    method SetNickname(nickname: Name)
      requires Known()
      modifies this`nick, server.clients
      ensures server.Abs() == if old(nick) != "" then old(server.Abs())
                              else S.SetClient(old(server.Abs()), this, old(Rec()).(nick := nickname)).(
                                nicks := S.IndexAdd(old(server.clients.nicks), this, nickname))
    {
      if nick != "" {
        return;
      }
      SetNick(nickname);
      server.Index(this);
    }

    method ChangeNickname(nickname: Name)
      requires Known() && server.Valid()
      modifies this`nick, server.clients, server`whoWas, server.allClients`log
      ensures server.Abs() == S.ChangeNick(old(server.Abs()), this, nickname)
    {
      hide Server.Abs, S.Friends, S.Broadcast, S.IndexAdd, S.IndexRemove, S.Closed;
      server.ClientAt(this);
      server.ServerAt();
      server.MembersKnown();
      var reply := S.Renamed(nick, nickname);
      server.Unindex(this);
      server.Record(this);
      SetNick(nickname);
      server.Index(this);
      var friends := Friends();
      FriendsKnown(server, this, friends);
      SendTo(server, friends, reply);
    }
  }

  // ----------------------------------------------------------------------- channels

  class Channel {
    const server: Server
    const name: Name
    var flags: set<ChannelMode>
    var lists: map<ChannelMode, set<Name>>
    var key: string
    var members: map<Client, set<ChannelMode>>
    var topic: string
    var userLimit: nat

    ghost function Rec(): S.ChannelRec<Client>
      reads this
    {
      S.ChannelRec(name, flags, lists, key, members, topic, userLimit)
    }

    /** The server knows the channel and its members. */
    ghost predicate Known()
      reads this, server
    {
      this in server.allChannels && members.Keys <= server.allClients
    }

    constructor (server: Server, name: Name)
      ensures this.server == server && Rec() == S.NewChannel(name)
    {
      this.server, this.name := server, name;
      flags := {NO_OUTSIDE, OP_ONLY_TOPIC};
      lists := map[BAN_MASK := {}, EXCEPT_MASK := {}, INVITE_MASK := {}];
      key, topic := "", "";
      members := map[];
      userLimit := 0;
    }

    /** Reply to every member. */
    method Broadcast(reply: S.Reply)
      requires Known()
      modifies members.Keys`log
      ensures server.Abs() == S.Broadcast(old(server.Abs()), members.Keys, reply)
    {
      SendTo(server, members.Keys, reply);
    }

    method RemoveMember(client: Client)
      requires Known()
      modifies this`members
      ensures members == old(members) - {client}
      ensures server.Abs() == S.SetChannel(old(server.Abs()), this, old(Rec()).(members := members))
    {
      members := members - {client};
      assert server.Abs().clients == old(server.Abs()).clients;
      assert server.Abs().channels == old(server.Abs()).channels[this := Rec()];
    }

    predicate Matches(mode: ChannelMode, client: Client)
      reads this, client
      ensures Matches(mode, client) == S.Matches(Rec(), mode, client.Rec())
    {
      mode in lists && Masks.Match(lists[mode], client.UserHost())
    }

    predicate IsFull()
      reads this
      ensures IsFull() == S.IsFull(Rec())
    {
      userLimit > 0 && |members| >= userLimit
    }

    method AddMember(client: Client)
      requires Known() && client !in members
      modifies this`members
      ensures var modes := if old(members) == map[] then {CHANNEL_CREATOR, CHANNEL_OPERATOR} else {};
              && members == old(members)[client := modes]
              && server.Abs() == S.SetChannel(old(server.Abs()), this, old(Rec()).(members := members))
    {
      var added := members[client := {}];
      FirstMember(members, client);
      if |added| == 1 {
        added := added[client := {CHANNEL_CREATOR, CHANNEL_OPERATOR}];
      }
      members := added;
      assert server.Abs().clients == old(server.Abs()).clients;
      assert server.Abs().channels == old(server.Abs()).channels[this := Rec()];
    }

    /** The channel's topic, for a member or an operator. */
    method GetTopic(client: Client)
      requires Known() && client.Known() && client.server == server
      modifies client`log
      ensures server.Abs() == S.Say(old(server.Abs()), client,
                [if ClientIsOperator(client) || client in members then S.TopicReply(topic) else S.Numeric(442)])
    {
      if !(ClientIsOperator(client) || client in members) {
        client.Reply(S.Numeric(442));
        return;
      }
      if topic == "" {
        client.Reply(S.Numeric(331));
        return;
      }
      client.Reply(S.Numeric(332));
    }

    /** The entries of a NAMES line, in whichever order the members are visited. */
    method Nicks(target: Client) returns (nicks: seq<string>, ghost order: seq<Client>)
      requires Known() && target.Known() && target.server == server
      ensures S.Enumerates(order, members.Keys)
      ensures forall m :: m in order ==> m in members.Keys
      ensures nicks == S.NamesEntries(server.Abs(), this, target, order)
    {
      var isMultiPrefix := "multi-prefix" in target.capabilities;
      nicks := [];
      order := [];
      var todo := members.Keys;
      while todo != {}
        invariant todo <= members.Keys && |nicks| == |order|
        invariant S.Enumerates(order, members.Keys - todo)
        invariant forall m :: m in order ==> m in members.Keys && m !in todo
        invariant forall i :: 0 <= i < |order| ==>
                    nicks[i] == S.NamesEntry(S.NickOrStar(order[i].nick), members[order[i]], isMultiPrefix)
      {
        var client :| client in todo;
        var modes := members[client];
        var nick := "";
        if isMultiPrefix {
          if CHANNEL_OPERATOR in modes {
            nick := nick + "@";
          }
          if VOICE in modes {
            nick := nick + "+";
          }
        } else {
          if CHANNEL_OPERATOR in modes {
            nick := nick + "@";
          } else if VOICE in modes {
            nick := nick + "+";
          }
        }
        nick := nick + S.NickOrStar(client.nick);
        nicks := nicks + [nick];
        EnumeratesMore(order, members.Keys - todo, client);
        order := order + [client];
        todo := todo - {client};
        assert members.Keys - todo == members.Keys - todo - {client} + {client};
      }
      assert members.Keys - todo == members.Keys;
      NamesEntriesAre(server.Abs(), this, target, order, nicks);
    }

    /** NAMES for this channel. */
    method Names(client: Client) returns (ghost order: seq<Client>)
      requires Known() && client.Known() && client.server == server
      modifies client`log
      ensures S.Enumerates(order, members.Keys)
      ensures forall m :: m in order ==> m in members.Keys
      ensures server.Abs() == S.Say(old(server.Abs()), client, S.NamesReplies(old(server.Abs()), this, client, order))
    {
      hide Server.Abs, S.NamesEntries, S.Say, S.NamesLines;
      server.ClientAt(client);
      server.ChannelAt(this);
      ghost var w := server.Abs();
      var nicks, visited := Nicks(client);
      order := visited;
      var sent := Multiline.MultilineReply(S.NamesBase(S.NickOrStar(client.nick)), nicks);
      SayNoLines(w, client, name, sent);
      for i := 0 to |sent|
        invariant server.Abs() == S.Say(w, client, S.NamesLines(name, sent[..i]))
      {
        client.Reply(S.NamesLine(name, sent[i]));
        SayNextLine(w, client, name, sent, i);
      }
      assert sent[..|sent|] == sent;
      client.Reply(S.Numeric(366));
      SayTwice(w, client, S.NamesLines(name, sent), [S.Numeric(366)]);
    }

    /** The order is the one in which the members are listed if the client gets in. */
    method Join(client: Client, key: string) returns (ghost order: seq<Client>)
      requires Known() && client.Known() && client.server == server
      modifies this`members, client`channels, server.allClients`log
      ensures S.Admitted(old(server.Abs()), this, client, key) ==> S.Enumerates(order, old(members).Keys + {client})
      ensures server.Abs() == S.JoinChannel(old(server.Abs()), this, client, key, order)
    {
      hide Server.Abs, S.Say, S.Admit, S.Matches, S.IsFull, S.Enumerates;
      server.ClientAt(client);
      server.ChannelAt(this);
      order := [];
      if client in members {
        return;
      }
      var isOperator := ClientIsOperator(client);
      if !isOperator && IsFull() {
        client.Reply(S.Numeric(471));
        return;
      }
      if !isOperator && this.key != "" && this.key != key {
        client.Reply(S.Numeric(475));
        return;
      }
      var isInvited := Matches(INVITE_MASK, client);
      if !isOperator && INVITE_ONLY in flags && !isInvited {
        client.Reply(S.Numeric(473));
        return;
      }
      if Matches(BAN_MASK, client) && !isInvited && !isOperator && !Matches(EXCEPT_MASK, client) {
        client.Reply(S.Numeric(474));
        return;
      }
      order := Admit(client);
    }

    /** Become a member, and let all members know. */
    method Enter(client: Client)
      requires Known() && client.Known() && client.server == server && client !in members
      modifies this`members, client`channels, server.allClients`log
      ensures members.Keys == old(members).Keys + {client}
      ensures server.Abs() == S.Broadcast(S.AddMember(old(server.Abs()), this, client), members.Keys,
                                          S.Joined(client.nick, name))
    {
      hide Server.Abs, S.Broadcast;
      server.ClientAt(client);
      server.ChannelAt(this);
      client.AddChannel(this);
      AddMember(client);
      assert members.Keys == old(members).Keys + {client};
      Broadcast(S.Joined(client.nick, name));
    }

    method Admit(client: Client) returns (ghost order: seq<Client>)
      requires Known() && client.Known() && client.server == server && client !in members
      modifies this`members, client`channels, server.allClients`log
      ensures S.Enumerates(order, old(members).Keys + {client})
      ensures forall m :: m in order ==> m in old(members).Keys || m == client
      ensures server.Abs() == S.Admit(old(server.Abs()), this, client, order)
    {
      hide Server.Abs, S.Say, S.Broadcast, S.Enumerates, S.NamesReplies;
      server.ClientAt(client);
      server.ChannelAt(this);
      Enter(client);
      server.ServerAt();
      server.ChannelAt(this);
      assert S.AddMember(old(server.Abs()), this, client).channels[this].members.Keys == members.Keys;
      ghost var w := server.Abs();
      GetTopic(client);
      order := Names(client);
      NamesAfterSay(w, this, client, order, [S.TopicReply(topic)]);
      SayTwice(w, client, [S.TopicReply(topic)], S.NamesReplies(w, this, client, order));
    }

    predicate CanSpeak(client: Client)
      reads this, client
      ensures CanSpeak(client) == S.CanSpeakOn(client.Rec(), Rec(), client)
    {
      if ClientIsOperator(client) then true
      else if NO_OUTSIDE in flags && client !in members then false
      else if MODERATED in flags
              && !(client in members && (VOICE in members[client] || CHANNEL_OPERATOR in members[client])) then false
      else if SECURE_CHAN in flags && SECURE_CONN !in client.modes then false
      else true
    }

    /** A PRIVMSG or NOTICE to the channel, which its sender does not get. */
    method Tell(client: Client, reply: S.Reply)
      requires Known() && client.Known() && client.server == server
      modifies server.allClients`log
      ensures server.Abs() == if S.CanSpeakOn(old(client.Rec()), old(Rec()), client)
                              then S.Broadcast(old(server.Abs()), members.Keys - {client}, reply)
                              else S.Say(old(server.Abs()), client, [S.Numeric(404)])
    {
      hide Server.Abs, S.Broadcast, S.Say, S.CanSpeakOn;
      if !CanSpeak(client) {
        client.Reply(S.Numeric(404));
        return;
      }
      SendTo(server, members.Keys - {client}, reply);
    }

    // Changing the modes. What each change does, and what it answers, is told from the records of the
    // channel and the client.

    method ApplyModeFlag(client: Client, change: ChannelModeChange) returns (applied: bool)
      modifies this`flags, client`log
      ensures var result := S.ApplyFlag(old(Rec()), old(ClientIsOperator(client)), change);
              Changes(old(Rec()), client, old(client.Rec()), applied, result)
    {
      ReceiveTwice(client.Rec(), [], []);
      if !ClientIsOperator(client) {
        client.Receive(S.Numeric(482));
        return false;
      }
      if change.op == ADD {
        if change.mode in flags {
          return false;
        }
        flags := flags + {change.mode};
        return true;
      }
      if change.op == REMOVE {
        if change.mode !in flags {
          return false;
        }
        flags := flags - {change.mode};
        return true;
      }
      return false;
    }

    method ApplyModeMember(client: Client, change: ChannelModeChange) returns (applied: bool)
      modifies this`members, client`log
      ensures var result := S.ApplyMember(old(Rec()), server.clients.nicks, old(ClientIsOperator(client)), change);
              Changes(old(Rec()), client, old(client.Rec()), applied, result)
    {
      ReceiveTwice(client.Rec(), [], []);
      if !ClientIsOperator(client) {
        client.Receive(S.Numeric(482));
        return false;
      }
      if change.arg == "" {
        client.Receive(S.Numeric(461));
        return false;
      }
      var target := server.clients.Get(change.arg);
      if target == null {
        client.Receive(S.Numeric(401));
        return false;
      }
      if target !in members {
        client.Receive(S.Numeric(441));
        return false;
      }
      if change.op == ADD {
        if change.mode in members[target] {
          return false;
        }
        members := members[target := members[target] + {change.mode}];
        return true;
      }
      if change.op == REMOVE {
        if change.mode !in members[target] {
          return false;
        }
        members := members[target := members[target] - {change.mode}];
        return true;
      }
      return false;
    }

    method ShowMaskList(client: Client, mode: ChannelMode)
      requires mode in lists
      modifies client`log
      ensures client.Rec() == S.Receive(old(client.Rec()),
                S.Repeat(|lists[mode]|, S.Numeric(S.MaskListCode(mode))) + [S.Numeric(S.EndOfMaskListCode(mode))])
    {
      hide S.Receive, S.Repeat, S.MaskListCode, S.EndOfMaskListCode;
      ghost var r := client.Rec();
      ghost var shown := S.Numeric(S.MaskListCode(mode));
      ghost var n := 0;
      ReceiveTwice(r, [], []);
      RepeatNext(0, shown);
      var todo := lists[mode];
      while todo != {}
        invariant n + |todo| == |lists[mode]|
        invariant client.Rec() == S.Receive(r, S.Repeat(n, shown))
      {
        var mask :| mask in todo;
        client.Receive(S.Numeric(S.MaskListCode(mode)));
        ReceiveTwice(r, S.Repeat(n, shown), [shown]);
        RepeatNext(n, shown);
        todo := todo - {mask};
        n := n + 1;
      }
      client.Receive(S.Numeric(S.EndOfMaskListCode(mode)));
      ReceiveTwice(r, S.Repeat(n, shown), [S.Numeric(S.EndOfMaskListCode(mode))]);
    }

    method ApplyModeMask(client: Client, change: ChannelModeChange) returns (applied: bool)
      modifies this`lists, client`log
      ensures var result := S.ApplyMask(old(Rec()), old(ClientIsOperator(client)), change);
              Changes(old(Rec()), client, old(client.Rec()), applied, result)
    {
      hide S.Repeat;
      ReceiveTwice(client.Rec(), [], []);
      if change.mode !in lists {
        return false;
      }
      if change.op == LIST || change.arg == "" {
        ShowMaskList(client, change.mode);
        return false;
      }
      if !ClientIsOperator(client) {
        client.Receive(S.Numeric(482));
        return false;
      }
      if change.op == ADD {
        if change.arg in lists[change.mode] {
          return false;
        }
        lists := lists[change.mode := lists[change.mode] + {change.arg}];
        return true;
      }
      if change.op == REMOVE {
        if change.arg !in lists[change.mode] {
          return false;
        }
        lists := lists[change.mode := lists[change.mode] - {change.arg}];
        return true;
      }
      return false;
    }

    method ApplyModeKey(client: Client, change: ChannelModeChange) returns (applied: bool)
      modifies this`key, client`log
      ensures var result := S.ApplyKey(old(Rec()), old(ClientIsOperator(client)), change);
              Changes(old(Rec()), client, old(client.Rec()), applied, result)
    {
      ReceiveTwice(client.Rec(), [], []);
      if !ClientIsOperator(client) {
        client.Receive(S.Numeric(482));
        return false;
      }
      if change.op == ADD {
        if change.arg == "" {
          client.Receive(S.Numeric(461));
          return false;
        }
        if change.arg == key {
          return false;
        }
        key := change.arg;
        return true;
      }
      if change.op == REMOVE {
        key := "";
        return true;
      }
      return false;
    }

    method ApplyUserLimit(client: Client, change: ChannelModeChange) returns (applied: bool)
      modifies this`userLimit, client`log
      ensures var result := S.ApplyLimit(old(Rec()), change);
              Changes(old(Rec()), client, old(client.Rec()), applied, result)
    {
      hide S.ParseUint64;
      ReceiveTwice(client.Rec(), [], []);
      var limit := S.ParseUint64(change.arg);
      if limit == None {
        client.Receive(S.Numeric(461));
        return false;
      }
      if limit.value == 0 || limit.value == userLimit {
        return false;
      }
      userLimit := limit.value;
      return true;
    }

    /** The channel and the client have become what `result` says. */
    ghost predicate Changes(channel: S.ChannelRec<Client>, client: Client, before: S.ClientRec<Channel?>,
                            applied: bool, result: S.ModeResult<Client>)
      reads this, client
    {
      Rec() == result.channel && applied == result.applied && client.Rec() == S.Receive(before, result.replies)
    }

    method ApplyMode(client: Client, change: ChannelModeChange) returns (applied: bool)
      modifies this`flags, this`lists, this`key, this`members, this`userLimit, client`log
      ensures var result := S.ApplyMode(old(Rec()), server.clients.nicks, OPERATOR in client.modes, client, change);
              Changes(old(Rec()), client, old(client.Rec()), applied, result)
    {
      hide S.ApplyMask, S.ApplyFlag, S.ApplyKey, S.ApplyLimit, S.ApplyMember, S.Receive;
      ReceiveTwice(client.Rec(), [], []);
      if change.mode in S.MASK_MODES {
        applied := ApplyModeMask(client, change);
      } else if change.mode in S.FLAG_MODES {
        applied := ApplyModeFlag(client, change);
      } else if change.mode == KEY {
        applied := ApplyModeKey(client, change);
      } else if change.mode == USER_LIMIT {
        applied := ApplyUserLimit(client, change);
      } else if change.mode == CHANNEL_OPERATOR || change.mode == VOICE {
        applied := ApplyModeMember(client, change);
      } else {
        client.Receive(S.Numeric(472));
        applied := false;
      }
    }

    /** Apply the changes in turn, and collect those that had an effect. */
    method ApplyModes(client: Client, changes: seq<ChannelModeChange>) returns (applied: seq<ChannelModeChange>)
      modifies this`flags, this`lists, this`key, this`members, this`userLimit, client`log
      ensures var result := S.ApplyModes(old(Rec()), server.clients.nicks, OPERATOR in client.modes, client, changes);
              && Rec() == result.channel && applied == result.applied
              && client.Rec() == S.Receive(old(client.Rec()), result.replies)
    {
      hide S.ApplyMode, S.ApplyModes, S.Receive;
      ghost var channel, r := Rec(), client.Rec();
      ghost var nicks, oper := server.clients.nicks, OPERATOR in client.modes;
      ApplyNone(channel, nicks, oper, client);
      ReceiveTwice(r, [], []);
      applied := [];
      for i := 0 to |changes|
        invariant var result := S.ApplyModes(channel, nicks, oper, client, changes[..i]);
                  && Rec() == result.channel && applied == result.applied
                  && client.Rec() == S.Receive(r, result.replies)
      {
        ghost var before := S.ApplyModes(channel, nicks, oper, client, changes[..i]);
        ApplyNext(channel, nicks, oper, client, changes, i);
        var isApplied := ApplyMode(client, changes[i]);
        ReceiveTwice(r, before.replies, S.ApplyMode(before.channel, nicks, oper, client, changes[i]).replies);
        if isApplied {
          applied := applied + [changes[i]];
        }
      }
      assert changes[..|changes|] == changes;
    }

    method Mode(client: Client, changes: seq<ChannelModeChange>)
      requires Known() && client.Known() && client.server == server
      modifies this`flags, this`lists, this`key, this`members, this`userLimit, server.allClients`log
      ensures server.Abs() == S.ChangeModes(old(server.Abs()), this, client, changes)
    {
      hide Server.Abs, S.ApplyModes, S.Broadcast, S.Say;
      server.ServerAt();
      server.AllAt();
      if changes == [] {
        client.Reply(S.Numeric(324));
        return;
      }
      ghost var w := server.Abs();
      var applied := ApplyModes(client, changes);
      ghost var result := S.ApplyModes(w.channels[this], w.nicks, OPERATOR in client.modes, client, changes);
      QuietSteps.ApplyModesSame(w.channels[this], w.nicks, OPERATOR in client.modes, client, changes);
      assert Rec() == result.channel;
      server.BatchApplied(w, this, client, result.replies);
      if applied != [] {
        Broadcast(S.ChannelModes(client.nick, name, applied));
      }
    }

    method StoreTopic(topic: string)
      requires Known()
      modifies this`topic
      ensures server.Abs() == S.SetChannel(old(server.Abs()), this, old(Rec()).(topic := topic))
    {
      this.topic := topic;
      assert server.Abs().clients == old(server.Abs()).clients;
      assert server.Abs().channels == old(server.Abs()).channels[this := Rec()];
    }

    method AddMask(mode: ChannelMode, mask: Name)
      requires Known()
      modifies this`lists
      ensures lists == old(lists)[mode := S.MasksOf(old(Rec()), mode) + {mask}]
      ensures server.Abs() == S.SetChannel(old(server.Abs()), this, old(Rec()).(lists := lists))
    {
      var masks := if mode in lists then lists[mode] else {};
      lists := lists[mode := masks + {mask}];
      assert server.Abs().clients == old(server.Abs()).clients;
      assert server.Abs().channels == old(server.Abs()).channels[this := Rec()];
    }

    method Quit(client: Client)
      requires Known()
      modifies this`members, server`names
      ensures server.Abs() == S.ChannelQuit(old(server.Abs()), this, client)
      ensures members == old(members) - {client}
    {
      RemoveMember(client);
      if members == map[] {
        server.RemoveName(this);
      }
    }

    method Part(client: Client)
      requires Known() && client.Known() && client.server == server
      modifies this`members, server`names, server.allClients`log
      ensures server.Abs() == S.Part(old(server.Abs()), this, client)
    {
      hide Server.Abs, S.Say, S.Broadcast, S.ChannelQuit;
      server.ClientAt(client);
      server.ChannelAt(this);
      if client !in members {
        client.Reply(S.Numeric(442));
        return;
      }
      Broadcast(S.Parted(client.nick, name));
      Quit(client);
    }

    predicate ClientIsOperator(client: Client)
      reads this, client
    {
      OPERATOR in client.modes || (client in members && CHANNEL_OPERATOR in members[client])
    }

    method Kick(client: Client, target: Client)
      requires Known() && client.Known() && client.server == server && target.Known() && target.server == server
      modifies this`members, server`names, server.allClients`log
      ensures server.Abs() == S.Kick(old(server.Abs()), this, client, target)
    {
      hide Server.Abs, S.Say, S.Broadcast, S.ChannelQuit;
      server.ClientAt(client);
      server.ClientAt(target);
      server.ChannelAt(this);
      if !(ClientIsOperator(client) || client in members) {
        client.Reply(S.Numeric(442));
        return;
      }
      if !ClientIsOperator(client) {
        client.Reply(S.Numeric(482));
        return;
      }
      if target !in members {
        client.Reply(S.Numeric(441));
        return;
      }
      Broadcast(S.Kicked(name, S.NickOrStar(target.nick)));
      Quit(target);
    }

    method SetTopic(client: Client, topic: string)
      requires Known() && client.Known() && client.server == server
      modifies this`topic, server.allClients`log
      ensures server.Abs() == S.SetTopic(old(server.Abs()), this, client, topic)
    {
      hide Server.Abs, S.Say, S.Broadcast, S.SetChannel;
      server.ClientAt(client);
      server.ChannelAt(this);
      if !(ClientIsOperator(client) || client in members) {
        client.Reply(S.Numeric(442));
        return;
      }
      if OP_ONLY_TOPIC in flags && !ClientIsOperator(client) {
        client.Reply(S.Numeric(482));
        return;
      }
      StoreTopic(topic);
      Broadcast(S.Message("TOPIC"));
    }

    method Invite(invitee: Client, inviter: Client)
      requires Known() && inviter.Known() && inviter.server == server && invitee.Known() && invitee.server == server
      modifies this`lists, server.allClients`log
      ensures server.Abs() == S.Invite(old(server.Abs()), this, invitee, inviter)
    {
      hide Server.Abs, S.Say, S.SetChannel, S.UserHost;
      server.ClientAt(inviter);
      server.ClientAt(invitee);
      server.ChannelAt(this);
      if INVITE_ONLY in flags && !ClientIsOperator(inviter) {
        inviter.Reply(S.Numeric(482));
        return;
      }
      if inviter !in members && !ClientIsOperator(inviter) {
        inviter.Reply(S.Numeric(442));
        return;
      }
      if INVITE_ONLY in flags {
        AddMask(INVITE_MASK, invitee.UserHost());
      }
      inviter.Reply(S.Numeric(341));
      invitee.Reply(S.Message("INVITE"));
      if AWAY in invitee.modes {
        inviter.Reply(S.Numeric(301));
      }
    }
  }

  // ------------------------------------------------------------------------- server

  class Server {
    const clients: ClientLookupSet
    var names: map<Name, Channel>
    var connections: int
    var whoWas: seq<Name>
    /** Every object ever made. */
    ghost var allClients: set<Client>
    ghost var allChannels: set<Channel>

    ghost function Abs(): World
      reads this, clients, allClients, allChannels
    {
      S.World(map c | c in allClients :: c.Rec(), map h | h in allChannels :: h.Rec(),
              clients.nicks, names, connections, whoWas)
    }

    ghost predicate Owned()
      reads this
    {
      && (forall c :: c in allClients ==> c.server == this)
      && (forall h :: h in allChannels ==> h.server == this)
    }

    /** Everything that can be reached is the server's. */
    ghost predicate Valid()
      reads this, clients, allClients, allChannels
    {
      Owned() && S.Closed(Abs())
    }

    constructor ()
      ensures Abs() == S.EmptyWorld() && Valid()
    {
      clients := new ClientLookupSet();
      names := map[];
      connections := 0;
      whoWas := [];
      allClients, allChannels := {}, {};
    }

    lemma ClientAt(client: Client)
      requires client in allClients
      ensures client in Abs().clients && Abs().clients[client] == client.Rec()
    {
    }

    lemma ChannelAt(channel: Channel)
      requires channel in allChannels
      ensures channel in Abs().channels && Abs().channels[channel] == channel.Rec()
    {
    }

    lemma ServerAt()
      ensures Abs().clients.Keys == allClients && Abs().channels.Keys == allChannels
      ensures Abs().nicks == clients.nicks && Abs().names == names
      ensures Abs().connections == connections && Abs().whoWas == whoWas
    {
    }

    lemma AllAt()
      ensures forall c :: c in allClients ==> c in Abs().clients && Abs().clients[c] == c.Rec()
      ensures forall h :: h in allChannels ==> h in Abs().channels && Abs().channels[h] == h.Rec()
    {
    }

    /** If only what some clients were sent has changed, and that by one reply. */
    lemma BroadcastDone(w: World, targets: set<Client>, reply: S.Reply)
      requires w.clients.Keys == allClients && w.channels.Keys == allChannels
      requires forall c :: c in allClients ==>
                 c.Rec() == if c in targets then S.Receive(w.clients[c], [reply]) else w.clients[c]
      requires forall h :: h in allChannels ==> w.channels[h] == h.Rec()
      requires w.nicks == clients.nicks && w.names == names && w.connections == connections && w.whoWas == whoWas
      ensures Abs() == S.Broadcast(w, targets, reply)
    {
    }

    lemma ClientAdded(w: World, client: Client)
      requires allClients == w.clients.Keys + {client} && w.channels.Keys == allChannels
      requires forall c :: c in w.clients && c != client ==> c.Rec() == w.clients[c]
      requires forall h :: h in allChannels ==> w.channels[h] == h.Rec()
      requires w.nicks == clients.nicks && w.names == names && w.whoWas == whoWas
      ensures Abs() == S.SetClient(w, client, client.Rec()).(connections := connections)
    {
    }

    lemma ChannelAdded(w: World, channel: Channel)
      requires allChannels == w.channels.Keys + {channel} && w.clients.Keys == allClients
      requires forall c :: c in allClients ==> c.Rec() == w.clients[c]
      requires forall h :: h in w.channels && h != channel ==> w.channels[h] == h.Rec()
      requires w.nicks == clients.nicks && w.connections == connections && w.whoWas == whoWas
      ensures Abs() == S.SetChannel(w, channel, channel.Rec()).(names := names)
    {
    }

    lemma IndexedAt(onlyWallOps: bool)
      requires clients.nicks.Values <= allClients
      ensures S.Indexed(Abs(), onlyWallOps)
           == set k | k in clients.nicks && (!onlyWallOps || WALL_OPS in clients.nicks[k].modes) :: clients.nicks[k]
    {
    }

    /** If only a channel and what one client was sent have changed, so have only these records. */
    lemma BatchApplied(w: World, channel: Channel, client: Client, replies: seq<S.Reply>)
      requires channel in allChannels && client in allClients && client in w.clients && channel in w.channels
      requires w.clients.Keys == allClients && w.channels.Keys == allChannels
      requires client.Rec() == S.Receive(w.clients[client], replies)
      requires forall c :: c in allClients && c != client ==> w.clients[c] == c.Rec()
      requires forall h :: h in allChannels && h != channel ==> w.channels[h] == h.Rec()
      requires w.nicks == clients.nicks && w.names == names && w.connections == connections && w.whoWas == whoWas
      ensures Abs() == S.Say(S.SetChannel(w, channel, channel.Rec()), client, replies)
    {
    }

    lemma MembersKnown()
      requires Valid()
      ensures forall h :: h in allChannels ==> h.Known()
      ensures forall c :: c in allClients ==> c.channels <= allChannels
      ensures clients.nicks.Values <= allClients && names.Values <= allChannels
    {
      assert forall h :: h in allChannels ==> Abs().channels[h].members == h.members;
      assert forall c :: c in allClients ==> Abs().clients[c].channels == c.channels;
    }

    method Disconnect()
      modifies this`connections
      ensures Abs() == old(Abs()).(connections := old(connections) - 1)
    {
      connections := connections - 1;
      assert Abs().clients == old(Abs()).clients && Abs().channels == old(Abs()).channels;
    }

    method Index(client: Client)
      modifies clients
      ensures clients.nicks == S.IndexAdd(old(clients.nicks), client, client.nick)
      ensures Abs() == old(Abs()).(nicks := clients.nicks)
    {
      var _ := clients.Add(client);
      assert Abs().clients == old(Abs()).clients && Abs().channels == old(Abs()).channels;
    }

    method Unindex(client: Client)
      modifies clients
      ensures clients.nicks == S.IndexRemove(old(clients.nicks), client, client.nick)
      ensures Abs() == old(Abs()).(nicks := clients.nicks)
    {
      var _ := clients.Remove(client);
      assert Abs().clients == old(Abs()).clients && Abs().channels == old(Abs()).channels;
    }

    /** Record a nickname given up. */
    method Record(client: Client)
      modifies this`whoWas
      ensures Abs() == old(Abs()).(whoWas := old(whoWas) + [S.NickOrStar(client.nick)])
    {
      whoWas := whoWas + [S.NickOrStar(client.nick)];
      assert Abs().clients == old(Abs()).clients && Abs().channels == old(Abs()).channels;
    }

    /** A connection is accepted. */
    method Connect(secure: bool, hostname: Name, noPassword: bool) returns (client: Client)
      requires Valid()
      modifies this`connections, this`allClients
      ensures fresh(client) && allClients == old(allClients) + {client} && client.server == this && client.Known()
      ensures Abs() == S.Step(old(Abs()), S.Connect(client, secure, hostname, noPassword))
    {
      hide Abs, S.Closed;
      ServerAt();
      AllAt();
      ghost var w := Abs();
      client := new Client(this, secure, hostname, noPassword);
      connections := connections + 1;
      allClients := allClients + {client};
      ClientAdded(w, client);
    }

    method HasOperator() returns (found: bool)
      requires clients.nicks.Values <= allClients
      ensures found == S.SomeOperator(Abs())
    {
      var nicks := clients.nicks;
      var nOperators := 0;
      var todo := nicks.Keys;
      while todo != {}
        invariant todo <= nicks.Keys && nOperators >= 0
        invariant nOperators > 0 <==> exists k :: k in nicks && k !in todo && OPERATOR in nicks[k].modes
      {
        var k :| k in todo;
        if OPERATOR in nicks[k].modes {
          nOperators := nOperators + 1;
        }
        todo := todo - {k};
      }
      found := nOperators != 0;
      AllAt();
      assert forall k :: k in nicks ==> nicks[k] in allClients;
    }

    method LUsers(client: Client)
      requires client.Known() && client.server == this && clients.nicks.Values <= allClients
      modifies client`log
      ensures Abs() == S.Say(old(Abs()), client, S.LUsers(old(Abs())))
    {
      hide Abs, S.Say, S.SomeOperator;
      ServerAt();
      ghost var w := Abs();
      var operators := HasOperator();
      client.Reply(S.Numeric(251));
      ghost var said := [S.Numeric(251)];
      if operators {
        client.Reply(S.Numeric(252));
        SayTwice(w, client, said, [S.Numeric(252)]);
        said := said + [S.Numeric(252)];
      }
      if connections - |clients.nicks| != 0 {
        client.Reply(S.Numeric(253));
        SayTwice(w, client, said, [S.Numeric(253)]);
        said := said + [S.Numeric(253)];
      }
      if names != map[] {
        client.Reply(S.Numeric(254));
        SayTwice(w, client, said, [S.Numeric(254)]);
        said := said + [S.Numeric(254)];
      }
      client.Reply(S.Numeric(255));
      SayTwice(w, client, said, [S.Numeric(255)]);
      said := said + [S.Numeric(255)];
      assert said == S.LUsers(w);
    }

    /** The first replies to a client that has registered. */
    method Greet(client: Client)
      requires client.Known() && client.server == this && clients.nicks.Values <= allClients
      modifies client`log
      ensures Abs() == S.Say(old(Abs()), client,
                [S.Welcome(client.nick), S.Numeric(2), S.Numeric(3), S.Numeric(4)] + S.LUsers(old(Abs())) + [S.Message("MOTD")])
    {
      hide Abs, S.Say, S.LUsers;
      ServerAt();
      ghost var w := Abs();
      ghost var hello := [S.Welcome(client.nick), S.Numeric(2), S.Numeric(3), S.Numeric(4)];
      client.Reply(S.Welcome(client.nick));
      client.Reply(S.Numeric(2));
      client.Reply(S.Numeric(3));
      client.Reply(S.Numeric(4));
      assert hello[..1] == [S.Welcome(client.nick)];
      assert hello[1..2] == [S.Numeric(2)] && hello[2..3] == [S.Numeric(3)] && hello[3..4] == [S.Numeric(4)];
      SayTwice(w, client, hello[..1], hello[1..2]);
      SayTwice(w, client, hello[..2], hello[2..3]);
      SayTwice(w, client, hello[..3], hello[3..4]);
      assert hello[..1] + hello[1..2] == hello[..2] && hello[..2] + hello[2..3] == hello[..3] && hello[..3] + hello[3..4] == hello;
      LUsers(client);
      LUsersAfterSay(w, client, hello);
      SayTwice(w, client, hello, S.LUsers(w));
      client.Reply(S.Message("MOTD"));
      SayTwice(w, client, hello + S.LUsers(w), [S.Message("MOTD")]);
    }

    method TryRegister(client: Client)
      requires client.Known() && client.server == this && clients.nicks.Values <= allClients
      modifies client`registered, client`modes, client`log
      ensures Abs() == S.TryRegister(old(Abs()), client)
    {
      hide Abs, S.Say, S.LUsers;
      ClientAt(client);
      if client.registered || client.nick == "" || client.username == "" || client.capState == S.CapNegotiating {
        return;
      }
      client.Register();
      Greet(client);
    }

    /** To everybody in the index, or to those with `w`: sent directly, so nobody there may be closed. */
    method SendDirectly(onlyWallOps: bool, reply: S.Reply)
      requires clients.nicks.Values <= allClients
      requires forall c :: c in clients.nicks.Values ==> !c.closed && !c.hasQuit
      requires forall k, l :: k in clients.nicks && l in clients.nicks && k != l ==> clients.nicks[k] != clients.nicks[l]
      modifies clients.nicks.Values`log
      ensures Abs() == S.Broadcast(old(Abs()), S.Indexed(old(Abs()), onlyWallOps), reply)
    {
      hide Abs, S.Receive, S.Indexed;
      ServerAt();
      AllAt();
      IndexedAt(onlyWallOps);
      ghost var w := Abs();
      ghost var targets := S.Indexed(w, onlyWallOps);
      SendEach(clients.nicks, onlyWallOps, reply);
      BroadcastDone(w, targets, reply);
    }

    static method SendEach(nicks: map<Name, Client>, onlyWallOps: bool, reply: S.Reply)
      requires forall c :: c in nicks.Values ==> !c.closed && !c.hasQuit
      requires forall k, l :: k in nicks && l in nicks && k != l ==> nicks[k] != nicks[l]
      modifies nicks.Values`log
      ensures forall c :: c in nicks.Values ==>
                c.Rec() == if !onlyWallOps || WALL_OPS in c.modes then S.Receive(old(c.Rec()), [reply]) else old(c.Rec())
    {
      hide S.Receive;
      var todo := nicks.Keys;
      while todo != {}
        invariant todo <= nicks.Keys
        invariant forall k :: k in nicks && k !in todo ==>
                    nicks[k].Rec() == if !onlyWallOps || WALL_OPS in nicks[k].modes
                                      then S.Receive(old(nicks[k].Rec()), [reply]) else old(nicks[k].Rec())
        invariant forall k :: k in todo ==> nicks[k].log == old(nicks[k].log)
      {
        var k :| k in todo;
        if !onlyWallOps || WALL_OPS in nicks[k].modes {
          nicks[k].Send(reply);
        }
        todo := todo - {k};
      }
    }

    /** `ChannelNameMap.Remove`: another channel of the same name stays. */
    method RemoveName(channel: Channel)
      modifies this`names
      ensures names == if LOWER(channel.name) in old(names) && old(names)[LOWER(channel.name)] == channel
                       then old(names) - {LOWER(channel.name)} else old(names)
      ensures Abs() == old(Abs()).(names := names)
    {
      if LOWER(channel.name) in names && names[LOWER(channel.name)] == channel {
        names := names - {LOWER(channel.name)};
      }
      assert Abs().clients == old(Abs()).clients && Abs().channels == old(Abs()).channels;
    }

    /** A new channel, indexed under its name; its caller has found the name to be free. */
    method NewChannel(name: Name) returns (channel: Channel)
      requires LOWER(name) !in names
      modifies this`names, this`allChannels
      ensures fresh(channel) && channel.server == this
      ensures allChannels == old(allChannels) + {channel}
      ensures Abs() == S.WithChannel(old(Abs()), name, channel)
    {
      hide Abs;
      ServerAt();
      AllAt();
      ghost var w := Abs();
      channel := new Channel(this, name);
      names := names[LOWER(name) := channel];
      allChannels := allChannels + {channel};
      ChannelAdded(w, channel);
    }
  }

  lemma EnumeratesMore<T>(order: seq<T>, elements: set<T>, t: T)
    requires S.Enumerates(order, elements) && t !in elements
    ensures S.Enumerates(order + [t], elements + {t})
  {
  }

  lemma FirstMember(members: map<Client, set<ChannelMode>>, client: Client)
    requires client !in members
    ensures |members[client := {}]| == 1 <==> members == map[]
    ensures members[client := {}][client := {CHANNEL_CREATOR, CHANNEL_OPERATOR}]
         == members[client := {CHANNEL_CREATOR, CHANNEL_OPERATOR}]
  {
  }

  lemma SayNoLines(w: World, c: Client, channel: Name, batches: seq<seq<string>>)
    requires c in w.clients
    ensures S.Say(w, c, S.NamesLines(channel, batches[..0])) == w
  {
    assert S.NamesLines(channel, batches[..0]) == [];
    SayNothing(w, c);
  }

  lemma FriendsKnown(s: Server, c: Client, friends: set<Client>)
    requires c in s.allClients && friends == S.Friends(s.Abs(), c)
    requires forall h :: h in s.allChannels ==> h.members.Keys <= s.allClients
    ensures friends <= s.allClients
  {
  }

  /** Reply to each of the clients. */
  method SendTo(s: Server, targets: set<Client>, reply: S.Reply)
    requires targets <= s.allClients
    modifies targets`log
    ensures s.Abs() == S.Broadcast(old(s.Abs()), targets, reply)
  {
    hide Server.Abs;
    s.ServerAt();
    s.AllAt();
    ghost var w := s.Abs();
    var todo := targets;
    while todo != {}
      invariant todo <= targets
      invariant forall c :: c in targets - todo ==> c.Rec() == S.Receive(old(c.Rec()), [reply])
      invariant forall c :: c in todo ==> c.log == old(c.log)
    {
      var client :| client in todo;
      client.Receive(reply);
      todo := todo - {client};
    }
    s.BroadcastDone(w, targets, reply);
  }
}
