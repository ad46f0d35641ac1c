/** Where the modes `o` and `r` come from, and that quitting is for good. */
module Provenance {
  import opened Names
  import opened Modes
  import opened Strings
  import opened ServerState
  import opened Replica
  import opened Invariants
  import opened QuietSteps
  import opened NickSteps
  import opened ChannelSteps
  import opened LeavingSteps
  import opened Runs
  import Sasl

  // ------------------------------------------------------- the change of a client

  /** A connected client is registered exactly if nothing is missing for it. */
  ghost predicate Complete<H>(client: ClientRec<H>) {
    client.hasQuit
    || (client.registered <==> client.nick != "" && client.username != "" && client.capState != CapNegotiating)
  }

  /** `r` is never lost, the record of a client that has quit is never touched again. */
  ghost predicate Plain<H>(a: ClientRec<H>, b: ClientRec<H>) {
    && (OPERATOR in b.modes <==> OPERATOR in a.modes)
    && (REGISTERED in b.modes <==> REGISTERED in a.modes)
    && b.secure == a.secure
    && b.authorized == a.authorized
    && (a.hasQuit ==> b == a)
    && (Complete(a) ==> Complete(b))
  }

  /** No client gained or lost `o` or `r`. */
  ghost predicate AllPlain<C, H>(w: World<C, H>, w': World<C, H>) {
    && w'.clients.Keys == w.clients.Keys
    && (forall m :: m in w.clients ==> m in w'.clients && Plain(w.clients[m], w'.clients[m]))
  }

  lemma PlainTwice<C, H>(a: World<C, H>, b: World<C, H>, c: World<C, H>)
    requires AllPlain(a, b) && AllPlain(b, c)
    ensures AllPlain(a, c)
  {
  }

  lemma SayPlain<C, H>(w: World<C, H>, c: C, replies: seq<Reply>)
    requires c in w.clients
    ensures AllPlain(w, Say(w, c, replies))
  {
  }

  lemma BroadcastPlain<C, H>(w: World<C, H>, to: set<C>, reply: Reply)
    ensures AllPlain(w, Broadcast(w, to, reply))
  {
  }

  lemma SetPlain<C, H>(w: World<C, H>, c: C, client: ClientRec<H>)
    requires c in w.clients && Plain(w.clients[c], client)
    ensures AllPlain(w, SetClient(w, c, client))
  {
  }

  /** A world that differs only in something else than its clients. */
  lemma ClientsPlain<C, H>(w: World<C, H>, w1: World<C, H>, w2: World<C, H>)
    requires AllPlain(w, w1) && w2.clients == w1.clients
    ensures AllPlain(w, w2)
  {
  }

  lemma SelfPlain<C, H>(w: World<C, H>, w1: World<C, H>)
    requires w1.clients == w.clients
    ensures AllPlain(w, w1)
  {
  }

  lemma SayAfterPlain<C, H>(w: World<C, H>, w1: World<C, H>, c: C, replies: seq<Reply>)
    requires AllPlain(w, w1) && c in w1.clients
    ensures AllPlain(w, Say(w1, c, replies))
  {
  }

  lemma BroadcastAfterPlain<C, H>(w: World<C, H>, w1: World<C, H>, to: set<C>, reply: Reply)
    requires AllPlain(w, w1)
    ensures AllPlain(w, Broadcast(w1, to, reply))
  {
  }

  lemma LeavePlain<C, H>(w: World<C, H>, h: H, t: C, reply: Reply)
    requires h in w.channels
    ensures AllPlain(w, Leave(w, h, t, reply))
  {
  }

  lemma KickPlain<C, H>(w: World<C, H>, h: H, c: C, target: C)
    requires c in w.clients && target in w.clients && h in w.channels
    ensures AllPlain(w, Kick(w, h, c, target)) && AllPlain(w, Part(w, h, c))
  {
    hide AllPlain, Leave, Say, IsOperator;
    SayPlain(w, c, [Numeric(442)]);
    SayPlain(w, c, [Numeric(482)]);
    SayPlain(w, c, [Numeric(441)]);
    LeavePlain(w, h, target, Kicked(w.channels[h].name, NickOrStar(w.clients[target].nick)));
    LeavePlain(w, h, c, Parted(w.clients[c].nick, w.channels[h].name));
  }

  lemma JoinPlain<C, H>(w: World<C, H>, h: H, c: C, key: string, order: seq<C>)
    requires c in w.clients && !w.clients[c].hasQuit && h in w.channels && w.channels[h].members.Keys <= w.clients.Keys
    requires Admitted(w, h, c, key) ==> Enumerates(order, w.channels[h].members.Keys + {c})
    ensures AllPlain(w, JoinChannel(w, h, c, key, order))
  {
    hide AllPlain, Say, Broadcast, Refusal, NamesReplies, Enumerates;
    SelfPlain(w, w);
    if Admitted(w, h, c, key) {
      OrderIsMembers(w, h, c, order);
      var entered := SetClient(w, c, w.clients[c].(channels := w.clients[c].channels + {h}));
      SetPlain(w, c, w.clients[c].(channels := w.clients[c].channels + {h}));
      ClientsPlain(w, entered, AddMember(w, h, c));
      var w1 := AddMember(w, h, c);
      var reply := Joined(w.clients[c].nick, w.channels[h].name);
      BroadcastAfterPlain(w, w1, w1.channels[h].members.Keys, reply);
      AdmitIs(w, h, c, order);
      AnnouncedRecord(w, h, c, c);
      SayAfterPlain(w, Announced(w, h, c), c, Greeting(Announced(w, h, c), h, c, order));
    } else if c !in w.channels[h].members {
      SayPlain(w, c, [Numeric(Refusal(w.clients[c], w.channels[h], c, key).value)]);
    }
  }

  lemma JoinNamePlain<C, H>(w: World<C, H>, c: C, name: Name, key: string, made: H, order: seq<C>)
    requires Closed(w) && c in w.clients && !w.clients[c].hasQuit && JoinOrderFits(w, c, name, key, made, order)
    ensures AllPlain(w, JoinName(w, c, name, key, made, order))
  {
    hide AllPlain, Say, JoinChannel, Refusal, Enumerates;
    SayPlain(w, c, [Numeric(403)]);
    if IsChannel(name) {
      var h := if LOWER(name) in w.names then w.names[LOWER(name)] else made;
      var w1 := WithChannel(w, name, made);
      SelfPlain(w, w1);
      if LOWER(name) !in w.names {
        assert w1.channels[made].members.Keys + {c} == {c};
      }
      JoinPlain(w1, h, c, key, order);
      PlainTwice(w, w1, JoinChannel(w1, h, c, key, order));
    }
  }

  lemma ChangeNickPlain<C, H>(w: World<C, H>, c: C, nick: Name)
    requires c in w.clients && !w.clients[c].hasQuit && (w.clients[c].nick != "" <==> nick != "")
    ensures AllPlain(w, ChangeNick(w, c, nick))
  {
  }

  lemma QuitPlain<C, H>(w: World<C, H>, c: C)
    requires c in w.clients
    ensures AllPlain(w, Quit(w, c))
  {
  }

  lemma TopicPlain<C, H>(w: World<C, H>, h: H, c: C, topic: string)
    requires c in w.clients && h in w.channels
    ensures AllPlain(w, SetTopic(w, h, c, topic))
  {
  }

  lemma InvitePlain<C, H>(w: World<C, H>, h: H, invitee: C, inviter: C)
    requires inviter in w.clients && invitee in w.clients && h in w.channels
    ensures AllPlain(w, Invite(w, h, invitee, inviter))
  {
    hide AllPlain, Say, IsOperator, MasksOf, UserHost;
    var channel := w.channels[h];
    SayPlain(w, inviter, [Numeric(482)]);
    SayPlain(w, inviter, [Numeric(442)]);
    var invited := MasksOf(channel, INVITE_MASK) + {UserHost(w.clients[invitee])};
    var w1 := if INVITE_ONLY in channel.flags
              then SetChannel(w, h, channel.(lists := channel.lists[INVITE_MASK := invited])) else w;
    SelfPlain(w, w1);
    SayKeepsClients(w1, inviter, [Numeric(341)]);
    SayAfterPlain(w, w1, inviter, [Numeric(341)]);
    var w2 := Say(w1, inviter, [Numeric(341)]);
    SayKeepsClients(w2, invitee, [Message("INVITE")]);
    SayAfterPlain(w, w2, invitee, [Message("INVITE")]);
    SayAfterPlain(w, Say(w2, invitee, [Message("INVITE")]), inviter, [Numeric(301)]);
  }

  lemma ChangeModesPlain<C, H>(w: World<C, H>, h: H, c: C, changes: seq<ChannelModeChange>)
    requires c in w.clients && h in w.channels
    ensures AllPlain(w, ChangeModes(w, h, c, changes))
  {
    hide AllPlain, Say, Broadcast, ApplyModes;
    SayPlain(w, c, [Numeric(324)]);
    var result := ApplyModes(w.channels[h], w.nicks, OPERATOR in w.clients[c].modes, c, changes);
    var w0 := SetChannel(w, h, result.channel);
    SelfPlain(w, w0);
    SayAfterPlain(w, w0, c, result.replies);
    BroadcastAfterPlain(w, Say(w0, c, result.replies), result.channel.members.Keys,
                        ChannelModes(w.clients[c].nick, result.channel.name, result.applied));
  }

  lemma InviteNamePlain<C, H>(w: World<C, H>, c: C, nick: Name, name: Name)
    requires Closed(w) && c in w.clients
    ensures AllPlain(w, InviteName(w, c, nick, name))
  {
    hide AllPlain, Say, Invite;
    SayPlain(w, c, [Numeric(401)]);
    if Taken(w, nick) {
      var target := w.nicks[LOWER(nick)];
      SayPlain(w, c, [Numeric(341)]);
      SayKeepsClients(w, c, [Numeric(341)]);
      SayAfterPlain(w, Say(w, c, [Numeric(341)]), target, [Message("INVITE")]);
      if LOWER(name) in w.names {
        InvitePlain(w, w.names[LOWER(name)], target, c);
      }
    }
  }

  /** A client on its way to registration: whatever has been set, its status is as it was. */
  ghost predicate SameStatus<H>(a: ClientRec<H>, b: ClientRec<H>) {
    && b.registered == a.registered
    && b.hasQuit == a.hasQuit
    && b.secure == a.secure
    && b.authorized == a.authorized
    && (OPERATOR in b.modes <==> OPERATOR in a.modes)
    && (REGISTERED in b.modes <==> REGISTERED in a.modes)
  }

  lemma TryRegisterPlain<C, H>(w: World<C, H>, w1: World<C, H>, c: C)
    requires c in w.clients && !w.clients[c].hasQuit && !w.clients[c].registered && c in w1.clients
    requires w1.clients == w.clients[c := w1.clients[c]] && SameStatus(w.clients[c], w1.clients[c])
    ensures AllPlain(w, TryRegister(w1, c))
  {
    hide LUsers;
  }

  lemma TurnAwayPlain<C, H>(w: World<C, H>, c: C)
    requires c in w.clients
    ensures AllPlain(w, TurnAway(w, c))
  {
  }

  lemma RegisterNickPlain<C, H>(w: World<C, H>, c: C, nick: Name)
    requires c in w.clients && !w.clients[c].hasQuit && !w.clients[c].registered
    ensures AllPlain(w, RegisterNick(w, c, nick))
  {
    hide AllPlain, Say, TurnAway, TryRegister, IsNickname, IndexAdd;
    TurnAwayPlain(w, c);
    SayPlain(w, c, [Numeric(431)]);
    SayPlain(w, c, [Numeric(433)]);
    SayPlain(w, c, [Numeric(432)]);
    assert w.clients == w.clients[c := w.clients[c]];
    TryRegisterPlain(w, w, c);
    TryRegisterPlain(w, SetClient(w, c, w.clients[c].(nick := nick)).(nicks := IndexAdd(w.nicks, c, nick)), c);
  }

  lemma UserFlagsPlain(flags: nat)
    ensures OPERATOR !in UserFlags(flags) && REGISTERED !in UserFlags(flags)
  {
  }

  lemma RegisterUserPlain<C, H>(w: World<C, H>, c: C, username: Name, flags: Option<nat>)
    requires c in w.clients && !w.clients[c].hasQuit && !w.clients[c].registered
    ensures AllPlain(w, RegisterUser(w, c, username, flags))
  {
    hide AllPlain, TurnAway, TryRegister, IndexAdd, IndexRemove, UserFlags;
    TurnAwayPlain(w, c);
    if w.clients[c].authorized {
      var modes := if flags.Some? then UserFlags(flags.value) else {};
      if flags.Some? {
        UserFlagsPlain(flags.value);
      }
      var w1 := if modes == {} then w
                else Say(SetClient(w, c, w.clients[c].(modes := w.clients[c].modes + modes)), c, [Numeric(221)]);
      var nick := w1.clients[c].nick;
      var w2 := SetClient(w1, c, w1.clients[c].(username := username)).(
        nicks := IndexAdd(IndexRemove(w1.nicks, c, nick), c, nick));
      assert w2.clients == w.clients[c := w2.clients[c]];
      TryRegisterPlain(w, w2, c);
    }
  }

  lemma NegotiatePlain<C, H>(w: World<C, H>, c: C, sub: string, capabilities: set<string>)
    requires c in w.clients && !w.clients[c].hasQuit && !w.clients[c].registered
    ensures AllPlain(w, Negotiate(w, c, sub, capabilities))
  {
    hide AllPlain, TryRegister, Say;
    var client := w.clients[c];
    if sub == "LS" {
      SetSayPlain(w, c, client.(capState := CapNegotiating), [Message("CAP LS")]);
    } else if sub == "LIST" {
      SayPlain(w, c, [Message("CAP LIST")]);
    } else if sub == "REQ" {
      SayPlain(w, c, [Message("CAP NAK")]);
      SetSayPlain(w, c, client.(capabilities := client.capabilities + capabilities), [Message("CAP ACK")]);
    } else if sub == "CLEAR" {
      SetSayPlain(w, c, client.(capabilities := {}), [Message("CAP ACK")]);
    } else if sub == "END" {
      TryRegisterPlain(w, SetClient(w, c, client.(capState := CapNegotiated)), c);
    } else {
      SayPlain(w, c, [Numeric(410)]);
    }
  }

  lemma SetSayPlain<C, H>(w: World<C, H>, c: C, client: ClientRec<H>, replies: seq<Reply>)
    requires c in w.clients && Plain(w.clients[c], client)
    ensures AllPlain(w, Say(SetClient(w, c, client), c, replies))
  {
  }

  // --------------------------------------------------------------- the four sources

  lemma BeforePlain<C, H>(w: World<C, H>, c: C, command: Command<C, H>)
    requires c in w.clients && !w.clients[c].hasQuit && !w.clients[c].registered
    requires !command.Authenticate? && !command.Pass?
    ensures AllPlain(w, BeforeRegistration(w, c, command))
  {
    hide AllPlain, RegisterNick, RegisterUser, Negotiate, TurnAway, Quit;
    match command
    case Nick(nick) => RegisterNickPlain(w, c, nick);
    case User(username, flags) => RegisterUserPlain(w, c, username, flags);
    case Cap(sub, capabilities) => NegotiatePlain(w, c, sub, capabilities);
    case _ => QuitPlain(w, c);
  }

  lemma MemberCommandPlain<C, H>(w: World<C, H>, c: C, command: Command<C, H>)
    requires Closed(w) && c in w.clients && !w.clients[c].hasQuit && ChoicesFit(w, c, command) && ActsOnMembers(command)
    ensures AllPlain(w, AfterRegistration(w, c, command))
  {
    hide AllPlain, Closed, JoinName, Kick, Part, Say, JoinOrderFits, NamesOrderFits, NamesName;
    ClosedIndexes(w);
    ClosedMembers(w, c);
    SayPlain(w, c, [Numeric(403)]);
    SayPlain(w, c, [Numeric(401)]);
    match command
    case Join(name, key, made, order) => JoinNamePlain(w, c, name, key, made, order);
    case PartFrom(name) => if LOWER(name) in w.names { KickPlain(w, w.names[LOWER(name)], c, c); }
    case PartObject(h) => KickPlain(w, h, c, c);
    case KickFrom(name, nick) =>
      if LOWER(name) in w.names && Taken(w, nick) { KickPlain(w, w.names[LOWER(name)], c, w.nicks[LOWER(nick)]); }
    case NamesOf(name, order) => NamesNamePlain(w, c, name, order);
  }

  lemma NamesNamePlain<C, H>(w: World<C, H>, c: C, name: Name, order: seq<C>)
    requires Closed(w) && c in w.clients && NamesOrderFits(w, name, order)
    ensures AllPlain(w, NamesName(w, c, name, order))
  {
    hide AllPlain, Say, NamesReplies;
    SelfPlain(w, w);
    SayPlain(w, c, [Numeric(403)]);
    if LOWER(name) in w.names {
      var h := w.names[LOWER(name)];
      assert forall m :: m in order ==> m in w.channels[h].members.Keys;
      SayPlain(w, c, NamesReplies(w, h, c, order));
    }
  }

  lemma NickCommandPlain<C, H>(w: World<C, H>, c: C, command: Command<C, H>)
    requires NicksOk(w) && Closed(w) && c in w.clients && !w.clients[c].hasQuit && w.clients[c].nick != ""
    requires ChoicesFit(w, c, command) && ActsOnNicks(command)
    ensures AllPlain(w, AfterRegistration(w, c, command))
  {
    hide AllPlain, Closed, ChangeNick, Quit, Say, IsNickname, NicksOk;
    ClosedIndexes(w);
    SelfPlain(w, w);
    forall code: nat
      ensures AllPlain(w, Say(w, c, [Numeric(code)]))
    {
      SayPlain(w, c, [Numeric(code)]);
    }
    match command
    case Nick(nick) => if nick != "" { ChangeNickPlain(w, c, nick); }
    case OperNick(target, nick) =>
      if Taken(w, target) {
        IndexedIsLive(w, LOWER(target));
        ChangeNickPlain(w, w.nicks[LOWER(target)], nick);
      }
    case QuitCommand => QuitPlain(w, c);
    case Kill(nick) => if Taken(w, nick) { QuitPlain(w, w.nicks[LOWER(nick)]); }
  }

  lemma TellPlain<C, H>(w: World<C, H>, c: C, notice: bool, target: Name)
    requires c in w.clients && w.names.Values <= w.channels.Keys && w.nicks.Values <= w.clients.Keys
    ensures AllPlain(w, TellName(w, c, notice, target))
  {
    hide Say, Broadcast, TellRefusal, Audience, AllPlain;
    match TellRefusal(w, c, notice, target)
    case Some(code) => SayPlain(w, c, [Numeric(code)]);
    case None =>
      var reply := Message(if notice then "NOTICE" else "PRIVMSG");
      var w1 := Broadcast(w, Audience(w, c, notice, target), reply);
      BroadcastPlain(w, Audience(w, c, notice, target), reply);
      PlainKeys(w, w1);
      SayAfterPlain(w, w1, c, [Numeric(301)]);
  }

  lemma PlainKeys<C, H>(w: World<C, H>, w': World<C, H>)
    requires AllPlain(w, w')
    ensures w'.clients.Keys == w.clients.Keys
  {
  }

  lemma OtherCommandPlain<C, H>(w: World<C, H>, c: C, command: Command<C, H>)
    requires Closed(w) && c in w.clients && !w.clients[c].hasQuit && ChoicesFit(w, c, command)
    requires !ActsOnMembers(command) && !ActsOnNicks(command) && !command.Oper? && !command.UserModes?
    ensures AllPlain(w, AfterRegistration(w, c, command))
  {
    hide AllPlain, Closed, SetTopic, InviteName, TellName, ChangeModes, Say, Broadcast, LUsers, Indexed;
    ClosedIndexes(w);
    forall replies
      ensures AllPlain(w, Say(w, c, replies))
    {
      SayPlain(w, c, replies);
    }
    match command {
      case SetModes(name, changes) =>
        if LOWER(name) in w.names { ChangeModesPlain(w, w.names[LOWER(name)], c, changes); }
      case Topic(name, topic) =>
        if LOWER(name) in w.names { TopicPlain(w, w.names[LOWER(name)], c, topic); }
      case InviteTo(nick, name) => InviteNamePlain(w, c, nick, name);
      case Away(text) =>
        var modes := w.clients[c].modes;
        SetPlain(w, c, w.clients[c].(modes := if text != "" then modes + {AWAY} else modes - {AWAY}));
      case Wallops => BroadcastPlain(w, Indexed(w, true), Message("NOTICE"));
      case Tell(notice, target) => TellPlain(w, c, notice, target);
      case _ =>
    }
  }

  lemma {:induction false} UserModesSources(modes: set<UserMode>, changes: seq<ModeChange>)
    ensures var after := ApplyUserModes(modes, changes).0;
            && (OPERATOR in after ==> OPERATOR in modes)
            && (REGISTERED in after <==> REGISTERED in modes)
            && (SECURE_CONN in after <==> SECURE_CONN in modes)
  {
    if changes != [] {
      UserModesSources(modes, changes[..|changes| - 1]);
    }
  }

  /** A command that may change status does so for one client, from one source. */
  ghost predicate StatusChange<C, H>(w: World<C, H>, w': World<C, H>, c: C, command: Command<C, H>, m: C)
    requires c in w.clients && m in w.clients && m in w'.clients
  {
    var a, b := w.clients[m], w'.clients[m];
    && w'.clients.Keys == w.clients.Keys
    && (a.hasQuit ==> b == a)
    && b.secure == a.secure
    && (Complete(a) ==> Complete(b))
    && (a.authorized ==> b.authorized)
    && (b.authorized && !a.authorized ==> m == c && !a.registered && command == Pass(true))
    && (OPERATOR in b.modes && OPERATOR !in a.modes ==> m == c && a.registered && command == Oper(true))
    && (OPERATOR in a.modes && OPERATOR !in b.modes ==> command.UserModes?)
    && (REGISTERED in a.modes ==> REGISTERED in b.modes)
    && (REGISTERED in b.modes && REGISTERED !in a.modes ==>
        m == c && !a.registered && command.Authenticate? && LogsIn(Sasl.Receive(a.sasl, command.arg).1))
  }

  lemma PlainIsStatusChange<C, H>(w: World<C, H>, w': World<C, H>, c: C, command: Command<C, H>, m: C)
    requires c in w.clients && m in w.clients && AllPlain(w, w')
    ensures m in w'.clients && StatusChange(w, w', c, command, m)
  {
  }

  lemma OperSource<C, H>(w: World<C, H>, c: C, accepted: bool, m: C)
    requires c in w.clients && m in w.clients && !w.clients[c].hasQuit && w.clients[c].registered
    ensures m in BecomeOperator(w, c, accepted).clients
    ensures StatusChange(w, BecomeOperator(w, c, accepted), c, Oper(accepted), m)
  {
  }

  /** Nothing that registration depends on has changed. */
  ghost predicate SameStanding<H>(a: ClientRec<H>, b: ClientRec<H>) {
    && b.secure == a.secure && b.authorized == a.authorized && b.registered == a.registered && b.hasQuit == a.hasQuit
    && b.nick == a.nick && b.username == a.username && b.capState == a.capState
  }

  lemma UserModesRecord<C, H>(w: World<C, H>, c: C, nick: Name, changes: seq<ModeChange>, m: C)
    requires w.nicks.Values <= w.clients.Keys && c in w.clients && m in w.clients
    requires Taken(w, nick) ==> w.nicks[LOWER(nick)] in w.clients && !w.clients[w.nicks[LOWER(nick)]].hasQuit
    ensures m in ChangeUserModes(w, c, nick, changes).clients
    ensures var a, b := w.clients[m], ChangeUserModes(w, c, nick, changes).clients[m];
            && (b.modes == a.modes || b.modes == ApplyUserModes(a.modes, changes).0)
            && SameStanding(a, b)
            && (a.hasQuit ==> b == a)
    ensures ChangeUserModes(w, c, nick, changes).clients.Keys == w.clients.Keys
  {
    hide ApplyUserModes, Say;
    SayRecord(w, c, [Numeric(401)], m);
    SayRecord(w, c, [Numeric(502)], m);
    if Taken(w, nick) {
      var target := w.nicks[LOWER(nick)];
      var w1 := SetClient(w, target, w.clients[target].(modes := ApplyUserModes(w.clients[target].modes, changes).0));
      SayRecord(w1, c, [Message("MODE")], m);
      SayRecord(w1, c, [Numeric(221)], m);
    }
  }

  lemma SayRecord<C, H>(w: World<C, H>, c: C, replies: seq<Reply>, m: C)
    requires c in w.clients && m in w.clients
    ensures m in Say(w, c, replies).clients && Say(w, c, replies).clients.Keys == w.clients.Keys
    ensures var a, b := w.clients[m], Say(w, c, replies).clients[m];
            b.modes == a.modes && SameStanding(a, b) && (a.hasQuit ==> b == a)
  {
  }

  lemma UserModesSource<C, H>(w: World<C, H>, c: C, nick: Name, changes: seq<ModeChange>, m: C)
    requires NicksOk(w) && w.nicks.Values <= w.clients.Keys && c in w.clients && m in w.clients
    ensures m in ChangeUserModes(w, c, nick, changes).clients
    ensures StatusChange(w, ChangeUserModes(w, c, nick, changes), c, UserModes(nick, changes), m)
  {
    hide ApplyUserModes, NicksOk, ChangeUserModes;
    if Taken(w, nick) {
      IndexedIsLive(w, LOWER(nick));
    }
    UserModesRecord(w, c, nick, changes, m);
    UserModesSources(w.clients[m].modes, changes);
  }

  lemma AuthenticateSource<C, H>(w: World<C, H>, c: C, arg: string, m: C)
    requires c in w.clients && m in w.clients && !w.clients[c].hasQuit && !w.clients[c].registered
    ensures m in AuthenticateWith(w, c, arg).clients
    ensures StatusChange(w, AuthenticateWith(w, c, arg), c, Authenticate(arg), m)
  {
  }

  lemma PassSource<C, H>(w: World<C, H>, c: C, accepted: bool, m: C)
    requires c in w.clients && m in w.clients && !w.clients[c].hasQuit && !w.clients[c].registered
    ensures m in BeforeRegistration(w, c, Pass(accepted)).clients
    ensures StatusChange(w, BeforeRegistration(w, c, Pass(accepted)), c, Pass(accepted), m)
  {
    hide AllPlain, TurnAway;
    TurnAwayPlain(w, c);
    if !accepted {
      PlainIsStatusChange(w, TurnAway(w, c), c, Pass(false), m);
    }
  }

  lemma IssueStatus<C, H>(w: World<C, H>, c: C, command: Command<C, H>, m: C)
    requires Inv(w) && Possible(w, Issue(c, command)) && m in w.clients
    ensures m in Step(w, Issue(c, command)).clients
    ensures StatusChange(w, Step(w, Issue(c, command)), c, command, m)
  {
    hide InvBut, AllPlain, StatusChange, BeforeRegistration, BecomeOperator, ChangeUserModes, Closed, ChoicesFit, AuthenticateWith;
    InvParts(w);
    var w' := Step(w, Issue(c, command));
    if !w.clients[c].registered {
      if command.Authenticate? {
        BeforeIsAuthenticate(w, c, command.arg);
        AuthenticateSource(w, c, command.arg, m);
      } else if command.Pass? {
        PassSource(w, c, command.accepted, m);
      } else {
        BeforePlain(w, c, command);
        PlainIsStatusChange(w, w', c, command, m);
      }
    } else {
      RegisteredHasNick(w.clients[c]);
      AfterStatus(w, c, command, m);
    }
  }

  lemma BeforeIsAuthenticate<C, H>(w: World<C, H>, c: C, arg: string)
    requires c in w.clients
    ensures BeforeRegistration(w, c, Authenticate(arg)) == AuthenticateWith(w, c, arg)
  {
  }

  lemma AfterStatus<C, H>(w: World<C, H>, c: C, command: Command<C, H>, m: C)
    requires NicksOk(w) && Closed(w) && c in w.clients && !w.clients[c].hasQuit && w.clients[c].registered
    requires w.clients[c].nick != "" && ChoicesFit(w, c, command) && m in w.clients
    ensures m in AfterRegistration(w, c, command).clients
    ensures StatusChange(w, AfterRegistration(w, c, command), c, command, m)
  {
    hide NicksOk, AllPlain, StatusChange, BecomeOperator, ChangeUserModes, Closed;
    ClosedIndexes(w);
    if command.Oper? {
      OperSource(w, c, command.accepted, m);
    } else if command.UserModes? {
      UserModesSource(w, c, command.nick, command.userChanges, m);
    } else {
      if ActsOnMembers(command) {
        MemberCommandPlain(w, c, command);
      } else if ActsOnNicks(command) {
        NickCommandPlain(w, c, command);
      } else {
        OtherCommandPlain(w, c, command);
      }
      PlainIsStatusChange(w, AfterRegistration(w, c, command), c, command, m);
    }
  }
}
