/** Every event keeps the invariant, so it holds in every reachable state. */
module Runs {
  import opened Names
  import opened Modes
  import opened Strings
  import opened ServerState
  import opened Replica
  import opened Invariants
  import opened QuietSteps
  import opened NickSteps
  import opened ChannelSteps
  import opened LeavingSteps
  import Masks

  lemma QuietKeeps<C, H>(w: World<C, H>, w': World<C, H>)
    requires Inv(w) && Similar(w, w')
    ensures Inv(w')
  {
    hide Similar, InvBut;
    SimilarKeeps(w, w', {});
  }

  lemma SayKeeps<C, H>(w: World<C, H>, c: C, replies: seq<Reply>)
    requires Inv(w) && c in w.clients && AllNeutral(replies)
    ensures Inv(Say(w, c, replies))
  {
    hide Similar, Inv;
    SaySimilar(w, c, replies);
    QuietKeeps(w, Say(w, c, replies));
  }

  // ------------------------------------------------------------------------ JOIN

  /** The first client to join a new channel is never refused. */
  lemma NewChannelAdmits<C, H>(client: ClientRec<H>, name: Name, c: C, key: string)
    ensures Refusal(client, NewChannel(name), c, key) == None
  {
  }

  lemma SparingMore<C, H>(w: World<C, H>, spared: set<H>)
    requires InvBut(w, {})
    ensures InvBut(w, spared)
  {
  }

  /** A channel nobody is on yet is seen by no replica. */
  lemma WithChannelAgrees<C, H>(w: World<C, H>, name: Name, made: H, m: C)
    requires LOWER(name) !in w.names && made !in w.channels && m in w.clients && Agrees(w, m)
    ensures Agrees(WithChannel(w, name, made), m)
  {
  }

  lemma WithChannelParts<C, H>(w: World<C, H>, name: Name, made: H)
    requires MembersOk(w) && NamesOkBut(w, {}) && LOWER(name) !in w.names && made !in w.channels
    ensures MembersOk(WithChannel(w, name, made)) && NamesOkBut(WithChannel(w, name, made), {made})
  {
  }

  lemma WithChannelKeeps<C, H>(w: World<C, H>, name: Name, made: H)
    requires Inv(w) && LOWER(name) !in w.names && made !in w.channels
    ensures InvBut(WithChannel(w, name, made), {made})
  {
    hide MembersOk, NamesOkBut, Agrees, LocalOk;
    var w' := WithChannel(w, name, made);
    WithChannelParts(w, name, made);
    assert Live(w') == Live(w);
    forall m | m in w'.clients && !w'.clients[m].hasQuit && w'.clients[m].registered
      ensures Agrees(w', m)
    {
      WithChannelAgrees(w, name, made, m);
    }
  }

  lemma EnumeratesOnly<T>(order: seq<T>, elements: set<T>, x: T)
    requires Enumerates(order, elements) && x in order
    ensures x in elements
  {
  }

  lemma OrderIsMembers<C, H>(w: World<C, H>, h: H, c: C, order: seq<C>)
    requires h in w.channels && Enumerates(order, w.channels[h].members.Keys + {c})
    ensures forall x :: x in order ==> x in w.channels[h].members || x == c
  {
    forall x | x in order
      ensures x in w.channels[h].members || x == c
    {
      EnumeratesOnly(order, w.channels[h].members.Keys + {c}, x);
      assert x in w.channels[h].members.Keys + {c};
    }
  }

  /** Joining a channel that is indexed, or has just been made. */
  lemma JoinChannelKeeps<C, H>(w: World<C, H>, h: H, c: C, key: string, order: seq<C>)
    requires c in w.clients && !w.clients[c].hasQuit && w.clients[c].registered && h in w.channels
    requires InvBut(w, {h}) && (Admitted(w, h, c, key) || Inv(w))
    requires LOWER(w.channels[h].name) in w.names && w.names[LOWER(w.channels[h].name)] == h
    requires Admitted(w, h, c, key) ==> Enumerates(order, w.channels[h].members.Keys + {c})
    requires w.channels[h].members.Keys <= w.clients.Keys
    ensures Inv(JoinChannel(w, h, c, key, order))
  {
    hide InvBut, Refusal, Admit, Enumerates;
    if Admitted(w, h, c, key) {
      OrderIsMembers(w, h, c, order);
      AdmitKeeps(w, h, c, order);
    } else if c !in w.channels[h].members {
      SayKeeps(w, c, [Numeric(Refusal(w.clients[c], w.channels[h], c, key).value)]);
    }
  }

  lemma JoinNameKeeps<C, H>(w: World<C, H>, c: C, name: Name, key: string, made: H, order: seq<C>)
    requires Inv(w) && Closed(w) && c in w.clients && !w.clients[c].hasQuit && w.clients[c].registered
    requires JoinOrderFits(w, c, name, key, made, order)
    ensures Inv(JoinName(w, c, name, key, made, order))
  {
    hide InvBut, Refusal, JoinChannel, Say, Enumerates;
    if !IsChannel(name) {
      SayKeeps(w, c, [Numeric(403)]);
    } else if LOWER(name) in w.names {
      var h := w.names[LOWER(name)];
      IndexedUnderName(w, LOWER(name));
      SparingMore(w, {h});
      JoinChannelKeeps(w, h, c, key, order);
    } else {
      var w1 := WithChannel(w, name, made);
      WithChannelKeeps(w, name, made);
      NewChannelAdmits(w.clients[c], name, c, key);
      assert w1.channels[made].members.Keys + {c} == {c};
      JoinChannelKeeps(w1, made, c, key, order);
    }
  }

  lemma IndexedUnderName<C, H>(w: World<C, H>, k: Name)
    requires Inv(w) && k in w.names
    ensures w.names[k] in w.channels && LOWER(w.channels[w.names[k]].name) == k
  {
  }

  // ---------------------------------------------------------------- PART and KICK

  lemma PartKeeps<C, H>(w: World<C, H>, h: H, c: C)
    requires Inv(w) && c in w.clients && h in w.channels
    ensures Inv(Part(w, h, c))
  {
    hide Inv, Leave;
    if c !in w.channels[h].members {
      SayKeeps(w, c, [Numeric(442)]);
    } else {
      LeaveKeeps(w, h, c, Parted(w.clients[c].nick, w.channels[h].name));
    }
  }

  lemma KickKeeps<C, H>(w: World<C, H>, h: H, c: C, target: C)
    requires Inv(w) && c in w.clients && target in w.clients && h in w.channels
    ensures Inv(Kick(w, h, c, target))
  {
    hide InvBut, Leave, IsOperator;
    SayKeeps(w, c, [Numeric(442)]);
    SayKeeps(w, c, [Numeric(482)]);
    SayKeeps(w, c, [Numeric(441)]);
    if target in w.channels[h].members {
      InvParts(w);
      MemberIsNamed(w, h, target);
      LeaveKeeps(w, h, target, Kicked(w.channels[h].name, NickOrStar(w.clients[target].nick)));
    }
  }

  lemma InvParts<C, H>(w: World<C, H>)
    requires Inv(w)
    ensures LocalsOk(w) && NicksOk(w) && MembersOk(w) && NamesOkBut(w, {}) && ReplicasOk(w)
  {
  }

  // --------------------------------------------------------------- registration

  lemma TurnAwayKeeps<C, H>(w: World<C, H>, c: C)
    requires Inv(w) && c in w.clients
    ensures Inv(TurnAway(w, c))
  {
    hide Inv, Quit;
    SayKeeps(w, c, [Numeric(464)]);
    QuitKeeps(Say(w, c, [Numeric(464)]), c);
  }

  lemma RegisterNickKeeps<C, H>(w: World<C, H>, c: C, nick: Name)
    requires Inv(w) && c in w.clients && !w.clients[c].hasQuit && !w.clients[c].registered
    ensures Inv(RegisterNick(w, c, nick))
  {
    hide Inv, TurnAway, TryRegister, IsNickname, Say;
    TurnAwayKeeps(w, c);
    SayKeeps(w, c, [Numeric(431)]);
    SayKeeps(w, c, [Numeric(433)]);
    SayKeeps(w, c, [Numeric(432)]);
    if w.clients[c].authorized && nick != "" && !Taken(w, nick) && IsNickname(nick) {
      if w.clients[c].nick != "" {
        TryRegisterKeeps(w, c);
      } else {
        FirstNickKeeps(w, c, nick);
        TryRegisterKeeps(SetClient(w, c, w.clients[c].(nick := nick)).(nicks := IndexAdd(w.nicks, c, nick)), c);
      }
    }
  }

  lemma RegisterUserKeeps<C, H>(w: World<C, H>, c: C, username: Name, flags: Option<nat>)
    requires Inv(w) && c in w.clients && !w.clients[c].hasQuit && !w.clients[c].registered
    ensures Inv(RegisterUser(w, c, username, flags))
  {
    hide Inv, TurnAway, TryRegister, IndexAdd, IndexRemove;
    TurnAwayKeeps(w, c);
    if w.clients[c].authorized {
      var modes := if flags.Some? then UserFlags(flags.value) else {};
      UserInfoKeeps(w, c, username, modes);
      var w1 := if modes == {} then w
                else Say(SetClient(w, c, w.clients[c].(modes := w.clients[c].modes + modes)), c, [Numeric(221)]);
      var nick := w1.clients[c].nick;
      var w2 := SetClient(w1, c, w1.clients[c].(username := username)).(
        nicks := IndexAdd(IndexRemove(w1.nicks, c, nick), c, nick));
      TryRegisterKeeps(w2, c);
    }
  }

  lemma CapSame<H>(client: ClientRec<H>, capState: CapState, capabilities: set<string>)
    requires !client.registered
    ensures SameClient(client, client.(capState := capState))
    ensures capabilities <= SUPPORTED_CAPABILITIES ==>
      SameClient(client, client.(capabilities := client.capabilities + capabilities))
    ensures SameClient(client, client.(capabilities := {}))
    ensures SameClient(client, client.(authorized := true))
  {
  }

  lemma SetAndSayKeeps<C, H>(w: World<C, H>, c: C, client: ClientRec<H>, replies: seq<Reply>)
    requires Inv(w) && c in w.clients && SameClient(w.clients[c], client) && AllNeutral(replies)
    ensures Inv(Say(SetClient(w, c, client), c, replies)) && Inv(SetClient(w, c, client))
  {
    hide Similar, Inv, SameClient;
    SetAndSay(w, c, client, replies);
    SetClientSimilar(w, c, client);
    QuietKeeps(w, Say(SetClient(w, c, client), c, replies));
    QuietKeeps(w, SetClient(w, c, client));
  }

  lemma NegotiateKeeps<C, H>(w: World<C, H>, c: C, sub: string, capabilities: set<string>)
    requires Inv(w) && c in w.clients && !w.clients[c].hasQuit && !w.clients[c].registered
    ensures Inv(Negotiate(w, c, sub, capabilities))
  {
    hide Inv, TryRegister, SameClient, Say;
    var client := w.clients[c];
    if sub == "LS" {
      CapSame(client, CapNegotiating, {});
      SetAndSayKeeps(w, c, client.(capState := CapNegotiating), [Message("CAP LS")]);
    } else if sub == "LIST" {
      SayKeeps(w, c, [Message("CAP LIST")]);
    } else if sub == "REQ" {
      if !(capabilities <= SUPPORTED_CAPABILITIES) {
        SayKeeps(w, c, [Message("CAP NAK")]);
      } else {
        CapSame(client, CapNone, capabilities);
        SetAndSayKeeps(w, c, client.(capabilities := client.capabilities + capabilities), [Message("CAP ACK")]);
      }
    } else if sub == "CLEAR" {
      CapSame(client, CapNone, {});
      SetAndSayKeeps(w, c, client.(capabilities := {}), [Message("CAP ACK")]);
    } else if sub == "END" {
      CapSame(client, CapNegotiated, {});
      SetAndSayKeeps(w, c, client.(capState := CapNegotiated), []);
      TryRegisterKeeps(SetClient(w, c, client.(capState := CapNegotiated)), c);
    } else {
      SayKeeps(w, c, [Numeric(410)]);
    }
  }

  lemma BeforeRegistrationKeeps<C, H>(w: World<C, H>, c: C, command: Command<C, H>)
    requires Inv(w) && c in w.clients && !w.clients[c].hasQuit && !w.clients[c].registered
    ensures Inv(BeforeRegistration(w, c, command))
  {
    hide Inv, TurnAway, RegisterNick, RegisterUser, Negotiate, AuthenticateWith, Quit, SameClient, Similar;
    match command
    case Pass(accepted) =>
      if accepted {
        CapSame(w.clients[c], CapNone, {});
        SetAndSayKeeps(w, c, w.clients[c].(authorized := true), []);
      } else {
        TurnAwayKeeps(w, c);
      }
    case Nick(nick) => RegisterNickKeeps(w, c, nick);
    case User(username, flags) => RegisterUserKeeps(w, c, username, flags);
    case Cap(sub, capabilities) => NegotiateKeeps(w, c, sub, capabilities);
    case Authenticate(arg) =>
      if w.clients[c].authorized {
        AuthenticateSimilar(w, c, arg);
        QuietKeeps(w, AuthenticateWith(w, c, arg));
      } else {
        AuthenticateTurnsAway(w, c, arg);
        TurnAwayKeeps(w, c);
      }
    case _ => QuitKeeps(w, c);
  }

  lemma AuthenticateTurnsAway<C, H>(w: World<C, H>, c: C, arg: string)
    requires c in w.clients && !w.clients[c].authorized
    ensures AuthenticateWith(w, c, arg) == TurnAway(w, c)
  {
  }

  // ---------------------------------------------------------- after registration

  lemma NickRequestKeeps<C, H>(w: World<C, H>, c: C, nick: Name)
    requires Inv(w) && c in w.clients && !w.clients[c].hasQuit && w.clients[c].registered
    ensures Inv(NickRequest(w, c, nick))
  {
    hide InvBut, ChangeNick, IsNickname, Say, LocalOk;
    SayKeeps(w, c, [Numeric(431)]);
    SayKeeps(w, c, [Numeric(432)]);
    SayKeeps(w, c, [Numeric(433)]);
    InvParts(w);
    RegisteredHasNick(w.clients[c]);
    if nick != "" && IsNickname(nick) && (Taken(w, nick) ==> w.nicks[LOWER(nick)] == c) {
      ChangeNickKeeps(w, c, nick);
    }
  }

  lemma IndexedIsLive<C, H>(w: World<C, H>, k: Name)
    requires NicksOk(w) && k in w.nicks
    ensures w.nicks[k] in w.clients && !w.clients[w.nicks[k]].hasQuit && w.clients[w.nicks[k]].nick != ""
  {
  }

  lemma OperNickKeeps<C, H>(w: World<C, H>, c: C, target: Name, nick: Name)
    requires Inv(w) && Closed(w) && c in w.clients && nick != ""
    ensures Inv(OperNickRequest(w, c, target, nick))
  {
    hide InvBut, ChangeNick, IsNickname, Say, NicksOk;
    SayKeeps(w, c, [Numeric(481)]);
    SayKeeps(w, c, [Numeric(432)]);
    SayKeeps(w, c, [Numeric(401)]);
    SayKeeps(w, c, [Numeric(433)]);
    if IsNickname(nick) && Taken(w, target) && !Taken(w, nick) {
      InvParts(w);
      IndexedIsLive(w, LOWER(target));
      ChangeNickKeeps(w, w.nicks[LOWER(target)], nick);
    }
  }

  lemma ChannelCommandKeeps<C, H>(w: World<C, H>, c: C, command: Command<C, H>)
    requires Inv(w) && Closed(w) && c in w.clients && !w.clients[c].hasQuit && w.clients[c].registered
    requires ChoicesFit(w, c, command)
    requires ActsOnMembers(command)
    ensures Inv(AfterRegistration(w, c, command))
  {
    hide Inv, Closed, JoinName, Part, Kick, NamesName, Say, JoinOrderFits, NamesOrderFits;
    ClosedIndexes(w);
    ClosedMembers(w, c);
    SayKeeps(w, c, [Numeric(403)]);
    SayKeeps(w, c, [Numeric(401)]);
    match command
    case Join(name, key, made, order) => JoinNameKeeps(w, c, name, key, made, order);
    case PartFrom(name) =>
      if LOWER(name) in w.names { PartKeeps(w, w.names[LOWER(name)], c); }
    case PartObject(h) => PartKeeps(w, h, c);
    case KickFrom(name, nick) =>
      if LOWER(name) in w.names && Taken(w, nick) { KickKeeps(w, w.names[LOWER(name)], c, w.nicks[LOWER(nick)]); }
    case NamesOf(name, order) => NamesNameKeeps(w, c, name, order);
  }

  lemma ClosedMembers<C, H>(w: World<C, H>, c: C)
    requires Closed(w) && c in w.clients
    ensures w.clients[c].channels <= w.channels.Keys
  {
  }

  lemma NamesNameKeeps<C, H>(w: World<C, H>, c: C, name: Name, order: seq<C>)
    requires Inv(w) && Closed(w) && c in w.clients && !w.clients[c].hasQuit && w.clients[c].registered
    requires NamesOrderFits(w, name, order)
    ensures Inv(NamesName(w, c, name, order))
  {
    hide Inv, Say, NamesReplies, Similar;
    SayKeeps(w, c, [Numeric(403)]);
    if LOWER(name) in w.names {
      var h := w.names[LOWER(name)];
      assert forall m :: m in order ==> m in w.channels[h].members.Keys;
      NamesSimilar(w, h, c, order);
      QuietKeeps(w, Say(w, c, NamesReplies(w, h, c, order)));
    }
  }

  lemma InviteNameSimilar<C, H>(w: World<C, H>, c: C, nick: Name, name: Name)
    requires Closed(w) && c in w.clients
    ensures Similar(w, InviteName(w, c, nick, name))
  {
    hide Similar, Say, Invite;
    SaySimilar(w, c, [Numeric(401)]);
    if Taken(w, nick) {
      var target := w.nicks[LOWER(nick)];
      SaySimilar(w, c, [Numeric(341)]);
      SayKeepsClients(w, c, [Numeric(341)]);
      SayAfter(w, Say(w, c, [Numeric(341)]), target, [Message("INVITE")]);
      if LOWER(name) in w.names {
        InviteSimilar(w, w.names[LOWER(name)], target, c);
      }
    }
  }

  lemma SayKeepsClients<C, H>(w: World<C, H>, c: C, replies: seq<Reply>)
    requires c in w.clients
    ensures Say(w, c, replies).clients.Keys == w.clients.Keys
  {
  }

  lemma AwaySame<H>(client: ClientRec<H>, away: bool)
    ensures SameClient(client, client.(modes := if away then client.modes + {AWAY} else client.modes - {AWAY}))
  {
  }

  predicate ActsOnModes<C, H>(command: Command<C, H>) {
    command.UserModes? || command.SetModes? || command.Oper? || command.Away?
  }

  predicate ActsOnMembers<C, H>(command: Command<C, H>) {
    command.Join? || command.PartFrom? || command.PartObject? || command.KickFrom? || command.NamesOf?
  }

  predicate ActsOnNicks<C, H>(command: Command<C, H>) {
    command.Nick? || command.OperNick? || command.QuitCommand? || command.Kill?
  }

  lemma ModeCommandSimilar<C, H>(w: World<C, H>, c: C, command: Command<C, H>)
    requires Closed(w) && c in w.clients && ChoicesFit(w, c, command) && ActsOnModes(command)
    ensures Similar(w, AfterRegistration(w, c, command))
  {
    hide Closed, Similar, Say, ChangeUserModes, ChangeModes, BecomeOperator, SameClient;
    ClosedIndexes(w);
    SaySimilar(w, c, [Numeric(403)]);
    match command {
      case UserModes(nick, changes) => ChangeUserModesSimilar(w, c, nick, changes);
      case SetModes(name, changes) =>
        if LOWER(name) in w.names { ChangeModesSimilar(w, w.names[LOWER(name)], c, changes); }
      case Oper(accepted) => BecomeOperatorSimilar(w, c, accepted);
      case Away(text) =>
        AwaySame(w.clients[c], text != "");
        var modes := w.clients[c].modes;
        SetClientSimilar(w, c, w.clients[c].(modes := if text != "" then modes + {AWAY} else modes - {AWAY}));
      case _ =>
    }
  }

  lemma ClosedIndexes<C, H>(w: World<C, H>)
    requires Closed(w)
    ensures w.nicks.Values <= w.clients.Keys && w.names.Values <= w.channels.Keys
  {
  }

  lemma TellSimilar<C, H>(w: World<C, H>, c: C, notice: bool, target: Name)
    requires c in w.clients && w.names.Values <= w.channels.Keys && w.nicks.Values <= w.clients.Keys
    ensures Similar(w, TellName(w, c, notice, target))
  {
    hide Similar, Say, Broadcast, TellRefusal, Audience;
    match TellRefusal(w, c, notice, target)
    case Some(code) => SaySimilar(w, c, [Numeric(code)]);
    case None =>
      var reply := Message(if notice then "NOTICE" else "PRIVMSG");
      var w1 := Broadcast(w, Audience(w, c, notice, target), reply);
      BroadcastSimilar(w, Audience(w, c, notice, target), reply);
      SimilarKeys(w, w1);
      SaySimilar(w1, c, [Numeric(301)]);
      SimilarTwice(w, w1, Say(w1, c, [Numeric(301)]));
  }

  lemma SimilarKeys<C, H>(w: World<C, H>, w': World<C, H>)
    requires Similar(w, w')
    ensures w'.clients.Keys == w.clients.Keys
  {
  }

  lemma TalkCommandSimilar<C, H>(w: World<C, H>, c: C, command: Command<C, H>)
    requires Closed(w) && c in w.clients && ChoicesFit(w, c, command)
    requires !ActsOnModes(command) && !ActsOnMembers(command) && !ActsOnNicks(command)
    ensures Similar(w, AfterRegistration(w, c, command))
  {
    hide Closed, Similar, Say, SetTopic, InviteName, TellName, Broadcast, LUsers, Indexed;
    ClosedIndexes(w);
    SaySimilar(w, c, [Numeric(462)]);
    SaySimilar(w, c, [Numeric(421)]);
    SaySimilar(w, c, [Numeric(403)]);
    SaySimilar(w, c, [Numeric(481)]);
    match command {
      case Topic(name, topic) =>
        if LOWER(name) in w.names { SetTopicSimilar(w, w.names[LOWER(name)], c, topic); }
      case InviteTo(nick, name) => InviteNameSimilar(w, c, nick, name);
      case Wallops => BroadcastSimilar(w, Indexed(w, true), Message("NOTICE"));
      case Tell(notice, target) => TellSimilar(w, c, notice, target);
      case ListUsers =>
        LUsersNeutral(w);
        SaySimilar(w, c, LUsers(w));
      case _ =>
    }
  }

  lemma AfterRegistrationKeeps<C, H>(w: World<C, H>, c: C, command: Command<C, H>)
    requires Inv(w) && Closed(w) && c in w.clients && !w.clients[c].hasQuit && w.clients[c].registered
    requires ChoicesFit(w, c, command)
    ensures Inv(AfterRegistration(w, c, command))
  {
    hide Inv, Closed, Similar, NickRequest, OperNickRequest, Quit, Say;
    ClosedIndexes(w);
    if ActsOnMembers(command) {
      ChannelCommandKeeps(w, c, command);
    } else if command.Nick? {
      NickRequestKeeps(w, c, command.nick);
    } else if command.OperNick? {
      OperNickKeeps(w, c, command.target, command.nick);
    } else if command.QuitCommand? {
      QuitKeeps(w, c);
    } else if command.Kill? {
      SayKeeps(w, c, [Numeric(481)]);
      SayKeeps(w, c, [Numeric(401)]);
      if Taken(w, command.nick) { QuitKeeps(w, w.nicks[LOWER(command.nick)]); }
    } else {
      if ActsOnModes(command) { ModeCommandSimilar(w, c, command); } else { TalkCommandSimilar(w, c, command); }
      QuietKeeps(w, AfterRegistration(w, c, command));
    }
  }

  /** Every event keeps the invariant. */
  lemma StepKeeps<C, H>(w: World<C, H>, event: Event<C, H>)
    requires Inv(w) && Possible(w, event)
    ensures Inv(Step(w, event))
  {
    hide Inv, Similar, Broadcast, NewClient, BeforeRegistration, AfterRegistration, ChoicesFit, Indexed;
    match event
    case Connect(c, secure, hostname, noPassword) => ConnectKeeps(w, c, secure, hostname, noPassword);
    case Issue(c, command) =>
      if w.clients[c].registered {
        AfterRegistrationKeeps(w, c, command);
      } else {
        BeforeRegistrationKeeps(w, c, command);
      }
    case Shutdown =>
      BroadcastSimilar(w, Indexed(w, false), Message("NOTICE"));
      QuietKeeps(w, Broadcast(w, Indexed(w, false), Message("NOTICE")));
  }

  lemma EmptyInv<C, H>()
    ensures Inv(EmptyWorld<C, H>())
  {
  }

  /** The invariant holds in every state of every run. */
  lemma {:induction false} RunKeeps<C, H>(worlds: seq<World<C, H>>, events: seq<Event<C, H>>, i: nat)
    requires IsRun(worlds, events) && i < |worlds|
    ensures Inv(worlds[i])
  {
    hide Inv, Possible, Step;
    if i == 0 {
      EmptyInv<C, H>();
    } else {
      RunKeeps(worlds, events, i - 1);
      StepKeeps(worlds[i - 1], events[i - 1]);
    }
  }
}
