/** What one command can do to one channel and to one client. */
module Effects {
  import opened Names
  import opened Modes
  import opened Strings
  import opened ServerState
  import opened Replica
  import opened Invariants
  import opened QuietSteps
  import opened NickSteps
  import opened ChannelSteps
  import opened LeavingSteps
  import opened Runs
  import Sasl

  // -------------------------------------------------------------------- channels

  ghost predicate MemberLeft<C>(a: ChannelRec<C>, b: ChannelRec<C>, oper: bool, c: C) {
    exists t :: t in a.members && b == a.(members := a.members - {t}) && (t == c || IsOperator(oper, a, c))
  }

  ghost predicate ModesChanged<C>(a: ChannelRec<C>, b: ChannelRec<C>, nicks: map<Name, C>, oper: bool, c: C) {
    exists changes :: b == ApplyModes(a, nicks, oper, c, changes).channel
  }

  /** Every way in which a command of `c` turns the channel `a` into `b`. */
  ghost predicate ChannelEffect<C>(a: ChannelRec<C>, b: ChannelRec<C>, nicks: map<Name, C>, oper: bool, c: C) {
    || b == a
    || MemberLeft(a, b, oper, c)
    || (c !in a.members && a.members != map[] && b == a.(members := a.members[c := {}]))
    || (b == a.(topic := b.topic) && (OP_ONLY_TOPIC in a.flags ==> IsOperator(oper, a, c)))
    || ModesChanged(a, b, nicks, oper, c)
    || (IsOperator(oper, a, c) && b == a.(lists := b.lists))
  }

  /** `w'` results from a command of `c` as far as the channel `h` is concerned. */
  ghost predicate EffectOn<C, H>(w: World<C, H>, w': World<C, H>, c: C, h: H)
    requires c in w.clients && h in w.channels
  {
    && h in w'.channels
    && ChannelEffect(w.channels[h], w'.channels[h], w.nicks, OPERATOR in w.clients[c].modes, c)
  }

  lemma QuitEffect<C, H>(w: World<C, H>, c: C, t: C, h: H)
    requires c in w.clients && t in w.clients && h in w.channels
    requires t == c || OPERATOR in w.clients[c].modes
    ensures EffectOn(w, Quit(w, t), c, h)
  {
  }

  lemma JoinEffect<C, H>(w: World<C, H>, c: C, name: Name, key: string, made: H, order: seq<C>, h: H)
    requires Inv(w) && Closed(w) && c in w.clients && h in w.channels && JoinOrderFits(w, c, name, key, made, order)
    ensures EffectOn(w, JoinName(w, c, name, key, made, order), c, h)
    ensures forall g :: g in JoinName(w, c, name, key, made, order).channels && g !in w.channels ==> g == made
  {
    hide InvBut, ModesChanged, MemberLeft, Refusal, Broadcast, NamesReplies, Enumerates;
    if IsChannel(name) && LOWER(name) in w.names {
      var g := w.names[LOWER(name)];
      IndexedNonEmpty(w, LOWER(name));
      JoinChannelChannels(w, g, c, key, order);
    } else if IsChannel(name) {
      var w1 := WithChannel(w, name, made);
      assert w1.channels[made].members.Keys + {c} == {c};
      JoinChannelChannels(w1, made, c, key, order);
    }
  }

  lemma IndexedNonEmpty<C, H>(w: World<C, H>, k: Name)
    requires Inv(w) && k in w.names
    ensures w.names[k] in w.channels && w.channels[w.names[k]].members != map[]
  {
  }

  /** A JOIN touches no channel but the one joined. */
  lemma JoinChannelChannels<C, H>(w: World<C, H>, g: H, c: C, key: string, order: seq<C>)
    requires c in w.clients && g in w.channels && w.channels[g].members.Keys <= w.clients.Keys
    requires Admitted(w, g, c, key) ==> Enumerates(order, w.channels[g].members.Keys + {c})
    ensures var channels := JoinChannel(w, g, c, key, order).channels;
            var modes: set<ChannelMode> := if w.channels[g].members == map[] then {CHANNEL_CREATOR, CHANNEL_OPERATOR} else {};
            channels == if Admitted(w, g, c, key)
                        then w.channels[g := w.channels[g].(members := w.channels[g].members[c := modes])]
                        else w.channels
  {
  }

  lemma PartEffect<C, H>(w: World<C, H>, g: H, c: C, h: H)
    requires c in w.clients && g in w.channels && h in w.channels
    ensures EffectOn(w, Part(w, g, c), c, h)
  {
  }

  lemma KickEffect<C, H>(w: World<C, H>, g: H, c: C, target: C, h: H)
    requires c in w.clients && target in w.clients && g in w.channels && h in w.channels
    ensures EffectOn(w, Kick(w, g, c, target), c, h)
  {
  }

  lemma TopicEffect<C, H>(w: World<C, H>, g: H, c: C, topic: string, h: H)
    requires c in w.clients && g in w.channels && h in w.channels
    ensures EffectOn(w, SetTopic(w, g, c, topic), c, h)
  {
  }

  lemma InviteEffect<C, H>(w: World<C, H>, g: H, c: C, target: C, h: H)
    requires c in w.clients && target in w.clients && g in w.channels && h in w.channels
    ensures EffectOn(w, Invite(w, g, target, c), c, h)
  {
  }

  lemma ModesEffect<C, H>(w: World<C, H>, g: H, c: C, changes: seq<ChannelModeChange>, h: H)
    requires c in w.clients && g in w.channels && h in w.channels
    ensures EffectOn(w, ChangeModes(w, g, c, changes), c, h)
  {
  }

  lemma ChangeNickChannels<C, H>(w: World<C, H>, c: C, nick: Name)
    requires c in w.clients
    ensures ChangeNick(w, c, nick).channels == w.channels
  {
  }

  lemma MemberCommandEffect<C, H>(w: World<C, H>, c: C, command: Command<C, H>, h: H)
    requires Inv(w) && Closed(w) && c in w.clients && ChoicesFit(w, c, command) && h in w.channels
    requires ActsOnMembers(command)
    ensures EffectOn(w, AfterRegistration(w, c, command), c, h)
  {
    hide Inv, Closed, JoinName, Part, Kick, ChannelEffect, JoinOrderFits, NamesOrderFits, NamesReplies;
    ClosedIndexes(w);
    ClosedMembers(w, c);
    SameEffect(w, c, h);
    match command
    case Join(name, key, made, order) => JoinEffect(w, c, name, key, made, order, h);
    case PartFrom(name) =>
      if LOWER(name) in w.names { PartEffect(w, w.names[LOWER(name)], c, h); }
    case PartObject(g) => PartEffect(w, g, c, h);
    case KickFrom(name, nick) =>
      if LOWER(name) in w.names && Taken(w, nick) { KickEffect(w, w.names[LOWER(name)], c, w.nicks[LOWER(nick)], h); }
    case NamesOf(name, order) => NamesNameChannels(w, c, name, order);
  }

  lemma NamesNameChannels<C, H>(w: World<C, H>, c: C, name: Name, order: seq<C>)
    requires Closed(w) && c in w.clients && NamesOrderFits(w, name, order)
    ensures NamesName(w, c, name, order).channels == w.channels
  {
  }

  lemma SameEffect<C, H>(w: World<C, H>, c: C, h: H)
    requires c in w.clients && h in w.channels
    ensures forall w': World<C, H> :: w'.channels == w.channels ==> EffectOn(w, w', c, h)
  {
  }

  lemma TellChannels<C, H>(w: World<C, H>, c: C, notice: bool, target: Name)
    requires c in w.clients && w.names.Values <= w.channels.Keys && w.nicks.Values <= w.clients.Keys
    ensures TellName(w, c, notice, target).channels == w.channels
  {
    hide TellRefusal, Audience, Receive;
  }

  lemma OtherCommandEffect<C, H>(w: World<C, H>, c: C, command: Command<C, H>, h: H)
    requires Closed(w) && c in w.clients && ChoicesFit(w, c, command) && h in w.channels
    requires !ActsOnMembers(command) && !ActsOnNicks(command)
    ensures EffectOn(w, AfterRegistration(w, c, command), c, h)
  {
    hide Closed, SetTopic, Invite, TellName, ChangeModes, ChannelEffect, ApplyUserModes, LUsers, Receive, Indexed;
    ClosedIndexes(w);
    SameEffect(w, c, h);
    match command {
      case SetModes(name, changes) =>
        if LOWER(name) in w.names { ModesEffect(w, w.names[LOWER(name)], c, changes, h); }
      case Topic(name, topic) =>
        if LOWER(name) in w.names { TopicEffect(w, w.names[LOWER(name)], c, topic, h); }
      case InviteTo(nick, name) =>
        if LOWER(name) in w.names && Taken(w, nick) {
          InviteEffect(w, w.names[LOWER(name)], c, w.nicks[LOWER(nick)], h);
        }
      case Tell(notice, target) => TellChannels(w, c, notice, target);
      case _ =>
    }
  }

  lemma NickCommandEffect<C, H>(w: World<C, H>, c: C, command: Command<C, H>, h: H)
    requires Closed(w) && c in w.clients && ChoicesFit(w, c, command) && h in w.channels && ActsOnNicks(command)
    ensures EffectOn(w, AfterRegistration(w, c, command), c, h)
  {
    hide Closed, ChangeNick, Quit, ChannelEffect, Receive, IsNickname;
    ClosedIndexes(w);
    SameEffect(w, c, h);
    match command {
      case Nick(nick) => ChangeNickChannels(w, c, nick);
      case OperNick(target, nick) =>
        if Taken(w, target) { ChangeNickChannels(w, w.nicks[LOWER(target)], nick); }
      case QuitCommand => QuitEffect(w, c, c, h);
      case Kill(nick) =>
        if Taken(w, nick) && OPERATOR in w.clients[c].modes { QuitEffect(w, c, w.nicks[LOWER(nick)], h); }
      case _ =>
    }
  }

  lemma TurnAwayEffect<C, H>(w: World<C, H>, c: C, h: H)
    requires c in w.clients && h in w.channels
    ensures EffectOn(w, TurnAway(w, c), c, h)
  {
  }

  lemma RegistrationChannels<C, H>(w: World<C, H>, c: C)
    requires c in w.clients
    ensures TryRegister(w, c).channels == w.channels
  {
  }

  lemma BeforeEffect<C, H>(w: World<C, H>, c: C, command: Command<C, H>, h: H)
    requires c in w.clients && h in w.channels
    ensures EffectOn(w, BeforeRegistration(w, c, command), c, h)
  {
    hide EffectOn, Quit, TryRegister, TurnAway, Receive, IsNickname, UserFlags, Sasl.Receive, SaslReplies;
    SameEffect(w, c, h);
    TurnAwayEffect(w, c, h);
    match command {
      case Nick(nick) =>
        RegistrationChannels(w, c);
        RegistrationChannels(SetClient(w, c, w.clients[c].(nick := nick)).(nicks := IndexAdd(w.nicks, c, nick)), c);
      case User(username, flags) => RegisterUserChannels(w, c, username, flags);
      case Cap(_, _) => RegistrationChannels(SetClient(w, c, w.clients[c].(capState := CapNegotiated)), c);
      case Pass(_) =>
      case Authenticate(_) =>
      case _ => QuitEffect(w, c, c, h);
    }
  }

  lemma RegisterUserChannels<C, H>(w: World<C, H>, c: C, username: Name, flags: Option<nat>)
    requires c in w.clients
    ensures w.clients[c].authorized ==> RegisterUser(w, c, username, flags).channels == w.channels
  {
    hide TryRegister, Receive, UserFlags, TurnAway, IndexAdd, IndexRemove;
    if w.clients[c].authorized {
      var modes := if flags.Some? then UserFlags(flags.value) else {};
      var w1 := if modes == {} then w
                else Say(SetClient(w, c, w.clients[c].(modes := w.clients[c].modes + modes)), c, [Numeric(221)]);
      var nick := w1.clients[c].nick;
      RegistrationChannels(SetClient(w1, c, w1.clients[c].(username := username)).(
        nicks := IndexAdd(IndexRemove(w1.nicks, c, nick), c, nick)), c);
    }
  }

  /** Whatever a client issues affects each existing channel in one of the ways listed. */
  lemma IssueEffect<C, H>(w: World<C, H>, c: C, command: Command<C, H>, h: H)
    requires Inv(w) && Possible(w, Issue(c, command)) && h in w.channels
    ensures EffectOn(w, Step(w, Issue(c, command)), c, h)
  {
    hide Inv, EffectOn, AfterRegistration, BeforeRegistration, Closed, ChoicesFit;
    if !w.clients[c].registered {
      BeforeEffect(w, c, command, h);
    } else if ActsOnMembers(command) {
      MemberCommandEffect(w, c, command, h);
    } else if ActsOnNicks(command) {
      NickCommandEffect(w, c, command, h);
    } else {
      OtherCommandEffect(w, c, command, h);
    }
  }

  // ---------------------------------------------------------------- new channels

  /** A channel that was not there before was made by a JOIN, and its maker is its only member. */
  lemma NewChannelMembers<C, H>(w: World<C, H>, event: Event<C, H>, h: H)
    requires Inv(w) && Possible(w, event) && h in Step(w, event).channels && h !in w.channels
    ensures event.Issue? && event.command.Join? && event.command.made == h
    ensures Step(w, event).channels[h] ==
            NewChannel(event.command.channel).(members := map[event.client := {CHANNEL_CREATOR, CHANNEL_OPERATOR}])
  {
    hide Inv, AfterRegistration, BeforeRegistration, Closed, ChoicesFit;
    match event {
      case Issue(c, command) =>
        if w.clients[c].registered {
          AfterRegistrationAdds(w, c, command, h);
        } else {
          BeforeRegistrationAdds(w, c, command);
        }
      case _ =>
    }
  }

  lemma BeforeRegistrationAdds<C, H>(w: World<C, H>, c: C, command: Command<C, H>)
    requires c in w.clients
    ensures BeforeRegistration(w, c, command).channels.Keys == w.channels.Keys
  {
    hide Quit, TryRegister, TurnAway, Receive, IsNickname, UserFlags, Sasl.Receive, SaslReplies;
    TurnAwayAdds(w, c);
    match command {
      case Nick(nick) =>
        RegistrationChannels(w, c);
        RegistrationChannels(SetClient(w, c, w.clients[c].(nick := nick)).(nicks := IndexAdd(w.nicks, c, nick)), c);
      case User(username, flags) => RegisterUserChannels(w, c, username, flags);
      case Cap(_, _) => RegistrationChannels(SetClient(w, c, w.clients[c].(capState := CapNegotiated)), c);
      case Pass(_) =>
      case Authenticate(_) =>
      case _ => QuitAdds(w, c);
    }
  }

  lemma QuitAdds<C, H>(w: World<C, H>, c: C)
    requires c in w.clients
    ensures Quit(w, c).channels.Keys == w.channels.Keys
  {
  }

  lemma TurnAwayAdds<C, H>(w: World<C, H>, c: C)
    requires c in w.clients
    ensures TurnAway(w, c).channels.Keys == w.channels.Keys
  {
  }

  lemma AfterRegistrationAdds<C, H>(w: World<C, H>, c: C, command: Command<C, H>, h: H)
    requires Inv(w) && Closed(w) && c in w.clients && ChoicesFit(w, c, command)
    requires h in AfterRegistration(w, c, command).channels && h !in w.channels
    ensures command.Join? && command.made == h
    ensures AfterRegistration(w, c, command).channels[h] ==
            NewChannel(command.channel).(members := map[c := {CHANNEL_CREATOR, CHANNEL_OPERATOR}])
  {
    hide Inv, Closed, JoinName, JoinOrderFits, NewChannel;
    if command.Join? {
      ClosedIndexes(w);
      JoinAdds(w, c, command.channel, command.key, command.made, command.order, h);
    } else if ActsOnMembers(command) {
      MemberCommandAdds(w, c, command);
    } else if ActsOnNicks(command) {
      NickCommandAdds(w, c, command);
    } else {
      OtherCommandAdds(w, c, command);
    }
  }

  lemma MemberCommandAdds<C, H>(w: World<C, H>, c: C, command: Command<C, H>)
    requires Closed(w) && c in w.clients && ChoicesFit(w, c, command) && ActsOnMembers(command) && !command.Join?
    ensures AfterRegistration(w, c, command).channels.Keys == w.channels.Keys
  {
    hide Closed, Leave, Kick, Receive, NamesOrderFits, NamesName;
    ClosedIndexes(w);
    ClosedMembers(w, c);
    match command {
      case NamesOf(name, order) => NamesNameChannels(w, c, name, order);
      case PartFrom(name) =>
        if LOWER(name) in w.names {
          var g := w.names[LOWER(name)];
          LeaveAdds(w, g, c, Parted(w.clients[c].nick, w.channels[g].name));
        }
      case PartObject(g) => LeaveAdds(w, g, c, Parted(w.clients[c].nick, w.channels[g].name));
      case KickFrom(name, nick) =>
        if LOWER(name) in w.names && Taken(w, nick) { KickAdds(w, w.names[LOWER(name)], c, w.nicks[LOWER(nick)]); }
    }
  }

  lemma NickCommandAdds<C, H>(w: World<C, H>, c: C, command: Command<C, H>)
    requires Closed(w) && c in w.clients && ChoicesFit(w, c, command) && ActsOnNicks(command)
    ensures AfterRegistration(w, c, command).channels.Keys == w.channels.Keys
  {
    hide Closed, ChangeNick, Quit, Receive, IsNickname;
    ClosedIndexes(w);
    match command {
      case Nick(nick) => ChangeNickChannels(w, c, nick);
      case OperNick(target, nick) =>
        if Taken(w, target) { ChangeNickChannels(w, w.nicks[LOWER(target)], nick); }
      case QuitCommand => QuitAdds(w, c);
      case Kill(nick) =>
        if Taken(w, nick) { QuitAdds(w, w.nicks[LOWER(nick)]); }
    }
  }

  lemma OtherCommandAdds<C, H>(w: World<C, H>, c: C, command: Command<C, H>)
    requires Closed(w) && c in w.clients && ChoicesFit(w, c, command)
    requires !ActsOnMembers(command) && !ActsOnNicks(command)
    ensures AfterRegistration(w, c, command).channels.Keys == w.channels.Keys
  {
    hide Closed, SetTopic, ChangeModes, Invite, TellName, ApplyUserModes, LUsers, Receive, Indexed;
    ClosedIndexes(w);
    match command {
      case SetModes(name, changes) =>
        if LOWER(name) in w.names { ModesAdds(w, w.names[LOWER(name)], c, changes); }
      case Topic(name, topic) =>
        if LOWER(name) in w.names { TopicAdds(w, w.names[LOWER(name)], c, topic); }
      case InviteTo(nick, name) =>
        if LOWER(name) in w.names && Taken(w, nick) { InviteAdds(w, w.names[LOWER(name)], w.nicks[LOWER(nick)], c); }
      case Tell(notice, target) => TellChannels(w, c, notice, target);
      case _ =>
    }
  }

  lemma JoinAdds<C, H>(w: World<C, H>, c: C, name: Name, key: string, made: H, order: seq<C>, h: H)
    requires Inv(w) && Closed(w) && c in w.clients && JoinOrderFits(w, c, name, key, made, order)
    requires h in JoinName(w, c, name, key, made, order).channels && h !in w.channels
    ensures made == h
    ensures JoinName(w, c, name, key, made, order).channels[h] ==
            NewChannel(name).(members := map[c := {CHANNEL_CREATOR, CHANNEL_OPERATOR}])
  {
    hide InvBut, Refusal, JoinChannel, Enumerates;
    if IsChannel(name) && LOWER(name) in w.names {
      JoinChannelChannels(w, w.names[LOWER(name)], c, key, order);
    } else if IsChannel(name) {
      var w1 := WithChannel(w, name, made);
      assert w1.channels[made].members.Keys + {c} == {c};
      JoinChannelChannels(w1, made, c, key, order);
      NewChannelAdmits(w.clients[c], name, c, key);
    }
  }

  lemma LeaveAdds<C, H>(w: World<C, H>, g: H, t: C, reply: Reply)
    requires g in w.channels
    ensures Leave(w, g, t, reply).channels.Keys == w.channels.Keys
  {
  }

  lemma KickAdds<C, H>(w: World<C, H>, g: H, c: C, target: C)
    requires c in w.clients && target in w.clients && g in w.channels
    ensures Kick(w, g, c, target).channels.Keys == w.channels.Keys
  {
  }

  lemma TopicAdds<C, H>(w: World<C, H>, g: H, c: C, topic: string)
    requires c in w.clients && g in w.channels
    ensures SetTopic(w, g, c, topic).channels.Keys == w.channels.Keys
  {
  }

  lemma InviteAdds<C, H>(w: World<C, H>, g: H, invitee: C, inviter: C)
    requires inviter in w.clients && invitee in w.clients && g in w.channels
    ensures Invite(w, g, invitee, inviter).channels.Keys == w.channels.Keys
  {
  }

  lemma ModesAdds<C, H>(w: World<C, H>, g: H, c: C, changes: seq<ChannelModeChange>)
    requires c in w.clients && g in w.channels
    ensures ChangeModes(w, g, c, changes).channels.Keys == w.channels.Keys
  {
  }
}
