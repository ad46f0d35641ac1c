/** The commands that leave the indexes, the membership graph and the replicas alone. */
module QuietSteps {
  import opened Names
  import opened Modes
  import opened Strings
  import opened ServerState
  import opened Replica
  import opened Invariants
  import Multiline
  import Sasl

  // -------------------------------------------------------------- channel modes

  lemma ApplyModeSame<C>(channel: ChannelRec<C>, nicks: map<Name, C>, oper: bool, c: C, change: ChannelModeChange)
    ensures var result := ApplyMode(channel, nicks, oper, c, change);
            SameChannel(channel, result.channel) && AllNeutral(result.replies)
  {
    if change.mode in MASK_MODES && change.mode in channel.lists {
      var masks := channel.lists[change.mode];
      assert AllNeutral(Repeat(|masks|, Numeric(MaskListCode(change.mode))));
    } else if (change.mode == CHANNEL_OPERATOR || change.mode == VOICE) && LOWER(change.arg) in nicks {
      var target := nicks[LOWER(change.arg)];
      if target in channel.members {
        var modes := channel.members[target];
        assert channel.members[target := modes + {change.mode}].Keys == channel.members.Keys;
        assert channel.members[target := modes - {change.mode}].Keys == channel.members.Keys;
      }
    }
  }

  lemma {:induction false} ApplyModesSame<C>(channel: ChannelRec<C>, nicks: map<Name, C>, oper: bool, c: C,
                                             changes: seq<ChannelModeChange>)
    ensures var result := ApplyModes(channel, nicks, oper, c, changes);
            SameChannel(channel, result.channel) && AllNeutral(result.replies)
  {
    if changes != [] {
      var n := |changes| - 1;
      ApplyModesSame(channel, nicks, oper, c, changes[..n]);
      var before := ApplyModes(channel, nicks, oper, c, changes[..n]);
      ApplyModeSame(before.channel, nicks, oper, c, changes[n]);
    }
  }

  lemma ChangeModesSimilar<C, H>(w: World<C, H>, h: H, c: C, changes: seq<ChannelModeChange>)
    requires c in w.clients && h in w.channels
    ensures Similar(w, ChangeModes(w, h, c, changes))
  {
    if changes == [] {
      SaySimilar(w, c, [Numeric(324)]);
    } else {
      var oper := OPERATOR in w.clients[c].modes;
      var result := ApplyModes(w.channels[h], w.nicks, oper, c, changes);
      ApplyModesSame(w.channels[h], w.nicks, oper, c, changes);
      var w0 := SetChannel(w, h, result.channel);
      var w1 := Say(w0, c, result.replies);
      SetChannelSimilar(w, h, result.channel);
      SaySimilar(w0, c, result.replies);
      SimilarTwice(w, w0, w1);
      if result.applied != [] {
        var reply := ChannelModes(w.clients[c].nick, result.channel.name, result.applied);
        BroadcastSimilar(w1, result.channel.members.Keys, reply);
        SimilarTwice(w, w1, Broadcast(w1, result.channel.members.Keys, reply));
      }
    }
  }

  // --------------------------------------------------------- topic and invitation

  lemma SetTopicSimilar<C, H>(w: World<C, H>, h: H, c: C, topic: string)
    requires c in w.clients && h in w.channels
    ensures Similar(w, SetTopic(w, h, c, topic))
  {
    hide Similar;
    SaySimilar(w, c, [Numeric(442)]);
    SaySimilar(w, c, [Numeric(482)]);
    var channel := w.channels[h].(topic := topic);
    var w1 := SetChannel(w, h, channel);
    SetChannelSimilar(w, h, channel);
    BroadcastSimilar(w1, channel.members.Keys, Message("TOPIC"));
    SimilarTwice(w, w1, Broadcast(w1, channel.members.Keys, Message("TOPIC")));
  }

  lemma SayAfter<C, H>(w: World<C, H>, w1: World<C, H>, c: C, replies: seq<Reply>)
    requires Similar(w, w1) && c in w1.clients && AllNeutral(replies)
    ensures Similar(w, Say(w1, c, replies))
  {
    SaySimilar(w1, c, replies);
    SimilarTwice(w, w1, Say(w1, c, replies));
  }

  lemma InviteSimilar<C, H>(w: World<C, H>, h: H, invitee: C, inviter: C)
    requires inviter in w.clients && invitee in w.clients && h in w.channels
    ensures Similar(w, Invite(w, h, invitee, inviter))
  {
    hide Similar, IsOperator, MasksOf, UserHost, Receive;
    var channel := w.channels[h];
    SaySimilar(w, inviter, [Numeric(482)]);
    SaySimilar(w, inviter, [Numeric(442)]);
    var invited := MasksOf(channel, INVITE_MASK) + {UserHost(w.clients[invitee])};
    var w1 := if INVITE_ONLY in channel.flags
              then SetChannel(w, h, channel.(lists := channel.lists[INVITE_MASK := invited])) else w;
    SimilarSelf(w);
    SetChannelSimilar(w, h, channel.(lists := channel.lists[INVITE_MASK := invited]));
    assert Similar(w, w1);
    SayAfter(w, w1, inviter, [Numeric(341)]);
    SayAfter(w, Say(w1, inviter, [Numeric(341)]), invitee, [Message("INVITE")]);
    SayAfter(w, Say(Say(w1, inviter, [Numeric(341)]), invitee, [Message("INVITE")]), inviter, [Numeric(301)]);
  }

  lemma SimilarSelf<C, H>(w: World<C, H>)
    ensures Similar(w, w)
  {
  }

  // ------------------------------------------------------------- client records

  /** Setting a record that differs in nothing the global invariant sees, then replying. */
  lemma SetAndSay<C, H>(w: World<C, H>, c: C, client: ClientRec<H>, replies: seq<Reply>)
    requires c in w.clients && SameClient(w.clients[c], client) && AllNeutral(replies)
    ensures Similar(w, Say(SetClient(w, c, client), c, replies))
  {
    SetClientSimilar(w, c, client);
    SayAfter(w, SetClient(w, c, client), c, replies);
  }

  lemma {:induction false} UserModesKeepSecure(modes: set<UserMode>, changes: seq<ModeChange>)
    ensures SECURE_CONN in ApplyUserModes(modes, changes).0 <==> SECURE_CONN in modes
  {
    if changes != [] {
      UserModesKeepSecure(modes, changes[..|changes| - 1]);
    }
  }

  lemma ChangeUserModesSimilar<C, H>(w: World<C, H>, c: C, nick: Name, changes: seq<ModeChange>)
    requires c in w.clients && w.nicks.Values <= w.clients.Keys
    ensures Similar(w, ChangeUserModes(w, c, nick, changes))
  {
    hide Similar;
    SaySimilar(w, c, [Numeric(401)]);
    SaySimilar(w, c, [Numeric(502)]);
    if Taken(w, nick) {
      var target := w.nicks[LOWER(nick)];
      assert target in w.clients;
      var client := w.clients[target].(modes := ApplyUserModes(w.clients[target].modes, changes).0);
      UserModesKeepSecure(w.clients[target].modes, changes);
      SetClientSimilar(w, target, client);
      SayAfter(w, SetClient(w, target, client), c, [Message("MODE")]);
      SayAfter(w, SetClient(w, target, client), c, [Numeric(221)]);
    }
  }

  lemma BecomeOperatorSimilar<C, H>(w: World<C, H>, c: C, accepted: bool)
    requires c in w.clients
    ensures Similar(w, BecomeOperator(w, c, accepted))
  {
    SaySimilar(w, c, [Numeric(464)]);
    SetAndSay(w, c, w.clients[c].(modes := w.clients[c].modes + {OPERATOR, WALL_OPS}), [Numeric(381), Message("MODE")]);
  }

  lemma SaslRepliesNeutral(outcome: Sasl.Outcome)
    ensures AllNeutral(SaslReplies(outcome))
  {
  }

  lemma AuthenticateSimilar<C, H>(w: World<C, H>, c: C, arg: string)
    requires c in w.clients && w.clients[c].authorized
    ensures Similar(w, AuthenticateWith(w, c, arg))
  {
    var client := w.clients[c];
    var (sasl, outcome) := Sasl.Receive(client.sasl, arg);
    var modes := if LogsIn(outcome) then client.modes + {REGISTERED} else client.modes;
    if Sasl.Consistent(client.sasl) {
      Sasl.ReceiveConsistent(client.sasl, arg);
    }
    SaslRepliesNeutral(outcome);
    SetAndSay(w, c, client.(sasl := sasl, modes := modes), SaslReplies(outcome));
  }

  lemma LUsersNeutral<C, H>(w: World<C, H>)
    ensures AllNeutral(LUsers(w))
  {
  }

  // ------------------------------------------------------------------------ NAMES

  /** Every member has a legal nick. */
  ghost predicate NamedMembers<C, H>(w: World<C, H>, h: H)
    requires h in w.channels
  {
    forall m :: m in w.channels[h].members ==>
      m in w.clients && w.clients[m].nick != "" && IsNickname(w.clients[m].nick)
  }

  lemma MembersAreNamed<C, H>(w: World<C, H>, h: H)
    requires LocalsOk(w) && MembersOk(w) && h in w.channels
    ensures NamedMembers(w, h)
  {
  }

  /** The entries of all members, stripped, are the nicks on the channel. */
  lemma EntriesAreNicks<C, H>(w: World<C, H>, h: H, c: C, order: seq<C>)
    requires c in w.clients && h in w.channels && NamedMembers(w, h)
    requires Enumerates(order, w.channels[h].members.Keys)
    requires forall m :: m in order ==> m in w.clients && m in w.channels[h].members
    ensures StripAll(NamesEntries(w, h, c, order)) == NicksOn(w, h)
  {
    hide NamesEntry, Strip, IsNickname;
    var entries := NamesEntries(w, h, c, order);
    forall i | 0 <= i < |order|
      ensures order[i] in w.clients && order[i] in w.channels[h].members
      ensures Strip(entries[i]) == w.clients[order[i]].nick
    {
      assert order[i] in order;
      StripEntry(w.clients[order[i]].nick, w.channels[h].members[order[i]], "multi-prefix" in w.clients[c].capabilities);
    }
    forall nick | nick in NicksOn(w, h)
      ensures nick in StripAll(entries)
    {
      var m :| m in w.channels[h].members && m in w.clients && w.clients[m].nick == nick;
      assert m in (set t | t in order);
      var i :| 0 <= i < |order| && order[i] == m;
      assert entries[i] in entries;
    }
    forall nick | nick in StripAll(entries)
      ensures nick in NicksOn(w, h)
    {
      var e :| e in entries && Strip(e) == nick;
      var i :| 0 <= i < |entries| && entries[i] == e;
    }
  }

  /** Replaying the reply to NAMES adds the nicks on the channel. */
  lemma ReplayNames<C, H>(w: World<C, H>, log: seq<Reply>, h: H, c: C, order: seq<C>)
    requires c in w.clients && h in w.channels && NamedMembers(w, h)
    requires Enumerates(order, w.channels[h].members.Keys)
    requires forall m :: m in order ==> m in w.clients && m in w.channels[h].members
    ensures Replay(log + NamesReplies(w, h, c, order))
         == AddNicks(Replay(log), w.channels[h].name, NicksOn(w, h))
  {
    hide Multiline.Pack, Replay, AddNicks, NamedMembers, NicksOn;
    var name := w.channels[h].name;
    var baseLen := NamesBase(NickOrStar(w.clients[c].nick));
    var entries := NamesEntries(w, h, c, order);
    var lines := NamesLines(name, Multiline.Pack(baseLen, entries));
    ReplayPacked(log, name, baseLen, entries);
    ReplayNeutral(log + lines, [Numeric(366)]);
    assert log + lines + [Numeric(366)] == log + NamesReplies(w, h, c, order);
    EntriesAreNicks(w, h, c, order);
  }

  /** A replica that agrees already has every nick on an indexed channel, or is not on it. */
  lemma NicksAlreadyKnown<C, H>(w: World<C, H>, h: H, c: C)
    requires NamesOkBut(w, {}) && c in w.clients && Agrees(w, c)
    requires h in w.names.Values && h in w.channels
    ensures AddNicks(Replay(w.clients[c].log), w.channels[h].name, NicksOn(w, h)) == Replay(w.clients[c].log)
  {
    var view, name := Replay(w.clients[c].log), w.channels[h].name;
    hide Replay;
    AddTwice(view, name, {}, {});
    if name in view.members {
      assert IsOn(w, c, name);
      assert w.names[LOWER(name)] == h;
      assert view.members[name] + NicksOn(w, h) == view.members[name] + {};
    }
  }

  lemma SameAfterKnown<H>(client: ClientRec<H>, replies: seq<Reply>)
    requires Replay(client.log + replies) == Replay(client.log)
    ensures SameClient(client, Receive(client, replies))
  {
  }

  /** Asking for names tells a client nothing new. */
  lemma NamesSimilar<C, H>(w: World<C, H>, h: H, c: C, order: seq<C>)
    requires Inv(w) && c in w.clients && w.clients[c].registered && !w.clients[c].hasQuit
    requires h in w.names.Values && h in w.channels && Enumerates(order, w.channels[h].members.Keys)
    requires forall m :: m in order ==> m in w.clients && m in w.channels[h].members
    ensures Similar(w, Say(w, c, NamesReplies(w, h, c, order)))
  {
    hide Similar, NamesReplies, Replay, NicksOn, AddNicks, SameClient, LocalOk, NamedMembers;
    MembersAreNamed(w, h);
    var client := w.clients[c];
    var replies := NamesReplies(w, h, c, order);
    assert Agrees(w, c);
    ReplayNames(w, client.log, h, c, order);
    NicksAlreadyKnown(w, h, c);
    SameAfterKnown(client, replies);
    SetClientSimilar(w, c, Receive(client, replies));
  }
}
