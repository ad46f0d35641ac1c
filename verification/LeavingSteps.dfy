/** Parting, being kicked and quitting keep the invariant. */
module LeavingSteps {
  import opened Names
  import opened Modes
  import opened Strings
  import opened ServerState
  import opened Replica
  import opened Invariants
  import opened QuietSteps
  import opened NickSteps
  import opened ChannelSteps

  /** `w'` has `t` on none of the channels in `some`, and channels left empty are no longer indexed. */
  ghost predicate Removed<C, H>(w: World<C, H>, w': World<C, H>, some: set<H>, t: C) {
    && w'.clients.Keys == w.clients.Keys
    && w'.channels.Keys == w.channels.Keys
    && w'.names == (map k | k in w.names && !Vacates(w, t, some, k) :: w.names[k])
    && (forall m :: m in w.clients ==> w'.clients[m].nick == w.clients[m].nick)
    && (forall h :: h in w.channels ==>
      && w'.channels[h].name == w.channels[h].name
      && w'.channels[h].members.Keys == w.channels[h].members.Keys - (if h in some then {t} else {}))
  }

  lemma RemovedMember<C, H>(w: World<C, H>, w': World<C, H>, some: set<H>, t: C, h: H, m: C)
    requires Removed(w, w', some, t) && h in w.channels
    ensures m in w'.channels[h].members <==> m in w.channels[h].members && !(h in some && m == t)
  {
  }

  lemma RemovedShape<C, H>(w: World<C, H>, w': World<C, H>, some: set<H>, t: C)
    requires Removed(w, w', some, t)
    ensures w'.channels.Keys == w.channels.Keys && w'.clients.Keys == w.clients.Keys
    ensures forall h :: h in w.channels ==> w'.channels[h].name == w.channels[h].name
    ensures forall m :: m in w.clients ==> w'.clients[m].nick == w.clients[m].nick
  {
  }

  lemma RemovedOn<C, H>(w: World<C, H>, w': World<C, H>, some: set<H>, t: C, h: H)
    requires NicksOk(w) && MembersOk(w) && Removed(w, w', some, t)
    requires t in w.clients && !w.clients[t].hasQuit && w.clients[t].nick != "" && h in w.channels
    ensures NicksOn(w', h) == if h in some then NicksOn(w, h) - {w.clients[t].nick} else NicksOn(w, h)
    ensures w.clients[t].nick in NicksOn(w, h) <==> t in w.channels[h].members
  {
    OnlyHolder(w, h, t);
    hide NicksOk, MembersOk;
    assert forall m :: m in w'.channels[h].members <==> m in w'.channels[h].members.Keys;
    assert forall m :: m in w.channels[h].members <==> m in w.channels[h].members.Keys;
    forall n | n in NicksOn(w, h) && !(h in some && n == w.clients[t].nick)
      ensures n in NicksOn(w', h)
    {
      var m :| m in w.channels[h].members && m in w.clients && w.clients[m].nick == n;
      assert m in w'.channels[h].members && w'.clients[m].nick == n;
    }
  }

  lemma RemovedIsOn<C, H>(w: World<C, H>, w': World<C, H>, some: set<H>, t: C, m: C, name: Name)
    requires Removed(w, w', some, t) && IsOn(w, m, name)
    requires m == t ==> w.names[LOWER(name)] !in some
    ensures IsOn(w', m, name)
  {
    var h := w.names[LOWER(name)];
    RemovedMember(w, w', some, t, h, m);
    if h in some {
      assert m in w.channels[h].members - {t};
    }
    assert !Vacates(w, t, some, LOWER(name));
  }

  lemma RemovedNames<C, H>(w: World<C, H>, w': World<C, H>, some: set<H>, t: C)
    requires NamesOkBut(w, {}) && Removed(w, w', some, t)
    ensures NamesOkBut(w', {})
  {
    forall h | h in w.channels
      ensures w'.channels[h].members != map[] <==>
              if h in some then w.channels[h].members - {t} != map[] else w.channels[h].members != map[]
    {
      assert w'.channels[h].members == map[] <==> w'.channels[h].members.Keys == {};
      assert w.channels[h].members == map[] <==> w.channels[h].members.Keys == {};
      assert (w.channels[h].members - {t}).Keys == w.channels[h].members.Keys - {t};
      assert w.channels[h].members - {t} == map[] <==> (w.channels[h].members - {t}).Keys == {};
    }
    hide Removed;
    RemovedNamesFrom(w, w', some, t);
  }

  lemma RemovedNamesFrom<C, H>(w: World<C, H>, w': World<C, H>, some: set<H>, t: C)
    requires NamesOkBut(w, {}) && Removed(w, w', some, t)
    requires forall h :: h in w.channels ==>
      (w'.channels[h].members != map[] <==>
       if h in some then w.channels[h].members - {t} != map[] else w.channels[h].members != map[])
    ensures NamesOkBut(w', {})
  {
    forall k | k in w'.names
      ensures w'.names[k] in w'.channels && LOWER(w'.channels[w'.names[k]].name) == k
      ensures w'.channels[w'.names[k]].members != map[]
    {
    }
    forall h | h in w'.channels && w'.channels[h].members != map[]
      ensures LOWER(w'.channels[h].name) in w'.names && w'.names[LOWER(w'.channels[h].name)] == h
    {
      assert w.channels[h].members != map[];
    }
  }

  /** The membership graph after a removal; a client that has quit must have been on no other channel. */
  lemma RemovedGraph<C, H>(w: World<C, H>, w': World<C, H>, some: set<H>, t: C)
    requires MembersOk(w) && Removed(w, w', some, t)
    requires forall m :: m in w.clients ==>
      && w'.clients[m].registered == w.clients[m].registered
      && w'.clients[m].channels == w.clients[m].channels
      && (m != t || w.clients[t].channels != some ==> w'.clients[m].hasQuit == w.clients[m].hasQuit)
    ensures MembersOk(w')
  {
  }

  // ---------------------------------------------------------------- PART and KICK

  /** A reply that tells that a nick has left a channel. */
  ghost predicate TellsLeaving(reply: Reply, channel: Name, nick: Name) {
    reply == Parted(nick, channel) || reply == Kicked(channel, nick)
  }

  lemma LeaveRecord<C, H>(w: World<C, H>, h: H, t: C, reply: Reply, m: C)
    requires h in w.channels && m in w.clients
    ensures var w' := Leave(w, h, t, reply);
            && w'.clients.Keys == w.clients.Keys
            && w'.clients[m] == (if m in w.channels[h].members then Receive(w.clients[m], [reply]) else w.clients[m])
            && w'.nicks == w.nicks && w'.connections == w.connections
  {
  }

  lemma LeaveRemoves<C, H>(w: World<C, H>, h: H, t: C, reply: Reply)
    requires h in w.channels
    ensures Removed(w, Leave(w, h, t, reply), {h}, t)
  {
    hide Receive, ChannelQuit;
    var w' := Leave(w, h, t, reply);
    var w1 := Broadcast(w, w.channels[h].members.Keys, reply);
    assert w'.clients == w1.clients by {
      ChannelQuitChannels(w1, h, t);
    }
    forall m | m in w.clients
      ensures w'.clients[m].nick == w.clients[m].nick
    {
      LeaveRecord(w, h, t, reply, m);
      ReceiveKeepsNick(w.clients[m], reply);
    }
    ChannelQuitChannels(w1, h, t);
    assert (map k | k in w1.names && !Vacates(w1, t, {h}, k) :: w1.names[k])
        == (map k | k in w.names && !Vacates(w, t, {h}, k) :: w.names[k]);
  }

  lemma ChannelQuitChannels<C, H>(w: World<C, H>, h: H, t: C)
    requires h in w.channels
    ensures var w' := ChannelQuit(w, h, t);
            && w'.clients == w.clients
            && w'.channels.Keys == w.channels.Keys
            && w'.names == (map k | k in w.names && !Vacates(w, t, {h}, k) :: w.names[k])
            && w'.channels[h].name == w.channels[h].name
            && w'.channels[h].members.Keys == w.channels[h].members.Keys - {t}
            && (forall g :: g in w.channels && g != h ==> w'.channels[g] == w.channels[g])
  {
  }

  lemma ReceiveKeepsNick<H>(client: ClientRec<H>, reply: Reply)
    ensures Receive(client, [reply]).nick == client.nick
  {
  }

  lemma LeftChannel<C, H>(w: World<C, H>, w': World<C, H>, h: H, t: C, m: C, view: View, g: H)
    requires NicksOk(w) && MembersOk(w) && NamesOkBut(w, {}) && Removed(w, w', {h}, t)
    requires t in w.clients && !w.clients[t].hasQuit && w.clients[t].nick != ""
    requires h in w.channels && t in w.channels[h].members && g in w.channels && m in w'.channels[g].members
    requires view.self == w.clients[t].nick <==> m == t
    requires m in w.channels[g].members ==>
      w.channels[g].name in view.members && view.members[w.channels[g].name] == NicksOn(w, g)
    ensures var view' := if m in w.channels[h].members then Gone(view, w.channels[h].name, w.clients[t].nick) else view;
            w'.channels[g].name in view'.members && view'.members[w'.channels[g].name] == NicksOn(w', g)
  {
    hide NicksOn, NicksOk, MembersOk;
    RemovedOn(w, w', {h}, t, g);
    RemovedMember(w, w', {h}, t, g, m);
    if g != h {
      assert w.channels[g].name != w.channels[h].name by {
        LiveNamesDiffer(w, g, h, m, t);
      }
    }
  }

  lemma LiveNamesDiffer<C, H>(w: World<C, H>, g: H, h: H, m: C, t: C)
    requires NamesOkBut(w, {}) && g != h && g in w.channels && h in w.channels
    requires m in w.channels[g].members && t in w.channels[h].members
    ensures LOWER(w.channels[g].name) != LOWER(w.channels[h].name)
  {
  }

  lemma LeaveAgrees<C, H>(w: World<C, H>, w': World<C, H>, h: H, t: C, m: C)
    requires NicksOk(w) && MembersOk(w) && NamesOkBut(w, {}) && Removed(w, w', {h}, t)
    requires t in w.clients && !w.clients[t].hasQuit && w.clients[t].nick != ""
    requires h in w.channels && t in w.channels[h].members
    requires m in w.clients && Agrees(w, m) && (w.clients[m].nick == w.clients[t].nick <==> m == t)
    requires Replay(w'.clients[m].log) ==
             if m in w.channels[h].members then Gone(Replay(w.clients[m].log), w.channels[h].name, w.clients[t].nick)
             else Replay(w.clients[m].log)
    ensures Agrees(w', m)
  {
    hide Replay, NicksOn, NicksOk, MembersOk, NamesOkBut, Removed;
    RemovedShape(w, w', {h}, t);
    var view, view' := Replay(w.clients[m].log), Replay(w'.clients[m].log);
    forall g | g in w'.channels && m in w'.channels[g].members
      ensures w'.channels[g].name in view'.members && view'.members[w'.channels[g].name] == NicksOn(w', g)
    {
      LeftChannel(w, w', h, t, m, view, g);
    }
    forall name | name in view'.members
      ensures IsOn(w', m, name)
    {
      assert name in view.members && (m == t ==> name != w.channels[h].name);
      assert IsOn(w, m, name);
      RemovedIsOn(w, w', {h}, t, m, name);
    }
  }

  /** Leaving one channel keeps everything. */
  lemma LeaveKeeps<C, H>(w: World<C, H>, h: H, t: C, reply: Reply)
    requires Inv(w) && h in w.channels && t in w.channels[h].members && t in w.clients
    requires TellsLeaving(reply, w.channels[h].name, w.clients[t].nick)
    ensures Inv(Leave(w, h, t, reply))
  {
    hide LocalOk, NicksOk, MembersOk, NamesOkBut, Agrees, Live, Leave, Removed;
    var w' := Leave(w, h, t, reply);
    MemberIsNamed(w, h, t);
    LeaveRemoves(w, h, t, reply);
    LeaveRecord(w, h, t, reply, t);
    forall m | m in w'.clients
      ensures LocalOk(w'.clients[m])
      ensures w'.clients[m].hasQuit == w.clients[m].hasQuit && w'.clients[m].nick == w.clients[m].nick
      ensures w'.clients[m].registered == w.clients[m].registered && w'.clients[m].channels == w.clients[m].channels
      ensures !w'.clients[m].hasQuit && w'.clients[m].registered ==> Agrees(w', m)
    {
      LeaveClient(w, h, t, reply, m);
    }
    NicksStill(w, w');
    RemovedNames(w, w', {h}, t);
    RemovedGraph(w, w', {h}, t);
  }

  lemma MemberIsNamed<C, H>(w: World<C, H>, h: H, m: C)
    requires LocalsOk(w) && MembersOk(w) && h in w.channels && m in w.channels[h].members
    ensures m in w.clients && !w.clients[m].hasQuit && w.clients[m].registered && w.clients[m].nick != ""
  {
  }

  lemma LeaveClient<C, H>(w: World<C, H>, h: H, t: C, reply: Reply, m: C)
    requires Inv(w) && h in w.channels && t in w.channels[h].members && t in w.clients && m in w.clients
    requires TellsLeaving(reply, w.channels[h].name, w.clients[t].nick)
    ensures var w' := Leave(w, h, t, reply);
            && m in w'.clients
            && LocalOk(w'.clients[m])
            && w'.clients[m].hasQuit == w.clients[m].hasQuit && w'.clients[m].nick == w.clients[m].nick
            && w'.clients[m].registered == w.clients[m].registered && w'.clients[m].channels == w.clients[m].channels
            && (!w'.clients[m].hasQuit && w'.clients[m].registered ==> Agrees(w', m))
  {
    hide LocalOk, NicksOk, MembersOk, NamesOkBut, Agrees, Leave, Removed, Replay, Gone;
    var w' := Leave(w, h, t, reply);
    LeaveRecord(w, h, t, reply, m);
    ReceiveLocal(w.clients[m], reply);
    MemberIsNamed(w, h, t);
    if !w.clients[m].hasQuit && w.clients[m].registered {
      ReceiveOne(w.clients[m], reply);
      RegisteredHasNick(w.clients[m]);
      if w.clients[m].nick == w.clients[t].nick {
        NickUnique(w, m, t);
      }
      LeaveRemoves(w, h, t, reply);
      LeaveAgrees(w, w', h, t, m);
    }
  }

  // -------------------------------------------------------------------------- QUIT

  lemma QuitRecord<C, H>(w: World<C, H>, c: C, m: C)
    requires c in w.clients && m in w.clients && !w.clients[c].hasQuit
    ensures var w' := Quit(w, c);
            var client := w.clients[c];
            && w'.clients.Keys == w.clients.Keys
            && w'.clients[m] == (if m == c then client.(hasQuit := true, closed := true)
                                 else if m in Friends(w, c) then Receive(w.clients[m], [HasQuit(client.nick)])
                                 else w.clients[m])
            && w'.nicks == IndexRemove(w.nicks, c, client.nick)
            && w'.connections == w.connections - 1
  {
  }

  lemma QuitChannels<C, H>(w: World<C, H>, c: C)
    requires c in w.clients && !w.clients[c].hasQuit
    ensures var w', some := Quit(w, c), w.clients[c].channels;
            && w'.channels.Keys == w.channels.Keys
            && w'.names == (map k | k in w.names && !Vacates(w, c, some, k) :: w.names[k])
            && (forall h :: h in w.channels ==>
              && w'.channels[h].name == w.channels[h].name
              && w'.channels[h].members.Keys == w.channels[h].members.Keys - (if h in some then {c} else {}))
  {
  }

  lemma QuitRemoves<C, H>(w: World<C, H>, c: C)
    requires c in w.clients && !w.clients[c].hasQuit
    ensures Removed(w, Quit(w, c), w.clients[c].channels, c)
  {
    hide Receive, Friends, Quit;
    var w' := Quit(w, c);
    QuitRecord(w, c, c);
    forall m | m in w.clients
      ensures w'.clients[m].nick == w.clients[m].nick
    {
      QuitRecord(w, c, m);
      ReceiveKeepsNick(w.clients[m], HasQuit(w.clients[c].nick));
    }
    QuitChannels(w, c);
  }

  lemma QuitIndex<C, H>(w: World<C, H>, w': World<C, H>, c: C)
    requires NicksOk(w) && c in w.clients && !w.clients[c].hasQuit && w'.clients.Keys == w.clients.Keys
    requires forall m :: m in w.clients ==>
      w'.clients[m].nick == w.clients[m].nick && w'.clients[m].hasQuit == (w.clients[m].hasQuit || m == c)
    requires w'.nicks == IndexRemove(w.nicks, c, w.clients[c].nick)
    ensures NicksOk(w')
    ensures forall k :: k in w'.nicks ==> w'.nicks[k] != c
    ensures Live(w') == Live(w) - {c}
  {
  }

  lemma QuitChannel<C, H>(w: World<C, H>, w': World<C, H>, c: C, m: C, view: View, g: H)
    requires c in w.clients && !w.clients[c].hasQuit && w.clients[c].nick != ""
    requires NicksOk(w) && MembersOk(w) && Removed(w, w', w.clients[c].channels, c)
    requires g in w.channels && m in w.channels[g].members
    requires w.channels[g].name in view.members && view.members[w.channels[g].name] == NicksOn(w, g)
    ensures var view' := if m in Friends(w, c) then Observe(view, HasQuit(w.clients[c].nick)) else view;
            w'.channels[g].name in view'.members && view'.members[w'.channels[g].name] == NicksOn(w', g)
  {
    hide NicksOk, NicksOn, MembersOk, Removed, Friends;
    RemovedShape(w, w', w.clients[c].channels, c);
    RemovedOn(w, w', w.clients[c].channels, c, g);
    if c in w.channels[g].members {
      SharingIsFriendship(w, g, c, m);
    }
  }

  lemma QuitAgrees<C, H>(w: World<C, H>, w': World<C, H>, c: C, m: C)
    requires NicksOk(w) && MembersOk(w) && c in w.clients && Removed(w, w', w.clients[c].channels, c)
    requires !w.clients[c].hasQuit && m in w.clients && m != c && Agrees(w, m)
    requires w.clients[c].nick == "" ==> m !in Friends(w, c) && w.clients[c].channels == {}
    requires Replay(w'.clients[m].log) ==
             if m in Friends(w, c) then Observe(Replay(w.clients[m].log), HasQuit(w.clients[c].nick))
             else Replay(w.clients[m].log)
    ensures Agrees(w', m)
  {
    hide Replay, NicksOn, NicksOk, MembersOk, Friends, Removed;
    RemovedShape(w, w', w.clients[c].channels, c);
    var view, view' := Replay(w.clients[m].log), Replay(w'.clients[m].log);
    forall g | g in w'.channels && m in w'.channels[g].members
      ensures w'.channels[g].name in view'.members && view'.members[w'.channels[g].name] == NicksOn(w', g)
    {
      RemovedMember(w, w', w.clients[c].channels, c, g, m);
      if w.clients[c].nick != "" {
        QuitChannel(w, w', c, m, view, g);
      } else {
        RemovedNothingOn(w, w', c, g);
      }
    }
    forall name | name in view'.members
      ensures IsOn(w', m, name)
    {
      assert IsOn(w, m, name);
      RemovedIsOn(w, w', w.clients[c].channels, c, m, name);
    }
  }

  lemma RemovedNothingOn<C, H>(w: World<C, H>, w': World<C, H>, t: C, h: H)
    requires Removed(w, w', {}, t) && h in w.channels
    ensures NicksOn(w', h) == NicksOn(w, h)
  {
  }

  lemma ClosingLocal<H>(client: ClientRec<H>)
    requires LocalOk(client)
    ensures LocalOk(client.(hasQuit := true, closed := true))
    ensures client.nick == "" ==> client.channels == {}
  {
  }

  lemma QuitClient<C, H>(w: World<C, H>, c: C, m: C)
    requires Inv(w) && c in w.clients && !w.clients[c].hasQuit && m in w.clients
    ensures var w' := Quit(w, c);
            && m in w'.clients
            && LocalOk(w'.clients[m])
            && w'.clients[m].hasQuit == (w.clients[m].hasQuit || m == c) && w'.clients[m].nick == w.clients[m].nick
            && w'.clients[m].registered == w.clients[m].registered && w'.clients[m].channels == w.clients[m].channels
            && (!w'.clients[m].hasQuit && w'.clients[m].registered ==> Agrees(w', m))
  {
    hide LocalOk, NicksOk, MembersOk, NamesOkBut, Agrees, Quit, Removed, Replay, Friends;
    var w', reply := Quit(w, c), HasQuit(w.clients[c].nick);
    QuitRecord(w, c, m);
    ReceiveLocal(w.clients[m], reply);
    ClosingLocal(w.clients[c]);
    if m != c && !w.clients[m].hasQuit && w.clients[m].registered {
      ReceiveOne(w.clients[m], reply);
      QuitRemoves(w, c);
      if w.clients[c].nick == "" {
        LonelyFriends(w, c);
      }
      QuitAgrees(w, w', c, m);
    }
  }

  lemma LonelyFriends<C, H>(w: World<C, H>, c: C)
    requires c in w.clients && w.clients[c].channels == {}
    ensures Friends(w, c) == {c}
  {
  }

  lemma QuitKeeps<C, H>(w: World<C, H>, c: C)
    requires Inv(w) && c in w.clients
    ensures Inv(Quit(w, c))
  {
    hide LocalOk, NicksOk, MembersOk, NamesOkBut, Agrees, Live, Removed, Quit;
    if !w.clients[c].hasQuit {
      var w' := Quit(w, c);
      QuitRecord(w, c, c);
      QuitRemoves(w, c);
      forall m | m in w'.clients
        ensures LocalOk(w'.clients[m])
        ensures w'.clients[m].hasQuit == (w.clients[m].hasQuit || m == c) && w'.clients[m].nick == w.clients[m].nick
        ensures w'.clients[m].registered == w.clients[m].registered && w'.clients[m].channels == w.clients[m].channels
        ensures !w'.clients[m].hasQuit && w'.clients[m].registered ==> Agrees(w', m)
      {
        QuitClient(w, c, m);
      }
      QuitIndex(w, w', c);
      RemovedNames(w, w', w.clients[c].channels, c);
      RemovedGraph(w, w', w.clients[c].channels, c);
      LiveMember(w, c);
    } else {
      QuitTwice(w, c);
    }
  }

  lemma LiveMember<C, H>(w: World<C, H>, c: C)
    requires c in w.clients && !w.clients[c].hasQuit
    ensures c in Live(w)
  {
  }

  lemma QuitTwice<C, H>(w: World<C, H>, c: C)
    requires c in w.clients && w.clients[c].hasQuit
    ensures Quit(w, c) == w
  {
  }
}
