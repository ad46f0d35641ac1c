/** Joining, leaving and quitting keep the invariant. */
module ChannelSteps {
  import opened Names
  import opened Modes
  import opened Strings
  import opened ServerState
  import opened Replica
  import opened Invariants
  import opened QuietSteps
  import opened NickSteps

  lemma NicksStill<C, H>(w: World<C, H>, w': World<C, H>)
    requires NicksOk(w) && w'.nicks == w.nicks && w'.clients.Keys == w.clients.Keys
    requires forall m :: m in w.clients ==>
      w'.clients[m].nick == w.clients[m].nick && w'.clients[m].hasQuit == w.clients[m].hasQuit
    ensures NicksOk(w') && Live(w') == Live(w)
  {
  }

  /** Two indexed channels have different names. */
  lemma NamesDiffer<C, H>(w: World<C, H>, g: H, h: H, m: C)
    requires NamesOkBut(w, {h}) && g != h && g in w.channels && h in w.channels && m in w.channels[g].members
    requires LOWER(w.channels[h].name) in w.names && w.names[LOWER(w.channels[h].name)] == h
    ensures w.channels[g].name != w.channels[h].name
  {
  }

  // ----------------------------------------------------------------------- JOIN

  /** The world after a client was added to a channel and everybody on it was told. */
  ghost function Announced<C, H>(w: World<C, H>, h: H, c: C): World<C, H>
    requires c in w.clients && h in w.channels
  {
    var w1 := AddMember(w, h, c);
    Broadcast(w1, w1.channels[h].members.Keys, Joined(w.clients[c].nick, w.channels[h].name))
  }

  ghost predicate MayEnter<C, H>(w: World<C, H>, h: H, c: C) {
    && c in w.clients && !w.clients[c].hasQuit && w.clients[c].registered
    && h in w.channels && c !in w.channels[h].members
    && LOWER(w.channels[h].name) in w.names && w.names[LOWER(w.channels[h].name)] == h
  }

  lemma AnnouncedRecord<C, H>(w: World<C, H>, h: H, c: C, m: C)
    requires c in w.clients && h in w.channels && m in w.clients
    ensures var w' := Announced(w, h, c);
            var client := if m == c then w.clients[c].(channels := w.clients[c].channels + {h}) else w.clients[m];
            && w'.clients.Keys == w.clients.Keys
            && w'.clients[m] == (if m == c || m in w.channels[h].members
                                 then Receive(client, [Joined(w.clients[c].nick, w.channels[h].name)]) else client)
            && w'.nicks == w.nicks && w'.names == w.names && w'.connections == w.connections
            && w'.channels.Keys == w.channels.Keys
            && w'.channels[h].name == w.channels[h].name && w'.channels[h].topic == w.channels[h].topic
            && w'.channels[h].members.Keys == w.channels[h].members.Keys + {c}
            && (forall g :: g in w.channels && g != h ==> w'.channels[g] == w.channels[g])
  {
  }

  lemma AnnouncedGraph<C, H>(w: World<C, H>, h: H, c: C)
    requires MembersOk(w) && MayEnter(w, h, c)
    ensures MembersOk(Announced(w, h, c))
  {
    hide MembersOk, Announced;
    var w' := Announced(w, h, c);
    AnnouncedRecord(w, h, c, c);
    forall m | m in w.clients
      ensures w'.clients[m].registered == w.clients[m].registered && w'.clients[m].hasQuit == w.clients[m].hasQuit
      ensures w'.clients[m].channels == if m == c then w.clients[m].channels + {h} else w.clients[m].channels
    {
      AnnouncedRecord(w, h, c, m);
    }
    AddedGraph(w, w', h, c);
  }

  lemma AddedGraph<C, H>(w: World<C, H>, w': World<C, H>, h: H, c: C)
    requires MembersOk(w) && MayEnter(w, h, c)
    requires w'.clients.Keys == w.clients.Keys && w'.channels.Keys == w.channels.Keys
    requires w'.channels[h].members.Keys == w.channels[h].members.Keys + {c}
    requires forall g :: g in w.channels && g != h ==> w'.channels[g] == w.channels[g]
    requires forall m :: m in w.clients ==>
      && w'.clients[m].registered == w.clients[m].registered
      && w'.clients[m].hasQuit == w.clients[m].hasQuit
      && w'.clients[m].channels == if m == c then w.clients[m].channels + {h} else w.clients[m].channels
    ensures MembersOk(w')
  {
    forall g, m | g in w'.channels && m in w'.channels[g].members
      ensures m in w'.clients && w'.clients[m].registered && !w'.clients[m].hasQuit && g in w'.clients[m].channels
    {
      if g == h {
        assert m in w'.channels[h].members.Keys;
        assert m == c || m in w.channels[h].members;
      } else {
        assert m in w.channels[g].members;
      }
    }
  }

  lemma AnnouncedNames<C, H>(w: World<C, H>, h: H, c: C)
    requires NamesOkBut(w, {h}) && MayEnter(w, h, c)
    ensures NamesOkBut(Announced(w, h, c), {})
  {
  }

  /** `w'` has `c` on `h` as well, and everybody has the nick it had. */
  ghost predicate Added<C, H>(w: World<C, H>, w': World<C, H>, h: H, c: C) {
    && h in w.channels
    && w'.clients.Keys == w.clients.Keys
    && w'.channels.Keys == w.channels.Keys
    && w'.names == w.names
    && w'.channels[h].name == w.channels[h].name
    && w'.channels[h].members.Keys == w.channels[h].members.Keys + {c}
    && (forall g :: g in w.channels && g != h ==> w'.channels[g] == w.channels[g])
    && (forall m :: m in w.clients ==> w'.clients[m].nick == w.clients[m].nick)
  }

  lemma AddedOn<C, H>(w: World<C, H>, w': World<C, H>, h: H, c: C, g: H)
    requires Added(w, w', h, c) && c in w.clients && g in w.channels
    ensures NicksOn(w', g) == if g == h then NicksOn(w, h) + {w.clients[c].nick} else NicksOn(w, g)
  {
  }

  /** What a client's replica knows of the channels it is on survives the arrival of another, once noted. */
  lemma AddedIsOn<C, H>(w: World<C, H>, w': World<C, H>, h: H, c: C, m: C, name: Name)
    requires Added(w, w', h, c) && IsOn(w, m, name)
    ensures IsOn(w', m, name)
  {
  }

  lemma AddedMember<C, H>(w: World<C, H>, w': World<C, H>, h: H, c: C, g: H, m: C)
    requires Added(w, w', h, c) && g in w.channels
    ensures m in w'.channels[g].members <==> m in w.channels[g].members || (g == h && m == c)
  {
  }

  lemma AddedChannel<C, H>(w: World<C, H>, w': World<C, H>, h: H, c: C, m: C, view: View, g: H)
    requires NamesOkBut(w, {h}) && MayEnter(w, h, c) && Added(w, w', h, c)
    requires g in w.channels && m in w.channels[g].members && view.self != w.clients[c].nick
    requires w.channels[g].name in view.members && view.members[w.channels[g].name] == NicksOn(w, g)
    ensures var view' := if m in w.channels[h].members
                         then Observe(view, Joined(w.clients[c].nick, w.channels[h].name)) else view;
            w'.channels[g].name in view'.members && view'.members[w'.channels[g].name] == NicksOn(w', g)
  {
    hide NicksOn;
    AddedOn(w, w', h, c, g);
    if g != h {
      NamesDiffer(w, g, h, m);
    }
  }

  /** Everybody else's replica takes note of the newcomer. */
  lemma AddedAgrees<C, H>(w: World<C, H>, w': World<C, H>, h: H, c: C, m: C)
    requires NamesOkBut(w, {h}) && MayEnter(w, h, c) && Added(w, w', h, c)
    requires m in w.clients && m != c && w.clients[m].nick != w.clients[c].nick && Agrees(w, m)
    requires Replay(w'.clients[m].log) ==
             if m in w.channels[h].members
             then Observe(Replay(w.clients[m].log), Joined(w.clients[c].nick, w.channels[h].name))
             else Replay(w.clients[m].log)
    ensures Agrees(w', m)
  {
    hide Replay, NicksOn, NamesOkBut;
    var view, view' := Replay(w.clients[m].log), Replay(w'.clients[m].log);
    forall g | g in w'.channels && m in w'.channels[g].members
      ensures w'.channels[g].name in view'.members && view'.members[w'.channels[g].name] == NicksOn(w', g)
    {
      AddedMember(w, w', h, c, g, m);
      AddedChannel(w, w', h, c, m, view, g);
    }
    forall name | name in view'.members
      ensures IsOn(w', m, name)
    {
      hide IsOn, NicksOn;
      AddedIsOn(w, w', h, c, m, name);
    }
  }

  lemma LearnedView(view: View, name: Name, nicks: set<Name>)
    requires view.self in nicks
    ensures AddNicks(Observe(view, Joined(view.self, name)), name, nicks)
         == view.(members := view.members[name := nicks])
  {
    assert {view.self} + nicks == nicks;
  }

  /** The newcomer's replica starts with itself and learns the rest from the names. */
  lemma NewcomerLearns<C, H>(w: World<C, H>, w': World<C, H>, h: H, c: C)
    requires NamesOkBut(w, {h}) && MayEnter(w, h, c) && Added(w, w', h, c) && Agrees(w, c)
    requires var name := w.channels[h].name;
             Replay(w'.clients[c].log) ==
             AddNicks(Observe(Replay(w.clients[c].log), Joined(w.clients[c].nick, name)), name, NicksOn(w', h))
    ensures Agrees(w', c)
  {
    hide Replay, NicksOn, NamesOkBut, Observe, AddNicks;
    var view, view' := Replay(w.clients[c].log), Replay(w'.clients[c].log);
    var name := w.channels[h].name;
    AddedOn(w, w', h, c, h);
    LearnedView(view, name, NicksOn(w', h));
    forall g | g in w'.channels && c in w'.channels[g].members
      ensures w'.channels[g].name in view'.members && view'.members[w'.channels[g].name] == NicksOn(w', g)
    {
      AddedMember(w, w', h, c, g, c);
      AddedOn(w, w', h, c, g);
      if g != h {
        NamesDiffer(w, g, h, c);
      }
    }
    forall n | n in view'.members
      ensures IsOn(w', c, n)
    {
      AddedMember(w, w', h, c, h, c);
      if n != name {
        AddedIsOn(w, w', h, c, c, n);
      }
    }
  }

  /** The replies a newcomer gets for itself. */
  ghost function Greeting<C, H>(w: World<C, H>, h: H, c: C, order: seq<C>): seq<Reply>
    requires c in w.clients && h in w.channels
    requires forall m :: m in order ==> m in w.clients && m in w.channels[h].members
  {
    [TopicReply(w.channels[h].topic)] + NamesReplies(w, h, c, order)
  }

  lemma ReplayGreeting<C, H>(w: World<C, H>, log: seq<Reply>, h: H, c: C, order: seq<C>)
    requires c in w.clients && h in w.channels && NamedMembers(w, h)
    requires Enumerates(order, w.channels[h].members.Keys)
    requires forall m :: m in order ==> m in w.clients && m in w.channels[h].members
    ensures Replay(log + Greeting(w, h, c, order)) == AddNicks(Replay(log), w.channels[h].name, NicksOn(w, h))
  {
    hide Replay, AddNicks, NamesReplies, NicksOn, NamedMembers;
    var topic := TopicReply(w.channels[h].topic);
    assert log + Greeting(w, h, c, order) == log + [topic] + NamesReplies(w, h, c, order);
    ReplayNeutral(log, [topic]);
    ReplayNames(w, log + [topic], h, c, order);
  }

  lemma AdmitIs<C, H>(w: World<C, H>, h: H, c: C, order: seq<C>)
    requires c in w.clients && h in w.channels && w.channels[h].members.Keys <= w.clients.Keys
    requires Enumerates(order, w.channels[h].members.Keys + {c})
    ensures forall m :: m in order ==> m in w.channels[h].members || m == c
    ensures forall m :: m in order ==> m in Announced(w, h, c).clients && m in Announced(w, h, c).channels[h].members
    ensures Enumerates(order, Announced(w, h, c).channels[h].members.Keys)
    ensures Admit(w, h, c, order) == Say(Announced(w, h, c), c, Greeting(Announced(w, h, c), h, c, order))
  {
    hide NamesReplies;
    assert forall m :: m in order ==> m in (set t | t in order);
    AnnouncedRecord(w, h, c, c);
    assert forall m :: m in order ==> m in Announced(w, h, c).channels[h].members.Keys;
  }

  lemma AnnouncedLocals<C, H>(w: World<C, H>, h: H, c: C)
    requires LocalsOk(w) && MembersOk(w) && MayEnter(w, h, c)
    ensures LocalsOk(Announced(w, h, c))
  {
    hide LocalOk, Announced;
    var w' := Announced(w, h, c);
    AnnouncedRecord(w, h, c, c);
    forall m | m in w'.clients
      ensures LocalOk(w'.clients[m])
    {
      AnnouncedRecord(w, h, c, m);
      assert LocalOk(w.clients[m]);
      var client := if m == c then w.clients[c].(channels := w.clients[c].channels + {h}) else w.clients[m];
      EnteringLocal(w.clients[m], client.channels);
      if m == c || m in w.channels[h].members {
        ReceiveLocal(client, Joined(w.clients[c].nick, w.channels[h].name));
      }
    }
  }

  lemma EnteringLocal<H>(client: ClientRec<H>, channels: set<H>)
    requires LocalOk(client) && (client.registered || channels == client.channels)
    ensures LocalOk(client.(channels := channels))
  {
  }

  /** All but the newcomer's own replica are right once it has been announced. */
  lemma AnnouncedKeeps<C, H>(w: World<C, H>, h: H, c: C)
    requires InvBut(w, {h}) && MayEnter(w, h, c)
    ensures var w' := Announced(w, h, c);
            && LocalsOk(w') && NicksOk(w') && MembersOk(w') && NamesOkBut(w', {}) && w'.connections == |Live(w')|
  {
    hide LocalsOk, NicksOk, MembersOk, NamesOkBut, ReplicasOk, Announced, Live;
    var w' := Announced(w, h, c);
    AnnouncedLocals(w, h, c);
    AnnouncedGraph(w, h, c);
    AnnouncedNames(w, h, c);
    AnnouncedRecord(w, h, c, c);
    forall m | m in w.clients
      ensures w'.clients[m].nick == w.clients[m].nick && w'.clients[m].hasQuit == w.clients[m].hasQuit
    {
      AnnouncedRecord(w, h, c, m);
    }
    NicksStill(w, w');
  }

  lemma AdmitAdds<C, H>(w: World<C, H>, h: H, c: C, order: seq<C>)
    requires MayEnter(w, h, c) && w.channels[h].members.Keys <= w.clients.Keys
    requires Enumerates(order, w.channels[h].members.Keys + {c})
    requires forall x :: x in order ==> x in w.channels[h].members || x == c
    ensures Added(w, Announced(w, h, c), h, c) && Added(w, Admit(w, h, c, order), h, c)
  {
    hide Greeting, Announced, Admit;
    var w1 := Announced(w, h, c);
    AdmitIs(w, h, c, order);
    AnnouncedRecord(w, h, c, c);
    forall x | x in w.clients
      ensures w1.clients[x].nick == w.clients[x].nick
    {
      AnnouncedRecord(w, h, c, x);
    }
  }

  /** The log of any client after a JOIN, replayed. */
  lemma AdmitReplay<C, H>(w: World<C, H>, h: H, c: C, order: seq<C>, m: C)
    requires InvBut(w, {h}) && MayEnter(w, h, c) && m in w.clients && !w.clients[m].hasQuit
    requires w.channels[h].members.Keys <= w.clients.Keys
    requires Enumerates(order, w.channels[h].members.Keys + {c})
    requires forall x :: x in order ==> x in w.channels[h].members || x == c
    ensures m in Admit(w, h, c, order).clients && h in Admit(w, h, c, order).channels
    ensures var view, name := Replay(w.clients[m].log), w.channels[h].name;
            var noted := Observe(view, Joined(w.clients[c].nick, name));
            Replay(Admit(w, h, c, order).clients[m].log) ==
            if m == c then AddNicks(noted, name, NicksOn(Admit(w, h, c, order), h))
            else if m in w.channels[h].members then noted else view
  {
    hide LocalsOk, NicksOk, MembersOk, NamesOkBut, ReplicasOk, Live, Replay, Announced, Greeting, NicksOn, Observe, AddNicks, Admit, NamedMembers, Enumerates;
    var w1, w' := Announced(w, h, c), Admit(w, h, c, order);
    AdmitIs(w, h, c, order);
    AnnouncedRecord(w, h, c, m);
    ReceiveOne(w.clients[m], Joined(w.clients[c].nick, w.channels[h].name));
    if m == c {
      AnnouncedKeeps(w, h, c);
      MembersAreNamed(w1, h);
      AdmitAdds(w, h, c, order);
      AddedOn(w, w1, h, c, h);
      AddedOn(w, w', h, c, h);
      ReplayGreeting(w1, w1.clients[c].log, h, c, order);
    }
  }

  lemma AdmitAgrees<C, H>(w: World<C, H>, h: H, c: C, order: seq<C>, m: C)
    requires InvBut(w, {h}) && MayEnter(w, h, c) && m in w.clients && !w.clients[m].hasQuit && w.clients[m].registered
    requires w.channels[h].members.Keys <= w.clients.Keys
    requires Enumerates(order, w.channels[h].members.Keys + {c})
    requires forall x :: x in order ==> x in w.channels[h].members || x == c
    ensures m in Admit(w, h, c, order).clients && Agrees(Admit(w, h, c, order), m)
  {
    hide LocalOk, NicksOk, MembersOk, NamesOkBut, Replay, Agrees, NicksOn, Observe, AddNicks, Admit, Added, Enumerates;
    assert LocalOk(w.clients[c]) && Agrees(w, m);
    AdmitReplay(w, h, c, order, m);
    AdmitAdds(w, h, c, order);
    RegisteredHasNick(w.clients[c]);
    if m == c {
      NewcomerLearns(w, Admit(w, h, c, order), h, c);
    } else {
      if w.clients[m].nick == w.clients[c].nick {
        NickUnique(w, m, c);
      }
      AddedAgrees(w, Admit(w, h, c, order), h, c, m);
    }
  }

  lemma GreetedLocal<C, H>(w: World<C, H>, h: H, c: C, order: seq<C>)
    requires c in w.clients && h in w.channels && NamedMembers(w, h)
    requires Enumerates(order, w.channels[h].members.Keys)
    requires forall m :: m in order ==> m in w.clients && m in w.channels[h].members
    requires LocalOk(w.clients[c]) && w.clients[c].registered
    ensures LocalOk(Receive(w.clients[c], Greeting(w, h, c, order)))
  {
    hide Replay, Greeting, NicksOn, NamedMembers;
    ReplayGreeting(w, w.clients[c].log, h, c, order);
  }

  /** Greeting a member of a channel changes nothing but its own record. */
  lemma GreetedParts<C, H>(w: World<C, H>, h: H, c: C, order: seq<C>)
    requires LocalsOk(w) && NicksOk(w) && MembersOk(w) && NamesOkBut(w, {})
    requires c in w.clients && w.clients[c].registered && h in w.channels
    requires Enumerates(order, w.channels[h].members.Keys)
    requires forall m :: m in order ==> m in w.clients && m in w.channels[h].members
    ensures var w' := Say(w, c, Greeting(w, h, c, order));
            && LocalsOk(w') && NicksOk(w') && MembersOk(w') && NamesOkBut(w', {}) && Live(w') == Live(w)
  {
    hide LocalOk, NicksOk, MembersOk, NamesOkBut, Greeting, Live, NamedMembers, Enumerates;
    var w' := Say(w, c, Greeting(w, h, c, order));
    MembersAreNamed(w, h);
    GreetedLocal(w, h, c, order);
    NicksStill(w, w');
    GraphStill(w, w');
    NamesStill(w, w');
  }

  lemma AdmitKeeps<C, H>(w: World<C, H>, h: H, c: C, order: seq<C>)
    requires InvBut(w, {h}) && MayEnter(w, h, c)
    requires w.channels[h].members.Keys <= w.clients.Keys
    requires Enumerates(order, w.channels[h].members.Keys + {c})
    requires forall x :: x in order ==> x in w.channels[h].members || x == c
    ensures Inv(Admit(w, h, c, order))
  {
    hide LocalsOk, NicksOk, MembersOk, NamesOkBut, Announced, Greeting, Agrees, Live, Admit, Enumerates;
    var w1, w' := Announced(w, h, c), Admit(w, h, c, order);
    AdmitIs(w, h, c, order);
    AnnouncedKeeps(w, h, c);
    AnnouncedRecord(w, h, c, c);
    GreetedParts(w1, h, c, order);
    forall m | m in w'.clients && !w'.clients[m].hasQuit && w'.clients[m].registered
      ensures Agrees(w', m)
    {
      AnnouncedRecord(w, h, c, m);
      AdmitAgrees(w, h, c, order, m);
    }
  }
}
