/** Connecting, registering and changing nicks keep the invariant. */
module NickSteps {
  import opened Names
  import opened Modes
  import opened Strings
  import opened ServerState
  import opened Replica
  import opened Invariants
  import opened QuietSteps
  import Sasl

  /** Clients may come, register or take a nick without touching the membership graph. */
  ghost predicate GraphKept<C, H>(w: World<C, H>, w': World<C, H>) {
    && w'.channels == w.channels
    && w'.names == w.names
    && (forall m :: m in w.clients ==>
      && m in w'.clients
      && w'.clients[m].channels == w.clients[m].channels
      && w'.clients[m].hasQuit == w.clients[m].hasQuit
      && (w.clients[m].registered ==> w'.clients[m].registered))
    && (forall m :: m in w'.clients && m !in w.clients ==> w'.clients[m].channels == {})
  }

  lemma GraphStill<C, H>(w: World<C, H>, w': World<C, H>)
    requires MembersOk(w) && GraphKept(w, w')
    ensures MembersOk(w')
  {
  }

  lemma NamesStill<C, H>(w: World<C, H>, w': World<C, H>)
    requires NamesOkBut(w, {}) && w'.channels == w.channels && w'.names == w.names
    ensures NamesOkBut(w', {})
  {
  }

  lemma StillMembers<C, H>(w: World<C, H>, w': World<C, H>)
    requires MembersOk(w) && NamesOkBut(w, {}) && GraphKept(w, w')
    ensures MembersOk(w') && NamesOkBut(w', {})
  {
    hide MembersOk, NamesOkBut;
    GraphStill(w, w');
    NamesStill(w, w');
  }

  /** A replica still agrees if only a client on no channel has changed. */
  lemma StillAgrees<C, H>(w: World<C, H>, w': World<C, H>, m: C, c: C)
    requires MembersOk(w) && m in w.clients && Agrees(w, m) && m != c
    requires c in w.clients ==> !w.clients[c].registered
    requires w'.channels == w.channels && w'.names == w.names && w.clients.Keys <= w'.clients.Keys
    requires forall x :: x in w.clients && x != c ==> w'.clients[x] == w.clients[x]
    ensures Agrees(w', m)
  {
    hide Replay;
    forall h | h in w.channels
      ensures NicksOn(w', h) == NicksOn(w, h)
    {
      assert forall x :: x in w.channels[h].members ==> x in w.clients && x != c;
    }
    forall name | name in Replay(w'.clients[m].log).members
      ensures IsOn(w', m, name)
    {
      assert IsOn(w, m, name);
    }
  }

  lemma StillReplicas<C, H>(w: World<C, H>, w': World<C, H>, c: C)
    requires MembersOk(w) && ReplicasOk(w) && (c in w.clients ==> !w.clients[c].registered)
    requires w'.channels == w.channels && w'.names == w.names && w'.clients.Keys == w.clients.Keys + {c}
    requires forall x :: x in w.clients && x != c ==> w'.clients[x] == w.clients[x]
    requires !w'.clients[c].hasQuit && w'.clients[c].registered ==> Agrees(w', c)
    ensures ReplicasOk(w')
  {
    hide Agrees, MembersOk;
    forall m | m in w'.clients && !w'.clients[m].hasQuit && w'.clients[m].registered
      ensures Agrees(w', m)
    {
      if m != c {
        StillAgrees(w, w', m, c);
      }
    }
  }

  /** A new client without a nick adds nothing to the index. */
  lemma ConnectIndex<C, H>(w: World<C, H>, w': World<C, H>, c: C, client: ClientRec<H>)
    requires NicksOk(w) && LocalsOk(w) && c !in w.clients && client.nick == "" && !client.hasQuit && LocalOk(client)
    requires w'.clients == w.clients[c := client] && w'.nicks == w.nicks
    ensures NicksOk(w') && LocalsOk(w')
  {
  }

  lemma NewClientLocal<H>(secure: bool, hostname: Name, noPassword: bool)
    ensures var client: ClientRec<H> := NewClient(secure, hostname, noPassword);
            && LocalOk(client)
            && client.nick == "" && !client.hasQuit && !client.registered && client.channels == {}
  {
  }

  lemma ConnectParts<C, H>(w: World<C, H>, w': World<C, H>, c: C, client: ClientRec<H>)
    requires LocalsOk(w) && NicksOk(w) && MembersOk(w) && NamesOkBut(w, {}) && ReplicasOk(w)
    requires c !in w.clients && LocalOk(client)
    requires client.nick == "" && !client.hasQuit && !client.registered && client.channels == {}
    requires w' == SetClient(w, c, client).(connections := w'.connections)
    ensures LocalsOk(w') && NicksOk(w') && MembersOk(w') && NamesOkBut(w', {}) && ReplicasOk(w')
  {
    hide LocalsOk, NicksOk, MembersOk, NamesOkBut, ReplicasOk, Live, LocalOk, Agrees;
    ConnectIndex(w, w', c, client);
    StillMembers(w, w');
    StillReplicas(w, w', c);
  }

  lemma ConnectCount<C, H>(w: World<C, H>, w': World<C, H>, c: C, client: ClientRec<H>)
    requires c !in w.clients && !client.hasQuit && w'.clients == w.clients[c := client]
    ensures |Live(w')| == |Live(w)| + 1
  {
    assert Live(w') == Live(w) + {c};
  }

  lemma ConnectKeeps<C, H>(w: World<C, H>, c: C, secure: bool, hostname: Name, noPassword: bool)
    requires Inv(w) && c !in w.clients
    ensures Inv(SetClient(w, c, NewClient(secure, hostname, noPassword)).(connections := w.connections + 1))
  {
    hide LocalsOk, NicksOk, MembersOk, NamesOkBut, ReplicasOk, Live, LocalOk, NewClient;
    var client: ClientRec<H> := NewClient(secure, hostname, noPassword);
    var w' := SetClient(w, c, client).(connections := w.connections + 1);
    NewClientLocal<H>(secure, hostname, noPassword);
    ConnectParts(w, w', c, client);
    ConnectCount(w, w', c, client);
  }

  lemma NickUnique<C, H>(w: World<C, H>, a: C, b: C)
    requires NicksOk(w) && a in w.clients && b in w.clients
    requires !w.clients[a].hasQuit && !w.clients[b].hasQuit
    requires w.clients[a].nick == w.clients[b].nick != ""
    ensures a == b
  {
  }

  // ------------------------------------------------------------- registration

  /** A client that is not registered agrees as soon as it registers with a replica that knows its nick. */
  lemma NewcomerAgrees<C, H>(w: World<C, H>, w': World<C, H>, c: C)
    requires MembersOk(w) && c in w.clients && !w.clients[c].registered
    requires w'.channels == w.channels && c in w'.clients
    requires Replay(w'.clients[c].log).self == w'.clients[c].nick && Replay(w'.clients[c].log).members == map[]
    ensures Agrees(w', c)
  {
  }

  lemma RegisteringIndex<C, H>(w: World<C, H>, c: C, client: ClientRec<H>)
    requires NicksOk(w) && LocalsOk(w) && c in w.clients && LocalOk(client)
    requires client.nick == w.clients[c].nick && client.hasQuit == w.clients[c].hasQuit
    ensures var w' := SetClient(w, c, client);
            NicksOk(w') && LocalsOk(w') && Live(w') == Live(w)
  {
    hide LocalOk;
  }

  /** Completing a registration: the client is on no channel, and its replica learns its nick. */
  lemma RegisteringKeeps<C, H>(w: World<C, H>, c: C, client: ClientRec<H>)
    requires Inv(w) && c in w.clients && !w.clients[c].registered
    requires client.nick == w.clients[c].nick && client.hasQuit == w.clients[c].hasQuit
    requires client.channels == w.clients[c].channels
    requires client.registered && LocalOk(client)
    requires Replay(client.log).self == client.nick && Replay(client.log).members == map[]
    ensures Inv(SetClient(w, c, client))
  {
    hide LocalsOk, LocalOk, NicksOk, Live, Replay, MembersOk, NamesOkBut, ReplicasOk, Agrees;
    var w' := SetClient(w, c, client);
    RegisteringIndex(w, c, client);
    StillMembers(w, w');
    NewcomerAgrees(w, w', c);
    StillReplicas(w, w', c);
  }

  lemma ReplayWelcome(log: seq<Reply>, nick: Name, rest: seq<Reply>)
    requires AllNeutral(rest)
    ensures Replay(log + ([Welcome(nick)] + rest)) == Observe(Replay(log), Welcome(nick))
  {
    ReplayOne(log, Welcome(nick));
    ReplayNeutral(log + [Welcome(nick)], rest);
    assert log + ([Welcome(nick)] + rest) == log + [Welcome(nick)] + rest;
  }

  lemma RegisteredLocal<H>(client: ClientRec<H>, replies: seq<Reply>)
    requires LocalOk(client) && !client.registered && client.nick != "" && client.username != ""
    requires client.capState != CapNegotiating && AllNeutral(replies)
    ensures var final := client.(registered := true, modes := client.modes + {HOST_MASK},
                                 log := client.log + ([Welcome(client.nick)] + replies));
            && LocalOk(final)
            && Replay(final.log).self == final.nick
            && Replay(final.log).members == map[]
  {
    ReplayWelcome(client.log, client.nick, replies);
    hide Replay;
  }

  /** The replies that complete a registration, after the welcome. */
  ghost function Burst<C, H>(w: World<C, H>): seq<Reply> {
    [Numeric(2), Numeric(3), Numeric(4)] + LUsers(w) + [Message("MOTD")]
  }

  lemma BurstNeutral<C, H>(w: World<C, H>)
    ensures AllNeutral(Burst(w))
  {
  }

  predicate Registrable<H>(client: ClientRec<H>) {
    !client.registered && client.nick != "" && client.username != "" && client.capState != CapNegotiating
  }

  lemma TryRegisterIs<C, H>(w: World<C, H>, c: C)
    requires c in w.clients && !w.clients[c].hasQuit
    ensures var client := w.clients[c];
            var registered := client.(registered := true, modes := client.modes + {HOST_MASK});
            TryRegister(w, c) ==
            if !Registrable(client) then w
            else SetClient(w, c, registered.(
              log := client.log + ([Welcome(client.nick)] + Burst(SetClient(w, c, registered)))))
  {
    hide LUsers;
    var client := w.clients[c];
    var w1 := SetClient(w, c, client.(registered := true, modes := client.modes + {HOST_MASK}));
    assert [Welcome(client.nick), Numeric(2), Numeric(3), Numeric(4)] + LUsers(w1) + [Message("MOTD")]
        == [Welcome(client.nick)] + Burst(w1);
  }

  lemma TryRegisterKeeps<C, H>(w: World<C, H>, c: C)
    requires Inv(w) && c in w.clients && !w.clients[c].hasQuit
    ensures Inv(TryRegister(w, c))
  {
    hide LocalOk, Replay, TryRegister, Burst, NicksOk, MembersOk, NamesOkBut, ReplicasOk, Live;
    var client := w.clients[c];
    assert LocalOk(client);
    TryRegisterIs(w, c);
    if Registrable(client) {
      var registered := client.(registered := true, modes := client.modes + {HOST_MASK});
      var burst := Burst(SetClient(w, c, registered));
      BurstNeutral(SetClient(w, c, registered));
      RegisteredLocal(client, burst);
      RegisteringKeeps(w, c, registered.(log := client.log + ([Welcome(client.nick)] + burst)));
    }
  }

  lemma FirstNickIndex<C, H>(w: World<C, H>, c: C, nick: Name)
    requires NicksOk(w) && LocalsOk(w) && c in w.clients && !w.clients[c].hasQuit
    requires w.clients[c].nick == "" && w.clients[c].authorized
    requires nick != "" && IsNickname(nick) && !Taken(w, nick)
    ensures var w' := SetClient(w, c, w.clients[c].(nick := nick)).(nicks := IndexAdd(w.nicks, c, nick));
            LocalsOk(w') && NicksOk(w') && Live(w') == Live(w)
  {
    hide LocalOk, IsNickname;
    FirstNickLocal(w.clients[c], nick);
  }

  lemma FirstNickLocal<H>(client: ClientRec<H>, nick: Name)
    requires client.nick == "" && client.authorized && nick != "" && IsNickname(nick)
    ensures LocalOk(client) ==> LocalOk(client.(nick := nick))
  {
  }

  /** A first nick, taken while registering. */
  lemma FirstNickKeeps<C, H>(w: World<C, H>, c: C, nick: Name)
    requires Inv(w) && c in w.clients && !w.clients[c].hasQuit && !w.clients[c].registered
    requires w.clients[c].nick == "" && w.clients[c].authorized
    requires nick != "" && IsNickname(nick) && !Taken(w, nick)
    ensures Inv(SetClient(w, c, w.clients[c].(nick := nick)).(nicks := IndexAdd(w.nicks, c, nick)))
  {
    hide LocalsOk, NicksOk, MembersOk, NamesOkBut, ReplicasOk, Agrees, Live, IsNickname;
    var w' := SetClient(w, c, w.clients[c].(nick := nick)).(nicks := IndexAdd(w.nicks, c, nick));
    FirstNickIndex(w, c, nick);
    StillMembers(w, w');
    StillReplicas(w, w', c);
  }

  /** Taking a client out of the index and putting it back changes nothing. */
  lemma ReindexSame<C, H>(w: World<C, H>, c: C)
    requires NicksOk(w) && c in w.clients && !w.clients[c].hasQuit
    ensures IndexAdd(IndexRemove(w.nicks, c, w.clients[c].nick), c, w.clients[c].nick) == w.nicks
  {
  }

  lemma UserInfoKeeps<C, H>(w: World<C, H>, c: C, username: Name, flags: set<UserMode>)
    requires Inv(w) && c in w.clients && !w.clients[c].hasQuit && !w.clients[c].registered && w.clients[c].authorized
    requires SECURE_CONN !in flags
    ensures var w1 := if flags == {} then w
                      else Say(SetClient(w, c, w.clients[c].(modes := w.clients[c].modes + flags)), c, [Numeric(221)]);
            var nick := w1.clients[c].nick;
            Inv(SetClient(w1, c, w1.clients[c].(username := username)).(
              nicks := IndexAdd(IndexRemove(w1.nicks, c, nick), c, nick)))
  {
    hide Similar, Replay, ReplicasOk, NamesOkBut, MembersOk;
    var w0 := if flags == {} then w else SetClient(w, c, w.clients[c].(modes := w.clients[c].modes + flags));
    var w1 := if flags == {} then w else Say(w0, c, [Numeric(221)]);
    SimilarSelf(w);
    if flags != {} {
      SetAndSay(w, c, w.clients[c].(modes := w.clients[c].modes + flags), [Numeric(221)]);
    }
    SimilarKeeps(w, w1, {});
    var client := w1.clients[c].(username := username);
    SetClientSimilar(w1, c, client);
    SimilarKeeps(w1, SetClient(w1, c, client), {});
    ReindexSame(w1, c);
  }

  // ---------------------------------------------------------------- nick changes

  /** A new nick is legal, and free but for the client itself. */
  ghost predicate MayTake<C, H>(w: World<C, H>, c: C, nick: Name) {
    && nick != "" && IsNickname(nick)
    && (Taken(w, nick) ==> w.nicks[LOWER(nick)] == c)
  }

  lemma RenamedIndex<C, H>(w: World<C, H>, w': World<C, H>, c: C, nick: Name)
    requires NicksOk(w) && c in w.clients && !w.clients[c].hasQuit && w.clients[c].nick != "" && MayTake(w, c, nick)
    requires w'.clients.Keys == w.clients.Keys
    requires forall m :: m in w.clients ==>
      w'.clients[m].hasQuit == w.clients[m].hasQuit && w'.clients[m].nick == if m == c then nick else w.clients[m].nick
    requires w'.nicks == IndexAdd(IndexRemove(w.nicks, c, w.clients[c].nick), c, nick)
    ensures NicksOk(w')
  {
    var key, key' := LOWER(w.clients[c].nick), LOWER(nick);
    assert w.nicks[key] == c;
    assert key' in w.nicks ==> key' == key;
    assert w'.nicks == (w.nicks - {key})[key' := c];
    forall m | m in w.clients && !w.clients[m].hasQuit && w'.clients[m].nick != ""
      ensures LOWER(w'.clients[m].nick) in w'.nicks && w'.nicks[LOWER(w'.clients[m].nick)] == m
    {
      assert m != c ==> w.nicks[LOWER(w.clients[m].nick)] == m;
    }
  }

  /** On a channel only the client itself has its nick. */
  lemma OnlyHolder<C, H>(w: World<C, H>, h: H, c: C)
    requires NicksOk(w) && MembersOk(w)
    requires h in w.channels && c in w.clients && !w.clients[c].hasQuit && w.clients[c].nick != ""
    ensures forall m :: m in w.channels[h].members && m in w.clients && w.clients[m].nick == w.clients[c].nick ==> m == c
    ensures w.clients[c].nick in NicksOn(w, h) <==> c in w.channels[h].members
  {
  }

  /** The nicks on a channel after a nick change. */
  lemma RenamedOn<C, H>(w: World<C, H>, w': World<C, H>, h: H, c: C, nick: Name)
    requires NicksOk(w) && MembersOk(w)
    requires h in w.channels && c in w.clients && !w.clients[c].hasQuit && w.clients[c].nick != ""
    requires w'.channels == w.channels && w'.clients.Keys == w.clients.Keys
    requires forall m :: m in w.clients ==> w'.clients[m].nick == if m == c then nick else w.clients[m].nick
    ensures NicksOn(w', h) == Renaming(NicksOn(w, h), w.clients[c].nick, nick)
    ensures w.clients[c].nick in NicksOn(w, h) <==> c in w.channels[h].members
  {
  }

  /** Whoever shares a channel with a client is among its friends. */
  lemma SharingIsFriendship<C, H>(w: World<C, H>, h: H, c: C, m: C)
    requires MembersOk(w) && h in w.channels && c in w.channels[h].members && m in w.channels[h].members
    ensures c in w.clients && h in w.clients[c].channels && m in Friends(w, c)
  {
  }

  /** What a nick change does to the part of a replica about one channel. */
  lemma RenamedChannel<C, H>(w: World<C, H>, w': World<C, H>, m: C, c: C, nick: Name, view: View, h: H)
    requires NicksOk(w) && MembersOk(w)
    requires h in w.channels && m in w.channels[h].members
    requires w.channels[h].name in view.members && view.members[w.channels[h].name] == NicksOn(w, h)
    requires c in w.clients && !w.clients[c].hasQuit && w.clients[c].nick != ""
    requires w'.channels == w.channels && w'.clients.Keys == w.clients.Keys
    requires forall x :: x in w.clients ==> w'.clients[x].nick == if x == c then nick else w.clients[x].nick
    ensures var view' := if m in Friends(w, c) then Observe(view, Renamed(w.clients[c].nick, nick)) else view;
            w.channels[h].name in view'.members && view'.members[w.channels[h].name] == NicksOn(w', h)
  {
    RenamedOn(w, w', h, c, nick);
    if c in w.channels[h].members {
      SharingIsFriendship(w, h, c, m);
    }
    hide NicksOk, MembersOk, NicksOn, Friends;
  }

  lemma RenamedAgrees<C, H>(w: World<C, H>, w': World<C, H>, m: C, c: C, nick: Name)
    requires NicksOk(w) && MembersOk(w)
    requires m in w.clients && !w.clients[m].hasQuit && w.clients[m].nick != "" && Agrees(w, m)
    requires c in w.clients && !w.clients[c].hasQuit && w.clients[c].nick != ""
    requires w'.channels == w.channels && w'.names == w.names && w'.clients.Keys == w.clients.Keys
    requires forall x :: x in w.clients ==> w'.clients[x].nick == if x == c then nick else w.clients[x].nick
    requires Replay(w'.clients[m].log) ==
             if m in Friends(w, c) then Observe(Replay(w.clients[m].log), Renamed(w.clients[c].nick, nick))
             else Replay(w.clients[m].log)
    ensures Agrees(w', m)
  {
    hide Replay, NicksOn, NicksOk, MembersOk;
    var view, view' := Replay(w.clients[m].log), Replay(w'.clients[m].log);
    if m != c && w.clients[m].nick == w.clients[c].nick {
      NickUnique(w, m, c);
    }
    assert c in Friends(w, c);
    forall h | h in w'.channels && m in w'.channels[h].members
      ensures w'.channels[h].name in view'.members && view'.members[w'.channels[h].name] == NicksOn(w', h)
    {
      RenamedChannel(w, w', m, c, nick, view, h);
    }
    forall name | name in view'.members
      ensures IsOn(w', m, name)
    {
      assert IsOn(w, m, name);
    }
  }

  lemma ReceiveOne<H>(client: ClientRec<H>, reply: Reply)
    requires !client.hasQuit
    ensures Replay(Receive(client, [reply]).log) == Observe(Replay(client.log), reply)
  {
  }

  /** A reply that welcomes nobody leaves a record as good as it was. */
  lemma ReceiveLocal<H>(client: ClientRec<H>, reply: Reply)
    requires LocalOk(client) && !reply.Welcome?
    requires !client.registered ==> !reply.Joined?
    ensures LocalOk(Receive(client, [reply]))
  {
  }

  /** The record of any client after a nick change. */
  lemma ChangeNickRecord<C, H>(w: World<C, H>, c: C, nick: Name, m: C)
    requires c in w.clients && m in w.clients
    ensures var w' := ChangeNick(w, c, nick);
            var client := if m == c then w.clients[c].(nick := nick) else w.clients[m];
            && w'.clients.Keys == w.clients.Keys
            && w'.clients[m] == if m in Friends(w, c) then Receive(client, [Renamed(w.clients[c].nick, nick)]) else client
  {
  }

  lemma ChangeNickClient<C, H>(w: World<C, H>, c: C, nick: Name, m: C)
    requires Inv(w) && c in w.clients && !w.clients[c].hasQuit && w.clients[c].nick != "" && MayTake(w, c, nick)
    requires m in w.clients
    ensures var w' := ChangeNick(w, c, nick);
            && LocalOk(w'.clients[m])
            && (!w'.clients[m].hasQuit && w'.clients[m].registered ==> Agrees(w', m))
  {
    hide Replay, NicksOk, MembersOk, NamesOkBut, IsNickname, LocalOk, Agrees, Friends;
    var w' := ChangeNick(w, c, nick);
    var client := if m == c then w.clients[c].(nick := nick) else w.clients[m];
    var reply := Renamed(w.clients[c].nick, nick);
    forall x | x in w.clients
      ensures w'.clients[x].nick == if x == c then nick else w.clients[x].nick
    {
      ChangeNickRecord(w, c, nick, x);
    }
    ChangeNickRecord(w, c, nick, m);
    RenamedLocal(w.clients[c], nick);
    ReceiveLocal(client, reply);
    if !client.hasQuit && client.registered {
      RegisteredHasNick(w.clients[m]);
      ReceiveOne(client, reply);
      RenamedAgrees(w, w', m, c, nick);
    }
  }

  lemma RegisteredHasNick<H>(client: ClientRec<H>)
    requires LocalOk(client) && client.registered
    ensures client.nick != ""
  {
  }

  lemma ChangeNickKeeps<C, H>(w: World<C, H>, c: C, nick: Name)
    requires Inv(w) && c in w.clients && !w.clients[c].hasQuit && w.clients[c].nick != "" && MayTake(w, c, nick)
    ensures Inv(ChangeNick(w, c, nick))
  {
    hide Agrees, LocalOk, NicksOk, MayTake, Friends, MembersOk, NamesOkBut;
    var w' := ChangeNick(w, c, nick);
    forall m | m in w'.clients
      ensures LocalOk(w'.clients[m])
      ensures !w'.clients[m].hasQuit && w'.clients[m].registered ==> Agrees(w', m)
    {
      ChangeNickClient(w, c, nick, m);
    }
    forall m | m in w.clients
      ensures w'.clients[m].hasQuit == w.clients[m].hasQuit && w'.clients[m].registered == w.clients[m].registered
      ensures w'.clients[m].channels == w.clients[m].channels
      ensures w'.clients[m].nick == if m == c then nick else w.clients[m].nick
    {
      ChangeNickRecord(w, c, nick, m);
    }
    assert Live(w') == Live(w);
    RenamedIndex(w, w', c, nick);
    StillMembers(w, w');
  }

  lemma RenamedLocal<H>(client: ClientRec<H>, nick: Name)
    requires LocalOk(client) && client.nick != "" && nick != "" && IsNickname(nick)
    ensures LocalOk(client.(nick := nick))
  {
  }
}
