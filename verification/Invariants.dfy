/** What every command keeps: the two indexes, the membership graph, registration, and the clients' replicas. */
module Invariants {
  import opened Names
  import opened Modes
  import opened Strings
  import opened ServerState
  import opened Replica
  import Sasl

  // ------------------------------------------------------------- the invariant

  /** What holds of one client record on its own. */
  ghost predicate LocalOk<H>(client: ClientRec<H>) {
    && client.closed == client.hasQuit
    && (client.nick != "" ==> client.authorized && IsNickname(client.nick))
    && (client.username != "" ==> client.authorized)
    && (client.registered ==> client.nick != "" && client.username != "" && client.capState != CapNegotiating)
    && client.capabilities <= SUPPORTED_CAPABILITIES
    && (SECURE_CONN in client.modes <==> client.secure)
    && Sasl.Consistent(client.sasl)
    && (!client.registered ==> client.channels == {} && Replay(client.log).members == map[])
    && Replay(client.log).welcomes == (if client.registered then 1 else 0)
  }

  ghost predicate LocalsOk<C, H>(w: World<C, H>) {
    forall c :: c in w.clients ==> LocalOk(w.clients[c])
  }

  /** The nick index is a bijection between folded nicks and the live clients that have one. */
  ghost predicate NicksOk<C, H>(w: World<C, H>) {
    && (forall k :: k in w.nicks ==>
      && w.nicks[k] in w.clients
      && !w.clients[w.nicks[k]].hasQuit
      && w.clients[w.nicks[k]].nick != ""
      && LOWER(w.clients[w.nicks[k]].nick) == k)
    && (forall c :: c in w.clients && !w.clients[c].hasQuit && w.clients[c].nick != "" ==>
      && LOWER(w.clients[c].nick) in w.nicks
      && w.nicks[LOWER(w.clients[c].nick)] == c)
  }

  ghost predicate MembersOk<C, H>(w: World<C, H>) {
    && (forall h, m :: h in w.channels && m in w.channels[h].members ==>
      && m in w.clients
      && w.clients[m].registered
      && !w.clients[m].hasQuit
      && h in w.clients[m].channels)
    && (forall c, h :: c in w.clients && h in w.clients[c].channels ==> h in w.channels)
  }

  /** A channel has members exactly if it is indexed under its own name; `spared` may be indexed without members. */
  ghost predicate NamesOkBut<C, H>(w: World<C, H>, spared: set<H>) {
    && (forall k :: k in w.names ==>
      && w.names[k] in w.channels
      && LOWER(w.channels[w.names[k]].name) == k
      && (w.names[k] in spared || w.channels[w.names[k]].members != map[]))
    && (forall h :: h in w.channels && w.channels[h].members != map[] ==>
      && LOWER(w.channels[h].name) in w.names
      && w.names[LOWER(w.channels[h].name)] == h)
  }

  ghost function Live<C, H>(w: World<C, H>): set<C> {
    set c | c in w.clients && !w.clients[c].hasQuit
  }

  ghost function NicksOn<C, H>(w: World<C, H>, h: H): set<Name>
    requires h in w.channels
  {
    set m | m in w.channels[h].members && m in w.clients :: w.clients[m].nick
  }

  /** The channel indexed under the name `k` has exactly this name and `c` on it. */
  ghost predicate IsOn<C, H>(w: World<C, H>, c: C, name: Name) {
    && LOWER(name) in w.names
    && w.names[LOWER(name)] in w.channels
    && w.channels[w.names[LOWER(name)]].name == name
    && c in w.channels[w.names[LOWER(name)]].members
  }

  /** The replica knows the client's nick, the channels it is on, and who is on them. */
  ghost predicate Agrees<C, H>(w: World<C, H>, c: C)
    requires c in w.clients
  {
    var view := Replay(w.clients[c].log);
    && view.self == w.clients[c].nick
    && (forall h :: h in w.channels && c in w.channels[h].members ==>
      w.channels[h].name in view.members && view.members[w.channels[h].name] == NicksOn(w, h))
    && (forall name :: name in view.members ==> IsOn(w, c, name))
  }

  ghost predicate ReplicasOk<C, H>(w: World<C, H>) {
    forall c :: c in w.clients && !w.clients[c].hasQuit && w.clients[c].registered ==> Agrees(w, c)
  }

  ghost predicate InvBut<C, H>(w: World<C, H>, spared: set<H>) {
    && LocalsOk(w)
    && NicksOk(w)
    && MembersOk(w)
    && NamesOkBut(w, spared)
    && w.connections == |Live(w)|
    && ReplicasOk(w)
  }

  ghost predicate Inv<C, H>(w: World<C, H>) {
    InvBut(w, {})
  }

  lemma InvClosed<C, H>(w: World<C, H>, spared: set<H>)
    requires InvBut(w, spared)
    ensures Closed(w)
  {
    hide LocalsOk, ReplicasOk;
    forall c | c in w.clients
      ensures w.clients[c].channels <= w.channels.Keys
    {
    }
    forall h | h in w.channels
      ensures w.channels[h].members.Keys <= w.clients.Keys
    {
    }
  }

  // ------------------------------------------- changes the invariant does not see

  /** Nothing the global part of the invariant depends on has changed. */
  ghost predicate SameClient<H>(a: ClientRec<H>, b: ClientRec<H>) {
    && a.nick == b.nick
    && a.registered == b.registered
    && a.hasQuit == b.hasQuit
    && a.channels == b.channels
    && Replay(a.log) == Replay(b.log)
    && (LocalOk(a) ==> LocalOk(b))
  }

  ghost predicate SameChannel<C>(a: ChannelRec<C>, b: ChannelRec<C>) {
    a.name == b.name && a.members.Keys == b.members.Keys
  }

  ghost predicate Similar<C, H>(w: World<C, H>, w': World<C, H>) {
    && w'.clients.Keys == w.clients.Keys
    && w'.channels.Keys == w.channels.Keys
    && w'.nicks == w.nicks
    && w'.names == w.names
    && w'.connections == w.connections
    && (forall c :: c in w.clients ==> SameClient(w.clients[c], w'.clients[c]))
    && (forall h :: h in w.channels ==> SameChannel(w.channels[h], w'.channels[h]))
  }

  lemma SimilarAgrees<C, H>(w: World<C, H>, w': World<C, H>, c: C)
    requires Similar(w, w') && c in w.clients && Agrees(w, c)
    ensures Agrees(w', c)
  {
    forall h | h in w.channels
      ensures NicksOn(w', h) == NicksOn(w, h)
    {
      assert SameChannel(w.channels[h], w'.channels[h]);
    }
    assert SameClient(w.clients[c], w'.clients[c]);
    forall name | name in Replay(w'.clients[c].log).members
      ensures IsOn(w', c, name)
    {
      assert IsOn(w, c, name);
    }
  }

  lemma SimilarKeeps<C, H>(w: World<C, H>, w': World<C, H>, spared: set<H>)
    requires InvBut(w, spared) && Similar(w, w')
    ensures InvBut(w', spared)
  {
    assert Live(w') == Live(w);
    forall c | c in w'.clients && !w'.clients[c].hasQuit && w'.clients[c].registered
      ensures Agrees(w', c)
    {
      assert SameClient(w.clients[c], w'.clients[c]);
      SimilarAgrees(w, w', c);
    }
    SimilarIndex(w, w');
    SimilarMembers(w, w');
    SimilarNames(w, w', spared);
  }

  lemma SimilarIndex<C, H>(w: World<C, H>, w': World<C, H>)
    requires LocalsOk(w) && NicksOk(w) && Similar(w, w')
    ensures LocalsOk(w') && NicksOk(w')
  {
  }

  lemma SimilarMembers<C, H>(w: World<C, H>, w': World<C, H>)
    requires MembersOk(w) && Similar(w, w')
    ensures MembersOk(w')
  {
  }

  lemma SimilarNames<C, H>(w: World<C, H>, w': World<C, H>, spared: set<H>)
    requires NamesOkBut(w, spared) && Similar(w, w')
    ensures NamesOkBut(w', spared)
  {
  }

  lemma SimilarTwice<C, H>(a: World<C, H>, b: World<C, H>, c: World<C, H>)
    requires Similar(a, b) && Similar(b, c)
    ensures Similar(a, c)
  {
    forall x | x in a.clients
      ensures SameClient(a.clients[x], c.clients[x])
    {
      assert SameClient(a.clients[x], b.clients[x]) && SameClient(b.clients[x], c.clients[x]);
    }
    forall h | h in a.channels
      ensures SameChannel(a.channels[h], c.channels[h])
    {
      assert SameChannel(a.channels[h], b.channels[h]) && SameChannel(b.channels[h], c.channels[h]);
    }
  }

  lemma ReceiveSame<H>(client: ClientRec<H>, replies: seq<Reply>)
    requires AllNeutral(replies)
    ensures SameClient(client, Receive(client, replies))
  {
    ReplayNeutral(client.log, replies);
  }

  lemma SaySimilar<C, H>(w: World<C, H>, c: C, replies: seq<Reply>)
    requires c in w.clients && AllNeutral(replies)
    ensures Similar(w, Say(w, c, replies))
  {
    ReceiveSame(w.clients[c], replies);
  }

  lemma BroadcastSimilar<C, H>(w: World<C, H>, to: set<C>, reply: Reply)
    requires Neutral(reply)
    ensures Similar(w, Broadcast(w, to, reply))
  {
    forall c | c in w.clients
      ensures SameClient(w.clients[c], Broadcast(w, to, reply).clients[c])
    {
      ReceiveSame(w.clients[c], [reply]);
    }
  }

  lemma SetClientSimilar<C, H>(w: World<C, H>, c: C, client: ClientRec<H>)
    requires c in w.clients && SameClient(w.clients[c], client)
    ensures Similar(w, SetClient(w, c, client))
  {
  }

  lemma SetChannelSimilar<C, H>(w: World<C, H>, h: H, channel: ChannelRec<C>)
    requires h in w.channels && SameChannel(w.channels[h], channel)
    ensures Similar(w, SetChannel(w, h, channel))
  {
  }
}
