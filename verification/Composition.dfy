/** How the elementary changes of the state add up. */
module Composition {
  import opened Names
  import opened Modes
  import opened Strings
  import opened ServerState

  lemma SayTwice<C, H>(w: World<C, H>, c: C, first: seq<Reply>, more: seq<Reply>)
    requires c in w.clients
    ensures Say(Say(w, c, first), c, more) == Say(w, c, first + more)
  {
    if !w.clients[c].hasQuit {
      assert w.clients[c].log + first + more == w.clients[c].log + (first + more);
    }
  }

  lemma SayNothing<C, H>(w: World<C, H>, c: C)
    requires c in w.clients
    ensures Say(w, c, []) == w
  {
    assert w.clients[c].log + [] == w.clients[c].log;
    assert w.clients[c := w.clients[c]] == w.clients;
  }

  lemma BroadcastToNobody<C, H>(w: World<C, H>, reply: Reply)
    ensures Broadcast(w, {}, reply) == w
  {
  }

  lemma SetClientTwice<C, H>(w: World<C, H>, c: C, first: ClientRec<H>, second: ClientRec<H>)
    ensures SetClient(SetClient(w, c, first), c, second) == SetClient(w, c, second)
  {
  }

  lemma StaysClosed<C, H>(w: World<C, H>, w': World<C, H>)
    requires Closed(w) && w'.clients.Keys == w.clients.Keys
    requires w'.channels == w.channels && w'.names == w.names && w'.nicks == w.nicks
    requires forall c :: c in w.clients ==> w'.clients[c].channels == w.clients[c].channels
    ensures Closed(w')
  {
  }

  lemma ReceiveTwice<H>(client: ClientRec<H>, first: seq<Reply>, more: seq<Reply>)
    ensures Receive(Receive(client, first), more) == Receive(client, first + more)
    ensures Receive(client, []) == client
  {
  }

  /** A batch of changes is applied one after the other. */
  lemma ApplyNext<C>(channel: ChannelRec<C>, nicks: map<Name, C>, oper: bool, c: C, changes: seq<ChannelModeChange>, i: nat)
    requires i < |changes|
    ensures var before := ApplyModes(channel, nicks, oper, c, changes[..i]);
            var next := ApplyMode(before.channel, nicks, oper, c, changes[i]);
            && ApplyModes(channel, nicks, oper, c, changes[..i + 1]).channel == next.channel
            && ApplyModes(channel, nicks, oper, c, changes[..i + 1]).applied
               == (if next.applied then before.applied + [changes[i]] else before.applied)
            && ApplyModes(channel, nicks, oper, c, changes[..i + 1]).replies == before.replies + next.replies
  {
    hide ApplyMode;
    assert changes[..i + 1][..i] == changes[..i];
  }

  lemma ApplyNone<C>(channel: ChannelRec<C>, nicks: map<Name, C>, oper: bool, c: C)
    ensures ApplyModes(channel, nicks, oper, c, []) == BatchResult(channel, [], [])
  {
  }

  lemma RepeatNext<T>(n: nat, t: T)
    ensures Repeat(n + 1, t) == Repeat(n, t) + [t]
    ensures Repeat(0, t) == []
  {
  }

  /** An entry of a NAMES line depends on the member's nick and modes alone. */
  lemma NamesEntriesAre<C, H>(w: World<C, H>, h: H, c: C, order: seq<C>, entries: seq<string>)
    requires c in w.clients && h in w.channels && |entries| == |order|
    requires forall m :: m in order ==> m in w.clients && m in w.channels[h].members
    requires forall i :: 0 <= i < |order| ==>
               entries[i] == NamesEntry(NickOrStar(w.clients[order[i]].nick), w.channels[h].members[order[i]],
                                        "multi-prefix" in w.clients[c].capabilities)
    ensures entries == NamesEntries(w, h, c, order)
  {
  }

  /** What was said before makes no difference to NAMES. */
  lemma NamesAfterSay<C, H>(w: World<C, H>, h: H, c: C, order: seq<C>, replies: seq<Reply>)
    requires c in w.clients && h in w.channels
    requires forall m :: m in order ==> m in w.clients && m in w.channels[h].members
    ensures NamesReplies(Say(w, c, replies), h, c, order) == NamesReplies(w, h, c, order)
  {
    var w' := Say(w, c, replies);
    NamesEntriesAre(w, h, c, order, NamesEntries(w', h, c, order));
  }

  /** Lines sent one at a time. */
  lemma SayNextLine<C, H>(w: World<C, H>, c: C, channel: Name, batches: seq<seq<string>>, i: nat)
    requires c in w.clients && i < |batches|
    ensures Say(Say(w, c, NamesLines(channel, batches[..i])), c, [NamesLine(channel, batches[i])])
         == Say(w, c, NamesLines(channel, batches[..i + 1]))
  {
    hide Say;
    SayTwice(w, c, NamesLines(channel, batches[..i]), [NamesLine(channel, batches[i])]);
    assert NamesLines(channel, batches[..i + 1]) == NamesLines(channel, batches[..i]) + [NamesLine(channel, batches[i])];
  }

  /** Nor to LUSERS. */
  lemma LUsersAfterSay<C, H>(w: World<C, H>, c: C, replies: seq<Reply>)
    requires c in w.clients
    ensures LUsers(Say(w, c, replies)) == LUsers(w)
  {
  }

  // ---------------------------------------------------------------------- quitting

  lemma LeaveNone<C, H>(w: World<C, H>, c: C)
    ensures LeaveChannels(w, c, {}) == w
  {
  }

  lemma LeaveOneMoreNames<C, H>(w: World<C, H>, c: C, some: set<H>, h: H)
    requires h in w.channels && h !in some
    ensures ChannelQuit(LeaveChannels(w, c, some), h, c).names == LeaveChannels(w, c, some + {h}).names
  {
  }

  /** Leaving channels one at a time is leaving them all. */
  lemma LeaveOneMore<C, H>(w: World<C, H>, c: C, some: set<H>, h: H)
    requires h in w.channels && h !in some
    ensures ChannelQuit(LeaveChannels(w, c, some), h, c) == LeaveChannels(w, c, some + {h})
  {
    LeaveOneMoreNames(w, c, some, h);
    assert ChannelQuit(LeaveChannels(w, c, some), h, c).channels == LeaveChannels(w, c, some + {h}).channels;
  }

  /** What leaving does to channels and names does not depend on the rest. */
  lemma LeaveIsLocal<C, H>(w: World<C, H>, w': World<C, H>, c: C, some: set<H>)
    requires w'.channels == w.channels && w'.names == w.names
    ensures LeaveChannels(w', c, some)
         == w'.(channels := LeaveChannels(w, c, some).channels, names := LeaveChannels(w, c, some).names)
  {
  }

  /** `Client.destroy` for a client that is marked as having quit. */
  ghost function Destroyed<C, H>(w: World<C, H>, c: C): World<C, H>
    requires c in w.clients
  {
    var client := w.clients[c];
    SetClient(
      LeaveChannels(w, c, client.channels).(
        connections := w.connections - 1,
        nicks := IndexRemove(w.nicks, c, client.nick)),
      c, client.(closed := true))
  }

  /** `Client.Quit` up to the messages to friends. */
  ghost function Withdrawn<C, H>(w: World<C, H>, c: C): World<C, H>
    requires c in w.clients
  {
    var client := w.clients[c];
    Destroyed(SetClient(w, c, client.(hasQuit := true)).(whoWas := w.whoWas + [NickOrStar(client.nick)]), c)
  }

  lemma SameFriends<C, H>(w: World<C, H>, w': World<C, H>, c: C)
    requires c in w.clients && c in w'.clients
    requires w'.channels == w.channels && w'.clients[c].channels == w.clients[c].channels
    ensures Friends(w', c) == Friends(w, c)
  {
  }

  lemma QuitInSteps<C, H>(w: World<C, H>, c: C)
    requires c in w.clients && !w.clients[c].hasQuit
    ensures Quit(w, c) == Broadcast(Withdrawn(w, c), Friends(w, c) - {c}, HasQuit(w.clients[c].nick))
  {
    hide LeaveChannels, Broadcast, Friends, IndexRemove;
    var client := w.clients[c];
    var w1 := SetClient(w, c, client.(hasQuit := true)).(whoWas := w.whoWas + [NickOrStar(client.nick)]);
    LeaveIsLocal(w, w1, c, client.channels);
    var gone := client.(hasQuit := true, closed := true);
    LeaveIsLocal(w, SetClient(w, c, gone), c, client.channels);
    assert w1.clients[c := gone] == w.clients[c := gone];
  }
}
