/** Who may change a channel, and who is its creator. */
module Authority {
  import opened Names
  import opened Modes
  import opened Strings
  import opened ServerState
  import opened Invariants
  import opened Runs
  import opened Effects
  import opened ModeBatches

  // ------------------------------------------------------------------- authority

  /** The client is neither an IRC operator nor an operator of the channel. */
  ghost predicate Powerless<C, H>(w: World<C, H>, c: C, h: H)
    requires c in w.clients && h in w.channels
  {
    !IsOperator(OPERATOR in w.clients[c].modes, w.channels[h], c)
  }

  /** Apart from `c` coming or going, the limit, and the topic of a channel without `t`, nothing has changed. */
  ghost predicate Untouched<C>(a: ChannelRec<C>, b: ChannelRec<C>, c: C) {
    && b.name == a.name && b.key == a.key && b.flags == a.flags && b.lists == a.lists
    && (OP_ONLY_TOPIC in a.flags ==> b.topic == a.topic)
    && (forall m :: m in a.members ==> m == c || (m in b.members && b.members[m] == a.members[m]))
    && (forall m :: m in b.members ==> m == c || m in a.members)
    && (c in b.members ==> b.members[c] == if c in a.members then a.members[c] else {})
  }

  lemma PowerlessModes<C>(a: ChannelRec<C>, b: ChannelRec<C>, nicks: map<Name, C>, c: C)
    requires ModesChanged(a, b, nicks, false, c) && !HasMode(a, c, CHANNEL_OPERATOR)
    ensures SameButLimit(a, b)
  {
    hide ApplyMode;
    var changes :| b == ApplyModes(a, nicks, false, c, changes).channel;
    PowerlessBatch(a, nicks, c, [], changes);
    assert [] + changes == changes;
  }

  lemma PowerlessEffect<C>(a: ChannelRec<C>, b: ChannelRec<C>, nicks: map<Name, C>, c: C)
    requires ChannelEffect(a, b, nicks, false, c) && !HasMode(a, c, CHANNEL_OPERATOR)
    ensures Untouched(a, b, c)
  {
    hide ApplyModes;
    if ModesChanged(a, b, nicks, false, c) {
      PowerlessModes(a, b, nicks, c);
    }
  }

  /** Whatever a client without power over a channel issues, the channel is left as it was but for that client. */
  lemma AuthorityFrame<C, H>(w: World<C, H>, c: C, command: Command<C, H>, h: H)
    requires Inv(w) && Possible(w, Issue(c, command)) && h in w.channels && Powerless(w, c, h)
    ensures h in Step(w, Issue(c, command)).channels
    ensures Untouched(w.channels[h], Step(w, Issue(c, command)).channels[h], c)
  {
    hide Inv, Step, Possible, ChannelEffect, Untouched;
    IssueEffect(w, c, command, h);
    PowerlessEffect(w.channels[h], Step(w, Issue(c, command)).channels[h], w.nicks, c);
  }

  // -------------------------------------------------------------------- creators

  ghost function Creators<C>(channel: ChannelRec<C>): set<C> {
    set m | m in channel.members && CHANNEL_CREATOR in channel.members[m]
  }

  lemma ModeKeepsCreators<C>(channel: ChannelRec<C>, nicks: map<Name, C>, oper: bool, c: C, change: ChannelModeChange)
    ensures Creators(ApplyMode(channel, nicks, oper, c, change).channel) == Creators(channel)
  {
  }

  lemma {:induction false} BatchKeepsCreators<C>(channel: ChannelRec<C>, nicks: map<Name, C>, oper: bool, c: C,
                                                 changes: seq<ChannelModeChange>)
    ensures Creators(ApplyModes(channel, nicks, oper, c, changes).channel) == Creators(channel)
  {
    hide ApplyMode, Creators;
    if changes != [] {
      var n := |changes| - 1;
      BatchKeepsCreators(channel, nicks, oper, c, changes[..n]);
      ModeKeepsCreators(ApplyModes(channel, nicks, oper, c, changes[..n]).channel, nicks, oper, c, changes[n]);
    }
  }

  lemma EffectKeepsCreators<C>(a: ChannelRec<C>, b: ChannelRec<C>, nicks: map<Name, C>, oper: bool, c: C)
    requires ChannelEffect(a, b, nicks, oper, c)
    ensures Creators(b) <= Creators(a)
  {
    hide ApplyModes;
    if ModesChanged(a, b, nicks, oper, c) {
      var changes :| b == ApplyModes(a, nicks, oper, c, changes).channel;
      BatchKeepsCreators(a, nicks, oper, c, changes);
    }
  }

  /** No event makes anybody the creator of an existing channel; a new channel has its maker as the only one. */
  lemma StepCreators<C, H>(w: World<C, H>, event: Event<C, H>, h: H)
    requires Inv(w) && Possible(w, event) && h in Step(w, event).channels
    ensures h in w.channels ==> Creators(Step(w, event).channels[h]) <= Creators(w.channels[h])
    ensures h !in w.channels ==> event.Issue? && Creators(Step(w, event).channels[h]) == {event.client}
  {
    hide Inv, Process, ChoicesFit, Creators;
    if h !in w.channels {
      NewChannelMembers(w, event, h);
      MakerIsCreator(NewChannel(event.command.channel), event.client);
    } else if event.Issue? {
      IssueEffect(w, event.client, event.command, h);
      EffectKeepsCreators(w.channels[h], Step(w, event).channels[h], w.nicks,
                          OPERATOR in w.clients[event.client].modes, event.client);
    }
  }

  lemma MakerIsCreator<C>(channel: ChannelRec<C>, c: C)
    ensures Creators(channel.(members := map[c := {CHANNEL_CREATOR, CHANNEL_OPERATOR}])) == {c}
  {
  }

  lemma StepKeepsChannels<C, H>(w: World<C, H>, event: Event<C, H>, h: H)
    requires Inv(w) && Possible(w, event) && h in w.channels
    ensures h in Step(w, event).channels
  {
    hide Inv, Process, ChoicesFit, ChannelEffect;
    if event.Issue? {
      IssueEffect(w, event.client, event.command, h);
    }
  }

  /** Over a run, the creators of a channel object can only become fewer. */
  lemma {:induction false} CreatorsShrink<C, H>(worlds: seq<World<C, H>>, events: seq<Event<C, H>>, i: nat, j: nat, h: H)
    requires IsRun(worlds, events) && i <= j < |worlds| && h in worlds[i].channels
    ensures h in worlds[j].channels && Creators(worlds[j].channels[h]) <= Creators(worlds[i].channels[h])
  {
    hide Inv, Step, Possible, Creators;
    if i < j {
      CreatorsShrink(worlds, events, i, j - 1, h);
      RunKeeps(worlds, events, j - 1);
      StepKeepsChannels(worlds[j - 1], events[j - 1], h);
      StepCreators(worlds[j - 1], events[j - 1], h);
    }
  }

  lemma {:induction false} AtMostOneCreator<C, H>(worlds: seq<World<C, H>>, events: seq<Event<C, H>>, i: nat, h: H)
    requires IsRun(worlds, events) && i < |worlds| && h in worlds[i].channels
    ensures forall a, b :: a in Creators(worlds[i].channels[h]) && b in Creators(worlds[i].channels[h]) ==> a == b
  {
    hide Inv, Step, Possible, Creators;
    if i > 0 {
      RunKeeps(worlds, events, i - 1);
      StepCreators(worlds[i - 1], events[i - 1], h);
      if h in worlds[i - 1].channels {
        AtMostOneCreator(worlds, events, i - 1, h);
      }
    }
  }

  /** Whoever is the creator of a channel object at any two moments of a run is one and the same client. */
  lemma CreatorIsUnique<C, H>(worlds: seq<World<C, H>>, events: seq<Event<C, H>>, i: nat, j: nat, h: H, a: C, b: C)
    requires IsRun(worlds, events) && i <= j < |worlds| && h in worlds[i].channels && h in worlds[j].channels
    requires a in Creators(worlds[i].channels[h]) && b in Creators(worlds[j].channels[h])
    ensures a == b
  {
    hide IsRun, Creators;
    CreatorsShrink(worlds, events, i, j, h);
    AtMostOneCreator(worlds, events, i, h);
  }
}
