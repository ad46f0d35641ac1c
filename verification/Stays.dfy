/** Commands that act on the membership of channels leave every client connected and registered. */
module Stays {
  import opened Names
  import opened Modes
  import opened Strings
  import opened ServerState
  import opened Replica
  import opened Invariants
  import opened QuietSteps
  import opened NickSteps
  import opened ChannelSteps
  import opened LeavingSteps
  import opened Runs

  ghost predicate Stay<H>(a: ClientRec<H>, b: ClientRec<H>) {
    b.hasQuit == a.hasQuit && b.registered == a.registered && a.channels <= b.channels
  }

  ghost predicate AllStay<C, H>(w: World<C, H>, w': World<C, H>) {
    && w'.clients.Keys == w.clients.Keys
    && (forall m :: m in w.clients ==> m in w'.clients && Stay(w.clients[m], w'.clients[m]))
  }

  lemma StayTwice<C, H>(a: World<C, H>, b: World<C, H>, c: World<C, H>)
    requires AllStay(a, b) && AllStay(b, c)
    ensures AllStay(a, c)
  {
  }

  lemma SayStay<C, H>(w: World<C, H>, w1: World<C, H>, c: C, replies: seq<Reply>)
    requires AllStay(w, w1) && c in w1.clients
    ensures AllStay(w, Say(w1, c, replies))
  {
  }

  lemma SelfStay<C, H>(w: World<C, H>, w1: World<C, H>)
    requires w1.clients == w.clients
    ensures AllStay(w, w1)
  {
  }

  lemma LeaveStay<C, H>(w: World<C, H>, h: H, c: C, reply: Reply)
    requires h in w.channels
    ensures AllStay(w, Leave(w, h, c, reply))
  {
  }

  lemma AdmitStay<C, H>(w: World<C, H>, h: H, c: C, order: seq<C>)
    requires c in w.clients && h in w.channels && w.channels[h].members.Keys <= w.clients.Keys
    requires forall m :: m in order ==> m in w.channels[h].members || m == c
    ensures AllStay(w, Admit(w, h, c, order))
  {
  }

  lemma JoinStay<C, H>(w: World<C, H>, h: H, c: C, key: string, order: seq<C>)
    requires c in w.clients && h in w.channels && w.channels[h].members.Keys <= w.clients.Keys
    requires Admitted(w, h, c, key) ==> Enumerates(order, w.channels[h].members.Keys + {c})
    ensures AllStay(w, JoinChannel(w, h, c, key, order))
  {
    hide AllStay, Say, Admit, Refusal;
    SelfStay(w, w);
    if Admitted(w, h, c, key) {
      OrderIsMembers(w, h, c, order);
      AdmitStay(w, h, c, order);
    } else if c !in w.channels[h].members {
      SayStay(w, w, c, [Numeric(Refusal(w.clients[c], w.channels[h], c, key).value)]);
    }
  }

  lemma JoinNameStay<C, H>(w: World<C, H>, c: C, name: Name, key: string, made: H, order: seq<C>)
    requires Closed(w) && c in w.clients && JoinOrderFits(w, c, name, key, made, order)
    ensures AllStay(w, JoinName(w, c, name, key, made, order))
  {
    hide AllStay, Say, JoinChannel, Refusal, Enumerates;
    SelfStay(w, w);
    SayStay(w, w, c, [Numeric(403)]);
    if IsChannel(name) {
      var h := if LOWER(name) in w.names then w.names[LOWER(name)] else made;
      var w1 := WithChannel(w, name, made);
      SelfStay(w, w1);
      if LOWER(name) !in w.names {
        assert w1.channels[made].members.Keys + {c} == {c};
      }
      JoinStay(w1, h, c, key, order);
      StayTwice(w, w1, JoinChannel(w1, h, c, key, order));
    }
  }

  lemma KickStay<C, H>(w: World<C, H>, h: H, c: C, target: C)
    requires c in w.clients && target in w.clients && h in w.channels
    ensures AllStay(w, Kick(w, h, c, target)) && AllStay(w, Part(w, h, c))
  {
    hide AllStay, Leave, Say, IsOperator;
    SelfStay(w, w);
    SayStay(w, w, c, [Numeric(442)]);
    SayStay(w, w, c, [Numeric(482)]);
    SayStay(w, w, c, [Numeric(441)]);
    LeaveStay(w, h, target, Kicked(w.channels[h].name, NickOrStar(w.clients[target].nick)));
    LeaveStay(w, h, c, Parted(w.clients[c].nick, w.channels[h].name));
  }

  lemma NamesNameStay<C, H>(w: World<C, H>, c: C, name: Name, order: seq<C>)
    requires Closed(w) && c in w.clients && NamesOrderFits(w, name, order)
    ensures AllStay(w, NamesName(w, c, name, order))
  {
  }

  lemma MemberCommandStay<C, H>(w: World<C, H>, c: C, command: Command<C, H>)
    requires Closed(w) && c in w.clients && ChoicesFit(w, c, command) && ActsOnMembers(command)
    ensures AllStay(w, AfterRegistration(w, c, command))
  {
    hide AllStay, Closed, JoinName, Kick, Part, Say, JoinOrderFits, NamesOrderFits, NamesName;
    ClosedIndexes(w);
    ClosedMembers(w, c);
    SelfStay(w, w);
    SayStay(w, w, c, [Numeric(403)]);
    SayStay(w, w, c, [Numeric(401)]);
    match command
    case Join(name, key, made, order) => JoinNameStay(w, c, name, key, made, order);
    case PartFrom(name) => if LOWER(name) in w.names { KickStay(w, w.names[LOWER(name)], c, c); }
    case PartObject(h) => KickStay(w, h, c, c);
    case KickFrom(name, nick) =>
      if LOWER(name) in w.names && Taken(w, nick) { KickStay(w, w.names[LOWER(name)], c, w.nicks[LOWER(nick)]); }
    case NamesOf(name, order) => NamesNameStay(w, c, name, order);
  }
}
