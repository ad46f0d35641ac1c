/** What the invariant and the effects of the commands mean for every run. */
module Guarantees {
  import opened Names
  import opened Modes
  import opened Strings
  import opened ServerState
  import opened Replica
  import opened Invariants
  import opened NickSteps
  import opened LeavingSteps
  import opened Runs
  import opened Effects
  import opened Provenance
  import Sasl

  // ------------------------------------------------------------------- replicas

  /** The names of the channels a client is on. */
  ghost function ChannelsOf<C, H>(w: World<C, H>, c: C): set<Name> {
    set h | h in w.channels && c in w.channels[h].members :: w.channels[h].name
  }

  /** At every moment, replaying its replies tells a client exactly which channels it is on and who is on them. */
  lemma ReplicaAgreement<C, H>(worlds: seq<World<C, H>>, events: seq<Event<C, H>>, i: nat, c: C)
    requires IsRun(worlds, events) && i < |worlds|
    requires c in worlds[i].clients && worlds[i].clients[c].registered && !worlds[i].clients[c].hasQuit
    ensures var w := worlds[i];
            var view := Replay(w.clients[c].log);
            && view.self == w.clients[c].nick
            && view.members.Keys == ChannelsOf(w, c)
            && (forall h :: h in w.channels && c in w.channels[h].members ==>
                view.members[w.channels[h].name] == NicksOn(w, h))
  {
    hide IsRun, LocalsOk, NicksOk, MembersOk, NamesOkBut, Live, Replay, NicksOn;
    RunKeeps(worlds, events, i);
    var w := worlds[i];
    assert Agrees(w, c);
    forall name | name in Replay(w.clients[c].log).members
      ensures name in ChannelsOf(w, c)
    {
      assert IsOn(w, c, name);
    }
  }

  // ------------------------------------------------------------------ nick index

  /** Nobody else has the nick a live client has, however it is written, and it is found under it. */
  lemma NickIsIndexed<C, H>(worlds: seq<World<C, H>>, events: seq<Event<C, H>>, i: nat, c: C)
    requires IsRun(worlds, events) && i < |worlds|
    requires c in worlds[i].clients && !worlds[i].clients[c].hasQuit && worlds[i].clients[c].nick != ""
    ensures var w := worlds[i];
            var key := LOWER(w.clients[c].nick);
            && key in w.nicks && w.nicks[key] == c
            && (forall k :: k in w.nicks && w.nicks[k] == c ==> k == key)
            && (forall d ::
              (d in w.clients && !w.clients[d].hasQuit && w.clients[d].nick != "" && LOWER(w.clients[d].nick) == key)
              ==> d == c)
  {
    hide IsRun, LocalsOk, MembersOk, NamesOkBut, ReplicasOk, Live;
    RunKeeps(worlds, events, i);
  }

  /** Changing a nick: removing the client from the index succeeds, and so does adding it under a nick it may take. */
  lemma ReindexingSucceeds<C, H>(w: World<C, H>, c: C, nick: Name)
    requires Inv(w) && c in w.clients && !w.clients[c].hasQuit && w.clients[c].nick != "" && MayTake(w, c, nick)
    ensures var without := IndexRemove(w.nicks, c, w.clients[c].nick);
            && RemoveSucceeds(w.nicks, c, w.clients[c].nick) && without == w.nicks - {LOWER(w.clients[c].nick)}
            && AddSucceeds(without, nick) && IndexAdd(without, c, nick) == without[LOWER(nick) := c]
  {
    hide LocalsOk, MembersOk, NamesOkBut, ReplicasOk, Live, IsNickname;
  }

  /** USER: removing the client and adding it again both succeed exactly if it has a nick, and leave the index as it was. */
  lemma UserReindexingSucceeds<C, H>(w: World<C, H>, c: C)
    requires Inv(w) && c in w.clients && !w.clients[c].hasQuit
    ensures var nick := w.clients[c].nick;
            var without := IndexRemove(w.nicks, c, nick);
            && (RemoveSucceeds(w.nicks, c, nick) <==> nick != "")
            && (AddSucceeds(without, nick) <==> nick != "")
            && IndexAdd(without, c, nick) == w.nicks
  {
    hide LocalsOk, MembersOk, NamesOkBut, ReplicasOk, Live;
  }

  lemma TryRegisterNick<C, H>(w: World<C, H>, c: C)
    requires c in w.clients
    ensures c in TryRegister(w, c).clients && TryRegister(w, c).clients[c].nick == w.clients[c].nick
    ensures TryRegister(w, c).nicks == w.nicks
  {
    hide LUsers;
  }

  lemma SayKeepsNick<C, H>(w: World<C, H>, c: C, replies: seq<Reply>)
    requires c in w.clients
    ensures c in Say(w, c, replies).clients && Say(w, c, replies).clients[c].nick == w.clients[c].nick
  {
  }

  lemma TurnAwayNick<C, H>(w: World<C, H>, c: C)
    requires c in w.clients
    ensures c in TurnAway(w, c).clients && TurnAway(w, c).clients[c].nick == w.clients[c].nick
    ensures TurnAway(w, c).clients[c].hasQuit
  {
    hide Quit, Say;
    var said := Say(w, c, [Numeric(464)]);
    SayKeepsNick(w, c, [Numeric(464)]);
    if said.clients[c].hasQuit {
      QuitTwice(said, c);
    } else {
      QuitRecord(said, c, c);
    }
  }

  /** NICK before registration gives a nick only where adding the client to the index succeeds. */
  lemma FirstNickSucceeds<C, H>(w: World<C, H>, c: C, nick: Name)
    requires c in w.clients && c in RegisterNick(w, c, nick).clients
    requires RegisterNick(w, c, nick).clients[c].nick != w.clients[c].nick
    ensures w.clients[c].nick == "" && nick != "" && IsNickname(nick) && AddSucceeds(w.nicks, nick)
    ensures RegisterNick(w, c, nick).nicks == w.nicks[LOWER(nick) := c]
    ensures RegisterNick(w, c, nick).clients[c].nick == nick
  {
    hide IsNickname, TryRegister, TurnAway, Say;
    TurnAwayNick(w, c);
    SayKeepsNick(w, c, [Numeric(431)]);
    SayKeepsNick(w, c, [Numeric(433)]);
    SayKeepsNick(w, c, [Numeric(432)]);
    TryRegisterNick(w, c);
    if w.clients[c].nick == "" {
      TryRegisterNick(SetClient(w, c, w.clients[c].(nick := nick)).(nicks := IndexAdd(w.nicks, c, nick)), c);
    }
  }

  /** The handler of NICK changes a nick only where both index operations succeed. */
  lemma NickMayTake<C, H>(w: World<C, H>, c: C, nick: Name)
    requires Inv(w) && c in w.clients && w.clients[c].registered && NickRequest(w, c, nick).whoWas != w.whoWas
    ensures MayTake(w, c, nick) && w.clients[c].nick != "" && NickRequest(w, c, nick) == ChangeNick(w, c, nick)
  {
    hide InvBut, IsNickname, Receive, ChangeNick, LocalOk;
    InvParts(w);
    RegisteredHasNick(w.clients[c]);
  }

  /** So does the handler of ONICK. */
  lemma OperNickMayTake<C, H>(w: World<C, H>, c: C, target: Name, nick: Name)
    requires Inv(w) && Closed(w) && c in w.clients && nick != ""
    requires OperNickRequest(w, c, target, nick).whoWas != w.whoWas
    ensures Taken(w, target) && OperNickRequest(w, c, target, nick) == ChangeNick(w, w.nicks[LOWER(target)], nick)
    ensures var t := w.nicks[LOWER(target)];
            MayTake(w, t, nick) && t in w.clients && !w.clients[t].hasQuit && w.clients[t].nick != ""
  {
    hide InvBut, Closed, IsNickname, Receive, ChangeNick, NicksOk;
    ClosedIndexes(w);
    InvParts(w);
    if Taken(w, target) {
      IndexedIsLive(w, LOWER(target));
    }
  }

  // ------------------------------------------------------------------- quitting

  /** After quitting, a client is on no channel, has no nick in the index, and its replies are closed. */
  lemma QuitIsComplete<C, H>(w: World<C, H>, c: C)
    requires Inv(w) && c in w.clients
    ensures var w' := Quit(w, c);
            && c in w'.clients && w'.clients[c].hasQuit && w'.clients[c].closed
            && (forall h :: h in w'.channels ==> c !in w'.channels[h].members)
            && (forall k :: k in w'.nicks ==> w'.nicks[k] != c)
            && w'.connections == w.connections - (if w.clients[c].hasQuit then 0 else 1)
            && Quit(w', c) == w'
  {
  }

  lemma LocalCloses<H>(client: ClientRec<H>)
    requires LocalOk(client)
    ensures client.closed == client.hasQuit
  {
  }

  lemma GoneEverywhere<C, H>(w: World<C, H>, c: C)
    requires NicksOk(w) && MembersOk(w) && c in w.clients && w.clients[c].hasQuit
    ensures forall h :: h in w.channels ==> c !in w.channels[h].members
    ensures forall k :: k in w.nicks ==> w.nicks[k] != c
  {
  }

  /** Once a client has quit, nothing about it changes any more, and it never comes back. */
  lemma {:induction false} QuitIsForGood<C, H>(worlds: seq<World<C, H>>, events: seq<Event<C, H>>, i: nat, j: nat, c: C)
    requires IsRun(worlds, events) && i <= j < |worlds|
    requires c in worlds[i].clients && worlds[i].clients[c].hasQuit
    ensures c in worlds[j].clients && worlds[j].clients[c] == worlds[i].clients[c]
    ensures forall h :: h in worlds[j].channels ==> c !in worlds[j].channels[h].members
    ensures forall k :: k in worlds[j].nicks ==> worlds[j].nicks[k] != c
  {
    hide InvBut, Step, Possible, NicksOk, MembersOk;
    if i < j {
      QuitIsForGood(worlds, events, i, j - 1, c);
      RunKeeps(worlds, events, j - 1);
      QuitStays(worlds[j - 1], events[j - 1], c);
    }
    RunKeeps(worlds, events, j);
    InvParts(worlds[j]);
    GoneEverywhere(worlds[j], c);
  }

  lemma QuitStays<C, H>(w: World<C, H>, event: Event<C, H>, c: C)
    requires Inv(w) && Possible(w, event) && c in w.clients && w.clients[c].hasQuit
    ensures c in Step(w, event).clients && Step(w, event).clients[c] == w.clients[c]
  {
    hide Inv, Process, ChoicesFit, Indexed;
    if event.Issue? {
      IssueStatus(w, event.client, event.command, c);
    }
  }

  /** WALLOPS and global notices, which are sent without asking whether a client has quit, reach only live clients. */
  lemma DirectSendsAreSafe<C, H>(worlds: seq<World<C, H>>, events: seq<Event<C, H>>, i: nat, onlyWallOps: bool, c: C)
    requires IsRun(worlds, events) && i < |worlds| && c in Indexed(worlds[i], onlyWallOps)
    ensures c in worlds[i].clients && !worlds[i].clients[c].closed
  {
    hide IsRun, MembersOk, NamesOkBut, ReplicasOk, Live, LocalOk;
    RunKeeps(worlds, events, i);
    assert LocalOk(worlds[i].clients[c]);
    LocalCloses(worlds[i].clients[c]);
  }

  // --------------------------------------------------------------------- counting

  ghost function Nameless<C, H>(w: World<C, H>): set<C> {
    set c | c in w.clients && !w.clients[c].hasQuit && w.clients[c].nick == ""
  }

  lemma {:induction false} BijectiveCount<C>(m: map<Name, C>)
    requires forall k, l :: k in m && l in m && m[k] == m[l] ==> k == l
    ensures |m| == |m.Values|
    decreases |m|
  {
    if m != map[] {
      var k :| k in m;
      var m' := m - {k};
      assert m.Keys == m'.Keys + {k};
      assert |m| == |m.Keys| && |m'| == |m'.Keys|;
      assert m[k] in m.Values;
      assert m.Values == m'.Values + {m[k]};
      BijectiveCount(m');
    }
  }

  /** The connections are the live clients, and what LUSERS counts as unknown are exactly those without a nick. */
  lemma UnknownExactly<C, H>(worlds: seq<World<C, H>>, events: seq<Event<C, H>>, i: nat)
    requires IsRun(worlds, events) && i < |worlds|
    ensures worlds[i].connections == |Live(worlds[i])| && Unknown(worlds[i]) == |Nameless(worlds[i])|
  {
    hide IsRun, LocalsOk, MembersOk, NamesOkBut, ReplicasOk;
    RunKeeps(worlds, events, i);
    var w := worlds[i];
    BijectiveCount(w.nicks);
    forall c | c in Live(w) && w.clients[c].nick != ""
      ensures c in w.nicks.Values
    {
      assert w.nicks[LOWER(w.clients[c].nick)] == c;
    }
    assert Live(w) == w.nicks.Values + Nameless(w) && w.nicks.Values !! Nameless(w);
  }

  // ----------------------------------------------------------------- registration

  function Welcomes(log: seq<Reply>): nat {
    if log == [] then 0 else Welcomes(log[..|log| - 1]) + if log[|log| - 1].Welcome? then 1 else 0
  }

  lemma {:induction false} WelcomesAreCounted(log: seq<Reply>)
    ensures Replay(log).welcomes == Welcomes(log)
  {
    if log != [] {
      WelcomesAreCounted(log[..|log| - 1]);
    }
  }

  /** Registration is complete exactly if the client was welcomed, once, and then all its conditions hold. */
  lemma RegistrationIsSafe<C, H>(worlds: seq<World<C, H>>, events: seq<Event<C, H>>, i: nat, c: C)
    requires IsRun(worlds, events) && i < |worlds| && c in worlds[i].clients
    ensures var client := worlds[i].clients[c];
            && Welcomes(client.log) == (if client.registered then 1 else 0)
            && (client.registered ==>
              && client.authorized
              && client.nick != "" && IsNickname(client.nick)
              && client.username != ""
              && client.capState != CapNegotiating)
            && client.capabilities <= SUPPORTED_CAPABILITIES
            && (client.sasl.buffer != "" ==> client.sasl.started)
  {
    hide IsRun, NicksOk, MembersOk, NamesOkBut, ReplicasOk, Live, Replay, IsNickname;
    RunKeeps(worlds, events, i);
    assert LocalOk(worlds[i].clients[c]);
    WelcomesAreCounted(worlds[i].clients[c].log);
  }

  lemma StepCompletes<C, H>(w: World<C, H>, event: Event<C, H>, c: C)
    requires Inv(w) && Possible(w, event) && c in Step(w, event).clients
    requires c in w.clients ==> Complete(w.clients[c])
    ensures Complete(Step(w, event).clients[c])
  {
    hide Inv, Process, ChoicesFit, Indexed;
    if c !in w.clients {
      OnlyConnectAdds(w, event, c);
    } else if event.Issue? {
      IssueStatus(w, event.client, event.command, c);
    }
  }

  /** In whatever order it was done: a connected client is registered exactly if it has a nick and a user name and no open negotiation. */
  lemma {:induction false} RegisteredExactly<C, H>(worlds: seq<World<C, H>>, events: seq<Event<C, H>>, i: nat, c: C)
    requires IsRun(worlds, events) && i < |worlds| && c in worlds[i].clients && !worlds[i].clients[c].hasQuit
    ensures var client := worlds[i].clients[c];
            client.registered <==> client.nick != "" && client.username != "" && client.capState != CapNegotiating
  {
    CompleteAlways(worlds, events, i, c);
  }

  lemma {:induction false} CompleteAlways<C, H>(worlds: seq<World<C, H>>, events: seq<Event<C, H>>, i: nat, c: C)
    requires IsRun(worlds, events) && i < |worlds| && c in worlds[i].clients
    ensures Complete(worlds[i].clients[c])
  {
    hide Inv, Step, Possible, Complete;
    assert worlds[0] == EmptyWorld();
    RunKeeps(worlds, events, i - 1);
    if c in worlds[i - 1].clients {
      CompleteAlways(worlds, events, i - 1, c);
    }
    StepCompletes(worlds[i - 1], events[i - 1], c);
  }

  // --------------------------------------------------------------------- channels

  /** A channel object has members exactly if it is indexed, and then under its own name. */
  lemma NoEmptyChannels<C, H>(worlds: seq<World<C, H>>, events: seq<Event<C, H>>, i: nat, h: H)
    requires IsRun(worlds, events) && i < |worlds| && h in worlds[i].channels
    ensures var w := worlds[i];
            var key := LOWER(w.channels[h].name);
            && (w.channels[h].members != map[] <==> key in w.names && w.names[key] == h)
            && (forall k :: k in w.names && w.names[k] == h ==> k == key)
            && (forall m :: m in w.channels[h].members ==>
                m in w.clients && w.clients[m].registered && !w.clients[m].hasQuit && h in w.clients[m].channels)
  {
    hide IsRun, LocalsOk, NicksOk, ReplicasOk, Live;
    RunKeeps(worlds, events, i);
  }

  /**
   * Joining a channel that does not exist always succeeds and makes the client its creator and operator. The channel
   * is as new: `n` and `t`, no masks, no key, no topic and no limit.
   */
  lemma FirstJoinSucceeds<C, H>(w: World<C, H>, c: C, name: Name, key: string, made: H, order: seq<C>)
    requires Inv(w) && Possible(w, Issue(c, Join(name, key, made, order))) && w.clients[c].registered
    requires IsChannel(name) && LOWER(name) !in w.names
    ensures var w' := Step(w, Issue(c, Join(name, key, made, order)));
            && LOWER(name) in w'.names && w'.names[LOWER(name)] == made && made in w'.channels
            && w'.channels[made] == ChannelRec(name, {'n', 't'}, map['b' := {}, 'e' := {}, 'I' := {}], "", map[c := {'O', 'o'}], "", 0)
  {
    hide InvBut, Refusal, JoinChannel, Enumerates;
    var w1 := WithChannel(w, name, made);
    assert w1.channels[made].members.Keys + {c} == {c};
    NewChannelAdmits(w.clients[c], name, c, key);
    JoinChannelChannels(w1, made, c, key, order);
    JoinKeepsNames(w1, made, c, key, order);
  }

  lemma JoinKeepsNames<C, H>(w: World<C, H>, h: H, c: C, key: string, order: seq<C>)
    requires c in w.clients && h in w.channels && w.channels[h].members.Keys <= w.clients.Keys
    requires Admitted(w, h, c, key) ==> Enumerates(order, w.channels[h].members.Keys + {c})
    ensures JoinChannel(w, h, c, key, order).names == w.names
  {
  }

  // ------------------------------------------------------------------- provenance

  lemma OnlyConnectAdds<C, H>(w: World<C, H>, event: Event<C, H>, c: C)
    requires Inv(w) && Possible(w, event) && c in Step(w, event).clients && c !in w.clients
    ensures event.Connect? && event.client == c
    ensures Step(w, event).clients[c] == NewClient(event.secure, event.hostname, event.noPassword)
  {
    hide Inv, Process, ChoicesFit, Indexed;
    if event.Issue? {
      IssueStatus(w, event.client, event.command, event.client);
    }
  }

  /** Between the event at `j` and the state at `i`, the client has had the mode throughout. */
  ghost predicate HeldSince<C, H>(worlds: seq<World<C, H>>, j: nat, i: nat, c: C, mode: UserMode)
    requires j < i < |worlds|
  {
    forall k :: j < k <= i ==> c in worlds[k].clients && mode in worlds[k].clients[c].modes
  }

  lemma StepOperator<C, H>(w: World<C, H>, event: Event<C, H>, c: C)
    requires Inv(w) && Possible(w, event) && c in Step(w, event).clients
    requires OPERATOR in Step(w, event).clients[c].modes
    requires c in w.clients ==> OPERATOR !in w.clients[c].modes
    ensures event == Issue(c, Oper(true)) && c in w.clients && w.clients[c].registered
  {
    hide Inv, Process, ChoicesFit, Indexed;
    if c !in w.clients {
      OnlyConnectAdds(w, event, c);
    } else if event.Issue? {
      IssueStatus(w, event.client, event.command, c);
    }
  }

  /** An IRC operator has had an OPER accepted and has been one ever since. */
  lemma {:induction false} OperatorProvenance<C, H>(worlds: seq<World<C, H>>, events: seq<Event<C, H>>, i: nat, c: C)
    returns (j: nat)
    requires IsRun(worlds, events) && i < |worlds| && c in worlds[i].clients
    requires OPERATOR in worlds[i].clients[c].modes
    ensures j < i && events[j] == Issue(c, Oper(true)) && worlds[j].clients[c].registered
    ensures HeldSince(worlds, j, i, c, OPERATOR)
  {
    hide Inv, Step, Possible;
    assert worlds[0] == EmptyWorld();
    RunKeeps(worlds, events, i - 1);
    if c in worlds[i - 1].clients && OPERATOR in worlds[i - 1].clients[c].modes {
      j := OperatorProvenance(worlds, events, i - 1, c);
    } else {
      j := i - 1;
      StepOperator(worlds[j], events[j], c);
    }
  }

  lemma StepRegistered<C, H>(w: World<C, H>, event: Event<C, H>, c: C)
    requires Inv(w) && Possible(w, event) && c in Step(w, event).clients
    requires REGISTERED in Step(w, event).clients[c].modes
    requires c in w.clients ==> REGISTERED !in w.clients[c].modes
    ensures event.Issue? && event.client == c && event.command.Authenticate? && c in w.clients
    ensures LogsIn(Sasl.Receive(w.clients[c].sasl, event.command.arg).1)
  {
    hide Inv, Process, ChoicesFit, Indexed, LogsIn, Sasl.Receive;
    if c !in w.clients {
      OnlyConnectAdds(w, event, c);
    } else if event.Issue? {
      IssueStatus(w, event.client, event.command, c);
    }
  }

  /** A client with `r` has sent a name and a password that belong together over SASL. */
  lemma {:induction false} AccountProvenance<C, H>(worlds: seq<World<C, H>>, events: seq<Event<C, H>>, i: nat, c: C)
    returns (j: nat, id: string, authz: string, password: string)
    requires IsRun(worlds, events) && i < |worlds| && c in worlds[i].clients
    requires REGISTERED in worlds[i].clients[c].modes
    ensures j < i && events[j].Issue? && events[j].client == c && events[j].command.Authenticate?
    ensures c in worlds[j].clients && LogsIn(Sasl.Receive(worlds[j].clients[c].sasl, events[j].command.arg).1)
    ensures var arg := events[j].command.arg;
            Sasl.Credentials(worlds[j].clients[c].sasl.buffer + if arg == "+" then "" else arg, id, authz, password)
    ensures HeldSince(worlds, j, i, c, REGISTERED)
  {
    hide Inv, Step, Possible, Sasl.Receive, Sasl.Credentials;
    assert worlds[0] == EmptyWorld();
    RunKeeps(worlds, events, i - 1);
    if c in worlds[i - 1].clients && REGISTERED in worlds[i - 1].clients[c].modes {
      j, id, authz, password := AccountProvenance(worlds, events, i - 1, c);
    } else {
      j := i - 1;
      StepRegistered(worlds[j], events[j], c);
      id, authz, password := Sasl.LoggedInWith(worlds[j].clients[c].sasl, events[j].command.arg);
    }
  }

  /**
   * An authorized client connected to a server without a password, or has sent the right one; and whoever has done
   * either is authorized for good.
   */
  lemma {:induction false} AuthorizationExactly<C, H>(worlds: seq<World<C, H>>, events: seq<Event<C, H>>, i: nat, c: C)
    requires IsRun(worlds, events) && i < |worlds|
    ensures c in worlds[i].clients && worlds[i].clients[c].authorized
       <==> exists j :: 0 <= j < i && Authorizes(worlds[j], events[j], c)
  {
    hide Inv, Step, Possible, Authorizes;
    if i == 0 {
      assert worlds[0] == EmptyWorld();
    } else {
      RunKeeps(worlds, events, i - 1);
      AuthorizationExactly(worlds, events, i - 1, c);
      StepAuthorizes(worlds[i - 1], events[i - 1], c);
    }
  }

  /** The client connects without needing a password, or, not yet registered, sends the right one. */
  ghost predicate Authorizes<C, H>(w: World<C, H>, event: Event<C, H>, c: C) {
    || (event.Connect? && event.client == c && event.noPassword)
    || (event == Issue(c, Pass(true)) && c in w.clients && !w.clients[c].registered)
  }

  lemma StepAuthorizes<C, H>(w: World<C, H>, event: Event<C, H>, c: C)
    requires Inv(w) && Possible(w, event)
    ensures c in Step(w, event).clients && Step(w, event).clients[c].authorized
       <==> (c in w.clients && w.clients[c].authorized) || Authorizes(w, event, c)
  {
    hide Inv, Process, ChoicesFit, Indexed;
    if event.Issue? {
      if !w.clients[event.client].registered {
        PassAuthorizes(w, event.client);
      }
      if c in w.clients {
        IssueStatus(w, event.client, event.command, c);
        if w.clients[c].registered {
          AuthorizedIfRegistered(w, c);
        }
      } else {
        IssueStatus(w, event.client, event.command, event.client);
      }
    }
  }

  lemma AuthorizedIfRegistered<C, H>(w: World<C, H>, c: C)
    requires Inv(w) && c in w.clients && w.clients[c].registered
    ensures w.clients[c].authorized
  {
    hide NicksOk, MembersOk, NamesOkBut, ReplicasOk;
    assert LocalOk(w.clients[c]);
  }

  /** The right password authorizes a client that has not registered and changes nothing else; a wrong one ends its connection. */
  lemma PassAuthorizes<C, H>(w: World<C, H>, c: C)
    requires Inv(w) && Closed(w) && c in w.clients && !w.clients[c].hasQuit && !w.clients[c].registered
    ensures Process(w, c, Pass(true)) == w.(clients := w.clients[c := w.clients[c].(authorized := true)])
    ensures c in Process(w, c, Pass(false)).clients && Process(w, c, Pass(false)).clients[c].hasQuit
  {
    hide Inv, TurnAway, AfterRegistration;
    TurnAwayNick(w, c);
  }

  /** `z` tells exactly whether the client connected over TLS. */
  lemma {:induction false} SecureProvenance<C, H>(worlds: seq<World<C, H>>, events: seq<Event<C, H>>, i: nat, c: C)
    returns (j: nat)
    requires IsRun(worlds, events) && i < |worlds| && c in worlds[i].clients
    ensures j < i && events[j].Connect? && events[j].client == c
    ensures worlds[i].clients[c].secure == events[j].secure
    ensures SECURE_CONN in worlds[i].clients[c].modes <==> events[j].secure
  {
    hide InvBut, Step, Possible, LocalOk;
    assert worlds[0] == EmptyWorld();
    RunKeeps(worlds, events, i - 1);
    if c in worlds[i - 1].clients {
      j := SecureProvenance(worlds, events, i - 1, c);
      StepKeepsSecure(worlds[i - 1], events[i - 1], c);
    } else {
      j := i - 1;
      OnlyConnectAdds(worlds[j], events[j], c);
    }
    RunKeeps(worlds, events, i);
    InvParts(worlds[i]);
    SecureIsMode(worlds[i].clients[c]);
  }

  lemma SecureIsMode<H>(client: ClientRec<H>)
    requires LocalOk(client)
    ensures SECURE_CONN in client.modes <==> client.secure
  {
  }

  lemma StepKeepsSecure<C, H>(w: World<C, H>, event: Event<C, H>, c: C)
    requires Inv(w) && Possible(w, event) && c in w.clients
    ensures c in Step(w, event).clients && Step(w, event).clients[c].secure == w.clients[c].secure
  {
    hide Inv, Process, ChoicesFit, Indexed;
    if event.Issue? {
      IssueStatus(w, event.client, event.command, c);
    }
  }
}
