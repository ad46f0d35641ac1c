/** What each command achieves for the clients concerned, told from the state and the request alone. */
module ClientOutcomes {
  import opened Names
  import opened Modes
  import opened Strings
  import opened ServerState
  import opened Invariants
  import opened NickSteps
  import opened LeavingSteps
  import opened Runs
  import opened ChannelOutcomes
  import Guarantees
  import Sasl

  // The function behind each command, once it is known that the client has or has not registered.

  lemma AfterStep<C, H>(w: World<C, H>, c: C, command: Command<C, H>)
    requires Issues(w, c, command)
    ensures Closed(w) && c in w.clients && !w.clients[c].hasQuit && ChoicesFit(w, c, command)
    ensures Step(w, Issue(c, command)) == AfterRegistration(w, c, command)
  {
    hide Inv, Closed, ChoicesFit, AfterRegistration, BeforeRegistration;
  }

  lemma BeforeStep<C, H>(w: World<C, H>, c: C, command: Command<C, H>)
    requires Registering(w, c, command)
    ensures c in w.clients && !w.clients[c].hasQuit
    ensures Step(w, Issue(c, command)) == BeforeRegistration(w, c, command)
  {
    hide Inv, Closed, ChoicesFit, AfterRegistration, BeforeRegistration;
  }

  lemma KillStep<C, H>(w: World<C, H>, c: C, nick: Name)
    requires Issues(w, c, Kill(nick))
    ensures c in w.clients && w.nicks.Values <= w.clients.Keys && Step(w, Issue(c, Kill(nick))) == KillNick(w, c, nick)
  {
    hide Inv, KillNick, Step, Possible;
    AfterStep(w, c, Kill(nick));
  }

  lemma NickStep<C, H>(w: World<C, H>, c: C, nick: Name)
    requires Issues(w, c, Nick(nick))
    ensures c in w.clients && !w.clients[c].hasQuit && Step(w, Issue(c, Nick(nick))) == NickRequest(w, c, nick)
  {
    hide Inv, NickRequest, Step, Possible, Closed;
    AfterStep(w, c, Nick(nick));
  }

  lemma OperNickStep<C, H>(w: World<C, H>, c: C, target: Name, nick: Name)
    requires Issues(w, c, OperNick(target, nick))
    ensures c in w.clients && w.nicks.Values <= w.clients.Keys && nick != ""
    ensures Step(w, Issue(c, OperNick(target, nick))) == OperNickRequest(w, c, target, nick)
  {
    hide Inv, OperNickRequest, Step, Possible;
    AfterStep(w, c, OperNick(target, nick));
  }

  lemma SayOutcome<C, H>(w: World<C, H>, c: C, replies: seq<Reply>)
    requires c in w.clients
    ensures Say(w, c, replies).clients.Keys == w.clients.Keys
    ensures forall m :: m in w.clients ==> Say(w, c, replies).clients[m] == w.clients[m].(log := Say(w, c, replies).clients[m].log)
    ensures Say(w, c, replies).channels == w.channels
  {
  }

  // ----------------------------------------------------------------------- quitting

  /** The other client is on a channel that the client has joined at some time. */
  ghost predicate Shares<C, H>(w: World<C, H>, c: C, m: C)
    requires c in w.clients
  {
    exists h :: h in w.clients[c].channels && h in w.channels && m in w.channels[h].members
  }

  /** What becomes of the others when `c` quits or changes its nick. */
  ghost predicate SharersTold<C, H>(w: World<C, H>, w': World<C, H>, c: C, reply: Reply)
    requires c in w.clients
  {
    && w'.clients.Keys == w.clients.Keys
    && (forall m :: m in w.clients && m != c ==>
          w'.clients[m] == if Shares(w, c, m) && !w.clients[m].hasQuit
                           then w.clients[m].(log := w.clients[m].log + [reply]) else w.clients[m])
  }

  lemma QuitOutcome<C, H>(w: World<C, H>, c: C)
    requires c in w.clients && !w.clients[c].hasQuit
    ensures SharersTold(w, Quit(w, c), c, HasQuit(w.clients[c].nick))
    ensures Quit(w, c).clients[c] == w.clients[c].(hasQuit := true, closed := true)
  {
    hide Quit;
    forall m | m in w.clients
      ensures m in Quit(w, c).clients && Quit(w, c).clients.Keys == w.clients.Keys
      ensures m != c ==> Quit(w, c).clients[m] == if Shares(w, c, m) && !w.clients[m].hasQuit
                           then w.clients[m].(log := w.clients[m].log + [HasQuit(w.clients[c].nick)]) else w.clients[m]
    {
      QuitRecord(w, c, m);
    }
    QuitRecord(w, c, c);
  }

  /** QUIT, registered or not: the client has quit and is closed, and exactly those who share a channel are told. */
  lemma QuitExactly<C, H>(w: World<C, H>, c: C)
    requires Inv(w) && Possible(w, Issue(c, QuitCommand))
    ensures var w' := Step(w, Issue(c, QuitCommand));
            && c in w.clients
            && SharersTold(w, w', c, HasQuit(w.clients[c].nick))
            && w'.clients[c] == w.clients[c].(hasQuit := true, closed := true)
  {
    hide Inv, Closed, Quit, SharersTold;
    QuitOutcome(w, c);
  }

  /** KILL by an IRC operator is a QUIT of its target; by anybody else it disconnects nobody. */
  lemma KillExactly<C, H>(w: World<C, H>, c: C, nick: Name)
    requires Issues(w, c, Kill(nick)) && LOWER(nick) in w.nicks
    ensures var t, w' := w.nicks[LOWER(nick)], Step(w, Issue(c, Kill(nick)));
            && t in w.clients && w'.clients.Keys == w.clients.Keys
            && (forall m :: m in w.clients ==>
                  (w'.clients[m].hasQuit <==> w.clients[m].hasQuit || (m == t && IrcOp(w, c))))
            && if IrcOp(w, c) then SharersTold(w, w', t, HasQuit(w.clients[t].nick)) else OnlyTold(w, w', {c}, Numeric(481))
  {
    hide Inv, Quit, Step, Possible, Say, Shares;
    KillStep(w, c, nick);
    SayTells(w, c, 481);
    IndexedNick(w, nick);
    SayOutcome(w, c, [Numeric(481)]);
    QuitOutcome(w, w.nicks[LOWER(nick)]);
  }

  // ------------------------------------------------------------------ operators

  /** OPER gives `o` and `w` exactly if its password is accepted, and changes no other mode of anybody. */
  lemma OperExactly<C, H>(w: World<C, H>, c: C, accepted: bool)
    requires Issues(w, c, Oper(accepted))
    ensures var w' := Step(w, Issue(c, Oper(accepted)));
            && w'.clients.Keys == w.clients.Keys
            && (forall m :: m in w.clients ==>
                  w'.clients[m].modes == w.clients[m].modes + if m == c && accepted then {'o', 'w'} else {})
            && (!accepted ==> OnlyTold(w, w', {c}, Numeric(464)))
            && (accepted ==> c in w.clients && w'.clients[c].log == w.clients[c].log + [Numeric(381), Message("MODE")])
  {
    hide Inv, Closed;
  }

  lemma AwayExactly<C, H>(w: World<C, H>, c: C, text: string)
    requires Issues(w, c, Away(text))
    ensures var w' := Step(w, Issue(c, Away(text)));
            && c in w'.clients
            && w'.clients[c] == w.clients[c].(modes := w'.clients[c].modes)
            && (forall x :: x in w'.clients[c].modes <==> if x == 'a' then text != "" else x in w.clients[c].modes)
  {
    hide Inv, Closed;
  }

  /** With a nick nobody has, nothing happens but that the client is told so. */
  lemma UnknownNickIsTold<C, H>(w: World<C, H>, c: C, command: Command<C, H>, nick: Name)
    requires Issues(w, c, command) && LOWER(nick) !in w.nicks
    requires command.Kill? || command.UserModes? || command.InviteTo? || command.KickFrom? || command.Tell?
    requires nick == if command.Tell? then command.target else command.nick
    requires command.Kill? ==> IrcOp(w, c)
    requires command.KickFrom? ==> Exists(w, command.channel)
    requires command.Tell? ==> !IsChannel(nick) && nick != "*"
    ensures Step(w, Issue(c, command)).channels == w.channels
    ensures OnlyTold(w, Step(w, Issue(c, command)), {c}, Numeric(401))
  {
    hide Inv, Closed, OnlyTold, IsChannel, Say, Step, Possible, Quit, Invite, Kick, ApplyUserModes, Broadcast, Indexed;
    AfterStep(w, c, command);
    SayTells(w, c, 401);
  }

  // ------------------------------------------------------------------- user modes

  /** The last change of the mode decides. */
  predicate LastSign(changes: seq<ModeChange>, x: UserMode, before: bool) {
    if changes == [] then before
    else
      var last := changes[|changes| - 1];
      if last.mode == x && last.op == '+' then true
      else if last.mode == x && last.op == '-' then false
      else LastSign(changes[..|changes| - 1], x, before)
  }

  lemma {:induction false} LastSignDecides(modes: set<UserMode>, changes: seq<ModeChange>, x: UserMode)
    ensures var after := ApplyUserModes(modes, changes).0;
            x in after <==>
            if x in "ixwZ" then LastSign(changes, x, x in modes)
            else x in modes && (x == 'o' ==> ModeChange('o', '-') !in changes)
  {
    if changes != [] {
      var n := |changes| - 1;
      LastSignDecides(modes, changes[..n], x);
      assert changes == changes[..n] + [changes[n]];
    }
  }

  lemma UserModesStep<C, H>(w: World<C, H>, c: C, nick: Name, changes: seq<ModeChange>)
    requires Issues(w, c, UserModes(nick, changes))
    ensures c in w.clients && !w.clients[c].hasQuit && w.nicks.Values <= w.clients.Keys
    ensures Step(w, Issue(c, UserModes(nick, changes))) == ChangeUserModes(w, c, nick, changes)
  {
    hide Inv, ChangeUserModes, Step, Possible;
    AfterStep(w, c, UserModes(nick, changes));
  }

  /**
   * MODE for a user, by the user or an IRC operator: of the four modes that can be changed the last sign decides, `o`
   * can be given up, and every other mode stays. By anybody else nothing changes.
   */
  lemma UserModesExactly<C, H>(w: World<C, H>, c: C, nick: Name, changes: seq<ModeChange>, x: UserMode)
    requires Issues(w, c, UserModes(nick, changes)) && LOWER(nick) in w.nicks
    ensures var t, w' := w.nicks[LOWER(nick)], Step(w, Issue(c, UserModes(nick, changes)));
            && t in w.clients && t in w'.clients
            && (x in w'.clients[t].modes <==>
                if t != c && !IrcOp(w, c) then x in w.clients[t].modes
                else if x in "ixwZ" then LastSign(changes, x, x in w.clients[t].modes)
                else x in w.clients[t].modes && (x == 'o' ==> ModeChange('o', '-') !in changes))
            && (t != c && !IrcOp(w, c) ==> OnlyTold(w, w', {c}, Numeric(502)))
  {
    hide Inv, ApplyUserModes, LastSign, Step, Possible, OnlyTold, ChangeUserModes;
    UserModesStep(w, c, nick, changes);
    IndexedNick(w, nick);
    UserModesOutcome(w, c, nick, changes);
    LastSignDecides(w.clients[w.nicks[LOWER(nick)]].modes, changes, x);
  }

  lemma UserModesOutcome<C, H>(w: World<C, H>, c: C, nick: Name, changes: seq<ModeChange>)
    requires c in w.clients && w.nicks.Values <= w.clients.Keys && LOWER(nick) in w.nicks && w.nicks[LOWER(nick)] in w.clients
    ensures var t, w' := w.nicks[LOWER(nick)], ChangeUserModes(w, c, nick, changes);
            && t in w'.clients
            && w'.clients[t].modes == (if t != c && !IrcOp(w, c) then w.clients[t].modes
                                       else ApplyUserModes(w.clients[t].modes, changes).0)
            && (t != c && !IrcOp(w, c) ==> OnlyTold(w, w', {c}, Numeric(502)))
  {
    hide ApplyUserModes, Say, OnlyTold;
    var t := w.nicks[LOWER(nick)];
    if t != c && !IrcOp(w, c) {
      SayTells(w, c, 502);
      SayOutcome(w, c, [Numeric(502)]);
    } else {
      var w1 := SetClient(w, t, w.clients[t].(modes := ApplyUserModes(w.clients[t].modes, changes).0));
      SayOutcome(w1, c, [Message("MODE")]);
      SayOutcome(w1, c, [Numeric(221)]);
    }
  }

  // ------------------------------------------------------------------------ nicks

  lemma ChangeNickOutcome<C, H>(w: World<C, H>, c: C, nick: Name)
    requires c in w.clients && !w.clients[c].hasQuit
    ensures SharersTold(w, ChangeNick(w, c, nick), c, Renamed(w.clients[c].nick, nick))
    ensures ChangeNick(w, c, nick).clients[c]
         == w.clients[c].(nick := nick, log := w.clients[c].log + [Renamed(w.clients[c].nick, nick)])
  {
    hide IndexAdd, IndexRemove;
  }

  /** The nick is legal, and free or, in other letters, the client's own. */
  ghost predicate MayHave<C, H>(w: World<C, H>, c: C, nick: Name) {
    nick != "" && IsNickname(nick) && (LOWER(nick) !in w.nicks || w.nicks[LOWER(nick)] == c)
  }

  /** NICK changes the nick exactly to one the client may have, and whoever shares a channel is told; no other nick changes. */
  lemma NickExactly<C, H>(w: World<C, H>, c: C, nick: Name)
    requires Issues(w, c, Nick(nick)) && nick != w.clients[c].nick
    ensures var w' := Step(w, Issue(c, Nick(nick)));
            && w'.clients.Keys == w.clients.Keys
            && (forall m :: m in w.clients ==>
                  w'.clients[m].nick == if m == c && MayHave(w, c, nick) then nick else w.clients[m].nick)
            && if MayHave(w, c, nick) then SharersTold(w, w', c, Renamed(w.clients[c].nick, nick))
               else OnlyTold(w, w', {c}, Numeric(if nick == "" then 431 else if !IsNickname(nick) then 432 else 433))
  {
    hide Inv, IsNickname, ChangeNick, Step, Possible, Say, Shares;
    NickStep(w, c, nick);
    if MayHave(w, c, nick) {
      ChangeNickOutcome(w, c, nick);
    } else {
      SayTells(w, c, if nick == "" then 431 else if !IsNickname(nick) then 432 else 433);
    }
  }

  /** ONICK gives the target the nick exactly if an IRC operator asks for a legal and free one, not the operator's own. */
  lemma OperNickExactly<C, H>(w: World<C, H>, c: C, target: Name, nick: Name)
    requires Issues(w, c, OperNick(target, nick)) && LOWER(target) in w.nicks
    ensures var t, w' := w.nicks[LOWER(target)], Step(w, Issue(c, OperNick(target, nick)));
            && w'.clients.Keys == w.clients.Keys && nick != "" && t in w.clients
            && var may := IrcOp(w, c) && IsNickname(nick) && nick != w.clients[c].nick && LOWER(nick) !in w.nicks;
            && (forall m :: m in w.clients ==> w'.clients[m].nick == if m == t && may then nick else w.clients[m].nick)
            && (may ==> SharersTold(w, w', t, Renamed(w.clients[t].nick, nick)))
            && (!IrcOp(w, c) ==> OnlyTold(w, w', {c}, Numeric(481)))
  {
    hide Inv, IsNickname, ChangeNick, Step, Possible, Say, Shares, OnlyTold;
    OperNickStep(w, c, target, nick);
    IndexedNick(w, target);
    if !IrcOp(w, c) {
      SayTells(w, c, 481);
      SayOutcome(w, c, [Numeric(481)]);
    } else {
      SayOutcome(w, c, [Numeric(432)]);
      SayOutcome(w, c, [Numeric(433)]);
      ChangeNickOutcome(w, w.nicks[LOWER(target)], nick);
    }
  }

  // ----------------------------------------------------------------- registration

  /** A client that has not registered issues the command. */
  ghost predicate Registering<C, H>(w: World<C, H>, c: C, command: Command<C, H>) {
    Inv(w) && Possible(w, Issue(c, command)) && !w.clients[c].registered
  }

  lemma FirstNickStep<C, H>(w: World<C, H>, c: C, nick: Name)
    requires Registering(w, c, Nick(nick))
    ensures c in w.clients && !w.clients[c].hasQuit && Step(w, Issue(c, Nick(nick))) == RegisterNick(w, c, nick)
  {
    hide Inv, RegisterNick, Step, Possible;
    BeforeStep(w, c, Nick(nick));
  }

  lemma UserStep<C, H>(w: World<C, H>, c: C, username: Name, flags: Option<nat>)
    requires Registering(w, c, User(username, flags))
    ensures c in w.clients && !w.clients[c].hasQuit
    ensures Step(w, Issue(c, User(username, flags))) == RegisterUser(w, c, username, flags)
  {
    hide Inv, RegisterUser, Step, Possible;
    BeforeStep(w, c, User(username, flags));
  }

  lemma CapStep<C, H>(w: World<C, H>, c: C, sub: string, capabilities: set<string>)
    requires Registering(w, c, Cap(sub, capabilities))
    ensures c in w.clients && !w.clients[c].hasQuit
    ensures Step(w, Issue(c, Cap(sub, capabilities))) == Negotiate(w, c, sub, capabilities)
  {
    hide Inv, Negotiate, Step, Possible;
    BeforeStep(w, c, Cap(sub, capabilities));
  }

  lemma TryRegisterOutcome<C, H>(w: World<C, H>, c: C)
    requires c in w.clients
    ensures var client := w.clients[c];
            && c in TryRegister(w, c).clients
            && TryRegister(w, c).clients[c] == client.(registered := TryRegister(w, c).clients[c].registered,
                                                       modes := TryRegister(w, c).clients[c].modes,
                                                       log := TryRegister(w, c).clients[c].log)
    ensures var client := w.clients[c];
            TryRegister(w, c).clients[c].modes
            == client.modes + if TryRegister(w, c).clients[c].registered && !client.registered then {'x'} else {}
  {
    hide LUsers, Say;
    var client := w.clients[c];
    var w1 := SetClient(w, c, client.(registered := true, modes := client.modes + {HOST_MASK}));
    SayOutcome(w1, c, [Welcome(client.nick), Numeric(2), Numeric(3), Numeric(4)] + LUsers(w1) + [Message("MOTD")]);
  }

  /** Without authorization, NICK, USER and AUTHENTICATE end the connection; so does anything but the registration commands. */
  lemma UnauthorizedQuits<C, H>(w: World<C, H>, c: C, command: Command<C, H>)
    requires Registering(w, c, command) && !command.Pass? && !command.Cap?
    requires w.clients[c].authorized ==> !command.Nick? && !command.User? && !command.Authenticate?
    ensures var w' := Step(w, Issue(c, command)); c in w'.clients && w'.clients[c].hasQuit
  {
    hide Inv, Closed, ChoicesFit, Quit, TurnAway;
    Guarantees.TurnAwayNick(w, c);
    QuitOutcome(w, c);
  }

  /** The first NICK is kept exactly if it is legal and free; a later one, before registration, is not looked at. */
  lemma FirstNickExactly<C, H>(w: World<C, H>, c: C, nick: Name)
    requires Registering(w, c, Nick(nick)) && w.clients[c].authorized
    ensures var w' := Step(w, Issue(c, Nick(nick)));
            && c in w'.clients && !w'.clients[c].hasQuit
            && w'.clients[c].nick == (if w.clients[c].nick == "" && nick != "" && LOWER(nick) !in w.nicks && IsNickname(nick)
                                      then nick else w.clients[c].nick)
            && w'.clients[c].username == w.clients[c].username && w'.clients[c].capState == w.clients[c].capState
  {
    hide Inv, IsNickname, TryRegister, Step, Possible, Say, IndexAdd;
    FirstNickStep(w, c, nick);
    SayOutcome(w, c, [Numeric(431)]);
    SayOutcome(w, c, [Numeric(432)]);
    SayOutcome(w, c, [Numeric(433)]);
    TryRegisterOutcome(w, c);
    TryRegisterOutcome(SetClient(w, c, w.clients[c].(nick := nick)).(nicks := IndexAdd(w.nicks, c, nick)), c);
  }

  /** A nick that is missing, taken or not legal is refused, and nothing else happens. */
  lemma FirstNickRefused<C, H>(w: World<C, H>, c: C, nick: Name)
    requires Registering(w, c, Nick(nick)) && w.clients[c].authorized
    requires nick == "" || LOWER(nick) in w.nicks || !IsNickname(nick)
    ensures OnlyTold(w, Step(w, Issue(c, Nick(nick))), {c},
                     Numeric(if nick == "" then 431 else if LOWER(nick) in w.nicks then 433 else 432))
  {
    hide Inv, IsNickname, TryRegister, Step, Possible, Say, OnlyTold;
    FirstNickStep(w, c, nick);
    SayTells(w, c, if nick == "" then 431 else if LOWER(nick) in w.nicks then 433 else 432);
  }

  /** USER sets the user name, and `w` and `i` by the bits for 4 and 8; registering adds `x`. */
  lemma UserExactly<C, H>(w: World<C, H>, c: C, username: Name, flags: Option<nat>)
    requires Registering(w, c, User(username, flags)) && w.clients[c].authorized
    ensures var w' := Step(w, Issue(c, User(username, flags)));
            && c in w'.clients && !w'.clients[c].hasQuit
            && w'.clients[c].username == username
            && w'.clients[c].nick == w.clients[c].nick && w'.clients[c].capState == w.clients[c].capState
            && (forall x :: x in w'.clients[c].modes <==>
                  || x in w.clients[c].modes
                  || (x == 'w' && flags.Some? && flags.value / 4 % 2 == 1)
                  || (x == 'i' && flags.Some? && flags.value / 8 % 2 == 1)
                  || (x == 'x' && w'.clients[c].registered))
  {
    hide Inv, TryRegister, IndexAdd, IndexRemove, Step, Possible;
    UserStep(w, c, username, flags);
    var modes := if flags.Some? then UserFlags(flags.value) else {};
    var w1 := if modes == {} then w
              else Say(SetClient(w, c, w.clients[c].(modes := w.clients[c].modes + modes)), c, [Numeric(221)]);
    TryRegisterOutcome(SetClient(w1, c, w1.clients[c].(username := username)).(
      nicks := IndexAdd(IndexRemove(w1.nicks, c, w1.clients[c].nick), c, w1.clients[c].nick)), c);
  }

  lemma Bit2(flags: bv8)
    ensures flags & 4 == 4 <==> flags as int / 4 % 2 == 1
  {
  }

  lemma Bit3(flags: bv8)
    ensures flags & 8 == 8 <==> flags as int / 8 % 2 == 1
  {
  }

  /** The flags of USER are those of section 3.1.3 of RFC 2812: bit 2 for `w` and bit 3 for `i`. */
  lemma FlagBits(flags: bv8)
    ensures UserFlags(flags as nat) == (if flags & 4 == 4 then {'w'} else {}) + (if flags & 8 == 8 then {'i'} else {})
  {
    Bit2(flags);
    Bit3(flags);
  }

  /** LS opens the negotiation and END closes it; REQ adds all it names or nothing, and CLEAR gives everything up. */
  ghost predicate Negotiated<H>(a: ClientRec<H>, b: ClientRec<H>, sub: string, capabilities: set<string>) {
    && b.capState == (if sub == "LS" then CapNegotiating else if sub == "END" then CapNegotiated else a.capState)
    && b.capabilities == (if sub == "REQ" && capabilities <= {"multi-prefix", "sasl"} then a.capabilities + capabilities
                          else if sub == "CLEAR" then {} else a.capabilities)
    && b.nick == a.nick && b.username == a.username && b.hasQuit == a.hasQuit
  }

  /** The record has not changed but for what is told of it elsewhere. */
  lemma NegotiatedBy<H>(a: ClientRec<H>, mid: ClientRec<H>, b: ClientRec<H>, sub: string, capabilities: set<string>)
    requires Negotiated(a, mid, sub, capabilities)
    requires b == mid.(registered := b.registered, modes := b.modes, log := b.log)
    ensures Negotiated(a, b, sub, capabilities)
  {
  }

  lemma CapOutcome<C, H>(w: World<C, H>, c: C, sub: string, capabilities: set<string>, client: ClientRec<H>, replies: seq<Reply>)
    requires c in w.clients && Negotiated(w.clients[c], client, sub, capabilities)
    ensures c in Say(SetClient(w, c, client), c, replies).clients
    ensures Negotiated(w.clients[c], Say(SetClient(w, c, client), c, replies).clients[c], sub, capabilities)
  {
    hide Negotiated, Say;
    SayOutcome(SetClient(w, c, client), c, replies);
    NegotiatedBy(w.clients[c], client, Say(SetClient(w, c, client), c, replies).clients[c], sub, capabilities);
  }

  lemma NegotiateOutcome<C, H>(w: World<C, H>, c: C, sub: string, capabilities: set<string>)
    requires c in w.clients
    ensures c in Negotiate(w, c, sub, capabilities).clients
    ensures Negotiated(w.clients[c], Negotiate(w, c, sub, capabilities).clients[c], sub, capabilities)
  {
    hide TryRegister, Say;
    var client := w.clients[c];
    assert SetClient(w, c, client) == w;
    if sub == "LS" {
      CapOutcome(w, c, sub, capabilities, client.(capState := CapNegotiating), [Message("CAP LS")]);
    } else if sub == "LIST" {
      CapOutcome(w, c, sub, capabilities, client, [Message("CAP LIST")]);
    } else if sub == "REQ" {
      if capabilities <= SUPPORTED_CAPABILITIES {
        var more := client.(capabilities := client.capabilities + capabilities);
        CapOutcome(w, c, sub, capabilities, more, [Message("CAP ACK")]);
      } else {
        CapOutcome(w, c, sub, capabilities, client, [Message("CAP NAK")]);
      }
    } else if sub == "CLEAR" {
      CapOutcome(w, c, sub, capabilities, client.(capabilities := {}), [Message("CAP ACK")]);
    } else if sub == "END" {
      var ended := client.(capState := CapNegotiated);
      TryRegisterOutcome(SetClient(w, c, ended), c);
      NegotiatedBy(client, ended, TryRegister(SetClient(w, c, ended), c).clients[c], sub, capabilities);
    } else {
      CapOutcome(w, c, sub, capabilities, client, [Numeric(410)]);
    }
  }

  lemma CapExactly<C, H>(w: World<C, H>, c: C, sub: string, capabilities: set<string>)
    requires Registering(w, c, Cap(sub, capabilities))
    ensures var w' := Step(w, Issue(c, Cap(sub, capabilities)));
            c in w.clients && c in w'.clients && Negotiated(w.clients[c], w'.clients[c], sub, capabilities)
  {
    hide Inv, Step, Possible, Negotiate, Negotiated;
    CapStep(w, c, sub, capabilities);
    NegotiateOutcome(w, c, sub, capabilities);
  }

  /** A request for capabilities is answered by whether it was granted. */
  lemma CapIsAnswered<C, H>(w: World<C, H>, c: C, capabilities: set<string>)
    requires Registering(w, c, Cap("REQ", capabilities))
    ensures var w' := Step(w, Issue(c, Cap("REQ", capabilities)));
            && c in w.clients && c in w'.clients
            && w'.clients[c].log == w.clients[c].log
                 + [Message(if capabilities <= {"multi-prefix", "sasl"} then "CAP ACK" else "CAP NAK")]
  {
    hide Inv, Step, Possible;
    CapStep(w, c, "REQ", capabilities);
  }

  /** AUTHENTICATE gives `r` exactly if it completes credentials that are accepted. */
  lemma AuthenticateExactly<C, H>(w: World<C, H>, c: C, arg: string)
    requires Registering(w, c, Authenticate(arg)) && w.clients[c].authorized
    ensures var w' := Step(w, Issue(c, Authenticate(arg)));
            var (sasl, outcome) := Sasl.Receive(w.clients[c].sasl, arg);
            && c in w'.clients && !w'.clients[c].hasQuit
            && w'.clients[c].sasl == sasl
            && w'.clients[c].modes == w.clients[c].modes + (if outcome.Judged? && outcome.verdict.Accepted? then {'r'} else {})
            && (outcome.Judged? ==>
                  w'.clients[c].log == w.clients[c].log + (if outcome.verdict.Accepted?
                                                           then [Numeric(900), Numeric(903), Message("MODE")] else [Numeric(904)]))
            && (outcome.Stored? ==> w'.clients[c].log == w.clients[c].log)
  {
    hide Inv, Closed, Sasl.Receive, SaslReplies;
    SaslTold(Sasl.Receive(w.clients[c].sasl, arg).1);
  }

  lemma SaslTold(outcome: Sasl.Outcome)
    ensures outcome.Judged? && outcome.verdict.Accepted? ==> SaslReplies(outcome) == [Numeric(900), Numeric(903), Message("MODE")]
    ensures outcome.Judged? && !outcome.verdict.Accepted? ==> SaslReplies(outcome) == [Numeric(904)]
    ensures outcome.Stored? ==> SaslReplies(outcome) == []
  {
    if outcome.Judged? {
      match outcome.verdict
      case BadEncoding =>
      case BadBlob =>
      case IdMismatch =>
      case BadPassword =>
      case Accepted(_) =>
    }
  }

  // --------------------------------------------------------------------- messages

  /** Who may speak on a channel. */
  ghost predicate Heard<C, H>(w: World<C, H>, h: H, c: C)
    requires c in w.clients && h in w.channels
  {
    var channel := w.channels[h];
    || InCharge(w, h, c)
    || (&& ('n' in channel.flags ==> On(w, h, c))
        && ('m' in channel.flags ==> On(w, h, c) && 'v' in channel.members[c])
        && ('Z' in channel.flags ==> 'z' in w.clients[c].modes))
  }

  /** A message to a channel reaches exactly the other members, if its sender may speak there; otherwise the sender is told. */
  lemma TellChannelExactly<C, H>(w: World<C, H>, c: C, notice: bool, name: Name)
    requires Issues(w, c, Tell(notice, name)) && IsChannel(name) && Exists(w, name) && Named(w, name) in w.channels
    ensures var h, w' := Named(w, name), Step(w, Issue(c, Tell(notice, name)));
            if Heard(w, h, c)
            then OnlyTold(w, w', w.channels[h].members.Keys - {c}, Message(if notice then "NOTICE" else "PRIVMSG"))
            else OnlyTold(w, w', {c}, Numeric(404))
  {
    hide Inv, Closed, IsChannel, Indexed;
    TellStep(w, c, notice, name);
    StarIsNoChannel(name);
  }

  lemma StarIsNoChannel(name: Name)
    requires IsChannel(name)
    ensures name != "*"
  {
  }

  lemma TellStep<C, H>(w: World<C, H>, c: C, notice: bool, target: Name)
    requires Issues(w, c, Tell(notice, target))
    ensures c in w.clients && !w.clients[c].hasQuit && w.names.Values <= w.channels.Keys && w.nicks.Values <= w.clients.Keys
    ensures Step(w, Issue(c, Tell(notice, target))) == TellName(w, c, notice, target)
  {
    hide Inv, TellName;
  }

  /** If either wants secure connections only, both must have one, or the sender be an IRC operator. */
  ghost predicate Reaches<C, H>(w: World<C, H>, c: C, t: C)
    requires c in w.clients && t in w.clients
  {
    ('Z' in w.clients[c].modes || 'Z' in w.clients[t].modes) && !IrcOp(w, c) ==>
      'z' in w.clients[c].modes && 'z' in w.clients[t].modes
  }

  /** A message to a nick reaches exactly its holder; a PRIVMSG to somebody away is also answered. */
  lemma TellNickExactly<C, H>(w: World<C, H>, c: C, notice: bool, nick: Name)
    requires Issues(w, c, Tell(notice, nick)) && !IsChannel(nick) && LOWER(nick) in w.nicks
    requires !(notice && nick == "*" && IrcOp(w, c))
    ensures var t, w' := w.nicks[LOWER(nick)], Step(w, Issue(c, Tell(notice, nick)));
            var message := Message(if notice then "NOTICE" else "PRIVMSG");
            && t in w.clients
            && (if !Reaches(w, c, t) then OnlyTold(w, w', {c}, Numeric(492))
                else if notice || 'a' !in w.clients[t].modes then OnlyTold(w, w', {t}, message)
                else c != t ==>
                  && w'.clients == w.clients[t := w.clients[t].(log := w.clients[t].log + [message])]
                                            [c := w.clients[c].(log := w.clients[c].log + [Numeric(301)])])
  {
    hide Inv, Closed, IsChannel, Step, Possible, Indexed;
    TellStep(w, c, notice, nick);
    IndexedNick(w, nick);
  }

  /** WALLOPS and a NOTICE to `*` by an IRC operator reach exactly the live clients with a nick, WALLOPS those with `w`. */
  lemma SentToAll<C, H>(w: World<C, H>, c: C, command: Command<C, H>)
    requires Issues(w, c, command) && (command == Wallops || command == Tell(true, "*")) && IrcOp(w, c)
    ensures var w' := Step(w, Issue(c, command));
            && w'.clients.Keys == w.clients.Keys
            && (forall m :: m in w.clients ==>
                  w'.clients[m] == if !w.clients[m].hasQuit && w.clients[m].nick != "" && (command == Wallops ==> 'w' in w.clients[m].modes)
                                   then w.clients[m].(log := w.clients[m].log + [Message("NOTICE")]) else w.clients[m])
  {
    hide InvBut, Closed, IsChannel;
    IndexedAreNamed(w, command == Wallops);
  }

  lemma IndexedAreNamed<C, H>(w: World<C, H>, onlyWallOps: bool)
    requires Inv(w)
    ensures Indexed(w, onlyWallOps)
         == set m | m in w.clients && !w.clients[m].hasQuit && w.clients[m].nick != "" && (onlyWallOps ==> 'w' in w.clients[m].modes)
  {
    hide LocalsOk, MembersOk, NamesOkBut, ReplicasOk;
  }

  // ----------------------------------------------------------------------- LUSERS

  /** LUSERS tells of operators, unknown connections and channels exactly if there are any. */
  lemma LUsersExactly<C, H>(w: World<C, H>, c: C) returns (told: seq<Reply>)
    requires Issues(w, c, ListUsers)
    ensures var w' := Step(w, Issue(c, ListUsers));
            && c in w.clients && w'.clients == w.clients[c := w.clients[c].(log := w.clients[c].log + told)]
            && (Numeric(252) in told <==>
                exists m :: m in w.clients && !w.clients[m].hasQuit && w.clients[m].nick != "" && 'o' in w.clients[m].modes)
            && (Numeric(253) in told <==> w.connections != |w.nicks|)
            && (Numeric(254) in told <==> w.names != map[])
  {
    hide InvBut, Closed;
    told := LUsers(w);
    SomeOperatorIs(w);
  }

  lemma SomeOperatorIs<C, H>(w: World<C, H>)
    requires Inv(w)
    ensures SomeOperator(w) <==>
            exists m :: m in w.clients && !w.clients[m].hasQuit && w.clients[m].nick != "" && 'o' in w.clients[m].modes
  {
    hide LocalsOk, MembersOk, NamesOkBut, ReplicasOk;
    if m :| m in w.clients && !w.clients[m].hasQuit && w.clients[m].nick != "" && 'o' in w.clients[m].modes {
      assert w.nicks[LOWER(w.clients[m].nick)] == m;
    }
  }

  // -------------------------------------------------------------------- the rest

  /** The commands of registration come too late after it, and the client is told so and nothing else happens. */
  lemma TooLateIsTold<C, H>(w: World<C, H>, c: C, command: Command<C, H>)
    requires Issues(w, c, command)
    requires command.Pass? || command.User? || command.Cap? || command.Authenticate? || command.Unrecognised?
    ensures Step(w, Issue(c, command)).channels == w.channels
    ensures OnlyTold(w, Step(w, Issue(c, command)), {c}, Numeric(if command.Pass? || command.User? then 462 else 421))
  {
    hide Inv, Closed, OnlyTold, Say, Step, Possible;
    AfterStep(w, c, command);
    SayTells(w, c, 462);
    SayTells(w, c, 421);
  }

  /** A channel name that is not legal cannot be joined. */
  lemma IllegalNameIsTold<C, H>(w: World<C, H>, c: C, name: Name, key: string, made: H, order: seq<C>)
    requires Issues(w, c, Join(name, key, made, order)) && !IsChannel(name)
    ensures Step(w, Issue(c, Join(name, key, made, order))).channels == w.channels
    ensures OnlyTold(w, Step(w, Issue(c, Join(name, key, made, order))), {c}, Numeric(403))
  {
    hide Inv, Closed, OnlyTold, Say, IsChannel;
    SayTells(w, c, 403);
  }

  /** A new connection has no nick, no user name and no channels, has not registered, and changes no other client. */
  lemma ConnectExactly<C, H>(w: World<C, H>, c: C, secure: bool, hostname: Name, noPassword: bool)
    requires Possible(w, Connect(c, secure, hostname, noPassword))
    ensures var w' := Step(w, Connect(c, secure, hostname, noPassword));
            && w'.clients == w.clients[c := ClientRec("", "", hostname, secure, noPassword, false, false, false, CapNone, {},
                                                      if secure then {'z'} else {}, Sasl.INITIAL, {}, [])]
            && w'.channels == w.channels && w'.nicks == w.nicks && w'.names == w.names
  {
  }

  /** The shutdown notice reaches exactly the live clients with a nick. */
  lemma ShutdownExactly<C, H>(w: World<C, H>)
    requires Inv(w)
    ensures var w' := Step(w, Shutdown);
            && w'.clients.Keys == w.clients.Keys
            && (forall m :: m in w.clients ==>
                  w'.clients[m] == if !w.clients[m].hasQuit && w.clients[m].nick != ""
                                   then w.clients[m].(log := w.clients[m].log + [Message("NOTICE")]) else w.clients[m])
  {
    hide InvBut;
    IndexedAreNamed(w, false);
  }

  /** A nick that is given up, by NICK or by QUIT, is recorded for WHOWAS, and nothing else is. */
  lemma WhoWasRecords<C, H>(w: World<C, H>, c: C, command: Command<C, H>)
    requires Issues(w, c, command) && (command == QuitCommand || (command.Nick? && command.nick != w.clients[c].nick))
    ensures c in w.clients
    ensures Step(w, Issue(c, command)).whoWas
         == w.whoWas + if command.QuitCommand? || MayHave(w, c, command.nick) then [w.clients[c].nick] else []
  {
    hide InvBut, Closed, IsNickname, Say, Step, Possible, LeaveChannels, Friends, IndexAdd, IndexRemove;
    AfterStep(w, c, command);
    RegisteredHasUsername(w, c);
    SayKeepsWhoWas(w, c, 431);
    SayKeepsWhoWas(w, c, 432);
    SayKeepsWhoWas(w, c, 433);
  }

  lemma SayKeepsWhoWas<C, H>(w: World<C, H>, c: C, code: nat)
    requires c in w.clients
    ensures Say(w, c, [Numeric(code)]).whoWas == w.whoWas && w.whoWas + [] == w.whoWas
  {
  }
}
