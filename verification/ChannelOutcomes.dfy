/**
 * What each command achieves, told from the state and the request, and nothing else.
 *
 * The laws are over whole steps: the test whether the client has registered, the look-ups and the replies included.
 * They use the letters of the protocol and none of the functions that make up a step.
 */
module ChannelOutcomes {
  import opened Names
  import opened Modes
  import opened Strings
  import opened ServerState
  import opened Invariants
  import opened NickSteps
  import opened LeavingSteps
  import opened Runs
  import opened Effects
  import opened QuietSteps
  import opened Replica
  import Masks
  import Multiline

  // ------------------------------------------------------------------- who may do what

  ghost predicate IrcOp<C, H>(w: World<C, H>, c: C)
    requires c in w.clients
  {
    'o' in w.clients[c].modes
  }

  ghost predicate On<C, H>(w: World<C, H>, h: H, c: C)
    requires h in w.channels
  {
    c in w.channels[h].members
  }

  ghost predicate ChanOp<C, H>(w: World<C, H>, h: H, c: C)
    requires h in w.channels
  {
    On(w, h, c) && 'o' in w.channels[h].members[c]
  }

  ghost predicate InCharge<C, H>(w: World<C, H>, h: H, c: C)
    requires c in w.clients && h in w.channels
  {
    IrcOp(w, c) || ChanOp(w, h, c)
  }

  /** A registered client issues the command. */
  ghost predicate Issues<C, H>(w: World<C, H>, c: C, command: Command<C, H>) {
    Inv(w) && Possible(w, Issue(c, command)) && w.clients[c].registered
  }

  ghost predicate Exists<C, H>(w: World<C, H>, name: Name) {
    LOWER(name) in w.names
  }

  /** The channel of that name. */
  ghost function Named<C, H>(w: World<C, H>, name: Name): H
    requires Exists(w, name)
  {
    w.names[LOWER(name)]
  }

  /** Everybody in `to` has been sent the reply, and nobody else has been sent anything or changed. */
  ghost predicate OnlyTold<C, H>(w: World<C, H>, w': World<C, H>, to: set<C>, reply: Reply) {
    && w'.clients.Keys == w.clients.Keys
    && (forall m :: m in w.clients ==>
          w'.clients[m] == if m in to && !w.clients[m].hasQuit
                           then w.clients[m].(log := w.clients[m].log + [reply]) else w.clients[m])
  }

  // -------------------------------------------------------------------- leaving

  lemma LeaveOutcome<C, H>(w: World<C, H>, h: H, t: C, reply: Reply)
    requires h in w.channels
    ensures Leave(w, h, t, reply).channels == w.channels[h := w.channels[h].(members := w.channels[h].members - {t})]
    ensures OnlyTold(w, Leave(w, h, t, reply), w.channels[h].members.Keys, reply)
  {
  }

  lemma SayTells<C, H>(w: World<C, H>, c: C, code: nat)
    requires c in w.clients
    ensures OnlyTold(w, Say(w, c, [Numeric(code)]), {c}, Numeric(code)) && Say(w, c, [Numeric(code)]).channels == w.channels
  {
  }

  lemma NamedExists<C, H>(w: World<C, H>, name: Name)
    requires Inv(w) && Exists(w, name)
    ensures Named(w, name) in w.channels && LOWER(w.channels[Named(w, name)].name) == LOWER(name)
  {
    hide LocalsOk, NicksOk, MembersOk, ReplicasOk;
  }

  lemma IndexedNick<C, H>(w: World<C, H>, nick: Name)
    requires Inv(w) && LOWER(nick) in w.nicks
    ensures var t := w.nicks[LOWER(nick)]; t in w.clients && !w.clients[t].hasQuit && w.clients[t].nick != ""
  {
    hide LocalsOk, NamesOkBut, MembersOk, ReplicasOk;
  }

  lemma KickStep<C, H>(w: World<C, H>, c: C, name: Name, nick: Name)
    requires Issues(w, c, KickFrom(name, nick))
    ensures c in w.clients && w.names.Values <= w.channels.Keys && w.nicks.Values <= w.clients.Keys
    ensures Step(w, Issue(c, KickFrom(name, nick))) == KickName(w, c, name, nick)
  {
    hide Inv, KickName;
  }

  /**
   * A KICK succeeds exactly if its target is on the channel and the kicker in charge of it: then that member and nobody
   * else is off, and all who were on it are told.
   */
  lemma KickExactly<C, H>(w: World<C, H>, c: C, name: Name, nick: Name)
    requires Issues(w, c, KickFrom(name, nick)) && Exists(w, name) && LOWER(nick) in w.nicks
    requires Named(w, name) in w.channels
    ensures var h, t, w' := Named(w, name), w.nicks[LOWER(nick)], Step(w, Issue(c, KickFrom(name, nick)));
            var channel := w.channels[h];
            var may := InCharge(w, h, c) && On(w, h, t);
            && t in w.clients
            && w'.channels == (if may then w.channels[h := channel.(members := channel.members - {t})] else w.channels)
            && if may then OnlyTold(w, w', channel.members.Keys, Kicked(channel.name, w.clients[t].nick))
               else OnlyTold(w, w', {c}, Numeric(if InCharge(w, h, c) then 441 else if On(w, h, c) then 482 else 442))
  {
    hide Inv, Closed, Leave, Step, Possible, OnlyTold, Say;
    KickStep(w, c, name, nick);
    NamedExists(w, name);
    IndexedNick(w, nick);
    var h, t := Named(w, name), w.nicks[LOWER(nick)];
    LeaveOutcome(w, h, t, Kicked(w.channels[h].name, w.clients[t].nick));
    SayTells(w, c, 441);
    SayTells(w, c, 442);
    SayTells(w, c, 482);
  }

  /** PART takes exactly the issuer off, if it is on the channel, and all who were on it are told. */
  lemma PartExactly<C, H>(w: World<C, H>, c: C, command: Command<C, H>, h: H)
    requires Issues(w, c, command) && h in w.channels
    requires command == PartObject(h) || (command.PartFrom? && Exists(w, command.channel) && Named(w, command.channel) == h)
    ensures var w' := Step(w, Issue(c, command));
            var channel := w.channels[h];
            && w'.channels == (if On(w, h, c) then w.channels[h := channel.(members := channel.members - {c})] else w.channels)
            && if On(w, h, c) then OnlyTold(w, w', channel.members.Keys, Parted(w.clients[c].nick, channel.name))
               else OnlyTold(w, w', {c}, Numeric(442))
  {
    hide Inv, Closed, Leave, OnlyTold, Say;
    SayTells(w, c, 442);
    LeaveOutcome(w, h, c, Parted(w.clients[c].nick, w.channels[h].name));
  }

  /** With a channel name that does not exist, nothing happens but that the client is told so. */
  lemma UnknownNameIsTold<C, H>(w: World<C, H>, c: C, command: Command<C, H>)
    requires Issues(w, c, command) && (command.PartFrom? || command.KickFrom? || command.SetModes? || command.Topic?)
    requires !Exists(w, command.channel)
    ensures Step(w, Issue(c, command)).channels == w.channels
    ensures OnlyTold(w, Step(w, Issue(c, command)), {c}, Numeric(403))
  {
    hide Inv, Closed;
  }

  // -------------------------------------------------------------------- joining

  /** A list of masks names the client: exactly so for one mask; two or more name everybody. */
  ghost predicate Listed<C, H>(channel: ChannelRec<C>, mode: ChannelMode, client: ClientRec<H>) {
    && mode in channel.lists
    && (|channel.lists[mode]| >= 2
        || exists mask :: mask in channel.lists[mode] && Masks.Glob(mask, client.nick + "!" + client.username + "@" + client.hostname))
  }

  /** What a channel asks of somebody who is not in charge of it. */
  ghost predicate LetsIn<C, H>(channel: ChannelRec<C>, client: ClientRec<H>, key: string) {
    && (channel.userLimit == 0 || |channel.members| < channel.userLimit)
    && (channel.key == "" || channel.key == key)
    && ('i' in channel.flags ==> Listed(channel, 'I', client))
    && (Listed(channel, 'b', client) ==> Listed(channel, 'I', client) || Listed(channel, 'e', client))
  }

  /** Why a channel does not let the client in: the limit, the key, the invitation or the ban, whichever comes first. */
  ghost function Reason<C, H>(channel: ChannelRec<C>, client: ClientRec<H>, key: string): nat {
    if channel.userLimit > 0 && |channel.members| >= channel.userLimit then 471
    else if channel.key != "" && channel.key != key then 475
    else if 'i' in channel.flags && !Listed(channel, 'I', client) then 473
    else 474
  }

  lemma RegisteredHasUsername<C, H>(w: World<C, H>, c: C)
    requires Inv(w) && c in w.clients && w.clients[c].registered
    ensures w.clients[c].username != "" && w.clients[c].nick != ""
  {
    hide NicksOk, NamesOkBut, MembersOk, ReplicasOk;
    assert LocalOk(w.clients[c]);
  }

  lemma ListedIs<C, H>(channel: ChannelRec<C>, mode: ChannelMode, client: ClientRec<H>)
    requires client.username != ""
    ensures Matches(channel, mode, client) <==> Listed(channel, mode, client)
  {
    hide Masks.Glob;
  }

  lemma RefusalIs<C, H>(client: ClientRec<H>, channel: ChannelRec<C>, c: C, key: string)
    requires client.username != "" && c !in channel.members
    ensures Refusal(client, channel, c, key)
         == if 'o' in client.modes || LetsIn(channel, client, key) then None else Some(Reason(channel, client, key))
  {
    hide Matches, Listed;
    ListedIs(channel, 'b', client);
    ListedIs(channel, 'e', client);
    ListedIs(channel, 'I', client);
  }

  /**
   * A client that is not on an existing channel is on it after JOIN exactly if it is an IRC operator or the channel
   * lets it in. It gets no modes there, and nothing else changes about any channel.
   */
  lemma JoinExactly<C, H>(w: World<C, H>, c: C, name: Name, key: string, made: H, order: seq<C>)
    requires Issues(w, c, Join(name, key, made, order)) && IsChannel(name) && Exists(w, name)
    requires Named(w, name) in w.channels && !On(w, Named(w, name), c)
    ensures var h, w' := Named(w, name), Step(w, Issue(c, Join(name, key, made, order)));
            var channel := w.channels[h];
            if IrcOp(w, c) || LetsIn(channel, w.clients[c], key)
            then w'.channels == w.channels[h := channel.(members := channel.members[c := {}])]
            else w'.channels == w.channels && OnlyTold(w, w', {c}, Numeric(Reason(channel, w.clients[c], key)))
  {
    hide Inv, LetsIn, Refusal, Say, Admit, Enumerates, Closed, OnlyTold, Reason;
    var h := Named(w, name);
    RegisteredHasUsername(w, c);
    IndexedNonEmpty(w, LOWER(name));
    RefusalIs(w.clients[c], w.channels[h], c, key);
    SayTells(w, c, Reason(w.channels[h], w.clients[c], key));
    JoinChannelChannels(w, h, c, key, order);
  }

  lemma JoinAgain<C, H>(w: World<C, H>, c: C, name: Name, key: string, made: H, order: seq<C>)
    requires Issues(w, c, Join(name, key, made, order)) && IsChannel(name) && Exists(w, name)
    requires Named(w, name) in w.channels && On(w, Named(w, name), c)
    ensures Step(w, Issue(c, Join(name, key, made, order))) == w
  {
    hide Inv, Closed, Enumerates;
  }

  /** NAMES lists, on lines under the channel's name, exactly the nicks of the members, and changes nothing else. */
  lemma NamesExactly<C, H>(w: World<C, H>, c: C, name: Name, order: seq<C>) returns (batches: seq<seq<string>>)
    requires Issues(w, c, NamesOf(name, order)) && Exists(w, name) && Named(w, name) in w.channels
    ensures var h, w' := Named(w, name), Step(w, Issue(c, NamesOf(name, order)));
            && c in w.clients
            && w'.clients == w.clients[c := w.clients[c].(log :=
                 w.clients[c].log + (NamesLines(w.channels[h].name, batches) + [Numeric(366)]))]
            && w'.channels == w.channels
            && StripAll(Multiline.Flatten(batches)) == NicksOn(w, h)
  {
    hide InvBut, Closed, NamesEntries, StripAll, NicksOn, Enumerates, Step, Possible;
    NamesStep(w, c, name, order);
    var h := Named(w, name);
    batches := Multiline.Pack(NamesBase(NickOrStar(w.clients[c].nick)), NamesEntries(w, h, c, order));
    Multiline.PackConserves(NamesBase(NickOrStar(w.clients[c].nick)), NamesEntries(w, h, c, order));
    InvParts(w);
    MembersAreNamed(w, h);
    EntriesAreNicks(w, h, c, order);
  }

  lemma NamesStep<C, H>(w: World<C, H>, c: C, name: Name, order: seq<C>)
    requires Issues(w, c, NamesOf(name, order)) && Exists(w, name) && Named(w, name) in w.channels
    ensures c in w.clients && !w.clients[c].hasQuit && Closed(w) && NamesOrderFits(w, name, order)
    ensures Enumerates(order, w.channels[Named(w, name)].members.Keys)
    ensures forall m :: m in order ==> m in w.clients && m in w.channels[Named(w, name)].members
    ensures Step(w, Issue(c, NamesOf(name, order))) == NamesName(w, c, name, order)
  {
    hide Inv, NamesName;
    var h := Named(w, name);
    assert forall m :: m in order ==> m in w.channels[h].members.Keys;
  }

  // ------------------------------------------------------------ topics and invitations

  /** A topic is set exactly by members and those in charge, under `+t` only by the latter; all members are told. */
  lemma TopicExactly<C, H>(w: World<C, H>, c: C, name: Name, topic: string)
    requires Issues(w, c, Topic(name, topic)) && Exists(w, name) && Named(w, name) in w.channels
    ensures var h, w' := Named(w, name), Step(w, Issue(c, Topic(name, topic)));
            var channel := w.channels[h];
            var may := InCharge(w, h, c) || (On(w, h, c) && 't' !in channel.flags);
            && w'.channels == (if may then w.channels[h := channel.(topic := topic)] else w.channels)
            && if may then OnlyTold(w, w', channel.members.Keys, Message("TOPIC"))
               else OnlyTold(w, w', {c}, Numeric(if On(w, h, c) then 482 else 442))
  {
    hide Inv, Closed;
  }

  /** How a client is named by masks. */
  function FullName<H>(client: ClientRec<H>): string {
    client.nick + "!" + (if client.username == "" then "*" else client.username) + "@" + client.hostname
  }

  lemma FullNameIs<H>(client: ClientRec<H>)
    ensures UserHost(client) == FullName(client)
  {
  }

  lemma InviteStep<C, H>(w: World<C, H>, c: C, nick: Name, name: Name)
    requires Issues(w, c, InviteTo(nick, name))
    ensures c in w.clients && !w.clients[c].hasQuit && w.names.Values <= w.channels.Keys && w.nicks.Values <= w.clients.Keys
    ensures Step(w, Issue(c, InviteTo(nick, name))) == InviteName(w, c, nick, name)
  {
    hide Inv, InviteName;
  }

  /** Who is in charge, or without `+i` any member, may invite; under `+i` the invited client's full name is put on the list. */
  lemma InviteExactly<C, H>(w: World<C, H>, c: C, nick: Name, name: Name)
    requires Issues(w, c, InviteTo(nick, name)) && Exists(w, name) && Named(w, name) in w.channels && LOWER(nick) in w.nicks
    ensures var h, t, w' := Named(w, name), w.nicks[LOWER(nick)], Step(w, Issue(c, InviteTo(nick, name)));
            var channel := w.channels[h];
            var may := InCharge(w, h, c) || (On(w, h, c) && 'i' !in channel.flags);
            && t in w.clients && t in w'.clients
            && w'.channels == (if may && 'i' in channel.flags
                               then w.channels[h := channel.(lists := channel.lists['I' :=
                                      (if 'I' in channel.lists then channel.lists['I'] else {}) + {FullName(w.clients[t])}])]
                               else w.channels)
            && (t != c ==> w'.clients[t] == if may then w.clients[t].(log := w.clients[t].log + [Message("INVITE")])
                                           else w.clients[t])
            && w'.clients[t] == w.clients[t].(log := w'.clients[t].log)
            && (!may ==> OnlyTold(w, w', {c}, Numeric(if 'i' in channel.flags then 482 else 442)))
  {
    hide Inv, Closed, UserHost, Step, Possible;
    InviteStep(w, c, nick, name);
    IndexedNick(w, nick);
    FullNameIs(w.clients[w.nicks[LOWER(nick)]]);
  }

  lemma {:induction false} GlobSelf(s: string)
    requires '\n' !in s
    ensures Masks.Glob(s, s)
  {
    if s != "" {
      GlobSelf(s[1..]);
      if s[0] == '*' {
        assert Masks.Glob(s[1..], s[1..]) ==> Masks.Glob(s, s[1..]);
      }
    }
  }

  /** An invitation to a channel under `+i`, by somebody in charge, opens it. */
  lemma InvitedIsListed<C, H>(w: World<C, H>, c: C, nick: Name, name: Name)
    requires Issues(w, c, InviteTo(nick, name)) && Exists(w, name) && Named(w, name) in w.channels && LOWER(nick) in w.nicks
    requires InCharge(w, Named(w, name), c) && 'i' in w.channels[Named(w, name)].flags
    requires w.nicks[LOWER(nick)] in w.clients && w.clients[w.nicks[LOWER(nick)]].username != ""
    requires '\n' !in FullName(w.clients[w.nicks[LOWER(nick)]])
    ensures var h, t, w' := Named(w, name), w.nicks[LOWER(nick)], Step(w, Issue(c, InviteTo(nick, name)));
            h in w'.channels && t in w'.clients && Listed(w'.channels[h], 'I', w'.clients[t])
  {
    hide Inv, Closed, Step, Possible, Masks.Glob;
    var t := w.nicks[LOWER(nick)];
    InviteExactly(w, c, nick, name);
    GlobSelf(FullName(w.clients[t]));
  }

  /** A ban on a nick, whoever the user is, names exactly the clients with that nick, letter for letter. */
  lemma NickMaskExactly(nick: Name, other: Name, username: Name, hostname: Name)
    requires forall i :: 0 <= i < |nick| ==> nick[i] !in "*?!"
    requires '!' !in other && '\n' !in username && '\n' !in hostname
    ensures Masks.Glob(nick + "!*@*", other + "!" + username + "@" + hostname) <==> other == nick
  {
    hide Masks.Glob;
    UpToMark(nick, "*@*", other, username + "@" + hostname);
    StarAtStar(username, hostname);
    assert nick + "!" + "*@*" == nick + "!*@*";
    assert other + "!" + (username + "@" + hostname) == other + "!" + username + "@" + hostname;
  }

  lemma {:induction false} UpToMark(a: string, mask: string, b: string, s: string)
    requires forall i :: 0 <= i < |a| ==> a[i] !in "*?!"
    requires '!' !in b
    ensures Masks.Glob(a + "!" + mask, b + "!" + s) <==> a == b && Masks.Glob(mask, s)
  {
    assert a != "" ==> (a + "!" + mask)[1..] == a[1..] + "!" + mask;
    assert b != "" ==> (b + "!" + s)[1..] == b[1..] + "!" + s;
    if a == "" || b == "" {
      assert ("!" + mask)[1..] == mask && ("!" + s)[1..] == s;
      assert "" + "!" + mask == "!" + mask && "" + "!" + s == "!" + s;
    } else {
      UpToMark(a[1..], mask, b[1..], s);
      assert a == [a[0]] + a[1..] && b == [b[0]] + b[1..];
    }
  }

  lemma StarAtStar(a: string, b: string)
    requires '\n' !in a && '\n' !in b
    ensures Masks.Glob("*@*", a + "@" + b)
  {
    var s := a + "@" + b;
    assert s[|a|..] == "@" + b && ("@" + b)[1..] == b && "@*"[1..] == "*" && "*@*"[1..] == "@*" && "*"[1..] == "";
    assert b[|b|..] == "" && Masks.Glob("", "");
    Masks.StarMatches("*", b, |b|);
    Masks.StarMatches("*@*", s, |a|);
  }

  // ------------------------------------------------------------------- legal names

  /** A nick can be taken neither for a channel nor for a mask, a list, a server, a full name or a prefixed entry. */
  lemma NickIsUnmistakable(nick: Name)
    requires nick != "" && IsNickname(nick)
    ensures !IsChannel(nick)
    ensures forall i :: 0 <= i < |nick| ==> nick[i] != '*' && nick[i] != '?' && nick[i] != ',' && nick[i] != '.' && nick[i] != '!' && nick[i] != '@'
    ensures nick[0] != '@' && nick[0] != '+' && nick[0] != '-' && !('0' <= nick[0] <= '9')
  {
    var f, g := FORBIDDEN_IN_NICKS, FORBIDDEN_FIRST_IN_NICKS;
    assert f[0] == '*' && f[1] == '?' && f[2] == '.' && f[3] == ',' && f[4] == '!' && f[5] == '@';
    assert g[0] == '#' && g[2] == '&' && g[3] == '@' && g[5] == '+' && g[6] == '-';
    assert g[7] == '1' && g[8] == '2' && g[9] == '3' && g[10] == '4' && g[11] == '5';
    assert g[12] == '6' && g[13] == '7' && g[14] == '8' && g[15] == '9' && g[16] == '0';
  }

  /** Names made of the right characters are legal exactly up to a length: 32 for nicks, and 64 with the prefix for channels. */
  lemma LengthsExactly(letters: string)
    requires letters != "" && forall i :: 0 <= i < |letters| ==> 'a' <= letters[i] <= 'z' && NICK_CHAR(letters[i]) && CHANNEL_CHAR(letters[i])
    ensures IsNickname(letters) <==> |letters| <= 32
    ensures forall p :: p in "#&!+" ==> (IsChannel([p] + letters) <==> |letters| <= 63)
  {
    assert forall p: char, i :: 1 <= i < |[p] + letters| ==> ([p] + letters)[i] == letters[i - 1];
  }
}
