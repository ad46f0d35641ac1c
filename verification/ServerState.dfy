/**
 * The state of the server as a value, and what each command makes of it.
 *
 * `C` and `H` stand for the identities of the client and channel objects.
 */
module ServerState {
  import opened Names
  import opened Modes
  import opened Strings
  import Masks
  import Multiline
  import Sasl

  // ---------------------------------------------------------------- replies

  /** A reply, as far as a client that replays its replies can tell it from others. */
  datatype Reply =
    | Welcome(nick: Name)
    | Joined(nick: Name, channel: Name)
    | Parted(nick: Name, channel: Name)
    | Kicked(channel: Name, nick: Name)
    | HasQuit(nick: Name)
    | Renamed(nick: Name, newNick: Name)
    | NamesLine(channel: Name, entries: seq<string>)
    | ChannelModes(nick: Name, channel: Name, changes: seq<ChannelModeChange>)
    | Numeric(code: nat)
    | Message(verb: string)

  // ------------------------------------------------------------------ state

  datatype CapState = CapNone | CapNegotiating | CapNegotiated

  const SUPPORTED_CAPABILITIES: set<string> := {"multi-prefix", "sasl"}

  datatype ClientRec<H> = ClientRec(
    nick: Name,
    username: Name,
    hostname: Name,
    secure: bool,
    authorized: bool,
    registered: bool,
    hasQuit: bool,
    closed: bool,
    capState: CapState,
    capabilities: set<string>,
    modes: set<UserMode>,
    sasl: Sasl.State,
    channels: set<H>,
    log: seq<Reply>)

  datatype ChannelRec<C> = ChannelRec(
    name: Name,
    flags: set<ChannelMode>,
    lists: map<ChannelMode, set<Name>>,
    key: string,
    members: map<C, set<ChannelMode>>,
    topic: string,
    userLimit: nat)

  /** `clients` and `channels` hold every object ever made; `nicks` and `names` are the server's two indexes. */
  datatype World<C, H> = World(
    clients: map<C, ClientRec<H>>,
    channels: map<H, ChannelRec<C>>,
    nicks: map<Name, C>,
    names: map<Name, H>,
    connections: int,
    whoWas: seq<Name>)

  ghost function EmptyWorld<C, H>(): World<C, H> {
    World(map[], map[], map[], map[], 0, [])
  }

  function NewClient<H>(secure: bool, hostname: Name, noPassword: bool): ClientRec<H> {
    ClientRec("", "", hostname, secure, noPassword, false, false, false, CapNone, {},
              if secure then {SECURE_CONN} else {}, Sasl.INITIAL, {}, [])
  }

  function NewChannel<C>(name: Name): ChannelRec<C> {
    ChannelRec(name, {NO_OUTSIDE, OP_ONLY_TOPIC}, map[BAN_MASK := {}, EXCEPT_MASK := {}, INVITE_MASK := {}],
               "", map[], "", 0)
  }

  /** `Client.UserHost` without cloaking. */
  function UserHost<H>(client: ClientRec<H>): Name {
    client.nick + "!" + (if client.username == "" then "*" else client.username) + "@" + client.hostname
  }

  ghost function MasksOf<C>(channel: ChannelRec<C>, mode: ChannelMode): set<Name> {
    if mode in channel.lists then channel.lists[mode] else {}
  }

  ghost predicate Matches<C, H>(channel: ChannelRec<C>, mode: ChannelMode, client: ClientRec<H>) {
    Masks.Match(MasksOf(channel, mode), UserHost(client))
  }

  ghost predicate HasMode<C>(channel: ChannelRec<C>, c: C, mode: ChannelMode) {
    c in channel.members && mode in channel.members[c]
  }

  ghost predicate IsOperator<C>(oper: bool, channel: ChannelRec<C>, c: C) {
    oper || HasMode(channel, c, CHANNEL_OPERATOR)
  }

  // ----------------------------------------------------------- elementary steps

  /** `Client.Reply`: a client that has quit is sent nothing. */
  ghost function Receive<H>(client: ClientRec<H>, replies: seq<Reply>): ClientRec<H> {
    if client.hasQuit then client else client.(log := client.log + replies)
  }

  ghost function Say<C, H>(w: World<C, H>, c: C, replies: seq<Reply>): World<C, H>
    requires c in w.clients
  {
    w.(clients := w.clients[c := Receive(w.clients[c], replies)])
  }

  ghost function Broadcast<C, H>(w: World<C, H>, to: set<C>, reply: Reply): World<C, H> {
    w.(clients := map c | c in w.clients ::
      if c in to then Receive(w.clients[c], [reply]) else w.clients[c])
  }

  ghost function SetClient<C, H>(w: World<C, H>, c: C, client: ClientRec<H>): World<C, H> {
    w.(clients := w.clients[c := client])
  }

  ghost function SetChannel<C, H>(w: World<C, H>, h: H, channel: ChannelRec<C>): World<C, H> {
    w.(channels := w.channels[h := channel])
  }

  // ----------------------------------------------------------------- nick index

  /** `ClientLookupSet.Add`; both of its errors leave the index as it is. */
  function IndexAdd<C>(nicks: map<Name, C>, c: C, nick: Name): map<Name, C> {
    if nick == "" || LOWER(nick) in nicks then nicks else nicks[LOWER(nick) := c]
  }

  /** `ClientLookupSet.Remove`; both of its errors leave the index as it is. */
  ghost function IndexRemove<C>(nicks: map<Name, C>, c: C, nick: Name): map<Name, C> {
    if nick == "" || LOWER(nick) !in nicks || nicks[LOWER(nick)] != c then nicks else nicks - {LOWER(nick)}
  }

  /** `ClientLookupSet.Add` returns no error. */
  predicate AddSucceeds<C>(nicks: map<Name, C>, nick: Name) {
    nick != "" && LOWER(nick) !in nicks
  }

  /** `ClientLookupSet.Remove` returns no error. */
  ghost predicate RemoveSucceeds<C>(nicks: map<Name, C>, c: C, nick: Name) {
    nick != "" && LOWER(nick) in nicks && nicks[LOWER(nick)] == c
  }

  ghost predicate Taken<C, H>(w: World<C, H>, nick: Name) {
    LOWER(nick) in w.nicks
  }

  // ------------------------------------------------------------------- channels

  /** Removing a member, and the channel from the map of names if nobody is left. */
  ghost function ChannelQuit<C, H>(w: World<C, H>, h: H, c: C): World<C, H>
    requires h in w.channels
  {
    var channel := w.channels[h].(members := w.channels[h].members - {c});
    var w' := SetChannel(w, h, channel);
    var key := LOWER(channel.name);
    if channel.members == map[] && key in w.names && w.names[key] == h
    then w'.(names := w.names - {key})
    else w'
  }

  /** The entry of a member in a NAMES line. */
  function NamesEntry(nick: Name, modes: set<ChannelMode>, multiPrefix: bool): string {
    var op := if CHANNEL_OPERATOR in modes then "@" else "";
    var voice := if VOICE in modes && (multiPrefix || CHANNEL_OPERATOR !in modes) then "+" else "";
    op + voice + nick
  }

  function NickOrStar(nick: Name): Name {
    if nick == "" then "*" else nick
  }

  ghost function NamesEntries<C, H>(w: World<C, H>, h: H, c: C, order: seq<C>): (entries: seq<string>)
    requires c in w.clients && h in w.channels
    requires forall m :: m in order ==> m in w.clients && m in w.channels[h].members
    ensures |entries| == |order|
  {
    var multiPrefix := "multi-prefix" in w.clients[c].capabilities;
    seq(|order|, i requires 0 <= i < |order| =>
      NamesEntry(NickOrStar(w.clients[order[i]].nick), w.channels[h].members[order[i]], multiPrefix))
  }

  /** The server's name, as configured. */
  const SERVER_NAME: Name

  /** The length of a NAMES line before its arguments are put in. */
  function NamesBase(nick: Name): nat {
    Bytes(":" + SERVER_NAME + " 353 " + nick + " = %s :%s")
  }

  function NamesLines(channel: Name, batches: seq<seq<string>>): seq<Reply> {
    seq(|batches|, i requires 0 <= i < |batches| => NamesLine(channel, batches[i]))
  }

  /** The replies to NAMES for one channel, its members taken in the given order. */
  ghost function NamesReplies<C, H>(w: World<C, H>, h: H, c: C, order: seq<C>): seq<Reply>
    requires c in w.clients && h in w.channels
    requires forall m :: m in order ==> m in w.clients && m in w.channels[h].members
  {
    NamesLines(w.channels[h].name, Multiline.Pack(NamesBase(NickOrStar(w.clients[c].nick)), NamesEntries(w, h, c, order)))
    + [Numeric(366)]
  }

  /** An order in which the members of a channel can be visited. */
  ghost predicate Enumerates<T>(order: seq<T>, elements: set<T>) {
    && (set t | t in order) == elements
    && (forall i, j :: 0 <= i < j < |order| ==> order[i] != order[j])
  }

  ghost predicate IsFull<C>(channel: ChannelRec<C>) {
    channel.userLimit > 0 && |channel.members| >= channel.userLimit
  }

  /** Why a client may not join, as the code of the error reply. */
  ghost function Refusal<C, H>(client: ClientRec<H>, channel: ChannelRec<C>, c: C, key: string): Option<nat> {
    var op := IsOperator(OPERATOR in client.modes, channel, c);
    var invited := Matches(channel, INVITE_MASK, client);
    if !op && IsFull(channel) then Some(471)
    else if !op && channel.key != "" && channel.key != key then Some(475)
    else if !op && INVITE_ONLY in channel.flags && !invited then Some(473)
    else if Matches(channel, BAN_MASK, client) && !invited && !op && !Matches(channel, EXCEPT_MASK, client) then Some(474)
    else None
  }

  ghost function AddMember<C, H>(w: World<C, H>, h: H, c: C): World<C, H>
    requires c in w.clients && h in w.channels
  {
    var channel := w.channels[h];
    var modes := if channel.members == map[] then {CHANNEL_CREATOR, CHANNEL_OPERATOR} else {};
    SetChannel(SetClient(w, c, w.clients[c].(channels := w.clients[c].channels + {h})),
               h, channel.(members := channel.members[c := modes]))
  }

  function TopicReply(topic: string): Reply {
    if topic == "" then Numeric(331) else Numeric(332)
  }

  /** The accepted part of a JOIN. */
  ghost function Admit<C, H>(w: World<C, H>, h: H, c: C, order: seq<C>): World<C, H>
    requires c in w.clients && h in w.channels
    requires w.channels[h].members.Keys <= w.clients.Keys
    requires forall m :: m in order ==> m in w.channels[h].members || m == c
  {
    var w1 := AddMember(w, h, c);
    var w2 := Broadcast(w1, w1.channels[h].members.Keys, Joined(w.clients[c].nick, w.channels[h].name));
    Say(w2, c, [TopicReply(w.channels[h].topic)] + NamesReplies(w2, h, c, order))
  }

  /** `Channel.Part` for a member. */
  ghost function Leave<C, H>(w: World<C, H>, h: H, c: C, reply: Reply): World<C, H>
    requires h in w.channels
  {
    ChannelQuit(Broadcast(w, w.channels[h].members.Keys, reply), h, c)
  }

  ghost function Part<C, H>(w: World<C, H>, h: H, c: C): World<C, H>
    requires c in w.clients && h in w.channels
  {
    if c !in w.channels[h].members then Say(w, c, [Numeric(442)])
    else Leave(w, h, c, Parted(w.clients[c].nick, w.channels[h].name))
  }

  ghost function Kick<C, H>(w: World<C, H>, h: H, c: C, target: C): World<C, H>
    requires c in w.clients && target in w.clients && h in w.channels
  {
    var channel := w.channels[h];
    var op := IsOperator(OPERATOR in w.clients[c].modes, channel, c);
    if !op && c !in channel.members then Say(w, c, [Numeric(442)])
    else if !op then Say(w, c, [Numeric(482)])
    else if target !in channel.members then Say(w, c, [Numeric(441)])
    else Leave(w, h, target, Kicked(channel.name, NickOrStar(w.clients[target].nick)))
  }

  ghost function SetTopic<C, H>(w: World<C, H>, h: H, c: C, topic: string): World<C, H>
    requires c in w.clients && h in w.channels
  {
    var channel := w.channels[h];
    var op := IsOperator(OPERATOR in w.clients[c].modes, channel, c);
    if !op && c !in channel.members then Say(w, c, [Numeric(442)])
    else if OP_ONLY_TOPIC in channel.flags && !op then Say(w, c, [Numeric(482)])
    else Broadcast(SetChannel(w, h, channel.(topic := topic)), channel.members.Keys, Message("TOPIC"))
  }

  ghost function Invite<C, H>(w: World<C, H>, h: H, invitee: C, inviter: C): World<C, H>
    requires inviter in w.clients && invitee in w.clients && h in w.channels
  {
    var channel := w.channels[h];
    var op := IsOperator(OPERATOR in w.clients[inviter].modes, channel, inviter);
    if INVITE_ONLY in channel.flags && !op then Say(w, inviter, [Numeric(482)])
    else if inviter !in channel.members && !op then Say(w, inviter, [Numeric(442)])
    else
      var invited := MasksOf(channel, INVITE_MASK) + {UserHost(w.clients[invitee])};
      var w1 := if INVITE_ONLY in channel.flags
                then SetChannel(w, h, channel.(lists := channel.lists[INVITE_MASK := invited])) else w;
      var w2 := Say(Say(w1, inviter, [Numeric(341)]), invitee, [Message("INVITE")]);
      if AWAY in w.clients[invitee].modes then Say(w2, inviter, [Numeric(301)]) else w2
  }

  // ---------------------------------------------------------------- channel modes

  /** The channel after one requested change, whether it was applied, and the replies to the requester. */
  datatype ModeResult<C> = ModeResult(channel: ChannelRec<C>, applied: bool, replies: seq<Reply>)

  const FLAG_MODES: set<ChannelMode> :=
    {INVITE_ONLY, MODERATED, NO_OUTSIDE, OP_ONLY_TOPIC, PRIVATE, SECRET, SECURE_CHAN}

  const MASK_MODES: set<ChannelMode> := {BAN_MASK, EXCEPT_MASK, INVITE_MASK}

  function Repeat<T>(n: nat, t: T): seq<T> {
    seq(n, _ => t)
  }

  function MaskListCode(mode: ChannelMode): nat {
    if mode == BAN_MASK then 367 else if mode == EXCEPT_MASK then 348 else 346
  }

  function EndOfMaskListCode(mode: ChannelMode): nat {
    if mode == BAN_MASK then 368 else if mode == EXCEPT_MASK then 349 else 347
  }

  ghost function ApplyMask<C>(channel: ChannelRec<C>, op: bool, change: ChannelModeChange): ModeResult<C> {
    var mode := change.mode;
    if mode !in channel.lists then ModeResult(channel, false, [])
    else
      var masks := channel.lists[mode];
      if change.op == LIST || change.arg == "" then
        ModeResult(channel, false, Repeat(|masks|, Numeric(MaskListCode(mode))) + [Numeric(EndOfMaskListCode(mode))])
      else if !op then ModeResult(channel, false, [Numeric(482)])
      else if change.op == ADD && change.arg !in masks then
        ModeResult(channel.(lists := channel.lists[mode := masks + {change.arg}]), true, [])
      else if change.op == REMOVE && change.arg in masks then
        ModeResult(channel.(lists := channel.lists[mode := masks - {change.arg}]), true, [])
      else ModeResult(channel, false, [])
  }

  ghost function ApplyFlag<C>(channel: ChannelRec<C>, op: bool, change: ChannelModeChange): ModeResult<C> {
    if !op then ModeResult(channel, false, [Numeric(482)])
    else if change.op == ADD && change.mode !in channel.flags then
      ModeResult(channel.(flags := channel.flags + {change.mode}), true, [])
    else if change.op == REMOVE && change.mode in channel.flags then
      ModeResult(channel.(flags := channel.flags - {change.mode}), true, [])
    else ModeResult(channel, false, [])
  }

  ghost function ApplyKey<C>(channel: ChannelRec<C>, op: bool, change: ChannelModeChange): ModeResult<C> {
    if !op then ModeResult(channel, false, [Numeric(482)])
    else if change.op == ADD then
      if change.arg == "" then ModeResult(channel, false, [Numeric(461)])
      else if change.arg == channel.key then ModeResult(channel, false, [])
      else ModeResult(channel.(key := change.arg), true, [])
    else if change.op == REMOVE then ModeResult(channel.(key := ""), true, [])
    else ModeResult(channel, false, [])
  }

  function Digit(c: char): Option<nat> {
    if '0' <= c <= '9' then Some(c as int - '0' as int) else None
  }

  function DecimalValue(s: string): Option<nat> {
    if s == "" then Some(0) else
      match (DecimalValue(s[..|s| - 1]), Digit(s[|s| - 1]))
      case (Some(n), Some(d)) => Some(10 * n + d)
      case _ => None
  }

  /** `strconv.ParseUint(s, 10, 64)`. */
  function ParseUint64(s: string): Option<nat> {
    match DecimalValue(s)
    case Some(n) => if s != "" && n < 0x1_0000_0000_0000_0000 then Some(n) else None
    case None => None
  }

  /** No operator status is asked for, and `+` and `-` do the same. */
  ghost function ApplyLimit<C>(channel: ChannelRec<C>, change: ChannelModeChange): ModeResult<C> {
    match ParseUint64(change.arg)
    case None => ModeResult(channel, false, [Numeric(461)])
    case Some(limit) =>
      if limit == 0 || limit == channel.userLimit then ModeResult(channel, false, [])
      else ModeResult(channel.(userLimit := limit), true, [])
  }

  ghost function ApplyMember<C>(channel: ChannelRec<C>, nicks: map<Name, C>, op: bool, change: ChannelModeChange)
    : ModeResult<C>
  {
    var nick := LOWER(change.arg);
    if !op then ModeResult(channel, false, [Numeric(482)])
    else if change.arg == "" then ModeResult(channel, false, [Numeric(461)])
    else if nick !in nicks then ModeResult(channel, false, [Numeric(401)])
    else
      var target := nicks[nick];
      if target !in channel.members then ModeResult(channel, false, [Numeric(441)])
      else
        var modes := channel.members[target];
        if change.op == ADD && change.mode !in modes then
          ModeResult(channel.(members := channel.members[target := modes + {change.mode}]), true, [])
        else if change.op == REMOVE && change.mode in modes then
          ModeResult(channel.(members := channel.members[target := modes - {change.mode}]), true, [])
        else ModeResult(channel, false, [])
  }

  /** `Channel.applyMode` for a requester `c` who is (`oper`) or is not an IRC operator. */
  ghost function ApplyMode<C>(channel: ChannelRec<C>, nicks: map<Name, C>, oper: bool, c: C, change: ChannelModeChange)
    : ModeResult<C>
  {
    var op := IsOperator(oper, channel, c);
    if change.mode in MASK_MODES then ApplyMask(channel, op, change)
    else if change.mode in FLAG_MODES then ApplyFlag(channel, op, change)
    else if change.mode == KEY then ApplyKey(channel, op, change)
    else if change.mode == USER_LIMIT then ApplyLimit(channel, change)
    else if change.mode == CHANNEL_OPERATOR || change.mode == VOICE then ApplyMember(channel, nicks, op, change)
    else ModeResult(channel, false, [Numeric(472)])
  }

  /** The channel after a batch, the changes that were applied, and the replies to the requester. */
  datatype BatchResult<C> = BatchResult(channel: ChannelRec<C>, applied: seq<ChannelModeChange>, replies: seq<Reply>)

  ghost function ApplyModes<C>(channel: ChannelRec<C>, nicks: map<Name, C>, oper: bool, c: C,
                               changes: seq<ChannelModeChange>): BatchResult<C>
  {
    if changes == [] then BatchResult(channel, [], [])
    else
      var n := |changes| - 1;
      var before := ApplyModes(channel, nicks, oper, c, changes[..n]);
      var last := ApplyMode(before.channel, nicks, oper, c, changes[n]);
      BatchResult(last.channel,
                  if last.applied then before.applied + [changes[n]] else before.applied,
                  before.replies + last.replies)
  }

  ghost function ChangeModes<C, H>(w: World<C, H>, h: H, c: C, changes: seq<ChannelModeChange>): World<C, H>
    requires c in w.clients && h in w.channels
  {
    if changes == [] then Say(w, c, [Numeric(324)])
    else
      var result := ApplyModes(w.channels[h], w.nicks, OPERATOR in w.clients[c].modes, c, changes);
      var w1 := Say(SetChannel(w, h, result.channel), c, result.replies);
      if result.applied == [] then w1
      else Broadcast(w1, result.channel.members.Keys,
                     ChannelModes(w.clients[c].nick, result.channel.name, result.applied))
  }

  // --------------------------------------------------------------------- clients

  /** The client and everybody on a channel it has ever joined. */
  ghost function Friends<C, H>(w: World<C, H>, c: C): set<C>
    requires c in w.clients
  {
    {c} + set h, m | h in w.clients[c].channels && h in w.channels && m in w.channels[h].members :: m
  }

  ghost function ChangeNick<C, H>(w: World<C, H>, c: C, nick: Name): World<C, H>
    requires c in w.clients
  {
    var client := w.clients[c];
    var w1 := SetClient(w, c, client.(nick := nick)).(
      nicks := IndexAdd(IndexRemove(w.nicks, c, client.nick), c, nick),
      whoWas := w.whoWas + [NickOrStar(client.nick)]);
    Broadcast(w1, Friends(w1, c), Renamed(client.nick, nick))
  }

  /** Removing a client from some of its channels, as `destroy` does one at a time. */
  ghost function LeaveChannels<C, H>(w: World<C, H>, c: C, some: set<H>): World<C, H> {
    w.(channels := map h | h in w.channels ::
         if h in some then w.channels[h].(members := w.channels[h].members - {c}) else w.channels[h],
       names := map k | k in w.names && !Vacates(w, c, some, k) :: w.names[k])
  }

  /** The name `k` loses its channel when `c` leaves `some`. */
  ghost predicate Vacates<C, H>(w: World<C, H>, c: C, some: set<H>, k: Name)
    requires k in w.names
  {
    var h := w.names[k];
    && h in some
    && h in w.channels
    && w.channels[h].members - {c} == map[]
    && LOWER(w.channels[h].name) == k
  }

  ghost function Quit<C, H>(w: World<C, H>, c: C): World<C, H>
    requires c in w.clients
  {
    var client := w.clients[c];
    if client.hasQuit then w else
      var w1 := SetClient(w, c, client.(hasQuit := true, closed := true));
      var w2 := LeaveChannels(w1, c, client.channels).(
        nicks := IndexRemove(w.nicks, c, client.nick),
        connections := w.connections - 1,
        whoWas := w.whoWas + [NickOrStar(client.nick)]);
      Broadcast(w2, Friends(w, c) - {c}, HasQuit(client.nick))
  }

  // ---------------------------------------------------------------- registration

  ghost function Unknown<C, H>(w: World<C, H>): int {
    w.connections - |w.nicks|
  }

  ghost predicate SomeOperator<C, H>(w: World<C, H>) {
    exists k :: k in w.nicks && w.nicks[k] in w.clients && OPERATOR in w.clients[w.nicks[k]].modes
  }

  ghost function LUsers<C, H>(w: World<C, H>): seq<Reply> {
    [Numeric(251)]
    + (if SomeOperator(w) then [Numeric(252)] else [])
    + (if Unknown(w) != 0 then [Numeric(253)] else [])
    + (if w.names != map[] then [Numeric(254)] else [])
    + [Numeric(255)]
  }

  ghost function TryRegister<C, H>(w: World<C, H>, c: C): World<C, H>
    requires c in w.clients
  {
    var client := w.clients[c];
    if client.registered || client.nick == "" || client.username == "" || client.capState == CapNegotiating then w
    else
      var w1 := SetClient(w, c, client.(registered := true, modes := client.modes + {HOST_MASK}));
      Say(w1, c, [Welcome(client.nick), Numeric(2), Numeric(3), Numeric(4)] + LUsers(w1) + [Message("MOTD")])
  }

  /** Every registration command but PASS and CAP turns an unauthorized client away. */
  ghost function TurnAway<C, H>(w: World<C, H>, c: C): World<C, H>
    requires c in w.clients
  {
    Quit(Say(w, c, [Numeric(464)]), c)
  }

  // -------------------------------------------------------------------- commands

  /**
   * A command line with the choices the map iterations leave open. A command that names several channels is one
   * `Join`, `PartFrom` or `KickFrom` for each.
   */
  datatype Command<C, H> =
    | Pass(accepted: bool)
    | Nick(nick: Name)
    | User(username: Name, flags: Option<nat>)
    | Cap(sub: string, capabilities: set<string>)
    | Authenticate(arg: string)
    | QuitCommand
    | Join(channel: Name, key: string, made: H, order: seq<C>)
    | PartFrom(channel: Name)
    | PartObject(left: H)
    | KickFrom(channel: Name, nick: Name)
    | UserModes(nick: Name, userChanges: seq<ModeChange>)
    | SetModes(channel: Name, changes: seq<ChannelModeChange>)
    | Topic(channel: Name, topic: string)
    | InviteTo(nick: Name, channel: Name)
    | Oper(accepted: bool)
    | OperNick(target: Name, nick: Name)
    | Away(text: string)
    | NamesOf(channel: Name, order: seq<C>)
    | Wallops
    | Tell(notice: bool, target: Name)
    | Kill(nick: Name)
    | ListUsers
    | Unrecognised

  // ------------------------------------------------------- before registration

  ghost function RegisterNick<C, H>(w: World<C, H>, c: C, nick: Name): World<C, H>
    requires c in w.clients
  {
    if !w.clients[c].authorized then TurnAway(w, c)
    else if nick == "" then Say(w, c, [Numeric(431)])
    else if Taken(w, nick) then Say(w, c, [Numeric(433)])
    else if !IsNickname(nick) then Say(w, c, [Numeric(432)])
    else
      var w1 := if w.clients[c].nick != "" then w
                else SetClient(w, c, w.clients[c].(nick := nick)).(nicks := IndexAdd(w.nicks, c, nick));
      TryRegister(w1, c)
  }

  function UserFlags(flags: nat): set<UserMode> {
    (if flags / 4 % 2 == 1 then {WALL_OPS} else {}) + (if flags / 8 % 2 == 1 then {INVISIBLE} else {})
  }

  ghost function RegisterUser<C, H>(w: World<C, H>, c: C, username: Name, flags: Option<nat>): World<C, H>
    requires c in w.clients
  {
    if !w.clients[c].authorized then TurnAway(w, c)
    else
      var modes := if flags.Some? then UserFlags(flags.value) else {};
      var w1 := if modes == {} then w
                else Say(SetClient(w, c, w.clients[c].(modes := w.clients[c].modes + modes)), c, [Numeric(221)]);
      var nick := w1.clients[c].nick;
      var w2 := SetClient(w1, c, w1.clients[c].(username := username)).(
        nicks := IndexAdd(IndexRemove(w1.nicks, c, nick), c, nick));
      TryRegister(w2, c)
  }

  ghost function Negotiate<C, H>(w: World<C, H>, c: C, sub: string, capabilities: set<string>): World<C, H>
    requires c in w.clients
  {
    var client := w.clients[c];
    if sub == "LS" then Say(SetClient(w, c, client.(capState := CapNegotiating)), c, [Message("CAP LS")])
    else if sub == "LIST" then Say(w, c, [Message("CAP LIST")])
    else if sub == "REQ" then
      if !(capabilities <= SUPPORTED_CAPABILITIES) then Say(w, c, [Message("CAP NAK")])
      else Say(SetClient(w, c, client.(capabilities := client.capabilities + capabilities)), c, [Message("CAP ACK")])
    else if sub == "CLEAR" then Say(SetClient(w, c, client.(capabilities := {})), c, [Message("CAP ACK")])
    else if sub == "END" then TryRegister(SetClient(w, c, client.(capState := CapNegotiated)), c)
    else Say(w, c, [Numeric(410)])
  }

  function SaslReplies(outcome: Sasl.Outcome): seq<Reply> {
    match outcome
    case Aborted => [Numeric(906)]
    case Challenged => [Message("AUTHENTICATE")]
    case UnknownMechanism => [Numeric(908), Numeric(904)]
    case TooLong => [Numeric(904)]
    case Stored => []
    case Judged(_, Accepted(_)) => [Numeric(900), Numeric(903), Message("MODE")]
    case Judged(_, _) => [Numeric(904)]
  }

  predicate LogsIn(outcome: Sasl.Outcome) {
    outcome.Judged? && outcome.verdict.Accepted?
  }

  ghost function AuthenticateWith<C, H>(w: World<C, H>, c: C, arg: string): World<C, H>
    requires c in w.clients
  {
    var client := w.clients[c];
    if !client.authorized then TurnAway(w, c)
    else
      var (sasl, outcome) := Sasl.Receive(client.sasl, arg);
      var modes := if LogsIn(outcome) then client.modes + {REGISTERED} else client.modes;
      Say(SetClient(w, c, client.(sasl := sasl, modes := modes)), c, SaslReplies(outcome))
  }

  /** Before registration only six commands are known; any other one ends the connection. */
  ghost function BeforeRegistration<C, H>(w: World<C, H>, c: C, command: Command<C, H>): World<C, H>
    requires c in w.clients
  {
    match command
    case Pass(accepted) =>
      if accepted then SetClient(w, c, w.clients[c].(authorized := true)) else TurnAway(w, c)
    case Nick(nick) => RegisterNick(w, c, nick)
    case User(username, flags) => RegisterUser(w, c, username, flags)
    case Cap(sub, capabilities) => Negotiate(w, c, sub, capabilities)
    case Authenticate(arg) => AuthenticateWith(w, c, arg)
    case _ => Quit(w, c)
  }

  /** What the indexes point to exists. */
  ghost predicate Closed<C, H>(w: World<C, H>) {
    && w.nicks.Values <= w.clients.Keys
    && w.names.Values <= w.channels.Keys
    && (forall h :: h in w.channels ==> w.channels[h].members.Keys <= w.clients.Keys)
    && (forall c :: c in w.clients ==> w.clients[c].channels <= w.channels.Keys)
  }

  // -------------------------------------------------------- after registration

  ghost function NickRequest<C, H>(w: World<C, H>, c: C, nick: Name): World<C, H>
    requires c in w.clients
  {
    if nick == "" then Say(w, c, [Numeric(431)])
    else if !IsNickname(nick) then Say(w, c, [Numeric(432)])
    else if nick == w.clients[c].nick then w
    else if Taken(w, nick) && w.nicks[LOWER(nick)] != c then Say(w, c, [Numeric(433)])
    else ChangeNick(w, c, nick)
  }

  ghost function OperNickRequest<C, H>(w: World<C, H>, c: C, target: Name, nick: Name): World<C, H>
    requires c in w.clients && w.nicks.Values <= w.clients.Keys && nick != ""
  {
    if OPERATOR !in w.clients[c].modes then Say(w, c, [Numeric(481)])
    else if !IsNickname(nick) then Say(w, c, [Numeric(432)])
    else if nick == w.clients[c].nick then w
    else if !Taken(w, target) then Say(w, c, [Numeric(401)])
    else if Taken(w, nick) then Say(w, c, [Numeric(433)])
    else ChangeNick(w, w.nicks[LOWER(target)], nick)
  }

  ghost function JoinName<C, H>(w: World<C, H>, c: C, name: Name, key: string, made: H, order: seq<C>): World<C, H>
    requires c in w.clients && w.names.Values <= w.channels.Keys
    requires JoinOrderFits(w, c, name, key, made, order)
  {
    if !IsChannel(name) then Say(w, c, [Numeric(403)])
    else
      var h := if LOWER(name) in w.names then w.names[LOWER(name)] else made;
      JoinChannel(WithChannel(w, name, made), h, c, key, order)
  }

  /** The world with a channel of that name, newly made if there was none. */
  ghost function WithChannel<C, H>(w: World<C, H>, name: Name, made: H): World<C, H> {
    if LOWER(name) in w.names then w
    else SetChannel(w, made, NewChannel(name)).(names := w.names[LOWER(name) := made])
  }

  ghost function JoinChannel<C, H>(w: World<C, H>, h: H, c: C, key: string, order: seq<C>): World<C, H>
    requires c in w.clients && h in w.channels
    requires Admitted(w, h, c, key) ==> Enumerates(order, w.channels[h].members.Keys + {c})
    requires w.channels[h].members.Keys <= w.clients.Keys
  {
    if c in w.channels[h].members then w
    else match Refusal(w.clients[c], w.channels[h], c, key)
      case Some(code) => Say(w, c, [Numeric(code)])
      case None => Admit(w, h, c, order)
  }

  ghost predicate Admitted<C, H>(w: World<C, H>, h: H, c: C, key: string)
    requires c in w.clients && h in w.channels
  {
    c !in w.channels[h].members && Refusal(w.clients[c], w.channels[h], c, key).None?
  }

  /** The object a JOIN makes is new, and the members are listed in some order if the client gets in. */
  ghost predicate JoinOrderFits<C, H>(w: World<C, H>, c: C, name: Name, key: string, made: H, order: seq<C>)
    requires c in w.clients && w.names.Values <= w.channels.Keys
  {
    IsChannel(name) ==>
      if LOWER(name) in w.names then
        var h := w.names[LOWER(name)];
        && w.channels[h].members.Keys <= w.clients.Keys
        && (Admitted(w, h, c, key) ==> Enumerates(order, w.channels[h].members.Keys + {c}))
      else
        made !in w.channels && Enumerates(order, {c})
  }

  ghost function PartName<C, H>(w: World<C, H>, c: C, name: Name): World<C, H>
    requires c in w.clients && w.names.Values <= w.channels.Keys
  {
    if LOWER(name) !in w.names then Say(w, c, [Numeric(403)]) else Part(w, w.names[LOWER(name)], c)
  }

  ghost function KickName<C, H>(w: World<C, H>, c: C, name: Name, nick: Name): World<C, H>
    requires c in w.clients && w.names.Values <= w.channels.Keys && w.nicks.Values <= w.clients.Keys
  {
    if LOWER(name) !in w.names then Say(w, c, [Numeric(403)])
    else if !Taken(w, nick) then Say(w, c, [Numeric(401)])
    else Kick(w, w.names[LOWER(name)], c, w.nicks[LOWER(nick)])
  }

  ghost function ModesName<C, H>(w: World<C, H>, c: C, name: Name, changes: seq<ChannelModeChange>): World<C, H>
    requires c in w.clients && w.names.Values <= w.channels.Keys
  {
    if LOWER(name) !in w.names then Say(w, c, [Numeric(403)])
    else ChangeModes(w, w.names[LOWER(name)], c, changes)
  }

  ghost function TopicName<C, H>(w: World<C, H>, c: C, name: Name, topic: string): World<C, H>
    requires c in w.clients && w.names.Values <= w.channels.Keys
  {
    if LOWER(name) !in w.names then Say(w, c, [Numeric(403)])
    else SetTopic(w, w.names[LOWER(name)], c, topic)
  }

  ghost predicate NamesOrderFits<C, H>(w: World<C, H>, name: Name, order: seq<C>)
    requires w.names.Values <= w.channels.Keys
  {
    LOWER(name) in w.names ==> Enumerates(order, w.channels[w.names[LOWER(name)]].members.Keys)
  }

  /** With no channels at all, NAMES is not answered. */
  ghost function NamesName<C, H>(w: World<C, H>, c: C, name: Name, order: seq<C>): World<C, H>
    requires Closed(w) && c in w.clients && NamesOrderFits(w, name, order)
  {
    if w.names == map[] then w
    else if LOWER(name) !in w.names then Say(w, c, [Numeric(403)])
    else
      var h := w.names[LOWER(name)];
      assert forall m :: m in order ==> m in w.channels[h].members.Keys;
      Say(w, c, NamesReplies(w, h, c, order))
  }

  const USER_CHANGEABLE: set<UserMode> := {INVISIBLE, HOST_MASK, WALL_OPS, SECURE_ONLY}

  predicate ChangesUserMode(modes: set<UserMode>, change: ModeChange) {
    || (change.mode in USER_CHANGEABLE && change.op == ADD && change.mode !in modes)
    || (change.mode in USER_CHANGEABLE + {OPERATOR} && change.op == REMOVE && change.mode in modes)
  }

  function ApplyUserMode(modes: set<UserMode>, change: ModeChange): set<UserMode> {
    if !ChangesUserMode(modes, change) then modes
    else if change.op == ADD then modes + {change.mode}
    else modes - {change.mode}
  }

  /** The modes after the changes, and whether any of them had an effect. */
  function ApplyUserModes(modes: set<UserMode>, changes: seq<ModeChange>): (set<UserMode>, bool) {
    if changes == [] then (modes, false)
    else
      var n := |changes| - 1;
      var (before, any) := ApplyUserModes(modes, changes[..n]);
      (ApplyUserMode(before, changes[n]), any || ChangesUserMode(before, changes[n]))
  }

  ghost function ChangeUserModes<C, H>(w: World<C, H>, c: C, nick: Name, changes: seq<ModeChange>): World<C, H>
    requires c in w.clients && w.nicks.Values <= w.clients.Keys
  {
    if !Taken(w, nick) then Say(w, c, [Numeric(401)])
    else
      var target := w.nicks[LOWER(nick)];
      if c != target && OPERATOR !in w.clients[c].modes then Say(w, c, [Numeric(502)])
      else
        var (modes, any) := ApplyUserModes(w.clients[target].modes, changes);
        var w1 := SetClient(w, target, w.clients[target].(modes := modes));
        if any then Say(w1, c, [Message("MODE")])
        else if c == target then Say(w1, c, [Numeric(221)])
        else w1
  }

  ghost function InviteName<C, H>(w: World<C, H>, c: C, nick: Name, name: Name): World<C, H>
    requires c in w.clients && w.names.Values <= w.channels.Keys && w.nicks.Values <= w.clients.Keys
  {
    if !Taken(w, nick) then Say(w, c, [Numeric(401)])
    else
      var target := w.nicks[LOWER(nick)];
      if LOWER(name) !in w.names then Say(Say(w, c, [Numeric(341)]), target, [Message("INVITE")])
      else Invite(w, w.names[LOWER(name)], target, c)
  }

  ghost function BecomeOperator<C, H>(w: World<C, H>, c: C, accepted: bool): World<C, H>
    requires c in w.clients
  {
    if !accepted then Say(w, c, [Numeric(464)])
    else Say(SetClient(w, c, w.clients[c].(modes := w.clients[c].modes + {OPERATOR, WALL_OPS})), c,
             [Numeric(381), Message("MODE")])
  }

  /** The clients in the index, all or those with `w`. */
  ghost function Indexed<C, H>(w: World<C, H>, onlyWallOps: bool): set<C> {
    set k | k in w.nicks && (!onlyWallOps || (w.nicks[k] in w.clients && WALL_OPS in w.clients[w.nicks[k]].modes)) :: w.nicks[k]
  }

  /** `Channel.CanSpeak`. */
  ghost predicate CanSpeakOn<C, H>(client: ClientRec<H>, channel: ChannelRec<C>, c: C) {
    || IsOperator(OPERATOR in client.modes, channel, c)
    || (&& (NO_OUTSIDE in channel.flags ==> c in channel.members)
        && (MODERATED in channel.flags ==> HasMode(channel, c, VOICE))
        && (SECURE_CHAN in channel.flags ==> SECURE_CONN in client.modes))
  }

  /** `Client.CanSpeak`. */
  predicate CanSpeakTo<H>(client: ClientRec<H>, target: ClientRec<H>) {
    SECURE_ONLY in client.modes || SECURE_ONLY in target.modes ==>
      OPERATOR in client.modes || (SECURE_CONN in client.modes && SECURE_CONN in target.modes)
  }

  /** A NOTICE to `*` by an operator. */
  ghost predicate ToEverybody<C, H>(w: World<C, H>, c: C, notice: bool, target: Name)
    requires c in w.clients
  {
    notice && target == "*" && OPERATOR in w.clients[c].modes
  }

  /** Why a PRIVMSG or NOTICE is not delivered, as the code of the error reply. */
  ghost function TellRefusal<C, H>(w: World<C, H>, c: C, notice: bool, target: Name): Option<nat>
    requires c in w.clients && w.names.Values <= w.channels.Keys && w.nicks.Values <= w.clients.Keys
  {
    if ToEverybody(w, c, notice, target) then None
    else if IsChannel(target) then
      if LOWER(target) !in w.names then Some(403)
      else if CanSpeakOn(w.clients[c], w.channels[w.names[LOWER(target)]], c) then None else Some(404)
    else if !Taken(w, target) then Some(401)
    else if CanSpeakTo(w.clients[c], w.clients[w.nicks[LOWER(target)]]) then None else Some(492)
  }

  ghost function Audience<C, H>(w: World<C, H>, c: C, notice: bool, target: Name): set<C>
    requires c in w.clients && w.names.Values <= w.channels.Keys && w.nicks.Values <= w.clients.Keys
    requires TellRefusal(w, c, notice, target).None?
  {
    if ToEverybody(w, c, notice, target) then Indexed(w, false)
    else if IsChannel(target) then w.channels[w.names[LOWER(target)]].members.Keys - {c}
    else {w.nicks[LOWER(target)]}
  }

  /** PRIVMSG and NOTICE. Only a PRIVMSG to somebody who is away is answered. */
  ghost function TellName<C, H>(w: World<C, H>, c: C, notice: bool, target: Name): World<C, H>
    requires c in w.clients && w.names.Values <= w.channels.Keys && w.nicks.Values <= w.clients.Keys
  {
    match TellRefusal(w, c, notice, target)
    case Some(code) => Say(w, c, [Numeric(code)])
    case None =>
      var w1 := Broadcast(w, Audience(w, c, notice, target), Message(if notice then "NOTICE" else "PRIVMSG"));
      if !notice && !IsChannel(target) && AWAY in w.clients[w.nicks[LOWER(target)]].modes
      then Say(w1, c, [Numeric(301)]) else w1
  }

  ghost function KillNick<C, H>(w: World<C, H>, c: C, nick: Name): World<C, H>
    requires c in w.clients && w.nicks.Values <= w.clients.Keys
  {
    if OPERATOR !in w.clients[c].modes then Say(w, c, [Numeric(481)])
    else if !Taken(w, nick) then Say(w, c, [Numeric(401)])
    else Quit(w, w.nicks[LOWER(nick)])
  }

  /** The choices a command carries are possible ones. */
  ghost predicate ChoicesFit<C, H>(w: World<C, H>, c: C, command: Command<C, H>)
    requires Closed(w) && c in w.clients
  {
    match command
    case Join(name, key, made, order) => JoinOrderFits(w, c, name, key, made, order)
    case NamesOf(name, order) => NamesOrderFits(w, name, order)
    case PartObject(h) => h in w.clients[c].channels
    case OperNick(_, nick) => nick != ""
    case _ => true
  }

  ghost function AfterRegistration<C, H>(w: World<C, H>, c: C, command: Command<C, H>): World<C, H>
    requires Closed(w) && c in w.clients && ChoicesFit(w, c, command)
  {
    match command
    case Pass(_) => Say(w, c, [Numeric(462)])
    case Nick(nick) => NickRequest(w, c, nick)
    case User(_, _) => Say(w, c, [Numeric(462)])
    case Cap(_, _) => Say(w, c, [Numeric(421)])
    case Authenticate(_) => Say(w, c, [Numeric(421)])
    case QuitCommand => Quit(w, c)
    case Join(name, key, made, order) => JoinName(w, c, name, key, made, order)
    case PartFrom(name) => PartName(w, c, name)
    case PartObject(h) => Part(w, h, c)
    case KickFrom(name, nick) => KickName(w, c, name, nick)
    case UserModes(nick, changes) => ChangeUserModes(w, c, nick, changes)
    case SetModes(name, changes) => ModesName(w, c, name, changes)
    case Topic(name, topic) => TopicName(w, c, name, topic)
    case InviteTo(nick, name) => InviteName(w, c, nick, name)
    case Oper(accepted) => BecomeOperator(w, c, accepted)
    case OperNick(target, nick) => OperNickRequest(w, c, target, nick)
    case Away(text) =>
      var modes := w.clients[c].modes;
      SetClient(w, c, w.clients[c].(modes := if text != "" then modes + {AWAY} else modes - {AWAY}))
    case NamesOf(name, order) => NamesName(w, c, name, order)
    case Wallops =>
      if OPERATOR !in w.clients[c].modes then Say(w, c, [Numeric(481)])
      else Broadcast(w, Indexed(w, true), Message("NOTICE"))
    case Tell(notice, target) => TellName(w, c, notice, target)
    case Kill(nick) => KillNick(w, c, nick)
    case ListUsers => Say(w, c, LUsers(w))
    case Unrecognised => Say(w, c, [Numeric(421)])
  }

  /** `Client.processCommand`. */
  ghost function Process<C, H>(w: World<C, H>, c: C, command: Command<C, H>): World<C, H>
    requires Closed(w) && c in w.clients && ChoicesFit(w, c, command)
  {
    if w.clients[c].registered then AfterRegistration(w, c, command) else BeforeRegistration(w, c, command)
  }

  // ------------------------------------------------------------------------ runs

  datatype Event<C, H> =
    | Connect(client: C, secure: bool, hostname: Name, noPassword: bool)
    | Issue(client: C, command: Command<C, H>)
    | Shutdown

  /** Objects made by an event are new, and only a client that has not quit issues commands. */
  ghost predicate Possible<C, H>(w: World<C, H>, event: Event<C, H>) {
    match event
    case Connect(c, _, _, _) => c !in w.clients
    case Issue(c, command) => Closed(w) && c in w.clients && !w.clients[c].hasQuit && ChoicesFit(w, c, command)
    case Shutdown => true
  }

  ghost function Step<C, H>(w: World<C, H>, event: Event<C, H>): World<C, H>
    requires Possible(w, event)
  {
    match event
    case Connect(c, secure, hostname, noPassword) =>
      SetClient(w, c, NewClient(secure, hostname, noPassword)).(connections := w.connections + 1)
    case Issue(c, command) => Process(w, c, command)
    case Shutdown => Broadcast(w, Indexed(w, false), Message("NOTICE"))
  }

  /** A sequence of worlds, each reached from the one before by a possible event, starting empty. */
  ghost predicate IsRun<C, H>(worlds: seq<World<C, H>>, events: seq<Event<C, H>>) {
    && |worlds| == |events| + 1
    && worlds[0] == EmptyWorld()
    && (forall i :: 0 <= i < |events| ==> Possible(worlds[i], events[i]) && worlds[i + 1] == Step(worlds[i], events[i]))
  }
}
