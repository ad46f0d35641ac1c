# An IRC server, verified

This project models an IRC server as a state machine over one shared heap, and proves what every
command keeps, what holds in every state of every run, and that programs over mutable objects, shaped
like the server's own code, carry out exactly these steps. Around it stand the server's smaller
algorithms, each proved against a simple form of itself: packing names into reply lines, reassembling
SASL chunks, compiling masks to a regular expression, the WHOWAS ring, reading and writing lines and
mode changes, and the timers of idle clients.

`dafny verify dfyconfig.toml` checks everything.

## The parts

| file | what is in it |
|---|---|
| `Names.dfy`, `Strings.dfy` | names, mode letters; splitting and joining |
| `ServerState.dfy` | the state as a value, and what each command makes of it |
| `Replica.dfy` | a client that believes what it is sent: replaying a log of replies |
| `Invariants.dfy` | the invariant: indexes, membership, registration, replicas |
| `QuietSteps.dfy`, `NickSteps.dfy`, `ChannelSteps.dfy`, `LeavingSteps.dfy`, `Runs.dfy` | every event keeps it |
| `Effects.dfy`, `Provenance.dfy`, `ModeBatches.dfy`, `Authority.dfy` | what a command can do to a channel and to a client |
| `Guarantees.dfy` | what this means for every run |
| `ChannelOutcomes.dfy`, `ClientOutcomes.dfy`, `ModeOutcomes.dfy` | what each command achieves, told from the state and the request, as laws over whole steps |
| `Objects.dfy`, `Handlers.dfy`, `Dispatch.dfy`, `Running.dfy` | the server, its channels and its clients as objects; the command handlers; whole requests; a server together with the run it has gone through |
| `Composition.dfy`, `Stays.dfy` | lemmas that join the objects to the state machine |
| `Multiline.dfy`, `Sasl.dfy`, `Masks.dfy`, `WhoWas.dfy`, `Lines.dfy`, `ModeText.dfy`, `Timers.dfy` | the smaller algorithms |

## How the server is modelled

* A command is one step, taken by a client that has not quit (internal/client.go:140-144). A command
  that names several channels is one step for each; `Dispatch.Process` proves that the loops over them
  are sequences of such steps. An event is a new connection, a command, or the shutdown notice. A run
  starts with no clients and no channels.
* `ServerState` is generic in the identities `C` of clients and `H` of channels. `Objects` puts the
  objects themselves there, so that identity is the identity of objects. The state holds every object
  ever made, also those the server has forgotten: several facts are about these.
* What a client was sent is a log of replies in the model. Replies carry what a reader of the protocol
  needs to know who is on which channel; other texts are a number or a verb.
* Where the code iterates over a map, the model allows every order. A NAMES answer carries the order it
  was made in; the replica theorem holds for all of them.
* Passwords, bcrypt, the account store and base64 are results that a command brings along or
  uninterpreted functions. So are lower-casing, the upper-casing of commands and the Unicode classes of
  nicknames and channel names: nothing that is proved depends on what they are. Texts are taken as
  already normalised. Lengths are counted in bytes of UTF-8 where the code does so.
* The methods of the channel map, the member map and the mode sets are not among the repository's
  files: their source is not part of this model. They are taken as finite maps and sets over object
  identity, and removing a channel from the map of names as removing it only if it is the one indexed.

## What the code does that one might not expect

All of this is kept as it is, and what is proved is true of it.

* A client's set of channels never shrinks (internal/channel.go:466-468). So membership is included in
  it but not the other way round, and a client that changes its nick or quits is announced on channels
  it has left. This is harmless, because nicks are unique: `Guarantees.ReplicaAgreement`.
* The user limit can be set by anybody, and `-l` with a number sets it (internal/channel.go:403-414).
  `ModeBatches.LimitIsReplayedExactly` tells from the request when the broadcast of a batch is misleading
  about it.
* The position in `setRegexp` never advances (internal/client_lookup.go:207-221). With two masks or more
  all but the last are overwritten, the remaining alternatives are empty, and `$` alone is found in every
  text: two bans ban everybody. The code's comment promises the union of the masks;
  `Masks.UnionLawExactly` says for which sets that is what it gives.
* The last batch of a multi-line reply is not checked for its length (internal/reply.go:86-96), so it can
  exceed the limit: `Multiline.LastLineDecides` and `Multiline.AllFitExactly` say exactly when none does.
* Mode changes are printed with the first sign only (internal/command.go:516-519). `ModeText.PrintParse`
  says exactly which changes are read back as they were.
* A failed SASL exchange is forgotten only if the encoding was bad (internal/server.go:677-714). After any
  other failure the next PLAIN is taken for a chunk: `Sasl.RetryExactly`. A lone `+` or `*` as the last
  chunk is taken for a sentinel; base64 never leaves one.
* The decoded SASL text is read as the name, the name to act for and the password (internal/server.go:687-707),
  where section 2 of RFC 4616 has the name to act for first, and possibly empty. So right credentials that
  leave it out are refused: `Sasl.StandardPlainExactly`.
* WHOWAS gives one entry for a limit of zero or less, where section 3.6.3 of RFC 2812 wants all:
  `WhoWasRing.AnswerIsStandardExactly`.
* A line with two prefixes has the second taken for its command, and cannot be written out again:
  `Lines.Reread`. A code that upper-casing or normalising changes again is not read back either:
  `Lines.LineRoundTripExactly`.
* An idle notice that is handled late can cut the silence before a timeout to half: `Timers.LateNotice`.
  `Timers.LongSilenceExactly` says exactly when it does not.

## Model

| member | source | states |
|---|---|---|
| `Runs.StepKeeps` | internal/client.go:152-191 | every event, issued in any state that satisfies the invariant (nick index a bijection, members live and registered, channels indexed exactly while they have members, registration conditions, connection count, every replica in agreement), leads to one that does |
| `Runs.RunKeeps` | internal/client.go:140-191 | the invariant holds in every state of every run |
| `Runs.NewChannelAdmits` | internal/channel.go:138-166 | no check refuses a client on a channel just made |
| `Runs.WithChannelKeeps` | internal/channel.go:18-40 | making a channel keeps the invariant but for the new channel itself, which has no member yet |
| `ChannelSteps.AddedAgrees` | internal/channel.go:170-184 | after a JOIN the replicas of all members still agree with the server |
| `NickSteps.ChangeNickKeeps` | internal/client.go:371-382 | changing a nick the client may take keeps the invariant, replicas included |
| `LeavingSteps.QuitKeeps` | internal/client.go:390-409 | quitting keeps the invariant, although a client may be on channels it is not announced on twice and off channels it is announced on |
| `LeavingSteps.LeaveAgrees` | internal/channel.go:464-495 | when somebody parts or is kicked, every other member's replica follows |
| `Guarantees.ReplicaAgreement` | internal/channel.go:170-197 | in every reachable state a registered client that replays its replies knows its nick, the channels it is on, and exactly the nicks of their members |
| `Guarantees.NickIsIndexed` | internal/client_lookup.go:48-83 | in every reachable state a live client with a nick is indexed under its folded nick and nothing else, and shares it with nobody |
| `Guarantees.ReindexingSucceeds` | internal/client.go:371-382 | the ignored errors of Remove and Add cannot happen when a nick changes to one the client may take, a change of case included |
| `Guarantees.UserReindexingSucceeds` | internal/server.go:730-738 | when USER reindexes a client, Remove and Add both succeed exactly if it has a nick, and the index ends as it was |
| `Guarantees.FirstNickSucceeds` | internal/client.go:362-369 | NICK before registration gives a nick only to a client without one, and only where Add succeeds: the nick is legal and its key free |
| `Guarantees.NickMayTake` | internal/nickname.go:35-60 | NICK changes a nick only where these errors are impossible |
| `Guarantees.OperNickMayTake` | internal/nickname.go:67-96 | so does ONICK, for its target |
| `Guarantees.QuitIsComplete` | internal/client.go:247-280 | after Quit no channel anywhere has the client as a member, no nick maps to it, its replies are closed, one connection fewer is counted, and quitting again changes nothing |
| `Guarantees.QuitIsForGood` | internal/client.go:384-409 | from then on, in every run, its record never changes and it never reappears on a channel or in the index |
| `Guarantees.DirectSendsAreSafe` | internal/server.go:265-287 | Wallops and Global, which send without asking, never reach a closed client |
| `Guarantees.UnknownExactly` | internal/reply.go:557-569 | in every reachable state connections are the live clients, and what LUSERS counts as unknown are exactly those without a nick, so never fewer than none |
| `Guarantees.RegistrationIsSafe` | internal/server.go:512-529 | for any interleaving: registered exactly if welcomed, exactly once; then authorized, with a valid nick and a username, and no open negotiation; capabilities only supported ones; SASL buffer empty unless started |
| `Guarantees.RegisteredExactly` | internal/server.go:512-529 | in every reachable state, in whatever order it was done, a connected client is registered exactly if it has a nick and a user name and no open negotiation |
| `Guarantees.PassAuthorizes` | internal/server.go:601-610 | before registration the right password authorizes a client and changes nothing else; a wrong one ends its connection |
| `Guarantees.AuthorizationExactly` | internal/server.go:601-610 | over every run a client is authorized exactly if it connected without needing a password or has sent the right one |
| `Guarantees.NoEmptyChannels` | internal/channel.go:464-473 | a channel object has members exactly if it is indexed, under its own name only; its members are live, registered and know the channel |
| `Guarantees.FirstJoinSucceeds` | internal/server.go:780-792 | JOIN of a name that is free makes a channel with `n` and `t` and nothing else set, indexes it and has the client as its only member, creator and operator |
| `Guarantees.OperatorProvenance` | internal/server.go:931-951 | a client with `o` has had an OPER accepted while registered, and `o` ever since |
| `Guarantees.AccountProvenance` | internal/server.go:709-728 | a client with `r` has sent, as base64 over SASL, a name and a password that belong together, and has had `r` ever since |
| `Guarantees.SecureProvenance` | internal/client.go:85-87 | `z` holds exactly of clients whose connection was TLS |
| `Provenance.IssueStatus` | internal/modes.go:100-149 | no command but an accepted OPER or SASL exchange of the client itself gives it `o` or `r`; nobody ever loses `r`; a client that has quit is not changed |
| `Provenance.UserModesSources` | internal/modes.go:113-139 | no sequence of user mode changes sets `o`, or sets or unsets `r` or `z` |
| `Effects.IssueEffect` | internal/channel.go:138-517 | what any command can do to an existing channel: add the issuer without modes, remove members with authority or as their own leaving, apply one batch of modes, set the topic, or invite |
| `Effects.NewChannelMembers` | internal/channel.go:170-175 | a channel object that appears in a step has its maker as the one member |
| `Authority.AuthorityFrame` | internal/channel.go:214-232 | whatever is issued by a client that is neither IRC operator nor operator of the channel leaves key, flags, mask lists, other members and their modes as they were, and the topic under `+t` |
| `Authority.StepCreators` | internal/channel.go:369-424 | no event, MODE included, adds a creator to an existing channel; a new one has exactly its maker |
| `Authority.CreatorsShrink` | internal/channel.go:464-473 | over a run the creators of a channel object only become fewer: a creator that leaves is none when it returns |
| `Authority.CreatorIsUnique` | internal/channel.go:170-175 | whoever is creator of a channel object at any two moments of a run is the same client |
| `ModeBatches.AppliedIsReplayed` | internal/channel.go:369-424 | an applied change does what its broadcast says, exactly unless it is `-l` |
| `ModeBatches.AppliedAlters` | internal/channel.go:267-424 | a change is reported exactly if it altered the channel or is an authorised `-k` on a channel without a key |
| `ModeBatches.BatchIsReplayed` | internal/channel.go:426-446 | replaying what a batch broadcasts, with nothing checked, gives the new key, flags, mask lists and member modes |
| `ModeBatches.BatchIsReplayedFully` | internal/channel.go:426-446 | and the whole new channel if no `-l` was asked for |
| `ModeBatches.LimitIsReplayedExactly` | internal/channel.go:403-414 | told from the old limit and the request: the broadcast gives the whole new channel exactly if the last change that sets the limit is not a `-l`; otherwise a reader thinks there is none and there is one |
| `ModeBatches.LimitByApplied` | internal/channel.go:432-446 | the same, told from what is broadcast |
| `ModeBatches.UnsettingSetsLimit` | internal/channel.go:403-414 | a client without any power sets the limit to 5 by `-l 5` |
| `ModeBatches.AppliedIsSubsequence` | internal/channel.go:432-437 | only requested changes are broadcast, in the order of the request |
| `ModeBatches.PowerlessBatch` | internal/channel.go:369-446 | from the point in a batch where the requester is no operator, only limits are applied and nothing else changes |
| `ChannelOutcomes.JoinExactly` | internal/channel.go:138-175 | a client that is not on an existing channel is on it after JOIN exactly if it is an IRC operator or passes the limit, the key, the invitation and the ban; it gets no modes there; otherwise nothing changes and it is told the first reason |
| `ChannelOutcomes.JoinAgain` | internal/channel.go:139-142 | joining a channel one is on does nothing |
| `ChannelOutcomes.KickExactly` | internal/channel.go:475-495 | the target, and nobody else, is off the channel exactly if it was on it and the issuer is its operator or an IRC operator; all who were on it are told, or the issuer why not |
| `ChannelOutcomes.PartExactly` | internal/channel.go:186-198 | PART takes exactly the issuer off, if it is on the channel, and all who were on it are told |
| `ChannelOutcomes.UnknownNameIsTold` | internal/server.go:797-806 | with a channel name that does not exist nothing happens but the reply |
| `ChannelOutcomes.NamesExactly` | internal/server.go:1086-1104 | NAMES lists exactly the nicks of the members |
| `ChannelOutcomes.TopicExactly` | internal/channel.go:214-232 | a topic is set exactly by members and those in charge, under `+t` by the latter only |
| `ChannelOutcomes.InviteExactly` | internal/channel.go:497-517 | who may invite, and that only under `+i` the invited client's full name is put on the list |
| `ChannelOutcomes.InvitedIsListed` | internal/channel.go:507-509 | which opens the channel to that client |
| `ChannelOutcomes.NickMaskExactly` | internal/client.go:315-324 | a mask for a nick, any user and any host names exactly the clients with that nick |
| `ChannelOutcomes.NickIsUnmistakable` | internal/strings.go:42-65 | a legal nick can be taken neither for a channel nor for a mask, a list, a server, a full name or a prefixed entry |
| `ChannelOutcomes.LengthsExactly` | internal/strings.go:10-14 | names of the right characters are legal exactly up to 32 characters for nicks and 64 with the prefix for channels |
| `ClientOutcomes.QuitExactly` | internal/client.go:390-409 | QUIT, registered or not: the client has quit and is closed, and exactly those on a channel it ever joined are told |
| `ClientOutcomes.KillExactly` | internal/server.go:1164-1179 | KILL is a QUIT of its target exactly if an IRC operator issues it |
| `ClientOutcomes.UnknownNickIsTold` | internal/client_lookup.go:48-53 | with a nick nobody has, nothing happens but the reply |
| `ClientOutcomes.OperExactly` | internal/server.go:931-951 | OPER gives `o` and `w` exactly if its password is accepted |
| `ClientOutcomes.AwayExactly` | internal/server.go:977-985 | `a` holds afterwards exactly if there is a text |
| `ClientOutcomes.UserModesExactly` | internal/modes.go:100-149 | by the user or an IRC operator: the last sign decides on `i`, `x`, `w` and `Z`, `o` can be given up, all others stay; by anybody else nothing changes |
| `ClientOutcomes.NickExactly` | internal/nickname.go:35-60 | NICK changes the nick exactly to one that is legal and free or one's own, and exactly those who share a channel are told |
| `ClientOutcomes.OperNickExactly` | internal/nickname.go:67-96 | ONICK gives its target the nick exactly if an IRC operator asks for a legal and free one that is not the operator's own |
| `ClientOutcomes.UnauthorizedQuits` | internal/client.go:155-163 | before registration, NICK, USER and AUTHENTICATE without authorization end the connection, and so does any command but the registration ones |
| `ClientOutcomes.FirstNickExactly` | internal/nickname.go:8-33 | the first NICK is kept exactly if it is legal and free |
| `ClientOutcomes.FirstNickRefused` | internal/nickname.go:8-33 | one that is missing, taken or not legal is refused, and nothing else happens |
| `ClientOutcomes.UserExactly` | internal/server.go:612-637 | USER sets the user name and the modes of its flags, and no others but `x` on registration |
| `ClientOutcomes.FlagBits` | internal/command.go:264-273 | of the flags, bit 2 is for `w` and bit 3 for `i` |
| `ClientOutcomes.CapExactly` | internal/capability.go:80-115 | LS opens the negotiation, END closes it, REQ adds all or nothing, CLEAR gives everything up |
| `ClientOutcomes.CapIsAnswered` | internal/capability.go:92-102 | a request for capabilities is answered by whether it was granted |
| `ClientOutcomes.AuthenticateExactly` | internal/server.go:639-728 | AUTHENTICATE gives `r` exactly if it completes accepted credentials |
| `ClientOutcomes.TellChannelExactly` | internal/channel.go:251-265 | a message to a channel reaches exactly the other members, if its sender may speak there under `n`, `m` and `Z` |
| `ClientOutcomes.TellNickExactly` | internal/server.go:839-852 | a message to a nick reaches exactly its holder, unless secure-only forbids it; a PRIVMSG to somebody away is also answered |
| `ClientOutcomes.SentToAll` | internal/server.go:265-287 | WALLOPS and an operator's NOTICE to `*` reach exactly the live clients with a nick, WALLOPS those with `w` |
| `ClientOutcomes.LUsersExactly` | internal/server.go:1144-1152 | LUSERS tells of operators, unknown connections and channels exactly if there are any |
| `ClientOutcomes.TooLateIsTold` | internal/server.go:748-764 | after registration its commands are refused and change nothing |
| `ClientOutcomes.IllegalNameIsTold` | internal/server.go:781-784 | a channel name that is not legal cannot be joined |
| `ClientOutcomes.ConnectExactly` | internal/client.go:68-98 | what a new connection is like, and that it changes nobody else |
| `ClientOutcomes.ShutdownExactly` | internal/server.go:280-295 | the shutdown notice reaches exactly the live clients with a nick |
| `ClientOutcomes.WhoWasRecords` | internal/client.go:371-399 | a nick given up by NICK or QUIT is recorded for WHOWAS, and nothing else is |
| `ModeOutcomes.ChangeExactly` | internal/channel.go:267-424 | any change but of the limit does what a reader takes it to mean exactly if it names everything it needs and its requester is in charge, and nothing otherwise |
| `ModeOutcomes.AnswerExactly` | internal/channel.go:267-424 | a request for a list is answered line by line, to anybody; any other change with what is wrong with it, or not at all |
| `ModeOutcomes.LimitExactly` | internal/channel.go:403-414 | the limit is set, by whomever and whatever the sign, exactly to a positive number |
| `ModeOutcomes.ModeExactly` | internal/channel.go:426-446 | the first law for a whole MODE command with one change |
| `ModeOutcomes.BatchIsTold` | internal/channel.go:439-445 | every member is told of a batch exactly if some change was applied, and of those only |
| `ModeOutcomes.UnreadIsIgnored` | internal/command.go:564-572 | a letter for which no argument is read does the same whatever the argument |
| `ModeOutcomes.ReadMatters` | internal/command.go:564-572 | for every letter for which one is read, but `O`, the argument matters |
| `ModeOutcomes.LimitIsRead` | internal/channel.go:404 | the limit that is read is the number that was written, if it fits 64 bits |
| `ModeOutcomes.OnlyDigitsAreRead` | internal/channel.go:404 | and nothing but digits is read |
| `ModeOutcomes.EntryTells` | internal/channel.go:62-78 | what the prefixes of an entry of a NAMES line tell of the member's modes |
| `Objects.ClientLookupSet.Get` | internal/client_lookup.go:48-53 | the client indexed under the folded nick |
| `Objects.ClientLookupSet.Add` | internal/client_lookup.go:55-68 | adds the client under its folded nick, exactly if it has one that is free; otherwise the index is unchanged and an error is returned |
| `Objects.ClientLookupSet.Remove` | internal/client_lookup.go:70-83 | removes the client, exactly if it is the one indexed under its nick |
| `Objects.Client.constructor` | internal/client.go:68-98 | a new client: authorized only without a password, `z` only over TLS |
| `Objects.Client.Reply` | internal/client.go:384-388 | appends to the client's log unless it has quit; nothing else in the server changes |
| `Objects.Client.Send` | internal/server.go:265-287 | a direct send, which demands that the replies are not closed |
| `Objects.Client.UserHost` | internal/client.go:315-324 | the user host that masks are matched with |
| `Objects.Client.Friends` | internal/client.go:349-360 | the client and all members of channels it has ever joined |
| `Objects.Client.SetNickname` | internal/client.go:362-369 | first nick: set and indexed; later calls change nothing |
| `Objects.Client.ChangeNickname` | internal/client.go:371-382 | the whole new state: nick, both index steps, WHOWAS, and the announcement to friends |
| `Objects.Client.Register` | internal/client.go:238-245 | registered, with `x`; a second call changes nothing |
| `Objects.Client.CanSpeak` | internal/client.go:302-309 | whether the secure-only modes let a message through |
| `Objects.Client.Close` | internal/client.go:276 | closes the replies, demanded to be open: they are closed once |
| `Objects.Client.LeaveChannels` | internal/client.go:250-253 | one `Channel.Quit` after the other amounts to leaving all at once |
| `Objects.Client.Destroy` | internal/client.go:247-280 | channels, connection count, index and replies, as one change of the state |
| `Objects.Client.Quit` | internal/client.go:390-409 | the whole new state after quitting, for the proofs of `Guarantees.QuitIsComplete` |
| `Objects.Channel.constructor` | internal/channel.go:18-36 | a new channel: `n` and `t`, three empty mask lists, no members |
| `Objects.Server.NewChannel` | internal/channel.go:18-40 | the new channel is indexed under its name |
| `Objects.Channel.Nicks` | internal/channel.go:55-81 | one entry for each member, `@` and `+` according to its modes and to multi-prefix |
| `Objects.Channel.Names` | internal/reply.go:511-514 | the entries packed into lines, and the end of the list |
| `Objects.Channel.AddMember` | internal/channel.go:170-175 | a first member becomes creator and operator, a later one has no modes |
| `Objects.Channel.Join` | internal/channel.go:138-184 | refused with the code of the first check that fails, or admitted: both sides of the membership, the announcement to all members, topic and names |
| `Objects.Channel.GetTopic` | internal/channel.go:200-212 | the topic, or that there is none, for members and operators only |
| `Objects.Channel.Part` | internal/channel.go:186-198 | announced to all members and left, or told that it is not on the channel |
| `Objects.Channel.Quit` | internal/channel.go:464-473 | the member is removed; an empty channel is removed from the map if it is the one indexed |
| `Objects.Server.RemoveName` | internal/channel.go:470-472 | another channel indexed under the name stays |
| `Objects.Channel.Kick` | internal/channel.go:475-495 | the whole new state, with the three refusals in order |
| `Objects.Channel.SetTopic` | internal/channel.go:214-232 | likewise for the topic |
| `Objects.Channel.Invite` | internal/channel.go:497-517 | likewise for an invitation, which adds a mask under `+i` only |
| `Objects.Channel.CanSpeak` | internal/channel.go:234-249 | operators always; others under `n`, `m` and `Z` as members, with a voice, over TLS |
| `Objects.Channel.Tell` | internal/channel.go:251-265 | a message to all members but its sender, or the refusal |
| `Objects.Channel.ApplyModeFlag` | internal/channel.go:267-290 | the channel, the verdict and the answer after one flag change |
| `Objects.Channel.ApplyModeMember` | internal/channel.go:292-331 | after one change of a member's modes |
| `Objects.Channel.ShowMaskList` | internal/channel.go:333-338 | one reply for each mask, and the end of the list |
| `Objects.Channel.ApplyModeMask` | internal/channel.go:340-367 | after one change of a mask list; anybody may list |
| `Objects.Channel.ApplyModeKey` | internal/channel.go:379-401 | after one change of the key |
| `Objects.Channel.ApplyUserLimit` | internal/channel.go:403-414 | after one change of the limit, by whomever |
| `Objects.Channel.ApplyMode` | internal/channel.go:369-424 | which of these a mode letter leads to |
| `Objects.Channel.ApplyModes` | internal/channel.go:432-437 | a batch: changes one after the other, collecting those that had an effect |
| `Objects.Channel.Mode` | internal/channel.go:426-446 | the whole new state after MODE, broadcast included |
| `Objects.Server.Connect` | internal/server.go:323-342 | a connection more, and a client nobody knows yet |
| `Objects.Server.HasOperator` | internal/reply.go:584-595 | whether any client in the index has `o` |
| `Objects.Server.LUsers` | internal/server.go:1144-1152 | the lines of LUSERS, those for operators, unknown connections and channels only if there are any |
| `Objects.Server.TryRegister` | internal/server.go:512-529 | registers and greets exactly if nick, username and no open negotiation; otherwise nothing changes |
| `Objects.Server.SendDirectly` | internal/server.go:265-291 | to all indexed clients, or those with `w`; demands that none of them is closed |
| `Handlers.TurnAway` | internal/server.go:614-618 | an unauthorized client is told and quits |
| `Handlers.PassBeforeRegistration` | internal/server.go:601-610 | authorized, or turned away |
| `Handlers.NickBeforeRegistration` | internal/nickname.go:8-33 | checks in the code's order, then the nick and registration |
| `Handlers.UserBeforeRegistration` | internal/server.go:612-637 | modes from the flags, user name, reindexing, registration |
| `Handlers.SetUserInfo` | internal/server.go:730-738 | the client is reindexed around its change of user name |
| `Handlers.CapBeforeRegistration` | internal/capability.go:80-115 | the five subcommands, and registration after END |
| `Handlers.RequestCapabilities` | internal/capability.go:92-102 | all requested capabilities, or none if one is not supported |
| `Handlers.AuthenticateBeforeRegistration` | internal/server.go:639-728 | one line of SASL, `r` only after an accepted one |
| `Handlers.Nick` | internal/nickname.go:35-60 | NICK after registration |
| `Handlers.OperNick` | internal/nickname.go:67-96 | ONICK; the nick is not empty |
| `Handlers.JoinOne` | internal/server.go:780-792 | JOIN for one name, an invalid one refused |
| `Handlers.JoinNew` | internal/server.go:786-791 | a channel made for a JOIN is joined |
| `Handlers.PartOne` | internal/server.go:797-806 | PART for one name |
| `Handlers.KickOne` | internal/server.go:1039-1053 | KICK for one pair |
| `Handlers.SetModes` | internal/modes.go:151-160 | MODE for a channel |
| `Handlers.SetTopic` | internal/server.go:809-822 | TOPIC with a text |
| `Handlers.Invite` | internal/server.go:1116-1133 | INVITE, also to a channel that does not exist |
| `Handlers.NamesOne` | internal/server.go:1086-1104 | NAMES for one name; without any channels there is no answer at all |
| `Handlers.ApplyUserChanges` | internal/modes.go:113-139 | user modes changed one by one, and whether any change had an effect |
| `Handlers.UserModes` | internal/modes.go:100-149 | MODE for a user, oneself or by an operator |
| `Handlers.Oper` | internal/server.go:931-951 | `o` and `w` for an accepted password |
| `Handlers.Away` | internal/server.go:977-985 | `a` exactly while there is a message |
| `Handlers.Kill` | internal/server.go:1164-1179 | the target quits, for operators |
| `Handlers.Wallops` | internal/server.go:1154-1162 | to all with `w`, by operators |
| `Handlers.Tell` | internal/server.go:1004-1035 | PRIVMSG and NOTICE to a channel, to a nick, and by an operator to everybody |
| `Dispatch.LeadsExtends` | internal/client.go:152-191 | the steps of the objects extend any run of the state machine, so what is proved of runs holds of the objects |
| `Dispatch.JoinAll` | internal/server.go:780-792 | a JOIN of many names is a sequence of steps, one for each name with its key, in whichever order |
| `Dispatch.PartAll` | internal/server.go:773-779 | JOIN 0 is one PART for each channel the client has ever joined |
| `Dispatch.PartEach` | internal/server.go:795-807 | PART is one step for each name, in order |
| `Dispatch.KickEach` | internal/server.go:1037-1054 | KICK is one step for each pair |
| `Dispatch.NamesEach` | internal/server.go:1096-1103 | NAMES is one step for each name, in order |
| `Dispatch.BeforeRegistration` | internal/client.go:155-163 | before registration, a command of no use for it ends the connection |
| `Dispatch.AfterRegistration` | internal/client.go:165-190 | which handler a command leads to afterwards |
| `Dispatch.Process` | internal/client.go:152-191 | every request of every client is carried out as the steps it asks for, and the invariant is kept |
| `Dispatch.Accept` | internal/server.go:323-342 | a connection is a step that keeps the invariant |
| `Dispatch.Shutdown` | internal/server.go:293-295 | so is the shutdown notice, which no closed client gets |
| `Running.RunningServer.constructor` | internal/server.go:301-321 | a new server stands at the beginning of a run |
| `Running.RunningServer.Accept` | internal/server.go:323-342 | accepting a connection continues the run by that event |
| `Running.RunningServer.Process` | internal/client.go:152-191 | a request continues the run by the commands it asks for |
| `Running.RunningServer.Shutdown` | internal/server.go:293-295 | and so does the shutdown notice: the objects are always at the end of one run |
| `Running.RunningServer.ClientKnowsItsChannels` | internal/channel.go:170-197 | replica agreement, said of the fields of the objects of a running server |
| `Multiline.JoinedLength` | internal/reply.go:68-74 | names joined by single spaces, in bytes |
| `Multiline.JoinedLenIs` | internal/reply.go:68-84 | that is the length of the names as they are sent |
| `Multiline.FitsExactly` | internal/reply.go:79-81 | a line of several names keeps to the limit exactly up to 510 bytes |
| `Multiline.MultilineReply` | internal/reply.go:76-97 | the batches sent are those of the recursive packing; the loop ends |
| `Multiline.PackConserves` | internal/reply.go:76-97 | the batches are not empty and their concatenation is the list |
| `Multiline.PackIsGreedy` | internal/reply.go:86-96 | every batch but the last is one name or fits, and would not fit with the next name; the last fits without its last name |
| `Multiline.OneLineExactly` | internal/reply.go:86-96 | a list is sent as one line exactly when everything but its last name fits |
| `Multiline.AllFitExactly` | internal/reply.go:86-96 | all lines of several names keep to the limit exactly if one name more would not be split off, which is the test the code omits after its loop |
| `Multiline.LastLineDecides` | internal/reply.go:86-96 | told from the names: exactly if what is left for the last line fits |
| `Multiline.TwoNamesAreNeverSplit` | internal/reply.go:86-96 | two names are sent as one line however long they are |
| `Sasl.SaslState.Authenticate` | internal/server.go:647-713 | the handler over the mutable exchange does what the value form says |
| `Sasl.AcceptedExactly` | internal/server.go:677-717 | a text is accepted for a name exactly if it decodes to the name, no name to act for or the same, and a password that belongs to the name |
| `Sasl.LoggedInWith` | internal/server.go:677-717 | whoever is logged in has sent such credentials with the chunks of this exchange |
| `Sasl.StandardPlainExactly` | internal/server.go:687-717 | for a message as in section 2 of RFC 4616 the verdict is the standard's exactly unless the name to act for is left out and the credentials are right |
| `Sasl.PlainLogsInExactly` | internal/server.go:639-728 | a fresh exchange, in however many chunks, logs in exactly with the right password |
| `Sasl.ChunksDelivered` | internal/server.go:663-677 | sending any ASCII text in chunks has exactly that text judged, if and only if the last chunk is not a lone sentinel |
| `Sasl.Base64Delivered` | internal/server.go:663-677 | so any text whose length is a multiple of four arrives |
| `Sasl.RetryIsAppended` | internal/server.go:677-714 | after a failure that is not a bad encoding, text sent again is judged together with the old, and alone exactly if the old was empty |
| `Sasl.RetryExactly` | internal/server.go:647-714 | starting anew with PLAIN has the next text judged alone exactly if the exchange before ended in success or a bad encoding |
| `Sasl.ReceiveConsistent` | internal/sasl.go:23-52 | the buffer is empty unless an exchange is started |
| `Masks.GlobIsPlain` | internal/client_lookup.go:194-199 | on text without line ends, matching character by character is the plain reading of `*` and `?` |
| `Masks.CompileMask` | internal/client_lookup.go:209-218 | the nested loops compute the expression of a mask |
| `Masks.MaskIsCharExprs` | internal/client_lookup.go:209-218 | splitting, quoting and joining translates every character on its own |
| `Masks.LexMask` | internal/client_lookup.go:209-218 | read as a regular expression, it is the characters and wildcards of the mask: no quoting is lost |
| `Masks.OneMaskMatches` | internal/client_lookup.go:177-182 | the compiled expression of one mask accepts exactly what the glob does |
| `Masks.ManyMasksMatchEverything` | internal/client_lookup.go:207-221 | that of two or more accepts every text |
| `Masks.SetExprMatches` | internal/client_lookup.go:200-223 | both together: what the expression of any set of masks accepts |
| `Masks.UserMaskSet.Add` | internal/client_lookup.go:148-155 | the mask is added, the answer is whether it is new, the cached expression is that of the new set |
| `Masks.UserMaskSet.AddAll` | internal/client_lookup.go:157-166 | likewise for several |
| `Masks.UserMaskSet.Remove` | internal/client_lookup.go:168-175 | likewise for removing |
| `Masks.UserMaskSet.SetRegexp` | internal/client_lookup.go:200-223 | the cached expression is that of the present masks |
| `Masks.UserMaskSet.MatchUserHost` | internal/client_lookup.go:177-182 | one mask: its glob; none: nothing; more: everything |
| `Masks.UnionLawExactly` | internal/client_lookup.go:194-199 | for sets without the empty mask, which no caller adds, the promised union holds on text without line ends exactly if there are fewer than two masks or one is of stars alone |
| `Masks.UnionLawHere` | internal/client_lookup.go:194-199 | for one text and any set, exactly if there are fewer than two masks or one of them matches it |
| `Masks.TwoBansBanEverybody` | internal/client_lookup.go:207-221 | two bans match any user host |
| `WhoWasRing.WhoWasList.Append` | internal/whowas.go:26-41 | the ring stays the newest entries of the log, as many as there is room for |
| `WhoWasRing.AppendHolds` | internal/whowas.go:36-40 | moving `end`, and `start` out of its way, drops exactly the oldest entry |
| `WhoWasRing.WhoWasList.Prev` | internal/whowas.go:59-67 | the slot before, around the ring |
| `WhoWasRing.WhoWasList.Each` | internal/whowas.go:69-86 | exactly the last min(total, size - 1) entries, newest first, and then the walk stops |
| `WhoWasRing.WhoWasList.Find` | internal/whowas.go:43-57 | the answer a plain log gives |
| `WhoWasRing.AnswerIsNewest` | internal/whowas.go:43-57 | the newest max(1, limit) entries of the nickname within the capacity, newest first, or all if there are fewer |
| `WhoWasRing.AnswerIsStandardExactly` | internal/whowas.go:52-54 | the answer is the one section 3.6.3 of RFC 2812 asks for exactly if the limit is positive or at most one entry is to be reported |
| `Lines.ParseLine` | internal/command.go:115-131 | the loop computes the recursive reading of the line |
| `Lines.SplitArgKeeps` | internal/command.go:104-113 | the two parts and a run of spaces between them make up the line; without spaces the line is the first part |
| `Lines.ParsedIsNormal` | internal/command.go:115-131 | every argument but the last is not empty and has neither spaces nor a leading colon |
| `Lines.RoundTripExactly` | internal/command.go:115-131 | a command as written and arguments, with a colon on the last, are read back as they were exactly if the arguments are in this form and the command has neither spaces nor a leading colon |
| `Lines.LineRoundTripExactly` | internal/command.go:115-131 | of the line that is returned, with its upper-cased and normalised code: if it is in this form it is read back exactly if its code stays as it is |
| `Lines.LineReread` | internal/command.go:115-131 | so reading, writing and reading a line gives the same line again exactly if its code is stable, given that it can stand first |
| `Lines.Reread` | internal/command.go:115-131 | and the same command as written, exactly unless the line has a second prefix |
| `Lines.ColonCommand` | internal/command.go:117-120 | there is such a line |
| `Lines.PrefixIsIgnored` | internal/command.go:117-119 | a sender in front makes no difference |
| `ModeText.ParseChannelModeChanges` | internal/command.go:533-579 | the loop over groups computes the recursive reading of the tokens |
| `ModeText.ParseGroup` | internal/command.go:545-576 | one group: its changes and how many tokens it takes; no index is out of range |
| `ModeText.GroupIsRead` | internal/command.go:551-575 | a group is read letter by letter, to add or remove after a sign, and to list without one |
| `ModeText.TokensAreUsed` | internal/command.go:539-579 | every token is a group, a parameter or empty; letters and parameters are those of the changes, in order |
| `ModeText.ChannelModeChangesString` | internal/command.go:511-530 | the loops compute the printed form |
| `ModeText.PrintParse` | internal/command.go:511-579 | printed changes, split at spaces, are read back as they were exactly if they have one sign, no spaces, arguments only where one is read, and those without an argument last |
| `ModeText.ExactArgsArePrintable` | internal/command.go:511-579 | which is so for changes of one sign with an argument exactly where one is read |
| `ModeText.SignIsLost` | internal/command.go:516-519 | `+m` and `-p` together are not read back as they were |
| `Timers.ClientTimers.Touch` | internal/client.go:215-225 | the quit timer is off and the idle timer runs anew |
| `Timers.ClientTimers.Idle` | internal/client.go:227-236 | the quit timer runs anew |
| `Timers.ClientTimers.Destroy` | internal/client.go:269-274 | both are off, the first time |
| `Timers.SilenceIsNoticed` | internal/client.go:215-225 | after a touch the idle timer can fire exactly when the idle timeout is over |
| `Timers.PingIsFollowedUp` | internal/client.go:227-236 | after a PING, if nothing happens, the quit timer can fire exactly when the quit timeout is over |
| `Timers.QuitStopsTimers` | internal/client.go:269-274 | quitting stops both |
| `Timers.TimeoutIsSafe` | internal/client.go:193-236 | a client times out only if it was sent a PING at least the quit timeout ago and was not touched since |
| `Timers.IdleExactly` | internal/client.go:215-225 | a connected client has been silent for the idle timeout exactly if its idle timer is off or due |
| `Timers.LongSilenceExactly` | internal/client.go:193-236 | a client that times out has been silent for both timeouts exactly if its idle timer, when the last PING was sent, was off or due by the quit timeout before now; if the quit timer fires on time, when the PING was sent |
| `Timers.IdleTimeoutIsLong` | internal/client.go:227-236 | if every idle notice is handled with the idle timer off or due, the silence is both timeouts, however late the quit timer fires |
| `Timers.PromptTimeoutIsLong` | internal/client.go:13-16 | which is so if idle notices are handled at once |
| `Timers.LateNotice` | internal/server.go:317-318 | without that it need not have been |

## Left out

- Listeners, TLS, I2P, Tor, HTTP, configuration, REHASH and metrics: they are input and output.
- Goroutines and locks: a command is one step, and so is a timer that fires together with what it causes.
- PING, PONG, ISON, WHO, WHOIS, LIST, TIME, VERSION, MOTD and WHOWAS as commands, TOPIC without a text and the
  contents of LUSERS and MOTD: they change nothing and add only replies.
- Dispatch.AfterRegistration: has no case for these commands.
- Dispatch.Process: nor has a request.
- The wording of replies, and numbers in them: a reply is a code, a verb, or what a replica needs.
- Finding clients by mask over the nick index, host names, cloaked hosts.
- Handlers.OperNick: demands a nickname that is not empty, since `IsNickname` reads its first character.
- WhoWasRing.WhoWasList.Append: a ring of size zero, whose first use fails in the code, is not modelled.
- Objects.Channel: its mask lists are values that it reassigns, not objects of `Masks.UserMaskSet`; what a set matches is the same `Masks.Match`.
- Objects.Client: its SASL exchange is a value that it reassigns, not the object of `Sasl.SaslState`, whose handler is proved to do the same.
- Objects.Server: the WHOWAS entries are a plain log of nicknames here; the ring and its entries are in `WhoWasRing`.
- Objects.Server.TryRegister: the MOTD is one reply, since its text comes from a file.
- The text of user mode changes: `ModeChanges.String`, which drops a letter at every change of sign, is not modelled.
