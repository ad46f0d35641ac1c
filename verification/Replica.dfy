/** A client that keeps track of channel members from nothing but the replies it is sent. */
module Replica {
  import opened Names
  import opened ServerState
  import Multiline

  /** The client's own nick, the number of welcomes, and the nicks on each channel it is on. */
  datatype View = View(self: Name, welcomes: nat, members: map<Name, set<Name>>)

  const BLANK := View("", 0, map[])

  /** The nick in an entry of a NAMES line. */
  function Strip(entry: string): Name {
    var rest := if entry != "" && entry[0] == '@' then entry[1..] else entry;
    if rest != "" && rest[0] == '+' then rest[1..] else rest
  }

  function StripAll(entries: seq<string>): set<Name> {
    set e | e in entries :: Strip(e)
  }

  /** A nick has left a channel. */
  function Gone(view: View, channel: Name, nick: Name): View {
    if nick == view.self then view.(members := view.members - {channel})
    else if channel in view.members then view.(members := view.members[channel := view.members[channel] - {nick}])
    else view
  }

  /** Nicks are found on a channel; a channel the client is not on is none of its business. */
  function AddNicks(view: View, channel: Name, nicks: set<Name>): View {
    if channel in view.members
    then view.(members := view.members[channel := view.members[channel] + nicks])
    else view
  }

  function Renaming(nicks: set<Name>, nick: Name, newNick: Name): set<Name> {
    if nick in nicks then nicks - {nick} + {newNick} else nicks
  }

  function Observe(view: View, reply: Reply): View {
    match reply
    case Welcome(nick) => view.(self := nick, welcomes := view.welcomes + 1)
    case Joined(nick, channel) =>
      if nick == view.self then view.(members := view.members[channel := {nick}])
      else if channel in view.members then view.(members := view.members[channel := view.members[channel] + {nick}])
      else view
    case Parted(nick, channel) => Gone(view, channel, nick)
    case Kicked(channel, nick) => Gone(view, channel, nick)
    case HasQuit(nick) => view.(members := map k | k in view.members :: view.members[k] - {nick})
    case Renamed(nick, newNick) =>
      view.(self := if nick == view.self then newNick else view.self,
            members := map k | k in view.members :: Renaming(view.members[k], nick, newNick))
    case NamesLine(channel, entries) => AddNicks(view, channel, StripAll(entries))
    case ChannelModes(_, _, _) => view
    case Numeric(_) => view
    case Message(_) => view
  }

  function Replay(log: seq<Reply>): View {
    if log == [] then BLANK else Observe(Replay(log[..|log| - 1]), log[|log| - 1])
  }

  predicate Neutral(reply: Reply) {
    reply.ChannelModes? || reply.Numeric? || reply.Message?
  }

  predicate AllNeutral(replies: seq<Reply>) {
    forall r :: r in replies ==> Neutral(r)
  }

  lemma ReplayOne(log: seq<Reply>, reply: Reply)
    ensures Replay(log + [reply]) == Observe(Replay(log), reply)
  {
  }

  lemma {:induction false} ReplayNeutral(log: seq<Reply>, replies: seq<Reply>)
    requires AllNeutral(replies)
    ensures Replay(log + replies) == Replay(log)
    decreases |replies|
  {
    if replies == [] {
      assert log + replies == log;
    } else {
      assert Neutral(replies[0]);
      ReplayOne(log, replies[0]);
      ReplayNeutral(log + [replies[0]], replies[1..]);
      assert log + [replies[0]] + replies[1..] == log + replies;
    }
  }

  lemma AddTwice(view: View, channel: Name, a: set<Name>, b: set<Name>)
    ensures AddNicks(AddNicks(view, channel, a), channel, b) == AddNicks(view, channel, a + b)
    ensures AddNicks(view, channel, {}) == view
  {
    if channel in view.members {
      assert view.members[channel] + a + b == view.members[channel] + (a + b);
      assert view.members[channel] + {} == view.members[channel];
      assert view.members[channel := view.members[channel]] == view.members;
    }
  }

  lemma ObserveLine(view: View, channel: Name, entries: seq<string>)
    ensures Observe(view, NamesLine(channel, entries)) == AddNicks(view, channel, StripAll(entries))
  {
  }

  lemma StripNothing()
    ensures StripAll([]) == {}
  {
  }

  lemma {:induction false} ReplayBatches(log: seq<Reply>, channel: Name, batches: seq<seq<string>>)
    ensures Replay(log + NamesLines(channel, batches))
         == AddNicks(Replay(log), channel, StripAll(Multiline.Flatten(batches)))
    decreases |batches|
  {
    hide Replay, AddNicks, StripAll, Observe;
    var lines := NamesLines(channel, batches);
    if batches == [] {
      assert log + lines == log;
      StripNothing();
      AddTwice(Replay(log), channel, {}, {});
    } else {
      var line, rest := lines[0], Multiline.Flatten(batches[1..]);
      ReplayOne(log, line);
      ObserveLine(Replay(log), channel, batches[0]);
      ReplayBatches(log + [line], channel, batches[1..]);
      assert log + [line] + NamesLines(channel, batches[1..]) == log + lines;
      AddTwice(Replay(log), channel, StripAll(batches[0]), StripAll(rest));
      StripAppend(batches[0], rest);
    }
  }

  lemma StripAppend(a: seq<string>, b: seq<string>)
    ensures StripAll(a + b) == StripAll(a) + StripAll(b)
  {
  }

  /** However a list of names is cut into lines, replaying the lines adds every one of them. */
  lemma ReplayPacked(log: seq<Reply>, channel: Name, baseLen: nat, entries: seq<string>)
    ensures Replay(log + NamesLines(channel, Multiline.Pack(baseLen, entries)))
         == AddNicks(Replay(log), channel, StripAll(entries))
  {
    ReplayBatches(log, channel, Multiline.Pack(baseLen, entries));
    Multiline.PackConserves(baseLen, entries);
  }

  /** The prefixes of an entry can be told from a legal nick. */
  lemma StripEntry(nick: Name, modes: set<char>, multiPrefix: bool)
    requires nick != "" && IsNickname(nick)
    ensures Strip(NamesEntry(nick, modes, multiPrefix)) == nick
  {
    assert nick[0] != '@' && nick[0] != '+' by {
      assert '@' in FORBIDDEN_FIRST_IN_NICKS && '+' in FORBIDDEN_FIRST_IN_NICKS;
    }
    var entry := NamesEntry(nick, modes, multiPrefix);
    assert entry == nick || entry == "@" + nick || entry == "+" + nick || entry == "@" + ("+" + nick);
  }
}
