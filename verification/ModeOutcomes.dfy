/** What the mode letters do: whose change takes effect, and which letters need an argument. */
module ModeOutcomes {
  import opened Names
  import opened Modes
  import opened Strings
  import opened ServerState
  import opened Invariants
  import opened QuietSteps
  import opened Runs
  import opened ModeBatches
  import opened ChannelOutcomes
  import ModeText

  // ---------------------------------------------------------------- taking effect

  /** The change names everything it needs. */
  ghost predicate Meant<C>(channel: ChannelRec<C>, nicks: map<Name, C>, change: ChannelModeChange) {
    && (change.op == '+' || change.op == '-')
    && change.mode in "beIimntpsZkov"
    && (change.mode in "beI" ==> change.mode in channel.lists && change.arg != "")
    && (change.mode == 'k' && change.op == '+' ==> change.arg != "")
    && (change.mode in "ov" ==>
          change.arg != "" && LOWER(change.arg) in nicks && nicks[LOWER(change.arg)] in channel.members)
  }

  lemma MaskExactly<C>(channel: ChannelRec<C>, nicks: map<Name, C>, op: bool, change: ChannelModeChange)
    requires change.mode == 'b' || change.mode == 'e' || change.mode == 'I'
    ensures ApplyMask(channel, op, change).channel
         == if op && Meant(channel, nicks, change) then Replayed(channel, nicks, change) else channel
  {
    if change.mode in channel.lists {
      var masks := channel.lists[change.mode];
      assert change.arg in masks ==> masks + {change.arg} == masks;
      assert change.arg !in masks ==> masks - {change.arg} == masks;
      assert channel.lists[change.mode := masks] == channel.lists;
    }
  }

  lemma FlagExactly<C>(channel: ChannelRec<C>, nicks: map<Name, C>, op: bool, change: ChannelModeChange)
    requires change.mode in {'i', 'm', 'n', 't', 'p', 's', 'Z'}
    ensures ApplyFlag(channel, op, change).channel
         == if op && Meant(channel, nicks, change) then Replayed(channel, nicks, change) else channel
  {
    assert change.mode in channel.flags ==> channel.flags + {change.mode} == channel.flags;
    assert change.mode !in channel.flags ==> channel.flags - {change.mode} == channel.flags;
  }

  lemma MemberExactly<C>(channel: ChannelRec<C>, nicks: map<Name, C>, op: bool, change: ChannelModeChange)
    requires change.mode == 'o' || change.mode == 'v'
    ensures ApplyMember(channel, nicks, op, change).channel
         == if op && Meant(channel, nicks, change) then Replayed(channel, nicks, change) else channel
  {
    if LOWER(change.arg) in nicks && nicks[LOWER(change.arg)] in channel.members {
      var t := nicks[LOWER(change.arg)];
      var modes := channel.members[t];
      assert change.mode in modes ==> modes + {change.mode} == modes;
      assert change.mode !in modes ==> modes - {change.mode} == modes;
      assert channel.members[t := modes] == channel.members;
    }
  }

  /**
   * The effect of any change but one of the limit: what a reader takes it to mean, if it names everything it needs and
   * its requester is in charge; none otherwise.
   */
  lemma ChangeExactly<C>(channel: ChannelRec<C>, nicks: map<Name, C>, oper: bool, c: C, change: ChannelModeChange)
    requires change.mode != 'l'
    ensures var inCharge := oper || (c in channel.members && 'o' in channel.members[c]);
            ApplyMode(channel, nicks, oper, c, change).channel
            == if inCharge && Meant(channel, nicks, change) then Replayed(channel, nicks, change) else channel
  {
    hide ApplyMask, ApplyFlag, ApplyMember, Repeat;
    var op := IsOperator(oper, channel, c);
    if change.mode in MASK_MODES {
      hide Meant, Replayed;
      MaskExactly(channel, nicks, op, change);
    } else if change.mode in FLAG_MODES {
      hide Meant, Replayed;
      FlagExactly(channel, nicks, op, change);
    } else if change.mode == CHANNEL_OPERATOR || change.mode == VOICE {
      hide Meant, Replayed;
      MemberExactly(channel, nicks, op, change);
    }
  }

  /** The limit is set, by whomever and whatever the sign, exactly to a positive number below 2 to the 64. */
  lemma LimitExactly<C>(channel: ChannelRec<C>, nicks: map<Name, C>, oper: bool, c: C, change: ChannelModeChange)
    requires change.mode == 'l'
    ensures ApplyMode(channel, nicks, oper, c, change).channel
         == channel.(userLimit := match ParseUint64(change.arg) case Some(n) => if n > 0 then n else channel.userLimit
                                                                case None => channel.userLimit)
  {
    hide ParseUint64;
  }

  /** A change that only asks for a list of masks: anybody may. */
  predicate Asks(change: ChannelModeChange) {
    change.mode in "beI" && (change.op == '=' || change.arg == "")
  }

  /** What is wrong with a change, as the code of the reply: who asks, the letter, or what it needs. */
  ghost function Complaint<C>(channel: ChannelRec<C>, nicks: map<Name, C>, inCharge: bool, change: ChannelModeChange): Option<nat> {
    if change.mode !in "beIimntpsZklov" then Some(472)
    else if change.mode == 'l' then (if ParseUint64(change.arg) == None then Some(461) else None)
    else if !inCharge then Some(482)
    else if change.mode == 'k' && change.op == '+' && change.arg == "" then Some(461)
    else if change.mode !in "ov" then None
    else if change.arg == "" then Some(461)
    else if LOWER(change.arg) !in nicks then Some(401)
    else if nicks[LOWER(change.arg)] !in channel.members then Some(441)
    else None
  }

  /** The requester is answered with a line for each mask that was asked for and one to end them, or with the complaint. */
  lemma AnswerExactly<C>(channel: ChannelRec<C>, nicks: map<Name, C>, oper: bool, c: C, change: ChannelModeChange)
    requires change.mode in "beI" ==> change.mode in channel.lists
    ensures var inCharge := oper || (c in channel.members && 'o' in channel.members[c]);
            var replies := ApplyMode(channel, nicks, oper, c, change).replies;
            if Asks(change) then
              && |replies| == |channel.lists[change.mode]| + 1
              && (forall i :: 0 <= i < |replies| - 1 ==> replies[i] == Numeric(if change.mode == 'b' then 367 else if change.mode == 'e' then 348 else 346))
              && replies[|replies| - 1] == Numeric(if change.mode == 'b' then 368 else if change.mode == 'e' then 349 else 347)
            else replies == match Complaint(channel, nicks, inCharge, change) case Some(code) => [Numeric(code)] case None => []
  {
    hide ParseUint64;
  }

  lemma ModesStep<C, H>(w: World<C, H>, c: C, name: Name, changes: seq<ChannelModeChange>)
    requires Issues(w, c, SetModes(name, changes))
    ensures c in w.clients && !w.clients[c].hasQuit && w.names.Values <= w.channels.Keys
    ensures Step(w, Issue(c, SetModes(name, changes))) == ModesName(w, c, name, changes)
  {
    hide Inv, ModesName;
  }

  lemma OneChange<C>(channel: ChannelRec<C>, nicks: map<Name, C>, oper: bool, c: C, change: ChannelModeChange)
    ensures var batch, one := ApplyModes(channel, nicks, oper, c, [change]), ApplyMode(channel, nicks, oper, c, change);
            batch.channel == one.channel && batch.applied == (if one.applied then [change] else []) && batch.replies == one.replies
  {
    hide ApplyMode;
    assert [change][..0] == [];
  }

  /** MODE with one change but of the limit, as a whole step: it has its effect exactly if meant and by somebody in charge. */
  lemma ModeExactly<C, H>(w: World<C, H>, c: C, name: Name, change: ChannelModeChange)
    requires Issues(w, c, SetModes(name, [change])) && Exists(w, name) && Named(w, name) in w.channels && change.mode != 'l'
    ensures var h, w' := Named(w, name), Step(w, Issue(c, SetModes(name, [change])));
            w'.channels == w.channels[h := if InCharge(w, h, c) && Meant(w.channels[h], w.nicks, change)
                                           then Replayed(w.channels[h], w.nicks, change) else w.channels[h]]
  {
    hide Inv, Step, Possible, ApplyMode, ApplyModes, Meant, Replayed, Receive;
    ModesStep(w, c, name, [change]);
    var h := Named(w, name);
    OneChange(w.channels[h], w.nicks, OPERATOR in w.clients[c].modes, c, change);
    ChangeExactly(w.channels[h], w.nicks, OPERATOR in w.clients[c].modes, c, change);
  }

  /** Every member is told of a batch exactly if some change in it was applied, and of the applied ones only. */
  lemma BatchIsTold<C, H>(w: World<C, H>, c: C, name: Name, changes: seq<ChannelModeChange>, m: C)
    requires Issues(w, c, SetModes(name, changes)) && Exists(w, name) && Named(w, name) in w.channels && changes != []
    requires m != c && m in w.clients && !w.clients[m].hasQuit
    ensures var h, w' := Named(w, name), Step(w, Issue(c, SetModes(name, changes)));
            var result := ApplyModes(w.channels[h], w.nicks, IrcOp(w, c), c, changes);
            && m in w'.clients
            && w'.clients[m] == if result.applied != [] && On(w, h, m)
                                then w.clients[m].(log := w.clients[m].log
                                       + [ChannelModes(w.clients[c].nick, w.channels[h].name, result.applied)])
                                else w.clients[m]
  {
    hide Inv, Step, Possible, ApplyModes;
    ModesStep(w, c, name, changes);
    ApplyModesSame(w.channels[Named(w, name)], w.nicks, IrcOp(w, c), c, changes);
  }

  // ------------------------------------------------------------- letters and arguments

  /** A letter for which no argument is read does the same whatever the argument. */
  lemma UnreadIsIgnored<C>(channel: ChannelRec<C>, nicks: map<Name, C>, oper: bool, c: C, change: ChannelModeChange, arg: string)
    requires !ModeText.TakesArg(change.mode) || change.mode == 'O'
    ensures ApplyMode(channel, nicks, oper, c, change) == ApplyMode(channel, nicks, oper, c, change.(arg := arg))
  {
  }

  /** For every other letter the argument matters, so it has to be read. `O` is read one, though nobody can set it. */
  lemma ReadMatters<C>(mode: ChannelMode, c: C) returns (channel: ChannelRec<C>, nicks: map<Name, C>, one: string, other: string)
    requires ModeText.TakesArg(mode) && mode != 'O'
    ensures ApplyMode(channel, nicks, true, c, ChannelModeChange(mode, ADD, one))
         != ApplyMode(channel, nicks, true, c, ChannelModeChange(mode, ADD, other))
    ensures ModeText.TakesArg('O')
  {
    channel := NewChannel("");
    nicks := map[];
    one, other := "a", "b";
    if mode in MASK_MODES {
      assert channel.lists[mode := {} + {"a"}][mode] == {"a"} && channel.lists[mode := {} + {"b"}][mode] == {"b"};
      assert "a" in {"a"} && "a" !in {"b"};
    } else if mode == USER_LIMIT {
      one, other := "5", "";
      UnsettingSetsLimit(channel, nicks, c);
    } else if mode != KEY {
      other := "";
      assert ApplyMode(channel, nicks, true, c, ChannelModeChange(mode, ADD, "a")).replies == [Numeric(401)];
      assert ApplyMode(channel, nicks, true, c, ChannelModeChange(mode, ADD, "")).replies == [Numeric(461)];
      assert [Numeric(401)][0] != [Numeric(461)][0];
    }
  }

  // --------------------------------------------------------------------- numbers

  /** `strconv.FormatUint(n, 10)`. */
  function Decimal(n: nat): string {
    (if n < 10 then "" else Decimal(n / 10)) + [('0' as int + n % 10) as char]
  }

  lemma {:induction false} DecimalIsRead(n: nat)
    ensures DecimalValue(Decimal(n)) == Some(n) && Decimal(n) != ""
    decreases n
  {
    var s := Decimal(n);
    if n >= 10 {
      DecimalIsRead(n / 10);
      assert s[..|s| - 1] == Decimal(n / 10);
    } else {
      assert s[..|s| - 1] == "";
    }
    assert s[|s| - 1] == ('0' as int + n % 10) as char;
  }

  /** The limit a MODE reads is the number that was written, if it fits 64 bits. */
  lemma LimitIsRead(n: nat)
    ensures ParseUint64(Decimal(n)) == if n < 0x1_0000_0000_0000_0000 then Some(n) else None
  {
    DecimalIsRead(n);
  }

  predicate IsDigits(s: string) {
    s != "" && forall i :: 0 <= i < |s| ==> '0' <= s[i] <= '9'
  }

  lemma {:induction false} DigitsHaveValue(s: string)
    ensures DecimalValue(s).Some? <==> s == "" || IsDigits(s)
  {
    if s != "" {
      DigitsHaveValue(s[..|s| - 1]);
      assert s == s[..|s| - 1] + [s[|s| - 1]];
    }
  }

  /** Nothing but digits is read as a number. */
  lemma OnlyDigitsAreRead(s: string)
    ensures ParseUint64(s).Some? ==> IsDigits(s)
  {
    DigitsHaveValue(s);
  }

  // -------------------------------------------------------------- prefixes in NAMES

  /** What an entry of a NAMES line tells: `@` in front for operators, and `+` for a voice, behind `@` only if asked for. */
  lemma EntryTells(nick: Name, modes: set<ChannelMode>, multiPrefix: bool)
    requires nick != "" && IsNickname(nick)
    ensures var entry := NamesEntry(nick, modes, multiPrefix);
            && entry != "" && (entry[0] == '@' <==> 'o' in modes)
            && (entry[0] == '+' || (|entry| > 1 && entry[0] == '@' && entry[1] == '+') <==> 'v' in modes && (multiPrefix || 'o' !in modes))
  {
    assert nick[0] != '@' && nick[0] != '+' by {
      assert '@' in FORBIDDEN_FIRST_IN_NICKS && '+' in FORBIDDEN_FIRST_IN_NICKS by {
        assert FORBIDDEN_FIRST_IN_NICKS[3] == '@' && FORBIDDEN_FIRST_IN_NICKS[5] == '+';
      }
    }
    var entry := NamesEntry(nick, modes, multiPrefix);
    assert entry == nick || entry == "@" + nick || entry == "+" + nick || entry == "@" + ("+" + nick);
  }
}
