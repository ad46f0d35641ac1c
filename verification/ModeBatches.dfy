/** What a MODE batch does, compared with the summary of it that is broadcast. */
module ModeBatches {
  import opened Names
  import opened Modes
  import opened Strings
  import opened ServerState
  import opened Invariants
  import opened QuietSteps

  // ------------------------------------------------------------------- replaying

  /** What a reader of the protocol takes a broadcast change to mean, with nothing checked. */
  ghost function Replayed<C>(channel: ChannelRec<C>, nicks: map<Name, C>, change: ChannelModeChange): ChannelRec<C> {
    var mode := change.mode;
    if mode in MASK_MODES then
      var masks := MasksOf(channel, mode);
      channel.(lists := channel.lists[mode := if change.op == REMOVE then masks - {change.arg} else masks + {change.arg}])
    else if mode in FLAG_MODES then
      channel.(flags := if change.op == REMOVE then channel.flags - {mode} else channel.flags + {mode})
    else if mode == KEY then channel.(key := if change.op == REMOVE then "" else change.arg)
    else if mode == USER_LIMIT then
      channel.(userLimit := if change.op == REMOVE then 0 else ParseUint64(change.arg).GetOr(channel.userLimit))
    else if (mode == CHANNEL_OPERATOR || mode == VOICE) && LOWER(change.arg) in nicks
            && nicks[LOWER(change.arg)] in channel.members then
      var target := nicks[LOWER(change.arg)];
      var modes := channel.members[target];
      channel.(members := channel.members[target := if change.op == REMOVE then modes - {mode} else modes + {mode}])
    else channel
  }

  ghost function ReplayedAll<C>(channel: ChannelRec<C>, nicks: map<Name, C>, changes: seq<ChannelModeChange>)
    : ChannelRec<C>
  {
    if changes == [] then channel
    else Replayed(ReplayedAll(channel, nicks, changes[..|changes| - 1]), nicks, changes[|changes| - 1])
  }

  ghost predicate SameButLimit<C>(a: ChannelRec<C>, b: ChannelRec<C>) {
    b == a.(userLimit := b.userLimit)
  }

  predicate UnsetsLimit(change: ChannelModeChange) {
    change.mode == USER_LIMIT && change.op == REMOVE
  }

  /** An applied change means what a reader takes it to mean, but for `-l`, which sets the limit. */
  lemma AppliedIsReplayed<C>(channel: ChannelRec<C>, nicks: map<Name, C>, oper: bool, c: C, change: ChannelModeChange)
    requires ApplyMode(channel, nicks, oper, c, change).applied
    ensures SameButLimit(Replayed(channel, nicks, change), ApplyMode(channel, nicks, oper, c, change).channel)
    ensures ApplyMode(channel, nicks, oper, c, change).channel == Replayed(channel, nicks, change)
            <==> !UnsetsLimit(change)
  {
    hide DecimalValue;
  }

  /** A change is reported as applied exactly if it altered the channel, but for a `-k` without a key. */
  lemma AppliedAlters<C>(channel: ChannelRec<C>, nicks: map<Name, C>, oper: bool, c: C, change: ChannelModeChange)
    ensures var result := ApplyMode(channel, nicks, oper, c, change);
            result.applied <==>
            result.channel != channel
            || (change.mode == KEY && change.op == REMOVE && channel.key == "" && IsOperator(oper, channel, c))
  {
  }

  lemma ReplayedIgnoresLimit<C>(a: ChannelRec<C>, b: ChannelRec<C>, nicks: map<Name, C>, change: ChannelModeChange)
    requires SameButLimit(a, b)
    ensures SameButLimit(Replayed(a, nicks, change), Replayed(b, nicks, change))
  {
  }

  /** Replaying the broadcast changes gives the new key, flags, mask lists and member modes. */
  lemma {:induction false} BatchIsReplayed<C>(channel: ChannelRec<C>, nicks: map<Name, C>, oper: bool, c: C,
                                              changes: seq<ChannelModeChange>)
    ensures var result := ApplyModes(channel, nicks, oper, c, changes);
            SameButLimit(ReplayedAll(channel, nicks, result.applied), result.channel)
  {
    hide ApplyMode, Replayed;
    if changes != [] {
      var n := |changes| - 1;
      var before := ApplyModes(channel, nicks, oper, c, changes[..n]);
      var last := ApplyMode(before.channel, nicks, oper, c, changes[n]);
      BatchIsReplayed(channel, nicks, oper, c, changes[..n]);
      if last.applied {
        var replayed := ReplayedAll(channel, nicks, before.applied);
        assert (before.applied + [changes[n]])[..|before.applied|] == before.applied;
        ReplayedIgnoresLimit(replayed, before.channel, nicks, changes[n]);
        AppliedIsReplayed(before.channel, nicks, oper, c, changes[n]);
      } else {
        AppliedAlters(before.channel, nicks, oper, c, changes[n]);
      }
    }
  }

  /** Without a request to unset the limit, the summary gives the whole new channel. */
  lemma {:induction false} BatchIsReplayedFully<C>(channel: ChannelRec<C>, nicks: map<Name, C>, oper: bool, c: C,
                                                   changes: seq<ChannelModeChange>)
    requires forall i :: 0 <= i < |changes| ==> !UnsetsLimit(changes[i])
    ensures var result := ApplyModes(channel, nicks, oper, c, changes);
            ReplayedAll(channel, nicks, result.applied) == result.channel
  {
    hide ApplyMode, Replayed, UnsetsLimit;
    if changes != [] {
      var n := |changes| - 1;
      var before := ApplyModes(channel, nicks, oper, c, changes[..n]);
      var last := ApplyMode(before.channel, nicks, oper, c, changes[n]);
      BatchIsReplayedFully(channel, nicks, oper, c, changes[..n]);
      if last.applied {
        assert (before.applied + [changes[n]])[..|before.applied|] == before.applied;
        AppliedIsReplayed(before.channel, nicks, oper, c, changes[n]);
      } else {
        AppliedAlters(before.channel, nicks, oper, c, changes[n]);
      }
    }
  }

  /** The last applied change of the limit is a request to unset it. */
  ghost predicate LimitUnsetLast(applied: seq<ChannelModeChange>) {
    applied != [] &&
    var last := applied[|applied| - 1];
    if last.mode == USER_LIMIT then last.op == REMOVE else LimitUnsetLast(applied[..|applied| - 1])
  }

  lemma AppliedLimit<C>(channel: ChannelRec<C>, nicks: map<Name, C>, oper: bool, c: C, change: ChannelModeChange)
    requires ApplyMode(channel, nicks, oper, c, change).applied
    ensures var limit := ApplyMode(channel, nicks, oper, c, change).channel.userLimit;
            if change.mode == USER_LIMIT then limit > 0 && ParseUint64(change.arg) == Some(limit)
            else limit == channel.userLimit
  {
  }

  lemma ReplayedLimit<C>(channel: ChannelRec<C>, nicks: map<Name, C>, change: ChannelModeChange)
    ensures Replayed(channel, nicks, change).userLimit
         == if change.mode != USER_LIMIT then channel.userLimit
            else if change.op == REMOVE then 0 else ParseUint64(change.arg).GetOr(channel.userLimit)
  {
    hide ParseUint64;
  }

  /** Told from what is broadcast: the summary gives the new limit exactly if its last `l` is not a `-l`. */
  lemma {:induction false} LimitByApplied<C>(channel: ChannelRec<C>, nicks: map<Name, C>, oper: bool, c: C,
                                             changes: seq<ChannelModeChange>)
    ensures var result := ApplyModes(channel, nicks, oper, c, changes);
            && (ReplayedAll(channel, nicks, result.applied) == result.channel <==> !LimitUnsetLast(result.applied))
            && (LimitUnsetLast(result.applied) ==>
                ReplayedAll(channel, nicks, result.applied).userLimit == 0 < result.channel.userLimit)
  {
    hide ApplyMode, Replayed, ParseUint64;
    BatchIsReplayed(channel, nicks, oper, c, changes);
    if changes != [] {
      var n := |changes| - 1;
      var before := ApplyModes(channel, nicks, oper, c, changes[..n]);
      var last := ApplyMode(before.channel, nicks, oper, c, changes[n]);
      LimitByApplied(channel, nicks, oper, c, changes[..n]);
      if last.applied {
        assert (before.applied + [changes[n]])[..|before.applied|] == before.applied;
        AppliedLimit(before.channel, nicks, oper, c, changes[n]);
        ReplayedLimit(ReplayedAll(channel, nicks, before.applied), nicks, changes[n]);
      } else {
        AppliedAlters(before.channel, nicks, oper, c, changes[n]);
      }
    }
  }

  /** The limit that `change` sets if the limit is `limit`: a number other than zero and the limit itself. */
  function NewLimit(limit: nat, change: ChannelModeChange): Option<nat> {
    match (change.mode == USER_LIMIT, ParseUint64(change.arg))
    case (true, Some(n)) => if n != 0 && n != limit then Some(n) else None
    case _ => None
  }

  /** From the old limit and the request alone: the limit that results, and whether a `-l` was the last to set it. */
  function LimitAfter(limit: nat, changes: seq<ChannelModeChange>): (nat, bool) {
    if changes == [] then (limit, false)
    else
      var (before, unset) := LimitAfter(limit, changes[..|changes| - 1]);
      var last := changes[|changes| - 1];
      match NewLimit(before, last)
      case Some(n) => (n, last.op == REMOVE)
      case None => (before, unset)
  }

  lemma LimitStep<C>(channel: ChannelRec<C>, nicks: map<Name, C>, oper: bool, c: C, change: ChannelModeChange)
    ensures var result := ApplyMode(channel, nicks, oper, c, change);
            && (result.applied && change.mode == USER_LIMIT <==> NewLimit(channel.userLimit, change).Some?)
            && result.channel.userLimit == NewLimit(channel.userLimit, change).GetOr(channel.userLimit)
  {
    hide ParseUint64, Repeat;
  }

  lemma {:induction false} LimitAfterIs<C>(channel: ChannelRec<C>, nicks: map<Name, C>, oper: bool, c: C,
                                           changes: seq<ChannelModeChange>)
    ensures var result := ApplyModes(channel, nicks, oper, c, changes);
            LimitAfter(channel.userLimit, changes) == (result.channel.userLimit, LimitUnsetLast(result.applied))
  {
    hide ApplyMode, NewLimit;
    if changes != [] {
      var n := |changes| - 1;
      var before := ApplyModes(channel, nicks, oper, c, changes[..n]);
      LimitAfterIs(channel, nicks, oper, c, changes[..n]);
      LimitStep(before.channel, nicks, oper, c, changes[n]);
      assert (before.applied + [changes[n]])[..|before.applied|] == before.applied;
    }
  }

  /**
   * Told from the old limit and the request: the summary gives the whole new channel exactly if the last change that
   * sets the limit is not a `-l`. If it is, a reader thinks that there is no limit, and there is one.
   */
  lemma LimitIsReplayedExactly<C>(channel: ChannelRec<C>, nicks: map<Name, C>, oper: bool, c: C,
                                  changes: seq<ChannelModeChange>)
    ensures var result := ApplyModes(channel, nicks, oper, c, changes);
            var replayed := ReplayedAll(channel, nicks, result.applied);
            var (limit, unset) := LimitAfter(channel.userLimit, changes);
            && (replayed == result.channel <==> !unset)
            && result.channel.userLimit == limit
            && (unset ==> replayed.userLimit == 0 < limit)
  {
    hide ApplyModes, ReplayedAll, LimitAfter, LimitUnsetLast;
    LimitByApplied(channel, nicks, oper, c, changes);
    LimitAfterIs(channel, nicks, oper, c, changes);
  }

  /** Anybody can set the limit of a channel, and `-l` sets it too. */
  lemma UnsettingSetsLimit<C>(channel: ChannelRec<C>, nicks: map<Name, C>, c: C)
    requires channel.userLimit != 5
    ensures var change := ChannelModeChange(USER_LIMIT, REMOVE, "5");
            ApplyMode(channel, nicks, false, c, change) == ModeResult(channel.(userLimit := 5), true, [])
  {
  }

  // ----------------------------------------------------------------- subsequence

  ghost predicate IsSubsequence<T>(s: seq<T>, t: seq<T>) {
    if t == [] then s == []
    else
      || IsSubsequence(s, t[..|t| - 1])
      || (s != [] && s[|s| - 1] == t[|t| - 1] && IsSubsequence(s[..|s| - 1], t[..|t| - 1]))
  }

  /** Only requested changes are reported, in the order of the request. */
  lemma {:induction false} AppliedIsSubsequence<C>(channel: ChannelRec<C>, nicks: map<Name, C>, oper: bool, c: C,
                                                   changes: seq<ChannelModeChange>)
    ensures IsSubsequence(ApplyModes(channel, nicks, oper, c, changes).applied, changes)
  {
    hide ApplyMode;
    if changes != [] {
      var n := |changes| - 1;
      AppliedIsSubsequence(channel, nicks, oper, c, changes[..n]);
      var before := ApplyModes(channel, nicks, oper, c, changes[..n]);
      assert (before.applied + [changes[n]])[..|before.applied|] == before.applied;
    }
  }

  // ------------------------------------------------------------------- authority

  predicate OnlyLimits(changes: seq<ChannelModeChange>) {
    forall i :: 0 <= i < |changes| ==> changes[i].mode == USER_LIMIT
  }

  lemma PowerlessChange<C>(channel: ChannelRec<C>, nicks: map<Name, C>, c: C, change: ChannelModeChange)
    requires !HasMode(channel, c, CHANNEL_OPERATOR)
    ensures var result := ApplyMode(channel, nicks, false, c, change);
            SameButLimit(channel, result.channel) && (result.applied ==> change.mode == USER_LIMIT)
  {
  }

  /** From where a requester is no operator, a batch changes the limit at most. */
  lemma {:induction false} PowerlessBatch<C>(channel: ChannelRec<C>, nicks: map<Name, C>, c: C,
                                             before: seq<ChannelModeChange>, rest: seq<ChannelModeChange>)
    requires !HasMode(ApplyModes(channel, nicks, false, c, before).channel, c, CHANNEL_OPERATOR)
    ensures var start, result := ApplyModes(channel, nicks, false, c, before), ApplyModes(channel, nicks, false, c, before + rest);
            && SameButLimit(start.channel, result.channel)
            && start.applied <= result.applied
            && OnlyLimits(result.applied[|start.applied|..])
    decreases |rest|
  {
    hide ApplyMode;
    if rest == [] {
      assert before + rest == before;
    } else {
      var n := |rest| - 1;
      var all := before + rest;
      PowerlessBatch(channel, nicks, c, before, rest[..n]);
      assert all[..|all| - 1] == before + rest[..n];
      var middle := ApplyModes(channel, nicks, false, c, before + rest[..n]);
      PowerlessChange(middle.channel, nicks, c, rest[n]);
    }
  }
}
