/** The list of nicknames given up, kept in a ring. */
module WhoWasRing {
  import opened Names
  import opened Strings

  datatype WhoWas = WhoWas(nickname: Name, username: Name, hostname: Name, hostmask: Name, realname: string)

  // ------------------------------------------------------------------ the plain log

  /** The last `n` elements, or all if there are fewer. */
  function Last<T>(s: seq<T>, n: nat): (r: seq<T>)
    ensures |r| == if |s| <= n then |s| else n
  {
    if |s| <= n then s else s[|s| - n..]
  }

  function First<T>(s: seq<T>, n: nat): (r: seq<T>)
    ensures |r| == if |s| <= n then |s| else n
  {
    if |s| <= n then s else s[..n]
  }

  function Reversed<T>(s: seq<T>): (r: seq<T>)
    ensures |r| == |s|
    ensures forall i :: 0 <= i < |s| ==> r[i] == s[|s| - 1 - i]
  {
    seq(|s|, i requires 0 <= i < |s| => s[|s| - 1 - i])
  }

  function OfNick(entries: seq<WhoWas>, nickname: Name): seq<WhoWas> {
    if entries == [] then []
    else
      var n := |entries| - 1;
      OfNick(entries[..n], nickname) + if entries[n].nickname == nickname then [entries[n]] else []
  }

  /** A limit below one still gives one entry. */
  function AtLeastOne(limit: int): nat {
    if limit < 1 then 1 else limit
  }

  /** The answer a plain log with room for `capacity` entries gives. */
  function Answer(log: seq<WhoWas>, capacity: nat, nickname: Name, limit: int): seq<WhoWas> {
    First(OfNick(Reversed(Last(log, capacity)), nickname), AtLeastOne(limit))
  }

  // ----------------------------------------------------------------------- the ring

  function Next(index: int, length: int): int {
    if index + 1 == length then 0 else index + 1
  }

  function Previous(index: int, length: int): int {
    if index == 0 then length - 1 else index - 1
  }

  /** The number of live slots. */
  function Live(start: int, end: int, length: int): int {
    if start <= end then end - start else end - start + length
  }

  /** The slot of the `k`-th newest entry, counted from zero. */
  function Slot(end: int, k: int, length: int): int {
    if k < end then end - 1 - k else end - 1 - k + length
  }

  /** The live slots hold the newest entries of the log, as many as there is room for: one slot stays unused. */
  ghost predicate Holds(slots: seq<Option<WhoWas>>, start: int, end: int, log: seq<WhoWas>) {
    && 0 <= start < |slots| && 0 <= end < |slots|
    && Live(start, end, |slots|) == |Last(log, |slots| - 1)|
    && (forall k :: 0 <= k < Live(start, end, |slots|) ==> slots[Slot(end, k, |slots|)] == Some(log[|log| - 1 - k]))
  }

  /** After an entry is stored, the oldest live slot is given up if there is no more room. */
  function NewStart(start: int, end: int, length: int): int {
    if Next(end, length) == start then Next(Next(end, length), length) else start
  }

  lemma AppendLive(start: int, end: int, length: int)
    requires 0 <= start < length && 0 <= end < length
    ensures var live := Live(start, end, length);
            Live(NewStart(start, end, length), Next(end, length), length) == if live < length - 1 then live + 1 else live
    ensures 0 <= Live(start, end, length) < length && 0 <= NewStart(start, end, length) < length
  {
  }

  lemma AppendSlot(end: int, k: int, length: int)
    requires 0 <= end < length && 0 <= k < length - 1
    ensures Slot(Next(end, length), k, length) == if k == 0 then end else Slot(end, k - 1, length)
    ensures k > 0 ==> end != Slot(end, k - 1, length) && 0 <= Slot(end, k - 1, length) < length
  {
  }

  /** Storing at the end and advancing keeps the newest entries. */
  lemma AppendHolds(slots: seq<Option<WhoWas>>, start: int, end: int, log: seq<WhoWas>, entry: WhoWas)
    requires 0 <= start < |slots| && 0 <= end < |slots| && Holds(slots, start, end, log)
    ensures 0 <= NewStart(start, end, |slots|) < |slots|
    ensures Holds(slots[end := Some(entry)], NewStart(start, end, |slots|), Next(end, |slots|), log + [entry])
  {
    hide Live, Slot, NewStart;
    var n := |slots|;
    AppendLive(start, end, n);
    var end' := Next(end, n);
    forall k | 0 <= k < Live(NewStart(start, end, n), end', n)
      ensures 0 <= Slot(end', k, n) < n && slots[end := Some(entry)][Slot(end', k, n)] == Some((log + [entry])[|log| - k])
    {
      AppendSlot(end, k, n);
    }
  }

  lemma SlotOfNewest(end: int, length: int)
    requires 0 <= end < length
    ensures Slot(end, 0, length) == Previous(end, length)
  {
  }

  lemma NextIsModular(index: int, length: int)
    requires 0 <= index < length
    ensures (index + 1) % length == Next(index, length)
  {
  }

  /** The `k`-th newest entry is in its slot; going back from there, the walk stops after the last live slot. */
  lemma SlotHolds(slots: seq<Option<WhoWas>>, start: int, end: int, log: seq<WhoWas>, k: int)
    requires Holds(slots, start, end, log) && 0 <= k <= Live(start, end, |slots|)
    ensures 0 <= start < |slots| && 0 <= end < |slots|
    ensures Live(start, end, |slots|) == |Last(log, |slots| - 1)|
    ensures 0 <= Slot(end, k, |slots|) < |slots|
    ensures Slot(end, k, |slots|) == Previous(start, |slots|) <==> k == Live(start, end, |slots|)
    ensures k < Live(start, end, |slots|) ==>
              && slots[Slot(end, k, |slots|)] == Some(Reversed(Last(log, |slots| - 1))[k])
              && Previous(Slot(end, k, |slots|), |slots|) == Slot(end, k + 1, |slots|)
  {
  }

  class WhoWasList {
    const buffer: array<Option<WhoWas>>
    var start: int
    var end: int
    /** Everything ever appended, oldest first. */
    ghost var log: seq<WhoWas>

    ghost predicate Valid()
      reads this, buffer
    {
      && 0 <= start < buffer.Length && 0 <= end < buffer.Length
      && Holds(buffer[..], start, end, log)
    }

    constructor (size: nat)
      requires size > 0
      ensures Valid() && fresh(buffer) && buffer.Length == size && log == []
    {
      buffer := new Option<WhoWas>[size](_ => None);
      start, end := 0, 0;
      log := [];
    }

    method Append(entry: WhoWas)
      requires Valid()
      modifies this, buffer
      ensures Valid() && log == old(log) + [entry]
    {
      hide Holds;
      AppendHolds(buffer[..], start, end, log, entry);
      buffer[end] := Some(entry);
      NextIsModular(end, buffer.Length);
      end := (end + 1) % buffer.Length;
      log := log + [entry];
      NextIsModular(end, buffer.Length);
      if end == start {
        start := (end + 1) % buffer.Length;
      }
    }

    method Prev(index: int) returns (before: int)
      requires 0 <= index < buffer.Length
      ensures before == Previous(index, buffer.Length)
    {
      before := index - 1;
      if before < 0 {
        before := before + buffer.Length;
      }
    }

    /** The live entries, newest first. */
    method Each() returns (entries: seq<WhoWas>)
      requires Valid()
      ensures entries == Reversed(Last(log, buffer.Length - 1))
    {
      hide Holds, Slot, Last, Reversed;
      entries := [];
      ghost var live := Live(start, end, buffer.Length);
      ghost var all := Reversed(Last(log, buffer.Length - 1));
      SlotHolds(buffer[..], start, end, log, 0);
      if start == end {
        return;
      }
      var slot := Prev(end);
      var stop := Prev(start);
      SlotOfNewest(end, buffer.Length);
      while slot != stop
        invariant |entries| <= live == |all| && slot == Slot(end, |entries|, buffer.Length)
        invariant entries == all[..|entries|]
        decreases live - |entries|
      {
        SlotHolds(buffer[..], start, end, log, |entries|);
        entries := entries + [buffer[slot].value];
        slot := Prev(slot);
      }
      SlotHolds(buffer[..], start, end, log, |entries|);
      assert all[..|all|] == all;
    }

    /** At most `limit` entries of the nickname, the newest ones, and one even if the limit is zero or less. */
    method Find(nickname: Name, limit: int) returns (results: seq<WhoWas>)
      requires Valid()
      ensures results == Answer(log, buffer.Length - 1, nickname, limit)
    {
      hide OfNick, Holds;
      results := [];
      var entries := Each();
      OfNickNone(nickname);
      for i := 0 to |entries|
        invariant results == OfNick(entries[..i], nickname)
        invariant results == [] || |results| < limit
      {
        OfNickStep(entries, i, nickname);
        if nickname != entries[i].nickname {
          continue;
        }
        results := results + [entries[i]];
        if |results| >= limit {
          OfNickPrefix(entries, i + 1, nickname);
          return;
        }
      }
      assert entries[..|entries|] == entries;
    }
  }

  lemma OfNickNone(nickname: Name)
    ensures OfNick([], nickname) == []
  {
  }

  lemma OfNickStep(entries: seq<WhoWas>, i: nat, nickname: Name)
    requires i < |entries|
    ensures OfNick(entries[..i + 1], nickname)
         == OfNick(entries[..i], nickname) + if entries[i].nickname == nickname then [entries[i]] else []
  {
    assert entries[..i + 1][..i] == entries[..i];
  }

  lemma {:induction false} OfNickPrefix(entries: seq<WhoWas>, n: nat, nickname: Name)
    requires n <= |entries|
    ensures OfNick(entries[..n], nickname) <= OfNick(entries, nickname)
    decreases |entries|
  {
    if n == |entries| {
      assert entries[..n] == entries;
    } else {
      var m := |entries| - 1;
      assert entries[..m][..n] == entries[..n];
      OfNickPrefix(entries[..m], n, nickname);
    }
  }

  // ------------------------------------------------------------ what an answer means

  /**
   * The answer consists of the entries at these positions of the log, newest first: positions of the
   * nickname within the capacity, and no such position is passed over.
   */
  ghost predicate Newest(log: seq<WhoWas>, capacity: nat, nickname: Name, positions: seq<nat>, answer: seq<WhoWas>) {
    && |positions| == |answer|
    && (forall i, j :: 0 <= i < j < |positions| ==> positions[i] > positions[j])
    && (forall i :: 0 <= i < |positions| ==>
          positions[i] < |log| <= positions[i] + capacity && log[positions[i]] == answer[i] && answer[i].nickname == nickname)
  }

  /** Every position of the nickname within the capacity, from `from` on, is reported. */
  ghost predicate Complete(log: seq<WhoWas>, capacity: nat, nickname: Name, positions: seq<nat>, from: int) {
    forall p :: 0 <= p < |log| <= p + capacity && from <= p && log[p].nickname == nickname ==> p in positions
  }

  lemma NewestOneMore(log: seq<WhoWas>, capacity: nat, nickname: Name, positions: seq<nat>, answer: seq<WhoWas>, p: nat)
    requires Newest(log, capacity, nickname, positions, answer)
    requires forall i :: 0 <= i < |positions| ==> positions[i] > p
    requires p < |log| <= p + capacity && log[p].nickname == nickname
    ensures Newest(log, capacity, nickname, positions + [p], answer + [log[p]])
  {
  }

  lemma CompleteOneMore(log: seq<WhoWas>, capacity: nat, nickname: Name, positions: seq<nat>, more: seq<nat>, p: nat)
    requires Complete(log, capacity, nickname, positions, p + 1)
    requires p < |log| && more == if log[p].nickname == nickname then [p] else []
    ensures Complete(log, capacity, nickname, positions + more, p)
  {
  }

  /** The positions of the nickname among the newest `n` entries. */
  lemma {:induction false} NewestPositions(log: seq<WhoWas>, capacity: nat, nickname: Name, n: nat) returns (positions: seq<nat>)
    requires n <= |Last(log, capacity)|
    ensures Newest(log, capacity, nickname, positions, OfNick(Reversed(Last(log, capacity))[..n], nickname))
    ensures Complete(log, capacity, nickname, positions, |log| - n)
    ensures forall i :: 0 <= i < |positions| ==> positions[i] >= |log| - n
  {
    hide Newest, Complete, OfNick;
    var entries := Reversed(Last(log, capacity));
    if n == 0 {
      positions := [];
      NoPositions(log, capacity, nickname);
    } else {
      var p := |log| - n;
      var newer := NewestPositions(log, capacity, nickname, n - 1);
      OfNickStep(entries, n - 1, nickname);
      assert entries[n - 1] == log[p];
      var more := if log[p].nickname == nickname then [p] else [];
      CompleteOneMore(log, capacity, nickname, newer, more, p);
      if more != [] {
        NewestOneMore(log, capacity, nickname, newer, OfNick(entries[..n - 1], nickname), p);
      } else {
        assert OfNick(entries[..n - 1], nickname) + [] == OfNick(entries[..n - 1], nickname) && newer + [] == newer;
      }
      positions := newer + more;
    }
  }

  lemma NoPositions(log: seq<WhoWas>, capacity: nat, nickname: Name)
    ensures Newest(log, capacity, nickname, [], OfNick([], nickname))
    ensures Complete(log, capacity, nickname, [], |log|)
  {
  }

  /**
   * An answer reports the newest matching entries the ring has room for, at most as many as asked for
   * (but one at the least), and all of them if it reports fewer.
   */
  lemma AnswerIsNewest(log: seq<WhoWas>, capacity: nat, nickname: Name, limit: int) returns (positions: seq<nat>)
    ensures var answer := Answer(log, capacity, nickname, limit);
            && Newest(log, capacity, nickname, positions, answer)
            && |answer| <= AtLeastOne(limit)
            && Complete(log, capacity, nickname, positions,
                        if |answer| < AtLeastOne(limit) then 0 else positions[|positions| - 1])
  {
    hide OfNick;
    var entries := Reversed(Last(log, capacity));
    var all := NewestPositions(log, capacity, nickname, |entries|);
    assert entries[..|entries|] == entries;
    positions := First(all, AtLeastOne(limit));
    forall p | 0 <= p < |log| <= p + capacity && log[p].nickname == nickname
      ensures p in all
    {
      assert |log| - |entries| <= p;
    }
  }

  /** What section 3.6.3 of RFC 2812 asks for: a count that is not positive stands for all entries. */
  function StandardAnswer(log: seq<WhoWas>, capacity: nat, nickname: Name, limit: int): seq<WhoWas> {
    var all := OfNick(Reversed(Last(log, capacity)), nickname);
    if limit < 1 then all else First(all, limit)
  }

  /** The answer is the one of the standard exactly if the limit is positive or there is at most one entry to report. */
  lemma AnswerIsStandardExactly(log: seq<WhoWas>, capacity: nat, nickname: Name, limit: int)
    ensures Answer(log, capacity, nickname, limit) == StandardAnswer(log, capacity, nickname, limit)
       <==> limit >= 1 || |OfNick(Reversed(Last(log, capacity)), nickname)| <= 1
  {
    hide OfNick;
    var all := OfNick(Reversed(Last(log, capacity)), nickname);
    assert |First(all, AtLeastOne(limit))| == if |all| <= AtLeastOne(limit) then |all| else AtLeastOne(limit);
  }
}
