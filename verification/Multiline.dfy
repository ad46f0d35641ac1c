/** Packing a list of names into reply lines of bounded length. */
module Multiline {
  import opened Names
  import opened Strings

  const MAX_REPLY_LEN := 510

  function TotalBytes(names: seq<string>): nat {
    if names == [] then 0 else TotalBytes(names[..|names| - 1]) + Bytes(names[|names| - 1])
  }

  /** The length of the names joined by single spaces. */
  function JoinedLen(names: seq<string>): int {
    |names| - 1 + TotalBytes(names)
  }

  predicate TooLong(baseLen: nat, names: seq<string>) {
    baseLen + JoinedLen(names) > MAX_REPLY_LEN
  }

  function Flatten(batches: seq<seq<string>>): seq<string> {
    if batches == [] then [] else batches[0] + Flatten(batches[1..])
  }

  /** What remains to be sent once the scan has reached `to` and everything before `from` is sent. */
  function PackFrom(baseLen: nat, names: seq<string>, from: nat, to: nat): seq<seq<string>>
    requires from < to <= |names|
    decreases |names| - to + |names| - from
  {
    if to == |names| then [names[from..]]
    else if from < to - 1 && TooLong(baseLen, names[from..to]) then
      [names[from..to - 1]] + PackFrom(baseLen, names, to - 1, to)
    else
      PackFrom(baseLen, names, from, to + 1)
  }

  /** The batches in which a list of names is sent. */
  function Pack(baseLen: nat, names: seq<string>): seq<seq<string>> {
    if names == [] then [] else PackFrom(baseLen, names, 0, 1)
  }

  method JoinedLength(names: seq<string>) returns (l: int)
    ensures l == JoinedLen(names)
  {
    l := |names| - 1;
    for i := 0 to |names|
      invariant l == |names| - 1 + TotalBytes(names[..i])
    {
      assert names[..i + 1][..i] == names[..i];
      l := l + Bytes(names[i]);
    }
    assert names[..|names|] == names;
  }

  /** The batches sent, in order. */
  method MultilineReply(baseLen: nat, names: seq<string>) returns (sent: seq<seq<string>>)
    ensures sent == Pack(baseLen, names)
  {
    sent := [];
    var from, to := 0, 1;
    while to < |names|
      invariant 0 <= from < to
      invariant to <= |names| || (names == [] && to == 1 && sent == [])
      invariant to <= |names| ==> Pack(baseLen, names) == sent + PackFrom(baseLen, names, from, to)
      decreases |names| - to + |names| - from
    {
      var tooLong := false;
      if from < to - 1 {
        var l := JoinedLength(names[from..to]);
        tooLong := baseLen + l > MAX_REPLY_LEN;
      }
      if tooLong {
        ghost var rest := PackFrom(baseLen, names, to - 1, to);
        PackFromCut(baseLen, names, from, to);
        assert sent + ([names[from..to - 1]] + rest) == (sent + [names[from..to - 1]]) + rest;
        sent := sent + [names[from..to - 1]];
        from := to - 1;
      } else {
        to := to + 1;
      }
    }
    if from < |names| {
      sent := sent + [names[from..]];
    }
  }

  /** One unfolding of `PackFrom` at a cut. */
  lemma PackFromCut(baseLen: nat, names: seq<string>, from: nat, to: nat)
    requires from < to - 1 && to < |names| && TooLong(baseLen, names[from..to])
    ensures PackFrom(baseLen, names, from, to) == [names[from..to - 1]] + PackFrom(baseLen, names, to - 1, to)
  {
  }

  /** No name is lost, repeated or reordered, and no batch is empty. */
  lemma {:induction false} PackFromConserves(baseLen: nat, names: seq<string>, from: nat, to: nat)
    requires from < to <= |names|
    ensures Flatten(PackFrom(baseLen, names, from, to)) == names[from..]
    ensures forall b :: b in PackFrom(baseLen, names, from, to) ==> b != []
    decreases |names| - to + |names| - from
  {
    hide TooLong;
    if to == |names| {
      assert Flatten([names[from..]]) == names[from..] + Flatten([]);
    } else if from < to - 1 && TooLong(baseLen, names[from..to]) {
      PackFromConserves(baseLen, names, to - 1, to);
      var rest := PackFrom(baseLen, names, to - 1, to);
      assert ([names[from..to - 1]] + rest)[1..] == rest;
      assert names[from..] == names[from..to - 1] + names[to - 1..];
    } else {
      PackFromConserves(baseLen, names, from, to + 1);
    }
  }

  lemma PackConserves(baseLen: nat, names: seq<string>)
    ensures Flatten(Pack(baseLen, names)) == names
    ensures forall b :: b in Pack(baseLen, names) ==> b != []
  {
    if names != [] {
      PackFromConserves(baseLen, names, 0, 1);
    }
  }

  /** A batch that is a single name or fits the limit. */
  predicate Fits(baseLen: nat, batch: seq<string>) {
    |batch| <= 1 || !TooLong(baseLen, batch)
  }

  /** Every batch but the last fits and could not have taken the next name; the last fits without its last name. */
  predicate GreedilyPacked(baseLen: nat, batches: seq<seq<string>>) {
    && (forall i :: 0 <= i < |batches| ==> batches[i] != [])
    && (forall i :: 0 <= i < |batches| - 1 ==>
      && Fits(baseLen, batches[i])
      && TooLong(baseLen, batches[i] + [batches[i + 1][0]]))
    && (batches != [] ==>
      var last := batches[|batches| - 1];
      Fits(baseLen, last[..|last| - 1]))
  }

  /** Putting a full batch in front keeps the packing greedy. */
  lemma GreedyCons(baseLen: nat, batch: seq<string>, rest: seq<seq<string>>)
    requires batch != [] && Fits(baseLen, batch)
    requires rest != [] && GreedilyPacked(baseLen, rest)
    requires TooLong(baseLen, batch + [rest[0][0]])
    ensures GreedilyPacked(baseLen, [batch] + rest)
  {
  }

  /** A final batch that fits without its last name is greedily packed. */
  lemma GreedyLast(baseLen: nat, names: seq<string>, from: nat)
    requires from < |names| && Fits(baseLen, names[from..|names| - 1])
    ensures GreedilyPacked(baseLen, [names[from..]])
  {
    assert names[from..][..|names[from..]| - 1] == names[from..|names| - 1];
  }

  lemma {:induction false} PackFromIsGreedy(baseLen: nat, names: seq<string>, from: nat, to: nat)
    requires from < to <= |names|
    requires Fits(baseLen, names[from..to - 1])
    ensures var batches := PackFrom(baseLen, names, from, to);
            && batches != []
            && GreedilyPacked(baseLen, batches)
            && batches[0] != [] && batches[0][0] == names[from]
    decreases |names| - to + |names| - from
  {
    hide TooLong, GreedilyPacked;
    if to == |names| {
      GreedyLast(baseLen, names, from);
    } else if from < to - 1 && TooLong(baseLen, names[from..to]) {
      var batch, rest := names[from..to - 1], PackFrom(baseLen, names, to - 1, to);
      PackFromCut(baseLen, names, from, to);
      PackFromIsGreedy(baseLen, names, to - 1, to);
      assert names[from..to] == batch + [rest[0][0]];
      GreedyCons(baseLen, batch, rest);
    } else {
      PackFromIsGreedy(baseLen, names, from, to + 1);
    }
  }

  lemma PackIsGreedy(baseLen: nat, names: seq<string>)
    ensures GreedilyPacked(baseLen, Pack(baseLen, names))
  {
    if names != [] {
      PackFromIsGreedy(baseLen, names, 0, 1);
    }
  }

  /**
   * The last name is appended without a check: a list is sent in one line, whatever its length,
   * exactly when everything but its last name fits in one line.
   */
  lemma OneLineExactly(baseLen: nat, names: seq<string>)
    requires names != []
    ensures |Pack(baseLen, names)| == 1 <==>
            forall n :: 2 <= n < |names| ==> !TooLong(baseLen, names[..n])
  {
    OneLineFrom(baseLen, names, 1);
  }

  lemma {:induction false} OneLineFrom(baseLen: nat, names: seq<string>, to: nat)
    requires 0 < to <= |names|
    ensures |PackFrom(baseLen, names, 0, to)| == 1 <==>
            forall n :: 2 <= n < |names| && to <= n ==> !TooLong(baseLen, names[..n])
    decreases |names| - to
  {
    if to < |names| {
      assert names[0..to] == names[..to];
      if 0 < to - 1 && TooLong(baseLen, names[0..to]) {
        PackFromNonEmpty(baseLen, names, to - 1, to);
      } else {
        OneLineFrom(baseLen, names, to + 1);
      }
    }
  }

  lemma {:induction false} PackFromNonEmpty(baseLen: nat, names: seq<string>, from: nat, to: nat)
    requires from < to <= |names|
    ensures PackFrom(baseLen, names, from, to) != []
    decreases |names| - to
  {
    if to < |names| && !(from < to - 1 && TooLong(baseLen, names[from..to])) {
      PackFromNonEmpty(baseLen, names, from, to + 1);
    }
  }

  /** So a line may exceed the limit: two names whose sum does not fit are still sent together. */
  lemma TwoNamesAreNeverSplit(baseLen: nat, first: string, second: string)
    ensures Pack(baseLen, [first, second]) == [[first, second]]
  {
    assert Pack(baseLen, [first, second]) == PackFrom(baseLen, [first, second], 0, 2);
  }

  predicate AllFit(baseLen: nat, batches: seq<seq<string>>) {
    forall i :: 0 <= i < |batches| ==> Fits(baseLen, batches[i])
  }

  lemma AllFitCons(baseLen: nat, batch: seq<string>, rest: seq<seq<string>>)
    ensures AllFit(baseLen, [batch] + rest) <==> Fits(baseLen, batch) && AllFit(baseLen, rest)
  {
    var all := [batch] + rest;
    assert forall i :: 0 <= i < |rest| ==> rest[i] == all[i + 1];
    assert all[0] == batch;
  }

  /** The two ends of the scan: where the code stops, and where it would go on if a name followed. */
  lemma OneNameMore(baseLen: nat, names: seq<string>, from: nat, extra: string)
    requires from < |names|
    ensures |PackFrom(baseLen, names + [extra], from, |names|)| == if Fits(baseLen, names[from..]) then 1 else 2
  {
    var more, to := names + [extra], |names|;
    assert more[from..to] == names[from..];
    if Fits(baseLen, names[from..]) {
      assert PackFrom(baseLen, more, from, to) == PackFrom(baseLen, more, from, to + 1);
    } else {
      PackFromCut(baseLen, more, from, to);
      assert PackFrom(baseLen, more, to - 1, to) == PackFrom(baseLen, more, to - 1, to + 1);
    }
  }

  lemma {:induction false} AllFitFrom(baseLen: nat, names: seq<string>, from: nat, to: nat, extra: string)
    requires from < to <= |names| && Fits(baseLen, names[from..to - 1])
    ensures AllFit(baseLen, PackFrom(baseLen, names, from, to))
       <==> |PackFrom(baseLen, names + [extra], from, to)| == |PackFrom(baseLen, names, from, to)|
    decreases |names| - to + |names| - from
  {
    hide TooLong, AllFit;
    var more := names + [extra];
    if to == |names| {
      OneNameMore(baseLen, names, from, extra);
      AllFitCons(baseLen, names[from..], []);
      NothingFits(baseLen);
      assert [names[from..]] + [] == [names[from..]];
    } else {
      assert more[from..to] == names[from..to];
      if from < to - 1 && TooLong(baseLen, names[from..to]) {
        PackFromCut(baseLen, names, from, to);
        PackFromCut(baseLen, more, from, to);
        AllFitFrom(baseLen, names, to - 1, to, extra);
        AllFitCons(baseLen, names[from..to - 1], PackFrom(baseLen, names, to - 1, to));
      } else {
        AllFitFrom(baseLen, names, from, to + 1, extra);
      }
    }
  }

  lemma NothingFits(baseLen: nat)
    ensures AllFit(baseLen, [])
  {
  }

  /** Where the last line starts, from the names alone. */
  function LastStart(baseLen: nat, names: seq<string>): (start: nat)
    requires names != []
    ensures start < |names|
  {
    var n := |names| - 1;
    if n == 0 then 0
    else
      var start := LastStart(baseLen, names[..n]);
      if n - start > 1 && TooLong(baseLen, names[start..n]) then n - 1 else start
  }

  lemma LastStartNext(baseLen: nat, names: seq<string>, to: nat)
    requires 0 < to < |names|
    ensures var start := LastStart(baseLen, names[..to]);
            LastStart(baseLen, names[..to + 1]) == if to - start > 1 && TooLong(baseLen, names[start..to]) then to - 1 else start
  {
    hide TooLong;
    assert names[..to + 1][..to] == names[..to];
    assert forall start: nat :: start < to ==> names[..to + 1][start..to] == names[start..to];
  }

  lemma PackFromGoesOn(baseLen: nat, names: seq<string>, from: nat, to: nat)
    requires from < to < |names| && !(from < to - 1 && TooLong(baseLen, names[from..to]))
    ensures PackFrom(baseLen, names, from, to) == PackFrom(baseLen, names, from, to + 1)
  {
    hide TooLong;
  }

  lemma {:induction false} LastStartIs(baseLen: nat, names: seq<string>, from: nat, to: nat)
    requires from < to <= |names| && from == LastStart(baseLen, names[..to])
    ensures var batches := PackFrom(baseLen, names, from, to);
            batches != [] && batches[|batches| - 1] == names[LastStart(baseLen, names)..]
    decreases |names| - to + |names| - from
  {
    if to == |names| {
      assert names[..to] == names;
    } else {
      hide TooLong, LastStart, PackFrom;
      LastStartNext(baseLen, names, to);
      if from < to - 1 && TooLong(baseLen, names[from..to]) {
        LastStartIs(baseLen, names, to - 1, to + 1);
        PackFromCut(baseLen, names, from, to);
        PackFromGoesOn(baseLen, names, to - 1, to);
      } else {
        LastStartIs(baseLen, names, from, to + 1);
        PackFromGoesOn(baseLen, names, from, to);
      }
    }
  }

  /**
   * All lines of several names keep to the limit exactly if one name more, whichever it is, would still go on the
   * last line: the test that the code makes before every name is not made after the last.
   */
  lemma AllFitExactly(baseLen: nat, names: seq<string>, extra: string)
    requires names != []
    ensures AllFit(baseLen, Pack(baseLen, names)) <==> |Pack(baseLen, names + [extra])| == |Pack(baseLen, names)|
  {
    AllFitFrom(baseLen, names, 0, 1, extra);
  }

  lemma LastOfPack(baseLen: nat, names: seq<string>)
    requires names != []
    ensures Pack(baseLen, names) != []
    ensures Pack(baseLen, names)[|Pack(baseLen, names)| - 1] == names[LastStart(baseLen, names)..]
  {
    hide TooLong, PackFrom;
    assert |names[..1]| == 1;
    LastStartIs(baseLen, names, 0, 1);
  }

  lemma GreedyAllFit(baseLen: nat, batches: seq<seq<string>>)
    requires GreedilyPacked(baseLen, batches) && batches != []
    ensures AllFit(baseLen, batches) <==> Fits(baseLen, batches[|batches| - 1])
  {
    hide TooLong, Fits;
  }

  /** Told from the names: they do exactly if what is left for the last line does. */
  lemma LastLineDecides(baseLen: nat, names: seq<string>)
    requires names != []
    ensures AllFit(baseLen, Pack(baseLen, names)) <==> Fits(baseLen, names[LastStart(baseLen, names)..])
  {
    hide TooLong, Pack, GreedilyPacked, AllFit, Fits, LastStart;
    PackIsGreedy(baseLen, names);
    LastOfPack(baseLen, names);
    GreedyAllFit(baseLen, Pack(baseLen, names));
  }

  lemma {:induction false} BytesAppend(a: string, b: string)
    ensures Bytes(a + b) == Bytes(a) + Bytes(b)
  {
    if a == "" {
      assert a + b == b;
    } else {
      assert (a + b)[1..] == a[1..] + b;
      BytesAppend(a[1..], b);
    }
  }

  lemma {:induction false} JoinedFrom(names: seq<string>)
    requires names != []
    ensures Bytes(Join(names, " ")) == |names| - 1 + TotalBytes(names)
    decreases |names|
  {
    hide Bytes;
    if |names| == 1 {
      assert names[..0] == [] && TotalBytes([]) == 0;
    } else {
      JoinedFrom(names[1..]);
      TotalFirst(names);
      BytesAppend(names[0] + " ", Join(names[1..], " "));
      BytesAppend(names[0], " ");
      OneByte();
    }
  }

  lemma OneByte()
    ensures Bytes(" ") == 1
  {
    assert " "[1..] == "";
  }

  lemma {:induction false} TotalFirst(names: seq<string>)
    requires names != []
    ensures TotalBytes(names) == Bytes(names[0]) + TotalBytes(names[1..])
    decreases |names|
  {
    hide Bytes;
    var n := |names| - 1;
    if n > 0 {
      TotalFirst(names[..n]);
      assert names[..n][1..] == names[1..][..n - 1] && names[..n][0] == names[0];
    } else {
      assert names[..0] == [] && names[1..] == [];
    }
  }

  /** The estimated length is that of the names as they are sent. */
  lemma JoinedLenIs(names: seq<string>)
    requires names != []
    ensures JoinedLen(names) == Bytes(Join(names, " "))
  {
    hide Bytes, Join;
    JoinedFrom(names);
  }

  /** A line of several names keeps to the limit exactly up to 510 bytes. */
  lemma FitsExactly(baseLen: nat, batch: seq<string>)
    ensures Fits(baseLen, batch) <==> |batch| <= 1 || baseLen + Bytes(Join(batch, " ")) <= 510
  {
    hide Bytes, Join, JoinedLen;
    if batch != [] {
      JoinedLenIs(batch);
    }
  }
}
