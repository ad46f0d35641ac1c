/** Channel mode changes as they are written and read. */
module ModeText {
  import opened Names
  import opened Modes
  import opened Strings

  predicate TakesArg(mode: ChannelMode) {
    mode in {KEY, BAN_MASK, EXCEPT_MASK, INVITE_MASK, USER_LIMIT, CHANNEL_OPERATOR, CHANNEL_CREATOR, VOICE}
  }

  // --------------------------------------------------------------------- reading

  /** The changes a group of letters asks for, the letters that take one getting the parameters in turn. */
  function Assign(op: ModeOp, letters: string, params: seq<string>): (changes: seq<ChannelModeChange>)
    ensures |changes| == |letters|
  {
    if letters == "" then []
    else if TakesArg(letters[0]) && params != [] then
      [ChannelModeChange(letters[0], op, params[0])] + Assign(op, letters[1..], params[1..])
    else [ChannelModeChange(letters[0], op, "")] + Assign(op, letters[1..], params)
  }

  /** How many of the parameters the letters take. */
  function Taken(letters: string, params: seq<string>): (n: nat)
    ensures n <= |params|
  {
    if letters == "" then 0
    else if TakesArg(letters[0]) && params != [] then 1 + Taken(letters[1..], params[1..])
    else Taken(letters[1..], params)
  }

  function GroupOp(group: string): ModeOp
    requires group != ""
  {
    if group[0] == ADD || group[0] == REMOVE then group[0] else LIST
  }

  function GroupLetters(group: string): string
    requires group != ""
  {
    if group[0] == ADD || group[0] == REMOVE then group[1..] else group
  }

  /** The changes asked for by the arguments of a MODE command. */
  function Changes(args: seq<string>): seq<ChannelModeChange>
    decreases |args|
  {
    if args == [] then []
    else if args[0] == "" then Changes(args[1..])
    else
      var letters := GroupLetters(args[0]);
      Assign(GroupOp(args[0]), letters, args[1..]) + Changes(args[1..][Taken(letters, args[1..])..])
  }

  method ParseChannelModeChanges(tokens: seq<string>) returns (changes: seq<ChannelModeChange>)
    ensures changes == Changes(tokens)
  {
    hide Assign, Taken, Changes;
    var args := tokens;
    changes := [];
    while args != []
      invariant changes + Changes(args) == Changes(tokens)
      decreases |args|
    {
      ChangesStep(args);
      if args[0] == "" {
        args := args[1..];
        continue;
      }
      var group, skipArgs := ParseGroup(args);
      assert args[1..][skipArgs - 1..] == args[skipArgs..];
      changes := changes + group;
      args := args[skipArgs..];
    }
    ChangesOfNothing();
  }

  /** The changes of one group, and how many tokens they took. */
  method ParseGroup(args: seq<string>) returns (changes: seq<ChannelModeChange>, skipArgs: nat)
    requires args != [] && args[0] != ""
    ensures changes == Assign(GroupOp(args[0]), GroupLetters(args[0]), args[1..])
    ensures skipArgs == 1 + Taken(GroupLetters(args[0]), args[1..])
  {
    hide Assign, Taken, TakesArg;
    var modeArg := args[0];
    var op := modeArg[0];
    if op == ADD || op == REMOVE {
      modeArg := modeArg[1..];
    } else {
      op := LIST;
    }
    changes := [];
    skipArgs := 1;
    for i := 0 to |modeArg|
      invariant 1 <= skipArgs <= |args|
      invariant changes + Assign(op, modeArg[i..], args[skipArgs..]) == Assign(op, modeArg, args[1..])
      invariant skipArgs + Taken(modeArg[i..], args[skipArgs..]) == 1 + Taken(modeArg, args[1..])
    {
      GroupStep(op, modeArg, args, i, skipArgs);
      var arg := "";
      if TakesArg(modeArg[i]) && |args| > skipArgs {
        arg := args[skipArgs];
        skipArgs := skipArgs + 1;
      }
      changes := changes + [ChannelModeChange(modeArg[i], op, arg)];
    }
    AssignNothing(op, args[skipArgs..]);
  }

  lemma AssignNothing(op: ModeOp, params: seq<string>)
    ensures Assign(op, "", params) == [] && Taken("", params) == 0
  {
  }

  lemma AssignStep(op: ModeOp, letters: string, params: seq<string>)
    requires letters != ""
    ensures var takes := TakesArg(letters[0]) && params != [];
            var rest := if takes then params[1..] else params;
            && Assign(op, letters, params)
               == [ChannelModeChange(letters[0], op, if takes then params[0] else "")] + Assign(op, letters[1..], rest)
            && Taken(letters, params) == (if takes then 1 else 0) + Taken(letters[1..], rest)
  {
  }

  /** One letter of a group, `skip` tokens having been used. */
  lemma GroupStep(op: ModeOp, letters: string, args: seq<string>, i: nat, skip: nat)
    requires i < |letters| && skip <= |args|
    ensures var takes := TakesArg(letters[i]) && |args| > skip;
            var skip' := if takes then skip + 1 else skip;
            && Assign(op, letters[i..], args[skip..])
               == [ChannelModeChange(letters[i], op, if takes then args[skip] else "")]
                + Assign(op, letters[i + 1..], args[skip'..])
            && skip + Taken(letters[i..], args[skip..]) == skip' + Taken(letters[i + 1..], args[skip'..])
  {
    hide Assign, Taken, TakesArg;
    AssignStep(op, letters[i..], args[skip..]);
    assert letters[i..][1..] == letters[i + 1..];
    assert |args| > skip ==> args[skip..][1..] == args[skip + 1..];
  }

  lemma ChangesOfNothing()
    ensures Changes([]) == []
  {
  }

  lemma ChangesStep(args: seq<string>)
    requires args != []
    ensures Changes(args) ==
            if args[0] == "" then Changes(args[1..])
            else
              var letters := GroupLetters(args[0]);
              Assign(GroupOp(args[0]), letters, args[1..]) + Changes(args[1..][Taken(letters, args[1..])..])
  {
  }

  // ------------------------------------------------------------- what tokens are used for

  datatype Use = Skipped | Group | Parameter

  function Parameters(n: nat): (uses: seq<Use>)
    ensures |uses| == n
    ensures forall i :: 0 <= i < n ==> uses[i] == Parameter
  {
    seq(n, _ => Parameter)
  }

  function Uses(args: seq<string>): (uses: seq<Use>)
    ensures |uses| == |args|
    decreases |args|
  {
    if args == [] then []
    else if args[0] == "" then [Skipped] + Uses(args[1..])
    else
      var n := Taken(GroupLetters(args[0]), args[1..]);
      [Group] + Parameters(n) + Uses(args[1..][n..])
  }

  /** The tokens put to that use, in order. */
  function Used(args: seq<string>, uses: seq<Use>, use: Use): seq<string>
    requires |args| == |uses|
  {
    if args == [] then []
    else (if uses[0] == use then [args[0]] else []) + Used(args[1..], uses[1..], use)
  }

  function Letters(changes: seq<ChannelModeChange>): (letters: string)
    ensures |letters| == |changes|
  {
    if changes == [] then "" else [changes[0].mode] + Letters(changes[1..])
  }

  /** The letters of all the groups. */
  function AllLetters(groups: seq<string>): string {
    if groups == [] then ""
    else (if groups[0] == "" then "" else GroupLetters(groups[0])) + AllLetters(groups[1..])
  }

  function Args(changes: seq<ChannelModeChange>): seq<string> {
    if changes == [] then []
    else (if changes[0].arg == "" then [] else [changes[0].arg]) + Args(changes[1..])
  }

  function NonEmpty(tokens: seq<string>): seq<string> {
    if tokens == [] then [] else (if tokens[0] == "" then [] else [tokens[0]]) + NonEmpty(tokens[1..])
  }

  lemma {:induction false} UsedAppend(a: seq<string>, u: seq<Use>, b: seq<string>, v: seq<Use>, use: Use)
    requires |a| == |u| && |b| == |v|
    ensures Used(a + b, u + v, use) == Used(a, u, use) + Used(b, v, use)
  {
    if a == [] {
      assert a + b == b && u + v == v;
    } else {
      assert (a + b)[1..] == a[1..] + b && (u + v)[1..] == u[1..] + v;
      UsedAppend(a[1..], u[1..], b, v, use);
    }
  }

  lemma {:induction false} UsedAlike(a: seq<string>, u: seq<Use>, use: Use, other: Use)
    requires |a| == |u| && forall i :: 0 <= i < |u| ==> u[i] == use
    ensures Used(a, u, other) == if use == other then a else []
  {
    if a != [] {
      UsedAlike(a[1..], u[1..], use, other);
    }
  }

  lemma {:induction false} LettersAppend(a: seq<ChannelModeChange>, b: seq<ChannelModeChange>)
    ensures Letters(a + b) == Letters(a) + Letters(b)
  {
    hide Args;
    if a == [] {
      assert a + b == b;
    } else {
      assert (a + b)[1..] == a[1..] + b;
      LettersAppend(a[1..], b);
    }
  }

  lemma {:induction false} ArgsAppend(a: seq<ChannelModeChange>, b: seq<ChannelModeChange>)
    ensures Args(a + b) == Args(a) + Args(b)
  {
    hide Letters;
    if a == [] {
      assert a + b == b;
    } else {
      assert (a + b)[1..] == a[1..] + b;
      ArgsAppend(a[1..], b);
    }
  }

  lemma {:induction false} NonEmptyAppend(a: seq<string>, b: seq<string>)
    ensures NonEmpty(a + b) == NonEmpty(a) + NonEmpty(b)
  {
    if a == [] {
      assert a + b == b;
    } else {
      assert (a + b)[1..] == a[1..] + b;
      NonEmptyAppend(a[1..], b);
    }
  }

  lemma {:induction false} AssignedLetters(op: ModeOp, letters: string, params: seq<string>)
    ensures Letters(Assign(op, letters, params)) == letters
    decreases |letters|
  {
    hide Assign, Taken;
    if letters == "" {
      AssignNothing(op, params);
    } else {
      var rest := if TakesArg(letters[0]) && params != [] then params[1..] else params;
      AssignStep(op, letters, params);
      AssignedLetters(op, letters[1..], rest);
      assert Assign(op, letters, params)[1..] == Assign(op, letters[1..], rest);
    }
  }

  lemma {:induction false} AssignedArgs(op: ModeOp, letters: string, params: seq<string>)
    ensures Args(Assign(op, letters, params)) == NonEmpty(params[..Taken(letters, params)])
    decreases |letters|
  {
    hide Assign, Taken;
    if letters == "" {
      AssignNothing(op, params);
    } else {
      var takes := TakesArg(letters[0]) && params != [];
      var rest := if takes then params[1..] else params;
      AssignStep(op, letters, params);
      AssignedArgs(op, letters[1..], rest);
      assert Assign(op, letters, params)[1..] == Assign(op, letters[1..], rest);
      if takes {
        assert params[..Taken(letters, params)] == [params[0]] + rest[..Taken(letters[1..], rest)];
      }
    }
  }

  lemma UsesStep(args: seq<string>)
    requires args != [] && args[0] != ""
    ensures var n := Taken(GroupLetters(args[0]), args[1..]);
            Uses(args) == [Group] + Parameters(n) + Uses(args[1..][n..])
  {
  }

  lemma UsedParts(group: string, params: seq<string>, rest: seq<string>, uses: seq<Use>, use: Use)
    requires |rest| == |uses|
    ensures Used([group] + params + rest, [Group] + Parameters(|params|) + uses, use)
         == (match use case Skipped => [] case Group => [group] case Parameter => params) + Used(rest, uses, use)
  {
    hide Used, Parameters;
    var parameters := Parameters(|params|);
    UsedAppend([group] + params, [Group] + parameters, rest, uses, use);
    UsedAppend([group], [Group], params, parameters, use);
    UsedAlike(params, parameters, Parameter, use);
    UsedAlike([group], [Group], Group, use);
  }

  /** What the tokens of one group are used for. */
  lemma GroupUses(args: seq<string>, use: Use)
    requires args != [] && args[0] != ""
    ensures var n := Taken(GroupLetters(args[0]), args[1..]);
            Used(args, Uses(args), use)
            == (match use case Skipped => [] case Group => [args[0]] case Parameter => args[1..][..n])
             + Used(args[1..][n..], Uses(args[1..][n..]), use)
  {
    hide Taken, Used, Uses, GroupLetters;
    var n := Taken(GroupLetters(args[0]), args[1..]);
    var params, rest := args[1..][..n], args[1..][n..];
    UsesStep(args);
    UsedParts(args[0], params, rest, Uses(rest), use);
    assert args == [args[0]] + params + rest;
  }

  /**
   * Every token is used for exactly one thing, and nothing is lost or changes its order: the letters of the
   * groups are the modes of the changes, the parameters are their arguments, and the rest is empty.
   */
  lemma {:induction false} TokensAreUsed(args: seq<string>)
    ensures UsedRightly(args)
    decreases |args|
  {
    hide Assign, Taken, Used, Uses, Changes, UsedRightly;
    if args == [] {
      UsedNothing();
    } else if args[0] == "" {
      TokensAreUsed(args[1..]);
      SkippedUse(args);
    } else {
      TokensAreUsed(args[1..][Taken(GroupLetters(args[0]), args[1..])..]);
      GroupUsedRightly(args);
    }
  }

  ghost predicate UsedRightly(args: seq<string>) {
    && Letters(Changes(args)) == AllLetters(Used(args, Uses(args), Group))
    && Args(Changes(args)) == NonEmpty(Used(args, Uses(args), Parameter))
    && NonEmpty(Used(args, Uses(args), Skipped)) == []
  }

  lemma AllLettersStep(group: string, groups: seq<string>)
    requires group != ""
    ensures AllLetters([group] + groups) == GroupLetters(group) + AllLetters(groups)
  {
  }

  lemma GroupUsedRightly(args: seq<string>)
    requires args != [] && args[0] != ""
    requires UsedRightly(args[1..][Taken(GroupLetters(args[0]), args[1..])..])
    ensures UsedRightly(args)
  {
    hide Assign, Taken, Used, Uses, Changes, Letters, Args, AllLetters, NonEmpty, GroupLetters;
    var letters := GroupLetters(args[0]);
    var n := Taken(letters, args[1..]);
    var rest := args[1..][n..];
    var group := Assign(GroupOp(args[0]), letters, args[1..]);
    ChangesStep(args);
    AssignedLetters(GroupOp(args[0]), letters, args[1..]);
    AssignedArgs(GroupOp(args[0]), letters, args[1..]);
    LettersAppend(group, Changes(rest));
    ArgsAppend(group, Changes(rest));
    GroupUses(args, Group);
    GroupUses(args, Parameter);
    GroupUses(args, Skipped);
    AllLettersStep(args[0], Used(rest, Uses(rest), Group));
    NonEmptyAppend(args[1..][..n], Used(rest, Uses(rest), Parameter));
    assert [] + Used(rest, Uses(rest), Skipped) == Used(rest, Uses(rest), Skipped);
  }

  lemma UsedNothing()
    ensures UsedRightly([])
  {
  }

  lemma SkippedUse(args: seq<string>)
    requires args != [] && args[0] == "" && UsedRightly(args[1..])
    ensures UsedRightly(args)
  {
    hide GroupLetters, Assign, Taken;
    var rest := args[1..];
    assert Uses(args)[1..] == Uses(rest);
    assert Used(args, Uses(args), Skipped) == [""] + Used(rest, Uses(rest), Skipped);
    assert ([""] + Used(rest, Uses(rest), Skipped))[1..] == Used(rest, Uses(rest), Skipped);
    assert Used(args, Uses(args), Group) == Used(rest, Uses(rest), Group);
    assert Used(args, Uses(args), Parameter) == Used(rest, Uses(rest), Parameter);
  }

  // --------------------------------------------------------------------- writing

  /** The arguments as they are written after the letters. */
  function SpacedArgs(changes: seq<ChannelModeChange>): string {
    if changes == [] then ""
    else (if changes[0].arg == "" then "" else " " + changes[0].arg) + SpacedArgs(changes[1..])
  }

  /** `ChannelModeChanges.String`: only the first sign is written. */
  function Printed(changes: seq<ChannelModeChange>): string {
    if changes == [] then ""
    else (if changes[0].op == REMOVE then "-" else "+") + Letters(changes) + SpacedArgs(changes)
  }

  method ChannelModeChangesString(changes: seq<ChannelModeChange>) returns (str: string)
    ensures str == Printed(changes)
  {
    hide Letters, SpacedArgs;
    str := "";
    if changes == [] {
      return;
    }
    str := "+";
    if changes[0].op == REMOVE {
      str := "-";
    }
    ghost var sign := str;
    for i := 0 to |changes|
      invariant str + Letters(changes[i..]) == sign + Letters(changes)
    {
      WritingStep(changes, i);
      str := str + [changes[i].mode];
    }
    WritingEnds(changes);
    for i := 0 to |changes|
      invariant str + SpacedArgs(changes[i..]) == sign + Letters(changes) + SpacedArgs(changes)
    {
      WritingStep(changes, i);
      if changes[i].arg == "" {
        continue;
      }
      str := str + " " + changes[i].arg;
    }
  }

  lemma WritingStep(changes: seq<ChannelModeChange>, i: nat)
    requires i < |changes|
    ensures Letters(changes[i..]) == [changes[i].mode] + Letters(changes[i + 1..])
    ensures SpacedArgs(changes[i..]) == (if changes[i].arg == "" then "" else " " + changes[i].arg) + SpacedArgs(changes[i + 1..])
  {
  }

  lemma WritingEnds(changes: seq<ChannelModeChange>)
    ensures Letters(changes[|changes|..]) == "" && SpacedArgs(changes[|changes|..]) == ""
    ensures changes[0..] == changes
  {
  }

  // ------------------------------------------------------------------- round trip

  /**
   * All changes have the sign that is written, an argument only where one is read, and of the modes that
   * read one, those without an argument come last.
   */
  predicate Printable(changes: seq<ChannelModeChange>, op: ModeOp) {
    changes == []
    || (&& changes[0].op == op
        && (changes[0].arg != "" ==> TakesArg(changes[0].mode))
        && (changes[0].arg == "" && TakesArg(changes[0].mode) ==> Args(changes) == [])
        && Printable(changes[1..], op))
  }

  predicate NoSpaces(changes: seq<ChannelModeChange>) {
    forall i :: 0 <= i < |changes| ==> changes[i].mode != ' ' && ' ' !in changes[i].arg
  }

  predicate NoSpacesIn(tokens: seq<string>) {
    forall i :: 0 <= i < |tokens| ==> ' ' !in tokens[i]
  }

  /** The condition under which changes are read back as they were written. */
  predicate Readable(changes: seq<ChannelModeChange>) {
    NoSpaces(changes) && Printable(changes, if changes != [] && changes[0].op == REMOVE then REMOVE else ADD)
  }

  lemma NoSpace(s: string)
    requires ' ' !in s
    ensures Split(s, ' ') == [s]
  {
  }

  lemma SplitFirst(a: string, b: string)
    requires ' ' !in a
    ensures Split(a + " " + b, ' ') == [a] + Split(b, ' ')
  {
    hide IndexOf;
    FirstAt(a, ' ', b);
    assert (a + " " + b)[..|a|] == a && (a + " " + b)[|a| + 1..] == b;
  }

  /** The tokens of what is written: a text without spaces, and then the arguments. */
  lemma {:induction false} SplitArgs(first: string, changes: seq<ChannelModeChange>)
    requires ' ' !in first && NoSpaces(changes)
    ensures Split(first + SpacedArgs(changes), ' ') == [first] + Args(changes)
    decreases |changes|
  {
    hide Split, SpacedArgs, Args;
    ArgsSteps(changes);
    if changes == [] {
      NoSpace(first);
      assert first + "" == first;
    } else {
      var arg := changes[0].arg;
      assert NoSpaces(changes[1..]);
      if arg == "" {
        SplitArgs(first, changes[1..]);
      } else {
        SplitArgs(arg, changes[1..]);
        SplitFirst(first, arg + SpacedArgs(changes[1..]));
        assert first + SpacedArgs(changes) == first + " " + (arg + SpacedArgs(changes[1..]));
      }
    }
  }

  lemma ArgsSteps(changes: seq<ChannelModeChange>)
    ensures changes == [] ==> SpacedArgs(changes) == "" && Args(changes) == []
    ensures changes != [] && changes[0].arg == "" ==>
              SpacedArgs(changes) == SpacedArgs(changes[1..]) && Args(changes) == Args(changes[1..])
    ensures changes != [] && changes[0].arg != "" ==>
              && SpacedArgs(changes) == " " + changes[0].arg + SpacedArgs(changes[1..])
              && Args(changes) == [changes[0].arg] + Args(changes[1..])
  {
  }

  lemma {:induction false} LettersNoSpace(changes: seq<ChannelModeChange>)
    requires NoSpaces(changes)
    ensures ' ' !in Letters(changes)
  {
    if changes != [] {
      assert NoSpaces(changes[1..]);
      LettersNoSpace(changes[1..]);
    }
  }

  /** Reading printable letters and arguments gives the changes. */
  lemma {:induction false} AssignPrintable(op: ModeOp, changes: seq<ChannelModeChange>)
    requires Printable(changes, op)
    ensures Assign(op, Letters(changes), Args(changes)) == changes
    ensures Taken(Letters(changes), Args(changes)) == |Args(changes)|
  {
    hide Assign, Taken, Args;
    ArgsSteps(changes);
    if changes == [] {
      AssignNothing(op, []);
    } else {
      var rest := changes[1..];
      AssignPrintable(op, rest);
      AssignStep(op, Letters(changes), Args(changes));
      assert Letters(changes)[1..] == Letters(rest) && changes == [changes[0]] + rest;
      assert changes[0].arg != "" ==> Args(changes)[1..] == Args(rest);
    }
  }

  /** Only printable changes can be read from letters and non-empty arguments. */
  lemma {:induction false} AssignedArePrintable(op: ModeOp, letters: string, params: seq<string>)
    requires forall i :: 0 <= i < |params| ==> params[i] != ""
    ensures Printable(Assign(op, letters, params), op)
    ensures params == [] ==> Args(Assign(op, letters, params)) == []
    decreases |letters|
  {
    if letters != "" {
      var rest := if TakesArg(letters[0]) && params != [] then params[1..] else params;
      AssignedArePrintable(op, letters[1..], rest);
      assert Assign(op, letters, params)[1..] == Assign(op, letters[1..], rest);
    }
  }

  lemma {:induction false} ArgsNonEmpty(changes: seq<ChannelModeChange>)
    ensures forall i :: 0 <= i < |Args(changes)| ==> Args(changes)[i] != ""
  {
    if changes != [] {
      ArgsNonEmpty(changes[1..]);
    }
  }

  lemma {:induction false} AssignedNoSpaces(op: ModeOp, letters: string, params: seq<string>)
    requires ' ' !in letters && NoSpacesIn(params)
    ensures NoSpaces(Assign(op, letters, params))
    decreases |letters|
  {
    if letters != "" {
      var rest := if TakesArg(letters[0]) && params != [] then params[1..] else params;
      assert NoSpacesIn(rest);
      AssignedNoSpaces(op, letters[1..], rest);
    }
  }

  lemma {:induction false} ReadNoSpaces(args: seq<string>)
    requires NoSpacesIn(args)
    ensures NoSpaces(Changes(args))
    decreases |args|
  {
    hide Assign, Taken;
    if args != [] {
      assert NoSpacesIn(args[1..]);
      if args[0] == "" {
        ReadNoSpaces(args[1..]);
      } else {
        var letters := GroupLetters(args[0]);
        var rest := args[1..][Taken(letters, args[1..])..];
        AssignedNoSpaces(GroupOp(args[0]), letters, args[1..]);
        ReadNoSpaces(rest);
      }
    }
  }

  lemma {:induction false} SplitNoSpaces(s: string)
    ensures NoSpacesIn(Split(s, ' '))
    decreases |s|
  {
    hide IndexOf;
    var i := IndexOf(s, ' ');
    if i == |s| {
      assert s[..i] == s;
    } else {
      SplitNoSpaces(s[i + 1..]);
    }
  }

  /** What is read from what was written, if there are no spaces in it. */
  lemma ReadPrinted(changes: seq<ChannelModeChange>)
    requires changes != [] && NoSpaces(changes)
    ensures var op := if changes[0].op == REMOVE then REMOVE else ADD;
            var letters, params := Letters(changes), Args(changes);
            Changes(Split(Printed(changes), ' ')) == Assign(op, letters, params) + Changes(params[Taken(letters, params)..])
  {
    hide Split, Assign, Taken, Letters, Args, SpacedArgs, Changes;
    var sign := if changes[0].op == REMOVE then "-" else "+";
    LettersNoSpace(changes);
    SplitArgs(sign + Letters(changes), changes);
    var tokens := Split(Printed(changes), ' ');
    ChangesStep(tokens);
    assert tokens[1..] == Args(changes);
    assert tokens[0][1..] == Letters(changes);
  }

  /** Written changes are read back as they were exactly if they are readable. */
  lemma PrintParse(changes: seq<ChannelModeChange>)
    ensures Changes(Split(Printed(changes), ' ')) == changes <==> Readable(changes)
  {
    hide Split, Assign, Taken, Changes, Printable;
    if changes == [] {
      NothingPrinted();
    } else {
      if Changes(Split(Printed(changes), ' ')) == changes {
        SplitNoSpaces(Printed(changes));
        ReadNoSpaces(Split(Printed(changes), ' '));
      }
      if NoSpaces(changes) {
        PrintParseNoSpaces(changes);
      }
    }
  }

  lemma NothingPrinted()
    ensures Changes(Split(Printed([]), ' ')) == [] && Readable([])
  {
  }

  lemma PrintParseNoSpaces(changes: seq<ChannelModeChange>)
    requires changes != [] && NoSpaces(changes)
    ensures Changes(Split(Printed(changes), ' ')) == changes
       <==> Printable(changes, if changes[0].op == REMOVE then REMOVE else ADD)
  {
    hide Split, Printed, Assign, Taken, Changes, Printable, Args;
    var op := if changes[0].op == REMOVE then REMOVE else ADD;
    ReadPrinted(changes);
    ArgsNonEmpty(changes);
    var group := Assign(op, Letters(changes), Args(changes));
    var rest := Args(changes)[Taken(Letters(changes), Args(changes))..];
    AssignedArePrintable(op, Letters(changes), Args(changes));
    assert (group + Changes(rest))[..|group|] == group;
    assert |group| == |changes| && changes[..|group|] == changes;
    if Printable(changes, op) {
      AssignPrintable(op, changes);
      assert rest == [];
      ChangesOfNothing();
      assert group + [] == group;
    }
  }

  /** In particular, changes of one sign with an argument exactly where one is read. */
  lemma {:induction false} ExactArgsArePrintable(changes: seq<ChannelModeChange>, op: ModeOp)
    requires forall i :: 0 <= i < |changes| ==>
               changes[i].op == op && (changes[i].arg != "" <==> TakesArg(changes[i].mode))
    ensures Printable(changes, op)
  {
    if changes != [] {
      ExactArgsArePrintable(changes[1..], op);
    }
  }

  /** Changes that are not read back: the second sign is lost. */
  lemma SignIsLost()
    ensures var changes := [ChannelModeChange(MODERATED, ADD, ""), ChannelModeChange(PRIVATE, REMOVE, "")];
            !Readable(changes) && Changes(Split(Printed(changes), ' ')) != changes
  {
    var changes := [ChannelModeChange(MODERATED, ADD, ""), ChannelModeChange(PRIVATE, REMOVE, "")];
    assert changes[1..] == [ChannelModeChange(PRIVATE, REMOVE, "")];
    assert !Printable(changes[1..], ADD);
    PrintParse(changes);
  }

  lemma {:induction false} AssignedOps(op: ModeOp, letters: string, params: seq<string>)
    ensures forall i :: 0 <= i < |letters| ==> Assign(op, letters, params)[i].op == op && Assign(op, letters, params)[i].mode == letters[i]
    decreases |letters|
  {
    hide TakesArg;
    if letters != "" {
      AssignedOps(op, letters[1..], if TakesArg(letters[0]) && params != [] then params[1..] else params);
    }
  }

  /** A single group is read letter by letter, to add or remove after a sign, and to list without one. */
  lemma GroupIsRead(group: string)
    requires group != ""
    ensures var changes := Changes([group]);
            var signed := group[0] == '+' || group[0] == '-';
            && |changes| == (if signed then |group| - 1 else |group|)
            && (forall i :: 0 <= i < |changes| ==>
                  && changes[i].op == (if signed then group[0] else '=')
                  && changes[i].mode == (if signed then group[i + 1] else group[i]))
  {
    hide Assign, Taken;
    AssignedOps(GroupOp(group), GroupLetters(group), []);
    var rest := [group][1..];
    assert rest == [] && rest[Taken(GroupLetters(group), rest)..] == [];
    ChangesStep([group]);
    ChangesOfNothing();
  }
}
