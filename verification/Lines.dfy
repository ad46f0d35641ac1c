/** Reading a line as a command code and its arguments. */
module Lines {
  import opened Names
  import opened Strings

  /** What `NewName(strings.ToUpper(_))` makes of a command. Left uninterpreted. */
  const CODE: string -> Name

  datatype Line = Line(code: Name, args: seq<string>)

  // -------------------------------------------------------------------- splitting

  function SkipSpaces(s: string): (rest: string)
    ensures |rest| <= |s|
    ensures s != "" && s[0] == ' ' ==> |rest| < |s|
    ensures rest == "" || rest[0] != ' '
  {
    if s != "" && s[0] == ' ' then SkipSpaces(s[1..]) else s
  }

  /** Split at the first run of spaces. */
  function SplitArg(line: string): (parts: (string, string))
    ensures ' ' !in parts.0 && |parts.1| <= |line|
    ensures line != "" && line[0] != ' ' ==> parts.0 != "" && parts.0[0] == line[0] && |parts.1| < |line|
    ensures parts.1 == "" || (parts.1[0] != ' ' && |parts.0| + |parts.1| < |line|)
  {
    var i := IndexOf(line, ' ');
    (line[..i], SkipSpaces(line[i..]))
  }

  /** The arguments that follow the command; `line` does not begin with a space. */
  function ArgsOf(line: string): seq<string>
    requires line == "" || line[0] != ' '
    decreases |line|
  {
    if line == "" then []
    else if line[0] == ':' then [line[1..]]
    else [SplitArg(line).0] + ArgsOf(SplitArg(line).1)
  }

  function WithoutPrefix(line: string): string {
    if line != "" && line[0] == ':' then SplitArg(line).1 else line
  }

  /** The command as written, and its arguments. */
  function Parsed(line: string): (string, seq<string>) {
    var (command, rest) := SplitArg(WithoutPrefix(line));
    (command, ArgsOf(rest))
  }

  function ParsedLine(line: string): Line {
    Line(CODE(Parsed(line).0), Parsed(line).1)
  }

  method ParseLine(line: string) returns (parsed: Line)
    ensures parsed == ParsedLine(line)
  {
    hide ArgsOf, SplitArg;
    var args: seq<string> := [];
    var line := line;
    if line != "" && line[0] == ':' {
      line := SplitArg(line).1;
    }
    var (arg, rest) := SplitArg(line);
    var code := CODE(arg);
    ghost var all := ArgsOf(rest);
    while rest != ""
      invariant rest == "" || rest[0] != ' '
      invariant args + ArgsOf(rest) == all
      decreases |rest|
    {
      ArgsOfStep(rest);
      if rest[0] == ':' {
        return Line(code, args + [rest[1..]]);
      }
      var (arg, next) := SplitArg(rest);
      rest := next;
      args := args + [arg];
    }
    ArgsOfNothing();
    parsed := Line(code, args);
  }

  predicate OnlySpaces(s: string) {
    forall i :: 0 <= i < |s| ==> s[i] == ' '
  }

  lemma {:induction false} SkipSpacesKeeps(s: string) returns (gap: string)
    ensures s == gap + SkipSpaces(s) && OnlySpaces(gap)
  {
    if s != "" && s[0] == ' ' {
      gap := SkipSpacesKeeps(s[1..]);
      gap := " " + gap;
    } else {
      gap := "";
    }
  }

  /** The two parts make up the line, but for the spaces between them. */
  lemma SplitArgKeeps(line: string) returns (gap: string)
    ensures line == SplitArg(line).0 + gap + SplitArg(line).1
    ensures OnlySpaces(gap) && (gap == "" ==> SplitArg(line) == (line, ""))
  {
    hide IndexOf, SkipSpaces;
    var i := IndexOf(line, ' ');
    gap := SkipSpacesKeeps(line[i..]);
    assert line == line[..i] + line[i..];
  }

  lemma ArgsOfNothing()
    ensures ArgsOf("") == []
  {
  }

  lemma ArgsOfStep(line: string)
    requires line != "" && line[0] != ' '
    ensures ArgsOf(line) == if line[0] == ':' then [line[1..]] else [SplitArg(line).0] + ArgsOf(SplitArg(line).1)
  {
  }

  // ------------------------------------------------------------------- normal form

  /** An argument that can be written without a colon. */
  predicate Middle(arg: string) {
    arg != "" && arg[0] != ':' && ' ' !in arg
  }

  /** All arguments but the last are such. */
  predicate Normal(args: seq<string>) {
    forall i :: 0 <= i < |args| - 1 ==> Middle(args[i])
  }

  predicate IsCommand(command: string) {
    ' ' !in command && (command == "" || command[0] != ':')
  }

  lemma {:induction false} ArgsAreNormal(line: string)
    requires line == "" || line[0] != ' '
    ensures Normal(ArgsOf(line))
    decreases |line|
  {
    hide SplitArg;
    if line != "" && line[0] != ':' {
      ArgsAreNormal(SplitArg(line).1);
    }
  }

  /** However a line is written, at most its last argument needs a colon. */
  lemma ParsedIsNormal(line: string)
    ensures ' ' !in Parsed(line).0
    ensures Normal(Parsed(line).1)
  {
    hide SplitArg, ArgsOf;
    ArgsAreNormal(SplitArg(WithoutPrefix(line)).1);
  }

  // --------------------------------------------------------------------- round trip

  /** The arguments with a colon on the last. */
  function RenderArgs(args: seq<string>): string {
    if args == [] then ""
    else if |args| == 1 then " :" + args[0]
    else " " + args[0] + RenderArgs(args[1..])
  }

  function Render(command: string, args: seq<string>): string {
    command + RenderArgs(args)
  }

  /** Splitting off a text without spaces that ends the line or is followed by one space. */
  lemma SplitOff(arg: string, rest: string)
    requires ' ' !in arg && (rest == "" || rest[0] != ' ')
    ensures SplitArg(arg + " " + rest) == (arg, rest)
    ensures SplitArg(arg) == (arg, "")
  {
    FirstAt(arg, ' ', rest);
    assert (arg + " " + rest)[..|arg|] == arg;
    assert (arg + " " + rest)[|arg|..] == " " + rest;
    SkipOne(rest);
    NoneAt(arg, ' ');
    assert arg[..|arg|] == arg && arg[|arg|..] == "";
  }

  lemma SkipOne(rest: string)
    requires rest == "" || rest[0] != ' '
    ensures SkipSpaces(" " + rest) == rest
  {
  }

  lemma {:induction false} ArgsRoundTrip(args: seq<string>)
    requires args != [] && Normal(args)
    ensures RenderArgs(args)[0] == ' ' && |RenderArgs(args)| > 1 && RenderArgs(args)[1] != ' '
    ensures ArgsOf(RenderArgs(args)[1..]) == args
  {
    hide SplitArg;
    var line := RenderArgs(args)[1..];
    if |args| == 1 {
      assert line == ":" + args[0] && line[1..] == args[0];
    } else {
      var rest := RenderArgs(args[1..])[1..];
      assert Normal(args[1..]);
      ArgsRoundTrip(args[1..]);
      assert RenderArgs(args[1..]) == " " + rest;
      assert line == args[0] + " " + rest;
      assert Middle(args[0]);
      SplitOff(args[0], rest);
    }
  }

  /** Any command and arguments in normal form are read back as they were written. */
  lemma RoundTrip(command: string, args: seq<string>)
    requires IsCommand(command) && Normal(args)
    ensures Parsed(Render(command, args)) == (command, args)
  {
    hide SplitArg, ArgsOf, RenderArgs;
    if args == [] {
      RenderNothing();
      assert Render(command, args) == command;
      SplitOff(command, "");
      ArgsOfNothing();
    } else {
      ArgsRoundTrip(args);
      var rest := RenderArgs(args)[1..];
      assert Render(command, args) == command + " " + rest;
      SplitOff(command, rest);
    }
  }

  lemma RenderNothing()
    ensures RenderArgs([]) == ""
  {
  }

  lemma {:induction false} ArgsAreShort(line: string, i: nat)
    requires (line == "" || line[0] != ' ') && i < |ArgsOf(line)|
    ensures |ArgsOf(line)[i]| <= |line|
    decreases |line|
  {
    if line != "" && line[0] != ':' && i > 0 {
      ArgsAreShort(SplitArg(line).1, i - 1);
    }
  }

  lemma ColonFirst(command: string, rest: string)
    requires command != "" && command[0] == ':' && ' ' !in command && (rest == "" || rest[0] != ' ')
    ensures Parsed(command + " " + rest) == (SplitArg(rest).0, ArgsOf(SplitArg(rest).1))
    ensures Parsed(command) == ("", [])
  {
    hide SplitArg, ArgsOf;
    SplitOff(command, rest);
    SplitOff("", "");
    ArgsOfNothing();
  }

  /** A command that begins with a colon is taken for the name of the sender. */
  lemma ColonIsMisread(command: string, args: seq<string>)
    requires command != "" && command[0] == ':' && ' ' !in command && Normal(args)
    ensures Parsed(Render(command, args)) != (command, args)
  {
    hide SplitArg, ArgsOf;
    if args == [] {
      assert Render(command, args) == command;
      ColonFirst(command, "");
    } else {
      ArgsRoundTrip(args);
      var rest := RenderArgs(args)[1..];
      assert Render(command, args) == command + " " + rest;
      ColonFirst(command, rest);
      if |args| > 1 {
        assert Middle(args[0]);
        ArgsRoundTrip(args[1..]);
        var more := RenderArgs(args[1..])[1..];
        assert rest == args[0] + " " + more;
        SplitOff(args[0], more);
      } else {
        assert rest == ":" + args[0];
        if ArgsOf(SplitArg(rest).1) == args {
          ShorterThanAll(args[0]);
          assert false;
        }
      }
    }
  }

  lemma ShorterThanAll(arg: string)
    ensures ArgsOf(SplitArg(":" + arg).1) != [arg]
  {
    hide SplitArg, ArgsOf;
    var line := SplitArg(":" + arg).1;
    ArgsOfNothing();
    if ArgsOf(line) == [arg] {
      ArgsAreShort(line, 0);
      assert false;
    }
  }

  /** What is written is read back exactly if the command can stand first and the arguments are in normal form. */
  lemma RoundTripExactly(command: string, args: seq<string>)
    ensures Parsed(Render(command, args)) == (command, args) <==> IsCommand(command) && Normal(args)
  {
    hide Parsed, Render;
    if IsCommand(command) && Normal(args) {
      RoundTrip(command, args);
    } else {
      ParsedIsNormal(Render(command, args));
      if ' ' !in command && Normal(args) {
        ColonIsMisread(command, args);
      }
    }
  }

  /** Two prefixes in a row: the second stands where the command should. */
  predicate DoublePrefix(line: string) {
    var rest := WithoutPrefix(line);
    rest != "" && rest[0] == ':'
  }

  /** Reading a line, writing out what was read and reading that gives the same again, exactly without a second prefix. */
  lemma Reread(line: string)
    ensures var (command, args) := Parsed(line);
            Parsed(Render(command, args)) == (command, args) <==> !DoublePrefix(line)
  {
    hide Render;
    ParsedIsNormal(line);
    RoundTripExactly(Parsed(line).0, Parsed(line).1);
  }

  /**
   * The round trip of what `ParseLine` returns. Upper-casing and normalising can change a code again, or put spaces
   * into it. A code that can stand first is read back exactly if it stays as it is; any other, or arguments that are
   * not in normal form, are not read back, unless upper-casing and normalising happens to restore the code.
   */
  lemma LineRoundTripExactly(line: Line)
    ensures var again := Render(line.code, line.args);
            && (IsCommand(line.code) && Normal(line.args) ==> (ParsedLine(again) == line <==> CODE(line.code) == line.code))
            && (!(IsCommand(line.code) && Normal(line.args)) && CODE(Parsed(again).0) == Parsed(again).0 ==>
                  ParsedLine(again) != line)
  {
    hide Parsed, Render;
    RoundTripExactly(line.code, line.args);
  }

  /** So a line that was read is read again as the same exactly if its code is stable, given that it can stand first. */
  lemma LineReread(text: string)
    requires IsCommand(ParsedLine(text).code)
    ensures var line := ParsedLine(text);
            ParsedLine(Render(line.code, line.args)) == line <==> CODE(line.code) == line.code
  {
    hide Parsed, Render;
    ParsedIsNormal(text);
    LineRoundTripExactly(ParsedLine(text));
  }

  /** A line whose command cannot be written out again. */
  lemma ColonCommand()
    ensures Parsed(": :x") == (":x", []) && DoublePrefix(": :x")
  {
    hide SplitArg, ArgsOf;
    SplitOff(":", ":x");
    assert ":" + " " + ":x" == ": :x";
    SplitOff(":x", "");
    ArgsOfNothing();
  }

  /** The sender named in front of a command makes no difference. */
  lemma PrefixIsIgnored(prefix: string, line: string)
    requires ' ' !in prefix && (line == "" || line[0] !in " :")
    ensures Parsed(":" + prefix + " " + line) == Parsed(line)
  {
    hide SplitArg, ArgsOf;
    SplitOff(":" + prefix, line);
  }
}
