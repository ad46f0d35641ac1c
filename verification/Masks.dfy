/** Sets of user masks, compiled to one regular expression. */
module Masks {
  import opened Names
  import opened Strings

  // ------------------------------------------------------------------- the intent

  /** What a mask means: `*` stands for any text, `?` for any one character. */
  ghost predicate PlainGlob(mask: string, s: string) {
    if mask == "" then s == ""
    else if mask[0] == '*' then exists k :: 0 <= k <= |s| && PlainGlob(mask[1..], s[k..])
    else s != "" && (mask[0] == '?' || mask[0] == s[0]) && PlainGlob(mask[1..], s[1..])
  }

  /** The same, but for `*` and `?` not standing for line ends. */
  predicate Glob(mask: string, s: string)
    decreases |mask| + |s|
  {
    if mask == "" then s == ""
    else if mask[0] == '*' then
      Glob(mask[1..], s) || (s != "" && s[0] != '\n' && Glob(mask, s[1..]))
    else
      s != "" && (if mask[0] == '?' then s[0] != '\n' else mask[0] == s[0]) && Glob(mask[1..], s[1..])
  }

  /** Two or more masks match everything; this is shown below to be what the compiled expression does. */
  predicate Match(masks: set<Name>, userhost: string) {
    |masks| >= 2 || exists mask :: mask in masks && Glob(mask, userhost)
  }

  lemma {:induction false} StarMatches(mask: string, s: string, k: nat)
    requires mask != "" && mask[0] == '*' && k <= |s| && '\n' !in s && Glob(mask[1..], s[k..])
    ensures Glob(mask, s)
  {
    if k == 0 {
      assert s[0..] == s;
    } else {
      assert s[1..][k - 1..] == s[k..];
      StarMatches(mask, s[1..], k - 1);
    }
  }

  /** On text without line ends the two readings of a mask are the same. */
  lemma {:induction false} GlobIsPlain(mask: string, s: string)
    requires '\n' !in s
    ensures Glob(mask, s) <==> PlainGlob(mask, s)
    decreases |mask| + |s|
  {
    if mask != "" {
      if mask[0] != '*' {
        if s != "" {
          GlobIsPlain(mask[1..], s[1..]);
        }
      } else {
        StarIsPlain(mask, s);
      }
    }
  }

  lemma {:induction false} StarIsPlain(mask: string, s: string)
    requires mask != "" && mask[0] == '*' && '\n' !in s
    ensures Glob(mask, s) <==> PlainGlob(mask, s)
    decreases |mask| + |s|, 0
  {
    if PlainGlob(mask, s) {
      var k :| 0 <= k <= |s| && PlainGlob(mask[1..], s[k..]);
      GlobIsPlain(mask[1..], s[k..]);
      StarMatches(mask, s, k);
    }
    if Glob(mask, s) {
      if Glob(mask[1..], s) {
        GlobIsPlain(mask[1..], s);
        assert s[0..] == s;
      } else {
        GlobIsPlain(mask, s[1..]);
        var k :| 0 <= k <= |s[1..]| && PlainGlob(mask[1..], s[1..][k..]);
        assert s[1..][k..] == s[k + 1..];
      }
    }
  }

  // ----------------------------------------------------------- regular expressions

  /** The part of the syntax of regular expressions that compiled masks use. */
  datatype Token = Literal(c: char) | AnyOne | AnyMany | Bar | Start | End

  function Lex(expr: string): seq<Token> {
    if expr == "" then []
    else if expr[0] == '\\' && |expr| > 1 then [Literal(expr[1])] + Lex(expr[2..])
    else if expr[0] == '.' && |expr| > 1 && expr[1] == '*' then [AnyMany] + Lex(expr[2..])
    else
      var token := match expr[0]
        case '.' => AnyOne
        case '|' => Bar
        case '^' => Start
        case '$' => End
        case c => Literal(c);
      [token] + Lex(expr[1..])
  }

  /** The alternatives between bars. */
  function Alternatives(tokens: seq<Token>): (alternatives: seq<seq<Token>>)
    ensures alternatives != []
  {
    if tokens == [] then [[]]
    else
      var rest := Alternatives(tokens[1..]);
      if tokens[0] == Bar then [[]] + rest else [[tokens[0]] + rest[0]] + rest[1..]
  }

  /** The alternative matches some piece of `s` starting at `i`. */
  predicate MatchAt(tokens: seq<Token>, s: string, i: nat)
    requires i <= |s|
    decreases |tokens| + |s| - i
  {
    if tokens == [] then true
    else match tokens[0]
      case Literal(c) => i < |s| && s[i] == c && MatchAt(tokens[1..], s, i + 1)
      case AnyOne => i < |s| && s[i] != '\n' && MatchAt(tokens[1..], s, i + 1)
      case AnyMany => MatchAt(tokens[1..], s, i) || (i < |s| && s[i] != '\n' && MatchAt(tokens, s, i + 1))
      case Start => i == 0 && MatchAt(tokens[1..], s, i)
      case End => i == |s| && MatchAt(tokens[1..], s, i)
      case Bar => false
  }

  /** `Regexp.MatchString`: an unanchored search. */
  predicate MatchString(expr: string, s: string) {
    exists a, i ::
      0 <= a < |Alternatives(Lex(expr))| && 0 <= i <= |s| && MatchAt(Alternatives(Lex(expr))[a], s, i)
  }

  function Elements(names: seq<Name>): set<Name> {
    set name | name in names
  }

  lemma ElementsStep(names: seq<Name>, i: nat)
    requires i < |names|
    ensures Elements(names[..i + 1]) == Elements(names[..i]) + {names[i]}
  {
  }

  const META := "\\.+*?()|[]{}^$"

  function QuoteChar(c: char): string {
    if c in META then ['\\', c] else [c]
  }

  /** `regexp.QuoteMeta`. */
  function QuoteMeta(s: string): string {
    if s == "" then "" else QuoteChar(s[0]) + QuoteMeta(s[1..])
  }

  function QuoteAll(parts: seq<string>): (exprs: seq<string>)
    ensures |exprs| == |parts|
    ensures forall i :: 0 <= i < |parts| ==> exprs[i] == QuoteMeta(parts[i])
  {
    seq(|parts|, i requires 0 <= i < |parts| => QuoteMeta(parts[i]))
  }

  /** A piece of a mask without `*`. */
  function OneExpr(part: string): string {
    Join(QuoteAll(Split(part, '?')), ".")
  }

  function ManyExprs(parts: seq<string>): (exprs: seq<string>)
    ensures |exprs| == |parts|
    ensures forall i :: 0 <= i < |parts| ==> exprs[i] == OneExpr(parts[i])
  {
    seq(|parts|, i requires 0 <= i < |parts| => OneExpr(parts[i]))
  }

  /** The expression for one mask. */
  function MaskExpr(mask: Name): string {
    Join(ManyExprs(Split(mask, '*')), ".*")
  }

  function Blanks(n: nat): seq<string> {
    seq(n, _ => "")
  }

  /** The expression for a set of masks of which `last` was compiled last: it overwrites the others. */
  function SetExpr(n: nat, last: Name): string
    requires n > 0
  {
    "^" + Join([MaskExpr(last)] + Blanks(n - 1), "|") + "$"
  }

  // -------------------------------------------------------------------- the class

  class UserMaskSet {
    var masks: set<Name>
    var regexp: Option<string>

    /** The cached expression is that of the current masks. */
    ghost predicate Valid()
      reads this
    {
      match regexp
      case None => masks == {}
      case Some(expr) => exists last :: last in masks && |masks| > 0 && expr == SetExpr(|masks|, last)
    }

    constructor ()
      ensures Valid() && masks == {}
    {
      masks := {};
      regexp := None;
    }

    method Add(mask: Name) returns (added: bool)
      requires Valid()
      modifies this
      ensures Valid() && masks == old(masks) + {mask}
      ensures added <==> mask !in old(masks)
    {
      if mask in masks {
        return false;
      }
      masks := masks + {mask};
      SetRegexp();
      return true;
    }

    /** As in the source, the expression is rebuilt once, after all masks have been added. */
    method AddAll(more: seq<Name>) returns (added: bool)
      requires Valid()
      modifies this
      ensures Valid() && masks == old(masks) + Elements(more)
      ensures added <==> masks != old(masks)
    {
      added := false;
      for i := 0 to |more|
        invariant masks == old(masks) + Elements(more[..i])
        invariant added <==> masks != old(masks)
      {
        if !added && more[i] !in masks {
          added := true;
        }
        masks := masks + {more[i]};
        ElementsStep(more, i);
      }
      assert more[..|more|] == more;
      SetRegexp();
    }

    method Remove(mask: Name) returns (removed: bool)
      requires Valid()
      modifies this
      ensures Valid() && masks == old(masks) - {mask}
      ensures removed <==> mask in old(masks)
    {
      if mask !in masks {
        return false;
      }
      masks := masks - {mask};
      SetRegexp();
      return true;
    }

    /** The set matches by its cached expression; what that means for the masks is stated with it. */
    method MatchUserHost(userhost: Name) returns (matches: bool)
      requires Valid()
      ensures matches == Match(masks, userhost)
    {
      if regexp == None {
        return false;
      }
      matches := MatchString(regexp.value, userhost);
      ghost var last :| last in masks && regexp == Some(SetExpr(|masks|, last));
      SetExprMatches(masks, last, userhost);
    }

    /** Compile the masks. The position written to never advances. */
    method SetRegexp()
      modifies this`regexp
      ensures Valid()
    {
      if masks == {} {
        regexp := None;
        return;
      }
      var maskExprs := new string[|masks|](_ => "");
      var index := 0;
      var todo := masks;
      ghost var last: Name := "";
      while todo != {}
        invariant todo <= masks && index == 0 && maskExprs.Length == |masks| > 0
        invariant todo == masks || (last in masks && maskExprs[0] == MaskExpr(last))
        invariant forall i :: 1 <= i < maskExprs.Length ==> maskExprs[i] == ""
        decreases todo
      {
        var mask :| mask in todo;
        maskExprs[index] := CompileMask(mask);
        last := mask;
        todo := todo - {mask};
      }
      assert maskExprs[..] == [MaskExpr(last)] + Blanks(|masks| - 1);
      regexp := Some("^" + Join(maskExprs[..], "|") + "$");
      assert regexp.value == SetExpr(|masks|, last);
    }
  }

  method CompileMask(mask: Name) returns (expr: string)
    ensures expr == MaskExpr(mask)
  {
    hide Split, Join, OneExpr;
    var manyParts := Split(mask, '*');
    var manyExprs := new string[|manyParts|](_ => "");
    for m := 0 to |manyParts|
      invariant forall k :: 0 <= k < m ==> manyExprs[k] == OneExpr(manyParts[k])
    {
      var oneExpr := CompilePart(manyParts[m]);
      manyExprs[m] := oneExpr;
    }
    assert manyExprs[..] == ManyExprs(manyParts);
    expr := Join(manyExprs[..], ".*");
  }

  method CompilePart(part: string) returns (expr: string)
    ensures expr == OneExpr(part)
  {
    hide Split, Join, QuoteMeta;
    var oneParts := Split(part, '?');
    var oneExprs := new string[|oneParts|](_ => "");
    for o := 0 to |oneParts|
      invariant forall k :: 0 <= k < o ==> oneExprs[k] == QuoteMeta(oneParts[k])
    {
      oneExprs[o] := QuoteMeta(oneParts[o]);
    }
    assert oneExprs[..] == QuoteAll(oneParts);
    expr := Join(oneExprs[..], ".");
  }

  // ----------------------------------------------- splitting and joining, by character

  /** The expression for a mask, character by character. */
  function CharExprs(mask: string): string {
    if mask == "" then ""
    else (if mask[0] == '*' then ".*" else if mask[0] == '?' then "." else QuoteChar(mask[0])) + CharExprs(mask[1..])
  }

  lemma {:induction false} CharExprsAppend(a: string, b: string)
    ensures CharExprs(a + b) == CharExprs(a) + CharExprs(b)
  {
    if a == "" {
      assert a + b == b;
    } else {
      assert (a + b)[1..] == a[1..] + b;
      CharExprsAppend(a[1..], b);
    }
  }

  lemma {:induction false} QuoteIsCharExprs(s: string)
    requires '?' !in s && '*' !in s
    ensures QuoteMeta(s) == CharExprs(s)
  {
    if s != "" {
      QuoteIsCharExprs(s[1..]);
    }
  }

  lemma JoinCons(first: string, rest: seq<string>, sep: string)
    requires rest != []
    ensures Join([first] + rest, sep) == first + sep + Join(rest, sep)
  {
  }

  lemma Cut(s: string, i: nat)
    requires i < |s|
    ensures s == s[..i] + [s[i]] + s[i + 1..]
  {
  }

  lemma SplitAt(s: string, c: char, i: nat)
    requires i == IndexOf(s, c) < |s|
    ensures s == s[..i] + [c] + s[i + 1..]
    ensures Split(s, c) == [s[..i]] + Split(s[i + 1..], c)
  {
  }

  lemma CharExprsAround(head: string, c: char, tail: string)
    ensures CharExprs(head + [c] + tail) == CharExprs(head) + CharExprs([c]) + CharExprs(tail)
  {
    hide CharExprs;
    CharExprsAppend(head + [c], tail);
    CharExprsAppend(head, [c]);
  }

  lemma OneExprCons(head: string, tail: string)
    requires '?' !in head
    ensures OneExpr(head + "?" + tail) == QuoteMeta(head) + "." + OneExpr(tail)
  {
    hide QuoteMeta, IndexOf, Split, Join;
    var part := head + "?" + tail;
    FirstAt(head, '?', tail);
    SplitAt(part, '?', |head|);
    assert part[..|head|] == head && part[|head| + 1..] == tail;
    assert QuoteAll([head] + Split(tail, '?')) == [QuoteMeta(head)] + QuoteAll(Split(tail, '?'));
    JoinCons(QuoteMeta(head), QuoteAll(Split(tail, '?')), ".");
  }

  lemma ManyExprsCons(head: string, tail: string)
    requires '*' !in head
    ensures MaskExpr(head + "*" + tail) == OneExpr(head) + ".*" + MaskExpr(tail)
  {
    hide OneExpr, IndexOf, Split, Join;
    var mask := head + "*" + tail;
    FirstAt(head, '*', tail);
    SplitAt(mask, '*', |head|);
    assert mask[..|head|] == head && mask[|head| + 1..] == tail;
    assert ManyExprs([head] + Split(tail, '*')) == [OneExpr(head)] + ManyExprs(Split(tail, '*'));
    JoinCons(OneExpr(head), ManyExprs(Split(tail, '*')), ".*");
  }

  lemma OneExprWhole(part: string)
    requires IndexOf(part, '?') == |part|
    ensures OneExpr(part) == QuoteMeta(part)
  {
  }

  lemma MaskExprWhole(mask: string)
    requires IndexOf(mask, '*') == |mask|
    ensures MaskExpr(mask) == OneExpr(mask)
  {
  }

  lemma WildcardExprs()
    ensures CharExprs("?") == "." && CharExprs("*") == ".*"
  {
  }

  lemma {:induction false} OneIsCharExprs(part: string)
    requires '*' !in part
    ensures OneExpr(part) == CharExprs(part)
    decreases |part|
  {
    hide OneExpr, CharExprs, QuoteMeta, IndexOf;
    var i := IndexOf(part, '?');
    var head := part[..i];
    QuoteIsCharExprs(head);
    if i == |part| {
      assert head == part;
      OneExprWhole(part);
    } else {
      var tail := part[i + 1..];
      Cut(part, i);
      OneIsCharExprs(tail);
      OneExprCons(head, tail);
      CharExprsAround(head, '?', tail);
      WildcardExprs();
    }
  }

  /** Splitting at the wildcards, quoting and joining amounts to translating every character. */
  lemma {:induction false} MaskIsCharExprs(mask: string)
    ensures MaskExpr(mask) == CharExprs(mask)
    decreases |mask|
  {
    hide OneExpr, MaskExpr, CharExprs, IndexOf;
    var i := IndexOf(mask, '*');
    var head := mask[..i];
    OneIsCharExprs(head);
    if i == |mask| {
      assert head == mask;
      MaskExprWhole(mask);
    } else {
      var tail := mask[i + 1..];
      Cut(mask, i);
      MaskIsCharExprs(tail);
      ManyExprsCons(head, tail);
      CharExprsAround(head, '*', tail);
      WildcardExprs();
    }
  }

  // ------------------------------------------------------------------ reading it back

  function MaskTokens(mask: string): seq<Token> {
    if mask == "" then []
    else [if mask[0] == '*' then AnyMany else if mask[0] == '?' then AnyOne else Literal(mask[0])] + MaskTokens(mask[1..])
  }

  lemma LexQuoted(c: char, rest: string)
    ensures Lex(QuoteChar(c) + rest) == [Literal(c)] + Lex(rest)
  {
  }

  lemma LexDot(rest: string)
    requires rest == "" || rest[0] != '*'
    ensures Lex("." + rest) == [AnyOne] + Lex(rest)
  {
  }

  lemma LexDotStar(rest: string)
    ensures Lex(".*" + rest) == [AnyMany] + Lex(rest)
  {
  }

  lemma NoLeadingStar(mask: string, rest: string)
    requires rest == "" || rest[0] != '*'
    ensures var expr := CharExprs(mask) + rest; expr == "" || expr[0] != '*'
  {
  }

  lemma CharExprsCons(mask: string, rest: string)
    requires mask != ""
    ensures CharExprs(mask) + rest
         == (if mask[0] == '*' then ".*" else if mask[0] == '?' then "." else QuoteChar(mask[0])) + (CharExprs(mask[1..]) + rest)
  {
    hide QuoteChar;
  }

  /** The compiled expression of a mask is read as its characters and wildcards, one by one. */
  lemma {:induction false} LexMask(mask: string, rest: string)
    requires rest == "" || rest[0] != '*'
    ensures Lex(CharExprs(mask) + rest) == MaskTokens(mask) + Lex(rest)
    decreases |mask|
  {
    hide Lex, QuoteChar;
    if mask == "" {
      assert CharExprs(mask) + rest == rest;
    } else {
      LexMask(mask[1..], rest);
      LexFirst(mask, rest);
      assert MaskTokens(mask) + Lex(rest)
          == [if mask[0] == '*' then AnyMany else if mask[0] == '?' then AnyOne else Literal(mask[0])] + (MaskTokens(mask[1..]) + Lex(rest));
    }
  }

  lemma LexFirst(mask: string, rest: string)
    requires mask != "" && (rest == "" || rest[0] != '*')
    ensures Lex(CharExprs(mask) + rest)
         == [if mask[0] == '*' then AnyMany else if mask[0] == '?' then AnyOne else Literal(mask[0])] + Lex(CharExprs(mask[1..]) + rest)
  {
    hide Lex, QuoteChar, CharExprs;
    var tail := CharExprs(mask[1..]) + rest;
    CharExprsCons(mask, rest);
    if mask[0] == '*' {
      LexDotStar(tail);
    } else if mask[0] == '?' {
      NoLeadingStar(mask[1..], rest);
      LexDot(tail);
    } else {
      LexQuoted(mask[0], tail);
    }
  }

  /** Between the anchors, a mask matches as a glob does. */
  lemma {:induction false} MaskMatchesAt(mask: string, s: string, i: nat)
    requires i <= |s|
    ensures MatchAt(MaskTokens(mask) + [End], s, i) <==> Glob(mask, s[i..])
    decreases |mask| + |s| - i
  {
    var tokens := MaskTokens(mask) + [End];
    if mask == "" {
      assert tokens == [End] && tokens[1..] == [];
    } else {
      var rest := MaskTokens(mask[1..]) + [End];
      assert tokens[1..] == rest;
      if mask[0] == '*' {
        MaskMatchesAt(mask[1..], s, i);
        if i < |s| {
          MaskMatchesAt(mask, s, i + 1);
          assert s[i..][1..] == s[i + 1..];
        }
      } else if i < |s| {
        MaskMatchesAt(mask[1..], s, i + 1);
        assert s[i..][1..] == s[i + 1..];
      }
    }
  }

  predicate NoBars(tokens: seq<Token>) {
    forall i :: 0 <= i < |tokens| ==> tokens[i] != Bar
  }

  lemma {:induction false} MaskTokensNoBars(mask: string)
    ensures NoBars(MaskTokens(mask))
  {
    if mask != "" {
      MaskTokensNoBars(mask[1..]);
    }
  }

  lemma {:induction false} OneAlternative(tokens: seq<Token>)
    requires NoBars(tokens)
    ensures Alternatives(tokens) == [tokens]
  {
    if tokens != [] {
      assert NoBars(tokens[1..]);
      OneAlternative(tokens[1..]);
      assert tokens[0] != Bar;
      assert [tokens[0]] + tokens[1..] == tokens;
    }
  }

  /** After a bar, the alternatives of the rest follow. */
  lemma {:induction false} LastAlternative(tokens: seq<Token>, rest: seq<Token>)
    requires NoBars(rest)
    ensures var all := Alternatives(tokens + [Bar] + rest); all[|all| - 1] == rest
  {
    if tokens == [] {
      assert (tokens + [Bar] + rest)[1..] == rest;
      OneAlternative(rest);
    } else {
      assert (tokens + [Bar] + rest)[1..] == tokens[1..] + [Bar] + rest;
      LastAlternative(tokens[1..], rest);
      HasTwo(tokens[1..], rest);
    }
  }

  lemma {:induction false} HasTwo(tokens: seq<Token>, rest: seq<Token>)
    ensures |Alternatives(tokens + [Bar] + rest)| >= 2
  {
    if tokens == [] {
      assert (tokens + [Bar] + rest)[1..] == rest;
    } else {
      assert (tokens + [Bar] + rest)[1..] == tokens[1..] + [Bar] + rest;
      HasTwo(tokens[1..], rest);
    }
  }

  // ------------------------------------------------------------------- the set matches

  lemma LexOne(mask: Name)
    ensures Lex(SetExpr(1, mask)) == [Start] + (MaskTokens(mask) + [End])
  {
    hide MaskExpr, CharExprs, MaskTokens;
    var expr := SetExpr(1, mask);
    assert Join([MaskExpr(mask)] + Blanks(0), "|") == MaskExpr(mask);
    MaskIsCharExprs(mask);
    LexAnchored(CharExprs(mask) + "$");
    assert expr == "^" + (CharExprs(mask) + "$");
    LexMask(mask, "$");
    LexEnd();
  }

  lemma LexAnchored(rest: string)
    ensures Lex("^" + rest) == [Start] + Lex(rest)
  {
  }

  lemma LexEnd()
    ensures Lex("$") == [End]
  {
  }

  /** An expression that begins with the start anchor is only matched from the start. */
  lemma AnchoredMatch(expr: string, rest: seq<Token>, s: string)
    requires Lex(expr) == [Start] + rest && NoBars(rest)
    ensures MatchString(expr, s) <==> MatchAt(rest, s, 0)
  {
    hide Lex, Alternatives;
    var tokens := Lex(expr);
    OneAlternative(tokens);
    assert tokens[1..] == rest;
    assert forall i :: 0 <= i <= |s| ==> (MatchAt(tokens, s, i) <==> i == 0 && MatchAt(rest, s, 0));
    if MatchAt(rest, s, 0) {
      assert MatchAt(Alternatives(Lex(expr))[0], s, 0);
    }
  }

  /** One mask, fully anchored, matches as its glob does. */
  lemma OneMaskMatches(mask: Name, s: string)
    ensures MatchString(SetExpr(1, mask), s) <==> Glob(mask, s)
  {
    hide Lex, SetExpr, MaskTokens, MatchAt, MatchString, Glob;
    LexOne(mask);
    MaskTokensNoBars(mask);
    AnchoredMatch(SetExpr(1, mask), MaskTokens(mask) + [End], s);
    MaskMatchesAt(mask, s, 0);
    assert s[0..] == s;
  }

  /** Reading any text followed by a bar and the end anchor, the last alternative is the anchor alone. */
  lemma {:induction false} LexBarEnd(text: string)
    requires Unescaped(text)
    ensures exists tokens :: Lex(text + "|$") == tokens + [Bar, End]
    decreases |text|
  {
    if text == "" {
      assert text + "|$" == "|$" && "|$"[1..] == "$";
      assert Lex("$") == [End];
      assert Lex("|$") == [] + [Bar, End];
    } else {
      var expr := text + "|$";
      var step := if (text[0] == '\\' || (text[0] == '.' && |text| > 1 && text[1] == '*')) then 2 else 1;
      assert expr[step..] == text[step..] + "|$";
      LexBarEnd(text[step..]);
      var tokens :| Lex(text[step..] + "|$") == tokens + [Bar, End];
      var first := Lex(expr)[0];
      assert Lex(expr) == ([first] + tokens) + [Bar, End];
    }
  }

  /** No escape is cut off at the end. */
  predicate Unescaped(text: string) {
    if text == "" then true
    else if text[0] == '\\' then |text| > 1 && Unescaped(text[2..])
    else if text[0] == '.' && |text| > 1 && text[1] == '*' then Unescaped(text[2..])
    else Unescaped(text[1..])
  }

  lemma {:induction false} CharExprsUnescaped(mask: string, bars: string)
    requires forall i :: 0 <= i < |bars| ==> bars[i] == '|'
    ensures Unescaped(CharExprs(mask) + bars)
    decreases |mask|
  {
    hide QuoteChar, Unescaped;
    if mask == "" {
      BarsUnescaped(bars);
      assert CharExprs(mask) + bars == bars;
    } else {
      CharExprsUnescaped(mask[1..], bars);
      CharExprsCons(mask, bars);
      NoLeadingStar(mask[1..], bars);
      UnescapedCons(mask[0], CharExprs(mask[1..]) + bars);
    }
  }

  lemma {:induction false} BarsUnescaped(bars: string)
    requires forall i :: 0 <= i < |bars| ==> bars[i] == '|'
    ensures Unescaped(bars)
  {
    if bars != "" {
      BarsUnescaped(bars[1..]);
    }
  }

  lemma UnescapedCons(c: char, tail: string)
    requires Unescaped(tail) && (tail == "" || tail[0] != '*')
    ensures Unescaped(".*" + tail) && Unescaped("." + tail) && Unescaped(QuoteChar(c) + tail)
  {
  }

  lemma {:induction false} JoinBars(first: string, n: nat)
    ensures exists bars :: Join([first] + Blanks(n), "|") == first + bars
              && |bars| == n && (forall i :: 0 <= i < |bars| ==> bars[i] == '|')
    decreases n
  {
    if n == 0 {
      assert Join([first] + Blanks(0), "|") == first + "";
    } else {
      JoinCons(first, Blanks(n), "|");
      assert Blanks(n) == [""] + Blanks(n - 1);
      JoinBars("", n - 1);
      var bars :| Join([""] + Blanks(n - 1), "|") == "" + bars
              && |bars| == n - 1 && (forall i :: 0 <= i < |bars| ==> bars[i] == '|');
      assert Join([first] + Blanks(n), "|") == first + ("|" + bars);
    }
  }

  lemma SetExprOfMany(n: nat, last: Name)
    requires n >= 2
    ensures exists text :: Unescaped(text) && SetExpr(n, last) == "^" + (text + "|$")
  {
    hide MaskExpr, CharExprs, Unescaped, Join;
    MaskIsCharExprs(last);
    JoinBars(CharExprs(last), n - 1);
    var bars :| Join([CharExprs(last)] + Blanks(n - 1), "|") == CharExprs(last) + bars
            && |bars| == n - 1 && (forall i :: 0 <= i < |bars| ==> bars[i] == '|');
    var fewer := bars[..|bars| - 1];
    assert bars == fewer + "|";
    CharExprsUnescaped(last, fewer);
    var text := CharExprs(last) + fewer;
    assert SetExpr(n, last) == "^" + (text + "|$");
  }

  /** An expression that ends in a bar and the end anchor is found in every text. */
  lemma EndAnchorMatches(text: string, s: string)
    requires Unescaped(text)
    ensures MatchString("^" + (text + "|$"), s)
  {
    hide Lex, Unescaped, Alternatives;
    var expr := "^" + (text + "|$");
    LexAnchored(text + "|$");
    LexBarEnd(text);
    var tokens :| Lex(text + "|$") == tokens + [Bar, End];
    assert Lex(expr) == ([Start] + tokens) + [Bar] + [End];
    LastAlternative([Start] + tokens, [End]);
    var all := Alternatives(Lex(expr));
    assert [End][1..] == [];
    assert MatchAt(all[|all| - 1], s, |s|);
  }

  /** Two or more masks leave an alternative that is the end anchor alone. */
  lemma ManyMasksMatchEverything(n: nat, last: Name, s: string)
    requires n >= 2
    ensures MatchString(SetExpr(n, last), s)
  {
    hide SetExpr, Unescaped, MatchString;
    SetExprOfMany(n, last);
    var text :| Unescaped(text) && SetExpr(n, last) == "^" + (text + "|$");
    EndAnchorMatches(text, s);
  }

  /** What the compiled expression of a set accepts. */
  lemma SetExprMatches(masks: set<Name>, last: Name, s: string)
    requires last in masks
    ensures |masks| > 0
    ensures MatchString(SetExpr(|masks|, last), s) <==> Match(masks, s)
  {
    assert masks - {last} + {last} == masks;
    if |masks| >= 2 {
      ManyMasksMatchEverything(|masks|, last, s);
    } else {
      assert masks - {last} == {};
      OneMaskMatches(last, s);
    }
  }

  // --------------------------------------------------------------- the stated intent

  /** The set matches exactly what one of its masks matches. */
  ghost predicate UnionLaw(masks: set<Name>, s: string) {
    Match(masks, s) <==> exists mask :: mask in masks && Glob(mask, s)
  }

  /** For one text the law holds exactly if there are fewer than two masks or one of them matches. */
  lemma UnionLawHere(masks: set<Name>, s: string)
    ensures UnionLaw(masks, s) <==> |masks| < 2 || exists mask :: mask in masks && Glob(mask, s)
  {
  }

  predicate Selective(mask: Name) {
    exists i :: 0 <= i < |mask| && mask[i] != '*'
  }

  lemma {:induction false} SelectiveRefusesNothing(mask: Name)
    requires Selective(mask)
    ensures !Glob(mask, "")
  {
    if mask[0] == '*' {
      var i :| 0 <= i < |mask| && mask[i] != '*';
      assert mask[1..][i - 1] == mask[i];
      SelectiveRefusesNothing(mask[1..]);
    }
  }

  lemma {:induction false} StarsMatchAll(mask: Name, s: string)
    requires mask != "" && !Selective(mask) && '\n' !in s
    ensures Glob(mask, s)
    decreases |mask| + |s|
  {
    assert mask[0] == '*';
    if s != "" {
      StarsMatchAll(mask, s[1..]);
    } else if |mask| > 1 {
      assert forall i :: 0 <= i < |mask[1..]| ==> mask[1..][i] == mask[i + 1];
      StarsMatchAll(mask[1..], s);
    }
  }

  /**
   * On text without line ends, the law holds exactly if there are fewer than two masks or one is of stars alone.
   * The empty mask is never in a list: a mode change without a mask only shows it, and an invitation is not empty.
   */
  lemma UnionLawExactly(masks: set<Name>)
    requires "" !in masks
    ensures (forall s :: '\n' !in s ==> UnionLaw(masks, s))
       <==> |masks| < 2 || exists mask :: mask in masks && !Selective(mask)
  {
    hide Glob;
    if stars :| stars in masks && !Selective(stars) {
      forall s | '\n' !in s
        ensures UnionLaw(masks, s)
      {
        StarsMatchAll(stars, s);
      }
    } else if |masks| >= 2 {
      forall mask | mask in masks
        ensures !Glob(mask, "")
      {
        SelectiveRefusesNothing(mask);
      }
      assert !UnionLaw(masks, "");
    } else {
      forall s
        ensures UnionLaw(masks, s)
      {
        UnionLawHere(masks, s);
      }
    }
  }

  /** With two bans, someone neither of them names is banned. */
  lemma TwoBansBanEverybody(userhost: Name)
    ensures Match({"mallory!*@*", "eve!*@*"}, userhost)
  {
  }
}
