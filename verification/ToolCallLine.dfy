/** The one-line tool-call protocol
      `<skill> '<arg>' '<arg>' > <expectation>`
    of crates/agents/src/parse_tool_call.rs: its printer, its quote- and
    escape-aware parser, and the proof that the two undo each other.

    The parser's byte loops are modelled on characters: every byte they compare
    with is ASCII, and no byte of a multi-byte character is. */
module ToolCallLine {
  import opened Text

  /** A parsed call.  `named` holds the arguments of the parameter-tag form and
      is empty for a call read from a line. */
  datatype ToolCall = ToolCall(
    skill: string,
    args: seq<string>,
    expectation: string,
    named: seq<(string, string)>)

  // ---------------------------------------------------------------- printing

  function EscapeChar(c: char): string {
    if c == '\\' then "\\\\"
    else if c == '\'' then "\\'"
    else if c == '\n' then "\\n"
    else if c == '\t' then "\\t"
    else [c]
  }

  function Escape(a: string): string {
    if a == "" then "" else EscapeChar(a[0]) + Escape(a[1..])
  }

  function Quoted(a: string): string { "'" + Escape(a) + "'" }

  function RenderedArgs(args: seq<string>): string
    decreases |args|, 1
  {
    if args == [] then "" else " " + Shown(args)
  }

  /** The rendered arguments without the space in front of the first. */
  function Shown(args: seq<string>): string
    requires args != []
    decreases |args|, 0
  {
    Quoted(args[0]) + RenderedArgs(args[1..])
  }

  function Rendered(skill: string, args: seq<string>): string {
    skill + RenderedArgs(args)
  }

  method Render(skill: string, args: seq<string>) returns (out: string)
    ensures out == Rendered(skill, args)
  {
    out := skill;
    for i := 0 to |args|
      invariant out + RenderedArgs(args[i..]) == Rendered(skill, args)
    {
      ghost var before, more := out, RenderedArgs(args[i + 1..]);
      assert args[i..][1..] == args[i + 1..];
      assert RenderedArgs(args[i..]) == " " + (Quoted(args[i]) + more);
      out := out + " ";
      var shown := RenderQuoted(args[i]);
      out := out + shown;
      assert out + more == before + (" " + (Quoted(args[i]) + more));
    }
    assert out + RenderedArgs([]) == out;
  }

  /** The inner loop of `render`. */
  method RenderQuoted(a: string) returns (out: string)
    ensures out == Quoted(a)
  {
    out := "'";
    for j := 0 to |a|
      invariant out + Escape(a[j..]) == "'" + Escape(a)
    {
      assert a[j..][1..] == a[j + 1..];
      assert out + (EscapeChar(a[j]) + Escape(a[j + 1..])) == (out + EscapeChar(a[j])) + Escape(a[j + 1..]);
      if a[j] == '\\' {
        out := out + "\\\\";
      } else if a[j] == '\'' {
        out := out + "\\'";
      } else if a[j] == '\n' {
        out := out + "\\n";
      } else if a[j] == '\t' {
        out := out + "\\t";
      } else {
        out := out + [a[j]];
      }
    }
    assert out + Escape("") == out;
    out := out + "'";
  }

  // ----------------------------------------------------------------- parsing

  predicate IsNameChar(c: char) { IsLower(c) || IsDigit(c) || c == '-' }

  /** `[a-z][a-z0-9-]*` */
  predicate IsSkillName(s: string) {
    s != "" && IsLower(s[0]) && forall i :: 0 <= i < |s| ==> IsNameChar(s[i])
  }

  /** Where the run of name characters that covers `s[..i]` ends, provided that
      white space ends it. */
  function NameEnd(s: string, i: nat): Option<nat>
    requires i <= |s|
    decreases |s| - i
  {
    if i == |s| then None
    else if IsNameChar(s[i]) then NameEnd(s, i + 1)
    else if IsSpace(s[i]) then Some(i)
    else None
  }

  function NameAndRest(s: string): Option<(string, string)> {
    if s == "" || !IsLower(s[0]) then None
    else match NameEnd(s, 1)
      case Some(i) => if i <= |s| then Some((s[..i], s[i..])) else None
      case None => None
  }

  method TakeSkillName(s: string) returns (r: Option<(string, string)>)
    ensures r == NameAndRest(s)
  {
    if s == "" || !IsLower(s[0]) { return None; }
    var i := 1;
    while i < |s|
      invariant 1 <= i <= |s|
      invariant NameEnd(s, 1) == NameEnd(s, i)
    {
      if IsNameChar(s[i]) {
        i := i + 1;
      } else if IsSpace(s[i]) {
        return Some((s[..i], s[i..]));
      } else {
        return None;
      }
    }
    return None;
  }

  /** The scanner behind `split_on_expectation`, from offset `i` on: the first
      `>` between ASCII spaces that lies outside quotes. */
  function SplitFrom(s: string, i: nat, quote: Option<char>, escaped: bool): (r: Option<nat>)
    ensures r.Some? ==> 0 < r.value && r.value + 1 < |s| && s[r.value] == '>'
                        && IsAsciiSpace(s[r.value - 1]) && IsAsciiSpace(s[r.value + 1])
    decreases |s| - i
  {
    if i >= |s| then None
    else if escaped then SplitFrom(s, i + 1, quote, false)
    else match quote
      case Some(q) =>
        if s[i] == '\\' then SplitFrom(s, i + 1, quote, true)
        else if s[i] == q then SplitFrom(s, i + 1, None, false)
        else SplitFrom(s, i + 1, quote, false)
      case None =>
        if IsQuote(s[i]) then SplitFrom(s, i + 1, Some(s[i]), false)
        else if s[i] == '>' && i > 0 && IsAsciiSpace(s[i - 1]) && i + 1 < |s| && IsAsciiSpace(s[i + 1]) then Some(i)
        else SplitFrom(s, i + 1, None, false)
  }

  function ArgsAndExpectation(s: string): Option<(string, string)> {
    match SplitFrom(s, 0, None, false)
    case Some(i) => Some((TrimEnd(s[..i]), TrimStart(s[i + 1..])))
    case None => None
  }

  method SplitOnExpectation(s: string) returns (r: Option<(string, string)>)
    ensures r == ArgsAndExpectation(s)
  {
    var i := 0;
    var quote: Option<char> := None;
    var escaped := false;
    while i < |s|
      invariant 0 <= i <= |s|
      invariant SplitFrom(s, 0, None, false) == SplitFrom(s, i, quote, escaped)
    {
      var b := s[i];
      if escaped {
        escaped := false;
        i := i + 1;
        continue;
      }
      match quote {
        case Some(q) =>
          if b == '\\' {
            escaped := true;
          } else if b == q {
            quote := None;
          }
        case None =>
          if b == '\'' || b == '"' {
            quote := Some(b);
          } else if b == '>' && i > 0 && IsAsciiSpace(s[i - 1]) && i + 1 < |s| && IsAsciiSpace(s[i + 1]) {
            return Some((TrimEnd(s[..i]), TrimStart(s[i + 1..])));
          }
      }
      i := i + 1;
    }
    return None;
  }

  /** What a backslash followed by `c` stands for inside a quoted argument. */
  function Unescape(c: char): string {
    if c == 'n' then "\n"
    else if c == 't' then "\t"
    else if c == 'r' then "\r"
    else if c == '\\' || c == '\'' || c == '"' then [c]
    else ['\\', c]
  }

  /** Read on inside a quoted argument: the finished argument (with `buf` in
      front of it) and the text behind its closing quote. */
  function ReadQuoted(q: char, s: string, buf: string): (r: Option<(string, string)>)
    ensures r.Some? ==> |r.value.1| < |s|
    decreases |s|
  {
    if s == "" then None
    else if s[0] == '\\' then
      if |s| == 1 then None else ReadQuoted(q, s[2..], buf + Unescape(s[1]))
    else if s[0] == q then Some((buf, s[1..]))
    else ReadQuoted(q, s[1..], buf + [s[0]])
  }

  function TokensFrom(s: string, out: seq<string>): Option<seq<string>>
    decreases |s|
  {
    if s == "" then Some(out)
    else if IsSpace(s[0]) then TokensFrom(s[1..], out)
    else if IsQuote(s[0]) then
      match ReadQuoted(s[0], s[1..], "")
      case Some((arg, rest)) => TokensFrom(rest, out + [arg])
      case None => None
    else Some(out + [Trim(s)])
  }

  function Tokens(argsPart: string): Option<seq<string>> {
    TokensFrom(Trim(argsPart), [])
  }

  /** The inner loop of `tokenize_args`; `rest` is what its iterator has left. */
  method ReadQuotedArg(q: char, s: string) returns (r: Option<(string, string)>)
    ensures r == ReadQuoted(q, s, "")
  {
    var buf := "";
    var rest := s;
    while rest != ""
      invariant ReadQuoted(q, s, "") == ReadQuoted(q, rest, buf)
      decreases |rest|
    {
      var c := rest[0];
      if c == '\\' {
        if |rest| == 1 { return None; }
        buf := buf + Unescape(rest[1]);
        rest := rest[2..];
      } else if c == q {
        return Some((buf, rest[1..]));
      } else {
        buf := buf + [c];
        rest := rest[1..];
      }
    }
    return None;
  }

  method TokenizeArgs(argsPart: string) returns (r: Option<seq<string>>)
    ensures r == Tokens(argsPart)
  {
    var rest := Trim(argsPart);
    var out: seq<string> := [];
    while rest != ""
      invariant Tokens(argsPart) == TokensFrom(rest, out)
      decreases |rest|
    {
      if IsSpace(rest[0]) {
        rest := rest[1..];
      } else if IsQuote(rest[0]) {
        var token := ReadQuotedArg(rest[0], rest[1..]);
        if token.None? { return None; }
        out := out + [token.value.0];
        rest := token.value.1;
      } else {
        return Some(out + [Trim(rest)]);
      }
    }
    return Some(out);
  }

  /** The part of the line behind the skill name. */
  function ParsedRest(skill: string, rest: string): Option<ToolCall> {
    match ArgsAndExpectation(rest)
    case None => None
    case Some((argsPart, expectation)) =>
      match Tokens(argsPart)
      case None => None
      case Some(args) => Some(ToolCall(skill, args, Trim(expectation), []))
  }

  function Parsed(line: string): Option<ToolCall> {
    match NameAndRest(Trim(line))
    case None => None
    case Some((skill, rest)) => ParsedRest(skill, TrimStart(rest))
  }

  method ParseLine(line: string) returns (r: Option<ToolCall>)
    ensures r == Parsed(line)
  {
    var name := TakeSkillName(Trim(line));
    if name.None? { return None; }
    var split := SplitOnExpectation(TrimStart(name.value.1));
    if split.None? { return None; }
    var args := TokenizeArgs(split.value.0);
    if args.None? { return None; }
    return Some(ToolCall(name.value.0, args.value, Trim(split.value.1), []));
  }

  // ------------------------------------------------- the parser on any input

  lemma {:induction false} NameEndFinds(s: string, i: nat)
    requires i <= |s| && forall k :: 0 <= k < i ==> IsNameChar(s[k])
    ensures var r := NameEnd(s, i);
            r.Some? ==> i <= r.value < |s| && IsSpace(s[r.value])
                        && forall k :: 0 <= k < r.value ==> IsNameChar(s[k])
    decreases |s| - i
  {
    if i < |s| && IsNameChar(s[i]) { NameEndFinds(s, i + 1); }
  }

  /** The tokenizer only adds tokens, and adds one for any text at all. */
  lemma {:induction false} TokensGrow(s: string, out: seq<string>)
    ensures var r := TokensFrom(s, out);
            r.Some? ==> |r.value| >= |out| && (!Blank(s) ==> |r.value| > |out|)
    decreases |s|
  {
    if s != "" {
      if IsSpace(s[0]) {
        TokensGrow(s[1..], out);
        if !Blank(s) {
          var k :| 0 <= k < |s| && !IsSpace(s[k]);
          assert !IsSpace(s[1..][k - 1]);
        }
      } else if IsQuote(s[0]) {
        var token := ReadQuoted(s[0], s[1..], "");
        if token.Some? { TokensGrow(token.value.1, out + [token.value.0]); }
      }
    }
  }

  /** A split leaves text on both sides. */
  lemma {:induction false} SplitShape(rest: string)
    requires rest != "" && !IsSpace(rest[0]) && !IsSpace(rest[|rest| - 1])
    requires ArgsAndExpectation(rest).Some?
    ensures !Blank(ArgsAndExpectation(rest).value.0) && Trim(ArgsAndExpectation(rest).value.1) != ""
  {}

  lemma {:induction false} TokensSome(argsPart: string)
    requires !Blank(argsPart) && Tokens(argsPart).Some?
    ensures Tokens(argsPart).value != []
  {
    var t := Trim(argsPart);
    TrimBlank(argsPart);
    assert !Blank(t) by { assert !IsSpace(t[0]); }
    TokensGrow(t, []);
  }

  lemma {:induction false} ParsedRestShape(skill: string, rest: string)
    requires rest != "" && !IsSpace(rest[0]) && !IsSpace(rest[|rest| - 1])
    requires ParsedRest(skill, rest).Some?
    ensures var call := ParsedRest(skill, rest).value;
            && call.skill == skill
            && call.args != []
            && call.expectation != "" && Trim(call.expectation) == call.expectation
            && call.named == []
  {
    SplitShape(rest);
    var (argsPart, expectation) := ArgsAndExpectation(rest).value;
    TokensSome(argsPart);
    TrimFixed(Trim(expectation));
  }

  /** The name and the trimmed remainder of a trimmed line. */
  lemma {:induction false} NameShape(s: string)
    requires s != "" && !IsSpace(s[|s| - 1])
    requires NameAndRest(s).Some?
    ensures var (name, rest) := NameAndRest(s).value;
            var t := TrimStart(rest);
            IsSkillName(name) && t != "" && !IsSpace(t[|t| - 1])
  {
    NameEndFinds(s, 1);
    var i := NameEnd(s, 1).value;
    var rest := s[i..];
    assert rest[|rest| - 1] == s[|s| - 1];
    assert !Blank(rest);
    TrimBlank(rest);
  }

  /** Whatever line it is given, the parser accepts only calls that name a
      well-formed skill, carry an argument and state an expectation. */
  lemma {:induction false} ParsedShape(line: string)
    ensures Parsed(line).Some? ==> IsProper(Parsed(line).value)
  {
    if Parsed(line).Some? {
      var s := Trim(line);
      NameShape(s);
      var (name, rest) := NameAndRest(s).value;
      ParsedRestShape(name, TrimStart(rest));
    }
  }

  predicate IsProper(call: ToolCall) {
    && IsSkillName(call.skill)
    && call.args != []
    && call.expectation != "" && Trim(call.expectation) == call.expectation
    && call.named == []
  }

  // -------------------------------------------------------------- round trip

  lemma {:induction false} MatchParts(s: string, i: nat, x: string, y: string)
    requires MatchAt(s, i, x + y)
    ensures MatchAt(s, i, x) && MatchAt(s, i + |x|, y)
  {
    assert forall k :: 0 <= k < |x| ==> (x + y)[k] == x[k];
    assert forall k :: 0 <= k < |y| ==> (x + y)[|x| + k] == y[k];
  }

  lemma {:induction false} SplitSkipsChar(s: string, i: nat, c: char)
    requires MatchAt(s, i, EscapeChar(c))
    ensures SplitFrom(s, i, Some('\''), false) == SplitFrom(s, i + |EscapeChar(c)|, Some('\''), false)
  {
    var e := EscapeChar(c);
    assert s[i] == e[0];
    if |e| == 2 {
      assert SplitFrom(s, i, Some('\''), false) == SplitFrom(s, i + 1, Some('\''), true);
      assert SplitFrom(s, i + 1, Some('\''), true) == SplitFrom(s, i + 2, Some('\''), false);
    }
  }

  lemma {:induction false} EscapeStep(s: string, i: nat, a: string)
    requires a != "" && MatchAt(s, i, Escape(a))
    ensures MatchAt(s, i, EscapeChar(a[0])) && MatchAt(s, i + |EscapeChar(a[0])|, Escape(a[1..]))
    ensures |Escape(a)| == |EscapeChar(a[0])| + |Escape(a[1..])|
  {
    MatchParts(s, i, EscapeChar(a[0]), Escape(a[1..]));
  }

  /** Inside quotes the splitter reads over an escaped argument. */
  lemma {:induction false} SplitSkipsEscaped(s: string, i: nat, a: string)
    requires MatchAt(s, i, Escape(a))
    ensures SplitFrom(s, i, Some('\''), false) == SplitFrom(s, i + |Escape(a)|, Some('\''), false)
    decreases |a|
  {
    if a != "" {
      EscapeStep(s, i, a);
      SplitSkipsChar(s, i, a[0]);
      SplitSkipsEscaped(s, i + |EscapeChar(a[0])|, a[1..]);
    }
  }

  lemma {:induction false} QuotedParts(s: string, i: nat, a: string)
    requires MatchAt(s, i, Quoted(a))
    ensures s[i] == '\'' && MatchAt(s, i + 1, Escape(a)) && s[i + 1 + |Escape(a)|] == '\''
  {
    MatchParts(s, i, "'" + Escape(a), "'");
    MatchParts(s, i, "'", Escape(a));
    assert "'"[0] == '\'';
  }

  lemma {:induction false} SplitSkipsQuoted(s: string, i: nat, a: string)
    requires MatchAt(s, i, Quoted(a))
    ensures SplitFrom(s, i, None, false) == SplitFrom(s, i + |Quoted(a)|, None, false)
  {
    QuotedParts(s, i, a);
    SplitSkipsEscaped(s, i + 1, a);
  }

  /** A text the scan passes over wherever it meets it outside quotes. */
  ghost predicate Passed(x: string) {
    forall s, i: nat :: MatchAt(s, i, x) ==> SplitFrom(s, i, None, false) == SplitFrom(s, i + |x|, None, false)
  }

  lemma {:induction false} QuotedIsPassed(a: string)
    ensures Passed(Quoted(a))
  {
    forall s, i: nat | MatchAt(s, i, Quoted(a))
      ensures SplitFrom(s, i, None, false) == SplitFrom(s, i + |Quoted(a)|, None, false)
    {
      SplitSkipsQuoted(s, i, a);
    }
  }

  lemma {:induction false} SpaceIsPassed()
    ensures Passed(" ")
  {
    forall s, i: nat | MatchAt(s, i, " ")
      ensures SplitFrom(s, i, None, false) == SplitFrom(s, i + 1, None, false)
    {
      assert s[i] == " "[0];
    }
  }

  lemma {:induction false} BothArePassed(x: string, y: string)
    requires Passed(x) && Passed(y)
    ensures Passed(x + y)
  {
    forall s, i: nat | MatchAt(s, i, x + y)
      ensures SplitFrom(s, i, None, false) == SplitFrom(s, i + |x + y|, None, false)
    {
      MatchParts(s, i, x, y);
    }
  }

  lemma {:induction false} ArgsArePassed(args: seq<string>)
    ensures Passed(RenderedArgs(args))
    decreases |args|, 1
  {
    if args != [] {
      SpaceIsPassed();
      ShownIsPassed(args);
      BothArePassed(" ", Shown(args));
    }
  }

  lemma {:induction false} ShownIsPassed(args: seq<string>)
    requires args != []
    ensures Passed(Shown(args))
    decreases |args|, 0
  {
    QuotedIsPassed(args[0]);
    ArgsArePassed(args[1..]);
    BothArePassed(Quoted(args[0]), RenderedArgs(args[1..]));
  }

  lemma {:induction false} SplitSkipsShown(s: string, i: nat, args: seq<string>)
    requires args != [] && MatchAt(s, i, Shown(args))
    ensures SplitFrom(s, i, None, false) == SplitFrom(s, i + |Shown(args)|, None, false)
  {
    ShownIsPassed(args);
  }

  /** The tokenizer undoes the escaping of one character. */
  lemma {:induction false} ReadEscapedChar(c: char, t: string, buf: string)
    ensures ReadQuoted('\'', EscapeChar(c) + t, buf) == ReadQuoted('\'', t, buf + [c])
  {}

  /** The tokenizer undoes the escaping of one argument. */
  lemma {:induction false} ReadEscaped(a: string, t: string, buf: string)
    requires t != "" && t[0] == '\''
    ensures ReadQuoted('\'', Escape(a) + t, buf) == Some((buf + a, t[1..]))
    decreases |a|
  {
    if a == "" {
      assert Escape(a) + t == t;
      assert buf + a == buf;
    } else {
      var more := Escape(a[1..]) + t;
      assert Escape(a) + t == EscapeChar(a[0]) + more;
      ReadEscapedChar(a[0], more, buf);
      ReadEscaped(a[1..], t, buf + [a[0]]);
      assert buf + [a[0]] + a[1..] == buf + a;
    }
  }

  /** Text that holds neither its own quote nor a known escape is read as
      written, backslashes included. */
  predicate Plain(q: char, a: string) {
    forall i :: 0 <= i < |a|
        ==> a[i] != q && (a[i] == '\\' ==> i + 1 < |a| && |Unescape(a[i + 1])| == 2 && a[i + 1] != q)
  }

  lemma {:induction false} PlainTail(q: char, a: string, n: nat)
    requires Plain(q, a) && n <= |a|
    ensures Plain(q, a[n..])
  {
    var b := a[n..];
    forall i | 0 <= i < |b|
      ensures b[i] != q && (b[i] == '\\' ==> i + 1 < |b| && |Unescape(b[i + 1])| == 2 && b[i + 1] != q)
    {
      var j := n + i;
      assert b[i] == a[j];
      assert a[j] == '\\' ==> j + 1 < |a| && |Unescape(a[j + 1])| == 2 && a[j + 1] != q;
      assert i + 1 < |b| ==> b[i + 1] == a[j + 1];
    }
  }

  lemma {:induction false} PlainEscape(q: char, a: string)
    requires Plain(q, a) && a != "" && a[0] == '\\'
    ensures |a| >= 2 && a[1] != q && Unescape(a[1]) == a[..2]
  {}

  lemma {:induction false} PlainIsKept(q: char, a: string, t: string, buf: string)
    requires IsQuote(q) && Plain(q, a) && t != "" && t[0] == q
    ensures ReadQuoted(q, a + t, buf) == Some((buf + a, t[1..]))
    decreases |a|
  {
    if a == "" {
      assert a + t == t && buf + a == buf;
    } else if a[0] == '\\' {
      PlainEscape(q, a);
      PlainTail(q, a, 2);
      assert (a + t)[2..] == a[2..] + t;
      PlainIsKept(q, a[2..], t, buf + a[..2]);
      assert buf + a[..2] + a[2..] == buf + a;
    } else {
      PlainTail(q, a, 1);
      assert (a + t)[1..] == a[1..] + t;
      PlainIsKept(q, a[1..], t, buf + [a[0]]);
      assert buf + [a[0]] + a[1..] == buf + a;
    }
  }

  /** The escapes the contract documents, each with the character it stands for,
      read alike in either kind of quotes. */
  lemma {:induction false} KnownEscape(q: char, c: char, meant: char, t: string, buf: string)
    requires IsQuote(q)
    requires (c == 'n' && meant == '\n') || (c == 't' && meant == '\t') || (c == 'r' && meant == '\r')
             || ((c == '\\' || c == '\'' || c == '"') && meant == c)
    ensures ReadQuoted(q, ['\\', c] + t, buf) == ReadQuoted(q, t, buf + [meant])
  {}

  lemma {:induction false} TokensOfRendered(args: seq<string>, out: seq<string>)
    ensures TokensFrom(RenderedArgs(args), out) == Some(out + args)
    decreases |args|
  {
    if args == [] {
      assert out + args == out;
    } else {
      assert (" " + Shown(args))[1..] == Shown(args);
      TokensOfShown(args, out);
    }
  }

  lemma {:induction false} TokensOfShown(args: seq<string>, out: seq<string>)
    requires args != []
    ensures TokensFrom(Shown(args), out) == Some(out + args)
    decreases |args|, 0
  {
    FirstToken(args[0], RenderedArgs(args[1..]), out);
    TokensOfRendered(args[1..], out + [args[0]]);
    assert out + [args[0]] + args[1..] == out + args;
  }

  lemma {:induction false} FirstToken(a: string, more: string, out: seq<string>)
    ensures TokensFrom(Quoted(a) + more, out) == TokensFrom(more, out + [a])
  {
    var t := "'" + more;
    var s := Quoted(a) + more;
    assert s == "'" + (Escape(a) + t);
    assert s[1..] == Escape(a) + t;
    ReadEscaped(a, t, "");
    assert t[1..] == more && "" + a == a;
  }

  lemma {:induction false} NameEndIs(skill: string, rest: string, i: nat)
    requires IsSkillName(skill) && i <= |skill| && rest != "" && IsSpace(rest[0])
    ensures NameEnd(skill + rest, i) == Some(|skill|)
    decreases |skill| - i
  {
    var s := skill + rest;
    if i < |skill| {
      assert s[i] == skill[i];
      NameEndIs(skill, rest, i + 1);
    } else {
      assert s[i] == rest[0];
    }
  }

  lemma {:induction false} SplitHere(s: string, n: nat)
    requires n + 2 < |s| && s[n] == ' ' && s[n + 1] == '>' && s[n + 2] == ' '
    ensures SplitFrom(s, n, None, false) == Some(n + 1)
  {}

  lemma {:induction false} ShownEnds(args: seq<string>)
    requires args != []
    ensures var s := Shown(args); s != "" && s[0] == '\'' && s[|s| - 1] == '\''
    decreases |args|
  {
    if |args| > 1 { ShownEnds(args[1..]); }
  }

  /** A text whose first separator stands at its own end splits there. */
  lemma {:induction false} SplitAtEnd(left: string, e: string)
    requires left != "" && !IsSpace(left[|left| - 1]) && e != ""
    requires SplitFrom(left + " > " + e, 0, None, false) == SplitFrom(left + " > " + e, |left|, None, false)
    ensures ArgsAndExpectation(left + " > " + e) == Some((left, TrimStart(e)))
  {
    var s := left + " > " + e;
    var n := |left|;
    SplitHere(s, n);
    assert s[..n + 1] == left + " ";
    TrimEndSuffix(left, " ");
    assert s[n + 2..] == " " + e;
    TrimStartPrefix(" ", e);
  }

  /** What is left of the line behind the skill name splits where the rendered
      arguments end. */
  lemma {:induction false} SplitOfRendered(args: seq<string>, e: string)
    requires args != [] && e != ""
    ensures ArgsAndExpectation(Shown(args) + " > " + e) == Some((Shown(args), TrimStart(e)))
  {
    var shown := Shown(args);
    ShownEnds(args);
    assert (shown + " > " + e)[0..|shown|] == shown;
    SplitSkipsShown(shown + " > " + e, 0, args);
    SplitAtEnd(shown, e);
  }

  /** The skill name comes off a printed line. */
  lemma {:induction false} NameOfLine(skill: string, rest: string, e: string)
    requires IsSkillName(skill) && rest != "" && IsSpace(rest[0]) && !Blank(e)
    ensures NameAndRest(Trim(skill + rest + e)) == Some((skill, rest + TrimEnd(e)))
  {
    TrimEndKeeps(skill + rest, e);
    var line := skill + rest + e;
    var kept := rest + TrimEnd(e);
    assert line[0] == skill[0];
    assert TrimStart(line) == line;
    assert TrimEnd(line) == skill + kept;
    NameEndIs(skill, kept, 1);
    assert (skill + kept)[..|skill|] == skill && (skill + kept)[|skill|..] == kept;
  }

  lemma {:induction false} TokensOfTrimmed(s: string)
    requires s != "" && !IsSpace(s[0]) && !IsSpace(s[|s| - 1])
    ensures Tokens(s) == TokensFrom(s, [])
  {
    TrimFixed(s);
  }

  lemma {:induction false} TokensOfShownArgs(args: seq<string>)
    requires args != []
    ensures Tokens(Shown(args)) == Some(args)
  {
    ShownEnds(args);
    TokensOfTrimmed(Shown(args));
    TokensOfShown(args, []);
    assert [] + args == args;
  }

  lemma {:induction false} RestParses(skill: string, rest: string, argsPart: string, e: string, args: seq<string>)
    requires ArgsAndExpectation(rest) == Some((argsPart, TrimStart(e))) && Tokens(argsPart) == Some(args)
    ensures ParsedRest(skill, rest) == Some(ToolCall(skill, args, Trim(e), []))
  {}

  lemma {:induction false} ParsedIs(line: string, skill: string, rest: string)
    requires NameAndRest(Trim(line)) == Some((skill, rest))
    ensures Parsed(line) == ParsedRest(skill, TrimStart(rest))
  {}

  lemma {:induction false} NameOfSpaced(skill: string, rest: string, e: string)
    requires IsSkillName(skill) && rest != "" && !IsSpace(rest[0]) && !Blank(e)
    ensures NameAndRest(Trim(skill + " " + rest + e)) == Some((skill, " " + rest + TrimEnd(e)))
    ensures TrimStart(" " + rest + TrimEnd(e)) == rest + TrimEnd(e)
  {
    NameOfLine(skill, " " + rest, e);
    assert skill + " " + rest + e == skill + (" " + rest) + e;
    SpaceInFront(rest, TrimEnd(e));
  }

  lemma {:induction false} SpaceInFront(a: string, b: string)
    requires a != "" && !IsSpace(a[0])
    ensures TrimStart(" " + a + b) == a + b
  {
    var m := a + b;
    assert " " + a + b == " " + m;
    TrimStartPrefix(" ", m);
    assert TrimStart(m) == m;
  }

  lemma {:induction false} LineParses(skill: string, rest: string, e: string)
    requires IsSkillName(skill) && rest != "" && !IsSpace(rest[0]) && !Blank(e)
    ensures Parsed(skill + " " + rest + e) == ParsedRest(skill, rest + TrimEnd(e))
  {
    NameOfSpaced(skill, rest, e);
    ParsedIs(skill + " " + rest + e, skill, " " + rest + TrimEnd(e));
  }

  lemma {:induction false} RestOfRendered(skill: string, args: seq<string>, e: string)
    requires args != [] && e != ""
    ensures ParsedRest(skill, Shown(args) + " > " + e) == Some(ToolCall(skill, args, Trim(e), []))
  {
    SplitOfRendered(args, e);
    TokensOfShownArgs(args);
    RestParses(skill, Shown(args) + " > " + e, Shown(args), e, args);
  }

  lemma {:induction false} LineIsSpaced(skill: string, args: seq<string>, e: string)
    requires args != []
    ensures var rest := Shown(args) + " > ";
            !IsSpace(rest[0]) && skill + " " + rest + e == Rendered(skill, args) + " > " + e
  {}

  /** Any arguments whatever (quotes, backslashes, line breaks, ` > `) come back
      from a printed line. */
  lemma {:induction false} RenderedParses(skill: string, args: seq<string>, e: string)
    requires IsSkillName(skill) && args != [] && !Blank(e)
    ensures Parsed(Rendered(skill, args) + " > " + e) == Some(ToolCall(skill, args, Trim(e), []))
  {
    LineIsSpaced(skill, args, e);
    LineParses(skill, Shown(args) + " > ", e);
    TrimBlank(e);
    RestOfRendered(skill, args, TrimEnd(e));
    TrimAgain(e);
  }

  /** Print/parse round trip, with its exact domain: a printed call followed by
      an expectation is read back as itself if and only if the name is well
      formed, there is at least one argument, and the expectation is not blank. */
  lemma {:induction false} RoundTrip(skill: string, args: seq<string>, e: string)
    ensures Parsed(Rendered(skill, args) + " > " + e) == Some(ToolCall(skill, args, Trim(e), []))
            <==> IsSkillName(skill) && args != [] && !Blank(e)
  {
    if IsSkillName(skill) && args != [] && !Blank(e) {
      RenderedParses(skill, args, e);
    } else if Parsed(Rendered(skill, args) + " > " + e) == Some(ToolCall(skill, args, Trim(e), [])) {
      ParsedShape(Rendered(skill, args) + " > " + e);
      TrimBlank(e);
    }
  }

  /** A call without arguments is the printer's blind spot: its expectation is
      read as an argument or the line is refused. */
  lemma {:induction false} NoArgumentsDoNotParse(skill: string, e: string)
    ensures Parsed(Rendered(skill, []) + " > " + e) != Some(ToolCall(skill, [], Trim(e), []))
  {
    RoundTrip(skill, [], e);
  }

  function CanonicalLine(call: ToolCall): string {
    Rendered(call.skill, call.args) + " > " + call.expectation
  }

  /** Every line the parser accepts has a canonical spelling, and re-printing is
      a normal form: printing the parsed call and parsing it again gives the
      same call. */
  lemma {:induction false} ReprintingIsStable(line: string)
    ensures match Parsed(line) case Some(call) => Parsed(CanonicalLine(call)) == Some(call) case None => true
  {
    ParsedShape(line);
    if Parsed(line).Some? { CanonicalParses(Parsed(line).value); }
  }

  lemma {:induction false} CanonicalParses(call: ToolCall)
    requires IsProper(call)
    ensures Parsed(CanonicalLine(call)) == Some(call)
  {
    TrimBlank(call.expectation);
    RenderedParses(call.skill, call.args, call.expectation);
  }

  /** Exactly these calls can be written on a line. */
  lemma {:induction false} ExpressibleIff(call: ToolCall)
    ensures (exists line :: Parsed(line) == Some(call)) <==> IsProper(call)
  {
    if IsProper(call) { CanonicalParses(call); }
    if line :| Parsed(line) == Some(call) { ParsedShape(line); }
  }

  /** Two calls never print alike. */
  lemma {:induction false} RenderedInjective(skill: string, args: seq<string>, skill': string, args': seq<string>)
    requires IsSkillName(skill) && IsSkillName(skill') && Rendered(skill, args) == Rendered(skill', args')
    ensures skill == skill' && args == args'
  {
    SpaceIffArgs(skill, args);
    SpaceIffArgs(skill', args');
    if args != [] {
      assert !Blank("x") by { assert !IsSpace("x"[0]); }
      RenderedParses(skill, args, "x");
      RenderedParses(skill', args', "x");
    }
  }

  lemma {:induction false} SpaceIffArgs(skill: string, args: seq<string>)
    requires IsSkillName(skill)
    ensures args == [] ==> Rendered(skill, args) == skill
    ensures ' ' in Rendered(skill, args) <==> args != []
  {
    if args == [] {
      assert skill + RenderedArgs(args) == skill;
    } else {
      assert Rendered(skill, args)[|skill|] == ' ';
    }
  }

  // ------------------------------------------------------- names and bare text

  /** What a skill may be called, in characters. */
  lemma {:induction false} SkillNamesAre(s: string)
    ensures IsSkillName(s) <==>
              && |s| > 0 && 'a' <= s[0] <= 'z'
              && forall i :: 0 <= i < |s| ==> 'a' <= s[i] <= 'z' || '0' <= s[i] <= '9' || s[i] == '-'
  {}

  /** Text that stands bare between the skill and the separator. */
  predicate IsBare(b: string) {
    && b != "" && !IsSpace(b[0])
    && forall i :: 0 <= i < |b| ==> !IsQuote(b[i]) && b[i] != '>'
  }

  lemma {:induction false} BareIsPassed(s: string, i: nat, b: string)
    requires MatchAt(s, i, b) && forall k :: 0 <= k < |b| ==> !IsQuote(b[k]) && b[k] != '>'
    ensures SplitFrom(s, i, None, false) == SplitFrom(s, i + |b|, None, false)
    decreases |b|
  {
    if b != "" {
      assert s[i] == b[0];
      assert MatchAt(s, i + 1, b[1..]) by { assert forall k :: 0 <= k < |b| - 1 ==> b[1..][k] == b[k + 1]; }
      BareIsPassed(s, i + 1, b[1..]);
    }
  }

  /** Arguments in quotes, then a bare rest that starts at a character and ends at
      one. */
  function Mixed(args: seq<string>, b: string): string {
    if args == [] then b else Shown(args) + " " + b
  }

  lemma {:induction false} TokensOfBare(b: string, out: seq<string>)
    requires IsBare(b)
    ensures TokensFrom(b, out) == Some(out + [Trim(b)])
  {}

  lemma {:induction false} TokensBehind(a: string, more: string, out: seq<string>)
    ensures TokensFrom(Quoted(a) + " " + more, out) == TokensFrom(more, out + [a])
  {
    assert Quoted(a) + " " + more == Quoted(a) + (" " + more);
    FirstToken(a, " " + more, out);
    assert (" " + more)[1..] == more;
  }

  lemma {:induction false} MixedCons(args: seq<string>, b: string)
    requires args != []
    ensures Mixed(args, b) == Quoted(args[0]) + " " + Mixed(args[1..], b)
  {
    var rest := args[1..];
    if rest == [] {
      assert RenderedArgs(rest) == "";
      assert Shown(args) == Quoted(args[0]);
    } else {
      assert Shown(args) == Quoted(args[0]) + (" " + Shown(rest));
      assert Quoted(args[0]) + (" " + Shown(rest)) + " " + b == Quoted(args[0]) + " " + (Shown(rest) + " " + b);
    }
  }

  lemma {:induction false} TokensOfMixed(args: seq<string>, b: string, out: seq<string>)
    requires IsBare(b)
    ensures TokensFrom(Mixed(args, b), out) == Some(out + (args + [Trim(b)]))
    decreases |args|
  {
    if args == [] {
      TokensOfBare(b, out);
      assert args + [Trim(b)] == [Trim(b)];
    } else {
      MixedStep(args, b, out);
      TokensOfMixed(args[1..], b, out + [args[0]]);
      ListRegrouped(args, out, Trim(b));
    }
  }

  lemma {:induction false} MixedStep(args: seq<string>, b: string, out: seq<string>)
    requires args != []
    ensures TokensFrom(Mixed(args, b), out) == TokensFrom(Mixed(args[1..], b), out + [args[0]])
  {
    MixedCons(args, b);
    TokensBehind(args[0], Mixed(args[1..], b), out);
  }

  lemma {:induction false} ListRegrouped(args: seq<string>, out: seq<string>, last: string)
    requires args != []
    ensures out + [args[0]] + (args[1..] + [last]) == out + (args + [last])
  {}

  lemma {:induction false} MixedStarts(args: seq<string>, b: string)
    requires IsBare(b)
    ensures Mixed(args, b) != "" && !IsSpace(Mixed(args, b)[0])
    ensures !IsSpace(b[|b| - 1]) ==> !IsSpace(Mixed(args, b)[|Mixed(args, b)| - 1])
  {
    if args != [] { ShownEnds(args); }
  }

  lemma {:induction false} PlainIsPassed(b: string)
    requires forall k :: 0 <= k < |b| ==> !IsQuote(b[k]) && b[k] != '>'
    ensures Passed(b)
  {
    forall s, i: nat | MatchAt(s, i, b)
      ensures SplitFrom(s, i, None, false) == SplitFrom(s, i + |b|, None, false)
    {
      BareIsPassed(s, i, b);
    }
  }

  lemma {:induction false} MixedIsPassed(args: seq<string>, b: string)
    requires IsBare(b)
    ensures Passed(Mixed(args, b))
  {
    PlainIsPassed(b);
    if args != [] {
      ShownIsPassed(args);
      SpaceIsPassed();
      BothArePassed(Shown(args), " ");
      BothArePassed(Shown(args) + " ", b);
    }
  }

  /** A passed text that starts and ends in characters, in front of a separator. */
  lemma {:induction false} PassedParses(skill: string, left: string, args: seq<string>, e: string)
    requires left != "" && !IsSpace(left[0]) && !IsSpace(left[|left| - 1]) && Passed(left) && e != ""
    requires TokensFrom(left, []) == Some(args)
    ensures ParsedRest(skill, left + " > " + e) == Some(ToolCall(skill, args, Trim(e), []))
  {
    var s := left + " > " + e;
    assert MatchAt(s, 0, left);
    SplitAtEnd(left, e);
    TokensOfTrimmed(left);
    RestParses(skill, s, left, e, args);
  }

  lemma {:induction false} NothingInFront(xs: seq<string>)
    ensures [] + xs == xs
  {}

  lemma {:induction false} MixedParses(skill: string, args: seq<string>, b: string, e: string)
    requires IsBare(b) && !IsSpace(b[|b| - 1]) && e != ""
    ensures ParsedRest(skill, Mixed(args, b) + " > " + e) == Some(ToolCall(skill, args + [b], Trim(e), []))
  {
    var left := MixedParts(args, b);
    PassedParses(skill, left, args + [b], e);
  }

  lemma {:induction false} MixedParts(args: seq<string>, b: string) returns (left: string)
    requires IsBare(b) && !IsSpace(b[|b| - 1])
    ensures left == Mixed(args, b) && Passed(left) && TokensFrom(left, []) == Some(args + [b])
    ensures left != "" && !IsSpace(left[0]) && !IsSpace(left[|left| - 1])
  {
    left := Mixed(args, b);
    MixedStarts(args, b);
    MixedIsPassed(args, b);
    TrimFixed(b);
    TokensOfMixed(args, b, []);
    NothingInFront(args + [b]);
  }

  /** What stands bare behind the quoted arguments is one argument more, whatever
      spaces it holds. */
  lemma {:induction false} BareRestIsOneArgument(skill: string, args: seq<string>, b: string, e: string)
    requires IsSkillName(skill) && IsBare(b) && !IsSpace(b[|b| - 1]) && !Blank(e)
    ensures Parsed(skill + " " + (Mixed(args, b) + " > ") + e) == Some(ToolCall(skill, args + [b], Trim(e), []))
  {
    MixedStarts(args, b);
    LineParses(skill, Mixed(args, b) + " > ", e);
    TrimBlank(e);
    MixedParses(skill, args, b, TrimEnd(e));
    assert (Mixed(args, b) + " > ") + TrimEnd(e) == Mixed(args, b) + " > " + TrimEnd(e);
    TrimAgain(e);
  }
}
