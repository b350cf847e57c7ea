/** Markdown skill files: what the skill creator writes
    (crates/agents/src/skill_creator.rs) and what the loader reads back
    (crates/agents/src/md_skill.rs). */
module SkillFile {
  import opened Text

  // ---------------------------------------------------------------------- lines

  /** `join("\n")` */
  function Unlines(ls: seq<string>): string {
    if ls == [] then "" else if |ls| == 1 then ls[0] else ls[0] + "\n" + Unlines(ls[1..])
  }

  function DropBreaks(s: string): string {
    if s != "" && s[0] == '\n' then DropBreaks(s[1..]) else s
  }

  // -------------------------------------------------------------- the loader

  datatype Skill = Skill(
    name: string,
    description: string,
    positionals: seq<string>,
    skills: seq<string>,
    disableModelInvocation: bool,
    userInvocable: bool,
    toolMode: Option<string>,
    body: string)

  datatype Result = Ok(skill: Skill) | Malformed

  const DEFAULTS := Skill("", "", [], [], false, true, None, "")

  function TrimQuotes(s: string): string
    decreases |s|
  {
    if s != "" && IsQuote(s[0]) then TrimQuotes(s[1..])
    else if s != "" && IsQuote(s[|s| - 1]) then TrimQuotes(s[..|s| - 1])
    else s
  }

  function SplitKv(line: string): Option<(string, string)> {
    match Find(line, ":")
    case None => None
    case Some(i) =>
      var k := Trim(line[..i]);
      if k == "" then None else Some((k, TrimQuotes(Trim(line[i + 1..]))))
  }

  function Lower(s: string): string {
    if s == "" then "" else [ToLower(s[0])] + Lower(s[1..])
  }

  function YamlBool(v: string): Option<bool> {
    var w := Lower(Trim(v));
    if w == "true" || w == "yes" || w == "on" then Some(true)
    else if w == "false" || w == "no" || w == "off" then Some(false)
    else None
  }

  function OrElse(o: Option<bool>, default: bool): bool {
    match o case Some(b) => b case None => default
  }

  /** The words of a list, separated by commas and white space. */
  function Words(s: string, word: string): seq<string> {
    if s == "" then if word == "" then [] else [word]
    else if s[0] == ',' || IsSpace(s[0]) then (if word == "" then [] else [word]) + Words(s[1..], "")
    else Words(s[1..], word + [s[0]])
  }

  function DropFront(s: string, c: char): string {
    if s != "" && s[0] == c then DropFront(s[1..], c) else s
  }

  function DropBack(s: string, c: char): string {
    if s != "" && s[|s| - 1] == c then DropBack(s[..|s| - 1], c) else s
  }

  function SplitList(v: string): seq<string> { Words(DropBack(DropFront(Trim(v), '['), ']'), "") }

  /** What a key sets. */
  function WithKey(s: Skill, k: string, v: string): Skill {
    if k == "name" then s.(name := v)
    else if k == "description" then s.(description := v)
    else if k == "positional" then s.(positionals := SplitList(v))
    else if k == "skills" then s.(skills := SplitList(v))
    else if k == "disable-model-invocation" || k == "disable_model_invocation" then
      s.(disableModelInvocation := OrElse(YamlBool(v), false))
    else if k == "user-invocable" || k == "user_invocable" then s.(userInvocable := OrElse(YamlBool(v), true))
    else if k == "tool_mode" || k == "tool-mode" then s.(toolMode := Some(v))
    else s
  }

  /** What one frontmatter line sets. */
  function WithLine(s: Skill, line: string): Skill {
    match SplitKv(line)
    case None => s
    case Some((k, v)) => WithKey(s, k, v)
  }

  /** The frontmatter up to its closing delimiter, and the lines behind it. */
  function Front(lines: seq<string>, s: Skill): Option<(Skill, seq<string>)> {
    if lines == [] then None
    else if Trim(lines[0]) == "---" then Some((s, lines[1..]))
    else Front(lines[1..], WithLine(s, lines[0]))
  }

  const BOM := '\U{FEFF}'

  function Parsed(text: string): Result {
    var lines := Lines(text);
    if lines == [] || Trim(DropFront(lines[0], BOM)) != "---" then Malformed
    else match Front(lines[1..], DEFAULTS)
      case None => Malformed
      case Some((s, rest)) =>
        if s.name == "" then Malformed else Ok(s.(body := DropBreaks(Unlines(rest))))
  }

  method Parse(text: string) returns (r: Result)
    ensures r == Parsed(text)
  {
    var lines := Lines(text);
    if lines == [] || Trim(DropFront(lines[0], BOM)) != "---" { return Malformed; }
    var s := DEFAULTS;
    var i := 1;
    var closed := false;
    while i < |lines|
      invariant 1 <= i <= |lines| && !closed
      invariant Front(lines[1..], DEFAULTS) == Front(lines[i..], s)
    {
      assert lines[i..][1..] == lines[i + 1..];
      var line := lines[i];
      i := i + 1;
      if Trim(line) == "---" {
        closed := true;
        break;
      }
      s := WithLine(s, line);
    }
    if !closed || s.name == "" { return Malformed; }
    return Ok(s.(body := DropBreaks(Unlines(lines[i..]))));
  }

  // -------------------------------------------------------------- the creator

  predicate IsStemChar(c: char) { IsAlpha(c) || IsDigit(c) || c == '-' || c == '_' }

  predicate IsStem(name: string) {
    name != "" && forall i :: 0 <= i < |name| ==> IsStemChar(name[i])
  }

  /** `replace('\n', " ")` */
  function OneLine(s: string): (r: string)
    ensures |r| == |s| && forall i :: 0 <= i < |s| ==> r[i] == if s[i] == '\n' then ' ' else s[i]
  {
    if s == "" then "" else [if s[0] == '\n' then ' ' else s[0]] + OneLine(s[1..])
  }

  /** The body with the one line break at its end that the file needs. */
  function Ended(body: string): string {
    if body != "" && body[|body| - 1] == '\n' then body else body + "\n"
  }

  const DELIMITER := "---"

  /** A frontmatter line. */
  function KvLine(k: string, v: string): string { k + ": " + v }

  function Rendered(name: string, description: string, body: string): string {
    DELIMITER + "\n" + (KvLine("name", name) + "\n"
        + (KvLine("description", description) + "\n" + (DELIMITER + "\n" + Ended(body))))
  }

  method Render(name: string, description: string, body: string) returns (out: string)
    ensures out == Rendered(name, description, body)
  {
    out := DELIMITER + "\n";
    out := out + (KvLine("name", name) + "\n");
    out := out + (KvLine("description", description) + "\n");
    out := out + (DELIMITER + "\n");
    out := out + body;
    if body == "" || body[|body| - 1] != '\n' {
      out := out + "\n";
    }
    ghost var a, b, c := KvLine("name", name) + "\n", KvLine("description", description) + "\n", DELIMITER + "\n";
    assert c + a + b + c + Ended(body) == c + (a + (b + (c + Ended(body))));
  }

  /** The file `write_skill` writes, if the name is accepted. */
  function Written(name: string, description: string, body: string): Option<string> {
    if IsStem(Trim(name)) then Some(Rendered(Trim(name), OneLine(description), body)) else None
  }

  // ------------------------------------------------------------ lines, in proofs

  lemma {:induction false} BreakFound(l: string, rest: string)
    requires '\n' !in l
    ensures Find(l + "\n" + rest, "\n") == Some(|l|)
  {
    var s := l + "\n" + rest;
    assert "\n"[0] == '\n';
    assert MatchAt(s, |l|, "\n");
    forall k: nat | k < |l|
      ensures !MatchAt(s, k, "\n")
    {
      assert s[k] == l[k];
    }
    FindIs(s, "\n", |l|);
  }

  lemma {:induction false} LinesCons(l: string, rest: string)
    requires '\n' !in l
    ensures Lines(l + "\n" + rest) == [StripCr(l)] + Lines(rest)
  {
    var s := l + "\n" + rest;
    BreakFound(l, rest);
    assert s[..|l|] == l && s[|l| + 1..] == rest;
  }

  /** A text that ends in a line break is a first line and a rest like it. */
  lemma {:induction false} FirstLine(s: string) returns (l: string, rest: string)
    requires s != "" && s[|s| - 1] == '\n'
    ensures '\n' !in l && s == l + "\n" + rest && (rest != "" ==> rest[|rest| - 1] == '\n')
  {
    var n := |s| - 1;
    assert MatchAt(s, n, "\n") by { assert "\n"[0] == '\n'; }
    assert Contains(s, "\n");
    var i := Find(s, "\n").value;
    l, rest := s[..i], s[i + 1..];
    forall k | 0 <= k < i
      ensures l[k] != '\n'
    {
      assert !MatchAt(s, k, "\n");
      assert s[k] != "\n"[0];
    }
    assert s[i] == "\n"[0];
    assert s == s[..i] + [s[i]] + s[i + 1..];
  }

  /** A carriage return in front of a line break. */
  predicate HasCrLf(s: string) { exists i :: 0 <= i && i + 1 < |s| && s[i] == '\r' && s[i + 1] == '\n' }

  lemma {:induction false} CrLfInRest(front: string, rest: string)
    requires HasCrLf(rest)
    ensures HasCrLf(front + rest)
  {
    var s, n := front + rest, |front|;
    var i :| 0 <= i && i + 1 < |rest| && rest[i] == '\r' && rest[i + 1] == '\n';
    assert s[n + i] == '\r' && s[n + i + 1] == '\n';
  }

  lemma {:induction false} CrLfAtEnd(l: string, rest: string)
    requires l != "" && l[|l| - 1] == '\r'
    ensures HasCrLf(l + "\n" + rest)
  {
    var s, n := l + "\n" + rest, |l|;
    assert s[n - 1] == '\r' && s[n] == '\n';
  }

  lemma {:induction false} CrLfSomewhere(l: string, rest: string)
    requires '\n' !in l && HasCrLf(l + "\n" + rest)
    ensures (l != "" && l[|l| - 1] == '\r') || HasCrLf(rest)
  {}

  lemma {:induction false} CrLfSplits(l: string, rest: string)
    requires '\n' !in l
    ensures HasCrLf(l + "\n" + rest) <==> (l != "" && l[|l| - 1] == '\r') || HasCrLf(rest)
  {
    if HasCrLf(rest) { CrLfInRest(l + "\n", rest); }
    if l != "" && l[|l| - 1] == '\r' { CrLfAtEnd(l, rest); }
    if HasCrLf(l + "\n" + rest) { CrLfSomewhere(l, rest); }
  }

  /** Splitting into lines and joining again gives the text without its last line
      break, and shortens it exactly by the carriage returns of its line ends. */
  lemma {:induction false} UnlinesLines(s: string)
    requires s != "" && s[|s| - 1] == '\n'
    ensures Lines(s) != []
    ensures |Unlines(Lines(s))| <= |s| - 1
    ensures !HasCrLf(s) ==> Unlines(Lines(s)) == s[..|s| - 1]
    ensures HasCrLf(s) ==> |Unlines(Lines(s))| < |s| - 1
    decreases |s|
  {
    var l, rest := FirstLine(s);
    LinesCons(l, rest);
    CrLfSplits(l, rest);
    if rest == "" {
      StripCrIs(l);
      assert Lines(s) == [StripCr(l)] && s[..|s| - 1] == l && !HasCrLf(rest);
    } else {
      UnlinesLines(rest);
      UnlinesCons(StripCr(l), Lines(rest));
      OneLineMore(l, rest, Unlines(Lines(rest)));
    }
  }

  /** What one line more does to the rest, joined again as `u`. */
  lemma {:induction false} OneLineMore(l: string, rest: string, u: string)
    requires rest != "" && |u| <= |rest| - 1
    ensures var s, v := l + "\n" + rest, StripCr(l) + "\n" + u;
            && |v| <= |s| - 1
            && ((l == "" || l[|l| - 1] != '\r') && u == rest[..|rest| - 1] ==> v == s[..|s| - 1])
            && ((l != "" && l[|l| - 1] == '\r') || |u| < |rest| - 1 ==> |v| < |s| - 1)
  {
    StripCrIs(l);
    var s := l + "\n" + rest;
    assert s[..|s| - 1] == l + "\n" + rest[..|rest| - 1];
  }

  lemma {:induction false} StripCrIs(l: string)
    ensures l != "" && l[|l| - 1] == '\r' ==> |StripCr(l)| == |l| - 1
    ensures !(l != "" && l[|l| - 1] == '\r') ==> StripCr(l) == l
  {}

  lemma {:induction false} UnlinesCons(l: string, ls: seq<string>)
    requires ls != []
    ensures Unlines([l] + ls) == l + "\n" + Unlines(ls)
  {}

  function Leading(s: string): nat { if s != "" && s[0] == '\n' then 1 + Leading(s[1..]) else 0 }

  lemma {:induction false} DropLength(s: string)
    ensures |DropBreaks(s)| + Leading(s) == |s|
  {
    if s != "" && s[0] == '\n' { DropLength(s[1..]); }
  }

  lemma {:induction false} LeadingBreak(rest: string)
    requires rest != "" && rest[|rest| - 1] == '\n'
    ensures Unlines(Lines("\n" + rest)) == "\n" + Unlines(Lines(rest))
  {}

  lemma {:induction false} LeadingOne(s: string)
    ensures Leading("\n" + s) == 1 + Leading(s)
  {}

  /** Line splitting never hides a leading line break. */
  lemma {:induction false} LeadingKept(s: string)
    requires s != "" && s[|s| - 1] == '\n'
    ensures Leading(Unlines(Lines(s))) >= Leading(s[..|s| - 1])
    decreases |s|
  {
    if s[0] == '\n' && |s| > 1 {
      var rest := s[1..];
      assert s == "\n" + rest;
      LeadingKept(rest);
      LeadingBreak(rest);
      LeadingOne(Unlines(Lines(rest)));
      LeadingOne(rest[..|rest| - 1]);
      assert s[..|s| - 1] == "\n" + rest[..|rest| - 1];
    }
  }

  // -------------------------------------------------------------- round trip

  lemma {:induction false} ColonFound(k: string, v: string)
    requires ':' !in k
    ensures Find(k + ":" + v, ":") == Some(|k|)
  {
    var s := k + ":" + v;
    assert ":"[0] == ':';
    assert MatchAt(s, |k|, ":");
    forall i: nat | i < |k|
      ensures !MatchAt(s, i, ":")
    {
      assert s[i] == k[i];
    }
    FindIs(s, ":", |k|);
  }

  lemma {:induction false} KvOf(k: string, v: string)
    requires k != "" && ':' !in k && Trim(k) == k
    ensures SplitKv(KvLine(k, v)) == Some((k, TrimQuotes(Trim(v))))
  {
    var line := k + ":" + (" " + v);
    assert KvLine(k, v) == line;
    ColonFound(k, " " + v);
    assert line[..|k|] == k && line[|k| + 1..] == " " + v;
    SpaceIsTrimmed(v);
  }

  lemma {:induction false} SpaceIsTrimmed(v: string)
    ensures Trim(" " + v) == Trim(v)
  {
    TrimStartPrefix(" ", v);
  }

  lemma {:induction false} NotDelimiter(k: string, v: string)
    requires k != "" && !IsSpace(k[0]) && k[0] != '-'
    ensures Trim(KvLine(k, v)) != DELIMITER
  {}

  lemma {:induction false} KvOneLine(k: string, v: string)
    requires '\n' !in k && '\n' !in v
    ensures '\n' !in KvLine(k, v)
    ensures v != "" ==> KvLine(k, v)[|KvLine(k, v)| - 1] == v[|v| - 1]
  {}

  lemma {:induction false} StemIsPlain(name: string)
    requires IsStem(name)
    ensures '\n' !in name && Trim(name) == name && TrimQuotes(name) == name
    ensures name[|name| - 1] != '\r'
  {}

  lemma {:induction false} KvWithoutCr(k: string, d: string)
    ensures StripCr(KvLine(k, d)) == KvLine(k, StripCr(d))
  {}

  /** A trailing carriage return is white space to the value. */
  lemma {:induction false} CrIsTrimmed(d: string)
    ensures Trim(StripCr(d)) == Trim(d)
  {
    if d != "" && d[|d| - 1] == '\r' {
      var e := d[..|d| - 1];
      CrIsSpace(e);
      assert d == e + "\r";
    }
  }

  lemma {:induction false} CrIsSpace(e: string)
    ensures Trim(e + "\r") == Trim(e)
  {
    TrimEndSuffix(e, "\r");
    TrimAgain(e);
    TrimAgain(e + "\r");
  }

  lemma {:induction false} NameLine(name: string, rest: string)
    requires IsStem(name)
    ensures Lines(KvLine("name", name) + "\n" + rest) == [KvLine("name", name)] + Lines(rest)
  {
    StemIsPlain(name);
    KvOneLine("name", name);
    LinesCons(KvLine("name", name), rest);
  }

  lemma {:induction false} DescriptionLine(d: string, rest: string)
    requires '\n' !in d
    ensures Lines(KvLine("description", d) + "\n" + rest) == [KvLine("description", StripCr(d))] + Lines(rest)
  {
    KvWithoutCr("description", d);
    KvOneLine("description", d);
    LinesCons(KvLine("description", d), rest);
  }

  lemma {:induction false} LinesOfRendered(name: string, d: string, body: string)
    requires IsStem(name) && '\n' !in d
    ensures Lines(Rendered(name, d, body))
            == [DELIMITER] + ([KvLine("name", name)]
                + ([KvLine("description", StripCr(d))] + ([DELIMITER] + Lines(Ended(body)))))
  {
    var r3 := Ended(body);
    var r2 := DELIMITER + "\n" + r3;
    var r1 := KvLine("description", d) + "\n" + r2;
    LinesCons(DELIMITER, r3);
    DescriptionLine(d, r2);
    NameLine(name, r1);
    LinesCons(DELIMITER, KvLine("name", name) + "\n" + r1);
  }

  lemma {:induction false} NameIsSet(s: Skill, name: string)
    requires IsStem(name)
    ensures WithLine(s, KvLine("name", name)) == s.(name := name) && Trim(KvLine("name", name)) != DELIMITER
  {
    StemIsPlain(name);
    TrimFixed("name");
    KvOf("name", name);
    NotDelimiter("name", name);
  }

  lemma {:induction false} DescriptionIsSet(s: Skill, d: string)
    ensures WithLine(s, KvLine("description", d)) == s.(description := TrimQuotes(Trim(d)))
    ensures Trim(KvLine("description", d)) != DELIMITER
  {
    TrimFixed("description");
    KvOf("description", d);
    NotDelimiter("description", d);
  }

  lemma {:induction false} FrontCons(l: string, more: seq<string>, s: Skill)
    ensures Front([l] + more, s) == if Trim(l) == DELIMITER then Some((s, more)) else Front(more, WithLine(s, l))
  {}

  lemma {:induction false} FrontOfRendered(name: string, d: string, more: seq<string>)
    requires IsStem(name)
    ensures Front([KvLine("name", name)] + ([KvLine("description", d)] + ([DELIMITER] + more)), DEFAULTS)
            == Some((DEFAULTS.(name := name, description := TrimQuotes(Trim(d))), more))
  {
    NameIsSet(DEFAULTS, name);
    DescriptionIsSet(DEFAULTS.(name := name), d);
    TrimFixed(DELIMITER);
    FrontCons(KvLine("name", name), [KvLine("description", d)] + ([DELIMITER] + more), DEFAULTS);
    FrontCons(KvLine("description", d), [DELIMITER] + more, DEFAULTS.(name := name));
    FrontCons(DELIMITER, more, DEFAULTS.(name := name, description := TrimQuotes(Trim(d))));
  }

  lemma {:induction false} DelimiterOpens()
    ensures Trim(DropFront(DELIMITER, BOM)) == "---"
  {
    TrimFixed(DELIMITER);
    assert DropFront(DELIMITER, BOM) == DELIMITER;
  }

  lemma {:induction false} ParsedIs(text: string, lines: seq<string>, s: Skill, more: seq<string>)
    requires Lines(text) == [DELIMITER] + lines && Front(lines, DEFAULTS) == Some((s, more)) && s.name != ""
    ensures Parsed(text) == Ok(s.(body := DropBreaks(Unlines(more))))
  {
    assert ([DELIMITER] + lines)[1..] == lines;
    DelimiterOpens();
  }

  /** Whatever the description and the body, even a body with `---` lines of its
      own, the loader reads back the name, the description on one line with outer
      white space and quotes gone, the defaults for everything else, and the lines
      of the body. */
  lemma {:induction false} RenderedParses(name: string, d: string, body: string)
    requires IsStem(name) && '\n' !in d
    ensures Parsed(Rendered(name, d, body))
            == Ok(DEFAULTS.(name := name, description := TrimQuotes(Trim(d)),
                body := DropBreaks(Unlines(Lines(Ended(body))))))
  {
    LinesOfRendered(name, d, body);
    var more := Lines(Ended(body));
    FrontOfRendered(name, StripCr(d), more);
    CrIsTrimmed(d);
    ParsedIs(Rendered(name, d, body), [KvLine("name", name)]
        + ([KvLine("description", StripCr(d))] + ([DELIMITER] + more)),
             DEFAULTS.(name := name, description := TrimQuotes(Trim(d))), more);
  }

  /** The body less one line break at its end. */
  function LessOneBreak(body: string): string {
    if body != "" && body[|body| - 1] == '\n' then body[..|body| - 1] else body
  }

  /** The body survives, less one line break at its end and all at its start, if
      and only if no line of it ends in a carriage return. */
  lemma {:induction false} BodyRoundTrip(body: string)
    ensures DropBreaks(Unlines(Lines(Ended(body)))) == DropBreaks(LessOneBreak(body)) <==> !HasCrLf(body + "\n")
  {
    var s := Ended(body);
    assert s[..|s| - 1] == LessOneBreak(body);
    UnlinesLines(s);
    LeadingKept(s);
    DropLength(LessOneBreak(body));
    DropLength(Unlines(Lines(s)));
    EndedCrLf(body);
  }

  lemma {:induction false} EndedCrLf(body: string)
    ensures HasCrLf(Ended(body)) <==> HasCrLf(body + "\n")
  {
    if body != "" && body[|body| - 1] == '\n' {
      var t := body + "\n";
      assert forall i :: 0 <= i < |body| ==> t[i] == body[i];
      if HasCrLf(body) {
        var i :| 0 <= i && i + 1 < |body| && body[i] == '\r' && body[i + 1] == '\n';
        assert t[i] == '\r' && t[i + 1] == '\n';
      }
      if HasCrLf(t) {
        var i :| 0 <= i && i + 1 < |t| && t[i] == '\r' && t[i + 1] == '\n';
        assert i + 1 < |body|;
        assert body[i] == '\r' && body[i + 1] == '\n';
      }
    }
  }

  /** Creator and loader together: for every name the creator accepts, the file it
      writes is read back as that skill if and only if the body has no line that
      ends in a carriage return. */
  lemma {:induction false} SkillRoundTrip(name: string, description: string, body: string)
    requires Written(name, description, body).Some?
    ensures Parsed(Written(name, description, body).value)
              == Ok(DEFAULTS.(name := Trim(name),
                              description := TrimQuotes(Trim(OneLine(description))),
                              body := DropBreaks(LessOneBreak(body))))
            <==> !HasCrLf(body + "\n")
  {
    RenderedParses(Trim(name), OneLine(description), body);
    BodyRoundTrip(body);
  }
}
