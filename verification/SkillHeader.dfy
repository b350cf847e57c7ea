/** The frontmatter of a skill file, key by key (crates/agents/src/md_skill.rs). */
module SkillHeader {
  import opened Text
  import opened SkillFile

  // --------------------------------------------------------------------- values

  predicate AllQuotes(s: string) { forall i :: 0 <= i < |s| ==> s[i] == '\'' || s[i] == '"' }

  /** A value loses the quotes at its ends and nothing else. */
  lemma {:induction false} QuotesAreTrimmed(s: string) returns (a: string, b: string)
    ensures AllQuotes(a) && AllQuotes(b) && s == a + TrimQuotes(s) + b
    ensures var r := TrimQuotes(s); r != "" ==> !IsQuote(r[0]) && !IsQuote(r[|r| - 1])
    decreases |s|
  {
    if s != "" && IsQuote(s[0]) {
      a, b := QuotesAreTrimmed(s[1..]);
      assert s == [s[0]] + (a + TrimQuotes(s[1..]) + b);
      a := [s[0]] + a;
    } else if s != "" && IsQuote(s[|s| - 1]) {
      var front := s[..|s| - 1];
      a, b := QuotesAreTrimmed(front);
      assert s == (a + TrimQuotes(front) + b) + [s[|s| - 1]];
      b := b + [s[|s| - 1]];
    } else {
      a, b := "", "";
    }
  }

  lemma {:induction false} UnquotedIsKept(s: string)
    requires s != "" ==> !IsQuote(s[0]) && !IsQuote(s[|s| - 1])
    ensures TrimQuotes(s) == s
  {}

  /** The same letters in any case. */
  predicate SameLetters(s: string, w: string) {
    |s| == |w| && forall i :: 0 <= i < |w| ==> s[i] == w[i] || (s[i] as int + 32 == w[i] as int && 'A' <= s[i] <= 'Z')
  }

  lemma {:induction false} LowerIs(s: string)
    ensures |Lower(s)| == |s| && forall i :: 0 <= i < |s| ==> Lower(s)[i] == ToLower(s[i])
    decreases |s|
  {
    if s != "" { LowerIs(s[1..]); }
  }

  predicate IsYesNo(w: string) {
    w == "true" || w == "yes" || w == "on" || w == "false" || w == "no" || w == "off"
  }

  lemma {:induction false} YesNoIsLower(w: string)
    requires IsYesNo(w)
    ensures w != "" && forall i :: 0 <= i < |w| ==> 'a' <= w[i] <= 'z'
  {}

  /** YAML's booleans in any case, with white space around them. */
  lemma {:induction false} BooleansAreRead(s: string, w: string)
    requires IsYesNo(w) && SameLetters(Trim(s), w)
    ensures YamlBool(s) == Some(w == "true" || w == "yes" || w == "on")
  {
    var t := Trim(s);
    LowerIs(t);
    YesNoIsLower(w);
    forall i | 0 <= i < |w|
      ensures Lower(t)[i] == w[i]
    {
      assert ToLower(t[i]) == w[i];
    }
    assert Lower(t) == w;
  }

  // ---------------------------------------------------------------------- lists

  /** A name in a list. */
  predicate IsListed(w: string) {
    && w != ""
    && forall i :: 0 <= i < |w| ==> w[i] != ',' && !IsSpace(w[i]) && w[i] != '[' && w[i] != ']' && !IsQuote(w[i])
  }

  predicate AllListed(ws: seq<string>) { forall i :: 0 <= i < |ws| ==> IsListed(ws[i]) }

  /** Names with a separator between any two: a comma, white space, or both. */
  function Joined(ws: seq<string>, separator: string): string {
    if ws == [] then "" else if |ws| == 1 then ws[0] else ws[0] + (separator + Joined(ws[1..], separator))
  }

  predicate IsSeparator(s: string) {
    s != "" && forall i :: 0 <= i < |s| ==> s[i] == ',' || IsSpace(s[i])
  }

  lemma {:induction false} WordTaken(w: string, rest: string, taken: string)
    requires forall i :: 0 <= i < |w| ==> w[i] != ',' && !IsSpace(w[i])
    ensures Words(w + rest, taken) == Words(rest, taken + w)
    decreases |w|
  {
    if w == "" {
      assert w + rest == rest && taken + w == taken;
    } else {
      assert (w + rest)[0] == w[0] && (w + rest)[1..] == w[1..] + rest;
      WordTaken(w[1..], rest, taken + [w[0]]);
      assert taken + [w[0]] + w[1..] == taken + w;
    }
  }

  lemma {:induction false} SeparatorSkipped(s: string, rest: string)
    requires forall i :: 0 <= i < |s| ==> s[i] == ',' || IsSpace(s[i])
    ensures Words(s + rest, "") == Words(rest, "")
    decreases |s|
  {
    if s == "" {
      assert s + rest == rest;
    } else {
      assert (s + rest)[0] == s[0] && (s + rest)[1..] == s[1..] + rest;
      SeparatorSkipped(s[1..], rest);
    }
  }

  lemma {:induction false} WordEnds(w: string, separator: string, rest: string)
    requires IsListed(w) && IsSeparator(separator)
    ensures Words(w + (separator + rest), "") == [w] + Words(rest, "")
  {
    var tail := separator + rest;
    WordTaken(w, tail, "");
    assert "" + w == w;
    assert tail[0] == separator[0] && tail[1..] == separator[1..] + rest;
    SeparatorSkipped(separator[1..], rest);
  }

  lemma {:induction false} WordsOfJoined(ws: seq<string>, separator: string)
    requires AllListed(ws) && IsSeparator(separator)
    ensures Words(Joined(ws, separator), "") == ws
    decreases |ws|
  {
    if |ws| == 1 {
      WordTaken(ws[0], "", "");
      assert ws[0] + "" == ws[0] && "" + ws[0] == ws[0];
    } else if |ws| > 1 {
      assert forall i :: 0 <= i < |ws| - 1 ==> ws[1..][i] == ws[i + 1];
      WordEnds(ws[0], separator, Joined(ws[1..], separator));
      WordsOfJoined(ws[1..], separator);
      assert [ws[0]] + ws[1..] == ws;
    }
  }

  lemma {:induction false} JoinedStarts(ws: seq<string>, separator: string)
    requires AllListed(ws) && ws != []
    ensures var j := Joined(ws, separator); j != "" && j[0] == ws[0][0]
  {
    assert IsListed(ws[0]);
  }

  lemma {:induction false} JoinedEnds(ws: seq<string>, separator: string)
    requires AllListed(ws) && ws != []
    ensures var j, w := Joined(ws, separator), ws[|ws| - 1]; j != "" && w != "" && j[|j| - 1] == w[|w| - 1]
    decreases |ws|
  {
    assert IsListed(ws[|ws| - 1]);
    if |ws| > 1 {
      var rest := ws[1..];
      assert forall i :: 0 <= i < |rest| ==> rest[i] == ws[i + 1];
      JoinedEnds(rest, separator);
      EndStands(ws[0], separator, Joined(rest, separator));
    }
  }

  lemma {:induction false} EndStands(a: string, b: string, c: string)
    requires c != ""
    ensures var s := a + (b + c); s != "" && s[|s| - 1] == c[|c| - 1]
  {}

  lemma {:induction false} BracketsDropped(j: string)
    requires j != "" && j[0] != '[' && j[|j| - 1] != ']'
    ensures DropBack(DropFront(j, '['), ']') == j
    ensures DropBack(DropFront("[" + j + "]", '['), ']') == j
  {
    var s := "[" + j + "]";
    assert s[0] == '[' && s[1..] == j + "]";
    assert DropFront(j + "]", '[') == j + "]";
    assert (j + "]")[..|j|] == j;
  }

  /** A list reads as its names, whatever separates them, in brackets or not. */
  lemma {:induction false} ListsAreRead(ws: seq<string>, separator: string)
    requires AllListed(ws) && ws != [] && IsSeparator(separator)
    ensures SplitList(Joined(ws, separator)) == ws
    ensures SplitList("[" + Joined(ws, separator) + "]") == ws
  {
    var j := Joined(ws, separator);
    JoinedStarts(ws, separator);
    JoinedEnds(ws, separator);
    assert IsListed(ws[0]) && IsListed(ws[|ws| - 1]);
    WordsOfJoined(ws, separator);
    BareIsSplit(j);
  }

  lemma {:induction false} BareIsSplit(j: string)
    requires j != "" && j[0] != '[' && j[|j| - 1] != ']' && !IsSpace(j[0]) && !IsSpace(j[|j| - 1])
    ensures SplitList(j) == SplitList("[" + j + "]") == Words(j, "")
  {
    TrimFixed(j);
    TrimFixed("[" + j + "]");
    BracketsDropped(j);
  }

  // ----------------------------------------------------------------------- keys

  predicate IsKey(k: string) { k != "" && ':' !in k && Trim(k) == k }

  /** A line `key: value` sets what its key sets, by its value without outer spaces and
      quotes. */
  lemma {:induction false} LineSets(s: Skill, k: string, v: string)
    requires IsKey(k)
    ensures WithLine(s, KvLine(k, v)) == WithKey(s, k, TrimQuotes(Trim(v)))
  {
    KvOf(k, v);
  }

  /** The keys that take text or a list. */
  lemma {:induction false} TextKeysSet(s: Skill, v: string)
    ensures WithKey(s, "name", v) == s.(name := v)
    ensures WithKey(s, "description", v) == s.(description := v)
    ensures WithKey(s, "positional", v) == s.(positionals := SplitList(v))
    ensures WithKey(s, "skills", v) == s.(skills := SplitList(v))
    ensures WithKey(s, "tool_mode", v) == WithKey(s, "tool-mode", v) == s.(toolMode := Some(v))
  {}

  /** The two switches: what is no boolean leaves a skill offered to the model and to
      the user. */
  lemma {:induction false} SwitchesSet(s: Skill, v: string)
    ensures WithKey(s, "disable-model-invocation", v) == s.(disableModelInvocation := YamlBool(v) == Some(true))
    ensures WithKey(s, "disable_model_invocation", v) == s.(disableModelInvocation := YamlBool(v) == Some(true))
    ensures WithKey(s, "user-invocable", v) == s.(userInvocable := YamlBool(v) != Some(false))
    ensures WithKey(s, "user_invocable", v) == s.(userInvocable := YamlBool(v) != Some(false))
  {}

  predicate IsKnown(k: string) {
    k in {"name", "description", "positional", "skills", "disable-model-invocation", "disable_model_invocation",
          "user-invocable", "user_invocable", "tool_mode", "tool-mode"}
  }

  /** Any other key, and a line without a key, is ignored. */
  lemma {:induction false} OthersAreIgnored(s: Skill, k: string, v: string)
    requires !IsKnown(k)
    ensures WithKey(s, k, v) == s
  {}

  lemma {:induction false} KeylessIsIgnored(s: Skill, line: string)
    requires ':' !in line
    ensures WithLine(s, line) == s
  {
    forall i: nat | i <= |line|
      ensures !MatchAt(line, i, ":")
    {
      assert ":"[0] == ':';
    }
    assert !Contains(line, ":");
  }

  // ---------------------------------------------------------------- the whole file

  /** All lines of the frontmatter, in order. */
  function WithLines(s: Skill, lines: seq<string>): Skill {
    if lines == [] then s else WithLine(WithLines(s, lines[..|lines| - 1]), lines[|lines| - 1])
  }

  /** The first line from `from` on that closes the frontmatter. */
  predicate ClosesAt(lines: seq<string>, n: nat) {
    n < |lines| && Trim(lines[n]) == "---" && forall i :: 0 <= i < n ==> Trim(lines[i]) != "---"
  }

  lemma {:induction false} FrontIs(lines: seq<string>, done: seq<string>, s: Skill)
    ensures var r := Front(lines, WithLines(s, done));
            && (r.Some? <==> exists n: nat :: ClosesAt(lines, n))
            && forall n: nat :: ClosesAt(lines, n) ==> r == Some((WithLines(s, done + lines[..n]), lines[n + 1..]))
    decreases |lines|
  {
    if lines != [] {
      if Trim(lines[0]) == "---" {
        assert ClosesAt(lines, 0);
        assert done + lines[..0] == done;
        assert forall n: nat :: ClosesAt(lines, n) ==> n == 0;
      } else {
        var rest, more := lines[1..], done + [lines[0]];
        assert more[..|more| - 1] == done;
        FrontIs(rest, more, s);
        FrontShifts(lines, done, s);
      }
    }
  }

  lemma {:induction false} FrontShifts(lines: seq<string>, done: seq<string>, s: Skill)
    requires lines != [] && Trim(lines[0]) != "---"
    ensures (exists n: nat :: ClosesAt(lines, n)) <==> exists n: nat :: ClosesAt(lines[1..], n)
    ensures forall n: nat :: ClosesAt(lines, n) ==>
              && n > 0 && ClosesAt(lines[1..], n - 1)
              && (done + [lines[0]]) + lines[1..][..n - 1] == done + lines[..n]
              && lines[1..][n..] == lines[n + 1..]
  {
    forall n: nat | ClosesAt(lines, n)
      ensures n > 0 && ClosesAt(lines[1..], n - 1)
      ensures (done + [lines[0]]) + lines[1..][..n - 1] == done + lines[..n]
      ensures lines[1..][n..] == lines[n + 1..]
    {
      ClosesEarlier(lines, n);
      HeadMoved(done, lines, n);
    }
    if n: nat :| ClosesAt(lines[1..], n) {
      ClosesLater(lines, n);
    }
  }

  lemma {:induction false} HeadMoved(done: seq<string>, lines: seq<string>, n: nat)
    requires 0 < n <= |lines|
    ensures (done + [lines[0]]) + lines[1..][..n - 1] == done + lines[..n]
  {}

  lemma {:induction false} ClosesEarlier(lines: seq<string>, n: nat)
    requires lines != [] && Trim(lines[0]) != "---" && ClosesAt(lines, n)
    ensures n > 0 && ClosesAt(lines[1..], n - 1) && lines[1..][n..] == lines[n + 1..]
  {
    assert lines[1..][n - 1] == lines[n];
    assert forall i :: 0 <= i < n - 1 ==> lines[1..][i] == lines[i + 1];
  }

  lemma {:induction false} ClosesLater(lines: seq<string>, n: nat)
    requires lines != [] && Trim(lines[0]) != "---" && ClosesAt(lines[1..], n)
    ensures ClosesAt(lines, n + 1)
  {
    assert lines[1..][n] == lines[n + 1];
    assert forall i :: 0 < i < n + 1 ==> lines[1..][i - 1] == lines[i];
  }

  predicate Opens(lines: seq<string>) { lines != [] && Trim(DropFront(lines[0], '\U{FEFF}')) == "---" }

  /** A file is a skill if and only if its first line (a byte order mark aside) opens a
      frontmatter that a later line closes and that gives a name; what it is is what
      the lines between say on top of the defaults, with the rest as its body. */
  lemma {:induction false} FileIs(text: string)
    ensures var lines := Lines(text);
            var head := if lines == [] then [] else lines[1..];
            var start := Skill("", "", [], [], false, true, None, "");
            && (Parsed(text).Ok? <==>
                  Opens(lines) && exists n: nat :: ClosesAt(head, n) && WithLines(start, head[..n]).name != "")
            && (Parsed(text).Ok? ==>
                  forall n: nat :: ClosesAt(head, n) ==>
                    Parsed(text) == Ok(WithLines(start, head[..n]).(body := DropBreaks(Unlines(head[n + 1..])))))
  {
    var lines := Lines(text);
    if lines != [] {
      var head := lines[1..];
      assert WithLines(DEFAULTS, []) == DEFAULTS;
      FrontIs(head, [], DEFAULTS);
      assert forall n: nat :: n <= |head| ==> [] + head[..n] == head[..n];
    }
  }

  /** Which names the creator accepts. */
  lemma {:induction false} CreatorAccepts(name: string, description: string, body: string)
    ensures var stem := Trim(name);
            Written(name, description, body).Some? <==>
              && |stem| > 0
              && forall i :: 0 <= i < |stem| ==>
                   || 'a' <= stem[i] <= 'z' || 'A' <= stem[i] <= 'Z' || '0' <= stem[i] <= '9'
                   || stem[i] == '-' || stem[i] == '_'
  {}
}
