/** Calls of skills that take a single argument
    (crates/agents/src/parse_tool_call.rs): everything between the outer quotes
    is the argument as written.  A Windows path keeps its backslashes, trailing
    ones included, and an inner ` > ` does not cut the argument. */
module OneArgument {
  import opened Text
  import opened ToolCallLine

  // ------------------------------------------------------- verbatim tokens

  /** Read on inside a token: only an escaped quote of its own kind is
      unescaped. */
  function VerbatimQuoted(q: char, s: string, buf: string): (r: Option<(string, string)>)
    ensures r.Some? ==> |r.value.1| < |s|
    decreases |s|
  {
    if s == "" then None
    else if s[0] == '\\' && |s| > 1 && s[1] == q then VerbatimQuoted(q, s[2..], buf + [q])
    else if s[0] == q then Some((buf, s[1..]))
    else VerbatimQuoted(q, s[1..], buf + [s[0]])
  }

  function VerbatimFrom(s: string, out: seq<string>): Option<seq<string>>
    decreases |s|
  {
    if s == "" then Some(out)
    else if IsSpace(s[0]) then VerbatimFrom(s[1..], out)
    else if !IsQuote(s[0]) then None
    else match VerbatimQuoted(s[0], s[1..], "")
      case Some((token, rest)) => VerbatimFrom(rest, out + [token])
      case None => None
  }

  /** The inner loop of `verbatim_tokens`. */
  method ReadVerbatim(q: char, s: string) returns (r: Option<(string, string)>)
    ensures r == VerbatimQuoted(q, s, "")
  {
    var buf := "";
    var rest := s;
    while rest != ""
      invariant VerbatimQuoted(q, s, "") == VerbatimQuoted(q, rest, buf)
      decreases |rest|
    {
      var c := rest[0];
      if c == '\\' && |rest| > 1 && rest[1] == q {
        buf := buf + [q];
        rest := rest[2..];
      } else if c == q {
        return Some((buf, rest[1..]));
      } else {
        buf := buf + [c];
        rest := rest[1..];
      }
    }
    return None;
  }

  method VerbatimTokens(s: string) returns (r: Option<seq<string>>)
    ensures r == VerbatimFrom(s, [])
  {
    var rest := s;
    var out: seq<string> := [];
    while rest != ""
      invariant VerbatimFrom(s, []) == VerbatimFrom(rest, out)
      decreases |rest|
    {
      if IsSpace(rest[0]) {
        rest := rest[1..];
      } else if !IsQuote(rest[0]) {
        return None;
      } else {
        var token := ReadVerbatim(rest[0], rest[1..]);
        if token.None? { return None; }
        out := out + [token.value.0];
        rest := token.value.1;
      }
    }
    return Some(out);
  }

  // ----------------------------------------------------------- single span

  /** `[A-Za-z_][A-Za-z0-9_]*` */
  predicate IsArgName(s: string) {
    s != "" && (IsAlpha(s[0]) || s[0] == '_')
    && forall i :: 0 <= i < |s| ==> IsAlpha(s[i]) || IsDigit(s[i]) || s[i] == '_'
  }

  /** The key of a `key=value` text. */
  function KeyOf(s: string): Option<string> {
    match Find(s, "=")
    case Some(i) => Some(Trim(s[..i]))
    case None => None
  }

  predicate IsKeyValue(s: string) {
    KeyOf(s).Some? && IsArgName(KeyOf(s).value)
  }

  /** `str::rfind` of one character in `s[..i]`. */
  function LastIndexBefore(s: string, i: nat, c: char): (r: Option<nat>)
    requires i <= |s|
    ensures r.Some? ==> r.value < i && s[r.value] == c && forall k :: r.value < k < i ==> s[k] != c
    ensures r.None? ==> forall k :: 0 <= k < i ==> s[k] != c
  {
    if i == 0 then None
    else if s[i - 1] == c then Some(i - 1)
    else LastIndexBefore(s, i - 1, c)
  }

  /** One trailing `'key=value'` token: what is left of it, and its text. */
  function PeelKeyValue(s: string): (r: Option<(string, string)>)
    ensures r.Some? ==> |r.value.0| < |s|
  {
    if s == "" || !IsQuote(s[|s| - 1]) then None
    else
      var body := s[..|s| - 1];
      match LastIndexBefore(body, |body|, s[|s| - 1])
      case None => None
      case Some(open) =>
        var inner := body[open + 1..];
        var before := body[..open];
        var rest := TrimEnd(before);
        if |rest| == |before| || rest == "" || !IsQuote(rest[|rest| - 1]) then None
        else if IsKeyValue(inner) then Some((rest, inner))
        else None
  }

  /** `str::replace` of an escaped quote by the quote. */
  function DropEscapes(q: char, s: string): string
    decreases |s|
  {
    if s == "" then ""
    else if s[0] == '\\' && |s| > 1 && s[1] == q then [q] + DropEscapes(q, s[2..])
    else [s[0]] + DropEscapes(q, s[1..])
  }

  function SpanFrom(s: string, extras: seq<string>): Option<seq<string>>
    decreases |s|
  {
    match PeelKeyValue(s)
    case Some((rest, kv)) => SpanFrom(rest, [kv] + extras)
    case None =>
      if |s| < 2 || !IsQuote(s[0]) || s[|s| - 1] != s[0] then None
      else Some([DropEscapes(s[0], s[1..|s| - 1])] + extras)
  }

  method SingleSpan(text: string) returns (r: Option<seq<string>>)
    ensures r == SpanFrom(Trim(text), [])
  {
    var s := Trim(text);
    var extras: seq<string> := [];
    var peeled := PeelKeyValue(s);
    while peeled.Some?
      invariant peeled == PeelKeyValue(s)
      invariant SpanFrom(Trim(text), []) == SpanFrom(s, extras)
      decreases |s|
    {
      extras := [peeled.value.1] + extras;
      s := peeled.value.0;
      peeled := PeelKeyValue(s);
    }
    if |s| < 2 || !IsQuote(s[0]) || s[|s| - 1] != s[0] { return None; }
    return Some([DropEscapes(s[0], s[1..|s| - 1])] + extras);
  }

  // ------------------------------------------------------------ one argument

  /** A token worth keeping apart from the argument. */
  predicate SimpleExtra(token: string) {
    var t := Trim(token);
    && t != ""
    && Utf8Len(t) <= 200
    && (IsKeyValue(t) || OneWord(t))
  }

  predicate OneWord(t: string) {
    forall i :: 0 <= i < |t| ==> !IsSpace(t[i]) && !IsQuote(t[i])
  }

  function OneArg(argsPart: string): Option<seq<string>> {
    var s := Trim(argsPart);
    match VerbatimFrom(s, [])
    case Some(tokens) =>
      if |tokens| <= 1 || forall t :: t in tokens[1..] ==> SimpleExtra(t) then Some(tokens) else SpanFrom(Trim(s), [])
    case None => SpanFrom(Trim(s), [])
  }

  /** The expectation behind a ` > ` that `after` starts with. */
  function Behind(after: string): Option<string> {
    var spaced := TrimStart(after);
    if |spaced| < |after| && |spaced| > 1 && spaced[0] == '>' && IsSpace(spaced[1]) then Some(TrimStart(spaced[1..]))
    else None
  }

  /** A quote with a ` > ` straight behind it. */
  predicate SplitsBehind(q: char, s: string, i: nat)
    requires i < |s|
  {
    s[i] == q && Behind(s[i + 1..]).Some?
  }

  /** The last quote `q` before `i`, but not the first character, that is
      followed by ` > `. */
  function LastQuoteSplit(rest: string, q: char, i: nat): Option<(string, string)>
    requires i <= |rest|
  {
    if i <= 1 then None
    else if SplitsBehind(q, rest, i - 1) then Some((rest[..i], Behind(rest[i..]).value))
    else LastQuoteSplit(rest, q, i - 1)
  }

  function QuoteSplit(rest: string): Option<(string, string)> {
    if rest != "" && IsQuote(rest[0]) then LastQuoteSplit(rest, rest[0], |rest|) else None
  }

  method SplitAfterLastQuote(rest: string) returns (r: Option<(string, string)>)
    ensures r == QuoteSplit(rest)
  {
    if rest == "" || !IsQuote(rest[0]) { return None; }
    var q := rest[0];
    var i := |rest|;
    while i > 1
      invariant 0 <= i <= |rest|
      invariant LastQuoteSplit(rest, q, |rest|) == LastQuoteSplit(rest, q, i)
    {
      i := i - 1;
      if rest[i] != q { continue; }
      var after := rest[i + 1..];
      var spaced := TrimStart(after);
      if |spaced| == |after| { continue; }
      if spaced != "" && spaced[0] == '>' {
        var expectation := spaced[1..];
        if expectation != "" && IsSpace(expectation[0]) {
          return Some((rest[..i + 1], TrimStart(expectation)));
        }
      }
    }
    return None;
  }

  /** The split behind the last quote, read as one argument. */
  function LastResort(rest: string): Option<(string, seq<string>)> {
    match QuoteSplit(rest)
    case None => None
    case Some((argsPart, expectation)) =>
      match OneArg(argsPart)
      case Some(args) => Some((expectation, args))
      case None => None
  }

  function SplitOneArg(rest: string): Option<(string, seq<string>)> {
    match ArgsAndExpectation(rest)
    case None => LastResort(rest)
    case Some((argsPart, expectation)) =>
      match OneArg(argsPart)
      case Some(args) => Some((expectation, args))
      case None => LastResort(rest)
  }

  function ParsedOneArg(skill: string, rest: string): Option<ToolCall> {
    match SplitOneArg(rest)
    case Some((expectation, args)) => Some(ToolCall(skill, args, Trim(expectation), []))
    case None => ParsedRest(skill, rest)
  }

  /** `parse_line_for`: `arity` tells how many positional arguments a registered
      skill takes. */
  function ParsedFor(line: string, arity: string -> Option<nat>): Option<ToolCall> {
    match NameAndRest(Trim(line))
    case None => None
    case Some((skill, rest)) =>
      if arity(skill) != Some(1) then Parsed(Trim(line)) else ParsedOneArg(skill, TrimStart(rest))
  }

  // -------------------------------------------- reading an argument verbatim

  lemma {:induction false} VerbatimRead(q: char, a: string, buf: string)
    requires IsQuote(q) && q !in a && (a == "" || a[|a| - 1] != '\\')
    ensures VerbatimQuoted(q, a + [q], buf) == Some((buf + a, ""))
    decreases |a|
  {
    if a == "" {
      assert a + [q] == [q] && buf + a == buf;
    } else {
      assert (a + [q])[1..] == a[1..] + [q];
      VerbatimRead(q, a[1..], buf + [a[0]]);
      assert buf + [a[0]] + a[1..] == buf + a;
    }
  }

  lemma {:induction false} DropNothing(q: char, s: string)
    requires q !in s
    ensures DropEscapes(q, s) == s
    decreases |s|
  {
    if s != "" {
      assert |s| > 1 ==> s[1] in s;
      DropNothing(q, s[1..]);
      assert [s[0]] + s[1..] == s;
    }
  }

  lemma {:induction false} SpanNotPeeled(q: char, a: string)
    requires IsQuote(q) && q !in a
    ensures PeelKeyValue([q] + a + [q]) == None
  {}

  // ------------------------------------------------- an appended option

  /** An argument followed by one `'key=value'` token. */
  function WithOption(q: char, a: string, kv: string): string {
    [q] + a + [q] + " " + [q] + kv + [q]
  }

  /** Where the option token opens. */
  lemma {:induction false} OptionOpens(q: char, a: string, kv: string)
    requires q !in kv
    ensures var body := [q] + a + [q] + " " + [q] + kv;
            && LastIndexBefore(body, |body|, q) == Some(|a| + 3)
            && body[|a| + 4..] == kv
            && body[..|a| + 3] == [q] + a + [q] + " "
  {
    var body := [q] + a + [q] + " " + [q] + kv;
    var open := |a| + 3;
    assert body[open] == q && forall k :: open < k < |body| ==> body[k] == kv[k - open - 1];
  }

  lemma {:induction false} PeelOfOption(q: char, a: string, kv: string)
    requires IsQuote(q) && q !in kv && IsKeyValue(kv)
    ensures PeelKeyValue(WithOption(q, a, kv)) == Some(([q] + a + [q], kv))
  {
    var s := WithOption(q, a, kv);
    var left := [q] + a + [q];
    assert s[..|s| - 1] == left + " " + [q] + kv;
    OptionOpens(q, a, kv);
    TrimEndSuffix(left, " ");
    assert TextEnd(left, |left|) == |left|;
  }

  lemma {:induction false} VerbatimReadOn(q: char, a: string, t: string, buf: string)
    requires IsQuote(q) && q !in a && t != "" && t[0] == q
    ensures if a == "" || a[|a| - 1] != '\\'
            then VerbatimQuoted(q, a + t, buf) == Some((buf + a, t[1..]))
            else VerbatimQuoted(q, a + t, buf) == VerbatimQuoted(q, t[1..], buf + a[..|a| - 1] + [q])
    decreases |a|
  {
    if a == "" {
      assert a + t == t && buf + a == buf;
    } else if |a| == 1 && a[0] == '\\' {
      assert (a + t)[2..] == t[1..];
      assert buf + a[..0] + [q] == buf + [q];
    } else {
      assert (a + t)[1..] == a[1..] + t;
      VerbatimReadOn(q, a[1..], t, buf + [a[0]]);
      assert buf + [a[0]] + a[1..] == buf + a;
      if |a| > 1 { assert buf + [a[0]] + a[1..][..|a| - 2] == buf + a[..|a| - 1]; }
    }
  }

  /** Text that does not start like a token is no token. */
  lemma {:induction false} VerbatimBare(s: string, out: seq<string>)
    requires !Blank(s) && !IsQuote(TrimStart(s)[0])
    ensures TrimStart(s) != "" && VerbatimFrom(s, out) == None
    decreases |s|
  {
    TrimBlank(s);
    if IsSpace(s[0]) {
      var t := s[1..];
      assert s == [s[0]] + t;
      TrimStartPrefix([s[0]], t);
      TrimBlank(t);
      VerbatimBare(t, out);
    } else {
      assert TrimStart(s) == s;
    }
  }

  lemma {:induction false} KeyStart(kv: string, t: string)
    requires IsKeyValue(kv)
    ensures !Blank(kv + t) && TrimStart(kv + t) != "" && !IsQuote(TrimStart(kv + t)[0])
  {
    var i := Find(kv, "=").value;
    var key := Trim(kv[..i]);
    var j := TextStart(kv[..i], 0);
    assert j < i && key[0] == kv[j];
    var s := kv + t;
    assert s[j] == kv[j] && !IsSpace(s[j]);
    assert forall k :: 0 <= k < j ==> s[k] == kv[..i][k];
    assert TextStart(s, 0) == j;
  }

  lemma {:induction false} VerbatimFirst(q: char, s: string, token: string, rest: string)
    requires IsQuote(q) && s != "" && s[0] == q && VerbatimQuoted(q, s[1..], "") == Some((token, rest))
    ensures VerbatimFrom(s, []) == VerbatimFrom(rest, [token])
  {
    assert [] + [token] == [token];
  }

  // --------------------------------------------------- any argument at all

  /** An argument with its own quotes escaped. */
  function Guarded(q: char, a: string): string {
    if a == "" then "" else (if a[0] == q then ['\\', q] else [a[0]]) + Guarded(q, a[1..])
  }

  lemma {:induction false} GuardedPlain(q: char, a: string)
    requires q !in a
    ensures Guarded(q, a) == a
    decreases |a|
  {
    if a != "" {
      assert a[0] in a && forall c :: c in a[1..] ==> c in a;
      GuardedPlain(q, a[1..]);
      assert [a[0]] + a[1..] == a;
    }
  }

  /** No other quote of its kind is left, and no escape is made up. */
  lemma {:induction false} GuardedStarts(q: char, a: string)
    requires IsQuote(q)
    ensures a == "" <==> Guarded(q, a) == ""
    ensures a != "" ==> Guarded(q, a)[0] != q && (Guarded(q, a)[0] == '\\' ==> a[0] == '\\' || a[0] == q)
  {}

  lemma {:induction false} GuardedBehindSlash(q: char, a: string, i: nat)
    requires IsQuote(q) && i < |Guarded(q, a)| && Guarded(q, a)[i] == q
    ensures i > 0 && Guarded(q, a)[i - 1] == '\\'
    decreases |a|
  {
    var front := if a[0] == q then ['\\', q] else [a[0]];
    var g := Guarded(q, a);
    assert g == front + Guarded(q, a[1..]);
    if i < |front| {
      assert g[i] == front[i];
    } else {
      var j := i - |front|;
      assert g[i] == Guarded(q, a[1..])[j];
      GuardedBehindSlash(q, a[1..], j);
      assert g[i - 1] == Guarded(q, a[1..])[j - 1];
    }
  }

  /** The last quote inside stands behind a backslash, so nothing is peeled off. */
  lemma {:induction false} GuardedNotPeeled(q: char, a: string)
    requires IsQuote(q)
    ensures PeelKeyValue([q] + Guarded(q, a) + [q]) == None
  {
    var g := Guarded(q, a);
    var s := [q] + g + [q];
    var body := s[..|s| - 1];
    assert body == [q] + g;
    var open := LastIndexBefore(body, |body|, q);
    assert body[0] == q;
    if open.value > 0 {
      assert g[open.value - 1] == body[open.value];
      GuardedBehindSlash(q, a, open.value - 1);
      NotSpaced(body[..open.value], body[open.value - 1]);
    } else {
      assert TrimEnd("") == "";
    }
  }

  lemma {:induction false} NotSpaced(s: string, c: char)
    requires s != "" && s[|s| - 1] == c == '\\'
    ensures TrimEnd(s) == s
  {
    assert !IsSpace(c);
  }

  lemma {:induction false} DropGuarded(q: char, a: string)
    requires IsQuote(q)
    ensures DropEscapes(q, Guarded(q, a)) == a
    decreases |a|
  {
    if a != "" {
      var more := Guarded(q, a[1..]);
      GuardedStarts(q, a[1..]);
      DropGuarded(q, a[1..]);
      assert [a[0]] + a[1..] == a;
      if a[0] == q {
        assert (['\\', q] + more)[2..] == more;
      } else {
        assert ([a[0]] + more)[1..] == more;
      }
    }
  }

  /** The verbatim reader undoes it, unless a backslash at the end swallows the closing
      quote. */
  lemma {:induction false} VerbatimGuarded(q: char, a: string, t: string, buf: string)
    requires IsQuote(q) && t != "" && t[0] == q
    ensures VerbatimQuoted(q, Guarded(q, a) + t, buf)
            == if a == "" || a[|a| - 1] != '\\' then Some((buf + a, t[1..]))
               else VerbatimQuoted(q, t[1..], buf + a[..|a| - 1] + [q])
    decreases |a|
  {
    if a == "" {
      assert Guarded(q, a) + t == t && buf + a == buf;
    } else if a == "\\" {
      SlashSwallows(q, t, buf);
      assert Guarded(q, a) == a && buf + a[..0] == buf;
    } else {
      VerbatimStep(q, a, t, buf);
      VerbatimGuarded(q, a[1..], t, buf + [a[0]]);
      Shifted(buf, a);
    }
  }

  lemma {:induction false} SlashSwallows(q: char, t: string, buf: string)
    requires IsQuote(q) && t != "" && t[0] == q
    ensures VerbatimQuoted(q, "\\" + t, buf) == VerbatimQuoted(q, t[1..], buf + [q])
  {
    assert ("\\" + t)[2..] == t[1..];
  }

  lemma {:induction false} VerbatimStep(q: char, a: string, t: string, buf: string)
    requires IsQuote(q) && t != "" && a != "" && (|a| > 1 || a[0] != '\\')
    ensures VerbatimQuoted(q, Guarded(q, a) + t, buf) == VerbatimQuoted(q, Guarded(q, a[1..]) + t, buf + [a[0]])
  {
    var more := Guarded(q, a[1..]) + t;
    GuardedStarts(q, a[1..]);
    VerbatimChar(q, a[0], more, buf);
    var front := if a[0] == q then ['\\', q] else [a[0]];
    assert Guarded(q, a) + t == front + more;
  }

  lemma {:induction false} VerbatimChar(q: char, c: char, more: string, buf: string)
    requires IsQuote(q) && more != "" && (c == '\\' ==> more[0] != q)
    ensures VerbatimQuoted(q, (if c == q then ['\\', q] else [c]) + more, buf) == VerbatimQuoted(q, more, buf + [c])
  {
    if c == q { assert (['\\', q] + more)[2..] == more; } else { assert ([c] + more)[1..] == more; }
  }

  lemma {:induction false} Shifted(buf: string, a: string)
    requires a != ""
    ensures buf + [a[0]] + a[1..] == buf + a
    ensures |a| > 1 ==> a[1..] != "" && a[1..][|a| - 2] == a[|a| - 1]
    ensures |a| > 1 ==> buf + [a[0]] + a[1..][..|a| - 2] == buf + a[..|a| - 1]
  {}

  // ------------------------------------------------------ any number of options

  /** What an option is: a name in front of the first `=`, white space around it or
      not. */
  lemma {:induction false} KeyValueIff(key: string, v: string)
    requires '=' !in key
    ensures IsKeyValue(key + ("=" + v)) <==>
              var name := Trim(key);
              && |name| > 0 && !('0' <= name[0] <= '9')
              && forall i :: 0 <= i < |name| ==>
                   || 'a' <= name[i] <= 'z' || 'A' <= name[i] <= 'Z' || '0' <= name[i] <= '9' || name[i] == '_'
  {
    var s := key + ("=" + v);
    assert s[|key|] == '=' && s[..|key|] == key;
    forall k: nat | k < |key|
      ensures !MatchAt(s, k, "=")
    {
      assert s[k] == key[k];
    }
    FindIs(s, "=", |key|);
  }

  predicate IsOption(q: char, kv: string) { q !in kv && IsKeyValue(kv) }

  predicate AllOptions(q: char, kvs: seq<string>) { forall i :: 0 <= i < |kvs| ==> IsOption(q, kvs[i]) }

  lemma {:induction false} SomeOptions(q: char, kvs: seq<string>)
    requires AllOptions(q, kvs) && kvs != []
    ensures var n := |kvs| - 1;
            AllOptions(q, kvs[..n]) && AllOptions(q, kvs[1..]) && IsOption(q, kvs[0]) && IsOption(q, kvs[n])
  {}

  /** `'key=value'` tokens in a row, from the closing quote of the argument to the last
      quote. */
  function Options(q: char, kvs: seq<string>): string {
    if kvs == [] then [q] else [q] + (" " + ([q] + (kvs[0] + Options(q, kvs[1..]))))
  }

  function WithOptions(q: char, a: string, kvs: seq<string>): string { [q] + (a + Options(q, kvs)) }

  /** The last option closes the line. */
  lemma {:induction false} OptionsEnd(q: char, kvs: seq<string>)
    requires kvs != []
    ensures var n := |kvs| - 1;
            Options(q, kvs) == Options(q, kvs[..n]) + (" " + ([q] + (kvs[n] + [q])))
    decreases |kvs|
  {
    var n := |kvs| - 1;
    if n > 0 {
      OptionsEnd(q, kvs[1..]);
      assert kvs[1..][..n - 1] == kvs[..n][1..] && kvs[1..][n - 1] == kvs[n];
      OptionsRegroup(q, kvs[0], Options(q, kvs[..n][1..]), " " + ([q] + (kvs[n] + [q])));
    } else {
      assert kvs[1..] == [] && kvs[..0] == [];
    }
  }

  lemma {:induction false} OptionsRegroup(q: char, kv: string, t: string, u: string)
    ensures [q] + (" " + ([q] + (kv + (t + u)))) == ([q] + (" " + ([q] + (kv + t)))) + u
  {}

  lemma {:induction false} OptionsStart(q: char, kvs: seq<string>)
    ensures var t := Options(q, kvs); t != "" && t[0] == q && t[|t| - 1] == q
    ensures kvs != [] ==> Options(q, kvs)[1..] == " " + ([q] + (kvs[0] + Options(q, kvs[1..])))
    decreases |kvs|
  {
    if kvs != [] { OptionsStart(q, kvs[1..]); }
  }

  lemma {:induction false} PeelLast(q: char, inner: string, kv: string, s: string)
    requires IsQuote(q) && IsOption(q, kv)
    requires s == ([q] + inner + [q]) + (" " + ([q] + (kv + [q])))
    ensures PeelKeyValue(s) == Some(([q] + inner + [q], kv))
  {
    assert s == WithOption(q, inner, kv);
    PeelOfOption(q, inner, kv);
  }

  lemma {:induction false} OptionsInner(q: char, a: string, t: string, option: string) returns (inner: string)
    requires t != "" && t[|t| - 1] == q
    ensures [q] + (a + t) == [q] + inner + [q]
    ensures [q] + (a + (t + option)) == ([q] + inner + [q]) + option
  {
    inner := a + t[..|t| - 1];
    assert a + t == inner + [q];
  }

  /** The last of them is peeled off. */
  lemma {:induction false} PeelOptions(q: char, a: string, kvs: seq<string>)
    requires IsQuote(q) && AllOptions(q, kvs) && kvs != []
    ensures var n := |kvs| - 1;
            PeelKeyValue(WithOptions(q, a, kvs)) == Some((WithOptions(q, a, kvs[..n]), kvs[n]))
  {
    var n := |kvs| - 1;
    OptionsEnd(q, kvs);
    OptionsStart(q, kvs[..n]);
    var inner := OptionsInner(q, a, Options(q, kvs[..n]), " " + ([q] + (kvs[n] + [q])));
    PeelLast(q, inner, kvs[n], WithOptions(q, a, kvs));
  }

  lemma {:induction false} SpanPeels(s: string, rest: string, kv: string, extras: seq<string>)
    requires PeelKeyValue(s) == Some((rest, kv))
    ensures SpanFrom(s, extras) == SpanFrom(rest, [kv] + extras)
  {}

  /** The peel loop takes them off one by one and keeps them in order. */
  lemma {:induction false} SpanOfOptions(q: char, a: string, kvs: seq<string>, extras: seq<string>)
    requires IsQuote(q) && AllOptions(q, kvs)
    ensures SpanFrom(WithOptions(q, a, kvs), extras) == SpanFrom(WithOptions(q, a, []), kvs + extras)
    decreases |kvs|
  {
    if kvs == [] {
      assert kvs + extras == extras;
    } else {
      var n := |kvs| - 1;
      SomeOptions(q, kvs);
      PeelOptions(q, a, kvs);
      SpanPeels(WithOptions(q, a, kvs), WithOptions(q, a, kvs[..n]), kvs[n], extras);
      SpanOfOptions(q, a, kvs[..n], [kvs[n]] + extras);
      LastMoved(kvs, extras);
    }
  }

  lemma {:induction false} LastMoved(xs: seq<string>, ys: seq<string>)
    requires xs != []
    ensures var n := |xs| - 1; xs[..n] + ([xs[n]] + ys) == xs + ys
  {}

  lemma {:induction false} FirstMoved(a: string, xs: seq<string>, out: seq<string>)
    requires xs != []
    ensures out + [a] + ([xs[0]] + xs[1..]) == out + ([a] + xs)
  {}

  /** What is left is the argument. */
  lemma {:induction false} SpanOfFirst(q: char, a: string, extras: seq<string>)
    requires IsQuote(q)
    ensures SpanFrom(WithOptions(q, Guarded(q, a), []), extras) == Some([a] + extras)
  {
    var g := Guarded(q, a);
    var s := [q] + g + [q];
    assert WithOptions(q, g, []) == s;
    GuardedNotPeeled(q, a);
    assert s[1..|s| - 1] == g;
    DropGuarded(q, a);
  }

  lemma {:induction false} VerbatimNext(q: char, s: string, token: string, rest: string, out: seq<string>)
    requires IsQuote(q) && s != "" && s[0] == q && VerbatimQuoted(q, s[1..], "") == Some((token, rest))
    ensures VerbatimFrom(s, out) == VerbatimFrom(rest, out + [token])
  {}

  lemma {:induction false} VerbatimSpace(s: string, out: seq<string>)
    ensures VerbatimFrom(" " + s, out) == VerbatimFrom(s, out)
  {
    assert (" " + s)[1..] == s;
  }

  /** A token that ends in no backslash is read as it is. */
  lemma {:induction false} VerbatimToken(q: char, a: string, t: string, out: seq<string>)
    requires IsQuote(q) && t != "" && t[0] == q && (a == "" || a[|a| - 1] != '\\')
    ensures VerbatimFrom([q] + (Guarded(q, a) + t), out) == VerbatimFrom(t[1..], out + [a])
  {
    var s := [q] + (Guarded(q, a) + t);
    assert s[1..] == Guarded(q, a) + t && "" + a == a;
    VerbatimGuarded(q, a, t, "");
    VerbatimNext(q, s, a, t[1..], out);
  }

  /** One that does is joined with the opening quote of the next, and what is left is
      no token; there may be no next. */
  lemma {:induction false} VerbatimSwallowed(q: char, a: string, kvs: seq<string>, out: seq<string>)
    requires IsQuote(q) && AllOptions(q, kvs) && a != "" && a[|a| - 1] == '\\'
    ensures VerbatimFrom(WithOptions(q, Guarded(q, a), kvs), out) == None
  {
    var t := Options(q, kvs);
    var s := WithOptions(q, Guarded(q, a), kvs);
    var buf := "" + a[..|a| - 1] + [q];
    OptionsStart(q, kvs);
    assert s[1..] == Guarded(q, a) + t;
    VerbatimGuarded(q, a, t, "");
    if kvs == [] {
      assert t[1..] == "";
    } else {
      SomeOptions(q, kvs);
      VerbatimJoined(q, kvs[0], Options(q, kvs[1..]), buf, out);
      VerbatimNext(q, s, buf + " ", kvs[0] + Options(q, kvs[1..]), out);
    }
  }

  /** Reading token by token either succeeds with all of them or fails. */
  lemma {:induction false} VerbatimOfOptions(q: char, a: string, kvs: seq<string>, out: seq<string>)
    requires IsQuote(q) && AllOptions(q, kvs)
    ensures VerbatimFrom(WithOptions(q, Guarded(q, a), kvs), out) in {None, Some(out + ([a] + kvs))}
    decreases |kvs|
  {
    if a != "" && a[|a| - 1] == '\\' {
      VerbatimSwallowed(q, a, kvs, out);
    } else {
      OptionsStart(q, kvs);
      VerbatimToken(q, a, Options(q, kvs), out);
      if kvs == [] {
        assert out + ([a] + []) == out + [a] && Options(q, kvs)[1..] == "";
      } else {
        SomeOptions(q, kvs);
        GuardedPlain(q, kvs[0]);
        VerbatimSpace(WithOptions(q, kvs[0], kvs[1..]), out + [a]);
        VerbatimOfOptions(q, kvs[0], kvs[1..], out + [a]);
        FirstMoved(a, kvs, out);
      }
    }
  }

  lemma {:induction false} VerbatimJoined(q: char, kv: string, t: string, buf: string, out: seq<string>)
    requires IsQuote(q) && IsKeyValue(kv)
    ensures VerbatimQuoted(q, " " + ([q] + (kv + t)), buf) == Some((buf + " ", kv + t))
    ensures VerbatimFrom(kv + t, out + [buf + " "]) == None
  {
    var s := " " + ([q] + (kv + t));
    assert s[1..] == [q] + (kv + t) && s[1..][1..] == kv + t;
    KeyStart(kv, t);
    VerbatimBare(kv + t, out + [buf + " "]);
  }

  /** Any argument, its own quotes escaped, is read back from in front of any number of
      `'key=value'` tokens, which stay tokens of their own, in order. */
  lemma {:induction false} OptionsStaySeparate(q: char, a: string, kvs: seq<string>)
    requires IsQuote(q) && AllOptions(q, kvs)
    ensures OneArg(WithOptions(q, Guarded(q, a), kvs)) == Some([a] + kvs)
  {
    var s := WithOptions(q, Guarded(q, a), kvs);
    OptionsStart(q, kvs);
    TrimFixed(s);
    VerbatimOfOptions(q, a, kvs, []);
    NothingAdded([a] + kvs);
    NothingAdded(kvs);
    SpanOfOptions(q, Guarded(q, a), kvs, []);
    SpanOfFirst(q, a, kvs);
    EitherReading(s, [a] + kvs);
  }

  /** In particular text between quotes of a kind it does not hold. */
  lemma {:induction false} OneArgOfQuoted(q: char, a: string)
    requires IsQuote(q) && q !in a
    ensures OneArg([q] + a + [q]) == Some([a])
  {
    GuardedPlain(q, a);
    OptionsStaySeparate(q, a, []);
    assert WithOptions(q, a, []) == [q] + a + [q];
    NothingAdded([a]);
  }

  lemma {:induction false} NothingAdded(xs: seq<string>)
    ensures [] + xs == xs && xs + [] == xs
  {}

  lemma {:induction false} EitherReading(s: string, tokens: seq<string>)
    requires Trim(s) == s && VerbatimFrom(s, []) in {None, Some(tokens)} && SpanFrom(s, []) == Some(tokens)
    ensures OneArg(s) == Some(tokens)
  {}

  // ------------------------------------------------------ the whole line

  /** Whether a quoted text that starts in state `escaped` ends with a pending
      backslash, as the splitter counts. */
  predicate EscapedAfter(a: string, escaped: bool) {
    if a == "" then escaped else EscapedAfter(a[1..], !escaped && a[0] == '\\')
  }

  lemma {:induction false} SplitReadsOver(s: string, i: nat, a: string, q: char, escaped: bool)
    requires q !in a && MatchAt(s, i, a)
    ensures SplitFrom(s, i, Some(q), escaped) == SplitFrom(s, i + |a|, Some(q), EscapedAfter(a, escaped))
    decreases |a|
  {
    if a != "" {
      assert s[i] == a[0];
      assert MatchAt(s, i + 1, a[1..]) by { assert forall k :: 0 <= k < |a| - 1 ==> a[1..][k] == a[k + 1]; }
      SplitReadsOver(s, i + 1, a[1..], q, !escaped && a[0] == '\\');
    }
  }

  lemma {:induction false} SplitNever(s: string, i: nat, q: char, escaped: bool)
    requires i <= |s| && forall k :: i <= k < |s| ==> s[k] != q
    ensures SplitFrom(s, i, Some(q), escaped) == None
    decreases |s| - i
  {
    if i < |s| { SplitNever(s, i + 1, q, !escaped && s[i] == '\\'); }
  }

  /** The call's text behind the skill name. */
  function QuotedCall(q: char, a: string, e: string): string {
    [q] + a + [q] + " > " + e
  }

  /** With the backslashes at the argument's end in pairs, the first ` > `
      outside quotes is the right one. */
  lemma {:induction false} SplitOfEven(q: char, a: string, e: string)
    requires IsQuote(q) && q !in a && !EscapedAfter(a, false) && e != ""
    ensures ArgsAndExpectation(QuotedCall(q, a, e)) == Some(([q] + a + [q], TrimStart(e)))
  {
    var s := QuotedCall(q, a, e);
    assert s[0] == q && s[|a| + 1] == q;
    assert MatchAt(s, 1, a);
    SplitReadsOver(s, 1, a, q, false);
    SplitAtEnd([q] + a + [q], e);
  }

  /** Otherwise the quote never closes for the splitter, and the last quote
      decides. */
  lemma {:induction false} SplitOfOdd(q: char, a: string, e: string)
    requires IsQuote(q) && q !in a && EscapedAfter(a, false) && q !in e
    ensures ArgsAndExpectation(QuotedCall(q, a, e)) == None
  {
    var s := QuotedCall(q, a, e);
    assert s[0] == q && s[|a| + 1] == q;
    assert MatchAt(s, 1, a);
    SplitReadsOver(s, 1, a, q, false);
    assert SplitFrom(s, |a| + 1, Some(q), true) == SplitFrom(s, |a| + 2, Some(q), false);
    assert forall k :: |a| + 2 <= k < |s| ==> s[k] != q;
    SplitNever(s, |a| + 2, q, false);
  }

  lemma {:induction false} LastQuoteFound(rest: string, q: char, i: nat, j: nat)
    requires 1 < i <= j <= |rest| && SplitsBehind(q, rest, i - 1)
    requires forall k: nat :: i <= k < j ==> !SplitsBehind(q, rest, k)
    ensures LastQuoteSplit(rest, q, j) == Some((rest[..i], Behind(rest[i..]).value))
    decreases j
  {
    if i < j { LastQuoteFound(rest, q, i, j - 1); }
  }

  lemma {:induction false} SeparatorFound(e: string)
    requires e != ""
    ensures Behind(" > " + e) == Some(TrimStart(e))
  {
    var after := " > " + e;
    assert after == " " + ("> " + e);
    TrimStartPrefix(" ", "> " + e);
    assert TrimStart("> " + e) == "> " + e;
    assert ("> " + e)[1..] == " " + e;
    TrimStartPrefix(" ", e);
  }

  lemma {:induction false} ParsedForIs(line: string, arity: string -> Option<nat>, skill: string, rest: string)
    requires NameAndRest(Trim(line)) == Some((skill, rest)) && arity(skill) == Some(1)
    ensures ParsedFor(line, arity) == ParsedOneArg(skill, TrimStart(rest))
  {}

  lemma {:induction false} EvenParses(skill: string, q: char, a: string, e: string)
    requires IsQuote(q) && q !in a && !EscapedAfter(a, false) && e != ""
    ensures ParsedOneArg(skill, QuotedCall(q, a, e)) == Some(ToolCall(skill, [a], Trim(e), []))
  {
    OneArgOfQuoted(q, a);
    SplitOfEven(q, a, e);
    TrimAgain(e);
  }
}
