/** Exactly when a one-argument call comes back as it was written
    (crates/agents/src/parse_tool_call.rs): behind an argument that ends in an
    unpaired backslash, and behind the printer, whose escapes the verbatim reader
    does not undo. */
module OneArgumentExact {
  import opened Text
  import opened ToolCallLine
  import opened OneArgument

  // ------------------------------------------- a quote that was read too far

  /** A text that starts with the argument in its quotes and ` >`. */
  predicate Opens(s: string, q: char, a: string) {
    && |s| >= |a| + 4 && s[0] == q && MatchAt(s, 1, a)
    && s[|a| + 1] == q && s[|a| + 2] == ' ' && s[|a| + 3] == '>'
  }

  /** The argument's last backslash stands in front of its closing quote. */
  predicate Slashed(q: char, a: string) {
    IsQuote(q) && q !in a && a != "" && a[|a| - 1] == '\\'
  }

  lemma {:induction false} OpensStays(s: string, q: char, a: string, n: nat)
    requires Opens(s, q, a) && |a| + 4 <= n <= |s|
    ensures Opens(TrimEnd(s[..n]), q, a)
  {
    var t := s[..n];
    assert !IsSpace(t[|a| + 3]);
    assert TextEnd(t, n) >= |a| + 4;
    assert MatchAt(t, 1, a);
  }

  lemma {:induction false} OpensTrimmed(s: string, q: char, a: string)
    requires Opens(s, q, a) && IsQuote(q)
    ensures Opens(Trim(s), q, a)
  {
    assert TextStart(s, 0) == 0;
    assert s[..|s|] == s;
    OpensStays(s, q, a, |s|);
  }

  lemma {:induction false} VerbatimExtends(q: char, s: string, buf: string)
    ensures var r := VerbatimQuoted(q, s, buf); r.Some? ==> buf <= r.value.0
    decreases |s|
  {
    if s != "" {
      if s[0] == '\\' && |s| > 1 && s[1] == q {
        VerbatimExtends(q, s[2..], buf + [q]);
      } else if s[0] != q {
        VerbatimExtends(q, s[1..], buf + [s[0]]);
      }
    }
  }

  lemma {:induction false} VerbatimGrows(s: string, out: seq<string>)
    ensures var r := VerbatimFrom(s, out); r.Some? ==> out <= r.value
    decreases |s|
  {
    if s != "" {
      if IsSpace(s[0]) {
        VerbatimGrows(s[1..], out);
      } else if IsQuote(s[0]) {
        var r := VerbatimQuoted(s[0], s[1..], "");
        if r.Some? { VerbatimGrows(r.value.1, out + [r.value.0]); }
      }
    }
  }

  /** The first token of those holds the quote. */
  predicate FirstHolds(ts: Option<seq<string>>, q: char) {
    ts.Some? ==> ts.value != [] && q in ts.value[0]
  }

  lemma {:induction false} VerbatimHolds(s: string, q: char, a: string)
    requires Opens(s, q, a) && Slashed(q, a)
    ensures FirstHolds(VerbatimFrom(s, []), q)
  {
    var t := s[|a| + 1..];
    assert s[1..] == a + t;
    VerbatimReadOn(q, a, t, "");
    var buf := "" + a[..|a| - 1] + [q];
    assert q in buf;
    VerbatimExtends(q, t[1..], buf);
    var r := VerbatimQuoted(q, s[1..], "");
    if r.Some? { VerbatimGrows(r.value.1, [] + [r.value.0]); }
  }

  // --------------------------------------------------------- as a single span

  lemma {:induction false} DropKeepsQuote(q: char, s: string)
    requires q in s
    ensures q in DropEscapes(q, s)
    decreases |s|
  {
    if !(s[0] == '\\' && |s| > 1 && s[1] == q) && s[0] != q { DropKeepsQuote(q, s[1..]); }
  }

  lemma {:induction false} PeelIsPrefix(s: string)
    ensures var r := PeelKeyValue(s); r.Some? ==> r.value.0 != "" && r.value.0 <= s
  {}

  /** The quote stands at the start and nowhere else. */
  predicate OnlyFirst(s: string, q: char) {
    s != "" && s[0] == q && forall k :: 0 < k < |s| ==> s[k] != q
  }

  lemma {:induction false} NoSpan(s: string, q: char, extras: seq<string>)
    requires OnlyFirst(s, q)
    ensures SpanFrom(s, extras) == None
    decreases |s|
  {
    PeelIsPrefix(s);
    var r := PeelKeyValue(s);
    if r.Some? { NoSpan(r.value.0, q, [r.value.1] + extras); }
  }

  /** Peeling an option leaves the opening alone, or ends up inside the argument. */
  lemma {:induction false} PeelKeeps(s: string, q: char, a: string)
    requires Opens(s, q, a) && Slashed(q, a)
    ensures var r := PeelKeyValue(s); r.Some? ==> Opens(r.value.0, q, a) || OnlyFirst(r.value.0, q)
  {
    var r := PeelKeyValue(s);
    if r.Some? {
      var rest := r.value.0;
      var body := s[..|s| - 1];
      var open := LastIndexBefore(body, |body|, s[|s| - 1]).value;
      assert rest == TrimEnd(body[..open]);
      if open >= |a| + 4 {
        assert body[..open] == s[..open];
        OpensStays(s, q, a, open);
      } else {
        assert open <= |a| + 1;
        PeelIsPrefix(s);
        InsideOpening(s, q, a, rest);
      }
    }
  }

  lemma {:induction false} InsideOpening(s: string, q: char, a: string, rest: string)
    requires Opens(s, q, a) && q !in a && rest != "" && rest <= s && |rest| <= |a| + 1
    ensures OnlyFirst(rest, q)
  {
    forall k | 0 < k < |rest|
      ensures rest[k] != q
    {
      assert rest[k] == s[1 + (k - 1)] == a[k - 1];
    }
  }

  lemma {:induction false} SpanHolds(s: string, q: char, a: string, extras: seq<string>)
    requires Opens(s, q, a) && Slashed(q, a)
    ensures FirstHolds(SpanFrom(s, extras), q)
    decreases |s|
  {
    var r := PeelKeyValue(s);
    if r.Some? {
      PeelKeeps(s, q, a);
      if Opens(r.value.0, q, a) {
        SpanHolds(r.value.0, q, a, [r.value.1] + extras);
      } else {
        NoSpan(r.value.0, q, [r.value.1] + extras);
      }
    } else if s[|s| - 1] == s[0] {
      var inner := s[1..|s| - 1];
      assert inner[|a|] == q;
      DropKeepsQuote(q, inner);
    }
  }

  /** However such a text is read as one argument, the quote is part of it. */
  lemma {:induction false} OneArgHolds(s: string, q: char, a: string)
    requires Opens(s, q, a) && Slashed(q, a)
    ensures FirstHolds(OneArg(s), q)
  {
    OpensTrimmed(s, q, a);
    OpensTrimmed(Trim(s), q, a);
    VerbatimHolds(Trim(s), q, a);
    SpanHolds(Trim(Trim(s)), q, a, []);
  }

  // ------------------------------------------------- as a list of arguments

  lemma {:induction false} ReadExtends(q: char, s: string, buf: string)
    ensures var r := ReadQuoted(q, s, buf); r.Some? ==> buf <= r.value.0
    decreases |s|
  {
    if s != "" {
      if s[0] == '\\' {
        if |s| > 1 { ReadExtends(q, s[2..], buf + Unescape(s[1])); }
      } else if s[0] != q {
        ReadExtends(q, s[1..], buf + [s[0]]);
      }
    }
  }

  lemma {:induction false} TokensExtend(s: string, out: seq<string>)
    ensures var r := TokensFrom(s, out); r.Some? ==> out <= r.value
    decreases |s|
  {
    if s != "" {
      if IsSpace(s[0]) {
        TokensExtend(s[1..], out);
      } else if IsQuote(s[0]) {
        var r := ReadQuoted(s[0], s[1..], "");
        if r.Some? { TokensExtend(r.value.1, out + [r.value.0]); }
      }
    }
  }

  /** An unpaired backslash takes the closing quote into the argument. */
  lemma {:induction false} ReadThrough(q: char, a: string, t: string, buf: string) returns (buf': string)
    requires IsQuote(q) && q !in a && EscapedAfter(a, false) && t != "" && t[0] == q
    ensures q in buf' && ReadQuoted(q, a + t, buf) == ReadQuoted(q, t[1..], buf')
    decreases |a|
  {
    if a[0] != '\\' {
      assert (a + t)[1..] == a[1..] + t;
      buf' := ReadThrough(q, a[1..], t, buf + [a[0]]);
    } else if |a| == 1 {
      assert (a + t)[2..] == t[1..];
      buf' := buf + [q];
    } else {
      assert (a + t)[2..] == a[2..] + t;
      assert a[1..][1..] == a[2..];
      buf' := ReadThrough(q, a[2..], t, buf + Unescape(a[1]));
    }
  }

  lemma {:induction false} TokensHold(s: string, q: char, a: string)
    requires Opens(s, q, a) && IsQuote(q) && q !in a && EscapedAfter(a, false)
    ensures FirstHolds(TokensFrom(s, []), q)
  {
    var t := s[|a| + 1..];
    assert s[1..] == a + t;
    var buf := ReadThrough(q, a, t, "");
    ReadExtends(q, t[1..], buf);
    var r := ReadQuoted(q, s[1..], "");
    if r.Some? { TokensExtend(r.value.1, [] + [r.value.0]); }
  }

  lemma {:induction false} RestHolds(skill: string, s: string, q: char, a: string)
    requires IsQuote(q) && q !in a && EscapedAfter(a, false)
    requires ArgsAndExpectation(s).Some? ==> Opens(ArgsAndExpectation(s).value.0, q, a)
    ensures var r := ParsedRest(skill, s); r.Some? ==> r.value.args != [] && q in r.value.args[0]
  {
    if ArgsAndExpectation(s).Some? {
      var left := ArgsAndExpectation(s).value.0;
      OpensTrimmed(left, q, a);
      TokensHold(Trim(left), q, a);
    }
  }

  // --------------------------------------------------- where the line is split

  lemma {:induction false} SplitBeyond(s: string, i: nat, quote: Option<char>, escaped: bool)
    ensures var r := SplitFrom(s, i, quote, escaped); r.Some? ==> r.value >= i
    decreases |s| - i
  {
    if i < |s| {
      if escaped {
        SplitBeyond(s, i + 1, quote, false);
      } else {
        match quote
        case Some(q) =>
          if s[i] == '\\' { SplitBeyond(s, i + 1, quote, true); }
          else if s[i] == q { SplitBeyond(s, i + 1, None, false); }
          else { SplitBeyond(s, i + 1, quote, false); }
        case None =>
          if IsQuote(s[i]) { SplitBeyond(s, i + 1, Some(s[i]), false); } else { SplitBeyond(s, i + 1, None, false); }
      }
    }
  }

  lemma {:induction false} EndsInSlash(a: string, escaped: bool)
    requires EscapedAfter(a, escaped)
    ensures a == "" || a[|a| - 1] == '\\'
    decreases |a|
  {
    if |a| > 1 { EndsInSlash(a[1..], !escaped && a[0] == '\\'); }
  }

  lemma {:induction false} CallOpens(q: char, a: string, e: string)
    ensures Opens(QuotedCall(q, a, e), q, a)
  {
    assert MatchAt(QuotedCall(q, a, e), 1, a);
  }

  /** The splitter takes the closing quote for a part of the argument, and so the
      separator behind it. */
  lemma {:induction false} ReadsPast(s: string, q: char, a: string)
    requires Opens(s, q, a) && IsQuote(q) && q !in a && EscapedAfter(a, false)
    ensures SplitFrom(s, 0, None, false) == SplitFrom(s, |a| + 4, Some(q), false)
  {
    SplitReadsOver(s, 1, a, q, false);
    var i := |a| + 1;
    assert SplitFrom(s, i, Some(q), true) == SplitFrom(s, i + 1, Some(q), false);
    assert SplitFrom(s, i + 1, Some(q), false) == SplitFrom(s, i + 2, Some(q), false);
    assert SplitFrom(s, i + 2, Some(q), false) == SplitFrom(s, i + 3, Some(q), false);
  }

  lemma {:induction false} SplitOpens(s: string, q: char, a: string)
    requires Opens(s, q, a) && IsQuote(q) && q !in a && EscapedAfter(a, false)
    ensures ArgsAndExpectation(s).Some? ==> Opens(ArgsAndExpectation(s).value.0, q, a)
  {
    ReadsPast(s, q, a);
    SplitBeyond(s, |a| + 4, Some(q), false);
    var r := SplitFrom(s, 0, None, false);
    if r.Some? { OpensStays(s, q, a, r.value); }
  }

  lemma {:induction false} LastQuoteBeyond(s: string, q: char, j: nat, k: nat)
    requires 0 < k < j <= |s| && SplitsBehind(q, s, k)
    ensures var r := LastQuoteSplit(s, q, j); r.Some? && k < |r.value.0| <= |s| && r.value.0 == s[..|r.value.0|]
    decreases j
  {
    if !SplitsBehind(q, s, j - 1) { LastQuoteBeyond(s, q, j - 1, k); }
  }

  // -------------------------------------------------------- the exact condition

  /** The escape-aware split finds a separator, and what is in front of it can be
      read as one argument: the branch `split_one_arg` tries first. */
  predicate FirstSplitReads(rest: string) {
    match ArgsAndExpectation(rest)
    case Some((left, _)) => OneArg(left).Some?
    case None => false
  }

  /** A quote in the expectation that has a separator of its own behind it. */
  predicate QuoteBeforeSeparator(q: char, e: string) {
    exists i: nat :: i < |e| && SplitsBehind(q, e, i)
  }

  lemma {:induction false} BehindInRest(s: string, n: nat, q: char, e: string, i: nat)
    requires n <= |s| && s[n..] == e && i < |e|
    ensures SplitsBehind(q, s, n + i) <==> SplitsBehind(q, e, i)
  {
    assert s[n + i] == e[i];
    assert s[n + i + 1..] == e[i + 1..];
  }

  lemma {:induction false} CallParts(q: char, a: string, e: string)
    ensures var s, n := QuotedCall(q, a, e), |a| + 2;
            && |s| == n + 3 + |e| && s[0] == q && s[..n] == [q] + a + [q] && s[n..] == " > " + e && s[n + 3..] == e
            && s[n - 1] == q && s[n] == ' ' && s[n + 1] == '>' && s[n + 2] == ' '
  {}

  lemma {:induction false} LastQuoteStands(s: string, q: char, n: nat, e: string)
    requires IsQuote(q) && 2 <= n && |s| == n + 3 + |e| && s[n + 3..] == e
    requires s[n] == ' ' && s[n + 1] == '>' && s[n + 2] == ' '
    requires SplitsBehind(q, s, n - 1) && !QuoteBeforeSeparator(q, e)
    ensures LastQuoteSplit(s, q, |s|) == Some((s[..n], Behind(s[n..]).value))
  {
    forall k: nat | n <= k < |s|
      ensures !SplitsBehind(q, s, k)
    {
      if k >= n + 3 {
        BehindInRest(s, n + 3, q, e, k - n - 3);
        assert !SplitsBehind(q, e, k - n - 3);
      }
    }
    LastQuoteFound(s, q, n, |s|);
  }

  /** With neither, the last quote decides, and rightly. */
  lemma {:induction false} LastQuoteIsRight(q: char, a: string, e: string)
    requires IsQuote(q) && e != "" && !QuoteBeforeSeparator(q, e)
    ensures QuoteSplit(QuotedCall(q, a, e)) == Some(([q] + a + [q], TrimStart(e)))
  {
    CallParts(q, a, e);
    SeparatorFound(e);
    LastQuoteStands(QuotedCall(q, a, e), q, |a| + 2, e);
  }

  lemma {:induction false} LastQuoteOpens(s: string, q: char, a: string, k: nat)
    requires Opens(s, q, a) && |a| + 4 <= k < |s| && SplitsBehind(q, s, k)
    ensures var r := LastQuoteSplit(s, q, |s|); r.Some? && Opens(r.value.0, q, a)
  {
    LastQuoteBeyond(s, q, |s|, k);
    var left := LastQuoteSplit(s, q, |s|).value.0;
    PrefixOpens(s, q, a, |left|);
  }

  lemma {:induction false} MisleadingQuote(q: char, e: string) returns (i: nat)
    requires QuoteBeforeSeparator(q, e)
    ensures i < |e| && SplitsBehind(q, e, i)
  {
    i :| i < |e| && SplitsBehind(q, e, i);
  }

  lemma {:induction false} QuoteInCall(q: char, a: string, e: string, i: nat)
    requires i < |e| && SplitsBehind(q, e, i)
    ensures |a| + 5 + i < |QuotedCall(q, a, e)| && SplitsBehind(q, QuotedCall(q, a, e), |a| + 5 + i)
  {
    var s, k := QuotedCall(q, a, e), |a| + 5 + i;
    assert s[k] == e[i];
    assert s[k + 1..] == e[i + 1..];
  }

  lemma {:induction false} LastQuoteOfCall(q: char, a: string, e: string, i: nat)
    requires i < |e| && SplitsBehind(q, e, i)
    ensures var s := QuotedCall(q, a, e);
            var r := LastQuoteSplit(s, q, |s|);
            r.Some? && Opens(r.value.0, q, a)
  {
    CallOpens(q, a, e);
    QuoteInCall(q, a, e, i);
    LastQuoteOpens(QuotedCall(q, a, e), q, a, |a| + 5 + i);
  }

  lemma {:induction false} ResortHolds(s: string, q: char, a: string)
    requires Slashed(q, a) && s != "" && s[0] == q
    requires var r := LastQuoteSplit(s, q, |s|); r.Some? && Opens(r.value.0, q, a)
    ensures var r := LastResort(s); r.Some? ==> r.value.1 != [] && q in r.value.1[0]
  {
    OneArgHolds(LastQuoteSplit(s, q, |s|).value.0, q, a);
  }

  /** With one in the expectation, the last quote is there too. */
  lemma {:induction false} LastQuoteIsWrong(q: char, a: string, e: string)
    requires Slashed(q, a) && QuoteBeforeSeparator(q, e)
    ensures var r := LastResort(QuotedCall(q, a, e)); r.Some? ==> r.value.1 != [] && q in r.value.1[0]
  {
    var i := MisleadingQuote(q, e);
    LastQuoteOfCall(q, a, e, i);
    ResortHolds(QuotedCall(q, a, e), q, a);
  }

  lemma {:induction false} PrefixOpens(s: string, q: char, a: string, n: nat)
    requires Opens(s, q, a) && |a| + 4 <= n <= |s|
    ensures Opens(s[..n], q, a)
  {
    assert MatchAt(s[..n], 1, a);
  }

  /** Where it goes wrong, the closing quote became part of the argument, or nothing
      was read at all. */
  lemma {:induction false} Misread(skill: string, q: char, a: string, e: string)
    requires IsQuote(q) && q !in a && EscapedAfter(a, false)
    requires FirstSplitReads(QuotedCall(q, a, e)) || QuoteBeforeSeparator(q, e)
    ensures var r := ParsedOneArg(skill, QuotedCall(q, a, e)); r.Some? ==> r.value.args != [] && q in r.value.args[0]
  {
    var s := QuotedCall(q, a, e);
    EndsInSlash(a, false);
    CallOpens(q, a, e);
    SplitOpens(s, q, a);
    RestHolds(skill, s, q, a);
    if FirstSplitReads(s) {
      OneArgHolds(ArgsAndExpectation(s).value.0, q, a);
    } else {
      LastQuoteIsWrong(q, a, e);
    }
  }

  lemma {:induction false} OddReadRight(skill: string, q: char, a: string, e: string)
    requires IsQuote(q) && q !in a && e != ""
    requires !FirstSplitReads(QuotedCall(q, a, e)) && !QuoteBeforeSeparator(q, e)
    ensures ParsedOneArg(skill, QuotedCall(q, a, e)) == Some(ToolCall(skill, [a], Trim(e), []))
  {
    OneArgOfQuoted(q, a);
    LastQuoteIsRight(q, a, e);
    TrimAgain(e);
  }

  /** A line whose arguments stand in front of the expectation as `shown`. */
  lemma {:induction false} LineReads(skill: string, shown: string, e: string, arity: string -> Option<nat>)
    requires IsSkillName(skill) && arity(skill) == Some(1) && shown != "" && !IsSpace(shown[0]) && !Blank(e)
    ensures ParsedFor(skill + " " + shown + " > " + e, arity) == ParsedOneArg(skill, shown + " > " + TrimEnd(e))
  {
    var rest := shown + " > ";
    assert rest[0] == shown[0];
    NameOfSpaced(skill, rest, e);
    LineRegrouped(skill, shown, e);
    ParsedForIs(skill + " " + rest + e, arity, skill, " " + rest + TrimEnd(e));
  }

  lemma {:induction false} LineRegrouped(skill: string, shown: string, e: string)
    ensures skill + " " + (shown + " > ") + e == skill + " " + shown + " > " + e
  {}

  lemma {:induction false} CallReads(skill: string, q: char, a: string, e: string, arity: string -> Option<nat>)
    requires IsSkillName(skill) && arity(skill) == Some(1) && IsQuote(q) && !Blank(e)
    ensures ParsedFor(skill + " " + ([q] + a + [q]) + " > " + e, arity)
            == ParsedOneArg(skill, QuotedCall(q, a, TrimEnd(e)))
  {
    LineReads(skill, [q] + a + [q], e, arity);
  }

  /** The verbatim round trip with its exact domain: an argument free of its own
      quote comes back unchanged as the only argument if and only if it does not end
      in an unpaired backslash, or neither the escape-aware split nor a quote of the
      expectation leads the reader astray. */
  lemma {:induction false} VerbatimRoundTripIff(
    skill: string, q: char, a: string, e: string, arity: string -> Option<nat>)
    requires IsSkillName(skill) && arity(skill) == Some(1) && IsQuote(q) && q !in a && !Blank(e)
    ensures ParsedFor(skill + " " + ([q] + a + [q]) + " > " + e, arity) == Some(ToolCall(skill, [a], Trim(e), []))
            <==> (EscapedAfter(a, false) ==>
                    !FirstSplitReads(QuotedCall(q, a, TrimEnd(e))) && !QuoteBeforeSeparator(q, TrimEnd(e)))
  {
    CallReads(skill, q, a, e, arity);
    TrimBlank(e);
    TrimAgain(e);
    var kept := TrimEnd(e);
    if !EscapedAfter(a, false) {
      EvenParses(skill, q, a, kept);
    } else if FirstSplitReads(QuotedCall(q, a, kept)) || QuoteBeforeSeparator(q, kept) {
      Misread(skill, q, a, kept);
    } else {
      OddReadRight(skill, q, a, kept);
    }
  }

  /** Any backslashes and any inner ` > `: an argument comes back unchanged whenever
      its quote is in neither the argument nor the expectation, or the argument does
      not end in an unpaired backslash. */
  lemma {:induction false} VerbatimRoundTrip(
    skill: string, q: char, a: string, e: string, arity: string -> Option<nat>)
    requires IsSkillName(skill) && arity(skill) == Some(1) && IsQuote(q) && q !in a && !Blank(e)
    requires EscapedAfter(a, false) ==> q !in e
    ensures ParsedFor(skill + " " + ([q] + a + [q]) + " > " + e, arity) == Some(ToolCall(skill, [a], Trim(e), []))
  {
    VerbatimRoundTripIff(skill, q, a, e, arity);
    if EscapedAfter(a, false) {
      assert forall c :: c in TrimEnd(e) ==> c in e;
      SplitOfOdd(q, a, TrimEnd(e));
    }
  }

  /** A family of failures: behind an unpaired backslash, every expectation with a
      quote and a further separator makes the reader return another argument. */
  lemma {:induction false} UnpairedBackslashMisreads(
    skill: string, q: char, a: string, b: string, c: string, arity: string -> Option<nat>)
    requires IsSkillName(skill) && arity(skill) == Some(1) && IsQuote(q) && q !in a && EscapedAfter(a, false)
             && !Blank(c)
    ensures var r := ParsedFor(skill + " " + ([q] + a + [q]) + " > " + (b + [q] + " > " + c), arity);
            r.Some? ==> r.value.args != [a]
  {
    var e := b + [q] + " > " + c;
    TrimEndKeeps(b + [q] + " > ", c);
    TrimBlank(c);
    TrimBlank(e);
    assert !IsSpace(e[|b|]);
    CallReads(skill, q, a, e, arity);
    SeparatorBehind(q, b, TrimEnd(c));
    Misread(skill, q, a, TrimEnd(e));
  }

  lemma {:induction false} SeparatorBehind(q: char, b: string, c: string)
    requires c != ""
    ensures QuoteBeforeSeparator(q, b + [q] + " > " + c)
  {
    var e := b + [q] + " > " + c;
    assert e[|b| + 1..] == " > " + c;
    SeparatorFound(c);
    assert SplitsBehind(q, e, |b|);
  }

  // ------------------------------------- an argument that holds its own quote

  /** One quote of the argument's own kind, between `x` and `y`: a plain text on the
      right, and on the left nothing that would make the quote an escaped one or the
      start of an option. */
  predicate InnerQuote(q: char, x: string, y: string) {
    && IsQuote(q) && q !in x
    && (x == "" || (x[|x| - 1] != '\\' && !IsSpace(x[|x| - 1])))
    && forall i :: 0 <= i < |y| ==> !IsQuote(y[i]) && y[i] != '>'
  }

  lemma {:induction false} SplitPassesPlain(s: string, i: nat, y: string)
    requires MatchAt(s, i, y) && forall k :: 0 <= k < |y| ==> !IsQuote(y[k]) && y[k] != '>'
    ensures SplitFrom(s, i, None, false) == SplitFrom(s, i + |y|, None, false)
    decreases |y|
  {
    if y != "" {
      assert s[i] == y[0];
      assert MatchAt(s, i + 1, y[1..]) by { assert forall k :: 0 <= k < |y| - 1 ==> y[1..][k] == y[k + 1]; }
      SplitPassesPlain(s, i + 1, y[1..]);
    }
  }

  lemma {:induction false} EndsUnescaped(a: string, escaped: bool)
    requires a != "" && a[|a| - 1] != '\\'
    ensures !EscapedAfter(a, escaped)
    decreases |a|
  {
    if EscapedAfter(a, escaped) { EndsInSlash(a, escaped); }
  }

  /** The splitter takes the inner quote for the closing one and the closing one for
      an opening one, which nothing closes. */
  lemma {:induction false} NoFirstSplit(s: string, q: char, x: string, y: string)
    requires InnerQuote(q, x, y) && |s| >= |x| + |y| + 3 && s[0] == q
    requires MatchAt(s, 1, x) && s[|x| + 1] == q && MatchAt(s, |x| + 2, y) && s[|x| + |y| + 2] == q
    requires forall k :: |x| + |y| + 3 <= k < |s| ==> s[k] != q
    ensures ArgsAndExpectation(s) == None
  {
    InnerCloses(s, q, x);
    NeverClosed(s, q, |x| + 2, y);
  }

  lemma {:induction false} NeverClosed(s: string, q: char, i: nat, y: string)
    requires IsQuote(q) && (forall k :: 0 <= k < |y| ==> !IsQuote(y[k]) && y[k] != '>')
    requires MatchAt(s, i, y) && i + |y| < |s| && s[i + |y|] == q && forall k :: i + |y| < k < |s| ==> s[k] != q
    ensures SplitFrom(s, i, None, false) == None
  {
    SplitPassesPlain(s, i, y);
    QuoteOpens(s, q, i + |y|);
    SplitNever(s, i + |y| + 1, q, false);
  }

  lemma {:induction false} InnerCloses(s: string, q: char, x: string)
    requires IsQuote(q) && q !in x && (x == "" || x[|x| - 1] != '\\')
    requires |s| > |x| + 1 && s[0] == q && MatchAt(s, 1, x) && s[|x| + 1] == q
    ensures SplitFrom(s, 0, None, false) == SplitFrom(s, |x| + 2, None, false)
  {
    SplitReadsOver(s, 1, x, q, false);
    if x != "" { EndsUnescaped(x, false); }
    assert SplitFrom(s, 0, None, false) == SplitFrom(s, 1, Some(q), false);
  }

  lemma {:induction false} QuoteOpens(s: string, q: char, i: nat)
    requires IsQuote(q) && i < |s| && s[i] == q
    ensures SplitFrom(s, i, None, false) == SplitFrom(s, i + 1, Some(q), false)
  {}

  lemma {:induction false} NoToken(q: char, y: string, out: seq<string>)
    requires IsQuote(q) && forall i :: 0 <= i < |y| ==> !IsQuote(y[i])
    ensures VerbatimFrom(y + [q], out) == None
    decreases |y|
  {
    var s := y + [q];
    if y == "" {
      assert s[1..] == "";
    } else {
      assert s[0] == y[0] && s[1..] == y[1..] + [q];
      NoToken(q, y[1..], out);
    }
  }

  lemma {:induction false} InnerVerbatim(q: char, x: string, y: string)
    requires InnerQuote(q, x, y)
    ensures VerbatimFrom([q] + (x + [q] + y) + [q], []) == None
  {
    var s, t := [q] + (x + [q] + y) + [q], [q] + (y + [q]);
    assert s[1..] == x + t && t[1..] == y + [q];
    VerbatimReadOn(q, x, t, "");
    VerbatimFirst(q, s, "" + x, y + [q]);
    NoToken(q, y, ["" + x]);
  }

  lemma {:induction false} InnerNotPeeled(q: char, x: string, y: string)
    requires InnerQuote(q, x, y)
    ensures PeelKeyValue([q] + (x + [q] + y) + [q]) == None
  {
    var s, body := [q] + (x + [q] + y) + [q], [q] + x + [q] + y;
    assert s[..|s| - 1] == body && s[|s| - 1] == q;
    var open := |x| + 1;
    assert body[open] == q && forall k :: open < k < |body| ==> body[k] == y[k - open - 1];
    assert LastIndexBefore(body, |body|, q) == Some(open);
    var before := body[..open];
    assert before == [q] + x && !IsSpace(before[|before| - 1]);
    assert TrimEnd(before) == before;
  }

  lemma {:induction false} InnerKept(q: char, x: string, y: string)
    requires InnerQuote(q, x, y)
    ensures DropEscapes(q, x + [q] + y) == x + [q] + y
    decreases |x|
  {
    var s := x + [q] + y;
    if x == "" {
      assert s[0] == q && s[1..] == y;
      DropNothing(q, y);
      assert [q] + y == s;
    } else {
      assert s[0] == x[0] && s[1..] == x[1..] + [q] + y;
      assert |x| > 1 ==> x[1..][|x| - 2] == x[|x| - 1];
      InnerKept(q, x[1..], y);
      assert [s[0]] + s[1..] == s;
    }
  }

  lemma {:induction false} InnerSpan(q: char, x: string, y: string)
    requires InnerQuote(q, x, y)
    ensures SpanFrom([q] + (x + [q] + y) + [q], []) == Some([x + [q] + y])
  {
    var a := x + [q] + y;
    var s := [q] + a + [q];
    InnerNotPeeled(q, x, y);
    assert s[1..|s| - 1] == a;
    InnerKept(q, x, y);
    assert [a] + [] == [a];
  }

  lemma {:induction false} InnerOneArg(q: char, x: string, y: string)
    requires InnerQuote(q, x, y)
    ensures OneArg([q] + (x + [q] + y) + [q]) == Some([x + [q] + y])
  {
    var s := [q] + (x + [q] + y) + [q];
    TrimFixed(s);
    InnerVerbatim(q, x, y);
    InnerSpan(q, x, y);
    OneArgIs(s, x + [q] + y);
  }

  lemma {:induction false} InnerCall(q: char, x: string, y: string, e: string)
    ensures var s := QuotedCall(q, x + [q] + y, e);
            && |s| >= |x| + |y| + 3 && s[0] == q && MatchAt(s, 1, x) && s[|x| + 1] == q
            && MatchAt(s, |x| + 2, y) && s[|x| + |y| + 2] == q
            && s[|x| + |y| + 3..] == " > " + e
  {}

  lemma {:induction false} NoQuoteBehind(q: char, e: string)
    requires IsQuote(q) && q !in e
    ensures q !in " > " + e && !QuoteBeforeSeparator(q, e)
  {}

  /** The case the last-quote split is there for: an argument with its own quote
      inside, such as an apostrophe, comes back whole and unchanged. */
  lemma {:induction false} InnerQuoteRoundTrip(
    skill: string, q: char, x: string, y: string, e: string, arity: string -> Option<nat>)
    requires IsSkillName(skill) && arity(skill) == Some(1) && InnerQuote(q, x, y) && q !in e && !Blank(e)
    ensures ParsedFor(skill + " " + ([q] + (x + [q] + y) + [q]) + " > " + e, arity)
            == Some(ToolCall(skill, [x + [q] + y], Trim(e), []))
  {
    CallReads(skill, q, x + [q] + y, e, arity);
    TrimBlank(e);
    TrimAgain(e);
    assert forall c :: c in TrimEnd(e) ==> c in e;
    InnerParses(skill, q, x, y, TrimEnd(e));
  }

  lemma {:induction false} InnerParses(skill: string, q: char, x: string, y: string, e: string)
    requires InnerQuote(q, x, y) && q !in e && e != ""
    ensures ParsedOneArg(skill, QuotedCall(q, x + [q] + y, e)) == Some(ToolCall(skill, [x + [q] + y], Trim(e), []))
  {
    var s := QuotedCall(q, x + [q] + y, e);
    InnerCall(q, x, y, e);
    NoQuoteBehind(q, e);
    assert forall k :: |x| + |y| + 3 <= k < |s| ==> s[k] == s[|x| + |y| + 3..][k - |x| - |y| - 3];
    NoFirstSplit(s, q, x, y);
    InnerOneArg(q, x, y);
    LastQuoteIsRight(q, x + [q] + y, e);
    TrimAgain(e);
  }

  // --------------------------------------------------- behind the printer

  /** What the verbatim reader makes of a printed argument: the escapes stay, but
      for those of quotes. */
  function Kept(a: string): string {
    if a == "" then "" else KeptChar(a[0]) + Kept(a[1..])
  }

  function KeptChar(c: char): string { if c == '\'' then "'" else EscapeChar(c) }

  /** An escaped text never starts with a quote. */
  lemma {:induction false} EscapeStart(a: string)
    requires a != ""
    ensures Escape(a) != "" && Escape(a)[0] != '\''
  {}

  lemma {:induction false} EscapeCons(a: string, t: string)
    requires a != ""
    ensures Escape(a) + t == EscapeChar(a[0]) + (Escape(a[1..]) + t)
  {}

  lemma {:induction false} VerbatimChar(c: char, t: string, buf: string)
    requires t != "" && (c == '\\' ==> t[0] != '\'')
    ensures VerbatimQuoted('\'', EscapeChar(c) + t, buf) == VerbatimQuoted('\'', t, buf + KeptChar(c))
  {
    var s := EscapeChar(c) + t;
    if |EscapeChar(c)| == 2 {
      var d := EscapeChar(c)[1];
      assert s[0] == '\\' && s[1] == d && s[2..] == t;
      if c != '\'' {
        assert s[1..][0] == d && s[1..][1..] == t;
        assert VerbatimQuoted('\'', s, buf) == VerbatimQuoted('\'', s[1..], buf + ['\\']);
        assert VerbatimQuoted('\'', s[1..], buf + ['\\']) == VerbatimQuoted('\'', t, buf + ['\\'] + [d]);
        assert buf + ['\\'] + [d] == buf + EscapeChar(c);
      }
    } else {
      assert s[0] == c && s[1..] == t;
    }
  }

  lemma {:induction false} PrintedStep(a: string, buf: string)
    requires a != "" && a != "\\"
    ensures VerbatimQuoted('\'', Escape(a) + "'", buf)
            == VerbatimQuoted('\'', Escape(a[1..]) + "'", buf + KeptChar(a[0]))
  {
    EscapeCons(a, "'");
    if |a| > 1 { EscapeStart(a[1..]); }
    VerbatimChar(a[0], Escape(a[1..]) + "'", buf);
  }

  lemma {:induction false} KeptCons(a: string, buf: string)
    requires a != ""
    ensures buf + KeptChar(a[0]) + Kept(a[1..]) == buf + Kept(a)
  {
    Regrouped(buf, KeptChar(a[0]), Kept(a[1..]));
  }

  lemma {:induction false} Regrouped(a: string, b: string, c: string)
    ensures a + b + c == a + (b + c)
  {}

  lemma {:induction false} QuoteCloses(buf: string)
    ensures VerbatimQuoted('\'', Escape("") + "'", buf) == Some((buf + Kept(""), ""))
  {
    var s := Escape("") + "'";
    assert s == "'" && s[1..] == "" && buf + Kept("") == buf;
  }

  lemma {:induction false} VerbatimPrinted(a: string, buf: string)
    ensures VerbatimQuoted('\'', Escape(a) + "'", buf)
            == if a != "" && a[|a| - 1] == '\\' then None else Some((buf + Kept(a), ""))
    decreases |a|
  {
    if a == "" {
      QuoteCloses(buf);
    } else if a == "\\" {
      SlashUnclosed(buf);
    } else {
      PrintedStep(a, buf);
      VerbatimPrinted(a[1..], buf + KeptChar(a[0]));
      KeptCons(a, buf);
    }
  }

  lemma {:induction false} SlashUnclosed(buf: string)
    ensures VerbatimQuoted('\'', Escape("\\") + "'", buf) == None
  {
    var s := Escape("\\") + "'";
    assert "\\"[1..] == "";
    assert s == "\\\\'";
    assert s[1..] == "\\'" && s[1..][2..] == "";
  }

  lemma {:induction false} DropChar(c: char, t: string)
    requires c == '\\' ==> t == "" || t[0] != '\''
    ensures DropEscapes('\'', EscapeChar(c) + t) == KeptChar(c) + DropEscapes('\'', t)
  {
    var s := EscapeChar(c) + t;
    if |EscapeChar(c)| == 2 {
      var d := EscapeChar(c)[1];
      assert s[0] == '\\' && s[1] == d && s[2..] == t;
      if c != '\'' {
        assert s[1..][0] == d && s[1..][1..] == t;
        assert DropEscapes('\'', s[1..]) == [d] + DropEscapes('\'', t);
        assert ['\\'] + ([d] + DropEscapes('\'', t)) == EscapeChar(c) + DropEscapes('\'', t);
      }
    } else {
      assert s[0] == c && s[1..] == t;
    }
  }

  lemma {:induction false} DropPrinted(a: string)
    ensures DropEscapes('\'', Escape(a)) == Kept(a)
    decreases |a|
  {
    if a != "" {
      if |a| > 1 { EscapeStart(a[1..]); }
      DropChar(a[0], Escape(a[1..]));
      DropPrinted(a[1..]);
    }
  }

  /** Every quote in an escaped text has its backslash in front of it. */
  lemma {:induction false} QuotesAreEscaped(a: string, i: nat)
    requires i < |Escape(a)| && Escape(a)[i] == '\''
    ensures 0 < i && Escape(a)[i - 1] == '\\'
    decreases |a|
  {
    var n := |EscapeChar(a[0])|;
    if i >= n {
      assert Escape(a)[i] == Escape(a[1..])[i - n];
      QuotesAreEscaped(a[1..], i - n);
    }
  }

  lemma {:induction false} PrintedNotPeeled(a: string)
    ensures PeelKeyValue(Quoted(a)) == None
  {
    var s := Quoted(a);
    var body := "'" + Escape(a);
    assert s[..|s| - 1] == body && s[|s| - 1] == '\'';
    assert body[0] == '\'';
    var open := LastIndexBefore(body, |body|, '\'').value;
    if open > 0 {
      QuotesAreEscaped(a, open - 1);
      var before := body[..open];
      assert before[open - 1] == '\\';
      assert TrimEnd(before) == before;
    }
  }

  lemma {:induction false} SpanPrinted(a: string)
    ensures SpanFrom(Quoted(a), []) == Some([Kept(a)])
  {
    var s := Quoted(a);
    PrintedNotPeeled(a);
    assert s[0] == '\'' && s[|s| - 1] == '\'' && s[1..|s| - 1] == Escape(a);
    DropPrinted(a);
    assert [Kept(a)] + [] == [Kept(a)];
  }

  lemma {:induction false} VerbatimOfPrinted(a: string)
    ensures VerbatimFrom(Quoted(a), []) == if a != "" && a[|a| - 1] == '\\' then None else Some([Kept(a)])
  {
    assert Quoted(a)[1..] == Escape(a) + "'";
    VerbatimPrinted(a, "");
    FirstOfNone(Kept(a));
  }

  lemma {:induction false} FirstOfNone(token: string)
    ensures "" + token == token && VerbatimFrom("", [] + [token]) == Some([token])
  {
    assert [] + [token] == [token];
  }

  lemma {:induction false} OneArgIs(s: string, token: string)
    requires Trim(s) == s && SpanFrom(s, []) == Some([token])
    requires VerbatimFrom(s, []) == None || VerbatimFrom(s, []) == Some([token])
    ensures OneArg(s) == Some([token])
  {}

  lemma {:induction false} OneArgPrinted(a: string)
    ensures OneArg(Quoted(a)) == Some([Kept(a)])
  {
    TrimFixed(Quoted(a));
    VerbatimOfPrinted(a);
    SpanPrinted(a);
    OneArgIs(Quoted(a), Kept(a));
  }

  predicate NothingToEscape(a: string) { '\\' !in a && '\n' !in a && '\t' !in a }

  lemma {:induction false} KeptIff(a: string)
    ensures |Kept(a)| >= |a|
    ensures Kept(a) == a <==> NothingToEscape(a)
    ensures !NothingToEscape(a) ==> |Kept(a)| > |a|
    decreases |a|
  {
    if a != "" {
      KeptIff(a[1..]);
      assert a == [a[0]] + a[1..];
    }
  }

  lemma {:induction false} ShownOne(a: string)
    ensures Shown([a]) == Quoted(a)
  {
    assert [a][1..] == [];
  }

  lemma {:induction false} PrintedParses(skill: string, a: string, e: string)
    requires e != ""
    ensures ParsedOneArg(skill, Quoted(a) + " > " + e) == Some(ToolCall(skill, [Kept(a)], Trim(e), []))
  {
    ShownOne(a);
    SplitOfRendered([a], e);
    OneArgPrinted(a);
    SplitReads(skill, Quoted(a) + " > " + e, Quoted(a), e, [Kept(a)]);
  }

  lemma {:induction false} SplitReads(skill: string, rest: string, argsPart: string, e: string, args: seq<string>)
    requires ArgsAndExpectation(rest) == Some((argsPart, TrimStart(e))) && OneArg(argsPart) == Some(args)
    ensures ParsedOneArg(skill, rest) == Some(ToolCall(skill, args, Trim(e), []))
  {
    TrimAgain(e);
  }

  lemma {:induction false} RenderedOne(skill: string, a: string)
    ensures Rendered(skill, [a]) == skill + " " + Quoted(a)
  {
    ShownOne(a);
  }

  /** The printer and the one-argument reader: every printed argument is read as one
      argument, its quotes restored and all other escapes kept, so it comes back as
      itself if and only if it holds no backslash, line break or tab. */
  lemma {:induction false} PrintedComesBackIff(skill: string, a: string, e: string, arity: string -> Option<nat>)
    requires IsSkillName(skill) && arity(skill) == Some(1) && !Blank(e)
    ensures var r := ParsedFor(Rendered(skill, [a]) + " > " + e, arity);
            && r == Some(ToolCall(skill, [Kept(a)], Trim(e), []))
            && (r == Some(ToolCall(skill, [a], Trim(e), [])) <==> NothingToEscape(a))
  {
    RenderedOne(skill, a);
    LineReads(skill, Quoted(a), e, arity);
    TrimBlank(e);
    PrintedParses(skill, a, TrimEnd(e));
    TrimAgain(e);
    KeptIff(a);
  }

  // ------------------------------------------------------- what follows the argument

  /** Plain text between quotes of that kind: it does not hold the quote, nor put a
      backslash in front of the closing one. */
  predicate Enclosed(q: char, a: string) {
    IsQuote(q) && q !in a && (a == "" || a[|a| - 1] != '\\')
  }

  lemma {:induction false} VerbatimTwo(q: char, a: string, b: string)
    requires Enclosed(q, a) && Enclosed(q, b)
    ensures VerbatimFrom(WithOption(q, a, b), []) == Some([a, b])
  {
    var s := WithOption(q, a, b);
    var rest := " " + [q] + b + [q];
    assert s[1..] == a + ([q] + rest) && ([q] + rest)[1..] == rest;
    VerbatimReadOn(q, a, [q] + rest, "");
    assert "" + a == a;
    VerbatimFirst(q, s, a, rest);
    VerbatimSecond(q, a, b);
  }

  lemma {:induction false} VerbatimSecond(q: char, a: string, b: string)
    requires Enclosed(q, b)
    ensures VerbatimFrom(" " + [q] + b + [q], [a]) == Some([a, b])
  {
    var s := " " + [q] + b + [q];
    assert s[1..] == [q] + (b + [q]) && s[1..][1..] == b + [q];
    VerbatimRead(q, b, "");
    assert "" + b == b && [a] + [b] == [a, b];
    assert VerbatimFrom("", [a, b]) == Some([a, b]);
  }

  /** An extra of up to 200 bytes without spaces and quotes, such as `'80'`, is a
      token of its own. */
  lemma {:induction false} SimpleExtraStaysSeparate(q: char, a: string, b: string)
    requires Enclosed(q, a) && Enclosed(q, b) && b != "" && Utf8Len(b) <= 200
    requires forall i :: 0 <= i < |b| ==> !IsSpace(b[i]) && b[i] != '\'' && b[i] != '"'
    ensures OneArg(WithOption(q, a, b)) == Some([a, b])
  {
    TrimFixed(WithOption(q, a, b));
    VerbatimTwo(q, a, b);
    TrimFixed(b);
    ExtraIsSimple(b);
    TwoTokens(WithOption(q, a, b), a, b);
  }

  lemma {:induction false} ExtraIsSimple(b: string)
    requires b != "" && Trim(b) == b && Utf8Len(b) <= 200
    requires forall i :: 0 <= i < |b| ==> !IsSpace(b[i]) && b[i] != '\'' && b[i] != '"'
    ensures SimpleExtra(b)
  {
    assert OneWord(b);
  }

  lemma {:induction false} TwoTokens(s: string, a: string, b: string)
    requires Trim(s) == s && VerbatimFrom(s, []) == Some([a, b])
    ensures OneArg(s) == if SimpleExtra(b) then Some([a, b]) else SpanFrom(s, [])
  {
    assert [a, b][1..] == [b];
  }

  lemma {:induction false} NothingDropped(q: char, s: string)
    requires forall i :: 0 <= i && i + 1 < |s| && s[i] == '\\' ==> s[i + 1] != q
    ensures DropEscapes(q, s) == s
    decreases |s|
  {
    if s != "" {
      assert forall i :: 0 <= i < |s| - 1 ==> s[1..][i] == s[i + 1];
      NothingDropped(q, s[1..]);
      assert [s[0]] + s[1..] == s;
    }
  }

  lemma {:induction false} NoPairInside(q: char, a: string, b: string)
    requires Enclosed(q, a) && Enclosed(q, b)
    ensures var s := a + [q] + " " + [q] + b; forall i :: 0 <= i && i + 1 < |s| && s[i] == '\\' ==> s[i + 1] != q
  {
    var s := a + [q] + " " + [q] + b;
    var n := |a|;
    assert s[n] == q && s[n + 1] == ' ' && s[n + 2] == q;
    forall i | 0 <= i && i + 1 < |s| && s[i] == '\\'
      ensures s[i + 1] != q
    {
      if i < n {
        assert s[i] == a[i];
        assert i + 1 < n ==> s[i + 1] == a[i + 1];
      } else {
        assert i > n + 2;
        assert s[i + 1] == b[i + 1 - n - 3];
      }
    }
  }

  /** A second token with words in it means that the quotes belong to the argument:
      the whole span is the argument. */
  lemma {:induction false} WordsJoinTheArgument(q: char, a: string, b: string, i: nat)
    requires Enclosed(q, a) && Enclosed(q, b) && '=' !in b
    requires 0 < i < |b| - 1 && IsSpace(b[i]) && !IsSpace(b[0]) && !IsSpace(b[|b| - 1])
    ensures OneArg(WithOption(q, a, b)) == Some([a + [q] + " " + [q] + b])
  {
    var s := WithOption(q, a, b);
    TrimFixed(s);
    TrimFixed(b);
    VerbatimTwo(q, a, b);
    NotKeyValue(b);
    TwoTokens(s, a, b);
    SpanOfWords(q, a, b);
  }

  lemma {:induction false} NotKeyValue(b: string)
    requires '=' !in b
    ensures !IsKeyValue(b)
  {
    forall k: nat | k <= |b|
      ensures !MatchAt(b, k, "=")
    {
      assert "="[0] == '=';
    }
    assert !Contains(b, "=");
  }

  lemma {:induction false} SpanOfWords(q: char, a: string, b: string)
    requires Enclosed(q, a) && Enclosed(q, b) && !IsKeyValue(b)
    ensures SpanFrom(WithOption(q, a, b), []) == Some([a + [q] + " " + [q] + b])
  {
    var s := WithOption(q, a, b);
    var inner := a + [q] + " " + [q] + b;
    OptionOpens(q, a, b);
    assert s[..|s| - 1] == [q] + a + [q] + " " + [q] + b;
    assert PeelKeyValue(s) == None;
    assert s[1..|s| - 1] == inner;
    NoPairInside(q, a, b);
    NothingDropped(q, inner);
    assert [inner] + [] == [inner];
  }

  // ------------------------------------------------ the parser the runtime uses

  lemma {:induction false} TrimTwice(line: string)
    ensures Trim(Trim(line)) == Trim(line)
  {
    TrimAgain(TrimStart(line));
    TrimAgain(line);
  }

  /** A line that does not name a skill of one argument is read as any line is. */
  lemma {:induction false} OtherArityIsOrdinary(line: string, arity: string -> Option<nat>)
    requires NameAndRest(Trim(line)).Some? ==> arity(NameAndRest(Trim(line)).value.0) != Some(1)
    ensures ParsedFor(line, arity) == Parsed(line)
  {
    TrimTwice(line);
  }

  /** So is one that names such a skill and cannot be split as a call of it. */
  lemma {:induction false} UnsplitIsOrdinary(line: string, arity: string -> Option<nat>, skill: string, rest: string)
    requires NameAndRest(Trim(line)) == Some((skill, rest)) && arity(skill) == Some(1)
    requires SplitOneArg(TrimStart(rest)) == None
    ensures ParsedFor(line, arity) == Parsed(line)
  {}

  /** Either way the call is of the skill the line names. */
  lemma {:induction false} SkillIsNamed(line: string, arity: string -> Option<nat>)
    ensures var r := ParsedFor(line, arity);
            r.Some? ==> NameAndRest(Trim(line)).Some? && r.value.skill == NameAndRest(Trim(line)).value.0
    ensures Parsed(line).Some? ==>
              NameAndRest(Trim(line)).Some? && Parsed(line).value.skill == NameAndRest(Trim(line)).value.0
  {
    TrimTwice(line);
  }

  /** The round trip at the parser the runtime uses: for a skill that does not take
      exactly one argument (or is not registered), a printed call followed by an
      expectation comes back as itself if and only if the name is well formed, there
      is an argument, and the expectation is not blank. */
  lemma {:induction false} RoundTripFor(
    skill: string, args: seq<string>, e: string, arity: string -> Option<nat>)
    requires arity(skill) != Some(1)
    ensures ParsedFor(Rendered(skill, args) + " > " + e, arity) == Some(ToolCall(skill, args, Trim(e), []))
            <==> IsSkillName(skill) && args != [] && !Blank(e)
  {
    var line := Rendered(skill, args) + " > " + e;
    RoundTrip(skill, args, e);
    SkillIsNamed(line, arity);
    var name := NameAndRest(Trim(line));
    if name.None? || name.value.0 == skill { OtherArityIsOrdinary(line, arity); }
  }
}
