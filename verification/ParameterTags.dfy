/** The parameter-tag form of a tool call (crates/agents/src/parse_tool_call.rs)

      <function=write-file>
      <parameter=path>
      notes.txt
      </parameter>
      </function>

    and the binding of its named values to a skill's arguments
    (crates/agents/src/registry.rs). */
module ParameterTags {
  import opened Text
  import opened ToolCallLine

  type Param = (string, string)

  const OPEN := "<parameter="
  const CLOSE := "</parameter>"

  // ------------------------------------------------------------ parameters

  /** The value between its tags, less the one line break on each side that the
      template writes there. */
  function StripBreaks(value: string): string { StripLast(StripFirst(value)) }

  function StripFirst(v: string): string {
    if StartsWith(v, "\r\n") then v[2..] else if StartsWith(v, "\n") then v[1..] else v
  }

  function StripLast(v: string): string {
    if |v| >= 2 && MatchAt(v, |v| - 2, "\r\n") then v[..|v| - 2]
    else if |v| >= 1 && v[|v| - 1] == '\n' then v[..|v| - 1]
    else v
  }

  function OrLength(o: Option<nat>, s: string): (n: nat)
    requires o.Some? ==> o.value <= |s|
    ensures n <= |s|
  {
    match o case Some(i) => i case None => |s|
  }

  /** Where a value without `</parameter>` ends: at the next tag, if any. */
  function UnclosedEnd(s: string): (n: nat)
    ensures n <= |s|
  {
    Min(OrLength(Find(s, OPEN), s), Min(OrLength(Find(s, "</function>"), s), OrLength(Find(s, "</tool_call>"), s)))
  }

  /** The value that starts `s`, and the text behind its closing tag. */
  function ValueAndNext(s: string): (r: (string, string))
    ensures |r.1| <= |s|
  {
    match Find(s, CLOSE)
    case Some(end) => (s[..end], s[end + |CLOSE|..])
    case None => (s[..UnclosedEnd(s)], s[UnclosedEnd(s)..])
  }

  /** The parameter at the start of `body`, if there is one, and what follows. */
  function NextParam(body: string): (r: Option<(Param, string)>)
    ensures r.Some? ==> |r.value.1| < |body|
  {
    var t := TrimStart(body);
    if !StartsWith(t, OPEN) then None
    else
      var after := t[|OPEN|..];
      match Find(after, ">")
      case None => None
      case Some(gt) =>
        var key := Trim(after[..gt]);
        var (value, next) := ValueAndNext(after[gt + 1..]);
        if key == "" then None else Some(((key, StripBreaks(value)), next))
  }

  function ParamsFrom(body: string, out: seq<Param>): seq<Param>
    decreases |body|
  {
    match NextParam(body)
    case Some((param, next)) => ParamsFrom(next, out + [param])
    case None => out
  }

  method XmlParams(body: string) returns (out: seq<Param>)
    ensures out == ParamsFrom(body, [])
  {
    out := [];
    var rest := body;
    while true
      invariant ParamsFrom(body, []) == ParamsFrom(rest, out)
      decreases |rest|
    {
      var param := NextParam(rest);
      if param.None? { break; }
      out := out + [param.value.0];
      rest := param.value.1;
    }
  }

  // ------------------------------------------------------------------ tags

  datatype Tag = Envelope | FunctionOpen(name: string) | FunctionClose

  predicate IsWordChar(c: char) { IsAlpha(c) || IsDigit(c) || c == '_' }

  /** The first offset from `i` on whose character is not part of a word. */
  function WordEnd(s: string, i: nat): (r: nat)
    requires i <= |s|
    ensures i <= r <= |s| && (forall k :: i <= k < r ==> IsWordChar(s[k])) && (r < |s| ==> !IsWordChar(s[r]))
    decreases |s| - i
  {
    if i < |s| && IsWordChar(s[i]) then WordEnd(s, i + 1) else i
  }

  predicate EndsTagName(c: char) { IsSpace(c) || c == '>' || c == '<' }

  function TagNameEnd(s: string, i: nat): (r: nat)
    requires i <= |s|
    ensures i <= r <= |s| && (forall k :: i <= k < r ==> !EndsTagName(s[k])) && (r < |s| ==> EndsTagName(s[r]))
    decreases |s| - i
  {
    if i < |s| && !EndsTagName(s[i]) then TagNameEnd(s, i + 1) else i
  }

  predicate EqIgnoreCase(s: string, t: string) {
    |s| == |t| && forall i :: 0 <= i < |s| ==> ToLower(s[i]) == ToLower(t[i])
  }

  /** A tag closed by `>` at the start of `rest`. */
  function Closed(tag: Tag, rest: string): Option<(Tag, string)> {
    if rest != "" && rest[0] == '>' then Some((tag, rest[1..])) else None
  }

  /** What follows `<function`. */
  function OpenerAt(rest: string): Option<(Tag, string)> {
    if rest == "" || rest[0] != '=' then None
    else
      var s := TrimStart(rest[1..]);
      var end := TagNameEnd(s, 0);
      if end == 0 then None else Closed(FunctionOpen(s[..end]), TrimStart(s[end..]))
  }

  /** The wrapper tag of that name, `rest` behind the name. */
  function TagOf(word: string, closing: bool, rest: string): Option<(Tag, string)> {
    if EqIgnoreCase(word, "tool_call") then Closed(Envelope, rest)
    else if !EqIgnoreCase(word, "function") then None
    else if closing then Closed(FunctionClose, rest)
    else OpenerAt(rest)
  }

  function TagFrom(s: string, closing: bool): Option<(Tag, string)> {
    var end := WordEnd(s, 0);
    TagOf(s[..end], closing, TrimStart(s[end..]))
  }

  /** The wrapper tag that `s` starts with, and the text behind it. */
  function TagAt(s: string): Option<(Tag, string)> {
    if s == "" || s[0] != '<' then None
    else
      var t := TrimStart(s[1..]);
      var closing := t != "" && t[0] == '/';
      TagFrom(if closing then TrimStart(t[1..]) else t, closing)
  }

  /** `read_file` is `read-file`. */
  function Spelled(s: string): (r: string)
    ensures |r| == |s| && forall i :: 0 <= i < |s| ==> r[i] == if s[i] == '_' then '-' else s[i]
  {
    if s == "" then "" else [if s[0] == '_' then '-' else s[0]] + Spelled(s[1..])
  }

  function SkillSpelling(name: string): string { Spelled(Trim(name)) }

  // -------------------------------------------------------- the whole call

  /** The arguments: every parameter but the expectation. */
  function Named(params: seq<Param>): seq<Param> {
    if params == [] then []
    else if params[0].0 == "expectation" then Named(params[1..])
    else [params[0]] + Named(params[1..])
  }

  function Values(params: seq<Param>): seq<string> {
    if params == [] then [] else [params[0].1] + Values(params[1..])
  }

  /** The last `expectation` parameter wins. */
  function ExpectationOf(params: seq<Param>, sofar: string): string {
    if params == [] then sofar
    else ExpectationOf(params[1..], if params[0].0 == "expectation" then Trim(params[0].1) else sofar)
  }

  function CallOf(skill: string, params: seq<Param>): ToolCall {
    ToolCall(skill, Values(Named(params)), ExpectationOf(params, ""), Named(params))
  }

  function Extracted(text: string): Option<ToolCall> {
    if text == "" then None
    else match TagAt(text)
      case Some((FunctionOpen(name), body)) =>
        var params := ParamsFrom(body, []);
        if params == [] then Extracted(text[1..]) else CallNamed(name, params)
      case _ => Extracted(text[1..])
  }

  /** What a text that opens with `<function=name>` before `params` is read as. */
  function CallNamed(name: string, params: seq<Param>): Option<ToolCall> {
    if IsSkillName(SkillSpelling(name)) then Some(CallOf(SkillSpelling(name), params)) else None
  }

  lemma {:induction false} ExtractedHere(s: string, name: string, body: string)
    requires s != "" && TagAt(s) == Some((FunctionOpen(name), body)) && ParamsFrom(body, []) != []
    ensures Extracted(s) == CallNamed(name, ParamsFrom(body, []))
  {}

  lemma {:induction false} ExtractedLater(s: string)
    requires s != "" && (match TagAt(s) case Some((FunctionOpen(_), body)) => ParamsFrom(body, []) == [] case _ => true)
    ensures Extracted(s) == Extracted(s[1..])
  {}

  method ExtractXmlParams(text: string) returns (r: Option<ToolCall>)
    ensures r == Extracted(text)
  {
    assert text[0..] == text;
    for i := 0 to |text|
      invariant Extracted(text) == Extracted(text[i..])
    {
      var here := text[i..];
      var tag := TagAt(here);
      if tag.Some? && tag.value.0.FunctionOpen? {
        var (FunctionOpen(name), body) := tag.value;
        var params := XmlParams(body);
        if params != [] {
          ExtractedHere(here, name, body);
          r := CallFrom(name, params);
          return;
        }
      }
      ExtractedLater(here);
      assert here[1..] == text[i + 1..];
    }
    return None;
  }

  /** The call made of the first opener that has parameters. */
  method CallFrom(name: string, params: seq<Param>) returns (r: Option<ToolCall>)
    ensures r == CallNamed(name, params)
  {
    var skill := SkillSpelling(name);
    if !IsSkillName(skill) { return None; }
    var call := MakeCall(skill, params);
    return Some(call);
  }

  lemma {:induction false} NamedStep(params: seq<Param>, i: nat)
    requires i < |params|
    ensures params[i..][1..] == params[i + 1..]
    ensures var here, rest := Named(params[i..]), Named(params[i + 1..]);
            if params[i].0 == "expectation" then here == rest
            else here == [params[i]] + rest && Values(here) == [params[i].1] + Values(rest)
  {}

  /** The loop that tells the expectation from the arguments. */
  method MakeCall(skill: string, params: seq<Param>) returns (call: ToolCall)
    ensures call == CallOf(skill, params)
  {
    var expectation := "";
    var named: seq<Param> := [];
    var args: seq<string> := [];
    for i := 0 to |params|
      invariant ExpectationOf(params, "") == ExpectationOf(params[i..], expectation)
      invariant Named(params) == named + Named(params[i..])
      invariant Values(Named(params)) == args + Values(Named(params[i..]))
    {
      NamedStep(params, i);
      if params[i].0 == "expectation" {
        expectation := Trim(params[i].1);
      } else {
        named := named + [params[i]];
        args := args + [params[i].1];
      }
    }
    call := ToolCall(skill, args, expectation, named);
  }

  // --------------------------------------------------------- the template

  function PrintedParam(p: Param): string {
    OPEN + p.0 + ">" + ("\n" + p.1 + "\n") + CLOSE
  }

  /** Every parameter on its own lines, each behind a line break. */
  function PrintedParams(params: seq<Param>): string {
    if params == [] then "" else "\n" + (PrintedParam(params[0]) + PrintedParams(params[1..]))
  }

  const END := "\n</function>"

  function PrintedCall(name: string, params: seq<Param>): string {
    "<function=" + (name + ">" + (PrintedParams(params) + END))
  }

  predicate GoodKey(k: string) { k != "" && '>' !in k && Trim(k) == k }

  predicate GoodValue(v: string) { !Contains(v, CLOSE) && (v == "" || v[|v| - 1] != '\r') }

  predicate GoodParam(p: Param) { GoodKey(p.0) && GoodValue(p.1) }

  predicate AllGood(params: seq<Param>) {
    forall i :: 0 <= i < |params| ==> GoodParam(params[i])
  }

  // --------------------------------------------------------------- values

  /** The closing tag is first found behind the value, unless the value holds
      one itself. */
  lemma {:induction false} CloseFound(v: string, next: string)
    ensures var s := "\n" + v + "\n" + CLOSE + next;
            && Find(s, CLOSE).Some?
            && (!Contains(v, CLOSE) ==> Find(s, CLOSE) == Some(|v| + 2))
            && (Contains(v, CLOSE) ==> 1 <= Find(s, CLOSE).value < |v|)
  {
    var s := "\n" + v + "\n" + CLOSE + next;
    assert MatchAt(s, |v| + 2, CLOSE);
    assert s[0] == '\n' && s[|v| + 1] == '\n';
    var e := Find(s, CLOSE).value;
    if Contains(v, CLOSE) {
      var j: nat :| j <= |v| && MatchAt(v, j, CLOSE);
      MatchInside(v, next, j);
      assert CLOSE[0] == '<';
      assert e <= j + 1;
    } else {
      forall k: nat | k < |v| + 2
        ensures !MatchAt(s, k, CLOSE)
      {
        if MatchAt(s, k, CLOSE) { MatchOutside(v, next, k); }
      }
      FindIs(s, CLOSE, |v| + 2);
    }
  }

  lemma {:induction false} MatchInside(v: string, next: string, j: nat)
    requires j <= |v| && MatchAt(v, j, CLOSE)
    ensures MatchAt("\n" + v + "\n" + CLOSE + next, j + 1, CLOSE)
  {}

  lemma {:induction false} CloseHasNoBreak(v: string, next: string, k: nat, d: nat)
    requires d < |CLOSE| && MatchAt("\n" + v + "\n" + CLOSE + next, k, CLOSE)
    ensures k + d != |v| + 1
  {
    var s := "\n" + v + "\n" + CLOSE + next;
    assert s[|v| + 1] == '\n';
    assert s[k + d] == CLOSE[d];
    assert '\n' !in CLOSE;
  }

  /** A match that starts before the printed closing tag lies inside the value. */
  lemma {:induction false} MatchOutside(v: string, next: string, k: nat)
    requires k < |v| + 2 && MatchAt("\n" + v + "\n" + CLOSE + next, k, CLOSE)
    ensures Contains(v, CLOSE)
  {
    var s := "\n" + v + "\n" + CLOSE + next;
    assert CLOSE[0] == '<' && s[0] == '\n';
    if k + |CLOSE| > |v| + 1 { CloseHasNoBreak(v, next, k, |v| + 1 - k); }
    forall d | 0 <= d < |CLOSE|
      ensures v[k - 1 + d] == CLOSE[d]
    {
      assert s[k + d] == CLOSE[d];
    }
    assert MatchAt(v, k - 1, CLOSE);
  }

  lemma {:induction false} FirstStripped(w: string)
    ensures StripFirst("\n" + w) == w
  {
    var s := "\n" + w;
    assert s[0] == '\n';
    assert !StartsWith(s, "\r\n") by { assert "\r\n"[0] == '\r'; }
    assert s[1..] == w;
  }

  lemma {:induction false} LastStripped(v: string)
    ensures StripLast(v + "\n") == v <==> v == "" || v[|v| - 1] != '\r'
  {
    var w := v + "\n";
    assert w[..|w| - 1] == v;
    if v != "" {
      var e, n := "\r\n", |v| - 1;
      assert w[n] == v[n] && w[n + 1] == '\n';
      assert e[0] == '\r' && e[1] == '\n';
      if v[n] == '\r' {
        assert forall k :: 0 <= k < |e| ==> w[n + k] == e[k];
      }
      assert MatchAt(w, n, e) <==> v[n] == '\r';
    }
  }

  lemma {:induction false} StripPrinted(v: string)
    ensures StripBreaks("\n" + v + "\n") == v <==> v == "" || v[|v| - 1] != '\r'
  {
    FirstStripped(v + "\n");
    LastStripped(v);
    assert "\n" + v + "\n" == "\n" + (v + "\n");
  }

  lemma {:induction false} StripShortens(value: string)
    requires value != "" && value[0] == '\n'
    ensures |StripBreaks(value)| < |value|
  {}

  lemma {:induction false} ValueCut(v: string, next: string)
    requires Contains(v, CLOSE)
    ensures StripBreaks(ValueAndNext("\n" + v + "\n" + CLOSE + next).0) != v
  {
    var s := "\n" + v + "\n" + CLOSE + next;
    CloseFound(v, next);
    var value := s[..Find(s, CLOSE).value];
    assert value[0] == '\n';
    StripShortens(value);
  }

  lemma {:induction false} Parts(a: string, b: string, c: string)
    ensures (a + b + c)[..|a|] == a && (a + b + c)[|a| + |b|..] == c
  {}

  lemma {:induction false} ValueWhole(v: string, next: string)
    requires !Contains(v, CLOSE)
    ensures ValueAndNext("\n" + v + "\n" + CLOSE + next) == ("\n" + v + "\n", next)
  {
    CloseFound(v, next);
    Parts("\n" + v + "\n", CLOSE, next);
  }

  /** A value survives the template if and only if it holds no closing tag and
      does not end in a carriage return. */
  lemma {:induction false} ValueRoundTrip(v: string, next: string)
    ensures var (value, rest) := ValueAndNext("\n" + v + "\n" + CLOSE + next);
            && (StripBreaks(value) == v <==> GoodValue(v))
            && (GoodValue(v) ==> rest == next)
  {
    if Contains(v, CLOSE) {
      ValueCut(v, next);
    } else {
      ValueWhole(v, next);
      StripPrinted(v);
    }
  }

  predicate IsEndTag(tag: string) { tag == OPEN || tag == "</function>" || tag == "</tool_call>" }

  lemma {:induction false} TagsStartAlike(tag: string)
    requires IsEndTag(tag)
    ensures |tag| > 0 && tag[0] == '<'
  {}

  /** A tag is not found before the first `<`. */
  lemma {:induction false} NoTagBefore(s: string, tag: string, n: nat)
    requires IsEndTag(tag) && n <= |s| && forall i :: 0 <= i < n ==> s[i] != '<'
    ensures Find(s, tag).Some? ==> Find(s, tag).value >= n
    ensures MatchAt(s, n, tag) ==> Find(s, tag) == Some(n)
  {
    TagsStartAlike(tag);
    forall k: nat | k < n
      ensures !MatchAt(s, k, tag)
    {
      assert s[k] != tag[0];
    }
    if MatchAt(s, n, tag) { FindIs(s, tag, n); }
  }

  /** A value whose closing tag is missing ends at the next tag. */
  lemma {:induction false} UnclosedValue(v: string, tag: string, tail: string)
    requires IsEndTag(tag) && '<' !in v && !Contains("\n" + v + "\n" + (tag + tail), CLOSE)
    ensures ValueAndNext("\n" + v + "\n" + (tag + tail)) == ("\n" + v + "\n", tag + tail)
  {
    var front := "\n" + v + "\n";
    var s := front + (tag + tail);
    var n := |front|;
    assert forall i :: 0 <= i < n ==> s[i] == front[i] && front[i] != '<';
    assert MatchAt(s, n, tag);
    NoTagBefore(s, OPEN, n);
    NoTagBefore(s, "</function>", n);
    NoTagBefore(s, "</tool_call>", n);
    assert UnclosedEnd(s) == n;
    assert s[..n] == front && s[n..] == tag + tail;
  }

  // ----------------------------------------------------------------- keys

  lemma {:induction false} KeyFound(k: string, valueOn: string)
    ensures var s := k + ">" + valueOn;
            && Find(s, ">").Some?
            && ('>' !in k ==> Find(s, ">") == Some(|k|))
            && ('>' in k ==> Find(s, ">").value < |k|)
  {
    var s := k + ">" + valueOn;
    assert MatchAt(s, |k|, ">");
    forall i: nat | i < |k|
      ensures MatchAt(s, i, ">") <==> k[i] == '>'
    {
      assert s[i] == k[i] && ">"[0] == '>';
    }
    if '>' !in k {
      FindIs(s, ">", |k|);
    } else {
      var i :| 0 <= i < |k| && k[i] == '>';
      assert MatchAt(s, i, ">");
    }
  }

  /** Whatever surrounds it, a text that opens like a parameter is read as its
      key and the value behind it. */
  lemma {:induction false} NextParamIs(k: string, valueOn: string)
    ensures var s := k + ">" + valueOn;
            var gt := Find(s, ">");
            && gt.Some? && gt.value < |s|
            && NextParam("\n" + (OPEN + s)) ==
               (var key := Trim(s[..gt.value]);
                var (value, next) := ValueAndNext(s[gt.value + 1..]);
                if key == "" then None else Some(((key, StripBreaks(value)), next)))
  {
    var s := k + ">" + valueOn;
    KeyFound(k, valueOn);
    OpensHere(s);
  }

  lemma {:induction false} OpensHere(s: string)
    ensures var t := OPEN + s; TrimStart("\n" + t) == t && StartsWith(t, OPEN) && t[|OPEN|..] == s
  {
    var t := OPEN + s;
    TrimStartPrefix("\n", t);
    assert t[0] == '<';
    assert TrimStart(t) == t;
  }

  /** A key without `>` is read as itself, trimmed. */
  lemma {:induction false} KeyReadAs(k: string, valueOn: string, value: string, next: string)
    requires '>' !in k && ValueAndNext(valueOn) == (value, next)
    ensures NextParam("\n" + (OPEN + (k + ">" + valueOn)))
            == if Trim(k) == "" then None else Some(((Trim(k), StripBreaks(value)), next))
  {
    var s := k + ">" + valueOn;
    NextParamIs(k, valueOn);
    KeyFound(k, valueOn);
    assert s[..|k|] == k && s[|k| + 1..] == valueOn;
  }

  /** A key with `>` is not read as itself. */
  lemma {:induction false} KeyMisread(k: string, valueOn: string)
    requires '>' in k
    ensures var r := NextParam("\n" + (OPEN + (k + ">" + valueOn))); r.Some? ==> r.value.0.0 != k
  {
    var s := k + ">" + valueOn;
    NextParamIs(k, valueOn);
    NoGtBefore(s, Find(s, ">").value);
  }

  lemma {:induction false} ParamText(k: string, v: string, next: string)
    ensures PrintedParam((k, v)) + next == OPEN + (k + ">" + ("\n" + v + "\n" + CLOSE + next))
  {}

  /** One printed parameter is read back as itself exactly when it is good. */
  lemma {:induction false} ParamRoundTrip(p: Param, next: string)
    ensures var r := NextParam("\n" + (PrintedParam(p) + next));
            && (GoodParam(p) ==> r == Some((p, next)))
            && (!GoodParam(p) ==> r.None? || r.value.0 != p)
  {
    var (k, v) := p;
    var valueOn := "\n" + v + "\n" + CLOSE + next;
    ParamText(k, v, next);
    if '>' in k {
      KeyMisread(k, valueOn);
    } else {
      var (value, rest) := ValueAndNext(valueOn);
      KeyReadAs(k, valueOn, value, rest);
      ValueRoundTrip(v, next);
    }
  }

  /** A key is never read with a `>` in it. */
  lemma {:induction false} NoGtBefore(s: string, gt: nat)
    requires Find(s, ">") == Some(gt)
    ensures gt < |s| && '>' !in Trim(s[..gt])
  {
    var left := s[..gt];
    forall i | 0 <= i < gt
      ensures left[i] != '>'
    {
      assert !MatchAt(s, i, ">");
      assert ">"[0] == '>' && left[i] == s[i];
    }
    var t := TrimStart(left);
    assert forall c :: c in t ==> c in left;
    assert forall c :: c in Trim(left) ==> c in t;
  }

  // ------------------------------------------------------- parameter lists

  lemma {:induction false} ParamsExtend(body: string, out: seq<Param>)
    ensures |ParamsFrom(body, out)| >= |out| && ParamsFrom(body, out)[..|out|] == out
    decreases |body|
  {
    var r := NextParam(body);
    if r.Some? {
      var more := out + [r.value.0];
      ParamsExtend(r.value.1, more);
      assert ParamsFrom(body, out)[..|out|] == more[..|out|] == out;
    } else {
      assert out[..|out|] == out;
    }
  }

  lemma {:induction false} ParamsOfEnd(tail: string, out: seq<Param>)
    ensures ParamsFrom(END + tail, out) == out
  {
    var t := "</function>" + tail;
    assert END + tail == "\n" + t;
    TrimStartPrefix("\n", t);
    assert t[0] == '<';
    assert TrimStart(t) == t;
    assert !StartsWith(t, OPEN) by { assert t[1] == '/' && OPEN[1] == 'p'; }
  }

  /** A list that starts with another parameter is another list. */
  lemma {:induction false} OtherHead(body: string, out: seq<Param>, p: Param, more: seq<Param>)
    requires NextParam(body).None? || NextParam(body).value.0 != p
    ensures ParamsFrom(body, out) != out + ([p] + more)
  {
    var r := NextParam(body);
    var n := |out|;
    assert (out + ([p] + more))[n] == p;
    if r.Some? {
      var got := out + [r.value.0];
      ParamsExtend(r.value.1, got);
      assert ParamsFrom(body, out)[..n + 1][n] == got[n] == r.value.0;
    }
  }

  lemma {:induction false} BodyOfPrinted(params: seq<Param>, tail: string)
    requires params != []
    ensures PrintedParams(params) + (END + tail) == "\n"
            + (PrintedParam(params[0]) + (PrintedParams(params[1..]) + (END + tail)))
  {
    var a, b, c := PrintedParam(params[0]), PrintedParams(params[1..]), END + tail;
    assert "\n" + (a + b) + c == "\n" + (a + (b + c));
  }

  /** The first printed parameter decides the first one read. */
  lemma {:induction false} HeadRoundTrip(body: string, p: Param, next: string, out: seq<Param>, more: seq<Param>)
    requires body == "\n" + (PrintedParam(p) + next)
    ensures GoodParam(p) ==> ParamsFrom(body, out) == ParamsFrom(next, out + [p])
    ensures !GoodParam(p) ==> ParamsFrom(body, out) != out + ([p] + more)
  {
    ParamRoundTrip(p, next);
    if !GoodParam(p) { OtherHead(body, out, p, more); }
  }

  lemma {:induction false} SplitHead(params: seq<Param>, out: seq<Param>)
    requires params != []
    ensures out + params == out + ([params[0]] + params[1..]) == (out + [params[0]]) + params[1..]
  {}

  /** A printed parameter list is read back as itself if and only if every key
      and every value in it is good. */
  lemma {:induction false} ParamsRoundTrip(params: seq<Param>, tail: string, out: seq<Param>)
    ensures ParamsFrom(PrintedParams(params) + (END + tail), out) == out + params <==> AllGood(params)
    decreases |params|
  {
    if params == [] {
      assert PrintedParams(params) + (END + tail) == END + tail;
      ParamsOfEnd(tail, out);
    } else {
      var p, more := params[0], params[1..];
      BodyOfPrinted(params, tail);
      HeadRoundTrip(PrintedParams(params) + (END + tail), p, PrintedParams(more) + (END + tail), out, more);
      SplitHead(params, out);
      if GoodParam(p) {
        ParamsRoundTrip(more, tail, out + [p]);
        GoodTail(params);
      }
    }
  }

  lemma {:induction false} GoodTail(params: seq<Param>)
    requires params != [] && GoodParam(params[0])
    ensures AllGood(params) <==> AllGood(params[1..])
  {}

  // -------------------------------------------------------- the whole call

  /** A tag name as the scanner delimits it. */
  predicate IsTagName(name: string) {
    name != "" && forall i :: 0 <= i < |name| ==> !EndsTagName(name[i])
  }

  lemma {:induction false} TagNameEnds(name: string, body: string)
    requires IsTagName(name)
    ensures TagNameEnd(name + ">" + body, 0) == |name|
  {
    var s := name + ">" + body;
    assert forall i :: 0 <= i < |name| ==> s[i] == name[i];
    assert s[|name|] == '>';
  }

  lemma {:induction false} OpenerOfPrinted(name: string, body: string)
    requires IsTagName(name)
    ensures OpenerAt("=" + (name + ">" + body)) == Some((FunctionOpen(name), body))
  {
    var s := name + ">" + body;
    assert ("=" + s)[1..] == s;
    assert s[0] == name[0];
    assert TextStart(s, 0) == 0;
    TagNameEnds(name, body);
    assert s[..|name|] == name;
    assert s[|name|..] == ">" + body;
    ClosedTag(FunctionOpen(name), body);
  }

  lemma {:induction false} ClosedTag(tag: Tag, body: string)
    ensures Closed(tag, TrimStart(">" + body)) == Some((tag, body))
  {}

  lemma {:induction false} FunctionWord(rest: string)
    requires rest != "" && !IsWordChar(rest[0])
    ensures var u := "function" + rest;
            TrimStart(u) == u && u[0] != '/' && WordEnd(u, 0) == 8 && u[..8] == "function" && u[8..] == rest
  {
    var u := "function" + rest;
    assert u[0] == 'f';
    assert TextStart(u, 0) == 0;
    var f := "function";
    assert forall i :: 0 <= i < 8 ==> IsWordChar(f[i]);
    assert forall i :: 0 <= i < 8 ==> u[i] == f[i];
    assert u[8] == rest[0];
  }

  lemma {:induction false} TagOfFunction(rest: string)
    ensures TagOf("function", false, rest) == OpenerAt(rest)
  {}

  lemma {:induction false} OpeningTag(u: string)
    requires u != "" && u[0] != '/' && TrimStart(u) == u
    ensures TagAt("<" + u) == TagFrom(u, false)
  {
    assert ("<" + u)[1..] == u;
  }

  lemma {:induction false} TagFromIs(u: string, n: nat, word: string, rest: string)
    requires WordEnd(u, 0) == n && u[..n] == word && TrimStart(u[n..]) == rest
    ensures TagFrom(u, false) == TagOf(word, false, rest)
  {}

  lemma {:induction false} FunctionTag(rest: string)
    requires rest != "" && rest[0] == '='
    ensures TagAt("<" + ("function" + rest)) == OpenerAt(rest)
  {
    FunctionWord(rest);
    assert TextStart(rest, 0) == 0;
    OpeningTag("function" + rest);
    TagFromIs("function" + rest, 8, "function", rest);
    TagOfFunction(rest);
  }

  lemma {:induction false} TagOfPrinted(name: string, body: string)
    requires IsTagName(name)
    ensures TagAt("<function=" + (name + ">" + body)) == Some((FunctionOpen(name), body))
  {
    var t := name + ">" + body;
    FunctionTag("=" + t);
    OpenerOfPrinted(name, body);
    FunctionText(t);
  }

  lemma {:induction false} FunctionText(t: string)
    ensures "<function=" + t == "<" + ("function" + ("=" + t))
  {}

  /** A word in any case ends where it ends. */
  lemma {:induction false} AnyCaseWord(word: string, rest: string)
    requires EqIgnoreCase(word, "function") && rest != "" && !IsWordChar(rest[0])
    ensures var u := word + rest;
            WordEnd(u, 0) == 8 && u[..8] == word && u[8..] == rest && u[0] != '/' && !IsSpace(u[0])
  {
    var f, u := "function", word + rest;
    forall i | 0 <= i < 8
      ensures IsWordChar(u[i])
    {
      assert u[i] == word[i] && ToLower(word[i]) == ToLower(f[i]) && 'a' <= f[i] <= 'z';
    }
    assert u[8] == rest[0];
    assert IsWordChar(u[0]) && !IsWordChar('/');
  }

  lemma {:induction false} BlankInFront(b: string, s: string)
    requires Blank(b) && s != "" && !IsSpace(s[0])
    ensures TrimStart(b + s) == s && (b + s)[0] == (if b == "" then s[0] else b[0])
  {
    TrimStartPrefix(b, s);
    assert TextStart(s, 0) == 0;
  }

  lemma {:induction false} AnyCaseTag(word: string, rest: string)
    requires EqIgnoreCase(word, "function")
    ensures TagOf(word, false, rest) == OpenerAt(rest)
  {
    assert |word| != |"tool_call"|;
  }

  lemma {:induction false} LooseOpener(b3: string, name: string, b4: string, body: string)
    requires Blank(b3) && Blank(b4) && IsTagName(name)
    ensures OpenerAt("=" + (b3 + (name + (b4 + (">" + body))))) == Some((FunctionOpen(name), body))
  {
    var close := ">" + body;
    var tail := b4 + close;
    var s := name + tail;
    assert ("=" + (b3 + s))[1..] == b3 + s;
    assert s[0] == name[0];
    BlankInFront(b3, s);
    BlankInFront(b4, close);
    NameStops(name, tail);
    assert s[..|name|] == name && s[|name|..] == tail && close[1..] == body;
  }

  lemma {:induction false} NameStops(name: string, tail: string)
    requires IsTagName(name) && tail != "" && EndsTagName(tail[0])
    ensures TagNameEnd(name + tail, 0) == |name|
  {
    var s := name + tail;
    assert forall i :: 0 <= i < |name| ==> s[i] == name[i];
    assert s[|name|] == tail[0];
  }

  /** Neither the case of the word nor white space around its parts matters. */
  lemma {:induction false} LooseTagIsRead(
    b1: string, word: string, b2: string, b3: string, name: string, b4: string, body: string)
    requires Blank(b1) && Blank(b2) && Blank(b3) && Blank(b4)
    requires EqIgnoreCase(word, "function") && IsTagName(name)
    ensures TagAt("<" + (b1 + (word + (b2 + ("=" + (b3 + (name + (b4 + (">" + body)))))))))
            == Some((FunctionOpen(name), body))
  {
    var opener := "=" + (b3 + (name + (b4 + (">" + body))));
    var rest := b2 + opener;
    BlankInFront(b2, opener);
    assert forall c :: IsSpace(c) ==> !IsWordChar(c);
    AnyCaseWord(word, rest);
    var u := word + rest;
    BlankInFront(b1, u);
    SpacedTag(b1, u);
    TagFromIs(u, 8, word, opener);
    AnyCaseTag(word, opener);
    LooseOpener(b3, name, b4, body);
  }

  lemma {:induction false} SpacedTag(b: string, u: string)
    requires Blank(b) && u != "" && u[0] != '/' && !IsSpace(u[0])
    ensures TagAt("<" + (b + u)) == TagFrom(u, false)
  {
    assert ("<" + (b + u))[1..] == b + u;
    BlankInFront(b, u);
  }

  lemma {:induction false} ProseIsSkipped(prose: string, text: string)
    requires '<' !in prose
    ensures Extracted(prose + text) == Extracted(text)
    decreases |prose|
  {
    if prose == "" {
      assert prose + text == text;
    } else {
      var s := prose + text;
      assert s[0] == prose[0] && s[1..] == prose[1..] + text;
      assert TagAt(s) == None;
      ProseIsSkipped(prose[1..], text);
    }
  }

  lemma {:induction false} ExtractedIs(text: string, name: string, body: string, params: seq<Param>)
    requires text != "" && TagAt(text) == Some((FunctionOpen(name), body))
    requires ParamsFrom(body, []) == params && params != []
    ensures Extracted(text) == CallNamed(name, params)
  {}

  lemma {:induction false} TextOfPrinted(name: string, params: seq<Param>, tail: string)
    ensures PrintedCall(name, params) + tail == "<function=" + (name + ">" + (PrintedParams(params) + (END + tail)))
  {}

  lemma {:induction false} CallRoundTrip(prose: string, name: string, params: seq<Param>, tail: string)
    requires '<' !in prose && IsTagName(name) && params != [] && AllGood(params)
    ensures Extracted(prose + (PrintedCall(name, params) + tail)) == CallNamed(name, params)
  {
    ProseIsSkipped(prose, PrintedCall(name, params) + tail);
    TextOfPrinted(name, params, tail);
    var body := PrintedParams(params) + (END + tail);
    TagOfPrinted(name, body);
    ParamsRoundTrip(params, tail, []);
    assert [] + params == params;
    ExtractedIs(PrintedCall(name, params) + tail, name, body, params);
  }

  /** How many of the first `n` parameters are arguments. */
  function ArgumentsBefore(params: seq<Param>, n: nat): nat
    requires n <= |params|
  {
    if n == 0 then 0 else ArgumentsBefore(params, n - 1) + if IsArgument(params[n - 1]) then 1 else 0
  }

  predicate IsArgument(p: Param) { p.0 != "expectation" }

  lemma {:induction false} NamedEnd(params: seq<Param>, p: Param)
    ensures Named(params + [p]) == Named(params) + if IsArgument(p) then [p] else []
    decreases |params|
  {
    var all := params + [p];
    if params == [] {
      assert all == [p] && all[1..] == [];
    } else {
      assert all[0] == params[0] && all[1..] == params[1..] + [p];
      NamedEnd(params[1..], p);
    }
  }

  lemma {:induction false} NamedCount(params: seq<Param>, n: nat)
    requires n <= |params|
    ensures |Named(params[..n])| == ArgumentsBefore(params, n)
    decreases n
  {
    if n > 0 {
      NamedCount(params, n - 1);
      assert params[..n] == params[..n - 1] + [params[n - 1]];
      NamedEnd(params[..n - 1], params[n - 1]);
    }
  }

  lemma {:induction false} NamedAt(params: seq<Param>, i: nat, n: nat)
    requires i < n <= |params| && IsArgument(params[i])
    ensures ArgumentsBefore(params, i) < |Named(params[..n])|
    ensures Named(params[..n])[ArgumentsBefore(params, i)] == params[i]
    decreases n
  {
    assert params[..n] == params[..n - 1] + [params[n - 1]];
    NamedEnd(params[..n - 1], params[n - 1]);
    if i == n - 1 { NamedCount(params, i); } else { NamedAt(params, i, n - 1); }
  }

  lemma {:induction false} ValuesAre(params: seq<Param>)
    ensures |Values(params)| == |params| && forall i :: 0 <= i < |params| ==> Values(params)[i] == params[i].1
    decreases |params|
  {
    if params != [] { ValuesAre(params[1..]); }
  }

  /** The expectation is the last one written, trimmed, or empty. */
  lemma {:induction false} ExpectationIs(params: seq<Param>, sofar: string)
    ensures (forall i :: 0 <= i < |params| ==> params[i].0 != "expectation") ==> ExpectationOf(params, sofar) == sofar
    ensures forall i :: 0 <= i < |params| && IsLastExpectation(params, i) ==>
              ExpectationOf(params, sofar) == Trim(params[i].1)
    decreases |params|
  {
    if params != [] {
      var rest := params[1..];
      assert forall i :: 0 <= i < |rest| ==> rest[i] == params[i + 1];
      ExpectationIs(rest, if params[0].0 == "expectation" then Trim(params[0].1) else sofar);
      forall i | 0 <= i < |params| && IsLastExpectation(params, i)
        ensures ExpectationOf(params, sofar) == Trim(params[i].1)
      {
        if i > 0 { assert IsLastExpectation(rest, i - 1); }
      }
    }
  }

  predicate IsLastExpectation(params: seq<Param>, i: nat)
    requires i < |params|
  {
    params[i].0 == "expectation" && forall j :: i < j < |params| ==> params[j].0 != "expectation"
  }

  /** What a call carries, by the position each parameter was written in. */
  ghost predicate Carries(call: ToolCall, params: seq<Param>) {
    && |call.args| == |call.named| == ArgumentsBefore(params, |params|)
    && (forall i :: 0 <= i < |params| && IsArgument(params[i]) ==>
          var n := ArgumentsBefore(params, i);
          n < |call.named| && call.named[n] == params[i] && call.args[n] == params[i].1)
    && (forall i :: 0 <= i < |params| && IsLastExpectation(params, i) ==> call.expectation == Trim(params[i].1))
    && ((forall i :: 0 <= i < |params| ==> params[i].0 != "expectation") ==> call.expectation == "")
  }

  lemma {:induction false} CallCarries(skill: string, params: seq<Param>)
    ensures Carries(CallOf(skill, params), params)
  {
    assert params[..|params|] == params;
    NamedCount(params, |params|);
    ValuesAre(Named(params));
    forall i | 0 <= i < |params| && IsArgument(params[i])
      ensures var n := ArgumentsBefore(params, i); n < |Named(params)| && Named(params)[n] == params[i]
    {
      NamedAt(params, i, |params|);
    }
    ExpectationIs(params, "");
  }

  /** Everything the model wrote in the template form arrives byte for byte and in
      order, the expectation apart, under the name as this contract spells it; under a
      name that is none, nothing does. */
  lemma {:induction false} WrittenCallArrives(prose: string, name: string, params: seq<Param>, tail: string)
    requires '<' !in prose && IsTagName(name) && params != [] && AllGood(params)
    ensures var r := Extracted(prose + (PrintedCall(name, params) + tail));
            && (r.Some? <==> IsSkillName(SkillSpelling(name)))
            && (r.Some? ==> r.value.skill == SkillSpelling(name) && Carries(r.value, params))
  {
    CallRoundTrip(prose, name, params, tail);
    CallCarries(SkillSpelling(name), params);
  }

  /** A break of two characters on each side of a value is no part of it either. */
  lemma {:induction false} CrLfStripped(v: string)
    ensures StripBreaks("\r\n" + v + "\r\n") == v
  {
    var b := "\r\n";
    var s := b + v + b;
    assert StartsWith(s, b) && s[2..] == v + b;
    var w := v + b;
    assert MatchAt(w, |v|, b) && w[..|w| - 2] == v;
  }

  // --------------------------------------------------------------- binding

  /** A registered skill, as far as binding goes. */
  datatype Skill = Skill(positional: seq<string>, optional: seq<string>, modelInvocable: bool)

  predicate Declares(s: Skill, key: string) { key in s.positional || key in s.optional }

  /** Named values under declared names; a repeated name keeps its last value. */
  function DeclaredArgs(s: Skill, named: seq<Param>, args: map<string, string>): map<string, string> {
    if named == [] then args
    else DeclaredArgs(s, named[1..], if Declares(s, named[0].0) then args[named[0].0 := named[0].1] else args)
  }

  /** Values under names the skill does not declare, in written order. */
  function Aliased(s: Skill, named: seq<Param>): seq<string> {
    if named == [] then []
    else if Declares(s, named[0].0) then Aliased(s, named[1..])
    else [named[0].1] + Aliased(s, named[1..])
  }

  /** Hand the aliased values to the positionals still unbound. */
  function Filled(positional: seq<string>, args: map<string, string>, aliased: seq<string>): map<string, string> {
    if positional == [] then args
    else if positional[0] in args then Filled(positional[1..], args, aliased)
    else if aliased == [] then args
    else Filled(positional[1..], args[positional[0] := aliased[0]], aliased[1..])
  }

  function Bound(s: Skill, named: seq<Param>): map<string, string> {
    Filled(s.positional, DeclaredArgs(s, named, map[]), Aliased(s, named))
  }

  method BindNamed(s: Skill, named: seq<Param>) returns (args: map<string, string>)
    ensures args == Bound(s, named)
  {
    args := map[];
    var aliased: seq<string> := [];
    for i := 0 to |named|
      invariant DeclaredArgs(s, named, map[]) == DeclaredArgs(s, named[i..], args)
      invariant Aliased(s, named) == aliased + Aliased(s, named[i..])
    {
      assert named[i..][1..] == named[i + 1..];
      var (key, value) := named[i];
      if Declares(s, key) {
        args := args[key := value];
      } else {
        aliased := aliased + [value];
      }
    }
    var left := aliased;
    assert named[|named|..] == [] && aliased + [] == aliased;
    assert s.positional[0..] == s.positional;
    for i := 0 to |s.positional|
      invariant Bound(s, named) == Filled(s.positional[i..], args, left)
    {
      assert s.positional[i..][1..] == s.positional[i + 1..];
      var name := s.positional[i];
      if name in args { continue; }
      if left == [] { break; }
      args := args[name := left[0]];
      left := left[1..];
    }
  }

  /** Declared names in the written list. */
  function DeclaredKeys(s: Skill, named: seq<Param>): set<string> {
    set i | 0 <= i < |named| && (named[i].0 in s.positional || named[i].0 in s.optional) :: named[i].0
  }

  /** The positionals no name was written for, each once, in declared order. */
  function Unbound(positional: seq<string>, bound: set<string>): seq<string> {
    if positional == [] then []
    else if positional[0] in bound then Unbound(positional[1..], bound)
    else [positional[0]] + Unbound(positional[1..], bound + {positional[0]})
  }

  /** The last value written under a declared name. */
  predicate IsLastDeclared(s: Skill, named: seq<Param>, i: nat)
    requires i < |named|
  {
    && (named[i].0 in s.positional || named[i].0 in s.optional)
    && forall j :: i < j < |named| ==> named[j].0 != named[i].0
  }

  lemma {:induction false} DeclaredArgsAre(s: Skill, named: seq<Param>, args: map<string, string>)
    ensures var r := DeclaredArgs(s, named, args);
            && r.Keys == args.Keys + DeclaredKeys(s, named)
            && (forall k :: k in args && k !in DeclaredKeys(s, named) ==> r[k] == args[k])
            && (forall i :: 0 <= i < |named| && IsLastDeclared(s, named, i) ==> r[named[i].0] == named[i].1)
    decreases |named|
  {
    if named != [] {
      var (key, value) := named[0];
      var t := named[1..];
      var args' := if Declares(s, key) then args[key := value] else args;
      DeclaredArgsAre(s, t, args');
      assert DeclaredKeys(s, named) == (if Declares(s, key) then {key} else {}) + DeclaredKeys(s, t) by {
        assert forall i :: 0 < i < |named| ==> named[i] == t[i - 1];
        assert forall i :: 0 <= i < |t| ==> t[i] == named[i + 1];
      }
      var r := DeclaredArgs(s, named, args);
      forall i | 0 <= i < |named| && IsLastDeclared(s, named, i)
        ensures named[i].0 in r && r[named[i].0] == named[i].1
      {
        if i > 0 {
          assert t[i - 1] == named[i];
          assert forall j :: i - 1 < j < |t| ==> t[j] == named[j + 1];
        } else {
          assert key !in DeclaredKeys(s, t) by { assert forall j :: 0 <= j < |t| ==> t[j] == named[j + 1]; }
        }
      }
    }
  }

  /** The first `n` free positionals. */
  function FirstOf(free: seq<string>, n: nat): set<string> { set i | 0 <= i < n && i < |free| :: free[i] }

  lemma {:induction false} FirstOfCons(p: string, rest: seq<string>, n: nat)
    ensures FirstOf([p] + rest, n + 1) == {p} + FirstOf(rest, n)
  {
    var free := [p] + rest;
    assert free[0] == p;
    assert forall i :: 0 <= i < |rest| ==> rest[i] == free[i + 1];
    forall k | k in FirstOf(free, n + 1)
      ensures k in {p} + FirstOf(rest, n)
    {
      var i :| 0 <= i < n + 1 && i < |free| && free[i] == k;
      if i > 0 { assert rest[i - 1] == k; }
    }
    forall k | k in FirstOf(rest, n)
      ensures k in FirstOf(free, n + 1)
    {
      var i :| 0 <= i < n && i < |rest| && rest[i] == k;
      assert free[i + 1] == k;
    }
  }

  lemma {:induction false} FilledAre(positional: seq<string>, args: map<string, string>, aliased: seq<string>)
    ensures var r := Filled(positional, args, aliased);
            var free := Unbound(positional, args.Keys);
            && r.Keys == args.Keys + FirstOf(free, |aliased|)
            && (forall k :: k in args ==> r[k] == args[k])
    decreases |positional|
  {
    if positional != [] {
      var p := positional[0];
      if p in args {
        FilledAre(positional[1..], args, aliased);
      } else if aliased != [] {
        var args' := args[p := aliased[0]];
        FilledAre(positional[1..], args', aliased[1..]);
        assert args'.Keys == args.Keys + {p};
        FirstOfCons(p, Unbound(positional[1..], args.Keys + {p}), |aliased| - 1);
      }
    }
  }

  lemma {:induction false} FilledValue(positional: seq<string>, args: map<string, string>, aliased: seq<string>, i: nat)
    requires i < |Unbound(positional, args.Keys)| && i < |aliased|
    ensures var k := Unbound(positional, args.Keys)[i];
            k !in args && k in Filled(positional, args, aliased) && Filled(positional, args, aliased)[k] == aliased[i]
    decreases |positional|
  {
    var p := positional[0];
    if p in args {
      FilledValue(positional[1..], args, aliased, i);
    } else {
      var args' := args[p := aliased[0]];
      assert args'.Keys == args.Keys + {p};
      if i == 0 {
        FilledAre(positional[1..], args', aliased[1..]);
      } else {
        FilledValue(positional[1..], args', aliased[1..], i - 1);
      }
    }
  }

  /** What any list of named values is bound to, and nothing else: each declared
      name to its last value, then the values under foreign names to the
      positionals left, in the order both were written. */
  lemma {:induction false} BoundAre(s: Skill, named: seq<Param>)
    ensures var r := Bound(s, named);
            var declared := DeclaredKeys(s, named);
            var free := Unbound(s.positional, declared);
            var aliased := Aliased(s, named);
            && r.Keys == declared + FirstOf(free, |aliased|)
            && (forall i :: 0 <= i < |named| && IsLastDeclared(s, named, i) ==> r[named[i].0] == named[i].1)
            && (forall i :: 0 <= i < |free| && i < |aliased| ==> free[i] !in declared && r[free[i]] == aliased[i])
  {
    DeclaredArgsAre(s, named, map[]);
    var args := DeclaredArgs(s, named, map[]);
    assert args.Keys == DeclaredKeys(s, named);
    FilledAre(s.positional, args, Aliased(s, named));
    forall i | 0 <= i < |Unbound(s.positional, args.Keys)| && i < |Aliased(s, named)|
      ensures var k, r := Unbound(s.positional, args.Keys)[i], Bound(s, named);
              k !in args && k in r && r[k] == Aliased(s, named)[i]
    {
      FilledValue(s.positional, args, Aliased(s, named), i);
    }
  }

  /** How many of the first `n` values stand under names the skill does not have. */
  function ForeignBefore(s: Skill, named: seq<Param>, n: nat): nat
    requires n <= |named|
  {
    if n == 0 then 0
    else ForeignBefore(s, named, n - 1) + if IsForeign(s, named[n - 1].0) then 1 else 0
  }

  predicate IsForeign(s: Skill, key: string) { key !in s.positional && key !in s.optional }

  lemma {:induction false} AliasedEnd(s: Skill, named: seq<Param>, p: Param)
    ensures Aliased(s, named + [p]) == Aliased(s, named) + if IsForeign(s, p.0) then [p.1] else []
    decreases |named|
  {
    var all := named + [p];
    if named == [] {
      assert all == [p] && all[1..] == [];
    } else {
      assert all[0] == named[0] && all[1..] == named[1..] + [p];
      AliasedEnd(s, named[1..], p);
    }
  }

  lemma {:induction false} AliasedAre(s: Skill, named: seq<Param>, n: nat)
    requires n <= |named|
    ensures |Aliased(s, named[..n])| == ForeignBefore(s, named, n)
    ensures forall i :: 0 <= i < n && IsForeign(s, named[i].0) ==>
              ForeignBefore(s, named, i) < ForeignBefore(s, named, n)
              && Aliased(s, named[..n])[ForeignBefore(s, named, i)] == named[i].1
    decreases n
  {
    if n > 0 {
      AliasedAre(s, named, n - 1);
      assert named[..n] == named[..n - 1] + [named[n - 1]];
      AliasedEnd(s, named[..n - 1], named[n - 1]);
    }
  }

  /** What is bound, by the position each value was written in: under a name the skill
      has, the last value written under it; under a foreign name with `n` foreign ones
      before it, the `n`th positional that is left; and nothing else. */
  lemma {:induction false} BoundByPosition(s: Skill, named: seq<Param>)
    ensures var r, declared := Bound(s, named), DeclaredKeys(s, named);
            var free := Unbound(s.positional, declared);
            && r.Keys == declared + FirstOf(free, ForeignBefore(s, named, |named|))
            && (forall i :: 0 <= i < |named| && IsLastDeclared(s, named, i) ==> r[named[i].0] == named[i].1)
            && (forall i :: 0 <= i < |named| && IsForeign(s, named[i].0) && ForeignBefore(s, named, i) < |free| ==>
                  var k := free[ForeignBefore(s, named, i)]; k !in declared && k in r && r[k] == named[i].1)
  {
    BoundAre(s, named);
    assert named[..|named|] == named;
    AliasedAre(s, named, |named|);
  }

  /** `SkillRegistry::resolve` on a call whose arguments are named, or that has
      none. */
  function Resolved(registry: map<string, Skill>, call: ToolCall): Option<map<string, string>>
    requires call.named != [] || call.args == []
  {
    if call.skill !in registry || !registry[call.skill].modelInvocable then None
    else Some(Bound(registry[call.skill], call.named))
  }

  /** A skill resolves if and only if it is registered and offered to the model. */
  lemma {:induction false} ResolvedIff(registry: map<string, Skill>, call: ToolCall)
    requires call.named != [] || call.args == []
    ensures Resolved(registry, call).Some? <==> call.skill in registry && registry[call.skill].modelInvocable
  {}

  predicate DistinctNames(params: seq<Param>) {
    forall i, j :: 0 <= i < j < |params| ==> params[i].0 != params[j].0
  }

  /** The object that binds each name to its value. */
  function AsMap(params: seq<Param>): map<string, string>
    requires DistinctNames(params)
  {
    map i | 0 <= i < |params| :: params[i].0 := params[i].1
  }

  predicate DistinctDeclared(s: Skill, params: seq<Param>) {
    (forall i :: 0 <= i < |params| ==> !IsForeign(s, params[i].0)) && DistinctNames(params)
  }

  lemma {:induction false} NothingAliased(s: Skill, named: seq<Param>)
    requires forall i :: 0 <= i < |named| ==> Declares(s, named[i].0)
    ensures Aliased(s, named) == []
    decreases |named|
  {
    if named != [] { NothingAliased(s, named[1..]); }
  }

  /** Distinct declared names are bound to their own values, and nothing else
      is. */
  lemma {:induction false} DistinctAreBound(s: Skill, params: seq<Param>)
    requires DistinctDeclared(s, params)
    ensures Bound(s, params) == AsMap(params)
  {
    NothingAliased(s, params);
    BoundAre(s, params);
    var want := AsMap(params);
    var got := Bound(s, params);
    assert got.Keys == DeclaredKeys(s, params);
    forall k | k in want
      ensures k in got && got[k] == want[k]
    {
      var i :| 0 <= i < |params| && params[i].0 == k;
      assert IsLastDeclared(s, params, i);
    }
  }

  /** No argument is called `expectation`. */
  lemma {:induction false} NamedHasNone(params: seq<Param>)
    ensures forall i :: 0 <= i < |Named(params)| ==> Named(params)[i].0 != "expectation"
    decreases |params|
  {
    if params != [] { NamedHasNone(params[1..]); }
  }

  lemma {:induction false} NamedIsAllIff(params: seq<Param>)
    ensures Named(params) == params <==> forall i :: 0 <= i < |params| ==> params[i].0 != "expectation"
    decreases |params|
  {
    NamedHasNone(params);
    if params != [] {
      NamedIsAllIff(params[1..]);
      assert forall i :: 0 < i < |params| ==> params[i] == params[1..][i - 1];
    }
  }

  /** End to end: values printed under distinct declared names, with or without an
      expectation among them, reach the skill as exactly those bindings. */
  lemma {:induction false} TemplateReachesSkill(
    registry: map<string, Skill>, prose: string, name: string, params: seq<Param>, tail: string)
    requires '<' !in prose && IsTagName(name) && IsSkillName(SkillSpelling(name))
    requires SkillSpelling(name) in registry && registry[SkillSpelling(name)].modelInvocable
    requires params != [] && AllGood(params) && DistinctDeclared(registry[SkillSpelling(name)], Named(params))
    ensures var call := CallOf(SkillSpelling(name), params);
            && Extracted(prose + (PrintedCall(name, params) + tail)) == Some(call)
            && Resolved(registry, call) == Some(AsMap(Named(params)))
  {
    CallRoundTrip(prose, name, params, tail);
    DistinctAreBound(registry[SkillSpelling(name)], Named(params));
  }

  /** A skill that declares an argument `expectation` is never given the value
      written under that name: its parameters arrive whole if and only if none is
      called so. */
  lemma {:induction false} ExpectationIsTakenAway(registry: map<string, Skill>, skill: string, params: seq<Param>)
    requires skill in registry && registry[skill].modelInvocable && DistinctDeclared(registry[skill], params)
    ensures Resolved(registry, CallOf(skill, params)) == Some(AsMap(params))
            <==> forall i :: 0 <= i < |params| ==> params[i].0 != "expectation"
  {
    NamedIsDistinct(registry[skill], params);
    DistinctAreBound(registry[skill], Named(params));
    NamedIsAllIff(params);
    NamedHasNone(params);
    var given := AsMap(Named(params));
    assert "expectation" !in given;
    if i :| 0 <= i < |params| && params[i].0 == "expectation" {
      assert "expectation" in AsMap(params);
    }
  }

  /** Every argument is one of the parameters. */
  lemma {:induction false} NamedFrom(params: seq<Param>, i: nat) returns (j: nat)
    requires i < |Named(params)|
    ensures i <= j < |params| && Named(params)[i] == params[j]
    decreases |params|
  {
    if params[0].0 == "expectation" {
      j := NamedFrom(params[1..], i);
      j := j + 1;
    } else if i == 0 {
      j := 0;
    } else {
      j := NamedFrom(params[1..], i - 1);
      j := j + 1;
    }
  }

  lemma {:induction false} NamedIsDistinct(s: Skill, params: seq<Param>)
    requires DistinctDeclared(s, params)
    ensures DistinctDeclared(s, Named(params))
    decreases |params|
  {
    if params != [] {
      var rest := params[1..];
      assert forall i :: 0 <= i < |rest| ==> rest[i] == params[i + 1];
      NamedIsDistinct(s, rest);
      var named := Named(rest);
      forall i | 0 <= i < |named|
        ensures named[i].0 != params[0].0
      {
        var j := NamedFrom(rest, i);
        assert rest[j] == params[j + 1];
      }
    }
  }
}
