/** `repair_json` (crates/agents/src/parse_tool_call.rs): the lexer that escapes
    raw control characters inside JSON strings and closes the brackets a model
    left open. */
module RepairJson {
  /** What the lexer knows: the closers still owed, innermost last, whether some
      closer did not match its opener, and where in a string it stands. */
  datatype Scan = Scan(open: seq<char>, mismatched: bool, inString: bool, escaped: bool)

  const START := Scan([], false, false, false)

  function Step(st: Scan, c: char): Scan {
    if st.inString then
      if st.escaped then st.(escaped := false)
      else if c == '\\' then st.(escaped := true)
      else if c == '"' then st.(inString := false)
      else st
    else if c == '"' then st.(inString := true)
    else if c == '{' then st.(open := st.open + ['}'])
    else if c == '[' then st.(open := st.open + [']'])
    else if c == '}' || c == ']' then
      if st.open == [] then st.(mismatched := true)
      else st.(mismatched := st.mismatched || st.open[|st.open| - 1] != c, open := st.open[..|st.open| - 1])
    else st
  }

  /** The scanner state behind `s`. */
  function After(st: Scan, s: string): Scan
    decreases |s|
  {
    if s == "" then st else After(Step(st, s[0]), s[1..])
  }

  /** A control character that JSON does not allow where it stands. */
  predicate IsRaw(st: Scan, c: char) { st.inString && !st.escaped && c < ' ' }

  function HexDigit(n: nat): char
    requires n < 16
  {
    "0123456789abcdef"[n]
  }

  function EscapeControl(c: char): string
    requires c < ' '
  {
    if c == '\n' then "\\n"
    else if c == '\r' then "\\r"
    else if c == '\t' then "\\t"
    else "\\u00" + [HexDigit(c as int / 16), HexDigit(c as int % 16)]
  }

  function Emit(st: Scan, c: char): string {
    if IsRaw(st, c) then EscapeControl(c) else [c]
  }

  function Emitted(st: Scan, s: string): string
    decreases |s|
  {
    if s == "" then "" else Emit(st, s[0]) + Emitted(Step(st, s[0]), s[1..])
  }

  function Reversed(s: string): string {
    if s == "" then "" else Reversed(s[1..]) + [s[0]]
  }

  function Closers(st: Scan): string {
    if !st.inString && !st.mismatched then Reversed(st.open) else ""
  }

  function Repaired(body: string): string {
    Emitted(START, body) + Closers(After(START, body))
  }

  method Repair(body: string) returns (out: string)
    ensures out == Repaired(body)
  {
    out := "";
    var open: seq<char> := [];
    var mismatched, inString, escaped := false, false, false;
    for i := 0 to |body|
      invariant out + Emitted(Scan(open, mismatched, inString, escaped), body[i..]) == Emitted(START, body)
      invariant After(Scan(open, mismatched, inString, escaped), body[i..]) == After(START, body)
    {
      var c := body[i];
      ghost var st := Scan(open, mismatched, inString, escaped);
      ghost var more := Emitted(Step(st, c), body[i + 1..]);
      assert body[i..][1..] == body[i + 1..];
      assert out + (Emit(st, c) + more) == (out + Emit(st, c)) + more;
      if inString {
        if escaped {
          escaped := false;
        } else if c == '\\' {
          escaped := true;
        } else if c == '"' {
          inString := false;
        } else if c < ' ' {
          out := out + EscapeControl(c);
          continue;
        }
      } else if c == '"' {
        inString := true;
      } else if c == '{' {
        open := open + ['}'];
      } else if c == '[' {
        open := open + [']'];
      } else if c == '}' || c == ']' {
        if open == [] {
          mismatched := true;
        } else {
          mismatched := mismatched || open[|open| - 1] != c;
          open := open[..|open| - 1];
        }
      }
      out := out + [c];
    }
    assert out + Emitted(Scan(open, mismatched, inString, escaped), "") == out;
    if !inString && !mismatched {
      var owed := CloseAll(open);
      out := out + owed;
    } else {
      assert out + "" == out;
    }
  }

  /** The closers still owed, innermost first. */
  method CloseAll(open: seq<char>) returns (out: string)
    ensures out == Reversed(open)
  {
    out := "";
    var i := |open|;
    assert open[..i] == open && out + Reversed(open) == Reversed(open);
    while i > 0
      invariant 0 <= i <= |open|
      invariant Reversed(open) == out + Reversed(open[..i])
    {
      i := i - 1;
      ReversedLast(open[..i + 1]);
      assert open[..i + 1][..i] == open[..i];
      out := out + [open[i]];
    }
    assert out + "" == out;
  }

  lemma {:induction false} ReversedLast(s: string)
    requires s != ""
    ensures Reversed(s) == [s[|s| - 1]] + Reversed(s[..|s| - 1])
  {
    if |s| > 1 {
      ReversedLast(s[1..]);
      assert s[1..][..|s| - 2] == s[..|s| - 1][1..];
    }
  }

  // ------------------------------------------------------------- the scanner

  lemma {:induction false} AfterConcat(st: Scan, s: string, t: string)
    ensures After(st, s + t) == After(After(st, s), t)
    decreases |s|
  {
    if s == "" {
      assert s + t == t;
    } else {
      assert (s + t)[1..] == s[1..] + t;
      AfterConcat(Step(st, s[0]), s[1..], t);
    }
  }

  /** An escape leaves the scanner where the raw character did. */
  lemma {:induction false} EscapeKeepsState(st: Scan, c: char)
    requires IsRaw(st, c)
    ensures After(st, EscapeControl(c)) == st == Step(st, c)
  {
    var e := EscapeControl(c);
    var st1 := st.(escaped := true);
    assert Step(st, e[0]) == st1 && Step(st1, e[1]) == st;
    if |e| == 2 {
      assert After(st, e) == After(st1, e[1..]) == After(st, e[1..][1..]);
    } else {
      HexIsPlain();
      var t := e[2..];
      assert e == "\\u" + t;
      assert e[1..] == "u" + t && e[1..][1..] == t;
      PlainKeepsState(st, t);
    }
  }

  lemma HexIsPlain()
    ensures forall n :: 0 <= n < 16 ==> HexDigit(n) != '\\' && HexDigit(n) != '"'
  {}

  lemma {:induction false} PlainKeepsState(st: Scan, t: string)
    requires st.inString && !st.escaped && '\\' !in t && '"' !in t
    ensures After(st, t) == st
    decreases |t|
  {
    if t != "" { PlainKeepsState(st, t[1..]); }
  }

  /** Before any closer is added, the scanner cannot tell the repaired text from
      the original. */
  lemma {:induction false} SameScan(st: Scan, s: string)
    ensures After(st, Emitted(st, s)) == After(st, s)
    decreases |s|
  {
    if s != "" {
      var e := Emit(st, s[0]);
      AfterConcat(st, e, Emitted(Step(st, s[0]), s[1..]));
      if IsRaw(st, s[0]) {
        EscapeKeepsState(st, s[0]);
      } else {
        assert After(st, e) == Step(st, s[0]) by { assert e[1..] == ""; }
      }
      SameScan(Step(st, s[0]), s[1..]);
    }
  }

  // -------------------------------------------------------------- the closers

  ghost predicate IsBalanced(st: Scan) { st.open == [] && !st.mismatched && !st.inString }

  ghost predicate Balanced(s: string) { IsBalanced(After(START, s)) }

  /** Closers owed are always closing brackets. */
  ghost predicate OwesClosers(st: Scan) {
    forall i :: 0 <= i < |st.open| ==> st.open[i] == '}' || st.open[i] == ']'
  }

  lemma {:induction false} AfterOwesClosers(st: Scan, s: string)
    requires OwesClosers(st)
    ensures OwesClosers(After(st, s))
    decreases |s|
  {
    if s != "" { AfterOwesClosers(Step(st, s[0]), s[1..]); }
  }

  predicate OnlyClosers(w: string) {
    forall i :: 0 <= i < |w| ==> w[i] == '}' || w[i] == ']'
  }

  /** A string of closing brackets balances the text exactly when it is the one
      that `repair_json` appends. */
  lemma {:induction false} ClosersAreUnique(st: Scan, w: string)
    requires OwesClosers(st) && !st.inString && OnlyClosers(w)
    ensures IsBalanced(After(st, w)) <==> !st.mismatched && w == Reversed(st.open)
    decreases |w|
  {
    if w == "" {
      if st.open != [] { assert |Reversed(st.open)| > 0 by { ReversedLast(st.open); } }
    } else if st.open == [] {
      MismatchStays(Step(st, w[0]), w[1..]);
    } else {
      ReversedLast(st.open);
      var r := Reversed(st.open[..|st.open| - 1]);
      assert w == [w[0]] + w[1..];
      assert w == Reversed(st.open) <==> w[0] == st.open[|st.open| - 1] && w[1..] == r by {
        assert ([st.open[|st.open| - 1]] + r)[1..] == r;
      }
      ClosersAreUnique(Step(st, w[0]), w[1..]);
    }
  }

  lemma {:induction false} MismatchStays(st: Scan, s: string)
    requires st.mismatched
    ensures After(st, s).mismatched
    decreases |s|
  {
    if s != "" { MismatchStays(Step(st, s[0]), s[1..]); }
  }

  lemma {:induction false} ReversedOnlyClosers(s: string)
    requires OnlyClosers(s)
    ensures OnlyClosers(Reversed(s))
    decreases |s|
  {
    if s != "" { ReversedOnlyClosers(s[1..]); }
  }

  lemma {:induction false} RepairedScan(body: string)
    ensures After(START, Repaired(body)) == After(After(START, body), Closers(After(START, body)))
  {
    SameScan(START, body);
    AfterConcat(START, Emitted(START, body), Closers(After(START, body)));
  }

  /** The repaired text is balanced if and only if no string was left open and no
      closer was wrong; otherwise nothing at all was appended. */
  lemma {:induction false} RepairBalances(body: string)
    ensures var st := After(START, body);
            && (Balanced(Repaired(body)) <==> !st.inString && !st.mismatched)
            && (st.inString || st.mismatched ==> Repaired(body) == Emitted(START, body))
  {
    var st := After(START, body);
    RepairedScan(body);
    AfterOwesClosers(START, body);
    if !st.inString && !st.mismatched {
      ReversedOnlyClosers(st.open);
      ClosersAreUnique(st, Reversed(st.open));
    } else {
      assert Emitted(START, body) + "" == Emitted(START, body);
    }
  }

  // -------------------------------------------------- control characters

  /** No control character stands raw in a string of `s`. */
  predicate Clean(st: Scan, s: string)
    decreases |s|
  {
    s == "" || (!IsRaw(st, s[0]) && Clean(Step(st, s[0]), s[1..]))
  }

  lemma {:induction false} CleanConcat(st: Scan, s: string, t: string)
    ensures Clean(st, s + t) <==> Clean(st, s) && Clean(After(st, s), t)
    decreases |s|
  {
    if s == "" {
      assert s + t == t;
    } else {
      assert (s + t)[1..] == s[1..] + t;
      CleanConcat(Step(st, s[0]), s[1..], t);
    }
  }

  /** Text without control characters is clean in every state. */
  lemma {:induction false} PrintableIsClean(st: Scan, s: string)
    requires forall i :: 0 <= i < |s| ==> s[i] >= ' '
    ensures Clean(st, s)
    decreases |s|
  {
    if s != "" { PrintableIsClean(Step(st, s[0]), s[1..]); }
  }

  lemma {:induction false} EmittedIsClean(st: Scan, s: string)
    ensures Clean(st, Emitted(st, s))
    decreases |s|
  {
    if s != "" {
      var c := s[0];
      var e := Emit(st, c);
      var more := Emitted(Step(st, c), s[1..]);
      EmittedIsClean(Step(st, c), s[1..]);
      CleanConcat(st, e, more);
      if IsRaw(st, c) {
        EscapeKeepsState(st, c);
        PrintableIsClean(st, e);
      } else {
        assert e[1..] == "";
        assert After(st, e) == Step(st, c) && Clean(st, e);
      }
    }
  }

  /** Emitting is the identity exactly on clean text. */
  lemma {:induction false} EmittedIdentity(st: Scan, s: string)
    ensures |Emitted(st, s)| >= |s|
    ensures Emitted(st, s) == s <==> Clean(st, s)
    ensures !Clean(st, s) ==> |Emitted(st, s)| > |s|
    decreases |s|
  {
    if s != "" {
      var m := Emitted(Step(st, s[0]), s[1..]);
      EmittedIdentity(Step(st, s[0]), s[1..]);
      assert |Emit(st, s[0])| >= 1 && (IsRaw(st, s[0]) ==> |Emit(st, s[0])| >= 2);
      if !IsRaw(st, s[0]) {
        assert Emitted(st, s) == [s[0]] + m;
        assert [s[0]] + s[1..] == s;
      }
    }
  }

  /** The text comes back untouched if and only if it is clean and either
      already balanced or beyond repair. */
  lemma {:induction false} RepairIdentity(body: string)
    ensures Repaired(body) == body
            <==> Clean(START, body) && (var st := After(START, body); st.inString || st.mismatched || st.open == [])
  {
    var st := After(START, body);
    EmittedIdentity(START, body);
    if st.open != [] { ReversedLast(st.open); }
    assert Closers(st) == "" <==> st.inString || st.mismatched || st.open == [];
    if Closers(st) == "" { assert Emitted(START, body) + "" == Emitted(START, body); }
  }

  lemma {:induction false} RepairedIsClean(body: string)
    ensures Clean(START, Repaired(body))
  {
    var st := After(START, body);
    EmittedIsClean(START, body);
    SameScan(START, body);
    CleanConcat(START, Emitted(START, body), Closers(st));
    AfterOwesClosers(START, body);
    ReversedOnlyClosers(st.open);
    PrintableIsClean(st, Closers(st));
  }

  /** Repairing once is enough. */
  lemma {:induction false} RepairIdempotent(body: string)
    ensures Repaired(Repaired(body)) == Repaired(body)
  {
    var st := After(START, body);
    RepairedIsClean(body);
    RepairBalances(body);
    RepairedScan(body);
    RepairIdentity(Repaired(body));
  }

  // --------------------------------------------------- what an escape denotes

  function HexValue(c: char): nat {
    if '0' <= c <= '9' then c as int - '0' as int
    else if 'a' <= c <= 'f' then c as int - 'a' as int + 10
    else 0
  }

  /** The code point a JSON escape stands for. */
  function Denoted(e: string): nat
    requires |e| >= 2
  {
    if e[1] == 'n' then 10
    else if e[1] == 'r' then 13
    else if e[1] == 't' then 9
    else if |e| == 6 then
      HexValue(e[2]) * 4096 + HexValue(e[3]) * 256 + HexValue(e[4]) * 16 + HexValue(e[5])
    else 0
  }

  /** What is written for a raw control character stands for that character. */
  lemma EscapeDenotes(c: char)
    requires c < ' '
    ensures Denoted(EscapeControl(c)) == c as int
  {
    HexRoundTrip(c as int / 16);
    HexRoundTrip(c as int % 16);
  }

  lemma HexRoundTrip(n: nat)
    requires n < 16
    ensures HexValue(HexDigit(n)) == n
  {}
}
