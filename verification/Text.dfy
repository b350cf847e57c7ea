/** Strings as the agent runtime sees them: a `&str` is a sequence of Unicode
    scalar values.  The trimming and searching functions of Rust's standard
    library that the text protocols rely on are defined here, once, together
    with the facts about them that the protocol proofs use. */
module Text {

  datatype Option<+T> = None | Some(value: T)

  function Min(a: nat, b: nat): (m: nat)
    ensures m <= a && m <= b && (m == a || m == b)
  {
    if a < b then a else b
  }

  /** `char::is_whitespace`: the Unicode property White_Space. */
  predicate IsSpace(c: char) {
    var n := c as int;
    9 <= n <= 13 || n == 32 || n == 0x85 || n == 0xA0 || n == 0x1680 || 0x2000 <= n <= 0x200A
    || n == 0x2028 || n == 0x2029 || n == 0x202F || n == 0x205F || n == 0x3000
  }

  /** `u8::is_ascii_whitespace`, which leaves out the vertical tab. */
  predicate IsAsciiSpace(c: char) {
    c == ' ' || c == '\t' || c == '\n' || c == '\r' || c as int == 12
  }

  predicate IsLower(c: char) { 'a' <= c <= 'z' }

  predicate IsDigit(c: char) { '0' <= c <= '9' }

  predicate IsAlpha(c: char) { 'a' <= c <= 'z' || 'A' <= c <= 'Z' }

  /** `char::to_ascii_lowercase` */
  function ToLower(c: char): char {
    if 'A' <= c <= 'Z' then (c as int + 32) as char else c
  }

  predicate IsQuote(c: char) { c == '\'' || c == '"' }

  predicate Blank(s: string) {
    forall i :: 0 <= i < |s| ==> IsSpace(s[i])
  }

  /** The offset of the first character at or behind `i` that is no space. */
  function TextStart(s: string, i: nat): (r: nat)
    requires i <= |s|
    ensures i <= r <= |s|
    ensures forall k :: i <= k < r ==> IsSpace(s[k])
    ensures r < |s| ==> !IsSpace(s[r])
    decreases |s| - i
  {
    if i < |s| && IsSpace(s[i]) then TextStart(s, i + 1) else i
  }

  /** The offset behind the last character before `i` that is no space. */
  function TextEnd(s: string, i: nat): (r: nat)
    requires i <= |s|
    ensures r <= i
    ensures forall k :: r <= k < i ==> IsSpace(s[k])
    ensures r > 0 ==> !IsSpace(s[r - 1])
  {
    if i > 0 && IsSpace(s[i - 1]) then TextEnd(s, i - 1) else i
  }

  function TrimStart(s: string): (r: string)
    ensures r != "" ==> !IsSpace(r[0])
  {
    s[TextStart(s, 0)..]
  }

  function TrimEnd(s: string): (r: string)
    ensures r != "" ==> !IsSpace(r[|r| - 1])
  {
    s[..TextEnd(s, |s|)]
  }

  function Trim(s: string): (r: string)
    ensures r != "" ==> !IsSpace(r[0]) && !IsSpace(r[|r| - 1])
  {
    TrimEnd(TrimStart(s))
  }

  /** A string whose two ends are not white space is its own trimming. */
  lemma TrimFixed(s: string)
    requires s == "" || (!IsSpace(s[0]) && !IsSpace(s[|s| - 1]))
    ensures TrimStart(s) == s && TrimEnd(s) == s && Trim(s) == s
  {}

  lemma TrimBlank(s: string)
    ensures TrimStart(s) == "" <==> Blank(s)
    ensures TrimEnd(s) == "" <==> Blank(s)
    ensures Trim(s) == "" <==> Blank(s)
  {}

  /** A blank front is invisible to `trim_start`. */
  lemma TrimStartPrefix(b: string, s: string)
    requires Blank(b)
    ensures TrimStart(b + s) == TrimStart(s)
  {
    var i, j := TextStart(s, 0), TextStart(b + s, 0);
    assert forall k :: 0 <= k < |s| ==> (b + s)[|b| + k] == s[k];
    assert j >= |b|;
    assert j == |b| + i;
  }

  /** A blank back is invisible to `trim_end`. */
  lemma TrimEndSuffix(s: string, b: string)
    requires Blank(b)
    ensures TrimEnd(s + b) == TrimEnd(s)
  {
    var i, j := TextEnd(s, |s|), TextEnd(s + b, |s + b|);
    assert forall k :: |s| <= k < |s + b| ==> IsSpace((s + b)[k]);
    assert forall k :: 0 <= k < |s| ==> (s + b)[k] == s[k];
    assert j <= |s|;
    assert j == i;
  }

  /** `trim_end` never reaches into a front that is followed by text. */
  lemma TrimEndKeeps(p: string, s: string)
    requires !Blank(s)
    ensures TrimEnd(p + s) == p + TrimEnd(s)
  {
    var i, j := TextEnd(s, |s|), TextEnd(p + s, |p + s|);
    assert forall k :: 0 <= k < |s| ==> (p + s)[|p| + k] == s[k];
    assert i > 0 && (p + s)[|p| + i - 1] == s[i - 1];
    assert j == |p| + i;
  }

  /** Trimming one side first changes nothing about the whole trimming. */
  lemma TrimAgain(s: string)
    ensures Trim(TrimStart(s)) == Trim(s)
    ensures Trim(TrimEnd(s)) == Trim(s)
  {
    var t := TrimStart(s);
    assert TextStart(t, 0) == 0;
    TrimBlank(s);
    if Blank(s) {
      assert t == "" && TrimEnd(s) == "";
    } else {
      var b := s[..TextStart(s, 0)];
      assert s == b + t;
      TrimBlank(t);
      TrimEndKeeps(b, t);
      TrimStartPrefix(b, TrimEnd(t));
      TrimFixed(Trim(s));
    }
  }

  /** `s` has `p` at offset `i`. */
  predicate MatchAt(s: string, i: nat, p: string) {
    i + |p| <= |s| && forall k :: 0 <= k < |p| ==> s[i + k] == p[k]
  }

  predicate StartsWith(s: string, p: string) { MatchAt(s, 0, p) }

  predicate Contains(s: string, p: string) {
    exists i: nat :: i <= |s| && MatchAt(s, i, p)
  }

  /** `str::find` from offset `i` on: the first place where `p` occurs. */
  function FindFrom(s: string, i: nat, p: string): (r: Option<nat>)
    requires i <= |s|
    ensures r.Some? ==> i <= r.value && MatchAt(s, r.value, p)
    ensures r.Some? ==> forall k: nat :: i <= k < r.value ==> !MatchAt(s, k, p)
    ensures r.None? ==> forall k: nat :: i <= k <= |s| ==> !MatchAt(s, k, p)
    decreases |s| - i
  {
    if MatchAt(s, i, p) then Some(i)
    else if i == |s| then None
    else FindFrom(s, i + 1, p)
  }

  function Find(s: string, p: string): (r: Option<nat>)
    ensures r.Some? ==> MatchAt(s, r.value, p)
    ensures r.Some? ==> forall k: nat :: k < r.value ==> !MatchAt(s, k, p)
    ensures r.Some? <==> Contains(s, p)
  {
    FindFrom(s, 0, p)
  }

  /** The first match is determined: any offset with no match before it. */
  lemma {:induction false} FindIs(s: string, p: string, i: nat)
    requires MatchAt(s, i, p)
    requires forall k: nat :: k < i ==> !MatchAt(s, k, p)
    ensures Find(s, p) == Some(i)
  {}

  /** A line without the carriage return of its line ending. */
  function StripCr(l: string): string {
    if l != "" && l[|l| - 1] == '\r' then l[..|l| - 1] else l
  }

  /** `str::lines` */
  function Lines(s: string): seq<string>
    decreases |s|
  {
    if s == "" then []
    else match Find(s, "\n")
      case None => [s]
      case Some(i) => [StripCr(s[..i])] + Lines(s[i + 1..])
  }

  /** Bytes of a character in UTF-8. */
  function Width(c: char): nat {
    var n := c as int;
    if n < 0x80 then 1 else if n < 0x800 then 2 else if n < 0x10000 then 3 else 4
  }

  function Utf8Len(s: string): nat {
    if s == "" then 0 else Utf8Len(s[..|s| - 1]) + Width(s[|s| - 1])
  }

  lemma {:induction false} EndIsContained(a: string, p: string)
    ensures Contains(a + p, p)
  {
    assert MatchAt(a + p, |a|, p);
  }

  lemma {:induction false} PartOfPart(s: string, t: string, p: string)
    requires Contains(s, t) && Contains(t, p)
    ensures Contains(s, p)
  {
    var i: nat :| i <= |s| && MatchAt(s, i, t);
    var j: nat :| j <= |t| && MatchAt(t, j, p);
    forall k | 0 <= k < |p|
      ensures s[(i + j) + k] == p[k]
    {
      assert s[i + (j + k)] == t[j + k];
    }
    assert MatchAt(s, i + j, p);
  }

  lemma {:induction false} MoreContains(s: string, b: string, p: string)
    requires Contains(s, p)
    ensures Contains(s + b, p)
  {
    var i: nat :| i <= |s| && MatchAt(s, i, p);
    assert MatchAt(s + b, i, p);
  }

  /** Decimal digits of a number, as `{}` formats an unsigned integer. */
  function Decimal(n: nat): (r: string)
    ensures r != "" && forall i :: 0 <= i < |r| ==> IsDigit(r[i])
  {
    if n < 10 then ["0123456789"[n]] else Decimal(n / 10) + ["0123456789"[n % 10]]
  }

  lemma {:induction false} DecimalInjective(m: nat, n: nat)
    requires Decimal(m) == Decimal(n)
    ensures m == n
  {
    var a, b := Decimal(m), Decimal(n);
    assert forall i, j :: 0 <= i < j < 10 ==> "0123456789"[i] != "0123456789"[j];
    assert a[|a| - 1] == "0123456789"[m % 10];
    assert b[|b| - 1] == "0123456789"[n % 10];
    assert m % 10 == n % 10;
    if m >= 10 && n >= 10 {
      assert a[..|a| - 1] == Decimal(m / 10);
      assert b[..|b| - 1] == Decimal(n / 10);
      DecimalInjective(m / 10, n / 10);
    } else {
      assert m < 10 ==> |a| == 1;
      assert n < 10 ==> |b| == 1;
      assert m >= 10 ==> |a| > 1;
      assert n >= 10 ==> |b| > 1;
    }
  }

  /** The number that digits stand for. */
  function NumberOf(digits: string): int {
    if digits == "" then 0
    else NumberOf(digits[..|digits| - 1]) * 10 + (digits[|digits| - 1] as int - '0' as int)
  }

  lemma {:induction false} DigitIs(n: nat)
    requires n < 10
    ensures "0123456789"[n] as int - '0' as int == n
  {}

  lemma {:induction false} DecimalReads(n: nat)
    ensures NumberOf(Decimal(n)) == n
    decreases n
  {
    var d := Decimal(n);
    DigitIs(n % 10);
    if n < 10 {
      assert d[..0] == "";
    } else {
      DecimalReads(n / 10);
      assert d[..|d| - 1] == Decimal(n / 10);
    }
  }
}
