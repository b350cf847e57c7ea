/** What `repair_json` (crates/agents/src/parse_tool_call.rs) does to JSON, said
    without its lexer: nested arrays and objects are printed, cut off, or printed with
    raw line breaks in their strings, and come back. */
module JsonText {
  import opened RepairJson

  /** A JSON value; an atom is a number, a literal, or blank text around one. */
  datatype Value = Atom(text: string) | Text(s: string) | Array(items: Items) | Object(members: Members)

  datatype Items = NoItems | Item(first: Value, rest: Items)

  datatype Members = NoMembers | Member(key: string, value: Value, rest: Members)

  predicate IsAtom(s: string) {
    forall i :: 0 <= i < |s| ==> s[i] != '{' && s[i] != '}' && s[i] != '[' && s[i] != ']' && s[i] != '"'
  }

  predicate WellFormed(v: Value) {
    match v
    case Atom(text) => IsAtom(text)
    case Text(_) => true
    case Array(items) => WellFormedItems(items)
    case Object(members) => WellFormedMembers(members)
  }

  predicate WellFormedItems(items: Items) {
    items.Item? ==> WellFormed(items.first) && WellFormedItems(items.rest)
  }

  predicate WellFormedMembers(members: Members) {
    members.Member? ==> WellFormed(members.value) && WellFormedMembers(members.rest)
  }

  // ------------------------------------------------------------------- printing

  /** One character inside a string; a `raw` printer leaves control characters as they
      are. */
  function PrintChar(raw: bool, c: char): string {
    if c == '"' then "\\\"" else if c == '\\' then "\\\\" else if c < ' ' && !raw then EscapeControl(c) else [c]
  }

  function PrintChars(raw: bool, s: string): string {
    if s == "" then "" else PrintChar(raw, s[0]) + PrintChars(raw, s[1..])
  }

  function PrintText(raw: bool, s: string): string { "\"" + (PrintChars(raw, s) + "\"") }

  function Print(raw: bool, v: Value): string
    decreases v
  {
    match v
    case Atom(text) => text
    case Text(s) => PrintText(raw, s)
    case Array(items) => "[" + (PrintItems(raw, items) + "]")
    case Object(members) => "{" + (PrintMembers(raw, members) + "}")
  }

  function PrintItems(raw: bool, items: Items): string
    decreases items
  {
    match items
    case NoItems => ""
    case Item(first, NoItems) => Print(raw, first)
    case Item(first, rest) => Print(raw, first) + (", " + PrintItems(raw, rest))
  }

  function PrintMembers(raw: bool, members: Members): string
    decreases members
  {
    match members
    case NoMembers => ""
    case Member(key, value, NoMembers) => PrintText(raw, key) + (": " + Print(raw, value))
    case Member(key, value, rest) =>
      PrintText(raw, key) + (": " + (Print(raw, value) + (", " + PrintMembers(raw, rest))))
  }

  // ---------------------------------------------------------------- passing over

  /** Outside strings. */
  predicate Outside(st: Scan) { !st.inString && !st.escaped }

  /** The lexer is where it was behind `s`, and writes `out` for it. */
  predicate Passes(st: Scan, s: string, out: string) { After(st, s) == st && Emitted(st, s) == out }

  lemma {:induction false} EmittedJoin(st: Scan, s: string, t: string)
    ensures Emitted(st, s + t) == Emitted(st, s) + Emitted(After(st, s), t)
    decreases |s|
  {
    if s == "" {
      assert s + t == t;
    } else {
      assert (s + t)[1..] == s[1..] + t;
      EmittedJoin(Step(st, s[0]), s[1..], t);
    }
  }

  lemma {:induction false} PassesBoth(st: Scan, s: string, a: string, t: string, b: string)
    requires Passes(st, s, a) && Passes(st, t, b)
    ensures Passes(st, s + t, a + b)
  {
    AfterConcat(st, s, t);
    EmittedJoin(st, s, t);
  }

  lemma {:induction false} PassesOne(st: Scan, c: char)
    requires Outside(st) && IsAtom([c])
    ensures Passes(st, [c], [c])
  {
    assert [c][0] == c && [c][1..] == "";
    assert After(st, [c]) == After(Step(st, c), "");
  }

  lemma {:induction false} PassesAtom(st: Scan, s: string)
    requires Outside(st) && IsAtom(s)
    ensures Passes(st, s, s)
    decreases |s|
  {
    if s != "" {
      PassesOne(st, s[0]);
      PassesAtom(st, s[1..]);
      PassesBoth(st, [s[0]], [s[0]], s[1..], s[1..]);
      assert [s[0]] + s[1..] == s;
    }
  }

  predicate Inside(st: Scan) { st.inString && !st.escaped }

  lemma {:induction false} PassesChar(st: Scan, raw: bool, c: char)
    requires Inside(st)
    ensures Passes(st, PrintChar(raw, c), PrintChar(false, c))
  {
    var s := PrintChar(raw, c);
    if c == '"' || c == '\\' {
      var mid, tail := st.(escaped := true), s[1..];
      assert s[0] == '\\' && tail[0] == c && tail[1..] == "";
      assert Step(st, '\\') == mid && Step(mid, c) == st;
      assert After(mid, tail) == After(st, "") && Emitted(mid, tail) == [c] + "";
      assert Emitted(st, s) == ['\\'] + ([c] + "");
    } else if c < ' ' && !raw {
      EscapeKeepsState(st, c);
      EscapePrints(st, c);
    } else {
      assert s[0] == c && s[1..] == "";
      assert Emitted(st, s) == Emit(st, c) + "";
    }
  }

  lemma {:induction false} EscapePrints(st: Scan, c: char)
    requires Inside(st) && c < ' '
    ensures Emitted(st, EscapeControl(c)) == EscapeControl(c)
  {
    var s := EscapeControl(c);
    assert forall i :: 0 <= i < |s| ==> s[i] >= ' ';
    PrintableIsClean(st, s);
    EmittedIdentity(st, s);
  }

  lemma {:induction false} PassesChars(st: Scan, raw: bool, s: string)
    requires Inside(st)
    ensures Passes(st, PrintChars(raw, s), PrintChars(false, s))
    decreases |s|
  {
    if s != "" {
      PassesChar(st, raw, s[0]);
      PassesChars(st, raw, s[1..]);
      PassesBoth(st, PrintChar(raw, s[0]), PrintChar(false, s[0]), PrintChars(raw, s[1..]), PrintChars(false, s[1..]));
    }
  }

  /** Into a node or a string with `c`, and out of it with `d`. */
  lemma {:induction false} PassesBetween(st: Scan, inner: Scan, c: char, d: char, s: string, out: string)
    requires Step(st, c) == inner && Step(inner, d) == st && Passes(inner, s, out)
    requires Emit(st, c) == [c] && Emit(inner, d) == [d]
    ensures Passes(st, [c] + (s + [d]), [c] + (out + [d]))
  {
    var last := [d];
    assert last[0] == d && last[1..] == "";
    assert After(inner, last) == After(Step(inner, d), "");
    assert Emitted(inner, last) == [d] + "";
    AfterConcat(inner, s, last);
    EmittedJoin(inner, s, last);
    var whole := [c] + (s + last);
    assert whole[0] == c && whole[1..] == s + last;
  }

  lemma {:induction false} PassesText(st: Scan, raw: bool, s: string)
    requires Outside(st)
    ensures Passes(st, PrintText(raw, s), PrintText(false, s))
  {
    var inner := st.(inString := true);
    PassesChars(inner, raw, s);
    PassesBetween(st, inner, '"', '"', PrintChars(raw, s), PrintChars(false, s));
  }

  lemma {:induction false} PassesValue(st: Scan, raw: bool, v: Value)
    requires Outside(st) && WellFormed(v)
    ensures Passes(st, Print(raw, v), Print(false, v))
    decreases v
  {
    match v
    case Atom(text) => PassesAtom(st, text);
    case Text(s) => PassesText(st, raw, s);
    case Array(items) =>
      var inner := st.(open := st.open + [']']);
      PassesItems(inner, raw, items);
      NodeCloses(st, ']');
      PassesBetween(st, inner, '[', ']', PrintItems(raw, items), PrintItems(false, items));
    case Object(members) =>
      var inner := st.(open := st.open + ['}']);
      PassesMembers(inner, raw, members);
      NodeCloses(st, '}');
      PassesBetween(st, inner, '{', '}', PrintMembers(raw, members), PrintMembers(false, members));
  }

  lemma {:induction false} NodeCloses(st: Scan, closer: char)
    requires Outside(st) && (closer == ']' || closer == '}')
    ensures Step(st.(open := st.open + [closer]), closer) == st
  {
    assert (st.open + [closer])[..|st.open|] == st.open;
  }

  lemma {:induction false} PassesItems(st: Scan, raw: bool, items: Items)
    requires Outside(st) && WellFormedItems(items)
    ensures Passes(st, PrintItems(raw, items), PrintItems(false, items))
    decreases items
  {
    match items
    case NoItems =>
    case Item(first, rest) =>
      PassesValue(st, raw, first);
      if rest.Item? {
        PassesItems(st, raw, rest);
        PassesBehind(st, ", ", PrintItems(raw, rest), PrintItems(false, rest));
        PassesBoth(st, Print(raw, first), Print(false, first),
                   ", " + PrintItems(raw, rest), ", " + PrintItems(false, rest));
      }
  }

  lemma {:induction false} PassesBehind(st: Scan, separator: string, s: string, out: string)
    requires Outside(st) && (separator == ", " || separator == ": ") && Passes(st, s, out)
    ensures Passes(st, separator + s, separator + out)
  {
    PassesAtom(st, separator);
    PassesBoth(st, separator, separator, s, out);
  }

  lemma {:induction false} PassesMembers(st: Scan, raw: bool, members: Members)
    requires Outside(st) && WellFormedMembers(members)
    ensures Passes(st, PrintMembers(raw, members), PrintMembers(false, members))
    decreases members
  {
    match members
    case NoMembers =>
    case Member(key, value, rest) =>
      PassesText(st, raw, key);
      PassesValue(st, raw, value);
      var k, k' := PrintText(raw, key), PrintText(false, key);
      var s, s' := Print(raw, value), Print(false, value);
      if rest.Member? {
        PassesMembers(st, raw, rest);
        var r, r' := PrintMembers(raw, rest), PrintMembers(false, rest);
        PassesBehind(st, ", ", r, r');
        PassesBoth(st, s, s', ", " + r, ", " + r');
        PassesBehind(st, ": ", s + (", " + r), s' + (", " + r'));
        PassesBoth(st, k, k', ": " + (s + (", " + r)), ": " + (s' + (", " + r')));
      } else {
        PassesBehind(st, ": ", s, s');
        PassesBoth(st, k, k', ": " + s, ": " + s');
      }
  }

  /** Raw control characters in strings are all that separates a text from JSON, and
      they are put right: the repaired text is the properly printed value, and is
      balanced. */
  lemma {:induction false} RawTextIsRepaired(v: Value)
    requires WellFormed(v)
    ensures Repaired(Print(true, v)) == Print(false, v)
    ensures Repaired(Print(false, v)) == Print(false, v)
    ensures Balanced(Print(false, v))
  {
    PassesValue(START, true, v);
    PassesValue(START, false, v);
    assert Print(false, v) + "" == Print(false, v);
  }

  // ------------------------------------------------------------- cut-off values

  datatype Node = ArrayNode | ObjectNode

  function Closer(node: Node): char {
    match node case ArrayNode => ']' case ObjectNode => '}'
  }

  /** One closer for each open node, outermost first. */
  function Owed(nodes: seq<Node>): string {
    if nodes == [] then "" else [Closer(nodes[0])] + Owed(nodes[1..])
  }

  /** One closer for each open node, innermost first. */
  function Closing(nodes: seq<Node>): string {
    if nodes == [] then "" else [Closer(nodes[|nodes| - 1])] + Closing(nodes[..|nodes| - 1])
  }

  function Length(v: Value): nat { |Print(false, v)| }

  /** The nodes that are open behind the first `n` characters of the printed value,
      outermost first. */
  function OpenAt(v: Value, n: nat): seq<Node>
    requires n <= Length(v)
    decreases v
  {
    match v
    case Atom(_) => []
    case Text(_) => []
    case Array(items) => if n == 0 || n == Length(v) then [] else [ArrayNode] + OpenInItems(items, n - 1)
    case Object(members) => if n == 0 || n == Length(v) then [] else [ObjectNode] + OpenInMembers(members, n - 1)
  }

  function OpenInItems(items: Items, n: nat): seq<Node>
    requires n <= |PrintItems(false, items)|
    decreases items
  {
    match items
    case NoItems => []
    case Item(first, rest) =>
      if n <= Length(first) then OpenAt(first, n)
      else if n < Length(first) + 2 then []
      else OpenInItems(rest, n - Length(first) - 2)
  }

  function OpenInMembers(members: Members, n: nat): seq<Node>
    requires n <= |PrintMembers(false, members)|
    decreases members
  {
    match members
    case NoMembers => []
    case Member(key, value, rest) =>
      var k := |PrintText(false, key)| + 2;
      if n < k then []
      else if n <= k + Length(value) then OpenAt(value, n - k)
      else if n < k + Length(value) + 2 then []
      else OpenInMembers(rest, n - k - Length(value) - 2)
  }

  /** Whether the cut falls inside a string. */
  predicate InText(v: Value, n: nat)
    requires n <= Length(v)
    decreases v
  {
    match v
    case Atom(_) => false
    case Text(_) => 0 < n < Length(v)
    case Array(items) => 0 < n < Length(v) && InTextOfItems(items, n - 1)
    case Object(members) => 0 < n < Length(v) && InTextOfMembers(members, n - 1)
  }

  predicate InTextOfItems(items: Items, n: nat)
    requires n <= |PrintItems(false, items)|
    decreases items
  {
    match items
    case NoItems => false
    case Item(first, rest) =>
      if n <= Length(first) then InText(first, n)
      else n >= Length(first) + 2 && InTextOfItems(rest, n - Length(first) - 2)
  }

  predicate InTextOfMembers(members: Members, n: nat)
    requires n <= |PrintMembers(false, members)|
    decreases members
  {
    match members
    case NoMembers => false
    case Member(key, value, rest) =>
      var k := |PrintText(false, key)|;
      if n < k + 2 then 0 < n < k
      else if n <= k + 2 + Length(value) then InText(value, n - k - 2)
      else n >= k + Length(value) + 4 && InTextOfMembers(rest, n - k - Length(value) - 4)
  }

  /** The lexer's state at a cut: in a string or not, and what it owes. */
  ghost predicate StandsAt(st: Scan, s: string, inText: bool, open: seq<Node>) {
    var a := After(st, s);
    a.inString == inText && (!inText ==> a == st.(open := st.open + Owed(open)))
  }

  lemma {:induction false} Cut(a: string, b: string, n: nat)
    requires n <= |a| + |b|
    ensures n <= |a| ==> (a + b)[..n] == a[..n]
    ensures n >= |a| ==> (a + b)[..n] == a + b[..n - |a|]
  {}

  lemma {:induction false} NothingOwed(st: Scan)
    ensures st.(open := st.open + Owed([])) == st
  {
    assert st.open + "" == st.open;
  }

  /** A cut in the first of two parts, or behind it. */
  lemma {:induction false} StandsBehind(st: Scan, a: string, b: string, n: nat, inText: bool, open: seq<Node>)
    requires |a| <= n <= |a| + |b| && After(st, a) == st && StandsAt(st, b[..n - |a|], inText, open)
    ensures StandsAt(st, (a + b)[..n], inText, open)
  {
    Cut(a, b, n);
    AfterConcat(st, a, b[..n - |a|]);
  }

  lemma {:induction false} StandsAtStart(st: Scan)
    ensures StandsAt(st, "", st.inString, [])
  {
    NothingOwed(st);
  }

  /** One node more around everything that is open. */
  lemma {:induction false} StandsInNode(st: Scan, node: Node, opener: char, s: string, inText: bool, open: seq<Node>)
    requires Outside(st) && Step(st, opener) == st.(open := st.open + [Closer(node)])
    requires StandsAt(st.(open := st.open + [Closer(node)]), s, inText, open)
    ensures StandsAt(st, [opener] + s, inText, [node] + open)
  {
    var whole := [opener] + s;
    assert whole[0] == opener && whole[1..] == s;
    assert ([node] + open)[1..] == open;
    assert st.open + [Closer(node)] + Owed(open) == st.open + ([Closer(node)] + Owed(open));
  }

  lemma {:induction false} CutInText(st: Scan, s: string, n: nat)
    requires Outside(st) && n <= |PrintText(false, s)|
    ensures StandsAt(st, PrintText(false, s)[..n], 0 < n < |PrintText(false, s)|, [])
  {
    var chars := PrintChars(false, s);
    var whole := PrintText(false, s);
    NothingOwed(st);
    if n == |whole| {
      PassesText(st, false, s);
      assert whole[..n] == whole;
    } else if n > 0 {
      var inner := st.(inString := true);
      StaysInString(inner, s, n - 1);
      Cut(chars, "\"", n - 1);
      var cut := "\"" + chars[..n - 1];
      assert whole[..n] == cut;
      assert cut[0] == '"' && cut[1..] == chars[..n - 1];
    }
  }

  lemma {:induction false} StaysInString(st: Scan, s: string, n: nat)
    requires Inside(st) && n <= |PrintChars(false, s)|
    ensures After(st, PrintChars(false, s)[..n]).inString
    decreases |s|
  {
    if s != "" {
      var a, b := PrintChar(false, s[0]), PrintChars(false, s[1..]);
      Cut(a, b, n);
      if n >= |a| {
        PassesChar(st, false, s[0]);
        AfterConcat(st, a, b[..n - |a|]);
        StaysInString(st, s[1..], n - |a|);
      } else {
        StaysInChar(st, s[0], n);
      }
    }
  }

  lemma {:induction false} StaysInChar(st: Scan, c: char, n: nat)
    requires Inside(st) && n < |PrintChar(false, c)|
    ensures After(st, PrintChar(false, c)[..n]).inString
  {
    var s := PrintChar(false, c);
    if n > 0 {
      assert s[0] == '\\';
      StaysBehindSlash(st, s, n);
    }
  }

  /** Behind a backslash and one escaped character come only digits. */
  lemma {:induction false} StaysBehindSlash(st: Scan, s: string, n: nat)
    requires Inside(st) && 0 < n < |s| && s[0] == '\\' && forall i :: 2 <= i < |s| ==> s[i] != '"' && s[i] != '\\'
    ensures After(st, s[..n]).inString
    decreases n
  {
    if n == 1 {
      assert s[..1][0] == '\\' && s[..1][1..] == "";
    } else {
      StaysBehindSlash(st, s, n - 1);
      SlashState(st, s, n - 1);
      assert s[..n] == s[..n - 1] + [s[n - 1]];
      AfterConcat(st, s[..n - 1], [s[n - 1]]);
      assert [s[n - 1]][1..] == "";
    }
  }

  lemma {:induction false} SlashState(st: Scan, s: string, n: nat)
    requires Inside(st) && 0 < n < |s| && s[0] == '\\' && forall i :: 2 <= i < |s| ==> s[i] != '"' && s[i] != '\\'
    ensures After(st, s[..n]) == st.(escaped := n == 1)
    decreases n
  {
    if n == 1 {
      assert s[..1][0] == '\\' && s[..1][1..] == "";
    } else {
      SlashState(st, s, n - 1);
      assert s[..n] == s[..n - 1] + [s[n - 1]];
      AfterConcat(st, s[..n - 1], [s[n - 1]]);
      assert [s[n - 1]][1..] == "";
    }
  }

  lemma {:induction false} CutInValue(st: Scan, v: Value, n: nat)
    requires Outside(st) && WellFormed(v) && n <= Length(v)
    ensures StandsAt(st, Print(false, v)[..n], InText(v, n), OpenAt(v, n))
    decreases v
  {
    var whole := Print(false, v);
    if n == 0 {
      StandsAtStart(st);
      assert whole[..0] == "";
    } else if n == Length(v) {
      PassesValue(st, false, v);
      NothingOwed(st);
      assert whole[..n] == whole;
    } else {
      match v
      case Atom(text) =>
        PassesAtom(st, text[..n]);
        NothingOwed(st);
      case Text(s) => CutInText(st, s, n);
      case Array(items) =>
        var inner := st.(open := st.open + [']']);
        CutInItems(inner, items, n - 1);
        NodeText("[", PrintItems(false, items), "]", n);
        StandsInNode(st, ArrayNode, '[', PrintItems(false, items)[..n - 1], InTextOfItems(items, n - 1),
                     OpenInItems(items, n - 1));
      case Object(members) =>
        var inner := st.(open := st.open + ['}']);
        CutInMembers(inner, members, n - 1);
        NodeText("{", PrintMembers(false, members), "}", n);
        StandsInNode(st, ObjectNode, '{', PrintMembers(false, members)[..n - 1], InTextOfMembers(members, n - 1),
                     OpenInMembers(members, n - 1));
    }
  }

  lemma {:induction false} NodeText(opener: string, s: string, closer: string, n: nat)
    requires |opener| == |closer| == 1 && 0 < n < |s| + 2
    ensures (opener + (s + closer))[..n] == opener + s[..n - 1]
  {}

  /** A cut within a separator. */
  lemma {:induction false} CutInSeparator(st: Scan, separator: string, n: nat)
    requires Outside(st) && (separator == ", " || separator == ": ") && n <= 2
    ensures StandsAt(st, separator[..n], false, [])
  {
    PassesAtom(st, separator[..n]);
    NothingOwed(st);
  }

  /** A cut in what follows a separator. */
  lemma {:induction false} CutBehind(
    st: Scan, separator: string, s: string, n: nat, inText: bool, open: seq<Node>)
    requires Outside(st) && (separator == ", " || separator == ": ") && n <= 2 + |s|
    requires if n < 2 then !inText && open == [] else StandsAt(st, s[..n - 2], inText, open)
    ensures StandsAt(st, (separator + s)[..n], inText, open)
  {
    if n < 2 {
      CutInSeparator(st, separator, n);
      Cut(separator, s, n);
    } else {
      PassesAtom(st, separator);
      StandsBehind(st, separator, s, n, inText, open);
    }
  }

  lemma {:induction false} CutInItems(st: Scan, items: Items, n: nat)
    requires Outside(st) && WellFormedItems(items) && n <= |PrintItems(false, items)|
    ensures StandsAt(st, PrintItems(false, items)[..n], InTextOfItems(items, n), OpenInItems(items, n))
    decreases items
  {
    match items
    case NoItems => StandsAtStart(st);
    case Item(first, rest) =>
      var a := Print(false, first);
      if n <= |a| {
        CutInValue(st, first, n);
        if rest.Item? { Cut(a, ", " + PrintItems(false, rest), n); }
      } else {
        var b, m := PrintItems(false, rest), n - |a|;
        PassesValue(st, false, first);
        if m >= 2 { CutInItems(st, rest, m - 2); }
        CutBehind(st, ", ", b, m, InTextOfItems(items, n), OpenInItems(items, n));
        StandsBehind(st, a, ", " + b, n, InTextOfItems(items, n), OpenInItems(items, n));
      }
  }

  /** What follows the key of a member. */
  function ValueAndRest(value: Value, rest: Members): string {
    if rest.NoMembers? then Print(false, value) else Print(false, value) + (", " + PrintMembers(false, rest))
  }

  lemma {:induction false} CutInMembers(st: Scan, members: Members, n: nat)
    requires Outside(st) && WellFormedMembers(members) && n <= |PrintMembers(false, members)|
    ensures StandsAt(st, PrintMembers(false, members)[..n], InTextOfMembers(members, n), OpenInMembers(members, n))
    decreases members
  {
    match members
    case NoMembers => StandsAtStart(st);
    case Member(key, value, rest) =>
      var k, b := PrintText(false, key), ValueAndRest(value, rest);
      var inText, open := InTextOfMembers(members, n), OpenInMembers(members, n);
      if n < |k| {
        CutInText(st, key, n);
        Cut(k, ": " + b, n);
      } else {
        PassesText(st, false, key);
        if n >= |k| + 2 { CutInRest(st, members, n - |k| - 2); }
        CutBehind(st, ": ", b, n - |k|, inText, open);
        StandsBehind(st, k, ": " + b, n, inText, open);
      }
  }

  lemma {:induction false} CutInRest(st: Scan, members: Members, n: nat)
    requires members.Member? && Outside(st) && WellFormedMembers(members)
    requires n <= |ValueAndRest(members.value, members.rest)|
    ensures var k := |PrintText(false, members.key)| + 2;
            && k + n <= |PrintMembers(false, members)|
            && StandsAt(st, ValueAndRest(members.value, members.rest)[..n],
                        InTextOfMembers(members, k + n), OpenInMembers(members, k + n))
    decreases members, 0
  {
    var value, rest := members.value, members.rest;
    var k := |PrintText(false, members.key)| + 2;
    var a, b := Print(false, value), PrintMembers(false, rest);
    if n <= |a| {
      CutInValue(st, value, n);
      if rest.Member? { Cut(a, ", " + b, n); }
    } else {
      var inText, open := InTextOfMembers(members, k + n), OpenInMembers(members, k + n);
      PassesValue(st, false, value);
      if n >= |a| + 2 { CutInMembers(st, rest, n - |a| - 2); }
      CutBehind(st, ", ", b, n - |a|, inText, open);
      StandsBehind(st, a, ", " + b, n, inText, open);
    }
  }

  lemma {:induction false} OwedReversed(nodes: seq<Node>)
    ensures Reversed(Owed(nodes)) == Closing(nodes)
    decreases |nodes|
  {
    if nodes != [] {
      var front, last := nodes[..|nodes| - 1], nodes[|nodes| - 1];
      OwedLast(nodes);
      OwedReversed(front);
      var owed := Owed(front) + [Closer(last)];
      ReversedLast(owed);
      assert owed[..|owed| - 1] == Owed(front);
    }
  }

  lemma {:induction false} OwedLast(nodes: seq<Node>)
    requires nodes != []
    ensures Owed(nodes) == Owed(nodes[..|nodes| - 1]) + [Closer(nodes[|nodes| - 1])]
    decreases |nodes|
  {
    var n := |nodes| - 1;
    if n > 0 {
      OwedLast(nodes[1..]);
      assert nodes[1..][..n - 1] == nodes[..n][1..];
      assert nodes[1..][n - 1] == nodes[n];
    } else {
      assert nodes[..0] == [] && nodes[1..] == [];
    }
  }

  lemma {:induction false} PrefixIsClean(v: Value, n: nat)
    requires WellFormed(v) && n <= Length(v)
    ensures Emitted(START, Print(false, v)[..n]) == Print(false, v)[..n]
  {
    var whole := Print(false, v);
    PassesValue(START, false, v);
    EmittedIdentity(START, whole);
    assert whole == whole[..n] + whole[n..];
    CleanConcat(START, whole[..n], whole[n..]);
    EmittedIdentity(START, whole[..n]);
  }

  /** A value cut off anywhere outside a string gets one closer for each node still
      open, innermost first, and nothing else; cut off inside a string it is left as it
      is. */
  lemma {:induction false} CutOffValueIsClosed(v: Value, n: nat)
    requires WellFormed(v) && n <= Length(v)
    ensures Repaired(Print(false, v)[..n])
            == Print(false, v)[..n] + if InText(v, n) then "" else Closing(OpenAt(v, n))
  {
    CutInValue(START, v, n);
    PrefixIsClean(v, n);
    assert "" + Owed(OpenAt(v, n)) == Owed(OpenAt(v, n));
    OwedReversed(OpenAt(v, n));
  }

  /** A value that lacks nothing but closers comes back whole. */
  lemma {:induction false} DroppedClosersComeBack(v: Value, n: nat)
    requires WellFormed(v) && n <= Length(v) && OnlyClosers(Print(false, v)[n..]) && !InText(v, n)
    ensures Repaired(Print(false, v)[..n]) == Print(false, v)
  {
    var whole := Print(false, v);
    var st := After(START, whole[..n]);
    CutInValue(START, v, n);
    PrefixIsClean(v, n);
    PassesValue(START, false, v);
    assert whole == whole[..n] + whole[n..];
    AfterConcat(START, whole[..n], whole[n..]);
    AfterOwesClosers(START, whole[..n]);
    ClosersAreUnique(st, whole[n..]);
  }

  lemma {:induction false} OwedEnd(nodes: seq<Node>)
    ensures |Owed(nodes)| == |nodes|
    ensures nodes != [] ==> Owed(nodes)[|nodes| - 1] == Closer(nodes[|nodes| - 1])
    decreases |nodes|
  {
    if nodes != [] {
      OwedLast(nodes);
      OwedEnd(nodes[..|nodes| - 1]);
    }
  }

  /** A closer that does not answer the innermost open node means the structure is
      wrong rather than short: nothing is appended. */
  lemma {:induction false} WrongCloserIsLeft(v: Value, n: nat, c: char)
    requires WellFormed(v) && n <= Length(v) && !InText(v, n) && (c == ']' || c == '}')
    requires OpenAt(v, n) == [] || Closer(OpenAt(v, n)[|OpenAt(v, n)| - 1]) != c
    ensures Repaired(Print(false, v)[..n] + [c]) == Print(false, v)[..n] + [c]
  {
    var cut := Print(false, v)[..n];
    var st := After(START, cut);
    CutInValue(START, v, n);
    PrefixIsClean(v, n);
    OwedEnd(OpenAt(v, n));
    assert "" + Owed(OpenAt(v, n)) == Owed(OpenAt(v, n));
    OneMore(cut, c);
    assert (cut + [c]) + "" == cut + [c];
  }

  /** One character more, that is no raw control character. */
  lemma {:induction false} OneMore(s: string, c: char)
    requires c >= ' '
    ensures After(START, s + [c]) == Step(After(START, s), c)
    ensures Emitted(START, s + [c]) == Emitted(START, s) + [c]
  {
    var st := After(START, s);
    AfterConcat(START, s, [c]);
    EmittedJoin(START, s, [c]);
    assert [c][0] == c && [c][1..] == "";
    assert After(st, [c]) == After(Step(st, c), "");
    assert Emitted(st, [c]) == [c] + "";
  }
}
