/** System-prompt assembly (crates/agents/src/prompt.rs): named sections rendered
    in `(order, name)` order, with strict `{{name}}` interpolation. */
module Prompt {
  import opened Text
  import opened Ordering

  datatype Section = Section(name: string, order: int, text: string)

  /** `Err`: a section refers to a variable without a value. */
  datatype Result<T> = Ok(value: T) | UnknownVariable(name: string, section: string)

  type Vars = map<string, string>

  // -------------------------------------------------------------- interpolation

  function Interpolated(rest: string, out: string, vars: Vars, section: string): Result<string>
    decreases |rest|, 1
  {
    match Find(rest, "{{")
    case None => Ok(out + rest)
    case Some(open) => Opened(rest[open + 2..], out + rest[..open], vars, section)
  }

  /** What follows an opening `{{`. */
  function Opened(after: string, out: string, vars: Vars, section: string): Result<string>
    decreases |after|, 2
  {
    match Find(after, "}}")
    case None => Interpolated(after, out + "{{", vars, section)
    case Some(close) =>
      var name := Trim(after[..close]);
      if name in vars then Interpolated(after[close + 2..], out + vars[name], vars, section)
      else UnknownVariable(name, section)
  }

  method Interpolate(text: string, vars: Vars, section: string) returns (r: Result<string>)
    ensures r == Interpolated(text, "", vars, section)
  {
    var out := "";
    var rest := text;
    var open := Find(rest, "{{");
    while open.Some?
      invariant open == Find(rest, "{{")
      invariant Interpolated(text, "", vars, section) == Interpolated(rest, out, vars, section)
      decreases |rest|
    {
      out := out + rest[..open.value];
      var after := rest[open.value + 2..];
      var close := Find(after, "}}");
      if close.None? {
        out := out + "{{";
        rest := after;
      } else {
        var name := Trim(after[..close.value]);
        if name !in vars { return UnknownVariable(name, section); }
        out := out + vars[name];
        rest := after[close.value + 2..];
      }
      open := Find(rest, "{{");
    }
    return Ok(out + rest);
  }

  // ------------------------------------------------------------------ templates

  /** A template as its author thinks of it: literal text and references. */
  datatype Piece = Lit(text: string) | Ref(name: string)

  function PrintedPiece(p: Piece): string {
    match p case Lit(t) => t case Ref(n) => "{{" + n + "}}"
  }

  function Printed(ps: seq<Piece>): string {
    if ps == [] then "" else PrintedPiece(ps[0]) + Printed(ps[1..])
  }

  /** Direct evaluation: every reference is replaced by its value, once. */
  function Evaluated(ps: seq<Piece>, out: string, vars: Vars, section: string): Result<string> {
    if ps == [] then Ok(out)
    else match ps[0]
      case Lit(t) => Evaluated(ps[1..], out + t, vars, section)
      case Ref(n) =>
        if Trim(n) in vars then Evaluated(ps[1..], out + vars[Trim(n)], vars, section)
        else UnknownVariable(Trim(n), section)
  }

  /** No reference opens inside a literal, and a reference closes at its own end. */
  predicate Printable(ps: seq<Piece>) {
    ps == [] ||
    (Printable(ps[1..]) &&
     match ps[0]
     case Lit(t) => forall k: nat :: k < |t| ==> !MatchAt(t + Printed(ps[1..]), k, "{{")
     case Ref(n) => !Contains(n, "}}") && (n == "" || n[|n| - 1] != '}'))
  }

  /** Text in which no match starts only moves the matches behind it. */
  lemma {:induction false} FindShift(t: string, r: string, p: string)
    requires p != "" && forall k: nat :: k < |t| ==> !MatchAt(t + r, k, p)
    ensures match Find(r, p)
            case None => Find(t + r, p) == None
            case Some(o) => Find(t + r, p) == Some(|t| + o)
  {
    var s := t + r;
    forall k: nat
      ensures MatchAt(s, |t| + k, p) <==> MatchAt(r, k, p)
    {
      assert forall i :: 0 <= i < |r| ==> s[|t| + i] == r[i];
      if MatchAt(s, |t| + k, p) {
        forall i | 0 <= i < |p| ensures r[k + i] == p[i] { assert s[|t| + k + i] == p[i]; }
      }
      if MatchAt(r, k, p) {
        forall i | 0 <= i < |p| ensures s[|t| + k + i] == p[i] { assert r[k + i] == p[i]; }
      }
    }
    var f := Find(r, p);
    if f.Some? {
      forall k: nat | k < |t| + f.value
        ensures !MatchAt(s, k, p)
      {
        if k >= |t| { assert !MatchAt(r, k - |t|, p); }
      }
      assert MatchAt(s, |t| + f.value, p);
      FindIs(s, p, |t| + f.value);
    } else {
      forall k: nat | k <= |s|
        ensures !MatchAt(s, k, p)
      {
        if k >= |t| { assert !MatchAt(r, k - |t|, p); }
      }
      assert !Contains(s, p);
    }
  }

  lemma {:induction false} ShiftedSlices(t: string, r: string, o: nat, out: string)
    requires o + 2 <= |r|
    ensures (t + r)[|t| + o + 2..] == r[o + 2..] && out + (t + r)[..|t| + o] == out + t + r[..o]
  {}

  lemma {:induction false} LiteralPasses(t: string, r: string, out: string, vars: Vars, section: string)
    requires forall k: nat :: k < |t| ==> !MatchAt(t + r, k, "{{")
    ensures Interpolated(t + r, out, vars, section) == Interpolated(r, out + t, vars, section)
  {
    FindShift(t, r, "{{");
    var f := Find(r, "{{");
    if f.Some? {
      var o := f.value;
      ShiftedSlices(t, r, o, out);
    } else {
      assert out + (t + r) == out + t + r;
    }
  }

  lemma {:induction false} TwoBraces(s: string, k: nat)
    ensures MatchAt(s, k, "}}") <==> k + 1 < |s| && s[k] == '}' && s[k + 1] == '}'
  {
    assert "}}"[0] == '}' && "}}"[1] == '}';
  }

  lemma {:induction false} ReferenceCloses(n: string, r: string)
    requires !Contains(n, "}}") && (n == "" || n[|n| - 1] != '}')
    ensures Find(n + ("}}" + r), "}}") == Some(|n|)
  {
    var s := n + ("}}" + r);
    assert MatchAt(s, |n|, "}}");
    forall k: nat | k < |n|
      ensures !MatchAt(s, k, "}}")
    {
      TwoBraces(s, k);
      TwoBraces(n, k);
      assert !MatchAt(n, k, "}}");
      assert s[k] == n[k] && (k + 1 < |n| ==> s[k + 1] == n[k + 1]);
    }
    FindIs(s, "}}", |n|);
  }

  /** What becomes of a reference to `n` in front of `r`. */
  function Replaced(n: string, r: string, out: string, vars: Vars, section: string): Result<string> {
    if n in vars then Interpolated(r, out + vars[n], vars, section) else UnknownVariable(n, section)
  }

  lemma {:induction false} OpenedIs(after: string, c: nat, out: string, vars: Vars, section: string)
    requires Find(after, "}}") == Some(c)
    ensures c + 2 <= |after|
    ensures Opened(after, out, vars, section) == Replaced(Trim(after[..c]), after[c + 2..], out, vars, section)
  {}

  lemma {:induction false} ReferenceParts(n: string, r: string)
    ensures var after := n + ("}}" + r); after[..|n|] == n && |after| >= |n| + 2 && after[|n| + 2..] == r
  {}

  lemma {:induction false} OpenedReplaced(n: string, r: string, out: string, vars: Vars, section: string)
    requires !Contains(n, "}}") && (n == "" || n[|n| - 1] != '}')
    ensures Opened(n + ("}}" + r), out, vars, section) == Replaced(Trim(n), r, out, vars, section)
  {
    ReferenceCloses(n, r);
    ReferenceParts(n, r);
    OpenedIs(n + ("}}" + r), |n|, out, vars, section);
  }

  lemma {:induction false} OpensAtOnce(after: string, out: string, vars: Vars, section: string)
    ensures Interpolated("{{" + after, out, vars, section) == Opened(after, out, vars, section)
  {
    var s := "{{" + after;
    assert MatchAt(s, 0, "{{");
    FindIs(s, "{{", 0);
    assert s[2..] == after && out + s[..0] == out;
  }

  lemma {:induction false} BracesFirst(n: string, r: string)
    ensures "{{" + n + "}}" + r == "{{" + (n + ("}}" + r))
  {}

  lemma {:induction false} ReferenceReplaced(n: string, r: string, out: string, vars: Vars, section: string)
    requires !Contains(n, "}}") && (n == "" || n[|n| - 1] != '}')
    ensures Interpolated("{{" + n + "}}" + r, out, vars, section) == Replaced(Trim(n), r, out, vars, section)
  {
    BracesFirst(n, r);
    OpensAtOnce(n + ("}}" + r), out, vars, section);
    OpenedReplaced(n, r, out, vars, section);
  }

  /** Interpolating a printed template is evaluating it directly, in one pass, and
      values are never expanded again whatever they contain; the first reference
      without a value is the error reported. */
  lemma {:induction false} TemplateRoundTrip(ps: seq<Piece>, out: string, vars: Vars, section: string)
    requires Printable(ps)
    ensures Interpolated(Printed(ps), out, vars, section) == Evaluated(ps, out, vars, section)
    decreases |ps|
  {
    if ps == [] {
      assert out + "" == out;
      assert !Contains("", "{{");
    } else {
      var r := Printed(ps[1..]);
      match ps[0]
      case Lit(t) =>
        LiteralPasses(t, r, out, vars, section);
        TemplateRoundTrip(ps[1..], out + t, vars, section);
      case Ref(n) =>
        ReferenceReplaced(n, r, out, vars, section);
        if Trim(n) in vars { TemplateRoundTrip(ps[1..], out + vars[Trim(n)], vars, section); }
    }
  }

  /** How any text at all is understood. */
  function PiecesOf(text: string): seq<Piece>
    decreases |text|, 1
  {
    match Find(text, "{{")
    case None => [Lit(text)]
    case Some(open) => [Lit(text[..open])] + PiecesOpened(text[open + 2..])
  }

  function PiecesOpened(after: string): seq<Piece>
    decreases |after|, 2
  {
    match Find(after, "}}")
    case None => [Lit("{{")] + PiecesOf(after)
    case Some(close) => [Ref(after[..close])] + PiecesOf(after[close + 2..])
  }

  lemma {:induction false} PiecePrinted(p: Piece, ps: seq<Piece>)
    ensures Printed([p] + ps) == PrintedPiece(p) + Printed(ps)
  {}

  lemma {:induction false} PieceEvaluated(p: Piece, ps: seq<Piece>, out: string, vars: Vars, section: string)
    ensures Evaluated([p] + ps, out, vars, section) ==
            match p
            case Lit(t) => Evaluated(ps, out + t, vars, section)
            case Ref(n) => if Trim(n) in vars then Evaluated(ps, out + vars[Trim(n)], vars, section)
                else UnknownVariable(Trim(n), section)
  {}

  lemma {:induction false} OpenText(text: string, open: nat)
    requires MatchAt(text, open, "{{")
    ensures text == text[..open] + ("{{" + text[open + 2..])
  {}

  lemma {:induction false} PiecesPrint(text: string)
    ensures Printed(PiecesOf(text)) == text
    decreases |text|, 1
  {
    match Find(text, "{{")
    case None =>
      PiecePrinted(Lit(text), []);
      assert [Lit(text)] + [] == [Lit(text)];
    case Some(open) =>
      var after := text[open + 2..];
      PiecePrinted(Lit(text[..open]), PiecesOpened(after));
      OpenedPrint(after);
      OpenText(text, open);
  }

  lemma {:induction false} ClosedText(after: string, close: nat)
    requires MatchAt(after, close, "}}")
    ensures "{{" + after == "{{" + after[..close] + "}}" + after[close + 2..]
  {}

  lemma {:induction false} OpenedPrint(after: string)
    ensures Printed(PiecesOpened(after)) == "{{" + after
    decreases |after|, 2
  {
    match Find(after, "}}")
    case None =>
      PiecePrinted(Lit("{{"), PiecesOf(after));
      PiecesPrint(after);
    case Some(close) =>
      var name, tail := after[..close], after[close + 2..];
      PiecePrinted(Ref(name), PiecesOf(tail));
      PiecesPrint(tail);
      ClosedText(after, close);
  }

  lemma {:induction false} PiecesEvaluate(text: string, out: string, vars: Vars, section: string)
    ensures Interpolated(text, out, vars, section) == Evaluated(PiecesOf(text), out, vars, section)
    decreases |text|, 1
  {
    match Find(text, "{{")
    case None =>
      PieceEvaluated(Lit(text), [], out, vars, section);
      assert [Lit(text)] + [] == [Lit(text)];
    case Some(open) =>
      var after := text[open + 2..];
      PieceEvaluated(Lit(text[..open]), PiecesOpened(after), out, vars, section);
      OpenedEvaluate(after, out + text[..open], vars, section);
  }

  lemma {:induction false} OpenedEvaluate(after: string, out: string, vars: Vars, section: string)
    ensures Opened(after, out, vars, section) == Evaluated(PiecesOpened(after), out, vars, section)
    decreases |after|, 2
  {
    match Find(after, "}}")
    case None =>
      PieceEvaluated(Lit("{{"), PiecesOf(after), out, vars, section);
      PiecesEvaluate(after, out + "{{", vars, section);
    case Some(close) =>
      var name, tail := after[..close], after[close + 2..];
      PieceEvaluated(Ref(name), PiecesOf(tail), out, vars, section);
      if Trim(name) in vars { PiecesEvaluate(tail, out + vars[Trim(name)], vars, section); }
  }

  /** Every text is some template, and interpolation evaluates that template: there
      is no text on which it does anything else. */
  lemma {:induction false} EveryTextIsATemplate(text: string, vars: Vars, section: string)
    ensures Printed(PiecesOf(text)) == text
    ensures Interpolated(text, "", vars, section) == Evaluated(PiecesOf(text), "", vars, section)
  {
    PiecesPrint(text);
    PiecesEvaluate(text, "", vars, section);
  }

  // ------------------------------------------------------------------- assembly

  function SectionKey(s: Section): Key { Key(s.order, s.name) }

  /** The loop over sorted sections: trimmed, blank ones dropped, joined by blank
      lines. */
  function Joined(sections: seq<Section>, vars: Vars, out: string): Result<string> {
    if sections == [] then Ok(out)
    else match Interpolated(sections[0].text, "", vars, sections[0].name)
      case UnknownVariable(n, s) => UnknownVariable(n, s)
      case Ok(full) =>
        var text := TrimEnd(full);
        Joined(sections[1..], vars, Glued(out, text))
  }

  function Glued(out: string, text: string): string {
    if text == "" then out else if out == "" then text else out + "\n\n" + text
  }

  method Join(sections: seq<Section>, vars: Vars) returns (r: Result<string>)
    ensures r == Joined(sections, vars, "")
  {
    var out := "";
    for i := 0 to |sections|
      invariant Joined(sections, vars, "") == Joined(sections[i..], vars, out)
    {
      assert sections[i..][0] == sections[i] && sections[i..][1..] == sections[i + 1..];
      var full := Interpolate(sections[i].text, vars, sections[i].name);
      if full.UnknownVariable? { return UnknownVariable(full.name, full.section); }
      var text := TrimEnd(full.value);
      assert Joined(sections[i..], vars, out) == Joined(sections[i + 1..], vars, Glued(out, text));
      if text == "" { continue; }
      assert "" + text == text;
      if out != "" { out := out + "\n\n"; }
      out := out + text;
    }
    return Ok(out);
  }

  /** The text of one section, its references replaced. */
  function TextOf(s: Section, vars: Vars): Result<string> { Interpolated(s.text, "", vars, s.name) }

  /** What the sections have to show, one block each, up to the first that fails. */
  function Blocks(sections: seq<Section>, vars: Vars): seq<string> {
    if sections == [] || TextOf(sections[0], vars).UnknownVariable? then []
    else
      var block := TrimEnd(TextOf(sections[0], vars).value);
      (if block == "" then [] else [block]) + Blocks(sections[1..], vars)
  }

  /** Blocks with a blank line between any two. */
  function Paragraphs(blocks: seq<string>): string {
    if blocks == [] then "" else if |blocks| == 1 then blocks[0] else blocks[0] + "\n\n" + Paragraphs(blocks[1..])
  }

  function Prefixed(out: string, blocks: seq<string>): seq<string> { (if out == "" then [] else [out]) + blocks }

  lemma {:induction false} GluedFirst(out: string, block: string, blocks: seq<string>)
    ensures Paragraphs(Prefixed(Glued(out, block), blocks)) == Paragraphs(Prefixed(out, Prefixed(block, blocks)))
  {
    if out != "" && block != "" {
      var joined := out + "\n\n" + block;
      var tail := [block] + blocks;
      assert ([out] + tail)[1..] == tail && tail[1..] == blocks && ([joined] + blocks)[1..] == blocks;
      if blocks != [] {
        assert joined + "\n\n" + Paragraphs(blocks) == out + "\n\n" + (block + "\n\n" + Paragraphs(blocks));
      }
    } else if out == "" {
      assert [] + Prefixed(block, blocks) == Prefixed(block, blocks);
    } else {
      assert Prefixed("", blocks) == blocks;
    }
  }

  predicate AllKnown(sections: seq<Section>, vars: Vars) {
    forall i :: 0 <= i < |sections| ==> TextOf(sections[i], vars).Ok?
  }

  lemma {:induction false} KnownTail(sections: seq<Section>, vars: Vars)
    requires sections != [] && AllKnown(sections, vars)
    ensures AllKnown(sections[1..], vars)
  {
    assert forall i :: 0 <= i < |sections| - 1 ==> sections[1..][i] == sections[i + 1];
  }

  /** The prompt is every section's text without its trailing space, blank ones left
      out, with one blank line between any two. */
  lemma {:induction false} JoinedIs(sections: seq<Section>, vars: Vars, out: string)
    requires AllKnown(sections, vars)
    ensures Joined(sections, vars, out) == Ok(Paragraphs(Prefixed(out, Blocks(sections, vars))))
    decreases |sections|
  {
    if sections != [] {
      var block, rest := TrimEnd(TextOf(sections[0], vars).value), sections[1..];
      KnownTail(sections, vars);
      JoinedIs(rest, vars, Glued(out, block));
      GluedFirst(out, block, Blocks(rest, vars));
    }
  }

  /** The first section that fails names the error. */
  lemma {:induction false} JoinedFails(sections: seq<Section>, vars: Vars, out: string, k: nat)
    requires k < |sections| && TextOf(sections[k], vars).UnknownVariable? && AllKnown(sections[..k], vars)
    ensures Joined(sections, vars, out) == TextOf(sections[k], vars)
    decreases k
  {
    if k > 0 {
      var block, rest := TrimEnd(TextOf(sections[0], vars).value), sections[1..];
      KnownTail(sections[..k], vars);
      assert sections[..k][1..] == rest[..k - 1];
      JoinedFails(rest, vars, Glued(out, block), k - 1);
    }
  }

  datatype Rendered = Rendered(system: string, runtimeContext: Option<string>)

  function RenderOf(sections: seq<Section>, contexts: seq<Section>, vars: Vars): Result<Rendered> {
    match Joined(Sort(sections, SectionKey), vars, "")
    case UnknownVariable(n, s) => UnknownVariable(n, s)
    case Ok(system) =>
      match Joined(Sort(contexts, SectionKey), vars, "")
      case UnknownVariable(n, s) => UnknownVariable(n, s)
      case Ok(runtime) => Ok(Rendered(system, if runtime == "" then None else Some(runtime)))
  }

  method Render(sections: seq<Section>, contexts: seq<Section>, vars: Vars) returns (r: Result<Rendered>)
    ensures r == RenderOf(sections, contexts, vars)
  {
    var system := Join(Sort(sections, SectionKey), vars);
    if system.UnknownVariable? { return UnknownVariable(system.name, system.section); }
    var runtime := Join(Sort(contexts, SectionKey), vars);
    if runtime.UnknownVariable? { return UnknownVariable(runtime.name, runtime.section); }
    return Ok(Rendered(system.value, if runtime.value == "" then None else Some(runtime.value)));
  }

  /** The two parts of a prompt, each from its own sections by rising order, the
      runtime context left out where it is blank; the prompt's own sections fail
      first. */
  lemma {:induction false} RenderIs(sections: seq<Section>, contexts: seq<Section>, vars: Vars)
    ensures var byOrder := (s: Section) => Key(s.order, s.name);
            var a, b := Sort(sections, byOrder), Sort(contexts, byOrder);
            && (AllKnown(a, vars) && AllKnown(b, vars) ==>
                  var runtime := Paragraphs(Blocks(b, vars));
                  RenderOf(sections, contexts, vars)
                  == Ok(Rendered(Paragraphs(Blocks(a, vars)), if runtime == "" then None else Some(runtime))))
            && (RenderOf(sections, contexts, vars).Ok? <==> AllKnown(a, vars) && AllKnown(b, vars))
  {
    var byOrder := (s: Section) => Key(s.order, s.name);
    SameKeySorts(sections, byOrder, SectionKey);
    SameKeySorts(contexts, byOrder, SectionKey);
    JoinedOkIff(Sort(sections, SectionKey), vars);
    JoinedOkIff(Sort(contexts, SectionKey), vars);
  }

  lemma {:induction false} SameKeySorts(xs: seq<Section>, f: Section -> Key, g: Section -> Key)
    requires forall s :: f(s) == g(s)
    ensures Sort(xs, f) == Sort(xs, g)
    decreases |xs|
  {
    if xs != [] {
      SameKeySorts(xs[1..], f, g);
      SameKeyInserts(xs[0], Sort(xs[1..], f), f, g);
    }
  }

  lemma {:induction false} SameKeyInserts(x: Section, ys: seq<Section>, f: Section -> Key, g: Section -> Key)
    requires forall s :: f(s) == g(s)
    ensures Insert(x, ys, f) == Insert(x, ys, g)
    decreases |ys|
  {
    if ys != [] { SameKeyInserts(x, ys[1..], f, g); }
  }

  lemma {:induction false} JoinedOkIff(sections: seq<Section>, vars: Vars)
    ensures Joined(sections, vars, "").Ok? <==> AllKnown(sections, vars)
    ensures AllKnown(sections, vars) ==> Joined(sections, vars, "") == Ok(Paragraphs(Blocks(sections, vars)))
  {
    if AllKnown(sections, vars) {
      JoinedIs(sections, vars, "");
      assert Prefixed("", Blocks(sections, vars)) == Blocks(sections, vars);
    } else {
      var k := FirstUnknown(sections, vars);
      JoinedFails(sections, vars, "", k);
    }
  }

  lemma {:induction false} FirstUnknown(sections: seq<Section>, vars: Vars) returns (k: nat)
    requires !AllKnown(sections, vars)
    ensures k < |sections| && TextOf(sections[k], vars).UnknownVariable? && AllKnown(sections[..k], vars)
    decreases |sections|
  {
    if TextOf(sections[0], vars).UnknownVariable? {
      k := 0;
    } else {
      var rest := sections[1..];
      assert forall i :: 0 <= i < |rest| ==> rest[i] == sections[i + 1];
      assert forall i :: 0 < i < |sections| ==> sections[i] == rest[i - 1];
      k := FirstUnknown(rest, vars);
      var front := sections[..k + 1];
      forall i | 0 <= i < |front|
        ensures TextOf(front[i], vars).Ok?
      {
        if i > 0 { assert sections[i] == rest[..k][i - 1]; }
      }
      k := k + 1;
    }
  }

  predicate DistinctSlots(sections: seq<Section>) {
    forall i, j :: 0 <= i < j < |sections| ==> SectionKey(sections[i]) != SectionKey(sections[j])
  }

  lemma DistinctDetermine(sections: seq<Section>)
    requires DistinctSlots(sections)
    ensures KeysDetermine(sections, SectionKey)
  {}

  /** For sections in pairwise distinct slots, the order in which they were added
      changes neither the prompt nor the error. */
  lemma {:induction false} OrderIndependent(a: seq<Section>, b: seq<Section>, c: seq<Section>, d: seq<Section>,
      vars: Vars)
    requires multiset(a) == multiset(b) && DistinctSlots(a)
    requires multiset(c) == multiset(d) && DistinctSlots(c)
    ensures RenderOf(a, c, vars) == RenderOf(b, d, vars)
  {
    DistinctDetermine(a);
    DistinctDetermine(c);
    SortIgnoresOrder(a, b, SectionKey);
    SortIgnoresOrder(c, d, SectionKey);
  }

  /** Distinct slots are needed: two sections that share one come out in the order
      they were added. */
  lemma {:induction false} SharedSlotKeepsOrder(name: string, order: int, vars: Vars)
    ensures var x, y := Section(name, order, "x"), Section(name, order, "y");
            Joined(Sort([x, y], SectionKey), vars, "") != Joined(Sort([y, x], SectionKey), vars, "")
  {
    var x, y := Section(name, order, "x"), Section(name, order, "y");
    SortKeepsTies(x, y, SectionKey);
    SortKeepsTies(y, x, SectionKey);
    TrimFixed("x");
    TrimFixed("y");
    PlainJoin(x, y, vars);
    PlainJoin(y, x, vars);
    assert ("x" + "\n\n" + "y")[0] != ("y" + "\n\n" + "x")[0];
  }

  lemma {:induction false} PlainText(t: string, vars: Vars, section: string)
    requires '{' !in t
    ensures Interpolated(t, "", vars, section) == Ok(t)
  {
    forall k: nat | k <= |t|
      ensures !MatchAt(t, k, "{{")
    {
      assert "{{"[0] == '{';
    }
    assert "" + t == t;
  }

  lemma {:induction false} PlainJoin(x: Section, y: Section, vars: Vars)
    requires '{' !in x.text && '{' !in y.text && TrimEnd(x.text) == x.text != "" && TrimEnd(y.text) == y.text != ""
    ensures Joined([x, y], vars, "") == Ok(x.text + "\n\n" + y.text)
  {
    PlainText(x.text, vars, x.name);
    PlainText(y.text, vars, y.name);
    assert [x, y][1..] == [y] && [y][1..] == [];
    assert Joined([x, y], vars, "") == Joined([y], vars, x.text);
    assert Joined([y], vars, x.text) == Joined([], vars, x.text + "\n\n" + y.text);
  }
}
