/** The call that a capped page of a file suggests (crates/agents/src/builtins.rs), as
    the reader of one-argument calls (crates/agents/src/parse_tool_call.rs) takes it and
    the registry (crates/agents/src/registry.rs) binds it. */
module SuggestedCall {
  import opened Text
  import opened FilePaging
  import opened OneArgument
  import PositionalArgs
  import ParameterTags

  lemma {:induction false} PathIsGuarded(path: string)
    ensures QuotePath(path) == Guarded('\'', path)
    decreases |path|
  {
    if path != "" { PathIsGuarded(path[1..]); }
  }

  lemma {:induction false} NoQuoteInDecimal(n: nat)
    ensures '\'' !in Decimal(n)
  {
    assert !IsDigit('\'');
  }

  /** A word of small letters. */
  predicate IsWord(s: string) { s != "" && forall i :: 0 <= i < |s| ==> 'a' <= s[i] <= 'z' }

  lemma {:induction false} WordIsKept(key: string)
    requires IsWord(key)
    ensures Trim(key) == key && '=' !in key && '\'' !in key
  {
    assert !IsSpace(key[0]) && !IsSpace(key[|key| - 1]);
    TrimFixed(key);
  }

  lemma {:induction false} WordOption(key: string, d: string)
    requires IsWord(key) && '\'' !in d
    ensures IsOption('\'', key + ("=" + d))
  {
    WordIsKept(key);
    KeyValueIff(key, d);
    assert '\'' !in "=";
  }

  /** How an option is spelled. */
  lemma {:induction false} OptionSpelled(kv: string, more: seq<string>)
    ensures Options('\'', [kv] + more) == "' '" + (kv + Options('\'', more))
  {
    var kvs := [kv] + more;
    assert kvs[0] == kv && kvs[1..] == more;
  }

  lemma {:induction false} OneSpelled(g: string, a: string)
    ensures WithOptions('\'', g, [a]) == "'" + (g + ("' '" + (a + "'")))
  {
    OptionSpelled(a, []);
    assert [a] + [] == [a] && Options('\'', []) == "'";
    assert WithOptions('\'', g, [a]) == "'" + (g + Options('\'', [a]));
  }

  lemma {:induction false} TwoSpelled(g: string, a: string, b: string)
    ensures WithOptions('\'', g, [a, b]) == "'" + (g + ("' '" + (a + ("' '" + (b + "'")))))
  {
    OptionSpelled(a, [b]);
    OptionSpelled(b, []);
    assert [b] + [] == [b] && [a] + [b] == [a, b] && Options('\'', []) == "'";
    assert WithOptions('\'', g, [a, b]) == "'" + (g + Options('\'', [a, b]));
  }

  lemma {:induction false} SuggestionSpelled(g: string, d: string)
    ensures "read-file '" + g + "' 'start=" + d + "'"
            == "read-file " + ("'" + (g + ("' '" + (("start" + ("=" + d)) + "'"))))
  {}

  lemma {:induction false} RangeSpelled(g: string, a: string, d: string)
    ensures "read-file " + ("'" + (g + ("' '" + (a + "'")))) + (" 'end=" + d + "'")
            == "read-file " + ("'" + (g + ("' '" + (a + ("' '" + (("end" + ("=" + d)) + "'"))))))
  {}

  /** A call of `read-file` that is read as those tokens. */
  ghost predicate ReadsAs(call: string, tokens: seq<string>) {
    exists args :: call == "read-file " + args && OneArg(args) == Some(tokens)
  }

  lemma {:induction false} ReadsFrom(call: string, args: string, tokens: seq<string>)
    requires call == "read-file " + args && OneArg(args) == Some(tokens)
    ensures ReadsAs(call, tokens)
  {}

  lemma {:induction false} StartIsRead(path: string, d: string)
    requires '\'' !in d
    ensures ReadsAs("read-file '" + QuotePath(path) + "' 'start=" + d + "'", [path, "start" + ("=" + d)])
  {
    var g, a := QuotePath(path), "start" + ("=" + d);
    assert IsWord("start");
    WordOption("start", d);
    OptionsAreRead(path, a, a);
    OneSpelled(g, a);
    SuggestionSpelled(g, d);
    ReadsFrom("read-file '" + g + "' 'start=" + d + "'", WithOptions('\'', g, [a]), [path, a]);
  }

  lemma {:induction false} RangeIsRead(path: string, d: string, e: string)
    requires '\'' !in d && '\'' !in e
    ensures ReadsAs("read-file '" + QuotePath(path) + "' 'start=" + d + "'" + (" 'end=" + e + "'"),
                    [path, "start" + ("=" + d), "end" + ("=" + e)])
  {
    var g, a, b := QuotePath(path), "start" + ("=" + d), "end" + ("=" + e);
    assert IsWord("start") && IsWord("end");
    WordOption("start", d);
    WordOption("end", e);
    OptionsAreRead(path, a, b);
    TwoSpelled(g, a, b);
    SuggestionSpelled(g, d);
    RangeSpelled(g, a, e);
    ReadsFrom("read-file '" + g + "' 'start=" + d + "'" + (" 'end=" + e + "'"),
              WithOptions('\'', g, [a, b]), [path, a, b]);
  }

  // -------------------------------------------------------------- and bound

  /** `read-file`, as far as binding goes. */
  const READ_FILE := ParameterTags.Skill(["path"], ["start", "end"], true)

  /** A call of `read-file` that reaches the skill with those arguments. */
  ghost predicate AsksFor(call: string, args: map<string, string>) {
    exists raws :: ReadsAs(call, raws) && PositionalArgs.Positional(READ_FILE, raws) == args
  }

  lemma {:induction false} NumberBinds(k: string, n: nat)
    requires k in {"start", "end"}
    ensures PositionalArgs.KvPairs(k + ("=" + Decimal(n)), ["start", "end"]) == [(k, Decimal(n))]
  {
    WordIsUnspaced(k);
    DecimalIsUnspaced(n);
    PositionalArgs.OnePairBinds(k, Decimal(n), ["start", "end"]);
  }

  lemma {:induction false} WordIsUnspaced(k: string)
    requires IsWord(k)
    ensures PositionalArgs.Unspaced(k) && '=' !in k
  {}

  lemma {:induction false} DecimalIsUnspaced(n: nat)
    ensures PositionalArgs.Unspaced(Decimal(n))
  {
    assert forall i :: 0 <= i < |Decimal(n)| ==> IsDigit(Decimal(n)[i]);
  }

  lemma {:induction false} ExtrasOf(a: string, p: ParameterTags.Param, more: seq<string>, optional: seq<string>)
    requires PositionalArgs.KvPairs(a, optional) == [p]
    ensures PositionalArgs.Extras([a] + more, optional) == [p] + PositionalArgs.Extras(more, optional)
  {
    assert ([a] + more)[1..] == more;
  }

  lemma {:induction false} BoundOf(path: string, extras: seq<string>, pairs: seq<ParameterTags.Param>)
    requires PositionalArgs.Extras(extras, ["start", "end"]) == pairs
    ensures PositionalArgs.Positional(READ_FILE, [path] + extras)
            == PositionalArgs.Inserted(pairs, map["path" := path])
  {
    var raws := [path] + extras;
    assert raws[1..] == extras && PositionalArgs.Surplus(READ_FILE, raws) == extras;
    assert PositionalArgs.Zipped(["path"], raws) == [("path", path)];
    assert PositionalArgs.Inserted([("path", path)], map[]) == map["path" := path];
  }

  lemma {:induction false} StartBinds(path: string, n: nat)
    ensures PositionalArgs.Positional(READ_FILE, [path, "start" + ("=" + Decimal(n))])
            == map["path" := path, "start" := Decimal(n)]
  {
    var a := "start" + ("=" + Decimal(n));
    NumberBinds("start", n);
    ExtrasOf(a, ("start", Decimal(n)), [], ["start", "end"]);
    assert [a] + [] == [a];
    BoundOf(path, [a], [("start", Decimal(n))]);
    assert [path] + [a] == [path, a];
  }

  lemma {:induction false} TwoBind(
    path: string, a: string, b: string, p: ParameterTags.Param, q: ParameterTags.Param)
    requires PositionalArgs.KvPairs(a, ["start", "end"]) == [p]
    requires PositionalArgs.KvPairs(b, ["start", "end"]) == [q]
    ensures PositionalArgs.Positional(READ_FILE, [path, a, b]) == PositionalArgs.Inserted([p, q], map["path" := path])
  {
    ExtrasOf(b, q, [], ["start", "end"]);
    ExtrasOf(a, p, [b], ["start", "end"]);
    assert [b] + [] == [b] && [a] + [b] == [a, b] && [p] + [q] == [p, q];
    BoundOf(path, [a, b], [p, q]);
    assert [path] + [a, b] == [path, a, b];
  }

  lemma {:induction false} RangeBinds(path: string, n: nat, m: nat)
    ensures PositionalArgs.Positional(READ_FILE,
              [path, "start" + ("=" + Decimal(n)), "end" + ("=" + Decimal(m))])
            == map["path" := path, "start" := Decimal(n), "end" := Decimal(m)]
  {
    NumberBinds("start", n);
    NumberBinds("end", m);
    TwoBind(path, "start" + ("=" + Decimal(n)), "end" + ("=" + Decimal(m)),
            ("start", Decimal(n)), ("end", Decimal(m)));
    TwoInserted(("start", Decimal(n)), ("end", Decimal(m)), map["path" := path]);
  }

  lemma {:induction false} TwoInserted(p: ParameterTags.Param, q: ParameterTags.Param, args: map<string, string>)
    ensures PositionalArgs.Inserted([p, q], args) == args[p.0 := p.1][q.0 := q.1]
  {
    var m := args[p.0 := p.1];
    assert [p, q][0] == p && [p, q][1..] == [q] && [q][0] == q && [q][1..] == [];
    assert PositionalArgs.Inserted([p, q], args) == PositionalArgs.Inserted([q], m);
    assert PositionalArgs.Inserted([q], m) == PositionalArgs.Inserted([], m[q.0 := q.1]);
  }

  /** The call a page suggests, made as it is written, reaches `read-file` with the very
      path that was read, whatever it holds, and the range suggested. */
  lemma {:induction false} SuggestionIsRead(path: string, n: nat, m: nat)
    ensures AsksFor(Suggestion(path, n), map["path" := path, "start" := Decimal(n)])
    ensures AsksFor(RangeSuggestion(path, n, m), map["path" := path, "start" := Decimal(n), "end" := Decimal(m)])
  {
    NoQuoteInDecimal(n);
    NoQuoteInDecimal(m);
    StartIsRead(path, Decimal(n));
    RangeIsRead(path, Decimal(n), Decimal(m));
    StartBinds(path, n);
    RangeBinds(path, n, m);
  }

  lemma {:induction false} OptionsAreRead(path: string, a: string, b: string)
    requires IsOption('\'', a) && IsOption('\'', b)
    ensures OneArg(WithOptions('\'', QuotePath(path), [a])) == Some([path, a])
    ensures OneArg(WithOptions('\'', QuotePath(path), [a, b])) == Some([path, a, b])
  {
    PathIsGuarded(path);
    OptionsStaySeparate('\'', path, [a]);
    OptionsStaySeparate('\'', path, [a, b]);
    assert [path] + [a] == [path, a] && [path] + [a, b] == [path, a, b];
  }
}
