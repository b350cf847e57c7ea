/** How the arguments of a one-line call reach a skill
    (crates/agents/src/registry.rs): values are zipped onto the positional names,
    and what is left over binds declared optional names by `key=value`. */
module PositionalArgs {
  import opened Text
  import opened ParameterTags

  // ------------------------------------------------------------ one surplus token

  /** `str::split_whitespace`; `word` is what has been read of the first word. */
  function Words(s: string, word: string): seq<string> {
    if s == "" then if word == "" then [] else [word]
    else if IsSpace(s[0]) then (if word == "" then [] else [word]) + Words(s[1..], "")
    else Words(s[1..], word + [s[0]])
  }

  /** `split_once('=')` */
  function Pair(s: string): Option<Param> {
    match Find(s, "=") case Some(i) => Some((s[..i], s[i + 1..])) case None => None
  }

  function Pairs(words: seq<string>): seq<Param> {
    if words == [] then []
    else (match Pair(words[0]) case Some(p) => [p] case None => []) + Pairs(words[1..])
  }

  predicate AllDeclared(pairs: seq<Param>, optional: seq<string>) {
    forall i :: 0 <= i < |pairs| ==> pairs[i].0 in optional
  }

  function KvPairs(raw: string, optional: seq<string>): seq<Param> {
    var all := Words(raw, "");
    var pairs := Pairs(all);
    if |pairs| > 1 && |pairs| == |all| && AllDeclared(pairs, optional) then pairs
    else match Pair(raw)
      case Some((key, value)) => if Trim(key) in optional then [(Trim(key), Trim(value))] else []
      case None => []
  }

  // ---------------------------------------------------------------- the binding

  function Inserted(pairs: seq<Param>, args: map<string, string>): map<string, string> {
    if pairs == [] then args else Inserted(pairs[1..], args[pairs[0].0 := pairs[0].1])
  }

  function Zipped(names: seq<string>, values: seq<string>): seq<Param> {
    if names == [] || values == [] then [] else [(names[0], values[0])] + Zipped(names[1..], values[1..])
  }

  /** The pairs of all surplus tokens. */
  function Extras(raws: seq<string>, optional: seq<string>): seq<Param> {
    if raws == [] then [] else KvPairs(raws[0], optional) + Extras(raws[1..], optional)
  }

  function Surplus(s: Skill, raws: seq<string>): seq<string> {
    if |raws| <= |s.positional| then [] else raws[|s.positional|..]
  }

  function Positional(s: Skill, raws: seq<string>): map<string, string> {
    Inserted(Extras(Surplus(s, raws), s.optional), Inserted(Zipped(s.positional, raws), map[]))
  }

  /** The loops of `resolve`. */
  method BindPositional(s: Skill, raws: seq<string>) returns (args: map<string, string>)
    ensures args == Positional(s, raws)
  {
    args := map[];
    var names, values := s.positional, raws;
    while names != [] && values != []
      invariant Inserted(Zipped(s.positional, raws), map[]) == Inserted(Zipped(names, values), args)
      decreases |names|
    {
      args := args[names[0] := values[0]];
      names, values := names[1..], values[1..];
    }
    if s.optional != [] {
      var left := Surplus(s, raws);
      while left != []
        invariant Positional(s, raws) == Inserted(Extras(left, s.optional), args)
        decreases |left|
      {
        var pairs := KvPairs(left[0], s.optional);
        InsertedConcat(pairs, Extras(left[1..], s.optional), args);
        args := InsertAll(pairs, args);
        left := left[1..];
      }
    } else {
      NoExtras(Surplus(s, raws));
    }
  }

  method InsertAll(pairs: seq<Param>, args: map<string, string>) returns (r: map<string, string>)
    ensures r == Inserted(pairs, args)
  {
    r := args;
    for i := 0 to |pairs|
      invariant Inserted(pairs, args) == Inserted(pairs[i..], r)
    {
      assert pairs[i..][1..] == pairs[i + 1..];
      r := r[pairs[i].0 := pairs[i].1];
    }
  }

  lemma {:induction false} InsertedConcat(p: seq<Param>, q: seq<Param>, args: map<string, string>)
    ensures Inserted(p + q, args) == Inserted(q, Inserted(p, args))
    decreases |p|
  {
    if p == [] {
      assert p + q == q;
    } else {
      assert (p + q)[0] == p[0] && (p + q)[1..] == p[1..] + q;
      InsertedConcat(p[1..], q, args[p[0].0 := p[0].1]);
    }
  }

  /** Without declared options nothing surplus is bound. */
  lemma {:induction false} NoExtras(raws: seq<string>)
    ensures Extras(raws, []) == []
    decreases |raws|
  {
    if raws != [] {
      NoExtras(raws[1..]);
      var pairs := Pairs(Words(raws[0], ""));
      assert |pairs| > 1 ==> pairs[0].0 !in [];
    }
  }

  // --------------------------------------------------- what a token can bind

  /** No text of a call can become an argument the skill does not declare. */
  lemma {:induction false} OnlyDeclared(raw: string, optional: seq<string>)
    ensures AllDeclared(KvPairs(raw, optional), optional)
  {}

  lemma {:induction false} PairIs(k: string, v: string)
    requires '=' !in k
    ensures Pair(k + ("=" + v)) == Some((k, v))
  {
    var s := k + ("=" + v);
    assert s[|k|] == '=' && s[..|k|] == k && s[|k| + 1..] == v;
    forall i: nat | i < |k|
      ensures !MatchAt(s, i, "=")
    {
      assert s[i] == k[i];
    }
    FindIs(s, "=", |k|);
  }

  lemma {:induction false} NoPair(s: string)
    requires '=' !in s
    ensures Pair(s) == None
  {
    forall i: nat | i <= |s|
      ensures !MatchAt(s, i, "=")
    {
      assert "="[0] == '=';
    }
    assert !Contains(s, "=");
  }

  predicate Unspaced(s: string) { forall i :: 0 <= i < |s| ==> !IsSpace(s[i]) }

  lemma {:induction false} WordsOn(w: string, rest: string, word: string)
    requires Unspaced(w)
    ensures Words(w + rest, word) == Words(rest, word + w)
    decreases |w|
  {
    if w == "" {
      assert w + rest == rest && word + w == word;
    } else {
      assert (w + rest)[0] == w[0] && (w + rest)[1..] == w[1..] + rest;
      WordsOn(w[1..], rest, word + [w[0]]);
      assert word + [w[0]] + w[1..] == word + w;
    }
  }

  lemma {:induction false} OneWord(w: string)
    requires Unspaced(w) && w != ""
    ensures Words(w, "") == [w]
  {
    WordsOn(w, "", "");
    assert w + "" == w && "" + w == w;
  }

  lemma {:induction false} UnspacedIsTrimmed(s: string)
    requires Unspaced(s)
    ensures Trim(s) == s
  {
    TrimFixed(s);
  }

  /** A token `key=value` without white space binds its key if that is declared, and is
      dropped if it is not. */
  lemma {:induction false} OnePairBinds(k: string, v: string, optional: seq<string>)
    requires '=' !in k && Unspaced(k) && Unspaced(v)
    ensures KvPairs(k + ("=" + v), optional) == if k in optional then [(k, v)] else []
  {
    var raw := k + ("=" + v);
    PairIsUnspaced(k, v);
    OneWord(raw);
    assert [raw][1..] == [];
    PairIs(k, v);
    UnspacedIsTrimmed(k);
    UnspacedIsTrimmed(v);
  }

  lemma {:induction false} NoPairBinds(raw: string, optional: seq<string>)
    requires '=' !in raw
    ensures KvPairs(raw, optional) == []
  {
    NoPair(raw);
    PairlessWords(raw, "");
  }

  lemma {:induction false} PairlessWords(s: string, word: string)
    requires '=' !in s && '=' !in word
    ensures Pairs(Words(s, word)) == []
    decreases |s|
  {
    if s == "" {
      NoPair(word);
    } else {
      assert s[0] in s && forall c :: c in s[1..] ==> c in s;
      if IsSpace(s[0]) {
        var more := Words(s[1..], "");
        NoPair(word);
        PairlessWords(s[1..], "");
        PairsCons(word, more);
        assert [] + more == more;
      } else {
        PairlessWords(s[1..], word + [s[0]]);
      }
    }
  }

  lemma {:induction false} PairsCons(w: string, ws: seq<string>)
    ensures Pairs([w] + ws) == (match Pair(w) case Some(p) => [p] case None => []) + Pairs(ws)
  {
    assert ([w] + ws)[1..] == ws;
  }

  // ------------------------------------------------------ several pairs in one token

  /** Pairs as a model packs them into one token. */
  function Packed(pairs: seq<Param>): string {
    if pairs == [] then ""
    else if |pairs| == 1 then pairs[0].0 + ("=" + pairs[0].1)
    else (pairs[0].0 + ("=" + pairs[0].1)) + (" " + Packed(pairs[1..]))
  }

  predicate IsPair(p: Param, optional: seq<string>) {
    p.0 in optional && '=' !in p.0 && Unspaced(p.0) && Unspaced(p.1)
  }

  predicate ArePairs(pairs: seq<Param>, optional: seq<string>) {
    forall i :: 0 <= i < |pairs| ==> IsPair(pairs[i], optional)
  }

  lemma {:induction false} PairIsUnspaced(k: string, v: string)
    requires Unspaced(k) && Unspaced(v)
    ensures Unspaced(k + ("=" + v)) && k + ("=" + v) != ""
  {
    var s := k + ("=" + v);
    assert !IsSpace('=');
    assert forall i :: 0 <= i < |s| ==>
        s[i] == if i < |k| then k[i] else if i == |k| then '=' else v[i - |k| - 1];
  }

  lemma {:induction false} WordThen(w: string, rest: string)
    requires Unspaced(w) && w != ""
    ensures Words(w + (" " + rest), "") == [w] + Words(rest, "")
  {
    WordsOn(w, " " + rest, "");
    assert "" + w == w && (" " + rest)[1..] == rest;
  }

  lemma {:induction false} PackedWords(pairs: seq<Param>, optional: seq<string>)
    requires ArePairs(pairs, optional)
    ensures Pairs(Words(Packed(pairs), "")) == pairs && |Words(Packed(pairs), "")| == |pairs|
    decreases |pairs|
  {
    if pairs != [] {
      var (k, v) := pairs[0];
      var w, rest := k + ("=" + v), pairs[1..];
      assert IsPair(pairs[0], optional);
      assert forall i :: 0 <= i < |rest| ==> rest[i] == pairs[i + 1];
      PairIsUnspaced(k, v);
      PairIs(k, v);
      PackedWords(rest, optional);
      if rest == [] {
        OneWord(w);
        assert [w] == [w] + [];
        PairsCons(w, []);
      } else {
        WordThen(w, Packed(rest));
        PairsCons(w, Words(Packed(rest), ""));
      }
      assert [pairs[0]] + rest == pairs;
    }
  }

  /** A token of several words, each a pair with a declared key, binds every one. */
  lemma {:induction false} PackedBind(pairs: seq<Param>, optional: seq<string>)
    requires ArePairs(pairs, optional) && |pairs| > 1
    ensures KvPairs(Packed(pairs), optional) == pairs
  {
    PackedWords(pairs, optional);
    assert forall i :: 0 <= i < |pairs| ==> IsPair(pairs[i], optional);
  }

  /** `s[i..j]` is a word of `s`. */
  predicate WordAt(s: string, i: nat, j: nat) {
    && i < j <= |s| && Unspaced(s[i..j])
    && (i == 0 || IsSpace(s[i - 1])) && (j == |s| || IsSpace(s[j]))
  }

  lemma {:induction false} WordIsSplit(s: string, i: nat, j: nat)
    requires WordAt(s, i, j)
    ensures s[i..j] in Words(s, "")
    decreases |s|
  {
    if i == 0 {
      var w, rest := s[..j], s[j..];
      assert s == w + rest && s[0..j] == w;
      WordsOn(w, rest, "");
      assert "" + w == w;
    } else {
      SplitBehind(s, i, "");
      var t := s[i..];
      assert t[0..j - i] == s[i..j];
      assert WordAt(t, 0, j - i);
      WordIsSplit(t, 0, j - i);
    }
  }

  /** Words behind white space are split as if it were the start. */
  lemma {:induction false} SplitBehind(s: string, i: nat, word: string)
    requires 0 < i <= |s| && IsSpace(s[i - 1])
    ensures forall w :: w in Words(s[i..], "") ==> w in Words(s, word)
    decreases i
  {
    if i == 1 {
      assert IsSpace(s[0]);
    } else {
      assert s[1..][i - 1..] == s[i..] && s[1..][i - 2] == s[i - 1];
      SplitBehind(s[1..], i - 1, if IsSpace(s[0]) then "" else word + [s[0]]);
    }
  }

  /** Otherwise it is one pair whose value runs to its end: one word that is no pair
      with a declared key is enough. */
  lemma {:induction false} ValueRunsOn(k: string, v: string, optional: seq<string>, i: nat, j: nat)
    requires '=' !in k
    requires var raw := k + ("=" + v); WordAt(raw, i, j) && !PairOf(raw[i..j], optional)
    ensures KvPairs(k + ("=" + v), optional) == if Trim(k) in optional then [(Trim(k), Trim(v))] else []
  {
    var raw := k + ("=" + v);
    PairIs(k, v);
    WordIsSplit(raw, i, j);
    OddWord(Words(raw, ""), raw[i..j], optional);
  }

  predicate PairOf(word: string, optional: seq<string>) { Pair(word).Some? && Pair(word).value.0 in optional }

  lemma {:induction false} OddWord(words: seq<string>, w: string, optional: seq<string>)
    requires w in words && !PairOf(w, optional)
    ensures |Pairs(words)| < |words| || !AllDeclared(Pairs(words), optional)
    decreases |words|
  {
    var rest := words[1..];
    PairsAreFewer(rest);
    PairsCons(words[0], rest);
    assert [words[0]] + rest == words;
    if words[0] != w {
      assert w in rest;
      OddWord(rest, w, optional);
      if !AllDeclared(Pairs(rest), optional) {
        var i :| 0 <= i < |Pairs(rest)| && Pairs(rest)[i].0 !in optional;
        assert Pairs(words)[|Pairs(words)| - |Pairs(rest)| + i] == Pairs(rest)[i];
      }
    } else if Pair(w).Some? {
      assert Pairs(words)[0] == Pair(w).value;
    }
  }

  lemma {:induction false} PairsAreFewer(words: seq<string>)
    ensures |Pairs(words)| <= |words|
    decreases |words|
  {
    if words != [] { PairsAreFewer(words[1..]); }
  }

  // ------------------------------------------------------------ what is bound

  predicate LastUnder(pairs: seq<Param>, k: string, i: nat) {
    i < |pairs| && pairs[i].0 == k && forall j :: i < j < |pairs| ==> pairs[j].0 != k
  }

  predicate Under(pairs: seq<Param>, k: string) { exists i :: 0 <= i < |pairs| && pairs[i].0 == k }

  /** The last value under a key is the one that stays. */
  lemma {:induction false} InsertedIs(pairs: seq<Param>, args: map<string, string>, k: string)
    ensures !Under(pairs, k) ==> (k in Inserted(pairs, args) <==> k in args)
                                 && (k in args ==> Inserted(pairs, args)[k] == args[k])
    ensures forall i: nat :: LastUnder(pairs, k, i) ==>
              k in Inserted(pairs, args) && Inserted(pairs, args)[k] == pairs[i].1
    decreases |pairs|
  {
    if pairs != [] {
      var rest := pairs[1..];
      assert forall i :: 0 <= i < |rest| ==> rest[i] == pairs[i + 1];
      InsertedIs(rest, args[pairs[0].0 := pairs[0].1], k);
      assert pairs[0].0 == k ==> Under(pairs, k);
      assert forall i: nat :: i > 0 && LastUnder(pairs, k, i) ==> LastUnder(rest, k, i - 1);
      if j :| 0 <= j < |rest| && rest[j].0 == k {
        assert pairs[j + 1].0 == k;
        assert !LastUnder(pairs, k, 0);
      }
    }
  }

  /** The last of some tokens that carries a key. */
  predicate LastToken(tokens: seq<string>, optional: seq<string>, k: string, j: nat) {
    && j < |tokens| && Under(KvPairs(tokens[j], optional), k)
    && forall i :: j < i < |tokens| ==> !Under(KvPairs(tokens[i], optional), k)
  }

  predicate NoToken(tokens: seq<string>, optional: seq<string>, k: string) {
    forall i :: 0 <= i < |tokens| ==> !Under(KvPairs(tokens[i], optional), k)
  }

  lemma {:induction false} ExtrasAre(
    tokens: seq<string>, optional: seq<string>, args: map<string, string>, k: string)
    ensures var r := Inserted(Extras(tokens, optional), args);
            && (NoToken(tokens, optional, k) ==> (k in r <==> k in args) && (k in args ==> r[k] == args[k]))
            && forall j: nat, i: nat ::
                 LastToken(tokens, optional, k, j) && LastUnder(KvPairs(tokens[j], optional), k, i) ==>
                   k in r && r[k] == KvPairs(tokens[j], optional)[i].1
    decreases |tokens|
  {
    if tokens != [] {
      var first, rest := KvPairs(tokens[0], optional), tokens[1..];
      var args' := Inserted(first, args);
      InsertedConcat(first, Extras(rest, optional), args);
      InsertedIs(first, args, k);
      ExtrasAre(rest, optional, args', k);
      ExtrasShift(tokens, optional, k);
    }
  }

  lemma {:induction false} ExtrasShift(tokens: seq<string>, optional: seq<string>, k: string)
    requires tokens != []
    ensures NoToken(tokens, optional, k) ==>
              NoToken(tokens[1..], optional, k) && !Under(KvPairs(tokens[0], optional), k)
    ensures LastToken(tokens, optional, k, 0) ==> NoToken(tokens[1..], optional, k)
    ensures forall j: nat :: j > 0 && LastToken(tokens, optional, k, j) ==> LastToken(tokens[1..], optional, k, j - 1)
  {
    assert forall i :: 0 <= i < |tokens| - 1 ==> tokens[1..][i] == tokens[i + 1];
  }

  lemma {:induction false} ZippedAre(names: seq<string>, values: seq<string>)
    ensures |Zipped(names, values)| == Least(|names|, |values|)
    ensures forall i :: 0 <= i < Least(|names|, |values|) ==> Zipped(names, values)[i] == (names[i], values[i])
    decreases |names|
  {
    if names != [] && values != [] { ZippedAre(names[1..], values[1..]); }
  }

  function Least(a: nat, b: nat): nat { if a < b then a else b }

  /** No later value is zipped onto the same name. */
  predicate LastNamed(names: seq<string>, n: nat, i: nat) {
    i < n <= |names| && forall j :: i < j < n ==> names[j] != names[i]
  }

  /** What is bound, by the position each value was written in: the `i`th value to the
      `i`th positional; a declared option to what the last surplus value that carries it
      says, even over a positional of that name; and nothing else, so that missing
      values leave their names out and any other surplus is dropped. */
  lemma {:induction false} ArgumentsAre(s: Skill, raws: seq<string>, k: string)
    ensures var r := Positional(s, raws);
            var n := if |raws| < |s.positional| then |raws| else |s.positional|;
            var surplus := raws[n..];
            && (NoToken(surplus, s.optional, k) ==>
                  && (k in r <==> k in s.positional[..n])
                  && forall i: nat :: LastNamed(s.positional, n, i) && s.positional[i] == k ==> r[k] == raws[i])
            && (forall j: nat, i: nat ::
                  LastToken(surplus, s.optional, k, j) && LastUnder(KvPairs(surplus[j], s.optional), k, i) ==>
                    k in s.optional && k in r && r[k] == KvPairs(surplus[j], s.optional)[i].1)
  {
    var n := if |raws| < |s.positional| then |raws| else |s.positional|;
    assert Surplus(s, raws) == raws[n..];
    ZippedBinds(s.positional, raws, k, n);
    ExtrasAre(raws[n..], s.optional, Inserted(Zipped(s.positional, raws), map[]), k);
    CarriedIsDeclared(raws[n..], s.optional, k);
  }

  lemma {:induction false} ZippedBinds(names: seq<string>, values: seq<string>, k: string, n: nat)
    requires n == Least(|values|, |names|)
    ensures var r := Inserted(Zipped(names, values), map[]);
            && (k in r <==> k in names[..n])
            && forall i: nat :: LastNamed(names, n, i) && names[i] == k ==> r[k] == values[i]
  {
    var zipped := Zipped(names, values);
    ZippedAre(names, values);
    InsertedIs(zipped, map[], k);
    NamesAreKeys(names, values, k);
    forall i: nat | LastNamed(names, n, i) && names[i] == k
      ensures LastUnder(zipped, k, i)
    {
      assert zipped[i] == (names[i], values[i]);
    }
  }

  lemma {:induction false} CarriedIsDeclared(tokens: seq<string>, optional: seq<string>, k: string)
    ensures forall j: nat :: LastToken(tokens, optional, k, j) ==> k in optional
  {
    forall j: nat | LastToken(tokens, optional, k, j)
      ensures k in optional
    {
      OnlyDeclared(tokens[j], optional);
    }
  }

  lemma {:induction false} NamesAreKeys(names: seq<string>, values: seq<string>, k: string)
    ensures Under(Zipped(names, values), k) <==> k in names[..Least(|names|, |values|)]
    ensures k in names[..Least(|names|, |values|)] ==> exists i: nat :: LastUnder(Zipped(names, values), k, i)
  {
    ZippedAre(names, values);
    var z := Zipped(names, values);
    var front := names[..Least(|names|, |values|)];
    if k in front {
      var i :| 0 <= i < |front| && front[i] == k;
      assert z[i].0 == k;
      LastExists(z, k, i);
    }
    if i :| 0 <= i < |z| && z[i].0 == k { assert front[i] == k; }
  }

  lemma {:induction false} LastExists(pairs: seq<Param>, k: string, i: nat)
    requires i < |pairs| && pairs[i].0 == k
    ensures exists j: nat :: LastUnder(pairs, k, j)
    decreases |pairs| - i
  {
    if !LastUnder(pairs, k, i) {
      var j :| i < j < |pairs| && pairs[j].0 == k;
      LastExists(pairs, k, j);
    }
  }
}
