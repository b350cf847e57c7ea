/** The repeat-tool reminder (crates/agents/src/guard.rs): a run of identical calls
    is counted, arguments being compared up to the order of object keys. */
module RepeatGuard {
  import opened Text
  import opened Ordering

  /** JSON; an object is a list of members, as written. */
  datatype Json =
    | Null
    | Bool(b: bool)
    | Number(text: string)
    | Str(s: string)
    | Array(items: Items)
    | Object(members: Members)

  datatype Items = NoItems | Item(first: Json, rest: Items)

  datatype Members = NoMembers | Member(key: string, value: Json, rest: Members)

  /** Object keys are distinct at every level, as a JSON map has them. */
  predicate WellFormed(v: Json) {
    match v
    case Array(items) => WellFormedItems(items)
    case Object(members) => WellFormedMembers(members)
    case _ => true
  }

  predicate WellFormedItems(items: Items) {
    match items
    case NoItems => true
    case Item(v, rest) => WellFormed(v) && WellFormedItems(rest)
  }

  predicate WellFormedMembers(ms: Members) {
    match ms
    case NoMembers => true
    case Member(k, v, rest) => k !in Keys(rest) && WellFormed(v) && WellFormedMembers(rest)
  }

  function Keys(ms: Members): set<string> {
    match ms case NoMembers => {} case Member(k, _, rest) => {k} + Keys(rest)
  }

  function ValueOf(ms: Members, k: string): (v: Json)
    requires k in Keys(ms)
    ensures v < ms
  {
    if ms.key == k then ms.value else ValueOf(ms.rest, k)
  }

  // ------------------------------------------------------------- canonical form

  function InsertMember(k: string, v: Json, ms: Members): Members {
    match ms
    case NoMembers => Member(k, v, NoMembers)
    case Member(k', v', rest) => if Less(k', k) then Member(k', v', InsertMember(k, v, rest)) else Member(k, v, ms)
  }

  /** `sort`: keys in order at every level. */
  function Sorted(v: Json): Json {
    match v
    case Array(items) => Array(SortedItems(items))
    case Object(members) => Object(SortedMembers(members))
    case _ => v
  }

  function SortedItems(items: Items): Items {
    match items
    case NoItems => NoItems
    case Item(v, rest) => Item(Sorted(v), SortedItems(rest))
  }

  function SortedMembers(ms: Members): Members {
    match ms
    case NoMembers => NoMembers
    case Member(k, v, rest) => InsertMember(k, Sorted(v), SortedMembers(rest))
  }

  /** The two values differ at most in the order of object keys. */
  ghost predicate Same(a: Json, b: Json)
    decreases a
  {
    match a
    case Array(items) => b.Array? && SameItems(items, b.items)
    case Object(members) => b.Object? && Keys(members) == Keys(b.members) && SameMembers(members, b.members)
    case _ => a == b
  }

  ghost predicate SameItems(a: Items, b: Items)
    decreases a
  {
    match a
    case NoItems => b.NoItems?
    case Item(v, rest) => b.Item? && Same(v, b.first) && SameItems(rest, b.rest)
  }

  /** Every member of `a` has its counterpart in `b`. */
  ghost predicate SameMembers(a: Members, b: Members)
    decreases a
  {
    match a
    case NoMembers => true
    case Member(k, v, rest) => k in Keys(b) && Same(v, ValueOf(b, k)) && SameMembers(rest, b)
  }

  // ------------------------------------------------ sorted members are a function

  ghost predicate Ascending(ms: Members) {
    match ms
    case NoMembers => true
    case Member(k, _, rest) => (forall k' :: k' in Keys(rest) ==> Less(k, k')) && Ascending(rest)
  }

  lemma {:induction false} InsertKeys(k: string, v: Json, ms: Members)
    ensures Keys(InsertMember(k, v, ms)) == {k} + Keys(ms)
    decreases ms
  {
    if ms.Member? { InsertKeys(k, v, ms.rest); }
  }

  lemma {:induction false} InsertAscends(k: string, v: Json, ms: Members)
    requires Ascending(ms) && k !in Keys(ms)
    ensures Ascending(InsertMember(k, v, ms))
    decreases ms
  {
    if ms.Member? {
      InsertKeys(k, v, ms.rest);
      if Less(ms.key, k) {
        InsertAscends(k, v, ms.rest);
      } else {
        LessTotal(ms.key, k);
        forall k' | k' in Keys(ms)
          ensures Less(k, k')
        {
          if k' != ms.key { LessTransitive(k, ms.key, k'); }
        }
      }
    }
  }

  lemma {:induction false} InsertValue(k: string, v: Json, ms: Members, j: string)
    requires k !in Keys(ms) && j in {k} + Keys(ms)
    ensures j in Keys(InsertMember(k, v, ms))
    ensures ValueOf(InsertMember(k, v, ms), j) == if j == k then v else ValueOf(ms, j)
    decreases ms
  {
    InsertKeys(k, v, ms);
    if ms.Member? {
      InsertKeys(k, v, ms.rest);
      if Less(ms.key, k) && j != ms.key { InsertValue(k, v, ms.rest, j); }
    }
  }

  /** The canonical members: the same keys, ascending, each with its value in
      canonical form. */
  lemma {:induction false} SortedMembersAre(ms: Members)
    requires WellFormedMembers(ms)
    ensures Ascending(SortedMembers(ms)) && Keys(SortedMembers(ms)) == Keys(ms)
    decreases ms
  {
    if ms.Member? {
      SortedMembersAre(ms.rest);
      InsertAscends(ms.key, Sorted(ms.value), SortedMembers(ms.rest));
      InsertKeys(ms.key, Sorted(ms.value), SortedMembers(ms.rest));
    }
  }

  lemma {:induction false} SortedValue(ms: Members, j: string)
    requires WellFormedMembers(ms) && j in Keys(ms)
    ensures j in Keys(SortedMembers(ms)) && ValueOf(SortedMembers(ms), j) == Sorted(ValueOf(ms, j))
    decreases ms
  {
    SortedMembersAre(ms.rest);
    InsertValue(ms.key, Sorted(ms.value), SortedMembers(ms.rest), j);
    if j != ms.key { SortedValue(ms.rest, j); }
  }

  /** Ascending members are determined by their keys and values. */
  lemma {:induction false} AscendingUnique(a: Members, b: Members)
    requires Ascending(a) && Ascending(b) && Keys(a) == Keys(b)
    requires forall k :: k in Keys(a) ==> ValueOf(a, k) == ValueOf(b, k)
    ensures a == b
    decreases a
  {
    if a.Member? {
      assert a.key in Keys(b);
      assert b.Member?;
      assert b.key in Keys(a);
      if a.key != b.key {
        LessTransitive(a.key, b.key, a.key);
        LessIrreflexive(a.key);
      }
      LessIrreflexive(a.key);
      assert Keys(a.rest) == Keys(a) - {a.key} == Keys(b.rest);
      forall k | k in Keys(a.rest)
        ensures ValueOf(a.rest, k) == ValueOf(b.rest, k)
      {
        assert k != a.key;
        assert ValueOf(a, k) == ValueOf(b, k);
      }
      AscendingUnique(a.rest, b.rest);
    }
  }

  // -------------------------------------------------- canonical form and sameness

  lemma {:induction false} WellFormedValue(ms: Members, k: string)
    requires WellFormedMembers(ms) && k in Keys(ms)
    ensures WellFormed(ValueOf(ms, k))
    decreases ms
  {
    if k != ms.key { WellFormedValue(ms.rest, k); }
  }

  lemma {:induction false} MembersCorrespond(a: Members, b: Members)
    requires WellFormedMembers(a) && WellFormedMembers(b) && Keys(a) <= Keys(b)
    ensures SameMembers(a, b) <==> forall k :: k in Keys(a) ==> Sorted(ValueOf(a, k)) == Sorted(ValueOf(b, k))
    decreases a, 0
  {
    if a.Member? {
      MembersCorrespond(a.rest, b);
      WellFormedValue(b, a.key);
      SortedIffSame(a.value, ValueOf(b, a.key));
      assert forall k :: k in Keys(a.rest) ==> k != a.key && ValueOf(a, k) == ValueOf(a.rest, k);
    }
  }

  lemma {:induction false} ItemsCorrespond(a: Items, b: Items)
    requires WellFormedItems(a) && WellFormedItems(b)
    ensures SortedItems(a) == SortedItems(b) <==> SameItems(a, b)
    decreases a
  {
    if a.Item? && b.Item? {
      SortedIffSame(a.first, b.first);
      ItemsCorrespond(a.rest, b.rest);
    }
  }

  lemma {:induction false} ObjectsCorrespond(a: Members, b: Members)
    requires WellFormedMembers(a) && WellFormedMembers(b)
    ensures SortedMembers(a) == SortedMembers(b) <==> Keys(a) == Keys(b) && SameMembers(a, b)
    decreases a, 1
  {
    SortedMembersAre(a);
    SortedMembersAre(b);
    if Keys(a) == Keys(b) {
      MembersCorrespond(a, b);
      forall k | k in Keys(a)
        ensures k in Keys(SortedMembers(a)) && k in Keys(SortedMembers(b))
        ensures ValueOf(SortedMembers(a), k) == Sorted(ValueOf(a, k))
                && ValueOf(SortedMembers(b), k) == Sorted(ValueOf(b, k))
      {
        SortedValue(a, k);
        SortedValue(b, k);
      }
      if SameMembers(a, b) { AscendingUnique(SortedMembers(a), SortedMembers(b)); }
    }
  }

  /** Two JSON values have one canonical form exactly when they differ only in the
      order of object keys, at any depth. */
  lemma {:induction false} SortedIffSame(a: Json, b: Json)
    requires WellFormed(a) && WellFormed(b)
    ensures Sorted(a) == Sorted(b) <==> Same(a, b)
    decreases a
  {
    if a.Array? && b.Array? {
      ItemsCorrespond(a.items, b.items);
    } else if a.Object? && b.Object? {
      ObjectsCorrespond(a.members, b.members);
    }
  }

  // ------------------------------------------------------------------ the tracker

  const THRESHOLDS: set<nat> := {3, 5, 8}

  /** A key: the skill, a NUL, and the canonical text of the arguments.  `text`
      serialises a JSON value. */
  function KeyOf(skill: string, args: Json, text: Json -> string): string {
    skill + "\U{0000}" + text(Sorted(args))
  }

  datatype Tracker = Tracker(key: string, count: nat)

  const FRESH := Tracker("", 0)

  function Observed(t: Tracker, key: string): Tracker {
    if key == t.key then t.(count := t.count + 1) else Tracker(key, 1)
  }

  class RepeatTracker {
    var key: string
    var count: nat

    constructor ()
      ensures Tracker(key, count) == FRESH
    {
      key, count := "", 0;
    }

    /** The result says whether a notice is issued, with the count it quotes. */
    method Observe(skill: string, args: Json, text: Json -> string) returns (notice: Option<nat>)
      modifies this
      ensures Tracker(key, count) == Observed(old(Tracker(key, count)), KeyOf(skill, args, text))
      ensures notice == if count in THRESHOLDS then Some(count) else None
    {
      var k := skill + "\U{0000}" + text(Sorted(args));
      if k == key {
        count := count + 1;
      } else {
        key := k;
        count := 1;
      }
      if count !in THRESHOLDS { return None; }
      return Some(count);
    }

    method Reset()
      modifies this
      ensures Tracker(key, count) == FRESH
    {
      key := "";
      count := 0;
    }
  }

  // ---------------------------------------------------------------- the history

  datatype Event = Call(skill: string, args: Json) | Reset

  function At(events: seq<Event>, text: Json -> string): Tracker {
    if events == [] then FRESH
    else match events[|events| - 1]
      case Reset => FRESH
      case Call(skill, args) => Observed(At(events[..|events| - 1], text), KeyOf(skill, args, text))
  }

  /** The same skill with the same arguments, up to key order. */
  ghost predicate SameCall(a: Event, b: Event) {
    a.Call? && b.Call? && a.skill == b.skill && Same(a.args, b.args)
  }

  /** `n` is the length of the run of identical calls that ends the history: the
      last `n` events are calls like the last one, and the one before them is not. */
  ghost predicate IsRunLength(events: seq<Event>, n: nat) {
    && n <= |events|
    && (forall i :: |events| - n <= i < |events| ==> SameCall(events[i], events[|events| - 1]))
    && (n < |events| ==> !SameCall(events[|events| - n - 1], events[|events| - 1]))
  }

  /** Skill names carry no NUL, object keys are distinct. */
  predicate Proper(e: Event) {
    e.Call? ==> '\U{0000}' !in e.skill && WellFormed(e.args)
  }

  ghost predicate Injective(text: Json -> string) {
    forall a, b :: text(a) == text(b) ==> a == b
  }

  lemma {:induction false} KeySplits(skill: string, t: string, skill': string, t': string)
    requires '\U{0000}' !in skill && '\U{0000}' !in skill'
    requires skill + "\U{0000}" + t == skill' + "\U{0000}" + t'
    ensures skill == skill' && t == t'
    decreases |skill|
  {
    var s, s' := skill + "\U{0000}" + t, skill' + "\U{0000}" + t';
    if skill == "" {
      assert s[0] == '\U{0000}';
      assert s[1..] == t && s'[1..] == t';
    } else {
      assert s[0] == skill[0];
      assert s'[0] == skill'[0];
      assert s[1..] == skill[1..] + "\U{0000}" + t && s'[1..] == skill'[1..] + "\U{0000}" + t';
      KeySplits(skill[1..], t, skill'[1..], t');
    }
  }

  /** With a faithful serialiser, keys agree exactly on identical calls. */
  lemma {:induction false} KeysAgreeIff(a: Event, b: Event, text: Json -> string)
    requires a.Call? && b.Call? && Proper(a) && Proper(b) && Injective(text)
    ensures KeyOf(a.skill, a.args, text) == KeyOf(b.skill, b.args, text) <==> SameCall(a, b)
  {
    SortedIffSame(a.args, b.args);
    if KeyOf(a.skill, a.args, text) == KeyOf(b.skill, b.args, text) {
      KeySplits(a.skill, text(Sorted(a.args)), b.skill, text(Sorted(b.args)));
    }
  }

  /** The tracker's key is that of the last call since the last reset. */
  lemma {:induction false} KeyIsLast(events: seq<Event>, text: Json -> string)
    ensures var t := At(events, text);
            if events == [] || events[|events| - 1].Reset? then t == FRESH
            else t.key == KeyOf(events[|events| - 1].skill, events[|events| - 1].args, text) && t.count >= 1
  {}

  /** Over any history the pair (key, count) stands for the whole of it: the count
      is the length of the run of identical calls at its end. */
  lemma {:induction false} CountIsRunLength(events: seq<Event>, text: Json -> string)
    requires Injective(text) && forall i :: 0 <= i < |events| ==> Proper(events[i])
    ensures IsRunLength(events, At(events, text).count)
    decreases |events|
  {
    if events != [] && events[|events| - 1].Call? {
      var n := |events| - 1;
      var front := events[..n];
      CountIsRunLength(front, text);
      KeyIsLast(front, text);
      CountStep(events, text);
    }
  }

  lemma {:induction false} RunRestarts(events: seq<Event>)
    requires events != []
    requires var n := |events| - 1; SameCall(events[n], events[n]) && (n > 0 ==> !SameCall(events[n - 1], events[n]))
    ensures IsRunLength(events, 1)
  {}

  lemma {:induction false} RunGoesOn(events: seq<Event>, c: nat)
    requires |events| > 1
    requires var n := |events| - 1;
             && IsRunLength(events[..n], c) && SameCall(events[n], events[n])
             && forall i :: 0 <= i < n ==> (SameCall(events[i], events[n - 1]) <==> SameCall(events[i], events[n]))
    ensures IsRunLength(events, c + 1)
  {
    var n := |events| - 1;
    assert forall i :: 0 <= i < n ==> events[..n][i] == events[i];
  }

  /** A call like one of two like calls is like the other. */
  lemma {:induction false} SameEither(e: Event, a: Event, b: Event, text: Json -> string)
    requires Injective(text) && Proper(e) && Proper(a) && Proper(b) && SameCall(a, b)
    ensures SameCall(e, a) <==> SameCall(e, b)
  {
    KeysAgreeIff(a, b, text);
    if e.Call? {
      KeysAgreeIff(e, a, text);
      KeysAgreeIff(e, b, text);
    }
  }

  lemma {:induction false} CountStep(events: seq<Event>, text: Json -> string)
    requires Injective(text) && forall i :: 0 <= i < |events| ==> Proper(events[i])
    requires events != [] && events[|events| - 1].Call?
             && IsRunLength(events[..|events| - 1], At(events[..|events| - 1], text).count)
    ensures IsRunLength(events, At(events, text).count)
  {
    var n := |events| - 1;
    var last := events[n];
    KeyIsLast(events[..n], text);
    SameIsReflexive(last);
    if n > 0 && SameCall(events[n - 1], last) {
      KeysAgreeIff(events[n - 1], last, text);
      forall i | 0 <= i < n
        ensures SameCall(events[i], events[n - 1]) <==> SameCall(events[i], last)
      {
        SameEither(events[i], events[n - 1], last, text);
      }
      RunGoesOn(events, At(events[..n], text).count);
    } else {
      if n > 0 && events[n - 1].Call? { KeysAgreeIff(events[n - 1], last, text); }
      RunRestarts(events);
    }
  }

  lemma {:induction false} SameIsReflexive(e: Event)
    requires e.Call? && Proper(e)
    ensures SameCall(e, e)
  {
    SortedIffSame(e.args, e.args);
  }

  lemma {:induction false} RunLengthUnique(events: seq<Event>, m: nat, n: nat)
    requires IsRunLength(events, m) && IsRunLength(events, n)
    ensures m == n
  {}

  /** A notice is issued exactly when a call makes the run three, five or eight
      long. */
  lemma {:induction false} NoticesAtThresholds(events: seq<Event>, text: Json -> string, n: nat)
    requires Injective(text) && forall i :: 0 <= i < |events| ==> Proper(events[i])
    requires IsRunLength(events, n)
    ensures At(events, text).count in THRESHOLDS <==> n == 3 || n == 5 || n == 8
  {
    CountIsRunLength(events, text);
    RunLengthUnique(events, n, At(events, text).count);
  }
}
