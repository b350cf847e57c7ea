/** `String::from_utf8_lossy`, as the runtime hands bytes of a process to the model:
    what is not UTF-8 becomes replacement characters. */
module Utf8 {
  import opened Text

  type byte = n: int | 0 <= n < 256

  type Bytes = seq<byte>

  const REPLACEMENT: char := '\U{FFFD}'

  /** The bytes of a character: its number in groups of six bits behind a first byte
      that announces how many there are. */
  function EncodeChar(c: char): Bytes {
    var n := c as int;
    if n < 0x80 then [n]
    else if n < 0x800 then [0xC0 + n / 64, 0x80 + n % 64]
    else if n < 0x10000 then [0xE0 + n / 64 / 64, 0x80 + n / 64 % 64, 0x80 + n % 64]
    else [0xF0 + n / 64 / 64 / 64, 0x80 + n / 64 / 64 % 64, 0x80 + n / 64 % 64, 0x80 + n % 64]
  }

  function Encode(s: string): Bytes {
    if s == "" then [] else EncodeChar(s[0]) + Encode(s[1..])
  }

  /** How many bytes a first byte announces; none, if it is no first byte. */
  function Announced(b: byte): nat {
    if b < 0x80 then 1
    else if 0xC2 <= b < 0xE0 then 2
    else if 0xE0 <= b < 0xF0 then 3
    else if 0xF0 <= b < 0xF5 then 4
    else 0
  }

  predicate Continues(b: byte) { 0x80 <= b < 0xC0 }

  /** A second byte that makes neither an overlong form nor a surrogate nor a number
      beyond the last character. */
  predicate Second(first: byte, b: byte) {
    && Continues(b)
    && (first == 0xE0 ==> 0xA0 <= b) && (first == 0xED ==> b < 0xA0)
    && (first == 0xF0 ==> 0x90 <= b) && (first == 0xF4 ==> b < 0x90)
  }

  /** How much of `b` is one character, or one broken start of a character. */
  function Chunk(b: Bytes): (k: nat)
    requires b != []
    ensures 1 <= k <= |b|
  {
    var n := Announced(b[0]);
    if n < 2 || |b| < 2 || !Second(b[0], b[1]) then 1
    else if n == 2 || |b| < 3 || !Continues(b[2]) then 2
    else if n == 3 || |b| < 4 || !Continues(b[3]) then 3
    else 4
  }

  predicate IsChar(b: Bytes) { b != [] && Chunk(b) == |b| == Announced(b[0]) }

  /** One group of six bits more. */
  function Six(n: int, b: byte): int { n * 64 + (b as int - 0x80) }

  /** The number of the character. */
  function Number(b: Bytes): int
    requires 1 <= |b| <= 4
  {
    var first: int := b[0] as int;
    if |b| == 1 then first
    else if |b| == 2 then Six(first - 0xC0, b[1])
    else if |b| == 3 then Six(Six(first - 0xE0, b[1]), b[2])
    else Six(Six(Six(first - 0xF0, b[1]), b[2]), b[3])
  }

  function CharOf(b: Bytes): (c: char)
    requires IsChar(b)
  {
    NumberIsScalar(b);
    Number(b) as char
  }

  lemma {:induction false} NumberIsScalar(b: Bytes)
    requires IsChar(b)
    ensures |b| <= 4 && (0 <= Number(b) < 0xD800 || 0xE000 <= Number(b) < 0x11_0000)
  {}

  function Decode(b: Bytes): string
    decreases |b|
  {
    if b == [] then ""
    else
      var first := b[..Chunk(b)];
      [if IsChar(first) then CharOf(first) else REPLACEMENT] + Decode(b[Chunk(b)..])
  }

  // ----------------------------------------------------------------- round trips

  lemma {:induction false} SixSplits(n: int, b: byte)
    requires n >= 0 && Continues(b)
    ensures Six(n, b) / 64 == n && Six(n, b) % 64 == b as int - 0x80
  {}

  lemma {:induction false} SixJoins(n: nat)
    ensures Six(n / 64, 0x80 + n % 64) == n
  {}

  lemma {:induction false} CharRoundTrip(c: char)
    ensures IsChar(EncodeChar(c)) && CharOf(EncodeChar(c)) == c
  {
    var n: nat := c as int;
    SixJoins(n);
    SixJoins(n / 64);
    SixJoins(n / 64 / 64);
    EncodedIsChar(c);
  }

  lemma {:induction false} EncodedIsChar(c: char)
    ensures IsChar(EncodeChar(c))
  {}

  lemma {:induction false} BytesRoundTrip(b: Bytes)
    requires IsChar(b)
    ensures EncodeChar(CharOf(b)) == b
  {
    var first: int := b[0] as int;
    if |b| == 2 {
      SixSplits(first - 0xC0, b[1]);
    } else if |b| == 3 {
      SixSplits(first - 0xE0, b[1]);
      SixSplits(Six(first - 0xE0, b[1]), b[2]);
    } else if |b| == 4 {
      SixSplits(first - 0xF0, b[1]);
      SixSplits(Six(first - 0xF0, b[1]), b[2]);
      SixSplits(Six(Six(first - 0xF0, b[1]), b[2]), b[3]);
    }
  }

  /** A whole character is read whatever follows it. */
  lemma {:induction false} ChunkStands(b: Bytes, t: Bytes)
    requires IsChar(b)
    ensures Chunk(b + t) == |b|
  {}

  lemma {:induction false} DecodeFirst(b: Bytes, rest: Bytes)
    requires IsChar(b)
    ensures Decode(b + rest) == [CharOf(b)] + Decode(rest)
  {
    ChunkStands(b, rest);
    assert (b + rest)[..|b|] == b && (b + rest)[|b|..] == rest;
  }

  lemma {:induction false} EncodeCons(s: string, t: Bytes)
    requires s != ""
    ensures Encode(s) + t == EncodeChar(s[0]) + (Encode(s[1..]) + t)
  {}

  lemma {:induction false} DecodeChar(c: char, rest: Bytes)
    ensures Decode(EncodeChar(c) + rest) == [c] + Decode(rest)
  {
    CharRoundTrip(c);
    DecodeFirst(EncodeChar(c), rest);
  }

  lemma {:induction false} DecodeStep(s: string, t: Bytes)
    requires s != ""
    ensures Decode(Encode(s) + t) == [s[0]] + Decode(Encode(s[1..]) + t)
  {
    EncodeCons(s, t);
    DecodeChar(s[0], Encode(s[1..]) + t);
  }

  lemma {:induction false} DecodeEncode(s: string, t: Bytes)
    ensures Decode(Encode(s) + t) == s + Decode(t)
    decreases |s|
  {
    if s == "" {
      assert Encode(s) + t == t;
    } else {
      DecodeStep(s, t);
      DecodeEncode(s[1..], t);
      Regrouped(s, Decode(t));
    }
  }

  lemma {:induction false} Regrouped(s: string, t: string)
    requires s != ""
    ensures [s[0]] + (s[1..] + t) == s + t
  {}

  /** Bytes are the encoding of a text. */
  ghost predicate IsText(b: Bytes) { exists s :: b == Encode(s) }

  /** Where nothing was replaced, nothing was lost. */
  lemma {:induction false} EncodeDecode(b: Bytes)
    requires REPLACEMENT !in Decode(b)
    ensures Encode(Decode(b)) == b
    decreases |b|
  {
    if b != [] {
      var first, rest := b[..Chunk(b)], b[Chunk(b)..];
      var s := Decode(b);
      assert s[0] != REPLACEMENT && s[1..] == Decode(rest);
      assert forall c :: c in Decode(rest) ==> c in s;
      EncodeDecode(rest);
      BytesRoundTrip(first);
      assert first + rest == b;
    }
  }

  // ------------------------------------------------------- what is not a text

  /** A start of a character, the whole of it included. */
  ghost predicate StartsOne(p: Bytes) {
    exists c :: |p| <= |EncodeChar(c)| && EncodeChar(c)[..|p|] == p
  }

  lemma {:induction false} WholeStarts(p: Bytes, k: nat)
    requires IsChar(p) && k <= |p|
    ensures StartsOne(p[..k])
  {
    BytesRoundTrip(p);
    var c := CharOf(p);
    assert EncodeChar(c)[..k] == p[..k];
  }

  /** What is read at once can be completed to a character. */
  lemma {:induction false} ChunkStarts(b: Bytes)
    requires b != [] && Chunk(b) > 1
    ensures StartsOne(b[..Chunk(b)])
  {
    var k := Chunk(b);
    var whole := b[..k] + seq(Announced(b[0]) - k, i => 0x80);
    assert IsChar(whole);
    WholeStarts(whole, k);
    assert whole[..k] == b[..k];
  }

  /** And what is longer cannot. */
  lemma {:induction false} ChunkIsLongest(b: Bytes, j: nat)
    requires b != [] && Chunk(b) < j <= |b|
    ensures !StartsOne(b[..j])
  {
    forall c | j <= |EncodeChar(c)|
      ensures EncodeChar(c)[..j] != b[..j]
    {
      EncodedIsChar(c);
      var e := EncodeChar(c);
      if e[..j] == b[..j] {
        assert e[0] == e[..j][0] == b[..j][0] == b[0];
        assert e[Chunk(b)] == e[..j][Chunk(b)] == b[..j][Chunk(b)] == b[Chunk(b)];
        SameChunk(e, b);
        assert false;
      }
    }
  }

  /** Bytes that go on like a character where the others break off. */
  lemma {:induction false} SameChunk(e: Bytes, b: Bytes)
    requires IsChar(e) && b != [] && Chunk(b) < |b| && Chunk(b) < |e|
    ensures !(e[0] == b[0] && e[Chunk(b)] == b[Chunk(b)])
  {}

  /** How a decoder goes on: it takes the longest start of a character there is, or one
      byte if there is none, and writes the character if that is a whole one and one
      replacement character if it is not. */
  lemma {:induction false} DecodeTakesLongest(b: Bytes, k: nat)
    requires 1 <= k <= |b| && (k == 1 || StartsOne(b[..k]))
    requires forall j :: k < j <= |b| ==> !StartsOne(b[..j])
    ensures (exists c :: b[..k] == EncodeChar(c) && Decode(b) == [c] + Decode(b[k..]))
            || ((forall c :: b[..k] != EncodeChar(c)) && Decode(b) == [REPLACEMENT] + Decode(b[k..]))
  {
    if Chunk(b) > k { ChunkStarts(b); }
    if k > Chunk(b) { ChunkIsLongest(b, k); }
    var first := b[..k];
    if IsChar(first) {
      BytesRoundTrip(first);
    } else {
      forall c
        ensures first != EncodeChar(c)
      {
        EncodedIsChar(c);
      }
    }
  }

  // ------------------------------------------------------------ one part at a time

  function Concat(parts: seq<Bytes>): Bytes {
    if parts == [] then [] else parts[0] + Concat(parts[1..])
  }

  function DecodeEach(parts: seq<Bytes>): string {
    if parts == [] then "" else Decode(parts[0]) + DecodeEach(parts[1..])
  }

  ghost predicate AllText(parts: seq<Bytes>) { forall i :: 0 <= i < |parts| ==> IsText(parts[i]) }

  lemma {:induction false} TextsJoin(parts: seq<Bytes>)
    requires AllText(parts)
    ensures DecodeEach(parts) == Decode(Concat(parts))
    decreases |parts|
  {
    if parts != [] {
      assert forall i :: 0 <= i < |parts| - 1 ==> parts[1..][i] == parts[i + 1];
      TextsJoin(parts[1..]);
      assert IsText(parts[0]);
      var s :| parts[0] == Encode(s);
      DecodeEncode(s, Concat(parts[1..]));
      DecodeEncode(s, []);
      assert Encode(s) + [] == Encode(s) && s + Decode([]) == s;
    }
  }

  lemma {:induction false} CleanPartsAreText(parts: seq<Bytes>)
    requires REPLACEMENT !in DecodeEach(parts)
    ensures AllText(parts)
    decreases |parts|
  {
    if parts != [] {
      var first, rest := Decode(parts[0]), DecodeEach(parts[1..]);
      assert forall c :: c in first || c in rest ==> c in first + rest;
      EncodeDecode(parts[0]);
      CleanPartsAreText(parts[1..]);
      forall i | 0 <= i < |parts|
        ensures IsText(parts[i])
      {
        if i == 0 { assert parts[0] == Encode(first); } else { assert parts[i] == parts[1..][i - 1]; }
      }
    }
  }

  /** A text without replacement characters of its own, decoded part by part, comes
      out as itself if and only if no part ends inside a character. */
  lemma {:induction false} PartsJoinIff(parts: seq<Bytes>, s: string)
    requires Concat(parts) == Encode(s) && REPLACEMENT !in s
    ensures DecodeEach(parts) == s <==> AllText(parts)
  {
    if AllText(parts) {
      TextsJoin(parts);
      DecodeEncode(s, []);
      assert Encode(s) + [] == Encode(s) && s + Decode([]) == s;
    }
    if DecodeEach(parts) == s { CleanPartsAreText(parts); }
  }

  lemma {:induction false} EncodeEnd(s: string, c: char)
    ensures Encode(s + [c]) == Encode(s) + EncodeChar(c)
    decreases |s|
  {
    var all := s + [c];
    if s == "" {
      assert all[0] == c && all[1..] == "";
    } else {
      assert all[0] == s[0] && all[1..] == s[1..] + [c];
      EncodeEnd(s[1..], c);
    }
  }

  /** The length of a text in bytes is the length of its encoding. */
  lemma {:induction false} Utf8LenIs(s: string)
    ensures Utf8Len(s) == |Encode(s)|
    decreases |s|
  {
    if s != "" {
      var n := |s| - 1;
      Utf8LenIs(s[..n]);
      EncodeEnd(s[..n], s[n]);
      assert s == s[..n] + [s[n]];
    }
  }
}
