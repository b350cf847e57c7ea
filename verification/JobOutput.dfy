/** The output window of a background job (crates/agents/src/jobs.rs): absolute
    counters over a bounded buffer, with the overflow spilled to a file. */
module JobOutput {
  import opened Text
  import opened Utf8

  const OUTPUT_CAP: nat := 256 * 1024

  /** The fields of a job that its output goes through; `spilled` is the content of
      its spill file. */
  datatype Window = Window(buf: Bytes, produced: nat, readMark: nat, spilled: Bytes)

  const EMPTY := Window([], 0, 0, [])

  /** What a read takes: the unread bytes still in the window, and how many scrolled
      out before. */
  datatype Delivery = Delivery(text: Bytes, lost: nat)

  /** `append`; `disk` tells whether the spill file takes the write. */
  function Appended(w: Window, chunk: Bytes, disk: bool): Window {
    var all := w.buf + chunk;
    if |all| > OUTPUT_CAP then
      var excess := |all| - OUTPUT_CAP;
      Window(all[excess..], w.produced + |chunk|, w.readMark, if disk then w.spilled + all[..excess] else w.spilled)
    else Window(all, w.produced + |chunk|, w.readMark, w.spilled)
  }

  ghost predicate Consistent(w: Window) { |w.buf| <= w.produced && w.readMark <= w.produced }

  function Unread(w: Window): Delivery
    requires Consistent(w)
  {
    var start := w.produced - |w.buf|;
    var lost := if w.readMark < start then start - w.readMark else 0;
    var from := if w.readMark > start then w.readMark else start;
    Delivery(w.buf[from - start..], lost)
  }

  function Read(w: Window): Window { w.(readMark := w.produced) }

  class Job {
    var buf: Bytes
    var produced: nat
    var readMark: nat
    var spilled: Bytes

    ghost function View(): Window
      reads this
    {
      Window(buf, produced, readMark, spilled)
    }

    constructor ()
      ensures View() == EMPTY
    {
      buf, produced, readMark, spilled := [], 0, 0, [];
    }

    method Append(chunk: Bytes, disk: bool)
      modifies this
      ensures View() == Appended(old(View()), chunk, disk)
    {
      produced := produced + |chunk|;
      buf := buf + chunk;
      if |buf| > OUTPUT_CAP {
        var excess := |buf| - OUTPUT_CAP;
        var dropped := buf[..excess];
        buf := buf[excess..];
        SpillBytes(dropped, disk);
      }
    }

    method SpillBytes(bytes: Bytes, disk: bool)
      modifies this`spilled
      ensures spilled == if disk then old(spilled) + bytes else old(spilled)
    {
      if disk { spilled := spilled + bytes; }
    }

    /** The text handed back, and how many bytes scrolled out before it. */
    method TakeUnread() returns (text: string, lost: nat)
      requires Consistent(View())
      modifies this`readMark
      ensures View() == Read(old(View()))
      ensures text == Decode(Unread(old(View())).text) && lost == Unread(old(View())).lost
    {
      var start := produced - |buf|;
      lost := if start > readMark then start - readMark else 0;
      var from := if readMark > start then readMark else start;
      text := Decode(buf[from - start..]);
      readMark := produced;
    }
  }

  // ----------------------------------------------------------------------- runs

  datatype Op = Write(chunk: Bytes, disk: bool) | TakeOutput

  /** The window after a run, and everything its reads handed back, in order. */
  datatype Run = Run(w: Window, deliveries: seq<Delivery>)

  function After(ops: seq<Op>): (r: Run)
    ensures Consistent(r.w)
  {
    if ops == [] then Run(EMPTY, [])
    else
      var before := After(ops[..|ops| - 1]);
      match ops[|ops| - 1]
      case Write(chunk, disk) => before.(w := Appended(before.w, chunk, disk))
      case TakeOutput => Run(Read(before.w), before.deliveries + [Unread(before.w)])
  }

  /** Everything the job ever printed. */
  function Output(ops: seq<Op>): Bytes {
    if ops == [] then []
    else Output(ops[..|ops| - 1]) + match ops[|ops| - 1] case Write(chunk, _) => chunk case TakeOutput => []
  }

  predicate DiskNeverFails(ops: seq<Op>) {
    forall i :: 0 <= i < |ops| && ops[i].Write? ==> ops[i].disk
  }

  /** How many bytes an append pushes out of the window. */
  function Excess(w: Window, chunk: Bytes): nat {
    if |w.buf| + |chunk| > OUTPUT_CAP then |w.buf| + |chunk| - OUTPUT_CAP else 0
  }

  /** Everything that ever left the window. */
  function Gone(ops: seq<Op>): Bytes {
    if ops == [] then []
    else
      var front := ops[..|ops| - 1];
      match ops[|ops| - 1]
      case Write(chunk, _) => Gone(front) + (After(front).w.buf + chunk)[..Excess(After(front).w, chunk)]
      case TakeOutput => Gone(front)
  }

  /** Moving a front part of what is held to what is gone loses nothing. */
  lemma {:induction false} Moved(gone: Bytes, buf: Bytes, chunk: Bytes, e: nat)
    requires e <= |buf| + |chunk|
    ensures gone + buf + chunk == gone + (buf + chunk)[..e] + (buf + chunk)[e..]
  {}

  lemma {:induction false} AppendedBuf(w: Window, chunk: Bytes, disk: bool)
    ensures var w', e := Appended(w, chunk, disk), Excess(w, chunk);
            && w'.buf == (w.buf + chunk)[e..] && w'.produced == w.produced + |chunk| && w'.readMark == w.readMark
            && |w'.buf| == Min(|w.buf| + |chunk|, OUTPUT_CAP)
            && w'.spilled == if disk then w.spilled + (w.buf + chunk)[..e] else w.spilled
  {}

  /** What is gone and what the window holds make up the output, and the window is
      as full as it can be, whatever the disk does. */
  lemma {:induction false} WindowHoldsTheEnd(ops: seq<Op>)
    ensures var w, all := After(ops).w, Output(ops);
            && Gone(ops) + w.buf == all
            && w.produced == |all|
            && |w.buf| == Min(|all|, OUTPUT_CAP)
    decreases |ops|
  {
    if ops != [] {
      var front := ops[..|ops| - 1];
      WindowHoldsTheEnd(front);
      var w, before := After(front).w, Output(front);
      match ops[|ops| - 1]
      case Write(chunk, disk) =>
        AppendedBuf(w, chunk, disk);
        Moved(Gone(front), w.buf, chunk, Excess(w, chunk));
      case TakeOutput =>
        assert before + [] == before;
    }
  }

  /** The buffer is the last `min(produced, OUTPUT_CAP)` bytes of the output. */
  lemma {:induction false} WindowIsSuffix(ops: seq<Op>)
    ensures var w, all := After(ops).w, Output(ops);
            && |w.buf| == Min(|all|, 262144) && w.produced == |all|
            && w.buf == all[|all| - |w.buf|..]
            && Gone(ops) == all[..|all| - |w.buf|]
  {
    WindowHoldsTheEnd(ops);
    var gone, buf := Gone(ops), After(ops).w.buf;
    assert (gone + buf)[|gone|..] == buf && (gone + buf)[..|gone|] == gone;
  }

  /** How many bytes a failing disk swallowed. */
  function Missing(ops: seq<Op>): nat {
    if ops == [] then 0
    else
      var front := ops[..|ops| - 1];
      Missing(front) +
      match ops[|ops| - 1]
      case Write(chunk, disk) => if disk then 0 else Excess(After(front).w, chunk)
      case TakeOutput => 0
  }

  /** The file falls short of what left the window by exactly the bytes whose write
      failed, and it holds what left the window if and only if no overflow met a
      failing disk. */
  lemma {:induction false} SpillIsCompleteIff(ops: seq<Op>)
    ensures |After(ops).w.spilled| + Missing(ops) == |Gone(ops)|
    ensures After(ops).w.spilled == Gone(ops) <==> Missing(ops) == 0
    decreases |ops|
  {
    if ops != [] {
      var front := ops[..|ops| - 1];
      SpillIsCompleteIff(front);
      match ops[|ops| - 1]
      case Write(chunk, disk) => AppendedBuf(After(front).w, chunk, disk);
      case TakeOutput =>
    }
  }

  /** With a disk that takes every write, the spill file holds exactly the output
      that is no longer in the window. */
  lemma {:induction false} SpillIsTheRest(ops: seq<Op>)
    requires DiskNeverFails(ops)
    ensures After(ops).w.spilled == Gone(ops) && After(ops).w.spilled + After(ops).w.buf == Output(ops)
  {
    NothingMissing(ops);
    SpillIsCompleteIff(ops);
    WindowHoldsTheEnd(ops);
  }

  lemma {:induction false} NothingMissing(ops: seq<Op>)
    requires DiskNeverFails(ops)
    ensures Missing(ops) == 0
    decreases |ops|
  {
    if ops != [] { NothingMissing(ops[..|ops| - 1]); }
  }

  // ----------------------------------------------------------- what the reads saw

  /** The lost bytes, as the spill file has them. */
  function Gap(spilled: Bytes, m: nat, lost: nat): Bytes {
    if m + lost <= |spilled| then spilled[m..m + lost] else []
  }

  /** Put the deliveries together, taking the bytes they report lost from the spill
      file. */
  function Replay(deliveries: seq<Delivery>, spilled: Bytes): Bytes {
    if deliveries == [] then []
    else
      var d := deliveries[|deliveries| - 1];
      var before := Replay(deliveries[..|deliveries| - 1], spilled);
      before + Gap(spilled, |before|, d.lost) + d.text
  }

  /** A delivery covers the output from the last read on: the lost bytes, which
      have left the window, then the text. */
  lemma {:induction false} DeliveryCovers(w: Window, gone: Bytes)
    requires w.produced == |gone| + |w.buf| && w.readMark <= w.produced
    ensures var d, all := Unread(w), gone + w.buf;
            && w.readMark + d.lost <= |all|
            && d.text == all[w.readMark + d.lost..]
            && (d.lost > 0 ==> w.readMark + d.lost == |gone|)
  {}

  lemma {:induction false} GapStable(spilled: Bytes, more: Bytes, m: nat, lost: nat)
    requires lost > 0 ==> m + lost <= |spilled|
    ensures Gap(spilled + more, m, lost) == Gap(spilled, m, lost)
  {}

  /** Replaying only ever needs the spill file's front, and that never changes. */
  lemma {:induction false} ReplayStable(deliveries: seq<Delivery>, spilled: Bytes, more: Bytes)
    requires Gapless(deliveries, spilled)
    ensures Replay(deliveries, spilled + more) == Replay(deliveries, spilled) && Gapless(deliveries, spilled + more)
    decreases |deliveries|
  {
    if deliveries != [] {
      var front := deliveries[..|deliveries| - 1];
      ReplayStable(front, spilled, more);
      var d, before := deliveries[|deliveries| - 1], Replay(front, spilled);
      GapStable(spilled, more, |before|, d.lost);
    }
  }

  /** Every gap lies inside the spill file. */
  predicate Gapless(deliveries: seq<Delivery>, spilled: Bytes) {
    deliveries == [] ||
    (var front, d := deliveries[..|deliveries| - 1], deliveries[|deliveries| - 1];
     Gapless(front, spilled) && (d.lost > 0 ==> |Replay(front, spilled)| + d.lost <= |spilled|))
  }

  /** The deliveries and the bytes that are gone make up the output up to `mark`. */
  ghost predicate Replayed(ds: seq<Delivery>, gone: Bytes, all: Bytes, mark: nat) {
    mark <= |all| && Gapless(ds, gone) && Replay(ds, gone) == all[..mark]
  }

  lemma {:induction false} WriteKeepsReplay(ds: seq<Delivery>, gone: Bytes, more: Bytes, all: Bytes, chunk: Bytes,
      mark: nat)
    requires Replayed(ds, gone, all, mark)
    ensures Replayed(ds, gone + more, all + chunk, mark)
  {
    ReplayStable(ds, gone, more);
    assert (all + chunk)[..mark] == all[..mark];
  }

  /** One delivery more. */
  lemma {:induction false} ReplayOne(ds: seq<Delivery>, d: Delivery, spilled: Bytes)
    requires Gapless(ds, spilled) && (d.lost > 0 ==> |Replay(ds, spilled)| + d.lost <= |spilled|)
    ensures Gapless(ds + [d], spilled)
    ensures Replay(ds + [d], spilled) == Replay(ds, spilled) + Gap(spilled, |Replay(ds, spilled)|, d.lost) + d.text
  {}

  /** Counted once: what the reads account for, lost or delivered. */
  function Accounted(deliveries: seq<Delivery>): nat {
    if deliveries == [] then 0
    else
      var d := deliveries[|deliveries| - 1];
      Accounted(deliveries[..|deliveries| - 1]) + d.lost + |d.text|
  }

  lemma {:induction false} ReadReplays(ds: seq<Delivery>, w: Window, gone: Bytes, all: Bytes)
    requires w.produced == |all| && all == gone + w.buf && Replayed(ds, gone, all, w.readMark)
    ensures Replayed(ds + [Unread(w)], gone, all, |all|)
  {
    var d, m := Unread(w), w.readMark;
    DeliveryCovers(w, gone);
    ReplayOne(ds, d, gone);
    DeliveryFills(gone, w.buf, m, d);
  }

  lemma {:induction false} DeliveryFills(gone: Bytes, buf: Bytes, m: nat, d: Delivery)
    requires var all := gone + buf; m + d.lost <= |all| && d.text == all[m + d.lost..]
    requires d.lost > 0 ==> m + d.lost <= |gone|
    ensures var all := gone + buf;
            |all[..m]| == m && all[..m] + Gap(gone, m, d.lost) + d.text == all && all[..|all|] == all
  {
    GapIs(gone, buf, m, d.lost);
  }

  lemma {:induction false} GapIs(spilled: Bytes, buf: Bytes, m: nat, lost: nat)
    requires m + lost <= |spilled| + |buf| && (lost > 0 ==> m + lost <= |spilled|)
    ensures var all := spilled + buf;
            all[..m] + Gap(spilled, m, lost) + all[m + lost..] == all
  {}

  /** Over every run of appends and reads, each byte produced before the last read
      was delivered exactly once and in order, or was counted as lost exactly once
      and has left the window: putting the two together gives the output itself,
      whatever the disk does. */
  lemma {:induction false} NothingIsLost(ops: seq<Op>)
    ensures Replayed(After(ops).deliveries, Gone(ops), Output(ops), After(ops).w.readMark)
    decreases |ops|
  {
    if ops != [] {
      var front := ops[..|ops| - 1];
      NothingIsLost(front);
      WindowHoldsTheEnd(front);
      var r, all, gone := After(front), Output(front), Gone(front);
      match ops[|ops| - 1]
      case Write(chunk, _) =>
        WriteKeepsReplay(r.deliveries, gone, (r.w.buf + chunk)[..Excess(r.w, chunk)], all, chunk, r.w.readMark);
      case TakeOutput =>
        ReadReplays(r.deliveries, r.w, gone, all);
        assert Output(ops) == all;
    }
  }

  /** So the deliveries and the spill file together give the output back whenever no
      overflow met a failing disk. */
  lemma {:induction false} SpillFillsTheGaps(ops: seq<Op>)
    requires Missing(ops) == 0
    ensures Replayed(After(ops).deliveries, After(ops).w.spilled, Output(ops), After(ops).w.readMark)
  {
    NothingIsLost(ops);
    SpillIsCompleteIff(ops);
  }

  /** The reads account for every byte up to the last one, once, even when the
      disk fails. */
  lemma {:induction false} EveryByteAccounted(ops: seq<Op>)
    ensures Accounted(After(ops).deliveries) == After(ops).w.readMark <= |Output(ops)|
    decreases |ops|
  {
    WindowHoldsTheEnd(ops);
    if ops != [] {
      var front := ops[..|ops| - 1];
      EveryByteAccounted(front);
      WindowHoldsTheEnd(front);
      if ops[|ops| - 1].TakeOutput? { DeliveryAccounted(After(front).deliveries, After(front).w, Gone(front)); }
    }
  }

  lemma {:induction false} DeliveryAccounted(ds: seq<Delivery>, w: Window, gone: Bytes)
    requires w.produced == |gone| + |w.buf| && w.readMark <= w.produced && Accounted(ds) == w.readMark
    ensures Accounted(ds + [Unread(w)]) == w.produced
  {}

  // ------------------------------------------------------------ what the model reads

  function Texts(ds: seq<Delivery>): seq<Bytes> {
    if ds == [] then [] else Texts(ds[..|ds| - 1]) + [ds[|ds| - 1].text]
  }

  lemma {:induction false} ConcatEnd(parts: seq<Bytes>, last: Bytes)
    ensures Concat(parts + [last]) == Concat(parts) + last
    decreases |parts|
  {
    var all := parts + [last];
    if parts == [] {
      assert all == [last] && all[1..] == [];
    } else {
      assert all[0] == parts[0] && all[1..] == parts[1..] + [last];
      ConcatEnd(parts[1..], last);
      BytesRegrouped(parts[0], Concat(parts[1..]), last);
    }
  }

  lemma {:induction false} BytesRegrouped(a: Bytes, b: Bytes, c: Bytes)
    ensures a + b + c == a + (b + c)
  {}

  /** With nothing lost, the deliveries alone make up the output. */
  lemma {:induction false} ReplayIsConcat(ds: seq<Delivery>, gone: Bytes)
    requires forall i :: 0 <= i < |ds| ==> ds[i].lost == 0
    ensures Replay(ds, gone) == Concat(Texts(ds))
    decreases |ds|
  {
    if ds != [] {
      var front, d := ds[..|ds| - 1], ds[|ds| - 1];
      ReplayIsConcat(front, gone);
      ConcatEnd(Texts(front), d.text);
      NoGap(Replay(front, gone), gone, d.text);
    }
  }

  lemma {:induction false} NoGap(before: Bytes, gone: Bytes, text: Bytes)
    ensures before + Gap(gone, |before|, 0) + text == before + text
  {}

  /** What the model reads: if the reads kept up with the job and it printed `s`, the
      decoded deliveries join to `s` if and only if no read fell inside a
      character. */
  lemma {:induction false} DecodedDeliveriesJoinIff(ops: seq<Op>, s: string)
    requires forall i :: 0 <= i < |After(ops).deliveries| ==> After(ops).deliveries[i].lost == 0
    requires After(ops).w.readMark <= |Output(ops)| && Output(ops)[..After(ops).w.readMark] == Encode(s)
    requires REPLACEMENT !in s
    ensures var texts := Texts(After(ops).deliveries); DecodeEach(texts) == s <==> AllText(texts)
  {
    NothingIsLost(ops);
    ReplayIsConcat(After(ops).deliveries, Gone(ops));
    PartsJoinIff(Texts(After(ops).deliveries), s);
  }

  /** It does happen: a read between the two bytes of a character hands out two
      replacement characters for it. */
  lemma {:induction false} CharacterIsTorn(c: char)
    requires |EncodeChar(c)| == 2
    ensures var b := EncodeChar(c);
            var ops := [Write([b[0]], true), TakeOutput, Write([b[1]], true), TakeOutput];
            DecodeEach(Texts(After(ops).deliveries)) == [REPLACEMENT, REPLACEMENT]
  {
    var b := EncodeChar(c);
    var ops := [Write([b[0]], true), TakeOutput, Write([b[1]], true), TakeOutput];
    TornRun(b[0], b[1]);
    TornTexts(b[0], b[1]);
  }

  lemma {:induction false} TornTexts(x: byte, y: byte)
    requires x >= 0x80 && y >= 0x80
    ensures DecodeEach([[x], [y]]) == [REPLACEMENT, REPLACEMENT]
  {
    TornByte(x);
    TornByte(y);
    var parts: seq<Bytes> := [[x], [y]];
    var rest: seq<Bytes> := parts[1..];
    assert |rest| == 1 && rest[0] == [y] && |rest[1..]| == 0;
    assert DecodeEach(rest) == [REPLACEMENT] + "" && parts[0] == [x];
  }

  lemma {:induction false} TornByte(b: byte)
    requires b >= 0x80
    ensures Decode([b]) == [REPLACEMENT]
  {
    assert [b][1..] == [] && [b][..1] == [b];
  }

  /** A run with one step more. */
  lemma {:induction false} OneStepMore(ops: seq<Op>, op: Op)
    ensures var r := After(ops);
            After(ops + [op]) == match op
              case Write(chunk, disk) => r.(w := Appended(r.w, chunk, disk))
              case TakeOutput => Run(Read(r.w), r.deliveries + [Unread(r.w)])
  {
    assert (ops + [op])[..|ops|] == ops;
  }

  /** A write and a read of what was written, by a reader that kept up. */
  lemma {:induction false} WriteAndRead(ops: seq<Op>, chunk: Bytes)
    requires var w := After(ops).w; w.readMark == w.produced && |w.buf| + |chunk| <= OUTPUT_CAP
    ensures var r, r' := After(ops), After(ops + [Write(chunk, true)] + [TakeOutput]);
            && r'.deliveries == r.deliveries + [Delivery(chunk, 0)]
            && r'.w.readMark == r'.w.produced && |r'.w.buf| == |r.w.buf| + |chunk|
  {
    OneStepMore(ops, Write(chunk, true));
    OneStepMore(ops + [Write(chunk, true)], TakeOutput);
    var w := After(ops).w;
    assert (w.buf + chunk)[|w.buf|..] == chunk;
  }

  lemma {:induction false} TornRun(x: byte, y: byte)
    ensures var ops := [Write([x], true), TakeOutput, Write([y], true), TakeOutput];
            Texts(After(ops).deliveries) == [[x], [y]]
  {
    var first: seq<Op> := [] + [Write([x], true)] + [TakeOutput];
    WriteAndRead([], [x]);
    WriteAndRead(first, [y]);
    assert first + [Write([y], true)] + [TakeOutput] == [Write([x], true), TakeOutput, Write([y], true), TakeOutput];
    TwoTexts([x], [y]);
  }

  lemma {:induction false} TwoTexts(x: Bytes, y: Bytes)
    ensures Texts([] + [Delivery(x, 0)] + [Delivery(y, 0)]) == [x, y]
  {
    var one: seq<Delivery> := [] + [Delivery(x, 0)];
    var two: seq<Delivery> := one + [Delivery(y, 0)];
    assert one[..0] == [] && two[..1] == one && two[1] == Delivery(y, 0);
    assert Texts(one) == [x] && Texts(two) == Texts(one) + [y];
  }
}
