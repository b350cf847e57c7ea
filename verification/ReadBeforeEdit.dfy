/** The read-before-edit policy (crates/agents/src/pipeline.rs): a file may be
    written only if it does not exist or stands at the version last observed.

    The digest is a parameter.  It is a hash, so two contents may share one; what
    is proved says "or the two contents collide" wherever that matters. */
module ReadBeforeEdit {
  import opened Text
  import opened Utf8

  type Path = string
  type Digest = Bytes -> nat

  datatype Kind = ReadFile | WriteFile | EditFile | Other

  predicate Writes(k: Kind) { k == WriteFile || k == EditFile }

  predicate Observes(k: Kind) { k == ReadFile || k == WriteFile || k == EditFile }

  /** A file, and whether the program may read it. */
  datatype File = File(content: Bytes, readable: bool)

  type Disk = map<Path, File>

  /** The files on disk, and the digests the policy remembers. */
  datatype World = World(disk: Disk, seen: map<Path, nat>)

  /** `std::fs::read(..).ok()`: nothing for a file that is absent or cannot be
      read. */
  function ReadBytes(disk: Disk, p: Path): Option<Bytes> {
    if p in disk && disk[p].readable then Some(disk[p].content) else None
  }

  /** `pre_execute`; the target is the resolved path, when the call has one. */
  predicate Allows(w: World, digest: Digest, k: Kind, target: Option<Path>) {
    !Writes(k) || target.None? || ReadBytes(w.disk, target.value).None?
    || (target.value in w.seen && w.seen[target.value] == digest(ReadBytes(w.disk, target.value).value))
  }

  /** `post_execute` on the disk the body left behind. */
  function Observed(w: World, digest: Digest, k: Kind, target: Option<Path>, ok: bool): World {
    if ok && Observes(k) && target.Some? && ReadBytes(w.disk, target.value).Some?
    then w.(seen := w.seen[target.value := digest(ReadBytes(w.disk, target.value).value)])
    else w
  }

  class Policy {
    var seen: map<Path, nat>

    constructor ()
      ensures seen == map[]
    {
      seen := map[];
    }

    method PreExecute(disk: Disk, digest: Digest, k: Kind, target: Option<Path>) returns (allow: bool)
      ensures allow <==> Allows(World(disk, seen), digest, k, target)
    {
      if k != WriteFile && k != EditFile { return true; }
      if target.None? { return true; }
      var current := ReadBytes(disk, target.value);
      if current.None? { return true; }
      if target.value !in seen { return false; }
      if seen[target.value] != digest(current.value) { return false; }
      return true;
    }

    method PostExecute(disk: Disk, digest: Digest, k: Kind, target: Option<Path>, ok: bool)
      modifies this
      ensures World(disk, seen) == Observed(World(disk, old(seen)), digest, k, target, ok)
    {
      if ok && (k == ReadFile || k == WriteFile || k == EditFile) {
        if target.Some? {
          var bytes := ReadBytes(disk, target.value);
          if bytes.Some? { seen := seen[target.value := digest(bytes.value)]; }
        }
      }
    }
  }

  // ----------------------------------------------------------------------- runs

  /** Something other than a gated call, a shell command or another program, leaves
      `file` (or nothing) at `path`. */
  datatype Change = Change(path: Path, file: Option<File>)

  /** What happens to the session's files.  A gated call is checked, runs its body
      only if the policy allows it, and is recorded; a write or edit that succeeds
      leaves `file` behind, one that fails may leave anything (or nothing) there.
      Everything else changes the disk behind the policy's back: before or after a
      call, `early` between its check and its body, or `late` between its body and
      the record.  (Changes of other files in such a gap are as good as before or
      after it, and of several of one file the last counts.) */
  datatype Event =
    | Call(kind: Kind, target: Option<Path>, ok: bool, file: Option<File>, early: Option<Change>, late: Option<Change>)
    | Outside(change: Change)

  /** A call whose body may change its file. */
  predicate Overwrites(k: Kind) { k in {WriteFile, EditFile} }

  function Put(disk: Disk, path: Path, file: Option<File>): Disk {
    match file case Some(f) => disk[path := f] case None => disk - {path}
  }

  function Changed(w: World, change: Option<Change>): World {
    match change case Some(c) => w.(disk := Put(w.disk, c.path, c.file)) case None => w
  }

  /** The body's own effect, on the disk it finds. */
  function Body(w: World, e: Event): World
    requires e.Call?
  {
    var found := Changed(w, e.early);
    if Overwrites(e.kind) && e.target.Some? then found.(disk := Put(found.disk, e.target.value, e.file)) else found
  }

  function Next(w: World, digest: Digest, e: Event): World {
    match e
    case Outside(change) => Changed(w, Some(change))
    case Call(kind, target, ok, _, early, late) =>
      if Allows(w, digest, kind, target) then Observed(Changed(Body(w, e), late), digest, kind, target, ok)
      else Observed(Changed(Changed(w, early), late), digest, kind, target, false)
  }

  function At(w: World, digest: Digest, events: seq<Event>, n: nat): World
    requires n <= |events|
  {
    if n == 0 then w else Next(At(w, digest, events, n - 1), digest, events[n - 1])
  }

  /** The call looked at `p` and went well. */
  predicate Looks(w: World, digest: Digest, e: Event, p: Path) {
    && e.Call? && e.ok && e.kind in {ReadFile, WriteFile, EditFile} && e.target == Some(p)
    && Allows(w, digest, e.kind, e.target)
  }

  /** What the session itself last read or wrote at `p`, told from the history
      alone. */
  function LastObserved(w: World, digest: Digest, events: seq<Event>, n: nat, p: Path): Option<Bytes>
    requires n <= |events|
  {
    if n == 0 then None
    else
      var e, before := events[n - 1], At(w, digest, events, n - 1);
      if Looks(before, digest, e, p) && ReadBytes(Body(before, e).disk, p).Some?
      then ReadBytes(Body(before, e).disk, p)
      else LastObserved(w, digest, events, n - 1, p)
  }

  /** What was at `p` when the policy last recorded it. */
  function LastRecorded(w: World, digest: Digest, events: seq<Event>, n: nat, p: Path): Option<Bytes>
    requires n <= |events|
  {
    if n == 0 then None
    else
      var e, before := events[n - 1], At(w, digest, events, n - 1);
      if Looks(before, digest, e, p) && ReadBytes(Changed(Body(before, e), e.late).disk, p).Some?
      then ReadBytes(Changed(Body(before, e), e.late).disk, p)
      else LastRecorded(w, digest, events, n - 1, p)
  }

  /** Nothing else changes `p` while the call is under way. */
  predicate Tight(e: Event, p: Path) {
    e.Call? ==> (e.early.Some? ==> e.early.value.path != p) && (e.late.Some? ==> e.late.value.path != p)
  }

  /** The remembered digests are those of what was last recorded. */
  lemma {:induction false} SeenIsRecorded(disk: Disk, digest: Digest, events: seq<Event>, n: nat, p: Path)
    requires n <= |events|
    ensures var start := World(disk, map[]);
            var w, r := At(start, digest, events, n), LastRecorded(start, digest, events, n, p);
            && (p in w.seen <==> r.Some?)
            && (r.Some? ==> w.seen[p] == digest(r.value))
    decreases n
  {
    if n > 0 { SeenIsRecorded(disk, digest, events, n - 1, p); }
  }

  /** With no change of `p` while its calls are under way, what was recorded is what
      the session observed. */
  lemma {:induction false} RecordedIsObserved(disk: Disk, digest: Digest, events: seq<Event>, n: nat, p: Path)
    requires n <= |events| && forall i :: 0 <= i < n ==> Tight(events[i], p)
    ensures LastRecorded(World(disk, map[]), digest, events, n, p)
            == LastObserved(World(disk, map[]), digest, events, n, p)
    decreases n
  {
    if n > 0 {
      RecordedIsObserved(disk, digest, events, n - 1, p);
      assert Tight(events[n - 1], p);
    }
  }

  /** Over every run, a write or edit is allowed if and only if its target does not
      exist or cannot be read, or it was recorded and the recorded content and the
      content on disk have the same digest. */
  lemma {:induction false} AllowedIff(disk: Disk, digest: Digest, events: seq<Event>, n: nat, k: Kind, p: Path)
    requires n <= |events| && Overwrites(k)
    ensures var start := World(disk, map[]);
            var w, r := At(start, digest, events, n), LastRecorded(start, digest, events, n, p);
            Allows(w, digest, k, Some(p)) <==>
              p !in w.disk || !w.disk[p].readable || (r.Some? && digest(r.value) == digest(w.disk[p].content))
  {
    SeenIsRecorded(disk, digest, events, n, p);
  }

  /** Nothing but a write or an edit is ever refused. */
  lemma {:induction false} OthersAreNeverRefused(w: World, digest: Digest, k: Kind, target: Option<Path>)
    requires k == ReadFile || k == Other
    ensures Allows(w, digest, k, target)
  {}

  /** Two different contents with one digest. */
  predicate Collide(digest: Digest, a: Bytes, b: Bytes) { a != b && digest(a) == digest(b) }

  /** The content on disk is not what the session last observed there. */
  predicate Blind(disk: Disk, digest: Digest, o: Option<Bytes>, p: Path) {
    p in disk && (o.None? || (disk[p].content != o.value && !Collide(digest, disk[p].content, o.value)))
  }

  /** The safety the policy is for: while nothing else changes a file in the middle
      of the session's calls on it, a write or edit of content that is not what the
      session last read or wrote there is refused if and only if the file can be
      read, and the body meets the very file that was checked. */
  lemma {:induction false} NoBlindOverwrite(disk: Disk, digest: Digest, events: seq<Event>, n: nat, p: Path)
    requires n < |events| && events[n].Call? && Overwrites(events[n].kind) && events[n].target == Some(p)
    requires forall i :: 0 <= i <= n ==> Tight(events[i], p)
    ensures var start, e := World(disk, map[]), events[n];
            var w, o := At(start, digest, events, n), LastObserved(start, digest, events, n, p);
            var found := Changed(w, e.early).disk;
            && (p in found <==> p in w.disk) && (p in found ==> found[p] == w.disk[p])
            && (Blind(found, digest, o, p) ==> (Allows(w, digest, e.kind, Some(p)) <==> !found[p].readable))
  {
    assert Tight(events[n], p);
    RecordedIsObserved(disk, digest, events, n, p);
    AllowedIff(disk, digest, events, n, events[n].kind, p);
  }

  /** In general a write that the session has not observed the content for is let
      through if and only if the file cannot be read or its content was recorded: a
      change slipped in before the record. */
  lemma {:induction false} BlindAllowedIff(disk: Disk, digest: Digest, events: seq<Event>, n: nat, k: Kind, p: Path)
    requires n <= |events| && Overwrites(k)
    ensures var start := World(disk, map[]);
            var w, o := At(start, digest, events, n), LastObserved(start, digest, events, n, p);
            var r := LastRecorded(start, digest, events, n, p);
            Blind(w.disk, digest, o, p) ==>
              (Allows(w, digest, k, Some(p)) <==>
                 !w.disk[p].readable || (r.Some? && r != o && digest(r.value) == digest(w.disk[p].content)))
  {
    AllowedIff(disk, digest, events, n, k, p);
  }

  function Write(p: Path, file: File, early: Option<Change>, late: Option<Change>): Event {
    Call(WriteFile, Some(p), true, Some(file), early, late)
  }

  /** The gap of the check: whatever a file holds, made unreadable behind the
      session's back it is overwritten without ever having been read. */
  lemma {:induction false} UnreadableIsOverwritten(disk: Disk, digest: Digest, p: Path, theirs: Bytes, ours: File)
    ensures var events := [Outside(Change(p, Some(File(theirs, false)))), Write(p, ours, None, None)];
            var start := World(disk, map[]);
            && Blind(At(start, digest, events, 1).disk, digest, LastObserved(start, digest, events, 1, p), p)
            && p in At(start, digest, events, 2).disk && At(start, digest, events, 2).disk[p] == ours
  {
    var events := [Outside(Change(p, Some(File(theirs, false)))), Write(p, ours, None, None)];
    var start := World(disk, map[]);
    assert At(start, digest, events, 1) == World(disk[p := File(theirs, false)], map[]);
    assert LastObserved(start, digest, events, 1, p) == None;
  }

  /** The gap before the record: what another program writes between the session's
      write and its record counts as observed, and the next write overwrites it. */
  lemma {:induction false} RecordedUnseen(digest: Digest, p: Path, first: Bytes, theirs: Bytes, second: File)
    requires theirs != first && digest(theirs) != digest(first)
    ensures var events := [Write(p, File(first, true), None, Some(Change(p, Some(File(theirs, true))))),
                           Write(p, second, None, None)];
            var start := World(map[], map[]);
            && Blind(At(start, digest, events, 1).disk, digest, LastObserved(start, digest, events, 1, p), p)
            && p in At(start, digest, events, 2).disk && At(start, digest, events, 2).disk[p] == second
  {
    var change := Change(p, Some(File(theirs, true)));
    var events := [Write(p, File(first, true), None, Some(change)), Write(p, second, None, None)];
    var start := World(map[], map[]);
    assert Body(start, events[0]) == World(map[p := File(first, true)], map[]);
    assert At(start, digest, events, 1) == World(map[p := File(theirs, true)], map[p := digest(theirs)]);
    assert LastObserved(start, digest, events, 1, p) == Some(first);
  }

  /** The gap before the body: what another program writes between the check and the
      body is overwritten. */
  lemma {:induction false} CheckedTooEarly(disk: Disk, digest: Digest, p: Path, theirs: File, ours: File)
    requires p !in disk
    ensures var e := Write(p, ours, Some(Change(p, Some(theirs))), None);
            var start := World(disk, map[]);
            && Blind(Changed(start, e.early).disk, digest, None, p)
            && p in Next(start, digest, e).disk && Next(start, digest, e).disk[p] == ours
  {}

  /** Anything but a successful read of `p` or a further change of it by others; in
      particular any attempt to write it. */
  predicate NoNewLook(e: Event, p: Path) {
    match e
    case Outside(change) => change.path != p
    case Call(kind, target, ok, _, _, _) => Tight(e, p) && !(target == Some(p) && kind == ReadFile && ok)
  }

  /** The two worlds agree on `p`. */
  predicate SameAt(a: World, b: World, p: Path) {
    && (p in a.disk <==> p in b.disk) && (p in a.disk ==> a.disk[p] == b.disk[p])
    && (p in a.seen <==> p in b.seen) && (p in a.seen ==> a.seen[p] == b.seen[p])
  }

  lemma {:induction false} ElsewhereIsSame(w: World, change: Option<Change>, p: Path)
    requires change.Some? ==> change.value.path != p
    ensures SameAt(w, Changed(w, change), p)
  {}

  /** A call that neither writes `p` nor is recorded for it leaves it alone. */
  lemma {:induction false} BystanderIsSame(w: World, digest: Digest, e: Event, p: Path)
    requires e.Call? && Tight(e, p) && !Looks(w, digest, e, p)
    requires e.target == Some(p) && Overwrites(e.kind) ==> !Allows(w, digest, e.kind, e.target)
    ensures SameAt(w, Next(w, digest, e), p)
  {
    ElsewhereIsSame(w, e.early, p);
    ElsewhereIsSame(Changed(w, e.early), e.late, p);
    ElsewhereIsSame(Body(w, e), e.late, p);
  }

  lemma {:induction false} RefusedStep(w: World, digest: Digest, e: Event, p: Path, k: Kind)
    requires Overwrites(k) && NoNewLook(e, p) && p in w.disk && !Allows(w, digest, k, Some(p))
    ensures var next := Next(w, digest, e);
            p in next.disk && next.disk[p] == w.disk[p] && !Allows(next, digest, k, Some(p))
  {
    match e
    case Outside(change) => ElsewhereIsSame(w, Some(change), p);
    case Call(_, _, _, _, _, _) => BystanderIsSame(w, digest, e, p);
  }

  /** A readable change made behind the session's back is refused until the file is
      read again: whatever else is tried, every write and edit of it is refused and
      the file stays as it was found. */
  lemma {:induction false} RefusedUntilReread(
    disk: Disk, digest: Digest, events: seq<Event>, m: nat, n: nat, p: Path, k: Kind)
    requires m <= n <= |events| && Overwrites(k)
    requires var start := World(disk, map[]);
             var w, r := At(start, digest, events, m), LastRecorded(start, digest, events, m, p);
             p in w.disk && w.disk[p].readable && (r.None? || digest(r.value) != digest(w.disk[p].content))
    requires forall i :: m <= i < n ==> NoNewLook(events[i], p)
    ensures var start := World(disk, map[]);
            var before, after := At(start, digest, events, m), At(start, digest, events, n);
            p in after.disk && after.disk[p] == before.disk[p] && !Allows(after, digest, k, Some(p))
    decreases n
  {
    if m == n {
      AllowedIff(disk, digest, events, n, k, p);
    } else {
      RefusedUntilReread(disk, digest, events, m, n - 1, p, k);
      assert NoNewLook(events[n - 1], p);
      RefusedStep(At(World(disk, map[]), digest, events, n - 1), digest, events[n - 1], p, k);
    }
  }

  lemma {:induction false} LookAllows(w: World, digest: Digest, e: Event, p: Path, k: Kind)
    requires Looks(w, digest, e, p)
    ensures Allows(Next(w, digest, e), digest, k, Some(p))
  {}

  lemma {:induction false} OwnStepAllows(w: World, digest: Digest, e: Event, p: Path, k: Kind)
    requires OwnStep(e, p) && Overwrites(k) && Allows(w, digest, k, Some(p))
    ensures Allows(Next(w, digest, e), digest, k, Some(p))
  {
    if e.Outside? {
      ElsewhereIsSame(w, Some(e.change), p);
    } else if Looks(w, digest, e, p) {
      LookAllows(w, digest, e, p, k);
    } else {
      BystanderIsSame(w, digest, e, p);
    }
  }

  /** The session's own writes never stand in its way: after a successful read,
      write or edit of a file, and until something else changes it, the next write
      or edit is allowed. */
  lemma {:induction false} OwnWritesAreNeverRefused(
    w: World, digest: Digest, events: seq<Event>, m: nat, n: nat, p: Path, k: Kind)
    requires m < n <= |events| && Overwrites(k)
    requires Looks(At(w, digest, events, m), digest, events[m], p)
    requires forall i :: m < i < n ==> OwnStep(events[i], p)
    ensures Allows(At(w, digest, events, n), digest, k, Some(p))
    decreases n
  {
    if n > m + 1 {
      OwnWritesAreNeverRefused(w, digest, events, m, n - 1, p, k);
      assert OwnStep(events[n - 1], p);
      OwnStepAllows(At(w, digest, events, n - 1), digest, events[n - 1], p, k);
    } else {
      LookAllows(At(w, digest, events, m), digest, events[m], p, k);
    }
  }

  /** Something the session itself does, or something that happens elsewhere: any
      call that does not fail half-way through a write of `p`. */
  predicate OwnStep(e: Event, p: Path) {
    match e
    case Outside(change) => change.path != p
    case Call(kind, target, ok, _, _, _) => Tight(e, p) && (target == Some(p) && Overwrites(kind) ==> ok)
  }

  /** What a file is read for: after a successful read of a readable file, by whatever
      program it was written, the session may write and edit it until something else
      changes it; and so after a successful write or edit of its own. */
  lemma {:induction false} LookedAtIsAllowed(
    w: World, digest: Digest, events: seq<Event>, look: Kind, file: Option<File>, p: Path, k: Kind)
    requires |events| > 0 && (look == ReadFile || look == WriteFile || look == EditFile)
    requires events[0] == Call(look, Some(p), true, file, None, None)
    requires look == ReadFile || Allows(w, digest, look, Some(p))
    requires k == WriteFile || k == EditFile
    requires forall i :: 0 < i < |events| ==> OwnStep(events[i], p)
    ensures Allows(At(w, digest, events, |events|), digest, k, Some(p))
  {
    assert At(w, digest, events, 0) == w;
    OwnWritesAreNeverRefused(w, digest, events, 0, |events|, p, k);
  }
}
