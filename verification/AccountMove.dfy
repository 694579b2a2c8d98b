/** Moving a session's transcript to another account on a file system where any operation may fail:
  * write the target through a temporary file, rename the source aside, and undo when that fails. */
module AccountMove {
  import opened Letters
  import opened Options

  type Bytes = seq<nat>

  /** `dir` is canonical: two accounts whose directories resolve to one place have one `dir`. */
  datatype Path = Path(dir: string, name: string)

  datatype File = File(bytes: Bytes, mtime: int, inode: int)

  /** What the n-th operation meets. A write that fails may leave a partial file behind. */
  datatype Fault = Fine | Fails(partial: Option<nat>)

  /** `seen`: the files after every operation so far, so a crash between operations is covered too. */
  datatype Disk = Disk(files: map<Path, File>, clock: int, faults: nat -> Fault, ops: nat, seen: seq<map<Path, File>>)

  // ----- operations -----

  function Done(d: Disk, files: map<Path, File>): Disk { d.(files := files, ops := d.ops + 1, seen := d.seen + [files]) }

  predicate Ok(d: Disk) { d.faults(d.ops) == Fine }

  /** `mkdir -p` and `chmod`: no file is read or changed. */
  function Harmless(d: Disk): (Disk, bool) { (Done(d, d.files), Ok(d)) }

  function Prefix(b: Bytes, n: nat): Bytes { if n <= |b| then b[..n] else b }

  function WriteFile(d: Disk, p: Path, b: Bytes): (Disk, bool) {
    var at := d.clock + 1;
    match d.faults(d.ops)
    case Fine => (Done(d.(clock := at), d.files[p := File(b, at, at)]), true)
    case Fails(None) => (Done(d, d.files), false)
    case Fails(Some(n)) => (Done(d.(clock := at), d.files[p := File(Prefix(b, n), at, at)]), false)
  }

  function Rename(d: Disk, a: Path, b: Path): (Disk, bool) {
    if Ok(d) && a in d.files then (Done(d, (d.files - {a})[b := d.files[a]]), true) else (Done(d, d.files), false)
  }

  /** `rm` with `force`: a missing file is not an error. */
  function Rm(d: Disk, p: Path): (Disk, bool) {
    if Ok(d) then (Done(d, d.files - {p}), true) else (Done(d, d.files), false)
  }

  function ReadFile(d: Disk, p: Path): (Disk, Option<Bytes>) {
    (Done(d, d.files), if Ok(d) && p in d.files then Some(d.files[p].bytes) else None)
  }

  /** `existsSync` answers false to any error. */
  function Exists(d: Disk, p: Path): (Disk, bool) { (Done(d, d.files), Ok(d) && p in d.files) }

  function Stat(d: Disk, p: Path): (Disk, Option<File>) {
    (Done(d, d.files), if Ok(d) && p in d.files then Some(d.files[p]) else None)
  }

  function Utimes(d: Disk, p: Path, mtime: int): (Disk, bool) {
    if Ok(d) && p in d.files then (Done(d, d.files[p := d.files[p].(mtime := mtime)]), true) else (Done(d, d.files), false)
  }

  // ----- the move -----

  datatype Move = Move(from: string, to: string, sessionId: string, stamp: string, pid: string)

  function Source(m: Move): Path { Path(m.from, m.sessionId + ".jsonl") }
  function Target(m: Move): Path { Path(m.to, m.sessionId + ".jsonl") }
  function MovedSource(m: Move): Path { Path(m.from, Source(m).name + ".moved-" + m.stamp) }
  function Tmp(m: Move): Path { Path(m.to, Target(m).name + ".tmp-" + m.pid) }

  predicate IdChar(c: char) { 'A' <= c <= 'Z' || 'a' <= c <= 'z' || '0' <= c <= '9' || c == '_' || c == '-' }
  predicate SessionIdShape(id: string) { 1 <= |id| <= 128 && forall i :: 0 <= i < |id| ==> IdChar(id[i]) }

  /** The try block of `writeAtomic`. */
  function Replace(d: Disk, m: Move, b: Bytes): (Disk, bool) {
    var (d1, wrote) := WriteFile(d, Tmp(m), b);
    if !wrote then (d1, false)
    else
      var (d2, moded) := Harmless(d1);
      if !moded then (d2, false) else Rename(d2, Tmp(m), Target(m))
  }

  /** How a write through the temporary file ends. A failed clean-up throws even after the rename. */
  datatype Written = Unwritten | Uncleaned | Clean

  function WriteAtomic(d: Disk, m: Move, b: Bytes): (Disk, Written) {
    var (d1, made) := Harmless(d);
    if !made then (d1, Unwritten)
    else
      var (d2, replaced) := Replace(d1, m, b);
      var (d3, cleaned) := Rm(d2, Tmp(m));
      (d3, if !replaced then Unwritten else if cleaned then Clean else Uncleaned)
  }

  datatype Snapshot = Nothing | Had(bytes: Bytes, mtime: int)

  /** None when a read throws. */
  function TakeSnapshot(d: Disk, m: Move): (Disk, Option<Snapshot>) {
    var (d1, there) := Exists(d, Target(m));
    if !there then (d1, Some(Nothing))
    else
      var (d2, bytes) := ReadFile(d1, Target(m));
      if bytes.None? then (d2, None)
      else
        var (d3, stat) := Stat(d2, Target(m));
        (d3, if stat.None? then None else Some(Had(bytes.value, stat.value.mtime)))
  }

  function Restore(d: Disk, m: Move, previous: Snapshot): (Disk, bool) {
    if previous.Nothing? then Rm(d, Target(m))
    else
      var (d1, w) := WriteAtomic(d, m, previous.bytes);
      if w != Clean then (d1, false) else Utimes(d1, Target(m), previous.mtime)
  }

  datatype Refusal = UnusableId | SameTranscript | NoTranscript | NewerAtTarget

  /** Which part threw. `RetireFailed` says whether the rollback worked. */
  datatype Outcome =
    | Moved(bytes: nat)
    | Blocked(why: Refusal)
    | ReadFailed
    | WriteFailed(how: Written)
    | RetireFailed(rolledBack: bool)

  function CopyThenRetire(d: Disk, m: Move): (Disk, Outcome) {
    var (d1, bytes) := ReadFile(d, Source(m));
    if bytes.None? then (d1, ReadFailed)
    else
      var (d2, previous) := TakeSnapshot(d1, m);
      if previous.None? then (d2, ReadFailed)
      else
        var (d3, w) := WriteAtomic(d2, m, bytes.value);
        if w != Clean then (d3, WriteFailed(w))
        else
          var (d4, renamed) := Rename(d3, Source(m), MovedSource(m));
          if renamed then (d4, Moved(|bytes.value|))
          else
            var (d5, restored) := Restore(d4, m, previous.value);
            (d5, RetireFailed(restored))
  }

  function TranscriptMoveBlocker(d: Disk, m: Move): (Disk, Option<Refusal>) {
    if !SessionIdShape(m.sessionId) then (d, Some(UnusableId))
    else if Source(m) == Target(m) then (d, Some(SameTranscript))
    else
      var (d1, x) := Stat(d, Source(m));
      var (d2, y) := if x.None? then (d1, None) else Stat(d1, Target(m));
      if x.Some? && y.Some? && x.value.inode == y.value.inode then (d2, Some(SameTranscript))
      else
        var (d3, source) := Stat(d2, Source(m));
        if source.None? then (d3, Some(NoTranscript))
        else
          var (d4, target) := Stat(d3, Target(m));
          (d4, if target.Some? && target.value.mtime > source.value.mtime then Some(NewerAtTarget) else None)
  }

  function MoveTranscript(d: Disk, m: Move): (Disk, Outcome) {
    var (d1, refusal) := TranscriptMoveBlocker(d, m);
    if refusal.Some? then (d1, Blocked(refusal.value)) else CopyThenRetire(d1, m)
  }

  /** A session id is usable exactly when it is one to 128 letters, digits, dashes and underscores, and so one segment
    * of a path. */
  lemma UsableIdIs(id: string)
    ensures SessionIdShape(id) <==> 0 < |id| < 129 && forall c :: c in id ==> c in LOWER + UPPER + DIGITS + "_-"
    ensures SessionIdShape(id) ==> '/' !in id && '.' !in id
  {
    forall c: char ensures IdChar(c) <==> c in LOWER + UPPER + DIGITS + "_-" {
      IsOneDigit(c);
      IsOneLower(c);
      IsOneUpper(c);
    }
    assert forall i :: 0 <= i < |id| ==> id[i] in id;
  }

  // ----- what each part leaves alone -----

  /** `e` only appended to what `d` had seen, and every state since satisfies what is asked of it. */
  ghost predicate Since(d: Disk, e: Disk, bytes: Bytes, m: Move) {
    |d.seen| <= |e.seen| && e.seen[..|d.seen|] == d.seen && e.faults == d.faults && d.clock <= e.clock
    && forall k :: |d.seen| <= k < |e.seen| ==> Survives(e.seen[k], bytes, m)
  }

  /** The transcript is under its own name or the moved one. */
  predicate Survives(files: map<Path, File>, bytes: Bytes, m: Move) {
    (Source(m) in files && files[Source(m)].bytes == bytes)
    || (MovedSource(m) in files && files[MovedSource(m)].bytes == bytes)
  }

  /** Everything but the target and the temporary file is as it was. */
  ghost predicate OnlyTarget(d: Disk, e: Disk, m: Move) {
    forall p :: p != Target(m) && p != Tmp(m) ==>
      (p in e.files <==> p in d.files) && (p in d.files ==> e.files[p] == d.files[p])
  }

  lemma SinceThen(d: Disk, e: Disk, f: Disk, bytes: Bytes, m: Move)
    requires Since(d, e, bytes, m) && Since(e, f, bytes, m)
    ensures Since(d, f, bytes, m)
  {
    forall k | |d.seen| <= k < |f.seen| ensures Survives(f.seen[k], bytes, m) {
      if k < |e.seen| { assert f.seen[..|e.seen|][k] == e.seen[k]; }
    }
    assert f.seen[..|d.seen|] == f.seen[..|e.seen|][..|d.seen|];
  }

  /** One operation that leaves the transcript somewhere. */
  lemma OneOperation(d: Disk, e: Disk, bytes: Bytes, m: Move)
    requires e.seen == d.seen + [e.files] && e.faults == d.faults && d.clock <= e.clock && Survives(e.files, bytes, m)
    ensures Since(d, e, bytes, m)
  {
  }

  predicate SameAt(d: Disk, e: Disk, p: Path) {
    (p in e.files <==> p in d.files) && (p in d.files ==> e.files[p] == d.files[p])
  }

  /** A target written after time `t` with these bytes. */
  predicate WrittenAfter(e: Disk, m: Move, b: Bytes, t: int) {
    Target(m) in e.files && e.files[Target(m)].bytes == b && e.files[Target(m)].mtime > t
  }

  lemma ReplaceEnds(d: Disk, m: Move, b: Bytes, kept: Bytes)
    requires Source(m) != Target(m) && Survives(d.files, kept, m)
    ensures var (e, replaced) := Replace(d, m, b);
            && Since(d, e, kept, m) && OnlyTarget(d, e, m) && Survives(e.files, kept, m)
            && (if replaced then WrittenAfter(e, m, b, d.clock) else SameAt(d, e, Target(m)))
  {
    var (d1, wrote) := WriteFile(d, Tmp(m), b);
    OneOperation(d, d1, kept, m);
    if wrote {
      var (d2, moded) := Harmless(d1);
      OneOperation(d1, d2, kept, m);
      SinceThen(d, d1, d2, kept, m);
      if moded {
        var (d3, renamed) := Rename(d2, Tmp(m), Target(m));
        OneOperation(d2, d3, kept, m);
        SinceThen(d, d2, d3, kept, m);
      }
    }
  }

  lemma WriteAtomicEnds(d: Disk, m: Move, b: Bytes, kept: Bytes)
    requires Source(m) != Target(m) && Survives(d.files, kept, m)
    ensures var (e, w) := WriteAtomic(d, m, b);
            && Since(d, e, kept, m) && OnlyTarget(d, e, m) && Survives(e.files, kept, m)
            && (if w == Unwritten then SameAt(d, e, Target(m)) else WrittenAfter(e, m, b, d.clock))
            && (w == Clean ==> Tmp(m) !in e.files)
  {
    var (d1, made) := Harmless(d);
    OneOperation(d, d1, kept, m);
    if made {
      ReplaceEnds(d1, m, b, kept);
      var (d2, replaced) := Replace(d1, m, b);
      SinceThen(d, d1, d2, kept, m);
      var (d3, cleaned) := Rm(d2, Tmp(m));
      OneOperation(d2, d3, kept, m);
      SinceThen(d, d2, d3, kept, m);
    }
  }

  lemma SnapshotEnds(d: Disk, m: Move, kept: Bytes)
    requires Survives(d.files, kept, m)
    ensures var (e, previous) := TakeSnapshot(d, m);
            && Since(d, e, kept, m) && e.files == d.files && e.clock == d.clock
            && (previous.Some? && previous.value.Had? ==>
                  Ok(d) && Target(m) in d.files && d.files[Target(m)].bytes == previous.value.bytes
                  && d.files[Target(m)].mtime == previous.value.mtime)
            && (previous == Some(Nothing) && Target(m) in d.files ==> !Ok(d))
  {
    var (d1, there) := Exists(d, Target(m));
    OneOperation(d, d1, kept, m);
    if there {
      var (d2, bytes) := ReadFile(d1, Target(m));
      OneOperation(d1, d2, kept, m);
      SinceThen(d, d1, d2, kept, m);
      if bytes.Some? {
        var (d3, stat) := Stat(d2, Target(m));
        OneOperation(d2, d3, kept, m);
        SinceThen(d, d2, d3, kept, m);
      }
    }
  }

  /** The target holds exactly what the snapshot recorded, its time included. */
  predicate Holds(e: Disk, m: Move, previous: Snapshot) {
    match previous
    case Nothing => Target(m) !in e.files
    case Had(bytes, mtime) => Target(m) in e.files && e.files[Target(m)].bytes == bytes && e.files[Target(m)].mtime == mtime
  }

  predicate NewerThan(e: Disk, m: Move, t: int) { Target(m) in e.files && e.files[Target(m)].mtime > t }

  lemma RestoreEnds(d: Disk, m: Move, previous: Snapshot, kept: Bytes, t: int)
    requires Source(m) != Target(m) && Survives(d.files, kept, m) && NewerThan(d, m, t) && t <= d.clock
    ensures var (e, restored) := Restore(d, m, previous);
            && Since(d, e, kept, m) && OnlyTarget(d, e, m) && Survives(e.files, kept, m)
            && (if restored then Holds(e, m, previous) else NewerThan(e, m, t))
  {
    if previous.Nothing? {
      OneOperation(d, Rm(d, Target(m)).0, kept, m);
    } else {
      WriteAtomicEnds(d, m, previous.bytes, kept);
      var (d1, w) := WriteAtomic(d, m, previous.bytes);
      if w == Clean {
        var (d2, set_) := Utimes(d1, Target(m), previous.mtime);
        OneOperation(d1, d2, kept, m);
        SinceThen(d, d1, d2, kept, m);
      }
    }
  }

  // ----- how a move ends -----

  /** What each outcome says about the files, against the disk the move started from. */
  ghost predicate EndsAs(d: Disk, e: Disk, m: Move, outcome: Outcome)
    requires Source(m) in d.files
  {
    match outcome
    case Moved(n) =>
      && n == |d.files[Source(m)].bytes|
      && WrittenAfter(e, m, d.files[Source(m)].bytes, d.clock)
      && Source(m) !in e.files && MovedSource(m) in e.files && e.files[MovedSource(m)] == d.files[Source(m)]
      && Tmp(m) !in e.files
    case Blocked(_) => e.files == d.files
    case ReadFailed => e.files == d.files
    case WriteFailed(Unwritten) => OnlyTarget(d, e, m) && SameAt(d, e, Target(m))
    case WriteFailed(_) => OnlyTarget(d, e, m) && outcome.how == Uncleaned && NewerThan(e, m, d.clock)
    case RetireFailed(true) =>
      OnlyTarget(d, e, m) && exists previous :: Holds(e, m, previous) && Recorded(d, m, previous)
    case RetireFailed(false) => OnlyTarget(d, e, m) && NewerThan(e, m, d.clock)
  }

  /** The snapshot is of the target, or of nothing where `existsSync` does not see one. */
  predicate Recorded(d: Disk, m: Move, previous: Snapshot) {
    match previous
    case Had(bytes, mtime) => SeesTarget(d, m) && d.files[Target(m)].bytes == bytes && d.files[Target(m)].mtime == mtime
    case Nothing => !SeesTarget(d, m)
  }

  lemma CopyEnds(d: Disk, m: Move)
    requires Source(m) != Target(m) && Source(m) in d.files
    ensures var (e, outcome) := CopyThenRetire(d, m);
            Since(d, e, d.files[Source(m)].bytes, m) && EndsAs(d, e, m, outcome)
  {
    var kept := d.files[Source(m)].bytes;
    var (d1, bytes) := ReadFile(d, Source(m));
    OneOperation(d, d1, kept, m);
    if bytes.Some? {
      SnapshotEnds(d1, m, kept);
      var (d2, previous) := TakeSnapshot(d1, m);
      SinceThen(d, d1, d2, kept, m);
      if previous.Some? {
        WriteAtomicEnds(d2, m, kept, kept);
        var (d3, w) := WriteAtomic(d2, m, kept);
        SinceThen(d, d2, d3, kept, m);
        if w == Clean { RetireEnds(d, d3, m, previous.value); }
      }
    }
  }

  /** From a clean write on: the rename, or the rollback. */
  lemma RetireEnds(d: Disk, d3: Disk, m: Move, previous: Snapshot)
    requires Source(m) != Target(m) && Source(m) in d.files && Recorded(d, m, previous)
    requires Since(d, d3, d.files[Source(m)].bytes, m) && OnlyTarget(d, d3, m) && Tmp(m) !in d3.files
    requires WrittenAfter(d3, m, d.files[Source(m)].bytes, d.clock)
    ensures var (d4, renamed) := Rename(d3, Source(m), MovedSource(m));
            if renamed then Since(d, d4, d.files[Source(m)].bytes, m) && EndsAs(d, d4, m, Moved(|d.files[Source(m)].bytes|))
            else var (d5, restored) := Restore(d4, m, previous);
                 Since(d, d5, d.files[Source(m)].bytes, m) && EndsAs(d, d5, m, RetireFailed(restored))
  {
    var kept := d.files[Source(m)].bytes;
    var (d4, renamed) := Rename(d3, Source(m), MovedSource(m));
    OneOperation(d3, d4, kept, m);
    SinceThen(d, d3, d4, kept, m);
    if !renamed {
      RestoreEnds(d4, m, previous, kept, d.clock);
      SinceThen(d, d4, Restore(d4, m, previous).0, kept, m);
    }
  }

  lemma BlockerReadsOnly(d: Disk, m: Move, kept: Bytes)
    requires Survives(d.files, kept, m)
    ensures var (e, _) := TranscriptMoveBlocker(d, m); Since(d, e, kept, m) && e.files == d.files && e.clock == d.clock
  {
    if SessionIdShape(m.sessionId) && Source(m) != Target(m) {
      var (d1, x) := Stat(d, Source(m));
      OneOperation(d, d1, kept, m);
      var (d2, y) := if x.None? then (d1, None) else Stat(d1, Target(m));
      if x.Some? {
        OneOperation(d1, d2, kept, m);
        SinceThen(d, d1, d2, kept, m);
      }
      var (d3, source) := Stat(d2, Source(m));
      OneOperation(d2, d3, kept, m);
      SinceThen(d, d2, d3, kept, m);
      var (d4, target) := Stat(d3, Target(m));
      OneOperation(d3, d4, kept, m);
      SinceThen(d, d3, d4, kept, m);
    }
  }

  /** Whatever fails, and wherever the process dies: the transcript's bytes are at the source or the
    * moved name after every single operation, and the outcome says exactly what became of the target. */
  lemma MoveNeverLosesTheTranscript(d: Disk, m: Move)
    requires Source(m) in d.files
    ensures var (e, outcome) := MoveTranscript(d, m);
            var checked := TranscriptMoveBlocker(d, m).0;
            && Since(d, e, d.files[Source(m)].bytes, m)
            && checked.files == d.files && checked.clock == d.clock && EndsAs(checked, e, m, outcome)
  {
    var kept := d.files[Source(m)].bytes;
    BlockerReadsOnly(d, m, kept);
    var (d1, refusal) := TranscriptMoveBlocker(d, m);
    if refusal.None? {
      CopyEnds(d1, m);
      SinceThen(d, d1, CopyThenRetire(d1, m).0, kept, m);
    }
  }

  /** A move that succeeds has put the bytes at `<session>.jsonl` in the target's directory, and left in the source's
    * only the file as it was, under its name with `.moved-<time>`. */
  lemma MovedTo(d: Disk, m: Move)
    requires Source(m) in d.files && MoveTranscript(d, m).1.Moved?
    ensures var (e, file) := (MoveTranscript(d, m).0, m.sessionId + ".jsonl");
            var (source, target, moved) := (Path(m.from, file), Path(m.to, file), Path(m.from, file + ".moved-" + m.stamp));
            && source in d.files && source !in e.files && moved in e.files && e.files[moved] == d.files[source]
            && target in e.files && e.files[target].bytes == d.files[source].bytes
            && (forall p :: p in e.files && p != moved && p != target ==> p in d.files)
            && forall p :: p in d.files && p != source && p != target && p != moved && p.name != file + ".tmp-" + m.pid ==>
                 p in e.files && e.files[p] == d.files[p]
  {
    MoveNeverLosesTheTranscript(d, m);
    MovedLeavesRest(TranscriptMoveBlocker(d, m).0, m);
  }

  lemma MovedLeavesRest(d: Disk, m: Move)
    requires Source(m) in d.files && Source(m) != Target(m) && CopyThenRetire(d, m).1.Moved?
    ensures var e := CopyThenRetire(d, m).0;
            && Tmp(m) !in e.files
            && forall p :: p != Source(m) && p != MovedSource(m) && p != Target(m) && p != Tmp(m) ==>
                 (p in e.files <==> p in d.files) && (p in d.files ==> e.files[p] == d.files[p])
  {
    var kept := d.files[Source(m)].bytes;
    CopyEnds(d, m);
    var (d1, bytes) := ReadFile(d, Source(m));
    OneOperation(d, d1, kept, m);
    SnapshotEnds(d1, m, kept);
    var (d2, previous) := TakeSnapshot(d1, m);
    WriteAtomicEnds(d2, m, kept, kept);
  }

  // ----- retrying -----

  predicate NewerAtTargetNow(d: Disk, m: Move) {
    Source(m) in d.files && Target(m) in d.files && d.files[Target(m)].mtime > d.files[Source(m)].mtime
  }

  predicate Clocked(d: Disk) { forall p :: p in d.files ==> d.files[p].mtime <= d.clock }

  predicate FineAt(d: Disk, n: nat) { d.faults(n) == Fine }

  ghost predicate FineBetween(d: Disk, a: nat, b: nat) { forall k :: a <= k < b ==> FineAt(d, k) }

  /** Whether `existsSync`, the second operation, sees the target. */
  predicate SeesTarget(d: Disk, m: Move) { FineAt(d, d.ops + 1) && Target(m) in d.files }

  /** The first operation of the write: after the source's bytes, the target's existence, and, if it is seen, its
    * bytes and its time. */
  function WriteAt(d: Disk, m: Move): nat { d.ops + if SeesTarget(d, m) then 4 else 2 }

  /** The operation after the rollback's last, which removes the target or writes it back and sets its time. */
  function RollbackEnd(d: Disk, m: Move): nat { WriteAt(d, m) + if SeesTarget(d, m) then 12 else 7 }

  /** The target is replaced: every read and write up to its rename works. */
  ghost predicate Replaced(d: Disk, m: Move) {
    FineAt(d, d.ops) && FineBetween(d, d.ops + 2, WriteAt(d, m) + 4)
  }

  /** The failures after which a retry is refused, all told by what the operations will meet: the target is
    * replaced, and then the clean-up of the temporary file fails, or the clean-up works, the source's rename
    * fails and so does some operation of the rollback. */
  ghost predicate BlocksRetry(d: Disk, m: Move) {
    var n := WriteAt(d, m);
    Replaced(d, m)
    && (!FineAt(d, n + 4) || (!FineAt(d, n + 5) && !FineBetween(d, n + 6, RollbackEnd(d, m))))
  }

  /** The failures after which the rollback works: the target is replaced, the clean-up works, and only then does the
    * source's rename fail. */
  ghost predicate RollsBack(d: Disk, m: Move) {
    var n := WriteAt(d, m);
    Replaced(d, m) && FineAt(d, n + 4) && !FineAt(d, n + 5) && FineBetween(d, n + 6, RollbackEnd(d, m))
  }

  lemma WriteAtomicMeets(d: Disk, m: Move, b: Bytes)
    ensures var (e, w) := WriteAtomic(d, m, b);
            && e.faults == d.faults && (w != Unwritten ==> e.ops == d.ops + 5)
            && (w == Unwritten <==> !FineBetween(d, d.ops, d.ops + 4))
            && (w == Clean <==> FineBetween(d, d.ops, d.ops + 5))
  {
    FourAndOne(d, d.ops);
  }

  lemma FourAndOne(d: Disk, n: nat)
    ensures FineBetween(d, n, n + 4) <==> FineAt(d, n) && FineAt(d, n + 1) && FineAt(d, n + 2) && FineAt(d, n + 3)
    ensures FineBetween(d, n, n + 5) <==> FineBetween(d, n, n + 4) && FineAt(d, n + 4)
  {
  }

  lemma SnapshotMeets(d: Disk, m: Move)
    ensures var (e, previous) := TakeSnapshot(d, m);
            var there := FineAt(d, d.ops) && Target(m) in d.files;
            && e.faults == d.faults && e.files == d.files
            && (previous.None? <==> there && !(FineAt(d, d.ops + 1) && FineAt(d, d.ops + 2)))
            && (previous.Some? ==> (previous.value.Had? <==> there) && e.ops == d.ops + if there then 3 else 1)
  {
  }

  lemma RestoreMeets(d: Disk, m: Move, previous: Snapshot)
    ensures Restore(d, m, previous).1 <==> FineBetween(d, d.ops, d.ops + if previous.Had? then 6 else 1)
  {
    OneFine(d, d.ops);
    if previous.Had? {
      WriteAtomicMeets(d, m, previous.bytes);
      FiveAndOne(d, d.ops);
    }
  }

  lemma OneFine(d: Disk, n: nat)
    ensures FineBetween(d, n, n + 1) <==> FineAt(d, n)
  {
  }

  lemma FiveAndOne(d: Disk, n: nat)
    ensures FineBetween(d, n, n + 6) <==> FineBetween(d, n, n + 5) && FineAt(d, n + 5)
  {
  }

  /** The write, the source's rename and the rollback, from operation `n` of `d` on. */
  lemma RetireMeets(d: Disk, d2: Disk, m: Move, b: Bytes, previous: Snapshot)
    requires Source(m) != Target(m) && Source(m) in d2.files && d2.faults == d.faults
    ensures var n := d2.ops;
            var (d3, w) := WriteAtomic(d2, m, b);
            var (d4, renamed) := Rename(d3, Source(m), MovedSource(m));
            && (w == Uncleaned <==> FineBetween(d, n, n + 4) && !FineAt(d, n + 4))
            && (w == Clean <==> FineBetween(d, n, n + 4) && FineAt(d, n + 4))
            && (w == Clean ==> (renamed <==> FineAt(d, n + 5)))
            && (w == Clean && !renamed ==>
                  (Restore(d4, m, previous).1 <==> FineBetween(d, n + 6, n + if previous.Had? then 12 else 7)))
  {
    WriteAtomicMeets(d2, m, b);
    FourAndOne(d, d2.ops);
    SameFaults(d, d2, d2.ops);
    var (d3, w) := WriteAtomic(d2, m, b);
    if w == Clean {
      var (d4, renamed) := Rename(d3, Source(m), MovedSource(m));
      RestoreMeets(d4, m, previous);
      SameFaults(d, d4, d4.ops);
    }
  }

  lemma SameFaults(d: Disk, e: Disk, n: nat)
    requires e.faults == d.faults
    ensures forall k: nat :: FineBetween(e, n, k) <==> FineBetween(d, n, k)
  {
    forall k: nat
      ensures FineBetween(e, n, k) <==> FineBetween(d, n, k)
    {
      assert forall j: nat :: FineAt(e, j) <==> FineAt(d, j);
    }
  }

  lemma OutcomeMeets(d: Disk, m: Move)
    requires Source(m) != Target(m) && Source(m) in d.files
    ensures var outcome := CopyThenRetire(d, m).1;
            && (outcome == WriteFailed(Uncleaned) || outcome == RetireFailed(false) <==> BlocksRetry(d, m))
            && (outcome == RetireFailed(true) <==> RollsBack(d, m))
  {
    var (d1, bytes) := ReadFile(d, Source(m));
    var (d2, previous) := TakeSnapshot(d1, m);
    SnapshotMeets(d1, m);
    assert FineAt(d1, d.ops + 1) == FineAt(d, d.ops + 1) && FineAt(d1, d.ops + 2) == FineAt(d, d.ops + 2);
    assert FineAt(d1, d.ops + 3) == FineAt(d, d.ops + 3);
    if bytes.Some? && previous.Some? {
      assert d2.ops == WriteAt(d, m) && (previous.value.Had? <==> SeesTarget(d, m));
      assert Replaced(d, m) <==> FineBetween(d, d2.ops, d2.ops + 4);
      RetireMeets(d, d2, m, bytes.value, previous.value);
    }
  }

  /** A failed move leaves the source to retry from. A retry is refused as "newer" exactly after the failures listed,
    * which are those that replace the target and do not put it back. */
  lemma RetryRefusedIff(d: Disk, m: Move)
    requires Source(m) != Target(m) && Source(m) in d.files && Clocked(d) && !NewerAtTargetNow(d, m)
    ensures var (e, outcome) := CopyThenRetire(d, m);
            && (NewerAtTargetNow(e, m) <==> BlocksRetry(d, m))
            && (outcome.Moved? || (Source(m) in e.files && e.files[Source(m)] == d.files[Source(m)]))
            && (BlocksRetry(d, m) <==> outcome == WriteFailed(Uncleaned) || outcome == RetireFailed(false))
  {
    CopyEnds(d, m);
    OutcomeMeets(d, m);
  }

  /** What the retry then says, when its own reads work. */
  lemma NewerIsRefused(d: Disk, m: Move)
    requires SessionIdShape(m.sessionId) && Source(m) != Target(m) && Source(m) in d.files && FineBetween(d, d.ops, d.ops + 4)
    requires Target(m) in d.files ==> d.files[Source(m)].inode != d.files[Target(m)].inode
    ensures TranscriptMoveBlocker(d, m).1 == if NewerAtTargetNow(d, m) then Some(NewerAtTarget) else None
  {
    FourAndOne(d, d.ops);
  }

  /** The target is as it was, in bytes and time. */
  predicate TargetKept(d: Disk, e: Disk, m: Move) {
    && (Target(m) in e.files <==> Target(m) in d.files)
    && (Target(m) in d.files ==>
          e.files[Target(m)].bytes == d.files[Target(m)].bytes && e.files[Target(m)].mtime == d.files[Target(m)].mtime)
  }

  /** A failed move leaves the target as it was exactly when nothing blocks the retry and no rollback took a target
    * that was there for one that was not, `existsSync` having met an error. */
  lemma TargetKeptIff(d: Disk, m: Move)
    requires Source(m) != Target(m) && Source(m) in d.files && Clocked(d)
    ensures var (e, outcome) := CopyThenRetire(d, m);
            !outcome.Moved? ==>
              (TargetKept(d, e, m) <==> !BlocksRetry(d, m) && (RollsBack(d, m) && Target(m) in d.files ==> FineAt(d, d.ops + 1)))
  {
    CopyEnds(d, m);
    OutcomeMeets(d, m);
  }

  /** What a rollback that works leaves: the target of before, or, where `existsSync` saw none, no target. */
  lemma RolledBackTo(d: Disk, m: Move)
    requires Source(m) != Target(m) && Source(m) in d.files && RollsBack(d, m)
    ensures var (e, outcome) := CopyThenRetire(d, m);
            && outcome == RetireFailed(true)
            && if SeesTarget(d, m) then TargetKept(d, e, m) else Target(m) !in e.files
  {
    CopyEnds(d, m);
    OutcomeMeets(d, m);
  }

  /** So "a failed rename puts the target back" is false of the source: an error of `existsSync`, the second operation,
    * and one of the source's rename, the eighth, lose a target that was there, and the rollback says it worked. */
  lemma UnseenTargetIsLost(d: Disk, m: Move)
    requires Source(m) != Target(m) && Source(m) in d.files && Target(m) in d.files
    requires forall k: nat :: FineAt(d, k) <==> k != d.ops + 1 && k != d.ops + 7
    ensures var (e, outcome) := CopyThenRetire(d, m); outcome == RetireFailed(true) && Target(m) !in e.files
  {
    RolledBackTo(d, m);
  }

  ghost predicate FailsOnlyAt(d: Disk, n: nat) { forall k: nat :: d.faults(k) == if k == n then Fails(None) else Fine }

  /** So "a failed move can be retried" is false of the source: with no target yet, a failure of the
    * seventh operation, clearing away the temporary name, leaves the new target in place and no rollback. */
  lemma CleanUpFailureBlocksRetry(d: Disk, m: Move)
    requires Source(m) != Target(m) && Source(m) in d.files && Target(m) !in d.files && Clocked(d) && FailsOnlyAt(d, d.ops + 6)
    ensures var (e, outcome) := CopyThenRetire(d, m); outcome == WriteFailed(Uncleaned) && NewerAtTargetNow(e, m)
  {
    var (d1, bytes) := ReadFile(d, Source(m));
    var (d2, previous) := TakeSnapshot(d1, m);
    var (d3, made) := Harmless(d2);
    var (d4, wrote) := WriteFile(d3, Tmp(m), bytes.value);
    var (d5, moded) := Harmless(d4);
    var (d6, renamed) := Rename(d5, Tmp(m), Target(m));
    assert renamed && d6.ops == d.ops + 6;
    assert WriteAtomic(d2, m, bytes.value).1 == Uncleaned;
    RetryRefusedIff(d, m);
  }

  // ----- the source's statements -----

  /** A disk that is changed in place, one operation at a time. An operation that throws answers false or None. */
  class FileSystem {
    var files: map<Path, File>
    var clock: int
    const faults: nat -> Fault
    var ops: nat
    ghost var seen: seq<map<Path, File>>

    ghost function S(): Disk
      reads this
    {
      Disk(files, clock, faults, ops, seen)
    }

    constructor (files: map<Path, File>, clock: int, faults: nat -> Fault)
      ensures S() == Disk(files, clock, faults, 0, [])
    {
      this.files, this.clock, this.faults := files, clock, faults;
      ops, seen := 0, [];
    }

    method Count()
      modifies this`ops, this`seen
      ensures ops == old(ops) + 1 && seen == old(seen) + [files]
    {
      ops := ops + 1;
      seen := seen + [files];
    }

    method HarmlessSync() returns (ok: bool)
      modifies this
      ensures (S(), ok) == Harmless(old(S()))
    {
      ok := faults(ops) == Fine;
      Count();
    }

    method WriteFileSync(p: Path, b: Bytes) returns (ok: bool)
      modifies this
      ensures (S(), ok) == WriteFile(old(S()), p, b)
    {
      var fault := faults(ops);
      ok := fault == Fine;
      if ok || fault.partial.Some? {
        clock := clock + 1;
        files := files[p := File(if ok then b else Prefix(b, fault.partial.value), clock, clock)];
      }
      Count();
    }

    method RenameSync(a: Path, b: Path) returns (ok: bool)
      modifies this
      ensures (S(), ok) == Rename(old(S()), a, b)
    {
      ok := faults(ops) == Fine && a in files;
      if ok { files := (files - {a})[b := files[a]]; }
      Count();
    }

    method RmSync(p: Path) returns (ok: bool)
      modifies this
      ensures (S(), ok) == Rm(old(S()), p)
    {
      ok := faults(ops) == Fine;
      if ok { files := files - {p}; }
      Count();
    }

    method ReadFileSync(p: Path) returns (bytes: Option<Bytes>)
      modifies this
      ensures (S(), bytes) == ReadFile(old(S()), p)
    {
      bytes := if faults(ops) == Fine && p in files then Some(files[p].bytes) else None;
      Count();
    }

    method StatSync(p: Path) returns (stat: Option<File>)
      modifies this
      ensures (S(), stat) == Stat(old(S()), p)
    {
      stat := if faults(ops) == Fine && p in files then Some(files[p]) else None;
      Count();
    }

    method UtimesSync(p: Path, mtime: int) returns (ok: bool)
      modifies this
      ensures (S(), ok) == Utimes(old(S()), p, mtime)
    {
      ok := faults(ops) == Fine && p in files;
      if ok { files := files[p := files[p].(mtime := mtime)]; }
      Count();
    }

    /** `writeAtomic`: the clean-up runs whether or not the body threw, and its own throw counts. */
    method WriteThroughTmp(m: Move, b: Bytes) returns (w: Written)
      modifies this
      ensures (S(), w) == WriteAtomic(old(S()), m, b)
    {
      var ok := HarmlessSync();
      if !ok { return Unwritten; }
      ok := WriteFileSync(Tmp(m), b);
      if ok { ok := HarmlessSync(); }
      if ok { ok := RenameSync(Tmp(m), Target(m)); }
      var cleaned := RmSync(Tmp(m));
      w := if !ok then Unwritten else if cleaned then Clean else Uncleaned;
    }

    method SnapshotOf(m: Move) returns (previous: Option<Snapshot>)
      modifies this
      ensures (S(), previous) == TakeSnapshot(old(S()), m)
    {
      var there := StatSync(Target(m));
      if there.None? { return Some(Nothing); }
      var bytes := ReadFileSync(Target(m));
      if bytes.None? { return None; }
      var stat := StatSync(Target(m));
      previous := if stat.None? then None else Some(Had(bytes.value, stat.value.mtime));
    }

    method PutBack(m: Move, previous: Snapshot) returns (ok: bool)
      modifies this
      ensures (S(), ok) == Restore(old(S()), m, previous)
    {
      if previous.Nothing? {
        ok := RmSync(Target(m));
        return;
      }
      var w := WriteThroughTmp(m, previous.bytes);
      if w != Clean { return false; }
      ok := UtimesSync(Target(m), previous.mtime);
    }

    method CopyAndRetire(m: Move) returns (outcome: Outcome)
      modifies this
      ensures (S(), outcome) == CopyThenRetire(old(S()), m)
    {
      var bytes := ReadFileSync(Source(m));
      if bytes.None? { return ReadFailed; }
      var previous := SnapshotOf(m);
      if previous.None? { return ReadFailed; }
      var w := WriteThroughTmp(m, bytes.value);
      if w != Clean { return WriteFailed(w); }
      var renamed := RenameSync(Source(m), MovedSource(m));
      if renamed { return Moved(|bytes.value|); }
      var restored := PutBack(m, previous.value);
      outcome := RetireFailed(restored);
    }

    method Blocker(m: Move) returns (refusal: Option<Refusal>)
      modifies this
      ensures (S(), refusal) == TranscriptMoveBlocker(old(S()), m)
    {
      if !SessionIdShape(m.sessionId) { return Some(UnusableId); }
      if Source(m) == Target(m) { return Some(SameTranscript); }
      var x := StatSync(Source(m));
      if x.Some? {
        var y := StatSync(Target(m));
        if y.Some? && x.value.inode == y.value.inode { return Some(SameTranscript); }
      }
      var source := StatSync(Source(m));
      if source.None? { return Some(NoTranscript); }
      var target := StatSync(Target(m));
      refusal := if target.Some? && target.value.mtime > source.value.mtime then Some(NewerAtTarget) else None;
    }

    method Run(m: Move) returns (outcome: Outcome)
      modifies this
      ensures (S(), outcome) == MoveTranscript(old(S()), m)
    {
      var refusal := Blocker(m);
      if refusal.Some? { return Blocked(refusal.value); }
      outcome := CopyAndRetire(m);
    }
  }
}
