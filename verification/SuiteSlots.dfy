/** The full-suite test slots: processes racing over a directory of slot directories, one system call at a time.
  * A process believes it holds a slot from reading its own pid back until it starts to release. */
module SuiteSlots {
  import opened Options
  import opened Decimals

  const OWNERLESS_GRACE_MS: nat := 10_000

  /** A pid file: the pid in it, if it was written, and (for the proof) who made it. */
  datatype File = File(pid: Option<nat>, maker: nat)

  /** A slot directory: which pid file is in it, its mtime, and (for the proof) who made it. */
  datatype Dir = Dir(file: Option<nat>, touched: int, maker: nat)

  /** What a process does next. `at` is when its directory was last touched, `file` a pid file it has open:
    * `Opened` to write its pid, `Rereading` and `Checking` to read it back, after writing it and before removing it.
    * From `Judging` to `Clearing` it judges a slot it could not make: it reads the owner, then asks whether that
    * process is alive, or, with no owner read at time `since`, reads the clock (as `asOf`) and then the directory's
    * mtime. */
  datatype Pc =
    | Idle
    | Trying(i: nat)
    | Made(i: nat, at: int)
    | Opened(i: nat, at: int, file: nat)
    | Written(i: nat)
    | Rereading(i: nat, file: nat)
    | Judging(i: nat)
    | Reading(i: nat, file: nat)
    | Probing(i: nat, owner: nat)
    | Unowned(i: nat, since: int)
    | Timed(i: nat, since: int, asOf: int)
    | Clearing(i: nat)
    | Holding(i: nat)
    | Checking(i: nat, file: nat)
    | Releasing(i: nat)
    | Emptied(i: nat, at: int)

  /** The slot directories in place, and every pid file ever made. `atomic`: the whole stale check and the rename
    * happen as one step. The source has them as several. */
  datatype World = World(total: nat, atomic: bool, slots: map<nat, Dir>, files: seq<File>, procs: map<nat, Pc>,
                         dead: set<nat>, now: int)

  /** A process makes its next system call, or dies; or time passes. */
  datatype Event = Call(p: nat) | Die(p: nat) | Tick(ms: nat)

  function PcOf(w: World, p: nat): Pc { if p in w.procs then w.procs[p] else Idle }

  predicate Alive(w: World, p: nat) { p !in w.dead }

  function Start(total: nat, atomic: bool): World { World(total, atomic, map[], [], map[], {}, 0) }

  /** A directory just made by `p`, and as yet without a file. */
  function NewDir(p: nat, now: int): Dir { Dir(None, now, p) }

  function PidIn(w: World, file: nat): Option<nat> { if file < |w.files| then w.files[file].pid else None }

  function FileAt(w: World, i: nat): Option<nat> { if i in w.slots then w.slots[i].file else None }

  /** What `ownerOf` reads, were it one step. */
  function OwnerOf(w: World, i: nat): Option<nat> { if FileAt(w, i).Some? then PidIn(w, FileAt(w, i).value) else None }

  /** `isStale`, were it one read: a missing slot is never stale, since its age reads as 0. */
  predicate Stale(w: World, i: nat) {
    i in w.slots &&
    match OwnerOf(w, i)
    case None => w.now - w.slots[i].touched > OWNERLESS_GRACE_MS
    case Some(pid) => !Alive(w, pid)
  }

  function Goto(w: World, p: nat, pc: Pc): World { w.(procs := w.procs[p := pc]) }

  /** `tryAcquireSlot` moves to the next index, or gives up after the last. */
  function Next(w: World, i: nat): Pc { if i + 1 < w.total then Trying(i + 1) else Idle }

  /** The pid read after `pid` is written at the start of a file: of a longer one before, the last digits stay. */
  function Overlaid(before: Option<nat>, pid: nat): nat {
    if before.None? || |Decimal(before.value)| <= |Decimal(pid)| then pid
    else Value(Decimal(pid) + Decimal(before.value)[|Decimal(pid)|..])
  }

  function Put(w: World, file: nat, pid: Option<nat>): World {
    if file < |w.files| then w.(files := w.files[file := w.files[file].(pid := pid)]) else w
  }

  /** Opening to write makes the pid file, which is when the directory's mtime moves, or empties the one there. */
  function OpenFile(w: World, p: nat, i: nat): World
    requires i in w.slots
  {
    if w.slots[i].file.Some? then Put(w, w.slots[i].file.value, None)
    else w.(slots := w.slots[i := w.slots[i].(file := Some(|w.files|), touched := w.now)], files := w.files + [File(None, p)])
  }

  /** What the next system call of `p` does to the directories and files. */
  function Effect(w: World, p: nat): World {
    match PcOf(w, p)
    case Trying(i) => if i in w.slots then w else w.(slots := w.slots[i := NewDir(p, w.now)])
    case Made(i, _) => if i in w.slots then OpenFile(w, p, i) else w
    case Opened(_, _, file) => Put(w, file, Some(Overlaid(PidIn(w, file), p)))
    case Judging(i) => if w.atomic && Stale(w, i) then w.(slots := w.slots - {i}) else w
    case Clearing(i) => w.(slots := w.slots - {i})
    case Releasing(i) =>
      if FileAt(w, i).Some? then w.(slots := w.slots[i := w.slots[i].(file := None, touched := w.now)]) else w
    case Emptied(i, _) => if i in w.slots && w.slots[i].file.None? then w.(slots := w.slots - {i}) else w
    case _ => w
  }

  /** Where it leaves `p`. One at `Idle` starts to try for a slot, and one at `Holding` to release it. */
  function After(w: World, p: nat): Pc {
    match PcOf(w, p)
    case Idle => if w.total == 0 then Idle else Trying(0)
    case Trying(i) => if i in w.slots then Judging(i) else Made(i, w.now)
    case Made(i, _) =>
      if i !in w.slots then Next(w, i)
      else Opened(i, w.now, if w.slots[i].file.Some? then w.slots[i].file.value else |w.files|)
    case Opened(i, _, _) => Written(i)
    case Written(i) => if FileAt(w, i).Some? then Rereading(i, FileAt(w, i).value) else Next(w, i)
    case Rereading(i, file) => if PidIn(w, file) == Some(p) then Holding(i) else Next(w, i)
    case Judging(i) =>
      if w.atomic then Next(w, i)
      else if FileAt(w, i).Some? then Reading(i, FileAt(w, i).value)
      else Unowned(i, w.now)
    case Reading(i, file) => if PidIn(w, file).Some? then Probing(i, PidIn(w, file).value) else Unowned(i, w.now)
    case Probing(i, owner) => if Alive(w, owner) then Next(w, i) else Clearing(i)
    case Unowned(i, since) => Timed(i, since, w.now)
    case Timed(i, _, asOf) =>
      if i in w.slots && asOf - w.slots[i].touched > OWNERLESS_GRACE_MS then Clearing(i) else Next(w, i)
    case Clearing(i) => Next(w, i)
    case Holding(i) => if FileAt(w, i).Some? then Checking(i, FileAt(w, i).value) else Idle
    case Checking(i, file) => if PidIn(w, file) == Some(p) then Releasing(i) else Idle
    case Releasing(i) => if i in w.slots then Emptied(i, w.now) else Idle
    case Emptied(_, _) => Idle
  }

  function Act(w: World, p: nat): World { Goto(Effect(w, p), p, After(w, p)) }

  function Step(w: World, e: Event): World {
    match e
    case Tick(ms) => w.(now := w.now + ms)
    case Die(p) => w.(dead := w.dead + {p})
    case Call(p) => if Alive(w, p) then Act(w, p) else w
  }

  function Run(w: World, events: seq<Event>): World
    decreases |events|
  {
    if events == [] then w else Run(Step(w, events[0]), events[1..])
  }

  // ----- what is promised -----

  predicate Holds(w: World, p: nat, i: nat) { Alive(w, p) && PcOf(w, p) == Holding(i) }

  ghost predicate Exclusive(w: World) {
    forall p, q, i :: Holds(w, p, i) && Holds(w, q, i) ==> p == q
  }

  /** The live processes that believe they hold some slot. */
  function Holders(w: World): set<nat> { set p | p in w.procs && Alive(w, p) && w.procs[p].Holding? }

  // ----- what it takes -----

  /** Its directory has no pid file in it. */
  predicate Empty(pc: Pc) { pc.Made? || pc.Emptied? }

  /** It has opened its pid file to write it, and not yet again to read it. */
  predicate Signing(pc: Pc) { pc.Opened? || pc.Written? }

  /** Inside a slot: from making its directory until removing it. */
  predicate Inside(pc: Pc) {
    Empty(pc) || Signing(pc) || pc.Rereading? || pc.Holding? || pc.Checking? || pc.Releasing?
  }

  predicate LiveInside(w: World, p: nat, i: nat) { Alive(w, p) && Inside(PcOf(w, p)) && PcOf(w, p).i == i }

  /** A rename takes away the directory of a live process that is still inside, and not just signing it. */
  predicate Displaces(w: World, e: Event) {
    e.Call? && Alive(w, e.p) && PcOf(w, e.p).Clearing?
    && var i := PcOf(w, e.p).i; i in w.slots && LiveInside(w, w.slots[i].maker, i) && !Signing(PcOf(w, w.slots[i].maker))
  }

  /** What a run may do: for how long a live process may leave a directory without a pid file in it (having made it, or
    * having emptied it, before it is removed), and for how long a pid file without a pid; how much time a judge may let
    * pass between reading no owner and reading the clock; and whether processes die or renames displace anyone. */
  datatype Rules = Rules(open: Option<nat>, write: Option<nat>, judge: Option<nat>, deaths: bool, displacing: bool)

  predicate Within(now: int, since: int, limit: Option<nat>) { limit.None? || now <= since + limit.value }

  ghost predicate Allows(r: Rules, w: World, e: Event) {
    match e
    case Tick(ms) =>
      forall p :: Alive(w, p) ==>
        && (Empty(PcOf(w, p)) ==> Within(w.now + ms, PcOf(w, p).at, r.open))
        && (PcOf(w, p).Opened? ==> Within(w.now + ms, PcOf(w, p).at, r.write))
        && (PcOf(w, p).Unowned? ==> Within(w.now + ms, PcOf(w, p).since, r.judge))
    case Die(_) => r.deaths
    case _ => r.displacing || !Displaces(w, e)
  }

  ghost predicate Follows(r: Rules, w: World, events: seq<Event>)
    decreases |events|
  {
    events == [] || (Allows(r, w, events[0]) && Follows(r, Step(w, events[0]), events[1..]))
  }

  /** No live process leaves a directory without a pid file for longer than the grace, and no rename displaces anyone;
    * processes may die, and take their time to write. */
  const BEHAVED := Rules(Some(OWNERLESS_GRACE_MS), None, None, true, false)

  /** The pid file in the directory of process `p` at `pc`. */
  predicate FileOk(w: World, pc: Pc, p: nat, file: Option<nat>) {
    if pc.Made? || pc.Emptied? then file.None?
    else
      && file.Some? && file.value < |w.files|
      && w.files[file.value] == File(if pc.Opened? then None else Some(p), p)
      && (pc.Opened? || pc.Rereading? || pc.Checking? ==> file == Some(pc.file))
  }

  ghost predicate InsideOk(w: World, p: nat) {
    var pc := PcOf(w, p);
    Alive(w, p) && Inside(pc) ==>
      && pc.i < w.total && pc.i in w.slots
      && w.slots[pc.i].maker == p
      && FileOk(w, pc, p, w.slots[pc.i].file)
      && (Empty(pc) || pc.Opened? ==> pc.at == w.slots[pc.i].touched && pc.at <= w.now)
      && (Empty(pc) ==> w.now <= pc.at + OWNERLESS_GRACE_MS)
  }

  predicate InRange(w: World, pc: Pc) { pc.Idle? || pc.i < w.total }

  /** The pid file was made by another. */
  predicate Foreign(w: World, p: nat, file: nat) { file < |w.files| && w.files[file].maker != p }

  /** A process whose directory was renamed away after it opened its pid file to write it, and which will find
    * another's, or none, to read back. */
  predicate Ousted(w: World, p: nat) {
    var pc := PcOf(w, p);
    && Alive(w, p) && (Signing(pc) || pc.Rereading?) && pc.i < w.total && (pc.i in w.slots ==> w.slots[pc.i].maker != p)
    && match pc
       case Opened(i, _, file) =>
         file < |w.files| && w.files[file] == File(None, p) && (FileAt(w, i).Some? ==> Foreign(w, p, FileAt(w, i).value))
       case Written(i) => FileAt(w, i).Some? ==> Foreign(w, p, FileAt(w, i).value)
       case _ => Foreign(w, p, pc.file)
  }

  /** A pid file holds its maker's pid, if any. */
  predicate FileSigned(f: File) { f.pid.None? || f.pid == Some(f.maker) }

  ghost predicate FilesOk(w: World) {
    (forall f :: 0 <= f < |w.files| ==> FileSigned(w.files[f]))
    && (forall i :: i in w.slots && w.slots[i].file.Some? ==> w.slots[i].file.value < |w.files|)
  }

  /** Every live process is inside its directory, or will read back another's pid, or none, and try elsewhere. */
  ghost predicate Inv(w: World) {
    (forall p :: InsideOk(w, p) || Ousted(w, p)) && (forall p :: p in w.procs ==> InRange(w, w.procs[p])) && FilesOk(w)
  }

  lemma OwnStepInside(w: World, p: nat)
    requires Alive(w, p) && InsideOk(w, p) && (p in w.procs ==> InRange(w, w.procs[p]))
    ensures InsideOk(Act(w, p), p)
  {
    var pc := PcOf(w, p);
    if pc.Made? {
      OwnOpen(w, p);
    } else if pc.Opened? {
      OwnWrite(w, p);
    } else if pc.Written? || pc.Rereading? || pc.Holding? || pc.Checking? {
      OwnRead(w, p);
    }
  }

  lemma OwnRead(w: World, p: nat)
    requires Alive(w, p) && InsideOk(w, p)
    requires var pc := PcOf(w, p); pc.Written? || pc.Rereading? || pc.Holding? || pc.Checking?
    ensures InsideOk(Act(w, p), p)
  {
    assert Effect(w, p) == w;
  }

  lemma OwnOpen(w: World, p: nat)
    requires Alive(w, p) && InsideOk(w, p) && PcOf(w, p).Made?
    ensures InsideOk(Act(w, p), p)
  {
  }

  lemma OwnWrite(w: World, p: nat)
    requires Alive(w, p) && InsideOk(w, p) && PcOf(w, p).Opened?
    ensures InsideOk(Act(w, p), p)
  {
    assert Effect(w, p) == Put(w, PcOf(w, p).file, Some(p));
  }

  lemma OwnStepOusted(w: World, p: nat)
    requires Ousted(w, p) && FilesOk(w)
    ensures InsideOk(Act(w, p), p) || Ousted(Act(w, p), p)
  {
    match PcOf(w, p)
    case Opened(i, at, file) => assert Act(w, p) == Goto(Put(w, file, Some(p)), p, Written(i));
    case Written(i) =>
    case Rereading(i, file) => assert FileSigned(w.files[file]);
    case _ =>
  }

  ghost predicate UsedBy(w: World, p: nat, i: nat) { LiveInside(w, p, i) && InsideOk(w, p) }

  /** What a step of `p` from `w` to `v` leaves as it was: the others, their files, and the directories they are in. */
  ghost predicate Spares(w: World, v: World, p: nat) {
    SparesOthers(w, v, p) && SparesFiles(w, v, p) && SparesDirs(w, v, p) && PutsOwnFiles(w, v, p)
    && MakesOwnDirs(w, v, p)
  }

  ghost predicate SparesOthers(w: World, v: World, p: nat) {
    v.total == w.total && v.dead == w.dead && v.now == w.now && forall q :: q != p ==> PcOf(v, q) == PcOf(w, q)
  }

  ghost predicate SparesFiles(w: World, v: World, p: nat) {
    && |w.files| <= |v.files|
    && (forall f :: 0 <= f < |w.files| ==> v.files[f].maker == w.files[f].maker)
    && (forall f :: 0 <= f < |w.files| && w.files[f].maker != p ==> v.files[f] == w.files[f])
  }

  ghost predicate SparesDirs(w: World, v: World, p: nat) {
    forall i :: i in w.slots && w.slots[i].maker != p && UsedBy(w, w.slots[i].maker, i) ==>
      if i in v.slots then v.slots[i] == w.slots[i] else Signing(PcOf(w, w.slots[i].maker))
  }

  ghost predicate PutsOwnFiles(w: World, v: World, p: nat) {
    forall i :: FileAt(v, i).Some? ==>
      FileAt(v, i) == FileAt(w, i) || (FileAt(v, i).value < |v.files| && v.files[FileAt(v, i).value].maker == p)
  }

  ghost predicate MakesOwnDirs(w: World, v: World, p: nat) {
    forall i :: i in v.slots ==> v.slots[i].maker == p || (i in w.slots && v.slots[i].maker == w.slots[i].maker)
  }

  lemma ActSparesOthers(w: World, p: nat)
    ensures SparesOthers(w, Act(w, p), p)
  {
  }

  lemma ActSparesFiles(w: World, p: nat)
    requires InsideOk(w, p) || Ousted(w, p)
    requires Alive(w, p)
    ensures SparesFiles(w, Act(w, p), p)
  {
  }

  lemma ActSparesDir(w: World, p: nat, i: nat)
    requires InsideOk(w, p) || Ousted(w, p)
    requires i in w.slots && w.slots[i].maker != p && UsedBy(w, w.slots[i].maker, i)
    requires Alive(w, p) && !Displaces(w, Call(p))
    ensures if i in Act(w, p).slots then Act(w, p).slots[i] == w.slots[i] else Signing(PcOf(w, w.slots[i].maker))
  {
  }

  lemma ActSparesDirs(w: World, p: nat)
    requires InsideOk(w, p) || Ousted(w, p)
    requires Alive(w, p) && !Displaces(w, Call(p))
    ensures SparesDirs(w, Act(w, p), p)
  {
    forall i | i in w.slots && w.slots[i].maker != p && UsedBy(w, w.slots[i].maker, i)
      ensures if i in Act(w, p).slots then Act(w, p).slots[i] == w.slots[i] else Signing(PcOf(w, w.slots[i].maker))
    {
      ActSparesDir(w, p, i);
    }
  }

  lemma ActPutsOwnFiles(w: World, p: nat)
    requires InsideOk(w, p) || Ousted(w, p)
    requires Alive(w, p)
    ensures PutsOwnFiles(w, Act(w, p), p)
  {
  }

  lemma ActMakesOwnDirs(w: World, p: nat)
    ensures MakesOwnDirs(w, Act(w, p), p)
  {
  }

  lemma ActSpares(w: World, p: nat)
    requires Inv(w) && Alive(w, p) && !Displaces(w, Call(p))
    ensures Spares(w, Act(w, p), p)
  {
    ActSparesOthers(w, p);
    assert InsideOk(w, p) || Ousted(w, p);
    ActSparesFiles(w, p);
    ActSparesDirs(w, p);
    ActPutsOwnFiles(w, p);
    ActMakesOwnDirs(w, p);
  }

  lemma InsideStays(w: World, v: World, p: nat, q: nat)
    requires Spares(w, v, p) && InsideOk(w, q) && q != p
    ensures InsideOk(v, q) || Ousted(v, q)
  {
    assert Alive(w, q) && Inside(PcOf(w, q)) ==> UsedBy(w, q, PcOf(w, q).i);
  }

  lemma OustedStays(w: World, v: World, p: nat, q: nat)
    requires Spares(w, v, p) && Ousted(w, q) && q != p
    ensures Ousted(v, q)
  {
  }

  lemma ActSigns(w: World, p: nat, f: nat)
    requires InsideOk(w, p) || Ousted(w, p)
    requires Alive(w, p) && f < |Act(w, p).files| && (f < |w.files| ==> FileSigned(w.files[f]))
    ensures FileSigned(Act(w, p).files[f])
  {
  }

  lemma FilesStay(w: World, p: nat)
    requires Inv(w) && Alive(w, p) && Spares(w, Act(w, p), p)
    ensures FilesOk(Act(w, p))
  {
    var v := Act(w, p);
    assert InsideOk(w, p) || Ousted(w, p);
    forall f | 0 <= f < |v.files| ensures FileSigned(v.files[f]) { ActSigns(w, p, f); }
    forall i | i in v.slots && v.slots[i].file.Some? ensures v.slots[i].file.value < |v.files| {
      assert FileAt(v, i).Some?;
    }
  }

  lemma RangeStays(w: World, p: nat)
    requires InRange(w, PcOf(w, p))
    ensures InRange(Act(w, p), PcOf(Act(w, p), p))
  {
  }

  lemma ActKeepsInv(w: World, p: nat)
    requires Inv(w) && Alive(w, p) && !Displaces(w, Call(p))
    ensures Inv(Act(w, p))
  {
    ActSpares(w, p);
    forall q
      ensures InsideOk(Act(w, p), q) || Ousted(Act(w, p), q)
    {
      if q == p {
        if InsideOk(w, q) { OwnStepInside(w, q); } else { OwnStepOusted(w, q); }
      } else if InsideOk(w, q) {
        InsideStays(w, Act(w, p), p, q);
      } else {
        OustedStays(w, Act(w, p), p, q);
      }
    }
    FilesStay(w, p);
    RangeStays(w, p);
    forall q | q in Act(w, p).procs ensures InRange(Act(w, p), Act(w, p).procs[q]) {
      assert Act(w, p).procs[q] == PcOf(Act(w, p), q);
    }
  }

  lemma TickKeepsInv(w: World, ms: nat)
    requires Inv(w) && Allows(BEHAVED, w, Tick(ms))
    ensures Inv(Step(w, Tick(ms)))
  {
    var v := Step(w, Tick(ms));
    forall p
      ensures InsideOk(w, p) ==> InsideOk(v, p)
      ensures Ousted(w, p) ==> Ousted(v, p)
    {
    }
  }

  lemma DieKeepsInv(w: World, q: nat)
    requires Inv(w)
    ensures Inv(Step(w, Die(q)))
  {
    var v := Step(w, Die(q));
    forall p
      ensures InsideOk(w, p) ==> InsideOk(v, p)
      ensures Ousted(w, p) ==> InsideOk(v, p) || Ousted(v, p)
    {
    }
  }

  lemma StepKeepsInv(w: World, e: Event)
    requires Inv(w) && Allows(BEHAVED, w, e)
    ensures Inv(Step(w, e))
  {
    match e
    case Tick(ms) => TickKeepsInv(w, ms);
    case Die(p) => DieKeepsInv(w, p);
    case Call(p) => if Alive(w, p) { ActKeepsInv(w, p); }
  }

  lemma {:induction false} RunKeepsInv(w: World, events: seq<Event>)
    requires Inv(w) && Follows(BEHAVED, w, events)
    ensures Inv(Run(w, events))
    decreases |events|
  {
    if events != [] {
      StepKeepsInv(w, events[0]);
      RunKeepsInv(Step(w, events[0]), events[1..]);
    }
  }

  lemma InvExcludes(w: World)
    requires Inv(w)
    ensures Exclusive(w)
  {
    forall p, q, i | Holds(w, p, i) && Holds(w, q, i) ensures p == q {
      assert (InsideOk(w, p) || Ousted(w, p)) && (InsideOk(w, q) || Ousted(w, q));
    }
  }

  /** Under every interleaving whose directories are without a pid within the grace and whose renames displace nobody, at
    * most one live process believes it holds any one slot. */
  lemma BehavedRunsExclude(total: nat, atomic: bool, events: seq<Event>)
    requires Follows(BEHAVED, Start(total, atomic), events)
    ensures Exclusive(Run(Start(total, atomic), events))
  {
    RunKeepsInv(Start(total, atomic), events);
    InvExcludes(Run(Start(total, atomic), events));
  }

  /** Hence no more holders than slots. */
  lemma HoldersFitSlots(w: World)
    requires Inv(w)
    ensures |Holders(w)| <= w.total
  {
    var seats := Seats(w.total);
    forall p | p in Holders(w) ensures w.procs[p].i in seats { assert InsideOk(w, p) || Ousted(w, p); }
    InvExcludes(w);
    assert forall p, q :: p in Holders(w) && q in Holders(w) && w.procs[p].i == w.procs[q].i ==>
      Holds(w, p, w.procs[p].i) && Holds(w, q, w.procs[p].i);
    OneSeatEach(w, Holders(w), seats);
  }

  function Seats(n: nat): (seats: set<nat>)
    ensures |seats| == n && forall i: nat :: i in seats <==> i < n
  {
    if n == 0 then {} else Seats(n - 1) + {n - 1}
  }

  lemma {:induction false} OneSeatEach(w: World, ps: set<nat>, seats: set<nat>)
    requires ps <= Holders(w) && forall p :: p in ps ==> w.procs[p].i in seats
    requires forall p, q :: p in ps && q in ps && w.procs[p].i == w.procs[q].i ==> p == q
    ensures |ps| <= |seats|
    decreases ps
  {
    if p :| p in ps {
      OneSeatEach(w, ps - {p}, seats - {w.procs[p].i});
    }
  }

  // ----- three ways to meet the hypothesis -----

  /** A slot that is still stale when it is renamed holds nobody. */
  lemma StaleDisplacesNobody(w: World, p: nat)
    requires Inv(w) && PcOf(w, p).Clearing? && Stale(w, PcOf(w, p).i)
    ensures !Displaces(w, Call(p))
  {
    if PcOf(w, p).i in w.slots {
      var q := w.slots[PcOf(w, p).i].maker;
      assert InsideOk(w, q) || Ousted(w, q);
    }
  }

  /** Processes may die, renames may displace, and a directory is without a pid file for up to `open`. */
  function Lateness(open: nat): Rules { Rules(Some(open), None, None, true, true) }

  /** A judge between opening the pid file and the rename. */
  predicate Judges(pc: Pc) { pc.Reading? || pc.Probing? || pc.Unowned? || pc.Timed? || pc.Clearing? }

  ghost predicate NobodyJudges(w: World) { forall p :: !Judges(PcOf(w, p)) }

  lemma {:induction false} AtomicBehaves(w: World, open: nat, events: seq<Event>)
    requires w.atomic && open <= OWNERLESS_GRACE_MS && NobodyJudges(w) && Follows(Lateness(open), w, events)
    ensures Follows(BEHAVED, w, events)
    decreases |events|
  {
    if events != [] {
      NobodyStartsToJudge(w, events[0]);
      AtomicBehaves(Step(w, events[0]), open, events[1..]);
    }
  }

  lemma NobodyStartsToJudge(w: World, e: Event)
    requires w.atomic && NobodyJudges(w)
    ensures NobodyJudges(Step(w, e)) && Step(w, e).atomic && !Displaces(w, e)
  {
    var v := Step(w, e);
    forall p ensures !Judges(PcOf(v, p)) { assert !Judges(PcOf(w, p)); }
  }

  /** With check and rename in one step, deaths and all, it is enough to open the pid file, and to remove an emptied
    * directory, within the grace; the pid may be written as late as one likes. */
  lemma AtomicClearsExclude(total: nat, open: nat, events: seq<Event>)
    requires open <= OWNERLESS_GRACE_MS && Follows(Lateness(open), Start(total, true), events)
    ensures Exclusive(Run(Start(total, true), events))
  {
    AtomicBehaves(Start(total, true), open, events);
    BehavedRunsExclude(total, true, events);
  }

  /** Nobody dies, a directory is without a pid file for up to `open`, a pid file without a pid for up to `write`, and a
    * judge takes up to `judge` between its reads. */
  function Slowness(open: nat, write: nat, judge: nat): Rules { Rules(Some(open), Some(write), Some(judge), false, true) }

  /** Limits under which a judge never finds a live process's slot old. */
  datatype Limits = Limits(open: nat, write: nat, judge: nat)

  predicate Safe(l: Limits) { l.open <= OWNERLESS_GRACE_MS && l.write + l.judge <= OWNERLESS_GRACE_MS }

  function Slow(l: Limits): Rules { Slowness(l.open, l.write, l.judge) }

  /** Every directory is being used by the live process that made it. */
  ghost predicate Peopled(w: World) { forall i :: i in w.slots ==> LiveInside(w, w.slots[i].maker, i) }

  ghost predicate InTime(w: World, l: Limits) { forall p :: OneInTime(w, p, l) }

  predicate OneInTime(w: World, p: nat, l: Limits) {
    var pc := PcOf(w, p);
    (Empty(pc) ==> w.now <= pc.at + l.open) && (pc.Opened? ==> w.now <= pc.at + l.write)
  }

  /** Slot `i` has no pid file, or has not been touched since longer than `write` before `since`. */
  predicate Fresher(w: World, i: nat, since: int, write: nat) {
    i in w.slots ==> w.slots[i].touched >= since - write || w.slots[i].file.None?
  }

  /** A judge that read no owner cannot find the slot old. */
  predicate JudgeOk(w: World, p: nat, l: Limits) {
    match PcOf(w, p)
    case Reading(i, file) => file < |w.files| && (w.files[file].pid.None? ==> FileAt(w, i) == Some(file))
    case Unowned(i, since) => since <= w.now <= since + l.judge && Fresher(w, i, since, l.write)
    case Timed(i, since, asOf) => since <= w.now && asOf <= w.now && asOf <= since + l.judge && Fresher(w, i, since, l.write)
    case Clearing(_) => false
    case _ => true
  }

  ghost predicate Deathless(w: World, l: Limits) {
    && Safe(l) && Inv(w) && (forall p :: InsideOk(w, p)) && w.dead == {} && !w.atomic && Peopled(w) && InTime(w, l)
    && forall p :: JudgeOk(w, p, l)
  }

  /** The directory of another stays, as nobody clears. */
  lemma DirStays(w: World, p: nat, i: nat)
    requires InsideOk(w, p) && !PcOf(w, p).Clearing? && !w.atomic && Alive(w, p)
    requires i in w.slots && w.slots[i].maker != p && UsedBy(w, w.slots[i].maker, i)
    ensures i in Act(w, p).slots
  {
  }

  lemma InsideStaysWith(w: World, v: World, p: nat, q: nat)
    requires Spares(w, v, p) && InsideOk(w, q) && q != p
    requires Alive(w, q) && Inside(PcOf(w, q)) ==> PcOf(w, q).i in v.slots
    ensures InsideOk(v, q)
  {
    assert Alive(w, q) && Inside(PcOf(w, q)) ==> UsedBy(w, q, PcOf(w, q).i);
  }

  lemma StaysInside(w: World, e: Event, q: nat, l: Limits)
    requires Deathless(w, l) && Allows(Slow(l), w, e)
    ensures InsideOk(Step(w, e), q)
  {
    assert InsideOk(w, q);
    match e
    case Tick(ms) => assert Alive(w, q);
    case Die(_) =>
    case Call(p) =>
      assert InsideOk(w, p) && JudgeOk(w, p, l);
      if q == p {
        OwnStepInside(w, p);
      } else {
        ActSpares(w, p);
        if Alive(w, q) && Inside(PcOf(w, q)) { DirStays(w, p, PcOf(w, q).i); }
        InsideStaysWith(w, Act(w, p), p, q);
      }
  }

  lemma SlotStaysPeopled(w: World, e: Event, i: nat, l: Limits)
    requires Deathless(w, l) && Allows(Slow(l), w, e) && i in Step(w, e).slots
    ensures LiveInside(Step(w, e), Step(w, e).slots[i].maker, i)
  {
    if i in w.slots { assert LiveInside(w, w.slots[i].maker, i) && InsideOk(w, w.slots[i].maker); }
    if e.Call? { assert InsideOk(w, e.p) && JudgeOk(w, e.p, l); }
  }

  lemma StaysInTime(w: World, e: Event, l: Limits)
    requires w.dead == {} && InTime(w, l) && Allows(Slow(l), w, e)
    ensures InTime(Step(w, e), l)
  {
    forall p ensures OneInTime(Step(w, e), p, l) { IsInTime(w, e, p, l); }
  }

  lemma IsInTime(w: World, e: Event, p: nat, l: Limits)
    requires w.dead == {} && OneInTime(w, p, l) && Allows(Slow(l), w, e)
    ensures OneInTime(Step(w, e), p, l)
  {
    if e != Call(p) { OthersStay(w, e, p); }
    assert e.Tick? ==> Alive(w, p);
  }

  lemma OthersStay(w: World, e: Event, p: nat)
    requires e != Call(p)
    ensures PcOf(Step(w, e), p) == PcOf(w, p)
  {
  }

  lemma StaysFresher(w: World, e: Event, i: nat, since: int, write: nat)
    requires Fresher(w, i, since, write) && since <= w.now
    ensures Fresher(Step(w, e), i, since, write)
  {
  }

  /** A judge that opens the pid file opens one that is in place, or finds none. */
  lemma StartsReading(w: World, e: Event, p: nat, l: Limits)
    requires Deathless(w, l) && Allows(Slow(l), w, e) && PcOf(w, p).Judging?
    ensures JudgeOk(Step(w, e), p, l)
  {
    var i := PcOf(w, p).i;
    if i in w.slots { assert LiveInside(w, w.slots[i].maker, i) && InsideOk(w, w.slots[i].maker); }
  }

  /** And it is in place for as long as it is empty. */
  lemma StaysReading(w: World, e: Event, p: nat, l: Limits)
    requires Deathless(w, l) && PcOf(w, p).Reading? && e != Call(p)
    ensures JudgeOk(Step(w, e), p, l)
  {
    assert JudgeOk(w, p, l);
    OthersStay(w, e, p);
    if e.Call? { EmptyStaysPut(w, e.p, PcOf(w, p).i, PcOf(w, p).file, l); }
  }

  lemma EmptyStaysPut(w: World, p: nat, i: nat, file: nat, l: Limits)
    requires Deathless(w, l) && file < |w.files| && (w.files[file].pid.None? ==> FileAt(w, i) == Some(file))
    ensures file < |Act(w, p).files| && (Act(w, p).files[file].pid.None? ==> FileAt(Act(w, p), i) == Some(file))
  {
    if i in w.slots { assert LiveInside(w, w.slots[i].maker, i) && InsideOk(w, w.slots[i].maker); }
    assert InsideOk(w, p) && JudgeOk(w, p, l);
  }

  /** So a slot whose pid file has no pid was touched, as it was made, within the time to write. */
  lemma StartsUnowned(w: World, p: nat, l: Limits)
    requires Deathless(w, l) && PcOf(w, p).Reading?
    ensures JudgeOk(Step(w, Call(p)), p, l)
  {
    var Reading(i, file) := PcOf(w, p);
    assert JudgeOk(w, p, l);
    if i in w.slots {
      var q := w.slots[i].maker;
      assert LiveInside(w, q, i) && InsideOk(w, q) && OneInTime(w, q, l);
    }
  }

  lemma StaysUnowned(w: World, e: Event, p: nat, l: Limits)
    requires w.dead == {} && JudgeOk(w, p, l) && Allows(Slow(l), w, e) && PcOf(w, p).Unowned?
    ensures JudgeOk(Step(w, e), p, l)
  {
    StaysFresher(w, e, PcOf(w, p).i, PcOf(w, p).since, l.write);
    if e == Call(p) {
      assert Step(w, e) == Goto(w, p, Timed(PcOf(w, p).i, PcOf(w, p).since, w.now));
    } else {
      OthersStay(w, e, p);
      assert e.Tick? ==> Alive(w, p);
    }
  }

  /** One without a pid file is not old either, as it was made or emptied within the time to open or remove it. */
  lemma StaysTimed(w: World, e: Event, p: nat, l: Limits)
    requires Deathless(w, l) && PcOf(w, p).Timed?
    ensures JudgeOk(Step(w, e), p, l)
  {
    var i := PcOf(w, p).i;
    assert JudgeOk(w, p, l);
    StaysFresher(w, e, i, PcOf(w, p).since, l.write);
    if e != Call(p) {
      OthersStay(w, e, p);
    } else if i in w.slots {
      var q := w.slots[i].maker;
      assert LiveInside(w, q, i) && InsideOk(w, q) && OneInTime(w, q, l);
    }
  }

  lemma StartsNothing(w: World, e: Event, p: nat)
    requires w.dead == {} && !PcOf(w, p).Judging? && !NeedsCare(PcOf(w, p))
    ensures !NeedsCare(PcOf(Step(w, e), p))
  {
    if e != Call(p) { OthersStay(w, e, p); }
  }

  /** The judges `JudgeOk` speaks of. */
  predicate NeedsCare(pc: Pc) { pc.Reading? || pc.Unowned? || pc.Timed? || pc.Clearing? }

  lemma JudgeStays(w: World, e: Event, p: nat, l: Limits)
    requires Deathless(w, l) && Allows(Slow(l), w, e)
    ensures JudgeOk(Step(w, e), p, l)
  {
    assert JudgeOk(w, p, l);
    if PcOf(w, p).Judging? {
      StartsReading(w, e, p, l);
    } else if PcOf(w, p).Reading? {
      if e == Call(p) { StartsUnowned(w, p, l); } else { StaysReading(w, e, p, l); }
    } else if PcOf(w, p).Unowned? {
      StaysUnowned(w, e, p, l);
    } else if PcOf(w, p).Timed? {
      StaysTimed(w, e, p, l);
    } else {
      StartsNothing(w, e, p);
    }
  }

  lemma StaysDeathless(w: World, e: Event, l: Limits)
    requires Deathless(w, l) && Allows(Slow(l), w, e)
    ensures Deathless(Step(w, e), l) && Allows(BEHAVED, w, e)
  {
    assert e.Call? ==> JudgeOk(w, e.p, l);
    StepKeepsInv(w, e);
    StaysInTime(w, e, l);
    forall q ensures InsideOk(Step(w, e), q) { StaysInside(w, e, q, l); }
    forall p ensures JudgeOk(Step(w, e), p, l) { JudgeStays(w, e, p, l); }
    forall i | i in Step(w, e).slots
      ensures LiveInside(Step(w, e), Step(w, e).slots[i].maker, i)
    {
      SlotStaysPeopled(w, e, i, l);
    }
  }

  lemma {:induction false} DeathlessBehaves(w: World, l: Limits, events: seq<Event>)
    requires Deathless(w, l) && Follows(Slow(l), w, events)
    ensures Follows(BEHAVED, w, events)
    decreases |events|
  {
    if events != [] {
      StaysDeathless(w, events[0], l);
      DeathlessBehaves(Step(w, events[0]), l, events[1..]);
    }
  }

  /** While no process dies, a pid file is opened, and an emptied directory removed, within the grace, and writing a pid
    * and judging a slot without one together take no more than it, the source never starts to clear a slot. */
  lemma DeathlessRunsExclude(total: nat, l: Limits, events: seq<Event>)
    requires Safe(l) && Follows(Slow(l), Start(total, false), events)
    ensures Exclusive(Run(Start(total, false), events))
  {
    DeathlessBehaves(Start(total, false), l, events);
    BehavedRunsExclude(total, false, events);
  }

  // ----- runs, one step at a time -----

  ghost predicate Leads(r: Rules, u: World, v: World) { exists events :: Follows(r, u, events) && Run(u, events) == v }

  lemma {:induction false} OneMoreStep(r: Rules, u: World, events: seq<Event>, e: Event)
    requires Follows(r, u, events) && Allows(r, Run(u, events), e)
    ensures Follows(r, u, events + [e]) && Run(u, events + [e]) == Step(Run(u, events), e)
    decreases |events|
  {
    var more := events + [e];
    if events == [] {
      assert more == [e] && more[1..] == [];
    } else {
      assert more[1..] == events[1..] + [e];
      OneMoreStep(r, Step(u, events[0]), events[1..], e);
    }
  }

  lemma LeadsOn(r: Rules, u: World, v: World, e: Event)
    requires Leads(r, u, v) && Allows(r, v, e)
    ensures Leads(r, u, Step(v, e))
  {
    var events :| Follows(r, u, events) && Run(u, events) == v;
    OneMoreStep(r, u, events, e);
  }

  lemma LeadsBy(r: Rules, u: World, v: World, p: nat, w: World)
    requires Leads(r, u, v) && Alive(v, p) && (r.displacing || !Displaces(v, Call(p))) && w == Act(v, p)
    ensures Leads(r, u, w)
  {
    LeadsOn(r, u, v, Call(p));
  }

  lemma LeadsNowhere(r: Rules, u: World)
    ensures Leads(r, u, u)
  {
    assert Follows(r, u, []) && Run(u, []) == u;
  }

  /** A process that finds the slot free holds it. */
  function TakenBy(w: World, p: nat, i: nat): World {
    w.(slots := w.slots[i := Dir(Some(|w.files|), w.now, p)], files := w.files + [File(Some(p), p)],
       procs := w.procs[p := Holding(i)])
  }

  /** A process has made the directory and opened its pid file. */
  function BegunBy(w: World, p: nat, i: nat): World {
    w.(slots := w.slots[i := Dir(Some(|w.files|), w.now, p)], files := w.files + [File(None, p)],
       procs := w.procs[p := Opened(i, w.now, |w.files|)])
  }

  /** A process has written its pid into the file it opened, and read it back. */
  function SignedBy(w: World, p: nat, i: nat, file: nat): World
    requires file < |w.files|
  {
    w.(files := w.files[file := w.files[file].(pid := Some(p))], procs := w.procs[p := Holding(i)])
  }

  lemma LeadsToBegun(r: Rules, u: World, v: World, p: nat, i: nat)
    requires Leads(r, u, v) && Alive(v, p) && PcOf(v, p) == Trying(i) && i !in v.slots
    ensures Leads(r, u, BegunBy(v, p, i))
  {
    var w := v.(slots := v.slots[i := NewDir(p, v.now)], procs := v.procs[p := Made(i, v.now)]);
    LeadsBy(r, u, v, p, w);
    LeadsBy(r, u, w, p, BegunBy(v, p, i));
  }

  lemma LeadsToSigned(r: Rules, u: World, v: World, p: nat, i: nat, at: int, file: nat)
    requires Leads(r, u, v) && Alive(v, p) && PcOf(v, p) == Opened(i, at, file)
    requires FileAt(v, i) == Some(file) && file < |v.files| && v.files[file].pid.None?
    ensures Leads(r, u, SignedBy(v, p, i, file))
  {
    var w := v.(files := v.files[file := v.files[file].(pid := Some(p))], procs := v.procs[p := Written(i)]);
    LeadsBy(r, u, v, p, w);
    ReadsItself(r, u, w, p, i, file);
    assert Goto(w, p, Holding(i)) == SignedBy(v, p, i, file);
  }

  lemma ReadsItself(r: Rules, u: World, v: World, p: nat, i: nat, file: nat)
    requires Leads(r, u, v) && Alive(v, p) && PcOf(v, p) == Written(i) && FileAt(v, i) == Some(file) && PidIn(v, file) == Some(p)
    ensures Leads(r, u, Goto(v, p, Holding(i)))
  {
    LeadsBy(r, u, v, p, Goto(v, p, Rereading(i, file)));
    LeadsBy(r, u, Goto(v, p, Rereading(i, file)), p, Goto(v, p, Holding(i)));
  }

  lemma LeadsToTaken(r: Rules, u: World, v: World, p: nat, i: nat)
    requires Leads(r, u, v) && Alive(v, p) && PcOf(v, p) == Trying(i) && i !in v.slots
    ensures Leads(r, u, TakenBy(v, p, i))
  {
    LeadsToBegun(r, u, v, p, i);
    LeadsToSigned(r, u, BegunBy(v, p, i), p, i, v.now, |v.files|);
    assert SignedBy(BegunBy(v, p, i), p, i, |v.files|) == TakenBy(v, p, i);
  }

  /** A new process takes the only slot. */
  lemma LeadsToOneTaken(r: Rules, u: World, v: World, p: nat)
    requires Leads(r, u, v) && v.total == 1 && Alive(v, p) && PcOf(v, p) == Idle && v.slots == map[]
    ensures Leads(r, u, TakenBy(v, p, 0))
  {
    LeadsOn(r, u, v, Call(p));
    LeadsToTaken(r, u, Step(v, Call(p)), p, 0);
    assert TakenBy(Step(v, Call(p)), p, 0) == TakenBy(v, p, 0);
  }

  /** A new process finds the only slot taken. */
  lemma LeadsToJudging(r: Rules, u: World, v: World, p: nat)
    requires Leads(r, u, v) && v.total == 1 && Alive(v, p) && PcOf(v, p) == Idle && 0 in v.slots
    ensures Leads(r, u, Goto(v, p, Judging(0)))
  {
    var w := Step(v, Call(p));
    LeadsOn(r, u, v, Call(p));
    LeadsBy(r, u, w, p, Goto(v, p, Judging(0)));
  }

  // ----- where it fails -----

  /** One slot, whose directory process 1 made and opened its file in at 0: the file has `pid`, and processes 1 and
    * 2 are at `one` and `two`. */
  function OneSlot(pid: Option<nat>, one: Pc, two: Pc, now: int): World {
    World(1, false, map[0 := Dir(Some(0), 0, 1)], [File(pid, 1)], map[1 := one, 2 := two], {}, now)
  }

  /** A pid file is opened, and `wait` goes by. */
  lemma OpensAndWaits(r: Rules, wait: nat)
    requires r.write.Some? && wait <= r.write.value
    ensures var w := World(1, false, map[0 := Dir(Some(0), 0, 1)], [File(None, 1)], map[1 := Opened(0, 0, 0)], {}, wait);
            Leads(r, Start(1, false), w)
  {
    var u := Start(1, false);
    LeadsNowhere(r, u);
    var w1 := Goto(u, 1, Trying(0));
    LeadsBy(r, u, u, 1, w1);
    LeadsToBegun(r, u, w1, 1, 0);
    var w2 := World(1, false, map[0 := Dir(Some(0), 0, 1)], [File(None, 1)], map[1 := Opened(0, 0, 0)], {}, 0);
    assert BegunBy(w1, 1, 0) == w2;
    LeadsOn(r, u, w2, Tick(wait));
  }

  /** A judge reads no owner just before the pid is written. */
  lemma JudgesUnwritten(r: Rules, wait: nat)
    requires r.write.Some? && wait <= r.write.value
    ensures Leads(r, Start(1, false), OneSlot(Some(1), Holding(0), Unowned(0, wait), wait))
  {
    var u := Start(1, false);
    var w := World(1, false, map[0 := Dir(Some(0), 0, 1)], [File(None, 1)], map[1 := Opened(0, 0, 0)], {}, wait);
    OpensAndWaits(r, wait);
    LeadsToJudging(r, u, w, 2);
    assert Goto(w, 2, Judging(0)) == OneSlot(None, Opened(0, 0, 0), Judging(0), wait);
    ReadsNothing(r, u, wait);
    WritesMeanwhile(r, u, wait);
  }

  lemma ReadsNothing(r: Rules, u: World, wait: nat)
    requires Leads(r, u, OneSlot(None, Opened(0, 0, 0), Judging(0), wait))
    ensures Leads(r, u, OneSlot(None, Opened(0, 0, 0), Unowned(0, wait), wait))
  {
    var w1 := OneSlot(None, Opened(0, 0, 0), Judging(0), wait);
    var w2 := OneSlot(None, Opened(0, 0, 0), Reading(0, 0), wait);
    LeadsBy(r, u, w1, 2, w2);
    LeadsBy(r, u, w2, 2, OneSlot(None, Opened(0, 0, 0), Unowned(0, wait), wait));
  }

  lemma WritesMeanwhile(r: Rules, u: World, wait: nat)
    requires Leads(r, u, OneSlot(None, Opened(0, 0, 0), Unowned(0, wait), wait))
    ensures Leads(r, u, OneSlot(Some(1), Holding(0), Unowned(0, wait), wait))
  {
    var w := OneSlot(None, Opened(0, 0, 0), Unowned(0, wait), wait);
    LeadsToSigned(r, u, w, 1, 0, 0, 0);
    assert SignedBy(w, 1, 0, 0) == OneSlot(Some(1), Holding(0), Unowned(0, wait), wait);
  }

  /** It reads the clock more than the grace after the file was made, and clears a slot its live owner holds. */
  lemma ClearsHeld(open: nat, write: nat, judge: nat)
    requires write + judge > OWNERLESS_GRACE_MS
    ensures Leads(Slowness(open, write, judge), Start(1, false),
                  OneSlot(Some(1), Holding(0), Idle, write + judge).(slots := map[]))
  {
    var (r, u, w) := (Slowness(open, write, judge), Start(1, false), OneSlot(Some(1), Holding(0), Unowned(0, write), write));
    JudgesUnwritten(r, write);
    LeadsOn(r, u, w, Tick(judge));
    assert Step(w, Tick(judge)) == OneSlot(Some(1), Holding(0), Unowned(0, write), write + judge);
    ClearsAsOld(r, u, write, write + judge);
  }

  lemma ClearsAsOld(r: Rules, u: World, since: nat, late: nat)
    requires late > OWNERLESS_GRACE_MS && r.displacing && Leads(r, u, OneSlot(Some(1), Holding(0), Unowned(0, since), late))
    ensures Leads(r, u, OneSlot(Some(1), Holding(0), Idle, late).(slots := map[]))
  {
    var w1 := OneSlot(Some(1), Holding(0), Timed(0, since, late), late);
    LeadsBy(r, u, OneSlot(Some(1), Holding(0), Unowned(0, since), late), 2, w1);
    var w2 := OneSlot(Some(1), Holding(0), Clearing(0), late);
    LeadsBy(r, u, w1, 2, w2);
    LeadsBy(r, u, w2, 2, OneSlot(Some(1), Holding(0), Idle, late).(slots := map[]));
  }

  /** One run keeps the promise, if it keeps to the rules. */
  ghost predicate Excludes(r: Rules, total: nat, atomic: bool, events: seq<Event>) {
    Follows(r, Start(total, atomic), events) ==> Exclusive(Run(Start(total, atomic), events))
  }

  ghost predicate AllExclude(r: Rules, atomic: bool) { forall total: nat, events :: Excludes(r, total, atomic, events) }

  /** Two processes come to hold one slot. */
  lemma TwoHoldersRefute(r: Rules, total: nat, atomic: bool, w: World, p: nat, q: nat, i: nat)
    requires Leads(r, Start(total, atomic), w) && Holds(w, p, i) && Holds(w, q, i) && p != q
    ensures !AllExclude(r, atomic)
  {
    var events :| Follows(r, Start(total, atomic), events) && Run(Start(total, atomic), events) == w;
    assert !Excludes(r, total, atomic, events);
  }

  /** A process between making its directory and opening its pid file writes over that of the one that took its place. */
  lemma LeadsToSignedOver(r: Rules, u: World, v: World, q: nat, p: nat, i: nat, file: nat) returns (z: World)
    requires Leads(r, u, v) && Alive(v, q) && PcOf(v, q).Made? && PcOf(v, q).i == i && Holds(v, p, i)
    requires FileAt(v, i) == Some(file) && file < |v.files|
    ensures Leads(r, u, z) && Holds(z, q, i) && Holds(z, p, i)
  {
    var w := Goto(Put(v, file, None), q, Opened(i, v.now, file));
    LeadsBy(r, u, v, q, w);
    LeadsToSigned(r, u, w, q, i, v.now, file);
    z := SignedBy(w, q, i, file);
  }

  /** A process makes the directory of the only slot, and `wait` goes by. */
  lemma MakesAndWaits(r: Rules, atomic: bool, wait: nat)
    requires r.open.Some? && wait <= r.open.value
    ensures var w := World(1, atomic, map[0 := NewDir(1, 0)], [], map[1 := Made(0, 0)], {}, wait);
            Leads(r, Start(1, atomic), w)
  {
    var u := Start(1, atomic);
    LeadsNowhere(r, u);
    var w1 := Goto(u, 1, Trying(0));
    LeadsBy(r, u, u, 1, w1);
    var w2 := World(1, atomic, map[0 := NewDir(1, 0)], [], map[1 := Made(0, 0)], {}, 0);
    LeadsBy(r, u, w1, 1, w2);
    LeadsOn(r, u, w2, Tick(wait));
  }

  /** A directory left without a pid file for longer than the grace is cleared at once. */
  lemma ClearsUnwritten(open: nat, late: nat)
    requires OWNERLESS_GRACE_MS < late <= open
    ensures Leads(Lateness(open), Start(1, true), World(1, true, map[], [], map[1 := Made(0, 0), 2 := Idle], {}, late))
  {
    var (r, u) := (Lateness(open), Start(1, true));
    MakesAndWaits(r, true, late);
    var w := World(1, true, map[0 := NewDir(1, 0)], [], map[1 := Made(0, 0)], {}, late);
    LeadsToJudging(r, u, w, 2);
    var w1 := w.(procs := map[1 := Made(0, 0), 2 := Judging(0)]);
    assert Goto(w, 2, Judging(0)) == w1;
    LeadsBy(r, u, w1, 2, World(1, true, map[], [], map[1 := Made(0, 0), 2 := Idle], {}, late));
  }

  /** A process that opens its pid file only then writes over that of the one that took its place. */
  lemma LateOpenMakesTwoHolders(open: nat)
    requires open > OWNERLESS_GRACE_MS
    ensures !AllExclude(Lateness(open), true)
  {
    ClearsUnwritten(open, OWNERLESS_GRACE_MS + 1);
    OvertakenRefutes(Lateness(open), true, OWNERLESS_GRACE_MS + 1);
  }

  /** Exclusion with atomic clearing needs exactly this: that no directory is without a pid file for longer than the
    * grace. */
  lemma AtomicBoundIsExact(open: nat)
    ensures AllExclude(Lateness(open), true) <==> open <= OWNERLESS_GRACE_MS
  {
    if open <= OWNERLESS_GRACE_MS {
      forall total: nat, events ensures Excludes(Lateness(open), total, true, events) {
        if Follows(Lateness(open), Start(total, true), events) { AtomicClearsExclude(total, open, events); }
      }
    } else {
      LateOpenMakesTwoHolders(open);
    }
  }

  /** Process 1 has made the only slot's directory, and `late` goes by; a judge then finds it old and clears it. */
  lemma ClearsUnopened(l: Limits, late: nat)
    requires OWNERLESS_GRACE_MS < late <= l.open
    ensures Leads(Slow(l), Start(1, false), World(1, false, map[], [], map[1 := Made(0, 0), 2 := Idle], {}, late))
  {
    var (r, u) := (Slow(l), Start(1, false));
    MakesAndWaits(r, false, late);
    var w := World(1, false, map[0 := NewDir(1, 0)], [], map[1 := Made(0, 0)], {}, late);
    LeadsToJudging(r, u, w, 2);
    var w1 := w.(procs := map[1 := Made(0, 0), 2 := Judging(0)]);
    assert Goto(w, 2, Judging(0)) == w1;
    LeadsBy(r, u, w1, 2, w1.(procs := map[1 := Made(0, 0), 2 := Unowned(0, late)]));
    FindsOld(r, u, late);
  }

  lemma FindsOld(r: Rules, u: World, late: nat)
    requires r.displacing && OWNERLESS_GRACE_MS < late
    requires Leads(r, u, World(1, false, map[0 := NewDir(1, 0)], [], map[1 := Made(0, 0), 2 := Unowned(0, late)], {}, late))
    ensures Leads(r, u, World(1, false, map[], [], map[1 := Made(0, 0), 2 := Idle], {}, late))
  {
    var slots := map[0 := NewDir(1, 0)];
    var w1 := World(1, false, slots, [], map[1 := Made(0, 0), 2 := Unowned(0, late)], {}, late);
    var w2 := World(1, false, slots, [], map[1 := Made(0, 0), 2 := Timed(0, late, late)], {}, late);
    var w3 := World(1, false, slots, [], map[1 := Made(0, 0), 2 := Clearing(0)], {}, late);
    LeadsBy(r, u, w1, 2, w2);
    LeadsBy(r, u, w2, 2, w3);
    LeadsBy(r, u, w3, 2, World(1, false, map[], [], map[1 := Made(0, 0), 2 := Idle], {}, late));
  }

  /** The only slot cleared from under process 1, process 2 takes it and process 1 writes over its pid. */
  lemma OvertakenRefutes(r: Rules, atomic: bool, late: nat)
    requires Leads(r, Start(1, atomic), World(1, atomic, map[], [], map[1 := Made(0, 0), 2 := Idle], {}, late))
    ensures !AllExclude(r, atomic)
  {
    var (u, w) := (Start(1, atomic), World(1, atomic, map[], [], map[1 := Made(0, 0), 2 := Idle], {}, late));
    LeadsToOneTaken(r, u, w, 2);
    var z := LeadsToSignedOver(r, u, TakenBy(w, 2, 0), 1, 2, 0, 0);
    TwoHoldersRefute(r, 1, atomic, z, 1, 2, 0);
  }

  /** Exclusion without deaths needs exactly this: that a directory is without a pid file for no longer than the grace,
    * and that the longest a pid file is without a pid and the longest a judge takes between reading no owner and reading
    * the clock are together no more than it. */
  lemma DeathlessBoundIsExact(l: Limits)
    ensures AllExclude(Slow(l), false) <==> l.open <= OWNERLESS_GRACE_MS && l.write + l.judge <= OWNERLESS_GRACE_MS
  {
    var r := Slow(l);
    if Safe(l) {
      forall total: nat, events ensures Excludes(r, total, false, events) {
        if Follows(r, Start(total, false), events) { DeathlessRunsExclude(total, l, events); }
      }
    } else if l.open > OWNERLESS_GRACE_MS {
      ClearsUnopened(l, OWNERLESS_GRACE_MS + 1);
      OvertakenRefutes(r, false, OWNERLESS_GRACE_MS + 1);
    } else {
      var w := OneSlot(Some(1), Holding(0), Idle, l.write + l.judge).(slots := map[]);
      ClearsHeld(l.open, l.write, l.judge);
      LeadsToOneTaken(r, Start(1, false), w, 2);
      TwoHoldersRefute(r, 1, false, TakenBy(w, 2, 0), 1, 2, 0);
    }
  }

  /** Deaths, but no waiting at all: every pid is written and every judgement made in the same millisecond. */
  const INSTANT := Rules(Some(0), Some(0), Some(0), true, true)

  /** A judge reads the pid of a dead process. */
  lemma LeadsToProbing(r: Rules, u: World, v: World, p: nat, owner: nat)
    requires Leads(r, u, v) && !v.atomic && Alive(v, p) && PcOf(v, p) == Judging(0) && OwnerOf(v, 0) == Some(owner)
    ensures Leads(r, u, Goto(v, p, Probing(0, owner)))
  {
    var w := Goto(v, p, Reading(0, FileAt(v, 0).value));
    LeadsBy(r, u, v, p, w);
    LeadsBy(r, u, w, p, Goto(v, p, Probing(0, owner)));
  }

  /** A new process judges the only slot stale, as its owner is dead. */
  lemma LeadsToClearing(r: Rules, u: World, v: World, p: nat)
    requires Leads(r, u, v) && v.total == 1 && !v.atomic && Alive(v, p) && PcOf(v, p) == Idle
    requires OwnerOf(v, 0).Some? && !Alive(v, OwnerOf(v, 0).value)
    ensures Leads(r, u, Goto(v, p, Clearing(0)))
  {
    var owner := OwnerOf(v, 0).value;
    LeadsToJudging(r, u, v, p);
    LeadsToProbing(r, u, Goto(v, p, Judging(0)), p, owner);
    var w := Goto(v, p, Probing(0, owner));
    assert Goto(Goto(v, p, Judging(0)), p, Probing(0, owner)) == w;
    LeadsBy(r, u, w, p, Goto(v, p, Clearing(0)));
  }

  lemma LeadsToRetaken(r: Rules, u: World, v: World, p: nat)
    requires Leads(r, u, v) && r.displacing && v.total == 1 && Alive(v, p) && PcOf(v, p) == Clearing(0) && v.slots.Keys == {0}
    ensures Leads(r, u, TakenBy(v, p, 0))
  {
    var w := Step(v, Call(p));
    LeadsOn(r, u, v, Call(p));
    assert w.slots == map[];
    LeadsToOneTaken(r, u, w, p);
    assert TakenBy(w, p, 0) == TakenBy(v, p, 0);
  }

  /** Unconditional exclusion is false of the source: two processes judge the slot of a dead holder stale, the
    * first clears and retakes it, and the second then clears the retaken slot and takes it too. */
  lemma TwoHoldersOfOneSlot()
    ensures !AllExclude(INSTANT, false)
  {
    var u := Start(1, false);
    LeadsNowhere(INSTANT, u);
    LeadsToOneTaken(INSTANT, u, u, 1);
    LeadsOn(INSTANT, u, TakenBy(u, 1, 0), Die(1));
    var w := Step(TakenBy(u, 1, 0), Die(1));
    LeadsToClearing(INSTANT, u, w, 2);
    var w2 := Goto(w, 2, Clearing(0));
    LeadsToClearing(INSTANT, u, w2, 3);
    var w3 := Goto(w2, 3, Clearing(0));
    LeadsToRetaken(INSTANT, u, w3, 3);
    var w4 := TakenBy(w3, 3, 0);
    LeadsToRetaken(INSTANT, u, w4, 2);
    TwoHoldersRefute(INSTANT, 1, false, TakenBy(w4, 2, 0), 2, 3, 0);
  }

  // ----- when a rename is safe -----

  /** A slot with nobody live inside it, but for signing it, or not stale. */
  predicate Clearable(w: World, j: nat) {
    j in w.slots && Stale(w, j) ==> !LiveInside(w, w.slots[j].maker, j) || Signing(PcOf(w, w.slots[j].maker))
  }

  ghost predicate ClearableBelow(w: World, i: nat) { forall j :: 0 <= j < i ==> Clearable(w, j) }

  lemma InvIsClearable(w: World, j: nat)
    requires Inv(w)
    ensures Clearable(w, j)
  {
    if j in w.slots { assert InsideOk(w, w.slots[j].maker) || Ousted(w, w.slots[j].maker); }
  }

  /** A process that could not make slot `j` clears it, if it is stale, and goes on to the next. */
  function PassedBy(w: World, p: nat, j: nat): World {
    w.(slots := if Stale(w, j) then w.slots - {j} else w.slots, procs := w.procs[p := Trying(j + 1)])
  }

  lemma LeadsToJudge(u: World, v: World, p: nat, j: nat)
    requires Leads(BEHAVED, u, v) && Alive(v, p) && PcOf(v, p) == Trying(j) && j in v.slots
    ensures Leads(BEHAVED, u, Goto(v, p, Judging(j)))
  {
    LeadsOn(BEHAVED, u, v, Call(p));
  }

  /** A judge that finds the slot stale clears it, and either way goes on. */
  lemma LeadsPastJudged(u: World, v: World, w: World, p: nat, j: nat)
    requires Leads(BEHAVED, u, w) && Alive(v, p) && PcOf(v, p) == Trying(j) && j + 1 < v.total && Clearable(v, j)
    requires w == Goto(v, p, if Stale(v, j) then Clearing(j) else Trying(j + 1))
    ensures Leads(BEHAVED, u, PassedBy(v, p, j))
  {
    if Stale(v, j) {
      LeadsBy(BEHAVED, u, w, p, PassedBy(v, p, j));
    }
  }

  lemma LeadsPastOwned(u: World, v: World, p: nat, j: nat)
    requires Leads(BEHAVED, u, v) && !v.atomic && Alive(v, p) && PcOf(v, p) == Trying(j) && j + 1 < v.total
    requires OwnerOf(v, j).Some? && Clearable(v, j)
    ensures Leads(BEHAVED, u, PassedBy(v, p, j))
  {
    LeadsToReading(u, v, p, j);
    var w1 := Goto(v, p, Reading(j, FileAt(v, j).value));
    var w2 := Goto(v, p, Probing(j, OwnerOf(v, j).value));
    LeadsBy(BEHAVED, u, w1, p, w2);
    var w3 := Goto(v, p, if Stale(v, j) then Clearing(j) else Trying(j + 1));
    LeadsBy(BEHAVED, u, w2, p, w3);
    LeadsPastJudged(u, v, w3, p, j);
  }

  lemma LeadsToReading(u: World, v: World, p: nat, j: nat)
    requires Leads(BEHAVED, u, v) && !v.atomic && Alive(v, p) && PcOf(v, p) == Trying(j) && FileAt(v, j).Some?
    ensures Leads(BEHAVED, u, Goto(v, p, Reading(j, FileAt(v, j).value)))
  {
    LeadsToJudge(u, v, p, j);
    var w1 := Goto(v, p, Judging(j));
    LeadsBy(BEHAVED, u, w1, p, Goto(v, p, Reading(j, FileAt(v, j).value)));
  }

  lemma LeadsPastOwnerless(u: World, v: World, p: nat, j: nat)
    requires Leads(BEHAVED, u, v) && !v.atomic && Alive(v, p) && PcOf(v, p) == Trying(j) && j + 1 < v.total
    requires j in v.slots && OwnerOf(v, j).None? && Clearable(v, j)
    ensures Leads(BEHAVED, u, PassedBy(v, p, j))
  {
    if FileAt(v, j).Some? {
      LeadsToReading(u, v, p, j);
      var w1 := Goto(v, p, Reading(j, FileAt(v, j).value));
      LeadsBy(BEHAVED, u, w1, p, Goto(v, p, Unowned(j, v.now)));
    } else {
      LeadsToJudge(u, v, p, j);
      var w1 := Goto(v, p, Judging(j));
      LeadsBy(BEHAVED, u, w1, p, Goto(v, p, Unowned(j, v.now)));
    }
    LeadsPastUnowned(u, v, p, j);
  }

  lemma LeadsPastUnowned(u: World, v: World, p: nat, j: nat)
    requires Leads(BEHAVED, u, Goto(v, p, Unowned(j, v.now))) && Alive(v, p) && PcOf(v, p) == Trying(j) && j + 1 < v.total
    requires j in v.slots && OwnerOf(v, j).None? && Clearable(v, j)
    ensures Leads(BEHAVED, u, PassedBy(v, p, j))
  {
    var w1 := Goto(v, p, Unowned(j, v.now));
    LeadsOn(BEHAVED, u, w1, Call(p));
    var w2 := Step(w1, Call(p));
    LeadsOn(BEHAVED, u, w2, Call(p));
    var w3 := Step(w2, Call(p));
    assert w3 == Goto(v, p, if Stale(v, j) then Clearing(j) else Trying(j + 1));
    LeadsPastJudged(u, v, w3, p, j);
  }

  /** `x` differs from `v` by slots below `i` and by processes `v` did not know, which are inside none but those. */
  ghost predicate SameFrom(v: World, x: World, i: nat) {
    && x.total == v.total && x.atomic == v.atomic && x.files == v.files && x.dead == v.dead && x.now == v.now
    && (forall p :: p in v.procs ==> p in x.procs && x.procs[p] == v.procs[p])
    && (forall p :: p in x.procs && p !in v.procs && Inside(x.procs[p]) ==> x.procs[p].i < i)
    && (forall j :: j >= i ==> (j in x.slots <==> j in v.slots) && (j in v.slots ==> x.slots[j] == v.slots[j]))
  }

  /** Some process nobody has heard of yet comes to try slot `i`: others before it fill the slots below. */
  lemma {:induction false} LeadsToTrying(u: World, v: World, i: nat) returns (r: nat, x: World)
    requires Leads(BEHAVED, u, v) && !v.atomic && i < v.total && ClearableBelow(v, i)
    ensures Leads(BEHAVED, u, x) && SameFrom(v, x, i) && ClearableBelow(x, i)
    ensures r !in v.procs && Alive(x, r) && PcOf(x, r) == Trying(i)
    decreases i
  {
    if i == 0 {
      r := Fresh(v.procs.Keys + v.dead);
      x := Step(v, Call(r));
      LeadsOn(BEHAVED, u, v, Call(r));
    } else {
      var first, y := LeadsToTrying(u, v, i - 1);
      r, x := LeadsPast(u, v, i, first, y);
    }
  }

  lemma LeadsPast(u: World, v: World, i: nat, first: nat, y: World) returns (r: nat, x: World)
    requires i > 0 && !v.atomic && i < v.total && ClearableBelow(v, i)
    requires Leads(BEHAVED, u, y) && SameFrom(v, y, i - 1) && ClearableBelow(y, i - 1)
    requires first !in v.procs && Alive(y, first) && PcOf(y, first) == Trying(i - 1)
    ensures Leads(BEHAVED, u, x) && SameFrom(v, x, i) && ClearableBelow(x, i)
    ensures r !in v.procs && Alive(x, r) && PcOf(x, r) == Trying(i)
    decreases i, 2
  {
    if i - 1 in y.slots {
      r := first;
      StillClearable(v, y, i - 1);
      x := LeadsPastPresent(u, v, y, r, i - 1);
    } else {
      r, x := LeadsPastFree(u, v, i, first, y);
    }
  }

  /** The first to try the slot below makes it, and the next one then finds it taken. */
  lemma LeadsPastFree(u: World, v: World, i: nat, first: nat, y: World) returns (r: nat, x: World)
    requires i > 0 && !v.atomic && i < v.total && i - 1 !in y.slots
    requires Leads(BEHAVED, u, y) && SameFrom(v, y, i - 1) && ClearableBelow(y, i - 1)
    requires first !in v.procs && Alive(y, first) && PcOf(y, first) == Trying(i - 1)
    ensures Leads(BEHAVED, u, x) && SameFrom(v, x, i) && ClearableBelow(x, i)
    ensures r !in v.procs && Alive(x, r) && PcOf(x, r) == Trying(i)
    decreases i, 1
  {
    var z := Step(y, Call(first));
    LeadsOn(BEHAVED, u, y, Call(first));
    MakerIsElsewhere(y, z, first, i - 1);
    r, x := LeadsPastFilled(u, v, i, first, y, z);
  }

  lemma LeadsPastFilled(u: World, v: World, i: nat, first: nat, y: World, z: World) returns (r: nat, x: World)
    requires i > 0 && !v.atomic && i < v.total && first !in v.procs && SameFrom(v, y, i - 1)
    requires Leads(BEHAVED, u, z) && ClearableBelow(z, i - 1)
    requires z == y.(slots := y.slots[i - 1 := NewDir(first, y.now)], procs := y.procs[first := Made(i - 1, y.now)])
    ensures Leads(BEHAVED, u, x) && SameFrom(v, x, i) && ClearableBelow(x, i)
    ensures r !in v.procs && Alive(x, r) && PcOf(x, r) == Trying(i)
    decreases i, 0
  {
    var z2;
    r, z2 := LeadsToTrying(u, z, i - 1);
    FilledIsSame(v, y, z, z2, first, i);
    x := LeadsPastMade(u, v, z, z2, r, i - 1);
  }

  lemma LeadsPastMade(u: World, v: World, z: World, z2: World, r: nat, i: nat) returns (x: World)
    requires Leads(BEHAVED, u, z2) && SameFrom(z, z2, i) && SameFrom(v, z2, i + 1) && ClearableBelow(z2, i)
    requires i in z.slots && z.slots[i].file.None? && z.slots[i].touched == z.now
    requires !v.atomic && i + 1 < v.total && r !in v.procs && Alive(z2, r) && PcOf(z2, r) == Trying(i)
    ensures Leads(BEHAVED, u, x) && SameFrom(v, x, i + 1) && ClearableBelow(x, i + 1)
    ensures Alive(x, r) && PcOf(x, r) == Trying(i + 1)
  {
    MadeIsClearable(z, z2, i);
    x := LeadsPastPresent(u, v, z2, r, i);
  }

  lemma MadeIsClearable(z: World, z2: World, i: nat)
    requires SameFrom(z, z2, i) && ClearableBelow(z2, i)
    requires i in z.slots && OwnerOf(z, i).None? && z.slots[i].touched == z.now
    ensures i in z2.slots && ClearableBelow(z2, i + 1)
  {
    assert Clearable(z2, i);
  }

  lemma FilledIsSame(v: World, y: World, z: World, z2: World, first: nat, i: nat)
    requires i > 0 && SameFrom(v, y, i - 1) && SameFrom(z, z2, i - 1) && first !in v.procs
    requires z == y.(slots := y.slots[i - 1 := NewDir(first, y.now)], procs := y.procs[first := Made(i - 1, y.now)])
    ensures SameFrom(v, z2, i)
  {
  }

  lemma StillClearable(v: World, y: World, i: nat)
    requires SameFrom(v, y, i) && Clearable(v, i) && ClearableBelow(y, i)
    ensures ClearableBelow(y, i + 1)
  {
    assert Clearable(y, i);
  }

  lemma MakerIsElsewhere(y: World, z: World, first: nat, i: nat)
    requires i !in y.slots && Alive(y, first) && PcOf(y, first) == Trying(i) && z == Step(y, Call(first))
    requires ClearableBelow(y, i)
    ensures ClearableBelow(z, i)
    ensures z == y.(slots := y.slots[i := NewDir(first, y.now)], procs := y.procs[first := Made(i, y.now)])
  {
    forall j | 0 <= j < i ensures Clearable(z, j) { assert Clearable(y, j); }
  }

  lemma LeadsPastPresent(u: World, first: World, v: World, p: nat, j: nat) returns (x: World)
    requires Leads(BEHAVED, u, v) && !v.atomic && Alive(v, p) && PcOf(v, p) == Trying(j) && j + 1 < v.total
    requires j in v.slots && ClearableBelow(v, j + 1)
    requires (SameFrom(first, v, j) || SameFrom(first, v, j + 1)) && p !in first.procs
    ensures Leads(BEHAVED, u, x) && PcOf(x, p) == Trying(j + 1) && Alive(x, p)
    ensures ClearableBelow(x, j + 1) && SameFrom(first, x, j + 1)
  {
    x := PassedBy(v, p, j);
    assert Clearable(v, j);
    if OwnerOf(v, j).Some? { LeadsPastOwned(u, v, p, j); } else { LeadsPastOwnerless(u, v, p, j); }
    forall k | 0 <= k < j + 1 ensures Clearable(x, k) { assert Clearable(v, k); }
  }

  lemma Fresh(known: set<nat>) returns (r: nat)
    ensures r !in known
  {
    r := AboveAll(known);
  }

  lemma {:induction false} AboveAll(known: set<nat>) returns (r: nat)
    ensures forall k :: k in known ==> k < r
    decreases known
  {
    if known == {} {
      r := 0;
    } else {
      var k :| k in known;
      var h := AboveAll(known - {k});
      assert known == (known - {k}) + {k};
      r := if h > k then h else k + 1;
    }
  }

  lemma TwoTakeIt(v: World, x: World, q: nat, r: nat, i: nat)
    requires Leads(BEHAVED, v, x) && Holds(x, q, i) && Alive(x, r) && r != q && PcOf(x, r) == Trying(i) && i !in x.slots
    ensures exists later :: Follows(BEHAVED, v, later) && !Exclusive(Run(v, later))
  {
    LeadsToTaken(BEHAVED, v, x, r, i);
    assert Holds(TakenBy(x, r, i), q, i) && Holds(TakenBy(x, r, i), r, i);
  }

  /** A process that has made its directory signs the one that took its place. */
  lemma SignsTheOther(v: World, x: World, q: nat, r: nat, i: nat)
    requires Leads(BEHAVED, v, x) && Alive(x, q) && PcOf(x, q).Made? && PcOf(x, q).i == i && i !in x.slots
    requires Alive(x, r) && r != q && PcOf(x, r) == Trying(i)
    ensures exists later :: Follows(BEHAVED, v, later) && !Exclusive(Run(v, later))
  {
    LeadsToTaken(BEHAVED, v, x, r, i);
    var z := LeadsToSignedOver(BEHAVED, v, TakenBy(x, r, i), q, r, i, |x.files|);
    assert Holds(z, q, i) && Holds(z, r, i);
  }

  /** A process that is releasing its slot has read its own pid, or does so. */
  lemma LeadsToReleasing(v: World, x: World, q: nat, i: nat) returns (y: World)
    requires Leads(BEHAVED, v, x) && Alive(x, q) && ClearableBelow(x, i)
    requires PcOf(x, q) == Releasing(i) || (PcOf(x, q).Checking? && PcOf(x, q).i == i && PidIn(x, PcOf(x, q).file) == Some(q))
    ensures Leads(BEHAVED, v, y) && y == Goto(x, q, Releasing(i)) && ClearableBelow(y, i)
  {
    y := Goto(x, q, Releasing(i));
    if PcOf(x, q).Checking? {
      LeadsBy(BEHAVED, v, x, q, y);
    }
    forall j | 0 <= j < i ensures Clearable(y, j) { assert Clearable(x, j); }
  }

  /** A process that is about to remove its pid file removes that of the one that took its place, and its directory. */
  lemma RemovesTheOther(v: World, x: World, q: nat, r: nat, i: nat) returns (z: World)
    requires Leads(BEHAVED, v, x) && Alive(x, q) && r != q && i !in x.slots && ClearableBelow(x, i)
    requires PcOf(x, q) == Releasing(i)
    requires Alive(x, r) && PcOf(x, r) == Trying(i)
    ensures Leads(BEHAVED, v, z) && Holds(z, r, i) && r in z.procs && i !in z.slots && ClearableBelow(z, i)
    ensures z.total == x.total && z.atomic == x.atomic
  {
    LeadsToTaken(BEHAVED, v, x, r, i);
    var w := TakenBy(x, r, i);
    var w1 := Goto(w.(slots := w.slots[i := NewDir(r, x.now)]), q, Emptied(i, x.now));
    LeadsBy(BEHAVED, v, w, q, w1);
    z := Goto(w1.(slots := w1.slots - {i}), q, Idle);
    LeadsBy(BEHAVED, v, w1, q, z);
    assert z.slots == x.slots;
    forall j | 0 <= j < i ensures Clearable(z, j) { assert Clearable(x, j); }
  }

  /** One that has emptied its directory removes the one just made in its place. */
  lemma RemovesTheNew(v: World, x: World, q: nat, r: nat, i: nat) returns (z: World)
    requires Leads(BEHAVED, v, x) && Alive(x, q) && PcOf(x, q).Emptied? && PcOf(x, q).i == i && r != q && i !in x.slots
    requires Alive(x, r) && PcOf(x, r) == Trying(i) && ClearableBelow(x, i)
    ensures Leads(BEHAVED, v, z) && Alive(z, r) && r in z.procs && PcOf(z, r).Made? && PcOf(z, r).i == i
    ensures i !in z.slots && ClearableBelow(z, i) && z.total == x.total && z.atomic == x.atomic
  {
    LeadsOn(BEHAVED, v, x, Call(r));
    var w := Step(x, Call(r));
    LeadsOn(BEHAVED, v, w, Call(q));
    z := Step(w, Call(q));
    assert z.slots == x.slots;
    forall j | 0 <= j < i ensures Clearable(z, j) { assert Clearable(x, j); }
  }

  /** With a live process inside its slot, and not just signing it, a rename is fatal: some later run, though it
    * behaves, has two holders. */
  lemma OccupiedIsUnsafe(v: World, q: nat, i: nat)
    requires !v.atomic && i < v.total && i !in v.slots && ClearableBelow(v, i)
    requires LiveInside(v, q, i) && !Signing(PcOf(v, q))
    requires PcOf(v, q).Rereading? || PcOf(v, q).Checking? ==> PidIn(v, PcOf(v, q).file) == Some(q)
    ensures exists later :: Follows(BEHAVED, v, later) && !Exclusive(Run(v, later))
  {
    LeadsNowhere(BEHAVED, v);
    var r, x := LeadsToTrying(v, v, i);
    match PcOf(v, q)
    case Holding(_) => TwoTakeIt(v, x, q, r, i);
    case Rereading(_, file) =>
      LeadsOn(BEHAVED, v, x, Call(q));
      TwoTakeIt(v, Step(x, Call(q)), q, r, i);
    case Made(_, _) => SignsTheOther(v, x, q, r, i);
    case Emptied(_, _) => EmptiedIsUnsafe(v, x, q, r, i);
    case _ => ReleasingIsUnsafe(v, x, q, r, i);
  }

  lemma EmptiedIsUnsafe(v: World, x: World, q: nat, r: nat, i: nat)
    requires Leads(BEHAVED, v, x) && !x.atomic && i < x.total && i !in x.slots && ClearableBelow(x, i)
    requires Alive(x, q) && PcOf(x, q).Emptied? && PcOf(x, q).i == i
    requires Alive(x, r) && r != q && PcOf(x, r) == Trying(i)
    ensures exists later :: Follows(BEHAVED, v, later) && !Exclusive(Run(v, later))
  {
    var z := RemovesTheNew(v, x, q, r, i);
    var r2, z2 := LeadsToTrying(v, z, i);
    SignsTheOther(v, z2, r, r2, i);
  }

  lemma ReleasingIsUnsafe(v: World, x: World, q: nat, r: nat, i: nat)
    requires Leads(BEHAVED, v, x) && !x.atomic && i < x.total && i !in x.slots && ClearableBelow(x, i)
    requires Alive(x, q) && Alive(x, r) && r != q && PcOf(x, r) == Trying(i)
    requires PcOf(x, q) == Releasing(i) || (PcOf(x, q).Checking? && PcOf(x, q).i == i && PidIn(x, PcOf(x, q).file) == Some(q))
    ensures exists later :: Follows(BEHAVED, v, later) && !Exclusive(Run(v, later))
  {
    var y := LeadsToReleasing(v, x, q, i);
    var z := RemovesTheOther(v, y, q, r, i);
    var r2, z2 := LeadsToTrying(v, z, i);
    TwoTakeIt(v, z2, r, r2, i);
  }

  /** A process that will not come to hold slot `i` though its directory is gone: one that is signing it, or has opened
    * another's pid file to read it back. */
  predicate Harmless(w: World, q: nat) {
    Signing(PcOf(w, q)) || (PcOf(w, q).Rereading? && Foreign(w, q, PcOf(w, q).file))
  }

  ghost predicate Vacant(w: World, i: nat) { forall q :: LiveInside(w, q, i) ==> Harmless(w, q) }

  /** If all are, whoever is inside will not read its own pid back, and tries elsewhere. */
  lemma VacantIsSafe(w: World, p: nat, i: nat, later: seq<Event>)
    requires Inv(w) && Alive(w, p) && PcOf(w, p) == Clearing(i) && Vacant(w, i)
    requires Follows(BEHAVED, Step(w, Call(p)), later)
    ensures Exclusive(Run(Step(w, Call(p)), later))
  {
    var v := Step(w, Call(p));
    assert InRange(w, w.procs[p]);
    forall q ensures InsideOk(v, q) || Ousted(v, q) {
      assert (InsideOk(w, q) || Ousted(w, q)) && (LiveInside(w, q, i) ==> Harmless(w, q));
    }
    RunKeepsInv(v, later);
    InvExcludes(Run(v, later));
  }

  /** The exact condition: a pending rename keeps every later behaved run exclusive if and only if no live process
    * is inside the slot, unless it is one that has opened its pid file to write it and not yet again to read it, or
    * that has opened another's to read it back. */
  lemma RenameSafeIffVacant(w: World, p: nat, i: nat)
    requires Inv(w) && !w.atomic && Alive(w, p) && PcOf(w, p) == Clearing(i)
    ensures (forall later :: Follows(BEHAVED, Step(w, Call(p)), later) ==> Exclusive(Run(Step(w, Call(p)), later)))
            <==> Vacant(w, i)
  {
    var v := Step(w, Call(p));
    if Vacant(w, i) {
      forall later | Follows(BEHAVED, v, later) ensures Exclusive(Run(v, later)) { VacantIsSafe(w, p, i, later); }
    } else {
      var q :| LiveInside(w, q, i) && !Harmless(w, q);
      assert InRange(w, w.procs[p]);
      forall j | 0 <= j < i ensures Clearable(v, j) { InvIsClearable(w, j); }
      assert InsideOk(w, q) || Ousted(w, q);
      OccupiedIsUnsafe(v, q, i);
    }
  }

  // ----- what each step rests on -----

  /** A process comes to hold a slot, or to remove one, only by reading its own pid; and to rename one away only by
    * reading the pid of a dead process, or the clock more than the grace past the directory's time. */
  lemma StepsAreEarned(w: World, e: Event, p: nat)
    requires PcOf(Step(w, e), p) != PcOf(w, p)
    ensures match PcOf(Step(w, e), p)
            case Holding(i) =>
              PcOf(w, p).Rereading? && PcOf(w, p).i == i && PcOf(w, p).file < |w.files| && w.files[PcOf(w, p).file].pid == Some(p)
            case Releasing(i) =>
              PcOf(w, p).Checking? && PcOf(w, p).i == i && PcOf(w, p).file < |w.files| && w.files[PcOf(w, p).file].pid == Some(p)
            case Clearing(i) =>
              || (PcOf(w, p).Probing? && PcOf(w, p).i == i && PcOf(w, p).owner in w.dead)
              || (PcOf(w, p).Timed? && PcOf(w, p).i == i && i in w.slots && PcOf(w, p).asOf > w.slots[i].touched + 10_000)
            case _ => true
  {
  }

  /** A directory with a pid file in it goes only whole, by a rename that clears it. */
  lemma OnlyRenamesTakeFull(w: World, e: Event, i: nat)
    requires i in w.slots && w.slots[i].file.Some? && i !in Step(w, e).slots
    ensures e.Call? && (PcOf(w, e.p) == Clearing(i) || (w.atomic && PcOf(w, e.p) == Judging(i)))
  {
  }

  // ----- usage -----

  predicate InUse(w: World, i: nat) { OwnerOf(w, i).Some? && Alive(w, OwnerOf(w, i).value) }

  ghost function SeatsInUse(w: World, n: nat): set<nat> { set i | i in Seats(n) && InUse(w, i) }

  lemma OneMoreSeat(w: World, i: nat)
    ensures |SeatsInUse(w, i + 1)| == |SeatsInUse(w, i)| + if InUse(w, i) then 1 else 0
  {
    if InUse(w, i) {
      assert SeatsInUse(w, i + 1) == SeatsInUse(w, i) + {i};
    } else {
      assert SeatsInUse(w, i + 1) == SeatsInUse(w, i);
    }
  }

  /** `slotUsage`'s count. */
  method SlotsInUse(w: World) returns (inUse: nat)
    ensures inUse == |SeatsInUse(w, w.total)|
  {
    inUse := 0;
    for i := 0 to w.total
      invariant inUse == |SeatsInUse(w, i)|
    {
      OneMoreSeat(w, i);
      if InUse(w, i) {
        inUse := inUse + 1;
      }
    }
  }

  /** The reported count never misses a holder. */
  lemma HoldersAreCounted(w: World)
    requires Inv(w)
    ensures |Holders(w)| <= |SeatsInUse(w, w.total)|
  {
    forall p | p in Holders(w) ensures w.procs[p].i in SeatsInUse(w, w.total) { assert InsideOk(w, p) || Ousted(w, p); }
    InvExcludes(w);
    assert forall p, q :: p in Holders(w) && q in Holders(w) && w.procs[p].i == w.procs[q].i ==>
      Holds(w, p, w.procs[p].i) && Holds(w, q, w.procs[p].i);
    OneSeatEach(w, Holders(w), SeatsInUse(w, w.total));
  }
}
