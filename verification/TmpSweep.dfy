/** One pass of the temporary-directory sweep: whose directories it takes, what keeps one, and what is gone
  * from the file system when it is done. */
module TmpSweep {
  import opened Options
  import opened TmpPaths
  import I = Identity
  import AgentLog
  import Decimals
  import ParentPids

  const SWEEP_GRACE_MS: int := 180_000
  const FAILED_RETRY_MS: int := 21_600_000

  // ----- finished names -----

  predicate Finished(a: I.Agent, now: int) {
    (a.state == I.Exited || a.state == I.Retired)
    && now - (if a.exitedAt.Some? then a.exitedAt.value else a.lastEventAt) >= SWEEP_GRACE_MS
  }

  function FinishedIds(roster: seq<I.Agent>, now: int): set<string> {
    set a | a in roster && Finished(a, now) :: a.agentId
  }

  /** The ids of a name's rows. */
  function IdsOf(roster: seq<I.Agent>, name: string): set<string> { set a | a in roster && a.name == name :: a.agentId }

  /** A name is finished when it has rows and the id of each is. */
  predicate FinishedName(roster: seq<I.Agent>, now: int, name: string) {
    IdsOf(roster, name) != {} && IdsOf(roster, name) <= FinishedIds(roster, now)
  }

  lemma OneMoreRow(roster: seq<I.Agent>, i: nat, name: string)
    requires i < |roster|
    ensures IdsOf(roster[..i + 1], name) ==
              IdsOf(roster[..i], name) + if roster[i].name == name then {roster[i].agentId} else {}
  {
    assert roster[..i + 1] == roster[..i] + [roster[i]];
  }

  /** The names a live row keeps out. */
  function LiveNames(roster: seq<I.Agent>, finished: set<string>): set<string> {
    set a | a in roster && a.agentId !in finished :: a.name
  }

  lemma LiveMeans(roster: seq<I.Agent>, finished: set<string>, name: string)
    ensures name !in LiveNames(roster, finished) <==> IdsOf(roster, name) <= finished
  {
    if name !in LiveNames(roster, finished) {
      forall id | id in IdsOf(roster, name)
        ensures id in finished
      {
        var a :| a in roster && a.name == name && a.agentId == id;
      }
    } else {
      var a :| a in roster && a.agentId !in finished && a.name == name;
      assert a.agentId in IdsOf(roster, name);
    }
  }

  /** The names listed are those of the rows so far that no live row keeps out, each with its ids. */
  ghost predicate NamesTo(rows: seq<I.Agent>, live: set<string>, names: map<string, set<string>>) {
    forall name ::
      && (name in names <==> name !in live && IdsOf(rows, name) != {})
      && (name in names ==> names[name] == IdsOf(rows, name))
  }

  /** `finishedNames`. */
  method FinishedNames(roster: seq<I.Agent>, now: int) returns (names: map<string, set<string>>)
    ensures forall name :: name in names <==> FinishedName(roster, now, name)
    ensures forall name :: name in names ==> names[name] == IdsOf(roster, name)
  {
    var finished := FinishedIds(roster, now);
    var live := LiveNames(roster, finished);
    names := map[];
    var i := 0;
    while i < |roster|
      invariant 0 <= i <= |roster|
      invariant NamesTo(roster[..i], live, names)
    {
      names := AddRow(roster, finished, live, i, names);
      i := i + 1;
    }
    assert roster[..|roster|] == roster;
    forall name
      ensures name in names <==> FinishedName(roster, now, name)
      ensures name in names ==> names[name] == IdsOf(roster, name)
    {
      LiveMeans(roster, finished, name);
    }
  }

  /** The body of the loop. */
  method AddRow(roster: seq<I.Agent>, finished: set<string>, live: set<string>, i: nat, had: map<string, set<string>>)
    returns (names: map<string, set<string>>)
    requires i < |roster| && live == LiveNames(roster, finished)
    requires NamesTo(roster[..i], live, had)
    ensures NamesTo(roster[..i + 1], live, names)
  {
    var a := roster[i];
    names := had;
    if a.agentId in finished && a.name !in live {
      names := names[a.name := (if a.name in names then names[a.name] else {}) + {a.agentId}];
    }
    forall name
      ensures IdsOf(roster[..i + 1], name) == IdsOf(roster[..i], name) + if a.name == name then {a.agentId} else {}
    {
      OneMoreRow(roster, i, name);
    }
  }

  ghost predicate UniqueIds(roster: seq<I.Agent>) {
    forall a, b :: a in roster && b in roster && a.agentId == b.agentId ==> a == b
  }

  /** Exited or retired, its exit, or else its last event, three minutes ago or more. */
  ghost predicate LongEnded(a: I.Agent, now: int) {
    && (a.state == I.Exited || a.state == I.Retired)
    && (a.exitedAt.Some? ==> now >= a.exitedAt.value + 180_000)
    && (a.exitedAt.None? ==> now >= a.lastEventAt + 180_000)
  }

  /** In a roster with one row per id, every row of a finished name ended at least the grace ago. */
  lemma FinishedNameMeans(roster: seq<I.Agent>, now: int, name: string)
    requires UniqueIds(roster)
    ensures FinishedName(roster, now, name) <==>
              && (exists a :: a in roster && a.name == name)
              && forall a :: a in roster && a.name == name ==> LongEnded(a, now)
  {
    if FinishedName(roster, now, name) {
      var id :| id in IdsOf(roster, name);
      forall a | a in roster && a.name == name
        ensures LongEnded(a, now)
      {
        assert a.agentId in IdsOf(roster, name) && a.agentId in FinishedIds(roster, now);
      }
    } else if IdsOf(roster, name) != {} {
      var id :| id in IdsOf(roster, name) && id !in FinishedIds(roster, now);
      var a :| a in roster && a.name == name && a.agentId == id;
      assert !LongEnded(a, now);
    } else {
      forall a | a in roster
        ensures a.agentId in IdsOf(roster, a.name)
      {
      }
    }
  }

  // ----- what keeps a directory -----

  /** What the pass reads of a process: the agent id and launcher pid in its environment, when that can be read. */
  datatype Proc = Proc(alive: bool, agentId: Option<string>, launcherPid: Option<string>, command: string,
                       cwd: Option<string>, fds: seq<string>)

  /** The process table as read in this pass. `parents` may hold cycles. */
  datatype Table = Table(pids: seq<int>, procs: map<int, Proc>, parents: map<int, int>)

  const NO_PROC := Proc(false, None, None, "", None, [])

  function ProcOf(t: Table, pid: int): Proc { if pid in t.procs then t.procs[pid] else NO_PROC }

  /** The pid `k` parents above `self`. */
  function Up(t: Table, self: int, k: nat): Option<int> { ParentPids.Up(t.parents, self, k) }

  /** The caller or a process above it, up to init. */
  ghost predicate Ancestor(t: Table, self: int, p: int) {
    exists k: nat :: Up(t, self, k) == Some(p) && AboveInit(t, self, k)
  }

  ghost predicate AboveInit(t: Table, self: int, k: nat) {
    forall j: nat :: 0 < j <= k ==> Up(t, self, j).Some? && Up(t, self, j).value > 1
  }

  ghost predicate AncestorTo(t: Table, self: int, k: nat, p: int) { exists j: nat :: j <= k && Up(t, self, j) == Some(p) }

  lemma AllMet(t: Table, self: int, k: nat, p: int)
    requires AboveInit(t, self, k)
    requires var next := Up(t, self, k + 1); next.None? || next.value <= 1 || AncestorTo(t, self, k, next.value)
    ensures Ancestor(t, self, p) <==> AncestorTo(t, self, k, p)
  {
    if Ancestor(t, self, p) {
      var m: nat :| Up(t, self, m) == Some(p) && AboveInit(t, self, m);
      if m > k {
        var j: nat :| j <= k && Up(t, self, j) == Up(t, self, k + 1);
        var i := ParentPids.UpRepeats(t.parents, self, j, k, m);
        assert Up(t, self, i) == Some(p);
      }
    }
    if AncestorTo(t, self, k, p) {
      var j: nat :| j <= k && Up(t, self, j) == Some(p);
      assert AboveInit(t, self, j);
    }
  }

  /** `ancestry`: ends on any table. */
  method Ancestry(t: Table, self: int) returns (chain: set<int>)
    ensures forall p :: p in chain <==> Ancestor(t, self, p)
  {
    chain := {self};
    var at := self;
    ghost var k: nat := 0;
    while at in t.parents && t.parents[at] > 1 && t.parents[at] !in chain
      invariant Up(t, self, k) == Some(at) && AboveInit(t, self, k)
      invariant forall p :: p in chain <==> AncestorTo(t, self, k, p)
      invariant at in chain
      decreases t.parents.Keys - chain, if at in t.parents then 1 else 0
    {
      at := t.parents[at];
      assert Up(t, self, k + 1) == Some(at);
      chain := chain + {at};
      k := k + 1;
    }
    forall p
      ensures p in chain <==> Ancestor(t, self, p)
    {
      AllMet(t, self, k, p);
    }
  }

  datatype Target = Target(name: string, pid: nat, agentIds: set<string>, root: string)

  /** Process `p` belongs to the launch, or works in its directory. */
  predicate Ties(p: Proc, target: Target, dir: string) {
    || (p.agentId.Some? && p.agentId.value in target.agentIds && p.launcherPid == Some(Decimals.Decimal(target.pid)))
    || (p.cwd.Some? && IsInside(p.cwd.value, dir))
    || exists i :: 0 <= i < |p.fds| && IsInside(p.fds[i], dir)
  }

  ghost predicate HeldBy(t: Table, self: int, target: Target, dir: string, pid: int) {
    !Ancestor(t, self, pid) && ProcOf(t, pid).alive && Ties(ProcOf(t, pid), target, dir)
  }

  ghost predicate Held(t: Table, self: int, target: Target, dir: string) {
    exists i :: 0 <= i < |t.pids| && HeldBy(t, self, target, dir, t.pids[i])
  }

  /** `holder`. */
  method Holder(t: Table, self: int, target: Target, dir: string) returns (holder: Option<int>)
    ensures holder.Some? <==> Held(t, self, target, dir)
    ensures holder.Some? ==> HeldBy(t, self, target, dir, holder.value)
  {
    var skip := Ancestry(t, self);
    var i := 0;
    while i < |t.pids|
      invariant 0 <= i <= |t.pids|
      invariant forall j :: 0 <= j < i ==> !HeldBy(t, self, target, dir, t.pids[j])
    {
      var pid := t.pids[i];
      if pid !in skip && ProcOf(t, pid).alive && Ties(ProcOf(t, pid), target, dir) {
        return Some(pid);
      }
      i := i + 1;
    }
    holder := None;
  }

  // ----- the file system -----

  datatype Stat = Stat(directory: bool, symlink: bool, uid: int)

  type Nodes = map<string, Stat>

  predicate OwnDir(nodes: Nodes, path: string, uid: int) {
    path in nodes && !nodes[path].symlink && nodes[path].directory && nodes[path].uid == uid
  }

  /** How removing a tree goes: `cut` names directories and files already gone, with all they held. */
  datatype Outcome = Done | Partial(cut: set<string>) | Threw(cut: set<string>)

  function Cleared(nodes: Nodes, dir: string): Nodes { map p | p in nodes && !IsInside(p, dir) :: nodes[p] }

  predicate Cut(p: string, dir: string, cut: set<string>) {
    exists c :: c in cut && c != dir && IsInside(c, dir) && IsInside(p, c)
  }

  function Thinned(nodes: Nodes, dir: string, cut: set<string>): Nodes {
    map p | p in nodes && !Cut(p, dir, cut) :: nodes[p]
  }

  /** What one pass is given: the reads it makes and how each removal goes. `late` says the budget is used up
    * by the time the directory's turn comes; `launcherOf` is the argv test for an agent's launcher. */
  datatype Env = Env(roster: seq<I.Agent>, now: int, table: Table, self: int, uid: int, roots: seq<string>,
                     normal: string -> bool, launcherOf: (string, string) -> bool, listing: string -> seq<string>,
                     late: string -> bool, reclaim: string -> Outcome)

  /** The launcher itself still runs. */
  predicate Launching(e: Env, target: Target) {
    var p := ProcOf(e.table, target.pid);
    p.alive && exists id :: id in target.agentIds && e.launcherOf(p.command, id)
  }

  function DirOf(e: Env, target: Target): Option<string> {
    AgentTmpPath(target.name, target.pid, target.root, e.normal)
  }

  /** `vetRemoval` passes. */
  ghost predicate Vetted(e: Env, nodes: Nodes, target: Target) {
    && DirOf(e, target).Some?
    && (target.root == TMP_ROOT || OwnDir(nodes, target.root, e.uid))
    && OwnDir(nodes, DirOf(e, target).value, e.uid)
    && !Held(e.table, e.self, target, DirOf(e, target).value)
  }

  predicate FailedRecently(failed: map<string, int>, now: int, path: string) {
    path in failed && now - failed[path] < FAILED_RETRY_MS
  }

  /** A directory of a finished name found under an accepted root that exists. */
  ghost predicate Chosen(e: Env, nodes: Nodes, target: Target) {
    && target.root in e.roots && IsTmpRoot(target.root, e.normal) && target.root in nodes
    && FinishedName(e.roster, e.now, target.name) && target.agentIds == IdsOf(e.roster, target.name)
    && exists i :: Found(e, target, i)
  }

  /** Entry `i` of the root is the target's. */
  predicate Found(e: Env, target: Target, i: int) {
    && 0 <= i < |e.listing(target.root)|
    && PidOf(e.listing(target.root)[i], target.name, target.root, e.normal) == Some(target.pid)
  }

  ghost predicate Removable(e: Env, nodes: Nodes, failed: map<string, int>, target: Target) {
    && !Launching(e, target) && Vetted(e, nodes, target)
    && !FailedRecently(failed, e.now, DirOf(e, target).value)
  }

  /** A directory the pass may remove, given the file system it started from. */
  ghost predicate Due(e: Env, nodes: Nodes, failed: map<string, int>, target: Target) {
    Chosen(e, nodes, target) && Removable(e, nodes, failed, target)
  }

  ghost predicate DueDir(e: Env, nodes: Nodes, failed: map<string, int>, dir: string) {
    exists target :: Due(e, nodes, failed, target) && DirOf(e, target) == Some(dir)
  }

  // ----- a pass so far -----

  /** What is gone was inside a directory due for removal, nothing else changed, and what went took along all
    * it held. */
  ghost predicate Shrunk(e: Env, nodes: Nodes, failed: map<string, int>, now: Nodes) {
    && (forall p :: p in now ==> p in nodes && now[p] == nodes[p])
    && (forall p :: p in nodes && p !in now ==> exists dir :: DueDir(e, nodes, failed, dir) && IsInside(p, dir))
    && (forall p, q {:trigger IsInside(q, p)} :: IsInside(q, p) && q in now && p in nodes ==> p in now)
  }

  /** The memory of failures grows only, by failures of this pass. */
  ghost predicate Remembers(e: Env, failed: map<string, int>, now: map<string, int>) {
    && (forall p :: p in failed ==> p in now)
    && (forall p :: p in now ==> (p in failed && now[p] == failed[p]) || (now[p] == e.now && e.reclaim(p).Threw?))
  }

  ghost predicate Handled(e: Env, nodes: Nodes, failed: map<string, int>, now: Nodes, target: Target) {
    Removable(e, nodes, failed, target) && e.reclaim(DirOf(e, target).value).Done? ==> DirOf(e, target).value !in now
  }

  /** What a removal leaves. */
  ghost function After(nodes: Nodes, dir: string, outcome: Outcome): Nodes {
    match outcome
    case Done => Cleared(nodes, dir)
    case Partial(cut) => Thinned(nodes, dir, cut)
    case Threw(cut) => Thinned(nodes, dir, cut)
  }

  /** What one removal attempt leaves. */
  ghost function Left(e: Env, nodes: Nodes, dir: string): Nodes { After(nodes, dir, e.reclaim(dir)) }

  ghost predicate InsideOnly(nodes: Nodes, dir: string, now: Nodes) {
    && (forall p :: p in now ==> p in nodes && now[p] == nodes[p])
    && (forall p :: p in nodes && p !in now ==> IsInside(p, dir))
    && (forall p, q {:trigger IsInside(q, p)} :: IsInside(q, p) && q in now && p in nodes ==> p in now)
  }

  lemma LeftIsInsideOnly(e: Env, nodes: Nodes, dir: string)
    ensures InsideOnly(nodes, dir, Left(e, nodes, dir))
  {
    var now := Left(e, nodes, dir);
    forall p, q | p in nodes && p !in now && q in nodes && IsInside(q, p)
      ensures q !in now && IsInside(p, dir)
    {
      if !e.reclaim(dir).Done? {
        var c :| c in e.reclaim(dir).cut && c != dir && IsInside(c, dir) && IsInside(p, c);
      }
    }
    forall p | p in nodes && p !in now
      ensures IsInside(p, dir)
    {
      assert IsInside(p, p);
    }
  }

  lemma OneMoreShrinks(e: Env, nodes: Nodes, failed: map<string, int>, now: Nodes, dir: string, next: Nodes)
    requires Shrunk(e, nodes, failed, now) && DueDir(e, nodes, failed, dir) && InsideOnly(now, dir, next)
    ensures Shrunk(e, nodes, failed, next)
  {
  }

  /** A directory that could be removed when the pass began is gone once its turn has been. */
  lemma TurnTaken(e: Env, nodes: Nodes, failed: map<string, int>, now: Nodes, failedNow: map<string, int>,
                  next: Nodes, target: Target)
    requires Shrunk(e, nodes, failed, now) && Remembers(e, failed, failedNow) && Chosen(e, nodes, target)
    requires if Removable(e, now, failedNow, target) then next == Left(e, now, DirOf(e, target).value) else next == now
    ensures Handled(e, nodes, failed, next, target)
  {
    if Removable(e, nodes, failed, target) && e.reclaim(DirOf(e, target).value).Done? {
      var dir := DirOf(e, target).value;
      TmpPathIsInside(target.name, target.pid, target.root, e.normal);
      assert IsInside(dir, dir);
    }
  }

  lemma RootGone(e: Env, nodes: Nodes, failed: map<string, int>, now: Nodes, target: Target)
    requires Shrunk(e, nodes, failed, now) && Chosen(e, nodes, target) && target.root !in now
    ensures Handled(e, nodes, failed, now, target)
  {
    if DirOf(e, target).Some? { TmpPathIsInside(target.name, target.pid, target.root, e.normal); }
  }

  ghost predicate Punctual(e: Env) { forall dir :: !e.late(dir) }

  /** The pass has come this far from `nodes` and `failed`. */
  ghost predicate Under(e: Env, nodes: Nodes, failed: map<string, int>, now: Nodes, failedNow: map<string, int>) {
    Shrunk(e, nodes, failed, now) && Remembers(e, failed, failedNow)
  }

  ghost predicate HandledEntry(e: Env, nodes: Nodes, failed: map<string, int>, now: Nodes, root: string, i: int) {
    forall target: Target :: target.root == root && Chosen(e, nodes, target) && Found(e, target, i) ==>
      Handled(e, nodes, failed, now, target)
  }

  ghost predicate HandledName(e: Env, nodes: Nodes, failed: map<string, int>, now: Nodes, root: string, i: int, name: string) {
    forall target: Target :: target.root == root && target.name == name && Chosen(e, nodes, target) && Found(e, target, i) ==>
      Handled(e, nodes, failed, now, target)
  }

  ghost predicate HandledBut(e: Env, nodes: Nodes, failed: map<string, int>, now: Nodes, root: string, i: int, left: set<string>) {
    forall target: Target :: target.root == root && target.name !in left && Chosen(e, nodes, target) && Found(e, target, i) ==>
      Handled(e, nodes, failed, now, target)
  }

  lemma OneMoreName(e: Env, nodes: Nodes, failed: map<string, int>, now: Nodes, next: Nodes, root: string, i: int,
                    left: set<string>, name: string)
    requires HandledBut(e, nodes, failed, now, root, i, left) && next.Keys <= now.Keys
    requires HandledName(e, nodes, failed, next, root, i, name)
    ensures HandledBut(e, nodes, failed, next, root, i, left - {name})
  {
  }

  ghost predicate HandledTo(e: Env, nodes: Nodes, failed: map<string, int>, now: Nodes, root: string, i: int) {
    forall j :: 0 <= j < i ==> HandledEntry(e, nodes, failed, now, root, j)
  }

  ghost predicate HandledRoot(e: Env, nodes: Nodes, failed: map<string, int>, now: Nodes, root: string) {
    forall target: Target :: target.root == root && Chosen(e, nodes, target) ==> Handled(e, nodes, failed, now, target)
  }

  lemma StaysHandledTo(e: Env, nodes: Nodes, failed: map<string, int>, now: Nodes, next: Nodes, root: string, i: int)
    requires HandledTo(e, nodes, failed, now, root, i) && next.Keys <= now.Keys
    ensures HandledTo(e, nodes, failed, next, root, i)
  {
    forall j | 0 <= j < i
      ensures HandledEntry(e, nodes, failed, next, root, j)
    {
      assert HandledEntry(e, nodes, failed, now, root, j);
    }
  }

  ghost predicate HandledRoots(e: Env, nodes: Nodes, failed: map<string, int>, now: Nodes, i: int) {
    i <= |e.roots| && forall j :: 0 <= j < i ==> HandledRoot(e, nodes, failed, now, e.roots[j])
  }

  lemma OneMoreRoot(e: Env, nodes: Nodes, failed: map<string, int>, now: Nodes, next: Nodes, i: nat)
    requires HandledRoots(e, nodes, failed, now, i) && next.Keys <= now.Keys
    requires i < |e.roots| && HandledRoot(e, nodes, failed, next, e.roots[i])
    ensures HandledRoots(e, nodes, failed, next, i + 1)
  {
    forall j | 0 <= j < i
      ensures HandledRoot(e, nodes, failed, next, e.roots[j])
    {
    }
  }

  /** Every directory chosen has had its turn: if it could be removed when the pass began, and removing it is
    * not cut short, it is gone. */
  ghost predicate AllHandled(e: Env, nodes: Nodes, failed: map<string, int>, now: Nodes) {
    forall target :: Chosen(e, nodes, target) ==> Handled(e, nodes, failed, now, target)
  }

  lemma AllEntriesHandled(e: Env, nodes: Nodes, failed: map<string, int>, now: Nodes, root: string)
    requires HandledTo(e, nodes, failed, now, root, |e.listing(root)|)
    ensures HandledRoot(e, nodes, failed, now, root)
  {
    forall target: Target | target.root == root && Chosen(e, nodes, target)
      ensures Handled(e, nodes, failed, now, target)
    {
      var i :| Found(e, target, i);
      assert HandledEntry(e, nodes, failed, now, root, i);
    }
  }

  /** An entry that does not start with `ac-` is no target's. */
  lemma OtherEntry(e: Env, nodes: Nodes, failed: map<string, int>, now: Nodes, root: string, i: nat)
    requires i < |e.listing(root)| && !StartsWith(e.listing(root)[i], "ac-")
    ensures HandledEntry(e, nodes, failed, now, root, i)
  {
    forall target: Target | target.root == root
      ensures !Found(e, target, i)
    {
      assert Found(e, target, i) ==> StartsWith(e.listing(root)[i], "ac-");
    }
  }

  lemma GoneRoot(e: Env, nodes: Nodes, failed: map<string, int>, now: Nodes, root: string)
    requires Shrunk(e, nodes, failed, now) && (!IsTmpRoot(root, e.normal) || root !in now)
    ensures HandledRoot(e, nodes, failed, now, root)
  {
    forall target: Target | target.root == root && Chosen(e, nodes, target)
      ensures Handled(e, nodes, failed, now, target)
    {
      RootGone(e, nodes, failed, now, target);
    }
  }

  class Sweeper {
    const e: Env
    var nodes: Nodes
    var failed: map<string, int>

    constructor (e: Env, nodes: Nodes, failed: map<string, int>)
      ensures this.e == e && this.nodes == nodes && this.failed == failed
    {
      this.e, this.nodes, this.failed := e, nodes, failed;
    }

    /** `vetRemoval`: the directory to remove, or None. */
    method VetRemoval(target: Target) returns (dir: Option<string>)
      ensures dir.Some? <==> Vetted(e, nodes, target)
      ensures dir.Some? ==> dir == DirOf(e, target)
    {
      dir := DirOf(e, target);
      if dir.None? {
        return;
      }
      if target.root != TMP_ROOT && !OwnDir(nodes, target.root, e.uid) {
        return None;
      }
      if !OwnDir(nodes, dir.value, e.uid) {
        return None;
      }
      var busy := Holder(e.table, e.self, target, dir.value);
      if busy.Some? {
        return None;
      }
    }

    /** `sweepOne`. */
    method SweepOne(target: Target)
      modifies this
      ensures !Removable(e, old(nodes), old(failed), target) ==> nodes == old(nodes) && failed == old(failed)
      ensures Removable(e, old(nodes), old(failed), target) ==>
                var dir := DirOf(e, target).value;
                match e.reclaim(dir)
                case Done => nodes == Cleared(old(nodes), dir) && failed == old(failed)
                case Partial(cut) => nodes == Thinned(old(nodes), dir, cut) && failed == old(failed)
                case Threw(cut) => nodes == Thinned(old(nodes), dir, cut) && failed == old(failed)[dir := e.now]
    {
      if Launching(e, target) {
        return;
      }
      var path := DirOf(e, target);
      if path.Some? && FailedRecently(failed, e.now, path.value) {
        return;
      }
      var dir := VetRemoval(target);
      if dir.None? {
        return;
      }
      match e.reclaim(dir.value)
      case Done =>
        nodes := Cleared(nodes, dir.value);
      case Partial(cut) =>
        nodes := Thinned(nodes, dir.value, cut);
      case Threw(cut) =>
        nodes := Thinned(nodes, dir.value, cut);
        failed := failed[dir.value := e.now];
    }

    /** The targets of one entry. */
    method SweepEntry(root: string, i: nat, names: map<string, set<string>>, ghost start: Nodes, ghost before: map<string, int>)
      returns (late: bool)
      requires i < |e.listing(root)| && NamesOf(names) && RootOk(root, start)
      requires Under(e, start, before, nodes, failed)
      modifies this
      ensures Under(e, start, before, nodes, failed) && nodes.Keys <= old(nodes).Keys
      ensures late ==> !Punctual(e)
      ensures !late ==> HandledEntry(e, start, before, nodes, root, i)
    {
      var left := names.Keys;
      late := false;
      assert HandledBut(e, start, before, nodes, root, i, left);
      while left != {}
        invariant left <= names.Keys
        invariant Under(e, start, before, nodes, failed) && nodes.Keys <= old(nodes).Keys
        invariant HandledBut(e, start, before, nodes, root, i, left)
      {
        var name :| name in left;
        ghost var had := nodes;
        late := SweepName(root, i, name, names, start, before);
        if late {
          return;
        }
        OneMoreName(e, start, before, had, nodes, root, i, left, name);
        left := left - {name};
      }
    }

    /** The target of one entry and one name, if it is one. */
    method SweepName(root: string, i: nat, name: string, names: map<string, set<string>>, ghost start: Nodes,
                     ghost before: map<string, int>)
      returns (late: bool)
      requires i < |e.listing(root)| && NamesOf(names) && name in names && RootOk(root, start)
      requires Under(e, start, before, nodes, failed)
      modifies this
      ensures Under(e, start, before, nodes, failed) && nodes.Keys <= old(nodes).Keys
      ensures late ==> !Punctual(e)
      ensures !late ==> HandledName(e, start, before, nodes, root, i, name)
    {
      late := false;
      var entry := e.listing(root)[i];
      var pid := PidOf(entry, name, root, e.normal);
      if pid.Some? {
        PidOfIsExact(entry, name, root, e.normal, pid.value);
        var target := Target(name, pid.value, names[name], root);
        assert Found(e, target, i);
        if e.late(DirOf(e, target).value) {
          return true;
        }
        SweepTarget(target, start, before);
      }
    }

    ghost predicate NamesOf(names: map<string, set<string>>) {
      && (forall name :: name in names <==> FinishedName(e.roster, e.now, name))
      && (forall name :: name in names ==> names[name] == IdsOf(e.roster, name))
    }

    ghost predicate RootOk(root: string, start: Nodes) {
      root in e.roots && IsTmpRoot(root, e.normal) && root in start
    }

    method SweepTarget(target: Target, ghost start: Nodes, ghost before: map<string, int>)
      requires Chosen(e, start, target) && Under(e, start, before, nodes, failed)
      modifies this
      ensures Under(e, start, before, nodes, failed) && nodes.Keys <= old(nodes).Keys
      ensures Handled(e, start, before, nodes, target)
    {
      ghost var (had, knew) := (nodes, failed);
      SweepOne(target);
      TurnTaken(e, start, before, had, knew, nodes, target);
      if Removable(e, had, knew, target) {
        var dir := DirOf(e, target).value;
        LeftIsInsideOnly(e, had, dir);
        OneMoreShrinks(e, start, before, had, dir, nodes);
      }
    }

    /** One entry, and those before it as they were. */
    method SweepNext(root: string, i: nat, names: map<string, set<string>>, ghost start: Nodes, ghost before: map<string, int>)
      returns (late: bool)
      requires i < |e.listing(root)| && NamesOf(names) && RootOk(root, start)
      requires Under(e, start, before, nodes, failed) && HandledTo(e, start, before, nodes, root, i)
      modifies this
      ensures Under(e, start, before, nodes, failed) && nodes.Keys <= old(nodes).Keys
      ensures if late then !Punctual(e) else HandledTo(e, start, before, nodes, root, i + 1)
    {
      if StartsWith(e.listing(root)[i], "ac-") {
        ghost var had := nodes;
        late := SweepEntry(root, i, names, start, before);
        if !late { StaysHandledTo(e, start, before, had, nodes, root, i); }
      } else {
        late := false;
        OtherEntry(e, start, before, nodes, root, i);
      }
    }

    /** `sweepRoot`. */
    method SweepRoot(root: string, names: map<string, set<string>>, ghost start: Nodes, ghost before: map<string, int>)
      requires NamesOf(names) && RootOk(root, start) && Under(e, start, before, nodes, failed)
      modifies this
      ensures Under(e, start, before, nodes, failed) && nodes.Keys <= old(nodes).Keys
      ensures Punctual(e) ==> HandledRoot(e, start, before, nodes, root)
    {
      var entries := e.listing(root);
      var i := 0;
      while i < |entries|
        invariant 0 <= i <= |entries|
        invariant Under(e, start, before, nodes, failed) && nodes.Keys <= old(nodes).Keys
        invariant HandledTo(e, start, before, nodes, root, i)
      {
        var late := SweepNext(root, i, names, start, before);
        if late {
          return;
        }
        i := i + 1;
      }
      AllEntriesHandled(e, start, before, nodes, root);
    }

    /** `sweepAgentTmpDirs`: all that is gone was due, and with time enough all that was due is gone. */
    method Sweep()
      modifies this
      ensures Shrunk(e, old(nodes), old(failed), nodes)
      ensures Punctual(e) ==> AllHandled(e, old(nodes), old(failed), nodes)
    {
      var names := FinishedNames(e.roster, e.now);
      if |names| == 0 {
        assert forall name :: name !in names;
        return;
      }
      ghost var (start, before) := (nodes, failed);
      var i := 0;
      while i < |e.roots|
        invariant 0 <= i <= |e.roots|
        invariant Under(e, start, before, nodes, failed)
        invariant Punctual(e) ==> HandledRoots(e, start, before, nodes, i)
      {
        ghost var had := nodes;
        SweepAnyRoot(e.roots[i], names, start, before);
        if Punctual(e) { OneMoreRoot(e, start, before, had, nodes, i); }
        i := i + 1;
      }
    }

    /** A root that is not accepted or does not exist is skipped. */
    method SweepAnyRoot(root: string, names: map<string, set<string>>, ghost start: Nodes, ghost before: map<string, int>)
      requires NamesOf(names) && root in e.roots && Under(e, start, before, nodes, failed)
      modifies this
      ensures Under(e, start, before, nodes, failed) && nodes.Keys <= old(nodes).Keys
      ensures Punctual(e) ==> HandledRoot(e, start, before, nodes, root)
    {
      if IsTmpRoot(root, e.normal) && root in nodes {
        SweepRoot(root, names, start, before);
      } else {
        GoneRoot(e, start, before, nodes, root);
      }
    }
  }

  lemma RemovedWasDue(e: Env, nodes: Nodes, failed: map<string, int>, now: Nodes, path: string) returns (target: Target)
    requires Shrunk(e, nodes, failed, now) && path in nodes && path !in now
    ensures Due(e, nodes, failed, target) && IsInside(path, DirOf(e, target).value)
  {
    var dir :| DueDir(e, nodes, failed, dir) && IsInside(path, dir);
    target :| Due(e, nodes, failed, target) && DirOf(e, target) == Some(dir);
  }

  /** What is due is `<accepted root>/ac-<name>-<pid>` for one name and one launcher, an own directory. */
  lemma DueIsNarrow(e: Env, nodes: Nodes, failed: map<string, int>, target: Target)
    requires Due(e, nodes, failed, target)
    ensures target.root in e.roots && IsTmpRoot(target.root, e.normal) && ValidName(target.name) && target.pid > 0
    ensures DirOf(e, target) == Some(target.root + "/" + Entry(target.name, target.pid))
    ensures OwnDir(nodes, DirOf(e, target).value, e.uid) && (target.root != TMP_ROOT ==> OwnDir(nodes, target.root, e.uid))
  {
  }

  /** Process `p` has a live process's claim on the directory: it carries the launch's own identity, the id of one of
    * the name's rows and the launcher's pid, or its working directory or an open file is the directory or in it. */
  ghost predicate Claims(p: Proc, roster: seq<I.Agent>, name: string, pid: nat, dir: string) {
    && p.alive
    && (|| (exists a :: a in roster && a.name == name && p.agentId == Some(a.agentId)
                        && p.launcherPid == Some(Decimals.Decimal(pid)))
        || (p.cwd.Some? && (p.cwd.value == dir || dir + "/" <= p.cwd.value))
        || exists i :: 0 <= i < |p.fds| && (p.fds[i] == dir || dir + "/" <= p.fds[i]))
  }

  /** All that must hold of a directory for it to go: it is `<root>/ac-<name>-<pid>`, a directory of this user's, as is
    * its root unless that is `/tmp`; the name has rows, and every one ended three minutes ago or more; the launcher is
    * gone or is no launcher of theirs; no removal failed in the last six hours; and nobody outside the caller's own
    * line has a claim on it. */
  ghost predicate MayGo(e: Env, nodes: Nodes, failed: map<string, int>, name: string, pid: nat, root: string, dir: string) {
    && root in e.roots && dir == root + "/ac-" + name + "-" + Decimals.Decimal(pid)
    && dir in nodes && nodes[dir].directory && !nodes[dir].symlink && nodes[dir].uid == e.uid
    && (root != "/tmp" ==> root in nodes && nodes[root].directory && !nodes[root].symlink && nodes[root].uid == e.uid)
    && (exists a :: a in e.roster && a.name == name)
    && (forall a :: a in e.roster && a.name == name ==> LongEnded(a, e.now))
    && (pid in e.table.procs && e.table.procs[pid].alive ==>
          forall a :: a in e.roster && a.name == name ==> !e.launcherOf(e.table.procs[pid].command, a.agentId))
    && (dir in failed ==> e.now >= failed[dir] + 21_600_000)
    && (forall i :: 0 <= i < |e.table.pids| && e.table.pids[i] in e.table.procs ==>
          Ancestor(e.table, e.self, e.table.pids[i])
          || !Claims(e.table.procs[e.table.pids[i]], e.roster, name, pid, dir))
  }

  lemma TiesAreClaims(p: Proc, roster: seq<I.Agent>, target: Target, dir: string)
    requires target.agentIds == IdsOf(roster, target.name)
    ensures p.alive && Ties(p, target, dir) <==> Claims(p, roster, target.name, target.pid, dir)
  {
    assert forall t: string :: StartsWith(t, dir + "/") <==> dir + "/" <= t;
    if p.agentId.Some? && p.agentId.value in target.agentIds {
      var a :| a in roster && a.name == target.name && a.agentId == p.agentId.value;
    }
    assert forall a :: a in roster && a.name == target.name ==> a.agentId in target.agentIds;
  }

  lemma NobodyClaims(e: Env, target: Target, dir: string, i: nat)
    requires target.agentIds == IdsOf(e.roster, target.name) && !Held(e.table, e.self, target, dir)
    requires i < |e.table.pids| && e.table.pids[i] in e.table.procs
    ensures Ancestor(e.table, e.self, e.table.pids[i])
            || !Claims(e.table.procs[e.table.pids[i]], e.roster, target.name, target.pid, dir)
  {
    TiesAreClaims(e.table.procs[e.table.pids[i]], e.roster, target, dir);
    assert !HeldBy(e.table, e.self, target, dir, e.table.pids[i]);
  }

  lemma LauncherIsGone(e: Env, target: Target)
    requires target.agentIds == IdsOf(e.roster, target.name) && !Launching(e, target)
    requires target.pid in e.table.procs && e.table.procs[target.pid].alive
    ensures forall a :: a in e.roster && a.name == target.name ==> !e.launcherOf(e.table.procs[target.pid].command, a.agentId)
  {
    forall a | a in e.roster && a.name == target.name
      ensures !e.launcherOf(e.table.procs[target.pid].command, a.agentId)
    {
      assert a.agentId in target.agentIds;
    }
  }

  /** Exactly such a directory is due, once a sweep comes upon it: its path is one a launch makes under an accepted
    * root, which exists and lists it. */
  lemma DueIff(e: Env, nodes: Nodes, failed: map<string, int>, target: Target)
    requires UniqueIds(e.roster) && target.agentIds == IdsOf(e.roster, target.name)
    ensures Due(e, nodes, failed, target) <==>
              && DirOf(e, target).Some? && target.root in nodes && |Decimals.Decimal(target.pid)| <= 10
              && Entry(target.name, target.pid) in e.listing(target.root)
              && MayGo(e, nodes, failed, target.name, target.pid, target.root, DirOf(e, target).value)
  {
    if Due(e, nodes, failed, target) { DueMeans(e, nodes, failed, target); }
    if DirOf(e, target).Some? && MayGo(e, nodes, failed, target.name, target.pid, target.root, DirOf(e, target).value) {
      MayGoIsRemovable(e, nodes, failed, target);
      FinishedNameMeans(e.roster, e.now, target.name);
    }
    forall i | 0 <= i < |e.listing(target.root)|
      ensures Found(e, target, i) <==>
                && e.listing(target.root)[i] == Entry(target.name, target.pid)
                && DirOf(e, target).Some? && |Decimals.Decimal(target.pid)| <= 10
    {
      PidOfIsExact(e.listing(target.root)[i], target.name, target.root, e.normal, target.pid);
    }
  }

  lemma MayGoIsRemovable(e: Env, nodes: Nodes, failed: map<string, int>, target: Target)
    requires target.agentIds == IdsOf(e.roster, target.name) && DirOf(e, target).Some?
    requires MayGo(e, nodes, failed, target.name, target.pid, target.root, DirOf(e, target).value)
    ensures Removable(e, nodes, failed, target)
  {
    var dir := DirOf(e, target).value;
    forall i | 0 <= i < |e.table.pids|
      ensures !HeldBy(e.table, e.self, target, dir, e.table.pids[i])
    {
      TiesAreClaims(ProcOf(e.table, e.table.pids[i]), e.roster, target, dir);
    }
    assert forall id :: id in target.agentIds ==> exists a :: a in e.roster && a.name == target.name && a.agentId == id;
  }

  /** Only such a directory is due. */
  lemma DueMeans(e: Env, nodes: Nodes, failed: map<string, int>, target: Target)
    requires UniqueIds(e.roster) && Due(e, nodes, failed, target)
    ensures MayGo(e, nodes, failed, target.name, target.pid, target.root, DirOf(e, target).value)
    ensures target.agentIds == IdsOf(e.roster, target.name) && target.root in nodes && |Decimals.Decimal(target.pid)| <= 10
    ensures Entry(target.name, target.pid) in e.listing(target.root)
  {
    FinishedNameMeans(e.roster, e.now, target.name);
    var dir := DirOf(e, target).value;
    assert dir == target.root + "/ac-" + target.name + "-" + Decimals.Decimal(target.pid);
    if target.pid in e.table.procs && e.table.procs[target.pid].alive { LauncherIsGone(e, target); }
    forall i | 0 <= i < |e.table.pids| && e.table.pids[i] in e.table.procs
      ensures Ancestor(e.table, e.self, e.table.pids[i])
              || !Claims(e.table.procs[e.table.pids[i]], e.roster, target.name, target.pid, dir)
    {
      NobodyClaims(e, target, dir, i);
    }
    var i :| Found(e, target, i);
    PidOfIsExact(e.listing(target.root)[i], target.name, target.root, e.normal, target.pid);
  }

  /** Whatever a pass removed was in one such directory. */
  lemma RemovedMeans(e: Env, nodes: Nodes, failed: map<string, int>, now: Nodes, path: string)
    returns (name: string, pid: nat, root: string, dir: string)
    requires UniqueIds(e.roster)
    requires Shrunk(e, nodes, failed, now) && path in nodes && path !in now
    ensures MayGo(e, nodes, failed, name, pid, root, dir) && (path == dir || dir + "/" <= path)
  {
    var target := RemovedWasDue(e, nodes, failed, now, path);
    name, pid, root, dir := target.name, target.pid, target.root, DirOf(e, target).value;
    DueMeans(e, nodes, failed, target);
  }

  /** So a name with a row that has not ended, or not three minutes ago, loses nothing. */
  lemma OpenNameKeepsAll(e: Env, nodes: Nodes, failed: map<string, int>, target: Target, a: I.Agent)
    requires UniqueIds(e.roster) && a in e.roster && a.name == target.name
    requires (a.state != I.Exited && a.state != I.Retired)
             || e.now < (if a.exitedAt.Some? then a.exitedAt.value else a.lastEventAt) + 180_000
    ensures !Due(e, nodes, failed, target)
  {
    if Due(e, nodes, failed, target) { DueMeans(e, nodes, failed, target); }
  }

  /** By the log: retired, or an exit three minutes old or more that still stands. */
  ghost predicate LongOver(acting: seq<I.Row>, now: int) {
    || (exists k :: 0 <= k < |acting| && acting[k].kind == I.AgentRetired)
    || (exists k: nat :: I.ExitStands(acting, k) && now >= acting[k].ts + 180_000)
  }

  lemma EndedIsOver(a: I.Agent, acting: seq<I.Row>, now: int)
    requires I.HasEnded(a, acting) && LongEnded(a, now)
    ensures LongOver(acting, now)
  {
  }

  /** The log itself says of each row of the name that it has ended. */
  lemma DueHasEnded(e: Env, nodes: Nodes, failed: map<string, int>, target: Target, rows: seq<I.Row>, a: I.Agent)
    requires e.roster == AgentLog.FoldAll(rows) && UniqueIds(e.roster) && Due(e, nodes, failed, target)
    requires a in e.roster && a.name == target.name
    ensures LongOver(I.Acting(AgentLog.RowsFor(rows, a.agentId)), e.now)
  {
    DueMeans(e, nodes, failed, target);
    AgentLog.RosterAgreesWithGet(rows, a);
    I.EndedInLog(AgentLog.RowsFor(rows, a.agentId));
    EndedIsOver(a, I.Acting(AgentLog.RowsFor(rows, a.agentId)), e.now);
  }
}
