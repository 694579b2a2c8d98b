/** The walk that finds an agent's ledger parent past ancestors that ended before this broker started,
  * on any lineage graph, and the index of spawn rows it reads. */
module SurvivorRoot {
  import opened Options

  const LINEAGE_BOUND: nat := 512

  datatype Parent = Human | Named(id: string)

  /** Strings are "" when absent. */
  datatype Meta = Meta(teleportFrom: string, parent: string)

  datatype Mismatch = Mismatch(detail: string)

  datatype Lineage = Lineage(spawnMeta: string -> Option<Meta>, knows: string -> bool, running: string -> bool,
                         onRecord: string -> Option<Mismatch>)

  datatype Inherited = Inherited(via: string, mismatch: Mismatch)

  datatype Unresolved = Loops(at: string) | OverBound

  datatype Root = Root(parent: Parent, inherited: Option<Inherited>, unresolved: Option<Unresolved>)

  function LedgerParentOf(meta: Option<Meta>): Parent {
    if meta.None? then Human
    else if meta.value.teleportFrom != "" then Named(meta.value.teleportFrom)
    else if meta.value.parent != "" then Named(meta.value.parent)
    else Human
  }

  // ----- the lineage -----

  function ParentOf(p: Parent, tree: Lineage): Parent {
    if p.Human? then Human else LedgerParentOf(tree.spawnMeta(p.id))
  }

  /** The ancestor `k` steps above the recorded parent. */
  function Ancestor(meta: Option<Meta>, tree: Lineage, k: nat): Parent {
    if k == 0 then LedgerParentOf(meta) else ParentOf(Ancestor(meta, tree, k - 1), tree)
  }

  /** An ancestor the walk can root at: enrolled here, running, or without a spawn row. */
  predicate Anchor(p: Parent, tree: Lineage) {
    p.Named? && (tree.knows(p.id) || tree.running(p.id) || tree.spawnMeta(p.id).None?)
  }

  /** An ancestor to walk past. */
  predicate Skipped(p: Parent, tree: Lineage) { p.Named? && !Anchor(p, tree) }

  /** The first `k` ancestors are all walked past, and none is the agent itself. */
  ghost predicate SkipsTo(agentId: string, meta: Option<Meta>, tree: Lineage, k: nat) {
    forall j: nat :: j < k ==> Skipped(Ancestor(meta, tree, j), tree) && Ancestor(meta, tree, j) != Named(agentId)
  }

  ghost predicate Seen(agentId: string, meta: Option<Meta>, tree: Lineage, k: nat) {
    || Ancestor(meta, tree, k) == Named(agentId)
    || Met(meta, tree, k, Ancestor(meta, tree, k))
  }

  ghost predicate Met(meta: Option<Meta>, tree: Lineage, k: nat, p: Parent) {
    exists j: nat :: j < k && Ancestor(meta, tree, j) == p
  }

  lemma {:induction false} SameSteps(meta: Option<Meta>, tree: Lineage, i: nat, j: nat, m: nat)
    requires Ancestor(meta, tree, i) == Ancestor(meta, tree, j)
    ensures Ancestor(meta, tree, i + m) == Ancestor(meta, tree, j + m)
  {
    if m > 0 { SameSteps(meta, tree, i, j, m - 1); }
  }

  /** A lineage that comes to an anchor or to the human has not met any ancestor twice. */
  lemma ArrivingMeansNoLoop(agentId: string, meta: Option<Meta>, tree: Lineage, k: nat, i: nat, j: nat)
    requires SkipsTo(agentId, meta, tree, k) && !Skipped(Ancestor(meta, tree, k), tree)
    requires i < j <= k
    ensures Ancestor(meta, tree, i) != Ancestor(meta, tree, j)
  {
    if Ancestor(meta, tree, i) == Ancestor(meta, tree, j) {
      assert Skipped(Ancestor(meta, tree, i + (k - j)), tree) && j + (k - j) == k;
      SameSteps(meta, tree, i, j, k - j);
    }
  }

  // ----- what the walk answers -----

  /** Where the walk ends when it has passed the first `k` ancestors: the root, and what is unresolved. */
  ghost function EndFrom(agentId: string, meta: Option<Meta>, tree: Lineage, k: nat): (Parent, Option<Unresolved>)
    decreases LINEAGE_BOUND - k
  {
    var next := Ancestor(meta, tree, k);
    if next.Human? then (Human, None)
    else if Seen(agentId, meta, tree, k) then (LedgerParentOf(meta), Some(Loops(next.id)))
    else if k >= LINEAGE_BOUND then (LedgerParentOf(meta), Some(OverBound))
    else if Anchor(next, tree) then (next, None)
    else EndFrom(agentId, meta, tree, k + 1)
  }

  ghost function End(agentId: string, meta: Option<Meta>, tree: Lineage): (Parent, Option<Unresolved>) {
    EndFrom(agentId, meta, tree, 0)
  }

  /** Ancestor `k` is one whose record the walk may take: skipped, or the row-less one it roots at. */
  ghost predicate Asked(agentId: string, meta: Option<Meta>, tree: Lineage, k: nat) {
    && k < LINEAGE_BOUND && SkipsTo(agentId, meta, tree, k)
    && !Seen(agentId, meta, tree, k)
    && (forall j: nat :: j < k ==> !Seen(agentId, meta, tree, j))
    && var p := Ancestor(meta, tree, k); p.Named? && !tree.knows(p.id) && !tree.running(p.id)
  }

  ghost predicate OnRecord(meta: Option<Meta>, tree: Lineage, k: nat) {
    var p := Ancestor(meta, tree, k); p.Named? && tree.onRecord(p.id).Some?
  }

  /** The nearest ancestor among those asked that an earlier broker recorded a quarantine for. */
  ghost predicate IsInherited(agentId: string, meta: Option<Meta>, tree: Lineage, found: Option<Inherited>) {
    if found.None? then forall k: nat :: Asked(agentId, meta, tree, k) ==> !OnRecord(meta, tree, k)
    else exists k: nat :: Asked(agentId, meta, tree, k) && OnRecord(meta, tree, k)
           && (forall j: nat :: j < k ==> !OnRecord(meta, tree, j))
           && Ancestor(meta, tree, k) == Named(found.value.via)
           && tree.onRecord(found.value.via) == Some(found.value.mismatch)
  }

  /** `r` is what the walk from `agentId` must answer. */
  ghost predicate Answers(agentId: string, meta: Option<Meta>, tree: Lineage, r: Root) {
    (r.parent, r.unresolved) == End(agentId, meta, tree) && IsInherited(agentId, meta, tree, r.inherited)
  }

  // ----- the walk -----

  ghost function VisitedTo(agentId: string, meta: Option<Meta>, tree: Lineage, k: nat): set<string> {
    if k == 0 then {agentId}
    else
      var p := Ancestor(meta, tree, k - 1);
      VisitedTo(agentId, meta, tree, k - 1) + if p.Named? then {p.id} else {}
  }

  ghost predicate Unseen(agentId: string, meta: Option<Meta>, tree: Lineage, k: nat) {
    forall j: nat :: j < k ==> !Seen(agentId, meta, tree, j)
  }

  ghost predicate InheritedTo(meta: Option<Meta>, tree: Lineage, k: nat, found: Option<Inherited>) {
    if found.None? then forall j: nat :: j < k ==> !OnRecord(meta, tree, j)
    else exists j: nat :: j < k && OnRecord(meta, tree, j) && (forall i: nat :: i < j ==> !OnRecord(meta, tree, i))
           && Ancestor(meta, tree, j) == Named(found.value.via)
           && tree.onRecord(found.value.via) == Some(found.value.mismatch)
  }

  /** The walk has passed exactly the first `k` ancestors. */
  ghost predicate Walked(agentId: string, meta: Option<Meta>, tree: Lineage, k: nat, visited: set<string>,
                         found: Option<Inherited>) {
    && k <= LINEAGE_BOUND
    && visited == VisitedTo(agentId, meta, tree, k) && |visited| == k + 1
    && SkipsTo(agentId, meta, tree, k) && Unseen(agentId, meta, tree, k)
    && InheritedTo(meta, tree, k, found)
    && End(agentId, meta, tree) == EndFrom(agentId, meta, tree, k)
  }

  /** `survivorRoot`. At most 513 ancestors are looked at, whatever the graph. */
  method Resolve(agentId: string, meta: Option<Meta>, tree: Lineage) returns (r: Root)
    ensures Answers(agentId, meta, tree, r)
  {
    var recorded := LedgerParentOf(meta);
    var visited := {agentId};
    var inherited: Option<Inherited> := None;
    var next := recorded;
    ghost var k: nat := 0;
    while next != Human
      invariant k <= LINEAGE_BOUND && next == Ancestor(meta, tree, k)
      invariant Walked(agentId, meta, tree, k, visited, inherited)
      decreases LINEAGE_BOUND - k
    {
      SeenIffVisited(agentId, meta, tree, k);
      if next.id in visited {
        StopsBefore(agentId, meta, tree, k, visited, inherited);
        return Root(recorded, inherited, Some(Loops(next.id)));
      }
      if |visited| > LINEAGE_BOUND {
        StopsBefore(agentId, meta, tree, k, visited, inherited);
        return Root(recorded, inherited, Some(OverBound));
      }
      if tree.knows(next.id) || tree.running(next.id) {
        StopsBefore(agentId, meta, tree, k, visited, inherited);
        return Root(next, inherited, None);
      }
      ghost var (before, had) := (visited, inherited);
      visited := visited + {next.id};
      var mismatch := if inherited.None? then tree.onRecord(next.id) else None;
      if mismatch.Some? {
        inherited := Some(Inherited(next.id, mismatch.value));
      }
      var row := tree.spawnMeta(next.id);
      if row.None? {
        StopsAfter(agentId, meta, tree, k, before, had);
        return Root(next, inherited, None);
      }
      Passes(agentId, meta, tree, k, before, had);
      next := LedgerParentOf(row);
      k := k + 1;
    }
    StopsBefore(agentId, meta, tree, k, visited, inherited);
    r := Root(Human, inherited, None);
  }

  lemma MetStep(meta: Option<Meta>, tree: Lineage, k: nat, a: string)
    ensures Met(meta, tree, k + 1, Named(a)) <==> Met(meta, tree, k, Named(a)) || Ancestor(meta, tree, k) == Named(a)
  {
    if Met(meta, tree, k, Named(a)) {
      var j: nat :| j < k && Ancestor(meta, tree, j) == Named(a);
      assert j < k + 1 && Ancestor(meta, tree, j) == Named(a);
    }
  }

  lemma {:induction false} VisitedIs(agentId: string, meta: Option<Meta>, tree: Lineage, k: nat, a: string)
    ensures a in VisitedTo(agentId, meta, tree, k) <==>
              a == agentId || Met(meta, tree, k, Named(a))
  {
    if k > 0 {
      VisitedIs(agentId, meta, tree, k - 1, a);
      MetStep(meta, tree, k - 1, a);
    }
  }

  lemma SeenIffVisited(agentId: string, meta: Option<Meta>, tree: Lineage, k: nat)
    ensures Ancestor(meta, tree, k).Named? ==>
              (Seen(agentId, meta, tree, k) <==> Ancestor(meta, tree, k).id in VisitedTo(agentId, meta, tree, k))
  {
    var p := Ancestor(meta, tree, k);
    if p.Named? {
      VisitedIs(agentId, meta, tree, k, p.id);
      assert p == Named(p.id);
    }
  }

  /** The walk stops at ancestor `k` without asking for its record. */
  lemma StopsBefore(agentId: string, meta: Option<Meta>, tree: Lineage, k: nat, visited: set<string>, found: Option<Inherited>)
    requires Walked(agentId, meta, tree, k, visited, found)
    requires !Asked(agentId, meta, tree, k)
    ensures IsInherited(agentId, meta, tree, found)
    ensures End(agentId, meta, tree) == EndFrom(agentId, meta, tree, k)
  {
    forall j: nat
      ensures Asked(agentId, meta, tree, j) <==> j < k
    {
      if j < k { PassedAreAsked(agentId, meta, tree, k, j); }
    }
  }

  lemma PassedAreAsked(agentId: string, meta: Option<Meta>, tree: Lineage, k: nat, j: nat)
    requires k <= LINEAGE_BOUND && SkipsTo(agentId, meta, tree, k) && Unseen(agentId, meta, tree, k) && j < k
    ensures Asked(agentId, meta, tree, j)
  {
    assert Skipped(Ancestor(meta, tree, j), tree);
  }

  function Took(next: string, tree: Lineage, found: Option<Inherited>): Option<Inherited> {
    if found.None? && tree.onRecord(next).Some? then Some(Inherited(next, tree.onRecord(next).value)) else found
  }

  /** The walk asks ancestor `k` for its record and stops there, as it has no spawn row. */
  lemma StopsAfter(agentId: string, meta: Option<Meta>, tree: Lineage, k: nat, visited: set<string>, found: Option<Inherited>)
    requires Walked(agentId, meta, tree, k, visited, found) && Asked(agentId, meta, tree, k)
    requires Anchor(Ancestor(meta, tree, k), tree)
    ensures IsInherited(agentId, meta, tree, Took(Ancestor(meta, tree, k).id, tree, found))
    ensures End(agentId, meta, tree) == EndFrom(agentId, meta, tree, k)
  {
    var after := Took(Ancestor(meta, tree, k).id, tree, found);
    forall j: nat
      ensures Asked(agentId, meta, tree, j) <==> j < k + 1
    {
      if j < k { PassedAreAsked(agentId, meta, tree, k, j); }
    }
  }

  /** The walk asks ancestor `k` for its record and goes past it. */
  lemma Passes(agentId: string, meta: Option<Meta>, tree: Lineage, k: nat, visited: set<string>, found: Option<Inherited>)
    requires Walked(agentId, meta, tree, k, visited, found) && k < LINEAGE_BOUND
    requires Skipped(Ancestor(meta, tree, k), tree) && !Seen(agentId, meta, tree, k)
    requires Ancestor(meta, tree, k).id !in visited
    ensures Walked(agentId, meta, tree, k + 1, visited + {Ancestor(meta, tree, k).id},
                   Took(Ancestor(meta, tree, k).id, tree, found))
  {
    assert SkipsTo(agentId, meta, tree, k + 1);
    assert Unseen(agentId, meta, tree, k + 1);
  }

  // ----- the answer, without the walk -----

  /** The walk passes `k` ancestors without stopping. */
  lemma {:induction false} GoesOn(agentId: string, meta: Option<Meta>, tree: Lineage, k: nat)
    requires k <= LINEAGE_BOUND && SkipsTo(agentId, meta, tree, k) && Unseen(agentId, meta, tree, k)
    ensures End(agentId, meta, tree) == EndFrom(agentId, meta, tree, k)
  {
    if k > 0 {
      GoesOn(agentId, meta, tree, k - 1);
      assert Skipped(Ancestor(meta, tree, k - 1), tree);
    }
  }

  /** Ancestor `k` is the nearest the agent can root at: all before it are passed, at most 512 of them. */
  ghost predicate Nearest(agentId: string, meta: Option<Meta>, tree: Lineage, k: nat) {
    var p := Ancestor(meta, tree, k);
    && SkipsTo(agentId, meta, tree, k)
    && (if p.Human? then k <= LINEAGE_BOUND else k < LINEAGE_BOUND && Anchor(p, tree) && p != Named(agentId))
  }

  /** The loop check never fires on the way to an ancestor the agent can root at. */
  lemma NearestIsTheEnd(agentId: string, meta: Option<Meta>, tree: Lineage, k: nat)
    requires Nearest(agentId, meta, tree, k)
    ensures End(agentId, meta, tree) == (Ancestor(meta, tree, k), None)
  {
    forall j: nat | j <= k && Ancestor(meta, tree, j) != Human
      ensures !Seen(agentId, meta, tree, j)
    {
      if Met(meta, tree, j, Ancestor(meta, tree, j)) {
        var i: nat :| i < j && Ancestor(meta, tree, i) == Ancestor(meta, tree, j);
        ArrivingMeansNoLoop(agentId, meta, tree, k, i, j);
      }
    }
    GoesOn(agentId, meta, tree, k);
  }

  lemma {:induction false} ResolvedFrom(agentId: string, meta: Option<Meta>, tree: Lineage, k: nat) returns (n: nat)
    requires k <= LINEAGE_BOUND && SkipsTo(agentId, meta, tree, k)
    requires EndFrom(agentId, meta, tree, k).1.None?
    ensures Nearest(agentId, meta, tree, n)
    decreases LINEAGE_BOUND - k
  {
    var next := Ancestor(meta, tree, k);
    if next.Human? || Anchor(next, tree) {
      n := k;
    } else {
      assert SkipsTo(agentId, meta, tree, k + 1);
      n := ResolvedFrom(agentId, meta, tree, k + 1);
    }
  }

  /** A root is resolved exactly when the lineage has a nearest running, enrolled or row-less ancestor, or
    * comes to the human, within the bound; that ancestor is then the parent. Nothing else is ever the parent
    * but the recorded one. */
  lemma RootIsNearest(agentId: string, meta: Option<Meta>, tree: Lineage, r: Root)
    requires Answers(agentId, meta, tree, r)
    ensures r.unresolved.None? <==> exists k: nat :: Nearest(agentId, meta, tree, k)
    ensures r.unresolved.None? ==> exists k: nat :: Nearest(agentId, meta, tree, k) && r.parent == Ancestor(meta, tree, k)
    ensures r.unresolved.Some? ==> r.parent == LedgerParentOf(meta)
  {
    if r.unresolved.None? {
      var n := ResolvedFrom(agentId, meta, tree, 0);
      NearestIsTheEnd(agentId, meta, tree, n);
    } else {
      forall k: nat | Nearest(agentId, meta, tree, k)
        ensures false
      {
        NearestIsTheEnd(agentId, meta, tree, k);
      }
      UnresolvedIsRecorded(agentId, meta, tree, 0);
    }
  }

  lemma {:induction false} UnresolvedIsRecorded(agentId: string, meta: Option<Meta>, tree: Lineage, k: nat)
    requires EndFrom(agentId, meta, tree, k).1.Some?
    ensures EndFrom(agentId, meta, tree, k).0 == LedgerParentOf(meta)
    decreases LINEAGE_BOUND - k
  {
    var next := Ancestor(meta, tree, k);
    if next.Named? && !Seen(agentId, meta, tree, k) && k < LINEAGE_BOUND && !Anchor(next, tree) {
      UnresolvedIsRecorded(agentId, meta, tree, k + 1);
    }
  }

  lemma {:induction false} HumanStays(meta: Option<Meta>, tree: Lineage, m: nat, n: nat)
    requires m <= n
    ensures Ancestor(meta, tree, m).Human? ==> Ancestor(meta, tree, n).Human?
  {
    if m < n { HumanStays(meta, tree, m, n - 1); }
  }

  lemma {:induction false} LoopNeverArrives(meta: Option<Meta>, tree: Lineage, i: nat, j: nat, m: nat)
    requires i < j && Ancestor(meta, tree, i) == Ancestor(meta, tree, j) && Ancestor(meta, tree, i).Named?
    ensures Ancestor(meta, tree, m).Named?
    decreases m
  {
    if m <= j {
      HumanStays(meta, tree, m, j);
    } else {
      SameSteps(meta, tree, i, j, m - j);
      LoopNeverArrives(meta, tree, i, j, i + (m - j));
    }
  }

  lemma {:induction false} LoopIsAt(agentId: string, meta: Option<Meta>, tree: Lineage, k: nat) returns (n: nat)
    requires EndFrom(agentId, meta, tree, k).1.Some? && EndFrom(agentId, meta, tree, k).1.value.Loops?
    ensures Ancestor(meta, tree, n) == Named(EndFrom(agentId, meta, tree, k).1.value.at) && Seen(agentId, meta, tree, n)
    decreases LINEAGE_BOUND - k
  {
    if Seen(agentId, meta, tree, k) {
      n := k;
    } else {
      n := LoopIsAt(agentId, meta, tree, k + 1);
    }
  }

  /** A loop is reported only when there is one: a lineage that starts at the agent's own spawn row then
    * never comes to the human, however far it is followed. */
  lemma ReportedLoopIsReal(agentId: string, meta: Option<Meta>, tree: Lineage, r: Root, m: nat)
    requires Answers(agentId, meta, tree, r) && tree.spawnMeta(agentId) == meta
    requires r.unresolved.Some? && r.unresolved.value.Loops?
    ensures Ancestor(meta, tree, m).Named?
  {
    var n := LoopIsAt(agentId, meta, tree, 0);
    if Ancestor(meta, tree, n) == Named(agentId) {
      assert Ancestor(meta, tree, n + 1) == Ancestor(meta, tree, 0);
      HumanStays(meta, tree, 0, n);
      LoopNeverArrives(meta, tree, 0, n + 1, m);
    } else {
      var j: nat :| j < n && Ancestor(meta, tree, j) == Ancestor(meta, tree, n);
      LoopNeverArrives(meta, tree, j, n, m);
    }
  }

  /** Over the bound is said exactly of a lineage of 512 different ancestors to walk past and one more. */
  lemma OverBoundIsExact(agentId: string, meta: Option<Meta>, tree: Lineage, r: Root)
    requires Answers(agentId, meta, tree, r)
    ensures r.unresolved == Some(OverBound) <==>
              && SkipsTo(agentId, meta, tree, LINEAGE_BOUND) && Unseen(agentId, meta, tree, LINEAGE_BOUND + 1)
              && Ancestor(meta, tree, LINEAGE_BOUND).Named?
  {
    if r.unresolved == Some(OverBound) { OverFrom(agentId, meta, tree, 0); }
    if SkipsTo(agentId, meta, tree, LINEAGE_BOUND) && Unseen(agentId, meta, tree, LINEAGE_BOUND + 1) {
      assert !Seen(agentId, meta, tree, LINEAGE_BOUND);
      GoesOn(agentId, meta, tree, LINEAGE_BOUND);
    }
  }

  lemma {:induction false} OverFrom(agentId: string, meta: Option<Meta>, tree: Lineage, k: nat)
    requires k <= LINEAGE_BOUND && SkipsTo(agentId, meta, tree, k) && Unseen(agentId, meta, tree, k)
    requires EndFrom(agentId, meta, tree, k).1 == Some(OverBound)
    ensures SkipsTo(agentId, meta, tree, LINEAGE_BOUND) && Unseen(agentId, meta, tree, LINEAGE_BOUND + 1)
    ensures Ancestor(meta, tree, LINEAGE_BOUND).Named?
    decreases LINEAGE_BOUND - k
  {
    if k < LINEAGE_BOUND { OverFrom(agentId, meta, tree, k + 1); }
  }

  // ----- the answer, on the spawn rows themselves -----

  /** By the spawn row of an agent its ledger parent is `id`: the one it teleported from, or else its parent. */
  ghost predicate RowNames(meta: Option<Meta>, id: string) {
    && meta.Some? && id != ""
    && (meta.value.teleportFrom == id || (meta.value.teleportFrom == "" && meta.value.parent == id))
  }

  /** By its spawn row, or for want of one, an agent has no parent but the human. */
  ghost predicate RowNamesNobody(meta: Option<Meta>) {
    meta.None? || (meta.value.teleportFrom == "" && meta.value.parent == "")
  }

  /** From ledger parent to ledger parent, past agents not enrolled, not running and with a spawn row. */
  ghost predicate Line(agentId: string, meta: Option<Meta>, tree: Lineage, line: seq<string>) {
    && line != [] && RowNames(meta, line[0]) && (forall k :: 0 <= k < |line| ==> line[k] != agentId)
    && forall k :: 0 <= k < |line| - 1 ==>
         !tree.knows(line[k]) && !tree.running(line[k]) && RowNames(tree.spawnMeta(line[k]), line[k + 1])
  }

  ghost predicate Passable(tree: Lineage, id: string) {
    !tree.knows(id) && !tree.running(id) && tree.spawnMeta(id).Some?
  }

  /** The root is an agent exactly when such a line of at most 512 ends in it, and it is enrolled, running or without a
    * spawn row. */
  lemma RootedAtIff(agentId: string, meta: Option<Meta>, tree: Lineage, r: Root, root: string)
    requires Answers(agentId, meta, tree, r)
    ensures r.unresolved.None? && r.parent == Named(root) <==>
              exists line :: Line(agentId, meta, tree, line) && |line| <= 512 && line[|line| - 1] == root && !Passable(tree, root)
  {
    RootIsNearest(agentId, meta, tree, r);
    if line :| Line(agentId, meta, tree, line) && |line| <= 512 && line[|line| - 1] == root && !Passable(tree, root) {
      LineIsNearest(agentId, meta, tree, line);
      NearestIsTheEnd(agentId, meta, tree, |line| - 1);
    }
    if r.unresolved.None? && r.parent == Named(root) {
      var k: nat :| Nearest(agentId, meta, tree, k) && r.parent == Ancestor(meta, tree, k);
      var line := LineTo(agentId, meta, tree, k);
    }
  }

  /** The root is the human exactly when no agent is recorded as parent, or such a line of at most 512 agents, all to be
    * passed, ends in one with none recorded. */
  lemma RootedAtHumanIff(agentId: string, meta: Option<Meta>, tree: Lineage, r: Root)
    requires Answers(agentId, meta, tree, r)
    ensures r.unresolved.None? && r.parent == Human <==>
              || RowNamesNobody(meta)
              || exists line :: Line(agentId, meta, tree, line) && |line| <= 512 && Passable(tree, line[|line| - 1])
                          && RowNamesNobody(tree.spawnMeta(line[|line| - 1]))
  {
    RootIsNearest(agentId, meta, tree, r);
    if RowNamesNobody(meta) { NearestIsTheEnd(agentId, meta, tree, 0); }
    if line :| Line(agentId, meta, tree, line) && |line| <= 512 && Passable(tree, line[|line| - 1])
               && RowNamesNobody(tree.spawnMeta(line[|line| - 1])) {
      PassedLine(agentId, meta, tree, line);
      NearestIsTheEnd(agentId, meta, tree, |line|);
    }
    if r.unresolved.None? && r.parent == Human {
      var k: nat :| Nearest(agentId, meta, tree, k) && Ancestor(meta, tree, k) == Human;
      var n := FirstHuman(meta, tree, k);
      if n > 0 { var line := LineTo(agentId, meta, tree, n - 1); }
    }
  }

  lemma {:induction false} LineIsUp(agentId: string, meta: Option<Meta>, tree: Lineage, line: seq<string>, k: nat)
    requires Line(agentId, meta, tree, line) && k < |line|
    ensures Ancestor(meta, tree, k) == Named(line[k])
  {
    if k > 0 { LineIsUp(agentId, meta, tree, line, k - 1); }
  }

  lemma LineSkips(agentId: string, meta: Option<Meta>, tree: Lineage, line: seq<string>)
    requires Line(agentId, meta, tree, line)
    ensures SkipsTo(agentId, meta, tree, |line| - 1) && Ancestor(meta, tree, |line| - 1) == Named(line[|line| - 1])
    ensures line[|line| - 1] != agentId
  {
    forall j: nat | j < |line| - 1
      ensures Skipped(Ancestor(meta, tree, j), tree) && Ancestor(meta, tree, j) != Named(agentId)
    {
      LineIsUp(agentId, meta, tree, line, j);
      assert line[j] != agentId && RowNames(tree.spawnMeta(line[j]), line[j + 1]);
    }
    LineIsUp(agentId, meta, tree, line, |line| - 1);
  }

  lemma LineIsNearest(agentId: string, meta: Option<Meta>, tree: Lineage, line: seq<string>)
    requires Line(agentId, meta, tree, line) && |line| <= 512 && !Passable(tree, line[|line| - 1])
    ensures Nearest(agentId, meta, tree, |line| - 1) && Ancestor(meta, tree, |line| - 1) == Named(line[|line| - 1])
  {
    LineSkips(agentId, meta, tree, line);
  }

  lemma PassedLine(agentId: string, meta: Option<Meta>, tree: Lineage, line: seq<string>)
    requires Line(agentId, meta, tree, line) && |line| <= 512 && Passable(tree, line[|line| - 1])
    requires RowNamesNobody(tree.spawnMeta(line[|line| - 1]))
    ensures Nearest(agentId, meta, tree, |line|) && Ancestor(meta, tree, |line|) == Human
  {
    LineSkips(agentId, meta, tree, line);
    assert Ancestor(meta, tree, |line|) == ParentOf(Ancestor(meta, tree, |line| - 1), tree);
  }

  lemma {:induction false} FirstHuman(meta: Option<Meta>, tree: Lineage, k: nat) returns (n: nat)
    requires Ancestor(meta, tree, k).Human?
    ensures n <= k && Ancestor(meta, tree, n).Human? && forall j: nat :: j < n ==> Ancestor(meta, tree, j).Named?
  {
    if k > 0 && Ancestor(meta, tree, k - 1).Human? {
      n := FirstHuman(meta, tree, k - 1);
    } else {
      n := k;
      forall j: nat | j < k ensures Ancestor(meta, tree, j).Named? { HumanStays(meta, tree, j, k - 1); }
    }
  }

  lemma {:induction false} LineTo(agentId: string, meta: Option<Meta>, tree: Lineage, k: nat) returns (line: seq<string>)
    requires SkipsTo(agentId, meta, tree, k) && Ancestor(meta, tree, k).Named? && Ancestor(meta, tree, k) != Named(agentId)
    ensures Line(agentId, meta, tree, line) && |line| == k + 1 && Ancestor(meta, tree, k) == Named(line[k])
  {
    if k == 0 {
      line := [Ancestor(meta, tree, 0).id];
    } else {
      assert Skipped(Ancestor(meta, tree, k - 1), tree);
      var init := LineTo(agentId, meta, tree, k - 1);
      line := init + [Ancestor(meta, tree, k).id];
      assert Ancestor(meta, tree, k) == ParentOf(Ancestor(meta, tree, k - 1), tree);
    }
  }

  // ----- the index of spawn rows -----

  /** A log row; `spawn` when its kind is `agent_spawned`. */
  datatype Row = Row(spawn: bool, msgId: Option<string>, meta: Meta)

  predicate Spawns(row: Row, id: string) { row.spawn && row.msgId == Some(id) }

  function FirstSpawn(rows: seq<Row>, id: string): Option<Row> {
    if rows == [] then None else if Spawns(rows[0], id) then Some(rows[0]) else FirstSpawn(rows[1..], id)
  }

  /** Appending to the log changes no answer already given. */
  lemma {:induction false} FirstSpawnStays(rows: seq<Row>, more: seq<Row>, id: string)
    ensures FirstSpawn(rows, id).Some? ==> FirstSpawn(rows + more, id) == FirstSpawn(rows, id)
    ensures FirstSpawn(rows, id).None? ==> FirstSpawn(rows + more, id) == FirstSpawn(more, id)
  {
    if rows == [] {
      assert rows + more == more;
    } else {
      assert (rows + more)[1..] == rows[1..] + more;
      FirstSpawnStays(rows[1..], more, id);
    }
  }

  lemma FirstSpawnAt(rows: seq<Row>, i: nat, id: string)
    requires i < |rows|
    ensures Spawns(rows[i], id) && FirstSpawn(rows[..i], id).None? ==> FirstSpawn(rows, id) == Some(rows[i])
    ensures FirstSpawn(rows[..i + 1], id).Some? ==> FirstSpawn(rows[..i], id).Some? || Spawns(rows[i], id)
  {
    assert rows == rows[..i] + rows[i..] && rows[..i + 1] == rows[..i] + [rows[i]];
    FirstSpawnStays(rows[..i], rows[i..], id);
    FirstSpawnStays(rows[..i], [rows[i]], id);
  }

  /** The event log, which anyone may append to. */
  class Log {
    var rows: seq<Row>

    method Append(row: Row)
      modifies this
      ensures rows == old(rows) + [row]
    {
      rows := rows + [row];
    }
  }

  class SpawnRowIndex {
    const log: Log
    var index: map<string, Row>

    /** Every row kept is the log's first spawn row for its id. */
    ghost predicate Valid()
      reads this, log
    {
      forall id :: id in index ==> FirstSpawn(log.rows, id) == Some(index[id])
    }

    constructor (log: Log)
      ensures Valid() && this.log == log
    {
      this.log := log;
      index := map[];
    }

    method Refresh()
      requires Valid()
      modifies this
      ensures Valid()
      ensures forall id :: id in index <==> FirstSpawn(log.rows, id).Some?
    {
      var rows := log.rows;
      var i := 0;
      assert rows[..0] == [];
      while i < |rows|
        invariant 0 <= i <= |rows| && rows == log.rows && Valid()
        invariant forall id :: FirstSpawn(rows[..i], id).Some? ==> id in index
      {
        var row := rows[i];
        forall id
          ensures row.spawn && row.msgId == Some(id) && FirstSpawn(rows[..i], id).None? ==> FirstSpawn(rows, id) == Some(row)
          ensures FirstSpawn(rows[..i + 1], id).Some? ==> FirstSpawn(rows[..i], id).Some? || Spawns(row, id)
        {
          FirstSpawnAt(rows, i, id);
        }
        if row.spawn && row.msgId.Some? && row.msgId.value !in index {
          index := index[row.msgId.value := row];
        }
        i := i + 1;
      }
      assert rows[..|rows|] == rows;
    }

    /** A hit is answered from the index and a miss reads the log; either way it is the first spawn row. */
    method Lookup(id: string) returns (row: Option<Row>)
      requires Valid()
      modifies this
      ensures Valid()
      ensures row == FirstSpawn(log.rows, id)
      ensures id in old(index) ==> index == old(index)
    {
      if id !in index {
        Refresh();
      }
      row := if id in index then Some(index[id]) else None;
    }
  }

  /** Appends leave the index right. */
  twostate lemma AppendKeepsIndex(index: SpawnRowIndex)
    requires old(index.Valid()) && unchanged(index) && old(index.log.rows) <= index.log.rows
    ensures index.Valid()
  {
    var was, now := old(index.log.rows), index.log.rows;
    assert now == was + now[|was|..];
    forall id | id in index.index
      ensures FirstSpawn(now, id) == Some(index.index[id])
    {
      FirstSpawnStays(was, now[|was|..], id);
    }
  }
}
