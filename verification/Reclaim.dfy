/** Removing one temporary directory: the depth-first walk that takes each entry as soon as it is done, stops at the
  * deadline, and unlinks a symlink it meets without following it. */
module Reclaim {
  import opened TmpPaths
  import opened TmpSweep

  predicate IsDirectory(s: Stat) { s.directory && !s.symlink }

  predicate Below(p: string, dir: string) { StartsWith(p, dir + "/") }

  /** The entry of `dir` that `p`, below it, is or lies under. */
  function EntryOf(p: string, dir: string): string
    requires Below(p, dir)
  {
    p[..FirstSlash(p, |dir| + 1)]
  }

  function FirstSlash(p: string, from: nat): (i: nat)
    requires from <= |p|
    ensures from <= i <= |p| && (i == |p| || p[i] == '/')
    ensures forall j :: from <= j < i ==> p[j] != '/'
    decreases |p| - from
  {
    if from == |p| || p[from] == '/' then from else FirstSlash(p, from + 1)
  }

  predicate IsEntry(p: string, dir: string) { Below(p, dir) && EntryOf(p, dir) == p }

  function Entries(nodes: Nodes, dir: string): set<string> { set p | p in nodes && IsEntry(p, dir) }

  /** Only directories have anything below them, and all that is below one is under an entry of it. */
  ghost predicate IsTree(nodes: Nodes) {
    && (forall p, d :: p in nodes && d in nodes && Below(p, d) ==> nodes[d].directory && !nodes[d].symlink)
    && (forall p, d :: p in nodes && d in nodes && Below(p, d) ==> EntryOf(p, d) in nodes)
  }

  ghost function Holds(nodes: Nodes, dir: string): set<string> { set p | p in nodes && IsInside(p, dir) }

  lemma BelowBelow(p: string, q: string, dir: string)
    requires IsInside(p, q) && IsInside(q, dir)
    ensures IsInside(p, dir) && (q != dir ==> Below(p, dir))
  {
    if p != q && q != dir {
      assert p[..|dir + "/"|] == p[..|q + "/"|][..|dir + "/"|] == q[..|dir + "/"|];
    }
  }

  lemma UnderItsEntry(p: string, dir: string)
    requires Below(p, dir)
    ensures IsInside(p, EntryOf(p, dir)) && IsEntry(EntryOf(p, dir), dir)
  {
    var i := FirstSlash(p, |dir| + 1);
    var c := p[..i];
    assert c[..|dir + "/"|] == p[..|dir + "/"|];
    if i < |p| { assert c + "/" == p[..i + 1]; }
    assert FirstSlash(c, |dir| + 1) == i;
  }

  lemma StaysTree(nodes: Nodes, dir: string, now: Nodes)
    requires IsTree(nodes) && InsideOnly(nodes, dir, now)
    ensures IsTree(now)
  {
    forall p, d | p in now && d in now && Below(p, d)
      ensures IsDirectory(now[d]) && EntryOf(p, d) in now
    {
      UnderItsEntry(p, d);
      assert IsInside(p, EntryOf(p, d)) && EntryOf(p, d) in nodes;
    }
  }

  /** Taking one more entry's part away is taking part of the directory away. */
  lemma InsideMore(nodes: Nodes, dir: string, now: Nodes, entry: string, next: Nodes)
    requires InsideOnly(nodes, dir, now) && IsInside(entry, dir) && InsideOnly(now, entry, next)
    ensures InsideOnly(nodes, dir, next)
  {
    forall p | p in nodes && p !in next
      ensures IsInside(p, dir)
    {
      if p in now { BelowBelow(p, entry, dir); }
    }
  }

  /** Taking away what nothing is below. */
  lemma TakesOne(nodes: Nodes, p: string)
    requires p in nodes && forall q :: q in nodes ==> !Below(q, p)
    ensures InsideOnly(nodes, p, nodes - {p})
  {
    assert IsInside(p, p);
  }

  lemma TakesNothing(nodes: Nodes, dir: string)
    ensures InsideOnly(nodes, dir, nodes)
  {
  }

  /** A directory without entries has nothing below it. */
  lemma NothingBelow(nodes: Nodes, dir: string)
    requires IsTree(nodes) && dir in nodes && Entries(nodes, dir) == {}
    ensures forall q :: q in nodes ==> !Below(q, dir)
  {
    forall q | q in nodes && Below(q, dir)
      ensures EntryOf(q, dir) in Entries(nodes, dir)
    {
      UnderItsEntry(q, dir);
    }
  }

  lemma NothingUnder(nodes: Nodes, p: string)
    requires IsTree(nodes) && p in nodes && !IsDirectory(nodes[p])
    ensures forall q :: q in nodes ==> !Below(q, p)
  {
  }

  lemma FewerHeld(nodes: Nodes, dir: string, now: Nodes, entry: string)
    requires now.Keys <= nodes.Keys && dir in nodes && IsEntry(entry, dir)
    ensures |Holds(now, entry)| < |Holds(nodes, dir)|
  {
    forall p | p in Holds(now, entry) ensures p in Holds(nodes, dir) - {dir} { BelowBelow(p, entry, dir); }
    assert dir in Holds(nodes, dir);
    Fewer(Holds(now, entry), Holds(nodes, dir) - {dir});
  }

  lemma {:induction false} Fewer(a: set<string>, b: set<string>)
    requires a <= b
    ensures |a| <= |b|
  {
    assert b == a + (b - a);
  }

  /** What is left is what a completed or an interrupted removal leaves, as the sweep describes them. */
  lemma LeftIsAnOutcome(nodes: Nodes, dir: string, now: Nodes)
    requires InsideOnly(nodes, dir, now)
    ensures dir in nodes && dir !in now ==> now == Cleared(nodes, dir)
    ensures dir in nodes && dir in now ==> now == Thinned(nodes, dir, nodes.Keys - now.Keys)
  {
    if dir in nodes && dir !in now {
      forall p | p in nodes ensures p in now <==> !IsInside(p, dir) {
      }
    } else if dir in nodes {
      var cut := nodes.Keys - now.Keys;
      forall p | p in nodes ensures p in now <==> !Cut(p, dir, cut) {
        if p !in now { assert p in cut && IsInside(p, p) && IsInside(p, dir); }
      }
    }
  }

  /** What the walk meets: at its `n`-th operation, whether it fails; at its `n`-th look at the clock, whether the
    * deadline has passed. */
  class Reclaimer {
    var nodes: Nodes
    var complete: bool
    var ops: nat
    var looks: nat
    const fails: nat -> bool
    const late: nat -> bool

    constructor (nodes: Nodes, fails: nat -> bool, late: nat -> bool)
      ensures this.nodes == nodes && complete && this.fails == fails && this.late == late
    {
      this.nodes, complete, ops, looks, this.fails, this.late := nodes, true, 0, 0, fails, late;
    }

    /** Nothing fails and the deadline is never met. */
    ghost predicate Smooth()
      reads this
    {
      forall n :: !fails(n) && !late(n)
    }

    method Operation() returns (ok: bool)
      modifies this`ops
      ensures Smooth() ==> ok
    {
      ok := !fails(ops);
      ops := ops + 1;
    }

    /** `unlink`, or `rmdir` of what is empty. */
    method Take(p: string) returns (ok: bool)
      requires IsTree(nodes) && p in nodes && forall q :: q in nodes ==> !Below(q, p)
      modifies this`ops, this`nodes
      ensures InsideOnly(old(nodes), p, nodes) && IsTree(nodes)
      ensures ok ==> p !in nodes
      ensures !ok ==> nodes == old(nodes)
      ensures Smooth() ==> ok
    {
      ok := Operation();
      TakesNothing(nodes, p);
      if ok {
        TakesOne(nodes, p);
        StaysTree(nodes, p, nodes - {p});
        nodes := nodes - {p};
      }
    }

    /** `reclaimTree`: whatever fails and whenever the deadline passes, what is left is one of the outcomes the sweep
      * reckons with. */
    method ReclaimTree(dir: string) returns (outcome: Outcome)
      requires IsTree(nodes) && dir in nodes && nodes[dir].directory && !nodes[dir].symlink
      modifies this
      ensures nodes == After(old(nodes), dir, outcome) && IsTree(nodes)
      ensures Smooth() ==> outcome == Done
    {
      var before := nodes;
      complete := true;
      var ok := ReclaimDir(dir);
      LeftIsAnOutcome(before, dir, nodes);
      var cut := before.Keys - nodes.Keys;
      outcome := if !ok then Threw(cut) else if complete then Done else Partial(cut);
    }

    /** `reclaimDir`; false where it throws. All that goes was in the directory, which goes last; it is gone if the
      * walk completes, and the walk does unless something fails or the deadline passes. */
    method ReclaimDir(dir: string) returns (ok: bool)
      requires IsTree(nodes) && complete && (dir in nodes ==> nodes[dir].directory && !nodes[dir].symlink)
      modifies this
      ensures InsideOnly(old(nodes), dir, nodes) && IsTree(nodes)
      ensures if ok && complete then dir !in nodes else dir in nodes
      ensures Smooth() ==> ok && complete
      decreases |Holds(nodes, dir)|, 1
    {
      TakesNothing(nodes, dir);
      if dir !in nodes {
        return true;
      }
      ok := Operation();
      if !ok {
        return;
      }
      ok := Operation();
      if !ok {
        return;
      }
      ok := ReclaimEntries(dir);
      if !ok || !complete {
        return;
      }
      ghost var before := nodes;
      NothingBelow(nodes, dir);
      ok := Take(dir);
      InsideMore(old(nodes), dir, before, dir, nodes);
    }

    /** The loop over the entries read. */
    method ReclaimEntries(dir: string) returns (ok: bool)
      requires IsTree(nodes) && complete && dir in nodes
      modifies this
      ensures InsideOnly(old(nodes), dir, nodes) && IsTree(nodes) && dir in nodes
      ensures ok && complete ==> Entries(nodes, dir) == {}
      ensures Smooth() ==> ok && complete
      decreases |Holds(nodes, dir)|, 0
    {
      var left := Entries(nodes, dir);
      ok := true;
      TakesNothing(nodes, dir);
      while left != {}
        invariant ok && complete && IsTree(nodes) && dir in nodes
        invariant InsideOnly(old(nodes), dir, nodes)
        invariant Entries(nodes, dir) <= left && left <= Entries(old(nodes), dir)
        decreases left
      {
        var entry :| entry in left;
        left := left - {entry};
        looks := looks + 1;
        if late(looks - 1) {
          complete := false;
          return;
        }
        ghost var before := nodes;
        FewerHeld(old(nodes), dir, nodes, entry);
        ok := ReclaimEntry(entry);
        InsideMore(old(nodes), dir, before, entry, nodes);
        assert !IsInside(dir, entry);
        if !ok || !complete {
          return;
        }
        assert Entries(nodes, dir) <= Entries(before, dir) - {entry};
      }
    }

    /** One entry: a directory is walked, anything else unlinked, a symlink too; a missing one is no failure. */
    method ReclaimEntry(entry: string) returns (ok: bool)
      requires IsTree(nodes) && complete
      modifies this
      ensures InsideOnly(old(nodes), entry, nodes) && IsTree(nodes)
      ensures ok && complete ==> entry !in nodes
      ensures Smooth() ==> ok && complete
      decreases |Holds(nodes, entry)|, 2
    {
      TakesNothing(nodes, entry);
      if entry !in nodes {
        ok := true;
      } else if IsDirectory(nodes[entry]) {
        ok := ReclaimDir(entry);
      } else {
        NothingUnder(nodes, entry);
        ok := Take(entry);
      }
    }
  }
}
